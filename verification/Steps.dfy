/** What each instruction does to the ledger: the new ledger, or the error that leaves the
    transaction without effect.  The checks stand in the order the handlers make them. */
module Steps {
  import opened Results
  import opened Ints
  import opened Oracle
  import opened Ledgers
  import opened Navs

  // ---- shares ----------------------------------------------------------------------------

  function BpsOf(amount: nat, bps: u16): nat {
    Div(Mul(amount, bps), 10_000)
  }

  /** Pro-rata share of `whole`, rounded down; `parts` of `total`. */
  function ProRata(parts: nat, whole: nat, total: nat): nat
    requires total > 0
  {
    Div(Mul(parts, whole), total)
  }

  /** The fee on a deposit and what remains of it. */
  datatype Split = Split(fee: u64, net: u64)

  function SplitDeposit(env: Env, s: Ledger, amount: u64): Result<Split> {
    if amount < s.minDeposit then Err(DepositTooSmall) else
    var fee := BpsOf(amount, env.depositFeeBps);
    :- Need(fee <= amount, MathOverflow);
    Ok(Split(fee, amount - fee))
  }

  function SharesFor(s: Ledger, net: u64, nav: u64): Result<u64> {
    if nav == 0 then Err(MathOverflow) else
    :- Need(s.totalShares > 0, MathOverflow);
    var minted := AsU64(ProRata(net, s.totalShares, nav));
    :- Need(minted > 0, ZeroShares);
    Ok(minted)
  }

  function PayDeposit(env: Env, s: Ledger, investor: Address, split: Split): Result<map<Address, u64>> {
    var paidFee :- Move(s.wallets, investor, env.treasury, split.fee);
    if split.net == 0 then Ok(paidFee) else DebitFrom(paidFee, investor, split.net)
  }

  /** The share ledger: balances, mint supply and the fund state's own total. */
  datatype ShareBook = ShareBook(shares: map<Address, u64>, supply: u64, total: u64)

  function MintShares(s: Ledger, investor: Address, minted: u64): Result<ShareBook> {
    var shares :- CreditTo(s.shares, investor, minted);
    var supply :- AddU64(s.shareSupply, minted);
    var total :- AddU64(s.totalShares, minted);
    Ok(ShareBook(shares, supply, total))
  }

  /** What a deposit or a payout does to the wallets, the vault and the shares. */
  datatype Paid = Paid(wallets: map<Address, u64>, vaultSol: u64, book: ShareBook)

  function DepositPaid(env: Env, s: Ledger, investor: Address, amount: u64, accounts: seq<Address>): Result<Paid> {
    var split :- SplitDeposit(env, s, amount);
    var nav :- Nav(env, s, accounts);
    var minted :- SharesFor(s, split.net, nav);
    var wallets :- PayDeposit(env, s, investor, split);
    var vaultSol :- AddU64(s.vaultSol, split.net);
    var book :- MintShares(s, investor, minted);
    Ok(Paid(wallets, vaultSol, book))
  }

  function DepositStep(env: Env, s: Ledger, investor: Address, amount: u64, accounts: seq<Address>): Result<Ledger> {
    var paid :- DepositPaid(env, s, investor, amount, accounts);
    Ok(s.(wallets := paid.wallets, vaultSol := paid.vaultSol, shares := paid.book.shares,
          shareSupply := paid.book.supply, totalShares := paid.book.total))
  }

  function RequestWithdrawStep(env: Env, s: Ledger, investor: Address, amount: u64): Result<Ledger> {
    if amount == 0 then Err(InvalidWithdrawal) else
    :- Need(Balance(s.shares, investor) >= amount, InsufficientShares);
    Ok(s.(requests := s.requests[investor := Request(amount, env.now)]))
  }

  function CancelWithdrawStep(s: Ledger, investor: Address): Result<Ledger> {
    if investor !in s.requests then Err(AccountError) else
    Ok(s.(requests := s.requests - {investor}))
  }

  /** The request of an investor who may be paid now. */
  function DueRequest(env: Env, s: Ledger, investor: Address): Result<Request> {
    if investor !in s.requests then Err(AccountError) else
    var request := s.requests[investor];
    :- Need(request.shares > 0, InvalidWithdrawal);
    var unlockTime :- AddI64(request.ts, s.timelock);
    :- Need(env.now >= unlockTime, WithdrawTimelock);
    :- Need(s.totalShares > 0, MathOverflow);
    :- Need(s.totalShares >= request.shares, MathOverflow);
    :- Need(Balance(s.shares, investor) >= request.shares, InsufficientShares);
    Ok(request)
  }

  datatype Payout = Payout(gross: u64, fee: u64, net: u64)

  function PayoutFor(env: Env, s: Ledger, shares: u64, nav: u64): Result<Payout> {
    if nav == 0 || s.totalShares == 0 then Err(MathOverflow) else
    var gross := AsU64(ProRata(shares, nav, s.totalShares));
    var fee := AsU64(BpsOf(gross, env.withdrawFeeBps));
    var net :- SubU64(gross, fee);
    :- Need(s.vaultSol >= gross, InsufficientLiquidity);
    Ok(Payout(gross, fee, net))
  }

  function BurnShares(s: Ledger, investor: Address, burnt: u64): Result<ShareBook> {
    var shares :- DebitFrom(s.shares, investor, burnt);
    var supply :- SubU64(s.shareSupply, burnt);
    var total :- SubU64(s.totalShares, burnt);
    Ok(ShareBook(shares, supply, total))
  }

  /** The vault, the investor and the treasury are borrowed at the same time, so they must differ. */
  function PayInvestor(env: Env, s: Ledger, investor: Address, payout: Payout): Result<map<Address, u64>> {
    if investor == env.treasury then Err(AccountError) else
    var paid :- CreditTo(s.wallets, investor, payout.net);
    if payout.fee == 0 then Ok(paid) else CreditTo(paid, env.treasury, payout.fee)
  }

  function WithdrawPaid(env: Env, s: Ledger, investor: Address, accounts: seq<Address>): Result<Paid> {
    var request :- DueRequest(env, s, investor);
    var nav :- Nav(env, s, accounts);
    var payout :- PayoutFor(env, s, request.shares, nav);
    var book :- BurnShares(s, investor, request.shares);
    var wallets :- PayInvestor(env, s, investor, payout);
    var vaultSol :- SubU64(s.vaultSol, payout.gross);
    Ok(Paid(wallets, vaultSol, book))
  }

  function ExecuteWithdrawStep(env: Env, s: Ledger, investor: Address, accounts: seq<Address>): Result<Ledger> {
    var paid :- WithdrawPaid(env, s, investor, accounts);
    Ok(s.(wallets := paid.wallets, vaultSol := paid.vaultSol, shares := paid.book.shares,
          shareSupply := paid.book.supply, totalShares := paid.book.total, requests := s.requests - {investor}))
  }

  function TransferSharesStep(s: Ledger, sender: Address, receiver: Address, amount: u64): Result<Ledger> {
    var debited :- DebitFrom(s.shares, sender, amount);
    var shares :- CreditTo(debited, receiver, amount);
    Ok(s.(shares := shares))
  }

  // ---- whitelist -------------------------------------------------------------------------

  function AddTokenStep(s: Ledger, signer: Address, mint: Address, listing: Listing): Result<Ledger> {
    if signer != s.manager then Err(Unauthorized) else
    :- Need(mint !in s.listings, AlreadyInitialized);
    var enabledCount :- AddU16(s.enabledCount, 1);
    Ok(s.(listings := s.listings[mint := listing],
          tokens := s.tokens[mint := Balance(s.tokens, mint)],
          enabledCount := enabledCount))
  }

  /** Closing a whitelist record that does not exist succeeds and still lowers the counter. */
  function RemoveTokenStep(s: Ledger, signer: Address, mint: Address): Result<Ledger> {
    if signer != s.manager then Err(Unauthorized) else
    :- Need(mint in s.tokens, AccountError);
    :- Need(s.tokens[mint] == 0, TokenVaultNotEmpty);
    var enabledCount :- SubU16(s.enabledCount, 1);
    Ok(s.(listings := s.listings - {mint}, enabledCount := enabledCount))
  }

  // ---- orders ----------------------------------------------------------------------------

  function SideOf(side: u8): Result<Side> {
    if side == 0 then Ok(Buy) else if side == 1 then Ok(Sell) else Err(InvalidOrderSide)
  }

  /** What lies at the vault addresses of the next order. */
  function WaitingSol(s: Ledger, kind: OrderKind): u64 {
    Balance(s.loose, SolVaultAt(s.key, kind, s.nextOrderId))
  }

  function WaitingTokens(s: Ledger, kind: OrderKind, side: Side, mint: Address): u64 {
    Balance(s.loose, TokenVaultAt(s.key, kind, s.nextOrderId, VaultMint(side, mint)))
  }

  /** The vaults of a new order, and what is left in the fund's, after its input was moved.  With
      `other` a SELL order's tokens come from an account of the fund outside the ledger. */
  datatype Funded = Funded(escrow: Escrow, vaultSol: u64, tokens: map<Address, u64>)

  function FundOrder(s: Ledger, side: Side, mint: Address, amount: u64, token: u64, sol: u64,
                     other: bool): Result<Funded> {
    if token != 0 then Err(InvalidOrderVault) else
    match side
    case Buy =>
      :- Need(s.vaultSol >= amount, InsufficientLiquidity);
      var escrowed :- AddU64(sol, amount);
      Ok(Funded(Escrow(Buy, mint, Open, escrowed, 0), s.vaultSol - amount, s.tokens))
    case Sell =>
      var tokens :- if other then Ok(s.tokens) else DebitFrom(s.tokens, mint, amount);
      Ok(Funded(Escrow(Sell, mint, Open, sol, amount), s.vaultSol, tokens))
  }

  /** The lamports an order's SOL vault holds before the input arrives: rent, unless it was
      funded before. */
  function InitialSol(env: Env, waiting: u64): u64 {
    if waiting == 0 then env.solVaultRent else waiting
  }

  function LimitTerms(s: Ledger, signer: Address, side: u8, mint: Address, amount: u64, minOut: u64,
                      limitPrice: i64): Result<Side> {
    if mint !in s.tokens || s.nextOrderId in s.limits then Err(AccountError) else
    :- Need(amount > 0, MathOverflow);
    :- Need(minOut > 0, InvalidMinOut);
    :- Need(limitPrice > 0, InvalidOracle);
    :- Need(signer == s.manager, Unauthorized);
    :- Need(s.fundType.TradingFund?, InvalidFundType);
    :- Need(mint in s.listings, InvalidTokenVault);
    SideOf(side)
  }

  /** A new order, the counters after it, the fund's vaults after it was funded, and what still
      waits at the addresses of others. */
  datatype Opened<T> = Opened(order: T, nextOrderId: u64, count: u16, vaultSol: u64, tokens: map<Address, u64>,
                              loose: map<Address, u64>)

  function OpenLimit(env: Env, s: Ledger, signer: Address, side: u8, mint: Address, amount: u64, minOut: u64,
                     limitPrice: i64, priceExpo: i32, expiry: i64): Result<Opened<LimitOrder>> {
    var which :- LimitTerms(s, signer, side, mint, amount, minOut, limitPrice);
    var nextOrderId :- AddU64(s.nextOrderId, 1);
    var count :- AddU16(s.limitCount, 1);
    var waiting := WaitingSol(s, LimitKind);
    var sol := if which.Buy? then InitialSol(env, waiting) else waiting;
    var funded :- FundOrder(s, which, mint, amount, WaitingTokens(s, LimitKind, which, mint), sol, false);
    var order := LimitOrder(funded.escrow, amount, minOut, limitPrice, priceExpo, s.listings[mint].feed, expiry);
    Ok(Opened(order, nextOrderId, count, funded.vaultSol, funded.tokens,
              s.loose - {SolVaultAt(s.key, LimitKind, s.nextOrderId)}))
  }

  function CreateLimitStep(env: Env, s: Ledger, signer: Address, side: u8, mint: Address, amount: u64, minOut: u64,
                           limitPrice: i64, priceExpo: i32, expiry: i64): Result<Ledger> {
    var made :- OpenLimit(env, s, signer, side, mint, amount, minOut, limitPrice, priceExpo, expiry);
    Ok(s.(nextOrderId := made.nextOrderId, limitCount := made.count,
          limits := s.limits[s.nextOrderId := made.order],
          loose := made.loose, vaultSol := made.vaultSol, tokens := made.tokens))
  }

  const MAX_ACTIVE_DCA: u16 := 20

  function DcaTerms(s: Ledger, signer: Address, side: u8, mint: Address, amount: u64, slice: u64,
                    interval: i64, minOut: u64): Result<Side> {
    if mint !in s.tokens || s.nextOrderId in s.dcas then Err(AccountError) else
    var which :- SideOf(side);
    :- Need(amount > 0, MathOverflow);
    :- Need(slice > 0, InvalidDcaSlice);
    :- Need(slice <= amount, InvalidDcaSlice);
    :- Need(interval > 0, InvalidDcaInterval);
    :- Need(minOut > 0, InvalidMinOut);
    :- Need(signer == s.manager, Unauthorized);
    :- Need(s.fundType.TradingFund?, InvalidFundType);
    :- Need(s.dcaCount < MAX_ACTIVE_DCA, MaxActiveDca);
    :- Need(mint in s.listings, InvalidTokenVault);
    Ok(which)
  }

  function OpenDca(env: Env, s: Ledger, signer: Address, side: u8, mint: Address, amount: u64, slice: u64,
                   interval: i64, minOut: u64, expiry: i64, other: bool): Result<Opened<DcaOrder>> {
    var which :- DcaTerms(s, signer, side, mint, amount, slice, interval, minOut);
    var nextOrderId :- AddU64(s.nextOrderId, 1);
    var count :- AddU16(s.dcaCount, 1);
    var nextExec :- AddI64(env.now, interval);
    var sol := InitialSol(env, WaitingSol(s, DcaKind));
    var funded :- FundOrder(s, which, mint, amount, WaitingTokens(s, DcaKind, which, mint), sol, other);
    var order := DcaOrder(funded.escrow, amount, slice, amount, interval, nextExec, minOut, s.listings[mint].feed,
                          expiry);
    Ok(Opened(order, nextOrderId, count, funded.vaultSol, funded.tokens,
              s.loose - {SolVaultAt(s.key, DcaKind, s.nextOrderId)}))
  }

  function CreateDcaStep(env: Env, s: Ledger, signer: Address, side: u8, mint: Address, amount: u64, slice: u64,
                         interval: i64, minOut: u64, expiry: i64, other: bool): Result<Ledger> {
    var made :- OpenDca(env, s, signer, side, mint, amount, slice, interval, minOut, expiry, other);
    Ok(s.(nextOrderId := made.nextOrderId, dcaCount := made.count,
          dcas := s.dcas[s.nextOrderId := made.order],
          loose := made.loose, vaultSol := made.vaultSol, tokens := made.tokens))
  }

  /** The output the oracle expects for `amount` of an order's input. */
  function ExpectedOut(side: Side, amount: u64, quote: Quote): Result<u64> {
    match side
    case Buy => ExpectedTokenOut(amount, quote.decimals, quote.price, quote.sol)
    case Sell => TokenValue(amount, quote.decimals, quote.price, quote.sol)
  }

  /** The balances around an accepted swap of `amount` out of an order's escrow. */
  datatype Swapped = Swapped(escrow: Escrow, vaultSol: u64, tokens: map<Address, u64>)

  /** The swap of `amount` and the checks on its outcome.  A BUY order first wraps its lamports;
      it must have wrapped exactly `amount` and end with nothing.  A SELL order must end with
      exactly `amount` less, and a `whole` order must start with exactly `amount`. */
  function SwapOut(env: Env, s: Ledger, e: Escrow, amount: u64, minOut: u64, whole: bool, quote: Quote,
                   swap: Swap): Result<Swapped> {
    if e.side.Buy? && e.sol < amount then Err(InsufficientLiquidity) else
    :- Need(e.side.Buy? || whole || e.token >= amount, InsufficientLiquidity);
    var wrapped :- if e.side.Buy? then AddU64(e.token, amount) else Ok(e.token);
    var vaultSol :- AddU64(s.vaultSol, swap.solCredit);
    var tokens :- CreditTo(s.tokens, e.mint, swap.tokenCredit);
    var delta := if e.side.Buy? then swap.tokenCredit else swap.solCredit;
    var expected :- ExpectedOut(e.side, amount, quote);
    var minExpected :- ApplyMaxSlippage(expected, env.maxSlippageBps);
    :- Need(delta >= minExpected, InvalidTokenVault);
    :- Need(delta >= minOut, InvalidTokenVault);
    :- Need((e.side.Buy? || whole) ==> wrapped == amount, InvalidOrderVault);
    :- Need(swap.orderTokenAfter == wrapped - amount, InvalidOrderVault);
    var left := if e.side.Buy? then e.sol - amount else e.sol;
    Ok(Swapped(e.(sol := left, token := swap.orderTokenAfter), vaultSol, tokens))
  }

  function Triggered(side: Side, price: int, limitPrice: int): bool {
    match side
    case Buy => price <= limitPrice
    case Sell => price >= limitPrice
  }

  /** The prices an order executes at: the token's and SOL's. */
  datatype Quote = Quote(decimals: u8, price: Price, sol: Price)

  /** The checks every execution starts with. */
  function Executable(env: Env, s: Ledger, signer: Address, e: Escrow, expiry: i64): Result<()> {
    if signer != env.keeper then Err(Unauthorized) else
    :- Need(s.fundType.TradingFund?, InvalidFundType);
    :- Need(e.status.Open?, OrderNotOpen);
    :- Need(expiry == 0 || env.now <= expiry, OrderExpired);
    Ok(())
  }

  function QuoteFor(env: Env, s: Ledger, e: Escrow, feed: Address): (r: Result<Quote>)
    ensures r.Ok? ==> r.value.price.price > 0 && r.value.sol.price > 0
  {
    if e.mint !in s.listings then Err(InvalidTokenVault) else
    :- Need(s.listings[e.mint].feed == feed, InvalidOracle);
    var price :- LoadPrice(env, feed);
    var sol :- LoadPrice(env, env.solFeed);
    Ok(Quote(s.listings[e.mint].decimals, price, sol))
  }

  /** An order after an execution, with the counter and the fund's vaults after it. */
  datatype Filled<T> = Filled(order: T, count: u16, vaultSol: u64, tokens: map<Address, u64>)

  function FillLimit(env: Env, s: Ledger, signer: Address, order: LimitOrder, swap: Swap): Result<Filled<LimitOrder>> {
    var ready :- Executable(env, s, signer, order.escrow, order.expiry);
    var quote :- QuoteFor(env, s, order.escrow, order.feed);
    var scaled :- ScalePrice(quote.price.price, quote.price.expo, order.priceExpo);
    :- Need(Triggered(order.escrow.side, scaled, order.limitPrice), OrderNotTriggered);
    var swapped :- SwapOut(env, s, order.escrow, order.amountIn, order.minOut, true, quote, swap);
    var vaultSol :- AddU64(swapped.vaultSol, env.tokenRent);
    var count :- SubU16(s.limitCount, 1);
    Ok(Filled(order.(escrow := swapped.escrow.(status := Executed)), count, vaultSol, swapped.tokens))
  }

  function ExecuteLimitStep(env: Env, s: Ledger, signer: Address, id: nat, swap: Swap): Result<Ledger> {
    if id !in s.limits then Err(AccountError) else
    var filled :- FillLimit(env, s, signer, s.limits[id], swap);
    Ok(s.(limits := s.limits[id := filled.order], limitCount := filled.count,
          vaultSol := filled.vaultSol, tokens := filled.tokens))
  }

  /** What a cancelled order gives back to the fund's vaults, and what is left in its own.  With
      `other` a BUY order closes another, empty account in place of its token vault, and a SELL
      order's tokens go to an account of the fund outside the ledger. */
  function Refund(env: Env, s: Ledger, e: Escrow, other: bool): Result<Funded> {
    match e.side
    case Buy =>
      var refunded :- AddU64(s.vaultSol, e.sol);
      :- Need(other || e.token == 0, InvalidOrderVault);
      var vaultSol :- AddU64(refunded, env.tokenRent);
      Ok(Funded(e.(status := Cancelled, sol := 0), vaultSol, s.tokens))
    case Sell =>
      var tokens :- if other then Ok(s.tokens) else CreditTo(s.tokens, e.mint, e.token);
      var vaultSol :- AddU64(s.vaultSol, env.tokenRent);
      Ok(Funded(e.(status := Cancelled, token := 0), vaultSol, tokens))
  }

  function MayCancel(s: Ledger, signer: Address, e: Escrow): Result<()> {
    if !e.status.Open? then Err(OrderNotOpen) else
    :- Need(signer == s.manager, Unauthorized);
    :- Need(s.fundType.TradingFund?, InvalidFundType);
    Ok(())
  }

  /** What stays at the vault addresses of a limit order whose record is closed. */
  function LeftBehind(s: Ledger, id: nat, left: Escrow): map<Address, u64> {
    match left.side
    case Buy => s.loose[TokenVaultAt(s.key, LimitKind, id, NATIVE_MINT) := left.token]
    case Sell => s.loose[SolVaultAt(s.key, LimitKind, id) := left.sol]
  }

  /** What a cancelled limit order leaves: the counter, the fund's vaults and the addresses without
      a record after it. */
  datatype Closed = Closed(count: u16, vaultSol: u64, tokens: map<Address, u64>, loose: map<Address, u64>)

  function CloseLimit(env: Env, s: Ledger, signer: Address, id: nat, e: Escrow, other: bool): Result<Closed> {
    var may :- MayCancel(s, signer, e);
    var refund :- Refund(env, s, e, other);
    var count :- SubU16(s.limitCount, 1);
    var vaultSol :- AddU64(refund.vaultSol, env.orderRent);
    Ok(Closed(count, vaultSol, refund.tokens, LeftBehind(s, id, refund.escrow)))
  }

  /** The order account itself is closed into the fund's vault, so its id is gone. */
  function CancelLimitStep(env: Env, s: Ledger, signer: Address, id: nat, other: bool): Result<Ledger> {
    if id !in s.limits then Err(AccountError) else
    var closed :- CloseLimit(env, s, signer, id, s.limits[id].escrow, other);
    Ok(s.(limits := s.limits - {id}, limitCount := closed.count, loose := closed.loose,
          vaultSol := closed.vaultSol, tokens := closed.tokens))
  }

  function CloseDca(env: Env, s: Ledger, signer: Address, order: DcaOrder, other: bool): Result<Filled<DcaOrder>> {
    var may :- MayCancel(s, signer, order.escrow);
    :- Need(!other || order.escrow.side.Sell?, InvalidOrderVault);
    var refund :- Refund(env, s, order.escrow, other);
    var count :- SubU16(s.dcaCount, 1);
    Ok(Filled(order.(escrow := refund.escrow), count, refund.vaultSol, refund.tokens))
  }

  function CancelDcaStep(env: Env, s: Ledger, signer: Address, id: nat, other: bool): Result<Ledger> {
    if id !in s.dcas then Err(AccountError) else
    var closed :- CloseDca(env, s, signer, s.dcas[id], other);
    Ok(s.(dcas := s.dcas[id := closed.order], dcaCount := closed.count,
          vaultSol := closed.vaultSol, tokens := closed.tokens))
  }

  function SliceOf(order: DcaOrder): u64 {
    if order.remaining >= order.slice then order.slice else order.remaining
  }

  /** A completed DCA order: its empty token vault is closed and its SOL vault swept, unless
      the executor of a SELL order passes another, empty, account in its place. */
  function CompleteDca(env: Env, e: Escrow, vaultSol: u64, solVaultPassed: bool): Result<(Escrow, u64)> {
    var closed :- if e.token == 0 then AddU64(vaultSol, env.tokenRent) else Ok(vaultSol);
    if solVaultPassed then
      var swept :- AddU64(closed, e.sol);
      Ok((e.(status := Executed, sol := 0), swept))
    else
      Ok((e.(status := Executed), closed))
  }

  function FillSlice(env: Env, s: Ledger, signer: Address, order: DcaOrder, swap: Swap,
                     solVaultPassed: bool): Result<Filled<DcaOrder>> {
    var ready :- Executable(env, s, signer, order.escrow, order.expiry);
    :- Need(env.now >= order.nextExec, DcaNotReady);
    var quote :- QuoteFor(env, s, order.escrow, order.feed);
    :- Need(order.escrow.side.Sell? || solVaultPassed, InvalidOrderVault);
    var slice := SliceOf(order);
    :- Need(slice > 0, DcaCompleted);
    var swapped :- SwapOut(env, s, order.escrow, slice, order.minOut, false, quote, swap);
    var nextExec :- AddI64(order.nextExec, order.interval);
    var after := order.(remaining := order.remaining - slice, nextExec := nextExec);
    if after.remaining > 0 then
      Ok(Filled(after.(escrow := swapped.escrow), s.dcaCount, swapped.vaultSol, swapped.tokens))
    else
      var count :- SubU16(s.dcaCount, 1);
      var done :- CompleteDca(env, swapped.escrow, swapped.vaultSol, solVaultPassed);
      Ok(Filled(after.(escrow := done.0), count, done.1, swapped.tokens))
  }

  function ExecuteDcaStep(env: Env, s: Ledger, signer: Address, id: nat, swap: Swap,
                          solVaultPassed: bool): Result<Ledger> {
    if id !in s.dcas then Err(AccountError) else
    var filled :- FillSlice(env, s, signer, s.dcas[id], swap, solVaultPassed);
    Ok(s.(dcas := s.dcas[id := filled.order], dcaCount := filled.count,
          vaultSol := filled.vaultSol, tokens := filled.tokens))
  }

  // ---- borrow and settle -----------------------------------------------------------------

  function ExpectedSettle(s: Ledger, mint: Address): seq<Address> {
    [s.manager, s.config, s.key, TradingOf(s.key), VaultOf(s.key), WhitelistOf(s.key, mint), Ata(s.key, mint)]
  }

  /** The scan forward: the first later settle instruction must be for exactly these accounts. */
  function ScanForSettle(later: seq<Meta>, expected: seq<Address>): Result<()> {
    if later == [] then Err(MissingSettleInstruction)
    else if later[0].isSettle then
      if expected <= later[0].accounts then Ok(()) else Err(InvalidSettleInstruction)
    else ScanForSettle(later[1..], expected)
  }

  function MayBorrow(s: Ledger, signer: Address, amount: u64, minOut: u64, mint: Address): Result<()> {
    if s.trading.locked then Err(FundLocked) else
    :- Need(amount > 0, MathOverflow);
    :- Need(minOut > 0, InvalidMinOut);
    :- Need(s.fundType.TradingFund?, InvalidFundType);
    :- Need(signer == s.manager, Unauthorized);
    :- Need(mint in s.listings && mint in s.tokens, InvalidTokenVault);
    :- Need(s.vaultSol >= amount, InsufficientLiquidity);
    Ok(())
  }

  function BorrowStep(s: Ledger, signer: Address, amount: u64, minOut: u64, mint: Address,
                      later: seq<Meta>): Result<Ledger> {
    var may :- MayBorrow(s, signer, amount, minOut, mint);
    var found :- ScanForSettle(later, ExpectedSettle(s, mint));
    var wallets :- CreditTo(s.wallets, s.manager, amount);
    Ok(s.(trading := Trading(true, amount, minOut, s.vaultSol, s.tokens[mint], mint),
          vaultSol := s.vaultSol - amount, wallets := wallets))
  }

  /** The checks of a settle instruction, whose accounts must be those of this fund. */
  function MaySettle(s: Ledger, accounts: seq<Address>): Result<()> {
    if |accounts| < 7 || accounts[1..5] != [s.config, s.key, TradingOf(s.key), VaultOf(s.key)]
    then Err(AccountError) else
    :- Need(s.trading.locked, FundNotLocked);
    :- Need(s.fundType.TradingFund?, InvalidFundType);
    :- Need(accounts[0] == s.manager, Unauthorized);
    var mint :- ListedMint(s, accounts[5]);
    :- Need(s.trading.outputMint == mint, InvalidTokenVault);
    :- Need(accounts[6] == Ata(s.key, mint) && mint in s.tokens, InvalidTokenVault);
    var expectedSol :- SubU64(s.trading.snapshotSol, s.trading.borrowed);
    :- Need(s.vaultSol == expectedSol, InvalidTokenVault);
    var delta :- SubU64(s.tokens[mint], s.trading.snapshotOutput);
    :- Need(delta >= s.trading.minOut, InvalidTokenVault);
    Ok(())
  }

  function SettleStep(s: Ledger, accounts: seq<Address>): Result<Ledger> {
    var may :- MaySettle(s, accounts);
    Ok(s.(trading := UNLOCKED))
  }

  // ---- strategy --------------------------------------------------------------------------

  function WeightSum(allocations: seq<Allocation>): nat {
    if allocations == [] then 0
    else WeightSum(allocations[..|allocations| - 1]) + allocations[|allocations| - 1].weightBps
  }

  /** The first pass over the allocations: positive weights and no mint twice. */
  function CheckAllocations(allocations: seq<Allocation>, i: nat): Result<()>
    requires i <= |allocations|
    decreases |allocations| - i
  {
    if i == |allocations| then Ok(())
    else
      :- Need(allocations[i].weightBps > 0, InvalidStrategy);
      :- Need(forall j :: 0 <= j < i ==> allocations[j].mint != allocations[i].mint, InvalidStrategy);
      CheckAllocations(allocations, i + 1)
  }

  /** The second pass: every allocation's whitelist account. */
  function CheckListed(s: Ledger, allocations: seq<Allocation>, accounts: seq<Address>, i: nat): Result<()>
    requires i <= |allocations| == |accounts|
    decreases |allocations| - i
  {
    if i == |allocations| then Ok(())
    else
      var mint :- ListedMint(s, accounts[i]);
      :- Need(mint == allocations[i].mint, InvalidTokenVault);
      CheckListed(s, allocations, accounts, i + 1)
  }

  function Padded(allocations: seq<Allocation>): seq<Allocation>
    requires |allocations| <= MAX_STRATEGY_TOKENS
  {
    allocations + seq(MAX_STRATEGY_TOKENS - |allocations|, _ => NO_ALLOCATION)
  }

  function StrategyTerms(s: Ledger, signer: Address, allocations: seq<Allocation>, thresholdBps: u16,
                         cooldown: i64): (r: Result<()>)
    ensures r.Ok? ==> |allocations| <= MAX_STRATEGY_TOKENS
  {
    if s.strategy.Some? then Err(AccountError) else
    :- Need(signer == s.manager, Unauthorized);
    :- Need(s.fundType.StrategyFund?, InvalidFundType);
    :- Need(allocations != [], InvalidStrategy);
    :- Need(|allocations| <= MAX_STRATEGY_TOKENS, InvalidStrategy);
    :- Need(thresholdBps <= 10_000, InvalidFeeBps);
    :- Need(cooldown > 0, InvalidStrategy);
    :- Need(s.enabledCount == |allocations|, InvalidStrategy);
    Ok(())
  }

  function SetStrategyStep(env: Env, s: Ledger, signer: Address, allocations: seq<Allocation>, thresholdBps: u16,
                           cooldown: i64, accounts: seq<Address>): Result<Ledger> {
    var terms :- StrategyTerms(s, signer, allocations, thresholdBps, cooldown);
    var distinct :- CheckAllocations(allocations, 0);
    :- Need(WeightSum(allocations) == 10_000, InvalidStrategy);
    :- Need(|accounts| == |allocations|, InvalidRemainingAccounts);
    var listed :- CheckListed(s, allocations, accounts, 0);
    Ok(s.(strategy := Some(Strategy(|allocations|, Padded(allocations), thresholdBps, cooldown, env.now))))
  }

  /** The position being rebalanced, as the pass over the allocations found it. */
  datatype Position = Position(weightBps: u16, value: u64, amount: u64, decimals: u8, price: Price)

  datatype Survey = Survey(nav: int, target: Option<Position>)

  /** `rebalance_strategy`'s own NAV, from allocation `i`: the running sum and the target's
      position once it was passed. */
  function SurveyFrom(env: Env, s: Ledger, strategy: StrategyAccount, sol: Price, target: Address,
                      accounts: seq<Address>, i: nat, survey: Survey): Result<Survey>
    requires i <= strategy.count && |accounts| >= 3 * strategy.count
    decreases strategy.count - i
  {
    if i == strategy.count then Ok(survey)
    else
      var allocation := strategy.allocations[i];
      var mint :- ListedMint(s, accounts[3 * i]);
      :- Need(mint == allocation.mint, InvalidTokenVault);
      :- Need(accounts[3 * i + 2] == s.listings[mint].feed, InvalidOracle);
      :- Need(accounts[3 * i + 1] == Ata(s.key, mint) && mint in s.tokens, InvalidTokenVault);
      var price :- LoadPrice(env, s.listings[mint].feed);
      var value :- TokenValue(s.tokens[mint], s.listings[mint].decimals, price, sol);
      var position := Position(allocation.weightBps, value, s.tokens[mint], s.listings[mint].decimals, price);
      SurveyFrom(env, s, strategy, sol, target, accounts, i + 1,
                 Survey(survey.nav + value, if mint == target then Some(position) else survey.target))
  }

  /** Over-weight is positive, under-weight negative. */
  function Deviation(nav: nat, position: Position): int {
    position.value - BpsOf(nav, position.weightBps)
  }

  const SELL_DUST_TOLERANCE: u64 := 2

  /** The fund's balances after a rebalancing swap. */
  datatype Traded = Traded(vaultSol: u64, tokens: map<Address, u64>)

  function BuyTarget(env: Env, s: Ledger, mint: Address, position: Position, sol: Price, spend: u64, minOut: u64,
                     fundSwap: FundSwap): Result<Traded> {
    if s.vaultSol < spend then Err(InsufficientLiquidity) else
    var wrapped := s.tokens[NATIVE_MINT := spend];
    :- Need(fundSwap.tokensAfter.Keys == wrapped.Keys, AccountError);
    var delta :- SubU64(Balance(fundSwap.tokensAfter, mint), Balance(wrapped, mint));
    var vaultSol :- AddU64(s.vaultSol - spend, fundSwap.solCredit);
    var expected :- ExpectedTokenOut(spend, position.decimals, position.price, sol);
    var minExpected :- ApplyMaxSlippage(expected, env.maxSlippageBps);
    :- Need(delta >= minExpected, InvalidTokenVault);
    :- Need(delta >= minOut, InvalidTokenVault);
    Ok(Traded(vaultSol, fundSwap.tokensAfter))
  }

  function SellTarget(env: Env, s: Ledger, mint: Address, position: Position, sol: Price, desired: u64, minOut: u64,
                      fundSwap: FundSwap): Result<Traded> {
    var ideal :- ExpectedTokenOut(desired, position.decimals, position.price, sol);
    var sellAmount: u64 := Min(ideal, position.amount);
    :- Need(sellAmount > 0, InvalidStrategy);
    :- Need(fundSwap.tokensAfter.Keys == s.tokens.Keys, AccountError);
    :- Need(Balance(fundSwap.tokensAfter, mint) <= Balance(s.tokens, mint), InvalidTokenVault);
    var sold: u64 := Balance(s.tokens, mint) - Balance(fundSwap.tokensAfter, mint);
    :- Need(sold > 0, InvalidTokenVault);
    var sellMax :- AddU64(sellAmount, SELL_DUST_TOLERANCE);
    :- Need(sold <= sellMax, InvalidTokenVault);
    var vaultSol :- AddU64(s.vaultSol, fundSwap.solCredit);
    var expected :- TokenValue(sold, position.decimals, position.price, sol);
    var minExpected :- ApplyMaxSlippage(expected, env.maxSlippageBps);
    :- Need(fundSwap.solCredit >= minExpected, InvalidTokenVault);
    :- Need(fundSwap.solCredit >= minOut, InvalidTokenVault);
    Ok(Traded(vaultSol, fundSwap.tokensAfter))
  }

  /** The checks before the survey: the strategy and SOL's price. */
  function MayRebalance(env: Env, s: Ledger, signer: Address, minOut: u64,
                        accounts: seq<Address>): (r: Result<(StrategyAccount, Price)>)
    ensures r.Ok? ==> s.strategy == Some(r.value.0) && |accounts| >= 3 * r.value.0.count
  {
    if s.strategy.None? then Err(AccountError) else
    var strategy := s.strategy.value;
    :- Need(signer == env.keeper, Unauthorized);
    :- Need(minOut > 0, InvalidMinOut);
    :- Need(s.fundType.StrategyFund?, InvalidFundType);
    :- Need(strategy.count > 0, InvalidStrategy);
    :- Need(s.enabledCount % 256 == strategy.count, InvalidStrategy);
    :- Need(strategy.cooldown > 0, InvalidStrategy);
    :- Need(Balance(s.tokens, NATIVE_MINT) == 0, WsolNotCleared);
    var nextAllowed :- AddI64(strategy.lastRebalance, strategy.cooldown);
    :- Need(env.now >= nextAllowed, RebalanceNotNeeded);
    var sol :- LoadPrice(env, env.solFeed);
    :- Need(|accounts| >= 3 * strategy.count, InvalidRemainingAccounts);
    Ok((strategy, sol))
  }

  /** The target's position, if it is far enough from its weight. */
  function OffTarget(strategy: StrategyAccount, survey: Survey): (r: Result<Position>)
    ensures r.Ok? ==> survey.nav > 0
  {
    if survey.nav <= 0 then Err(InvalidNav) else
    :- Need(survey.target.Some?, InvalidStrategy);
    var deviation := Deviation(survey.nav, survey.target.value);
    :- Need(Abs(deviation) > BpsOf(survey.nav, strategy.thresholdBps), RebalanceNotNeeded);
    Ok(survey.target.value)
  }

  function RebalanceTrade(env: Env, s: Ledger, signer: Address, mint: Address, minOut: u64, accounts: seq<Address>,
                          fundSwap: FundSwap): (r: Result<Traded>)
    ensures r.Ok? ==> s.strategy.Some?
  {
    var ready :- MayRebalance(env, s, signer, minOut, accounts);
    var strategy, sol := ready.0, ready.1;
    var survey :- SurveyFrom(env, s, strategy, sol, mint, accounts, 0, Survey(s.vaultSol, None));
    var position :- OffTarget(strategy, survey);
    var deviation := Deviation(survey.nav, position);
    if deviation < 0 then
      BuyTarget(env, s, mint, position, sol, AsU64(Abs(deviation)), minOut, fundSwap)
    else
      SellTarget(env, s, mint, position, sol, AsU64(Abs(deviation)), minOut, fundSwap)
  }

  function RebalanceStep(env: Env, s: Ledger, signer: Address, mint: Address, minOut: u64, accounts: seq<Address>,
                         fundSwap: FundSwap): Result<Ledger> {
    var traded :- RebalanceTrade(env, s, signer, mint, minOut, accounts, fundSwap);
    Ok(s.(vaultSol := traded.vaultSol, tokens := traded.tokens,
          strategy := Some(s.strategy.value.(lastRebalance := env.now))))
  }

  // ---- without the program -----------------------------------------------------------------

  predicate HasRecord(s: Ledger, kind: OrderKind, id: nat) {
    match kind
    case LimitKind => id in s.limits
    case DcaKind => id in s.dcas
  }

  function CreditVaultStep(s: Ledger, vault: Vault, amount: u64): Result<Ledger> {
    match vault
    case FundSolVault =>
      var vaultSol :- AddU64(s.vaultSol, amount);
      Ok(s.(vaultSol := vaultSol))
    case FundTokenVault(mint) =>
      var tokens :- CreditTo(s.tokens, mint, amount);
      Ok(s.(tokens := tokens))
    case LimitSolVault(id) =>
      :- Need(id in s.limits, AccountError);
      var sol :- AddU64(s.limits[id].escrow.sol, amount);
      Ok(s.(limits := s.limits[id := s.limits[id].(escrow := s.limits[id].escrow.(sol := sol))]))
    case LimitTokenVault(id) =>
      :- Need(id in s.limits, AccountError);
      var token :- AddU64(s.limits[id].escrow.token, amount);
      Ok(s.(limits := s.limits[id := s.limits[id].(escrow := s.limits[id].escrow.(token := token))]))
    case DcaSolVault(id) =>
      :- Need(id in s.dcas, AccountError);
      var sol :- AddU64(s.dcas[id].escrow.sol, amount);
      Ok(s.(dcas := s.dcas[id := s.dcas[id].(escrow := s.dcas[id].escrow.(sol := sol))]))
    case DcaTokenVault(id) =>
      :- Need(id in s.dcas, AccountError);
      var token :- AddU64(s.dcas[id].escrow.token, amount);
      Ok(s.(dcas := s.dcas[id := s.dcas[id].(escrow := s.dcas[id].escrow.(token := token))]))
    case UnusedSolVault(kind, id) =>
      :- Need(!HasRecord(s, kind, id), AccountError);
      var loose :- CreditTo(s.loose, SolVaultAt(s.key, kind, id), amount);
      Ok(s.(loose := loose))
    case UnusedTokenVault(kind, id, mint) =>
      :- Need(!HasRecord(s, kind, id), AccountError);
      var loose :- CreditTo(s.loose, TokenVaultAt(s.key, kind, id, mint), amount);
      Ok(s.(loose := loose))
  }

  // ---- every instruction ---------------------------------------------------------------------

  function Step(env: Env, s: Ledger, ix: Ix): Result<Ledger> {
    match ix
    case Deposit(investor, amount, accounts) => DepositStep(env, s, investor, amount, accounts)
    case RequestWithdraw(investor, amount) => RequestWithdrawStep(env, s, investor, amount)
    case CancelWithdraw(investor) => CancelWithdrawStep(s, investor)
    case ExecuteWithdraw(investor, accounts) => ExecuteWithdrawStep(env, s, investor, accounts)
    case AddToken(signer, mint, listing) => AddTokenStep(s, signer, mint, listing)
    case RemoveToken(signer, mint) => RemoveTokenStep(s, signer, mint)
    case CreateLimit(signer, side, mint, amount, minOut, limitPrice, priceExpo, expiry) =>
      CreateLimitStep(env, s, signer, side, mint, amount, minOut, limitPrice, priceExpo, expiry)
    case ExecuteLimit(signer, id, swap) => ExecuteLimitStep(env, s, signer, id, swap)
    case CancelLimit(signer, id, other) => CancelLimitStep(env, s, signer, id, other)
    case CreateDca(signer, side, mint, amount, slice, interval, minOut, expiry, other) =>
      CreateDcaStep(env, s, signer, side, mint, amount, slice, interval, minOut, expiry, other)
    case ExecuteDca(signer, id, swap, solVaultPassed) => ExecuteDcaStep(env, s, signer, id, swap, solVaultPassed)
    case CancelDca(signer, id, other) => CancelDcaStep(env, s, signer, id, other)
    case Borrow(signer, amount, minOut, mint, later) => BorrowStep(s, signer, amount, minOut, mint, later)
    case Settle(accounts) => SettleStep(s, accounts)
    case SetStrategy(signer, allocations, thresholdBps, cooldown, accounts) =>
      SetStrategyStep(env, s, signer, allocations, thresholdBps, cooldown, accounts)
    case Rebalance(signer, mint, minOut, accounts, fundSwap) =>
      RebalanceStep(env, s, signer, mint, minOut, accounts, fundSwap)
    case TransferShares(sender, receiver, amount) => TransferSharesStep(s, sender, receiver, amount)
    case CreditVault(vault, amount) => CreditVaultStep(s, vault, amount)
  }

  // ---- the initial fund ------------------------------------------------------------------------

  /** The bounds the global configuration sets on a new fund. */
  datatype Bounds = Bounds(minTimelock: i64, maxTimelock: i64, maxManagerFeeBps: u16, minManagerDeposit: u64)

  /** The arguments of `initialize_fund`, and of its strategy twin. */
  datatype Charter = Charter(
    key: Address,
    config: Address,
    manager: Address,
    fundType: FundType,
    deposit: u64,
    managerFeeBps: u16,
    minDeposit: u64,
    timelock: i64,
    vaultRent: u64)

  /** A new fund: one share for each lamport of `net`, all of them the manager's. */
  function FirstLedger(charter: Charter, net: u64, vaultSol: u64, wallets: map<Address, u64>): Ledger {
    Ledger(
      key := charter.key, config := charter.config, manager := charter.manager, fundType := charter.fundType,
      minDeposit := charter.minDeposit, timelock := charter.timelock, totalShares := net,
      enabledCount := 0, limitCount := 0, dcaCount := 0, nextOrderId := 0,
      vaultSol := vaultSol, tokens := map[], listings := map[],
      shares := map[charter.manager := net], shareSupply := net, wallets := wallets,
      limits := map[], dcas := map[], requests := map[], loose := map[], trading := UNLOCKED, strategy := None)
  }

  function InitialLedger(env: Env, bounds: Bounds, charter: Charter, wallets: map<Address, u64>): Result<Ledger> {
    if charter.timelock < bounds.minTimelock then Err(InvalidTimelock) else
    :- Need(charter.timelock <= bounds.maxTimelock, InvalidTimelock);
    :- Need(charter.managerFeeBps <= bounds.maxManagerFeeBps, InvalidFeeBps);
    :- Need(charter.deposit >= bounds.minManagerDeposit, DepositTooSmall);
    var fee := AsU64(BpsOf(charter.deposit, env.depositFeeBps));
    var net :- SubU64(charter.deposit, fee);
    :- Need(net > 0, ZeroShares);
    var paidFee :- Move(wallets, charter.manager, env.treasury, fee);
    var paid :- DebitFrom(paidFee, charter.manager, net);
    var vaultSol :- AddU64(charter.vaultRent, net);
    Ok(FirstLedger(charter, net, vaultSol, paid))
  }
}
