/** What every instruction keeps, and so what holds in every reachable ledger. */
module Invariants {
  import opened Results
  import opened Ints
  import opened Oracle
  import opened MapSums
  import opened Ledgers
  import opened Navs
  import opened Steps
  import opened Runs

  // ---- the invariant -----------------------------------------------------------------------

  /** The fund state's total is the mint's supply, which is what the holders have together. */
  ghost predicate SharesSound(s: Ledger) {
    s.totalShares == s.shareSupply == Sum(s.shares)
  }

  ghost predicate TradingSound(t: Trading) {
    if t.locked then 0 < t.borrowed <= t.snapshotSol && t.minOut > 0 else t == UNLOCKED
  }

  /** The escrow of an open order covers what the order has yet to spend. */
  ghost predicate Covers(e: Escrow, amount: u64) {
    match e.side
    case Buy => e.sol >= amount
    case Sell => e.token >= amount
  }

  ghost predicate LimitSound(order: LimitOrder) {
    order.escrow.status.Open? ==>
      order.amountIn > 0 && order.minOut > 0 && Covers(order.escrow, order.amountIn)
  }

  ghost predicate DcaSound(order: DcaOrder) {
    && 0 < order.slice <= order.total && order.interval > 0 && order.minOut > 0
    && order.remaining <= order.total
    && (order.escrow.status.Executed? <==> order.remaining == 0)
    && (order.escrow.status.Open? ==> Covers(order.escrow, order.remaining))
  }

  ghost predicate LimitsSound(s: Ledger) {
    && s.limitCount == |OpenIds(LimitBook(s))|
    && forall id <- s.limits :: id < s.nextOrderId && LimitSound(s.limits[id])
  }

  ghost predicate DcasSound(s: Ledger) {
    && s.dcaCount == |OpenIds(DcaBook(s))| && s.dcaCount <= MAX_ACTIVE_DCA
    && forall id <- s.dcas :: id < s.nextOrderId && DcaSound(s.dcas[id])
  }

  /** Orders and borrowing belong to trading funds, a strategy to strategy funds. */
  ghost predicate KindSound(s: Ledger) {
    && (s.fundType.StrategyFund? ==> s.limits == map[] && s.dcas == map[] && s.trading == UNLOCKED)
    && (s.fundType.TradingFund? ==> s.strategy.None?)
  }

  ghost predicate AllocationsSound(allocations: seq<Allocation>) {
    && WeightSum(allocations) == 10_000
    && (forall i :: 0 <= i < |allocations| ==> allocations[i].weightBps > 0)
    && (forall i, j :: 0 <= i < j < |allocations| ==> allocations[i].mint != allocations[j].mint)
  }

  ghost predicate StrategySound(strategy: Option<StrategyAccount>) {
    strategy.Some? ==>
      && strategy.value.count > 0
      && AllocationsSound(strategy.value.allocations[..strategy.value.count])
  }

  ghost predicate RequestsSound(s: Ledger) {
    forall investor <- s.requests :: s.requests[investor].shares > 0
  }

  ghost predicate Sound(s: Ledger) {
    && SharesSound(s)
    && TradingSound(s.trading)
    && LimitsSound(s)
    && DcasSound(s)
    && KindSound(s)
    && StrategySound(s.strategy)
    && RequestsSound(s)
  }

  // ---- shares ------------------------------------------------------------------------------

  lemma MintKeepsSum(s: Ledger, investor: Address, minted: u64)
    requires SharesSound(s) && MintShares(s, investor, minted).Ok?
    ensures var book := MintShares(s, investor, minted).value;
            book.total == book.supply == Sum(book.shares) == s.totalShares + minted
  {
    hide Sum;
    SumUpdate(s.shares, investor, Balance(s.shares, investor) + minted);
  }

  lemma BurnKeepsSum(s: Ledger, investor: Address, burnt: u64)
    requires SharesSound(s) && BurnShares(s, investor, burnt).Ok?
    ensures var book := BurnShares(s, investor, burnt).value;
            book.total == book.supply == Sum(book.shares) == s.totalShares - burnt
  {
    hide Sum;
    SumUpdate(s.shares, investor, Balance(s.shares, investor) - burnt);
  }

  lemma TransferKeepsSum(shares: map<Address, u64>, sender: Address, receiver: Address, amount: u64)
    requires DebitFrom(shares, sender, amount).Ok?
    requires CreditTo(DebitFrom(shares, sender, amount).value, receiver, amount).Ok?
    ensures Sum(CreditTo(DebitFrom(shares, sender, amount).value, receiver, amount).value) == Sum(shares)
  {
    hide Sum;
    var debited := DebitFrom(shares, sender, amount).value;
    SumUpdate(shares, sender, Balance(shares, sender) - amount);
    SumUpdate(debited, receiver, Balance(debited, receiver) + amount);
  }

  // ---- order books -------------------------------------------------------------------------

  lemma OpenIdsPut(book: map<nat, Escrow>, id: nat, e: Escrow)
    ensures OpenIds(book[id := e]) == if e.status.Open? then OpenIds(book) + {id} else OpenIds(book) - {id}
  {
  }

  lemma OpenIdsDrop(book: map<nat, Escrow>, id: nat)
    ensures OpenIds(book - {id}) == OpenIds(book) - {id}
  {
  }

  lemma LimitPut(s: Ledger, after: Ledger, id: nat, order: LimitOrder)
    requires after.limits == s.limits[id := order]
    ensures LimitBook(after) == LimitBook(s)[id := order.escrow]
  {
  }

  lemma DcaPut(s: Ledger, after: Ledger, id: nat, order: DcaOrder)
    requires after.dcas == s.dcas[id := order]
    ensures DcaBook(after) == DcaBook(s)[id := order.escrow]
  {
  }

  /** A new order's escrow holds its whole input. */
  lemma FundedCovers(s: Ledger, side: Side, mint: Address, amount: u64, token: u64, sol: u64,
                     other: bool)
    requires FundOrder(s, side, mint, amount, token, sol, other).Ok?
    ensures var e := FundOrder(s, side, mint, amount, token, sol, other).value.escrow;
            e.side == side && e.mint == mint && e.status.Open? && Covers(e, amount)
  {
  }

  lemma OpenLimitSound(env: Env, s: Ledger, signer: Address, side: u8, mint: Address, amount: u64, minOut: u64,
                       limitPrice: i64, priceExpo: i32, expiry: i64)
    requires OpenLimit(env, s, signer, side, mint, amount, minOut, limitPrice, priceExpo, expiry).Ok?
    ensures var made := OpenLimit(env, s, signer, side, mint, amount, minOut, limitPrice, priceExpo, expiry).value;
            && s.fundType.TradingFund? && s.nextOrderId !in s.limits
            && LimitSound(made.order) && made.order.escrow.status.Open?
            && made.nextOrderId == s.nextOrderId + 1 && made.count == s.limitCount + 1
  {
    hide FundOrder, SideOf, InitialSol, LimitSound, Covers;
    var which := SideOf(side).value;
    var waiting := WaitingSol(s, LimitKind);
    var sol := if which.Buy? then InitialSol(env, waiting) else waiting;
    FundedCovers(s, which, mint, amount, WaitingTokens(s, LimitKind, which, mint), sol, false);
    var made := OpenLimit(env, s, signer, side, mint, amount, minOut, limitPrice, priceExpo, expiry).value;
    assert LimitTerms(s, signer, side, mint, amount, minOut, limitPrice) == Ok(which);
    LimitSoundIf(made.order);
  }

  lemma LimitSoundIf(order: LimitOrder)
    requires order.amountIn > 0 && order.minOut > 0 && Covers(order.escrow, order.amountIn)
    ensures LimitSound(order)
  {
  }

  lemma OpenDcaSound(env: Env, s: Ledger, signer: Address, side: u8, mint: Address, amount: u64, slice: u64,
                     interval: i64, minOut: u64, expiry: i64, other: bool)
    requires OpenDca(env, s, signer, side, mint, amount, slice, interval, minOut, expiry, other).Ok?
    ensures var made := OpenDca(env, s, signer, side, mint, amount, slice, interval, minOut, expiry, other).value;
            && s.fundType.TradingFund? && s.nextOrderId !in s.dcas && s.dcaCount < MAX_ACTIVE_DCA
            && DcaSound(made.order) && made.order.escrow.status.Open?
            && made.order.remaining == made.order.total == amount && made.order.slice == slice
            && made.order.interval == interval && made.order.minOut == minOut && made.order.expiry == expiry
            && made.order.nextExec == env.now + interval
            && made.nextOrderId == s.nextOrderId + 1 && made.count == s.dcaCount + 1
  {
    hide FundOrder, SideOf, InitialSol, DcaSound, Covers;
    var which := SideOf(side).value;
    FundedCovers(s, which, mint, amount, WaitingTokens(s, DcaKind, which, mint),
                 InitialSol(env, WaitingSol(s, DcaKind)), other);
    var made := OpenDca(env, s, signer, side, mint, amount, slice, interval, minOut, expiry, other).value;
    assert DcaTerms(s, signer, side, mint, amount, slice, interval, minOut) == Ok(which);
    DcaSoundIf(made.order);
  }

  lemma DcaSoundIf(order: DcaOrder)
    requires 0 < order.slice <= order.total && order.interval > 0 && order.minOut > 0
    requires order.escrow.status.Open? && order.remaining == order.total && Covers(order.escrow, order.remaining)
    ensures DcaSound(order)
  {
  }

  /** What an execution does to a limit order and its counter. */
  lemma FillLimitSound(env: Env, s: Ledger, signer: Address, order: LimitOrder, swap: Swap)
    requires FillLimit(env, s, signer, order, swap).Ok?
    ensures var filled := FillLimit(env, s, signer, order, swap).value;
            && s.fundType.TradingFund? && order.escrow.status.Open?
            && filled.order == order.(escrow := filled.order.escrow)
            && filled.order.escrow.status.Executed?
            && s.limitCount > 0 && filled.count == s.limitCount - 1
  {
    hide QuoteFor, ScalePrice, SwapOut, Triggered;
  }

  /** An accepted swap takes exactly `amount` out of the escrow. */
  lemma SwapOutSpends(env: Env, s: Ledger, e: Escrow, amount: u64, minOut: u64, whole: bool, quote: Quote, swap: Swap)
    requires SwapOut(env, s, e, amount, minOut, whole, quote, swap).Ok?
    ensures var after := SwapOut(env, s, e, amount, minOut, whole, quote, swap).value.escrow;
            match e.side
            case Buy => e.sol >= amount && e.token == 0 && after == e.(sol := e.sol - amount, token := 0)
            case Sell => e.token >= amount && (whole ==> e.token == amount) && after == e.(token := e.token - amount)
  {
    hide ExpectedOut, ApplyMaxSlippage, CreditTo;
  }

  lemma FillSliceSound(env: Env, s: Ledger, signer: Address, order: DcaOrder, swap: Swap, solVaultPassed: bool)
    requires DcaSound(order) && FillSlice(env, s, signer, order, swap, solVaultPassed).Ok?
    ensures var filled := FillSlice(env, s, signer, order, swap, solVaultPassed).value;
            && s.fundType.TradingFund? && order.escrow.status.Open?
            && DcaSound(filled.order)
            && filled.order == order.(escrow := filled.order.escrow, remaining := order.remaining - SliceOf(order),
                                      nextExec := order.nextExec + order.interval)
            && (if filled.order.remaining > 0
                then filled.order.escrow.status.Open? && filled.count == s.dcaCount
                else filled.order.escrow.status.Executed? && s.dcaCount > 0 && filled.count == s.dcaCount - 1)
            && order.nextExec <= env.now && (order.expiry == 0 || env.now <= order.expiry)
  {
    hide QuoteFor, SwapOut, CompleteDca;
    var slice := SliceOf(order);
    var quote := QuoteFor(env, s, order.escrow, order.feed).value;
    SwapOutSpends(env, s, order.escrow, slice, order.minOut, false, quote, swap);
    var swapped := SwapOut(env, s, order.escrow, slice, order.minOut, false, quote, swap).value;
    if order.remaining == slice {
      CompleteDcaEscrow(env, swapped.escrow, swapped.vaultSol, solVaultPassed);
    }
  }

  lemma CompleteDcaEscrow(env: Env, e: Escrow, vaultSol: u64, solVaultPassed: bool)
    requires CompleteDca(env, e, vaultSol, solVaultPassed).Ok?
    ensures var done := CompleteDca(env, e, vaultSol, solVaultPassed).value;
            && done.0 == e.(status := Executed, sol := if solVaultPassed then 0 else e.sol)
            && done.1 == vaultSol + (if e.token == 0 then env.tokenRent else 0) + (if solVaultPassed then e.sol else 0)
  {
  }

  lemma RefundCloses(env: Env, s: Ledger, e: Escrow, other: bool)
    requires Refund(env, s, e, other).Ok?
    ensures Refund(env, s, e, other).value.escrow.status.Cancelled?
  {
  }

  /** How the number of open limit orders follows from what happened to order `id`. */
  lemma LimitCounted(s: Ledger, after: Ledger, id: nat)
    requires id in after.limits && after.limits == s.limits[id := after.limits[id]]
    ensures |OpenIds(LimitBook(after))|
         == |OpenIds(LimitBook(s))| - (if id in s.limits && s.limits[id].escrow.status.Open? then 1 else 0)
            + (if after.limits[id].escrow.status.Open? then 1 else 0)
  {
    LimitPut(s, after, id, after.limits[id]);
    OpenIdsPut(LimitBook(s), id, after.limits[id].escrow);
  }

  lemma LimitDropped(s: Ledger, after: Ledger, id: nat)
    requires id in s.limits && s.limits[id].escrow.status.Open? && after.limits == s.limits - {id}
    ensures |OpenIds(LimitBook(after))| == |OpenIds(LimitBook(s))| - 1
  {
    assert LimitBook(after) == LimitBook(s) - {id};
    OpenIdsDrop(LimitBook(s), id);
  }

  lemma DcaCounted(s: Ledger, after: Ledger, id: nat)
    requires id in after.dcas && after.dcas == s.dcas[id := after.dcas[id]]
    ensures |OpenIds(DcaBook(after))|
         == |OpenIds(DcaBook(s))| - (if id in s.dcas && s.dcas[id].escrow.status.Open? then 1 else 0)
            + (if after.dcas[id].escrow.status.Open? then 1 else 0)
  {
    DcaPut(s, after, id, after.dcas[id]);
    OpenIdsPut(DcaBook(s), id, after.dcas[id].escrow);
  }

  // ---- strategies --------------------------------------------------------------------------

  lemma CheckedAllocations(allocations: seq<Allocation>, i: nat)
    requires i <= |allocations| && CheckAllocations(allocations, i).Ok?
    ensures forall k :: i <= k < |allocations| ==> allocations[k].weightBps > 0
    ensures forall j, k :: 0 <= j < k < |allocations| && i <= k ==> allocations[j].mint != allocations[k].mint
    decreases |allocations| - i
  {
    if i < |allocations| {
      CheckedAllocations(allocations, i + 1);
    }
  }

  // ---- what an instruction leaves alone ------------------------------------------------------

  lemma SameShares(s: Ledger, after: Ledger)
    requires after.totalShares == s.totalShares && after.shareSupply == s.shareSupply && after.shares == s.shares
    ensures SharesSound(s) ==> SharesSound(after)
  {
  }

  lemma SameLimits(s: Ledger, after: Ledger)
    requires after.limits == s.limits && after.limitCount == s.limitCount && after.nextOrderId >= s.nextOrderId
    ensures LimitsSound(s) ==> LimitsSound(after)
  {
    assert LimitBook(after) == LimitBook(s);
  }

  lemma SameDcas(s: Ledger, after: Ledger)
    requires after.dcas == s.dcas && after.dcaCount == s.dcaCount && after.nextOrderId >= s.nextOrderId
    ensures DcasSound(s) ==> DcasSound(after)
  {
    assert DcaBook(after) == DcaBook(s);
  }

  lemma SameKind(s: Ledger, after: Ledger)
    requires after.fundType == s.fundType && after.strategy == s.strategy
    requires s.fundType.TradingFund? || (after.limits == s.limits && after.dcas == s.dcas && after.trading == s.trading)
    ensures KindSound(s) ==> KindSound(after)
  {
  }

  lemma SameRequests(s: Ledger, after: Ledger)
    requires forall investor <- after.requests ::
               investor in s.requests && after.requests[investor] == s.requests[investor]
    ensures RequestsSound(s) ==> RequestsSound(after)
  {
  }

  /** Everything but the shares and the requests. */
  lemma SameTrading(s: Ledger, after: Ledger)
    requires after.limits == s.limits && after.limitCount == s.limitCount && after.nextOrderId == s.nextOrderId
    requires after.dcas == s.dcas && after.dcaCount == s.dcaCount
    requires after.fundType == s.fundType && after.strategy == s.strategy && after.trading == s.trading
    requires SharesSound(after) && RequestsSound(after)
    ensures Sound(s) ==> Sound(after)
  {
    hide SharesSound, LimitsSound, DcasSound, KindSound, StrategySound, RequestsSound, TradingSound;
    SameLimits(s, after);
    SameDcas(s, after);
    SameKind(s, after);
  }

  /** Everything but the order books. */
  lemma SameHoldings(s: Ledger, after: Ledger)
    requires after.totalShares == s.totalShares && after.shareSupply == s.shareSupply && after.shares == s.shares
    requires after.requests == s.requests && after.trading == s.trading && after.strategy == s.strategy
    requires after.fundType == s.fundType
    requires s.fundType.TradingFund? || (after.limits == s.limits && after.dcas == s.dcas)
    requires LimitsSound(after) && DcasSound(after)
    ensures Sound(s) ==> Sound(after)
  {
    hide SharesSound, LimitsSound, DcasSound, KindSound, StrategySound, RequestsSound, TradingSound;
    SameShares(s, after);
    SameKind(s, after);
    SameRequests(s, after);
  }

  // ---- shares and requests, instruction by instruction ---------------------------------------

  lemma DepositKeeps(env: Env, s: Ledger, investor: Address, amount: u64, accounts: seq<Address>)
    requires Sound(s) && DepositStep(env, s, investor, amount, accounts).Ok?
    ensures Sound(DepositStep(env, s, investor, amount, accounts).value)
  {
    hide Sum, Nav, SplitDeposit, SharesFor, PayDeposit, MintShares, LimitsSound, DcasSound, KindSound, StrategySound;
    var net := SplitDeposit(env, s, amount).value.net;
    MintKeepsSum(s, investor, SharesFor(s, net, Nav(env, s, accounts).value).value);
    SameTrading(s, DepositStep(env, s, investor, amount, accounts).value);
  }

  lemma RequestWithdrawKeeps(env: Env, s: Ledger, investor: Address, amount: u64)
    requires Sound(s) && RequestWithdrawStep(env, s, investor, amount).Ok?
    ensures Sound(RequestWithdrawStep(env, s, investor, amount).value)
  {
    hide Sum, LimitsSound, DcasSound, KindSound, StrategySound;
    SameTrading(s, RequestWithdrawStep(env, s, investor, amount).value);
  }

  lemma CancelWithdrawKeeps(s: Ledger, investor: Address)
    requires Sound(s) && CancelWithdrawStep(s, investor).Ok?
    ensures Sound(CancelWithdrawStep(s, investor).value)
  {
    hide Sum, LimitsSound, DcasSound, KindSound, StrategySound;
    SameTrading(s, CancelWithdrawStep(s, investor).value);
  }

  lemma ExecuteWithdrawKeeps(env: Env, s: Ledger, investor: Address, accounts: seq<Address>)
    requires Sound(s) && ExecuteWithdrawStep(env, s, investor, accounts).Ok?
    ensures Sound(ExecuteWithdrawStep(env, s, investor, accounts).value)
  {
    hide Sum, Nav, DueRequest, PayoutFor, BurnShares, PayInvestor, LimitsSound, DcasSound, KindSound, StrategySound;
    BurnKeepsSum(s, investor, DueRequest(env, s, investor).value.shares);
    SameTrading(s, ExecuteWithdrawStep(env, s, investor, accounts).value);
  }

  lemma TransferSharesKeeps(s: Ledger, sender: Address, receiver: Address, amount: u64)
    requires Sound(s) && TransferSharesStep(s, sender, receiver, amount).Ok?
    ensures Sound(TransferSharesStep(s, sender, receiver, amount).value)
  {
    hide Sum, DebitFrom, CreditTo, LimitsSound, DcasSound, KindSound, StrategySound;
    TransferKeepsSum(s.shares, sender, receiver, amount);
    SameTrading(s, TransferSharesStep(s, sender, receiver, amount).value);
  }

  // ---- orders, instruction by instruction ------------------------------------------------------

  lemma CreateLimitKeeps(env: Env, s: Ledger, signer: Address, side: u8, mint: Address, amount: u64, minOut: u64,
                         limitPrice: i64, priceExpo: i32, expiry: i64)
    requires Sound(s)
    requires CreateLimitStep(env, s, signer, side, mint, amount, minOut, limitPrice, priceExpo, expiry).Ok?
    ensures Sound(CreateLimitStep(env, s, signer, side, mint, amount, minOut, limitPrice, priceExpo, expiry).value)
  {
    hide OpenLimit, SharesSound, DcasSound, KindSound, StrategySound, RequestsSound, TradingSound, LimitBook, OpenIds,
         LimitSound;
    var after := CreateLimitStep(env, s, signer, side, mint, amount, minOut, limitPrice, priceExpo, expiry).value;
    OpenLimitSound(env, s, signer, side, mint, amount, minOut, limitPrice, priceExpo, expiry);
    LimitCounted(s, after, s.nextOrderId);
    SameDcas(s, after);
    SameHoldings(s, after);
  }

  lemma ExecuteLimitKeeps(env: Env, s: Ledger, signer: Address, id: nat, swap: Swap)
    requires Sound(s) && ExecuteLimitStep(env, s, signer, id, swap).Ok?
    ensures Sound(ExecuteLimitStep(env, s, signer, id, swap).value)
  {
    hide FillLimit, SharesSound, DcasSound, KindSound, StrategySound, RequestsSound, TradingSound, LimitBook, OpenIds;
    var after := ExecuteLimitStep(env, s, signer, id, swap).value;
    FillLimitSound(env, s, signer, s.limits[id], swap);
    LimitCounted(s, after, id);
    SameDcas(s, after);
    SameHoldings(s, after);
  }

  lemma CancelLimitKeeps(env: Env, s: Ledger, signer: Address, id: nat, other: bool)
    requires Sound(s) && CancelLimitStep(env, s, signer, id, other).Ok?
    ensures Sound(CancelLimitStep(env, s, signer, id, other).value)
  {
    hide Refund, SharesSound, DcasSound, KindSound, StrategySound, RequestsSound, TradingSound, LimitBook, OpenIds,
         LimitSound;
    var after := CancelLimitStep(env, s, signer, id, other).value;
    LimitDropped(s, after, id);
    SameDcas(s, after);
    SameHoldings(s, after);
  }

  lemma CreateDcaKeeps(env: Env, s: Ledger, signer: Address, side: u8, mint: Address, amount: u64, slice: u64,
                       interval: i64, minOut: u64, expiry: i64, other: bool)
    requires Sound(s)
    requires CreateDcaStep(env, s, signer, side, mint, amount, slice, interval, minOut, expiry, other).Ok?
    ensures Sound(CreateDcaStep(env, s, signer, side, mint, amount, slice, interval, minOut, expiry, other).value)
  {
    hide OpenDca, SharesSound, LimitsSound, KindSound, StrategySound, RequestsSound, TradingSound, DcaBook, OpenIds,
         DcaSound;
    var after := CreateDcaStep(env, s, signer, side, mint, amount, slice, interval, minOut, expiry, other).value;
    OpenDcaSound(env, s, signer, side, mint, amount, slice, interval, minOut, expiry, other);
    DcaCounted(s, after, s.nextOrderId);
    SameLimits(s, after);
    SameHoldings(s, after);
  }

  lemma ExecuteDcaKeeps(env: Env, s: Ledger, signer: Address, id: nat, swap: Swap, solVaultPassed: bool)
    requires Sound(s) && ExecuteDcaStep(env, s, signer, id, swap, solVaultPassed).Ok?
    ensures Sound(ExecuteDcaStep(env, s, signer, id, swap, solVaultPassed).value)
  {
    hide FillSlice, SharesSound, LimitsSound, KindSound, StrategySound, RequestsSound, TradingSound, DcaBook, OpenIds,
         DcaSound;
    var after := ExecuteDcaStep(env, s, signer, id, swap, solVaultPassed).value;
    FillSliceSound(env, s, signer, s.dcas[id], swap, solVaultPassed);
    DcaCounted(s, after, id);
    SameLimits(s, after);
    SameHoldings(s, after);
  }

  lemma CancelDcaKeeps(env: Env, s: Ledger, signer: Address, id: nat, other: bool)
    requires Sound(s) && CancelDcaStep(env, s, signer, id, other).Ok?
    ensures Sound(CancelDcaStep(env, s, signer, id, other).value)
  {
    hide Refund, SharesSound, LimitsSound, KindSound, StrategySound, RequestsSound, TradingSound, DcaBook, OpenIds;
    var after := CancelDcaStep(env, s, signer, id, other).value;
    RefundCloses(env, s, s.dcas[id].escrow, other);
    DcaCounted(s, after, id);
    SameLimits(s, after);
    SameHoldings(s, after);
  }

  ghost predicate Credited(e: Escrow, after: Escrow) {
    after == e.(sol := after.sol, token := after.token) && after.sol >= e.sol && after.token >= e.token
  }

  lemma CreditLimitKeeps(s: Ledger, after: Ledger, id: nat)
    requires Sound(s) && id in s.limits && id in after.limits
    requires after == s.(limits := s.limits[id := s.limits[id].(escrow := after.limits[id].escrow)])
    requires Credited(s.limits[id].escrow, after.limits[id].escrow)
    ensures Sound(after)
  {
    hide SharesSound, DcasSound, StrategySound, RequestsSound, TradingSound, LimitBook, DcaBook, OpenIds;
    LimitCounted(s, after, id);
    SameDcas(s, after);
    SameHoldings(s, after);
  }

  lemma CreditDcaKeeps(s: Ledger, after: Ledger, id: nat)
    requires Sound(s) && id in s.dcas && id in after.dcas
    requires after == s.(dcas := s.dcas[id := s.dcas[id].(escrow := after.dcas[id].escrow)])
    requires Credited(s.dcas[id].escrow, after.dcas[id].escrow)
    ensures Sound(after)
  {
    hide SharesSound, LimitsSound, StrategySound, RequestsSound, TradingSound, LimitBook, DcaBook, OpenIds;
    DcaCounted(s, after, id);
    SameLimits(s, after);
    SameHoldings(s, after);
  }

  lemma CreditFundKeeps(s: Ledger, after: Ledger)
    requires Sound(s) && after == s.(vaultSol := after.vaultSol, tokens := after.tokens)
    ensures Sound(after)
  {
    hide SharesSound, LimitsSound, DcasSound, KindSound, StrategySound, RequestsSound, TradingSound;
    SameLimits(s, after);
    SameDcas(s, after);
    SameHoldings(s, after);
  }

  lemma CreditUnusedKeeps(s: Ledger, after: Ledger)
    requires Sound(s) && after == s.(loose := after.loose)
    ensures Sound(after)
  {
    hide SharesSound, LimitsSound, DcasSound, KindSound, StrategySound, RequestsSound, TradingSound;
    SameShares(s, after);
    SameLimits(s, after);
    SameDcas(s, after);
    SameHoldings(s, after);
  }

  lemma CreditVaultKeeps(s: Ledger, vault: Vault, amount: u64)
    requires Sound(s) && CreditVaultStep(s, vault, amount).Ok?
    ensures Sound(CreditVaultStep(s, vault, amount).value)
  {
    hide CreditTo, Sound;
    var after := CreditVaultStep(s, vault, amount).value;
    match vault {
      case FundSolVault => CreditFundKeeps(s, after);
      case FundTokenVault(_) => CreditFundKeeps(s, after);
      case LimitSolVault(id) => CreditLimitKeeps(s, after, id);
      case LimitTokenVault(id) => CreditLimitKeeps(s, after, id);
      case DcaSolVault(id) => CreditDcaKeeps(s, after, id);
      case DcaTokenVault(id) => CreditDcaKeeps(s, after, id);
      case UnusedSolVault(_, _) => CreditUnusedKeeps(s, after);
      case UnusedTokenVault(_, _, _) => CreditUnusedKeeps(s, after);
    }
  }

  // ---- the others --------------------------------------------------------------------------

  lemma WhitelistKeeps(s: Ledger, after: Ledger)
    requires Sound(s)
    requires after == s.(listings := after.listings, tokens := after.tokens, enabledCount := after.enabledCount)
    ensures Sound(after)
  {
    hide SharesSound, LimitsSound, DcasSound, KindSound, StrategySound, RequestsSound, TradingSound;
    SameShares(s, after);
    SameLimits(s, after);
    SameDcas(s, after);
    SameKind(s, after);
    SameRequests(s, after);
  }

  lemma BorrowKeeps(s: Ledger, signer: Address, amount: u64, minOut: u64, mint: Address, later: seq<Meta>)
    requires Sound(s) && BorrowStep(s, signer, amount, minOut, mint, later).Ok?
    ensures Sound(BorrowStep(s, signer, amount, minOut, mint, later).value)
  {
    hide ScanForSettle, CreditTo, SharesSound, LimitsSound, DcasSound, KindSound, StrategySound, RequestsSound;
    var after := BorrowStep(s, signer, amount, minOut, mint, later).value;
    SameShares(s, after);
    SameLimits(s, after);
    SameDcas(s, after);
    SameKind(s, after);
    SameRequests(s, after);
  }

  lemma SettleKeeps(s: Ledger, accounts: seq<Address>)
    requires Sound(s) && SettleStep(s, accounts).Ok?
    ensures Sound(SettleStep(s, accounts).value)
  {
    hide SharesSound, LimitsSound, DcasSound, KindSound, StrategySound, RequestsSound;
    var after := SettleStep(s, accounts).value;
    SameShares(s, after);
    SameLimits(s, after);
    SameDcas(s, after);
    SameKind(s, after);
    SameRequests(s, after);
  }

  lemma SetStrategyKeeps(env: Env, s: Ledger, signer: Address, allocations: seq<Allocation>, thresholdBps: u16,
                         cooldown: i64, accounts: seq<Address>)
    requires Sound(s) && SetStrategyStep(env, s, signer, allocations, thresholdBps, cooldown, accounts).Ok?
    ensures Sound(SetStrategyStep(env, s, signer, allocations, thresholdBps, cooldown, accounts).value)
  {
    hide CheckAllocations, CheckListed, WeightSum, SharesSound, LimitsSound, DcasSound, RequestsSound, TradingSound;
    var after := SetStrategyStep(env, s, signer, allocations, thresholdBps, cooldown, accounts).value;
    CheckedAllocations(allocations, 0);
    assert Padded(allocations)[..|allocations|] == allocations;
    SameShares(s, after);
    SameLimits(s, after);
    SameDcas(s, after);
    SameRequests(s, after);
  }

  lemma RebalanceKeeps(env: Env, s: Ledger, signer: Address, mint: Address, minOut: u64, accounts: seq<Address>,
                       fundSwap: FundSwap)
    requires Sound(s) && RebalanceStep(env, s, signer, mint, minOut, accounts, fundSwap).Ok?
    ensures Sound(RebalanceStep(env, s, signer, mint, minOut, accounts, fundSwap).value)
  {
    hide RebalanceTrade, SharesSound, LimitsSound, DcasSound, RequestsSound, TradingSound, AllocationsSound;
    var after := RebalanceStep(env, s, signer, mint, minOut, accounts, fundSwap).value;
    SameShares(s, after);
    SameLimits(s, after);
    SameDcas(s, after);
    SameRequests(s, after);
  }

  // ---- every step, every run ---------------------------------------------------------------

  lemma StepKeepsSound(env: Env, s: Ledger, ix: Ix)
    requires Sound(s) && Step(env, s, ix).Ok?
    ensures Sound(Step(env, s, ix).value)
  {
    hide Sound, DepositStep, RequestWithdrawStep, CancelWithdrawStep, ExecuteWithdrawStep, CreateLimitStep,
         ExecuteLimitStep, CancelLimitStep, CreateDcaStep, ExecuteDcaStep, CancelDcaStep, BorrowStep, SettleStep,
         SetStrategyStep, RebalanceStep, TransferSharesStep, CreditVaultStep;
    match ix {
      case Deposit(investor, amount, accounts) => DepositKeeps(env, s, investor, amount, accounts);
      case RequestWithdraw(investor, amount) => RequestWithdrawKeeps(env, s, investor, amount);
      case CancelWithdraw(investor) => CancelWithdrawKeeps(s, investor);
      case ExecuteWithdraw(investor, accounts) => ExecuteWithdrawKeeps(env, s, investor, accounts);
      case AddToken(_, _, _) => WhitelistKeeps(s, Step(env, s, ix).value);
      case RemoveToken(_, _) => WhitelistKeeps(s, Step(env, s, ix).value);
      case CreateLimit(signer, side, mint, amount, minOut, limitPrice, priceExpo, expiry) =>
        CreateLimitKeeps(env, s, signer, side, mint, amount, minOut, limitPrice, priceExpo, expiry);
      case ExecuteLimit(signer, id, swap) => ExecuteLimitKeeps(env, s, signer, id, swap);
      case CancelLimit(signer, id, other) => CancelLimitKeeps(env, s, signer, id, other);
      case CreateDca(signer, side, mint, amount, slice, interval, minOut, expiry, other) =>
        CreateDcaKeeps(env, s, signer, side, mint, amount, slice, interval, minOut, expiry, other);
      case ExecuteDca(signer, id, swap, solVaultPassed) => ExecuteDcaKeeps(env, s, signer, id, swap, solVaultPassed);
      case CancelDca(signer, id, other) => CancelDcaKeeps(env, s, signer, id, other);
      case Borrow(signer, amount, minOut, mint, later) => BorrowKeeps(s, signer, amount, minOut, mint, later);
      case Settle(accounts) => SettleKeeps(s, accounts);
      case SetStrategy(signer, allocations, thresholdBps, cooldown, accounts) =>
        SetStrategyKeeps(env, s, signer, allocations, thresholdBps, cooldown, accounts);
      case Rebalance(signer, mint, minOut, accounts, fundSwap) =>
        RebalanceKeeps(env, s, signer, mint, minOut, accounts, fundSwap);
      case TransferShares(sender, receiver, amount) => TransferSharesKeeps(s, sender, receiver, amount);
      case CreditVault(vault, amount) => CreditVaultKeeps(s, vault, amount);
    }
  }

  lemma InitialSound(env: Env, bounds: Bounds, charter: Charter, wallets: map<Address, u64>)
    requires InitialLedger(env, bounds, charter, wallets).Ok?
    ensures Sound(InitialLedger(env, bounds, charter, wallets).value)
  {
    hide Move, DebitFrom, BpsOf, AsU64;
    var s := InitialLedger(env, bounds, charter, wallets).value;
    assert s.shares == map[][charter.manager := s.totalShares];
    SumUpdate(map[], charter.manager, s.totalShares);
    assert LimitBook(s) == map[] && DcaBook(s) == map[];
  }

  lemma {:induction false} RunKeepsSound(s: Ledger, run: seq<Event>)
    requires Sound(s) && Exec(s, run).Ok?
    ensures Sound(Exec(s, run).value)
  {
    hide Step, Sound;
    if run != [] {
      var before, last := ExecLast(s, run);
      RunKeepsSound(s, run[..|run| - 1]);
      StepKeepsSound(last.env, before, last.ix);
    }
  }

  /** Every reachable ledger is sound. */
  lemma ReachableIsSound(s: Ledger)
    requires Reachable(s)
    ensures Sound(s)
  {
    hide Exec, Sound, InitialLedger;
    var env: Env, bounds: Bounds, charter: Charter, wallets: map<Address, u64>, run: seq<Event>
      :| Starts(env, bounds, charter, wallets, run, s);
    InitialSound(env, bounds, charter, wallets);
    RunKeepsSound(InitialLedger(env, bounds, charter, wallets).value, run);
  }
}
