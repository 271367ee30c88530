/** What an executed order can cost the fund, at the prices of the execution. */
module Slippage {
  import opened Ints
  import opened Oracle
  import opened Ledgers
  import opened Navs
  import opened ExactNavs
  import opened Steps
  import opened Valuation
  import opened Invariants
  import opened DcaOrders

  // ---- arithmetic --------------------------------------------------------------------------

  /** The tolerated part of `x`, rounded up. */
  ghost function Tolerated(x: nat, bps: nat): nat {
    CeilDiv(Mul(x, bps), 10_000)
  }

  lemma ToleratedBound(x: nat, bps: nat)
    ensures Mul(x, bps) <= 10_000 * Tolerated(x, bps) < Mul(x, bps) + 10_000
  {
    CeilDivBounds(Mul(x, bps), 10_000);
  }

  /** A BUY that receives the tolerated minimum of its expected output: flooring the expected
      output, flooring the minimum and flooring the value cost at most the price of two base
      units beyond the tolerated part of the input. */
  lemma BuyLoss(a: nat, rate: Rate, bps: nat, output: nat)
    requires rate.Valid() && bps <= 10_000
    requires output + Tolerated(Floor(a, Inverse(rate)), bps) >= Floor(a, Inverse(rate))
    ensures a <= Floor(output, rate) + Tolerated(a, bps) + CeilDiv(2 * rate.num, rate.den)
  {
    hide Mul, Floor, Tolerated, CeilDiv;
    var n, d := rate.num, rate.den;
    var e, f := Floor(a, Inverse(rate)), Floor(output, rate);
    var c1, c2 := Tolerated(a, bps), CeilDiv(2 * n, d);
    FloorBounds(a, Inverse(rate));
    FloorBounds(output, rate);
    ToleratedBound(e, bps);
    ToleratedBound(a, bps);
    CeilCovers(2 * n, d);
    KeptPart(e, bps);
    Combine(a, n, d, 10_000 - bps, e, output, f);
    Finish(a, n, d, bps, f, c1, c2);
  }

  lemma KeptPart(e: nat, bps: nat)
    requires bps <= 10_000
    ensures Mul(e, 10_000 - bps) == 10_000 * e - Mul(e, bps)
  {
  }

  /** The three floors, combined. */
  lemma Combine(a: nat, n: nat, d: nat, keep: nat, e: nat, output: nat, f: nat)
    requires keep <= 10_000
    requires Mul(e, n) + n > Mul(a, d)
    requires 10_000 * output + 10_000 > Mul(e, keep)
    requires Mul(output, n) < Mul(f, d) + d
    ensures 10_000 * (Mul(f, d) + d) + 20_000 * n > Mul(Mul(a, d), keep)
  {
    hide Mul;
    MulMono(Mul(a, d), Mul(e, n) + n, keep);
    MulSum(Mul(e, n), n, keep);
    MulSwap(e, n, keep);
    MulMono(Mul(e, keep), 10_000 * output + 10_000, n);
    MulSum(10_000 * output, 10_000, n);
    MulScaled(10_000, output, n);
    MulCommutes(n, keep);
    MulMono(keep, 10_000, n);
    MulCommutes(10_000, n);
    TenThousand(n);
  }

  lemma TenThousand(n: nat)
    ensures Mul(10_000, n) == 10_000 * n
  {
  }

  lemma Finish(a: nat, n: nat, d: nat, bps: nat, f: nat, c1: nat, c2: nat)
    requires d > 0 && bps <= 10_000
    requires 10_000 * (Mul(f, d) + d) + 20_000 * n > Mul(Mul(a, d), 10_000 - bps)
    requires Mul(a, bps) <= 10_000 * c1 && 2 * n <= Mul(c2, d)
    ensures a <= f + c1 + c2
  {
    hide Mul;
    KeptPart(Mul(a, d), bps);
    ToleratedProduct(a, bps, d, c1);
    GoalProduct(f, c1, c2, d);
    MulCancelLt(a, f + 1 + c1 + c2, d);
  }

  lemma ToleratedProduct(a: nat, bps: nat, d: nat, c: nat)
    requires Mul(a, bps) <= 10_000 * c
    ensures Mul(Mul(a, d), bps) <= 10_000 * Mul(c, d)
  {
    hide Mul;
    MulSwap(a, d, bps);
    MulMono(Mul(a, bps), 10_000 * c, d);
    MulScaled(10_000, c, d);
  }

  lemma GoalProduct(f: nat, c1: nat, c2: nat, d: nat)
    ensures Mul(f + 1 + c1 + c2, d) == Mul(f, d) + d + Mul(c1, d) + Mul(c2, d)
  {
    hide Mul;
    MulSum(f + 1 + c1, c2, d);
    MulSum(f + 1, c1, d);
    MulSum(f, 1, d);
    MulUnits(d);
  }

  // ---- casts -------------------------------------------------------------------------------

  /** What a cast to 64 bits drops: nothing if the value fits. */
  ghost function Dropped(x: nat): nat {
    x - AsU64(x)
  }

  /** What the part of a BUY's expected output that the cast drops is worth. */
  ghost function DroppedWorth(a: nat, rate: Rate): nat
    requires rate.Valid()
  {
    var dropped := Dropped(Floor(a, Inverse(rate)));
    if dropped == 0 then 0 else Floor(dropped, rate) + 1
  }

  lemma ToleratedMono(x: nat, y: nat, bps: nat)
    requires x <= y
    ensures Tolerated(x, bps) <= Tolerated(y, bps)
  {
    MulMono(x, y, bps);
    DivMono(Mul(x, bps) + 9_999, Mul(y, bps) + 9_999, 10_000);
  }

  /** The same for an expectation that was cast: the dropped part adds what it is worth. */
  lemma CastBuyLoss(a: nat, rate: Rate, bps: nat, output: nat)
    requires rate.Valid() && bps <= 10_000
    requires var quoted := AsU64(Floor(a, Inverse(rate))); output + Tolerated(quoted, bps) >= quoted
    ensures a <= Floor(output, rate) + Tolerated(a, bps) + CeilDiv(2 * rate.num, rate.den) + DroppedWorth(a, rate)
  {
    hide Floor, Tolerated, CeilDiv, AsU64;
    var expected := Floor(a, Inverse(rate));
    var dropped := Dropped(expected);
    ToleratedMono(AsU64(expected), expected, bps);
    BuyLoss(a, rate, bps, output + dropped);
    FloorSplits(output, dropped, rate);
  }

  // ---- the guard ---------------------------------------------------------------------------

  /** An accepted swap delivered the oracle's expectation but for the tolerated part. */
  lemma SwapGuard(env: Env, s: Ledger, e: Escrow, amount: u64, minOut: u64, whole: bool, quote: Quote, swap: Swap)
    requires SwapOut(env, s, e, amount, minOut, whole, quote, swap).Ok?
    ensures env.maxSlippageBps <= 10_000 && ExpectedOut(e.side, amount, quote).Ok?
    ensures var expected := ExpectedOut(e.side, amount, quote).value;
            Output(e.side, swap) + Tolerated(expected, env.maxSlippageBps) >= expected
  {
    hide ExpectedOut, ApplyMaxSlippage, CreditTo, CeilDiv;
    var expected := ExpectedOut(e.side, amount, quote).value;
    SlippageGuard(expected, env.maxSlippageBps);
  }

  lemma SlippageGuard(expected: u64, bps: u16)
    requires ApplyMaxSlippage(expected, bps).Ok?
    ensures bps <= 10_000 && ApplyMaxSlippage(expected, bps).value + Tolerated(expected, bps) >= expected
  {
    hide CeilDiv;
    SlippageLoss(expected, bps);
  }

  lemma QuoteWorth(env: Env, s: Ledger, e: Escrow, feed: Address, amount: u64)
    requires QuoteFor(env, s, e, feed).Ok?
    ensures Priced(env, s.listings, e.mint)
    ensures var quote := QuoteFor(env, s, e, feed).value;
            && MintValue(env, s.listings, e.mint, amount) == TokenValue(amount, quote.decimals, quote.price, quote.sol)
            && quote.price.price > 0 && quote.sol.price > 0
            && MintRate(env, s.listings, e.mint) == TokenRate(quote.decimals, quote.price, quote.sol)
  {
    hide TokenValue, TokenRate;
  }

  /** What a BUY of `amount` lamports may cost: the tolerated part, the price of two base units
      rounded up, and what a cast of the expected output drops. */
  ghost function BuyCost(env: Env, s: Ledger, mint: Address, amount: nat): nat {
    Tolerated(amount, env.maxSlippageBps) + TwoUnits(env, s, mint)
    + if Priced(env, s.listings, mint) then DroppedWorth(amount, MintRate(env, s.listings, mint)) else 0
  }

  ghost function TwoUnits(env: Env, s: Ledger, mint: Address): nat {
    if Priced(env, s.listings, mint)
    then CeilDiv(2 * MintRate(env, s.listings, mint).num, MintRate(env, s.listings, mint).den)
    else 0
  }

  /** What a SELL of tokens worth `worth` may cost: what a cast of the expected output drops, and
      the tolerated part of the rest. */
  ghost function SellCost(env: Env, worth: nat): nat {
    Dropped(worth) + Tolerated(AsU64(worth), env.maxSlippageBps)
  }

  /** The tokens a BUY receives for `amount` lamports are worth at least `amount` but for its cost. */
  lemma BoughtWorth(env: Env, s: Ledger, e: Escrow, feed: Address, amount: u64, minOut: u64, whole: bool, swap: Swap)
    requires e.side.Buy? && QuoteFor(env, s, e, feed).Ok?
    requires SwapOut(env, s, e, amount, minOut, whole, QuoteFor(env, s, e, feed).value, swap).Ok?
    ensures amount <= ExactWorth(env, s.listings, e.mint, swap.tokenCredit) + BuyCost(env, s, e.mint, amount)
  {
    hide SwapOut, QuoteFor, MintRate, Floor, Tolerated, CeilDiv, TokenRate, AsU64, Inverse, DroppedWorth;
    var quote := QuoteFor(env, s, e, feed).value;
    QuoteWorth(env, s, e, feed, amount);
    SwapGuard(env, s, e, amount, minOut, whole, quote, swap);
    var rate := MintRate(env, s.listings, e.mint);
    ExpectedIsFloor(amount, quote, rate);
    CastBuyLoss(amount, rate, env.maxSlippageBps, swap.tokenCredit);
  }

  lemma ExpectedIsFloor(amount: u64, quote: Quote, rate: Rate)
    requires quote.price.price > 0 && quote.sol.price > 0 && rate == TokenRate(quote.decimals, quote.price, quote.sol)
    requires ExpectedOut(Buy, amount, quote).Ok?
    ensures ExpectedOut(Buy, amount, quote).value == AsU64(Floor(amount, Inverse(rate)))
  {
    hide ExpectedTokenOut, TokenRate, Floor, AsU64;
    ExpectedTokenOutIsFloor(amount, quote.decimals, quote.price, quote.sol);
  }

  /** The lamports a SELL receives for `amount` tokens are what they are worth but for its cost. */
  lemma SoldWorth(env: Env, s: Ledger, e: Escrow, feed: Address, amount: u64, minOut: u64, whole: bool, swap: Swap)
    requires e.side.Sell? && QuoteFor(env, s, e, feed).Ok?
    requires SwapOut(env, s, e, amount, minOut, whole, QuoteFor(env, s, e, feed).value, swap).Ok?
    ensures var worth := ExactWorth(env, s.listings, e.mint, amount);
            swap.solCredit + SellCost(env, worth) >= worth
  {
    hide SwapOut, QuoteFor, Tolerated, AsU64, ExactWorth, TokenValue, MintValue;
    QuoteWorth(env, s, e, feed, amount);
    SwapGuard(env, s, e, amount, minOut, whole, QuoteFor(env, s, e, feed).value, swap);
    ValueIsCast(env, s.listings, e.mint, amount);
  }

  // ---- limit orders ------------------------------------------------------------------------

  lemma FillLimitTrade(env: Env, s: Ledger, signer: Address, order: LimitOrder, swap: Swap)
    requires FillLimit(env, s, signer, order, swap).Ok?
    ensures QuoteFor(env, s, order.escrow, order.feed).Ok?
    ensures SwapOut(env, s, order.escrow, order.amountIn, order.minOut, true,
                    QuoteFor(env, s, order.escrow, order.feed).value, swap).Ok?
    ensures var filled := FillLimit(env, s, signer, order, swap).value;
            && filled.vaultSol == s.vaultSol + swap.solCredit + env.tokenRent
            && filled.tokens == s.tokens[order.escrow.mint := Balance(s.tokens, order.escrow.mint) + swap.tokenCredit]
            && order.escrow.status.Open? && filled.order.escrow.status.Executed?
  {
    hide QuoteFor, ScalePrice, SwapOut, Balance;
    SwapOutDelivers(env, s, order.escrow, order.amountIn, order.minOut, true,
                    QuoteFor(env, s, order.escrow, order.feed).value, swap);
  }

  /** `after` is `s` with order `id` executed: what the swap brought, and `closing` lamports. */
  ghost predicate Trades(s: Ledger, after: Ledger, kind: OrderKind, id: nat, swap: Swap, closing: int) {
    && id in OpenIds(BookOf(s, kind)) && id in BookOf(after, kind)
    && var mint := BookOf(s, kind)[id].mint;
    && LocalChange(s, after, mint, kind, id)
    && after.vaultSol == s.vaultSol + swap.solCredit + closing
    && Balance(s.tokens, mint) + swap.tokenCredit <= U64_MAX
    && after.tokens == s.tokens[mint := Balance(s.tokens, mint) + swap.tokenCredit]
  }

  /** The value changes by at least what the swap brought, less what left the escrow. */
  lemma TradeNav(env: Env, s: Ledger, after: Ledger, kind: OrderKind, id: nat, swap: Swap, closing: int)
    requires Trades(s, after, kind, id, swap, closing)
    ensures var e := BookOf(s, kind)[id];
            ExactNav(env, after) >= ExactNav(env, s) + swap.solCredit + closing
                                    + ExactWorth(env, s.listings, e.mint, swap.tokenCredit)
                                    + OpenWorth(env, s.listings, BookOf(after, kind), id)
                                    - ExactEscrowWorth(env, s.listings, e)
  {
    hide ExactNav, ExactWorth, ExactEscrowWorth, LimitBook, DcaBook;
    var e := BookOf(s, kind)[id];
    NavChange(env, s, after, e.mint, kind, id);
    WorthSplits(env, s.listings, e.mint, Balance(s.tokens, e.mint), swap.tokenCredit);
  }

  lemma ExecuteLimitTrades(env: Env, s: Ledger, signer: Address, id: nat, swap: Swap)
    requires ExecuteLimitStep(env, s, signer, id, swap).Ok?
    ensures id in s.limits
    ensures var after := ExecuteLimitStep(env, s, signer, id, swap).value;
            Trades(s, after, LimitKind, id, swap, env.tokenRent) && id !in OpenIds(LimitBook(after))
  {
    hide FillLimit;
    FillLimitTrade(env, s, signer, s.limits[id], swap);
    FillLimitVaults(env, s, signer, s.limits[id], swap);
    var after := ExecuteLimitStep(env, s, signer, id, swap).value;
    assert after.limits - {id} == s.limits - {id};
  }

  lemma FillLimitVaults(env: Env, s: Ledger, signer: Address, order: LimitOrder, swap: Swap)
    requires FillLimit(env, s, signer, order, swap).Ok?
    ensures Balance(s.tokens, order.escrow.mint) + swap.tokenCredit <= U64_MAX
  {
    hide QuoteFor, ScalePrice, ExpectedOut, ApplyMaxSlippage;
  }

  /** Executing a limit SELL costs the fund at most the cost of selling what the escrow held. */
  lemma LimitSellLoss(env: Env, s: Ledger, signer: Address, id: nat, swap: Swap)
    requires ExecuteLimitStep(env, s, signer, id, swap).Ok? && s.limits[id].escrow.side.Sell?
    ensures var after := ExecuteLimitStep(env, s, signer, id, swap).value;
            var worth := ExactEscrowWorth(env, s.listings, s.limits[id].escrow);
            ExactNav(env, after) + SellCost(env, worth) >= ExactNav(env, s) + env.tokenRent
  {
    hide ExactNav, SwapOut, QuoteFor, FillLimit, SellCost, Trades, ExactWorth;
    var order := s.limits[id];
    var e := order.escrow;
    var after := ExecuteLimitStep(env, s, signer, id, swap).value;
    ExecuteLimitTrades(env, s, signer, id, swap);
    FillLimitTrade(env, s, signer, order, swap);
    var quote := QuoteFor(env, s, e, order.feed).value;
    SwapOutSpends(env, s, e, order.amountIn, order.minOut, true, quote, swap);
    SoldWorth(env, s, e, order.feed, order.amountIn, order.minOut, true, swap);
    TradeNav(env, s, after, LimitKind, id, swap, env.tokenRent);
  }

  /** Executing a limit BUY costs the fund at most the cost of the purchase and the residue that
      stays behind in the order's SOL vault. */
  lemma LimitBuyLoss(env: Env, s: Ledger, signer: Address, id: nat, swap: Swap)
    requires ExecuteLimitStep(env, s, signer, id, swap).Ok? && s.limits[id].escrow.side.Buy?
    ensures var after := ExecuteLimitStep(env, s, signer, id, swap).value;
            var order := s.limits[id];
            && order.escrow.sol >= order.amountIn
            && ExactNav(env, after) + BuyCost(env, s, order.escrow.mint, order.amountIn)
               + (order.escrow.sol - order.amountIn)
               >= ExactNav(env, s) + env.tokenRent
  {
    hide ExactNav, SwapOut, QuoteFor, FillLimit, BuyCost, Trades, ExactWorth;
    var order := s.limits[id];
    var e := order.escrow;
    var after := ExecuteLimitStep(env, s, signer, id, swap).value;
    ExecuteLimitTrades(env, s, signer, id, swap);
    FillLimitTrade(env, s, signer, order, swap);
    var quote := QuoteFor(env, s, e, order.feed).value;
    SwapOutSpends(env, s, e, order.amountIn, order.minOut, true, quote, swap);
    BoughtWorth(env, s, e, order.feed, order.amountIn, order.minOut, true, swap);
    TradeNav(env, s, after, LimitKind, id, swap, env.tokenRent);
  }

  // ---- DCA orders --------------------------------------------------------------------------

  ghost predicate Completes(order: DcaOrder) {
    order.remaining == SliceOf(order)
  }

  /** The lamports the completion of an order adds: the rent of an emptied token vault and what
      is swept from the SOL vault. */
  ghost function Closing(env: Env, order: DcaOrder, escrow: Escrow, solVaultPassed: bool): nat {
    if !Completes(order) then 0
    else (if escrow.token == 0 then env.tokenRent else 0) + (if solVaultPassed then escrow.sol else 0)
  }

  /** The escrow after a slice was swapped. */
  ghost function Spent(order: DcaOrder): Escrow {
    var e, slice := order.escrow, SliceOf(order);
    match e.side
    case Buy => if e.sol >= slice then e.(sol := e.sol - slice, token := 0) else e
    case Sell => if e.token >= slice then e.(token := e.token - slice) else e
  }

  lemma FillSliceTrade(env: Env, s: Ledger, signer: Address, order: DcaOrder, swap: Swap, solVaultPassed: bool)
    requires FillSlice(env, s, signer, order, swap, solVaultPassed).Ok?
    ensures order.escrow.side.Buy? ==> solVaultPassed
    ensures QuoteFor(env, s, order.escrow, order.feed).Ok?
    ensures SwapOut(env, s, order.escrow, SliceOf(order), order.minOut, false,
                    QuoteFor(env, s, order.escrow, order.feed).value, swap).Ok?
    ensures var filled := FillSlice(env, s, signer, order, swap, solVaultPassed).value;
            && filled.vaultSol == s.vaultSol + swap.solCredit + Closing(env, order, Spent(order), solVaultPassed)
            && order.escrow.status.Open?
            && (if Completes(order) then filled.order.escrow.status.Executed? else filled.order.escrow == Spent(order))
  {
    hide QuoteFor, SwapOut, CompleteDca;
    var slice := SliceOf(order);
    var quote := QuoteFor(env, s, order.escrow, order.feed).value;
    SwapOutSpends(env, s, order.escrow, slice, order.minOut, false, quote, swap);
    SwapOutDelivers(env, s, order.escrow, slice, order.minOut, false, quote, swap);
    var swapped := SwapOut(env, s, order.escrow, slice, order.minOut, false, quote, swap).value;
    if Completes(order) {
      CompleteDcaEscrow(env, swapped.escrow, swapped.vaultSol, solVaultPassed);
    }
  }

  lemma SwapOutVault(env: Env, s: Ledger, e: Escrow, amount: u64, minOut: u64, whole: bool, quote: Quote, swap: Swap)
    requires SwapOut(env, s, e, amount, minOut, whole, quote, swap).Ok?
    ensures Balance(s.tokens, e.mint) + swap.tokenCredit <= U64_MAX
  {
    hide ExpectedOut, ApplyMaxSlippage;
  }

  lemma ExecuteDcaTrades(env: Env, s: Ledger, signer: Address, id: nat, swap: Swap, solVaultPassed: bool)
    requires ExecuteDcaStep(env, s, signer, id, swap, solVaultPassed).Ok?
    ensures id in s.dcas
    ensures var after := ExecuteDcaStep(env, s, signer, id, swap, solVaultPassed).value;
            var order := s.dcas[id];
            && Trades(s, after, DcaKind, id, swap, Closing(env, order, Spent(order), solVaultPassed))
            && (if Completes(order) then id !in OpenIds(DcaBook(after))
                else DcaBook(after)[id] == Spent(order) && id in OpenIds(DcaBook(after)))
  {
    hide FillSlice, QuoteFor, SwapOut, Closing, Balance;
    var order := s.dcas[id];
    FillSliceTrade(env, s, signer, order, swap, solVaultPassed);
    FillSliceDelivers(env, s, signer, order, swap, solVaultPassed);
    SwapOutVault(env, s, order.escrow, SliceOf(order), order.minOut, false,
                 QuoteFor(env, s, order.escrow, order.feed).value, swap);
    var after := ExecuteDcaStep(env, s, signer, id, swap, solVaultPassed).value;
    assert after.dcas - {id} == s.dcas - {id};
    BalanceSet(s.tokens, order.escrow.mint, Balance(s.tokens, order.escrow.mint) + swap.tokenCredit);
  }

  lemma BalanceSet(m: map<Address, u64>, who: Address, amount: u64)
    ensures Balance(m[who := amount], who) == amount
    ensures forall other :: other != who ==> Balance(m[who := amount], other) == Balance(m, other)
  {
  }

  /** Executing a slice of a SELL order costs the fund at most the cost of selling the slice and
      one lamport; a completed order also strands what its token vault holds beyond the last
      slice. */
  lemma DcaSellLoss(env: Env, s: Ledger, signer: Address, id: nat, swap: Swap, solVaultPassed: bool)
    requires ExecuteDcaStep(env, s, signer, id, swap, solVaultPassed).Ok? && s.dcas[id].escrow.side.Sell?
    ensures var after := ExecuteDcaStep(env, s, signer, id, swap, solVaultPassed).value;
            var order := s.dcas[id];
            var mint, slice := order.escrow.mint, SliceOf(order);
            && order.escrow.token >= slice
            && ExactNav(env, after) + SellCost(env, ExactWorth(env, s.listings, mint, slice)) + 1
               + (if Completes(order) then ExactWorth(env, s.listings, mint, order.escrow.token - slice) else 0)
               >= ExactNav(env, s)
  {
    hide ExactNav, SwapOut, QuoteFor, FillSlice, SellCost, Trades, ExactWorth, Closing, LimitBook;
    var order := s.dcas[id];
    var e, slice := order.escrow, SliceOf(order);
    var after := ExecuteDcaStep(env, s, signer, id, swap, solVaultPassed).value;
    var closing := Closing(env, order, Spent(order), solVaultPassed);
    ExecuteDcaTrades(env, s, signer, id, swap, solVaultPassed);
    FillSliceTrade(env, s, signer, order, swap, solVaultPassed);
    var quote := QuoteFor(env, s, e, order.feed).value;
    SwapOutSpends(env, s, e, slice, order.minOut, false, quote, swap);
    SoldWorth(env, s, e, order.feed, slice, order.minOut, false, swap);
    WorthSplits(env, s.listings, e.mint, slice, e.token - slice);
    TradeNav(env, s, after, DcaKind, id, swap, closing);
  }

  /** Executing a slice of a BUY order costs the fund at most the cost of the purchase; nothing is
      stranded, for the completion sweeps the rest. */
  lemma DcaBuyLoss(env: Env, s: Ledger, signer: Address, id: nat, swap: Swap, solVaultPassed: bool)
    requires ExecuteDcaStep(env, s, signer, id, swap, solVaultPassed).Ok? && s.dcas[id].escrow.side.Buy?
    ensures var after := ExecuteDcaStep(env, s, signer, id, swap, solVaultPassed).value;
            var order := s.dcas[id];
            ExactNav(env, after) + BuyCost(env, s, order.escrow.mint, SliceOf(order))
            >= ExactNav(env, s) + if Completes(order) then env.tokenRent else 0
  {
    hide ExactNav, SwapOut, QuoteFor, FillSlice, BuyCost, Trades, ExactWorth, LimitBook;
    var order := s.dcas[id];
    var e, slice := order.escrow, SliceOf(order);
    var after := ExecuteDcaStep(env, s, signer, id, swap, solVaultPassed).value;
    var closing := Closing(env, order, Spent(order), solVaultPassed);
    ExecuteDcaTrades(env, s, signer, id, swap, solVaultPassed);
    FillSliceTrade(env, s, signer, order, swap, solVaultPassed);
    var quote := QuoteFor(env, s, e, order.feed).value;
    SwapOutSpends(env, s, e, slice, order.minOut, false, quote, swap);
    BoughtWorth(env, s, e, order.feed, slice, order.minOut, false, swap);
    TradeNav(env, s, after, DcaKind, id, swap, closing);
  }
}
