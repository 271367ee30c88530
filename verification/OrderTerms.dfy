/** The instructions on orders, written out: exactly when each is accepted and the whole ledger
    after it, in plain arithmetic on the balances. */
module OrderTerms {
  import opened Results
  import opened Ints
  import opened Oracle
  import opened Ledgers
  import opened Steps
  import opened Ranges
  import opened OracleRanges

  /** What a vault address of the next order holds before the order is there. */
  ghost function Waiting(s: Ledger, a: Address): u64 {
    if a in s.loose then s.loose[a] else 0
  }

  /** The lamports of a new order's SOL vault: what waited there, or else the rent. */
  ghost function Start(env: Env, s: Ledger, order: Address): u64 {
    if Waiting(s, SolVaultOf(order)) == 0 then env.solVaultRent else Waiting(s, SolVaultOf(order))
  }

  /** The order's token vault is empty: the wrapped-SOL one for a BUY, the mint's for a SELL. */
  ghost predicate NothingWaits(s: Ledger, order: Address, side: u8, mint: Address) {
    Waiting(s, Ata(AuthOf(order), if side == 0 then Key(0) else mint)) == 0
  }

  lemma WaitsIff(env: Env, s: Ledger, kind: OrderKind, side: u8, mint: Address)
    requires side <= 1
    ensures var order := OrderOf(kind, s.key, s.nextOrderId);
            && WaitingSol(s, kind) == Waiting(s, SolVaultOf(order))
            && InitialSol(env, WaitingSol(s, kind)) == Start(env, s, order)
            && (WaitingTokens(s, kind, if side == 0 then Buy else Sell, mint) == 0
                <==> NothingWaits(s, order, side, mint))
  {
  }

  lemma FundOrderIff(s: Ledger, side: Side, mint: Address, amount: u64, token: u64, sol: u64, other: bool)
    ensures var funded := FundOrder(s, side, mint, amount, token, sol, other);
            && (funded.Ok? <==> && token == 0 && (side.Buy? ==> s.vaultSol >= amount && Fits64(sol + amount))
                                && (side.Sell? ==> other || Balance(s.tokens, mint) >= amount))
            && (funded.Ok? && side.Buy? ==>
                  funded.value == Funded(Escrow(Buy, mint, Open, sol + amount, 0), s.vaultSol - amount, s.tokens))
            && (funded.Ok? && side.Sell? ==>
                  funded.value
                  == Funded(Escrow(Sell, mint, Open, sol, amount), s.vaultSol,
                            if other then s.tokens else s.tokens[mint := Balance(s.tokens, mint) - amount]))
  {
  }

  // ---- creating a limit order --------------------------------------------------------------------

  /** The arguments and the fund are right for a limit order. */
  ghost predicate LimitTermsRight(s: Ledger, signer: Address, side: u8, mint: Address, amount: u64, minOut: u64,
                                  limitPrice: i64) {
    && signer == s.manager && s.fundType.TradingFund? && side <= 1
    && mint in s.listings && mint in s.tokens && s.nextOrderId !in s.limits
    && amount > 0 && minOut > 0 && limitPrice > 0
  }

  ghost predicate LimitAccepted(env: Env, s: Ledger, signer: Address, side: u8, mint: Address, amount: u64, minOut: u64,
                                limitPrice: i64) {
    var order := OrderOf(LimitKind, s.key, s.nextOrderId);
    && LimitTermsRight(s, signer, side, mint, amount, minOut, limitPrice)
    && s.nextOrderId < 0xFFFF_FFFF_FFFF_FFFF && s.limitCount < 0xFFFF
    && NothingWaits(s, order, side, mint)
    && (side == 0 ==> s.vaultSol >= amount && Fits64(Start(env, s, order) + amount))
    && (side == 1 ==> s.tokens[mint] >= amount)
  }

  /** The order, the counters and the fund's vaults after it. */
  ghost function LimitOpened(env: Env, s: Ledger, signer: Address, side: u8, mint: Address, amount: u64, minOut: u64,
                             limitPrice: i64, priceExpo: i32, expiry: i64): Opened<LimitOrder>
    requires LimitAccepted(env, s, signer, side, mint, amount, minOut, limitPrice)
  {
    var order := OrderOf(LimitKind, s.key, s.nextOrderId);
    var escrow := if side == 0 then Escrow(Buy, mint, Open, Start(env, s, order) + amount, 0)
                  else Escrow(Sell, mint, Open, Waiting(s, SolVaultOf(order)), amount);
    Opened(LimitOrder(escrow, amount, minOut, limitPrice, priceExpo, s.listings[mint].feed, expiry),
           s.nextOrderId + 1, s.limitCount + 1,
           if side == 0 then s.vaultSol - amount else s.vaultSol,
           if side == 0 then s.tokens else s.tokens[mint := s.tokens[mint] - amount],
           s.loose - {SolVaultOf(order)})
  }

  lemma LimitTermsIff(s: Ledger, signer: Address, side: u8, mint: Address, amount: u64, minOut: u64, limitPrice: i64)
    ensures var terms := LimitTerms(s, signer, side, mint, amount, minOut, limitPrice);
            && (terms.Ok? <==> LimitTermsRight(s, signer, side, mint, amount, minOut, limitPrice))
            && (terms.Ok? ==> terms.value == if side == 0 then Buy else Sell)
  {
  }

  lemma OpenLimitIff(env: Env, s: Ledger, signer: Address, side: u8, mint: Address, amount: u64, minOut: u64,
                     limitPrice: i64, priceExpo: i32, expiry: i64)
    ensures var made := OpenLimit(env, s, signer, side, mint, amount, minOut, limitPrice, priceExpo, expiry);
            && (made.Ok? <==> LimitAccepted(env, s, signer, side, mint, amount, minOut, limitPrice))
            && (made.Ok? ==>
                  made.value
                  == LimitOpened(env, s, signer, side, mint, amount, minOut, limitPrice, priceExpo, expiry))
  {
    hide LimitTerms, FundOrder, WaitingSol, WaitingTokens, InitialSol, Waiting, Start, NothingWaits;
    LimitTermsIff(s, signer, side, mint, amount, minOut, limitPrice);
    if side <= 1 {
      var order, which := OrderOf(LimitKind, s.key, s.nextOrderId), if side == 0 then Buy else Sell;
      WaitsIff(env, s, LimitKind, side, mint);
      FundOrderIff(s, which, mint, amount, WaitingTokens(s, LimitKind, which, mint),
                   if side == 0 then Start(env, s, order) else Waiting(s, SolVaultOf(order)), false);
    }
  }

  /** Exactly when a limit order can be created, and the ledger after it. */
  lemma CreateLimitIff(env: Env, s: Ledger, signer: Address, side: u8, mint: Address, amount: u64, minOut: u64,
                       limitPrice: i64, priceExpo: i32, expiry: i64)
    ensures var step := CreateLimitStep(env, s, signer, side, mint, amount, minOut, limitPrice, priceExpo, expiry);
            && (step.Ok? <==> LimitAccepted(env, s, signer, side, mint, amount, minOut, limitPrice))
            && (step.Ok? ==>
                  var made := LimitOpened(env, s, signer, side, mint, amount, minOut, limitPrice, priceExpo, expiry);
                  step.value == s.(nextOrderId := made.nextOrderId, limitCount := made.count,
                                   limits := s.limits[s.nextOrderId := made.order], loose := made.loose,
                                   vaultSol := made.vaultSol, tokens := made.tokens))
  {
    hide OpenLimit, LimitAccepted, LimitOpened;
    OpenLimitIff(env, s, signer, side, mint, amount, minOut, limitPrice, priceExpo, expiry);
  }

  // ---- creating a DCA order ----------------------------------------------------------------------

  ghost predicate DcaTermsRight(s: Ledger, signer: Address, side: u8, mint: Address, amount: u64, slice: u64,
                                interval: i64, minOut: u64) {
    && signer == s.manager && s.fundType.TradingFund? && side <= 1
    && mint in s.listings && mint in s.tokens && s.nextOrderId !in s.dcas && s.dcaCount < 20
    && 0 < slice <= amount && minOut > 0 && interval > 0
  }

  ghost predicate DcaAccepted(env: Env, s: Ledger, signer: Address, side: u8, mint: Address, amount: u64, slice: u64,
                              interval: i64, minOut: u64, other: bool) {
    var order := OrderOf(DcaKind, s.key, s.nextOrderId);
    && DcaTermsRight(s, signer, side, mint, amount, slice, interval, minOut)
    && s.nextOrderId < 0xFFFF_FFFF_FFFF_FFFF && FitsTime(env.now + interval)
    && NothingWaits(s, order, side, mint)
    && (side == 0 ==> s.vaultSol >= amount && Fits64(Start(env, s, order) + amount))
    && (side == 1 ==> other || s.tokens[mint] >= amount)
  }

  ghost function DcaOpened(env: Env, s: Ledger, signer: Address, side: u8, mint: Address, amount: u64, slice: u64,
                           interval: i64, minOut: u64, expiry: i64, other: bool): Opened<DcaOrder>
    requires DcaAccepted(env, s, signer, side, mint, amount, slice, interval, minOut, other)
  {
    var order := OrderOf(DcaKind, s.key, s.nextOrderId);
    var escrow := if side == 0 then Escrow(Buy, mint, Open, Start(env, s, order) + amount, 0)
                  else Escrow(Sell, mint, Open, Start(env, s, order), amount);
    Opened(DcaOrder(escrow, amount, slice, amount, interval, env.now + interval, minOut, s.listings[mint].feed, expiry),
           s.nextOrderId + 1, s.dcaCount + 1,
           if side == 0 then s.vaultSol - amount else s.vaultSol,
           if side == 0 || other then s.tokens else s.tokens[mint := s.tokens[mint] - amount],
           s.loose - {SolVaultOf(order)})
  }

  lemma DcaTermsIff(s: Ledger, signer: Address, side: u8, mint: Address, amount: u64, slice: u64, interval: i64,
                    minOut: u64)
    ensures var terms := DcaTerms(s, signer, side, mint, amount, slice, interval, minOut);
            && (terms.Ok? <==> DcaTermsRight(s, signer, side, mint, amount, slice, interval, minOut))
            && (terms.Ok? ==> terms.value == if side == 0 then Buy else Sell)
  {
  }

  lemma OpenDcaIff(env: Env, s: Ledger, signer: Address, side: u8, mint: Address, amount: u64, slice: u64,
                   interval: i64, minOut: u64, expiry: i64, other: bool)
    ensures var made := OpenDca(env, s, signer, side, mint, amount, slice, interval, minOut, expiry, other);
            && (made.Ok? <==> DcaAccepted(env, s, signer, side, mint, amount, slice, interval, minOut, other))
            && (made.Ok? ==>
                  made.value
                  == DcaOpened(env, s, signer, side, mint, amount, slice, interval, minOut, expiry, other))
  {
    hide DcaTerms, FundOrder, WaitingSol, WaitingTokens, InitialSol, Waiting, Start, NothingWaits;
    DcaTermsIff(s, signer, side, mint, amount, slice, interval, minOut);
    if side <= 1 {
      var order, which := OrderOf(DcaKind, s.key, s.nextOrderId), if side == 0 then Buy else Sell;
      WaitsIff(env, s, DcaKind, side, mint);
      FundOrderIff(s, which, mint, amount, WaitingTokens(s, DcaKind, which, mint), Start(env, s, order), other);
    }
  }

  /** Exactly when a DCA order can be created, and the ledger after it: at most 20 are active. */
  lemma CreateDcaIff(env: Env, s: Ledger, signer: Address, side: u8, mint: Address, amount: u64, slice: u64,
                     interval: i64, minOut: u64, expiry: i64, other: bool)
    ensures var step := CreateDcaStep(env, s, signer, side, mint, amount, slice, interval, minOut, expiry, other);
            && (step.Ok? <==> DcaAccepted(env, s, signer, side, mint, amount, slice, interval, minOut, other))
            && (step.Ok? ==>
                  var made := DcaOpened(env, s, signer, side, mint, amount, slice, interval, minOut, expiry, other);
                  step.value == s.(nextOrderId := made.nextOrderId, dcaCount := made.count,
                                   dcas := s.dcas[s.nextOrderId := made.order], loose := made.loose,
                                   vaultSol := made.vaultSol, tokens := made.tokens))
  {
    hide OpenDca, DcaAccepted, DcaOpened;
    OpenDcaIff(env, s, signer, side, mint, amount, slice, interval, minOut, expiry, other);
  }

  // ---- what every execution demands --------------------------------------------------------------

  /** The order is open and in time, and the keeper of a trading fund executes it. */
  ghost predicate Executes(env: Env, s: Ledger, signer: Address, e: Escrow, expiry: i64) {
    signer == env.keeper && s.fundType.TradingFund? && e.status.Open? && (expiry == 0 || env.now <= expiry)
  }

  /** The mint is listed with the order's feed, and both prices are there. */
  ghost predicate Quoted(env: Env, s: Ledger, mint: Address, feed: Address) {
    && mint in s.listings && s.listings[mint].feed == feed
    && feed in env.oracle && env.oracle[feed].price > 0
    && env.solFeed in env.oracle && env.oracle[env.solFeed].price > 0
  }

  /** The oracle's output for `amount` can be computed. */
  ghost predicate Expects(env: Env, s: Ledger, side: Side, mint: Address, feed: Address, amount: u64)
    requires Quoted(env, s, mint, feed)
  {
    var decimals := s.listings[mint].decimals;
    match side
    case Buy => CanConvert(amount, decimals, env.oracle[feed], env.oracle[env.solFeed])
    case Sell => CanValue(amount, decimals, env.oracle[feed], env.oracle[env.solFeed])
  }

  /** That output: the cast floor of the amount at the rate, or at its reciprocal. */
  ghost function Expected(env: Env, s: Ledger, side: Side, mint: Address, feed: Address, amount: u64): u64
    requires Quoted(env, s, mint, feed)
  {
    var rate := TokenRate(s.listings[mint].decimals, env.oracle[feed], env.oracle[env.solFeed]);
    match side
    case Buy => Low64(Floor(amount, Rate(rate.den, rate.num)))
    case Sell => Low64(Floor(amount, rate))
  }

  /** `least` is the expected output less the tolerated part of it rounded up. */
  ghost predicate Tolerates(env: Env, s: Ledger, side: Side, mint: Address, feed: Address, amount: u64, least: nat)
    requires Quoted(env, s, mint, feed)
  {
    && Expects(env, s, side, mint, feed, amount) && env.maxSlippageBps <= 10_000
    && LeastOutput(least, Expected(env, s, side, mint, feed, amount), env.maxSlippageBps)
  }

  /** The escrow holds the amount and ends with exactly it less, and the output reaches both
      minimums.  A BUY order may hold no wrapped SOL before; a `whole` SELL order holds just the
      amount. */
  ghost predicate Swaps(s: Ledger, e: Escrow, amount: u64, minOut: u64, whole: bool, swap: Swap, least: nat) {
    && (e.side.Buy? ==> e.sol >= amount && e.token == 0 == swap.orderTokenAfter)
    && (e.side.Sell? ==> e.token >= amount && (whole ==> e.token == amount) && swap.orderTokenAfter == e.token - amount)
    && var output := if e.side.Buy? then swap.tokenCredit else swap.solCredit;
    && output >= least && output >= minOut
    && Fits64(s.vaultSol + swap.solCredit) && Fits64(Balance(s.tokens, e.mint) + swap.tokenCredit)
  }

  lemma ExecutableIff(env: Env, s: Ledger, signer: Address, e: Escrow, expiry: i64)
    ensures Executable(env, s, signer, e, expiry).Ok? <==> Executes(env, s, signer, e, expiry)
    ensures Executes(env, s, signer, e, expiry) ==> e.status.Open?
  {
  }

  lemma QuoteForIff(env: Env, s: Ledger, e: Escrow, feed: Address)
    ensures QuoteFor(env, s, e, feed).Ok? <==> Quoted(env, s, e.mint, feed)
    ensures Quoted(env, s, e.mint, feed) ==>
              QuoteFor(env, s, e, feed).value
              == Quote(s.listings[e.mint].decimals, env.oracle[feed], env.oracle[env.solFeed])
  {
  }

  lemma ExpectedIff(env: Env, s: Ledger, side: Side, mint: Address, feed: Address, amount: u64)
    requires Quoted(env, s, mint, feed)
    ensures var out := ExpectedOut(side, amount,
                                   Quote(s.listings[mint].decimals, env.oracle[feed], env.oracle[env.solFeed]));
            && (out.Ok? <==> Expects(env, s, side, mint, feed, amount))
            && (out.Ok? ==> out.value == Expected(env, s, side, mint, feed, amount))
  {
    hide CanValue, CanConvert, TokenValue, ExpectedTokenOut, TokenRate, Floor, Low64;
    TokenValueIff(amount, s.listings[mint].decimals, env.oracle[feed], env.oracle[env.solFeed]);
    ExpectedTokenOutIff(amount, s.listings[mint].decimals, env.oracle[feed], env.oracle[env.solFeed]);
  }

  /** The least output, if there is one. */
  lemma LeastOf(env: Env, s: Ledger, side: Side, mint: Address, feed: Address, amount: u64) returns (least: u64)
    requires Quoted(env, s, mint, feed)
    ensures var out := ExpectedOut(side, amount,
                                   Quote(s.listings[mint].decimals, env.oracle[feed], env.oracle[env.solFeed]));
            var low := if out.Ok? then ApplyMaxSlippage(out.value, env.maxSlippageBps) else Err(MathOverflow);
            && (low.Ok? <==> Expects(env, s, side, mint, feed, amount) && env.maxSlippageBps <= 10_000)
            && (low.Ok? ==> low.value == least && Tolerates(env, s, side, mint, feed, amount, least))
  {
    hide Expects, Expected, LeastOutput, ApplyMaxSlippage, ExpectedOut;
    ExpectedIff(env, s, side, mint, feed, amount);
    least := 0;
    SlippageIff(Expected(env, s, side, mint, feed, amount), env.maxSlippageBps);
    if Expects(env, s, side, mint, feed, amount) && env.maxSlippageBps <= 10_000 {
      least := ApplyMaxSlippage(Expected(env, s, side, mint, feed, amount), env.maxSlippageBps).value;
    }
  }

  /** The balances after a swap that `Swaps`. */
  ghost function SwapDone(s: Ledger, e: Escrow, amount: u64, swap: Swap): Swapped
    requires e.side.Buy? ==> e.sol >= amount
    requires Fits64(s.vaultSol + swap.solCredit) && Fits64(Balance(s.tokens, e.mint) + swap.tokenCredit)
  {
    Swapped(e.(sol := if e.side.Buy? then e.sol - amount else e.sol, token := swap.orderTokenAfter),
            s.vaultSol + swap.solCredit, s.tokens[e.mint := Balance(s.tokens, e.mint) + swap.tokenCredit])
  }

  lemma SwapOutIff(env: Env, s: Ledger, e: Escrow, feed: Address, amount: u64, minOut: u64, whole: bool, swap: Swap)
    returns (least: u64)
    requires Quoted(env, s, e.mint, feed)
    ensures var quote := Quote(s.listings[e.mint].decimals, env.oracle[feed], env.oracle[env.solFeed]);
            var swapped := SwapOut(env, s, e, amount, minOut, whole, quote, swap);
            && (swapped.Ok? <==> Tolerates(env, s, e.side, e.mint, feed, amount, least)
                                 && Swaps(s, e, amount, minOut, whole, swap, least))
            && (swapped.Ok? ==> swapped.value == SwapDone(s, e, amount, swap))
  {
    hide LeastOutput, Expects, Expected, ExpectedOut, ApplyMaxSlippage, Quoted;
    least := LeastOf(env, s, e.side, e.mint, feed, amount);
  }

  // ---- executing a limit order -------------------------------------------------------------------

  /** The price, rescaled to the limit's exponent and rounded down, has reached the limit; and it
      can be rescaled. */
  ghost predicate Reached(side: Side, price: Price, limit: i64, expo: i32) {
    && price.price > 0 && -38 <= price.expo - expo <= 38
    && if price.expo >= expo then
         var scaled := price.price * Pow10(price.expo - expo);
         Fits128(scaled) && (side.Buy? ==> scaled <= limit) && (side.Sell? ==> scaled >= limit)
       else
         var unit := Pow10(expo - price.expo);
         (side.Buy? ==> price.price < (limit + 1) * unit) && (side.Sell? ==> price.price >= limit * unit)
  }

  lemma ReachedIff(side: Side, price: Price, limit: i64, expo: i32)
    requires price.price > 0
    ensures var scaled := ScalePrice(price.price, price.expo, expo);
            scaled.Ok? && Triggered(side, scaled.value, limit) <==> Reached(side, price, limit, expo)
  {
    hide Pow10, ScalePrice;
    ScalePriceIff(price.price, price.expo, expo);
    var scaled := ScalePrice(price.price, price.expo, expo);
    if scaled.Ok? && price.expo < expo {
      FloorCompares(scaled.value, price.price, limit, Pow10(expo - price.expo));
    }
  }

  lemma FloorCompares(floor: int, price: int, limit: int, unit: int)
    requires unit > 0 && floor * unit <= price < (floor + 1) * unit
    ensures floor <= limit <==> price < (limit + 1) * unit
    ensures floor >= limit <==> price >= limit * unit
  {
    if floor <= limit {
      MulLeInt(floor + 1, limit + 1, unit);
    } else {
      MulLeInt(limit + 1, floor, unit);
    }
    if floor >= limit {
      MulLeInt(limit, floor, unit);
    } else {
      MulLeInt(floor + 1, limit, unit);
    }
  }

  lemma MulLeInt(a: int, b: int, c: int)
    requires a <= b && c > 0
    ensures a * c <= b * c
  {
  }

  /** Everything an execution of a limit order demands. */
  ghost predicate LimitFills(env: Env, s: Ledger, signer: Address, order: LimitOrder, swap: Swap, least: nat) {
    var e := order.escrow;
    && Executes(env, s, signer, e, order.expiry) && Quoted(env, s, e.mint, order.feed)
    && Reached(e.side, env.oracle[order.feed], order.limitPrice, order.priceExpo)
    && Tolerates(env, s, e.side, e.mint, order.feed, order.amountIn, least)
    && Swaps(s, e, order.amountIn, order.minOut, true, swap, least)
    && Fits64(s.vaultSol + swap.solCredit + env.tokenRent) && s.limitCount > 0
  }

  /** Exactly when a limit order is executed, and the ledger after it.  `least` is what the oracle
      expects less the tolerated part. */
  lemma ExecuteLimitIff(env: Env, s: Ledger, signer: Address, id: nat, swap: Swap) returns (least: u64)
    ensures var step := ExecuteLimitStep(env, s, signer, id, swap);
            && (step.Ok? <==> id in s.limits && LimitFills(env, s, signer, s.limits[id], swap, least))
            && (step.Ok? ==>
                  var order, e := s.limits[id], s.limits[id].escrow;
                  var left := if e.side.Buy? then e.sol - order.amountIn else e.sol;
                  var executed := order.(escrow := Escrow(e.side, e.mint, Executed, left, 0));
                  step.value == s.(limitCount := s.limitCount - 1, limits := s.limits[id := executed],
                                   vaultSol := s.vaultSol + swap.solCredit + env.tokenRent,
                                   tokens := s.tokens[e.mint := Balance(s.tokens, e.mint) + swap.tokenCredit]))
  {
    hide SwapOut, Quoted, QuoteFor, ScalePrice, Reached, Tolerates, Triggered, Executable, Executes;
    least := 0;
    if id in s.limits {
      var order, e := s.limits[id], s.limits[id].escrow;
      ExecutableIff(env, s, signer, e, order.expiry);
      QuoteForIff(env, s, e, order.feed);
      if Quoted(env, s, e.mint, order.feed) {
        PricesThere(env, s, e.mint, order.feed);
        ReachedIff(e.side, env.oracle[order.feed], order.limitPrice, order.priceExpo);
        least := SwapOutIff(env, s, e, order.feed, order.amountIn, order.minOut, true, swap);
      }
    }
  }

  lemma PricesThere(env: Env, s: Ledger, mint: Address, feed: Address)
    requires Quoted(env, s, mint, feed)
    ensures feed in env.oracle && env.oracle[feed].price > 0 && mint in s.listings && env.solFeed in env.oracle
  {
  }

  // ---- executing a DCA order ---------------------------------------------------------------------

  /** The next slice: the rest, if that is less. */
  ghost function NextSlice(order: DcaOrder): u64 {
    if order.remaining < order.slice then order.remaining else order.slice
  }

  /** What the fund's SOL vault gets when an order completes: the rent of its token vault if that is
      empty, and what is left in its SOL vault if that was passed. */
  ghost function Sweep(env: Env, order: DcaOrder, swap: Swap, solVaultPassed: bool): nat {
    if order.remaining > order.slice then 0
    else
      (if swap.orderTokenAfter == 0 then env.tokenRent else 0) + (if solVaultPassed then LeftSol(order) else 0)
  }

  /** What an execution leaves in the order's SOL vault. */
  ghost function LeftSol(order: DcaOrder): nat {
    var e := order.escrow;
    if e.side.Buy? && e.sol >= NextSlice(order) then e.sol - NextSlice(order) else e.sol
  }

  /** Everything an execution of a DCA order demands. */
  ghost predicate SliceFills(env: Env, s: Ledger, signer: Address, order: DcaOrder, swap: Swap, solVaultPassed: bool,
                             least: nat) {
    var e := order.escrow;
    && Executes(env, s, signer, e, order.expiry) && env.now >= order.nextExec && Quoted(env, s, e.mint, order.feed)
    && (e.side.Buy? ==> solVaultPassed) && NextSlice(order) > 0
    && Tolerates(env, s, e.side, e.mint, order.feed, NextSlice(order), least)
    && Swaps(s, e, NextSlice(order), order.minOut, false, swap, least)
    && FitsTime(order.nextExec + order.interval)
    && (order.remaining <= order.slice ==> s.dcaCount > 0)
    && Fits64(s.vaultSol + swap.solCredit + Sweep(env, order, swap, solVaultPassed))
  }

  /** The order, the counter and the fund's vaults after it: the slice is spent and the next one is
      due an interval later; the last slice completes the order. */
  ghost function Slice(env: Env, s: Ledger, signer: Address, order: DcaOrder, swap: Swap, solVaultPassed: bool,
                       least: nat): Filled<DcaOrder>
    requires SliceFills(env, s, signer, order, swap, solVaultPassed, least)
  {
    var e, last := order.escrow, order.remaining <= order.slice;
    var sol := if last && solVaultPassed then 0 else LeftSol(order);
    var escrow := Escrow(e.side, e.mint, if last then Executed else Open, sol, swap.orderTokenAfter);
    Filled(order.(escrow := escrow, remaining := order.remaining - NextSlice(order),
                  nextExec := order.nextExec + order.interval),
           if last then s.dcaCount - 1 else s.dcaCount,
           s.vaultSol + swap.solCredit + Sweep(env, order, swap, solVaultPassed),
           s.tokens[e.mint := Balance(s.tokens, e.mint) + swap.tokenCredit])
  }

  ghost function SliceFilled(env: Env, s: Ledger, signer: Address, id: nat, swap: Swap, solVaultPassed: bool,
                             least: nat): Ledger
    requires id in s.dcas && SliceFills(env, s, signer, s.dcas[id], swap, solVaultPassed, least)
  {
    var slice := Slice(env, s, signer, s.dcas[id], swap, solVaultPassed, least);
    s.(dcas := s.dcas[id := slice.order], dcaCount := slice.count, vaultSol := slice.vaultSol,
       tokens := slice.tokens)
  }

  lemma CompleteIff(env: Env, order: DcaOrder, swap: Swap, e: Escrow, vaultSol: u64, solVaultPassed: bool)
    requires order.remaining <= order.slice && e.sol == LeftSol(order) && e.token == swap.orderTokenAfter
    ensures var done := CompleteDca(env, e, vaultSol, solVaultPassed);
            && (done.Ok? <==> Fits64(vaultSol + Sweep(env, order, swap, solVaultPassed)))
            && (done.Ok? ==> done.value == (e.(status := Executed, sol := if solVaultPassed then 0 else LeftSol(order)),
                                            vaultSol + Sweep(env, order, swap, solVaultPassed)))
  {
  }

  lemma SliceSwapped(s: Ledger, order: DcaOrder, swap: Swap, least: nat)
    requires Swaps(s, order.escrow, NextSlice(order), order.minOut, false, swap, least)
    ensures Fits64(s.vaultSol + swap.solCredit) && Fits64(Balance(s.tokens, order.escrow.mint) + swap.tokenCredit)
    ensures order.escrow.side.Buy? ==> order.escrow.sol >= NextSlice(order)
    ensures SwapDone(s, order.escrow, NextSlice(order), swap)
         == Swapped(order.escrow.(sol := LeftSol(order), token := swap.orderTokenAfter), s.vaultSol + swap.solCredit,
                    s.tokens[order.escrow.mint := Balance(s.tokens, order.escrow.mint) + swap.tokenCredit])
  {
  }

  lemma NextSliceIs(env: Env, order: DcaOrder, swap: Swap, solVaultPassed: bool)
    ensures SliceOf(order) == NextSlice(order) <= order.remaining
    ensures order.remaining - NextSlice(order) > 0 <==> order.remaining > order.slice
    ensures order.remaining > order.slice ==> Sweep(env, order, swap, solVaultPassed) == 0
  {
  }

  /** What is left to do once the swap was accepted. */
  ghost function AfterSwap(env: Env, s: Ledger, order: DcaOrder, swapped: Swapped,
                           solVaultPassed: bool): Result<Filled<DcaOrder>> {
    var nextExec :- AddI64(order.nextExec, order.interval);
    var after := order.(remaining := order.remaining - SliceOf(order), nextExec := nextExec);
    if after.remaining > 0 then
      Ok(Filled(after.(escrow := swapped.escrow), s.dcaCount, swapped.vaultSol, swapped.tokens))
    else
      var count :- SubU16(s.dcaCount, 1);
      var done :- CompleteDca(env, swapped.escrow, swapped.vaultSol, solVaultPassed);
      Ok(Filled(after.(escrow := done.0), count, done.1, swapped.tokens))
  }

  lemma AfterSwapIff(env: Env, s: Ledger, signer: Address, order: DcaOrder, swap: Swap, solVaultPassed: bool,
                     least: nat)
    requires Swaps(s, order.escrow, NextSlice(order), order.minOut, false, swap, least)
    requires Executes(env, s, signer, order.escrow, order.expiry)
    ensures var after := AfterSwap(env, s, order, SwapDone(s, order.escrow, NextSlice(order), swap), solVaultPassed);
            && (after.Ok? <==> && FitsTime(order.nextExec + order.interval)
                               && (order.remaining <= order.slice ==> s.dcaCount > 0)
                               && Fits64(s.vaultSol + swap.solCredit + Sweep(env, order, swap, solVaultPassed)))
            && (after.Ok? && SliceFills(env, s, signer, order, swap, solVaultPassed, least) ==>
                  after.value == Slice(env, s, signer, order, swap, solVaultPassed, least))
  {
    hide CompleteDca, Swaps, SwapDone, Sweep, LeftSol, Quoted, Tolerates;
    SliceSwapped(s, order, swap, least);
    NextSliceIs(env, order, swap, solVaultPassed);
    var swapped := SwapDone(s, order.escrow, NextSlice(order), swap);
    if order.remaining <= order.slice {
      CompleteIff(env, order, swap, swapped.escrow, swapped.vaultSol, solVaultPassed);
    }
  }

  /** What comes before the swap. */
  ghost predicate MaySwap(env: Env, s: Ledger, signer: Address, order: DcaOrder, solVaultPassed: bool) {
    && Executes(env, s, signer, order.escrow, order.expiry) && env.now >= order.nextExec
    && Quoted(env, s, order.escrow.mint, order.feed)
    && (order.escrow.side.Buy? ==> solVaultPassed) && NextSlice(order) > 0
  }

  lemma FillAfterSwap(env: Env, s: Ledger, signer: Address, order: DcaOrder, swap: Swap, solVaultPassed: bool)
    ensures MaySwap(env, s, signer, order, solVaultPassed) ==> QuoteFor(env, s, order.escrow, order.feed).Ok?
    ensures var filled := FillSlice(env, s, signer, order, swap, solVaultPassed);
            if MaySwap(env, s, signer, order, solVaultPassed) then
              var swapped := SwapOut(env, s, order.escrow, NextSlice(order), order.minOut, false,
                                     QuoteFor(env, s, order.escrow, order.feed).value, swap);
              if swapped.Ok? then filled == AfterSwap(env, s, order, swapped.value, solVaultPassed) else filled.Err?
            else filled.Err?
  {
    hide SwapOut, Quoted, QuoteFor, CompleteDca, Executable, Executes;
    ExecutableIff(env, s, signer, order.escrow, order.expiry);
    QuoteForIff(env, s, order.escrow, order.feed);
  }

  lemma FillSliceIff(env: Env, s: Ledger, signer: Address, order: DcaOrder, swap: Swap, solVaultPassed: bool)
    returns (least: u64)
    ensures var filled := FillSlice(env, s, signer, order, swap, solVaultPassed);
            && (filled.Ok? <==> SliceFills(env, s, signer, order, swap, solVaultPassed, least))
            && (filled.Ok? ==> filled.value == Slice(env, s, signer, order, swap, solVaultPassed, least))
  {
    hide FillSlice, AfterSwap, SwapOut, Quoted, QuoteFor, Tolerates, Swaps, SwapDone, Executes, Sweep, NextSlice, Slice;
    FillAfterSwap(env, s, signer, order, swap, solVaultPassed);
    least := 0;
    var e := order.escrow;
    if MaySwap(env, s, signer, order, solVaultPassed) {
      PricesThere(env, s, e.mint, order.feed);
      QuoteForIff(env, s, e, order.feed);
      least := SwapOutIff(env, s, e, order.feed, NextSlice(order), order.minOut, false, swap);
      if Swaps(s, e, NextSlice(order), order.minOut, false, swap, least) {
        SliceSwapped(s, order, swap, least);
        AfterSwapIff(env, s, signer, order, swap, solVaultPassed, least);
      }
    }
  }

  /** Exactly when a slice of a DCA order is executed, and the ledger after it. */
  lemma ExecuteDcaIff(env: Env, s: Ledger, signer: Address, id: nat, swap: Swap, solVaultPassed: bool)
    returns (least: u64)
    ensures var step := ExecuteDcaStep(env, s, signer, id, swap, solVaultPassed);
            && (step.Ok? <==> id in s.dcas && SliceFills(env, s, signer, s.dcas[id], swap, solVaultPassed, least))
            && (step.Ok? ==> step.value == SliceFilled(env, s, signer, id, swap, solVaultPassed, least))
  {
    hide FillSlice, SliceFills, Slice;
    least := 0;
    if id in s.dcas {
      least := FillSliceIff(env, s, signer, s.dcas[id], swap, solVaultPassed);
    }
  }

  // ---- cancelling --------------------------------------------------------------------------------

  /** The order is open, and the manager of a trading fund cancels it. */
  ghost predicate Cancels(s: Ledger, signer: Address, e: Escrow) {
    e.status.Open? && signer == s.manager && s.fundType.TradingFund?
  }

  /** What comes back fits the fund's vaults.  A BUY order's token vault must be empty. */
  ghost predicate ComesBack(s: Ledger, e: Escrow, rents: nat, other: bool) {
    && Fits64(s.vaultSol + (if e.side.Buy? then e.sol else 0) + rents)
    && (e.side.Buy? ==> other || e.token == 0)
    && (e.side.Sell? ==> other || Fits64(Balance(s.tokens, e.mint) + e.token))
  }

  /** The fund's token vaults after it: a SELL order's tokens are back unless they go elsewhere. */
  ghost function TokensBack(s: Ledger, e: Escrow, other: bool): map<Address, u64>
    requires ComesBack(s, e, 0, other)
  {
    if e.side.Buy? || other then s.tokens else s.tokens[e.mint := Balance(s.tokens, e.mint) + e.token]
  }

  /** What is left of a cancelled order. */
  ghost function Emptied(e: Escrow): Escrow {
    if e.side.Buy? then Escrow(Buy, e.mint, Cancelled, 0, e.token) else Escrow(Sell, e.mint, Cancelled, e.sol, 0)
  }

  lemma RefundIff(env: Env, s: Ledger, e: Escrow, other: bool)
    ensures Refund(env, s, e, other).Ok? <==> ComesBack(s, e, env.tokenRent, other)
    ensures Refund(env, s, e, other).Ok? ==>
              ComesBack(s, e, 0, other)
              && Refund(env, s, e, other).value
                 == Funded(Emptied(e), s.vaultSol + (if e.side.Buy? then e.sol else 0) + env.tokenRent,
                           TokensBack(s, e, other))
  {
  }

  lemma MoreRent(s: Ledger, e: Escrow, rents: nat, more: nat, other: bool)
    ensures ComesBack(s, e, rents + more, other)
       <==> && ComesBack(s, e, rents, other)
            && Fits64(s.vaultSol + (if e.side.Buy? then e.sol else 0) + rents + more)
  {
  }

  lemma CloseLimitIff(env: Env, s: Ledger, signer: Address, id: nat, e: Escrow, other: bool)
    ensures var closed, order := CloseLimit(env, s, signer, id, e, other), OrderOf(LimitKind, s.key, id);
            && (closed.Ok? <==> && Cancels(s, signer, e) && s.limitCount > 0
                                && ComesBack(s, e, env.tokenRent + env.orderRent, other))
            && (closed.Ok? ==>
                  && ComesBack(s, e, 0, other)
                  && closed.value
                     == Closed(s.limitCount - 1,
                               s.vaultSol + (if e.side.Buy? then e.sol else 0) + env.tokenRent + env.orderRent,
                               TokensBack(s, e, other),
                               if e.side.Buy? then s.loose[Ata(AuthOf(order), Key(0)) := e.token]
                               else s.loose[SolVaultOf(order) := e.sol]))
  {
    hide Refund, ComesBack;
    RefundIff(env, s, e, other);
    MoreRent(s, e, env.tokenRent, env.orderRent, other);
  }

  /** Exactly when a limit order is cancelled, and the ledger after it: the record is gone, and what
      its other vault holds stays at that vault's address. */
  lemma CancelLimitIff(env: Env, s: Ledger, signer: Address, id: nat, other: bool)
    ensures var step := CancelLimitStep(env, s, signer, id, other);
            && (step.Ok? <==> && id in s.limits && Cancels(s, signer, s.limits[id].escrow) && s.limitCount > 0
                              && ComesBack(s, s.limits[id].escrow, env.tokenRent + env.orderRent, other))
            && (step.Ok? ==>
                  var e, order := s.limits[id].escrow, OrderOf(LimitKind, s.key, id);
                  step.value
                  == s.(limitCount := s.limitCount - 1, limits := s.limits - {id},
                        vaultSol := s.vaultSol + (if e.side.Buy? then e.sol else 0) + env.tokenRent + env.orderRent,
                        tokens := TokensBack(s, e, other),
                        loose := if e.side.Buy? then s.loose[Ata(AuthOf(order), Key(0)) := e.token]
                                 else s.loose[SolVaultOf(order) := e.sol]))
  {
    hide CloseLimit, ComesBack;
    if id in s.limits {
      CloseLimitIff(env, s, signer, id, s.limits[id].escrow, other);
      MoreRent(s, s.limits[id].escrow, 0, env.tokenRent + env.orderRent, other);
    }
  }

  /** Exactly when a DCA order is cancelled, and the ledger after it: the record stays. */
  lemma CancelDcaIff(env: Env, s: Ledger, signer: Address, id: nat, other: bool)
    ensures var step := CancelDcaStep(env, s, signer, id, other);
            && (step.Ok? <==> && id in s.dcas && Cancels(s, signer, s.dcas[id].escrow) && s.dcaCount > 0
                              && (other ==> s.dcas[id].escrow.side.Sell?)
                              && ComesBack(s, s.dcas[id].escrow, env.tokenRent, other))
            && (step.Ok? ==>
                  var order, e := s.dcas[id], s.dcas[id].escrow;
                  step.value
                  == s.(dcaCount := s.dcaCount - 1, dcas := s.dcas[id := order.(escrow := Emptied(e))],
                        vaultSol := s.vaultSol + (if e.side.Buy? then e.sol else 0) + env.tokenRent,
                        tokens := TokensBack(s, e, other)))
  {
    hide Refund, ComesBack;
    if id in s.dcas {
      RefundIff(env, s, s.dcas[id].escrow, other);
    }
  }
}
