/** What a refusal tells the caller: each of these errors occurs exactly in the case it names. */
module Refusals {
  import opened Results
  import opened Ints
  import opened Oracle
  import opened Ledgers
  import opened Navs
  import opened Steps
  import opened Transactions
  import opened Ranges
  import opened ShareTerms
  import opened FundTerms

  // ---- the NAV's errors --------------------------------------------------------------------------

  /** The errors the NAV can end with; none of them is an error of the shares. */
  predicate OfNav(error: Error) {
    || error.InvalidRemainingAccounts? || error.InvalidWhitelistOrder? || error.StaleOracle? || error.InvalidOracle?
    || error.InvalidNav? || error.MathOverflow? || error.InvalidTokenVault? || error.OrderNotOpen?
    || error.InvalidOrderVault?
  }

  lemma TokenValueErrors(amount: u64, decimals: u8, token: Price, sol: Price)
    ensures var value := TokenValue(amount, decimals, token, sol); value.Err? ==> OfNav(value.error)
  {
    hide Mul, Div, Pow10, AsU64;
  }

  lemma {:induction false} NavMintsErrors(env: Env, s: Ledger, accounts: seq<Address>, n: nat, mints: seq<Address>)
    requires |mints| <= n && |accounts| >= 1 + 3 * n && forall m <- mints :: m in s.listings
    ensures var all := NavMints(env, s, accounts, n, mints); all.Err? ==> OfNav(all.error)
    decreases n - |mints|
  {
    if |mints| < n && ListedMint(s, accounts[1 + 3 * |mints|]).Ok? {
      NavMintsErrors(env, s, accounts, n, mints + [ListedMint(s, accounts[1 + 3 * |mints|]).value]);
    }
  }

  lemma {:induction false} NavTokensErrors(env: Env, s: Ledger, sol: Price, accounts: seq<Address>, n: nat, i: nat,
                                           nav: int)
    requires i <= n && |accounts| >= 1 + 3 * n
    ensures var all := NavTokens(env, s, sol, accounts, n, i, nav); all.Err? ==> OfNav(all.error)
    decreases n - i
  {
    hide TokenValue;
    if i < n {
      var mint := ListedMint(s, accounts[1 + 3 * i]);
      if mint.Ok? && mint.value in s.tokens && LoadPrice(env, s.listings[mint.value].feed).Ok? {
        var price := LoadPrice(env, s.listings[mint.value].feed).value;
        TokenValueErrors(s.tokens[mint.value], s.listings[mint.value].decimals, price, sol);
        var value := TokenValue(s.tokens[mint.value], s.listings[mint.value].decimals, price, sol);
        if value.Ok? {
          NavTokensErrors(env, s, sol, accounts, n, i + 1, nav + value.value);
        }
      }
    }
  }

  lemma OrderValueErrors(env: Env, s: Ledger, sol: Price, mints: seq<Address>, tokenAccount: Address, auth: Address,
                         e: Escrow)
    requires forall m <- mints :: m in s.listings
    ensures var value := OrderValue(env, s, sol, mints, tokenAccount, auth, e); value.Err? ==> OfNav(value.error)
  {
    hide TokenValue;
    if e.mint in mints && LoadPrice(env, s.listings[e.mint].feed).Ok? {
      TokenValueErrors(e.token, s.listings[e.mint].decimals, LoadPrice(env, s.listings[e.mint].feed).value, sol);
    }
  }

  lemma {:induction false} NavOrdersErrors(env: Env, s: Ledger, sol: Price, mints: seq<Address>, kind: OrderKind,
                                           book: map<nat, Escrow>, accounts: seq<Address>, base: nat, count: nat,
                                           i: nat, nav: int)
    requires (forall m <- mints :: m in s.listings) && i <= count && |accounts| >= base + 3 * count
    ensures var all := NavOrders(env, s, sol, mints, kind, book, accounts, base, count, i, nav);
            all.Err? ==> OfNav(all.error)
    decreases count - i
  {
    hide OrderValue;
    if i < count {
      var slot := base + 3 * i;
      var id := OrderAt(s, kind, book, accounts[slot]);
      if id.Ok? {
        OrderValueErrors(env, s, sol, mints, accounts[slot + 2], AuthOf(accounts[slot]), book[id.value]);
        var value := OrderValue(env, s, sol, mints, accounts[slot + 2], AuthOf(accounts[slot]), book[id.value]);
        if value.Ok? {
          NavOrdersErrors(env, s, sol, mints, kind, book, accounts, base, count, i + 1, nav + value.value);
        }
      }
    }
  }

  lemma NavErrors(env: Env, s: Ledger, accounts: seq<Address>)
    ensures Nav(env, s, accounts).Err? ==> OfNav(Nav(env, s, accounts).error)
  {
    hide NavMints, NavTokens, NavOrders, LimitBook, DcaBook, AsU64;
    var n := s.enabledCount;
    if n > 0 && |accounts| == 1 + 3 * n + 3 * s.limitCount + 3 * s.dcaCount {
      NavMintsErrors(env, s, accounts, n, []);
      var mints := NavMints(env, s, accounts, n, []);
      if mints.Ok? && LoadPrice(env, env.solFeed).Ok? {
        var sol := LoadPrice(env, env.solFeed).value;
        NavTokensErrors(env, s, sol, accounts, n, 0, s.vaultSol);
        var held := NavTokens(env, s, sol, accounts, n, 0, s.vaultSol);
        if held.Ok? {
          NavOrdersErrors(env, s, sol, mints.value, LimitKind, LimitBook(s), accounts, 1 + 3 * n, s.limitCount, 0,
                          held.value);
          var more := NavOrders(env, s, sol, mints.value, LimitKind, LimitBook(s), accounts, 1 + 3 * n, s.limitCount,
                                0, held.value);
          if more.Ok? {
            NavOrdersErrors(env, s, sol, mints.value, DcaKind, DcaBook(s), accounts, 1 + 3 * n + 3 * s.limitCount,
                            s.dcaCount, 0, more.value);
          }
        }
      }
    }
  }

  // ---- shares ------------------------------------------------------------------------------------

  lemma DepositRefused(env: Env, s: Ledger, investor: Address, amount: u64, accounts: seq<Address>, fee: nat,
                       exact: nat)
    requires PartOf(fee, amount, env.depositFeeBps, 10_000)
    requires Nav(env, s, accounts).Ok? && Nav(env, s, accounts).value > 0 && fee <= amount ==>
               PartOf(exact, amount - fee, s.totalShares, Nav(env, s, accounts).value)
    ensures var step, nav := DepositStep(env, s, investor, amount, accounts), Nav(env, s, accounts);
            && (step == Err(DepositTooSmall) <==> amount < s.minDeposit)
            && (step == Err(ZeroShares) <==> && amount >= s.minDeposit && fee <= amount && nav.Ok? && nav.value > 0
                                             && s.totalShares > 0 && Low64(exact) == 0)
  {
    hide Nav, MintShares, PayDeposit, PartOf, Low64, SharesFor, SplitDeposit;
    SplitIff(env, s, amount, fee);
    NavErrors(env, s, accounts);
    SplitErrors(env, s, amount);
    if fee <= amount && Nav(env, s, accounts).Ok? {
      var nav := Nav(env, s, accounts).value;
      SharesErrors(s, amount - fee, nav);
      if nav > 0 {
        SharesForIff(s, amount - fee, nav, exact);
      }
    }
    LaterErrors(env, s, investor, amount, accounts);
  }

  lemma SplitErrors(env: Env, s: Ledger, amount: u64)
    ensures var split := SplitDeposit(env, s, amount);
            && (split == Err(DepositTooSmall) <==> amount < s.minDeposit)
            && (split.Err? && amount >= s.minDeposit ==> split == Err(MathOverflow))
  {
    hide BpsOf;
  }

  lemma SharesErrors(s: Ledger, net: u64, nav: u64)
    ensures var shares := SharesFor(s, net, nav);
            && (shares.Err? ==> shares == Err(ZeroShares) || shares == Err(MathOverflow))
            && (shares == Err(ZeroShares) <==> shares.Err? && nav > 0 && s.totalShares > 0)
  {
    hide ProRata, AsU64;
  }

  lemma LaterErrors(env: Env, s: Ledger, investor: Address, amount: u64, accounts: seq<Address>)
    ensures var split, step := SplitDeposit(env, s, amount), DepositStep(env, s, investor, amount, accounts);
            && (split.Err? ==> step == Err(split.error))
            && (split.Ok? ==>
                  var nav := Nav(env, s, accounts);
                  && (nav.Err? ==> step == Err(nav.error))
                  && (nav.Ok? ==>
                        var minted := SharesFor(s, split.value.net, nav.value);
                        && (minted.Err? ==> step == Err(minted.error))
                        && (minted.Ok? ==> step != Err(DepositTooSmall) && step != Err(ZeroShares))))
  {
    hide Nav, SplitDeposit, SharesFor, PayDeposit, MintShares;
    PayErrors(env, s, investor);
  }

  lemma PayErrors(env: Env, s: Ledger, investor: Address)
    ensures forall split :: PayDeposit(env, s, investor, split) != Err(DepositTooSmall)
                            && PayDeposit(env, s, investor, split) != Err(ZeroShares)
    ensures forall minted: u64 :: MintShares(s, investor, minted) != Err(DepositTooSmall)
                                  && MintShares(s, investor, minted) != Err(ZeroShares)
  {
  }

  /** A payout is refused as too early exactly if the request is there and its time has not come, and
      for want of lamports exactly if it is due and comes to more than the vault holds. */
  lemma WithdrawRefused(env: Env, s: Ledger, investor: Address, accounts: seq<Address>, exactGross: nat,
                        exactFee: nat)
    requires PartOf(exactFee, Low64(exactGross), env.withdrawFeeBps, 10_000)
    requires Due(env, s, investor) && Nav(env, s, accounts).Ok? ==>
               PartOf(exactGross, s.requests[investor].shares, Nav(env, s, accounts).value, s.totalShares)
    ensures var step, nav := ExecuteWithdrawStep(env, s, investor, accounts), Nav(env, s, accounts);
            && (step == Err(WithdrawTimelock) <==>
                  && investor in s.requests && s.requests[investor].shares > 0
                  && FitsTime(s.requests[investor].ts + s.timelock)
                  && env.now < s.requests[investor].ts + s.timelock)
            && (step == Err(InsufficientLiquidity) <==>
                  && Due(env, s, investor) && nav.Ok? && nav.value > 0
                  && Low64(exactFee) <= Low64(exactGross) && s.vaultSol < Low64(exactGross))
  {
    hide Nav, BurnShares, PayInvestor, PartOf, Low64, PayoutFor, Due, DueRequest;
    DueIff(env, s, investor);
    DueErrors(env, s, investor);
    NavErrors(env, s, accounts);
    BurnPayErrors(env, s, investor);
    if Due(env, s, investor) && Nav(env, s, accounts).Ok? {
      PayoutErrors(env, s, s.requests[investor].shares, Nav(env, s, accounts).value, exactGross, exactFee);
    }
  }

  lemma DueErrors(env: Env, s: Ledger, investor: Address)
    ensures var due := DueRequest(env, s, investor);
            && due != Err(InsufficientLiquidity)
            && (Due(env, s, investor) ==> investor in s.requests && s.totalShares > 0)
            && (due == Err(WithdrawTimelock) <==>
                  && investor in s.requests && s.requests[investor].shares > 0
                  && FitsTime(s.requests[investor].ts + s.timelock)
                  && env.now < s.requests[investor].ts + s.timelock)
  {
  }

  lemma PayoutErrors(env: Env, s: Ledger, shares: u64, nav: u64, exactGross: nat, exactFee: nat)
    requires s.totalShares > 0 && PartOf(exactGross, shares, nav, s.totalShares)
    requires PartOf(exactFee, Low64(exactGross), env.withdrawFeeBps, 10_000)
    ensures var payout := PayoutFor(env, s, shares, nav);
            && payout != Err(WithdrawTimelock)
            && (payout == Err(InsufficientLiquidity)
                <==> nav > 0 && Low64(exactFee) <= Low64(exactGross) && s.vaultSol < Low64(exactGross))
  {
    PartUnique(exactGross, shares, nav, s.totalShares);
    PartUnique(exactFee, Low64(exactGross), env.withdrawFeeBps, 10_000);
  }

  lemma BurnPayErrors(env: Env, s: Ledger, investor: Address)
    ensures forall burnt: u64 ::
              BurnShares(s, investor, burnt) != Err(WithdrawTimelock)
              && BurnShares(s, investor, burnt) != Err(InsufficientLiquidity)
    ensures forall payout: Payout ::
              PayInvestor(env, s, investor, payout) != Err(WithdrawTimelock)
              && PayInvestor(env, s, investor, payout) != Err(InsufficientLiquidity)
  {
  }

  lemma RequestRefused(env: Env, s: Ledger, investor: Address, amount: u64)
    ensures RequestWithdrawStep(env, s, investor, amount) == Err(InvalidWithdrawal) <==> amount == 0
    ensures RequestWithdrawStep(env, s, investor, amount) == Err(InsufficientShares)
       <==> amount > Balance(s.shares, investor)
  {
  }

  // ---- orders ------------------------------------------------------------------------------------

  /** A DCA order is refused for its slice, its interval or the number of active orders exactly if
      that is the first thing wrong with it, the last of them from 20 active orders on. */
  lemma CreateDcaRefused(env: Env, s: Ledger, signer: Address, side: u8, mint: Address, amount: u64, slice: u64,
                         interval: i64, minOut: u64, expiry: i64, other: bool)
    ensures var step := CreateDcaStep(env, s, signer, side, mint, amount, slice, interval, minOut, expiry, other);
            var given := mint in s.tokens && s.nextOrderId !in s.dcas && side <= 1 && amount > 0;
            && (step == Err(InvalidDcaSlice) <==> given && !(0 < slice <= amount))
            && (step == Err(InvalidDcaInterval) <==> given && 0 < slice <= amount && interval <= 0)
            && (step == Err(MaxActiveDca) <==>
                  && given && 0 < slice <= amount && interval > 0 && minOut > 0 && signer == s.manager
                  && s.fundType.TradingFund? && s.dcaCount >= 20)
  {
    hide WaitingTokens, WaitingSol, InitialSol, FundOrder;
    FundOrderErrors(s, mint, amount, other);
  }

  lemma FundOrderErrors(s: Ledger, mint: Address, amount: u64, other: bool)
    ensures forall side, token: u64, sol: u64 :: var funded := FundOrder(s, side, mint, amount, token, sol, other);
              funded != Err(InvalidDcaSlice) && funded != Err(InvalidDcaInterval) && funded != Err(MaxActiveDca)
  {
  }

  /** The errors of a quote, of a swap and of what follows it. */
  predicate OfSwap(error: Error) {
    || error.InvalidTokenVault? || error.InvalidOracle? || error.StaleOracle? || error.MathOverflow?
    || error.InsufficientLiquidity? || error.InvalidFeeBps? || error.InvalidOrderVault? || error.DcaCompleted?
    || error.OrderNotTriggered?
  }

  lemma SwapErrors(env: Env, s: Ledger, e: Escrow, amount: u64, minOut: u64, whole: bool, quote: Quote, swap: Swap)
    ensures var swapped := SwapOut(env, s, e, amount, minOut, whole, quote, swap);
            swapped.Err? ==> OfSwap(swapped.error)
  {
    hide ExpectedOut;
    ExpectedErrors(e.side, amount, quote);
  }

  lemma ExpectedErrors(side: Side, amount: u64, quote: Quote)
    ensures var expected := ExpectedOut(side, amount, quote);
            expected.Err? ==> expected == Err(InvalidOracle) || expected == Err(MathOverflow)
  {
    hide Mul, Div, Pow10, AsU64;
  }

  lemma QuoteErrors(env: Env, s: Ledger, e: Escrow, feed: Address)
    ensures QuoteFor(env, s, e, feed).Err? ==> OfSwap(QuoteFor(env, s, e, feed).error)
  {
  }

  /** The keeper finds an order closed or expired exactly if it is. */
  lemma ExecuteLimitRefused(env: Env, s: Ledger, signer: Address, id: nat, swap: Swap)
    requires id in s.limits && signer == env.keeper && s.fundType.TradingFund?
    ensures var step, order := ExecuteLimitStep(env, s, signer, id, swap), s.limits[id];
            && (step == Err(OrderNotOpen) <==> !order.escrow.status.Open?)
            && (step == Err(OrderExpired) <==> order.escrow.status.Open? && order.expiry != 0 && env.now > order.expiry)
  {
    hide SwapOut, QuoteFor, ScalePrice;
    var order := s.limits[id];
    QuoteErrors(env, s, order.escrow, order.feed);
    if QuoteFor(env, s, order.escrow, order.feed).Ok? {
      var quote := QuoteFor(env, s, order.escrow, order.feed).value;
      ScaleErrors(quote.price, order.priceExpo);
      SwapErrors(env, s, order.escrow, order.amountIn, order.minOut, true, quote, swap);
    }
  }

  lemma ScaleErrors(price: Price, expo: i32)
    requires price.price > 0
    ensures ScalePrice(price.price, price.expo, expo).Err? ==>
              ScalePrice(price.price, price.expo, expo) == Err(MathOverflow)
  {
    hide Mul, Div, Pow10;
  }

  /** The same for a DCA order, whose next slice may also not be due yet. */
  lemma ExecuteDcaRefused(env: Env, s: Ledger, signer: Address, id: nat, swap: Swap, solVaultPassed: bool)
    requires id in s.dcas && signer == env.keeper && s.fundType.TradingFund?
    ensures var step, order := ExecuteDcaStep(env, s, signer, id, swap, solVaultPassed), s.dcas[id];
            var late := order.expiry != 0 && env.now > order.expiry;
            && (step == Err(OrderNotOpen) <==> !order.escrow.status.Open?)
            && (step == Err(OrderExpired) <==> order.escrow.status.Open? && late)
            && (step == Err(DcaNotReady) <==> order.escrow.status.Open? && !late && env.now < order.nextExec)
  {
    hide SwapOut, QuoteFor, CompleteDca, SliceOf;
    var order := s.dcas[id];
    QuoteErrors(env, s, order.escrow, order.feed);
    if QuoteFor(env, s, order.escrow, order.feed).Ok? {
      var quote := QuoteFor(env, s, order.escrow, order.feed).value;
      SwapErrors(env, s, order.escrow, SliceOf(order), order.minOut, false, quote, swap);
    }
    CompleteErrors(env, solVaultPassed);
  }

  lemma CompleteErrors(env: Env, solVaultPassed: bool)
    ensures forall e, vaultSol: u64 :: CompleteDca(env, e, vaultSol, solVaultPassed).Err? ==>
              CompleteDca(env, e, vaultSol, solVaultPassed) == Err(MathOverflow)
  {
  }

  // ---- the loan and the whitelist ----------------------------------------------------------------

  /** A locked fund refuses every borrow; an unlocked one that may lend misses the settle instruction
      exactly if none follows, and finds it invalid exactly if the first is not for its accounts. */
  lemma BorrowRefused(s: Ledger, signer: Address, amount: u64, minOut: u64, mint: Address, later: seq<Meta>)
    ensures var step := BorrowStep(s, signer, amount, minOut, mint, later);
            var lends := && !s.trading.locked && signer == s.manager && s.fundType.TradingFund?
                         && amount > 0 && minOut > 0 && mint in s.listings && mint in s.tokens
                         && s.vaultSol >= amount;
            var settles := exists i :: 0 <= i < |later| && later[i].isSettle;
            && (step == Err(FundLocked) <==> s.trading.locked)
            && (step == Err(MissingSettleInstruction) <==> lends && !settles)
            && (step == Err(InvalidSettleInstruction) <==> lends && settles && !SettlesNext(s, mint, later))
  {
    hide ScanForSettle;
    ScanErrors(later, ExpectedSettle(s, mint));
    ScanFindsFirstSettle(later, ExpectedSettle(s, mint));
  }

  lemma {:induction false} ScanErrors(later: seq<Meta>, expected: seq<Address>)
    ensures var found := ScanForSettle(later, expected);
            && (found == Err(MissingSettleInstruction) <==> forall i :: 0 <= i < |later| ==> !later[i].isSettle)
            && (found.Err? ==> found == Err(MissingSettleInstruction) || found == Err(InvalidSettleInstruction))
  {
    if later != [] && !later[0].isSettle {
      ScanErrors(later[1..], expected);
    }
  }

  lemma RemoveTokenRefused(s: Ledger, signer: Address, mint: Address)
    ensures RemoveTokenStep(s, signer, mint) == Err(TokenVaultNotEmpty)
       <==> signer == s.manager && mint in s.tokens && s.tokens[mint] > 0
    ensures RemoveTokenStep(s, signer, mint) == Err(Unauthorized) <==> signer != s.manager
  {
  }
}
