/** Share accounting: deposits and withdrawals against the exact value of the fund.

    The prices stay fixed in this module.  The price of a share is Equity / totalShares, where the
    equity is the exact value of the holdings and the lamports on loan; comparisons of prices are
    cross-multiplied, so they also cover a fund without shares. */
module ShareAccounting {
  import opened Results
  import opened Ints
  import opened Oracle
  import opened MapSums
  import opened Ledgers
  import opened Navs
  import opened ExactNavs
  import opened Steps
  import opened Ranges
  import opened ShareTerms
  import opened Runs
  import opened Frames

  // ---- what the value depends on ---------------------------------------------------------------

  ghost predicate SamePrices(env: Env, other: Env) {
    other.oracle == env.oracle && other.solFeed == env.solFeed
  }

  lemma WorthAtSamePrices(env: Env, other: Env, listings: map<Address, Listing>, mint: Address, amount: nat)
    requires SamePrices(env, other)
    ensures ExactWorth(other, listings, mint, amount) == ExactWorth(env, listings, mint, amount)
  {
    hide Floor, TokenRate;
  }

  lemma BookAtSamePrices(env: Env, other: Env, listings: map<Address, Listing>, book: map<nat, Escrow>)
    requires SamePrices(env, other)
    ensures ExactBook(other, listings, book) == ExactBook(env, listings, book)
  {
    hide ExactWorth, SamePrices;
    forall id <- OpenIds(book)
      ensures ExactEscrowWorth(other, listings, book[id]) == ExactEscrowWorth(env, listings, book[id])
    {
      WorthAtSamePrices(env, other, listings, book[id].mint, book[id].token);
    }
  }

  lemma TokensAtSamePrices(env: Env, other: Env, listings: map<Address, Listing>, tokens: map<Address, u64>)
    requires SamePrices(env, other)
    ensures ExactTokens(other, listings, tokens) == ExactTokens(env, listings, tokens)
  {
    hide ExactWorth, SamePrices;
    forall mint <- listings
      ensures ExactWorth(other, listings, mint, Balance(tokens, mint))
           == ExactWorth(env, listings, mint, Balance(tokens, mint))
    {
      WorthAtSamePrices(env, other, listings, mint, Balance(tokens, mint));
    }
  }

  lemma ExactNavAtSamePrices(env: Env, other: Env, s: Ledger)
    requires SamePrices(env, other)
    ensures ExactNav(other, s) == ExactNav(env, s)
  {
    hide Sum, SamePrices, ExactTokens, ExactBook, LimitBook, DcaBook;
    TokensAtSamePrices(env, other, s.listings, s.tokens);
    BookAtSamePrices(env, other, s.listings, LimitBook(s));
    BookAtSamePrices(env, other, s.listings, DcaBook(s));
  }

  ghost predicate SameTokensAndOrders(s: Ledger, after: Ledger) {
    && after.listings == s.listings && after.tokens == s.tokens
    && after.limits == s.limits && after.dcas == s.dcas
    && after.enabledCount == s.enabledCount && after.limitCount == s.limitCount && after.dcaCount == s.dcaCount
  }

  lemma OnlyVaultChanged(env: Env, s: Ledger, after: Ledger)
    requires SameTokensAndOrders(s, after)
    ensures ExactNav(env, after) - after.vaultSol == ExactNav(env, s) - s.vaultSol
    ensures CountersExact(s) ==> CountersExact(after)
  {
    hide Sum, ExactWorth, ExactEscrowWorth, OpenIds;
    assert LimitBook(after) == LimitBook(s) && DcaBook(after) == DcaBook(s);
  }

  // ---- the price of a share ----------------------------------------------------------------------

  /** The lamports on loan while the fund is locked.  No handler counts them. */
  ghost function Loan(s: Ledger): nat {
    if s.trading.locked then s.trading.borrowed else 0
  }

  /** What the shares stand for: the holdings and what the borrower owes. */
  ghost function Equity(env: Env, s: Ledger): nat {
    ExactNav(env, s) + Loan(s)
  }

  /** The price of a share, counting `loan` beside the holdings, does not fall. */
  ghost predicate KeptWith(env: Env, loan: nat, before: Ledger, after: Ledger) {
    Mul(ExactNav(env, after) + loan, before.totalShares) >= Mul(ExactNav(env, before) + loan, after.totalShares)
  }

  /** The price of a share in `after` is at least what it was in `before`. */
  ghost predicate PriceKept(env: Env, before: Ledger, after: Ledger) {
    Mul(Equity(env, after), before.totalShares) >= Mul(Equity(env, before), after.totalShares)
  }

  lemma KeptWithLoan(env: Env, s: Ledger, after: Ledger)
    requires after.trading == s.trading
    ensures KeptWith(env, Loan(s), s, after) <==> PriceKept(env, s, after)
  {
    hide ExactNav, Mul;
  }

  // ---- one deposit, one payout -------------------------------------------------------------------

  /** Minting rounds down: the new shares cost at least the old price. */
  lemma SharesForRoundsDown(s: Ledger, net: u64, nav: u64)
    requires SharesFor(s, net, nav).Ok?
    ensures s.totalShares > 0
    ensures 0 < SharesFor(s, net, nav).value && Mul(SharesFor(s, net, nav).value, nav) <= Mul(net, s.totalShares)
  {
    var exact := Mul(net, s.totalShares);
    DivBounds(exact, nav);
    MulLe(SharesFor(s, net, nav).value, exact / nav, nav);
  }

  /** The payout of up to all shares is at most the NAV, so neither of its casts truncates: the gross
      is that part of the NAV and the fee the fee rate of the gross, both rounded down. */
  lemma GrossWithinNav(env: Env, s: Ledger, shares: u64, nav: u64)
    requires PayoutFor(env, s, shares, nav).Ok? && shares <= s.totalShares
    ensures s.totalShares > 0 && nav > 0
    ensures var payout := PayoutFor(env, s, shares, nav).value;
            && payout.gross == ProRata(shares, nav, s.totalShares) <= nav
            && PartOf(payout.gross, shares, nav, s.totalShares)
            && Mul(payout.gross, s.totalShares) <= Mul(shares, nav)
            && (env.withdrawFeeBps <= 10_000 ==> PartOf(payout.fee, payout.gross, env.withdrawFeeBps, 10_000))
            && payout.fee + payout.net == payout.gross <= s.vaultSol
  {
    hide Mul, ProRata, BpsOf, PartOf;
    PartOfWhole(shares, nav, s.totalShares);
    ProRataPart(shares, nav, s.totalShares);
    BpsPart(PayoutFor(env, s, shares, nav).value.gross, env.withdrawFeeBps);
    if env.withdrawFeeBps <= 10_000 {
      FeeOfWhole(PayoutFor(env, s, shares, nav).value.gross, env.withdrawFeeBps);
    }
  }

  lemma ProRataPart(parts: nat, whole: nat, total: nat)
    requires total > 0
    ensures PartOf(ProRata(parts, whole, total), parts, whole, total)
  {
    DivBounds(parts * whole, total);
  }

  lemma PartOfWhole(parts: nat, whole: nat, total: nat)
    requires 0 < total && parts <= total
    ensures ProRata(parts, whole, total) <= whole
    ensures Mul(ProRata(parts, whole, total), total) <= Mul(parts, whole)
  {
    hide Mul;
    MulMono(parts, total, whole);
    MulCommutes(total, whole);
    var share := ProRata(parts, whole, total);
    ProRataBound(parts, whole, total);
    MulCancelLe(share, whole, total);
  }

  lemma ProRataBound(parts: nat, whole: nat, total: nat)
    requires total > 0
    ensures Mul(ProRata(parts, whole, total), total) <= Mul(parts, whole)
  {
    DivBounds(Mul(parts, whole), total);
  }

  lemma FeeOfWhole(amount: nat, bps: nat)
    requires bps <= 10_000
    ensures BpsOf(amount, bps) <= amount
  {
    MulLe(bps, 10_000, amount);
    DivBelow(Mul(amount, bps), 10_000, amount + 1);
  }

  /** Paying `net` for `minted` shares keeps the price if and only if it is no less than the price. */
  lemma BuyingKeepsPriceIff(v: nat, shares: nat, net: nat, minted: nat)
    ensures Mul(v + net, shares) >= Mul(v, shares + minted) <==> Mul(minted, v) <= Mul(net, shares)
  {
    assert (v + net) * shares == v * shares + net * shares;
    assert v * (shares + minted) == v * shares + minted * v;
  }

  /** Shares sold at a truncated NAV are always too cheap: the true value is more than twice the
      NAV they were priced at, and rounding cannot make up for half. */
  lemma TruncationDilutes(v: nat, nav: nat, shares: nat, net: nat, minted: nat)
    requires v > U64_MAX && 0 < nav == AsU64(v)
    requires minted > 0 && minted == ProRata(net, shares, nav)
    ensures Mul(minted, v) > Mul(net, shares)
  {
    var paid := Mul(net, shares);
    assert v >= 2 * nav + 1;
    DivBounds(paid, nav);
    assert paid < Mul(minted, nav) + nav;
    hide Mul;
    MulMono(1, minted, nav);
    MulUnits(nav);
    MulUnits(minted);
    CheapShares(minted, nav, v);
  }

  lemma CheapShares(minted: nat, nav: nat, v: nat)
    requires v >= 2 * nav + 1
    ensures Mul(minted, v) >= 2 * Mul(minted, nav) + minted
  {
    MulLe(2 * nav + 1, v, minted);
  }

  lemma SellingKeepsPrice(v: nat, shares: nat, gross: nat, burnt: nat)
    requires gross <= v && burnt <= shares && Mul(gross, shares) <= Mul(burnt, v)
    ensures Mul(v - gross, shares) >= Mul(v, shares - burnt)
  {
    assert (v - gross) * shares == v * shares - gross * shares;
    assert v * (shares - burnt) == v * shares - burnt * v;
  }

  /** What rounding the new shares down keeps back is the remainder of the division. */
  lemma RoundingCovers(v: nat, loan: nat, paid: nat, minted: nat)
    requires v > 0 && minted == paid / v
    ensures Mul(minted, v + loan) <= paid <==> Mul(minted, loan) <= paid % v
  {
    assert paid == v * (paid / v) + paid % v;
    assert minted * (v + loan) == v * minted + minted * loan;
  }

  lemma MintedKeepsPriceIff(v: nat, loan: nat, nav: nat, shares: nat, net: nat, minted: nat)
    requires 0 < nav == AsU64(v) && minted > 0 && minted == ProRata(net, shares, nav)
    ensures Mul(minted, v + loan) <= Mul(net, shares)
       <==> v <= U64_MAX && Mul(minted, loan) <= Mul(net, shares) % nav
  {
    if v <= U64_MAX {
      hide Mul;
      RoundingCovers(v, loan, Mul(net, shares), minted);
    } else {
      TruncationDilutes(v, nav, shares, net, minted);
      MulLe(v, v + loan, minted);
    }
  }

  /** `after` is `s` with `net` lamports paid for new shares. */
  ghost predicate Buys(s: Ledger, after: Ledger, net: nat) {
    && SameTokensAndOrders(s, after) && after.trading == s.trading
    && after.vaultSol == s.vaultSol + net && after.totalShares > s.totalShares > 0
  }

  lemma DepositBuys(env: Env, s: Ledger, investor: Address, amount: u64, accounts: seq<Address>)
    requires DepositStep(env, s, investor, amount, accounts).Ok? && CountersExact(s)
    ensures SplitDeposit(env, s, amount).Ok? && Nav(env, s, accounts) == Ok(AsU64(ExactNav(env, s)))
    ensures Nav(env, s, accounts).value > 0
    ensures var after := DepositStep(env, s, investor, amount, accounts).value;
            var net := SplitDeposit(env, s, amount).value.net;
            && Buys(s, after, net)
            && after.totalShares - s.totalShares == AsU64(ProRata(net, s.totalShares, Nav(env, s, accounts).value))
            && Mul(after.totalShares - s.totalShares, AsU64(ExactNav(env, s))) <= Mul(net, s.totalShares)
  {
    hide Nav, ExactNav, SplitDeposit, PayDeposit, CountersExact, Mul, AsU64, ProRata;
    var net := SplitDeposit(env, s, amount).value.net;
    NavIsExactNav(env, s, accounts);
    SharesForRoundsDown(s, net, Nav(env, s, accounts).value);
  }

  /** A deposit that does not price a loan into its shares keeps the price exactly if it pays for
      them at the exact value. */
  lemma BuyingKeepsIff(env: Env, loan: nat, s: Ledger, after: Ledger, net: nat)
    requires Buys(s, after, net)
    ensures KeptWith(env, loan, s, after)
       <==> Mul(after.totalShares - s.totalShares, ExactNav(env, s) + loan) <= Mul(net, s.totalShares)
  {
    hide ExactNav, Mul, CountersExact;
    OnlyVaultChanged(env, s, after);
    BuyingKeepsPriceIff(ExactNav(env, s) + loan, s.totalShares, net, after.totalShares - s.totalShares);
  }

  /** A deposit keeps the price if and only if what it pays covers the shares it mints at the
      equity; and where the minted shares are not themselves truncated, that is if and only if
      the exact value fits 64 bits and the loan's part of the new shares is no more than what
      rounding them down kept back: nothing, in general, so the fund should not be locked. */
  lemma DepositKeepsPriceIff(env: Env, s: Ledger, investor: Address, amount: u64, accounts: seq<Address>)
    requires DepositStep(env, s, investor, amount, accounts).Ok? && CountersExact(s)
    ensures SplitDeposit(env, s, amount).Ok? && Nav(env, s, accounts).Ok? && Nav(env, s, accounts).value > 0
    ensures s.totalShares > 0
    ensures var after := DepositStep(env, s, investor, amount, accounts).value;
            var net, nav := SplitDeposit(env, s, amount).value.net, Nav(env, s, accounts).value;
            var minted := after.totalShares - s.totalShares;
            && SameTokensAndOrders(s, after) && minted > 0 && after.vaultSol == s.vaultSol + net
            && after.trading == s.trading
            && (PriceKept(env, s, after) <==> Mul(minted, Equity(env, s)) <= Mul(net, s.totalShares))
            && (Loan(s) == 0 && ExactNav(env, s) <= U64_MAX ==> PriceKept(env, s, after))
            && (ProRata(net, s.totalShares, nav) <= U64_MAX ==>
                  (PriceKept(env, s, after)
                   <==> ExactNav(env, s) <= U64_MAX && Mul(minted, Loan(s)) <= Mul(net, s.totalShares) % nav))
  {
    hide DepositStep, Nav, ExactNav, SplitDeposit, CountersExact, Mul, ProRata, KeptWith, Loan, PriceKept;
    DepositBuys(env, s, investor, amount, accounts);
    var after := DepositStep(env, s, investor, amount, accounts).value;
    var net, nav := SplitDeposit(env, s, amount).value.net, Nav(env, s, accounts).value;
    var minted := after.totalShares - s.totalShares;
    KeptWithLoan(env, s, after);
    BuyingKeepsIff(env, Loan(s), s, after, net);
    if ProRata(net, s.totalShares, nav) <= U64_MAX {
      MintedKeepsPriceIff(ExactNav(env, s), Loan(s), nav, s.totalShares, net, minted);
    }
  }

  /** The same price without the loan, which is the one the handler works with. */
  lemma DepositKeepsHeldPrice(env: Env, s: Ledger, investor: Address, amount: u64, accounts: seq<Address>)
    requires DepositStep(env, s, investor, amount, accounts).Ok? && CountersExact(s) && ExactNav(env, s) <= U64_MAX
    ensures ExactNav(env, s) > 0
    ensures var after := DepositStep(env, s, investor, amount, accounts).value;
            KeptWith(env, 0, s, after) && SameTokensAndOrders(s, after) && after.trading == s.trading
            && s.totalShares > 0
  {
    hide DepositStep, Nav, ExactNav, SplitDeposit, CountersExact, Mul, ProRata, KeptWith;
    DepositBuys(env, s, investor, amount, accounts);
    BuyingKeepsIff(env, 0, s, DepositStep(env, s, investor, amount, accounts).value,
                   SplitDeposit(env, s, amount).value.net);
  }

  /** A payout keeps the price even where the NAV it was computed from was truncated or leaves out
      a loan. */
  lemma WithdrawKeepsPriceWith(env: Env, loan: nat, s: Ledger, investor: Address, accounts: seq<Address>)
    requires ExecuteWithdrawStep(env, s, investor, accounts).Ok? && CountersExact(s)
    ensures var after := ExecuteWithdrawStep(env, s, investor, accounts).value;
            && KeptWith(env, loan, s, after) && SameTokensAndOrders(s, after) && after.trading == s.trading
            && s.totalShares > 0 && ExactNav(env, s) > 0 && after.vaultSol <= s.vaultSol
  {
    hide Nav, ExactNav, PayoutFor, PayInvestor, CountersExact, Mul, ProRata, BpsOf;
    var after := ExecuteWithdrawStep(env, s, investor, accounts).value;
    var shares := DueRequest(env, s, investor).value.shares;
    var nav := Nav(env, s, accounts).value;
    var payout := PayoutFor(env, s, shares, nav).value;
    NavIsExactNav(env, s, accounts);
    GrossWithinNav(env, s, shares, nav);
    OnlyVaultChanged(env, s, after);
    TruncatedNavPaysLess(payout.gross, s.totalShares, shares, nav, ExactNav(env, s) + loan);
    SellingKeepsPrice(ExactNav(env, s) + loan, s.totalShares, payout.gross, shares);
  }

  lemma WithdrawKeepsPrice(env: Env, s: Ledger, investor: Address, accounts: seq<Address>)
    requires ExecuteWithdrawStep(env, s, investor, accounts).Ok? && CountersExact(s)
    ensures var after := ExecuteWithdrawStep(env, s, investor, accounts).value;
            && PriceKept(env, s, after) && SameTokensAndOrders(s, after)
            && s.totalShares > 0 && after.vaultSol <= s.vaultSol
  {
    hide ExecuteWithdrawStep, ExactNav, CountersExact, KeptWith, PriceKept, Loan;
    WithdrawKeepsPriceWith(env, Loan(s), s, investor, accounts);
    KeptWithLoan(env, s, ExecuteWithdrawStep(env, s, investor, accounts).value);
  }

  lemma TruncatedNavPaysLess(gross: nat, total: nat, shares: nat, nav: nat, v: nat)
    requires Mul(gross, total) <= Mul(shares, nav) && nav <= v
    ensures Mul(gross, total) <= Mul(shares, v)
  {
    MulLe(nav, v, shares);
  }

  // ---- whole runs ------------------------------------------------------------------------------

  predicate OnShares(ix: Ix) {
    ix.Deposit? || ix.RequestWithdraw? || ix.CancelWithdraw? || ix.ExecuteWithdraw? || ix.TransferShares?
  }

  /** Any interleaving of investors' instructions at the prices of `env`. */
  ghost predicate ShareRun(env: Env, run: seq<Event>) {
    forall e <- run :: OnShares(e.ix) && SamePrices(env, e.env)
  }

  /** The exact value fits 64 bits whenever a deposit is priced. */
  ghost predicate NavFits(env: Env, s: Ledger, run: seq<Event>) {
    forall k :: 0 <= k < |run| && run[k].ix.Deposit? && Exec(s, run[..k]).Ok? ==>
      ExactNav(env, Exec(s, run[..k]).value) <= U64_MAX
  }

  ghost predicate ShareStepFacts(env: Env, loan: nat, s: Ledger, after: Ledger) {
    && KeptWith(env, loan, s, after) && SameTokensAndOrders(s, after) && after.trading == s.trading
    && (s.totalShares == 0 || ExactNav(env, s) == 0 ==>
          after.totalShares == s.totalShares && after.vaultSol == s.vaultSol)
  }

  lemma IdleStep(env: Env, loan: nat, s: Ledger, after: Ledger)
    requires SameTokensAndOrders(s, after) && after.totalShares == s.totalShares && after.vaultSol == s.vaultSol
    requires after.trading == s.trading
    ensures ShareStepFacts(env, loan, s, after)
  {
    hide ExactNav;
    OnlyVaultChanged(env, s, after);
  }

  lemma IdleInstruction(env: Env, s: Ledger, ix: Ix)
    requires OnShares(ix) && !ix.Deposit? && !ix.ExecuteWithdraw? && Step(env, s, ix).Ok?
    ensures var after := Step(env, s, ix).value;
            && SameTokensAndOrders(s, after) && after.totalShares == s.totalShares
            && after.vaultSol == s.vaultSol && after.trading == s.trading
  {
    hide DepositStep, ExecuteWithdrawStep, AddTokenStep, RemoveTokenStep, CreateLimitStep, ExecuteLimitStep,
         CancelLimitStep, CreateDcaStep, ExecuteDcaStep, CancelDcaStep, BorrowStep, SettleStep, SetStrategyStep,
         RebalanceStep, CreditVaultStep, CreditTo, DebitFrom;
  }

  lemma ShareStep(env: Env, loan: nat, e: Event, s: Ledger)
    requires OnShares(e.ix) && SamePrices(env, e.env) && CountersExact(s)
    requires e.ix.Deposit? ==> ExactNav(env, s) <= U64_MAX && loan == 0
    requires Step(e.env, s, e.ix).Ok?
    ensures ShareStepFacts(env, loan, s, Step(e.env, s, e.ix).value) && CountersExact(Step(e.env, s, e.ix).value)
  {
    hide DepositStep, ExecuteWithdrawStep, RequestWithdrawStep, CancelWithdrawStep, TransferSharesStep, AddTokenStep,
         RemoveTokenStep, CreateLimitStep, ExecuteLimitStep, CancelLimitStep, CreateDcaStep, ExecuteDcaStep,
         CancelDcaStep, BorrowStep, SettleStep, SetStrategyStep, RebalanceStep, CreditVaultStep, ExactNav,
         CountersExact, SamePrices, Mul;
    var after := Step(e.env, s, e.ix).value;
    ExactNavAtSamePrices(env, e.env, s);
    ExactNavAtSamePrices(env, e.env, after);
    match e.ix {
      case Deposit(investor, amount, accounts) => DepositKeepsHeldPrice(e.env, s, investor, amount, accounts);
      case ExecuteWithdraw(investor, accounts) => WithdrawKeepsPriceWith(e.env, loan, s, investor, accounts);
      case _ =>
        IdleInstruction(e.env, s, e.ix);
        IdleStep(env, loan, s, after);
    }
    OnlyVaultChanged(env, s, after);
  }

  lemma PriceTransitive(v0: nat, s0: nat, v1: nat, s1: nat, v2: nat, s2: nat)
    requires Mul(v1, s0) >= Mul(v0, s1) && Mul(v2, s1) >= Mul(v1, s2) && (s1 == 0 ==> s2 == 0)
    ensures Mul(v2, s0) >= Mul(v0, s2)
  {
    hide Mul;
    if s1 > 0 {
      MulMono(Mul(v1, s2), Mul(v2, s1), s0);
      MulMono(Mul(v0, s1), Mul(v1, s0), s2);
      MulSwap(v0, s2, s1);
      MulSwap(v2, s0, s1);
      MulSwap(v1, s2, s0);
      MulCancelLe(Mul(v0, s2), Mul(v2, s0), s1);
    } else {
      MulUnits(v0);
    }
  }

  ghost predicate NoDeposits(run: seq<Event>) {
    forall e <- run :: !e.ix.Deposit?
  }

  lemma {:induction false} KeptOverRun(env: Env, loan: nat, s: Ledger, run: seq<Event>)
    requires CountersExact(s) && ShareRun(env, run) && NavFits(env, s, run) && Exec(s, run).Ok?
    requires loan == 0 || NoDeposits(run)
    ensures ShareStepFacts(env, loan, s, Exec(s, run).value) && CountersExact(Exec(s, run).value)
  {
    hide Step, ExactNav, CountersExact, Mul;
    if run == [] {
      IdleStep(env, loan, s, s);
    } else {
      var before, last := ExecLast(s, run);
      var init := run[..|run| - 1];
      assert NavFits(env, s, init) by {
        assert forall k :: 0 <= k < |init| ==> init[..k] == run[..k];
      }
      KeptOverRun(env, loan, s, init);
      OnlyVaultChanged(env, s, before);
      ShareStep(env, loan, last, before);
      var after := Exec(s, run).value;
      PriceTransitive(ExactNav(env, s) + loan, s.totalShares, ExactNav(env, before) + loan, before.totalShares,
                      ExactNav(env, after) + loan, after.totalShares);
    }
  }

  /** The share price never falls: not in any interleaving of deposits, requests, payouts and
      share transfers by any investors at fixed prices, as long as no deposit comes while
      lamports are on loan. */
  lemma SharePriceNeverFalls(env: Env, s: Ledger, run: seq<Event>)
    requires CountersExact(s) && ShareRun(env, run) && NavFits(env, s, run) && Exec(s, run).Ok?
    requires Loan(s) == 0 || NoDeposits(run)
    ensures var after := Exec(s, run).value;
            && PriceKept(env, s, after) && ShareStepFacts(env, Loan(s), s, after) && CountersExact(after)
  {
    hide Exec, ExactNav, CountersExact, PriceKept, KeptWith, NoDeposits, NavFits, ShareRun, Loan;
    KeptOverRun(env, Loan(s), s, run);
    KeptWithLoan(env, s, Exec(s, run).value);
  }

  // ---- a fund without shares -------------------------------------------------------------------

  lemma NoSharesStep(env: Env, s: Ledger, ix: Ix)
    requires s.totalShares == 0 && Step(env, s, ix).Ok?
    ensures Step(env, s, ix).value.totalShares == 0 && !ix.Deposit? && !ix.ExecuteWithdraw?
  {
    hide Nav, SplitDeposit, PayoutFor, AddTokenStep, RemoveTokenStep, CreateLimitStep, ExecuteLimitStep,
         CancelLimitStep,
         CreateDcaStep, ExecuteDcaStep, CancelDcaStep, BorrowStep, SettleStep, SetStrategyStep, RebalanceStep,
         CreditVaultStep, TransferSharesStep, RequestWithdrawStep, CancelWithdrawStep, Frame;
    StepFrame(env, s, ix);
    FrameKeeps(s, ix, Step(env, s, ix).value);
  }

  /** A fund without shares stays without shares: nobody can deposit into it again. */
  lemma {:induction false} NoSharesForever(s: Ledger, run: seq<Event>)
    requires s.totalShares == 0 && Exec(s, run).Ok?
    ensures Exec(s, run).value.totalShares == 0
    ensures forall e <- run :: !e.ix.Deposit? && !e.ix.ExecuteWithdraw?
  {
    hide Step;
    if run != [] {
      var before, last := ExecLast(s, run);
      NoSharesForever(s, run[..|run| - 1]);
      NoSharesStep(last.env, before, last.ix);
      assert run == run[..|run| - 1] + [last];
    }
  }
}
