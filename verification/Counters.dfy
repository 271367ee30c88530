/** The whitelist counter over whole runs, and what it means for the NAV.

    Closing a whitelist record that does not exist still lowers the counter, so the counter is
    exact on exactly the runs in which that never happened. */
module Counters {
  import opened Results
  import opened Ints
  import opened Oracle
  import opened MapSums
  import opened Ledgers
  import opened Navs
  import opened NavAvailability
  import opened ExactNavs
  import opened Steps
  import opened Runs
  import opened Frames
  import opened Invariants

  /** Closing a whitelist record that is not there. */
  ghost predicate AbsentRemoval(s: Ledger, ix: Ix) {
    ix.RemoveToken? && ix.mint !in s.listings
  }

  ghost function AbsentRemovals(s: Ledger, run: seq<Event>): nat
    requires Exec(s, run).Ok?
  {
    if run == [] then 0
    else
      AbsentRemovals(s, run[..|run| - 1])
      + if AbsentRemoval(Exec(s, run[..|run| - 1]).value, run[|run| - 1].ix) then 1 else 0
  }

  lemma AddTokenCounts(s: Ledger, signer: Address, mint: Address, listing: Listing)
    requires AddTokenStep(s, signer, mint, listing).Ok?
    ensures var after := AddTokenStep(s, signer, mint, listing).value;
            |after.listings| - after.enabledCount == |s.listings| - s.enabledCount
  {
    assert s.listings[mint := listing].Keys == s.listings.Keys + {mint};
  }

  lemma RemoveTokenCounts(s: Ledger, signer: Address, mint: Address)
    requires RemoveTokenStep(s, signer, mint).Ok?
    ensures var after := RemoveTokenStep(s, signer, mint).value;
            |after.listings| - after.enabledCount == |s.listings| - s.enabledCount + if mint in s.listings then 0 else 1
  {
    assert (s.listings - {mint}).Keys == s.listings.Keys - {mint};
    assert mint !in s.listings ==> s.listings - {mint} == s.listings;
  }

  lemma StepCounts(env: Env, s: Ledger, ix: Ix)
    requires Step(env, s, ix).Ok?
    ensures var after := Step(env, s, ix).value;
            |after.listings| - after.enabledCount
            == |s.listings| - s.enabledCount + if AbsentRemoval(s, ix) then 1 else 0
  {
    hide DepositStep, RequestWithdrawStep, CancelWithdrawStep, ExecuteWithdrawStep, CreateLimitStep, ExecuteLimitStep,
         CancelLimitStep, CreateDcaStep, ExecuteDcaStep, CancelDcaStep, BorrowStep, SettleStep, SetStrategyStep,
         RebalanceStep, TransferSharesStep, CreditVaultStep, AddTokenStep, RemoveTokenStep, Frame;
    match ix {
      case AddToken(signer, mint, listing) => AddTokenCounts(s, signer, mint, listing);
      case RemoveToken(signer, mint) => RemoveTokenCounts(s, signer, mint);
      case _ =>
        StepFrame(env, s, ix);
        FrameKeeps(s, ix, Step(env, s, ix).value);
    }
  }

  /** The counter falls short of the records by exactly the removals of absent records. */
  lemma {:induction false} TokenCounterLaw(s: Ledger, run: seq<Event>)
    requires Exec(s, run).Ok?
    ensures var after := Exec(s, run).value;
            |after.listings| - after.enabledCount == |s.listings| - s.enabledCount + AbsentRemovals(s, run)
  {
    hide Step;
    if run != [] {
      var before, last := ExecLast(s, run);
      TokenCounterLaw(s, run[..|run| - 1]);
      StepCounts(last.env, before, last.ix);
    }
  }

  /** From initialisation on, all three counters are exact if and only if no absent whitelist
      record was ever removed. */
  lemma CountersExactIff(env: Env, bounds: Bounds, charter: Charter, wallets: map<Address, u64>, run: seq<Event>,
                         s: Ledger)
    requires Starts(env, bounds, charter, wallets, run, s)
    ensures OrderCountersExact(s)
    ensures CountersExact(s) <==> AbsentRemovals(InitialLedger(env, bounds, charter, wallets).value, run) == 0
  {
    hide Exec, AbsentRemovals, Move, DebitFrom, BpsOf, AsU64, SharesSound;
    ReachableIsSound(s);
    var initial := InitialLedger(env, bounds, charter, wallets).value;
    assert initial.listings == map[] && initial.enabledCount == 0;
    TokenCounterLaw(initial, run);
  }

  /** The list names everything the fund holds, each once. */
  ghost predicate NamesHoldings(s: Ledger, accounts: seq<Address>) {
    if s.enabledCount == 0 then accounts == [] && s.listings == map[] && NoOpenOrders(s)
    else ListsHoldings(s, accounts)
  }

  lemma {:induction false} ListingAccountsCounted(fund: Address, mints: set<Address>)
    ensures |set m | m in mints :: WhitelistOf(fund, m)| == |mints|
    decreases |mints|
  {
    var accounts := set m | m in mints :: WhitelistOf(fund, m);
    if mints != {} {
      var m :| m in mints;
      ListingAccountsCounted(fund, mints - {m});
      var fewer := set k | k in mints - {m} :: WhitelistOf(fund, k);
      assert accounts == fewer + {WhitelistOf(fund, m)};
    }
  }

  /** A list that names every listed mint once is as long as the whitelist. */
  lemma NamedIsCounted(s: Ledger, accounts: seq<Address>)
    requires NamesHoldings(s, accounts)
    ensures s.enabledCount == |s.listings|
  {
    hide Enumerates, Column, OpenOrderAccounts, NoOpenOrders;
    if s.enabledCount > 0 {
      var column := Column(accounts, 1, s.enabledCount);
      assert Enumerates(column, ListingAccounts(s));
      ColumnCounted(accounts, s.enabledCount, ListingAccounts(s));
      ListingAccountsCounted(s.key, s.listings.Keys);
      assert ListingAccounts(s) == set m | m in s.listings.Keys :: WhitelistOf(s.key, m);
    }
  }

  lemma ColumnCounted(accounts: seq<Address>, count: nat, wanted: set<Address>)
    requires |accounts| >= 1 + 3 * count && Enumerates(Column(accounts, 1, count), wanted)
    ensures count == |wanted|
  {
    DistinctCounted(Column(accounts, 1, count), wanted);
  }

  /** NAV completeness over runs, exactly.  Whatever happened since initialisation, an accepted
      list names every holding if and only if no absent whitelist record was ever removed; and
      then the result is the exact value of the holdings modulo 2^64. */
  lemma NavCompleteIff(env: Env, bounds: Bounds, charter: Charter, wallets: map<Address, u64>, run: seq<Event>,
                       s: Ledger, at: Env, accounts: seq<Address>)
    requires Starts(env, bounds, charter, wallets, run, s)
    requires Nav(at, s, accounts).Ok?
    ensures NamesHoldings(s, accounts)
       <==> AbsentRemovals(InitialLedger(env, bounds, charter, wallets).value, run) == 0
    ensures NamesHoldings(s, accounts) ==>
              && Nav(at, s, accounts).value == AsU64(SimpleNav(at, s))
              && Nav(at, s, accounts).value == AsU64(ExactNav(at, s))
  {
    hide Exec, AbsentRemovals, InitialLedger, Nav, SimpleNav, ExactNav, ListsHoldings, OpenIds, LimitBook, DcaBook;
    CountersExactIff(env, bounds, charter, wallets, run, s);
    if s.enabledCount == |s.listings| {
      NavIsSimpleNav(at, s, accounts);
      NavIsExactNav(at, s, accounts);
    }
    if NamesHoldings(s, accounts) {
      NamedIsCounted(s, accounts);
    }
  }

  // ---- without the premise ---------------------------------------------------------------------

  lemma HeldAtMost(env: Env, s: Ledger, sol: Price, accounts: seq<Address>, mints: seq<Address>, held: int)
    requires |accounts| >= 1 + 3 * s.enabledCount
    requires LoadPrice(env, env.solFeed) == Ok(sol)
    requires NavMints(env, s, accounts, s.enabledCount, []) == Ok(mints)
    requires NavTokens(env, s, sol, accounts, s.enabledCount, 0, s.vaultSol) == Ok(held)
    ensures held <= s.vaultSol + Sum(TokenWorths(env, s.listings, s.tokens))
  {
    hide TokenValue, NavTokens, Worth, SumSeq, Sum;
    NavMintsSound(env, s, accounts, s.enabledCount, []);
    NavTokensSum(env, s, sol, accounts, s.enabledCount, mints, 0, s.vaultSol);
    assert mints[0..] == mints;
    DistinctKeysAtMost(mints, TokenWorths(env, s.listings, s.tokens));
  }

  lemma HoldingsAtMost(env: Env, s: Ledger, sol: Price, accounts: seq<Address>, mints: seq<Address>)
    requires OrderCountersExact(s)
    requires |accounts| == 1 + 3 * s.enabledCount + 3 * s.limitCount + 3 * s.dcaCount
    requires LoadPrice(env, env.solFeed) == Ok(sol)
    requires NavMints(env, s, accounts, s.enabledCount, []) == Ok(mints)
    requires NavHoldings(env, s, sol, mints, accounts).Ok?
    ensures NavHoldings(env, s, sol, mints, accounts).value <= SimpleNav(env, s)
  {
    var base := 1 + 3 * s.enabledCount;
    hide TokenValue, OrderValue, NavTokens, NavOrders, NavMints, Enumerates, Column, OpenOrderAccounts, TokenWorths,
         BookWorths, Sum, OpenIds, LimitBook, DcaBook;
    var limits, dcas := LimitBook(s), DcaBook(s);
    var held := NavTokens(env, s, sol, accounts, s.enabledCount, 0, s.vaultSol).value;
    var withLimits := NavOrders(env, s, sol, mints, LimitKind, limits, accounts, base, s.limitCount, 0, held).value;
    HeldAtMost(env, s, sol, accounts, mints, held);
    OrdersAreSum(env, s, sol, mints, LimitKind, limits, accounts, base, s.limitCount, held);
    OrdersAreSum(env, s, sol, mints, DcaKind, dcas, accounts, base + 3 * s.limitCount, s.dcaCount, withLimits);
  }

  lemma VaultAtMostNav(env: Env, s: Ledger)
    ensures s.vaultSol <= SimpleNav(env, s)
  {
    hide Sum, Worth, EscrowWorth, OpenIds, LimitBook, DcaBook;
    SumNonNegative(TokenWorths(env, s.listings, s.tokens));
    SumNonNegative(BookWorths(env, s.listings, LimitBook(s)));
    SumNonNegative(BookWorths(env, s.listings, DcaBook(s)));
  }

  /** In every reachable ledger, even with a counter that fell short and even where a cast
      truncates, no account list makes the handler report more than the holdings. */
  lemma NavNeverOverstates(env: Env, s: Ledger, accounts: seq<Address>)
    requires Reachable(s) && Nav(env, s, accounts).Ok?
    ensures Nav(env, s, accounts).value <= SimpleNav(env, s) <= ExactNav(env, s)
  {
    SimpleNavAtMostExact(env, s);
    hide Reachable, SharesSound, TradingSound, KindSound, StrategySound, RequestsSound, LimitBook, DcaBook, OpenIds,
         TokenWorths, BookWorths, Sum, NavHoldings, NavMints;
    ReachableIsSound(s);
    if s.enabledCount == 0 {
      VaultAtMostNav(env, s);
    } else {
      var mints := NavMints(env, s, accounts, s.enabledCount, []).value;
      HoldingsAtMost(env, s, LoadPrice(env, env.solFeed).value, accounts, mints);
    }
  }

  /** A manager closes the record of mint `gone` a second time while mint `held` is listed: the
      instruction succeeds, and from then on the empty account list is accepted and leaves out
      every token the fund holds. */
  lemma AbsentRemovalHidesHoldings(env: Env, s: Ledger, held: Address, gone: Address)
    requires CountersExact(s) && s.listings.Keys == {held}
    requires OpenIds(LimitBook(s)) == OpenIds(DcaBook(s)) == {}
    requires gone != held && gone in s.tokens && s.tokens[gone] == 0
    ensures RemoveTokenStep(s, s.manager, gone).Ok?
    ensures var after := RemoveTokenStep(s, s.manager, gone).value;
            && Nav(env, after, []) == Ok(s.vaultSol)
            && SimpleNav(env, after) == s.vaultSol + Worth(env, s.listings, held, Balance(s.tokens, held))
  {
    hide Worth;
    assert s.listings - {gone} == s.listings;
    var after := RemoveTokenStep(s, s.manager, gone).value;
    assert |s.listings.Keys| == 1;
    assert LimitBook(after) == LimitBook(s) && DcaBook(after) == DcaBook(s);
    var worths := TokenWorths(env, after.listings, after.tokens);
    assert worths.Keys == {held};
    assert worths - {held} == map[];
    SumRemove(worths, held);
    assert BookWorths(env, after.listings, LimitBook(after)) == map[];
    assert BookWorths(env, after.listings, DcaBook(after)) == map[];
  }
}
