/** What the handler accepts when the whitelist counter has fallen short of the records: the
    caller chooses which of the listed mints to leave out. */
module PartialLists {
  import opened Results
  import opened Ints
  import opened Oracle
  import opened MapSums
  import opened Ledgers
  import opened Navs
  import opened NavAvailability

  /** The fund as it looks to a list that names only the chosen mints. */
  ghost function Keeping(s: Ledger, chosen: set<Address>): Ledger {
    s.(listings := map mint | mint in s.listings && mint in chosen :: s.listings[mint])
  }

  lemma KeepingSame(s: Ledger, chosen: set<Address>)
    ensures var kept := Keeping(s, chosen);
            && kept.key == s.key && kept.tokens == s.tokens && kept.vaultSol == s.vaultSol
            && kept.enabledCount == s.enabledCount && kept.limitCount == s.limitCount && kept.dcaCount == s.dcaCount
            && (forall m :: m in kept.listings <==> m in s.listings && m in chosen)
            && (forall m <- kept.listings :: kept.listings[m] == s.listings[m])
  {
  }

  lemma ListedMintKept(s: Ledger, chosen: set<Address>, account: Address)
    ensures ListedMint(Keeping(s, chosen), account)
         == if ListedMint(s, account).Ok? && ListedMint(s, account).value !in chosen then Err(InvalidTokenVault)
            else ListedMint(s, account)
  {
  }

  lemma OrderKept(env: Env, s: Ledger, chosen: set<Address>, sol: Price, mints: seq<Address>, kind: OrderKind,
                  book: map<nat, Escrow>, account: Address, tokenAccount: Address, auth: Address)
    requires forall m <- mints :: m in s.listings && m in chosen
    ensures forall m <- mints :: m in Keeping(s, chosen).listings
    ensures OrderAt(Keeping(s, chosen), kind, book, account) == OrderAt(s, kind, book, account)
    ensures OrderAt(s, kind, book, account).Ok? ==> OrderAt(s, kind, book, account).value in book
    ensures forall e :: OrderValue(env, Keeping(s, chosen), sol, mints, tokenAccount, auth, e)
                     == OrderValue(env, s, sol, mints, tokenAccount, auth, e)
  {
    hide TokenValue;
  }

  lemma {:induction false} NavMintsPrefix(env: Env, s: Ledger, accounts: seq<Address>, n: nat, mints: seq<Address>)
    requires |mints| <= n && |accounts| >= 1 + 3 * n && forall m <- mints :: m in s.listings
    requires NavMints(env, s, accounts, n, mints).Ok?
    ensures mints <= NavMints(env, s, accounts, n, mints).value
    decreases n - |mints|
  {
    if |mints| < n {
      NavMintsPrefix(env, s, accounts, n, mints + [ListedMint(s, accounts[1 + 3 * |mints|]).value]);
    }
  }

  /** The first pass over a list that names chosen mints only. */
  lemma {:induction false} MintsKept(env: Env, s: Ledger, chosen: set<Address>, accounts: seq<Address>, n: nat,
                                     mints: seq<Address>)
    requires |mints| <= n && |accounts| >= 1 + 3 * n
    requires forall m <- mints :: m in s.listings && m in chosen
    ensures NavMints(env, Keeping(s, chosen), accounts, n, mints).Ok? ==>
              NavMints(env, s, accounts, n, mints) == NavMints(env, Keeping(s, chosen), accounts, n, mints)
    ensures NavMints(env, s, accounts, n, mints).Ok?
            && (forall m <- NavMints(env, s, accounts, n, mints).value :: m in chosen) ==>
              NavMints(env, Keeping(s, chosen), accounts, n, mints) == NavMints(env, s, accounts, n, mints)
    decreases n - |mints|
  {
    hide Keeping;
    KeepingSame(s, chosen);
    if |mints| < n {
      ListedMintKept(s, chosen, accounts[1 + 3 * |mints|]);
    }
    if |mints| < n && ListedMint(s, accounts[1 + 3 * |mints|]).Ok? {
      var mint := ListedMint(s, accounts[1 + 3 * |mints|]).value;
      if mint in chosen {
        MintsKept(env, s, chosen, accounts, n, mints + [mint]);
      } else if NavMints(env, s, accounts, n, mints).Ok? {
        NavMintsPrefix(env, s, accounts, n, mints + [mint]);
        assert (mints + [mint])[|mints|] == mint;
      }
    }
  }

  lemma {:induction false} TokensKept(env: Env, s: Ledger, chosen: set<Address>, sol: Price, accounts: seq<Address>,
                                      mints: seq<Address>, i: nat, nav: int)
    requires i <= |mints| && |accounts| >= 1 + 3 * |mints|
    requires forall j :: 0 <= j < |mints| ==>
               mints[j] in s.listings && mints[j] in chosen && accounts[1 + 3 * j] == WhitelistOf(s.key, mints[j])
    ensures NavTokens(env, Keeping(s, chosen), sol, accounts, |mints|, i, nav)
         == NavTokens(env, s, sol, accounts, |mints|, i, nav)
    decreases |mints| - i
  {
    hide TokenValue, Keeping;
    KeepingSame(s, chosen);
    if i < |mints| {
      var mint := mints[i];
      assert ListedMint(s, accounts[1 + 3 * i]) == ListedMint(Keeping(s, chosen), accounts[1 + 3 * i]) == Ok(mint);
      var price := LoadPrice(env, s.listings[mint].feed);
      if mint in s.tokens && price.Ok? {
        var value := TokenValue(s.tokens[mint], s.listings[mint].decimals, price.value, sol);
        if value.Ok? {
          TokensKept(env, s, chosen, sol, accounts, mints, i + 1, nav + value.value);
        }
      }
    }
  }

  lemma {:induction false} OrdersKept(env: Env, s: Ledger, chosen: set<Address>, sol: Price, mints: seq<Address>,
                                      kind: OrderKind, book: map<nat, Escrow>, accounts: seq<Address>, base: nat,
                                      count: nat, i: nat, nav: int)
    requires forall m <- mints :: m in s.listings && m in chosen
    requires i <= count && |accounts| >= base + 3 * count
    ensures NavOrders(env, Keeping(s, chosen), sol, mints, kind, book, accounts, base, count, i, nav)
         == NavOrders(env, s, sol, mints, kind, book, accounts, base, count, i, nav)
    decreases count - i
  {
    hide OrderValue, OrderAt, Keeping;
    KeepingSame(s, chosen);
    if i < count {
      var slot := base + 3 * i;
      OrderKept(env, s, chosen, sol, mints, kind, book, accounts[slot], accounts[slot + 2], AuthOf(accounts[slot]));
      var id := OrderAt(s, kind, book, accounts[slot]);
      if id.Ok? {
        var value := OrderValue(env, s, sol, mints, accounts[slot + 2], AuthOf(accounts[slot]), book[id.value]);
        if value.Ok? {
          OrdersKept(env, s, chosen, sol, mints, kind, book, accounts, base, count, i + 1, nav + value.value);
        }
      }
    }
  }

  lemma HoldingsKept(env: Env, s: Ledger, chosen: set<Address>, sol: Price, mints: seq<Address>, accounts: seq<Address>)
    requires |accounts| == 1 + 3 * s.enabledCount + 3 * s.limitCount + 3 * s.dcaCount && |mints| == s.enabledCount
    requires forall m <- mints :: m in s.listings && m in chosen
    requires forall j :: 0 <= j < |mints| ==> accounts[1 + 3 * j] == WhitelistOf(s.key, mints[j])
    ensures NavHoldings(env, Keeping(s, chosen), sol, mints, accounts) == NavHoldings(env, s, sol, mints, accounts)
  {
    hide NavTokens, NavOrders, LimitBook, DcaBook;
    var kept, base := Keeping(s, chosen), 1 + 3 * s.enabledCount;
    SameBooks(s, chosen);
    TokensKept(env, s, chosen, sol, accounts, mints, 0, s.vaultSol);
    var held := NavTokens(env, s, sol, accounts, s.enabledCount, 0, s.vaultSol);
    if held.Ok? {
      OrdersKept(env, s, chosen, sol, mints, LimitKind, LimitBook(s), accounts, base, s.limitCount, 0, held.value);
      var limits := NavOrders(env, s, sol, mints, LimitKind, LimitBook(s), accounts, base, s.limitCount, 0, held.value);
      if limits.Ok? {
        OrdersKept(env, s, chosen, sol, mints, DcaKind, DcaBook(s), accounts, base + 3 * s.limitCount, s.dcaCount, 0,
                   limits.value);
      }
    }
  }

  lemma SameBooks(s: Ledger, chosen: set<Address>)
    ensures LimitBook(Keeping(s, chosen)) == LimitBook(s) && DcaBook(Keeping(s, chosen)) == DcaBook(s)
  {
  }

  /** A list accepted for the chosen mints is accepted for the fund, with the same result. */
  lemma KeptIsAccepted(env: Env, s: Ledger, chosen: set<Address>, accounts: seq<Address>)
    requires Nav(env, Keeping(s, chosen), accounts).Ok?
    ensures Nav(env, s, accounts) == Nav(env, Keeping(s, chosen), accounts)
  {
    hide NavMints, NavHoldings;
    if s.enabledCount > 0 {
      var kept := Keeping(s, chosen);
      MintsKept(env, s, chosen, accounts, s.enabledCount, []);
      NavMintsSound(env, kept, accounts, s.enabledCount, []);
      var mints := NavMints(env, kept, accounts, s.enabledCount, []).value;
      HoldingsKept(env, s, chosen, LoadPrice(env, env.solFeed).value, mints, accounts);
    }
  }

  /** An accepted list is a list for the mints it names. */
  lemma AcceptedKeeps(env: Env, s: Ledger, accounts: seq<Address>) returns (chosen: set<Address>)
    requires Nav(env, s, accounts).Ok?
    ensures chosen <= s.listings.Keys && |chosen| == s.enabledCount
    ensures Nav(env, Keeping(s, chosen), accounts) == Nav(env, s, accounts)
  {
    hide NavMints, NavHoldings;
    if s.enabledCount == 0 {
      chosen := {};
    } else {
      NavMintsSound(env, s, accounts, s.enabledCount, []);
      var mints := NavMints(env, s, accounts, s.enabledCount, []).value;
      chosen := set m | m in mints;
      DistinctSet(mints);
      MintsKept(env, s, chosen, accounts, s.enabledCount, []);
      HoldingsKept(env, s, chosen, LoadPrice(env, env.solFeed).value, mints, accounts);
    }
  }

  lemma {:induction false} DistinctSet(keys: seq<Address>)
    requires Distinct(keys)
    ensures |set k | k in keys| == |keys|
  {
    var all := set k | k in keys;
    if keys != [] {
      var k, rest := keys[0], keys[1..];
      assert k !in rest;
      assert Distinct(rest) by {
        forall i, j | 0 <= i < j < |rest| ensures rest[i] != rest[j] {
          assert keys[i + 1] != keys[j + 1];
        }
      }
      DistinctSet(rest);
      assert all == (set x | x in rest) + {k};
    }
  }

  lemma KeepingCounts(s: Ledger, chosen: set<Address>)
    requires OrderCountersExact(s) && chosen <= s.listings.Keys && |chosen| == s.enabledCount
    ensures CountersExact(Keeping(s, chosen))
  {
    hide OpenIds;
    var kept := Keeping(s, chosen);
    SameBooks(s, chosen);
    assert kept.listings.Keys == chosen;
    assert |kept.listings| == |kept.listings.Keys|;
  }

  /** Some choice of as many listed mints as the counter says leaves a fund that can be valued,
      and `nav` is its value. */
  ghost predicate Choosable(env: Env, s: Ledger, nav: u64) {
    exists chosen: set<Address> :: Chosen(env, s, chosen, nav)
  }

  ghost predicate Chosen(env: Env, s: Ledger, chosen: set<Address>, nav: u64) {
    && chosen <= s.listings.Keys && |chosen| == s.enabledCount
    && Available(env, Keeping(s, chosen)) && nav == AsU64(SimpleNav(env, Keeping(s, chosen)))
  }

  /** The NAVs a caller can get.  The order counters being exact, a value is returned for some
      account list if and only if it is the value of the fund with some choice of as many listed
      mints as the whitelist counter says.  Where the counter is exact there is one choice; every
      absent removal widens it. */
  lemma CallerChoosesMints(env: Env, s: Ledger, nav: u64)
    requires OrderCountersExact(s) && RanksDiffer(env)
    ensures (exists accounts :: Nav(env, s, accounts) == Ok(nav)) <==> Choosable(env, s, nav)
  {
    hide Nav, SimpleNav, Available, RanksDiffer, OrderCountersExact, CountersExact, ListsHoldings, OpenIds, LimitBook,
         DcaBook;
    if accounts :| Nav(env, s, accounts) == Ok(nav) {
      var chosen := AcceptedKeeps(env, s, accounts);
      KeepingCounts(s, chosen);
      AcceptedIsAvailable(env, Keeping(s, chosen), accounts);
      NavIsSimpleNav(env, Keeping(s, chosen), accounts);
      assert Chosen(env, s, chosen, nav);
    }
    if Choosable(env, s, nav) {
      var chosen: set<Address> :| Chosen(env, s, chosen, nav);
      KeepingCounts(s, chosen);
      NavAvailableIff(env, Keeping(s, chosen));
      var accounts :| Nav(env, Keeping(s, chosen), accounts).Ok?;
      NavIsSimpleNav(env, Keeping(s, chosen), accounts);
      KeptIsAccepted(env, s, chosen, accounts);
      assert Nav(env, s, accounts) == Ok(nav);
    }
  }
}
