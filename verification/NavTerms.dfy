/** The NAV written out: exactly which account lists it accepts, and the sum it returns. */
module NavTerms {
  import opened Results
  import opened Ints
  import opened Oracle
  import opened Ledgers
  import opened Navs
  import opened Ranges
  import opened OrderTerms

  // ---- one listed mint ---------------------------------------------------------------------------

  /** The three accounts of a listed mint are its own, and its vault can be valued. */
  ghost predicate RowRight(env: Env, s: Ledger, mint: Address, record: Address, vault: Address, feed: Address) {
    && record == WhitelistOf(s.key, mint) && vault == Ata(s.key, mint) && mint in s.tokens
    && Quoted(env, s, mint, feed) && Expects(env, s, Sell, mint, feed, s.tokens[mint])
  }

  /** What the vault of a listed mint is worth, or 0 without prices. */
  ghost function RowWorth(env: Env, s: Ledger, mint: Address): nat {
    if mint in s.tokens && mint in s.listings && Quoted(env, s, mint, s.listings[mint].feed)
    then Expected(env, s, Sell, mint, s.listings[mint].feed, s.tokens[mint]) else 0
  }

  lemma ListedMintIff(s: Ledger, record: Address, mint: Address)
    ensures ListedMint(s, record) == Ok(mint) <==> record == WhitelistOf(s.key, mint) && mint in s.listings
  {
  }

  lemma QuotedIff(env: Env, s: Ledger, mint: Address, feed: Address)
    requires LoadPrice(env, env.solFeed).Ok?
    ensures Quoted(env, s, mint, feed)
       <==> mint in s.listings && feed == s.listings[mint].feed && LoadPrice(env, feed).Ok?
    ensures Quoted(env, s, mint, feed) ==>
              && feed in env.oracle && LoadPrice(env, feed).value == env.oracle[feed]
              && env.solFeed in env.oracle && LoadPrice(env, env.solFeed).value == env.oracle[env.solFeed]
  {
  }

  lemma RowValue(env: Env, s: Ledger, mint: Address, sol: Price, feed: Address)
    requires LoadPrice(env, env.solFeed) == Ok(sol) && mint in s.tokens && Quoted(env, s, mint, feed)
    ensures mint in s.listings && feed == s.listings[mint].feed && feed in env.oracle
    ensures LoadPrice(env, feed) == Ok(env.oracle[feed])
    ensures var value := TokenValue(s.tokens[mint], s.listings[mint].decimals, env.oracle[feed], sol);
            && (value.Ok? <==> Expects(env, s, Sell, mint, feed, s.tokens[mint]))
            && (value.Ok? ==> value.value == RowWorth(env, s, mint))
  {
    hide TokenValue, Expects, Expected;
    ExpectedIff(env, s, Sell, mint, feed, s.tokens[mint]);
  }

  // ---- the mints of a list -----------------------------------------------------------------------

  /** The whitelist accounts of the list are of listed mints, in strictly ascending order. */
  ghost predicate MintsAscend(env: Env, s: Ledger, accounts: seq<Address>, n: nat, i: nat)
    requires |accounts| >= 1 + 3 * n
  {
    forall k :: i <= k < n ==> MintAscends(env, s, accounts, k)
  }

  ghost predicate MintAscends(env: Env, s: Ledger, accounts: seq<Address>, k: nat)
    requires |accounts| > 1 + 3 * k
  {
    var record := accounts[1 + 3 * k];
    && record.WhitelistOf? && record.fund == s.key && record.mint in s.listings
    && (k > 0 && accounts[3 * k - 2].WhitelistOf? ==> env.rank(accounts[3 * k - 2].mint) < env.rank(record.mint))
  }

  lemma {:induction false} NavMintsIff(env: Env, s: Ledger, accounts: seq<Address>, n: nat, mints: seq<Address>)
    requires |mints| <= n && |accounts| >= 1 + 3 * n && forall m <- mints :: m in s.listings
    requires forall j :: 0 <= j < |mints| ==> accounts[1 + 3 * j] == WhitelistOf(s.key, mints[j])
    ensures var all := NavMints(env, s, accounts, n, mints);
            && (all.Ok? <==> MintsAscend(env, s, accounts, n, |mints|))
            && (all.Ok? ==> forall j :: 0 <= j < n ==> accounts[1 + 3 * j] == WhitelistOf(s.key, all.value[j]))
    decreases n - |mints|
  {
    var i := |mints|;
    if i < n {
      assert i > 0 ==> accounts[3 * i - 2] == WhitelistOf(s.key, mints[i - 1]) by {
        assert i > 0 ==> accounts[1 + 3 * (i - 1)] == WhitelistOf(s.key, mints[i - 1]);
      }
      if MintAscends(env, s, accounts, i) {
        NavMintsIff(env, s, accounts, n, mints + [accounts[1 + 3 * i].mint]);
      }
    }
  }

  // ---- their vaults ------------------------------------------------------------------------------

  /** The triplets of the list's mints are right, from mint `i` on. */
  ghost predicate VaultsRight(env: Env, s: Ledger, accounts: seq<Address>, n: nat, i: nat)
    requires |accounts| >= 1 + 3 * n
  {
    forall k :: i <= k < n ==> VaultRight(env, s, accounts, k)
  }

  ghost predicate VaultRight(env: Env, s: Ledger, accounts: seq<Address>, k: nat)
    requires |accounts| >= 4 + 3 * k
  {
    var record := accounts[1 + 3 * k];
    record.WhitelistOf? && RowRight(env, s, record.mint, record, accounts[2 + 3 * k], accounts[3 + 3 * k])
  }

  ghost function VaultWorths(env: Env, s: Ledger, accounts: seq<Address>, n: nat, i: nat): nat
    requires i <= n && |accounts| >= 1 + 3 * n
    decreases n - i
  {
    if i == n then 0
    else VaultWorth(env, s, accounts[1 + 3 * i]) + VaultWorths(env, s, accounts, n, i + 1)
  }

  ghost function VaultWorth(env: Env, s: Ledger, record: Address): nat {
    if record.WhitelistOf? then RowWorth(env, s, record.mint) else 0
  }

  lemma VaultStep(env: Env, s: Ledger, sol: Price, accounts: seq<Address>, n: nat, i: nat, nav: int)
    requires i < n && |accounts| >= 1 + 3 * n && LoadPrice(env, env.solFeed) == Ok(sol)
    ensures var all := NavTokens(env, s, sol, accounts, n, i, nav);
            if VaultRight(env, s, accounts, i) then
              all == NavTokens(env, s, sol, accounts, n, i + 1, nav + VaultWorth(env, s, accounts[1 + 3 * i]))
            else all.Err?
  {
    hide TokenValue, RowWorth, Quoted, LoadPrice, ListedMint, Expects;
    if accounts[1 + 3 * i].WhitelistOf? {
      var mint, feed := accounts[1 + 3 * i].mint, accounts[3 + 3 * i];
      ListedMintIff(s, accounts[1 + 3 * i], mint);
      QuotedIff(env, s, mint, feed);
      if mint in s.tokens && Quoted(env, s, mint, feed) {
        RowValue(env, s, mint, sol, feed);
      }
    }
    NoListedMint(s, accounts[1 + 3 * i]);
  }

  lemma NoListedMint(s: Ledger, record: Address)
    ensures ListedMint(s, record).Ok? ==> record.WhitelistOf? && ListedMint(s, record).value == record.mint
  {
  }

  lemma {:induction false} NavTokensIff(env: Env, s: Ledger, sol: Price, accounts: seq<Address>, n: nat, i: nat,
                                        nav: int)
    requires i <= n && |accounts| >= 1 + 3 * n && LoadPrice(env, env.solFeed) == Ok(sol)
    ensures var all := NavTokens(env, s, sol, accounts, n, i, nav);
            && (all.Ok? <==> VaultsRight(env, s, accounts, n, i))
            && (all.Ok? ==> all.value == nav + VaultWorths(env, s, accounts, n, i))
    decreases n - i
  {
    hide VaultRight, VaultWorth, LoadPrice;
    if i < n {
      hide NavTokens;
      VaultStep(env, s, sol, accounts, n, i, nav);
      if VaultRight(env, s, accounts, i) {
        NavTokensIff(env, s, sol, accounts, n, i + 1, nav + VaultWorth(env, s, accounts[1 + 3 * i]));
      }
    }
  }

  // ---- the orders --------------------------------------------------------------------------------

  /** The mints of the first `n` triplets. */
  ghost function MintsOf(accounts: seq<Address>, n: nat): set<Address>
    requires |accounts| >= 1 + 3 * n
  {
    set k | 0 <= k < n && accounts[1 + 3 * k].WhitelistOf? :: accounts[1 + 3 * k].mint
  }

  /** The account is an open order of the fund, above the one before it. */
  ghost predicate OrderThere(env: Env, s: Ledger, kind: OrderKind, book: map<nat, Escrow>, accounts: seq<Address>,
                             base: nat, k: nat)
    requires |accounts| >= base + 3 * k + 3
  {
    var key := accounts[base + 3 * k];
    && key.OrderOf? && key.kind == kind && key.fund == s.key && key.orderId in book && book[key.orderId].status.Open?
    && (k > 0 ==> env.rank(accounts[base + 3 * k - 3]) < env.rank(key))
  }

  /** The tokens of a SELL order are of one of the list's mints and can be valued. */
  ghost predicate SellRight(env: Env, s: Ledger, mints: set<Address>, e: Escrow) {
    && e.mint in mints && e.mint in s.listings && Quoted(env, s, e.mint, s.listings[e.mint].feed)
    && Expects(env, s, Sell, e.mint, s.listings[e.mint].feed, e.token)
  }

  ghost function SellWorth(env: Env, s: Ledger, e: Escrow): nat {
    if e.mint in s.listings && Quoted(env, s, e.mint, s.listings[e.mint].feed)
    then Expected(env, s, Sell, e.mint, s.listings[e.mint].feed, e.token) else 0
  }

  /** The triplet of an order is its account and its two vaults, and a SELL order can be valued. */
  ghost predicate OrderRight(env: Env, s: Ledger, mints: set<Address>, kind: OrderKind, book: map<nat, Escrow>,
                             accounts: seq<Address>, base: nat, k: nat)
    requires |accounts| >= base + 3 * k + 3
  {
    && OrderThere(env, s, kind, book, accounts, base, k)
    && var key := accounts[base + 3 * k];
    var e := book[key.orderId];
    && accounts[base + 3 * k + 1] == SolVaultOf(key)
    && accounts[base + 3 * k + 2] == Ata(AuthOf(key), if e.side.Buy? then Key(0) else e.mint)
    && (e.side.Sell? ==> SellRight(env, s, mints, e))
  }

  /** A BUY order counts with its lamports, a SELL order with what its tokens are worth. */
  ghost function OrderWorth(env: Env, s: Ledger, book: map<nat, Escrow>, key: Address): nat {
    if !key.OrderOf? || key.orderId !in book then 0
    else if book[key.orderId].side.Buy? then book[key.orderId].sol else SellWorth(env, s, book[key.orderId])
  }

  ghost predicate OrdersRight(env: Env, s: Ledger, mints: set<Address>, kind: OrderKind, book: map<nat, Escrow>,
                              accounts: seq<Address>, base: nat, count: nat, i: nat)
    requires |accounts| >= base + 3 * count
  {
    forall k :: i <= k < count ==> OrderRight(env, s, mints, kind, book, accounts, base, k)
  }

  ghost function OrderWorths(env: Env, s: Ledger, book: map<nat, Escrow>, accounts: seq<Address>, base: nat, count: nat,
                             i: nat): nat
    requires i <= count && |accounts| >= base + 3 * count
    decreases count - i
  {
    if i == count then 0
    else OrderWorth(env, s, book, accounts[base + 3 * i]) + OrderWorths(env, s, book, accounts, base, count, i + 1)
  }

  ghost function Members(mints: seq<Address>): set<Address> {
    set m | m in mints
  }

  lemma OrderValueIff(env: Env, s: Ledger, sol: Price, mints: seq<Address>, tokenAccount: Address, auth: Address,
                      e: Escrow)
    requires (forall m <- mints :: m in s.listings) && LoadPrice(env, env.solFeed) == Ok(sol)
    ensures var value := OrderValue(env, s, sol, mints, tokenAccount, auth, e);
            && (value.Ok? <==> && tokenAccount == Ata(auth, if e.side.Buy? then Key(0) else e.mint)
                               && (e.side.Sell? ==> SellRight(env, s, Members(mints), e)))
            && (value.Ok? ==> value.value == if e.side.Buy? then e.sol else SellWorth(env, s, e))
  {
    hide TokenValue, Expects, Expected, Quoted, LoadPrice;
    if e.mint in mints {
      var feed := s.listings[e.mint].feed;
      QuotedIff(env, s, e.mint, feed);
      if Quoted(env, s, e.mint, feed) {
        ExpectedIff(env, s, Sell, e.mint, feed, e.token);
      }
    }
  }

  lemma OrderStep(env: Env, s: Ledger, sol: Price, mints: seq<Address>, kind: OrderKind, book: map<nat, Escrow>,
                  accounts: seq<Address>, base: nat, count: nat, i: nat, nav: int)
    requires (forall m <- mints :: m in s.listings) && LoadPrice(env, env.solFeed) == Ok(sol)
    requires i < count && |accounts| >= base + 3 * count
    ensures var all := NavOrders(env, s, sol, mints, kind, book, accounts, base, count, i, nav);
            if OrderRight(env, s, Members(mints), kind, book, accounts, base, i) then
              all == NavOrders(env, s, sol, mints, kind, book, accounts, base, count, i + 1,
                               nav + OrderWorth(env, s, book, accounts[base + 3 * i]))
            else all.Err?
  {
    hide OrderValue, SellRight, SellWorth, LoadPrice;
    var slot := base + 3 * i;
    var key := accounts[slot];
    if key.OrderOf? && key.orderId in book {
      OrderValueIff(env, s, sol, mints, accounts[slot + 2], AuthOf(key), book[key.orderId]);
    }
  }

  lemma {:induction false} NavOrdersIff(env: Env, s: Ledger, sol: Price, mints: seq<Address>, kind: OrderKind,
                                        book: map<nat, Escrow>, accounts: seq<Address>, base: nat, count: nat, i: nat,
                                        nav: int)
    requires (forall m <- mints :: m in s.listings) && LoadPrice(env, env.solFeed) == Ok(sol)
    requires i <= count && |accounts| >= base + 3 * count
    ensures var all := NavOrders(env, s, sol, mints, kind, book, accounts, base, count, i, nav);
            && (all.Ok? <==> OrdersRight(env, s, Members(mints), kind, book, accounts, base, count, i))
            && (all.Ok? ==> all.value == nav + OrderWorths(env, s, book, accounts, base, count, i))
    decreases count - i
  {
    hide OrderRight, OrderWorth, LoadPrice;
    if i < count {
      hide NavOrders;
      OrderStep(env, s, sol, mints, kind, book, accounts, base, count, i, nav);
      NavOrdersIff(env, s, sol, mints, kind, book, accounts, base, count, i + 1,
                   nav + OrderWorth(env, s, book, accounts[base + 3 * i]));
    }
  }

  // ---- the whole list ----------------------------------------------------------------------------

  /** The list has the form of the fund's counters, its triplets are right, and SOL has a price. */
  ghost predicate ListRight(env: Env, s: Ledger, accounts: seq<Address>) {
    var n := s.enabledCount;
    var base, rest := 1 + 3 * n, 1 + 3 * n + 3 * s.limitCount;
    && |accounts| == rest + 3 * s.dcaCount && accounts[0] == env.solFeed
    && env.solFeed in env.oracle && env.oracle[env.solFeed].price > 0
    && MintsAscend(env, s, accounts, n, 0) && VaultsRight(env, s, accounts, n, 0)
    && OrdersRight(env, s, MintsOf(accounts, n), LimitKind, LimitBook(s), accounts, base, s.limitCount, 0)
    && OrdersRight(env, s, MintsOf(accounts, n), DcaKind, DcaBook(s), accounts, rest, s.dcaCount, 0)
  }

  /** What a list of that form adds up to. */
  ghost function ListTotal(env: Env, s: Ledger, accounts: seq<Address>): nat
    requires |accounts| == 1 + 3 * s.enabledCount + 3 * s.limitCount + 3 * s.dcaCount
  {
    var base := 1 + 3 * s.enabledCount;
    s.vaultSol + VaultWorths(env, s, accounts, s.enabledCount, 0)
    + OrderWorths(env, s, LimitBook(s), accounts, base, s.limitCount, 0)
    + OrderWorths(env, s, DcaBook(s), accounts, base + 3 * s.limitCount, s.dcaCount, 0)
  }

  lemma HoldingsIff(env: Env, s: Ledger, sol: Price, mints: seq<Address>, accounts: seq<Address>)
    requires |accounts| == 1 + 3 * s.enabledCount + 3 * s.limitCount + 3 * s.dcaCount
    requires (forall m <- mints :: m in s.listings) && LoadPrice(env, env.solFeed) == Ok(sol)
    ensures var base, listed := 1 + 3 * s.enabledCount, Members(mints);
            var all := NavHoldings(env, s, sol, mints, accounts);
            && (all.Ok? <==>
                  && VaultsRight(env, s, accounts, s.enabledCount, 0)
                  && OrdersRight(env, s, listed, LimitKind, LimitBook(s), accounts, base, s.limitCount, 0)
                  && OrdersRight(env, s, listed, DcaKind, DcaBook(s), accounts, base + 3 * s.limitCount, s.dcaCount, 0))
            && (all.Ok? ==> all.value == ListTotal(env, s, accounts))
  {
    hide NavTokens, NavOrders, VaultsRight, OrdersRight, VaultWorths, OrderWorths, LimitBook, DcaBook, LoadPrice;
    var base := 1 + 3 * s.enabledCount;
    NavTokensIff(env, s, sol, accounts, s.enabledCount, 0, s.vaultSol);
    var held := s.vaultSol + VaultWorths(env, s, accounts, s.enabledCount, 0);
    NavOrdersIff(env, s, sol, mints, LimitKind, LimitBook(s), accounts, base, s.limitCount, 0, held);
    NavOrdersIff(env, s, sol, mints, DcaKind, DcaBook(s), accounts, base + 3 * s.limitCount, s.dcaCount, 0,
                 held + OrderWorths(env, s, LimitBook(s), accounts, base, s.limitCount, 0));
  }

  lemma MintsOfList(s: Ledger, accounts: seq<Address>, mints: seq<Address>)
    requires |accounts| >= 1 + 3 * |mints|
    requires forall j :: 0 <= j < |mints| ==> accounts[1 + 3 * j] == WhitelistOf(s.key, mints[j])
    ensures Members(mints) == MintsOf(accounts, |mints|)
  {
    forall m | m in mints
      ensures m in MintsOf(accounts, |mints|)
    {
      var j :| 0 <= j < |mints| && mints[j] == m;
      assert accounts[1 + 3 * j].mint == m;
    }
    forall m | m in MintsOf(accounts, |mints|)
      ensures m in mints
    {
      var j :| 0 <= j < |mints| && accounts[1 + 3 * j].WhitelistOf? && accounts[1 + 3 * j].mint == m;
      assert mints[j] == m;
    }
  }

  /** Exactly which lists the NAV accepts, and what it returns: without counted mints or orders the
      empty list, for the vault's lamports; else a list that is right and adds up to something, for
      the low 64 bits of that. */
  lemma NavIff(env: Env, s: Ledger, accounts: seq<Address>)
    ensures var nav := Nav(env, s, accounts);
            if s.enabledCount == 0 then
              && (nav.Ok? <==> accounts == [] && s.limitCount == 0 && s.dcaCount == 0)
              && (nav.Ok? ==> nav.value == s.vaultSol)
            else
              && (nav.Ok? <==> ListRight(env, s, accounts) && ListTotal(env, s, accounts) > 0)
              && (nav.Ok? ==> nav.value == Low64(ListTotal(env, s, accounts)))
  {
    hide NavMints, NavHoldings, ListTotal, MintsAscend, VaultsRight, OrdersRight, LimitBook, DcaBook, Low64, AsU64;
    var n := s.enabledCount;
    if n > 0 && |accounts| == 1 + 3 * n + 3 * s.limitCount + 3 * s.dcaCount {
      NavMintsIff(env, s, accounts, n, []);
      var all := NavMints(env, s, accounts, n, []);
      if all.Ok? && LoadPrice(env, env.solFeed).Ok? {
        MintsOfList(s, accounts, all.value);
        HoldingsIff(env, s, LoadPrice(env, env.solFeed).value, all.value, accounts);
        LowBits(ListTotal(env, s, accounts));
      }
    }
  }
}
