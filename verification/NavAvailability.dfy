/** When the NAV can be computed at all: exactly when every holding can be valued. */
module NavAvailability {
  import opened Results
  import opened Oracle
  import opened MapSums
  import opened Ledgers
  import opened Navs
  import opened Steps
  import opened Whitelist

  /** Two addresses never have the same bytes. */
  ghost predicate RanksDiffer(env: Env) {
    forall a, b :: env.rank(a) == env.rank(b) ==> a == b
  }

  ghost predicate VaultsPriceable(env: Env, s: Ledger) {
    forall mint <- s.listings :: mint in s.tokens && MintValue(env, s.listings, mint, s.tokens[mint]).Ok?
  }

  ghost predicate BookPriceable(env: Env, listings: map<Address, Listing>, book: map<nat, Escrow>) {
    forall id <- OpenIds(book) ::
      book[id].side.Sell? ==> MintValue(env, listings, book[id].mint, book[id].token).Ok?
  }

  /** Every listed vault and every open SELL escrow has a listed mint, fresh prices and a value
      that does not overflow. */
  ghost predicate Priceable(env: Env, s: Ledger) {
    && LoadPrice(env, env.solFeed).Ok?
    && VaultsPriceable(env, s)
    && BookPriceable(env, s.listings, LimitBook(s))
    && BookPriceable(env, s.listings, DcaBook(s))
  }

  // ---- an accepted list values everything -------------------------------------------------------

  lemma {:induction false} NavTokensPriced(env: Env, s: Ledger, sol: Price, accounts: seq<Address>, n: nat,
                                           mints: seq<Address>, i: nat, nav: int)
    requires i <= n == |mints| && |accounts| >= 1 + 3 * n && LoadPrice(env, env.solFeed) == Ok(sol)
    requires forall j :: 0 <= j < n ==> mints[j] in s.listings && accounts[1 + 3 * j] == WhitelistOf(s.key, mints[j])
    requires NavTokens(env, s, sol, accounts, n, i, nav).Ok?
    ensures forall j :: i <= j < n ==>
              mints[j] in s.tokens && MintValue(env, s.listings, mints[j], s.tokens[mints[j]]).Ok?
    decreases n - i
  {
    hide TokenValue;
    if i < n {
      var mint := mints[i];
      var price := LoadPrice(env, s.listings[mint].feed).value;
      var value := TokenValue(s.tokens[mint], s.listings[mint].decimals, price, sol).value;
      NavTokensPriced(env, s, sol, accounts, n, mints, i + 1, nav + value);
    }
  }

  ghost predicate SlotPriceable(env: Env, listings: map<Address, Listing>, book: map<nat, Escrow>, key: Address) {
    && key.OrderOf? && key.orderId in book
    && (book[key.orderId].side.Sell? ==>
          MintValue(env, listings, book[key.orderId].mint, book[key.orderId].token).Ok?)
  }

  lemma {:induction false} NavOrdersPriced(env: Env, s: Ledger, sol: Price, mints: seq<Address>, kind: OrderKind,
                                           book: map<nat, Escrow>, accounts: seq<Address>, base: nat, count: nat,
                                           i: nat, nav: int)
    requires forall m <- mints :: m in s.listings
    requires i <= count && |accounts| >= base + 3 * count && LoadPrice(env, env.solFeed) == Ok(sol)
    requires NavOrders(env, s, sol, mints, kind, book, accounts, base, count, i, nav).Ok?
    ensures forall j :: i <= j < count ==> SlotPriceable(env, s.listings, book, accounts[base + 3 * j])
    decreases count - i
  {
    hide TokenValue;
    if i < count {
      var slot := base + 3 * i;
      var id := OrderAt(s, kind, book, accounts[slot]).value;
      var value := OrderValue(env, s, sol, mints, accounts[slot + 2], AuthOf(accounts[slot]), book[id]).value;
      NavOrdersPriced(env, s, sol, mints, kind, book, accounts, base, count, i + 1, nav + value);
    }
  }

  lemma BookPriced(env: Env, s: Ledger, sol: Price, mints: seq<Address>, kind: OrderKind, book: map<nat, Escrow>,
                   accounts: seq<Address>, base: nat, count: nat, nav: int)
    requires forall m <- mints :: m in s.listings
    requires |accounts| >= base + 3 * count && count == |OpenIds(book)| && LoadPrice(env, env.solFeed) == Ok(sol)
    requires NavOrders(env, s, sol, mints, kind, book, accounts, base, count, 0, nav).Ok?
    ensures BookPriceable(env, s.listings, book)
  {
    hide NavOrders, MintValue, Sum;
    OrdersAreSum(env, s, sol, mints, kind, book, accounts, base, count, nav);
    NavOrdersPriced(env, s, sol, mints, kind, book, accounts, base, count, 0, nav);
    forall id <- OpenIds(book) | book[id].side.Sell?
      ensures MintValue(env, s.listings, book[id].mint, book[id].token).Ok?
    {
      var column := Column(accounts, base, count);
      assert OrderOf(kind, s.key, id) in OpenOrderAccounts(s, kind, book);
      var j :| 0 <= j < |column| && column[j] == OrderOf(kind, s.key, id);
      assert SlotPriceable(env, s.listings, book, accounts[base + 3 * j]);
    }
  }

  lemma AcceptedIsPriceable(env: Env, s: Ledger, accounts: seq<Address>)
    requires CountersExact(s) && s.enabledCount > 0 && Nav(env, s, accounts).Ok?
    ensures Priceable(env, s) && SimpleNav(env, s) > 0
  {
    hide NavTokens, NavOrders, NavMints, SimpleNav, MintValue, LimitBook, DcaBook, OpenIds, BookPriceable,
         ListsHoldings;
    var base := 1 + 3 * s.enabledCount;
    var mints := NavMints(env, s, accounts, s.enabledCount, []).value;
    var sol := LoadPrice(env, env.solFeed).value;
    HoldingsAreSum(env, s, sol, accounts, mints);
    NavMintsSound(env, s, accounts, s.enabledCount, []);
    NavTokensPriced(env, s, sol, accounts, s.enabledCount, mints, 0, s.vaultSol);
    AllListed(env, s, mints);
    var held := NavTokens(env, s, sol, accounts, s.enabledCount, 0, s.vaultSol).value;
    var withLimits := NavOrders(env, s, sol, mints, LimitKind, LimitBook(s), accounts, base, s.limitCount, 0,
                                held).value;
    BookPriced(env, s, sol, mints, LimitKind, LimitBook(s), accounts, base, s.limitCount, held);
    BookPriced(env, s, sol, mints, DcaKind, DcaBook(s), accounts, base + 3 * s.limitCount, s.dcaCount, withLimits);
  }

  lemma AllListed(env: Env, s: Ledger, mints: seq<Address>)
    requires Distinct(mints) && |mints| == |s.listings| && forall m <- mints :: m in s.listings
    requires forall j :: 0 <= j < |mints| ==>
               mints[j] in s.tokens && MintValue(env, s.listings, mints[j], s.tokens[mints[j]]).Ok?
    ensures VaultsPriceable(env, s)
  {
    hide MintValue, Worth;
    var worths := TokenWorths(env, s.listings, s.tokens);
    assert worths.Keys == s.listings.Keys;
    assert |worths| == |worths.Keys|;
    DistinctKeysCover(mints, worths);
  }

  // ---- a list for every priceable fund ----------------------------------------------------------

  /** The addresses of a set in the order of their bytes. */
  lemma {:induction false} Sorted(env: Env, wanted: set<Address>) returns (keys: seq<Address>)
    requires RanksDiffer(env)
    ensures |keys| == |wanted| && Ascending(env, keys)
    ensures forall k :: k in keys <==> k in wanted
    decreases |wanted|
  {
    if wanted == {} {
      keys := [];
    } else {
      var least := Lowest(env, wanted);
      var rest := Sorted(env, wanted - {least});
      keys := [least] + rest;
      forall i, j | 0 <= i < j < |keys| ensures env.rank(keys[i]) < env.rank(keys[j]) {
        assert keys[j] == rest[j - 1] && rest[j - 1] in rest;
      }
    }
  }

  lemma {:induction false} Lowest(env: Env, wanted: set<Address>) returns (least: Address)
    requires wanted != {} && RanksDiffer(env)
    ensures least in wanted && forall k <- wanted :: k == least || env.rank(least) < env.rank(k)
    decreases |wanted|
  {
    var k :| k in wanted;
    if wanted == {k} {
      least := k;
    } else {
      var other := Lowest(env, wanted - {k});
      least := if env.rank(k) < env.rank(other) then k else other;
    }
  }

  ghost function MintSlots(s: Ledger, mints: seq<Address>): (r: seq<Address>)
    requires forall m <- mints :: m in s.listings
    ensures |r| == 3 * |mints|
  {
    seq(3 * |mints|, k requires 0 <= k < 3 * |mints| =>
      var mint := mints[k / 3];
      if k % 3 == 0 then WhitelistOf(s.key, mint)
      else if k % 3 == 1 then Ata(s.key, mint) else s.listings[mint].feed)
  }

  ghost function OrderSlots(keys: seq<Address>, book: map<nat, Escrow>): (r: seq<Address>)
    requires forall k <- keys :: k.OrderOf? && k.orderId in book
    ensures |r| == 3 * |keys|
  {
    seq(3 * |keys|, k requires 0 <= k < 3 * |keys| =>
      var key := keys[k / 3];
      var e := book[key.orderId];
      if k % 3 == 0 then key
      else if k % 3 == 1 then SolVaultOf(key)
      else Ata(AuthOf(key), if e.side.Buy? then NATIVE_MINT else e.mint))
  }

  /** The token triplets of a list. */
  ghost predicate MintsAt(s: Ledger, list: seq<Address>, mints: seq<Address>) {
    && |list| >= 1 + 3 * |mints| && (forall m <- mints :: m in s.listings)
    && forall j :: 0 <= j < |mints| ==>
         && list[1 + 3 * j] == WhitelistOf(s.key, mints[j]) && list[2 + 3 * j] == Ata(s.key, mints[j])
         && list[3 + 3 * j] == s.listings[mints[j]].feed
  }

  /** The token account an order's triplet must name. */
  ghost function TokenAccountOf(key: Address, e: Escrow): Address {
    Ata(AuthOf(key), if e.side.Buy? then NATIVE_MINT else e.mint)
  }

  /** The order triplets of a list, from `base` on. */
  ghost predicate OrdersAt(list: seq<Address>, base: nat, keys: seq<Address>, book: map<nat, Escrow>) {
    && |list| >= base + 3 * |keys| && (forall k <- keys :: k.OrderOf? && k.orderId in book)
    && forall j :: 0 <= j < |keys| ==>
         && list[base + 3 * j] == keys[j] && list[base + 3 * j + 1] == SolVaultOf(keys[j])
         && list[base + 3 * j + 2] == TokenAccountOf(keys[j], book[keys[j].orderId])
  }

  lemma NextMint(env: Env, s: Ledger, accounts: seq<Address>, n: nat, passed: seq<Address>, mint: Address)
    requires |passed| < n && |accounts| >= 1 + 3 * n && forall m <- passed :: m in s.listings
    requires ListedMint(s, accounts[1 + 3 * |passed|]) == Ok(mint)
    requires passed == [] || env.rank(passed[|passed| - 1]) < env.rank(mint)
    ensures NavMints(env, s, accounts, n, passed) == NavMints(env, s, accounts, n, passed + [mint])
  {
  }

  lemma {:induction false} ListAccepted(env: Env, s: Ledger, accounts: seq<Address>, mints: seq<Address>, i: nat)
    requires i <= |mints| && MintsAt(s, accounts, mints) && Ascending(env, mints)
    ensures NavMints(env, s, accounts, |mints|, mints[..i]) == Ok(mints)
    decreases |mints| - i
  {
    if i == |mints| {
      assert mints[..i] == mints;
    } else {
      hide NavMints;
      ListAccepted(env, s, accounts, mints, i + 1);
      assert mints[..i] + [mints[i]] == mints[..i + 1];
      NextMint(env, s, accounts, |mints|, mints[..i], mints[i]);
    }
  }

  lemma {:induction false} TokensAccepted(env: Env, s: Ledger, sol: Price, accounts: seq<Address>, mints: seq<Address>,
                                          i: nat, nav: int)
    requires i <= |mints| && MintsAt(s, accounts, mints) && LoadPrice(env, env.solFeed) == Ok(sol)
    requires VaultsPriceable(env, s)
    ensures NavTokens(env, s, sol, accounts, |mints|, i, nav).Ok?
    decreases |mints| - i
  {
    hide TokenValue;
    if i < |mints| {
      var mint := mints[i];
      assert MintValue(env, s.listings, mint, s.tokens[mint]).Ok?;
      var price := LoadPrice(env, s.listings[mint].feed).value;
      var value := TokenValue(s.tokens[mint], s.listings[mint].decimals, price, sol).value;
      TokensAccepted(env, s, sol, accounts, mints, i + 1, nav + value);
    }
  }

  lemma {:induction false} OrdersAccepted(env: Env, s: Ledger, sol: Price, mints: seq<Address>, kind: OrderKind,
                                          book: map<nat, Escrow>, keys: seq<Address>, accounts: seq<Address>, base: nat,
                                          i: nat, nav: int)
    requires i <= |keys| && OrdersAt(accounts, base, keys, book) && LoadPrice(env, env.solFeed) == Ok(sol)
    requires forall m :: m in mints <==> m in s.listings
    requires BookPriceable(env, s.listings, book) && Ascending(env, keys) && OpenKeys(s, kind, book, keys)
    ensures NavOrders(env, s, sol, mints, kind, book, accounts, base, |keys|, i, nav).Ok?
    decreases |keys| - i
  {
    hide TokenValue;
    if i < |keys| {
      var key := keys[i];
      var e := book[key.orderId];
      assert i > 0 ==> accounts[base + 3 * i - 3] == accounts[base + 3 * (i - 1)] == keys[i - 1];
      assert e.side.Sell? ==> MintValue(env, s.listings, e.mint, e.token).Ok?;
      var value := OrderValue(env, s, sol, mints, accounts[base + 3 * i + 2], AuthOf(key), e).value;
      OrdersAccepted(env, s, sol, mints, kind, book, keys, accounts, base, i + 1, nav + value);
    }
  }

  /** Accounts of open orders of one book of the fund. */
  ghost predicate OpenKeys(s: Ledger, kind: OrderKind, book: map<nat, Escrow>, keys: seq<Address>) {
    forall k <- keys :: k.OrderOf? && k.kind == kind && k.fund == s.key && k.orderId in OpenIds(book)
  }

  /** Sorting the accounts of a book's open orders. */
  lemma SortedOrders(env: Env, s: Ledger, kind: OrderKind, book: map<nat, Escrow>) returns (keys: seq<Address>)
    requires RanksDiffer(env)
    ensures |keys| == |OpenIds(book)| && Ascending(env, keys) && OpenKeys(s, kind, book, keys)
  {
    keys := Sorted(env, OpenOrderAccounts(s, kind, book));
    OrderAccountsCounted(s, kind, book, OpenIds(book));
  }

  lemma {:induction false} OrderAccountsCounted(s: Ledger, kind: OrderKind, book: map<nat, Escrow>, ids: set<nat>)
    ensures |set id | id in ids :: OrderOf(kind, s.key, id)| == |ids|
    decreases |ids|
  {
    var accounts := set id | id in ids :: OrderOf(kind, s.key, id);
    if ids != {} {
      var id :| id in ids;
      OrderAccountsCounted(s, kind, book, ids - {id});
      var fewer := set k | k in ids - {id} :: OrderOf(kind, s.key, k);
      assert accounts == fewer + {OrderOf(kind, s.key, id)};
    }
  }

  /** The list that names the sorted mints and orders with their vaults and feeds. */
  ghost function FullList(env: Env, s: Ledger, mints: seq<Address>, limits: seq<Address>,
                          dcas: seq<Address>): seq<Address>
    requires forall m <- mints :: m in s.listings
    requires forall k <- limits :: k.OrderOf? && k.orderId in LimitBook(s)
    requires forall k <- dcas :: k.OrderOf? && k.orderId in DcaBook(s)
  {
    [env.solFeed] + MintSlots(s, mints) + OrderSlots(limits, LimitBook(s)) + OrderSlots(dcas, DcaBook(s))
  }

  lemma MintColumn(env: Env, s: Ledger, mints: seq<Address>, rest: seq<Address>)
    requires forall m <- mints :: m in s.listings
    ensures MintsAt(s, [env.solFeed] + MintSlots(s, mints) + rest, mints)
  {
    hide MintSlots;
    var list := [env.solFeed] + MintSlots(s, mints) + rest;
    forall j | 0 <= j < |mints|
      ensures list[1 + 3 * j] == WhitelistOf(s.key, mints[j]) && list[2 + 3 * j] == Ata(s.key, mints[j])
      ensures list[3 + 3 * j] == s.listings[mints[j]].feed
    {
      MintSlotsAt(s, mints, j);
    }
  }

  lemma MintSlotsAt(s: Ledger, mints: seq<Address>, j: nat)
    requires j < |mints| && forall m <- mints :: m in s.listings
    ensures MintSlots(s, mints)[3 * j] == WhitelistOf(s.key, mints[j])
    ensures MintSlots(s, mints)[3 * j + 1] == Ata(s.key, mints[j])
    ensures MintSlots(s, mints)[3 * j + 2] == s.listings[mints[j]].feed
  {
    assert 3 * j / 3 == j && (3 * j + 1) / 3 == j && (3 * j + 2) / 3 == j;
  }

  lemma OrderColumn(before: seq<Address>, keys: seq<Address>, book: map<nat, Escrow>, rest: seq<Address>)
    requires forall k <- keys :: k.OrderOf? && k.orderId in book
    ensures OrdersAt(before + OrderSlots(keys, book) + rest, |before|, keys, book)
  {
    hide OrderSlots, TokenAccountOf;
    var list, base := before + OrderSlots(keys, book) + rest, |before|;
    forall j | 0 <= j < |keys|
      ensures list[base + 3 * j] == keys[j] && list[base + 3 * j + 1] == SolVaultOf(keys[j])
      ensures list[base + 3 * j + 2] == TokenAccountOf(keys[j], book[keys[j].orderId])
    {
      OrderSlotsAt(keys, book, j);
    }
  }

  lemma OrderSlotsAt(keys: seq<Address>, book: map<nat, Escrow>, j: nat)
    requires j < |keys| && forall k <- keys :: k.OrderOf? && k.orderId in book
    ensures OrderSlots(keys, book)[3 * j] == keys[j]
    ensures OrderSlots(keys, book)[3 * j + 1] == SolVaultOf(keys[j])
    ensures OrderSlots(keys, book)[3 * j + 2] == TokenAccountOf(keys[j], book[keys[j].orderId])
  {
    assert 3 * j / 3 == j && (3 * j + 1) / 3 == j && (3 * j + 2) / 3 == j;
  }

  /** The columns of the full list. */
  lemma FullListColumns(env: Env, s: Ledger, mints: seq<Address>, limits: seq<Address>, dcas: seq<Address>)
    requires forall m <- mints :: m in s.listings
    requires forall k <- limits :: k.OrderOf? && k.orderId in LimitBook(s)
    requires forall k <- dcas :: k.OrderOf? && k.orderId in DcaBook(s)
    ensures var list := FullList(env, s, mints, limits, dcas);
            var base := 1 + 3 * |mints|;
            && |list| == base + 3 * |limits| + 3 * |dcas| && list[0] == env.solFeed
            && MintsAt(s, list, mints)
            && OrdersAt(list, base, limits, LimitBook(s))
            && OrdersAt(list, base + 3 * |limits|, dcas, DcaBook(s))
  {
    hide MintSlots, OrderSlots, MintsAt, OrdersAt, LimitBook, DcaBook;
    var list := FullList(env, s, mints, limits, dcas);
    var front := [env.solFeed] + MintSlots(s, mints);
    var middle, back := OrderSlots(limits, LimitBook(s)), OrderSlots(dcas, DcaBook(s));
    assert list == front + (middle + back);
    MintColumn(env, s, mints, middle + back);
    assert list == front + middle + back;
    OrderColumn(front, limits, LimitBook(s), back);
    assert list == (front + middle) + back + [];
    OrderColumn(front + middle, dcas, DcaBook(s), []);
  }

  lemma HoldingsAccepted(env: Env, s: Ledger, sol: Price, mints: seq<Address>, limits: seq<Address>, dcas: seq<Address>,
                         list: seq<Address>)
    requires Priceable(env, s) && LoadPrice(env, env.solFeed) == Ok(sol)
    requires |mints| == s.enabledCount && |limits| == s.limitCount && |dcas| == s.dcaCount
    requires Ascending(env, mints) && Ascending(env, limits) && Ascending(env, dcas)
    requires forall m :: m in mints <==> m in s.listings
    requires OpenKeys(s, LimitKind, LimitBook(s), limits) && OpenKeys(s, DcaKind, DcaBook(s), dcas)
    requires |list| == 1 + 3 * s.enabledCount + 3 * s.limitCount + 3 * s.dcaCount
    requires MintsAt(s, list, mints) && OrdersAt(list, 1 + 3 * |mints|, limits, LimitBook(s))
    requires OrdersAt(list, 1 + 3 * |mints| + 3 * |limits|, dcas, DcaBook(s))
    ensures NavMints(env, s, list, s.enabledCount, []) == Ok(mints)
    ensures NavHoldings(env, s, sol, mints, list).Ok?
  {
    hide NavTokens, NavOrders, NavMints, VaultsPriceable, BookPriceable, Ascending, LimitBook, DcaBook, MintsAt,
         OrdersAt, OpenKeys;
    var base := 1 + 3 * s.enabledCount;
    assert mints[..0] == [];
    ListAccepted(env, s, list, mints, 0);
    TokensAccepted(env, s, sol, list, mints, 0, s.vaultSol);
    var held := NavTokens(env, s, sol, list, s.enabledCount, 0, s.vaultSol).value;
    OrdersAccepted(env, s, sol, mints, LimitKind, LimitBook(s), limits, list, base, 0, held);
    var withLimits := NavOrders(env, s, sol, mints, LimitKind, LimitBook(s), list, base, s.limitCount, 0, held).value;
    OrdersAccepted(env, s, sol, mints, DcaKind, DcaBook(s), dcas, list, base + 3 * s.limitCount, 0, withLimits);
  }

  lemma PriceableIsAccepted(env: Env, s: Ledger) returns (accounts: seq<Address>)
    requires CountersExact(s) && s.enabledCount > 0 && RanksDiffer(env)
    requires Priceable(env, s) && SimpleNav(env, s) > 0
    ensures Nav(env, s, accounts).Ok?
  {
    hide NavTokens, NavOrders, NavMints, NavHoldings, SimpleNav, RanksDiffer, Priceable, Ascending, FullList,
         ListsHoldings, MintsAt, OrdersAt;
    var mints := Sorted(env, s.listings.Keys);
    assert |mints| == s.enabledCount;
    var limits := SortedOrders(env, s, LimitKind, LimitBook(s));
    var dcas := SortedOrders(env, s, DcaKind, DcaBook(s));
    var sol := SolPrice(env, s);
    accounts := FullList(env, s, mints, limits, dcas);
    FullListColumns(env, s, mints, limits, dcas);
    HoldingsAccepted(env, s, sol, mints, limits, dcas, accounts);
    HoldingsAreSum(env, s, sol, accounts, mints);
  }

  lemma SolPrice(env: Env, s: Ledger) returns (sol: Price)
    requires Priceable(env, s)
    ensures LoadPrice(env, env.solFeed) == Ok(sol)
  {
    sol := LoadPrice(env, env.solFeed).value;
  }

  // ---- exactly when ------------------------------------------------------------------------------

  ghost predicate NoOpenOrders(s: Ledger) {
    OpenIds(LimitBook(s)) == {} && OpenIds(DcaBook(s)) == {}
  }

  /** A fund that lists nothing must have no open order of either side; any other must be able
      to value everything it holds. */
  ghost predicate Available(env: Env, s: Ledger) {
    if s.listings == map[] then NoOpenOrders(s) else Priceable(env, s) && SimpleNav(env, s) > 0
  }

  lemma AcceptedIsAvailable(env: Env, s: Ledger, accounts: seq<Address>)
    requires CountersExact(s) && Nav(env, s, accounts).Ok?
    ensures Available(env, s)
  {
    hide NavMints, NavHoldings, SimpleNav, Priceable, LimitBook, DcaBook;
    if s.enabledCount > 0 {
      AcceptedIsPriceable(env, s, accounts);
    }
    assert s.listings == map[] <==> |s.listings| == 0;
  }

  /** Some account list makes the NAV computable, and so deposits and payouts possible, exactly
      when the fund is available.  One stale feed, one delisted mint in an open SELL order, or
      any open order once nothing is listed, blocks them all. */
  lemma NavAvailableIff(env: Env, s: Ledger)
    requires CountersExact(s) && RanksDiffer(env)
    ensures (exists accounts :: Nav(env, s, accounts).Ok?) <==> Available(env, s)
  {
    hide NavMints, NavHoldings, SimpleNav, Priceable, RanksDiffer, LimitBook, DcaBook;
    if accounts :| Nav(env, s, accounts).Ok? {
      AcceptedIsAvailable(env, s, accounts);
    }
    if Available(env, s) {
      if s.listings == map[] {
        assert Nav(env, s, []).Ok?;
      } else {
        var accounts := PriceableIsAccepted(env, s);
        assert Nav(env, s, accounts).Ok?;
      }
    }
  }

  // ---- delisting ---------------------------------------------------------------------------------

  /** What delisting `mint` must not meet: an order that needs it, or, if it is the only mint
      listed, any open order at all. */
  ghost predicate MayDelist(s: Ledger, mint: Address) {
    if s.listings.Keys == {mint} then NoOpenOrders(s)
    else NotEscrowed(LimitBook(s), mint) && NotEscrowed(DcaBook(s), mint)
  }

  lemma DelistedLedger(s: Ledger, mint: Address)
    requires CountersExact(s) && mint in s.listings && mint in s.tokens && s.tokens[mint] == 0
    ensures RemoveTokenStep(s, s.manager, mint).Ok?
    ensures var after := RemoveTokenStep(s, s.manager, mint).value;
            && CountersExact(after) && after.listings == s.listings - {mint}
            && after.tokens == s.tokens && after.limits == s.limits && after.dcas == s.dcas
            && LimitBook(after) == LimitBook(s) && DcaBook(after) == DcaBook(s)
  {
    hide OpenIds;
    assert (s.listings - {mint}).Keys == s.listings.Keys - {mint};
    assert |s.listings - {mint}| == |s.listings| - 1;
    var after := RemoveTokenStep(s, s.manager, mint).value;
    assert LimitBook(after) == LimitBook(s) && DcaBook(after) == DcaBook(s);
  }

  lemma EscrowedIsUnpriceable(env: Env, listings: map<Address, Listing>, book: map<nat, Escrow>, mint: Address)
    requires mint !in listings && !NotEscrowed(book, mint)
    ensures !BookPriceable(env, listings, book)
  {
    hide TokenValue;
    var id :| id in OpenIds(book) && book[id].side.Sell? && book[id].mint == mint;
    assert MintValue(env, listings, book[id].mint, book[id].token).Err?;
  }

  lemma OthersStayPriceable(env: Env, listings: map<Address, Listing>, book: map<nat, Escrow>, mint: Address)
    requires BookPriceable(env, listings, book) && NotEscrowed(book, mint)
    ensures BookPriceable(env, listings - {mint}, book)
  {
    hide MintValue;
    forall id <- OpenIds(book) | book[id].side.Sell?
      ensures MintValue(env, listings - {mint}, book[id].mint, book[id].token).Ok?
    {
      assert (listings - {mint}) - {mint} == listings - {mint};
      OtherListing(env, listings, listings - {mint}, mint, book[id].mint, book[id].token);
    }
  }

  lemma VaultsStayPriceable(env: Env, s: Ledger, after: Ledger, mint: Address)
    requires VaultsPriceable(env, s) && after.listings == s.listings - {mint} && after.tokens == s.tokens
    ensures VaultsPriceable(env, after)
  {
    hide MintValue;
    forall m <- after.listings ensures m in after.tokens && MintValue(env, after.listings, m, after.tokens[m]).Ok? {
      assert after.listings - {mint} == s.listings - {mint};
      OtherListing(env, s.listings, after.listings, mint, m, s.tokens[m]);
    }
  }

  /** Delisting a mint against `MayDelist` succeeds whenever the fund's vault of it is empty, and
      then no account list prices the fund, in any environment: no deposit and no payout is
      possible until the orders in the way are closed or the mint is listed again. */
  lemma DelistingBlocksNav(s: Ledger, mint: Address)
    requires CountersExact(s) && mint in s.listings && mint in s.tokens && s.tokens[mint] == 0
    requires !MayDelist(s, mint)
    ensures RemoveTokenStep(s, s.manager, mint).Ok?
    ensures forall env, accounts :: Nav(env, RemoveTokenStep(s, s.manager, mint).value, accounts).Err?
  {
    hide Nav, RemoveTokenStep, CountersExact, BookPriceable, NotEscrowed, LimitBook, DcaBook, OpenIds, SimpleNav,
         VaultsPriceable;
    DelistedLedger(s, mint);
    var after := RemoveTokenStep(s, s.manager, mint).value;
    LastListing(s.listings, mint);
    forall env, accounts ensures Nav(env, after, accounts).Err? {
      if !NotEscrowed(LimitBook(s), mint) {
        EscrowedIsUnpriceable(env, after.listings, LimitBook(s), mint);
      }
      if !NotEscrowed(DcaBook(s), mint) {
        EscrowedIsUnpriceable(env, after.listings, DcaBook(s), mint);
      }
      if Nav(env, after, accounts).Ok? {
        AcceptedIsAvailable(env, after, accounts);
        assert false;
      }
    }
  }

  lemma LastListing(listings: map<Address, Listing>, mint: Address)
    requires mint in listings
    ensures listings - {mint} == map[] <==> listings.Keys == {mint}
  {
    assert (listings - {mint}).Keys == listings.Keys - {mint};
    assert listings - {mint} == map[] <==> (listings - {mint}).Keys == {};
  }

  /** Exactly when delisting keeps the fund priceable.  If some list is accepted before, some list
      is accepted after the delisting if and only if no open SELL order of either kind holds the
      mint, or, when it was the last mint listed, no order is open at all. */
  lemma DelistingKeepsNavIff(env: Env, s: Ledger, mint: Address, before: seq<Address>)
    requires CountersExact(s) && RanksDiffer(env) && Nav(env, s, before).Ok?
    requires mint in s.listings && RemoveTokenStep(s, s.manager, mint).Ok?
    ensures (exists accounts :: Nav(env, RemoveTokenStep(s, s.manager, mint).value, accounts).Ok?)
       <==> MayDelist(s, mint)
  {
    hide Nav, CountersExact, BookPriceable, NotEscrowed, LimitBook, DcaBook, OpenIds, SimpleNav, VaultsPriceable,
         RanksDiffer;
    DelistedLedger(s, mint);
    var after := RemoveTokenStep(s, s.manager, mint).value;
    AcceptedIsAvailable(env, s, before);
    NavAvailableIff(env, after);
    LastListing(s.listings, mint);
    if !MayDelist(s, mint) {
      DelistingBlocksNav(s, mint);
    } else if s.listings.Keys != {mint} {
      OthersStayPriceable(env, s.listings, LimitBook(s), mint);
      OthersStayPriceable(env, s.listings, DcaBook(s), mint);
      VaultsStayPriceable(env, s, after, mint);
      RemoveTokenNav(env, s, s.manager, mint);
    }
  }

  /** Listing a delisted mint again with the terms it had restores the fund exactly, whatever is
      in escrow. */
  lemma RelistingRestores(s: Ledger, mint: Address)
    requires mint in s.listings && RemoveTokenStep(s, s.manager, mint).Ok?
    ensures AddTokenStep(RemoveTokenStep(s, s.manager, mint).value, s.manager, mint, s.listings[mint]) == Ok(s)
  {
    assert (s.listings - {mint})[mint := s.listings[mint]] == s.listings;
    assert s.tokens[mint := s.tokens[mint]] == s.tokens;
  }
}
