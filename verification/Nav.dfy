/** `compute_nav_lamports`: the net asset value from a list of accounts the caller supplies.

    The caller chooses the list; the counters and the strictly increasing keys are what makes
    it complete.  `Nav` is what the handler computes, `ComputeNav` its loops, and `SimpleNav`
    the sum over the fund's holdings that needs no list at all. */
module Navs {
  import opened Results
  import opened Ints
  import opened Oracle
  import opened MapSums
  import opened Ledgers

  // ---- the sum over the holdings -----------------------------------------------------------

  function MintValue(env: Env, listings: map<Address, Listing>, mint: Address, amount: u64): Result<u64> {
    if mint !in listings then Err(InvalidTokenVault) else
    var price :- LoadPrice(env, listings[mint].feed);
    var sol :- LoadPrice(env, env.solFeed);
    TokenValue(amount, listings[mint].decimals, price, sol)
  }

  function EscrowValue(env: Env, listings: map<Address, Listing>, e: Escrow): Result<u64> {
    match e.side
    case Buy => Ok(e.sol)
    case Sell => MintValue(env, listings, e.mint, e.token)
  }

  ghost function Worth(env: Env, listings: map<Address, Listing>, mint: Address, amount: u64): nat {
    var value := MintValue(env, listings, mint, amount);
    if value.Ok? then value.value else 0
  }

  ghost function EscrowWorth(env: Env, listings: map<Address, Listing>, e: Escrow): nat {
    var value := EscrowValue(env, listings, e);
    if value.Ok? then value.value else 0
  }

  ghost function TokenWorths(env: Env, listings: map<Address, Listing>, tokens: map<Address, u64>): map<Address, int> {
    map mint | mint in listings :: Worth(env, listings, mint, Balance(tokens, mint))
  }

  ghost function BookWorths(env: Env, listings: map<Address, Listing>, book: map<nat, Escrow>): map<nat, int> {
    map id | id in OpenIds(book) :: EscrowWorth(env, listings, book[id])
  }

  /** The fund's lamports, every listed token vault and every open escrow, each valued once. */
  ghost function SimpleNav(env: Env, s: Ledger): (nav: nat) {
    SumNonNegative(TokenWorths(env, s.listings, s.tokens));
    SumNonNegative(BookWorths(env, s.listings, LimitBook(s)));
    SumNonNegative(BookWorths(env, s.listings, DcaBook(s)));
    s.vaultSol
    + Sum(TokenWorths(env, s.listings, s.tokens))
    + Sum(BookWorths(env, s.listings, LimitBook(s)))
    + Sum(BookWorths(env, s.listings, DcaBook(s)))
  }

  // ---- what the handler computes -------------------------------------------------------------

  function ListedMint(s: Ledger, account: Address): Result<Address> {
    if account.WhitelistOf? && account.fund == s.key && account.mint in s.listings
    then Ok(account.mint)
    else Err(InvalidTokenVault)
  }

  function OrderAt(s: Ledger, kind: OrderKind, book: map<nat, Escrow>, account: Address): Result<nat> {
    if account.OrderOf? && account.kind == kind && account.fund == s.key && account.orderId in book
    then Ok(account.orderId)
    else Err(InvalidTokenVault)
  }

  /** The first pass: `mints` are the mints of the whitelist accounts passed so far. */
  function NavMints(env: Env, s: Ledger, accounts: seq<Address>, n: nat, mints: seq<Address>): (r: Result<seq<Address>>)
    requires |mints| <= n && |accounts| >= 1 + 3 * n
    requires forall m <- mints :: m in s.listings
    ensures r.Ok? ==> |r.value| == n && forall m <- r.value :: m in s.listings
    decreases n - |mints|
  {
    if |mints| == n then Ok(mints)
    else
      var mint :- ListedMint(s, accounts[1 + 3 * |mints|]);
      :- Need(mints == [] || env.rank(mints[|mints| - 1]) < env.rank(mint), InvalidWhitelistOrder);
      NavMints(env, s, accounts, n, mints + [mint])
  }

  /** The second pass, from entry `i`: every listed token vault. */
  function NavTokens(env: Env, s: Ledger, sol: Price, accounts: seq<Address>, n: nat, i: nat, nav: int): Result<int>
    requires i <= n && |accounts| >= 1 + 3 * n
    decreases n - i
  {
    if i == n then Ok(nav)
    else
      var mint :- ListedMint(s, accounts[1 + 3 * i]);
      :- Need(accounts[2 + 3 * i] == Ata(s.key, mint) && mint in s.tokens, InvalidTokenVault);
      :- Need(accounts[3 + 3 * i] == s.listings[mint].feed, InvalidOracle);
      var price :- LoadPrice(env, s.listings[mint].feed);
      var value :- TokenValue(s.tokens[mint], s.listings[mint].decimals, price, sol);
      NavTokens(env, s, sol, accounts, n, i + 1, nav + value)
  }

  function OrderValue(env: Env, s: Ledger, sol: Price, mints: seq<Address>, tokenAccount: Address,
                      auth: Address, e: Escrow): Result<u64>
    requires forall m <- mints :: m in s.listings
  {
    match e.side
    case Buy =>
      :- Need(tokenAccount == Ata(auth, NATIVE_MINT), InvalidOrderVault);
      Ok(e.sol)
    case Sell =>
      :- Need(tokenAccount == Ata(auth, e.mint), InvalidOrderVault);
      :- Need(e.mint in mints, InvalidTokenVault);
      var price :- LoadPrice(env, s.listings[e.mint].feed);
      TokenValue(e.token, s.listings[e.mint].decimals, price, sol)
  }

  /** The third and fourth passes, from order `i`: `count` orders starting at `base`. */
  function NavOrders(env: Env, s: Ledger, sol: Price, mints: seq<Address>, kind: OrderKind,
                     book: map<nat, Escrow>, accounts: seq<Address>, base: nat, count: nat, i: nat,
                     nav: int): Result<int>
    requires forall m <- mints :: m in s.listings
    requires i <= count && |accounts| >= base + 3 * count
    decreases count - i
  {
    if i == count then Ok(nav)
    else
      var slot := base + 3 * i;
      var key := accounts[slot];
      :- Need(i == 0 || env.rank(accounts[slot - 3]) < env.rank(key), InvalidRemainingAccounts);
      var id :- OrderAt(s, kind, book, key);
      :- Need(book[id].status.Open?, OrderNotOpen);
      :- Need(accounts[slot + 1] == SolVaultOf(key), InvalidOrderVault);
      var value :- OrderValue(env, s, sol, mints, accounts[slot + 2], AuthOf(key), book[id]);
      NavOrders(env, s, sol, mints, kind, book, accounts, base, count, i + 1, nav + value)
  }

  function Nav(env: Env, s: Ledger, accounts: seq<Address>): Result<u64> {
    if s.enabledCount == 0 then
      :- Need(accounts == [] && s.limitCount == 0 && s.dcaCount == 0, InvalidRemainingAccounts);
      Ok(s.vaultSol)
    else
      var base := 1 + 3 * s.enabledCount;
      :- Need(|accounts| == base + 3 * s.limitCount + 3 * s.dcaCount, InvalidRemainingAccounts);
      var mints :- NavMints(env, s, accounts, s.enabledCount, []);
      :- Need(accounts[0] == env.solFeed, InvalidOracle);
      var sol :- LoadPrice(env, env.solFeed);
      var nav :- NavHoldings(env, s, sol, mints, accounts);
      :- Need(nav > 0, InvalidNav);
      Ok(AsU64(nav))
  }

  /** The passes that add values to the vault's lamports. */
  function NavHoldings(env: Env, s: Ledger, sol: Price, mints: seq<Address>, accounts: seq<Address>): Result<int>
    requires |accounts| == 1 + 3 * s.enabledCount + 3 * s.limitCount + 3 * s.dcaCount
    requires forall m <- mints :: m in s.listings
  {
    var base := 1 + 3 * s.enabledCount;
    var held :- NavTokens(env, s, sol, accounts, s.enabledCount, 0, s.vaultSol);
    var withLimits :- NavOrders(env, s, sol, mints, LimitKind, LimitBook(s), accounts, base, s.limitCount, 0, held);
    NavOrders(env, s, sol, mints, DcaKind, DcaBook(s), accounts,
              base + 3 * s.limitCount, s.dcaCount, 0, withLimits)
  }

  // ---- the loops --------------------------------------------------------------------------

  datatype PriceEntry = PriceEntry(mint: Address, decimals: u8, price: Price)

  const NO_PRICE: Price := Price(0, 0)

  method FindEntry(entries: seq<PriceEntry>, mint: Address) returns (k: nat)
    ensures k <= |entries|
    ensures k < |entries| ==> entries[k].mint == mint
    ensures forall j :: 0 <= j < k ==> entries[j].mint != mint
  {
    k := 0;
    while k < |entries| && entries[k].mint != mint
      invariant k <= |entries|
      invariant forall j :: 0 <= j < k ==> entries[j].mint != mint
    {
      k := k + 1;
    }
  }

  /** Entry `j` of the price table belongs to `mints[j]`; the first `loaded` have their price. */
  ghost predicate Tabulates(env: Env, s: Ledger, mints: seq<Address>, entries: seq<PriceEntry>, loaded: nat) {
    && |entries| == |mints|
    && (forall m <- mints :: m in s.listings)
    && (forall j :: 0 <= j < |mints| ==>
          entries[j].mint == mints[j] && entries[j].decimals == s.listings[mints[j]].decimals)
    && (forall j :: 0 <= j < loaded && j < |mints| ==>
          LoadPrice(env, s.listings[mints[j]].feed) == Ok(entries[j].price))
  }

  method ListMints(env: Env, s: Ledger, accounts: seq<Address>, n: nat) returns (r: Result<seq<PriceEntry>>)
    requires |accounts| >= 1 + 3 * n
    ensures var mints := NavMints(env, s, accounts, n, []);
            match r
            case Ok(entries) => mints.Ok? && Tabulates(env, s, mints.value, entries, 0)
            case Err(e) => mints == Err(e)
  {
    var entries: seq<PriceEntry> := [];
    var prev: Option<Address> := None;
    ghost var mints: seq<Address> := [];
    var idx := 1;
    while idx < 1 + 3 * n
      invariant idx == 1 + 3 * |mints| && |mints| <= n
      invariant prev == if mints == [] then None else Some(mints[|mints| - 1])
      invariant Tabulates(env, s, mints, entries, 0)
      invariant NavMints(env, s, accounts, n, []) == NavMints(env, s, accounts, n, mints)
    {
      var mint :- ListedMint(s, accounts[idx]);
      :- Need(prev.None? || env.rank(prev.value) < env.rank(mint), InvalidWhitelistOrder);
      prev := Some(mint);
      entries := entries + [PriceEntry(mint, s.listings[mint].decimals, NO_PRICE)];
      mints := mints + [mint];
      idx := idx + 3;
    }
    return Ok(entries);
  }

  /** The running sum cannot overflow: at most 65535 64-bit values are ever added. */
  method AddTokens(env: Env, s: Ledger, sol: Price, accounts: seq<Address>, n: nat,
                   entries: seq<PriceEntry>, nav: int, ghost mints: seq<Address>)
    returns (r: Result<(seq<PriceEntry>, int)>)
    requires n <= U16_MAX && |accounts| >= 1 + 3 * n && 0 <= nav < TWO_64
    requires NavMints(env, s, accounts, n, []) == Ok(mints)
    requires Tabulates(env, s, mints, entries, 0)
    ensures var spec := NavTokens(env, s, sol, accounts, n, 0, nav);
            match r
            case Ok(out) => spec == Ok(out.1) && Tabulates(env, s, mints, out.0, n) && 0 <= out.1 <= nav + n * TWO_64
            case Err(e) => spec == Err(e)
  {
    hide TokenValue;
    NavMintsSound(env, s, accounts, n, []);
    var table, sum := entries, nav;
    for i := 0 to n
      invariant Tabulates(env, s, mints, table, i)
      invariant 0 <= sum <= nav + i * TWO_64
      invariant NavTokens(env, s, sol, accounts, n, 0, nav) == NavTokens(env, s, sol, accounts, n, i, sum)
    {
      var mint :- ListedMint(s, accounts[1 + 3 * i]);
      :- Need(accounts[2 + 3 * i] == Ata(s.key, mint) && mint in s.tokens, InvalidTokenVault);
      :- Need(accounts[3 + 3 * i] == s.listings[mint].feed, InvalidOracle);
      var price :- LoadPrice(env, s.listings[mint].feed);
      var value :- TokenValueInLamports(s.tokens[mint], s.listings[mint].decimals, price, sol);
      var k := FindEntry(table, mint);
      assert mints[i] == mint;
      assert k == i;
      if k < |table| {
        table := table[k := table[k].(price := price)];
      }
      // the checked addition of the program cannot overflow here
      assert sum + value <= I128_MAX;
      sum := sum + value;
    }
    return Ok((table, sum));
  }

  method AddOrders(env: Env, s: Ledger, sol: Price, entries: seq<PriceEntry>, ghost mints: seq<Address>,
                   kind: OrderKind, book: map<nat, Escrow>, accounts: seq<Address>, base: nat, count: nat, nav: int)
    returns (r: Result<int>)
    requires count <= U16_MAX && |accounts| >= base + 3 * count && 0 <= nav <= 2 * U16_MAX * TWO_64 + TWO_64
    requires Tabulates(env, s, mints, entries, |mints|)
    ensures r == NavOrders(env, s, sol, mints, kind, book, accounts, base, count, 0, nav)
    ensures r.Ok? ==> 0 <= r.value <= nav + count * TWO_64
  {
    hide TokenValue;
    var sum, slot := nav, base;
    var prev: Option<Address> := None;
    for i := 0 to count
      invariant slot == base + 3 * i
      invariant prev == if i == 0 then None else Some(accounts[slot - 3])
      invariant 0 <= sum <= nav + i * TWO_64
      invariant NavOrders(env, s, sol, mints, kind, book, accounts, base, count, 0, nav)
             == NavOrders(env, s, sol, mints, kind, book, accounts, base, count, i, sum)
    {
      var key, solVault, tokenVault := accounts[slot], accounts[slot + 1], accounts[slot + 2];
      slot := slot + 3;
      :- Need(prev.None? || env.rank(prev.value) < env.rank(key), InvalidRemainingAccounts);
      prev := Some(key);
      var id :- OrderAt(s, kind, book, key);
      var e := book[id];
      :- Need(e.status.Open?, OrderNotOpen);
      :- Need(solVault == SolVaultOf(key), InvalidOrderVault);
      var value: u64 := e.sol;
      match e.side {
        case Buy =>
          :- Need(tokenVault == Ata(AuthOf(key), NATIVE_MINT), InvalidOrderVault);
        case Sell =>
          :- Need(tokenVault == Ata(AuthOf(key), e.mint), InvalidOrderVault);
          var k := FindEntry(entries, e.mint);
          EntryOfMint(env, s, mints, entries, e.mint, k);
          :- Need(k < |entries|, InvalidTokenVault);
          value :- TokenValueInLamports(e.token, entries[k].decimals, entries[k].price, sol);
      }
      // the checked addition of the program cannot overflow here
      assert sum + value <= I128_MAX;
      sum := sum + value;
    }
    return Ok(sum);
  }

  lemma EntryOfMint(env: Env, s: Ledger, mints: seq<Address>, entries: seq<PriceEntry>, mint: Address, k: nat)
    requires Tabulates(env, s, mints, entries, |mints|)
    requires k <= |entries| && (k < |entries| ==> entries[k].mint == mint)
    requires forall j :: 0 <= j < k ==> entries[j].mint != mint
    ensures k < |entries| <==> mint in mints
    ensures k < |entries| ==>
              mint in s.listings && entries[k].decimals == s.listings[mint].decimals
              && LoadPrice(env, s.listings[mint].feed) == Ok(entries[k].price)
  {
    if mint in mints {
      var j :| 0 <= j < |mints| && mints[j] == mint;
      assert entries[j].mint == mint;
    }
  }

  method ComputeNav(env: Env, s: Ledger, accounts: seq<Address>) returns (r: Result<u64>)
    ensures r == Nav(env, s, accounts)
  {
    if s.enabledCount == 0 {
      :- Need(accounts == [] && s.limitCount == 0 && s.dcaCount == 0, InvalidRemainingAccounts);
      return Ok(s.vaultSol);
    }
    var n: nat := s.enabledCount;
    var base := 1 + 3 * n;
    :- Need(|accounts| == base + 3 * s.limitCount + 3 * s.dcaCount, InvalidRemainingAccounts);
    var entries :- ListMints(env, s, accounts, n);
    :- Need(accounts[0] == env.solFeed, InvalidOracle);
    var sol :- LoadPrice(env, env.solFeed);

    ghost var mints := NavMints(env, s, accounts, n, []).value;
    var nav :- AddHoldings(env, s, sol, accounts, entries, mints);
    :- Need(nav > 0, InvalidNav);
    return Ok(AsU64(nav));
  }

  method AddHoldings(env: Env, s: Ledger, sol: Price, accounts: seq<Address>, entries: seq<PriceEntry>,
                     ghost mints: seq<Address>)
    returns (r: Result<int>)
    requires |accounts| == 1 + 3 * s.enabledCount + 3 * s.limitCount + 3 * s.dcaCount
    requires NavMints(env, s, accounts, s.enabledCount, []) == Ok(mints)
    requires Tabulates(env, s, mints, entries, 0)
    ensures r == NavHoldings(env, s, sol, mints, accounts)
  {
    var base := 1 + 3 * s.enabledCount;
    hide TokenValue, OrderValue, NavTokens, NavOrders;
    var priced :- AddTokens(env, s, sol, accounts, s.enabledCount, entries, s.vaultSol, mints);
    var nav :- AddOrders(env, s, sol, priced.0, mints, LimitKind, LimitBook(s), accounts, base, s.limitCount, priced.1);
    r := AddOrders(env, s, sol, priced.0, mints, DcaKind, DcaBook(s), accounts,
                   base + 3 * s.limitCount, s.dcaCount, nav);
  }

  // ---- the list is complete -----------------------------------------------------------------

  ghost predicate Ascending(env: Env, keys: seq<Address>) {
    forall i, j :: 0 <= i < j < |keys| ==> env.rank(keys[i]) < env.rank(keys[j])
  }

  /** The first pass collects the mints of the whitelist accounts in strictly ascending order. */
  lemma NavMintsSound(env: Env, s: Ledger, accounts: seq<Address>, n: nat, mints: seq<Address>)
    requires |mints| <= n && |accounts| >= 1 + 3 * n
    requires Ascending(env, mints) && forall m <- mints :: m in s.listings
    requires forall j :: 0 <= j < |mints| ==> accounts[1 + 3 * j] == WhitelistOf(s.key, mints[j])
    ensures var all := NavMints(env, s, accounts, n, mints);
            all.Ok? ==>
              && |all.value| == n && Ascending(env, all.value) && Distinct(all.value)
              && (forall m <- all.value :: m in s.listings)
              && (forall j :: 0 <= j < n ==> accounts[1 + 3 * j] == WhitelistOf(s.key, all.value[j]))
    decreases n - |mints|
  {
    if |mints| < n && NavMints(env, s, accounts, n, mints).Ok? {
      var mint := ListedMint(s, accounts[1 + 3 * |mints|]).value;
      NavMintsSound(env, s, accounts, n, mints + [mint]);
    }
  }

  /** `keys` names every address of `wanted` exactly once and nothing else. */
  ghost predicate Enumerates(keys: seq<Address>, wanted: set<Address>) {
    Distinct(keys) && forall k :: k in keys <==> k in wanted
  }

  /** Every third account from `base` on. */
  ghost function Column(accounts: seq<Address>, base: nat, count: nat): seq<Address>
    requires |accounts| >= base + 3 * count
  {
    seq(count, i requires 0 <= i < count => accounts[base + 3 * i])
  }

  /** The counters of the fund state agree with the records they count. */
  ghost predicate CountersExact(s: Ledger) {
    && s.enabledCount == |s.listings|
    && OrderCountersExact(s)
  }

  ghost predicate OrderCountersExact(s: Ledger) {
    && s.limitCount == |OpenIds(LimitBook(s))|
    && s.dcaCount == |OpenIds(DcaBook(s))|
  }

  lemma {:induction false} NavTokensSum(env: Env, s: Ledger, sol: Price, accounts: seq<Address>, n: nat,
                                        mints: seq<Address>, i: nat, nav: int)
    requires i <= n == |mints| && |accounts| >= 1 + 3 * n
    requires NavMints(env, s, accounts, n, []) == Ok(mints)
    requires LoadPrice(env, env.solFeed) == Ok(sol)
    requires NavTokens(env, s, sol, accounts, n, i, nav).Ok?
    requires forall m <- mints :: m in s.listings
    ensures NavTokens(env, s, sol, accounts, n, i, nav).value
         == nav + SumSeq(mints[i..], TokenWorths(env, s.listings, s.tokens))
    decreases n - i
  {
    hide TokenValue, NavMints;
    if i < n {
      NavMintsSound(env, s, accounts, n, []);
      var mint := mints[i];
      var price := LoadPrice(env, s.listings[mint].feed).value;
      var value := TokenValue(s.tokens[mint], s.listings[mint].decimals, price, sol).value;
      NavTokensSum(env, s, sol, accounts, n, mints, i + 1, nav + value);
      assert mints[i..][1..] == mints[i + 1..];
    }
  }

  lemma OrderValueIsWorth(env: Env, s: Ledger, sol: Price, mints: seq<Address>, tokenAccount: Address, auth: Address,
                          book: map<nat, Escrow>, id: nat)
    requires forall m <- mints :: m in s.listings
    requires LoadPrice(env, env.solFeed) == Ok(sol) && id in book && book[id].status.Open?
    requires OrderValue(env, s, sol, mints, tokenAccount, auth, book[id]).Ok?
    ensures id in OpenIds(book)
    ensures BookWorths(env, s.listings, book).Keys == OpenIds(book)
    ensures OrderValue(env, s, sol, mints, tokenAccount, auth, book[id]).value == BookWorths(env, s.listings, book)[id]
  {
    hide TokenValue;
  }

  lemma WorthKeys(env: Env, listings: map<Address, Listing>, book: map<nat, Escrow>)
    ensures BookWorths(env, listings, book).Keys == OpenIds(book)
  {
  }

  /** The accounts of the orders from `i` on, as order ids. */
  lemma {:induction false} NavOrdersSum(env: Env, s: Ledger, sol: Price, mints: seq<Address>, kind: OrderKind,
                                        book: map<nat, Escrow>, accounts: seq<Address>, base: nat, count: nat,
                                        i: nat, nav: int)
    returns (ids: seq<nat>)
    requires forall m <- mints :: m in s.listings
    requires i <= count && |accounts| >= base + 3 * count
    requires LoadPrice(env, env.solFeed) == Ok(sol)
    requires NavOrders(env, s, sol, mints, kind, book, accounts, base, count, i, nav).Ok?
    ensures |ids| == count - i && Distinct(ids)
    ensures forall id <- ids :: id in OpenIds(book)
    ensures forall j :: 0 <= j < |ids| ==> accounts[base + 3 * (i + j)] == OrderOf(kind, s.key, ids[j])
    ensures i > 0 ==> forall id <- ids :: env.rank(accounts[base + 3 * i - 3]) < env.rank(OrderOf(kind, s.key, id))
    ensures NavOrders(env, s, sol, mints, kind, book, accounts, base, count, i, nav).value
         == nav + SumSeq(ids, BookWorths(env, s.listings, book))
    decreases count - i
  {
    hide OrderValue, BookWorths, OpenIds;
    WorthKeys(env, s.listings, book);
    if i == count {
      ids := [];
    } else {
      var slot := base + 3 * i;
      var id := OrderAt(s, kind, book, accounts[slot]).value;
      var value := OrderValue(env, s, sol, mints, accounts[slot + 2], AuthOf(accounts[slot]), book[id]).value;
      var rest := NavOrdersSum(env, s, sol, mints, kind, book, accounts, base, count, i + 1, nav + value);
      assert accounts[slot] == OrderOf(kind, s.key, id) && base + 3 * (i + 1) - 3 == slot;
      assert id !in rest;
      OrderValueIsWorth(env, s, sol, mints, accounts[slot + 2], AuthOf(accounts[slot]), book, id);
      ids := [id] + rest;
      assert ids[1..] == rest;
    }
  }

  ghost function ListingAccounts(s: Ledger): set<Address> {
    set m | m in s.listings :: WhitelistOf(s.key, m)
  }

  ghost function OpenOrderAccounts(s: Ledger, kind: OrderKind, book: map<nat, Escrow>): set<Address> {
    set id | id in OpenIds(book) :: OrderOf(kind, s.key, id)
  }

  /** The account list names every listed mint and every open order of the fund, each once. */
  ghost predicate ListsHoldings(s: Ledger, accounts: seq<Address>) {
    var base := 1 + 3 * s.enabledCount;
    && |accounts| == base + 3 * s.limitCount + 3 * s.dcaCount
    && Enumerates(Column(accounts, 1, s.enabledCount), ListingAccounts(s))
    && Enumerates(Column(accounts, base, s.limitCount), OpenOrderAccounts(s, LimitKind, LimitBook(s)))
    && Enumerates(Column(accounts, base + 3 * s.limitCount, s.dcaCount),
                  OpenOrderAccounts(s, DcaKind, DcaBook(s)))
  }

  lemma HeldIsSum(env: Env, s: Ledger, sol: Price, accounts: seq<Address>, mints: seq<Address>, held: int)
    requires |accounts| >= 1 + 3 * s.enabledCount && s.enabledCount == |s.listings|
    requires LoadPrice(env, env.solFeed) == Ok(sol)
    requires NavMints(env, s, accounts, s.enabledCount, []) == Ok(mints)
    requires NavTokens(env, s, sol, accounts, s.enabledCount, 0, s.vaultSol) == Ok(held)
    ensures held == s.vaultSol + Sum(TokenWorths(env, s.listings, s.tokens))
    ensures Enumerates(Column(accounts, 1, s.enabledCount), ListingAccounts(s))
  {
    hide TokenValue, NavTokens, Worth, SumSeq, Sum;
    NavMintsSound(env, s, accounts, s.enabledCount, []);
    NavTokensSum(env, s, sol, accounts, s.enabledCount, mints, 0, s.vaultSol);
    assert mints[0..] == mints;
    var worths := TokenWorths(env, s.listings, s.tokens);
    assert worths.Keys == s.listings.Keys;
    assert |worths| == |worths.Keys|;
    DistinctKeysCover(mints, worths);
    MintsEnumerate(s, accounts, mints);
  }

  lemma OrdersAreSum(env: Env, s: Ledger, sol: Price, mints: seq<Address>, kind: OrderKind, book: map<nat, Escrow>,
                     accounts: seq<Address>, base: nat, count: nat, nav: int)
    requires forall m <- mints :: m in s.listings
    requires |accounts| >= base + 3 * count && count == |OpenIds(book)|
    requires LoadPrice(env, env.solFeed) == Ok(sol)
    requires NavOrders(env, s, sol, mints, kind, book, accounts, base, count, 0, nav).Ok?
    ensures NavOrders(env, s, sol, mints, kind, book, accounts, base, count, 0, nav).value
         == nav + Sum(BookWorths(env, s.listings, book))
    ensures Enumerates(Column(accounts, base, count), OpenOrderAccounts(s, kind, book))
  {
    hide TokenValue, NavOrders, EscrowWorth, SumSeq, Sum;
    var ids := NavOrdersSum(env, s, sol, mints, kind, book, accounts, base, count, 0, nav);
    var worths := BookWorths(env, s.listings, book);
    assert worths.Keys == OpenIds(book);
    assert |worths| == |worths.Keys|;
    DistinctKeysCover(ids, worths);
    OrdersEnumerate(s.key, kind, OpenIds(book), ids, accounts, base);
  }

  /** A list all passes accept, with exact counters. */
  lemma HoldingsAreSum(env: Env, s: Ledger, sol: Price, accounts: seq<Address>, mints: seq<Address>)
    requires CountersExact(s)
    requires |accounts| == 1 + 3 * s.enabledCount + 3 * s.limitCount + 3 * s.dcaCount
    requires LoadPrice(env, env.solFeed) == Ok(sol)
    requires NavMints(env, s, accounts, s.enabledCount, []) == Ok(mints)
    requires NavHoldings(env, s, sol, mints, accounts).Ok?
    ensures NavHoldings(env, s, sol, mints, accounts).value == SimpleNav(env, s)
    ensures ListsHoldings(s, accounts)
  {
    var base := 1 + 3 * s.enabledCount;
    hide TokenValue, OrderValue, NavTokens, NavOrders, NavMints, Enumerates, Column, ListingAccounts,
         OpenOrderAccounts, TokenWorths, BookWorths, Sum, OpenIds, LimitBook, DcaBook;
    var limits, dcas := LimitBook(s), DcaBook(s);
    var held := NavTokens(env, s, sol, accounts, s.enabledCount, 0, s.vaultSol).value;
    var withLimits := NavOrders(env, s, sol, mints, LimitKind, limits, accounts, base, s.limitCount, 0, held).value;
    var nav := NavOrders(env, s, sol, mints, DcaKind, dcas, accounts, base + 3 * s.limitCount, s.dcaCount, 0,
                         withLimits).value;
    HeldIsSum(env, s, sol, accounts, mints, held);
    OrdersAreSum(env, s, sol, mints, LimitKind, limits, accounts, base, s.limitCount, held);
    OrdersAreSum(env, s, sol, mints, DcaKind, dcas, accounts, base + 3 * s.limitCount, s.dcaCount, withLimits);
    assert nav == s.vaultSol + Sum(TokenWorths(env, s.listings, s.tokens))
                  + Sum(BookWorths(env, s.listings, limits)) + Sum(BookWorths(env, s.listings, dcas));
  }

  lemma EmptyFundNav(env: Env, s: Ledger)
    requires CountersExact(s) && s.enabledCount == s.limitCount == s.dcaCount == 0
    ensures SimpleNav(env, s) == s.vaultSol
    ensures s.listings == map[] && OpenIds(LimitBook(s)) == OpenIds(DcaBook(s)) == {}
  {
    assert TokenWorths(env, s.listings, s.tokens) == map[];
    assert BookWorths(env, s.listings, LimitBook(s)) == map[];
    assert BookWorths(env, s.listings, DcaBook(s)) == map[];
  }

  /** NAV completeness.  With exact counters, any list the handler accepts enumerates the
      fund's listed mints, its open limit orders and its open DCA orders, each once, and the
      result is the one sum over the holdings, cast to 64 bits. */
  lemma NavIsSimpleNav(env: Env, s: Ledger, accounts: seq<Address>)
    requires CountersExact(s)
    requires Nav(env, s, accounts).Ok?
    ensures Nav(env, s, accounts).value == AsU64(SimpleNav(env, s))
    ensures if s.enabledCount == 0
            then accounts == [] && s.listings == map[] && OpenIds(LimitBook(s)) == OpenIds(DcaBook(s)) == {}
            else ListsHoldings(s, accounts)
  {
    if s.enabledCount == 0 {
      EmptyFundNav(env, s);
    } else {
      var mints := NavMints(env, s, accounts, s.enabledCount, []).value;
      HoldingsAreSum(env, s, LoadPrice(env, env.solFeed).value, accounts, mints);
    }
  }

  lemma MintsEnumerate(s: Ledger, accounts: seq<Address>, mints: seq<Address>)
    requires |accounts| >= 1 + 3 * |mints| && Distinct(mints)
    requires forall m :: m in mints <==> m in s.listings
    requires forall j :: 0 <= j < |mints| ==> accounts[1 + 3 * j] == WhitelistOf(s.key, mints[j])
    ensures Enumerates(Column(accounts, 1, |mints|), set m | m in s.listings :: WhitelistOf(s.key, m))
  {
    var keys := Column(accounts, 1, |mints|);
    forall i, j | 0 <= i < j < |keys| ensures keys[i] != keys[j] {
      assert mints[i] != mints[j];
    }
    forall k ensures k in keys <==> k in set m | m in s.listings :: WhitelistOf(s.key, m) {
      if k in keys {
        var j :| 0 <= j < |keys| && keys[j] == k;
        assert mints[j] in mints;
      }
      if m :| m in s.listings && k == WhitelistOf(s.key, m) {
        var j :| 0 <= j < |mints| && mints[j] == m;
        assert keys[j] == k;
      }
    }
  }

  lemma OrdersEnumerate(fund: Address, kind: OrderKind, open: set<nat>, ids: seq<nat>, accounts: seq<Address>,
                        base: nat)
    requires |accounts| >= base + 3 * |ids| && Distinct(ids)
    requires forall id :: id in ids <==> id in open
    requires forall j :: 0 <= j < |ids| ==> accounts[base + 3 * j] == OrderOf(kind, fund, ids[j])
    ensures Enumerates(Column(accounts, base, |ids|), set id | id in open :: OrderOf(kind, fund, id))
  {
    var keys := Column(accounts, base, |ids|);
    forall i, j | 0 <= i < j < |keys| ensures keys[i] != keys[j] {
      assert ids[i] != ids[j];
    }
    forall k ensures k in keys <==> k in set id | id in open :: OrderOf(kind, fund, id) {
      if k in keys {
        var j :| 0 <= j < |keys| && keys[j] == k;
        assert ids[j] in ids;
      }
      if id :| id in open && k == OrderOf(kind, fund, id) {
        var j :| 0 <= j < |ids| && ids[j] == id;
        assert keys[j] == k;
      }
    }
  }

  /** Two callers with different account lists get the same NAV. */
  lemma AcceptedListsAgree(env: Env, s: Ledger, a: seq<Address>, b: seq<Address>)
    requires CountersExact(s)
    requires Nav(env, s, a).Ok? && Nav(env, s, b).Ok?
    ensures Nav(env, s, a) == Nav(env, s, b)
  {
    NavIsSimpleNav(env, s, a);
    NavIsSimpleNav(env, s, b);
  }
}
