/** The exact value of the holdings: every amount at its exact rate, floored once and never cast.

    The handler casts each valuation to 64 bits and the sum again.  Both casts drop multiples of
    2^64, so what it returns is the exact value modulo 2^64. */
module ExactNavs {
  import opened Ints
  import opened Oracle
  import opened MapSums
  import opened Ledgers
  import opened Navs
  import opened NavAvailability

  // ---- one amount ------------------------------------------------------------------------------

  /** The prices a listed mint is valued at are available. */
  ghost predicate Priced(env: Env, listings: map<Address, Listing>, mint: Address) {
    mint in listings && LoadPrice(env, listings[mint].feed).Ok? && LoadPrice(env, env.solFeed).Ok?
  }

  ghost function MintRate(env: Env, listings: map<Address, Listing>, mint: Address): (r: Rate)
    requires Priced(env, listings, mint)
    ensures r.Valid()
  {
    TokenRate(listings[mint].decimals, LoadPrice(env, listings[mint].feed).value, LoadPrice(env, env.solFeed).value)
  }

  /** What `amount` base units of a mint are worth, whatever the size of the result; a mint
      without prices counts for nothing. */
  ghost function ExactWorth(env: Env, listings: map<Address, Listing>, mint: Address, amount: nat): nat {
    if Priced(env, listings, mint) then Floor(amount, MintRate(env, listings, mint)) else 0
  }

  ghost function ExactEscrowWorth(env: Env, listings: map<Address, Listing>, e: Escrow): nat {
    match e.side
    case Buy => e.sol
    case Sell => ExactWorth(env, listings, e.mint, e.token)
  }

  /** A valuation that succeeds is the exact worth, cast. */
  lemma ValueIsCast(env: Env, listings: map<Address, Listing>, mint: Address, amount: u64)
    requires MintValue(env, listings, mint, amount).Ok?
    ensures Priced(env, listings, mint)
    ensures MintValue(env, listings, mint, amount).value == AsU64(ExactWorth(env, listings, mint, amount))
  {
    hide TokenValue, Floor, TokenRate, AsU64;
    TokenValueIsFloor(amount, listings[mint].decimals, LoadPrice(env, listings[mint].feed).value,
                      LoadPrice(env, env.solFeed).value);
  }

  lemma WorthAtMostExact(env: Env, listings: map<Address, Listing>, mint: Address, amount: u64)
    ensures Worth(env, listings, mint, amount) <= ExactWorth(env, listings, mint, amount)
  {
    hide MintValue, ExactWorth;
    if MintValue(env, listings, mint, amount).Ok? {
      ValueIsCast(env, listings, mint, amount);
    }
  }

  /** Splitting an amount between two vaults loses at most one lamport of value. */
  lemma WorthSplits(env: Env, listings: map<Address, Listing>, mint: Address, a: nat, b: nat)
    ensures ExactWorth(env, listings, mint, a) + ExactWorth(env, listings, mint, b)
         <= ExactWorth(env, listings, mint, a + b)
         <= ExactWorth(env, listings, mint, a) + ExactWorth(env, listings, mint, b) + 1
  {
    hide Floor, MintRate;
    if Priced(env, listings, mint) {
      FloorSplits(a, b, MintRate(env, listings, mint));
    }
  }

  // ---- the whole fund ----------------------------------------------------------------------------

  ghost function ExactTokens(env: Env, listings: map<Address, Listing>, tokens: map<Address, u64>): map<Address, int> {
    map mint | mint in listings :: ExactWorth(env, listings, mint, Balance(tokens, mint))
  }

  ghost function ExactBook(env: Env, listings: map<Address, Listing>, book: map<nat, Escrow>): map<nat, int> {
    map id | id in OpenIds(book) :: ExactEscrowWorth(env, listings, book[id])
  }

  /** The fund's lamports, every listed token vault and every open escrow, each at its exact worth. */
  ghost function ExactNav(env: Env, s: Ledger): (nav: nat) {
    SumNonNegative(ExactTokens(env, s.listings, s.tokens));
    SumNonNegative(ExactBook(env, s.listings, LimitBook(s)));
    SumNonNegative(ExactBook(env, s.listings, DcaBook(s)));
    s.vaultSol
    + Sum(ExactTokens(env, s.listings, s.tokens))
    + Sum(ExactBook(env, s.listings, LimitBook(s)))
    + Sum(ExactBook(env, s.listings, DcaBook(s)))
  }

  /** Casting the values of a map drops a multiple of 2^64 from their sum: none exactly when
      every value fits. */
  lemma {:induction false} SumOfCasts<K>(cast: map<K, int>, exact: map<K, int>) returns (wraps: nat)
    requires cast.Keys == exact.Keys
    requires forall k <- exact :: exact[k] >= 0 && cast[k] == AsU64(exact[k])
    ensures Sum(exact) == Sum(cast) + wraps * 0x1_0000_0000_0000_0000
    ensures wraps == 0 <==> forall k <- exact :: exact[k] <= U64_MAX
    decreases |exact|
  {
    hide Sum;
    if exact == map[] {
      assert cast == map[];
      wraps := 0;
    } else {
      var k :| k in exact;
      SumRemove(exact, k);
      SumRemove(cast, k);
      var rest := SumOfCasts(cast - {k}, exact - {k});
      wraps := rest + exact[k] / 0x1_0000_0000_0000_0000;
      assert forall j <- exact :: j == k || (j in exact - {k} && (exact - {k})[j] == exact[j]);
    }
  }

  /** Every holding's exact worth fits 64 bits. */
  ghost predicate AllFit(env: Env, s: Ledger) {
    && (forall mint <- s.listings :: ExactTokens(env, s.listings, s.tokens)[mint] <= U64_MAX)
    && BookFits(env, s.listings, LimitBook(s)) && BookFits(env, s.listings, DcaBook(s))
  }

  ghost predicate BookFits(env: Env, listings: map<Address, Listing>, book: map<nat, Escrow>) {
    forall id <- ExactBook(env, listings, book) :: ExactBook(env, listings, book)[id] <= U64_MAX
  }

  lemma TokensAreCasts(env: Env, s: Ledger)
    requires VaultsPriceable(env, s)
    ensures forall mint <- s.listings ::
              TokenWorths(env, s.listings, s.tokens)[mint] == AsU64(ExactTokens(env, s.listings, s.tokens)[mint])
  {
    hide MintValue, ExactWorth, AsU64;
    forall mint <- s.listings
      ensures Worth(env, s.listings, mint, Balance(s.tokens, mint))
           == AsU64(ExactWorth(env, s.listings, mint, Balance(s.tokens, mint)))
    {
      ValueIsCast(env, s.listings, mint, s.tokens[mint]);
    }
  }

  lemma BookIsCasts(env: Env, listings: map<Address, Listing>, book: map<nat, Escrow>)
    requires BookPriceable(env, listings, book)
    ensures forall id <- OpenIds(book) ::
              BookWorths(env, listings, book)[id] == AsU64(ExactBook(env, listings, book)[id])
  {
    hide MintValue, ExactWorth;
    forall id <- OpenIds(book)
      ensures EscrowWorth(env, listings, book[id]) == AsU64(ExactEscrowWorth(env, listings, book[id]))
    {
      if book[id].side.Sell? {
        ValueIsCast(env, listings, book[id].mint, book[id].token);
      }
    }
  }

  /** Where every holding can be valued, the handler's sum is the exact value less a multiple of
      2^64, and it is the exact value if and only if every valuation fits. */
  lemma SimpleNavIsExactIff(env: Env, s: Ledger) returns (wraps: nat)
    requires Priceable(env, s)
    ensures ExactNav(env, s) == SimpleNav(env, s) + wraps * 0x1_0000_0000_0000_0000
    ensures SimpleNav(env, s) == ExactNav(env, s) <==> AllFit(env, s)
  {
    hide Sum, TokenWorths, ExactTokens, BookWorths, ExactBook, LimitBook, DcaBook, VaultsPriceable, BookPriceable;
    MapKeys(env, s);
    TokensAreCasts(env, s);
    BookIsCasts(env, s.listings, LimitBook(s));
    BookIsCasts(env, s.listings, DcaBook(s));
    var t := SumOfCasts(TokenWorths(env, s.listings, s.tokens), ExactTokens(env, s.listings, s.tokens));
    var l := SumOfCasts(BookWorths(env, s.listings, LimitBook(s)), ExactBook(env, s.listings, LimitBook(s)));
    var d := SumOfCasts(BookWorths(env, s.listings, DcaBook(s)), ExactBook(env, s.listings, DcaBook(s)));
    wraps := t + l + d;
  }

  lemma MapKeys(env: Env, s: Ledger)
    ensures TokenWorths(env, s.listings, s.tokens).Keys == s.listings.Keys
    ensures ExactTokens(env, s.listings, s.tokens).Keys == s.listings.Keys
    ensures BookWorths(env, s.listings, LimitBook(s)).Keys == ExactBook(env, s.listings, LimitBook(s)).Keys
         == OpenIds(LimitBook(s))
    ensures BookWorths(env, s.listings, DcaBook(s)).Keys == ExactBook(env, s.listings, DcaBook(s)).Keys
         == OpenIds(DcaBook(s))
    ensures forall mint <- ExactTokens(env, s.listings, s.tokens) :: ExactTokens(env, s.listings, s.tokens)[mint] >= 0
    ensures forall id <- OpenIds(LimitBook(s)) :: ExactBook(env, s.listings, LimitBook(s))[id] >= 0
    ensures forall id <- OpenIds(DcaBook(s)) :: ExactBook(env, s.listings, DcaBook(s))[id] >= 0
  {
    hide Worth, EscrowWorth, ExactWorth, ExactEscrowWorth, LimitBook, DcaBook;
  }

  lemma CastOfWraps(x: nat, y: nat, wraps: nat)
    requires y == x + wraps * 0x1_0000_0000_0000_0000
    ensures AsU64(y) == AsU64(x)
  {
  }

  lemma NothingListedIsExact(env: Env, s: Ledger)
    requires s.listings == map[] && NoOpenOrders(s)
    ensures ExactNav(env, s) == SimpleNav(env, s) == s.vaultSol
  {
    EmptySum<Address>();
    EmptySum<nat>();
    assert TokenWorths(env, s.listings, s.tokens) == ExactTokens(env, s.listings, s.tokens) == map[];
    assert BookWorths(env, s.listings, LimitBook(s)) == ExactBook(env, s.listings, LimitBook(s)) == map[];
    assert BookWorths(env, s.listings, DcaBook(s)) == ExactBook(env, s.listings, DcaBook(s)) == map[];
  }

  /** The NAV the handler returns on any accepted list is the exact value modulo 2^64; it is the
      exact value if and only if that fits 64 bits. */
  lemma NavIsExactNav(env: Env, s: Ledger, accounts: seq<Address>)
    requires CountersExact(s) && Nav(env, s, accounts).Ok?
    ensures Nav(env, s, accounts).value == AsU64(ExactNav(env, s))
    ensures Nav(env, s, accounts).value == ExactNav(env, s) <==> ExactNav(env, s) <= U64_MAX
  {
    hide Nav, SimpleNav, ExactNav, CountersExact, Priceable, ListsHoldings, NoOpenOrders, AsU64, AllFit;
    NavIsSimpleNav(env, s, accounts);
    AcceptedIsAvailable(env, s, accounts);
    if s.listings == map[] {
      NothingListedIsExact(env, s);
    } else {
      var wraps := SimpleNavIsExactIff(env, s);
      CastOfWraps(SimpleNav(env, s), ExactNav(env, s), wraps);
    }
  }

  // ---- the handler never reports more ------------------------------------------------------------

  lemma {:induction false} SumAtMost<K>(small: map<K, int>, large: map<K, int>)
    requires small.Keys == large.Keys && forall k <- small :: small[k] <= large[k]
    ensures Sum(small) <= Sum(large)
    decreases |small|
  {
    hide Sum;
    if small == map[] {
      assert large == map[];
    } else {
      var k :| k in small;
      SumRemove(small, k);
      SumRemove(large, k);
      SumAtMost(small - {k}, large - {k});
    }
  }

  lemma BookAtMostExact(env: Env, listings: map<Address, Listing>, book: map<nat, Escrow>)
    ensures Sum(BookWorths(env, listings, book)) <= Sum(ExactBook(env, listings, book))
  {
    hide Sum, MintValue, ExactWorth, Worth;
    forall id <- OpenIds(book)
      ensures EscrowWorth(env, listings, book[id]) <= ExactEscrowWorth(env, listings, book[id])
    {
      SellOrBuy(env, listings, book[id]);
      WorthAtMostExact(env, listings, book[id].mint, book[id].token);
    }
    SumAtMost(BookWorths(env, listings, book), ExactBook(env, listings, book));
  }

  lemma SellOrBuy(env: Env, listings: map<Address, Listing>, e: Escrow)
    ensures EscrowWorth(env, listings, e) == if e.side.Buy? then e.sol else Worth(env, listings, e.mint, e.token)
  {
  }

  lemma SimpleNavAtMostExact(env: Env, s: Ledger)
    ensures SimpleNav(env, s) <= ExactNav(env, s)
  {
    hide Sum, Worth, ExactWorth, LimitBook, DcaBook, BookWorths, ExactBook;
    forall mint <- s.listings
      ensures Worth(env, s.listings, mint, Balance(s.tokens, mint))
           <= ExactWorth(env, s.listings, mint, Balance(s.tokens, mint))
    {
      WorthAtMostExact(env, s.listings, mint, Balance(s.tokens, mint));
    }
    SumAtMost(TokenWorths(env, s.listings, s.tokens), ExactTokens(env, s.listings, s.tokens));
    BookAtMostExact(env, s.listings, LimitBook(s));
    BookAtMostExact(env, s.listings, DcaBook(s));
  }
}
