/** What listing and delisting a mint do to the sum over the holdings. */
module Whitelist {
  import opened Ints
  import opened Oracle
  import opened MapSums
  import opened Ledgers
  import opened Navs
  import opened Steps

  lemma SameLimitBook(s: Ledger, after: Ledger)
    requires after.limits == s.limits
    ensures LimitBook(after) == LimitBook(s)
  {
  }

  lemma SameDcaBook(s: Ledger, after: Ledger)
    requires after.dcas == s.dcas
    ensures DcaBook(after) == DcaBook(s)
  {
  }

  /** No open SELL order of a book holds the mint. */
  ghost predicate NotEscrowed(book: map<nat, Escrow>, mint: Address) {
    forall id <- OpenIds(book) :: book[id].side.Sell? ==> book[id].mint != mint
  }

  lemma BookWorthsElsewhere(env: Env, listings: map<Address, Listing>, other: map<Address, Listing>,
                            book: map<nat, Escrow>, mint: Address)
    requires listings - {mint} == other - {mint} && NotEscrowed(book, mint)
    ensures BookWorths(env, listings, book) == BookWorths(env, other, book)
  {
    hide TokenValue, LoadPrice;
    forall id <- OpenIds(book)
      ensures EscrowWorth(env, listings, book[id]) == EscrowWorth(env, other, book[id])
    {
      OtherListing(env, listings, other, mint, book[id].mint, book[id].token);
    }
  }

  lemma OtherListing(env: Env, listings: map<Address, Listing>, other: map<Address, Listing>, mint: Address,
                     m: Address, amount: u64)
    requires listings - {mint} == other - {mint}
    ensures m != mint ==> MintValue(env, listings, m, amount) == MintValue(env, other, m, amount)
    ensures m != mint ==> (m in listings <==> m in other)
  {
    hide TokenValue;
    assert m != mint ==> (m in listings <==> m in listings - {mint});
    assert m != mint ==> (m in other <==> m in other - {mint});
    assert m != mint && m in listings ==> listings[m] == (listings - {mint})[m] == (other - {mint})[m];
  }

  lemma ListedValue(env: Env, more: map<Address, Listing>, less: map<Address, Listing>, tokens: map<Address, u64>,
                    mint: Address)
    requires mint in more && less == more - {mint}
    ensures Sum(TokenWorths(env, more, tokens))
         == Sum(TokenWorths(env, less, tokens)) + Worth(env, more, mint, Balance(tokens, mint))
  {
    hide Sum, MintValue;
    var all := TokenWorths(env, more, tokens);
    forall m <- less
      ensures Worth(env, less, m, Balance(tokens, m)) == Worth(env, more, m, Balance(tokens, m))
    {
      assert more - {mint} == less - {mint};
      OtherListing(env, more, less, mint, m, Balance(tokens, m));
    }
    assert all - {mint} == TokenWorths(env, less, tokens);
    SumRemove(all, mint);
  }

  /** Listing a mint no order holds adds exactly the value of the fund's vault of that mint. */
  lemma AddTokenNav(at: Env, s: Ledger, signer: Address, mint: Address, listing: Listing)
    requires AddTokenStep(s, signer, mint, listing).Ok?
    requires NotEscrowed(LimitBook(s), mint) && NotEscrowed(DcaBook(s), mint)
    ensures var after := AddTokenStep(s, signer, mint, listing).value;
            SimpleNav(at, after) == SimpleNav(at, s) + Worth(at, after.listings, mint, Balance(s.tokens, mint))
  {
    hide Sum, Worth, BookWorths, NotEscrowed, LimitBook, DcaBook;
    var after := AddTokenStep(s, signer, mint, listing).value;
    assert after.listings - {mint} == s.listings - {mint};
    SameLimitBook(s, after);
    SameDcaBook(s, after);
    BookWorthsElsewhere(at, s.listings, after.listings, LimitBook(s), mint);
    BookWorthsElsewhere(at, s.listings, after.listings, DcaBook(s), mint);
    assert s.listings == after.listings - {mint};
    ListedValue(at, after.listings, s.listings, after.tokens, mint);
    SameBalances(at, s, after);
  }

  lemma SameBalances(at: Env, s: Ledger, after: Ledger)
    requires forall m :: Balance(after.tokens, m) == Balance(s.tokens, m)
    ensures TokenWorths(at, s.listings, after.tokens) == TokenWorths(at, s.listings, s.tokens)
  {
    hide MintValue, Worth;
  }

  /** Delisting a mint no order holds loses nothing: its vault had to be empty. */
  lemma RemoveTokenNav(at: Env, s: Ledger, signer: Address, mint: Address)
    requires RemoveTokenStep(s, signer, mint).Ok?
    requires NotEscrowed(LimitBook(s), mint) && NotEscrowed(DcaBook(s), mint)
    ensures SimpleNav(at, RemoveTokenStep(s, signer, mint).value) == SimpleNav(at, s)
  {
    hide Sum, Worth, BookWorths, NotEscrowed, LimitBook, DcaBook;
    var after := RemoveTokenStep(s, signer, mint).value;
    assert after.listings - {mint} == s.listings - {mint};
    SameLimitBook(s, after);
    SameDcaBook(s, after);
    BookWorthsElsewhere(at, s.listings, after.listings, LimitBook(s), mint);
    BookWorthsElsewhere(at, s.listings, after.listings, DcaBook(s), mint);
    if mint in s.listings {
      ListedValue(at, s.listings, after.listings, s.tokens, mint);
      NothingIsWorthless(at, s.listings, mint);
    } else {
      assert after.listings == s.listings;
    }
  }

  lemma NothingIsWorthless(env: Env, listings: map<Address, Listing>, mint: Address)
    ensures Worth(env, listings, mint, 0) == 0
  {
    hide TokenValue, AsU64;
    if MintValue(env, listings, mint, 0).Ok? {
      TokenValueIsFloor(0, listings[mint].decimals, LoadPrice(env, listings[mint].feed).value,
                        LoadPrice(env, env.solFeed).value);
    }
  }
}
