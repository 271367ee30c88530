/** How the exact value of the fund changes when balances move between vaults and escrows. */
module Valuation {
  import opened Ints
  import opened MapSums
  import opened Ledgers
  import opened ExactNavs
  import opened Whitelist

  // ---- one mint --------------------------------------------------------------------------------

  lemma UnlistedIsWorthless(env: Env, listings: map<Address, Listing>, mint: Address, amount: nat)
    requires mint !in listings
    ensures ExactWorth(env, listings, mint, amount) == 0
  {
  }

  // ---- the whole fund ----------------------------------------------------------------------

  ghost function OpenWorth(env: Env, listings: map<Address, Listing>, book: map<nat, Escrow>, id: nat): nat {
    if id in OpenIds(book) then ExactEscrowWorth(env, listings, book[id]) else 0
  }

  lemma TokenWorthsChange(env: Env, listings: map<Address, Listing>, before: map<Address, u64>,
                          after: map<Address, u64>, mint: Address)
    requires forall m :: m != mint ==> Balance(after, m) == Balance(before, m)
    ensures Sum(ExactTokens(env, listings, after)) - ExactWorth(env, listings, mint, Balance(after, mint))
         == Sum(ExactTokens(env, listings, before)) - ExactWorth(env, listings, mint, Balance(before, mint))
  {
    hide Sum, ExactWorth;
    var was, now := ExactTokens(env, listings, before), ExactTokens(env, listings, after);
    if mint in listings {
      assert now == was[mint := ExactWorth(env, listings, mint, Balance(after, mint))];
      SumUpdate(was, mint, ExactWorth(env, listings, mint, Balance(after, mint)));
    } else {
      assert now == was;
      UnlistedIsWorthless(env, listings, mint, Balance(before, mint));
      UnlistedIsWorthless(env, listings, mint, Balance(after, mint));
    }
  }

  lemma BookWithout(env: Env, listings: map<Address, Listing>, book: map<nat, Escrow>, id: nat)
    ensures Sum(ExactBook(env, listings, book)) - OpenWorth(env, listings, book, id)
         == Sum(ExactBook(env, listings, book - {id}))
  {
    hide Sum, ExactEscrowWorth;
    var worths := ExactBook(env, listings, book);
    if id in OpenIds(book) {
      assert ExactBook(env, listings, book - {id}) == worths - {id};
      SumRemove(worths, id);
    } else {
      assert ExactBook(env, listings, book - {id}) == worths;
    }
  }

  lemma LimitBookWithout(s: Ledger, after: Ledger, id: nat)
    requires after.limits - {id} == s.limits - {id}
    ensures LimitBook(after) - {id} == LimitBook(s) - {id}
  {
    forall k | k != id
      ensures k in LimitBook(after) <==> k in LimitBook(s)
      ensures k in LimitBook(s) ==> LimitBook(after)[k] == LimitBook(s)[k]
    {
      assert k in s.limits <==> k in s.limits - {id};
      assert k in after.limits <==> k in after.limits - {id};
      assert k in s.limits ==> s.limits[k] == (s.limits - {id})[k] == (after.limits - {id})[k];
    }
  }

  lemma DcaBookWithout(s: Ledger, after: Ledger, id: nat)
    requires after.dcas - {id} == s.dcas - {id}
    ensures DcaBook(after) - {id} == DcaBook(s) - {id}
  {
    forall k | k != id
      ensures k in DcaBook(after) <==> k in DcaBook(s)
      ensures k in DcaBook(s) ==> DcaBook(after)[k] == DcaBook(s)[k]
    {
      assert k in s.dcas <==> k in s.dcas - {id};
      assert k in after.dcas <==> k in after.dcas - {id};
      assert k in s.dcas ==> s.dcas[k] == (s.dcas - {id})[k] == (after.dcas - {id})[k];
    }
  }

  /** Only the vault's lamports, the vault of one mint and one order changed. */
  ghost predicate LocalChange(s: Ledger, after: Ledger, mint: Address, kind: OrderKind, id: nat) {
    && after.listings == s.listings
    && (forall m :: m != mint ==> Balance(after.tokens, m) == Balance(s.tokens, m))
    && (if kind.LimitKind? then after.limits - {id} == s.limits - {id} && after.dcas == s.dcas
        else after.dcas - {id} == s.dcas - {id} && after.limits == s.limits)
  }

  ghost function BookOf(s: Ledger, kind: OrderKind): map<nat, Escrow> {
    if kind.LimitKind? then LimitBook(s) else DcaBook(s)
  }

  /** What those three are worth. */
  ghost function LocalWorth(env: Env, s: Ledger, mint: Address, kind: OrderKind, id: nat): nat {
    s.vaultSol + ExactWorth(env, s.listings, mint, Balance(s.tokens, mint))
    + OpenWorth(env, s.listings, BookOf(s, kind), id)
  }

  /** The change of the NAV is the change of the parts that changed. */
  lemma NavChange(env: Env, s: Ledger, after: Ledger, mint: Address, kind: OrderKind, id: nat)
    requires LocalChange(s, after, mint, kind, id)
    ensures ExactNav(env, after) - ExactNav(env, s)
         == LocalWorth(env, after, mint, kind, id) - LocalWorth(env, s, mint, kind, id)
  {
    hide Sum, ExactTokens, ExactBook, OpenWorth, ExactWorth, LimitBook, DcaBook, Balance;
    TokenWorthsChange(env, s.listings, s.tokens, after.tokens, mint);
    BookWithout(env, s.listings, BookOf(s, kind), id);
    BookWithout(env, s.listings, BookOf(after, kind), id);
    if kind.LimitKind? {
      LimitBookWithout(s, after, id);
      SameDcaBook(s, after);
    } else {
      DcaBookWithout(s, after, id);
      SameLimitBook(s, after);
    }
  }
}
