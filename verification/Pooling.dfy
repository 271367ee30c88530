/** The NAV of a fund with many SELL orders against the NAV it would have with every mint in one
    vault. */
module Pooling {
  import opened Oracle
  import opened MapSums
  import opened Ledgers
  import opened ExactNavs

  /** Tokens of one mint lying in an order's vault. */
  datatype Lot = Lot(mint: Address, amount: nat)

  ghost function LotsOf(lots: map<nat, Lot>, mint: Address): map<nat, int> {
    map id | id in lots && lots[id].mint == mint :: lots[id].amount
  }

  ghost function Amount(amounts: map<Address, nat>, mint: Address): nat {
    if mint in amounts then amounts[mint] else 0
  }

  /** Every lot poured back into the vault of its mint. */
  ghost function Pour(amounts: map<Address, nat>, lots: map<nat, Lot>, mints: set<Address>): map<Address, nat> {
    map mint | mint in mints :: PouredAmount(amounts, lots, mint)
  }

  ghost function PouredAmount(amounts: map<Address, nat>, lots: map<nat, Lot>, mint: Address): nat {
    SumNonNegative(LotsOf(lots, mint));
    Amount(amounts, mint) + Sum(LotsOf(lots, mint))
  }

  ghost predicate Rates(rates: map<Address, Rate>) {
    forall mint <- rates :: rates[mint].Valid()
  }

  ghost function Values(amounts: map<Address, nat>, rates: map<Address, Rate>): map<Address, int>
    requires Rates(rates)
  {
    map mint | mint in rates :: Floor(Amount(amounts, mint), rates[mint])
  }

  ghost function LotValues(lots: map<nat, Lot>, rates: map<Address, Rate>): map<nat, int>
    requires Rates(rates) && forall id <- lots :: lots[id].mint in rates
  {
    map id | id in lots :: Floor(lots[id].amount, rates[lots[id].mint])
  }

  lemma LotsWithout(lots: map<nat, Lot>, id: nat, mint: Address)
    requires id in lots
    ensures Sum(LotsOf(lots, mint))
         == Sum(LotsOf(lots - {id}, mint)) + if lots[id].mint == mint then lots[id].amount else 0
  {
    hide Sum;
    var all := LotsOf(lots, mint);
    if lots[id].mint == mint {
      assert all - {id} == LotsOf(lots - {id}, mint);
      SumRemove(all, id);
    } else {
      assert all == LotsOf(lots - {id}, mint);
    }
  }

  /** Pouring one lot back. */
  lemma PourOne(amounts: map<Address, nat>, lots: map<nat, Lot>, rates: map<Address, Rate>, id: nat)
    requires Rates(rates) && id in lots && lots[id].mint in rates
    ensures var mint := lots[id].mint;
            var less := PouredAmount(amounts, lots - {id}, mint);
            Sum(Values(Pour(amounts, lots, rates.Keys), rates))
            == Sum(Values(Pour(amounts, lots - {id}, rates.Keys), rates))
               - Floor(less, rates[mint]) + Floor(less + lots[id].amount, rates[mint])
  {
    hide Sum, Floor, LotsOf;
    var mint := lots[id].mint;
    var less, more := Pour(amounts, lots - {id}, rates.Keys), Pour(amounts, lots, rates.Keys);
    forall m <- rates ensures more[m] == less[m] + if m == mint then lots[id].amount else 0 {
      LotsWithout(lots, id, m);
    }
    var was, now := Values(less, rates), Values(more, rates);
    assert now == was[mint := Floor(more[mint], rates[mint])];
    SumUpdate(was, mint, Floor(more[mint], rates[mint]));
  }

  lemma LotValuesWithout(lots: map<nat, Lot>, rates: map<Address, Rate>, id: nat)
    requires Rates(rates) && forall i <- lots :: lots[i].mint in rates
    requires id in lots
    ensures Sum(LotValues(lots, rates))
         == Sum(LotValues(lots - {id}, rates)) + Floor(lots[id].amount, rates[lots[id].mint])
    ensures |lots - {id}| == |lots| - 1
  {
    hide Sum, Floor;
    SumRemove(LotValues(lots, rates), id);
    assert LotValues(lots, rates) - {id} == LotValues(lots - {id}, rates);
    assert (lots - {id}).Keys == lots.Keys - {id};
  }

  /** Valuing `k` lots apart from the vaults loses at most `k` lamports and never gains. */
  lemma {:induction false} PoolingLoss(amounts: map<Address, nat>, lots: map<nat, Lot>, rates: map<Address, Rate>)
    requires Rates(rates) && forall id <- lots :: lots[id].mint in rates
    ensures var pooled := Sum(Values(Pour(amounts, lots, rates.Keys), rates));
            var apart := Sum(Values(amounts, rates)) + Sum(LotValues(lots, rates));
            pooled - |lots| <= apart <= pooled
    decreases |lots|
  {
    hide Sum, Floor, Pour, PouredAmount, Values, LotValues;
    if lots == map[] {
      PourNothing(amounts, lots, rates);
    } else {
      var id :| id in lots;
      var rest, mint := lots - {id}, lots[id].mint;
      PoolingLoss(amounts, rest, rates);
      PourOne(amounts, lots, rates, id);
      FloorSplits(PouredAmount(amounts, rest, mint), lots[id].amount, rates[mint]);
      LotValuesWithout(lots, rates, id);
    }
  }

  lemma PourNothing(amounts: map<Address, nat>, lots: map<nat, Lot>, rates: map<Address, Rate>)
    requires Rates(rates) && lots == map[]
    ensures Sum(Values(Pour(amounts, lots, rates.Keys), rates)) == Sum(Values(amounts, rates))
    ensures Sum(LotValues(lots, rates)) == 0
  {
    hide Sum, Floor;
    EmptySum<nat>();
    assert LotValues(lots, rates) == map[];
    forall mint <- rates ensures Pour(amounts, lots, rates.Keys)[mint] == Amount(amounts, mint) {
      assert LotsOf(lots, mint) == map[];
    }
    assert Values(Pour(amounts, lots, rates.Keys), rates) == Values(amounts, rates);
  }

  // ---- a fund and its books --------------------------------------------------------------------

  ghost function SellLots(book: map<nat, Escrow>): map<nat, Lot> {
    map id | id in OpenIds(book) && book[id].side.Sell? :: Lot(book[id].mint, book[id].token)
  }

  ghost function BuyLamports(book: map<nat, Escrow>): map<nat, int> {
    map id | id in OpenIds(book) && book[id].side.Buy? :: book[id].sol
  }

  ghost function FundRates(env: Env, s: Ledger): (rates: map<Address, Rate>)
    requires forall mint <- s.listings :: Priced(env, s.listings, mint)
    ensures Rates(rates) && rates.Keys == s.listings.Keys
  {
    map mint | mint in s.listings :: MintRate(env, s.listings, mint)
  }

  ghost predicate AllPriced(env: Env, s: Ledger) {
    forall mint <- s.listings :: Priced(env, s.listings, mint)
  }

  /** The lamports, the BUY orders' lamports, and each mint's whole amount valued once. */
  ghost function PooledNav(env: Env, s: Ledger): int
    requires AllPriced(env, s)
  {
    var rates := FundRates(env, s);
    var poured := Pour(Pour(s.tokens, ListedLots(s, LimitBook(s)), rates.Keys), ListedLots(s, DcaBook(s)), rates.Keys);
    s.vaultSol + Sum(BuyLamports(LimitBook(s))) + Sum(BuyLamports(DcaBook(s))) + Sum(Values(poured, rates))
  }

  lemma VaultValues(env: Env, s: Ledger)
    requires AllPriced(env, s)
    ensures ExactTokens(env, s.listings, s.tokens) == Values(s.tokens, FundRates(env, s))
  {
    hide Floor, MintRate;
  }

  /** The orders of listed mints; those of other mints are worth nothing here. */
  ghost function ListedLots(s: Ledger, book: map<nat, Escrow>): map<nat, Lot> {
    map id | id in SellLots(book) && book[id].mint in s.listings :: SellLots(book)[id]
  }

  lemma BookValues(env: Env, s: Ledger, book: map<nat, Escrow>)
    requires AllPriced(env, s)
    ensures forall id <- ListedLots(s, book) :: ListedLots(s, book)[id].mint in FundRates(env, s)
    ensures Sum(ExactBook(env, s.listings, book))
         == Sum(BuyLamports(book)) + Sum(LotValues(ListedLots(s, book), FundRates(env, s)))
  {
    hide Sum, Floor, MintRate;
    var worths, rates := ExactBook(env, s.listings, book), FundRates(env, s);
    var sold := map id | id in SellLots(book) :: worths[id];
    var listed := LotValues(ListedLots(s, book), rates);
    SumPartition(worths, BuyLamports(book), sold);
    SumDominates(listed, sold);
    SumDominates(sold, listed);
  }

  /** With `k` open SELL orders of listed mints, the exact value is within `k` lamports below the
      value of the fund with every mint pooled in one vault, and never above it. */
  lemma NavWithinOneLamportPerSellOrder(env: Env, s: Ledger)
    requires AllPriced(env, s)
    ensures var k := |ListedLots(s, LimitBook(s))| + |ListedLots(s, DcaBook(s))|;
            PooledNav(env, s) - k <= ExactNav(env, s) <= PooledNav(env, s)
  {
    hide Sum, ExactTokens, ExactBook, Values, LotValues, Pour, BuyLamports, ListedLots, LimitBook, DcaBook, FundRates;
    var rates := FundRates(env, s);
    var limitLots, dcaLots := ListedLots(s, LimitBook(s)), ListedLots(s, DcaBook(s));
    VaultValues(env, s);
    BookValues(env, s, LimitBook(s));
    BookValues(env, s, DcaBook(s));
    PoolingLoss(s.tokens, limitLots, rates);
    PoolingLoss(Pour(s.tokens, limitLots, rates.Keys), dcaLots, rates);
  }
}
