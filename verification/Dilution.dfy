/** Three deposits that dilute: one for each of the casts, and one into a locked fund.

    Tokens without decimals are priced at one.  In the first fund the cast of the one vault's
    valuation drops most of it; in the second the two valuations fit and the cast of their sum
    drops almost all of it; the third has nine tenths of its lamports on loan.  Rents are those of
    the accounts' sizes at 6960 lamports a byte. */
module Dilution {
  import opened Results
  import opened Ints
  import opened Oracle
  import opened MapSums
  import opened Ledgers
  import opened Navs
  import opened NavAvailability
  import opened ExactNavs
  import opened Steps
  import opened Runs
  import opened Invariants
  import opened ShareAccounting
  import opened Escrows
  import opened Transactions

  const FUND: Address := Key(2)
  const MINT: Address := Key(3)
  const MINT_FEED: Address := Key(4)
  const SOL_FEED: Address := Key(5)
  const HOLDER: Address := Key(6)
  const INVESTOR: Address := Key(7)
  const TREASURY: Address := Key(8)
  const SECOND: Address := Key(11)

  const SOL_VAULT_RENT: u64 := 890_880
  const TOKEN_RENT: u64 := 2_039_280
  const ORDER_RENT: u64 := 2_164_560

  ghost function OneMintEnv(sol: Price): Env {
    Env(0, map[MINT_FEED := Price(1, 0), SOL_FEED := sol], SOL_FEED, Key(9), TREASURY, 0, 0, 0, SOL_VAULT_RENT,
        TOKEN_RENT, ORDER_RENT, _ => 0)
  }

  /** `held` shares, `vaultSol` lamports and `amount` base units of the one mint. */
  ghost function OneMintFund(vaultSol: u64, amount: u64, wallet: u64, held: u64): Ledger {
    Ledger(
      key := FUND, config := Key(10), manager := HOLDER, fundType := TradingFund, minDeposit := 0, timelock := 0,
      totalShares := held, enabledCount := 1, limitCount := 0, dcaCount := 0, nextOrderId := 0,
      vaultSol := vaultSol, tokens := map[MINT := amount], listings := map[MINT := Listing(0, MINT_FEED)],
      shares := map[HOLDER := held], shareSupply := held, wallets := map[INVESTOR := wallet],
      limits := map[], dcas := map[], requests := map[], loose := map[],
      trading := UNLOCKED, strategy := None)
  }

  /** A ledger with those holdings and no orders, locked or not. */
  ghost predicate OneMint(s: Ledger, vaultSol: u64, amount: u64) {
    && s.key == FUND && s.enabledCount == 1 && s.limitCount == 0 && s.dcaCount == 0
    && s.vaultSol == vaultSol && s.tokens == map[MINT := amount] && s.listings == map[MINT := Listing(0, MINT_FEED)]
    && s.limits == map[] && s.dcas == map[]
  }

  const ACCOUNTS: seq<Address> := [SOL_FEED, WhitelistOf(FUND, MINT), Ata(FUND, MINT), MINT_FEED]

  lemma OneMintSound(vaultSol: u64, amount: u64, wallet: u64, held: u64)
    ensures var s := OneMintFund(vaultSol, amount, wallet, held); Sound(s) && CountersExact(s)
  {
    hide Sum;
    var s := OneMintFund(vaultSol, amount, wallet, held);
    OneHolder(held);
    assert LimitBook(s) == map[] && DcaBook(s) == map[];
    assert s.listings.Keys == {MINT};
    assert |s.listings| == |s.listings.Keys|;
  }

  lemma OneHolder(held: u64)
    ensures Sum<Address>(map[HOLDER := held]) == held
  {
    hide Sum;
    assert map[HOLDER := held] == map[][HOLDER := held];
    SumUpdate(map[], HOLDER, held);
    EmptySum<Address>();
  }

  /** The handler accepts the one list, whatever the value of the vault. */
  lemma OneMintNav(sol: Price, s: Ledger, vaultSol: u64, amount: u64, value: u64)
    requires OneMint(s, vaultSol, amount) && sol.price > 0
    requires TokenValue(amount, 0, Price(1, 0), sol) == Ok(value) && vaultSol + value > 0
    ensures Nav(OneMintEnv(sol), s, ACCOUNTS) == Ok(AsU64(vaultSol + value))
  {
    hide TokenValue, AsU64;
    var env := OneMintEnv(sol);
    assert ListedMint(s, ACCOUNTS[1]) == Ok(MINT);
    assert NavMints(env, s, ACCOUNTS, 1, [MINT]) == Ok([MINT]);
    assert [] + [MINT] == [MINT];
    assert NavMints(env, s, ACCOUNTS, 1, []) == NavMints(env, s, ACCOUNTS, 1, [MINT]);
    assert LoadPrice(env, SOL_FEED) == Ok(sol) && LoadPrice(env, MINT_FEED) == Ok(Price(1, 0));
    assert NavTokens(env, s, sol, ACCOUNTS, 1, 1, vaultSol + value) == Ok(vaultSol + value);
    assert NavTokens(env, s, sol, ACCOUNTS, 1, 0, vaultSol) == Ok(vaultSol + value);
  }

  lemma OneMintExact(sol: Price, s: Ledger, vaultSol: u64, amount: u64)
    requires OneMint(s, vaultSol, amount) && sol.price > 0
    ensures ExactNav(OneMintEnv(sol), s) == vaultSol + Floor(amount, TokenRate(0, Price(1, 0), sol))
  {
    hide Sum, Floor, TokenRate;
    var env := OneMintEnv(sol);
    EmptySum<Address>();
    EmptySum<nat>();
    var tokens := ExactTokens(env, s.listings, s.tokens);
    assert tokens == map[][MINT := Floor(amount, TokenRate(0, Price(1, 0), sol))];
    SumUpdate(map[], MINT, Floor(amount, TokenRate(0, Price(1, 0), sol)));
    assert ExactBook(env, s.listings, LimitBook(s)) == map[];
    assert ExactBook(env, s.listings, DcaBook(s)) == map[];
  }

  lemma FreeOfFee(amount: nat)
    ensures BpsOf(amount, 0) == 0
  {
  }

  /** A deposit of exactly the NAV the handler computed doubles ten shares. */
  lemma DoublingDeposit(env: Env, s: Ledger, nav: u64, accounts: seq<Address>)
    requires env.depositFeeBps == 0 && s.minDeposit == 0 && s.totalShares == s.shareSupply == 10
    requires s.shares == map[HOLDER := 10] && s.wallets == map[INVESTOR := nav] && env.treasury == TREASURY
    requires Nav(env, s, accounts) == Ok(nav) && nav > 0 && s.vaultSol + nav <= U64_MAX
    ensures DepositStep(env, s, INVESTOR, nav, accounts).Ok?
    ensures DepositStep(env, s, INVESTOR, nav, accounts).value.totalShares == 20
    ensures SplitDeposit(env, s, nav) == Ok(Split(0, nav)) && ProRata(nav, 10, nav) == 10
  {
    hide Nav, ProRata;
    FreeOfFee(nav);
    TenShares(nav);
  }

  lemma TenShares(nav: nat)
    requires nav > 0
    ensures ProRata(nav, 10, nav) == 10
  {
    DivAtLeast(Mul(nav, 10), nav, 10);
    DivBelow(Mul(nav, 10), nav, 11);
  }

  /** A vault of 18446744074 tokens worth 2^64 + 290448384 lamports is valued at the 290448384; with
      the one SOL in the vault, a deposit of 1.29 SOL doubles the shares. */
  lemma TruncatedValuationDilutes()
    ensures var env, s := OneMintEnv(Price(1, 0)), OneMintFund(1_000_000_000, 18_446_744_074, 1_290_448_384, 10);
            var deposit := DepositStep(env, s, INVESTOR, 1_290_448_384, ACCOUNTS);
            && Sound(s) && CountersExact(s)
            && SimpleNav(env, s) == 1_290_448_384 && ExactNav(env, s) == 18_446_744_075_000_000_000
            && deposit.Ok? && deposit.value.totalShares == 20
            && !PriceKept(env, s, deposit.value)
  {
    hide DepositStep, Nav, ExactNav, SimpleNav, Sound, CountersExact, SplitDeposit;
    var sol, vaultSol, held, paid: u64 := Price(1, 0), 1_000_000_000, 18_446_744_074, 1_290_448_384;
    var env, s := OneMintEnv(sol), OneMintFund(vaultSol, held, paid, 10);
    OneMintSound(vaultSol, held, paid, 10);
    BigVault();
    OneMintNav(sol, s, vaultSol, held, 290_448_384);
    OneMintExact(sol, s, vaultSol, held);
    OneMintSimple(sol, s, vaultSol, held, 290_448_384);
    DoublingDeposit(env, s, paid, ACCOUNTS);
    DepositKeepsPriceIff(env, s, INVESTOR, paid, ACCOUNTS);
  }

  lemma BigVault()
    ensures TokenValue(18_446_744_074, 0, Price(1, 0), Price(1, 0)) == Ok(290_448_384)
    ensures Floor(18_446_744_074, TokenRate(0, Price(1, 0), Price(1, 0))) == 18_446_744_074_000_000_000
  {
    assert Pow10(0) == 1;
    assert 18_446_744_074_000_000_000 % 0x1_0000_0000_0000_0000 == 290_448_384;
  }

  lemma OneMintSimple(sol: Price, s: Ledger, vaultSol: u64, amount: u64, value: u64)
    requires OneMint(s, vaultSol, amount) && sol.price > 0 && TokenValue(amount, 0, Price(1, 0), sol) == Ok(value)
    ensures SimpleNav(OneMintEnv(sol), s) == vaultSol + value
  {
    hide Sum, TokenValue;
    var env := OneMintEnv(sol);
    EmptySum<Address>();
    EmptySum<nat>();
    assert TokenWorths(env, s.listings, s.tokens) == map[][MINT := value];
    SumUpdate(map[], MINT, value);
    assert BookWorths(env, s.listings, LimitBook(s)) == map[];
    assert BookWorths(env, s.listings, DcaBook(s)) == map[];
  }

  lemma UnitVault(amount: u64)
    ensures TokenValue(amount, 0, Price(1, 0), Price(1, 9)) == Ok(amount)
    ensures Floor(amount, TokenRate(0, Price(1, 0), Price(1, 9))) == amount
  {
    assert Pow10(9) == 1_000_000_000;
    assert amount * 1_000_000_000 / 1_000_000_000 == amount;
  }

  // ---- two mints -----------------------------------------------------------------------------------

  const HALF: u64 := 0x8000_0000_0000_0000
  const ONE_SOL: u64 := 1_000_000_000

  /** One SOL and two vaults worth 2^63 lamports each. */
  ghost function TwoMintFund(): Ledger {
    OneMintFund(ONE_SOL, HALF, ONE_SOL, 10).(
      enabledCount := 2, tokens := map[MINT := HALF, SECOND := HALF],
      listings := map[MINT := Listing(0, MINT_FEED), SECOND := Listing(0, MINT_FEED)])
  }

  const TWO_ACCOUNTS: seq<Address> :=
    ACCOUNTS + [WhitelistOf(FUND, SECOND), Ata(FUND, SECOND), MINT_FEED]

  lemma TwoMintSound()
    ensures Sound(TwoMintFund()) && CountersExact(TwoMintFund())
  {
    hide Sum;
    var s := TwoMintFund();
    OneHolder(10);
    assert LimitBook(s) == map[] && DcaBook(s) == map[];
    assert s.listings.Keys == {MINT, SECOND};
    assert |s.listings| == |s.listings.Keys|;
  }

  /** The second mint's address comes after the first's. */
  ghost function TwoMintEnv(): Env {
    OneMintEnv(Price(1, 9)).(rank := a => if a == SECOND then 1 else 0)
  }

  lemma TwoMintList(env: Env)
    requires env.rank(MINT) < env.rank(SECOND)
    ensures NavMints(env, TwoMintFund(), TWO_ACCOUNTS, 2, []) == Ok([MINT, SECOND])
  {
    var s := TwoMintFund();
    NextMint(env, s, TWO_ACCOUNTS, 2, [], MINT);
    NextMint(env, s, TWO_ACCOUNTS, 2, [MINT], SECOND);
    assert [] + [MINT] == [MINT] && [MINT] + [SECOND] == [MINT, SECOND];
  }

  lemma TwoMintTokens(env: Env)
    requires LoadPrice(env, MINT_FEED) == Ok(Price(1, 0))
    ensures NavTokens(env, TwoMintFund(), Price(1, 9), TWO_ACCOUNTS, 2, 0, ONE_SOL) == Ok(ONE_SOL + 2 * HALF)
  {
    hide TokenValue, LoadPrice;
    var s, sol := TwoMintFund(), Price(1, 9);
    UnitVault(HALF);
    assert NavTokens(env, s, sol, TWO_ACCOUNTS, 2, 2, ONE_SOL + 2 * HALF) == Ok(ONE_SOL + 2 * HALF);
    assert NavTokens(env, s, sol, TWO_ACCOUNTS, 2, 1, ONE_SOL + HALF) == Ok(ONE_SOL + 2 * HALF);
  }

  lemma TwoMintNav(env: Env)
    requires env == TwoMintEnv()
    ensures Nav(env, TwoMintFund(), TWO_ACCOUNTS) == Ok(ONE_SOL)
  {
    hide NavMints, NavTokens;
    TwoMintList(env);
    TwoMintTokens(env);
  }

  lemma TwoMintWorth(env: Env, mint: Address)
    requires env == TwoMintEnv() && (mint == MINT || mint == SECOND)
    ensures ExactWorth(env, TwoMintFund().listings, mint, HALF) == HALF
  {
    hide Floor, TokenRate;
    UnitVault(HALF);
  }

  lemma TwoMintValues(env: Env)
    requires env == TwoMintEnv()
    ensures ExactNav(env, TwoMintFund()) == 0x1_0000_0000_0000_0000 + ONE_SOL && AllFit(env, TwoMintFund())
  {
    hide Sum, ExactWorth, TwoMintEnv;
    var s := TwoMintFund();
    TwoMintWorth(env, MINT);
    TwoMintWorth(env, SECOND);
    EmptySum<Address>();
    EmptySum<nat>();
    var first: map<Address, int> := map[][MINT := HALF];
    assert ExactTokens(env, s.listings, s.tokens) == first[SECOND := HALF];
    SumUpdate(map[], MINT, HALF);
    SumUpdate(first, SECOND, HALF);
    assert ExactBook(env, s.listings, LimitBook(s)) == map[];
    assert ExactBook(env, s.listings, DcaBook(s)) == map[];
  }

  /** Two vaults worth 2^63 lamports each and one SOL make 2^64 + 10^9, which the handler takes for
      the one SOL; a deposit of another doubles the shares. */
  lemma TruncatedNavDilutes()
    ensures var env, s := TwoMintEnv(), TwoMintFund();
            var deposit := DepositStep(env, s, INVESTOR, ONE_SOL, TWO_ACCOUNTS);
            && Sound(s) && CountersExact(s) && AllFit(env, s)
            && ExactNav(env, s) == 0x1_0000_0000_0000_0000 + ONE_SOL && Nav(env, s, TWO_ACCOUNTS) == Ok(ONE_SOL)
            && deposit.Ok? && deposit.value.totalShares == 20
            && !PriceKept(env, s, deposit.value)
  {
    hide DepositStep, Nav, ExactNav, Sound, CountersExact, SplitDeposit, AllFit;
    var env, s := TwoMintEnv(), TwoMintFund();
    TwoMintSound();
    TwoMintNav(env);
    TwoMintValues(env);
    DoublingDeposit(env, s, ONE_SOL, TWO_ACCOUNTS);
    DepositKeepsPriceIff(env, s, INVESTOR, ONE_SOL, TWO_ACCOUNTS);
  }

  // ---- a locked fund -----------------------------------------------------------------------------

  const SETTLE_ACCOUNTS: seq<Address> :=
    [HOLDER, Key(10), FUND, TradingOf(FUND), VaultOf(FUND), WhitelistOf(FUND, MINT), Ata(FUND, MINT)]

  const WHOLE: u64 := 1_000_000_000_000
  const LENT: u64 := 900_000_000_000
  const KEPT: u64 := 100_000_000_000
  const HELD: u64 := 10_000_000_000
  const MINTED: u64 := 90_000_000_000

  /** The manager borrows 900 of the fund's 1000 SOL for 900 * 10^9 tokens; somebody deposits 900
      SOL; the tokens arrive; a new BUY order takes the deposited lamports out of the vault
      again; the settle. */
  ghost function LockedDeposit(env: Env): seq<Top> {
    [Ours(Event(env, Borrow(HOLDER, LENT, LENT, MINT, []))),
     Ours(Event(env, Deposit(INVESTOR, LENT, ACCOUNTS))),
     Ours(Event(env, CreditVault(FundTokenVault(MINT), LENT))),
     Ours(Event(env, CreateLimit(HOLDER, 0, MINT, LENT, 1, 1, 0, 0))),
     Ours(Event(env, Settle(SETTLE_ACCOUNTS)))]
  }

  lemma OursFirst(s: Ledger, e: Event, tops: seq<Top>)
    requires tops != [] && tops[0] == Ours(e) && Step(e.env, s, SeenFrom(e.ix, Metas(tops[1..]))).Ok?
    ensures ExecTx(s, tops) == ExecTx(Step(e.env, s, SeenFrom(e.ix, Metas(tops[1..]))).value, tops[1..])
  {
    hide Step;
    var after := Step(e.env, s, SeenFrom(e.ix, Metas(tops[1..]))).value;
    assert [e][1..] == [];
    assert Calling(s, [e], Metas(tops[1..])) == Calling(after, [], Metas(tops[1..]));
  }

  lemma LockedLater(env: Env)
    ensures ScanForSettle(Metas(LockedDeposit(env)[1..]), SETTLE_ACCOUNTS).Ok?
  {
    var tops := LockedDeposit(env);
    var unseen := Meta(false, []);
    assert Metas(tops[4..]) == [Meta(true, SETTLE_ACCOUNTS)] + Metas(tops[5..]);
    assert tops[3..][1..] == tops[4..] && tops[2..][1..] == tops[3..] && tops[1..][1..] == tops[2..];
    assert Metas(tops[3..]) == [unseen] + Metas(tops[4..]);
    assert Metas(tops[2..]) == [unseen] + Metas(tops[3..]);
    assert Metas(tops[1..]) == [unseen] + Metas(tops[2..]);
    assert ScanForSettle(Metas(tops[4..]), SETTLE_ACCOUNTS).Ok?;
    assert ScanForSettle(Metas(tops[3..]), SETTLE_ACCOUNTS) == ScanForSettle(Metas(tops[4..]), SETTLE_ACCOUNTS);
    assert ScanForSettle(Metas(tops[2..]), SETTLE_ACCOUNTS) == ScanForSettle(Metas(tops[3..]), SETTLE_ACCOUNTS);
  }

  /** The ledgers after the borrow, the deposit, the delivery and the new order. */
  ghost function Borrowed(): Ledger {
    OneMintFund(KEPT, 0, LENT, HELD).(trading := Trading(true, LENT, LENT, WHOLE, 0, MINT),
                              wallets := map[INVESTOR := LENT, HOLDER := LENT])
  }

  ghost function Deposited(): Ledger {
    Borrowed().(vaultSol := WHOLE, wallets := map[INVESTOR := 0, HOLDER := LENT], totalShares := HELD + MINTED,
                shares := map[HOLDER := HELD, INVESTOR := MINTED], shareSupply := HELD + MINTED)
  }

  ghost function Delivered(): Ledger {
    Deposited().(tokens := map[MINT := LENT])
  }

  ghost function Ordered(): Ledger {
    var order := LimitOrder(Escrow(Buy, MINT, Open, LENT + SOL_VAULT_RENT, 0), LENT, 1, 1, 0, MINT_FEED, 0);
    Delivered().(vaultSol := KEPT, nextOrderId := 1, limitCount := 1, limits := map[0 := order])
  }

  lemma BorrowedStep(env: Env, later: seq<Meta>)
    requires ScanForSettle(later, SETTLE_ACCOUNTS).Ok?
    ensures Step(env, OneMintFund(WHOLE, 0, LENT, HELD), Borrow(HOLDER, LENT, LENT, MINT, later)) == Ok(Borrowed())
  {
    hide ScanForSettle;
    assert map[INVESTOR := LENT][HOLDER := LENT] == map[INVESTOR := LENT, HOLDER := LENT];
  }

  lemma NinetyPercent(env: Env)
    requires env.depositFeeBps == 0
    ensures SplitDeposit(env, Borrowed(), LENT) == Ok(Split(0, LENT))
    ensures SharesFor(Borrowed(), LENT, KEPT) == Ok(MINTED)
  {
  }

  lemma PaidInFull(env: Env)
    ensures PayDeposit(env, Borrowed(), INVESTOR, Split(0, LENT)) == Ok(Deposited().wallets)
  {
    assert map[INVESTOR := LENT, HOLDER := LENT][INVESTOR := 0] == map[INVESTOR := 0, HOLDER := LENT];
  }

  lemma MintedToInvestor()
    ensures MintShares(Borrowed(), INVESTOR, MINTED) == Ok(ShareBook(Deposited().shares, HELD + MINTED, HELD + MINTED))
  {
    assert map[HOLDER := HELD][INVESTOR := MINTED] == map[HOLDER := HELD, INVESTOR := MINTED];
  }

  lemma DepositedStep(env: Env)
    requires env == OneMintEnv(Price(1, 9)) && Nav(env, Borrowed(), ACCOUNTS) == Ok(KEPT)
    ensures DepositStep(env, Borrowed(), INVESTOR, LENT, ACCOUNTS) == Ok(Deposited())
  {
    hide Nav, SplitDeposit, SharesFor, PayDeposit, MintShares;
    NinetyPercent(env);
    PaidInFull(env);
    MintedToInvestor();
  }

  lemma DepositedIsStep(env: Env)
    requires env == OneMintEnv(Price(1, 9)) && Nav(env, Borrowed(), ACCOUNTS) == Ok(KEPT)
    ensures Step(env, Borrowed(), Deposit(INVESTOR, LENT, ACCOUNTS)) == Ok(Deposited())
  {
    hide DepositStep, Borrowed, Deposited, Nav, OneMintEnv;
    DepositedStep(env);
  }

  lemma DeliveredStep(env: Env)
    ensures Step(env, Deposited(), CreditVault(FundTokenVault(MINT), LENT)) == Ok(Delivered())
  {
    assert map[MINT := 0][MINT := LENT] == map[MINT := LENT];
  }

  lemma OrderedStep(env: Env)
    requires env == OneMintEnv(Price(1, 9))
    ensures CreateLimitStep(env, Delivered(), HOLDER, 0, MINT, LENT, 1, 1, 0, 0) == Ok(Ordered())
  {
  }

  lemma NothingWaits()
    ensures WaitingSol(Delivered(), LimitKind) == 0
  {
  }

  lemma OrderedValue(env: Env)
    requires env == OneMintEnv(Price(1, 9))
    ensures ExactNav(env, Ordered().(trading := UNLOCKED)) == ExactNav(env, Delivered()) + SOL_VAULT_RENT
  {
    hide ExactNav, Delivered, Ordered, CreateLimitStep, WaitingSol;
    OrderedStep(env);
    NothingWaits();
    CreateLimitNav(env, env, Delivered(), HOLDER, 0, MINT, LENT, 1, 1, 0, 0);
    OnlyVaultChanged(env, Ordered(), Ordered().(trading := UNLOCKED));
  }

  lemma OrderedIsStep(env: Env)
    requires env == OneMintEnv(Price(1, 9))
    ensures Step(env, Delivered(), CreateLimit(HOLDER, 0, MINT, LENT, 1, 1, 0, 0)) == Ok(Ordered())
  {
    hide CreateLimitStep, Ordered, Delivered;
    OrderedStep(env);
  }

  lemma SharesBeforeAndAfter()
    ensures Ordered().totalShares == HELD + MINTED
  {
  }

  lemma SettledStep(env: Env)
    ensures Step(env, Ordered(), Settle(SETTLE_ACCOUNTS)) == Ok(Ordered().(trading := UNLOCKED))
  {
  }

  /** One transaction, every number in it far below 2^64, rents paid, and a swap at the oracle's
      price: a share was worth 100 lamports and ends at little more than 19. */
  lemma LockedDepositDilutes()
    ensures var env, s := OneMintEnv(Price(1, 9)), OneMintFund(WHOLE, 0, LENT, HELD);
            var end := ExecTx(s, LockedDeposit(env));
            && Sound(s) && CountersExact(s) && WellFormed(s.key, LockedDeposit(env))
            && end.Ok? && end.value.trading == UNLOCKED
            && ExactNav(env, s) == WHOLE == 100 * HELD && s.totalShares == HELD
            && ExactNav(env, end.value) == WHOLE + LENT + SOL_VAULT_RENT && end.value.totalShares == 10 * HELD
            && !PriceKept(env, s, end.value)
  {
    hide Step, ExecTx, Metas, Nav, ExactNav, Sound, CountersExact, Borrowed, Deposited, Delivered, Ordered,
         ScanForSettle;
    var sol := Price(1, 9);
    var env, s := OneMintEnv(sol), OneMintFund(WHOLE, 0, LENT, HELD);
    var tops := LockedDeposit(env);
    OneMintSound(WHOLE, 0, LENT, HELD);
    LockedValues(sol);
    LockedLater(env);
    BorrowedStep(env, Metas(tops[1..]));
    OursFirst(s, tops[0].event, tops);
    DepositedIsStep(env);
    assert tops[1..][1..] == tops[2..];
    OursFirst(Borrowed(), tops[1].event, tops[1..]);
    DeliveredStep(env);
    assert tops[2..][1..] == tops[3..];
    OursFirst(Deposited(), tops[2].event, tops[2..]);
    OrderedIsStep(env);
    assert tops[3..][1..] == tops[4..];
    OursFirst(Delivered(), tops[3].event, tops[3..]);
    SettledStep(env);
    assert tops[4..][1..] == [];
    OursFirst(Ordered(), tops[4].event, tops[4..]);
    NothingLeft(Ordered().(trading := UNLOCKED));
    OrderedValue(env);
    SharesBeforeAndAfter();
  }

  lemma NothingLeft(s: Ledger)
    ensures ExecTx(s, []) == Ok(s)
  {
  }

  lemma LockedValues(sol: Price)
    requires sol == Price(1, 9)
    ensures Nav(OneMintEnv(sol), Borrowed(), ACCOUNTS) == Ok(KEPT)
    ensures ExactNav(OneMintEnv(sol), OneMintFund(WHOLE, 0, LENT, HELD)) == WHOLE
    ensures ExactNav(OneMintEnv(sol), Delivered()) == WHOLE + LENT
  {
    hide Nav, ExactNav;
    UnitVault(0);
    UnitVault(LENT);
    OneMintNav(sol, Borrowed(), KEPT, 0, 0);
    OneMintExact(sol, OneMintFund(WHOLE, 0, LENT, HELD), WHOLE, 0);
    OneMintExact(sol, Delivered(), WHOLE, LENT);
  }
}
