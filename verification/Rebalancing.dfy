/** The strategy's own NAV and the sizing of its trades. */
module Rebalancing {
  import opened Results
  import opened Ints
  import opened Oracle
  import opened MapSums
  import opened Ledgers
  import opened Navs
  import opened ExactNavs
  import opened Steps
  import opened Ranges
  import opened ShareTerms
  import opened FundTerms
  import opened Runs
  import opened Frames
  import opened Invariants
  import opened Slippage

  // ---- two NAVs ----------------------------------------------------------------------------

  ghost function AllocatedMints(strategy: StrategyAccount): seq<Address> {
    seq(strategy.count, i requires 0 <= i < strategy.count => strategy.allocations[i].mint)
  }

  /** The position of the target as the fund holds it, with the weight the strategy gives it. */
  ghost predicate IsPosition(env: Env, s: Ledger, strategy: StrategyAccount, target: Address, position: Position) {
    && target in s.listings && target in s.tokens
    && position.amount == s.tokens[target] && position.decimals == s.listings[target].decimals
    && LoadPrice(env, s.listings[target].feed) == Ok(position.price)
    && MintValue(env, s.listings, target, position.amount) == Ok(position.value)
    && Allocation(target, position.weightBps) in strategy.allocations[..strategy.count]
  }

  lemma PassedPosition(env: Env, s: Ledger, strategy: StrategyAccount, i: nat, position: Position)
    requires i < strategy.count && position.weightBps == strategy.allocations[i].weightBps
    requires var mint := strategy.allocations[i].mint;
             && mint in s.listings && mint in s.tokens && position.amount == s.tokens[mint]
             && position.decimals == s.listings[mint].decimals
             && LoadPrice(env, s.listings[mint].feed) == Ok(position.price)
             && MintValue(env, s.listings, mint, position.amount) == Ok(position.value)
    ensures IsPosition(env, s, strategy, strategy.allocations[i].mint, position)
  {
    var allocation := strategy.allocations[i];
    assert allocation == strategy.allocations[..strategy.count][i];
    assert allocation == Allocation(allocation.mint, allocation.weightBps);
  }

  /** One allocation of the pass. */
  lemma SurveyStep(env: Env, s: Ledger, strategy: StrategyAccount, sol: Price, target: Address, accounts: seq<Address>,
                   i: nat, survey: Survey)
    returns (next: Survey)
    requires i < strategy.count && |accounts| >= 3 * strategy.count
    requires LoadPrice(env, env.solFeed) == Ok(sol)
    requires SurveyFrom(env, s, strategy, sol, target, accounts, i, survey).Ok?
    requires survey.target.Some? ==> IsPosition(env, s, strategy, target, survey.target.value)
    ensures SurveyFrom(env, s, strategy, sol, target, accounts, i, survey)
         == SurveyFrom(env, s, strategy, sol, target, accounts, i + 1, next)
    ensures var mint := strategy.allocations[i].mint;
            && mint in s.listings
            && next.nav == survey.nav + Worth(env, s.listings, mint, Balance(s.tokens, mint))
            && (next.target.Some? ==> IsPosition(env, s, strategy, target, next.target.value))
  {
    hide TokenValue, IsPosition;
    var allocation := strategy.allocations[i];
    var mint := allocation.mint;
    var price := LoadPrice(env, s.listings[mint].feed).value;
    var value := TokenValue(s.tokens[mint], s.listings[mint].decimals, price, sol).value;
    var position := Position(allocation.weightBps, value, s.tokens[mint], s.listings[mint].decimals, price);
    PassedPosition(env, s, strategy, i, position);
    next := Survey(survey.nav + value, if mint == target then Some(position) else survey.target);
  }

  /** The pass over the allocations, from allocation `i`. */
  lemma {:induction false} SurveySum(env: Env, s: Ledger, strategy: StrategyAccount, sol: Price, target: Address,
                                     accounts: seq<Address>, i: nat, survey: Survey)
    requires i <= strategy.count && |accounts| >= 3 * strategy.count
    requires LoadPrice(env, env.solFeed) == Ok(sol)
    requires SurveyFrom(env, s, strategy, sol, target, accounts, i, survey).Ok?
    requires survey.target.Some? ==> IsPosition(env, s, strategy, target, survey.target.value)
    ensures forall mint <- AllocatedMints(strategy)[i..] :: mint in s.listings
    ensures var end := SurveyFrom(env, s, strategy, sol, target, accounts, i, survey).value;
            && end.nav == survey.nav + SumSeq(AllocatedMints(strategy)[i..], TokenWorths(env, s.listings, s.tokens))
            && (end.target.Some? ==> IsPosition(env, s, strategy, target, end.target.value))
    decreases strategy.count - i
  {
    hide IsPosition, Worth;
    if i < strategy.count {
      var next := SurveyStep(env, s, strategy, sol, target, accounts, i, survey);
      hide SurveyFrom;
      SurveySum(env, s, strategy, sol, target, accounts, i + 1, next);
      assert AllocatedMints(strategy)[i..][1..] == AllocatedMints(strategy)[i + 1..];
      assert AllocatedMints(strategy)[i..][0] == strategy.allocations[i].mint;
    }
  }

  lemma NoOrdersNoWorth(env: Env, s: Ledger)
    requires s.limits == map[] && s.dcas == map[]
    ensures SimpleNav(env, s) == s.vaultSol + Sum(TokenWorths(env, s.listings, s.tokens))
  {
    hide Worth;
    EmptySum<nat>();
    assert BookWorths(env, s.listings, LimitBook(s)) == map[];
    assert BookWorths(env, s.listings, DcaBook(s)) == map[];
  }

  lemma MintsDistinct(strategy: StrategyAccount)
    requires AllocationsSound(strategy.allocations[..strategy.count])
    ensures Distinct(AllocatedMints(strategy))
  {
    var used := strategy.allocations[..strategy.count];
    forall i, j | 0 <= i < j < strategy.count
      ensures AllocatedMints(strategy)[i] != AllocatedMints(strategy)[j]
    {
      assert used[i].mint != used[j].mint;
    }
  }

  /** The listed mints the strategy does not allocate, with what the fund's vaults of them are
      worth. */
  ghost function Unallocated(env: Env, s: Ledger, strategy: StrategyAccount): map<Address, int> {
    var worths := TokenWorths(env, s.listings, s.tokens);
    map mint | mint in worths && mint !in AllocatedMints(strategy) :: worths[mint]
  }

  /** The survey finds everything but those. */
  lemma SurveyLeavesOut(env: Env, s: Ledger, strategy: StrategyAccount, sol: Price, target: Address,
                        accounts: seq<Address>)
    requires s.limits == map[] && s.dcas == map[]
    requires AllocationsSound(strategy.allocations[..strategy.count])
    requires |accounts| >= 3 * strategy.count && LoadPrice(env, env.solFeed) == Ok(sol)
    requires SurveyFrom(env, s, strategy, sol, target, accounts, 0, Survey(s.vaultSol, None)).Ok?
    ensures SurveyFrom(env, s, strategy, sol, target, accounts, 0, Survey(s.vaultSol, None)).value.nav
            + Sum(Unallocated(env, s, strategy)) == SimpleNav(env, s)
    ensures |Unallocated(env, s, strategy)| == |s.listings| - strategy.count
  {
    hide SurveyFrom, SimpleNav, Sum, SumSeq, Worth, AllocationsSound, Distinct;
    var mints := AllocatedMints(strategy);
    var worths := TokenWorths(env, s.listings, s.tokens);
    SurveySum(env, s, strategy, sol, target, accounts, 0, Survey(s.vaultSol, None));
    assert mints[0..] == mints;
    MintsDistinct(strategy);
    assert worths.Keys == s.listings.Keys;
    assert |worths| == |worths.Keys|;
    SumBesides(mints, worths, Unallocated(env, s, strategy));
    NoOrdersNoWorth(env, s);
  }

  /** The pieces of an accepted rebalance: the strategy, SOL's price and the survey. */
  ghost function SurveyOf(env: Env, s: Ledger, signer: Address, mint: Address, minOut: u64,
                          accounts: seq<Address>): Result<Survey> {
    var ready :- MayRebalance(env, s, signer, minOut, accounts);
    SurveyFrom(env, s, ready.0, ready.1, mint, accounts, 0, Survey(s.vaultSol, None))
  }

  lemma ReadyToRebalance(env: Env, s: Ledger, signer: Address, minOut: u64, accounts: seq<Address>)
    requires MayRebalance(env, s, signer, minOut, accounts).Ok?
    ensures s.strategy == Some(MayRebalance(env, s, signer, minOut, accounts).value.0)
    ensures LoadPrice(env, env.solFeed) == Ok(MayRebalance(env, s, signer, minOut, accounts).value.1)
    ensures s.fundType.StrategyFund? && s.enabledCount % 256 == s.strategy.value.count
  {
  }

  /** What the strategy's NAV leaves out, in every sound ledger: the listed mints beyond the low 8
      bits of the counter, which are as many as the counter fell short by and a multiple of 256.
      It agrees with the sum over the holdings if and only if those vaults are worth nothing. */
  lemma StrategyNavIff(env: Env, s: Ledger, signer: Address, mint: Address, minOut: u64, accounts: seq<Address>)
    requires Sound(s) && SurveyOf(env, s, signer, mint, minOut, accounts).Ok?
    ensures s.strategy.Some?
    ensures var nav := SurveyOf(env, s, signer, mint, minOut, accounts).value.nav;
            var omitted := Unallocated(env, s, s.strategy.value);
            && |omitted| == |s.listings| - s.enabledCount % 256
            && nav == SimpleNav(env, s) - Sum(omitted) <= SimpleNav(env, s)
            && (nav == SimpleNav(env, s) <==> forall m <- omitted :: omitted[m] == 0)
  {
    hide MayRebalance, SurveyFrom, SimpleNav, Sum, AllocationsSound, SharesSound, TradingSound, LimitsSound, DcasSound,
         RequestsSound;
    ReadyToRebalance(env, s, signer, minOut, accounts);
    var ready := MayRebalance(env, s, signer, minOut, accounts).value;
    SurveyLeavesOut(env, s, ready.0, ready.1, mint, accounts);
    SumNonNegative(Unallocated(env, s, ready.0));
    SumZeroIff(Unallocated(env, s, ready.0));
  }

  /** The strategy's NAV is the fund's NAV: for a strategy fund of fewer than 256 tokens, the
      sum over the allocations is the sum over the holdings, and so is what `compute_nav_lamports`
      returns on any list it accepts. */
  lemma StrategyNavIsFundNav(env: Env, s: Ledger, signer: Address, mint: Address, minOut: u64, accounts: seq<Address>)
    requires Sound(s) && CountersExact(s) && s.enabledCount < 256
    requires SurveyOf(env, s, signer, mint, minOut, accounts).Ok?
    ensures SurveyOf(env, s, signer, mint, minOut, accounts).value.nav == SimpleNav(env, s)
    ensures forall list :: Nav(env, s, list).Ok? ==>
              Nav(env, s, list).value == AsU64(SurveyOf(env, s, signer, mint, minOut, accounts).value.nav)
  {
    hide SurveyOf, SimpleNav, Nav, Sum, Sound, Unallocated, LimitBook, DcaBook, OpenIds;
    StrategyNavIff(env, s, signer, mint, minOut, accounts);
    assert Unallocated(env, s, s.strategy.value) == map[];
    forall list | Nav(env, s, list).Ok?
      ensures Nav(env, s, list).value == AsU64(SimpleNav(env, s))
    {
      NavIsSimpleNav(env, s, list);
    }
  }

  // ---- sizing ------------------------------------------------------------------------------

  /** Adding the floor of what `gap` lamports buy adds at most `gap` lamports of value. */
  lemma BuyingStaysBelow(held: nat, rate: Rate, gap: nat, bought: nat)
    requires rate.Valid() && bought <= Floor(gap, Inverse(rate))
    ensures Floor(held + bought, rate) <= Floor(held, rate) + gap
  {
    hide Mul, Floor;
    var n, d := rate.num, rate.den;
    var v, ideal := Floor(held, rate), Floor(gap, Inverse(rate));
    FloorBounds(held, rate);
    FloorBounds(gap, Inverse(rate));
    FloorBounds(held + bought, rate);
    MulMono(bought, ideal, n);
    MulSum(held, bought, n);
    MulSum(v, gap, d);
    MulSum(v + gap, 1, d);
    MulUnits(d);
    MulCancelLt(Floor(held + bought, rate), v + gap + 1, d);
  }

  /** Selling the floor of what `gap` lamports are worth, and `dust` more units, leaves at least
      the value less `gap` and the rounded-up price of the dust. */
  lemma SellingStaysAbove(held: nat, rate: Rate, gap: nat, sold: nat, dust: nat)
    requires rate.Valid() && sold <= held && sold <= Floor(gap, Inverse(rate)) + dust
    ensures Floor(held, rate) <= Floor(held - sold, rate) + gap + CeilDiv(Mul(dust, rate.num), rate.den)
  {
    hide Mul, Floor, CeilDiv;
    var n, d := rate.num, rate.den;
    var v, left, ideal := Floor(held, rate), Floor(held - sold, rate), Floor(gap, Inverse(rate));
    var c := CeilDiv(Mul(dust, n), d);
    FloorBounds(held, rate);
    FloorBounds(held - sold, rate);
    FloorBounds(gap, Inverse(rate));
    CeilCovers(Mul(dust, n), d);
    MulMono(sold, ideal + dust, n);
    MulSum(ideal, dust, n);
    MulSum(held - sold, sold, n);
    MulSum(left, gap, d);
    MulSum(left + gap, c, d);
    MulSum(left + gap + c, 1, d);
    MulUnits(d);
    MulCancelLt(v, left + gap + c + 1, d);
  }

  // ---- accepted trades -----------------------------------------------------------------------

  lemma SaleBounds(env: Env, s: Ledger, mint: Address, position: Position, sol: Price, desired: u64, minOut: u64,
                   fundSwap: FundSwap)
    requires SellTarget(env, s, mint, position, sol, desired, minOut, fundSwap).Ok?
    ensures ExpectedTokenOut(desired, position.decimals, position.price, sol).Ok?
    ensures var traded := SellTarget(env, s, mint, position, sol, desired, minOut, fundSwap).value;
            && traded.vaultSol == s.vaultSol + fundSwap.solCredit && fundSwap.solCredit >= minOut
            && Balance(traded.tokens, mint) < Balance(s.tokens, mint)
            && var sold := Balance(s.tokens, mint) - Balance(traded.tokens, mint);
            && sold <= ExpectedTokenOut(desired, position.decimals, position.price, sol).value + SELL_DUST_TOLERANCE
            && TokenValue(sold, position.decimals, position.price, sol).Ok?
            && var expected := TokenValue(sold, position.decimals, position.price, sol).value;
            && fundSwap.solCredit + Tolerated(expected, env.maxSlippageBps) >= expected
  {
    hide ExpectedTokenOut, TokenValue, ApplyMaxSlippage, Tolerated;
    var sold := Balance(s.tokens, mint) - Balance(fundSwap.tokensAfter, mint);
    SlippageGuard(TokenValue(sold, position.decimals, position.price, sol).value, env.maxSlippageBps);
  }

  lemma PurchaseBounds(env: Env, s: Ledger, mint: Address, position: Position, sol: Price, spend: u64, minOut: u64,
                       fundSwap: FundSwap)
    requires BuyTarget(env, s, mint, position, sol, spend, minOut, fundSwap).Ok?
    requires mint == NATIVE_MINT ==> Balance(s.tokens, mint) == 0
    ensures ExpectedTokenOut(spend, position.decimals, position.price, sol).Ok?
    ensures var traded := BuyTarget(env, s, mint, position, sol, spend, minOut, fundSwap).value;
            var expected := ExpectedTokenOut(spend, position.decimals, position.price, sol).value;
            && env.maxSlippageBps <= 10_000
            && spend <= s.vaultSol && traded.vaultSol == s.vaultSol - spend + fundSwap.solCredit
            && Balance(traded.tokens, mint) >= Balance(s.tokens, mint) + minOut
            && Balance(traded.tokens, mint) + Tolerated(expected, env.maxSlippageBps)
               >= Balance(s.tokens, mint) + expected
  {
    hide ExpectedTokenOut, ApplyMaxSlippage, Tolerated;
    SlippageGuard(ExpectedTokenOut(spend, position.decimals, position.price, sol).value, env.maxSlippageBps);
  }

  /** The expected output for a part of the gap is at most the floor at the exact rate. */
  lemma ExpectedWithinGap(env: Env, s: Ledger, mint: Address, lamports: u64, gap: nat, decimals: u8, price: Price,
                          sol: Price)
    requires lamports <= gap && ExpectedTokenOut(lamports, decimals, price, sol).Ok?
    requires mint in s.listings && decimals == s.listings[mint].decimals
    requires LoadPrice(env, s.listings[mint].feed) == Ok(price) && LoadPrice(env, env.solFeed) == Ok(sol)
    ensures Priced(env, s.listings, mint)
    ensures ExpectedTokenOut(lamports, decimals, price, sol).value
         <= Floor(gap, Inverse(MintRate(env, s.listings, mint)))
  {
    hide ExpectedTokenOut, TokenRate, Floor;
    ExpectedTokenOutIsFloor(lamports, decimals, price, sol);
    FloorMono(lamports, gap, Inverse(TokenRate(decimals, price, sol)));
  }

  /** What an accepted rebalance started from: the target's position, the weight the strategy
      gives it, and a trade sized by the distance to that weight of the strategy's NAV. */
  lemma TradeParts(env: Env, s: Ledger, signer: Address, mint: Address, minOut: u64, accounts: seq<Address>,
                   fundSwap: FundSwap)
    returns (position: Position, sol: Price)
    requires RebalanceStep(env, s, signer, mint, minOut, accounts, fundSwap).Ok?
    ensures s.strategy.Some? && IsPosition(env, s, s.strategy.value, mint, position)
    ensures LoadPrice(env, env.solFeed) == Ok(sol)
    ensures SurveyOf(env, s, signer, mint, minOut, accounts).Ok?
    ensures var after := RebalanceStep(env, s, signer, mint, minOut, accounts, fundSwap).value;
            var nav := SurveyOf(env, s, signer, mint, minOut, accounts).value.nav;
            && nav > 0
            && var goal := BpsOf(nav, position.weightBps);
            var size := AsU64(Abs(position.value - goal));
            var traded := if position.value < goal then BuyTarget(env, s, mint, position, sol, size, minOut, fundSwap)
                          else SellTarget(env, s, mint, position, sol, size, minOut, fundSwap);
            && traded == Ok(Traded(after.vaultSol, after.tokens))
            && Abs(position.value - goal) > BpsOf(nav, s.strategy.value.thresholdBps)
  {
    hide MayRebalance, SurveyFrom, BuyTarget, SellTarget, BpsOf, AsU64, IsPosition;
    ReadyToRebalance(env, s, signer, minOut, accounts);
    var ready := MayRebalance(env, s, signer, minOut, accounts).value;
    var survey := SurveyOf(env, s, signer, mint, minOut, accounts).value;
    SurveySum(env, s, ready.0, ready.1, mint, accounts, 0, Survey(s.vaultSol, None));
    position, sol := survey.target.value, ready.1;
  }

  /** The same, with the fund's NAV for the strategy's. */
  lemma RebalanceParts(env: Env, s: Ledger, signer: Address, mint: Address, minOut: u64, accounts: seq<Address>,
                       fundSwap: FundSwap)
    returns (position: Position, sol: Price)
    requires Sound(s) && CountersExact(s) && s.enabledCount < 256
    requires RebalanceStep(env, s, signer, mint, minOut, accounts, fundSwap).Ok?
    ensures s.strategy.Some? && IsPosition(env, s, s.strategy.value, mint, position)
    ensures LoadPrice(env, env.solFeed) == Ok(sol)
    ensures var after := RebalanceStep(env, s, signer, mint, minOut, accounts, fundSwap).value;
            var goal := BpsOf(SimpleNav(env, s), position.weightBps);
            var size := AsU64(Abs(position.value - goal));
            var traded := if position.value < goal then BuyTarget(env, s, mint, position, sol, size, minOut, fundSwap)
                          else SellTarget(env, s, mint, position, sol, size, minOut, fundSwap);
            && traded == Ok(Traded(after.vaultSol, after.tokens))
            && Abs(position.value - goal) > BpsOf(SimpleNav(env, s), s.strategy.value.thresholdBps)
  {
    hide RebalanceStep, SurveyOf, BuyTarget, SellTarget, SimpleNav, Sound, CountersExact, BpsOf, AsU64, IsPosition,
         Nav;
    position, sol := TradeParts(env, s, signer, mint, minOut, accounts, fundSwap);
    StrategyNavIsFundNav(env, s, signer, mint, minOut, accounts);
  }

  lemma TwoUnitsOf(rate: Rate)
    requires rate.Valid()
    ensures CeilDiv(Mul(SELL_DUST_TOLERANCE, rate.num), rate.den) == CeilDiv(2 * rate.num, rate.den)
  {
  }

  /** The target's position as the handler sees it: its exact worth, cast. */
  lemma PositionWorth(env: Env, s: Ledger, strategy: StrategyAccount, target: Address, position: Position)
    requires IsPosition(env, s, strategy, target, position)
    ensures target in s.listings && position.decimals == s.listings[target].decimals
    ensures LoadPrice(env, s.listings[target].feed) == Ok(position.price)
    ensures position.amount == Balance(s.tokens, target) && Priced(env, s.listings, target)
    ensures position.value == AsU64(ExactWorth(env, s.listings, target, position.amount))
    ensures Allocation(target, position.weightBps) in strategy.allocations[..strategy.count]
  {
    hide MintValue, ExactWorth, AsU64;
    ValueIsCast(env, s.listings, target, position.amount);
  }

  /** Wrapped SOL must have been swept before a rebalance. */
  lemma NothingWrapped(env: Env, s: Ledger, signer: Address, mint: Address, minOut: u64, accounts: seq<Address>,
                       fundSwap: FundSwap)
    requires RebalanceStep(env, s, signer, mint, minOut, accounts, fundSwap).Ok?
    ensures Balance(s.tokens, NATIVE_MINT) == 0
  {
    hide SurveyFrom, OffTarget, BuyTarget, SellTarget, LoadPrice;
  }

  /** Rebalancing trades only beyond the threshold and never overshoots.  `goal` is the weight's
      part of the NAV, `threshold` the threshold's, both rounded down, and `value` the target's worth
      as the handler sees it.  Below the goal the fund buys, and the output the oracle expects for
      the whole gap leaves the position at or below the goal, but for what the cast of its worth had
      dropped; the fund receives that output but for the tolerated part, and at least the keeper's
      minimum.  Otherwise it sells for at least that minimum, and what is left is worth at least the
      goal less the rounded-up price of the two base units of dust tolerance. */
  lemma RebalanceNeverOvershoots(env: Env, s: Ledger, signer: Address, mint: Address, minOut: u64,
                                 accounts: seq<Address>, fundSwap: FundSwap)
    returns (weightBps: u16, goal: nat, threshold: nat, expected: u64)
    requires Sound(s) && CountersExact(s) && s.enabledCount < 256
    requires RebalanceStep(env, s, signer, mint, minOut, accounts, fundSwap).Ok?
    ensures s.strategy.Some?
    ensures Allocation(mint, weightBps) in s.strategy.value.allocations[..s.strategy.value.count]
    ensures PartOf(goal, SimpleNav(env, s), weightBps, 10_000)
    ensures PartOf(threshold, SimpleNav(env, s), s.strategy.value.thresholdBps, 10_000)
    ensures Priced(env, s.listings, mint)
    ensures var after := RebalanceStep(env, s, signer, mint, minOut, accounts, fundSwap).value;
            var held, left := Balance(s.tokens, mint), Balance(after.tokens, mint);
            var worth := ExactWorth(env, s.listings, mint, held);
            var value := AsU64(worth);
            && Abs(value - goal) > threshold
            && if value < goal then
              && ExpectedTokenOut(AsU64(goal - value), s.listings[mint].decimals,
                                  LoadPrice(env, s.listings[mint].feed).value,
                                  LoadPrice(env, env.solFeed).value) == Ok(expected)
              && after.vaultSol == s.vaultSol - AsU64(goal - value) + fundSwap.solCredit
              && ExactWorth(env, s.listings, mint, held + expected) <= goal + Dropped(worth)
              && left + Tolerated(expected, env.maxSlippageBps) >= held + expected && left >= held + minOut
            else
              && left < held && after.vaultSol == s.vaultSol + fundSwap.solCredit && fundSwap.solCredit >= minOut
              && ExactWorth(env, s.listings, mint, left) + TwoUnits(env, s, mint) >= goal
  {
    hide RebalanceStep, BuyTarget, SellTarget, SimpleNav, Sound, CountersExact, BpsOf, AsU64, ExpectedTokenOut, Floor,
         MintRate, CeilDiv, Tolerated, Mul, Inverse, IsPosition, LoadPrice, PartOf;
    var position, sol := RebalanceParts(env, s, signer, mint, minOut, accounts, fundSwap);
    PositionWorth(env, s, s.strategy.value, mint, position);
    NothingWrapped(env, s, signer, mint, minOut, accounts, fundSwap);
    weightBps := position.weightBps;
    goal := BpsOf(SimpleNav(env, s), weightBps);
    threshold := BpsOf(SimpleNav(env, s), s.strategy.value.thresholdBps);
    BpsPart(SimpleNav(env, s), weightBps);
    BpsPart(SimpleNav(env, s), s.strategy.value.thresholdBps);
    var rate := MintRate(env, s.listings, mint);
    var held := Balance(s.tokens, mint);
    var gap := Abs(position.value - goal);
    if position.value < goal {
      PurchaseBounds(env, s, mint, position, sol, AsU64(gap), minOut, fundSwap);
      expected := ExpectedTokenOut(AsU64(gap), position.decimals, position.price, sol).value;
      ExpectedWithinGap(env, s, mint, AsU64(gap), gap, position.decimals, position.price, sol);
      BuyingStaysBelow(held, rate, gap, expected);
    } else {
      SaleBounds(env, s, mint, position, sol, AsU64(gap), minOut, fundSwap);
      expected := 0;
      ExpectedWithinGap(env, s, mint, AsU64(gap), gap, position.decimals, position.price, sol);
      var sold := held - Balance(RebalanceStep(env, s, signer, mint, minOut, accounts, fundSwap).value.tokens, mint);
      SellingStaysAbove(held, rate, gap, sold, SELL_DUST_TOLERANCE);
      TwoUnitsOf(rate);
    }
  }

  // ---- what a trade can cost -----------------------------------------------------------------

  lemma SaleLoss(env: Env, s: Ledger, mint: Address, position: Position, sol: Price, desired: u64, minOut: u64,
                 fundSwap: FundSwap)
    requires SellTarget(env, s, mint, position, sol, desired, minOut, fundSwap).Ok?
    requires mint in s.listings && position.decimals == s.listings[mint].decimals
    requires LoadPrice(env, s.listings[mint].feed) == Ok(position.price) && LoadPrice(env, env.solFeed) == Ok(sol)
    ensures var traded := SellTarget(env, s, mint, position, sol, desired, minOut, fundSwap).value;
            var held, left := Balance(s.tokens, mint), Balance(traded.tokens, mint);
            && left <= held
            && traded.vaultSol + ExactWorth(env, s.listings, mint, left)
               + SellCost(env, ExactWorth(env, s.listings, mint, held - left)) + 1
               >= s.vaultSol + ExactWorth(env, s.listings, mint, held)
  {
    hide SellTarget, TokenValue, Tolerated, ExpectedTokenOut, LoadPrice, ExactWorth, AsU64;
    SaleBounds(env, s, mint, position, sol, desired, minOut, fundSwap);
    var traded := SellTarget(env, s, mint, position, sol, desired, minOut, fundSwap).value;
    var held, left := Balance(s.tokens, mint), Balance(traded.tokens, mint);
    WorthSplits(env, s.listings, mint, left, held - left);
    ValueIsCast(env, s.listings, mint, held - left);
  }

  lemma PurchaseLoss(env: Env, s: Ledger, mint: Address, position: Position, sol: Price, spend: u64, minOut: u64,
                     fundSwap: FundSwap)
    requires BuyTarget(env, s, mint, position, sol, spend, minOut, fundSwap).Ok?
    requires mint == NATIVE_MINT ==> Balance(s.tokens, mint) == 0
    requires mint in s.listings && position.decimals == s.listings[mint].decimals
    requires LoadPrice(env, s.listings[mint].feed) == Ok(position.price) && LoadPrice(env, env.solFeed) == Ok(sol)
    ensures var traded := BuyTarget(env, s, mint, position, sol, spend, minOut, fundSwap).value;
            traded.vaultSol + ExactWorth(env, s.listings, mint, Balance(traded.tokens, mint))
            + BuyCost(env, s, mint, spend)
            >= s.vaultSol + ExactWorth(env, s.listings, mint, Balance(s.tokens, mint))
  {
    hide BuyTarget, Tolerated, ExpectedTokenOut, LoadPrice, Floor, Inverse, TokenRate, CeilDiv, AsU64, DroppedWorth;
    PurchaseBounds(env, s, mint, position, sol, spend, minOut, fundSwap);
    var traded := BuyTarget(env, s, mint, position, sol, spend, minOut, fundSwap).value;
    var held, left := Balance(s.tokens, mint), Balance(traded.tokens, mint);
    ExpectedTokenOutIsFloor(spend, position.decimals, position.price, sol);
    CastBuyLoss(spend, MintRate(env, s.listings, mint), env.maxSlippageBps, left - held);
    WorthSplits(env, s.listings, mint, held, left - held);
  }

  /** What a rebalance may cost on the trade itself: one lamport and the cost of selling what was
      sold, or of buying for the lamports spent. */
  ghost function TradeCost(env: Env, s: Ledger, after: Ledger, mint: Address, fundSwap: FundSwap): nat {
    var held, left := Balance(s.tokens, mint), Balance(after.tokens, mint);
    if left < held then SellCost(env, ExactWorth(env, s.listings, mint, held - left)) + 1
    else BuyCost(env, s, mint, Abs(s.vaultSol + fundSwap.solCredit - after.vaultSol))
  }

  /** A rebalance costs the SOL vault and the target's vault together at most the cost of the
      trade. */
  lemma TradeLoss(env: Env, s: Ledger, signer: Address, mint: Address, minOut: u64, accounts: seq<Address>,
                  fundSwap: FundSwap)
    requires RebalanceStep(env, s, signer, mint, minOut, accounts, fundSwap).Ok?
    ensures var after := RebalanceStep(env, s, signer, mint, minOut, accounts, fundSwap).value;
            && mint in s.listings
            && after.vaultSol + ExactWorth(env, s.listings, mint, Balance(after.tokens, mint))
               + TradeCost(env, s, after, mint, fundSwap)
               >= s.vaultSol + ExactWorth(env, s.listings, mint, Balance(s.tokens, mint))
  {
    hide RebalanceStep, BuyTarget, SellTarget, SurveyOf, BpsOf, AsU64, ExactWorth, SellCost, BuyCost, LoadPrice,
         IsPosition;
    var position, sol := TradeParts(env, s, signer, mint, minOut, accounts, fundSwap);
    PositionWorth(env, s, s.strategy.value, mint, position);
    NothingWrapped(env, s, signer, mint, minOut, accounts, fundSwap);
    var goal := BpsOf(SurveyOf(env, s, signer, mint, minOut, accounts).value.nav, position.weightBps);
    var size := AsU64(Abs(position.value - goal));
    if position.value < goal {
      PurchaseBounds(env, s, mint, position, sol, size, minOut, fundSwap);
      PurchaseLoss(env, s, mint, position, sol, size, minOut, fundSwap);
    } else {
      SaleBounds(env, s, mint, position, sol, size, minOut, fundSwap);
      SaleLoss(env, s, mint, position, sol, size, minOut, fundSwap);
    }
  }

  /** What the fund's other token vaults lost; the fund signs the swap, so they may. */
  ghost function OtherVaultsLost(env: Env, s: Ledger, after: Ledger, mint: Address): nat {
    SumNonNegative(VaultLosses(env, s, after, mint));
    Sum(VaultLosses(env, s, after, mint))
  }

  ghost function VaultLosses(env: Env, s: Ledger, after: Ledger, mint: Address): map<Address, int> {
    map m | m in s.listings && m != mint ::
      Above(ExactWorth(env, s.listings, m, Balance(s.tokens, m)),
            ExactWorth(env, s.listings, m, Balance(after.tokens, m)))
  }

  ghost function Above(x: nat, y: nat): nat {
    if y < x then x - y else 0
  }

  lemma OtherVaults(env: Env, s: Ledger, after: Ledger, mint: Address)
    requires mint in s.listings
    ensures Sum(ExactTokens(env, s.listings, s.tokens)) - ExactWorth(env, s.listings, mint, Balance(s.tokens, mint))
         <= Sum(ExactTokens(env, s.listings, after.tokens))
            - ExactWorth(env, s.listings, mint, Balance(after.tokens, mint))
            + OtherVaultsLost(env, s, after, mint)
  {
    hide Sum, ExactWorth;
    var was, now := ExactTokens(env, s.listings, s.tokens), ExactTokens(env, s.listings, after.tokens);
    SumRemove(was, mint);
    SumRemove(now, mint);
    SumAtMostSum(was - {mint}, now - {mint}, VaultLosses(env, s, after, mint));
  }

  /** A rebalance costs the fund at most the cost of the trade and what the swap took out of its
      other vaults. */
  lemma RebalanceLoss(env: Env, s: Ledger, signer: Address, mint: Address, minOut: u64, accounts: seq<Address>,
                      fundSwap: FundSwap)
    requires RebalanceStep(env, s, signer, mint, minOut, accounts, fundSwap).Ok?
    ensures var after := RebalanceStep(env, s, signer, mint, minOut, accounts, fundSwap).value;
            ExactNav(env, after) + TradeCost(env, s, after, mint, fundSwap) + OtherVaultsLost(env, s, after, mint)
            >= ExactNav(env, s)
  {
    hide Sum, ExactWorth, TradeCost, OtherVaultsLost, ExactTokens, ExactBook, RebalanceTrade;
    var after := RebalanceStep(env, s, signer, mint, minOut, accounts, fundSwap).value;
    TradeLoss(env, s, signer, mint, minOut, accounts, fundSwap);
    OtherVaults(env, s, after, mint);
    assert LimitBook(after) == LimitBook(s) && DcaBook(after) == DcaBook(s);
  }

  // ---- the whitelist ---------------------------------------------------------------------------

  lemma CheckedListed(s: Ledger, allocations: seq<Allocation>, accounts: seq<Address>, i: nat)
    requires i <= |allocations| == |accounts| && CheckListed(s, allocations, accounts, i).Ok?
    ensures forall k :: i <= k < |allocations| ==> allocations[k].mint in s.listings
    decreases |allocations| - i
  {
    if i < |allocations| {
      CheckedListed(s, allocations, accounts, i + 1);
    }
  }

  /** A strategy allocates exactly the fund's whitelist, each mint with the weight given for it: the
      count check, the distinct mints and the listed mints leave no listed mint out. */
  lemma StrategyMatchesWhitelist(env: Env, s: Ledger, signer: Address, allocations: seq<Allocation>, thresholdBps: u16,
                                 cooldown: i64, accounts: seq<Address>)
    requires SetStrategyStep(env, s, signer, allocations, thresholdBps, cooldown, accounts).Ok?
    requires s.enabledCount == |s.listings|
    ensures var chosen := SetStrategyStep(env, s, signer, allocations, thresholdBps, cooldown, accounts).value.strategy;
            && chosen.Some? && chosen.value.thresholdBps == thresholdBps <= 10_000
            && chosen.value.cooldown == cooldown > 0 && chosen.value.lastRebalance == env.now
            && chosen.value.count == |allocations| && Holds(chosen.value.allocations, allocations)
            && forall mint :: mint in s.listings <==> mint in AllocatedMints(chosen.value)
  {
    hide CheckAllocations, CheckListed, WeightSum, Sum, SumSeq;
    CheckedAllocations(allocations, 0);
    CheckedListed(s, allocations, accounts, 0);
    var strategy := SetStrategyStep(env, s, signer, allocations, thresholdBps, cooldown, accounts).value.strategy.value;
    var mints := AllocatedMints(strategy);
    assert forall j :: 0 <= j < |mints| ==> mints[j] == allocations[j].mint;
    var listed := map mint | mint in s.listings :: 0;
    assert listed.Keys == s.listings.Keys;
    assert |listed| == |listed.Keys|;
    DistinctKeysCover(mints, listed);
  }

  // ---- the cooldown --------------------------------------------------------------------------

  /** The strategy is set once; afterwards only a rebalance moves its clock, and only after the
      cooldown. */
  ghost predicate StrategyMoves(env: Env, s: Ledger, ix: Ix, after: Ledger) {
    s.strategy.Some? ==>
      && after.strategy.Some?
      && var was, now := s.strategy.value, after.strategy.value;
      && now == was.(lastRebalance := now.lastRebalance)
      && (if ix.Rebalance? then now.lastRebalance == env.now && env.now >= was.lastRebalance + was.cooldown
          else now.lastRebalance == was.lastRebalance)
  }

  lemma RebalanceMoves(env: Env, s: Ledger, signer: Address, mint: Address, minOut: u64, accounts: seq<Address>,
                       fundSwap: FundSwap)
    requires RebalanceStep(env, s, signer, mint, minOut, accounts, fundSwap).Ok?
    ensures s.strategy.Some? && s.strategy.value.cooldown > 0
    ensures RebalanceStep(env, s, signer, mint, minOut, accounts, fundSwap).value.strategy
         == Some(s.strategy.value.(lastRebalance := env.now))
    ensures env.now >= s.strategy.value.lastRebalance + s.strategy.value.cooldown
  {
    hide SurveyFrom, OffTarget, BuyTarget, SellTarget, LoadPrice;
    ReadyToRebalance(env, s, signer, minOut, accounts);
  }

  lemma StrategyStepMoves(env: Env, s: Ledger, ix: Ix)
    requires Step(env, s, ix).Ok?
    ensures StrategyMoves(env, s, ix, Step(env, s, ix).value)
    ensures ix.Rebalance? ==> s.strategy.Some? && s.strategy.value.cooldown > 0
  {
    hide DepositStep, RequestWithdrawStep, CancelWithdrawStep, ExecuteWithdrawStep, AddTokenStep, RemoveTokenStep,
         CreateLimitStep, ExecuteLimitStep, CancelLimitStep, CreateDcaStep, ExecuteDcaStep, CancelDcaStep, BorrowStep,
         SettleStep, RebalanceStep, TransferSharesStep, CreditVaultStep, CheckAllocations, CheckListed, Frame;
    if ix.Rebalance? {
      RebalanceMoves(env, s, ix.signer, ix.mint, ix.minOut, ix.accounts, ix.fundSwap);
    } else if !ix.SetStrategy? {
      StepFrame(env, s, ix);
      FrameKeeps(s, ix, Step(env, s, ix).value);
    }
  }

  lemma {:induction false} StrategyClock(s: Ledger, run: seq<Event>)
    requires s.strategy.Some? && s.strategy.value.cooldown > 0 && Exec(s, run).Ok?
    ensures Exec(s, run).value.strategy.Some?
    ensures var was, now := s.strategy.value, Exec(s, run).value.strategy.value;
            now == was.(lastRebalance := now.lastRebalance) && now.lastRebalance >= was.lastRebalance
  {
    hide Step;
    if run != [] {
      var before, last := ExecLast(s, run);
      StrategyClock(s, run[..|run| - 1]);
      StrategyStepMoves(last.env, before, last.ix);
    }
  }

  /** Two rebalances of a run are at least the strategy's cooldown apart. */
  lemma RebalancesAreSpaced(s: Ledger, first: Event, mid: seq<Event>, second: Event)
    requires first.ix.Rebalance? && second.ix.Rebalance? && Exec(s, [first] + mid + [second]).Ok?
    ensures s.strategy.Some? && second.env.now >= first.env.now + s.strategy.value.cooldown
  {
    hide Step, Exec;
    var whole := [first] + mid + [second];
    assert whole[..|whole| - 1] == [first] + mid;
    var before, last := ExecLast(s, whole);
    ExecConcat(s, [first], mid);
    ExecOne(s, first);
    StrategyStepMoves(first.env, s, first.ix);
    StrategyClock(Step(first.env, s, first.ix).value, mid);
    StrategyStepMoves(second.env, before, second.ix);
  }
}
