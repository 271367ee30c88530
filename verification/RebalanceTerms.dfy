/** A rebalance written out: exactly when it is accepted, what it trades and the ledger after it;
    and over a run, the weight it aims at is the one the manager gave. */
module RebalanceTerms {
  import opened Results
  import opened Ints
  import opened Oracle
  import opened Ledgers
  import opened Navs
  import opened Steps
  import opened Runs
  import opened Ranges
  import opened OracleRanges
  import opened ShareTerms
  import opened OrderTerms
  import opened NavTerms
  import opened FundTerms
  import opened Rebalancing

  // ---- the survey --------------------------------------------------------------------------------

  ghost function RowWorths(env: Env, s: Ledger, strategy: StrategyAccount, i: nat): nat
    requires i <= strategy.count
    decreases strategy.count - i
  {
    if i == strategy.count then 0
    else RowWorth(env, s, strategy.allocations[i].mint) + RowWorths(env, s, strategy, i + 1)
  }

  ghost predicate RowsRight(env: Env, s: Ledger, strategy: StrategyAccount, accounts: seq<Address>, i: nat)
    requires i <= strategy.count && |accounts| >= 3 * strategy.count
  {
    forall k :: i <= k < strategy.count ==>
      RowRight(env, s, strategy.allocations[k].mint, accounts[3 * k], accounts[3 * k + 1], accounts[3 * k + 2])
  }

  /** The last allocation of the target, and the only one in a sound ledger. */
  ghost predicate IsRow(strategy: StrategyAccount, target: Address, row: nat) {
    && row < strategy.count && strategy.allocations[row].mint == target
    && forall k :: row < k < strategy.count ==> strategy.allocations[k].mint != target
  }

  ghost predicate PositionThere(env: Env, s: Ledger, strategy: StrategyAccount, row: nat) {
    && row < strategy.count
    && var mint := strategy.allocations[row].mint;
    && mint in s.tokens && mint in s.listings && Quoted(env, s, mint, s.listings[mint].feed)
  }

  /** The position the survey finds at a row. */
  ghost function PositionAt(env: Env, s: Ledger, strategy: StrategyAccount, row: nat): Position
    requires PositionThere(env, s, strategy, row)
  {
    var allocation := strategy.allocations[row];
    var mint, listing := allocation.mint, s.listings[allocation.mint];
    Position(allocation.weightBps, RowWorth(env, s, mint), s.tokens[mint], listing.decimals, env.oracle[listing.feed])
  }

  lemma RowStep(env: Env, s: Ledger, strategy: StrategyAccount, sol: Price, target: Address, accounts: seq<Address>,
                i: nat, survey: Survey)
    returns (next: Survey)
    requires i < strategy.count && |accounts| >= 3 * strategy.count && LoadPrice(env, env.solFeed) == Ok(sol)
    ensures var mint := strategy.allocations[i].mint;
            var here, end := RowRight(env, s, mint, accounts[3 * i], accounts[3 * i + 1], accounts[3 * i + 2]),
                             SurveyFrom(env, s, strategy, sol, target, accounts, i, survey);
            && (end.Ok? ==> here)
            && (here ==>
                  && PositionThere(env, s, strategy, i)
                  && end == SurveyFrom(env, s, strategy, sol, target, accounts, i + 1, next)
                  && next == Survey(survey.nav + RowWorth(env, s, mint),
                                    if mint == target then Some(PositionAt(env, s, strategy, i)) else survey.target))
  {
    hide TokenValue, RowWorth, Quoted, LoadPrice, ListedMint, Expects;
    var mint, feed := strategy.allocations[i].mint, accounts[3 * i + 2];
    ListedMintIff(s, accounts[3 * i], mint);
    QuotedIff(env, s, mint, feed);
    next := survey;
    if mint in s.tokens && Quoted(env, s, mint, feed) {
      RowValue(env, s, mint, sol, feed);
      next := Survey(survey.nav + RowWorth(env, s, mint),
                     if mint == target then Some(PositionAt(env, s, strategy, i)) else survey.target);
    }
  }

  /** The pass over the allocations, from allocation `i`. */
  lemma {:induction false} SurveyIff(env: Env, s: Ledger, strategy: StrategyAccount, sol: Price, target: Address,
                                     accounts: seq<Address>, i: nat, survey: Survey)
    requires i <= strategy.count && |accounts| >= 3 * strategy.count && LoadPrice(env, env.solFeed) == Ok(sol)
    ensures var end := SurveyFrom(env, s, strategy, sol, target, accounts, i, survey);
            && (end.Ok? <==> RowsRight(env, s, strategy, accounts, i))
            && (end.Ok? ==> end.value.nav == survey.nav + RowWorths(env, s, strategy, i))
    decreases strategy.count - i
  {
    hide RowRight, RowWorth, Quoted, PositionAt, PositionThere;
    if i < strategy.count {
      var next := RowStep(env, s, strategy, sol, target, accounts, i, survey);
      hide SurveyFrom;
      SurveyIff(env, s, strategy, sol, target, accounts, i + 1, next);
    }
  }

  /** The target's position, as long as its last allocation is still ahead. */
  lemma {:induction false} SurveyTarget(env: Env, s: Ledger, strategy: StrategyAccount, sol: Price, target: Address,
                                        accounts: seq<Address>, i: nat, survey: Survey, row: nat)
    requires i <= strategy.count && |accounts| >= 3 * strategy.count && LoadPrice(env, env.solFeed) == Ok(sol)
    requires SurveyFrom(env, s, strategy, sol, target, accounts, i, survey).Ok? && IsRow(strategy, target, row)
    requires i > row ==> PositionThere(env, s, strategy, row)
                         && survey.target == Some(PositionAt(env, s, strategy, row))
    ensures PositionThere(env, s, strategy, row)
    ensures SurveyFrom(env, s, strategy, sol, target, accounts, i, survey).value.target
         == Some(PositionAt(env, s, strategy, row))
    decreases strategy.count - i
  {
    hide RowRight, RowWorth, Quoted, PositionAt, PositionThere;
    if i < strategy.count {
      var next := RowStep(env, s, strategy, sol, target, accounts, i, survey);
      hide SurveyFrom;
      SurveyTarget(env, s, strategy, sol, target, accounts, i + 1, next, row);
    }
  }

  lemma {:induction false} SurveyNoTarget(env: Env, s: Ledger, strategy: StrategyAccount, sol: Price, target: Address,
                                          accounts: seq<Address>, i: nat, survey: Survey)
    requires i <= strategy.count && |accounts| >= 3 * strategy.count && LoadPrice(env, env.solFeed) == Ok(sol)
    requires SurveyFrom(env, s, strategy, sol, target, accounts, i, survey).Ok?
    requires forall k :: i <= k < strategy.count ==> strategy.allocations[k].mint != target
    ensures SurveyFrom(env, s, strategy, sol, target, accounts, i, survey).value.target == survey.target
    decreases strategy.count - i
  {
    hide RowRight, RowWorth, Quoted, PositionAt, PositionThere;
    if i < strategy.count {
      var next := RowStep(env, s, strategy, sol, target, accounts, i, survey);
      hide SurveyFrom;
      SurveyNoTarget(env, s, strategy, sol, target, accounts, i + 1, next);
    }
  }

  // ---- the conditions ----------------------------------------------------------------------------

  /** The keeper rebalances a strategy fund whose strategy covers the counted mints, with nothing
      wrapped, the cooldown over and SOL's price there. */
  ghost predicate Ready(env: Env, s: Ledger, signer: Address, minOut: u64, accounts: seq<Address>) {
    && s.strategy.Some? && signer == env.keeper && minOut > 0 && s.fundType.StrategyFund?
    && var strategy := s.strategy.value;
    && 0 < strategy.count == s.enabledCount % 256 && strategy.cooldown > 0 && Balance(s.tokens, Key(0)) == 0
    && FitsTime(strategy.lastRebalance + strategy.cooldown) && env.now >= strategy.lastRebalance + strategy.cooldown
    && env.solFeed in env.oracle && env.oracle[env.solFeed].price > 0 && |accounts| >= 3 * strategy.count
  }

  lemma ReadyIff(env: Env, s: Ledger, signer: Address, minOut: u64, accounts: seq<Address>)
    ensures MayRebalance(env, s, signer, minOut, accounts).Ok? <==> Ready(env, s, signer, minOut, accounts)
    ensures Ready(env, s, signer, minOut, accounts) ==>
              MayRebalance(env, s, signer, minOut, accounts).value == (s.strategy.value, env.oracle[env.solFeed])
  {
  }

  /** A purchase for `spend` lamports, which the swap finds wrapped in the fund's wrapped-SOL vault:
      the vaults stay the same ones, and the target's ends above both minimums. */
  ghost predicate Buys(env: Env, s: Ledger, mint: Address, feed: Address, spend: u64, minOut: u64, fundSwap: FundSwap,
                       least: nat)
    requires Quoted(env, s, mint, feed)
  {
    var before := if mint == Key(0) then spend else Balance(s.tokens, mint);
    && s.vaultSol >= spend && fundSwap.tokensAfter.Keys == s.tokens.Keys + {Key(0)}
    && Tolerates(env, s, Buy, mint, feed, spend, least)
    && Balance(fundSwap.tokensAfter, mint) >= before + least
    && Balance(fundSwap.tokensAfter, mint) >= before + minOut
    && Fits64(s.vaultSol - spend + fundSwap.solCredit)
  }

  /** What is sold is at most the lot, the lesser of `ideal` and all there is, and two units more. */
  ghost predicate SoldWithin(ideal: u64, held: u64, left: u64) {
    var lot := if ideal < held then ideal else held;
    lot > 0 && 0 < held - left <= lot + 2 && Fits64(lot + 2)
  }

  /** A sale of at most what `desired` lamports are worth. */
  ghost predicate Sells(env: Env, s: Ledger, mint: Address, feed: Address, desired: u64, minOut: u64,
                        fundSwap: FundSwap, least: nat)
    requires Quoted(env, s, mint, feed)
  {
    var held, left := Balance(s.tokens, mint), Balance(fundSwap.tokensAfter, mint);
    && fundSwap.tokensAfter.Keys == s.tokens.Keys
    && Expects(env, s, Buy, mint, feed, desired) && SoldWithin(Expected(env, s, Buy, mint, feed, desired), held, left)
    && Tolerates(env, s, Sell, mint, feed, held - left, least)
    && fundSwap.solCredit >= least && fundSwap.solCredit >= minOut && Fits64(s.vaultSol + fundSwap.solCredit)
  }

  lemma BuyTargetIff(env: Env, s: Ledger, mint: Address, position: Position, feed: Address, spend: u64, minOut: u64,
                     fundSwap: FundSwap)
    returns (least: u64)
    requires Quoted(env, s, mint, feed) && position.decimals == s.listings[mint].decimals
    requires position.price == env.oracle[feed]
    ensures var traded := BuyTarget(env, s, mint, position, env.oracle[env.solFeed], spend, minOut, fundSwap);
            && (traded.Ok? <==> Buys(env, s, mint, feed, spend, minOut, fundSwap, least))
            && (traded.Ok? ==>
                  traded.value == Traded(s.vaultSol - spend + fundSwap.solCredit, fundSwap.tokensAfter))
  {
    hide Expects, Expected, LeastOutput, ExpectedTokenOut, ApplyMaxSlippage, Quoted;
    least := LeastOf(env, s, Buy, mint, feed, spend);
  }

  lemma SellTargetIff(env: Env, s: Ledger, mint: Address, position: Position, feed: Address, desired: u64, minOut: u64,
                      fundSwap: FundSwap)
    returns (least: u64)
    requires Quoted(env, s, mint, feed) && position.decimals == s.listings[mint].decimals
    requires position.price == env.oracle[feed] && mint in s.tokens && position.amount == s.tokens[mint]
    ensures var traded := SellTarget(env, s, mint, position, env.oracle[env.solFeed], desired, minOut, fundSwap);
            && (traded.Ok? <==> Sells(env, s, mint, feed, desired, minOut, fundSwap, least))
            && (traded.Ok? ==> traded.value == Traded(s.vaultSol + fundSwap.solCredit, fundSwap.tokensAfter))
  {
    hide Expects, Expected, LeastOutput, ExpectedTokenOut, TokenValue, ApplyMaxSlippage, Quoted;
    ExpectedIff(env, s, Buy, mint, feed, desired);
    least := 0;
    if Balance(s.tokens, mint) > Balance(fundSwap.tokensAfter, mint) {
      least := LeastOf(env, s, Sell, mint, feed, Balance(s.tokens, mint) - Balance(fundSwap.tokensAfter, mint));
    }
  }

  // ---- the instruction ---------------------------------------------------------------------------

  /** The strategy's NAV: the fund's lamports and its allocated vaults. */
  ghost function Assets(env: Env, s: Ledger, strategy: StrategyAccount): nat {
    s.vaultSol + RowWorths(env, s, strategy, 0)
  }

  /** The target's row is further from its goal than the threshold, and the trade is right.  The goal
      and the threshold are the row's and the strategy's basis points of the NAV, rounded down. */
  ghost predicate Trades(env: Env, s: Ledger, strategy: StrategyAccount, mint: Address, minOut: u64,
                         fundSwap: FundSwap, row: nat, goal: nat, threshold: nat, least: nat) {
    && IsRow(strategy, mint, row) && PositionThere(env, s, strategy, row) && Assets(env, s, strategy) > 0
    && PartOf(goal, Assets(env, s, strategy), strategy.allocations[row].weightBps, 10_000)
    && PartOf(threshold, Assets(env, s, strategy), strategy.thresholdBps, 10_000)
    && var value, feed := RowWorth(env, s, mint), s.listings[mint].feed;
    if value < goal then
      goal - value > threshold && Buys(env, s, mint, feed, Low64(goal - value), minOut, fundSwap, least)
    else
      value - goal > threshold && Sells(env, s, mint, feed, Low64(value - goal), minOut, fundSwap, least)
  }

  lemma {:induction false} FindRow(strategy: StrategyAccount, target: Address, n: nat) returns (row: nat)
    requires n <= strategy.count && forall k :: n <= k < strategy.count ==> strategy.allocations[k].mint != target
    ensures || IsRow(strategy, target, row)
            || forall k :: 0 <= k < strategy.count ==> strategy.allocations[k].mint != target
  {
    row := 0;
    if n > 0 {
      if strategy.allocations[n - 1].mint == target {
        row := n - 1;
      } else {
        row := FindRow(strategy, target, n - 1);
      }
    }
  }

  lemma OffTargetIff(strategy: StrategyAccount, survey: Survey) returns (goal: nat, threshold: nat)
    ensures survey.nav > 0 && survey.target.Some? ==>
              && PartOf(goal, survey.nav, survey.target.value.weightBps, 10_000)
              && PartOf(threshold, survey.nav, strategy.thresholdBps, 10_000)
              && Deviation(survey.nav, survey.target.value) == survey.target.value.value - goal
    ensures OffTarget(strategy, survey).Ok?
       <==> survey.nav > 0 && survey.target.Some? && Abs(survey.target.value.value - goal) > threshold
    ensures OffTarget(strategy, survey).Ok? ==> OffTarget(strategy, survey).value == survey.target.value
  {
    hide BpsOf, PartOf;
    goal, threshold := 0, 0;
    if survey.nav > 0 && survey.target.Some? {
      goal := BpsOf(survey.nav, survey.target.value.weightBps);
      threshold := BpsOf(survey.nav, strategy.thresholdBps);
      BpsPart(survey.nav, survey.target.value.weightBps);
      BpsPart(survey.nav, strategy.thresholdBps);
    }
  }

  /** The trade of a position, and the fund's lamports after it. */
  ghost function TradeOf(env: Env, s: Ledger, mint: Address, position: Position, deviation: int, minOut: u64,
                         fundSwap: FundSwap): Result<Traded>
    requires env.solFeed in env.oracle
  {
    if deviation < 0 then
      BuyTarget(env, s, mint, position, env.oracle[env.solFeed], AsU64(Abs(deviation)), minOut, fundSwap)
    else
      SellTarget(env, s, mint, position, env.oracle[env.solFeed], AsU64(Abs(deviation)), minOut, fundSwap)
  }

  ghost function VaultAfter(s: Ledger, fundSwap: FundSwap, value: nat, goal: nat): int {
    s.vaultSol + fundSwap.solCredit - if value < goal then Low64(goal - value) else 0
  }

  lemma TradeOfIff(env: Env, s: Ledger, strategy: StrategyAccount, minOut: u64, fundSwap: FundSwap, row: nat, goal: nat)
    returns (least: u64)
    requires PositionThere(env, s, strategy, row)
    ensures var mint, value := strategy.allocations[row].mint, RowWorth(env, s, strategy.allocations[row].mint);
            var feed := s.listings[mint].feed;
            var traded := TradeOf(env, s, mint, PositionAt(env, s, strategy, row), value - goal, minOut, fundSwap);
            && (traded.Ok? <==>
                  if value < goal then Buys(env, s, mint, feed, Low64(goal - value), minOut, fundSwap, least)
                  else Sells(env, s, mint, feed, Low64(value - goal), minOut, fundSwap, least))
            && (traded.Ok? ==>
                  && traded.value.vaultSol == VaultAfter(s, fundSwap, value, goal)
                  && traded.value.tokens == fundSwap.tokensAfter)
  {
    hide BuyTarget, SellTarget, RowWorth, Buys, Sells, AsU64, Low64;
    var mint := strategy.allocations[row].mint;
    var value, feed := RowWorth(env, s, mint), s.listings[mint].feed;
    var position := PositionAt(env, s, strategy, row);
    LowBits(Abs(value - goal));
    if value < goal {
      least := BuyTargetIff(env, s, mint, position, feed, Low64(goal - value), minOut, fundSwap);
    } else {
      least := SellTargetIff(env, s, mint, position, feed, Low64(value - goal), minOut, fundSwap);
    }
  }

  /** Exactly when a surveyed rebalance trades, and what. */
  lemma TradeIff(env: Env, s: Ledger, strategy: StrategyAccount, mint: Address, minOut: u64, accounts: seq<Address>,
                 fundSwap: FundSwap, survey: Survey)
    returns (row: nat, goal: nat, threshold: nat, least: u64)
    requires env.solFeed in env.oracle && LoadPrice(env, env.solFeed) == Ok(env.oracle[env.solFeed])
    requires |accounts| >= 3 * strategy.count
    requires SurveyFrom(env, s, strategy, env.oracle[env.solFeed], mint, accounts, 0, Survey(s.vaultSol, None))
          == Ok(survey)
    ensures var position := OffTarget(strategy, survey);
            var traded := if position.Err? then Err(InvalidNav)
                          else TradeOf(env, s, mint, position.value, Deviation(survey.nav, position.value), minOut,
                                       fundSwap);
            && (traded.Ok? <==> Trades(env, s, strategy, mint, minOut, fundSwap, row, goal, threshold, least))
            && (traded.Ok? ==>
                  && traded.value.vaultSol == VaultAfter(s, fundSwap, RowWorth(env, s, mint), goal)
                  && traded.value.tokens == fundSwap.tokensAfter)
  {
    hide OffTarget, Deviation, SurveyFrom, TradeOf, PartOf, RowWorth, Buys, Sells, Low64, LoadPrice, RowWorths,
         RowsRight, Quoted, VaultAfter;
    SurveyIff(env, s, strategy, env.oracle[env.solFeed], mint, accounts, 0, Survey(s.vaultSol, None));
    goal, threshold := OffTargetIff(strategy, survey);
    least := 0;
    row := FindRow(strategy, mint, strategy.count);
    if IsRow(strategy, mint, row) {
      SurveyTarget(env, s, strategy, env.oracle[env.solFeed], mint, accounts, 0, Survey(s.vaultSol, None), row);
      least := TradeOfIff(env, s, strategy, minOut, fundSwap, row, goal);
    } else {
      SurveyNoTarget(env, s, strategy, env.oracle[env.solFeed], mint, accounts, 0, Survey(s.vaultSol, None));
    }
  }

  /** Exactly when a rebalance is accepted, and the ledger after it. */
  lemma RebalanceIff(env: Env, s: Ledger, signer: Address, mint: Address, minOut: u64, accounts: seq<Address>,
                     fundSwap: FundSwap)
    returns (row: nat, goal: nat, threshold: nat, least: u64)
    ensures var step := RebalanceStep(env, s, signer, mint, minOut, accounts, fundSwap);
            && (step.Ok? <==>
                  && Ready(env, s, signer, minOut, accounts)
                  && RowsRight(env, s, s.strategy.value, accounts, 0)
                  && Trades(env, s, s.strategy.value, mint, minOut, fundSwap, row, goal, threshold, least))
            && (step.Ok? ==>
                  && Fits64(VaultAfter(s, fundSwap, RowWorth(env, s, mint), goal))
                  && step.value == s.(vaultSol := VaultAfter(s, fundSwap, RowWorth(env, s, mint), goal),
                                      tokens := fundSwap.tokensAfter,
                                      strategy := Some(s.strategy.value.(lastRebalance := env.now))))
  {
    hide MayRebalance, SurveyFrom, OffTarget, Deviation, BuyTarget, SellTarget, RowsRight, Trades, VaultAfter, RowWorth;
    ReadyIff(env, s, signer, minOut, accounts);
    row, goal, threshold, least := 0, 0, 0, 0;
    if Ready(env, s, signer, minOut, accounts) {
      var strategy, sol := s.strategy.value, env.oracle[env.solFeed];
      SurveyIff(env, s, strategy, sol, mint, accounts, 0, Survey(s.vaultSol, None));
      if RowsRight(env, s, strategy, accounts, 0) {
        var survey := SurveyFrom(env, s, strategy, sol, mint, accounts, 0, Survey(s.vaultSol, None)).value;
        row, goal, threshold, least := TradeIff(env, s, strategy, mint, minOut, accounts, fundSwap, survey);
      }
    }
  }

  // ---- over a run --------------------------------------------------------------------------------

  lemma StrategyGiven(s: Ledger, choice: Event)
    requires choice.ix.SetStrategy? && Step(choice.env, s, choice.ix).Ok?
    ensures var chosen := Step(choice.env, s, choice.ix).value.strategy;
            && chosen.Some? && Holds(chosen.value.allocations, choice.ix.allocations)
            && chosen.value.count == |choice.ix.allocations| && chosen.value.thresholdBps == choice.ix.thresholdBps
            && chosen.value.cooldown == choice.ix.cooldown > 0
            && forall j, k :: 0 <= j < k < |choice.ix.allocations| ==>
                 choice.ix.allocations[j].mint != choice.ix.allocations[k].mint
  {
    hide SetStrategyStep, TotalWeight;
    SetStrategyIff(choice.env, s, choice.ix.signer, choice.ix.allocations, choice.ix.thresholdBps, choice.ix.cooldown,
                   choice.ix.accounts);
  }

  /** After a strategy was set and whatever ran since, a rebalance of a mint aims at the weight the
      manager gave for that mint, and trades beyond the threshold the manager gave. */
  lemma RebalanceUsesGivenWeight(s: Ledger, choice: Event, mid: seq<Event>, rebalance: Event)
    returns (row: nat, goal: nat, threshold: nat, least: u64)
    requires choice.ix.SetStrategy? && rebalance.ix.Rebalance? && Exec(s, [choice] + mid + [rebalance]).Ok?
    ensures row < |choice.ix.allocations| && choice.ix.allocations[row].mint == rebalance.ix.mint
    ensures forall k :: 0 <= k < |choice.ix.allocations| && k != row ==>
              choice.ix.allocations[k].mint != rebalance.ix.mint
    ensures Exec(s, [choice] + mid).Ok? && Exec(s, [choice] + mid).value.strategy.Some?
    ensures var before, ix := Exec(s, [choice] + mid).value, rebalance.ix;
            var nav := Assets(rebalance.env, before, before.strategy.value);
            && PartOf(goal, nav, choice.ix.allocations[row].weightBps, 10_000)
            && PartOf(threshold, nav, choice.ix.thresholdBps, 10_000)
            && Trades(rebalance.env, before, before.strategy.value, ix.mint, ix.minOut, ix.fundSwap, row, goal,
                      threshold, least)
  {
    hide Step, Exec, RowsRight, Ready, Buys, Sells, PositionThere, PartOf, Assets, RebalanceStep, VaultAfter;
    var whole := [choice] + mid + [rebalance];
    assert whole[..|whole| - 1] == [choice] + mid;
    var before, last := ExecLast(s, whole);
    ExecConcat(s, [choice], mid);
    ExecOne(s, choice);
    StrategyGiven(s, choice);
    StrategyClock(Step(choice.env, s, choice.ix).value, mid);
    var ix := rebalance.ix;
    IsRebalance(rebalance.env, before, ix);
    row, goal, threshold, least := RebalanceIff(rebalance.env, before, ix.signer, ix.mint, ix.minOut, ix.accounts,
                                                ix.fundSwap);
  }

  lemma IsRebalance(env: Env, s: Ledger, ix: Ix)
    requires ix.Rebalance?
    ensures Step(env, s, ix) == RebalanceStep(env, s, ix.signer, ix.mint, ix.minOut, ix.accounts, ix.fundSwap)
  {
  }
}
