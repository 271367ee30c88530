/** The read-only halves of the handlers: their checks, loops and arithmetic, each proved to
    compute what the step function says.  `FundProgram` writes the results to the accounts. */
module Handlers {
  import opened Results
  import opened Ints
  import opened Oracle
  import opened Ledgers
  import opened Navs
  import opened Steps

  method CollectDeposit(env: Env, s: Ledger, investor: Address, amount: u64,
                        accounts: seq<Address>)
    returns (r: Result<Paid>)
    ensures r == DepositPaid(env, s, investor, amount, accounts)
  {
    hide Nav, PayDeposit, MintShares, ProRata, BpsOf, AsU64;
    if amount < s.minDeposit {
      return Err(DepositTooSmall);
    }
    var fee := BpsOf(amount, env.depositFeeBps);
    :- Need(fee <= amount, MathOverflow);
    var net := amount - fee;
    var nav :- ComputeNav(env, s, accounts);
    :- Need(nav > 0, MathOverflow);
    :- Need(s.totalShares > 0, MathOverflow);
    var minted := AsU64(ProRata(net, s.totalShares, nav));
    :- Need(minted > 0, ZeroShares);
    var paid :- PayDeposit(env, s, investor, Split(fee, net));
    var vault :- AddU64(s.vaultSol, net);
    var book :- MintShares(s, investor, minted);
    return Ok(Paid(paid, vault, book));
  }

  method PreparePayout(env: Env, s: Ledger, investor: Address, accounts: seq<Address>) returns (r: Result<Paid>)
    ensures r == WithdrawPaid(env, s, investor, accounts)
  {
    hide Nav, DueRequest, BurnShares, PayInvestor, ProRata, BpsOf, AsU64;
    var request :- DueRequest(env, s, investor);
    var nav :- ComputeNav(env, s, accounts);
    if nav == 0 || s.totalShares == 0 {
      return Err(MathOverflow);
    }
    var gross := AsU64(ProRata(request.shares, nav, s.totalShares));
    var fee := AsU64(BpsOf(gross, env.withdrawFeeBps));
    var net :- SubU64(gross, fee);
    :- Need(s.vaultSol >= gross, InsufficientLiquidity);
    var book :- BurnShares(s, investor, request.shares);
    var paid :- PayInvestor(env, s, investor, Payout(gross, fee, net));
    return Ok(Paid(paid, s.vaultSol - gross, book));
  }

  /** Moves an order's input out of the fund's vault into the order's own. */
  method MoveToEscrow(s: Ledger, side: Side, mint: Address, amount: u64, waiting: u64, initialSol: u64, other: bool)
    returns (r: Result<Funded>)
    ensures r == FundOrder(s, side, mint, amount, waiting, initialSol, other)
  {
    if waiting != 0 {
      return Err(InvalidOrderVault);
    }
    var sol, token: u64 := initialSol, 0;
    var vault, held := s.vaultSol, s.tokens;
    match side {
      case Buy =>
        :- Need(vault >= amount, InsufficientLiquidity);
        vault := vault - amount;
        sol :- AddU64(sol, amount);
      case Sell =>
        if !other {
          held :- DebitFrom(held, mint, amount);
        }
        token := amount;
    }
    return Ok(Funded(Escrow(side, mint, Open, sol, token), vault, held));
  }

  method TryOpenLimit(env: Env, s: Ledger, signer: Address, side: u8, mint: Address, amount: u64, minOut: u64,
                      limitPrice: i64, priceExpo: i32, expiry: i64)
    returns (r: Result<Opened<LimitOrder>>)
    ensures r == OpenLimit(env, s, signer, side, mint, amount, minOut, limitPrice, priceExpo, expiry)
  {
    hide FundOrder, AddU64, AddU16;
    :- Need(mint in s.tokens && s.nextOrderId !in s.limits, AccountError);
    :- Need(amount > 0, MathOverflow);
    :- Need(minOut > 0, InvalidMinOut);
    :- Need(limitPrice > 0, InvalidOracle);
    :- Need(signer == s.manager, Unauthorized);
    :- Need(s.fundType.TradingFund?, InvalidFundType);
    :- Need(mint in s.listings, InvalidTokenVault);
    :- Need(side == 0 || side == 1, InvalidOrderSide);
    var nextId :- AddU64(s.nextOrderId, 1);
    var count :- AddU16(s.limitCount, 1);
    var which := if side == 0 then Buy else Sell;
    var sol := Balance(s.loose, SolVaultAt(s.key, LimitKind, s.nextOrderId));
    var waiting := Balance(s.loose, TokenVaultAt(s.key, LimitKind, s.nextOrderId, VaultMint(which, mint)));
    if side == 0 && sol == 0 {
      sol := env.solVaultRent;
    }
    var funded :- MoveToEscrow(s, which, mint, amount, waiting, sol, false);
    var order := LimitOrder(funded.escrow, amount, minOut, limitPrice, priceExpo, s.listings[mint].feed, expiry);
    return Ok(Opened(order, nextId, count, funded.vaultSol, funded.tokens,
                     s.loose - {SolVaultAt(s.key, LimitKind, s.nextOrderId)}));
  }

  method TryOpenDca(env: Env, s: Ledger, signer: Address, side: u8, mint: Address, amount: u64, slice: u64,
                    interval: i64, minOut: u64, expiry: i64, other: bool)
    returns (r: Result<Opened<DcaOrder>>)
    ensures r == OpenDca(env, s, signer, side, mint, amount, slice, interval, minOut, expiry, other)
  {
    hide FundOrder, AddU64, AddU16, AddI64;
    :- Need(mint in s.tokens && s.nextOrderId !in s.dcas, AccountError);
    :- Need(side == 0 || side == 1, InvalidOrderSide);
    :- Need(amount > 0, MathOverflow);
    :- Need(slice > 0, InvalidDcaSlice);
    :- Need(slice <= amount, InvalidDcaSlice);
    :- Need(interval > 0, InvalidDcaInterval);
    :- Need(minOut > 0, InvalidMinOut);
    :- Need(signer == s.manager, Unauthorized);
    :- Need(s.fundType.TradingFund?, InvalidFundType);
    :- Need(s.dcaCount < MAX_ACTIVE_DCA, MaxActiveDca);
    :- Need(mint in s.listings, InvalidTokenVault);
    var nextId :- AddU64(s.nextOrderId, 1);
    var count :- AddU16(s.dcaCount, 1);
    var nextExec :- AddI64(env.now, interval);
    var which := if side == 0 then Buy else Sell;
    var sol := Balance(s.loose, SolVaultAt(s.key, DcaKind, s.nextOrderId));
    var waiting := Balance(s.loose, TokenVaultAt(s.key, DcaKind, s.nextOrderId, VaultMint(which, mint)));
    if sol == 0 {
      sol := env.solVaultRent;
    }
    var funded :- MoveToEscrow(s, which, mint, amount, waiting, sol, other);
    var order := DcaOrder(funded.escrow, amount, slice, amount, interval, nextExec, minOut, s.listings[mint].feed,
                          expiry);
    return Ok(Opened(order, nextId, count, funded.vaultSol, funded.tokens,
                     s.loose - {SolVaultAt(s.key, DcaKind, s.nextOrderId)}));
  }

  /** Gives a cancelled order's input back and closes its token vault, or the account passed in its
      place. */
  method PayBack(env: Env, s: Ledger, e: Escrow, other: bool) returns (r: Result<Funded>)
    ensures r == Refund(env, s, e, other)
  {
    hide CreditTo;
    var vault, held, left := s.vaultSol, s.tokens, e.(status := Cancelled);
    match e.side {
      case Buy =>
        vault :- AddU64(vault, e.sol);
        left := left.(sol := 0);
        :- Need(other || e.token == 0, InvalidOrderVault);
      case Sell =>
        if !other {
          held :- CreditTo(held, e.mint, e.token);
        }
        left := left.(token := 0);
    }
    vault :- AddU64(vault, env.tokenRent);
    return Ok(Funded(left, vault, held));
  }

  method TryCloseLimit(env: Env, s: Ledger, signer: Address, id: nat, e: Escrow, other: bool)
    returns (r: Result<Closed>)
    ensures r == CloseLimit(env, s, signer, id, e, other)
  {
    hide Refund, SolVaultAt, TokenVaultAt;
    :- Need(e.status.Open?, OrderNotOpen);
    :- Need(signer == s.manager, Unauthorized);
    :- Need(s.fundType.TradingFund?, InvalidFundType);
    var refund :- PayBack(env, s, e, other);
    var count :- SubU16(s.limitCount, 1);
    var vault :- AddU64(refund.vaultSol, env.orderRent);
    var left := s.loose;
    match e.side {
      case Buy => left := left[TokenVaultAt(s.key, LimitKind, id, NATIVE_MINT) := refund.escrow.token];
      case Sell => left := left[SolVaultAt(s.key, LimitKind, id) := refund.escrow.sol];
    }
    RefundSide(env, s, e, other);
    return Ok(Closed(count, vault, refund.tokens, left));
  }

  lemma RefundSide(env: Env, s: Ledger, e: Escrow, other: bool)
    requires Refund(env, s, e, other).Ok?
    ensures Refund(env, s, e, other).value.escrow.side == e.side
  {
  }

  method TryCloseDca(env: Env, s: Ledger, signer: Address, order: DcaOrder, other: bool)
    returns (r: Result<Filled<DcaOrder>>)
    ensures r == CloseDca(env, s, signer, order, other)
  {
    hide Refund;
    :- Need(order.escrow.status.Open?, OrderNotOpen);
    :- Need(signer == s.manager, Unauthorized);
    :- Need(s.fundType.TradingFund?, InvalidFundType);
    :- Need(!other || order.escrow.side.Sell?, InvalidOrderVault);
    var refund :- PayBack(env, s, order.escrow, other);
    var count :- SubU16(s.dcaCount, 1);
    return Ok(Filled(order.(escrow := refund.escrow), count, refund.vaultSol, refund.tokens));
  }

  /** Wraps a BUY order's input, lets the swap happen and checks what it did: the escrow and
      the fund's balances afterwards. */
  method SwapEscrow(env: Env, s: Ledger, e: Escrow, amount: u64, minOut: u64, whole: bool, quote: Quote, swap: Swap)
    returns (r: Result<Swapped>)
    ensures r == SwapOut(env, s, e, amount, minOut, whole, quote, swap)
  {
    hide TokenValue, ExpectedTokenOut, ApplyMaxSlippage, CreditTo;
    var orderSol, orderTokenBefore := e.sol, e.token;
    if e.side.Buy? {
      :- Need(orderSol >= amount, InsufficientLiquidity);
      orderSol := orderSol - amount;
      orderTokenBefore :- AddU64(orderTokenBefore, amount);
    } else {
      :- Need(whole || orderTokenBefore >= amount, InsufficientLiquidity);
    }
    var solAfter :- AddU64(s.vaultSol, swap.solCredit);
    var tokensAfter :- CreditTo(s.tokens, e.mint, swap.tokenCredit);
    var delta, expected: u64 := swap.solCredit, 0;
    if e.side.Buy? {
      delta := swap.tokenCredit;
      expected :- ExpectedTokenOutFromSol(amount, quote.decimals, quote.price, quote.sol);
    } else {
      expected :- TokenValueInLamports(amount, quote.decimals, quote.price, quote.sol);
    }
    var minExpected :- ApplyMaxSlippage(expected, env.maxSlippageBps);
    :- Need(delta >= minExpected, InvalidTokenVault);
    :- Need(delta >= minOut, InvalidTokenVault);
    :- Need((e.side.Buy? || whole) ==> orderTokenBefore == amount, InvalidOrderVault);
    :- Need(swap.orderTokenAfter == orderTokenBefore - amount, InvalidOrderVault);
    return Ok(Swapped(e.(sol := orderSol, token := swap.orderTokenAfter), solAfter, tokensAfter));
  }

  method TryLimit(env: Env, s: Ledger, signer: Address, order: LimitOrder,
                  swap: Swap)
    returns (r: Result<Filled<LimitOrder>>)
    ensures r == FillLimit(env, s, signer, order, swap)
  {
    hide SwapOut, ScalePrice, AddU64, SubU16, Executable, QuoteFor;
    var ready :- Executable(env, s, signer, order.escrow, order.expiry);
    var quote :- QuoteFor(env, s, order.escrow, order.feed);
    var scaled :- ScalePriceTo(quote.price.price, quote.price.expo, order.priceExpo);
    :- Need(Triggered(order.escrow.side, scaled, order.limitPrice), OrderNotTriggered);
    var after :- SwapEscrow(env, s, order.escrow, order.amountIn, order.minOut, true, quote, swap);
    var vault :- AddU64(after.vaultSol, env.tokenRent);
    var count :- SubU16(s.limitCount, 1);
    return Ok(Filled(order.(escrow := after.escrow.(status := Executed)), count, vault, after.tokens));
  }

  method TrySlice(env: Env, s: Ledger, signer: Address, order: DcaOrder, swap: Swap, solVaultPassed: bool)
    returns (r: Result<Filled<DcaOrder>>)
    ensures r == FillSlice(env, s, signer, order, swap, solVaultPassed)
  {
    hide SwapOut, SubU16, AddI64, Executable, QuoteFor, CompleteDca;
    var ready :- Executable(env, s, signer, order.escrow, order.expiry);
    :- Need(env.now >= order.nextExec, DcaNotReady);
    var quote :- QuoteFor(env, s, order.escrow, order.feed);
    :- Need(order.escrow.side.Sell? || solVaultPassed, InvalidOrderVault);
    var slice := order.slice;
    if order.remaining < order.slice {
      slice := order.remaining;
    }
    :- Need(slice > 0, DcaCompleted);
    var swapped :- SwapEscrow(env, s, order.escrow, slice, order.minOut, false, quote, swap);
    var nextExec :- AddI64(order.nextExec, order.interval);
    var after := order.(remaining := order.remaining - slice, nextExec := nextExec, escrow := swapped.escrow);
    if after.remaining > 0 {
      return Ok(Filled(after, s.dcaCount, swapped.vaultSol, swapped.tokens));
    }
    var count :- SubU16(s.dcaCount, 1);
    var done :- CompleteDca(env, swapped.escrow, swapped.vaultSol, solVaultPassed);
    return Ok(Filled(after.(escrow := done.0), count, done.1, swapped.tokens));
  }

  method FindSettle(later: seq<Meta>, expected: seq<Address>) returns (r: Result<()>)
    ensures r == ScanForSettle(later, expected)
  {
    var found := false;
    var scan := 0;
    assert later[0..] == later;
    while scan < |later|
      invariant scan <= |later| && !found
      invariant ScanForSettle(later, expected) == ScanForSettle(later[scan..], expected)
    {
      if later[scan].isSettle {
        :- Need(expected <= later[scan].accounts, InvalidSettleInstruction);
        found := true;
        break;
      }
      assert later[scan..][1..] == later[scan + 1..];
      scan := scan + 1;
    }
    :- Need(found, MissingSettleInstruction);
    return Ok(());
  }

  method CheckWeights(chosen: seq<Allocation>) returns (r: Result<nat>)
    ensures match r
            case Ok(sum) => CheckAllocations(chosen, 0).Ok? && sum == WeightSum(chosen)
            case Err(e) => CheckAllocations(chosen, 0) == Err(e)
  {
    var sum: nat := 0;
    var seen: seq<Address> := [];
    for i := 0 to |chosen|
      invariant |seen| == i && forall j :: 0 <= j < i ==> seen[j] == chosen[j].mint
      invariant sum == WeightSum(chosen[..i])
      invariant CheckAllocations(chosen, 0) == CheckAllocations(chosen, i)
    {
      :- Need(chosen[i].weightBps > 0, InvalidStrategy);
      assert chosen[..i + 1][..i] == chosen[..i];
      sum := sum + chosen[i].weightBps;
      :- Need(chosen[i].mint !in seen, InvalidStrategy);
      seen := seen + [chosen[i].mint];
    }
    assert chosen[..|chosen|] == chosen;
    return Ok(sum);
  }

  method CheckWhitelisted(s: Ledger, chosen: seq<Allocation>, accounts: seq<Address>) returns (r: Result<()>)
    requires |accounts| == |chosen|
    ensures r == CheckListed(s, chosen, accounts, 0)
  {
    for i := 0 to |chosen|
      invariant CheckListed(s, chosen, accounts, 0) == CheckListed(s, chosen, accounts, i)
    {
      var mint :- ListedMint(s, accounts[i]);
      :- Need(mint == chosen[i].mint, InvalidTokenVault);
    }
    return Ok(());
  }

  /** The fixed-size table, cleared and then filled from the front. */
  method FillTable(chosen: seq<Allocation>) returns (table: array<Allocation>)
    requires |chosen| <= MAX_STRATEGY_TOKENS
    ensures fresh(table) && table[..] == Padded(chosen) && table.Length == 8
    ensures forall k :: 0 <= k < |chosen| ==> table[k] == chosen[k]
    ensures forall k :: |chosen| <= k < 8 ==> table[k] == Allocation(Key(1), 0)
  {
    table := new Allocation[MAX_STRATEGY_TOKENS](_ => NO_ALLOCATION);
    for i := 0 to |chosen|
      invariant table[..i] == chosen[..i]
      invariant forall j :: i <= j < table.Length ==> table[j] == NO_ALLOCATION
    {
      table[i] := chosen[i];
    }
  }

  /** The loop over the allocations: the fund's NAV and the target's position. */
  method SurveyAllocations(env: Env, s: Ledger, chosen: StrategyAccount, sol: Price, target: Address,
                           accounts: seq<Address>)
    returns (r: Result<Survey>)
    requires |accounts| >= 3 * chosen.count
    ensures r == SurveyFrom(env, s, chosen, sol, target, accounts, 0, Survey(s.vaultSol, None))
  {
    hide TokenValue;
    var nav: int := s.vaultSol;
    var found: Option<Position> := None;
    for i := 0 to chosen.count
      invariant SurveyFrom(env, s, chosen, sol, target, accounts, 0, Survey(s.vaultSol, None))
             == SurveyFrom(env, s, chosen, sol, target, accounts, i, Survey(nav, found))
    {
      var mint :- ListedMint(s, accounts[3 * i]);
      :- Need(mint == chosen.allocations[i].mint, InvalidTokenVault);
      :- Need(accounts[3 * i + 2] == s.listings[mint].feed, InvalidOracle);
      :- Need(accounts[3 * i + 1] == Ata(s.key, mint) && mint in s.tokens, InvalidTokenVault);
      var price :- LoadPrice(env, s.listings[mint].feed);
      var value :- TokenValueInLamports(s.tokens[mint], s.listings[mint].decimals, price, sol);
      nav := nav + value;
      if mint == target {
        found := Some(Position(chosen.allocations[i].weightBps, value, s.tokens[mint], s.listings[mint].decimals,
                               price));
      }
    }
    return Ok(Survey(nav, found));
  }

  /** Under weight: wraps the lamports, swaps them and checks what arrived. */
  method TryBuy(env: Env, s: Ledger, mint: Address, position: Position, sol: Price, spend: u64, minOut: u64,
                fundSwap: FundSwap)
    returns (r: Result<Traded>)
    ensures r == BuyTarget(env, s, mint, position, sol, spend, minOut, fundSwap)
  {
    hide ExpectedTokenOut, ApplyMaxSlippage;
    var vault, held := s.vaultSol, s.tokens;
    :- Need(vault >= spend, InsufficientLiquidity);
    vault := vault - spend;
    held := held[NATIVE_MINT := spend];
    var before := Balance(held, mint);
    :- Need(fundSwap.tokensAfter.Keys == held.Keys, AccountError);
    held := fundSwap.tokensAfter;
    var delta :- SubU64(Balance(held, mint), before);
    vault :- AddU64(vault, fundSwap.solCredit);
    var expected :- ExpectedTokenOutFromSol(spend, position.decimals, position.price, sol);
    var minExpected :- ApplyMaxSlippage(expected, env.maxSlippageBps);
    :- Need(delta >= minExpected, InvalidTokenVault);
    :- Need(delta >= minOut, InvalidTokenVault);
    return Ok(Traded(vault, held));
  }

  /** Over weight: swaps up to the position and checks what was sold and what it brought. */
  method TrySell(env: Env, s: Ledger, mint: Address, position: Position, sol: Price, desired: u64, minOut: u64,
                 fundSwap: FundSwap)
    returns (r: Result<Traded>)
    ensures r == SellTarget(env, s, mint, position, sol, desired, minOut, fundSwap)
  {
    hide TokenValue, ExpectedTokenOut, ApplyMaxSlippage;
    var sellAmount :- ExpectedTokenOutFromSol(desired, position.decimals, position.price, sol);
    if position.amount < sellAmount {
      sellAmount := position.amount;
    }
    :- Need(sellAmount > 0, InvalidStrategy);
    var before := Balance(s.tokens, mint);
    :- Need(fundSwap.tokensAfter.Keys == s.tokens.Keys, AccountError);
    var after := Balance(fundSwap.tokensAfter, mint);
    :- Need(after <= before, InvalidTokenVault);
    var sold: u64 := before - after;
    :- Need(sold > 0, InvalidTokenVault);
    var sellMax :- AddU64(sellAmount, SELL_DUST_TOLERANCE);
    :- Need(sold <= sellMax, InvalidTokenVault);
    var vault :- AddU64(s.vaultSol, fundSwap.solCredit);
    var expected :- TokenValueInLamports(sold, position.decimals, position.price, sol);
    var minExpected :- ApplyMaxSlippage(expected, env.maxSlippageBps);
    :- Need(fundSwap.solCredit >= minExpected, InvalidTokenVault);
    :- Need(fundSwap.solCredit >= minOut, InvalidTokenVault);
    return Ok(Traded(vault, fundSwap.tokensAfter));
  }

  method TryRebalance(env: Env, s: Ledger, signer: Address, mint: Address, minOut: u64, accounts: seq<Address>,
                      fundSwap: FundSwap)
    returns (r: Result<Traded>)
    ensures r == RebalanceTrade(env, s, signer, mint, minOut, accounts, fundSwap)
  {
    hide MayRebalance, SurveyFrom, OffTarget, BuyTarget, SellTarget, Deviation, AsU64;
    var ready :- MayRebalance(env, s, signer, minOut, accounts);
    var survey :- SurveyAllocations(env, s, ready.0, ready.1, mint, accounts);
    var position :- OffTarget(ready.0, survey);
    var deviation := Deviation(survey.nav, position);
    var amount := AsU64(Abs(deviation));
    if deviation < 0 {
      r := TryBuy(env, s, mint, position, ready.1, amount, minOut, fundSwap);
    } else {
      r := TrySell(env, s, mint, position, ready.1, amount, minOut, fundSwap);
    }
  }
}
