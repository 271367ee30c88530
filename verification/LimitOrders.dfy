/** A limit order executes only on the terms it was created with. */
module LimitOrders {
  import opened Results
  import opened Ints
  import opened Oracle
  import opened Ledgers
  import opened Steps
  import opened Runs
  import opened Frames
  import opened Invariants
  import opened DcaOrders
  import opened Lifecycles

  ghost predicate SameLimitTerms(order: LimitOrder, after: LimitOrder) {
    && after == order.(escrow := after.escrow)
    && after.escrow.side == order.escrow.side && after.escrow.mint == order.escrow.mint
  }

  lemma ExecuteLimitTerms(env: Env, s: Ledger, signer: Address, id: nat, swap: Swap)
    requires ExecuteLimitStep(env, s, signer, id, swap).Ok?
    ensures id in s.limits
    ensures var after := ExecuteLimitStep(env, s, signer, id, swap).value;
            id in after.limits && SameLimitTerms(s.limits[id], after.limits[id])
  {
    hide QuoteFor, ScalePrice, SwapOut, Executable;
    var order := s.limits[id];
    SwapOutSpends(env, s, order.escrow, order.amountIn, order.minOut, true,
                  QuoteFor(env, s, order.escrow, order.feed).value, swap);
  }

  lemma CreditedLimitTerms(s: Ledger, after: Ledger, vault: Vault, id: nat)
    requires id in s.limits && CreditFrame(s, after, vault)
    ensures id in after.limits && SameLimitTerms(s.limits[id], after.limits[id])
  {
    hide Richer;
    assert id in after.limits;
    assert after.limits[id] == s.limits[id].(escrow := after.limits[id].escrow);
    assert after.limits[id] == s.limits[id] || Richer(s.limits[id].escrow, after.limits[id].escrow);
    if after.limits[id] != s.limits[id] {
      RicherSides(s.limits[id].escrow, after.limits[id].escrow);
    }
  }

  lemma RicherSides(e: Escrow, after: Escrow)
    requires Richer(e, after)
    ensures after.side == e.side && after.mint == e.mint
  {
  }

  /** A limit order that is still there has its terms, and one that has been given an id before
      can only have come from before. */
  lemma LimitStepOf(env: Env, s: Ledger, ix: Ix, id: nat)
    requires Step(env, s, ix).Ok? && id < s.nextOrderId
    ensures var after := Step(env, s, ix).value;
            id in after.limits ==> id in s.limits && SameLimitTerms(s.limits[id], after.limits[id])
  {
    hide DepositStep, RequestWithdrawStep, CancelWithdrawStep, ExecuteWithdrawStep, AddTokenStep, RemoveTokenStep,
         CreateLimitStep, ExecuteLimitStep, CancelLimitStep, CreateDcaStep, ExecuteDcaStep, CancelDcaStep, BorrowStep,
         SettleStep, SetStrategyStep, RebalanceStep, TransferSharesStep, CreditVaultStep, CreditFrame, SharesFrame,
         WhitelistFrame, LimitFrame, DcaFrame, SameLimitTerms;
    var after := Step(env, s, ix).value;
    StepFrame(env, s, ix);
    if ix.ExecuteLimit? && ix.id == id {
      ExecuteLimitTerms(env, s, ix.signer, id, ix.swap);
    } else {
      OtherLimitStep(env, s, ix, id, after);
    }
  }

  lemma OtherLimitStep(env: Env, s: Ledger, ix: Ix, id: nat, after: Ledger)
    requires Frame(s, ix, after) && Step(env, s, ix) == Ok(after) && id < s.nextOrderId
    requires !(ix.ExecuteLimit? && ix.id == id)
    ensures id in after.limits ==> id in s.limits && SameLimitTerms(s.limits[id], after.limits[id])
  {
    hide Step, LimitFrame, DcaFrame, WhitelistFrame, SharesFrame, CreditFrame;
    match ix {
      case CreateLimit(_, _, _, _, _, _, _, _) => OtherLimit(s, after, s.nextOrderId, id);
      case ExecuteLimit(_, other, _) => OtherLimit(s, after, other, id);
      case CancelLimit(_, other, _) =>
        if other == id {
          CancelledLimitIsGone(env, s, ix);
        } else {
          OtherLimit(s, after, other, id);
        }
      case CreateDca(_, _, _, _, _, _, _, _, _) => DcasOnly(s, after, s.nextOrderId);
      case ExecuteDca(_, other, _, _) => DcasOnly(s, after, other);
      case CancelDca(_, other, _) => DcasOnly(s, after, other);
      case CreditVault(vault, _) =>
        if id in s.limits {
          CreditedLimitTerms(s, after, vault, id);
        } else {
          CreditCreatesNothing(s, after, vault, id);
        }
      case _ => SameOrders(s, ix, after);
    }
  }

  lemma CreditCreatesNothing(s: Ledger, after: Ledger, vault: Vault, id: nat)
    requires id !in s.limits && CreditFrame(s, after, vault)
    ensures id !in after.limits
  {
    hide CreditedLimit, CreditedDca;
    match vault {
      case LimitSolVault(other) => CreditedLimitIds(s, after, other);
      case LimitTokenVault(other) => CreditedLimitIds(s, after, other);
      case DcaSolVault(other) => CreditedDcaIds(s, after, other);
      case DcaTokenVault(other) => CreditedDcaIds(s, after, other);
      case _ =>
    }
  }

  lemma CreditedLimitIds(s: Ledger, after: Ledger, id: nat)
    requires CreditedLimit(s, after, id)
    ensures after.limits.Keys == s.limits.Keys
  {
    hide Richer;
  }

  lemma CreditedDcaIds(s: Ledger, after: Ledger, id: nat)
    requires CreditedDca(s, after, id)
    ensures after.limits == s.limits
  {
    hide Richer;
  }

  lemma CancelledLimitIsGone(env: Env, s: Ledger, ix: Ix)
    requires ix.CancelLimit? && Step(env, s, ix).Ok?
    ensures ix.id !in Step(env, s, ix).value.limits
  {
    hide MayCancel, Refund;
  }

  lemma {:induction false} LimitTermsKept(s: Ledger, run: seq<Event>, id: nat)
    requires Exec(s, run).Ok? && id < s.nextOrderId && id in Exec(s, run).value.limits
    ensures id in s.limits && SameLimitTerms(s.limits[id], Exec(s, run).value.limits[id])
  {
    hide Step;
    if run != [] {
      var before, last := ExecLast(s, run);
      ClosedOrdersStayClosed(s, run[..|run| - 1], id);
      LimitStepOf(last.env, before, last.ix, id);
      LimitTermsKept(s, run[..|run| - 1], id);
    }
  }

  /** The price has reached the limit: for a SELL it is exactly at least the limit; for a BUY it
      is below one whole unit above the limit, which is at most the limit when rescaling the
      price drops no digits. */
  ghost predicate Reaches(side: Side, limitPrice: i64, priceExpo: i32, price: Price) {
    match side
    case Sell => PriceAtLeast(price.price, price.expo, limitPrice, priceExpo)
    case Buy =>
      if price.expo >= priceExpo then PriceAtMost(price.price, price.expo, limitPrice, priceExpo)
      else price.price < (limitPrice + 1) * Pow10(priceExpo - price.expo)
  }

  /** The handler's comparison of the rescaled price is exactly that. */
  lemma TriggersExactly(side: Side, limitPrice: i64, priceExpo: i32, price: Price)
    requires price.price > 0 && ScalePrice(price.price, price.expo, priceExpo).Ok?
    ensures Triggered(side, ScalePrice(price.price, price.expo, priceExpo).value, limitPrice)
       <==> Reaches(side, limitPrice, priceExpo, price)
  {
    hide ScalePrice, Pow10, PriceAtLeast, PriceAtMost;
    if side.Sell? {
      SellTriggerExact(price.price, price.expo, limitPrice, priceExpo);
    } else {
      BuyTriggerExact(price.price, price.expo, limitPrice, priceExpo);
    }
  }

  /** An order that may execute and whose price can be rescaled is turned away as not triggered
      if and only if the price has not reached its limit. */
  lemma NotTriggeredIff(env: Env, s: Ledger, signer: Address, order: LimitOrder, swap: Swap)
    requires Executable(env, s, signer, order.escrow, order.expiry).Ok?
    requires QuoteFor(env, s, order.escrow, order.feed).Ok?
    requires var price := QuoteFor(env, s, order.escrow, order.feed).value.price;
             ScalePrice(price.price, price.expo, order.priceExpo).Ok?
    ensures FillLimit(env, s, signer, order, swap) == Err(OrderNotTriggered)
       <==> !Reaches(order.escrow.side, order.limitPrice, order.priceExpo,
                     QuoteFor(env, s, order.escrow, order.feed).value.price)
  {
    hide QuoteFor, SwapOut, ScalePrice, Reaches, Executable;
    var quote := QuoteFor(env, s, order.escrow, order.feed).value;
    TriggersExactly(order.escrow.side, order.limitPrice, order.priceExpo, quote.price);
    SwapOutIsTriggered(env, s, order.escrow, order.amountIn, order.minOut, quote, swap);
  }

  lemma SwapOutIsTriggered(env: Env, s: Ledger, e: Escrow, amount: u64, minOut: u64, quote: Quote, swap: Swap)
    ensures SwapOut(env, s, e, amount, minOut, true, quote, swap) != Err(OrderNotTriggered)
  {
    hide ExpectedOut;
    ExpectedOutIsTriggered(e.side, amount, quote);
  }

  lemma ExpectedOutIsTriggered(side: Side, amount: u64, quote: Quote)
    ensures ExpectedOut(side, amount, quote) != Err(OrderNotTriggered)
  {
    hide Mul, Div, Pow10, AsU64;
  }

  /** An execution honours the terms: it happens once the limit is reached, in time, and for at
      least the minimum output. */
  ghost predicate Honours(env: Env, side: Side, minOut: u64, limitPrice: i64, priceExpo: i32, expiry: i64,
                          price: Price, swap: Swap) {
    && Reaches(side, limitPrice, priceExpo, price)
    && (expiry == 0 || env.now <= expiry)
    && Output(side, swap) >= minOut
  }

  lemma FillHonours(env: Env, s: Ledger, signer: Address, order: LimitOrder, swap: Swap)
    requires FillLimit(env, s, signer, order, swap).Ok?
    ensures QuoteFor(env, s, order.escrow, order.feed).Ok?
    ensures Honours(env, order.escrow.side, order.minOut, order.limitPrice, order.priceExpo, order.expiry,
                    QuoteFor(env, s, order.escrow, order.feed).value.price, swap)
  {
    hide QuoteFor, SwapOut, ScalePrice, Reaches;
    var quote := QuoteFor(env, s, order.escrow, order.feed).value;
    SwapOutDelivers(env, s, order.escrow, order.amountIn, order.minOut, true, quote, swap);
    TriggersExactly(order.escrow.side, order.limitPrice, order.priceExpo, quote.price);
  }

  /** Whatever happens between the creation of a limit order and its execution, the execution
      honours the terms of the creation, at the price of the feed the mint was listed with. */
  lemma ExecutionHonoursCreation(env: Env, s: Ledger, signer: Address, side: u8, mint: Address, amount: u64,
                                 minOut: u64, limitPrice: i64, priceExpo: i32, expiry: i64,
                                 run: seq<Event>, at: Env, keeper: Address, swap: Swap)
    requires CreateLimitStep(env, s, signer, side, mint, amount, minOut, limitPrice, priceExpo, expiry).Ok?
    requires Exec(CreateLimitStep(env, s, signer, side, mint, amount, minOut, limitPrice, priceExpo, expiry).value,
                  run).Ok?
    requires ExecuteLimitStep(at, Exec(CreateLimitStep(env, s, signer, side, mint, amount, minOut, limitPrice,
                                                       priceExpo, expiry).value, run).value,
                              keeper, s.nextOrderId, swap).Ok?
    ensures mint in s.listings && LoadPrice(at, s.listings[mint].feed).Ok?
    ensures SideOf(side).Ok?
    ensures Honours(at, SideOf(side).value, minOut, limitPrice, priceExpo, expiry,
                    LoadPrice(at, s.listings[mint].feed).value, swap)
  {
    hide Step, Exec, OpenLimit, FillLimit, Honours;
    CreatedTerms(env, s, signer, side, mint, amount, minOut, limitPrice, priceExpo, expiry);
    var created := CreateLimitStep(env, s, signer, side, mint, amount, minOut, limitPrice, priceExpo, expiry).value;
    var before := Exec(created, run).value;
    var id := s.nextOrderId;
    LimitTermsKept(created, run, id);
    FillHonours(at, before, keeper, before.limits[id], swap);
  }

  lemma CreatedTerms(env: Env, s: Ledger, signer: Address, side: u8, mint: Address, amount: u64, minOut: u64,
                     limitPrice: i64, priceExpo: i32, expiry: i64)
    requires CreateLimitStep(env, s, signer, side, mint, amount, minOut, limitPrice, priceExpo, expiry).Ok?
    ensures mint in s.listings && SideOf(side).Ok?
    ensures var created := CreateLimitStep(env, s, signer, side, mint, amount, minOut, limitPrice, priceExpo,
                                           expiry).value;
            && s.nextOrderId in created.limits && created.nextOrderId == s.nextOrderId + 1
            && var order := created.limits[s.nextOrderId];
            && order.escrow.side == SideOf(side).value && order.escrow.mint == mint
            && order == LimitOrder(order.escrow, amount, minOut, limitPrice, priceExpo, s.listings[mint].feed, expiry)
  {
    hide FundOrder, InitialSol;
    var waiting := WaitingSol(s, LimitKind);
    FundedCovers(s, SideOf(side).value, mint, amount, WaitingTokens(s, LimitKind, SideOf(side).value, mint),
                 if side == 0 then InitialSol(env, waiting) else waiting, false);
  }
}
