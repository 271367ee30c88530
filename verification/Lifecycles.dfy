/** Order ids and statuses over runs, and what cannot fail in a reachable ledger. */
module Lifecycles {
  import opened Results
  import opened Ints
  import opened Ledgers
  import opened Steps
  import opened Runs
  import opened Frames
  import opened Invariants

  ghost predicate OpenLimitOrder(s: Ledger, id: nat) {
    id in s.limits && s.limits[id].escrow.status.Open?
  }

  ghost predicate OpenDcaOrder(s: Ledger, id: nat) {
    id in s.dcas && s.dcas[id].escrow.status.Open?
  }

  /** No order with an id below the next one is open in `after` unless it was open in `s`. */
  ghost predicate Reopens(s: Ledger, after: Ledger, id: nat) {
    || (OpenLimitOrder(after, id) && !OpenLimitOrder(s, id))
    || (OpenDcaOrder(after, id) && !OpenDcaOrder(s, id))
  }

  lemma OrderMustBeOpen(env: Env, s: Ledger, ix: Ix)
    requires Step(env, s, ix).Ok?
    ensures ix.ExecuteLimit? || ix.CancelLimit? ==> OpenLimitOrder(s, ix.id)
    ensures ix.ExecuteDca? || ix.CancelDca? ==> OpenDcaOrder(s, ix.id)
  {
    hide DepositStep, RequestWithdrawStep, CancelWithdrawStep, ExecuteWithdrawStep, AddTokenStep, RemoveTokenStep,
         CreateLimitStep, CreateDcaStep, BorrowStep, SettleStep, SetStrategyStep, RebalanceStep, TransferSharesStep,
         CreditVaultStep, QuoteFor, SwapOut, CompleteDca, Refund;
  }

  lemma IdsGrow(env: Env, s: Ledger, ix: Ix)
    requires Step(env, s, ix).Ok?
    ensures s.nextOrderId <= Step(env, s, ix).value.nextOrderId
  {
    hide DepositStep, RequestWithdrawStep, CancelWithdrawStep, ExecuteWithdrawStep, AddTokenStep, RemoveTokenStep,
         ExecuteLimitStep, CancelLimitStep, ExecuteDcaStep, CancelDcaStep, BorrowStep, SettleStep, SetStrategyStep,
         RebalanceStep, TransferSharesStep, CreditVaultStep, OpenLimit, OpenDca, Frame;
    match ix {
      case CreateLimit(signer, side, mint, amount, minOut, limitPrice, priceExpo, expiry) =>
        OpenLimitSound(env, s, signer, side, mint, amount, minOut, limitPrice, priceExpo, expiry);
      case CreateDca(signer, side, mint, amount, slice, interval, minOut, expiry, other) =>
        OpenDcaSound(env, s, signer, side, mint, amount, slice, interval, minOut, expiry, other);
      case _ =>
        StepFrame(env, s, ix);
        FrameKeeps(s, ix, Step(env, s, ix).value);
    }
  }

  lemma CreditReopensNothing(s: Ledger, after: Ledger, vault: Vault, id: nat)
    requires CreditFrame(s, after, vault)
    ensures !Reopens(s, after, id)
  {
    hide Richer, CreditedLimit, CreditedDca;
    match vault {
      case LimitSolVault(other) => CreditedLimitOpens(s, after, other, id);
      case LimitTokenVault(other) => CreditedLimitOpens(s, after, other, id);
      case DcaSolVault(other) => CreditedDcaOpens(s, after, other, id);
      case DcaTokenVault(other) => CreditedDcaOpens(s, after, other, id);
      case _ =>
    }
  }

  lemma CreditedLimitOpens(s: Ledger, after: Ledger, other: nat, id: nat)
    requires CreditedLimit(s, after, other)
    ensures !Reopens(s, after, id)
  {
  }

  lemma CreditedDcaOpens(s: Ledger, after: Ledger, other: nat, id: nat)
    requires CreditedDca(s, after, other)
    ensures !Reopens(s, after, id)
  {
  }

  lemma StepReopensNothing(env: Env, s: Ledger, ix: Ix, id: nat)
    requires Step(env, s, ix).Ok? && id < s.nextOrderId
    ensures !Reopens(s, Step(env, s, ix).value, id)
    ensures s.nextOrderId <= Step(env, s, ix).value.nextOrderId
  {
    hide DepositStep, RequestWithdrawStep, CancelWithdrawStep, ExecuteWithdrawStep, AddTokenStep, RemoveTokenStep,
         CreateLimitStep, ExecuteLimitStep, CancelLimitStep, CreateDcaStep, ExecuteDcaStep, CancelDcaStep, BorrowStep,
         SettleStep, SetStrategyStep, RebalanceStep, TransferSharesStep, CreditVaultStep, CreditFrame,
         SharesFrame, WhitelistFrame, LimitFrame, DcaFrame;
    var after := Step(env, s, ix).value;
    OrderMustBeOpen(env, s, ix);
    IdsGrow(env, s, ix);
    StepFrame(env, s, ix);
    if OnOrder(ix) {
      OrderReopensNothing(s, ix, after, id);
    } else if ix.CreditVault? {
      CreditReopensNothing(s, after, ix.vault, id);
    } else {
      SameOrders(s, ix, after);
    }
  }

  lemma OrderReopensNothing(s: Ledger, ix: Ix, after: Ledger, id: nat)
    requires Frame(s, ix, after) && OnOrder(ix) && id < s.nextOrderId
    requires ix.ExecuteLimit? || ix.CancelLimit? ==> OpenLimitOrder(s, ix.id)
    requires ix.ExecuteDca? || ix.CancelDca? ==> OpenDcaOrder(s, ix.id)
    ensures !Reopens(s, after, id)
  {
    hide LimitFrame, DcaFrame;
    if ix.CreateLimit? || ix.ExecuteLimit? || ix.CancelLimit? {
      var changed := if ix.CreateLimit? then s.nextOrderId else ix.id;
      LimitsOnly(s, after, changed);
      if id != changed {
        OtherLimit(s, after, changed, id);
      }
    } else {
      var changed := if ix.CreateDca? then s.nextOrderId else ix.id;
      DcasOnly(s, after, changed);
      if id != changed {
        OtherDca(s, after, changed, id);
      }
    }
  }

  lemma LimitsOnly(s: Ledger, after: Ledger, changed: nat)
    requires LimitFrame(s, after, changed)
    ensures after.dcas == s.dcas
  {
  }

  lemma DcasOnly(s: Ledger, after: Ledger, changed: nat)
    requires DcaFrame(s, after, changed)
    ensures after.limits == s.limits
  {
  }

  /** Ids are never reused and closed orders never reopen: an id that has been given out and is
      not open now is not open after any run. */
  lemma {:induction false} ClosedOrdersStayClosed(s: Ledger, run: seq<Event>, id: nat)
    requires Exec(s, run).Ok? && id < s.nextOrderId
    ensures !Reopens(s, Exec(s, run).value, id)
    ensures s.nextOrderId <= Exec(s, run).value.nextOrderId
  {
    hide Step;
    if run != [] {
      var before, last := ExecLast(s, run);
      ClosedOrdersStayClosed(s, run[..|run| - 1], id);
      StepReopensNothing(last.env, before, last.ix, id);
    }
  }

  // ---- checks that cannot fail ---------------------------------------------------------------

  lemma ExpectedOutErrors(side: Side, amount: u64, quote: Quote)
    ensures ExpectedOut(side, amount, quote) != Err(InsufficientLiquidity)
    ensures ExpectedOut(side, amount, quote) != Err(DcaCompleted)
  {
    hide Mul, Div, Pow10, AsU64;
  }

  lemma SwapOutErrors(env: Env, s: Ledger, e: Escrow, amount: u64, minOut: u64, whole: bool, quote: Quote, swap: Swap)
    requires Covers(e, amount)
    ensures SwapOut(env, s, e, amount, minOut, whole, quote, swap) != Err(InsufficientLiquidity)
    ensures SwapOut(env, s, e, amount, minOut, whole, quote, swap) != Err(DcaCompleted)
  {
    hide ExpectedOut;
    ExpectedOutErrors(e.side, amount, quote);
  }

  lemma CoversLess(e: Escrow, amount: u64, part: u64)
    requires Covers(e, amount) && part <= amount
    ensures Covers(e, part)
  {
  }

  lemma FillSliceErrors(env: Env, s: Ledger, signer: Address, order: DcaOrder, swap: Swap, solVaultPassed: bool)
    requires DcaSound(order) && order.escrow.status.Open?
    ensures FillSlice(env, s, signer, order, swap, solVaultPassed) != Err(InsufficientLiquidity)
    ensures FillSlice(env, s, signer, order, swap, solVaultPassed) != Err(DcaCompleted)
  {
    hide SwapOut, Covers;
    assert Covers(order.escrow, SliceOf(order)) by { CoversLess(order.escrow, order.remaining, SliceOf(order)); }
    var quote := QuoteFor(env, s, order.escrow, order.feed);
    if quote.Ok? {
      SwapOutErrors(env, s, order.escrow, SliceOf(order), order.minOut, false, quote.value, swap);
    }
  }

  /** The escrow of an open DCA order never runs short: no execution fails for want of liquidity
      or because nothing is left. */
  lemma DcaNeverRunsShort(env: Env, s: Ledger, signer: Address, id: nat, swap: Swap, solVaultPassed: bool)
    requires Reachable(s) && OpenDcaOrder(s, id)
    ensures ExecuteDcaStep(env, s, signer, id, swap, solVaultPassed) != Err(InsufficientLiquidity)
    ensures ExecuteDcaStep(env, s, signer, id, swap, solVaultPassed) != Err(DcaCompleted)
  {
    hide Reachable, FillSlice, SharesSound, TradingSound, LimitsSound, KindSound, StrategySound, RequestsSound;
    ReachableIsSound(s);
    FillSliceErrors(env, s, signer, s.dcas[id], swap, solVaultPassed);
  }

  /** Whoever closes an open order finds its counter positive, a settle instruction finds its
      snapshot above what was borrowed, and at most 20 DCA orders are open. */
  lemma CountersNeverUnderflow(s: Ledger, id: nat)
    requires Reachable(s)
    ensures OpenLimitOrder(s, id) ==> SubU16(s.limitCount, 1).Ok?
    ensures OpenDcaOrder(s, id) ==> SubU16(s.dcaCount, 1).Ok?
    ensures s.trading.locked ==> SubU64(s.trading.snapshotSol, s.trading.borrowed).Ok?
    ensures |OpenIds(DcaBook(s))| == s.dcaCount <= 20
  {
    hide Reachable, SharesSound, KindSound, StrategySound, RequestsSound, LimitSound, DcaSound;
    ReachableIsSound(s);
    if OpenLimitOrder(s, id) {
      assert id in OpenIds(LimitBook(s));
    }
    if OpenDcaOrder(s, id) {
      assert id in OpenIds(DcaBook(s));
    }
  }
}
