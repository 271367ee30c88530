/** The life of a DCA order: its schedule in closed form over any run. */
module DcaOrders {
  import opened Ints
  import opened Oracle
  import opened Ledgers
  import opened Steps
  import opened Runs
  import opened Frames
  import opened Invariants

  ghost predicate Executes(ix: Ix, id: nat) {
    ix.ExecuteDca? && ix.id == id
  }

  /** How many slices of order `id` a run executes. */
  ghost function Slices(run: seq<Event>, id: nat): nat {
    if run == [] then 0
    else Slices(run[..|run| - 1], id) + if Executes(run[|run| - 1].ix, id) then 1 else 0
  }

  /** What the swap of a slice brought the fund. */
  function Output(side: Side, swap: Swap): u64 {
    match side
    case Buy => swap.tokenCredit
    case Sell => swap.solCredit
  }

  ghost function Delivered(run: seq<Event>, id: nat, side: Side): nat {
    if run == [] then 0
    else
      var last := run[|run| - 1].ix;
      Delivered(run[..|run| - 1], id, side) + if Executes(last, id) then Output(side, last.swap) else 0
  }

  // ---- one step ----------------------------------------------------------------------------

  /** The terms of an order never change. */
  ghost predicate SameTerms(order: DcaOrder, after: DcaOrder) {
    && after == order.(escrow := after.escrow, remaining := after.remaining, nextExec := after.nextExec)
    && after.escrow.side == order.escrow.side && after.escrow.mint == order.escrow.mint
  }

  lemma SwapOutDelivers(env: Env, s: Ledger, e: Escrow, amount: u64, minOut: u64, whole: bool, quote: Quote, swap: Swap)
    requires SwapOut(env, s, e, amount, minOut, whole, quote, swap).Ok?
    ensures var swapped := SwapOut(env, s, e, amount, minOut, whole, quote, swap).value;
            && Output(e.side, swap) >= minOut
            && swapped.vaultSol == s.vaultSol + swap.solCredit
            && swapped.tokens == s.tokens[e.mint := Balance(s.tokens, e.mint) + swap.tokenCredit]
  {
    hide ExpectedOut, ApplyMaxSlippage;
  }

  lemma FillSliceDelivers(env: Env, s: Ledger, signer: Address, order: DcaOrder, swap: Swap, solVaultPassed: bool)
    requires FillSlice(env, s, signer, order, swap, solVaultPassed).Ok?
    ensures var filled := FillSlice(env, s, signer, order, swap, solVaultPassed).value;
            && Output(order.escrow.side, swap) >= order.minOut
            && filled.vaultSol >= s.vaultSol + swap.solCredit
            && filled.tokens == s.tokens[order.escrow.mint := Balance(s.tokens, order.escrow.mint) + swap.tokenCredit]
            && SameTerms(order, filled.order)
  {
    hide QuoteFor, SwapOut, CompleteDca, Balance;
    var slice := SliceOf(order);
    var quote := QuoteFor(env, s, order.escrow, order.feed).value;
    SwapOutDelivers(env, s, order.escrow, slice, order.minOut, false, quote, swap);
    SwapOutSpends(env, s, order.escrow, slice, order.minOut, false, quote, swap);
    var swapped := SwapOut(env, s, order.escrow, slice, order.minOut, false, quote, swap).value;
    if order.remaining == slice {
      CompleteDcaEscrow(env, swapped.escrow, swapped.vaultSol, solVaultPassed);
    }
  }

  /** A slice executes on time, before the expiry, and the fund's vault receives the output. */
  ghost predicate SliceStep(env: Env, s: Ledger, id: nat, swap: Swap, after: Ledger)
    requires id in s.dcas && id in after.dcas
  {
    var order, order' := s.dcas[id], after.dcas[id];
    && order.escrow.status.Open?
    && order'.remaining == order.remaining - SliceOf(order)
    && order'.nextExec == order.nextExec + order.interval
    && order.nextExec <= env.now && (order.expiry == 0 || env.now <= order.expiry)
    && Output(order.escrow.side, swap) >= order.minOut
    && after.vaultSol >= s.vaultSol + swap.solCredit
    && Balance(after.tokens, order.escrow.mint) == Balance(s.tokens, order.escrow.mint) + swap.tokenCredit
  }

  lemma ExecuteDcaSlice(env: Env, s: Ledger, signer: Address, id: nat, swap: Swap, solVaultPassed: bool)
    requires id in s.dcas && DcaSound(s.dcas[id])
    requires ExecuteDcaStep(env, s, signer, id, swap, solVaultPassed).Ok?
    ensures var after := ExecuteDcaStep(env, s, signer, id, swap, solVaultPassed).value;
            && id in after.dcas && DcaSound(after.dcas[id]) && SameTerms(s.dcas[id], after.dcas[id])
            && SliceStep(env, s, id, swap, after)
  {
    hide FillSlice, SameTerms, DcaSound;
    FillSliceSound(env, s, signer, s.dcas[id], swap, solVaultPassed);
    FillSliceDelivers(env, s, signer, s.dcas[id], swap, solVaultPassed);
  }

  lemma CancelDcaTerms(env: Env, s: Ledger, signer: Address, id: nat, other: bool)
    requires id in s.dcas && DcaSound(s.dcas[id])
    requires CancelDcaStep(env, s, signer, id, other).Ok?
    ensures var after := CancelDcaStep(env, s, signer, id, other).value;
            && id in after.dcas && DcaSound(after.dcas[id]) && SameTerms(s.dcas[id], after.dcas[id])
            && after.dcas[id].remaining == s.dcas[id].remaining && after.dcas[id].nextExec == s.dcas[id].nextExec
            && s.dcas[id].escrow.status.Open? && after.dcas[id].escrow.status.Cancelled?
  {
    hide CreditTo, AddU64, SubU16;
  }

  /** What any step does to a DCA order: executes its next slice, cancels it, or leaves its
      progress and its status alone. */
  lemma DcaStepOf(env: Env, s: Ledger, ix: Ix, id: nat)
    requires Step(env, s, ix).Ok? && id in s.dcas && DcaSound(s.dcas[id])
    ensures var after := Step(env, s, ix).value;
            && id in after.dcas && DcaSound(after.dcas[id]) && SameTerms(s.dcas[id], after.dcas[id])
            && (if Executes(ix, id) then SliceStep(env, s, id, ix.swap, after)
                else after.dcas[id].remaining == s.dcas[id].remaining && after.dcas[id].nextExec == s.dcas[id].nextExec)
            && (Executes(ix, id) || (ix.CancelDca? && ix.id == id)
                || after.dcas[id].escrow.status == s.dcas[id].escrow.status)
  {
    hide DepositStep, RequestWithdrawStep, CancelWithdrawStep, ExecuteWithdrawStep, AddTokenStep, RemoveTokenStep,
         CreateLimitStep, ExecuteLimitStep, CancelLimitStep, CreateDcaStep, ExecuteDcaStep, CancelDcaStep, BorrowStep,
         SettleStep, SetStrategyStep, RebalanceStep, TransferSharesStep, CreditVaultStep, SliceStep, SameTerms,
         DcaSound, Frame;
    var after := Step(env, s, ix).value;
    if Executes(ix, id) {
      ExecuteDcaSlice(env, s, ix.signer, id, ix.swap, ix.solVaultPassed);
    } else if ix.CancelDca? && ix.id == id {
      CancelDcaTerms(env, s, ix.signer, id, ix.other);
    } else {
      if ix.CreateDca? {
        NewDcaId(env, s, ix);
      }
      StepFrame(env, s, ix);
      OtherDcaStep(s, ix, id, after);
    }
  }

  /** A new order never takes the place of an old one. */
  lemma NewDcaId(env: Env, s: Ledger, ix: Ix)
    requires ix.CreateDca? && Step(env, s, ix).Ok?
    ensures s.nextOrderId !in s.dcas
  {
    hide DepositStep, RequestWithdrawStep, CancelWithdrawStep, ExecuteWithdrawStep, AddTokenStep, RemoveTokenStep,
         CreateLimitStep, ExecuteLimitStep, CancelLimitStep, ExecuteDcaStep, CancelDcaStep, BorrowStep,
         SettleStep, SetStrategyStep, RebalanceStep, TransferSharesStep, CreditVaultStep, OpenDca;
    match ix {
      case CreateDca(signer, side, mint, amount, slice, interval, minOut, expiry, other) =>
        OpenDcaSound(env, s, signer, side, mint, amount, slice, interval, minOut, expiry, other);
    }
  }

  lemma OtherDcaStep(s: Ledger, ix: Ix, id: nat, after: Ledger)
    requires id in s.dcas && DcaSound(s.dcas[id]) && Frame(s, ix, after)
    requires !Executes(ix, id) && !(ix.CancelDca? && ix.id == id) && (ix.CreateDca? ==> s.nextOrderId != id)
    ensures id in after.dcas && DcaSound(after.dcas[id]) && SameTerms(s.dcas[id], after.dcas[id])
    ensures after.dcas[id].remaining == s.dcas[id].remaining && after.dcas[id].nextExec == s.dcas[id].nextExec
    ensures after.dcas[id].escrow.status == s.dcas[id].escrow.status
  {
    hide DcaSound, DcaFrame, WhitelistFrame, SharesFrame, CreditFrame;
    match ix {
      case CreateDca(_, _, _, _, _, _, _, _, _) => OtherDca(s, after, s.nextOrderId, id);
      case ExecuteDca(_, other, _, _) => OtherDca(s, after, other, id);
      case CancelDca(_, other, _) => OtherDca(s, after, other, id);
      case CreditVault(vault, _) => CreditedDcaSound(s, after, vault, id);
      case CreateLimit(_, _, _, _, _, _, _, _) =>
      case ExecuteLimit(_, _, _) =>
      case CancelLimit(_, _, _) =>
      case _ => SameOrders(s, ix, after);
    }
  }

  lemma CreditedDcaSound(s: Ledger, after: Ledger, vault: Vault, id: nat)
    requires id in s.dcas && DcaSound(s.dcas[id]) && CreditFrame(s, after, vault)
    ensures id in after.dcas && DcaSound(after.dcas[id]) && SameTerms(s.dcas[id], after.dcas[id])
    ensures after.dcas[id].remaining == s.dcas[id].remaining && after.dcas[id].nextExec == s.dcas[id].nextExec
    ensures after.dcas[id].escrow.status == s.dcas[id].escrow.status
  {
    hide DcaSound, Richer, SameTerms;
    assert id in after.dcas;
    assert after.dcas[id] == s.dcas[id] || Richer(s.dcas[id].escrow, after.dcas[id].escrow);
    assert after.dcas[id] == s.dcas[id].(escrow := after.dcas[id].escrow);
    RicherDcaSound(s.dcas[id], after.dcas[id]);
  }

  lemma RicherDcaSound(order: DcaOrder, after: DcaOrder)
    requires DcaSound(order) && after == order.(escrow := after.escrow)
    requires after == order || Richer(order.escrow, after.escrow)
    ensures DcaSound(after) && SameTerms(order, after) && after.escrow.status == order.escrow.status
  {
  }

  // ---- whole runs ----------------------------------------------------------------------------

  /** The schedule of an order after `k` slices, `order` being the order before the first. */
  ghost predicate OnSchedule(order: DcaOrder, k: nat, now: DcaOrder) {
    && order.slice > 0 && order.interval > 0
    && SameTerms(order, now)
    && now.remaining == order.total - Min(order.total, Mul(k, order.slice))
    && now.nextExec == order.nextExec + Mul(k, order.interval)
    && (now.escrow.status.Executed? <==> Mul(k, order.slice) >= order.total)
    && k <= CeilDiv(order.total, order.slice)
  }

  ghost predicate Fresh(order: DcaOrder) {
    DcaSound(order) && order.escrow.status.Open? && order.remaining == order.total
  }

  lemma ScheduleAdvances(order: DcaOrder, k: nat, now: DcaOrder, next: DcaOrder)
    requires DcaSound(order) && DcaSound(now) && DcaSound(next)
    requires OnSchedule(order, k, now) && now.escrow.status.Open? && SameTerms(now, next)
    requires next.remaining == now.remaining - SliceOf(now) && next.nextExec == now.nextExec + now.interval
    ensures OnSchedule(order, k + 1, next)
  {
    hide CeilDiv;
    OneMore(k, order.slice);
    OneMore(k, order.interval);
    CeilDivBounds(order.total, order.slice);
    assert k * order.slice < CeilDiv(order.total, order.slice) * order.slice;
    CancelLt(k, CeilDiv(order.total, order.slice), order.slice);
  }

  /** After any run with `k` executions of a fresh order, whatever else the run did:
      remaining = total - min(total, k * slice), the next execution is k intervals later, and
      the order is executed exactly when k slices cover the total. */
  lemma {:induction false} DcaSchedule(s: Ledger, run: seq<Event>, id: nat)
    requires id in s.dcas && Fresh(s.dcas[id]) && Exec(s, run).Ok?
    ensures id in Exec(s, run).value.dcas && DcaSound(Exec(s, run).value.dcas[id])
    ensures OnSchedule(s.dcas[id], Slices(run, id), Exec(s, run).value.dcas[id])
  {
    hide Step, DcaSound, OnSchedule, SameTerms;
    if run == [] {
      ScheduleStarts(s.dcas[id]);
    } else {
      var before, last := ExecLast(s, run);
      DcaSchedule(s, run[..|run| - 1], id);
      var k := Slices(run[..|run| - 1], id);
      DcaStepOf(last.env, before, last.ix, id);
      var after := Exec(s, run).value;
      if Executes(last.ix, id) {
        ScheduleAdvances(s.dcas[id], k, before.dcas[id], after.dcas[id]);
      } else {
        ScheduleStays(s.dcas[id], k, before.dcas[id], after.dcas[id]);
      }
    }
  }

  lemma ScheduleStarts(order: DcaOrder)
    requires Fresh(order)
    ensures OnSchedule(order, 0, order)
  {
  }

  lemma ScheduleStays(order: DcaOrder, k: nat, now: DcaOrder, next: DcaOrder)
    requires DcaSound(now) && DcaSound(next)
    requires OnSchedule(order, k, now) && SameTerms(now, next)
    requires next.remaining == now.remaining && next.nextExec == now.nextExec
    ensures OnSchedule(order, k, next)
  {
    hide CeilDiv, Mul, Covers;
  }

  lemma OneMore(k: nat, n: nat)
    ensures Mul(k + 1, n) == Mul(k, n) + n
  {
  }

  lemma CompleteAtCeiling(total: nat, slice: nat, k: nat)
    requires slice > 0 && k >= CeilDiv(total, slice)
    ensures Mul(k, slice) >= total
  {
    hide CeilDiv;
    CeilDivBounds(total, slice);
    MulLe(CeilDiv(total, slice), k, slice);
  }

  lemma CompleteOnlyAtCeiling(total: nat, slice: nat, k: nat)
    requires slice > 0 && k < CeilDiv(total, slice)
    ensures Mul(k, slice) < total
  {
    hide CeilDiv;
    CeilDivBounds(total, slice);
    MulLe(k, CeilDiv(total, slice) - 1, slice);
  }

  /** The schedule counted from the creation of the order. */
  lemma DcaScheduleFromCreation(env: Env, s: Ledger, signer: Address, side: u8, mint: Address, amount: u64, slice: u64,
                                interval: i64, minOut: u64, expiry: i64, other: bool, run: seq<Event>)
    requires CreateDcaStep(env, s, signer, side, mint, amount, slice, interval, minOut, expiry, other).Ok?
    requires Exec(CreateDcaStep(env, s, signer, side, mint, amount, slice, interval, minOut, expiry, other).value,
                  run).Ok?
    ensures var id := s.nextOrderId;
            var k := Slices(run, id);
            var end := Exec(CreateDcaStep(env, s, signer, side, mint, amount, slice, interval, minOut, expiry,
                                          other).value, run).value;
            && id in end.dcas
            && end.dcas[id].remaining == amount - Min(amount, Mul(k, slice))
            && end.dcas[id].nextExec == env.now + Mul(k + 1, interval)
            && (end.dcas[id].escrow.status.Executed? <==> k >= CeilDiv(amount, slice))
            && k <= CeilDiv(amount, slice)
            && (end.dcas[id].escrow.status.Open? ==> Covers(end.dcas[id].escrow, end.dcas[id].remaining))
  {
    hide Step, OpenDca, Exec, CeilDiv, Mul;
    OpenDcaSound(env, s, signer, side, mint, amount, slice, interval, minOut, expiry, other);
    var created := CreateDcaStep(env, s, signer, side, mint, amount, slice, interval, minOut, expiry, other).value;
    DcaSchedule(created, run, s.nextOrderId);
    var k := Slices(run, s.nextOrderId);
    OneMore(k, interval);
    if k >= CeilDiv(amount, slice) {
      CompleteAtCeiling(amount, slice, k);
    } else {
      CompleteOnlyAtCeiling(amount, slice, k);
    }
  }

  /** Each execution of a fresh order comes no earlier than its place in the schedule, never
      after a non-zero expiry, and brings at least the order's minimum. */
  lemma DcaTiming(s: Ledger, run: seq<Event>, id: nat, i: nat)
    requires id in s.dcas && Fresh(s.dcas[id]) && Exec(s, run).Ok?
    requires i < |run| && Executes(run[i].ix, id)
    ensures var order := s.dcas[id];
            && order.nextExec + Mul(Slices(run[..i], id), order.interval) <= run[i].env.now
            && (order.expiry == 0 || run[i].env.now <= order.expiry)
            && Output(order.escrow.side, run[i].ix.swap) >= order.minOut
  {
    hide Step, Exec, DcaSound, Mul, CeilDiv;
    var upTo := run[..i + 1];
    assert run == upTo + run[i + 1..];
    ExecConcat(s, upTo, run[i + 1..]);
    assert upTo[..i] == run[..i];
    var before, last := ExecLast(s, upTo);
    DcaSchedule(s, run[..i], id);
    DcaStepOf(last.env, before, last.ix, id);
  }

  /** By time `t`, no more slices have run than whole intervals have passed since the creation,
      even when executions were late and catch up. */
  lemma {:induction false} DcaRate(s: Ledger, run: seq<Event>, id: nat, t: int)
    requires id in s.dcas && Fresh(s.dcas[id]) && Exec(s, run).Ok?
    requires forall e <- run :: e.env.now <= t
    ensures var order := s.dcas[id];
            var created := order.nextExec - order.interval;
            Slices(run, id) == 0 || (created <= t && Slices(run, id) <= (t - created) / order.interval)
  {
    hide Step, Exec, DcaSound;
    if run != [] {
      var order := s.dcas[id];
      var init := run[..|run| - 1];
      assert Exec(s, init).Ok? by {
        var before, last := ExecLast(s, run);
      }
      assert order.interval > 0 by { PositiveInterval(order); }
      if Executes(run[|run| - 1].ix, id) {
        DcaTiming(s, run, id, |run| - 1);
        var k := Slices(init, id);
        var elapsed := t - (order.nextExec - order.interval);
        assert (k + 1) * order.interval == Mul(k, order.interval) + order.interval;
        DivAtLeast(elapsed, order.interval, k + 1);
      } else {
        DcaRate(s, init, id, t);
      }
    }
  }

  lemma PositiveInterval(order: DcaOrder)
    requires DcaSound(order)
    ensures order.interval > 0
  {
  }

  /** Every execution delivers the minimum; a completed order has delivered it once for each of
      the ceil(total / slice) slices. */
  lemma {:induction false} DcaDelivery(s: Ledger, run: seq<Event>, id: nat)
    requires id in s.dcas && Fresh(s.dcas[id]) && Exec(s, run).Ok?
    ensures Delivered(run, id, s.dcas[id].escrow.side) >= Mul(Slices(run, id), s.dcas[id].minOut)
  {
    hide Step, Exec, DcaSound;
    if run != [] {
      var order := s.dcas[id];
      var init := run[..|run| - 1];
      assert Exec(s, init).Ok? by {
        var before, last := ExecLast(s, run);
      }
      DcaDelivery(s, init, id);
      if Executes(run[|run| - 1].ix, id) {
        DcaTiming(s, run, id, |run| - 1);
        OneMore(Slices(init, id), order.minOut);
      }
    }
  }

  lemma CompletedDcaDelivered(s: Ledger, run: seq<Event>, id: nat)
    requires id in s.dcas && Fresh(s.dcas[id]) && Exec(s, run).Ok?
    requires id in Exec(s, run).value.dcas && Exec(s, run).value.dcas[id].escrow.status.Executed?
    ensures var order := s.dcas[id];
            && Slices(run, id) == CeilDiv(order.total, order.slice)
            && Delivered(run, id, order.escrow.side) >= Mul(CeilDiv(order.total, order.slice), order.minOut)
  {
    hide Step, Exec, CeilDiv, Mul, DcaSound, SameTerms;
    DcaSchedule(s, run, id);
    DcaDelivery(s, run, id);
    var order := s.dcas[id];
    var k := Slices(run, id);
    CeilDivBounds(order.total, order.slice);
    assert order.slice > 0;
    if k < CeilDiv(order.total, order.slice) {
      CompleteOnlyAtCeiling(order.total, order.slice, k);
    }
  }
}
