/** Escrow that never comes back: the residue of an executed order, and an open BUY order with
    wrapped SOL in its token vault. */
module Stranded {
  import opened Ints
  import opened Oracle
  import opened Ledgers
  import opened Steps
  import opened Runs
  import opened Frames
  import opened Invariants
  import opened Lifecycles
  import opened LimitOrders
  import opened Valuation
  import opened Escrows
  import opened UnusedVaults

  /** The instructions that may take something out of an order's vaults. */
  ghost predicate Closes(ix: Ix, kind: OrderKind, id: nat) {
    match kind
    case LimitKind => (ix.ExecuteLimit? || ix.CancelLimit?) && ix.id == id
    case DcaKind => (ix.ExecuteDca? || ix.CancelDca?) && ix.id == id
  }

  // ---- one step --------------------------------------------------------------------------------

  /** An order in `s` is still there in `after`, with the same status and no less in its vaults. */
  ghost predicate Holds(s: Ledger, after: Ledger, kind: OrderKind, id: nat) {
    id in BookOf(s, kind) ==> id in BookOf(after, kind) && Richer(BookOf(s, kind)[id], BookOf(after, kind)[id])
  }

  lemma CreditHolds(s: Ledger, after: Ledger, vault: Vault, kind: OrderKind, id: nat)
    requires CreditFrame(s, after, vault)
    ensures Holds(s, after, kind, id)
  {
    hide CreditedLimit, CreditedDca;
    match vault {
      case LimitSolVault(other) => CreditedLimitHolds(s, after, other, kind, id);
      case LimitTokenVault(other) => CreditedLimitHolds(s, after, other, kind, id);
      case DcaSolVault(other) => CreditedDcaHolds(s, after, other, kind, id);
      case DcaTokenVault(other) => CreditedDcaHolds(s, after, other, kind, id);
      case _ =>
    }
  }

  lemma CreditedLimitHolds(s: Ledger, after: Ledger, other: nat, kind: OrderKind, id: nat)
    requires CreditedLimit(s, after, other)
    ensures Holds(s, after, kind, id)
  {
  }

  lemma CreditedDcaHolds(s: Ledger, after: Ledger, other: nat, kind: OrderKind, id: nat)
    requires CreditedDca(s, after, other)
    ensures Holds(s, after, kind, id)
  {
  }

  lemma SameOrdersHold(s: Ledger, after: Ledger, kind: OrderKind, id: nat)
    requires if kind.LimitKind? then id in s.limits ==> id in after.limits && after.limits[id] == s.limits[id]
             else id in s.dcas ==> id in after.dcas && after.dcas[id] == s.dcas[id]
    ensures Holds(s, after, kind, id)
  {
  }

  /** A step that neither executes nor cancels an order takes nothing out of it. */
  lemma StepHolds(env: Env, s: Ledger, ix: Ix, kind: OrderKind, id: nat)
    requires Step(env, s, ix).Ok? && !Closes(ix, kind, id) && id < s.nextOrderId
    ensures Holds(s, Step(env, s, ix).value, kind, id)
  {
    hide Step, Holds, LimitFrame, DcaFrame, WhitelistFrame, SharesFrame, CreditFrame;
    var after := Step(env, s, ix).value;
    StepFrame(env, s, ix);
    if ix.CreditVault? {
      CreditHolds(s, after, ix.vault, kind, id);
    } else {
      if ix.CreateLimit? || ix.ExecuteLimit? || ix.CancelLimit? {
        var changed := if ix.CreateLimit? then s.nextOrderId else ix.id;
        LimitsOnly(s, after, changed);
        if id != changed {
          OtherLimit(s, after, changed, id);
        }
      } else if OnOrder(ix) {
        var changed := if ix.CreateDca? then s.nextOrderId else ix.id;
        DcasOnly(s, after, changed);
        if id != changed {
          OtherDca(s, after, changed, id);
        }
      } else {
        SameOrders(s, ix, after);
      }
      SameOrdersHold(s, after, kind, id);
    }
  }

  // ---- orders no instruction closes --------------------------------------------------------------

  /** An open BUY order with wrapped SOL in its token vault, where anyone may put some. */
  ghost predicate Jammed(s: Ledger, kind: OrderKind, id: nat) {
    && id in BookOf(s, kind)
    && var e := BookOf(s, kind)[id];
    && e.status.Open? && e.side.Buy? && e.token > 0
  }

  ghost predicate Closed(s: Ledger, kind: OrderKind, id: nat) {
    id in BookOf(s, kind) && !BookOf(s, kind)[id].status.Open?
  }

  lemma JammedLimitRefuses(env: Env, s: Ledger, signer: Address, id: nat, swap: Swap)
    requires Jammed(s, LimitKind, id)
    ensures ExecuteLimitStep(env, s, signer, id, swap).Err? && CancelLimitStep(env, s, signer, id, false).Err?
  {
    hide QuoteFor, ScalePrice, SwapOut, Executable;
    var order := s.limits[id];
    var quote := QuoteFor(env, s, order.escrow, order.feed);
    if quote.Ok? && SwapOut(env, s, order.escrow, order.amountIn, order.minOut, true, quote.value, swap).Ok? {
      SwapOutSpends(env, s, order.escrow, order.amountIn, order.minOut, true, quote.value, swap);
    }
  }

  lemma JammedDcaRefuses(env: Env, s: Ledger, signer: Address, id: nat, swap: Swap, solVaultPassed: bool, other: bool)
    requires Jammed(s, DcaKind, id)
    ensures ExecuteDcaStep(env, s, signer, id, swap, solVaultPassed).Err?
    ensures CancelDcaStep(env, s, signer, id, other).Err?
  {
    hide QuoteFor, SwapOut, Executable, CompleteDca;
    var order := s.dcas[id];
    var quote := QuoteFor(env, s, order.escrow, order.feed);
    if quote.Ok? && SwapOut(env, s, order.escrow, SliceOf(order), order.minOut, false, quote.value, swap).Ok? {
      SwapOutSpends(env, s, order.escrow, SliceOf(order), order.minOut, false, quote.value, swap);
    }
  }

  /** The one way out of a jam: a limit order's cancel with another account. */
  predicate ByOther(ix: Ix, kind: OrderKind, id: nat) {
    kind.LimitKind? && ix.CancelLimit? && ix.id == id && ix.other
  }

  lemma NothingCloses(env: Env, s: Ledger, ix: Ix, kind: OrderKind, id: nat)
    requires Step(env, s, ix).Ok? && (Jammed(s, kind, id) || Closed(s, kind, id))
    ensures Closes(ix, kind, id) ==> ByOther(ix, kind, id) && !Closed(s, kind, id)
  {
    hide DepositStep, RequestWithdrawStep, CancelWithdrawStep, ExecuteWithdrawStep, AddTokenStep, RemoveTokenStep,
         CreateLimitStep, CreateDcaStep, BorrowStep, SettleStep, SetStrategyStep, RebalanceStep, TransferSharesStep,
         CreditVaultStep, ExecuteLimitStep, CancelLimitStep, ExecuteDcaStep, CancelDcaStep;
    OrderMustBeOpen(env, s, ix);
    if Jammed(s, kind, id) && Closes(ix, kind, id) {
      match ix {
        case ExecuteLimit(signer, _, swap) => JammedLimitRefuses(env, s, signer, id, swap);
        case CancelLimit(signer, _, _) => JammedLimitRefuses(env, s, signer, id, Swap(0, 0, 0));
        case ExecuteDca(signer, _, swap, passed) => JammedDcaRefuses(env, s, signer, id, swap, passed, false);
        case CancelDca(signer, _, other) => JammedDcaRefuses(env, s, signer, id, Swap(0, 0, 0), true, other);
      }
    }
  }

  // ---- whole runs --------------------------------------------------------------------------------

  ghost predicate Stays(s: Ledger, end: Ledger, kind: OrderKind, id: nat) {
    && Holds(s, end, kind, id) && s.nextOrderId <= end.nextOrderId && end.key == s.key
  }

  lemma {:induction false} RunHolds(s: Ledger, run: seq<Event>, kind: OrderKind, id: nat)
    requires Jammed(s, kind, id) || Closed(s, kind, id)
    requires id < s.nextOrderId && Exec(s, run).Ok?
    requires Closed(s, kind, id) || forall e <- run :: !ByOther(e.ix, kind, id)
    ensures Stays(s, Exec(s, run).value, kind, id)
    ensures forall e <- run :: !Closes(e.ix, kind, id)
  {
    hide Step, Closes, ByOther;
    if run != [] {
      var before, last := ExecLast(s, run);
      var init := run[..|run| - 1];
      assert run == init + [last];
      RunHolds(s, init, kind, id);
      NothingCloses(last.env, before, last.ix, kind, id);
      StepHolds(last.env, before, last.ix, kind, id);
      IdsGrow(last.env, before, last.ix);
      SameKey(last.env, before, last.ix);
    }
  }

  /** One unit of wrapped SOL in the token vault of an open DCA BUY order jams it for good: over
      any run the order stays open, so its counter slot is never freed, no execution and no cancel
      of it succeeds, and none of its lamports come back. */
  lemma JammedDcaForever(s: Ledger, run: seq<Event>, id: nat)
    requires Jammed(s, DcaKind, id) && id < s.nextOrderId && Exec(s, run).Ok?
    ensures var end := Exec(s, run).value;
            && Jammed(end, DcaKind, id) && id in OpenIds(DcaBook(end))
            && DcaBook(end)[id].sol >= DcaBook(s)[id].sol && DcaBook(end)[id].token >= DcaBook(s)[id].token
    ensures forall e <- run :: !Closes(e.ix, DcaKind, id)
  {
    hide Step, Exec, DcaBook;
    RunHolds(s, run, DcaKind, id);
  }

  /** A jammed limit order never executes, over any run.  It stays open with its lamports unless
      the manager cancels it with another account; then its record is gone, and the wrapped SOL
      stays in its token vault for good. */
  lemma {:induction false} JammedLimitNeverExecutes(s: Ledger, run: seq<Event>, id: nat)
    requires Jammed(s, LimitKind, id) && id < s.nextOrderId && Exec(s, run).Ok?
    ensures forall e <- run :: !(e.ix.ExecuteLimit? && e.ix.id == id)
    ensures var end := Exec(s, run).value;
            var a := TokenVaultAt(s.key, LimitKind, id, NATIVE_MINT);
            && end.key == s.key && s.nextOrderId <= end.nextOrderId
            && if forall e <- run :: !ByOther(e.ix, LimitKind, id)
               then Jammed(end, LimitKind, id) && Holds(s, end, LimitKind, id)
               else id !in end.limits && Balance(end.loose, a) >= s.limits[id].escrow.token
  {
    hide Step, Jammed, Holds, LimitBook;
    if run == [] {
      NothingRan(s, id);
    } else {
      var before, last := ExecLast(s, run);
      var init := run[..|run| - 1];
      assert run == init + [last];
      JammedLimitNeverExecutes(s, init, id);
      IdsGrow(last.env, before, last.ix);
      SameKey(last.env, before, last.ix);
      if forall e <- init :: !ByOther(e.ix, LimitKind, id) {
        StillJammed(s, before, last, id);
      } else {
        StaysGone(before, last, id);
      }
    }
  }

  lemma NothingRan(s: Ledger, id: nat)
    ensures Holds(s, s, LimitKind, id)
  {
  }

  lemma StillJammed(s: Ledger, before: Ledger, last: Event, id: nat)
    requires Jammed(s, LimitKind, id) && Jammed(before, LimitKind, id) && Holds(s, before, LimitKind, id)
    requires id < before.nextOrderId && before.key == s.key && Step(last.env, before, last.ix).Ok?
    ensures var after := Step(last.env, before, last.ix).value;
            var a := TokenVaultAt(s.key, LimitKind, id, NATIVE_MINT);
            && !(last.ix.ExecuteLimit? && last.ix.id == id)
            && if ByOther(last.ix, LimitKind, id)
               then id !in after.limits && Balance(after.loose, a) >= s.limits[id].escrow.token
               else Jammed(after, LimitKind, id) && Holds(s, after, LimitKind, id)
  {
    hide Step;
    NothingCloses(last.env, before, last.ix, LimitKind, id);
    if ByOther(last.ix, LimitKind, id) {
      ByOtherLeaves(last.env, before, last.ix, id);
    } else {
      StepHolds(last.env, before, last.ix, LimitKind, id);
    }
  }

  lemma ByOtherLeaves(env: Env, s: Ledger, ix: Ix, id: nat)
    requires Jammed(s, LimitKind, id) && ByOther(ix, LimitKind, id) && Step(env, s, ix).Ok?
    ensures var after := Step(env, s, ix).value;
            && id !in after.limits
            && Balance(after.loose, TokenVaultAt(s.key, LimitKind, id, NATIVE_MINT)) == s.limits[id].escrow.token
  {
    hide TokenVaultAt, SolVaultAt;
  }

  lemma StaysGone(before: Ledger, last: Event, id: nat)
    requires id !in before.limits && id < before.nextOrderId && Step(last.env, before, last.ix).Ok?
    ensures var after := Step(last.env, before, last.ix).value;
            && id !in after.limits && !(last.ix.ExecuteLimit? && last.ix.id == id)
            && var a := TokenVaultAt(before.key, LimitKind, id, NATIVE_MINT);
            Balance(after.loose, a) >= Balance(before.loose, a)
  {
    hide Step;
    NoRecordNoCancel(last.env, before, last.ix, LimitKind, id);
    StepLoose(last.env, before, last.ix, TokenVaultAt(before.key, LimitKind, id, NATIVE_MINT), LimitKind, id);
    StepRecord(last.env, before, last.ix, LimitKind, id);
    OrderMustBeOpen(last.env, before, last.ix);
  }

  /** Exactly when a jammed limit order can be cancelled: with another account, which the handler
      does not pin, by the manager of a trading fund, if the sums fit.  The cancel brings back all
      lamports and the rents and frees the slot; the wrapped SOL stays at the vault's address. */
  lemma JammedLimitCancel(env: Env, s: Ledger, signer: Address, id: nat, other: bool)
    requires Jammed(s, LimitKind, id)
    ensures var e := s.limits[id].escrow;
            var vault := s.vaultSol + e.sol + env.tokenRent + env.orderRent;
            var cancelled := CancelLimitStep(env, s, signer, id, other);
            && (cancelled.Ok? <==> other && signer == s.manager && s.fundType.TradingFund? && s.limitCount > 0
                                   && vault <= U64_MAX)
            && (cancelled.Ok? ==>
                  cancelled.value == s.(limits := s.limits - {id}, limitCount := s.limitCount - 1, vaultSol := vault,
                                        loose := s.loose[TokenVaultAt(s.key, LimitKind, id, NATIVE_MINT) := e.token]))
  {
    hide Refund, TokenVaultAt, SolVaultAt;
    var e := s.limits[id].escrow;
    assert LimitBook(s)[id] == e;
    RefundIff(env, s, e, other);
    if Refund(env, s, e, other).Ok? {
      RefundBalances(env, s, e, other);
    }
  }

  /** A limit order whose token vault holds more than it should: anything for a BUY, more than the
      input for a SELL. */
  ghost predicate Overfilled(s: Ledger, id: nat) {
    && id in s.limits && s.limits[id].escrow.status.Open?
    && s.limits[id].escrow.token > if s.limits[id].escrow.side.Buy? then 0 else s.limits[id].amountIn
  }

  lemma OverfilledRefuses(env: Env, s: Ledger, signer: Address, id: nat, swap: Swap)
    requires Overfilled(s, id)
    ensures ExecuteLimitStep(env, s, signer, id, swap).Err?
  {
    hide QuoteFor, ScalePrice, SwapOut, Executable;
    var order := s.limits[id];
    var quote := QuoteFor(env, s, order.escrow, order.feed);
    if quote.Ok? && SwapOut(env, s, order.escrow, order.amountIn, order.minOut, true, quote.value, swap).Ok? {
      SwapOutSpends(env, s, order.escrow, order.amountIn, order.minOut, true, quote.value, swap);
    }
  }

  lemma OverfilledStep(env: Env, s: Ledger, ix: Ix, id: nat)
    requires Overfilled(s, id) && id < s.nextOrderId && Step(env, s, ix).Ok?
    ensures !(ix.ExecuteLimit? && ix.id == id)
    ensures Overfilled(Step(env, s, ix).value, id) || id !in Step(env, s, ix).value.limits
  {
    hide Step;
    if ix.ExecuteLimit? && ix.id == id {
      ExecuteIsStep(env, s, ix);
      OverfilledRefuses(env, s, ix.signer, id, ix.swap);
    } else if ix.CancelLimit? && ix.id == id {
      CancelledLimitIsGone(env, s, ix);
    } else {
      StepHolds(env, s, ix, LimitKind, id);
      LimitStepOf(env, s, ix, id);
    }
  }

  lemma ExecuteIsStep(env: Env, s: Ledger, ix: Ix)
    requires ix.ExecuteLimit?
    ensures Step(env, s, ix) == ExecuteLimitStep(env, s, ix.signer, ix.id, ix.swap)
  {
    hide ExecuteLimitStep;
  }

  /** The handler wants the balance before the swap to be the input exactly, so an overfilled limit
      order of either side never executes, over any run; it can only be cancelled. */
  lemma {:induction false} OverfilledNeverExecutes(s: Ledger, run: seq<Event>, id: nat)
    requires Overfilled(s, id) && id < s.nextOrderId && Exec(s, run).Ok?
    ensures forall e <- run :: !(e.ix.ExecuteLimit? && e.ix.id == id)
    ensures Overfilled(Exec(s, run).value, id) || id !in Exec(s, run).value.limits
    ensures id < Exec(s, run).value.nextOrderId
  {
    hide Step, Overfilled;
    if run != [] {
      var before, last := ExecLast(s, run);
      var init := run[..|run| - 1];
      assert run == init + [last];
      OverfilledNeverExecutes(s, init, id);
      IdsGrow(last.env, before, last.ix);
      if Overfilled(before, id) {
        OverfilledStep(last.env, before, last.ix, id);
      } else {
        StaysGone(before, last, id);
      }
    }
  }

  /** Anyone can do it: a credit of one unit succeeds unless the vault is full. */
  lemma OneUnitJams(env: Env, s: Ledger, kind: OrderKind, id: nat)
    requires id in OpenIds(BookOf(s, kind)) && BookOf(s, kind)[id].side.Buy? && BookOf(s, kind)[id].token < U64_MAX
    ensures var vault := if kind.LimitKind? then LimitTokenVault(id) else DcaTokenVault(id);
            && CreditVaultStep(s, vault, 1).Ok? && Jammed(CreditVaultStep(s, vault, 1).value, kind, id)
  {
  }

  /** What an executed BUY limit order leaves in its SOL vault is what the vault held above the
      input, nothing exactly when it held just the input, and no later run gets any of it out. */
  lemma ResidueStays(env: Env, s: Ledger, signer: Address, id: nat, swap: Swap, run: seq<Event>)
    requires ExecuteLimitStep(env, s, signer, id, swap).Ok? && s.limits[id].escrow.side.Buy? && id < s.nextOrderId
    requires Exec(ExecuteLimitStep(env, s, signer, id, swap).value, run).Ok?
    ensures s.limits[id].escrow.sol >= s.limits[id].amountIn
    ensures var after := ExecuteLimitStep(env, s, signer, id, swap).value;
            var end := Exec(after, run).value;
            var residue := s.limits[id].escrow.sol - s.limits[id].amountIn;
            && id in after.limits && after.limits[id].escrow.sol == residue
            && (after.limits[id].escrow.sol == 0 <==> s.limits[id].escrow.sol == s.limits[id].amountIn)
            && id in end.limits && end.limits[id].escrow.status.Executed?
            && end.limits[id].escrow.sol >= residue
  {
    hide Step, Exec, QuoteFor, ScalePrice, SwapOut, Executable;
    var order := s.limits[id];
    SwapOutSpends(env, s, order.escrow, order.amountIn, order.minOut, true,
                  QuoteFor(env, s, order.escrow, order.feed).value, swap);
    var after := ExecuteLimitStep(env, s, signer, id, swap).value;
    assert LimitBook(after)[id] == after.limits[id].escrow;
    RunHolds(after, run, LimitKind, id);
    assert LimitBook(Exec(after, run).value)[id] == Exec(after, run).value.limits[id].escrow;
  }
}
