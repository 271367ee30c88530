/** Which request a paid withdrawal belongs to. */
module Withdrawals {
  import opened Ints
  import opened Ledgers
  import opened Navs
  import opened Steps
  import opened Runs
  import opened Frames

  /** Instructions that write or consume the request of `investor`. */
  ghost predicate Touches(ix: Ix, investor: Address) {
    (ix.RequestWithdraw? || ix.CancelWithdraw? || ix.ExecuteWithdraw?) && ix.investor == investor
  }

  /** Event `i` of the run is the latest to touch the request of `investor`, and made it. */
  ghost predicate Requested(run: seq<Event>, i: nat, investor: Address, request: Request) {
    && i < |run|
    && run[i].ix == RequestWithdraw(investor, request.shares)
    && run[i].env.now == request.ts
    && forall j :: i < j < |run| ==> !Touches(run[j].ix, investor)
  }

  /** Payout `j` pays request `i`: same investor, made a timelock earlier, and no cancel, new
      request or payout of that investor in between. */
  ghost predicate Pays(run: seq<Event>, timelock: i64, i: nat, j: nat) {
    && i < j < |run|
    && run[j].ix.ExecuteWithdraw? && run[i].ix.RequestWithdraw?
    && run[i].ix.investor == run[j].ix.investor
    && run[i].env.now + timelock <= run[j].env.now
    && forall k :: i < k < j ==> !Touches(run[k].ix, run[j].ix.investor)
  }

  lemma RequestStep(env: Env, s: Ledger, ix: Ix, investor: Address)
    requires Step(env, s, ix).Ok?
    ensures var after := Step(env, s, ix).value;
            && (ix.RequestWithdraw? && ix.investor == investor ==>
                  investor in after.requests && after.requests[investor] == Request(ix.amount, env.now)
                  && 0 < ix.amount <= Balance(s.shares, investor))
            && (ix.CancelWithdraw? || ix.ExecuteWithdraw? ==> ix.investor == investor ==> investor !in after.requests)
            && (!Touches(ix, investor) ==>
                  (investor in after.requests <==> investor in s.requests)
                  && (investor in s.requests ==> after.requests[investor] == s.requests[investor]))
            && after.timelock == s.timelock
  {
    hide DepositStep, CancelWithdrawStep, ExecuteWithdrawStep, AddTokenStep, RemoveTokenStep, CreateLimitStep,
         ExecuteLimitStep, CancelLimitStep, CreateDcaStep, ExecuteDcaStep, CancelDcaStep, BorrowStep, SettleStep,
         SetStrategyStep, RebalanceStep, TransferSharesStep, CreditVaultStep, Frame;
    var after := Step(env, s, ix).value;
    StepFrame(env, s, ix);
    FrameKeeps(s, ix, after);
  }

  /** A standing request was made by an event of the run, untouched since. */
  lemma {:induction false} RequestHasEvent(s: Ledger, run: seq<Event>, investor: Address) returns (i: nat)
    requires s.requests == map[] && Exec(s, run).Ok?
    requires investor in Exec(s, run).value.requests
    ensures Requested(run, i, investor, Exec(s, run).value.requests[investor])
  {
    hide Step;
    var before, last := ExecLast(s, run);
    RequestStep(last.env, before, last.ix, investor);
    if Touches(last.ix, investor) {
      i := |run| - 1;
    } else {
      i := RequestHasEvent(s, run[..|run| - 1], investor);
    }
  }

  lemma {:induction false} TimelockKept(s: Ledger, run: seq<Event>)
    requires Exec(s, run).Ok?
    ensures Exec(s, run).value.timelock == s.timelock
  {
    hide Step;
    if run != [] {
      var before, last := ExecLast(s, run);
      TimelockKept(s, run[..|run| - 1]);
      RequestStep(last.env, before, last.ix, s.manager);
    }
  }

  /** A payout burns exactly the requested shares, from the requester, once the timelock is over. */
  lemma PayoutBurns(env: Env, s: Ledger, investor: Address, accounts: seq<Address>)
    requires ExecuteWithdrawStep(env, s, investor, accounts).Ok?
    ensures investor in s.requests
    ensures var after := ExecuteWithdrawStep(env, s, investor, accounts).value;
            var request := s.requests[investor];
            && request.ts + s.timelock <= env.now
            && after.totalShares == s.totalShares - request.shares
            && Balance(after.shares, investor) == Balance(s.shares, investor) - request.shares
            && (forall other :: other != investor ==> Balance(after.shares, other) == Balance(s.shares, other))
  {
    hide Nav, PayoutFor, PayInvestor;
  }

  /** Every payout of a run pays a request made earlier in the run, by the same investor, for
      exactly the shares it burns, at least a timelock before, untouched in between. */
  lemma PayoutHasRequest(s: Ledger, run: seq<Event>, j: nat) returns (i: nat)
    requires s.requests == map[] && Exec(s, run).Ok?
    requires j < |run| && run[j].ix.ExecuteWithdraw?
    ensures Pays(run, s.timelock, i, j)
    ensures Exec(s, run[..j]).Ok? && Exec(s, run[..j + 1]).Ok?
    ensures var before, after := Exec(s, run[..j]).value, Exec(s, run[..j + 1]).value;
            var investor, shares := run[j].ix.investor, run[i].ix.amount;
            && before.totalShares - after.totalShares == shares
            && Balance(before.shares, investor) - Balance(after.shares, investor) == shares
  {
    hide Exec, ExecuteWithdrawStep, DepositStep, RequestWithdrawStep, CancelWithdrawStep, AddTokenStep, RemoveTokenStep,
         CreateLimitStep, ExecuteLimitStep, CancelLimitStep, CreateDcaStep, ExecuteDcaStep, CancelDcaStep, BorrowStep,
         SettleStep, SetStrategyStep, RebalanceStep, TransferSharesStep, CreditVaultStep;
    var upTo := run[..j + 1];
    assert run == upTo + run[j + 1..];
    ExecConcat(s, upTo, run[j + 1..]);
    assert upTo[..j] == run[..j];
    var before, last := ExecLast(s, upTo);
    PayoutBurns(last.env, before, last.ix.investor, last.ix.accounts);
    TimelockKept(s, run[..j]);
    i := RequestHasEvent(s, run[..j], last.ix.investor);
    PaysIf(run, s.timelock, i, j, before.requests[last.ix.investor]);
  }

  lemma PaysIf(run: seq<Event>, timelock: i64, i: nat, j: nat, request: Request)
    requires j < |run| && run[j].ix.ExecuteWithdraw?
    requires Requested(run[..j], i, run[j].ix.investor, request)
    requires request.ts + timelock <= run[j].env.now
    ensures Pays(run, timelock, i, j) && run[i].ix.amount == request.shares
  {
  }

  /** Two payouts never pay the same request. */
  lemma PayoutsPayDistinctRequests(run: seq<Event>, timelock: i64, i: nat, j: nat, k: nat)
    requires Pays(run, timelock, i, j) && Pays(run, timelock, i, k)
    ensures j == k
  {
    if j < k {
      assert Touches(run[j].ix, run[k].ix.investor);
    } else if k < j {
      assert Touches(run[k].ix, run[j].ix.investor);
    }
  }
}
