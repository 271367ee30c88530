/** Borrow and settle inside an atomic transaction.

    A transaction is a list of top-level instructions: this fund's own, and others, which may
    call this fund's instructions from inside.  Whatever runs, a borrow sees the top-level
    instructions after the one it runs in. */
module Transactions {
  import opened Results
  import opened Ints
  import opened Ledgers
  import opened Steps
  import opened Runs
  import opened Frames

  datatype Top = Ours(event: Event) | Other(meta: Meta, inner: seq<Event>) {
    /** How the instructions sysvar shows it. */
    ghost function Shown(): Meta {
      match this
      case Ours(event) => if event.ix.Settle? then Meta(true, event.ix.accounts) else Meta(false, [])
      case Other(meta, _) => meta
    }

    ghost function Calls(): seq<Event> {
      match this
      case Ours(event) => [event]
      case Other(_, inner) => inner
    }

    /** Another instruction that is a settle of this program settles another fund: the fund is
        its third account.  A settle calls nothing. */
    ghost predicate Foreign(fund: Address) {
      Other? && meta.isSettle ==> inner == [] && (|meta.accounts| > 2 ==> meta.accounts[2] != fund)
    }
  }

  ghost function Metas(tops: seq<Top>): seq<Meta> {
    if tops == [] then [] else [tops[0].Shown()] + Metas(tops[1..])
  }

  ghost function SeenFrom(ix: Ix, later: seq<Meta>): Ix {
    if ix.Borrow? then ix.(later := later) else ix
  }

  ghost function Calling(s: Ledger, calls: seq<Event>, later: seq<Meta>): Result<Ledger>
    decreases |calls|
  {
    if calls == [] then Ok(s)
    else
      var after :- Step(calls[0].env, s, SeenFrom(calls[0].ix, later));
      Calling(after, calls[1..], later)
  }

  ghost function ExecTx(s: Ledger, tops: seq<Top>): Result<Ledger>
    decreases |tops|
  {
    if tops == [] then Ok(s)
    else
      var after :- Calling(s, tops[0].Calls(), Metas(tops[1..]));
      ExecTx(after, tops[1..])
  }

  /** A transaction that fails has no effect. */
  ghost function Commit(s: Ledger, tops: seq<Top>): Ledger {
    var end := ExecTx(s, tops);
    if end.Ok? then end.value else s
  }

  ghost function CommitAll(s: Ledger, txs: seq<seq<Top>>): Ledger
    decreases |txs|
  {
    if txs == [] then s else CommitAll(Commit(s, txs[0]), txs[1..])
  }

  ghost predicate WellFormed(fund: Address, tops: seq<Top>) {
    forall top <- tops :: top.Foreign(fund)
  }

  /** The scan of a borrow succeeds exactly when there is a later settle instruction and the
      first one begins with the expected accounts. */
  lemma {:induction false} ScanFindsFirstSettle(later: seq<Meta>, expected: seq<Address>)
    ensures ScanForSettle(later, expected).Ok?
       <==> exists i :: 0 <= i < |later| && later[i].isSettle && expected <= later[i].accounts
                        && forall j :: 0 <= j < i ==> !later[j].isSettle
  {
    if later == [] {
    } else if later[0].isSettle {
      assert later[0].isSettle;
    } else {
      ScanFindsFirstSettle(later[1..], expected);
      if i :| 0 <= i < |later| && later[i].isSettle && expected <= later[i].accounts
              && forall j :: 0 <= j < i ==> !later[j].isSettle {
        assert later[1..][i - 1] == later[i];
        assert forall j :: 0 <= j < i - 1 ==> later[1..][j] == later[j + 1];
      }
      if ScanForSettle(later, expected).Ok? {
        var i :| 0 <= i < |later[1..]| && later[1..][i].isSettle && expected <= later[1..][i].accounts
                 && forall j :: 0 <= j < i ==> !later[1..][j].isSettle;
        assert later[i + 1] == later[1..][i];
        assert forall j :: 0 < j < i + 1 ==> later[j] == later[1..][j - 1];
      }
    }
  }

  // ---- the lock never outlives a transaction -------------------------------------------------

  /** A locked fund still has its settle instruction ahead. */
  ghost predicate Pending(s: Ledger, later: seq<Meta>) {
    s.trading.locked ==> ScanForSettle(later, ExpectedSettle(s, s.trading.outputMint)).Ok?
  }

  lemma BorrowPending(s: Ledger, signer: Address, amount: u64, minOut: u64, mint: Address, later: seq<Meta>)
    requires BorrowStep(s, signer, amount, minOut, mint, later).Ok?
    ensures Pending(BorrowStep(s, signer, amount, minOut, mint, later).value, later)
  {
    hide ScanForSettle, CreditTo;
    var after := BorrowStep(s, signer, amount, minOut, mint, later).value;
    assert ExpectedSettle(after, mint) == ExpectedSettle(s, mint);
  }

  lemma StepPending(env: Env, s: Ledger, ix: Ix, later: seq<Meta>)
    requires Step(env, s, SeenFrom(ix, later)).Ok?
    requires ix.Settle? || Pending(s, later)
    ensures var after := Step(env, s, SeenFrom(ix, later)).value;
            after.key == s.key && Pending(after, later) && (ix.Settle? ==> !after.trading.locked)
  {
    hide DepositStep, RequestWithdrawStep, CancelWithdrawStep, ExecuteWithdrawStep, AddTokenStep, RemoveTokenStep,
         CreateLimitStep, ExecuteLimitStep, CancelLimitStep, CreateDcaStep, ExecuteDcaStep, CancelDcaStep, BorrowStep,
         SetStrategyStep, RebalanceStep, TransferSharesStep, CreditVaultStep, MaySettle, ScanForSettle, Frame;
    var seen := SeenFrom(ix, later);
    var after := Step(env, s, seen).value;
    StepFrame(env, s, seen);
    FrameKeeps(s, seen, after);
    if ix.Borrow? {
      BorrowPending(s, ix.signer, ix.amount, ix.minOut, ix.mint, later);
    } else if !ix.Settle? {
      assert ExpectedSettle(after, s.trading.outputMint) == ExpectedSettle(s, s.trading.outputMint);
    }
  }

  lemma {:induction false} CallsPending(s: Ledger, calls: seq<Event>, later: seq<Meta>)
    requires Calling(s, calls, later).Ok? && Pending(s, later)
    ensures Calling(s, calls, later).value.key == s.key && Pending(Calling(s, calls, later).value, later)
    decreases |calls|
  {
    hide Step, Pending;
    if calls != [] {
      var after := Step(calls[0].env, s, SeenFrom(calls[0].ix, later)).value;
      StepPending(calls[0].env, s, calls[0].ix, later);
      CallsPending(after, calls[1..], later);
    }
  }

  lemma TopPending(s: Ledger, tops: seq<Top>)
    requires tops != [] && WellFormed(s.key, tops) && Pending(s, Metas(tops))
    requires Calling(s, tops[0].Calls(), Metas(tops[1..])).Ok?
    ensures var after := Calling(s, tops[0].Calls(), Metas(tops[1..])).value;
            after.key == s.key && Pending(after, Metas(tops[1..]))
  {
    hide Step;
    var top, later := tops[0], Metas(tops[1..]);
    assert Metas(tops)[0] == top.Shown() && Metas(tops)[1..] == later;
    assert top.Foreign(s.key);
    if top.Shown().isSettle {
      SettleOnTop(s, top, later);
    } else {
      CallsPending(s, top.Calls(), later);
    }
  }

  lemma NotItsOwnSettle(s: Ledger, meta: Meta)
    requires |meta.accounts| > 2 ==> meta.accounts[2] != s.key
    ensures !(ExpectedSettle(s, s.trading.outputMint) <= meta.accounts)
  {
    var expected := ExpectedSettle(s, s.trading.outputMint);
    assert |expected| <= |meta.accounts| ==> expected[2] != meta.accounts[2];
  }

  /** Running a settle of the fund unlocks it; a settle of another fund is never the first one
      a locked fund has ahead. */
  lemma SettleOnTop(s: Ledger, top: Top, later: seq<Meta>)
    requires top.Foreign(s.key) && top.Shown().isSettle && Pending(s, [top.Shown()] + later)
    requires Calling(s, top.Calls(), later).Ok?
    ensures var after := Calling(s, top.Calls(), later).value;
            after.key == s.key && !after.trading.locked
  {
    hide Step;
    match top {
      case Ours(event) =>
        var after := Step(event.env, s, SeenFrom(event.ix, later)).value;
        assert [event][1..] == [];
        StepPending(event.env, s, event.ix, later);
        assert Calling(s, top.Calls(), later) == Calling(after, [], later);
      case Other(meta, inner) =>
        assert ([meta] + later)[0] == meta;
        NotItsOwnSettle(s, meta);
    }
  }

  /** A committed transaction never leaves the fund locked: each borrow demanded that the first
      later settle be for its own accounts, and running that one unlocks. */
  lemma {:induction false} TransactionEndsUnlocked(s: Ledger, tops: seq<Top>)
    requires WellFormed(s.key, tops) && Pending(s, Metas(tops)) && ExecTx(s, tops).Ok?
    ensures ExecTx(s, tops).value.key == s.key && !ExecTx(s, tops).value.trading.locked
    decreases |tops|
  {
    hide Calling;
    if tops != [] {
      hide Pending, Metas;
      TopPending(s, tops);
      TransactionEndsUnlocked(Calling(s, tops[0].Calls(), Metas(tops[1..])).value, tops[1..]);
    }
  }

  /** Between transactions the fund is unlocked, whatever was attempted and whatever failed. */
  lemma {:induction false} UnlockedBetweenTransactions(s: Ledger, txs: seq<seq<Top>>)
    requires !s.trading.locked && forall tops <- txs :: WellFormed(s.key, tops)
    ensures !CommitAll(s, txs).trading.locked
    decreases |txs|
  {
    hide ExecTx;
    if txs != [] {
      var after := Commit(s, txs[0]);
      if ExecTx(s, txs[0]).Ok? {
        TransactionEndsUnlocked(s, txs[0]);
      }
      UnlockedBetweenTransactions(after, txs[1..]);
    }
  }

  // ---- what a matched pair did -----------------------------------------------------------------

  /** While the fund is locked nothing but a settle changes the record of the borrow. */
  lemma {:induction false} BorrowRecordKept(s: Ledger, mid: seq<Event>)
    requires s.trading.locked && Exec(s, mid).Ok?
    requires forall e <- mid :: !e.ix.Settle?
    ensures Exec(s, mid).value.trading == s.trading
    ensures forall e <- mid :: !e.ix.Borrow?
  {
    hide Step;
    if mid != [] {
      var before, last := ExecLast(s, mid);
      var init := mid[..|mid| - 1];
      BorrowRecordKept(s, init);
      assert mid == init + [last];
      StepFrame(last.env, before, last.ix);
      LockedStep(last.env, before, last.ix);
    }
  }

  lemma LockedStep(env: Env, s: Ledger, ix: Ix)
    requires s.trading.locked && Step(env, s, ix).Ok? && !ix.Settle?
    ensures !ix.Borrow? && Step(env, s, ix).value.trading == s.trading
  {
    hide DepositStep, RequestWithdrawStep, CancelWithdrawStep, ExecuteWithdrawStep, AddTokenStep, RemoveTokenStep,
         CreateLimitStep, ExecuteLimitStep, CancelLimitStep, CreateDcaStep, ExecuteDcaStep, CancelDcaStep, SettleStep,
         SetStrategyStep, RebalanceStep, TransferSharesStep, CreditVaultStep, Frame;
    StepFrame(env, s, ix);
    FrameKeeps(s, ix, Step(env, s, ix).value);
  }

  /** Whatever fund instructions ran between a borrow and the settle that ends it: the SOL vault
      ends exactly the borrowed amount below where it began, the output vault at least the
      promised minimum above, and the record is cleared. */
  lemma BorrowSettlePair(s: Ledger, borrow: Event, mid: seq<Event>, settle: Event)
    requires borrow.ix.Borrow? && settle.ix.Settle? && forall e <- mid :: !e.ix.Settle?
    requires Exec(s, [borrow] + mid + [settle]).Ok?
    ensures var end := Exec(s, [borrow] + mid + [settle]).value;
            && borrow.ix.mint in s.listings && s.fundType.TradingFund?
            && s.vaultSol >= borrow.ix.amount && end.vaultSol == s.vaultSol - borrow.ix.amount
            && Balance(end.tokens, borrow.ix.mint) >= Balance(s.tokens, borrow.ix.mint) + borrow.ix.minOut
            && end.trading == UNLOCKED
  {
    hide Step, Exec;
    var whole := [borrow] + mid + [settle];
    assert whole[..|whole| - 1] == [borrow] + mid;
    var atSettle, last := ExecLast(s, whole);
    ExecConcat(s, [borrow], mid);
    ExecOne(s, borrow);
    var locked := Step(borrow.env, s, borrow.ix).value;
    BorrowRecord(borrow.env, s, borrow.ix);
    BorrowRecordKept(locked, mid);
    SettleChecks(settle.env, atSettle, settle.ix);
  }

  lemma BorrowRecord(env: Env, s: Ledger, ix: Ix)
    requires ix.Borrow? && Step(env, s, ix).Ok?
    ensures s.vaultSol >= ix.amount && ix.mint in s.tokens && ix.mint in s.listings && s.fundType.TradingFund?
    ensures Step(env, s, ix).value.trading == Trading(true, ix.amount, ix.minOut, s.vaultSol, s.tokens[ix.mint],
                                                      ix.mint)
  {
    hide ScanForSettle, CreditTo;
  }

  lemma SettleChecks(env: Env, s: Ledger, ix: Ix)
    requires ix.Settle? && Step(env, s, ix).Ok?
    ensures var t := s.trading;
            var after := Step(env, s, ix).value;
            && after.vaultSol == t.snapshotSol - t.borrowed
            && Balance(after.tokens, t.outputMint) >= t.snapshotOutput + t.minOut
            && after.trading == UNLOCKED
  {
  }
}
