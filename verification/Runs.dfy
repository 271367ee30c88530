/** Runs of a fund: any instructions, in any environments, one after the other. */
module Runs {
  import opened Results
  import opened Ints
  import opened Ledgers
  import opened Steps

  datatype Event = Event(env: Env, ix: Ix)

  /** The ledger after a run of instructions that all succeed.  A failed instruction leaves
      the ledger as it was, so runs with failures reach nothing more. */
  ghost function Exec(s: Ledger, run: seq<Event>): Result<Ledger> {
    if run == [] then Ok(s)
    else
      var before :- Exec(s, run[..|run| - 1]);
      Step(run[|run| - 1].env, before, run[|run| - 1].ix)
  }

  lemma {:induction false} ExecConcat(s: Ledger, first: seq<Event>, second: seq<Event>)
    requires Exec(s, first + second).Ok?
    ensures Exec(s, first).Ok?
    ensures Exec(Exec(s, first).value, second) == Exec(s, first + second)
  {
    hide Step;
    var run := first + second;
    if second == [] {
      assert run == first;
    } else {
      assert run[..|run| - 1] == first + second[..|second| - 1];
      ExecConcat(s, first, second[..|second| - 1]);
    }
  }

  /** The last event of a run, with the ledger it starts from. */
  lemma ExecLast(s: Ledger, run: seq<Event>) returns (before: Ledger, last: Event)
    requires run != [] && Exec(s, run).Ok?
    ensures last == run[|run| - 1]
    ensures Exec(s, run[..|run| - 1]) == Ok(before)
    ensures Step(last.env, before, last.ix) == Exec(s, run)
  {
    before := Exec(s, run[..|run| - 1]).value;
    last := run[|run| - 1];
  }

  lemma ExecOne(s: Ledger, e: Event)
    ensures Exec(s, [e]) == Step(e.env, s, e.ix)
  {
    hide Step;
    assert [e][..0] == [];
  }

  /** A ledger some run reaches from a newly initialised fund. */
  ghost predicate Reachable(s: Ledger) {
    exists env: Env, bounds: Bounds, charter: Charter, wallets: map<Address, u64>, run: seq<Event> ::
      Starts(env, bounds, charter, wallets, run, s)
  }

  ghost predicate Starts(env: Env, bounds: Bounds, charter: Charter, wallets: map<Address, u64>,
                         run: seq<Event>, s: Ledger) {
    var initial := InitialLedger(env, bounds, charter, wallets);
    initial.Ok? && Exec(initial.value, run) == Ok(s)
  }
}
