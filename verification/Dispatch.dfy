/** `ExecutionService.begin` under concurrency: any number of dispatchers read,
    insert under the unique dispatch key, roll back and read again, in any
    interleaving (sdf_core/execution.py). */
module Dispatch {
  import opened Results
  import DispatchKey

  datatype Row = Row(id: nat, key: string, task: string)

  // `Claimed` holds an uncommitted insert; `Lost` was rolled back, by the key
  // or by some other constraint.
  datatype Phase = Start | Absent | Claimed(row: Row) | Lost(byKey: bool) | Done(outcome: Outcome)

  datatype Outcome = Returned(row: Row, existing: bool) | OtherTask | Refused | Raised

  datatype Dispatcher = Dispatcher(key: string, task: string, phase: Phase)

  datatype World = World(committed: seq<Row>, dispatchers: seq<Dispatcher>)

  ghost predicate HasKey(rows: seq<Row>, key: string) { exists r :: r in rows && r.key == key }

  // Another dispatcher's uncommitted insert makes this one wait.
  ghost predicate Blocked(w: World, i: nat)
    requires i < |w.dispatchers|
  {
    exists j :: 0 <= j < |w.dispatchers| && j != i && w.dispatchers[j].phase.Claimed?
                && w.dispatchers[j].key == w.dispatchers[i].key
  }

  // ---- Steps ---------------------------------------------------------------

  datatype Action = Read | Insert(id: nat) | Clash | Refuse | Commit | Abort | Reread

  // What a read of the winner tells the caller.
  predicate Found(r: Row, d: Dispatcher, outcome: Outcome) {
    r.key == d.key && outcome == if r.task == d.task then Returned(r, true) else OtherTask
  }

  ghost predicate Moves(w: World, i: nat, a: Action, phase: Phase, committed: seq<Row>)
    requires i < |w.dispatchers|
  {
    var d := w.dispatchers[i];
    match a
    case Read =>
      d.phase == Start && committed == w.committed
      && if HasKey(w.committed, d.key) then exists r :: r in w.committed && phase.Done? && Found(r, d, phase.outcome)
         else phase == Absent
    case Insert(id) =>
      d.phase == Absent && !Blocked(w, i) && committed == w.committed
      && phase == if HasKey(w.committed, d.key) then Lost(true) else Claimed(Row(id, d.key, d.task))
    case Clash =>
      d.phase == Absent && !Blocked(w, i) && committed == w.committed && phase == Lost(false)
    case Refuse =>
      d.phase == Absent && committed == w.committed && phase == Done(Refused)
    case Commit =>
      d.phase.Claimed? && committed == w.committed + [d.phase.row] && phase == Done(Returned(d.phase.row, false))
    case Abort =>
      d.phase.Claimed? && committed == w.committed && phase == Done(Refused)
    case Reread =>
      d.phase.Lost? && committed == w.committed
      && if HasKey(w.committed, d.key) then exists r :: r in w.committed && phase.Done? && Found(r, d, phase.outcome)
         else phase == Done(Raised)
  }

  ghost predicate Step(w: World, w': World, i: nat, a: Action) {
    && i < |w.dispatchers|
    && exists phase :: Moves(w, i, a, phase, w'.committed)
                       && w'.dispatchers == w.dispatchers[i := w.dispatchers[i].(phase := phase)]
  }

  ghost predicate IsRun(run: seq<World>) {
    && run != [] && run[0].committed == []
    && (forall d :: d in run[0].dispatchers ==> d.phase == Start)
    && forall k :: 0 <= k < |run| - 1 ==> Next(run[k], run[k + 1])
  }

  ghost predicate Next(w: World, w': World) { exists i: nat, a :: Step(w, w', i, a) }

  // ---- Invariant -----------------------------------------------------------

  ghost predicate OneRowPerKey(rows: seq<Row>) {
    forall p, q :: 0 <= p < |rows| && 0 <= q < |rows| && rows[p].key == rows[q].key ==> p == q
  }

  ghost predicate DispatcherOk(w: World, i: nat)
    requires i < |w.dispatchers|
  {
    var d := w.dispatchers[i];
    match d.phase
    case Claimed(row) => row.key == d.key && row.task == d.task && !HasKey(w.committed, d.key) && !Blocked(w, i)
    case Lost(byKey) => byKey ==> HasKey(w.committed, d.key)
    case Done(Returned(row, _)) => row in w.committed && row.key == d.key && row.task == d.task
    case Done(OtherTask) => exists r :: r in w.committed && r.key == d.key && r.task != d.task
    case _ => true
  }

  // At most one dispatcher created the Attempt of a key.
  predicate Created(d: Dispatcher) { d.phase.Done? && d.phase.outcome.Returned? && !d.phase.outcome.existing }

  ghost predicate CreatedOnce(ds: seq<Dispatcher>) {
    forall i, j :: 0 <= i < |ds| && 0 <= j < |ds| && Created(ds[i]) && Created(ds[j]) && ds[i].key == ds[j].key ==>
                     i == j
  }

  ghost predicate Inv(w: World) {
    && OneRowPerKey(w.committed) && CreatedOnce(w.dispatchers)
    && forall i :: 0 <= i < |w.dispatchers| ==> DispatcherOk(w, i)
  }

  lemma AppendKeepsKeys(rows: seq<Row>, row: Row)
    requires OneRowPerKey(rows) && !HasKey(rows, row.key)
    ensures OneRowPerKey(rows + [row])
  {
    var s := rows + [row];
    forall p, q | 0 <= p < |s| && 0 <= q < |s| && s[p].key == s[q].key ensures p == q {
      if p < |rows| { assert s[p] in rows; }
      if q < |rows| { assert s[q] in rows; }
    }
  }

  // The committed rows only grow, and only by a commit.
  lemma CommittedGrows(w: World, w': World, i: nat, a: Action)
    requires Step(w, w', i, a)
    ensures a == Commit ==>
              w.dispatchers[i].phase.Claimed? && w'.committed == w.committed + [w.dispatchers[i].phase.row]
    ensures a != Commit ==> w'.committed == w.committed
  {
  }

  lemma OthersStayOk(w: World, w': World, i: nat, a: Action, k: nat)
    requires Inv(w) && Step(w, w', i, a) && k < |w.dispatchers| && k != i
    ensures DispatcherOk(w', k)
  {
    CommittedGrows(w, w', i, a);
    var d := w.dispatchers[k];
    assert w'.dispatchers[k] == d && DispatcherOk(w, k) && DispatcherOk(w, i);
    assert forall r :: r in w.committed ==> r in w'.committed;
    if d.phase.Claimed? {
      // Nobody else can hold or commit this key.
      assert w.dispatchers[i].phase.Claimed? ==> w.dispatchers[i].key != d.key;
      assert w'.dispatchers[i].phase.Claimed? && !w.dispatchers[i].phase.Claimed? ==> !Blocked(w, i);
      forall j | 0 <= j < |w'.dispatchers| && j != k && w'.dispatchers[j].phase.Claimed?
        ensures w'.dispatchers[j].key != d.key
      {
        assert j != i ==> w.dispatchers[j] == w'.dispatchers[j];
      }
    }
  }

  lemma MoverIsOk(w: World, w': World, i: nat, a: Action)
    requires Inv(w) && Step(w, w', i, a)
    ensures DispatcherOk(w', i)
  {
    CommittedGrows(w, w', i, a);
    assert DispatcherOk(w, i);
    if w'.dispatchers[i].phase.Claimed? {
      forall j | 0 <= j < |w'.dispatchers| && j != i && w'.dispatchers[j].phase.Claimed?
        ensures w'.dispatchers[j].key != w'.dispatchers[i].key
      {
        assert w.dispatchers[j] == w'.dispatchers[j];
      }
    }
  }

  lemma StepCreatesOnce(w: World, w': World, i: nat, a: Action)
    requires Inv(w) && Step(w, w', i, a)
    ensures CreatedOnce(w'.dispatchers)
  {
    assert DispatcherOk(w, i);
    forall j | 0 <= j < |w.dispatchers| && j != i && Created(w'.dispatchers[j]) && Created(w'.dispatchers[i])
      ensures w'.dispatchers[j].key != w'.dispatchers[i].key
    {
      assert DispatcherOk(w, j) && w.dispatchers[j] == w'.dispatchers[j];
      assert w.dispatchers[j].phase.outcome.row in w.committed;
    }
  }

  lemma StepKeepsInv(w: World, w': World, i: nat, a: Action)
    requires Inv(w) && Step(w, w', i, a)
    ensures Inv(w')
  {
    CommittedGrows(w, w', i, a);
    assert DispatcherOk(w, i);
    if a == Commit { AppendKeepsKeys(w.committed, w.dispatchers[i].phase.row); }
    StepCreatesOnce(w, w', i, a);
    forall k | 0 <= k < |w'.dispatchers| ensures DispatcherOk(w', k) {
      if k == i { MoverIsOk(w, w', i, a); } else { OthersStayOk(w, w', i, a, k); }
    }
  }

  lemma {:induction false} InvAlways(run: seq<World>, k: nat)
    requires IsRun(run) && k < |run|
    ensures Inv(run[k])
  {
    if k == 0 {
      forall i | 0 <= i < |run[0].dispatchers| ensures run[0].dispatchers[i].phase == Start {
        assert run[0].dispatchers[i] in run[0].dispatchers;
      }
    } else {
      InvAlways(run, k - 1);
      assert Next(run[k - 1], run[k - 1 + 1]);
      var i: nat, a :| Step(run[k - 1], run[k], i, a);
      StepKeepsInv(run[k - 1], run[k], i, a);
    }
  }

  // ---- Main results --------------------------------------------------------

  // Same key and same Task: the same Attempt, for everybody who got one, at
  // every moment of every run; created by at most one of them.
  lemma SameKeySameAttempt(run: seq<World>, k: nat, i: nat, j: nat)
    requires IsRun(run) && k < |run| && i < |run[k].dispatchers| && j < |run[k].dispatchers|
    requires run[k].dispatchers[i].key == run[k].dispatchers[j].key
    requires run[k].dispatchers[i].phase.Done? && run[k].dispatchers[i].phase.outcome.Returned?
    requires run[k].dispatchers[j].phase.Done? && run[k].dispatchers[j].phase.outcome.Returned?
    ensures run[k].dispatchers[i].phase.outcome.row == run[k].dispatchers[j].phase.outcome.row
    ensures run[k].dispatchers[i].task == run[k].dispatchers[j].task == run[k].dispatchers[i].phase.outcome.row.task
    ensures i != j ==> run[k].dispatchers[i].phase.outcome.existing || run[k].dispatchers[j].phase.outcome.existing
  {
    InvAlways(run, k);
    var w := run[k];
    assert DispatcherOk(w, i) && DispatcherOk(w, j);
    var p :| 0 <= p < |w.committed| && w.committed[p] == w.dispatchers[i].phase.outcome.row;
    var q :| 0 <= q < |w.committed| && w.committed[q] == w.dispatchers[j].phase.outcome.row;
    assert Created(w.dispatchers[i]) && Created(w.dispatchers[j]) ==> i == j;
  }

  // Losing the key always finds the winner, and never crosses to its Task.
  lemma LoserFindsWinner(run: seq<World>, k: nat, i: nat)
    requires IsRun(run) && k + 1 < |run|
    requires Step(run[k], run[k + 1], i, Reread) && run[k].dispatchers[i].phase == Lost(true)
    ensures var d := run[k + 1].dispatchers[i];
            d.phase == Done(OtherTask) || (d.phase.Done? && d.phase.outcome.Returned? && d.phase.outcome.existing
                                            && d.phase.outcome.row.task == d.task)
  {
    InvAlways(run, k);
    assert DispatcherOk(run[k], i);
  }

  // Keyless requests for the same execution replay one Attempt.
  lemma KeylessReplay(run: seq<World>, k: nat, i: nat, j: nat, digest: DispatchKey.Execution -> string,
                      a: DispatchKey.RunRequest, b: DispatchKey.RunRequest)
    requires IsRun(run) && k < |run| && i < |run[k].dispatchers| && j < |run[k].dispatchers|
    requires var x, y := run[k].dispatchers[i], run[k].dispatchers[j];
             && x.task == y.task
             && x.key == DispatchKey.KeyOf(digest, x.task, None, a)
             && y.key == DispatchKey.KeyOf(digest, y.task, None, b)
             && x.phase.Done? && x.phase.outcome.Returned? && y.phase.Done? && y.phase.outcome.Returned?
    requires DispatchKey.Injective(digest)
    ensures run[k].dispatchers[i].phase.outcome.row == run[k].dispatchers[j].phase.outcome.row <==>
              && a.fixtureDir == b.fixtureDir && a.instructions == b.instructions && a.checks == b.checks
              && a.parent == b.parent && DispatchKey.SameTarget(a, b) && DispatchKey.SameTier(a, b)
  {
    var x, y := run[k].dispatchers[i], run[k].dispatchers[j];
    InvAlways(run, k);
    assert DispatcherOk(run[k], i) && DispatcherOk(run[k], j);
    DispatchKey.DerivedKeyIff(digest, x.task, a, y.task, b);
    if x.key == y.key { SameKeySameAttempt(run, k, i, j); }
  }

  // ---- Progress ------------------------------------------------------------

  function Left(p: Phase): nat {
    match p
    case Start => 3
    case Absent => 2
    case Claimed(_) => 1
    case Lost(_) => 1
    case Done(_) => 0
  }

  function StepsLeft(ds: seq<Dispatcher>): nat {
    if ds == [] then 0 else Left(ds[0].phase) + StepsLeft(ds[1..])
  }

  lemma {:induction false} UpdateSteps(ds: seq<Dispatcher>, i: nat, phase: Phase)
    requires i < |ds|
    ensures StepsLeft(ds[i := ds[i].(phase := phase)]) == StepsLeft(ds) - Left(ds[i].phase) + Left(phase)
  {
    var after := ds[i := ds[i].(phase := phase)];
    if i == 0 {
      assert after[1..] == ds[1..];
    } else {
      assert after[1..] == ds[1..][i - 1 := ds[1..][i - 1].(phase := phase)];
      UpdateSteps(ds[1..], i - 1, phase);
    }
  }

  // Every run is finite: a step uses one up for good.
  lemma {:induction false} RunsAreShort(run: seq<World>, k: nat)
    requires IsRun(run) && k < |run|
    ensures k + StepsLeft(run[k].dispatchers) <= 3 * |run[0].dispatchers|
  {
    if k == 0 {
      StartSteps(run[0].dispatchers);
    } else {
      RunsAreShort(run, k - 1);
      assert Next(run[k - 1], run[k - 1 + 1]);
      var i: nat, a :| Step(run[k - 1], run[k], i, a);
      UpdateSteps(run[k - 1].dispatchers, i, run[k].dispatchers[i].phase);
    }
  }

  lemma {:induction false} StartSteps(ds: seq<Dispatcher>)
    requires forall d :: d in ds ==> d.phase == Start
    ensures StepsLeft(ds) == 3 * |ds|
  {
    if ds != [] {
      assert ds[0] in ds;
      StartSteps(ds[1..]);
    }
  }

  // Can take a step that is not giving up.
  ghost predicate CanMove(w: World, i: nat) {
    exists a, w' :: Step(w, w', i, a) && a != Refuse && a != Abort && a != Clash
  }

  // Nobody waits for ever: who is not done can move on, or waits for one who can.
  lemma SomebodyMoves(w: World, i: nat)
    requires Inv(w) && i < |w.dispatchers| && !w.dispatchers[i].phase.Done?
    ensures exists j :: 0 <= j < |w.dispatchers| && CanMove(w, j)
  {
    var d := w.dispatchers[i];
    match d.phase {
      case Start =>
        if HasKey(w.committed, d.key) { FindsRow(w, i, Read); } else { Goes(w, i, Read, Absent, w.committed); }
      case Absent =>
        if Blocked(w, i) {
          var j: nat :| j < |w.dispatchers| && j != i && w.dispatchers[j].phase.Claimed?
                        && w.dispatchers[j].key == d.key;
          var row := w.dispatchers[j].phase.row;
          Goes(w, j, Commit, Done(Returned(row, false)), w.committed + [row]);
        } else {
          var next := if HasKey(w.committed, d.key) then Lost(true) else Claimed(Row(0, d.key, d.task));
          Goes(w, i, Insert(0), next, w.committed);
        }
      case Claimed(row) => Goes(w, i, Commit, Done(Returned(row, false)), w.committed + [row]);
      case Lost(_) =>
        if HasKey(w.committed, d.key) {
          FindsRow(w, i, Reread);
        } else {
          Goes(w, i, Reread, Done(Raised), w.committed);
        }
    }
  }

  lemma Goes(w: World, i: nat, a: Action, phase: Phase, committed: seq<Row>)
    requires i < |w.dispatchers| && Moves(w, i, a, phase, committed) && a != Refuse && a != Abort && a != Clash
    ensures CanMove(w, i)
  {
    var w' := World(committed, w.dispatchers[i := w.dispatchers[i].(phase := phase)]);
    assert Step(w, w', i, a);
  }

  lemma FindsRow(w: World, i: nat, a: Action)
    requires i < |w.dispatchers| && HasKey(w.committed, w.dispatchers[i].key)
    requires (a == Read && w.dispatchers[i].phase == Start) || (a == Reread && w.dispatchers[i].phase.Lost?)
    ensures CanMove(w, i)
  {
    var d := w.dispatchers[i];
    var r :| r in w.committed && r.key == d.key;
    var phase := Done(if r.task == d.task then Returned(r, true) else OtherTask);
    assert Found(r, d, phase.outcome);
    Goes(w, i, a, phase, w.committed);
  }
}
