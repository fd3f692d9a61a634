/** Migrations: any number of runners over one ledger, each step in a transaction of its own,
    blocked, rolled back and tried again. */
module Migrations {
  import opened Options

  datatype Migration = Migration(id: string, checksum: string)

  /** A component's migrations are there, each under an id of its own. */
  predicate ValidComponent(c: seq<Migration>) {
    c != [] && (forall i :: 0 <= i < |c| ==> c[i].id != "") && forall i, j :: 0 <= i < j < |c| ==> c[i].id != c[j].id
  }

  datatype Refusal = NoName | NoMigrations | NoId(index: nat) | Twice(id: string)

  datatype Result<+T, +E> = Ok(value: T) | Err(error: E)

  /** A component, or why it is none. */
  method NewComponent(name: string, migrations: seq<Migration>) returns (r: Result<seq<Migration>, Refusal>)
    ensures r.Ok? <==> name != "" && ValidComponent(migrations)
    ensures r.Ok? ==> r.value == migrations
    ensures r.Err? && r.error.NoId? ==> r.error.index < |migrations| && migrations[r.error.index].id == ""
    ensures r.Err? && r.error.Twice? ==> exists i, j :: 0 <= i < j < |migrations| && migrations[i].id == migrations[j].id == r.error.id
  {
    if name == "" {
      return Err(NoName);
    }
    if migrations == [] {
      return Err(NoMigrations);
    }
    for index := 0 to |migrations|
      invariant forall i :: 0 <= i < index ==> migrations[i].id != ""
      invariant forall i, j :: 0 <= i < j < index ==> migrations[i].id != migrations[j].id
    {
      if migrations[index].id == "" {
        return Err(NoId(index));
      }
      if i: nat :| i < index && migrations[i].id == migrations[index].id {
        return Err(Twice(migrations[index].id));
      }
    }
    r := Ok(migrations);
  }

  datatype Stop = Changed(id: string) | TwoTables(id: string) | Blocked | Failure

  /** Where a runner is: outside a transaction, before its ledger's or its `index`th step; in
      that step's transaction, which holds the component's key; or back. */
  datatype Phase =
    | Arrived
    | Making
    | Before(index: nat)
    | Locked(index: nat)
    | Checked(index: nat)
    | Ran(index: nat)
    | Inserted(index: nat)
    | Returned(outcome: Result<(), Stop>)
  {
    predicate HoldsKey() {
      Locked? || Checked? || Ran? || Inserted?
    }

    predicate InStep() {
      Before? || HoldsKey()
    }
  }

  /** `recorded` is the ledger as the runner read it first. */
  datatype Runner = Runner(component: seq<Migration>, phase: Phase, recorded: seq<Migration>)

  /** `ledger` are the component's rows, in the order they came, or none while there is no
      table; `executed` the steps whose text was run by a transaction that committed. */
  datatype State = State(ledger: Option<seq<Migration>>, executed: seq<string>, runners: map<nat, Runner>)
  {
    function Rows(): seq<Migration> {
      if ledger.Some? then ledger.value else []
    }
  }

  predicate HasId(rows: seq<Migration>, id: string) {
    exists row :: row in rows && row.id == id
  }

  /** The row is of a step the code knows under another text. */
  predicate IsChanged(row: Migration, component: seq<Migration>) {
    exists m :: m in component && m.id == row.id && m.checksum != row.checksum
  }

  function FirstChanged(rows: seq<Migration>, component: seq<Migration>): (r: Option<Migration>)
    ensures r.None? <==> forall row :: row in rows ==> !IsChanged(row, component)
    ensures r.Some? ==> r.value in rows && IsChanged(r.value, component)
  {
    if rows == [] then None
    else if IsChanged(rows[0], component) then Some(rows[0])
    else FirstChanged(rows[1..], component)
  }

  predicate AllRecorded(rows: seq<Migration>, component: seq<Migration>) {
    forall m :: m in component ==> HasId(rows, m.id)
  }

  datatype Step =
    | Arrive(r: nat, component: seq<Migration>)
    | Read(r: nat)
    | MakeLedger(r: nat)
    | Skip(r: nat)
    | Lock(r: nat)
    | Check(r: nat)
    | RunText(r: nat)
    | FindOthers(r: nat)
    | Insert(r: nat)
    | Commit(r: nat)
    | Block(r: nat, spent: bool)
    | Fail(r: nat)
    | Finish(r: nat)

  predicate At(s: State, r: nat) {
    r in s.runners
  }

  predicate KeyIsFree(s: State) {
    forall r :: r in s.runners ==> !s.runners[r].phase.HoldsKey()
  }

  predicate Knows(runner: Runner) {
    (runner.phase.Before? || runner.phase.HoldsKey()) && runner.phase.index < |runner.component|
  }

  predicate Enabled(s: State, step: Step) {
    match step
    case Arrive(r, c) => r !in s.runners && ValidComponent(c)
    case Read(r) => At(s, r) && s.runners[r].phase.Arrived?
    case MakeLedger(r) => At(s, r) && s.runners[r].phase.Making?
    case Skip(r) => At(s, r) && s.runners[r].phase.Before? && Knows(s.runners[r]) && HasId(s.runners[r].recorded, Next(s, r).id)
    case Lock(r) => At(s, r) && s.runners[r].phase.Before? && Knows(s.runners[r])
                    && !HasId(s.runners[r].recorded, Next(s, r).id) && KeyIsFree(s)
    case Check(r) => At(s, r) && s.runners[r].phase.Locked? && Knows(s.runners[r])
    case RunText(r) => At(s, r) && s.runners[r].phase.Checked?
    case FindOthers(r) => At(s, r) && s.runners[r].phase.Ran? && Knows(s.runners[r]) && s.runners[r].phase.index > 0
    case Insert(r) => At(s, r) && s.runners[r].phase.Ran?
    case Commit(r) => At(s, r) && s.runners[r].phase.Inserted? && Knows(s.runners[r])
    case Block(r, _) => At(s, r) && (s.runners[r].phase.Making? || s.runners[r].phase.InStep())
    case Fail(r) => At(s, r) && !s.runners[r].phase.Returned?
    case Finish(r) => At(s, r) && s.runners[r].phase == Before(|s.runners[r].component|)
  }

  /** The step a runner is at. */
  function Next(s: State, r: nat): Migration
    requires At(s, r) && Knows(s.runners[r])
  {
    s.runners[r].component[s.runners[r].phase.index]
  }

  function WithPhase(s: State, r: nat, phase: Phase): State
    requires At(s, r)
  {
    s.(runners := s.runners[r := s.runners[r].(phase := phase)])
  }

  function Apply(s: State, step: Step): (later: State)
    requires Enabled(s, step)
  {
    match step
    case Arrive(r, c) => s.(runners := s.runners[r := Runner(c, Arrived, [])])
    case Read(r) =>
      var c := s.runners[r].component;
      var changed := FirstChanged(s.Rows(), c);
      if changed.Some? then WithPhase(s, r, Returned(Err(Changed(changed.value.id))))
      else if AllRecorded(s.Rows(), c) then WithPhase(s, r, Returned(Ok(())))
      else s.(runners := s.runners[r := Runner(c, Making, s.Rows())])
    case MakeLedger(r) => WithPhase(s.(ledger := Some(s.Rows())), r, Before(0))
    case Skip(r) => WithPhase(s, r, Before(s.runners[r].phase.index + 1))
    case Lock(r) => WithPhase(s, r, Locked(s.runners[r].phase.index))
    case Check(r) =>
      var m := Next(s, r);
      WithPhase(s, r, if !HasId(s.Rows(), m.id) then Checked(s.runners[r].phase.index)
                      else if m in s.Rows() then Before(s.runners[r].phase.index + 1)
                      else Returned(Err(Changed(m.id))))
    case RunText(r) => WithPhase(s, r, Ran(s.runners[r].phase.index))
    case FindOthers(r) => WithPhase(s, r, Returned(Err(TwoTables(Next(s, r).id))))
    case Insert(r) => WithPhase(s, r, Inserted(s.runners[r].phase.index))
    case Commit(r) =>
      var m := Next(s, r);
      WithPhase(s.(ledger := Some(s.Rows() + [m]), executed := s.executed + [m.id]), r, Before(s.runners[r].phase.index + 1))
    case Block(r, spent) =>
      var phase := s.runners[r].phase;
      WithPhase(s, r, if spent then Returned(Err(Blocked)) else if phase.Making? then Making else Before(phase.index))
    case Fail(r) => WithPhase(s, r, Returned(Err(Failure)))
    case Finish(r) => WithPhase(s, r, Returned(Ok(())))
  }

  // What every step keeps.

  ghost predicate Distinct(rows: seq<Migration>) {
    forall i, j :: 0 <= i < j < |rows| ==> rows[i].id != rows[j].id
  }

  /** What the ledger has of a component is under the component's own text. */
  ghost predicate Matches(rows: seq<Migration>, component: seq<Migration>) {
    forall m :: m in component && HasId(rows, m.id) ==> m in rows
  }

  ghost predicate RunnerInv(s: State, runner: Runner) {
    var c, rows := runner.component, s.Rows();
    && ValidComponent(c) && (forall row :: row in runner.recorded ==> row in rows)
    && (runner.phase.Making? || runner.phase.InStep() ==> Matches(runner.recorded, c))
    && (runner.phase.InStep() ==>
          && s.ledger.Some? && runner.phase.index <= |c| && (runner.phase.HoldsKey() ==> runner.phase.index < |c|)
          && forall i :: 0 <= i < runner.phase.index ==> c[i] in rows)
    && (runner.phase.Checked? || runner.phase.Ran? || runner.phase.Inserted? ==> !HasId(rows, c[runner.phase.index].id))
    && (runner.phase == Returned(Ok(())) ==> forall m :: m in c ==> m in rows)
  }

  /** The rows there were at first, and those of the steps run since, no id twice. */
  ghost predicate LedgerInv(s: State, first: seq<Migration>) {
    var rows := s.Rows();
    && Distinct(rows) && first <= rows && |s.executed| == |rows| - |first|
    && forall i :: 0 <= i < |s.executed| ==> s.executed[i] == rows[|first| + i].id
  }

  ghost predicate Inv(s: State, first: seq<Migration>) {
    && LedgerInv(s, first)
    && (forall r :: r in s.runners ==> RunnerInv(s, s.runners[r]))
    && (forall r, q :: r in s.runners && q in s.runners && r != q ==> !(s.runners[r].phase.HoldsKey() && s.runners[q].phase.HoldsKey()))
  }

  /** A database with no ledger, or with rows of the component already. */
  ghost predicate Initial(s: State, first: seq<Migration>) {
    s.Rows() == first && Distinct(first) && s.executed == [] && s.runners == map[]
  }

  lemma RunnerMoves(s: State, first: seq<Migration>, r: nat, runner: Runner)
    requires Inv(s, first) && r in s.runners && RunnerInv(s, runner)
    requires runner.phase.HoldsKey() ==> s.runners[r].phase.HoldsKey() || KeyIsFree(s)
    ensures Inv(s.(runners := s.runners[r := runner]), first)
  {
    hide RunnerInv, LedgerInv;
    var later := s.(runners := s.runners[r := runner]);
    assert forall x :: RunnerInv(later, x) == RunnerInv(s, x) by {
      SameRows(s, later);
    }
    assert LedgerInv(later, first) by {
      SameRows(s, later);
    }
  }

  lemma SameRows(s: State, later: State)
    requires later.ledger == s.ledger && later.executed == s.executed
    ensures forall x :: RunnerInv(later, x) == RunnerInv(s, x)
    ensures forall first :: LedgerInv(later, first) == LedgerInv(s, first)
  {
  }

  lemma UnchangedMatches(rows: seq<Migration>, c: seq<Migration>)
    requires FirstChanged(rows, c).None?
    ensures Matches(rows, c)
  {
    forall m | m in c && HasId(rows, m.id)
      ensures m in rows
    {
      var row :| row in rows && row.id == m.id;
      assert !IsChanged(row, c);
    }
  }

  lemma ReadKeeps(s: State, first: seq<Migration>, r: nat)
    requires Inv(s, first) && Enabled(s, Read(r))
    ensures Inv(Apply(s, Read(r)), first)
  {
    var c, later := s.runners[r].component, Apply(s, Read(r));
    assert RunnerInv(s, s.runners[r]);
    if FirstChanged(s.Rows(), c).None? {
      UnchangedMatches(s.Rows(), c);
    }
    RunnerMoves(s, first, r, later.runners[r]);
  }

  lemma MakeLedgerKeeps(s: State, first: seq<Migration>, r: nat)
    requires Inv(s, first) && Enabled(s, MakeLedger(r))
    ensures Inv(Apply(s, MakeLedger(r)), first)
  {
    var made := s.(ledger := Some(s.Rows()));
    assert made.Rows() == s.Rows();
    forall q | q in made.runners
      ensures RunnerInv(made, made.runners[q])
    {
      assert RunnerInv(s, s.runners[q]);
    }
    assert RunnerInv(s, s.runners[r]);
    RunnerMoves(made, first, r, s.runners[r].(phase := Before(0)));
  }

  /** A row of a known step is the step's own text. */
  lemma RowIsOwn(rows: seq<Migration>, m: Migration)
    requires Distinct(rows) && HasId(rows, m.id)
    ensures m in rows <==> forall row :: row in rows && row.id == m.id ==> row.checksum == m.checksum
  {
    var row :| row in rows && row.id == m.id;
    assert row == m <==> row.checksum == m.checksum;
    if m in rows {
      var i :| 0 <= i < |rows| && rows[i] == m;
      forall other | other in rows && other.id == m.id
        ensures other.checksum == m.checksum
      {
        var j :| 0 <= j < |rows| && rows[j] == other;
      }
    }
  }

  lemma CommitKeeps(s: State, first: seq<Migration>, r: nat)
    requires Inv(s, first) && Enabled(s, Commit(r))
    ensures Inv(Apply(s, Commit(r)), first)
  {
    var later, m := Apply(s, Commit(r)), Next(s, r);
    assert RunnerInv(s, s.runners[r]);
    var rows := s.Rows();
    assert later.Rows() == rows + [m];
    assert forall i :: 0 <= i < |rows| ==> rows[i] in rows;
    forall q | q in later.runners
      ensures RunnerInv(later, later.runners[q])
    {
      assert RunnerInv(s, s.runners[q]);
      assert q != r ==> !s.runners[q].phase.HoldsKey();
    }
  }

  lemma CheckKeeps(s: State, first: seq<Migration>, r: nat)
    requires Inv(s, first) && Enabled(s, Check(r))
    ensures Inv(Apply(s, Check(r)), first)
  {
    assert RunnerInv(s, s.runners[r]);
    RunnerMoves(s, first, r, Apply(s, Check(r)).runners[r]);
  }

  lemma ArriveKeeps(s: State, first: seq<Migration>, r: nat, c: seq<Migration>)
    requires Inv(s, first) && Enabled(s, Arrive(r, c))
    ensures Inv(Apply(s, Arrive(r, c)), first)
  {
    SameRows(s, Apply(s, Arrive(r, c)));
  }

  lemma StepKeeps(s: State, first: seq<Migration>, step: Step)
    requires Inv(s, first) && Enabled(s, step)
    ensures Inv(Apply(s, step), first)
  {
    hide LedgerInv;
    match step
    case Arrive(r, c) => ArriveKeeps(s, first, r, c);
    case Read(r) => ReadKeeps(s, first, r);
    case MakeLedger(r) => MakeLedgerKeeps(s, first, r);
    case Check(r) => CheckKeeps(s, first, r);
    case Commit(r) => CommitKeeps(s, first, r);
    case _ =>
      assert RunnerInv(s, s.runners[step.r]);
      RunnerMoves(s, first, step.r, Apply(s, step).runners[step.r]);
  }

  // Every run.

  ghost predicate Goes(s: State, step: Step, later: State) {
    Enabled(s, step) && later == Apply(s, step)
  }

  ghost predicate IsRun(run: seq<State>, steps: seq<Step>, first: seq<Migration>) {
    |run| == |steps| + 1 && Initial(run[0], first) && forall i :: 0 <= i < |steps| ==> Goes(run[i], steps[i], run[i + 1])
  }

  lemma {:induction false} RunKeeps(run: seq<State>, steps: seq<Step>, first: seq<Migration>, n: nat)
    requires IsRun(run, steps, first) && n < |run|
    ensures Inv(run[n], first)
  {
    hide LedgerInv, RunnerInv;
    if n == 0 {
      FirstHolds(run[0], first);
    } else {
      RunKeeps(run, steps, first, n - 1);
      assert Goes(run[n - 1], steps[n - 1], run[n]);
      StepKeeps(run[n - 1], first, steps[n - 1]);
    }
  }

  lemma FirstHolds(s: State, first: seq<Migration>)
    requires Initial(s, first)
    ensures Inv(s, first)
  {
  }

  /** No step is run twice, nor one that the ledger had, under whatever text: each step whose
      text was run and committed has its one row since, and had none before. */
  lemma AppliedOnce(run: seq<State>, steps: seq<Step>, first: seq<Migration>)
    requires IsRun(run, steps, first)
    ensures var s := run[|run| - 1];
            && (forall i, j :: 0 <= i < j < |s.executed| ==> s.executed[i] != s.executed[j])
            && (forall i :: 0 <= i < |s.executed| ==> HasId(s.Rows(), s.executed[i]) && !HasId(first, s.executed[i]))
  {
    RunKeeps(run, steps, first, |steps|);
    var s := run[|run| - 1];
    forall i | 0 <= i < |s.executed|
      ensures HasId(s.Rows(), s.executed[i]) && !HasId(first, s.executed[i])
    {
      assert s.Rows()[|first| + i] in s.Rows();
      forall row | row in first
        ensures row.id != s.executed[i]
      {
        var k :| 0 <= k < |first| && first[k] == row;
        assert s.Rows()[k] == first[k];
      }
    }
  }

  /** A runner that returns with success leaves every step recorded with its own checksum. */
  lemma SuccessIsRecorded(run: seq<State>, steps: seq<Step>, first: seq<Migration>, r: nat, m: Migration)
    requires IsRun(run, steps, first) && r in run[|run| - 1].runners
    requires run[|run| - 1].runners[r].phase == Returned(Ok(())) && m in run[|run| - 1].runners[r].component
    ensures m in run[|run| - 1].Rows()
  {
    RunKeeps(run, steps, first, |steps|);
  }

  /** A runner whose step is recorded under other text never returns with success. */
  lemma ChangedIsRefused(run: seq<State>, steps: seq<Step>, first: seq<Migration>, r: nat, m: Migration, row: Migration)
    requires IsRun(run, steps, first) && r in run[|run| - 1].runners && m in run[|run| - 1].runners[r].component
    requires row in run[|run| - 1].Rows() && row.id == m.id && row.checksum != m.checksum
    ensures run[|run| - 1].runners[r].phase != Returned(Ok(()))
  {
    RunKeeps(run, steps, first, |steps|);
    var rows := run[|run| - 1].Rows();
    assert HasId(rows, m.id);
    RowIsOwn(rows, m);
  }

  /** The ledger's rows are the component's first steps, in order. */
  ghost predicate IsPrefix(rows: seq<Migration>, c: seq<Migration>) {
    |rows| <= |c| && forall i :: 0 <= i < |rows| ==> rows[i].id == c[i].id
  }

  /** Every runner is of the component. */
  ghost predicate AllOf(s: State, c: seq<Migration>) {
    forall r :: r in s.runners ==> s.runners[r].component == c
  }

  lemma StepInOrder(s: State, first: seq<Migration>, step: Step, c: seq<Migration>)
    requires Inv(s, first) && Enabled(s, step) && IsPrefix(s.Rows(), c) && AllOf(s, c) && (step.Arrive? ==> step.component == c)
    ensures IsPrefix(Apply(s, step).Rows(), c) && AllOf(Apply(s, step), c)
  {
    if step.Commit? {
      CommitInOrder(s, first, step, c);
    } else {
      hide LedgerInv, RunnerInv;
    }
  }

  lemma CommitInOrder(s: State, first: seq<Migration>, step: Step, c: seq<Migration>)
    requires Inv(s, first) && Enabled(s, step) && IsPrefix(s.Rows(), c) && AllOf(s, c) && step.Commit?
    ensures IsPrefix(Apply(s, step).Rows(), c) && AllOf(Apply(s, step), c)
  {
    hide LedgerInv;
    var i, rows := s.runners[step.r].phase.index, s.Rows();
    assert RunnerInv(s, s.runners[step.r]);
    NextIsNext(rows, c, i);
  }

  /** The step whose predecessors are all recorded, and which is not, is the next. */
  lemma NextIsNext(rows: seq<Migration>, c: seq<Migration>, i: nat)
    requires IsPrefix(rows, c) && ValidComponent(c) && i < |c| && !HasId(rows, c[i].id)
    requires forall j :: 0 <= j < i ==> c[j] in rows
    ensures i == |rows|
  {
    forall j | 0 <= j < |rows|
      ensures HasId(rows, c[j].id)
    {
      assert rows[j] in rows;
    }
    assert forall k :: 0 <= k < |rows| && |rows| < |c| ==> rows[k].id == c[k].id && c[k].id != c[|rows|].id;
    assert |rows| < |c| ==> c[|rows|] !in rows;
  }

  lemma {:induction false} RunInOrder(run: seq<State>, steps: seq<Step>, first: seq<Migration>, c: seq<Migration>, n: nat)
    requires IsRun(run, steps, first) && n < |run| && IsPrefix(first, c)
    requires forall i :: 0 <= i < |steps| && steps[i].Arrive? ==> steps[i].component == c
    ensures IsPrefix(run[n].Rows(), c) && AllOf(run[n], c)
  {
    hide Inv, Enabled, Apply;
    if n > 0 {
      RunInOrder(run, steps, first, c, n - 1);
      RunKeeps(run, steps, first, n - 1);
      assert Goes(run[n - 1], steps[n - 1], run[n]);
      StepInOrder(run[n - 1], first, steps[n - 1], c);
    }
  }

  /** Over an empty ledger, or one with the component's first steps, the runners of one
      component run its steps in order, from the first that was not recorded. */
  lemma AppliedInOrder(run: seq<State>, steps: seq<Step>, first: seq<Migration>, c: seq<Migration>)
    requires IsRun(run, steps, first) && IsPrefix(first, c)
    requires forall i :: 0 <= i < |steps| && steps[i].Arrive? ==> steps[i].component == c
    ensures var executed := run[|run| - 1].executed;
            |first| + |executed| <= |c| && forall i :: 0 <= i < |executed| ==> executed[i] == c[|first| + i].id
  {
    RunInOrder(run, steps, first, c, |steps|);
    RunKeeps(run, steps, first, |steps|);
  }
}
