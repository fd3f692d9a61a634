/** A runner of migrations as its loops run, with whatever other runners do between its
    statements. */
module MigrationRunner {
  import opened Options
  import opened Migrations

  /** Where a transaction is struck: before it has the key, at the step's target or text, or at
      the step's row. */
  datatype Moment = AtKey | AtText | AtRow

  /** How a step fares in its transaction. */
  datatype Fate = Passes | LocksOthers | IsBlocked(at: Moment) | Fails(at: Moment)
  {
    predicate StrikesAt(moment: Moment) {
      (IsBlocked? || Fails?) && at == moment
    }
  }

  /** What one try at a step comes to: done, by this runner or another; blocked, rolled back;
      or the run is over. */
  datatype Try = Done | TryAgain | Over

  predicate IsOf(step: Step, r: nat) {
    step.r == r
  }

  /** Another runner's step changes nothing of this one, and takes no row from the ledger. */
  ghost predicate LeftAlone(s: State, later: State, r: nat) {
    && (r in s.runners <==> r in later.runners) && (r in s.runners ==> later.runners[r] == s.runners[r])
    && s.executed <= later.executed && s.Rows() <= later.Rows()
  }

  lemma OthersLeaveAlone(s: State, step: Step, r: nat)
    requires Enabled(s, step) && !IsOf(step, r)
    ensures LeftAlone(s, Apply(s, step), r)
  {
  }

  /** Nobody else does anything. */
  ghost predicate Quiet(others: nat -> seq<Step>) {
    forall n :: others(n) == []
  }

  /** The runner's step committed, with its row. */
  function AfterCommit(s: State, r: nat): State
    requires At(s, r) && Knows(s.runners[r])
  {
    var m := Migrations.Next(s, r);
    WithPhase(s.(ledger := Some(s.Rows() + [m]), executed := s.executed + [m.id]), r, Before(s.runners[r].phase.index + 1))
  }

  lemma Rephased(s: State, r: nat, one: Phase, other: Phase)
    requires At(s, r) && Knows(s.runners[r]) && one.HoldsKey() && one.index == s.runners[r].phase.index
    ensures WithPhase(WithPhase(s, r, one), r, other) == WithPhase(s, r, other)
    ensures At(WithPhase(s, r, one), r) && Knows(WithPhase(s, r, one).runners[r])
    ensures AfterCommit(WithPhase(s, r, one), r) == AfterCommit(s, r)
    ensures Migrations.Next(WithPhase(s, r, one), r) == Migrations.Next(s, r)
  {
  }

  /** A runner's own steps under the key. */
  lemma OwnStep(s: State, r: nat)
    requires At(s, r) && Knows(s.runners[r])
    ensures var phase := s.runners[r].phase;
            && (phase.Before? && KeyIsFree(s) && !HasId(s.runners[r].recorded, Migrations.Next(s, r).id) ==>
                  Enabled(s, Lock(r)) && Apply(s, Lock(r)) == WithPhase(s, r, Locked(phase.index)))
            && (phase.Locked? && !HasId(s.Rows(), Migrations.Next(s, r).id) ==>
                  Enabled(s, Check(r)) && Apply(s, Check(r)) == WithPhase(s, r, Checked(phase.index)))
            && (phase.Checked? ==> Enabled(s, RunText(r)) && Apply(s, RunText(r)) == WithPhase(s, r, Ran(phase.index)))
            && (phase.Ran? ==> Enabled(s, Insert(r)) && Apply(s, Insert(r)) == WithPhase(s, r, Inserted(phase.index)))
            && (phase.Inserted? ==> Enabled(s, Commit(r)) && Apply(s, Commit(r)) == AfterCommit(s, r))
  {
    hide HasId, State.Rows;
  }

  lemma CheckStep(s: State, r: nat)
    requires At(s, r) && Knows(s.runners[r]) && s.runners[r].phase.Locked?
    ensures Enabled(s, Check(r))
  {
  }

  lemma SameLedger(s: State, later: State)
    requires later.ledger == s.ledger
    ensures later.Rows() == s.Rows()
  {
  }

  lemma CommitIs(s: State, r: nat)
    requires At(s, r) && Knows(s.runners[r])
    ensures var later := AfterCommit(s, r);
            && At(later, r) && later.runners[r] == s.runners[r].(phase := Before(s.runners[r].phase.index + 1))
            && later.executed == s.executed + [Migrations.Next(s, r).id] && later.Rows() == s.Rows() + [Migrations.Next(s, r)]
            && (KeyIsFree(s) ==> KeyIsFree(later))
  {
  }

  /** The steps a ledger does not have, in the component's order. */
  function Pending(rows: seq<Migration>, c: seq<Migration>): seq<Migration> {
    if c == [] then []
    else Pending(rows, c[..|c| - 1]) + if HasId(rows, c[|c| - 1].id) then [] else [c[|c| - 1]]
  }

  function Ids(steps: seq<Migration>): seq<string> {
    seq(|steps|, i requires 0 <= i < |steps| => steps[i].id)
  }

  lemma {:induction false} PendingAreOfIt(rows: seq<Migration>, c: seq<Migration>, m: Migration)
    requires m in Pending(rows, c)
    ensures m in c
    decreases |c|
  {
    if m != c[|c| - 1] {
      PendingAreOfIt(rows, c[..|c| - 1], m);
    }
  }

  /** The next step of a component is not among the rows of those before it. */
  lemma NextIsPending(rows: seq<Migration>, c: seq<Migration>, index: nat)
    requires ValidComponent(c) && index < |c| && !HasId(rows, c[index].id)
    ensures !HasId(rows + Pending(rows, c[..index]), c[index].id)
  {
    hide Pending;
    forall row | row in rows + Pending(rows, c[..index])
      ensures row.id != c[index].id
    {
      if row in rows {
        assert !(row.id == c[index].id);
      } else {
        PendingAreOfIt(rows, c[..index], row);
        var i :| 0 <= i < index && c[i] == row;
      }
    }
  }

  /** One more of the component's steps looked at. */
  lemma OneMorePending(rows: seq<Migration>, c: seq<Migration>, index: nat)
    requires index < |c|
    ensures Pending(rows, c[..index + 1])
            == Pending(rows, c[..index]) + if HasId(rows, c[index].id) then [] else [c[index]]
  {
    assert c[..index + 1][..index] == c[..index];
  }

  class Runners {
    var state: State
    ghost var run: seq<State>
    ghost var steps: seq<Step>
    ghost const first: seq<Migration>

    ghost predicate Valid()
      reads this
    {
      IsRun(run, steps, first) && run[|run| - 1] == state && Inv(state, first)
    }

    constructor (ledger: Option<seq<Migration>>)
      requires ledger.Some? ==> Distinct(ledger.value)
      ensures Valid() && steps == [] && state.ledger == ledger
    {
      state := State(ledger, [], map[]);
      run := [State(ledger, [], map[])];
      steps := [];
      first := if ledger.Some? then ledger.value else [];
      new;
      FirstHolds(state, first);
    }

    method Do(step: Step)
      requires Valid() && Enabled(state, step)
      modifies this
      ensures Valid() && state == Apply(old(state), step) && steps == old(steps) + [step]
    {
      hide Inv, Initial, Apply, Enabled;
      StepKeeps(state, first, step);
      ghost var longer, more := run + [Apply(state, step)], steps + [step];
      forall i | 0 <= i < |more|
        ensures Goes(longer[i], more[i], longer[i + 1])
      {
        assert i < |steps| ==> Goes(run[i], steps[i], run[i + 1]);
      }
      state, run, steps := Apply(state, step), longer, more;
    }

    /** What other runners do before this one's next statement: of `script`, what can happen. */
    method Others(script: seq<Step>, r: nat)
      requires Valid()
      modifies this
      ensures Valid() && old(steps) <= steps && LeftAlone(old(state), state, r)
      ensures script == [] ==> state == old(state)
    {
      hide Inv, Apply, Enabled, IsRun;
      for i := 0 to |script|
        invariant Valid() && old(steps) <= steps && LeftAlone(old(state), state, r)
        invariant script == [] ==> state == old(state)
      {
        if !IsOf(script[i], r) && Enabled(state, script[i]) {
          OthersLeaveAlone(state, script[i], r);
          Do(script[i]);
        }
      }
    }

    /** One try at the runner's step, in a transaction: under the component's key the ledger is
        read again, and the step run, judged and recorded, unless another runner did it. */
    method TryStep(r: nat, fate: Fate, others: nat -> seq<Step>) returns (tried: Try, applied: bool)
      requires Valid() && At(state, r) && state.runners[r].phase.Before? && Knows(state.runners[r])
      requires !HasId(state.runners[r].recorded, Migrations.Next(state, r).id)
      modifies this
      ensures Valid() && old(steps) <= steps && At(state, r)
      ensures state.runners[r].component == old(state).runners[r].component && state.runners[r].recorded == old(state).runners[r].recorded
      ensures old(state.executed) <= state.executed
      ensures tried.Done? ==> state.runners[r].phase == Before(old(state).runners[r].phase.index + 1)
      ensures tried.TryAgain? ==> state.runners[r].phase == old(state).runners[r].phase
      ensures tried.Over? ==> state.runners[r].phase.Returned? && state.runners[r].phase.outcome.Err?
                              && !state.runners[r].phase.outcome.error.Blocked?
      ensures applied ==> tried.Done? && Migrations.Next(old(state), r).id in state.executed
      ensures Quiet(others) && fate.Passes? && KeyIsFree(old(state)) && !HasId(old(state).Rows(), Migrations.Next(old(state), r).id) ==>
                tried.Done? && applied && state == AfterCommit(old(state), r)
    {
      hide Inv, IsRun, HasId, State.Rows;
      applied := false;
      Others(others(0), r);
      if !KeyIsFree(state) || fate.StrikesAt(AtKey) {
        tried := Strike(r, !KeyIsFree(state) || fate.IsBlocked?);
        return;
      }
      LockAndCheck(r, others(1));
      if !state.runners[r].phase.Checked? {
        tried := if state.runners[r].phase.Returned? then Over else Done;
        return;
      }
      if Quiet(others) {
        Rephased(old(state), r, Checked(old(state).runners[r].phase.index), Before(0));
      }
      tried, applied := RunLocked(r, fate, (n: nat) => others(2 + n));
    }

    /** The transaction rolled back, wherever it is: to be tried again when it was blocked. */
    method Strike(r: nat, blocked: bool) returns (tried: Try)
      requires Valid() && At(state, r) && (state.runners[r].phase.Before? || state.runners[r].phase.HoldsKey())
      modifies this
      ensures Valid() && old(steps) <= steps && At(state, r) && state.executed == old(state).executed
      ensures state.runners[r].component == old(state).runners[r].component && state.runners[r].recorded == old(state).runners[r].recorded
      ensures state.ledger == old(state).ledger
      ensures forall q :: q != r && At(state, q) ==> At(old(state), q) && state.runners[q] == old(state).runners[q]
      ensures tried == if blocked then TryAgain else Over
      ensures state.runners[r].phase == if blocked then Before(old(state).runners[r].phase.index) else Returned(Err(Failure))
    {
      hide Inv, IsRun;
      if blocked {
        Do(Block(r, false));
        return TryAgain;
      }
      Do(Fail(r));
      tried := Over;
    }

    /** The component's key, and the ledger read again under it: recorded meanwhile, under this
        text or another, or not. */
    method LockAndCheck(r: nat, others: seq<Step>)
      requires Valid() && At(state, r) && state.runners[r].phase.Before? && Knows(state.runners[r]) && KeyIsFree(state)
      requires !HasId(state.runners[r].recorded, Migrations.Next(state, r).id)
      modifies this
      ensures Valid() && old(steps) <= steps && At(state, r) && old(state.executed) <= state.executed
      ensures state.runners[r].component == old(state).runners[r].component && state.runners[r].recorded == old(state).runners[r].recorded
      ensures var phase, index := state.runners[r].phase, old(state).runners[r].phase.index;
              phase == Checked(index) || phase == Before(index + 1) || phase == Returned(Err(Changed(Migrations.Next(old(state), r).id)))
      ensures others == [] && !HasId(old(state).Rows(), Migrations.Next(old(state), r).id) ==>
                state == WithPhase(old(state), r, Checked(old(state).runners[r].phase.index))
    {
      hide Inv, IsRun, HasId, State.Rows, Enabled, KeyIsFree;
      OwnStep(state, r);
      Do(Lock(r));
      Rephased(old(state), r, Locked(old(state).runners[r].phase.index), Checked(old(state).runners[r].phase.index));
      ghost var locked := state;
      Others(others, r);
      OwnStep(state, r);
      CheckStep(state, r);
      Do(Check(r));
      if others == [] && !HasId(old(state).Rows(), Migrations.Next(old(state), r).id) {
        SameLedger(old(state), locked);
      }
    }

    method RunTheText(r: nat, others: nat -> seq<Step>)
      requires Valid() && At(state, r) && state.runners[r].phase.Checked? && Knows(state.runners[r])
      modifies this
      ensures Valid() && old(steps) <= steps && At(state, r) && old(state.executed) <= state.executed
      ensures state.runners[r] == old(state).runners[r].(phase := Ran(old(state).runners[r].phase.index))
      ensures Quiet(others) ==> state == WithPhase(old(state), r, Ran(old(state).runners[r].phase.index))
    {
      hide Inv, IsRun, HasId, State.Rows, Apply, Enabled;
      Others(others(0), r);
      OwnStep(state, r);
      Do(RunText(r));
      Others(others(1), r);
    }

    /** The step's row added, and all of it committed. */
    method Record(r: nat, others: seq<Step>)
      requires Valid() && At(state, r) && state.runners[r].phase.Ran? && Knows(state.runners[r])
      modifies this
      ensures Valid() && old(steps) <= steps && At(state, r) && old(state.executed) <= state.executed
      ensures state.runners[r] == old(state).runners[r].(phase := Before(old(state).runners[r].phase.index + 1))
      ensures Migrations.Next(old(state), r).id in state.executed
      ensures others == [] ==> state == AfterCommit(old(state), r)
    {
      hide Inv, IsRun, HasId, State.Rows, Apply, Enabled, AfterCommit;
      OwnStep(state, r);
      Do(Insert(r));
      Rephased(old(state), r, Inserted(old(state).runners[r].phase.index), Before(0));
      ghost var inserted := state;
      Others(others, r);
      OwnStep(state, r);
      CommitIs(state, r);
      Do(Commit(r));
    }

    /** Under the key, not recorded: the text is run, judged by what it locked, and recorded. */
    method RunLocked(r: nat, fate: Fate, others: nat -> seq<Step>) returns (tried: Try, applied: bool)
      requires Valid() && At(state, r) && state.runners[r].phase.Checked? && Knows(state.runners[r])
      modifies this
      ensures Valid() && old(steps) <= steps && At(state, r)
      ensures state.runners[r].component == old(state).runners[r].component && state.runners[r].recorded == old(state).runners[r].recorded
      ensures old(state.executed) <= state.executed
      ensures tried.Done? ==> applied && state.runners[r].phase == Before(old(state).runners[r].phase.index + 1)
      ensures tried.TryAgain? ==> fate.IsBlocked? && state.runners[r].phase == Before(old(state).runners[r].phase.index)
      ensures tried.Over? ==>
                state.runners[r].phase == Returned(Err(if fate.Fails? then Failure else TwoTables(Migrations.Next(old(state), r).id)))
      ensures applied ==> tried.Done? && Migrations.Next(old(state), r).id in state.executed
      ensures Quiet(others) && fate.Passes? ==> tried.Done? && applied && state == AfterCommit(old(state), r)
    {
      hide Inv, IsRun, HasId, State.Rows;
      applied := false;
      if fate.StrikesAt(AtText) {
        tried := Strike(r, fate.IsBlocked?);
        return;
      }
      RunTheText(r, others);
      if fate.LocksOthers? && state.runners[r].phase.index > 0 {
        Do(FindOthers(r));
        return Over, false;
      }
      if fate.StrikesAt(AtRow) {
        tried := Strike(r, fate.IsBlocked?);
        return;
      }
      Record(r, others(2));
      if Quiet(others) {
        Rephased(old(state), r, Ran(old(state).runners[r].phase.index), Before(0));
      }
      tried, applied := Done, true;
    }

    /** A step tried until it is not blocked, or `budget` tries are spent. */
    method Retried(r: nat, budget: nat, fates: nat -> Fate, others: (nat, nat) -> seq<Step>) returns (tried: Try, applied: bool)
      requires Valid() && At(state, r) && state.runners[r].phase.Before? && Knows(state.runners[r])
      requires !HasId(state.runners[r].recorded, Migrations.Next(state, r).id)
      modifies this
      ensures Valid() && old(steps) <= steps && At(state, r) && !tried.TryAgain?
      ensures state.runners[r].component == old(state).runners[r].component && state.runners[r].recorded == old(state).runners[r].recorded
      ensures old(state.executed) <= state.executed
      ensures tried.Done? ==> state.runners[r].phase == Before(old(state).runners[r].phase.index + 1)
      ensures tried.Over? ==> state.runners[r].phase.Returned? && state.runners[r].phase.outcome.Err?
      ensures applied ==> tried.Done? && Migrations.Next(old(state), r).id in state.executed
      ensures (forall n, m :: others(n, m) == []) && (forall n :: fates(n).Passes?) && KeyIsFree(old(state))
              && !HasId(old(state).Rows(), Migrations.Next(old(state), r).id) ==>
                tried.Done? && applied && state == AfterCommit(old(state), r)
    {
      hide Inv, IsRun, Apply, HasId, State.Rows;
      var spent := 0;
      ghost var well := (forall n, m :: others(n, m) == []) && (forall n :: fates(n).Passes?) && KeyIsFree(state)
                        && !HasId(state.Rows(), Migrations.Next(state, r).id);
      while true
        invariant Valid() && old(steps) <= steps && At(state, r) && state.runners[r] == old(state).runners[r]
        invariant old(state.executed) <= state.executed && (spent == 0 ==> state == old(state))
        invariant well ==> spent == 0
        decreases budget - spent
      {
        var index := spent;
        tried, applied := TryStep(r, fates(spent), (n: nat) => others(index, n));
        if !tried.TryAgain? {
          return;
        }
        if spent >= budget {
          GiveUpStep(state, r);
          Do(Block(r, true));
          return Over, false;
        }
        spent := spent + 1;
      }
    }

    /** The ledger read; unless it settles the run, made where there is none. */
    method Begin(r: nat, component: seq<Migration>, others: nat -> seq<Step>)
      requires Valid() && r !in state.runners && ValidComponent(component)
      modifies this
      ensures Valid() && old(steps) <= steps && At(state, r) && state.runners[r].component == component
      ensures state.runners[r].phase == Before(0) || state.runners[r].phase.Returned?
      ensures Quiet(others) ==> HasBegun(old(state), state, r, component)
    {
      hide IsRun, Inv, FirstChanged;
      Do(Arrive(r, component));
      Others(others(0), r);
      Do(Migrations.Read(r));
      if !state.runners[r].phase.Returned? {
        Others(others(1), r);
        Do(MakeLedger(r));
      }
    }

    /** The component brought up to its migrations: nothing when the ledger has them all, each
        pending one in turn otherwise. `applied` are those this runner applied. */
    method Migrate(r: nat, component: seq<Migration>, budget: nat, fates: (nat, nat) -> Fate, others: (nat, nat, nat) -> seq<Step>)
      returns (outcome: Result<(), Stop>, applied: seq<string>)
      requires Valid() && r !in state.runners && ValidComponent(component)
      modifies this
      ensures Valid() && old(steps) <= steps && r in state.runners
      ensures state.runners[r].component == component && state.runners[r].phase == Returned(outcome)
      ensures outcome.Ok? ==> forall m :: m in component ==> m in state.Rows()
      ensures forall id :: id in applied ==> id in state.executed
      ensures GoesWell(fates, others) && KeyIsFree(old(state)) ==>
                && (outcome.Ok? <==> FirstChanged(old(state).Rows(), component).None?)
                && (outcome.Ok? ==> applied == Ids(Pending(old(state).Rows(), component))
                                    && state.Rows() == old(state).Rows() + Pending(old(state).Rows(), component))
    {
      hide IsRun, Inv, FirstChanged, HasId, Pending, State.Rows, AllRecorded, WellSoFar, Apply, Enabled, AfterCommit;
      applied := [];
      ghost var rows, well := state.Rows(), GoesWell(fates, others) && KeyIsFree(state);
      Begin(r, component, (n: nat) => others(0, 0, n));
      if state.runners[r].phase.Returned? {
        outcome := state.runners[r].phase.outcome;
        SuccessMeans(state, first, r);
        NonePending(rows, component);
        return;
      }
      if well {
        BeginsWell(state, rows, r, component);
      }
      for index := 0 to |component|
        invariant Valid() && old(steps) <= steps && At(state, r) && state.runners[r].component == component
        invariant state.runners[r].phase == Before(index)
        invariant forall id :: id in applied ==> id in state.executed
        invariant well ==> WellSoFar(state, rows, r, component, index, applied) && FirstChanged(rows, component).None?
      {
        ghost var before := state;
        SkipStep(state, r);
        if well {
          NextWell(state, rows, r, component, index, applied);
        }
        if HasId(state.runners[r].recorded, component[index].id) {
          Do(Skip(r));
        } else {
          var tried, mine := Retried(r, budget, (n: nat) => fates(index, n), (n: nat, m: nat) => others(1 + index, n, m));
          if tried.Over? {
            outcome := state.runners[r].phase.outcome;
            return;
          }
          if mine {
            applied := applied + [component[index].id];
          }
        }
      }
      assert component[..|component|] == component;
      FinishStep(state, r);
      if well {
        EndsWell(state, rows, r, component, applied);
      }
      Do(Finish(r));
      outcome := Ok(());
      SuccessMeans(state, first, r);
    }
  }

  lemma SkipStep(s: State, r: nat)
    requires At(s, r) && s.runners[r].phase.Before? && Knows(s.runners[r])
    ensures HasId(s.runners[r].recorded, Migrations.Next(s, r).id) ==>
              Enabled(s, Skip(r)) && Apply(s, Skip(r)) == WithPhase(s, r, Before(s.runners[r].phase.index + 1))
  {
  }

  lemma FinishStep(s: State, r: nat)
    requires At(s, r) && s.runners[r].phase == Before(|s.runners[r].component|)
    ensures Enabled(s, Finish(r)) && Apply(s, Finish(r)) == WithPhase(s, r, Returned(Ok(())))
    ensures Apply(s, Finish(r)).Rows() == s.Rows()
  {
  }

  lemma BeginsWell(s: State, rows: seq<Migration>, r: nat, component: seq<Migration>)
    requires At(s, r) && KeyIsFree(s) && s.runners[r].recorded == rows && s.Rows() == rows
    ensures WellSoFar(s, rows, r, component, 0, [])
  {
    assert rows + [] == rows && Ids([]) == [];
  }

  /** The next step: skipped if it was recorded, run and committed if it was not. */
  lemma NextWell(s: State, rows: seq<Migration>, r: nat, component: seq<Migration>, index: nat, applied: seq<string>)
    requires index < |component| && WellSoFar(s, rows, r, component, index, applied) && ValidComponent(component)
    requires s.runners[r].component == component && s.runners[r].phase == Before(index)
    ensures KeyIsFree(s) && s.runners[r].recorded == rows
    ensures if HasId(rows, component[index].id) then WellSoFar(WithPhase(s, r, Before(index + 1)), rows, r, component, index + 1, applied)
            else !HasId(s.Rows(), component[index].id)
                 && WellSoFar(AfterCommit(s, r), rows, r, component, index + 1, applied + [component[index].id])
  {
    hide HasId, Pending;
    OneMorePending(rows, component, index);
    var pending := Pending(rows, component[..index]);
    if HasId(rows, component[index].id) {
      assert WithPhase(s, r, Before(index + 1)).Rows() == s.Rows();
    } else {
      NextIsPending(rows, component, index);
      CommitIs(s, r);
      assert Ids(pending + [component[index]]) == Ids(pending) + [component[index].id];
    }
  }

  lemma EndsWell(s: State, rows: seq<Migration>, r: nat, component: seq<Migration>, applied: seq<string>)
    requires WellSoFar(s, rows, r, component, |component|, applied)
    ensures applied == Ids(Pending(rows, component)) && s.Rows() == rows + Pending(rows, component)
  {
    assert component[..|component|] == component;
  }

  /** Nobody else does anything, and no step is blocked, fails or locks another table. */
  ghost predicate GoesWell(fates: (nat, nat) -> Fate, others: (nat, nat, nat) -> seq<Step>) {
    (forall i, n :: fates(i, n).Passes?) && (forall i, n, m :: others(i, n, m) == [])
  }

  /** The ledger read, by a runner alone: it is refused, or there is nothing to do, or it is before
      its first step. */
  ghost predicate HasBegun(before: State, after: State, r: nat, component: seq<Migration>) {
    && At(after, r) && after.Rows() == before.Rows() && (KeyIsFree(before) ==> KeyIsFree(after))
    && var runner := after.runners[r];
       if FirstChanged(before.Rows(), component).Some? then runner.phase.Returned? && runner.phase.outcome.Err?
       else if AllRecorded(before.Rows(), component) then runner.phase == Returned(Ok(()))
       else runner.phase == Before(0) && runner.recorded == before.Rows()
  }

  /** The pending steps before `index` were run, and nothing else. */
  ghost predicate WellSoFar(s: State, rows: seq<Migration>, r: nat, component: seq<Migration>, index: nat, applied: seq<string>)
    requires index <= |component|
  {
    var pending := Pending(rows, component[..index]);
    At(s, r) && KeyIsFree(s) && s.runners[r].recorded == rows && s.Rows() == rows + pending && applied == Ids(pending)
  }

  lemma {:induction false} NonePending(rows: seq<Migration>, c: seq<Migration>)
    ensures AllRecorded(rows, c) ==> Pending(rows, c) == []
    ensures Pending(rows, []) == []
    decreases |c|
  {
    hide HasId;
    if c != [] {
      var init := c[..|c| - 1];
      NonePending(rows, init);
      assert AllRecorded(rows, c) ==> AllRecorded(rows, init) && HasId(rows, c[|c| - 1].id);
    }
  }

  lemma SuccessMeans(s: State, first: seq<Migration>, r: nat)
    requires Inv(s, first) && r in s.runners
    ensures s.runners[r].phase.Returned? && s.runners[r].phase.outcome.Ok? ==>
              forall m :: m in s.runners[r].component ==> m in s.Rows()
  {
    assert RunnerInv(s, s.runners[r]);
    if s.runners[r].phase.Returned? && s.runners[r].phase.outcome.Ok? {
      assert s.runners[r].phase.outcome.value == ();
    }
  }

  lemma GiveUpStep(s: State, r: nat)
    requires At(s, r) && s.runners[r].phase.Before?
    ensures Enabled(s, Block(r, true))
    ensures Apply(s, Block(r, true)) == WithPhase(s, r, Returned(Err(Blocked)))
  {
  }
}
