/** The inbox's work is bounded: with a limit on attempts, and nobody unparking, each row takes
    at most its attempts and its distinct dependencies. */
module InboxWork {
  import opened Options
  import opened InboxProtocol
  import opened InboxInvariant
  import opened InboxSteps
  import opened InboxTheorems

  function Distinct(dependencies: seq<Identity>): set<Identity> {
    set dependency | dependency in dependencies
  }

  /** A row's outcomes are its failed attempts, its waits, each for a dependency of its own,
      and its mark. */
  ghost predicate WorkInv(s: State, id: Identity)
    requires id in s.rows
  {
    var row := s.rows[id];
    && row.outcomes == row.attempts + |row.waited| + (if row.processed.Some? && id !in s.byHand then 1 else 0)
    && row.waited <= Distinct(row.dependencies)
    && (forall w :: w in row.waited ==> row.waiting == Some(w) || s.IsProcessed(w) || row.parked || row.processed.Some?)
    && (s.maxAttempts > 0 ==>
          && row.attempts <= s.maxAttempts
          && (!row.parked && (row.processed.Some? ==> id !in s.byHand) ==> row.attempts < s.maxAttempts))
  }

  ghost predicate AllWork(s: State) {
    forall id :: id in s.rows ==> WorkInv(s, id)
  }

  lemma WorkOfOthers(s: State, later: State, id: Identity)
    requires id in s.rows && WorkInv(s, id) && id in later.rows && MarksStay(s, later)
    requires later.rows[id] == s.rows[id] && later.maxAttempts == s.maxAttempts && (id in later.byHand <==> id in s.byHand)
    ensures WorkInv(later, id)
  {
  }

  lemma WaitWorks(s: State, d: nat, id: Identity)
    requires Inv(s) && AllWork(s) && Enabled(s, Commit(d)) && s.txs[d].phase.SetAside? && id in s.rows
    ensures WorkInv(Apply(s, Commit(d)), id)
  {
    if id == s.txs[d].phase.id {
      WaitOfItsRow(s, d);
    } else {
      hide Inv, WorkInv, Enabled, Apply;
      WaitLeavesOthers(s, d, id);
      WorkOfOthers(s, Apply(s, Commit(d)), id);
    }
  }

  lemma WaitLeavesOthers(s: State, d: nat, id: Identity)
    requires Inv(s) && Enabled(s, Commit(d)) && s.txs[d].phase.SetAside? && id in s.rows && id != s.txs[d].phase.id
    ensures var later := Apply(s, Commit(d));
            && MarksStay(s, later) && id in later.rows && later.rows[id] == s.rows[id]
            && later.maxAttempts == s.maxAttempts && later.byHand == s.byHand
  {
    hide Apart, RowInv, EffectsInv, AllWork;
    assert TxInv(s, s.txs[d]);
  }

  lemma WaitOfItsRow(s: State, d: nat)
    requires Inv(s) && AllWork(s) && Enabled(s, Commit(d)) && s.txs[d].phase.SetAside? && s.txs[d].phase.id in s.rows
    ensures WorkInv(Apply(s, Commit(d)), s.txs[d].phase.id)
  {
    hide Apart, RowInv, EffectsInv, MarksStay;
    assert TxInv(s, s.txs[d]) && WorkInv(s, s.txs[d].phase.id);
    var later := Apply(s, Commit(d));
    assert forall other :: later.IsProcessed(other) == s.IsProcessed(other);
  }

  lemma FailureWorks(s: State, d: nat, id: Identity)
    requires Inv(s) && AllWork(s) && Enabled(s, Commit(d)) && s.txs[d].phase.Recorded? && id in s.rows
    ensures WorkInv(Apply(s, Commit(d)), id)
  {
    hide Apart, RowInv, EffectsInv;
    assert TxInv(s, s.txs[d]) && WorkInv(s, id);
    var later := Apply(s, Commit(d));
    assert forall other :: later.IsProcessed(other) == s.IsProcessed(other);
    if id != s.txs[d].phase.id {
      WorkOfOthers(s, later, id);
    }
  }

  lemma MarkWorks(s: State, d: nat, marked: Identity, at: nat, woken: set<Identity>, id: Identity)
    requires Inv(s) && AllWork(s) && Enabled(s, Commit(d)) && Marks(s.txs[d].phase, marked, at, woken) && id in s.rows
    ensures id in Apply(s, Commit(d)).rows && WorkInv(Apply(s, Commit(d)), id)
  {
    hide Apart, EffectsInv;
    var later := Apply(s, Commit(d));
    assert TxInv(s, s.txs[d]) && WorkInv(s, id) && RowInv(s, id);
    MarkedRowsAre(s, d, marked, at, woken, id);
    forall w | w in s.rows[id].waited
      ensures later.rows[id].waiting == Some(w) || later.IsProcessed(w) || later.rows[id].parked || later.rows[id].processed.Some?
    {
      MarkedRowsAre(s, d, marked, at, woken, w);
    }
  }

  lemma ExpireWorks(s: State, ids: set<Identity>, id: Identity)
    requires Inv(s) && AllWork(s) && Enabled(s, Expire(ids)) && id in s.rows
    ensures WorkInv(Apply(s, Expire(ids)), id)
  {
    hide Apart, EffectsInv;
    assert WorkInv(s, id);
    var later := Apply(s, Expire(ids));
    forall other | other in s.rows
      ensures later.IsProcessed(other) == s.IsProcessed(other)
    {
      assert RowInv(s, other);
    }
  }

  lemma StepWorks(s: State, step: Step)
    requires Inv(s) && AllWork(s) && Enabled(s, step) && !step.Unpark?
    ensures AllWork(Apply(s, step))
  {
    hide Inv, WorkInv, IsHead, IsReady, RowIsFree, SlotIsFree, IdentityIsFree;
    var later := Apply(s, step);
    forall id | id in later.rows
      ensures WorkInv(later, id)
    {
      if step.Commit? {
        CommitWorks(s, step.d, id);
      } else if step.Expire? {
        ExpireWorks(s, step.ids, id);
      } else if step.Receive? && step.id == id {
        NewRowWorks(s, later, id);
      } else {
        assert WorkInv(s, id);
        WorkOfOthers(s, later, id);
      }
    }
  }

  lemma NewRowWorks(s: State, later: State, id: Identity)
    requires Inv(s) && id !in s.rows && id in later.rows && later.byHand == s.byHand
    requires exists slot, received, dependencies ::
               later.rows[id] == Row(slot, received, dependencies, None, None, 0, false, {}, 0)
    ensures WorkInv(later, id)
  {
    assert EffectsInv(s, id);
  }

  lemma CommitWorks(s: State, d: nat, id: Identity)
    requires Inv(s) && AllWork(s) && Enabled(s, Commit(d)) && id in Apply(s, Commit(d)).rows
    ensures WorkInv(Apply(s, Commit(d)), id)
  {
    hide Inv, WorkInv;
    match s.txs[d].phase
    case SetAside(_, _, _) => WaitWorks(s, d, id);
    case Recorded(_, _, _, _) => FailureWorks(s, d, id);
    case Marked(_, marked, at, woken) =>
      MarkedRowsAre(s, d, marked, at, woken, id);
      MarkWorks(s, d, marked, at, woken, id);
    case Resolved(marked, at, woken) =>
      MarkedRowsAre(s, d, marked, at, woken, id);
      MarkWorks(s, d, marked, at, woken, id);
  }

  lemma {:induction false} RunWorks(run: seq<State>, steps: seq<Step>, n: nat)
    requires IsRun(run, steps) && n < |run| && forall i :: 0 <= i < |steps| ==> !steps[i].Unpark?
    ensures AllWork(run[n]) && run[n].maxAttempts == run[0].maxAttempts
  {
    hide Inv, WorkInv;
    if n > 0 {
      RunWorks(run, steps, n - 1);
      RunKeeps(run, steps, n - 1);
      assert Goes(run[n - 1], steps[n - 1], run[n]);
      StepWorks(run[n - 1], steps[n - 1]);
    }
  }

  /** The step commits a wait of row `id` for `dependency`. */
  predicate CommitsWait(s: State, step: Step, id: Identity, dependency: Identity) {
    && step.Commit? && step.d in s.txs && s.txs[step.d].phase.SetAside?
    && s.txs[step.d].phase.id == id && s.txs[step.d].phase.dependency == dependency
  }

  /** A wait that is committed is for a dependency the row was not set aside for before. */
  lemma WaitIsNew(s: State, step: Step, id: Identity, dependency: Identity)
    requires Inv(s) && AllWork(s) && Enabled(s, step) && CommitsWait(s, step, id, dependency)
    ensures id in s.rows && dependency !in s.rows[id].waited
    ensures id in Apply(s, step).rows && dependency in Apply(s, step).rows[id].waited
  {
    hide Apart, RowInv, EffectsInv;
    assert TxInv(s, s.txs[step.d]) && WorkInv(s, id);
  }

  lemma WaitedStays(s: State, step: Step, id: Identity)
    requires Enabled(s, step) && id in s.rows
    ensures id in Apply(s, step).rows && s.rows[id].waited <= Apply(s, step).rows[id].waited
  {
    hide IsHead, IsReady, RowIsFree, SlotIsFree, IdentityIsFree;
  }

  lemma {:induction false} WaitedGrows(run: seq<State>, steps: seq<Step>, id: Identity, i: nat, j: nat)
    requires IsRun(run, steps) && i <= j < |run| && id in run[i].rows
    ensures id in run[j].rows && run[i].rows[id].waited <= run[j].rows[id].waited
    decreases j
  {
    hide Enabled, Apply;
    if i < j {
      WaitedGrows(run, steps, id, i, j - 1);
      assert Goes(run[j - 1], steps[j - 1], run[j]);
      WaitedStays(run[j - 1], steps[j - 1], id);
    }
  }

  /** A row waits for one dependency at most once: of any two waits of it that a run commits,
      the dependencies differ. */
  lemma WaitsOnceForEach(run: seq<State>, steps: seq<Step>, id: Identity, i: nat, j: nat, first: Identity, second: Identity)
    requires IsRun(run, steps) && (forall k :: 0 <= k < |steps| ==> !steps[k].Unpark?)
    requires i < j < |steps| && CommitsWait(run[i], steps[i], id, first) && CommitsWait(run[j], steps[j], id, second)
    ensures first != second
  {
    hide Inv, AllWork, Enabled, Apply, CommitsWait;
    RunWorks(run, steps, i);
    RunKeeps(run, steps, i);
    RunWorks(run, steps, j);
    RunKeeps(run, steps, j);
    assert Goes(run[i], steps[i], run[i + 1]) && Goes(run[j], steps[j], run[j + 1]);
    WaitIsNew(run[i], steps[i], id, first);
    WaitedGrows(run, steps, id, i + 1, j);
    WaitIsNew(run[j], steps[j], id, second);
  }

  /** A row is attempted at most `max_attempts` times, and takes at most its attempts and its
      distinct dependencies, in all. */
  lemma RowWorkIsBounded(run: seq<State>, steps: seq<Step>, id: Identity)
    requires IsRun(run, steps) && (forall i :: 0 <= i < |steps| ==> !steps[i].Unpark?)
    requires id in Last(run).rows && Last(run).maxAttempts > 0
    ensures var row := Last(run).rows[id];
            row.attempts <= Last(run).maxAttempts && row.outcomes <= Last(run).maxAttempts + |Distinct(row.dependencies)|
  {
    RunWorks(run, steps, |steps|);
    RunKeeps(run, steps, |steps|);
    var row := Last(run).rows[id];
    assert WorkInv(Last(run), id) && RowInv(Last(run), id);
    SubsetIsSmaller(row.waited, Distinct(row.dependencies));
  }

  lemma SubsetIsSmaller(a: set<Identity>, b: set<Identity>)
    requires a <= b
    ensures |a| <= |b|
  {
    assert b == a + (b - a);
  }

  /** A committed outcome other than nothing: a head set aside, marked, or failed. */
  predicate IsOutcome(s: State, step: Step) {
    step.Commit? && step.d in s.txs && !s.txs[step.d].phase.Resolved?
  }

  /** How many dispatches of the run committed an outcome other than nothing. */
  ghost function Outcomes(run: seq<State>, steps: seq<Step>, n: nat): nat
    requires n <= |steps| && |run| == |steps| + 1
  {
    if n == 0 then 0 else Outcomes(run, steps, n - 1) + if IsOutcome(run[n - 1], steps[n - 1]) then 1 else 0
  }

  ghost function Total(rows: map<Identity, Row>): nat {
    if rows == map[] then 0 else
      var id :| id in rows;
      rows[id].outcomes + Total(rows - {id})
  }

  lemma {:induction false} TotalWithout(rows: map<Identity, Row>, id: Identity)
    requires id in rows
    ensures Total(rows) == rows[id].outcomes + Total(rows - {id})
    decreases |rows|
  {
    var first :| first in rows && Total(rows) == rows[first].outcomes + Total(rows - {first});
    if first != id {
      TotalWithout(rows - {first}, id);
      assert rows - {first} - {id} == rows - {id} - {first};
      TotalWithout(rows - {id}, first);
    }
  }

  lemma {:induction false} TotalSame(rows: map<Identity, Row>, later: map<Identity, Row>)
    requires later.Keys == rows.Keys && forall id :: id in rows ==> later[id].outcomes == rows[id].outcomes
    ensures Total(later) == Total(rows)
    decreases |rows|
  {
    if rows != map[] {
      var id :| id in rows;
      TotalWithout(rows, id);
      TotalWithout(later, id);
      TotalSame(rows - {id}, later - {id});
    }
  }

  lemma TotalOneMore(rows: map<Identity, Row>, later: map<Identity, Row>, one: Identity)
    requires later.Keys == rows.Keys && one in rows && later[one].outcomes == rows[one].outcomes + 1
    requires forall id :: id in rows && id != one ==> later[id].outcomes == rows[id].outcomes
    ensures Total(later) == Total(rows) + 1
  {
    TotalWithout(rows, one);
    TotalWithout(later, one);
    TotalSame(rows - {one}, later - {one});
  }

  lemma StepTotals(s: State, step: Step)
    requires Inv(s) && Enabled(s, step)
    ensures Total(Apply(s, step).rows) == Total(s.rows) + if IsOutcome(s, step) then 1 else 0
  {
    hide Inv, Total, IsHead, IsReady, RowIsFree, SlotIsFree, IdentityIsFree;
    var later := Apply(s, step);
    match step
    case Receive(id, _, _, _) =>
      TotalWithout(later.rows, id);
      assert later.rows - {id} == s.rows;
    case Commit(d) => CommitTotals(s, d);
    case _ => TotalSame(s.rows, later.rows);
  }

  lemma CommitTotals(s: State, d: nat)
    requires Inv(s) && Enabled(s, Commit(d))
    ensures Total(Apply(s, Commit(d)).rows) == Total(s.rows) + if IsOutcome(s, Commit(d)) then 1 else 0
  {
    hide Total, RowInv, EffectsInv, Apart;
    var later := Apply(s, Commit(d));
    assert TxInv(s, s.txs[d]);
    if s.txs[d].phase.Resolved? {
      TotalSame(s.rows, later.rows);
    } else {
      TotalOneMore(s.rows, later.rows, s.txs[d].phase.id);
    }
  }

  lemma {:induction false} OutcomesAreTheTotal(run: seq<State>, steps: seq<Step>, n: nat)
    requires IsRun(run, steps) && n <= |steps|
    ensures Outcomes(run, steps, n) == Total(run[n].rows)
  {
    hide Inv, Total, Enabled, Apply;
    if n > 0 {
      OutcomesAreTheTotal(run, steps, n - 1);
      RunKeeps(run, steps, n - 1);
      assert Goes(run[n - 1], steps[n - 1], run[n]);
      StepTotals(run[n - 1], steps[n - 1]);
    } else {
      NoRowsNoTotal(run[0].rows);
    }
  }

  lemma NoRowsNoTotal(rows: map<Identity, Row>)
    requires rows == map[]
    ensures Total(rows) == 0
  {
  }

  /** What the rows allow in all. */
  ghost function Allowance(rows: map<Identity, Row>, maxAttempts: nat): nat {
    if rows == map[] then 0 else
      var id :| id in rows;
      maxAttempts + |Distinct(rows[id].dependencies)| + Allowance(rows - {id}, maxAttempts)
  }

  lemma {:induction false} TotalIsAllowed(rows: map<Identity, Row>, maxAttempts: nat)
    requires forall id :: id in rows ==> rows[id].outcomes <= maxAttempts + |Distinct(rows[id].dependencies)|
    ensures Total(rows) <= Allowance(rows, maxAttempts)
    decreases |rows|
  {
    if rows != map[] {
      var id :| id in rows && Allowance(rows, maxAttempts)
                == maxAttempts + |Distinct(rows[id].dependencies)| + Allowance(rows - {id}, maxAttempts);
      TotalWithout(rows, id);
      TotalIsAllowed(rows - {id}, maxAttempts);
    }
  }

  /** Over the rows received, the committed outcomes number at most the sum of their limits on
      attempts and their distinct dependencies. */
  lemma WorkIsBounded(run: seq<State>, steps: seq<Step>)
    requires IsRun(run, steps) && (forall i :: 0 <= i < |steps| ==> !steps[i].Unpark?) && Last(run).maxAttempts > 0
    ensures Outcomes(run, steps, |steps|) <= Allowance(Last(run).rows, Last(run).maxAttempts)
  {
    hide Goes, Initial, Total, Allowance;
    OutcomesAreTheTotal(run, steps, |steps|);
    forall id | id in Last(run).rows
      ensures Last(run).rows[id].outcomes <= Last(run).maxAttempts + |Distinct(Last(run).rows[id].dependencies)|
    {
      RowWorkIsBounded(run, steps, id);
    }
    TotalIsAllowed(Last(run).rows, Last(run).maxAttempts);
  }
}
