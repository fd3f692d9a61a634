/** What holds in every run of the inbox, crashes, retries, unparkings and resolves included. */
module InboxTheorems {
  import opened Options
  import opened InboxProtocol
  import opened InboxInvariant
  import opened InboxSteps

  ghost predicate Goes(s: State, step: Step, later: State) {
    Enabled(s, step) && later == Apply(s, step)
  }

  /** Steps taken one after another from an empty inbox. */
  ghost predicate IsRun(run: seq<State>, steps: seq<Step>) {
    |run| == |steps| + 1 && Initial(run[0])
    && forall i :: 0 <= i < |steps| ==> Goes(run[i], steps[i], run[i + 1])
  }

  function Last(run: seq<State>): State
    requires run != []
  {
    run[|run| - 1]
  }

  lemma {:induction false} RunKeeps(run: seq<State>, steps: seq<Step>, n: nat)
    requires IsRun(run, steps) && n < |run|
    ensures Inv(run[n])
  {
    hide Inv;
    if n == 0 {
      InitialHolds(run[0]);
    } else {
      RunKeeps(run, steps, n - 1);
      assert Goes(run[n - 1], steps[n - 1], run[n]);
      StepKeeps(run[n - 1], steps[n - 1]);
    }
  }

  /** A committed wait is for a row without a committed mark: whoever waits will be woken. */
  lemma NoLostWakeUp(run: seq<State>, steps: seq<Step>, id: Identity, dependency: Identity)
    requires IsRun(run, steps) && id in Last(run).rows && Last(run).rows[id].waiting == Some(dependency)
    ensures !Last(run).IsProcessed(dependency) && dependency in Last(run).rows[id].dependencies
  {
    RunKeeps(run, steps, |steps|);
    assert RowInv(Last(run), id);
  }

  /** A row leaves the wait when its dependency's mark commits, by a dispatcher or an operator,
      for the queue it came from. */
  lemma MarkWakes(run: seq<State>, steps: seq<Step>, i: nat, id: Identity, dependency: Identity)
    requires IsRun(run, steps) && i < |steps| && id in run[i].rows && run[i].rows[id].waiting == Some(dependency)
    requires run[i + 1].IsProcessed(dependency)
    ensures id in run[i + 1].rows && run[i + 1].rows[id].InQueue()
  {
    hide EffectsInv, Apart, Enabled, Apply;
    RunKeeps(run, steps, i);
    RunKeeps(run, steps, i + 1);
    assert Goes(run[i], steps[i], run[i + 1]);
    assert RowInv(run[i], id);
    NewMarkIsCommitted(run[i], steps[i], dependency);
    var d := steps[i].d;
    assert TxInv(run[i], run[i].txs[d]);
    var phase := run[i].txs[d].phase;
    MarkedRowsAre(run[i], d, dependency, phase.at, phase.woken, id);
    MarkedRowsAre(run[i], d, dependency, phase.at, phase.woken, dependency);
    NotItself(run[i], d, dependency, phase.at, phase.woken, id);
  }

  /** Nothing waits for itself when it is marked. */
  lemma NotItself(s: State, d: nat, id: Identity, at: nat, woken: set<Identity>, other: Identity)
    requires Inv(s) && d in s.txs && Marks(s.txs[d].phase, id, at, woken)
    requires other in s.rows && s.rows[other].waiting == Some(id)
    ensures other != id
  {
    MarkedRowsAre(s, d, id, at, woken, id);
  }

  /** A row becomes processed by a commit of its mark only. */
  lemma NewMarkIsCommitted(s: State, step: Step, id: Identity)
    requires Inv(s) && Enabled(s, step) && !s.IsProcessed(id) && Apply(s, step).IsProcessed(id)
    ensures step.Commit? && step.d in s.txs
    ensures var phase := s.txs[step.d].phase;
            && (phase.Marked? || phase.Resolved?)
            && Marks(phase, id, phase.at, phase.woken)
  {
    hide Apart, RowInv, EffectsInv;
    if step.Commit? {
      assert TxInv(s, s.txs[step.d]);
    }
  }

  /** The subscriber's effects on a message are durable at most once, and are exactly when a
      dispatcher's mark of it is. */
  lemma EffectsOnce(run: seq<State>, steps: seq<Step>, id: Identity)
    requires IsRun(run, steps)
    ensures Last(run).Effects(id) <= 1
    ensures Last(run).Effects(id) == 1 <==> Last(run).IsProcessed(id) && id !in Last(run).byHand
  {
    hide RowInv, TxInv, Apart;
    RunKeeps(run, steps, |steps|);
    assert EffectsInv(Last(run), id);
  }

  /** Effects and mark become durable in one commit: neither is ever without the other. */
  lemma EffectsWithTheMark(run: seq<State>, steps: seq<Step>, i: nat, id: Identity)
    requires IsRun(run, steps) && i < |steps| && run[i].Effects(id) != run[i + 1].Effects(id)
    ensures !run[i].IsProcessed(id) && run[i + 1].IsProcessed(id) && run[i + 1].Effects(id) == 1
  {
    hide RowInv, TxInv, Apart, Goes, Initial;
    RunKeeps(run, steps, i);
    RunKeeps(run, steps, i + 1);
    assert EffectsInv(run[i], id) && EffectsInv(run[i + 1], id);
    if run[i].IsProcessed(id) {
      NoMarkIsUndone(run, steps, i, id);
    }
  }

  lemma NoMarkIsUndone(run: seq<State>, steps: seq<Step>, i: nat, id: Identity)
    requires IsRun(run, steps) && i < |steps| && run[i].IsProcessed(id)
    ensures run[i + 1].IsProcessed(id) && run[i + 1].rows[id].processed == run[i].rows[id].processed
    ensures id in run[i + 1].byHand <==> id in run[i].byHand
  {
    hide Apart, EffectsInv;
    RunKeeps(run, steps, i);
    var s, step := run[i], steps[i];
    assert Goes(s, step, run[i + 1]);
    assert RowInv(s, id);
    if step.Commit? {
      assert TxInv(s, s.txs[step.d]);
      var phase := s.txs[step.d].phase;
      if phase.Marked? {
        MarkedRowsAre(s, step.d, phase.id, phase.at, phase.woken, id);
      } else if phase.Resolved? {
        MarkedRowsAre(s, step.d, phase.resolves, phase.at, phase.woken, id);
      }
    }
  }

  /** Every dependency of a row a dispatcher marked was marked before it, by position. */
  lemma CausalOrder(run: seq<State>, steps: seq<Step>, id: Identity, dependency: Identity)
    requires IsRun(run, steps) && Last(run).IsProcessed(id) && id !in Last(run).byHand
    requires dependency in Last(run).rows[id].dependencies
    ensures Last(run).IsProcessed(dependency)
    ensures Last(run).rows[dependency].processed.value < Last(run).rows[id].processed.value
  {
    hide TxInv, Apart, EffectsInv;
    RunKeeps(run, steps, |steps|);
    assert RowInv(Last(run), id);
  }

  /** And in time: its marks had committed before the row's own did. */
  lemma CausalTime(run: seq<State>, steps: seq<Step>, i: nat, id: Identity, dependency: Identity)
    requires IsRun(run, steps) && i < |steps| && id in run[i].rows && dependency in run[i].rows[id].dependencies
    requires !run[i].IsProcessed(id) && run[i + 1].IsProcessed(id) && id !in run[i + 1].byHand
    ensures run[i].IsProcessed(dependency)
  {
    hide EffectsInv, Apart, RowInv;
    RunKeeps(run, steps, i);
    var s, step := run[i], steps[i];
    assert Goes(s, step, run[i + 1]);
    NewMarkIsCommitted(s, step, id);
    assert TxInv(s, s.txs[step.d]);
  }
}
