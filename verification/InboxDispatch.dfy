/** The inbox's dispatch, resolve and unpark as their statements run, one after another, with
    whatever others do between them. */
module InboxDispatch {
  import opened Options
  import opened InboxProtocol
  import opened InboxInvariant
  import opened InboxSteps
  import opened InboxTheorems

  /** How a dispatch ends: its head marked, its failure recorded, or itself set aside; nothing
      due; or still waiting for an identity's lock. */
  datatype Outcome = Processed | Failed(attempts: nat, parked: bool) | PutAside(dependency: Identity) | Nothing | Waits

  datatype Verdict = Accepted | Rejected(permanent: bool)

  /** A step of session `d`. */
  predicate IsOf(step: Step, d: nat) {
    match step
    case Receive(_, _, _, _) => false
    case Unpark(_) => false
    case Expire(_) => false
    case _ => step.d == d
  }

  /** Others leave a session its transaction, and the row it holds. */
  ghost predicate LeftAlone(s: State, later: State, d: nat) {
    && (d in s.txs <==> d in later.txs) && later.slots == s.slots && later.maxAttempts == s.maxAttempts
    && (d in s.txs ==> later.txs[d] == s.txs[d])
    && (d in s.txs && s.txs[d].phase.HasHead() ==> RowStays(s, later, s.txs[d].phase.id))
    && MarksStay(s, later)
  }

  lemma CommitLeavesAlone(s: State, e: nat, d: nat)
    requires Inv(s) && Enabled(s, Commit(e)) && d != e
    ensures LeftAlone(s, Apply(s, Commit(e)), d)
  {
    hide RowInv, EffectsInv, Apart, TxInv, MarkedRows;
    var later, phase := Apply(s, Commit(e)), s.txs[e].phase;
    if phase.Marked? || phase.Resolved? {
      var id := if phase.Marked? then phase.id else phase.resolves;
      forall other
        ensures s.IsProcessed(other) ==> later.IsProcessed(other) && later.rows[other].processed == s.rows[other].processed
      {
        MarkedRowsAre(s, e, id, phase.at, phase.woken, other);
      }
      if d in s.txs {
        MarkUndisturbs(s, e, id, phase.at, phase.woken, d);
      }
    } else if d in s.txs {
      if phase.SetAside? {
        WaitUndisturbs(s, e, d);
      } else {
        RecordUndisturbs(s, e, d);
      }
    }
  }

  lemma OthersLeaveAlone(s: State, step: Step, d: nat)
    requires Inv(s) && Enabled(s, step) && !IsOf(step, d)
    ensures LeftAlone(s, Apply(s, step), d)
  {
    hide EffectsInv, Apart, Undisturbed;
    if step.Commit? {
      CommitLeavesAlone(s, step.d, d);
    } else if step.Expire? {
      ExpireLeavesAlone(s, step.ids, d);
    } else {
      RestLeavesAlone(s, step, d);
    }
  }

  lemma RestLeavesAlone(s: State, step: Step, d: nat)
    requires Inv(s) && Enabled(s, step) && !IsOf(step, d) && !step.Commit? && !step.Expire?
    ensures LeftAlone(s, Apply(s, step), d)
  {
    hide RowInv, EffectsInv, Apart, Undisturbed, IsHead, SlotIsFree, IdentityIsFree, IsReady, MarkedRows, Committed;
    if d in s.txs {
      assert TxInv(s, s.txs[d]);
    }
  }

  lemma ExpireLeavesAlone(s: State, ids: set<Identity>, d: nat)
    requires Inv(s) && Enabled(s, Expire(ids))
    ensures LeftAlone(s, Apply(s, Expire(ids)), d)
  {
    hide EffectsInv, Apart, Undisturbed;
    if d in s.txs {
      assert TxInv(s, s.txs[d]);
      ExpireUndisturbs(s, ids, d);
      assert s.txs[d].phase.HasHead() ==> LocksRow(s.txs[d].phase, s.txs[d].phase.id);
    }
    forall other | other in s.rows
      ensures s.IsProcessed(other) ==> other !in ids
    {
      assert RowInv(s, other);
    }
  }

  /** The head was processed: its effects are durable, once. */
  ghost predicate WasProcessed(before: State, after: State, id: Identity) {
    !before.IsProcessed(id) && after.IsProcessed(id) && id !in after.byHand && after.Effects(id) == 1
  }

  /** The attempt was recorded, and nothing of it is durable. */
  ghost predicate WasRecorded(before: State, after: State, id: Identity, permanent: bool, attempts: nat, parked: bool) {
    && id in before.rows && id in after.rows && !after.IsProcessed(id) && after.Effects(id) == 0
    && attempts == before.rows[id].attempts + 1 && after.rows[id].attempts == attempts && after.rows[id].parked == parked
    && (parked <==> permanent || (before.maxAttempts > 0 && attempts >= before.maxAttempts))
  }

  /** The head waits for one of its dependencies, which has no mark. */
  ghost predicate WasPutAside(after: State, id: Identity, dependency: Identity) {
    && id in after.rows && after.rows[id].waiting == Some(dependency) && dependency in after.rows[id].dependencies
    && !after.IsProcessed(dependency)
  }

  lemma CommittedMark(s: State, d: nat)
    requires Inv(s) && At(s, d) && s.txs[d].phase.Marked?
    ensures Enabled(s, Commit(d)) && WasProcessed(s, Apply(s, Commit(d)), s.txs[d].phase.id)
    ensures d !in Apply(s, Commit(d)).txs
  {
    hide RowInv, Apart;
    var id := s.txs[d].phase.id;
    assert TxInv(s, s.txs[d]) && EffectsInv(s, id);
  }

  lemma CommittedFailure(s: State, d: nat)
    requires Inv(s) && At(s, d) && s.txs[d].phase.Recorded?
    ensures var later, phase := Apply(s, Commit(d)), s.txs[d].phase;
            && Enabled(s, Commit(d)) && d !in later.txs
            && phase.id in later.rows && !later.IsProcessed(phase.id) && later.Effects(phase.id) == 0
            && later.rows[phase.id].attempts == phase.attempts && later.rows[phase.id].parked == phase.parked
  {
    hide RowInv, Apart;
    var id := s.txs[d].phase.id;
    assert TxInv(s, s.txs[d]) && EffectsInv(s, id);
  }

  lemma CommittedWait(s: State, d: nat)
    requires Inv(s) && At(s, d) && s.txs[d].phase.SetAside?
    ensures Enabled(s, Commit(d)) && d !in Apply(s, Commit(d)).txs
    ensures WasPutAside(Apply(s, Commit(d)), s.txs[d].phase.id, s.txs[d].phase.dependency)
  {
    hide RowInv, Apart, EffectsInv;
    assert TxInv(s, s.txs[d]);
  }

  /** Session `d` has the head it read in `before`, and the row is as it was. */
  ghost predicate HasTheHead(before: State, s: State, d: nat, id: Identity) {
    && id in before.rows && before.IsQueued(id) && RowStays(before, s, id) && At(s, d)
    && s.txs[d].phase.HasHead() && s.txs[d].phase.id == id && s.maxAttempts == before.maxAttempts
  }

  /** `dependency` is the first of the row's that has no mark, in their order. */
  ghost predicate IsFirstMissing(s: State, id: Identity, dependency: Identity) {
    id in s.rows && exists n :: 0 <= n < |s.rows[id].dependencies| && s.rows[id].dependencies[n] == dependency
                                && forall i :: 0 <= i < n ==> s.IsProcessed(s.rows[id].dependencies[i])
  }

  lemma StillHasTheHead(before: State, s: State, later: State, d: nat, id: Identity)
    requires HasTheHead(before, s, d, id) && LeftAlone(s, later, d)
    ensures HasTheHead(before, later, d, id) && later.txs[d] == s.txs[d]
    ensures forall dependency :: IsFirstMissing(s, id, dependency) ==> IsFirstMissing(later, id, dependency)
  {
  }

  lemma CheckStep(before: State, s: State, d: nat, id: Identity)
    requires Inv(s) && HasTheHead(before, s, d, id) && s.txs[d].phase.Headed?
    requires s.txs[d].phase.checked < |s.rows[id].dependencies|
    ensures Enabled(s, Check(d))
    ensures var later := Apply(s, Check(d));
            && HasTheHead(before, later, d, id) && later.slots == s.slots
            && ((later.txs[d].phase.Headed? && later.txs[d].phase.checked == s.txs[d].phase.checked + 1)
                || (later.txs[d].phase.Blocked? && IsFirstMissing(later, id, later.txs[d].phase.dependency)
                    && !later.IsProcessed(later.txs[d].phase.dependency)))
  {
    hide RowInv, Apart, EffectsInv;
    assert TxInv(s, s.txs[d]);
    var later := Apply(s, Check(d));
    if later.txs[d].phase.Blocked? {
      var n := s.txs[d].phase.checked;
      assert s.rows[id].dependencies[n] == later.txs[d].phase.dependency;
    }
  }

  lemma HandleStep(before: State, s: State, d: nat, id: Identity, accepted: bool, permanent: bool)
    requires HasTheHead(before, s, d, id) && IsReady(s, s.txs[d].phase)
    ensures Enabled(s, Handle(d, accepted, permanent))
    ensures var later := Apply(s, Handle(d, accepted, permanent));
            && HasTheHead(before, later, d, id) && later.slots == s.slots
            && (accepted ==> later.txs[d].phase.Handled?)
            && (!accepted ==> later.txs[d].phase.Refused? && later.txs[d].phase.permanent == permanent)
  {
  }

  lemma MarkStep(before: State, s: State, d: nat, id: Identity)
    requires HasTheHead(before, s, d, id) && (s.txs[d].phase.MarkLocked? || (s.txs[d].phase.Handled? && s.slots <= 1))
    ensures Enabled(s, Mark(d))
    ensures HasTheHead(before, Apply(s, Mark(d)), d, id) && Apply(s, Mark(d)).txs[d].phase.Marked?
  {
  }

  lemma LockOwnStep(before: State, s: State, d: nat, id: Identity)
    requires HasTheHead(before, s, d, id) && s.txs[d].phase.Handled? && s.slots > 1 && IdentityIsFree(s, id)
    ensures Enabled(s, LockOwn(d))
    ensures HasTheHead(before, Apply(s, LockOwn(d)), d, id) && Apply(s, LockOwn(d)).txs[d].phase.MarkLocked?
  {
  }

  lemma RecordStep(before: State, s: State, d: nat, id: Identity)
    requires HasTheHead(before, s, d, id) && s.txs[d].phase.Refused?
    ensures Enabled(s, Record(d))
    ensures var later, phase := Apply(s, Record(d)), s.txs[d].phase;
            && HasTheHead(before, later, d, id) && later.txs[d].phase.Recorded?
            && later.txs[d].phase.attempts == before.rows[id].attempts + 1
            && (later.txs[d].phase.parked
                <==> phase.permanent || (before.maxAttempts > 0 && later.txs[d].phase.attempts >= before.maxAttempts))
  {
  }

  lemma LockDependencyStep(before: State, s: State, d: nat, id: Identity)
    requires HasTheHead(before, s, d, id) && s.txs[d].phase.Blocked? && IdentityIsFree(s, s.txs[d].phase.dependency)
    ensures Enabled(s, LockDependency(d))
    ensures var later, phase := Apply(s, LockDependency(d)), s.txs[d].phase;
            && HasTheHead(before, later, d, id) && later.txs[d].phase.Locked? && later.txs[d].phase.dependency == phase.dependency
            && later.rows == s.rows && (IsFirstMissing(s, id, phase.dependency) ==> IsFirstMissing(later, id, phase.dependency))
  {
  }

  lemma SetWaitingStep(before: State, s: State, d: nat, id: Identity)
    requires HasTheHead(before, s, d, id) && s.txs[d].phase.Locked?
    ensures Enabled(s, SetWaiting(d))
    ensures var later, phase := Apply(s, SetWaiting(d)), s.txs[d].phase;
            && (s.IsProcessed(phase.dependency) ==> d !in later.txs)
            && (!s.IsProcessed(phase.dependency) ==>
                  && HasTheHead(before, later, d, id) && later.txs[d].phase.SetAside?
                  && later.txs[d].phase.dependency == phase.dependency
                  && (IsFirstMissing(s, id, phase.dependency) ==> IsFirstMissing(later, id, phase.dependency)))
  {
  }

  lemma CommitKeepsFirst(s: State, d: nat, id: Identity, dependency: Identity)
    requires Inv(s) && At(s, d) && s.txs[d].phase.SetAside? && IsFirstMissing(s, id, dependency)
    ensures IsFirstMissing(Apply(s, Commit(d)), id, dependency)
  {
    hide RowInv, Apart, EffectsInv;
    assert TxInv(s, s.txs[d]);
    var later := Apply(s, Commit(d));
    assert forall other :: later.IsProcessed(other) == s.IsProcessed(other);
    assert later.rows[id].dependencies == s.rows[id].dependencies;
  }

  /** A queue that is not empty has a head. */
  lemma {:induction false} OldestOf(s: State, ids: set<Identity>) returns (oldest: Identity)
    requires ids != {} && forall id :: id in ids ==> id in s.rows
    ensures oldest in ids && forall id :: id in ids ==> s.rows[oldest].received <= s.rows[id].received
    decreases |ids|
  {
    var some :| some in ids;
    var rest := ids - {some};
    oldest := some;
    if rest != {} {
      var other := OldestOf(s, rest);
      oldest := if s.rows[other].received < s.rows[some].received then other else some;
    }
    assert forall id :: id in ids ==> id == some || id in rest;
  }

  lemma QueueHasHead(s: State, slot: nat, id: Identity)
    requires s.IsQueued(id) && s.rows[id].slot == slot
    ensures exists head :: head in s.rows && IsHead(s, slot, head)
  {
    var queue := set other | other in s.rows && s.IsQueued(other) && s.rows[other].slot == slot;
    assert id in queue;
    var head := OldestOf(s, queue);
    assert IsHead(s, slot, head);
  }

  lemma HeadUnlessEmpty(s: State, slot: nat)
    ensures (exists head :: head in s.rows && IsHead(s, slot, head))
            || forall id :: id in s.rows ==> !(s.IsQueued(id) && s.rows[id].slot == slot)
  {
    if id :| id in s.rows && s.IsQueued(id) && s.rows[id].slot == slot {
      QueueHasHead(s, slot, id);
    }
  }

  // What others hold, and what there is to do.

  /** Another session holds the lock on the identity. */
  ghost predicate OtherHolds(s: State, d: nat, id: Identity) {
    exists e :: e in s.txs && e != d && HoldsIdentity(s.txs[e].phase, s.slots, id)
  }

  /** Another session holds the row. */
  ghost predicate OtherLocks(s: State, d: nat, id: Identity) {
    exists e :: e in s.txs && e != d && LocksRow(s.txs[e].phase, id)
  }

  lemma HeldByOther(s: State, d: nat, id: Identity)
    requires !IdentityIsFree(s, id) && (d in s.txs ==> !HoldsIdentity(s.txs[d].phase, s.slots, id))
    ensures OtherHolds(s, d, id)
  {
  }

  lemma LockedByOther(s: State, d: nat, id: Identity)
    requires !RowIsFree(s, id) && (d in s.txs ==> !LocksRow(s.txs[d].phase, id))
    ensures OtherLocks(s, d, id)
  {
  }

  /** Nobody else does anything. */
  ghost predicate Quiet(others: nat -> seq<Step>) {
    forall n :: others(n) == []
  }

  /** What was due when the slot was chosen is, when its head is read. */
  ghost predicate Steady(due: (nat, Identity) -> bool) {
    forall id :: due(0, id) == due(1, id)
  }

  /** No slot that nobody holds has a head that is due. */
  ghost predicate NothingDue(s: State, due: (nat, Identity) -> bool) {
    forall slot: nat, id :: slot < s.slots && SlotIsFree(s, slot) && id in s.rows && IsHead(s, slot, id) ==> !due(0, id)
  }

  predicate SameRows(s: State, later: State) {
    later.rows == s.rows && later.txs == s.txs && later.slots == s.slots
  }

  lemma SameHeads(s: State, later: State, due: (nat, Identity) -> bool)
    requires SameRows(s, later) && NothingDue(s, due)
    ensures NothingDue(later, due)
  {
    forall slot: nat, id | slot < later.slots && SlotIsFree(later, slot) && id in later.rows && IsHead(later, slot, id)
      ensures !due(0, id)
    {
      assert IsHead(s, slot, id) && SlotIsFree(s, slot);
    }
  }

  lemma HeadsAre(s: State, later: State, slot: nat)
    requires later.rows == s.rows
    ensures forall id :: id in s.rows ==> IsHead(later, slot, id) == IsHead(s, slot, id)
  {
  }

  lemma HeadIsOne(s: State, slot: nat, id: Identity)
    requires AllApart(s) && IsHead(s, slot, id)
    ensures forall other :: other in s.rows && IsHead(s, slot, other) ==> other == id
  {
  }

  lemma TakeStep(s: State, d: nat, slot: nat)
    requires d !in s.txs && slot < s.slots && SlotIsFree(s, slot)
    ensures Enabled(s, Take(d, slot)) && Apply(s, Take(d, slot)) == s.(txs := s.txs[d := Tx(Taken(slot), 0)])
  {
  }

  lemma StillTaken(s: State, later: State, d: nat)
    requires LeftAlone(s, later, d) && At(s, d)
    ensures At(later, d) && later.txs[d] == s.txs[d]
  {
  }

  lemma ReadStep(s: State, d: nat, slot: nat, head: Option<Identity>, deferred: bool)
    requires At(s, d) && s.txs[d].phase == Taken(slot)
    requires if head.Some? then head.value in s.rows && IsHead(s, slot, head.value)
             else forall id :: id in s.rows ==> !(s.IsQueued(id) && s.rows[id].slot == slot)
    ensures Enabled(s, ReadHead(d, head, deferred))
    ensures var later := Apply(s, ReadHead(d, head, deferred));
            if head.None? || deferred then later == s.(txs := s.txs - {d})
            else HasTheHead(later, later, d, head.value) && later.txs[d].phase.Headed? && later.txs[d].phase.checked == 0
  {
  }


  /** The run came to `s`, from its state `first` on. */
  ghost predicate CameTo(run: seq<State>, first: nat, s: State) {
    exists i :: first <= i < |run| && run[i] == s
  }

  lemma RunsMeet(run: seq<State>, steps: seq<Step>)
    requires IsRun(run, steps)
    ensures |run| == |steps| + 1 && run[|run| - 1] == Last(run)
  {
  }

  ghost predicate AllApart(s: State) {
    forall a, b :: a in s.rows && b in s.rows && a != b ==> s.rows[a].received != s.rows[b].received
  }

  /** No two rows have one received position: a slot has one head. */
  lemma {:induction false} ReceivedApart(run: seq<State>, steps: seq<Step>, n: nat)
    requires IsRun(run, steps) && n < |run|
    ensures AllApart(run[n])
  {
    hide Inv, Enabled, Apply, AllApart, Initial;
    if n == 0 {
      NoRowsApart(run[0]);
    } else {
      ReceivedApart(run, steps, n - 1);
      RunKeeps(run, steps, n - 1);
      assert Goes(run[n - 1], steps[n - 1], run[n]);
      StaysApart(run[n - 1], steps[n - 1]);
    }
  }

  lemma NoRowsApart(s: State)
    requires Initial(s)
    ensures AllApart(s)
  {
  }

  lemma StaysApart(s: State, step: Step)
    requires Inv(s) && Enabled(s, step) && AllApart(s)
    ensures AllApart(Apply(s, step))
  {
    hide Inv, Enabled, Apply;
    forall a | a in Apply(s, step).rows
      ensures a in s.rows ==> Apply(s, step).rows[a].received == s.rows[a].received
      ensures a !in s.rows ==> step.Receive? && a == step.id && Apply(s, step).rows[a].received == step.received
      ensures a !in s.rows ==> forall other :: other in s.rows ==> s.rows[other].received != step.received
    {
      ReceivedStays(s, step, a);
    }
  }

  lemma ReceivedStays(s: State, step: Step, a: Identity)
    requires Inv(s) && Enabled(s, step) && a in Apply(s, step).rows
    ensures a in s.rows ==> Apply(s, step).rows[a].received == s.rows[a].received
    ensures a !in s.rows ==> step.Receive? && a == step.id && Apply(s, step).rows[a].received == step.received
    ensures a !in s.rows ==> forall other :: other in s.rows ==> s.rows[other].received != step.received
  {
    hide EffectsInv, TxInv, Apart, IsHead, SlotIsFree, IdentityIsFree, RowIsFree, IsReady;
    if a in s.rows {
      assert RowInv(s, a);
    }
  }

  class Inbox {
    var state: State
    ghost var run: seq<State>
    ghost var steps: seq<Step>

    ghost predicate Valid()
      reads this
    {
      IsRun(run, steps) && Last(run) == state && Inv(state)
    }

    constructor (slots: nat, maxAttempts: nat)
      requires 1 <= slots
      ensures Valid() && steps == []
    {
      state := State(slots, maxAttempts, map[], 0, map[], map[], {});
      run := [State(slots, maxAttempts, map[], 0, map[], map[], {})];
      steps := [];
      new;
      InitialHolds(state);
    }

    /** One statement, whoever's. */
    method Do(step: Step)
      requires Valid() && Enabled(state, step)
      modifies this
      ensures Valid() && state == Apply(old(state), step) && steps == old(steps) + [step] && run == old(run) + [state]
    {
      hide Inv, Initial, Apply, Enabled;
      StepKeeps(state, step);
      ghost var longer, more := run + [Apply(state, step)], steps + [step];
      forall i | 0 <= i < |more|
        ensures Goes(longer[i], more[i], longer[i + 1])
      {
        assert i < |steps| ==> Goes(run[i], steps[i], run[i + 1]);
      }
      state, run, steps := Apply(state, step), longer, more;
    }

    /** What others do before the next statement of session `d`: of `script`, what can happen. */
    method Others(script: seq<Step>, d: nat)
      requires Valid()
      modifies this
      ensures Valid() && old(steps) <= steps && old(run) <= run && LeftAlone(old(state), state, d)
      ensures script == [] ==> state == old(state)
    {
      hide Inv, Apply, Enabled, IsRun;
      for i := 0 to |script|
        invariant script == [] ==> state == old(state)
        invariant Valid() && old(steps) <= steps && old(run) <= run && LeftAlone(old(state), state, d)
      {
        if !IsOf(script[i], d) && Enabled(state, script[i]) {
          OthersLeaveAlone(state, script[i], d);
          Do(script[i]);
        }
      }
    }

    /** A slot is taken, one with a due head; then the head is read, under a fresh snapshot: what
        the slot's last holder committed is in view. */
    method TakeHead(d: nat, others: nat -> seq<Step>, due: (nat, Identity) -> bool) returns (head: Option<Identity>)
      requires Valid() && d !in state.txs
      modifies this
      ensures Valid() && old(steps) <= steps && old(run) <= run
      ensures head.None? ==> d !in state.txs
      ensures head.Some? ==> HasTheHead(state, state, d, head.value) && state.txs[d].phase.Headed? && state.txs[d].phase.checked == 0
      ensures head.None? && Quiet(others) ==> SameRows(old(state), state)
      ensures head.None? && Quiet(others) && Steady(due) ==> NothingDue(old(state), due)
    {
      hide IsRun, Inv, IsHead, SlotIsFree, Apply, Enabled, HasTheHead, AllApart;
      var now := state;
      RunsMeet(run, steps);
      ReceivedApart(run, steps, |steps|);
      Others(others(0), d);
      if slot: nat :| slot < state.slots && SlotIsFree(state, slot) && exists id :: id in now.rows && IsHead(now, slot, id) && due(0, id) {
        ghost var free := state;
        TakeStep(state, d, slot);
        Do(Take(d, slot));
        ghost var taken := state;
        Others(others(1), d);
        StillTaken(taken, state, d);
        ghost var last := state;
        head := ReadTheHead(d, slot, due);
        if Quiet(others) {
          HeadsAre(now, last, slot);
        }
      } else {
        head := None;
      }
    }

    /** The head of the slot taken, if it is due; else the slot let go. */
    method ReadTheHead(d: nat, slot: nat, due: (nat, Identity) -> bool) returns (head: Option<Identity>)
      requires Valid() && At(state, d) && state.txs[d].phase == Taken(slot)
      modifies this
      ensures Valid() && old(steps) <= steps && old(run) <= run
      ensures head.None? ==> state.rows == old(state).rows && state.slots == old(state).slots && state.txs == old(state).txs - {d}
      ensures head.None? ==> forall id :: id in old(state).rows && IsHead(old(state), slot, id) ==> !due(1, id)
      ensures head.Some? ==> HasTheHead(state, state, d, head.value) && state.txs[d].phase.Headed? && state.txs[d].phase.checked == 0
    {
      hide IsRun, Inv, Apply, Enabled, HasTheHead;
      RunsMeet(run, steps);
      ReceivedApart(run, steps, |steps|);
      HeadUnlessEmpty(state, slot);
      if id :| id in state.rows && IsHead(state, slot, id) {
        HeadIsOne(state, slot, id);
        ReadStep(state, d, slot, Some(id), !due(1, id));
        Do(ReadHead(d, Some(id), !due(1, id)));
        head := if due(1, id) then Some(id) else None;
      } else {
        ReadStep(state, d, slot, None, false);
        Do(ReadHead(d, None, false));
        head := None;
      }
    }

    /** The first dependency of the head without a committed mark, each asked for in turn. */
    method FirstUnprocessed(d: nat, id: Identity, others: nat -> seq<Step>, ghost before: State) returns (dependency: Option<Identity>)
      requires Valid() && HasTheHead(before, state, d, id) && state.txs[d].phase.Headed? && state.txs[d].phase.checked == 0
      modifies this
      ensures Valid() && old(steps) <= steps && old(run) <= run && HasTheHead(before, state, d, id)
      ensures dependency.None? ==> IsReady(state, state.txs[d].phase)
      ensures dependency.Some? ==> state.txs[d].phase.Blocked? && state.txs[d].phase.dependency == dependency.value
                                   && IsFirstMissing(state, id, dependency.value) && !state.IsProcessed(dependency.value)
    {
      hide IsRun, Inv, Apply, Enabled, HasTheHead;
      var checked := 0;
      dependency := None;
      HeadIsThere(before, state, d, id);
      while checked < |state.rows[id].dependencies|
        invariant Valid() && old(steps) <= steps && old(run) <= run && HasTheHead(before, state, d, id)
        invariant id in state.rows && At(state, d) && state.rows[id].dependencies == before.rows[id].dependencies
        invariant state.txs[d].phase.Headed? && state.txs[d].phase.checked == checked <= |state.rows[id].dependencies|
        decreases |before.rows[id].dependencies| - checked
      {
        ghost var was := state;
        Others(others(checked), d);
        StillHasTheHead(before, was, state, d, id);
        HeadIsThere(before, state, d, id);
        CheckStep(before, state, d, id);
        Do(Check(d));
        HeadIsThere(before, state, d, id);
        checked := checked + 1;
        if state.txs[d].phase.Blocked? {
          dependency := Some(state.txs[d].phase.dependency);
          return;
        }
      }
      HeadIsThere(before, state, d, id);
    }

    /** The head set aside to wait, under the lock on what it waits for, unless that was marked
        by then. */
    method PutHeadAside(d: nat, id: Identity, dependency: Identity, others: nat -> seq<Step>, ghost before: State)
      returns (outcome: Outcome)
      requires Valid() && HasTheHead(before, state, d, id)
      requires state.txs[d].phase.Blocked? && state.txs[d].phase.dependency == dependency
      requires IsFirstMissing(state, id, dependency) && !state.IsProcessed(dependency)
      modifies this
      ensures Valid() && old(steps) <= steps && old(run) <= run
      ensures outcome.Waits? || d !in state.txs
      ensures outcome == PutAside(dependency) || outcome == Nothing || outcome == Waits
      ensures outcome.PutAside? ==> WasPutAside(state, id, dependency) && IsFirstMissing(state, id, dependency)
      ensures outcome.Waits? ==> OtherHolds(state, d, dependency)
      ensures outcome.Nothing? ==> !Quiet(others)
    {
      hide IsRun, Inv, Apply, Enabled, LeftAlone, IsFirstMissing;
      ghost var was := state;
      Others(others(0), d);
      StillHasTheHead(before, was, state, d, id);
      if !IdentityIsFree(state, dependency) {
        HeldByOther(state, d, dependency);
        return Waits;
      }
      LockDependencyStep(before, state, d, id);
      Do(LockDependency(d));
      was := state;
      Others(others(1), d);
      StillHasTheHead(before, was, state, d, id);
      SetWaitingStep(before, state, d, id);
      Do(SetWaiting(d));
      if !At(state, d) {
        return Nothing;
      }
      CommitTheWait(d, id, dependency, others(2), before);
      outcome := PutAside(dependency);
    }

    method CommitTheWait(d: nat, id: Identity, dependency: Identity, others: seq<Step>, ghost before: State)
      requires Valid() && HasTheHead(before, state, d, id) && IsFirstMissing(state, id, dependency)
      requires state.txs[d].phase.SetAside? && state.txs[d].phase.dependency == dependency
      modifies this
      ensures Valid() && old(steps) <= steps && old(run) <= run && d !in state.txs
      ensures WasPutAside(state, id, dependency) && IsFirstMissing(state, id, dependency)
    {
      hide IsRun, Inv, Apply, Enabled, LeftAlone, IsFirstMissing;
      ghost var was := state;
      Others(others, d);
      StillHasTheHead(before, was, state, d, id);
      CommittedWait(state, d);
      CommitKeepsFirst(state, d, id, dependency);
      Do(Commit(d));
    }

    /** The head marked, with more than one slot under the lock on its own identity. */
    method MarkHead(d: nat, id: Identity, others: nat -> seq<Step>, ghost before: State) returns (outcome: Outcome)
      requires Valid() && HasTheHead(before, state, d, id) && state.txs[d].phase.Handled?
      modifies this
      ensures Valid() && old(steps) <= steps && old(run) <= run
      ensures (outcome == Processed && d !in state.txs && WasProcessed(before, state, id)) || (outcome == Waits && OtherHolds(state, d, id))
    {
      hide IsRun, Inv, Apply, Enabled, LeftAlone;
      ghost var was := state;
      Others(others(0), d);
      StillHasTheHead(before, was, state, d, id);
      if state.slots > 1 {
        if !IdentityIsFree(state, id) {
          HeldByOther(state, d, id);
          return Waits;
        }
        LockOwnStep(before, state, d, id);
        Do(LockOwn(d));
        was := state;
        Others(others(1), d);
        StillHasTheHead(before, was, state, d, id);
      }
      MarkStep(before, state, d, id);
      Do(Mark(d));
      was := state;
      Others(others(2), d);
      StillHasTheHead(before, was, state, d, id);
      CommittedMark(state, d);
      Do(Commit(d));
      outcome := Processed;
    }

    /** The transaction ends with the failure in its row, and no mark. */
    method RecordFailure(d: nat, id: Identity, permanent: bool, others: nat -> seq<Step>, ghost before: State)
      returns (outcome: Outcome)
      requires Valid() && HasTheHead(before, state, d, id)
      requires state.txs[d].phase.Refused? && state.txs[d].phase.permanent == permanent
      modifies this
      ensures Valid() && old(steps) <= steps && old(run) <= run && d !in state.txs
      ensures outcome.Failed? && WasRecorded(before, state, id, permanent, outcome.attempts, outcome.parked)
    {
      hide IsRun, Inv, Apply, Enabled, LeftAlone;
      ghost var was := state;
      Others(others(0), d);
      StillHasTheHead(before, was, state, d, id);
      RecordStep(before, state, d, id);
      Do(Record(d));
      was := state;
      Others(others(1), d);
      StillHasTheHead(before, was, state, d, id);
      outcome := Failed(state.txs[d].phase.attempts, state.txs[d].phase.parked);
      CommittedFailure(state, d);
      Do(Commit(d));
    }

    /** The waits too long are over. */
    method LetExpire(d: nat, expired: set<Identity>)
      requires Valid() && d !in state.txs
      modifies this
      ensures Valid() && old(steps) <= steps && old(run) <= run && d !in state.txs
    {
      hide IsRun, Inv, Apply;
      if Enabled(state, Expire(expired)) {
        ExpireLeavesIt(state, expired, d);
        Do(Expire(expired));
      }
    }

    /** A dispatch: the oldest due row of a slot nobody holds, set aside, marked, or its failure
        recorded. `before` is the state in which the head was read. */
    method Dispatch(d: nat, subscriber: Identity -> Verdict, due: (nat, Identity) -> bool, expired: set<Identity>,
                    others: nat -> seq<Step>, checking: nat -> seq<Step>)
      returns (outcome: Outcome, message: Option<Identity>, ghost before: State)
      requires Valid() && d !in state.txs
      modifies this
      ensures Valid() && old(steps) <= steps && old(run) <= run
      ensures outcome.Waits? || d !in state.txs
      ensures !outcome.Nothing? && !outcome.Waits? ==> message.Some? && before.IsQueued(message.value)
      ensures outcome.Processed? ==> WasProcessed(before, state, message.value) && subscriber(message.value).Accepted?
      ensures outcome.PutAside? ==> WasPutAside(state, message.value, outcome.dependency)
                                    && IsFirstMissing(state, message.value, outcome.dependency)
      ensures outcome.Failed? ==>
                && subscriber(message.value).Rejected?
                && WasRecorded(before, state, message.value, subscriber(message.value).permanent, outcome.attempts, outcome.parked)
      ensures CameTo(run, |old(steps)|, before)
      ensures outcome.Waits? ==> exists id :: OtherHolds(state, d, id)
      ensures outcome.Nothing? && Quiet(others) && Quiet(checking) && Steady(due) ==> NothingDue(state, due)
    {
      hide IsRun, Inv, Apply, LeftAlone, IsFirstMissing, WasProcessed, WasRecorded, WasPutAside;
      RunsMeet(run, steps);
      LetExpire(d, expired);
      ghost var was := state;
      message := TakeHead(d, others, due);
      before := state;
      RunsMeet(run, steps);
      ghost var at := |run| - 1;
      assert run[at] == before;
      if message.None? {
        if Quiet(others) && Steady(due) {
          SameHeads(was, state, due);
        }
        return Nothing, message, before;
      }
      var id := message.value;
      var dependency := FirstUnprocessed(d, id, checking, before);
      if dependency.Some? {
        outcome := PutHeadAside(d, id, dependency.value, (n: nat) => others(2 + n), before);
        assert run[at] == before;
        return;
      }
      was := state;
      Others(others(2), d);
      StillHasTheHead(before, was, state, d, id);
      ReadyStays(was, state, d);
      var verdict := subscriber(id);
      var permanent := verdict.Rejected? && verdict.permanent;
      HandleStep(before, state, d, id, verdict.Accepted?, permanent);
      Do(Handle(d, verdict.Accepted?, permanent));
      if verdict.Accepted? {
        outcome := MarkHead(d, id, (n: nat) => others(3 + n), before);
      } else {
        outcome := RecordFailure(d, id, permanent, (n: nat) => others(3 + n), before);
      }
      assert run[at] == before;
    }

    /** A parked message marked processed by hand, under the lock a mark takes, and what waited
        for it woken; `resolved` says whether it was parked. */
    method Resolve(d: nat, id: Identity, others: nat -> seq<Step>) returns (resolved: bool, waits: bool, ghost before: State)
      requires Valid() && d !in state.txs
      modifies this
      ensures Valid() && old(steps) <= steps && old(run) <= run
      ensures resolved ==> WasResolved(before, state, id)
      ensures !resolved && !waits ==> d !in state.txs
      ensures CameTo(run, |old(steps)|, before)
      ensures !waits ==> (resolved <==> id in before.rows && before.rows[id].parked)
      ensures waits ==> !resolved && (OtherHolds(state, d, id) || OtherLocks(state, d, id))
    {
      hide IsRun, Inv, Apply, Enabled, RowStays, MarksStay, WasResolved;
      RunsMeet(run, steps);
      Others(others(0), d);
      resolved, waits, before := false, false, state;
      RunsMeet(run, steps);
      ghost var at := |run| - 1;
      assert run[at] == before;
      if !IdentityIsFree(state, id) {
        return false, true, before;
      }
      LockResolvedStep(state, d, id);
      Do(LockResolved(d, id));
      resolved, waits, before := ResolveLocked(d, id, others);
    }

    /** Under the lock: whether the message is parked is read with the row locked, and its mark
        committed if it is. */
    method ResolveLocked(d: nat, id: Identity, others: nat -> seq<Step>) returns (resolved: bool, waits: bool, ghost before: State)
      requires Valid() && At(state, d) && state.txs[d].phase == Resolving(id)
      modifies this
      ensures Valid() && old(steps) <= steps && old(run) <= run && CameTo(run, |old(steps)|, before)
      ensures resolved ==> WasResolved(before, state, id)
      ensures !resolved && !waits ==> d !in state.txs
      ensures !waits ==> (resolved <==> id in before.rows && before.rows[id].parked)
      ensures waits ==> !resolved && OtherLocks(state, d, id)
    {
      hide IsRun, Inv, Apply, Enabled, RowStays, MarksStay, WasResolved;
      RunsMeet(run, steps);
      ghost var was := state;
      Others(others(1), d);
      ResolvingStays(was, state, d);
      resolved, waits, before := false, false, state;
      RunsMeet(run, steps);
      ghost var at := |run| - 1;
      assert run[at] == before;
      if !RowIsFree(state, id) {
        LockedByOther(state, d, id);
        return false, true, before;
      }
      ResolveStep(state, d);
      Do(InboxProtocol.Resolve(d));
      assert run[at] == before;
      if At(state, d) {
        before := CommitTheResolve(d, id, others(2));
        resolved := true;
      }
    }

    method CommitTheResolve(d: nat, id: Identity, others: seq<Step>) returns (ghost before: State)
      requires Valid() && At(state, d) && state.txs[d].phase.Resolved? && state.txs[d].phase.resolves == id
      modifies this
      ensures Valid() && old(steps) <= steps && old(run) <= run && CameTo(run, |old(steps)|, before)
      ensures WasResolved(before, state, id) && id in before.rows && before.rows[id].parked
    {
      hide IsRun, Inv, Apply, Enabled, RowStays, MarksStay, WasResolved;
      RunsMeet(run, steps);
      ghost var was := state;
      Others(others, d);
      ResolvingStays(was, state, d);
      before := state;
      RunsMeet(run, steps);
      ghost var at := |run| - 1;
      CommittedResolve(state, d);
      Do(Commit(d));
      assert run[at] == before;
    }

    /** A parked message given another go, due at once; `unparked` says whether it was parked. */
    method Unpark(id: Identity) returns (unparked: bool)
      requires Valid() && RowIsFree(state, id)
      modifies this
      ensures Valid() && old(steps) <= steps && old(run) <= run && state.txs == old(state.txs) && state.effects == old(state.effects)
      ensures unparked <==> id in old(state.rows) && old(state.rows)[id].parked
      ensures unparked ==> state.rows == old(state.rows)[id := old(state.rows)[id].(parked := false, attempts := 0)] && state.IsQueued(id)
      ensures !unparked ==> state == old(state)
    {
      hide IsRun, EffectsInv, TxInv, Apart;
      unparked := id in state.rows && state.rows[id].parked;
      assert id in state.rows ==> RowInv(state, id);
      Do(InboxProtocol.Unpark(id));
    }
  }

  /** The row was marked without the subscriber's effects, and whatever waited for it is due. */
  ghost predicate WasResolved(before: State, after: State, id: Identity) {
    && !before.IsProcessed(id) && after.IsProcessed(id) && id in after.byHand && after.Effects(id) == 0
    && forall other :: other in before.rows && before.rows[other].waiting == Some(id) ==> after.IsQueued(other)
  }

  lemma LockResolvedStep(s: State, d: nat, id: Identity)
    requires d !in s.txs && IdentityIsFree(s, id)
    ensures Enabled(s, LockResolved(d, id)) && Apply(s, LockResolved(d, id)).txs == s.txs[d := Tx(Resolving(id), 0)]
  {
  }

  lemma ResolvingStays(s: State, later: State, d: nat)
    requires LeftAlone(s, later, d) && At(s, d)
    ensures At(later, d) && later.txs[d] == s.txs[d]
  {
  }

  lemma ResolveStep(s: State, d: nat)
    requires At(s, d) && s.txs[d].phase.Resolving? && RowIsFree(s, s.txs[d].phase.resolves)
    ensures Enabled(s, Resolve(d))
    ensures var later, id := Apply(s, Resolve(d)), s.txs[d].phase.resolves;
            if id in s.rows && s.rows[id].parked then At(later, d) && later.txs[d].phase.Resolved? && later.txs[d].phase.resolves == id
            else d !in later.txs
  {
  }

  lemma CommittedResolve(s: State, d: nat)
    requires Inv(s) && At(s, d) && s.txs[d].phase.Resolved?
    ensures Enabled(s, Commit(d)) && WasResolved(s, Apply(s, Commit(d)), s.txs[d].phase.resolves)
    ensures s.txs[d].phase.resolves in s.rows && s.rows[s.txs[d].phase.resolves].parked
  {
    hide Apart;
    var id := s.txs[d].phase.resolves;
    assert TxInv(s, s.txs[d]) && EffectsInv(s, id) && RowInv(s, id);
    forall other | other in s.rows && s.rows[other].waiting == Some(id)
      ensures Apply(s, Commit(d)).IsQueued(other)
    {
      assert RowInv(s, other) && other in WaitingFor(s, id);
    }
  }

  lemma ExpireLeavesIt(s: State, ids: set<Identity>, d: nat)
    requires Enabled(s, Expire(ids))
    ensures d in Apply(s, Expire(ids)).txs <==> d in s.txs
  {
  }

  lemma HeadIsThere(before: State, s: State, d: nat, id: Identity)
    requires HasTheHead(before, s, d, id)
    ensures id in before.rows && id in s.rows && At(s, d) && s.rows[id] == before.rows[id]
    ensures s.txs[d].phase.HasHead() && s.txs[d].phase.id == id
  {
  }

  lemma ReadyStays(s: State, later: State, d: nat)
    requires At(s, d) && At(later, d) && later.txs[d] == s.txs[d] && IsReady(s, s.txs[d].phase)
    requires RowStays(s, later, s.txs[d].phase.id)
    ensures IsReady(later, later.txs[d].phase)
  {
  }
}
