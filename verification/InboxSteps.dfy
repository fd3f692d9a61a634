/** Every step of the inbox keeps its invariant. */
module InboxSteps {
  import opened Options
  import opened InboxProtocol
  import opened InboxInvariant

  // Steps that change the transaction alone.

  lemma TakeKeeps(s: State, d: nat, slot: nat)
    requires Inv(s) && Enabled(s, Take(d, slot))
    ensures Inv(Apply(s, Take(d, slot)))
  {
    hide RowInv, EffectsInv;
    TxGoesOn(s, Apply(s, Take(d, slot)), d, Tx(Taken(slot), 0));
  }

  lemma ReadHeadKeeps(s: State, d: nat, head: Option<Identity>, deferred: bool)
    requires Inv(s) && Enabled(s, ReadHead(d, head, deferred))
    ensures Inv(Apply(s, ReadHead(d, head, deferred)))
  {
    hide EffectsInv;
    if head.None? || deferred {
      TxEnds(s, d);
    } else {
      assert RowInv(s, head.value);
      TxGoesOn(s, Apply(s, ReadHead(d, head, deferred)), d, s.txs[d].(phase := Headed(s.txs[d].phase.slot, head.value, 0)));
    }
  }

  lemma CheckKeeps(s: State, d: nat)
    requires Inv(s) && Enabled(s, Check(d))
    ensures Inv(Apply(s, Check(d)))
  {
    hide EffectsInv, RowInv;
    var later := Apply(s, Check(d));
    TxGoesOn(s, later, d, later.txs[d]);
  }

  lemma LockDependencyKeeps(s: State, d: nat)
    requires Inv(s) && Enabled(s, LockDependency(d))
    ensures Inv(Apply(s, LockDependency(d)))
  {
    hide EffectsInv, RowInv;
    var later := Apply(s, LockDependency(d));
    TxGoesOn(s, later, d, later.txs[d]);
  }

  lemma SetWaitingKeeps(s: State, d: nat)
    requires Inv(s) && Enabled(s, SetWaiting(d))
    ensures Inv(Apply(s, SetWaiting(d)))
  {
    hide EffectsInv, RowInv;
    var later := Apply(s, SetWaiting(d));
    if s.IsProcessed(s.txs[d].phase.dependency) {
      TxEnds(s, d);
    } else {
      TxGoesOn(s, later, d, later.txs[d]);
    }
  }

  /** Every dependency was found processed, and its mark drew its position before now. */
  lemma ReadyIsBefore(s: State, phase: Phase)
    requires Inv(s) && PhaseInv(s, phase) && IsReady(s, phase)
    ensures DependenciesBefore(s, phase.id, s.next)
  {
    hide EffectsInv, Apart;
    forall dependency | dependency in s.rows[phase.id].dependencies
      ensures s.IsProcessed(dependency) && s.rows[dependency].processed.value < s.next
    {
      var i :| 0 <= i < |s.rows[phase.id].dependencies| && s.rows[phase.id].dependencies[i] == dependency;
      assert RowInv(s, dependency);
    }
  }

  lemma HandleKeeps(s: State, d: nat, accepted: bool, permanent: bool)
    requires Inv(s) && Enabled(s, Handle(d, accepted, permanent))
    ensures Inv(Apply(s, Handle(d, accepted, permanent)))
  {
    hide EffectsInv, RowInv, DependenciesBefore;
    var later := Apply(s, Handle(d, accepted, permanent));
    assert TxInv(s, s.txs[d]);
    ReadyIsBefore(s, s.txs[d].phase);
    RowsStay(s, later);
    TxGoesOn(s, later, d, later.txs[d]);
  }

  lemma LockOwnKeeps(s: State, d: nat)
    requires Inv(s) && Enabled(s, LockOwn(d))
    ensures Inv(Apply(s, LockOwn(d)))
  {
    hide EffectsInv, RowInv;
    var later := Apply(s, LockOwn(d));
    TxGoesOn(s, later, d, later.txs[d]);
  }

  lemma MarkKeeps(s: State, d: nat)
    requires Inv(s) && Enabled(s, Mark(d))
    ensures Inv(Apply(s, Mark(d)))
  {
    hide EffectsInv, RowInv;
    var later := Apply(s, Mark(d));
    assert TxInv(s, s.txs[d]);
    assert WaitingFor(later, s.txs[d].phase.id) == WaitingFor(s, s.txs[d].phase.id);
    TxGoesOn(s, later, d, later.txs[d]);
  }

  lemma RecordKeeps(s: State, d: nat)
    requires Inv(s) && Enabled(s, Record(d))
    ensures Inv(Apply(s, Record(d)))
  {
    hide EffectsInv, RowInv;
    var later := Apply(s, Record(d));
    TxGoesOn(s, later, d, later.txs[d]);
  }

  lemma LockResolvedKeeps(s: State, d: nat, id: Identity)
    requires Inv(s) && Enabled(s, LockResolved(d, id))
    ensures Inv(Apply(s, LockResolved(d, id)))
  {
    hide EffectsInv, RowInv;
    TxGoesOn(s, Apply(s, LockResolved(d, id)), d, Tx(Resolving(id), 0));
  }

  lemma ResolveKeeps(s: State, d: nat)
    requires Inv(s) && Enabled(s, Resolve(d))
    ensures Inv(Apply(s, Resolve(d)))
  {
    hide EffectsInv, RowInv;
    var later, id := Apply(s, Resolve(d)), s.txs[d].phase.resolves;
    if id in s.rows && s.rows[id].parked {
      assert WaitingFor(later, id) == WaitingFor(s, id);
      TxGoesOn(s, later, d, later.txs[d]);
    } else {
      TxEnds(s, d);
    }
  }

  // Steps that change rows.

  /** No mark is undone. */
  ghost predicate MarksStay(s: State, later: State) {
    forall id :: s.IsProcessed(id) ==> later.IsProcessed(id) && later.rows[id].processed == s.rows[id].processed
  }

  ghost predicate RowStays(s: State, later: State, id: Identity) {
    id in s.rows ==> id in later.rows && later.rows[id] == s.rows[id]
  }

  /** What a transaction in progress relies on is as it was. */
  ghost predicate Undisturbed(s: State, later: State, phase: Phase) {
    && (phase.HasHead() ==> RowStays(s, later, phase.id))
    && (phase.Resolved? ==> RowStays(s, later, phase.resolves) && WaitingFor(later, phase.resolves) == WaitingFor(s, phase.resolves))
    && (phase.Marked? ==> WaitingFor(later, phase.id) == WaitingFor(s, phase.id))
    && (phase.SetAside? ==> !later.IsProcessed(phase.dependency))
  }

  lemma TxOutlives(s: State, later: State, tx: Tx)
    requires TxInv(s, tx) && MarksStay(s, later) && Undisturbed(s, later, tx.phase)
    requires later.slots == s.slots && later.maxAttempts == s.maxAttempts && s.next <= later.next
    ensures TxInv(later, tx)
  {
    if tx.phase.HasHead() {
      BeforeStays(s, later, tx.phase.id);
    }
  }

  lemma BeforeStays(s: State, later: State, id: Identity)
    requires MarksStay(s, later) && id in s.rows && id in later.rows && later.rows[id].dependencies == s.rows[id].dependencies
    ensures forall at :: DependenciesBefore(s, id, at) ==> DependenciesBefore(later, id, at)
  {
  }

  /** Rows changed while some transactions go on undisturbed. */
  lemma RowsMove(s: State, later: State)
    requires Inv(s) && later.slots == s.slots && later.maxAttempts == s.maxAttempts && s.next <= later.next
    requires MarksStay(s, later)
    requires forall d :: d in later.txs ==> d in s.txs && later.txs[d] == s.txs[d] && Undisturbed(s, later, later.txs[d].phase)
    requires forall id :: id in later.rows ==> RowInv(later, id)
    requires forall id :: EffectsInv(later, id)
    ensures Inv(later)
  {
    hide RowInv, EffectsInv, Apart, Undisturbed, TxInv;
    forall d | d in later.txs
      ensures TxInv(later, later.txs[d])
    {
      TxOutlives(s, later, s.txs[d]);
    }
    forall d, e | d in later.txs && e in later.txs && d != e
      ensures Apart(later, later.txs[d].phase, later.txs[e].phase)
    {
      ApartStays(s, later, s.txs[d].phase, s.txs[e].phase);
    }
  }

  lemma ReceiveKeeps(s: State, id: Identity, slot: nat, received: nat, dependencies: seq<Identity>)
    requires Inv(s) && Enabled(s, Receive(id, slot, received, dependencies))
    ensures Inv(Apply(s, Receive(id, slot, received, dependencies)))
  {
    var later := Apply(s, Receive(id, slot, received, dependencies));
    assert forall other :: later.IsProcessed(other) == s.IsProcessed(other);
    assert forall other :: WaitingFor(later, other) == WaitingFor(s, other);
    forall other | other in later.rows
      ensures RowInv(later, other)
    {
      if other != id {
        assert RowInv(s, other);
        BeforeStays(s, later, other);
      }
    }
    forall other
      ensures EffectsInv(later, other)
    {
      assert EffectsInv(s, other);
    }
    forall d | d in later.txs
      ensures Undisturbed(s, later, later.txs[d].phase)
    {
      assert TxInv(s, s.txs[d]);
    }
    RowsMove(s, later);
  }

  /** While a wait for `id` is pending no mark of `id` is, and the other way about: by the
      identity's lock, or by the only slot. */
  lemma WaitExcludesMark(s: State, d: nat, e: nat, id: Identity)
    requires Inv(s) && d in s.txs && e in s.txs && s.txs[d].phase.SetAside? && s.txs[d].phase.dependency == id
    ensures !(s.txs[e].phase.Marked? && s.txs[e].phase.id == id)
    ensures !(s.txs[e].phase.Resolved? && s.txs[e].phase.resolves == id)
  {
    hide RowInv, EffectsInv;
    assert TxInv(s, s.txs[d]) && TxInv(s, s.txs[e]);
    if d != e {
      assert Apart(s, s.txs[d].phase, s.txs[e].phase);
      assert HoldsIdentity(s.txs[d].phase, s.slots, id);
    }
  }

  /** Two dispatchers have different heads. */
  lemma HeadsDiffer(s: State, d: nat, e: nat)
    requires Inv(s) && d in s.txs && e in s.txs && d != e && s.txs[d].phase.HasHead() && s.txs[e].phase.HasHead()
    ensures s.txs[d].phase.id != s.txs[e].phase.id
  {
    hide RowInv, EffectsInv;
    assert TxInv(s, s.txs[d]) && TxInv(s, s.txs[e]) && Apart(s, s.txs[d].phase, s.txs[e].phase);
  }

  lemma WaitUndisturbs(s: State, d: nat, e: nat)
    requires Inv(s) && d in s.txs && e in s.txs && d != e && s.txs[d].phase.SetAside?
    ensures Undisturbed(s, Apply(s, Commit(d)), s.txs[e].phase)
  {
    hide RowInv, EffectsInv, Apart;
    var later, phase := Apply(s, Commit(d)), s.txs[d].phase;
    assert TxInv(s, s.txs[d]) && TxInv(s, s.txs[e]);
    WaitExcludesMark(s, d, e, phase.dependency);
    if s.txs[e].phase.HasHead() {
      HeadsDiffer(s, d, e);
    }
    assert forall x :: x != phase.dependency ==> WaitingFor(later, x) == WaitingFor(s, x);
  }

  lemma CommitWaitKeeps(s: State, d: nat)
    requires Inv(s) && Enabled(s, Commit(d)) && s.txs[d].phase.SetAside?
    ensures Inv(Apply(s, Commit(d)))
  {
    hide Apart, Undisturbed;
    var later, phase := Apply(s, Commit(d)), s.txs[d].phase;
    assert TxInv(s, s.txs[d]);
    assert forall other :: later.IsProcessed(other) == s.IsProcessed(other);
    forall other | other in later.rows
      ensures RowInv(later, other)
    {
      assert RowInv(s, other);
      BeforeStays(s, later, other);
    }
    forall other
      ensures EffectsInv(later, other)
    {
      assert EffectsInv(s, other);
    }
    forall e | e in later.txs
      ensures Undisturbed(s, later, later.txs[e].phase)
    {
      WaitUndisturbs(s, d, e);
    }
    RowsMove(s, later);
  }

  lemma RecordUndisturbs(s: State, d: nat, e: nat)
    requires Inv(s) && d in s.txs && e in s.txs && d != e && s.txs[d].phase.Recorded?
    ensures Undisturbed(s, Apply(s, Commit(d)), s.txs[e].phase)
  {
    hide RowInv, EffectsInv, Apart;
    var later := Apply(s, Commit(d));
    assert TxInv(s, s.txs[d]) && TxInv(s, s.txs[e]);
    if s.txs[e].phase.HasHead() {
      HeadsDiffer(s, d, e);
    }
    assert forall x :: WaitingFor(later, x) == WaitingFor(s, x);
  }

  lemma CommitFailureKeeps(s: State, d: nat)
    requires Inv(s) && Enabled(s, Commit(d)) && s.txs[d].phase.Recorded?
    ensures Inv(Apply(s, Commit(d)))
  {
    hide Apart, Undisturbed;
    var later, phase := Apply(s, Commit(d)), s.txs[d].phase;
    assert TxInv(s, s.txs[d]);
    assert forall other :: later.IsProcessed(other) == s.IsProcessed(other);
    forall other | other in later.rows
      ensures RowInv(later, other)
    {
      assert RowInv(s, other);
      BeforeStays(s, later, other);
    }
    forall other
      ensures EffectsInv(later, other)
    {
      assert EffectsInv(s, other);
    }
    forall e | e in later.txs
      ensures Undisturbed(s, later, later.txs[e].phase)
    {
      RecordUndisturbs(s, d, e);
    }
    RowsMove(s, later);
  }

  /** A mark of `id`, pending in transaction `d`, by a dispatcher or an operator. */
  ghost predicate Marks(phase: Phase, id: Identity, at: nat, woken: set<Identity>) {
    phase == Resolved(id, at, woken) || (phase.Marked? && phase.id == id && phase.at == at && phase.woken == woken)
  }

  lemma MarkedRowsAre(s: State, d: nat, id: Identity, at: nat, woken: set<Identity>, other: Identity)
    requires Inv(s) && d in s.txs && Marks(s.txs[d].phase, id, at, woken)
    ensures var later := Apply(s, Commit(d));
            && later.rows.Keys == s.rows.Keys && id in s.rows && s.rows[id].processed.None? && s.rows[id].waiting.None?
            && id !in s.byHand
            && later.IsProcessed(other) == (s.IsProcessed(other) || other == id)
            && (other in s.rows ==>
                  && later.rows[other].dependencies == s.rows[other].dependencies && later.rows[other].slot == s.rows[other].slot
                  && later.rows[other].received == s.rows[other].received
                  && later.rows[other].waiting == (if s.rows[other].waiting == Some(id) then None else s.rows[other].waiting)
                  && later.rows[other].processed == (if other == id then Some(at) else s.rows[other].processed)
                  && later.rows[other].parked == (other != id && s.rows[other].parked))
            && (other in s.rows && other != id && s.rows[other].waiting != Some(id) ==> later.rows[other] == s.rows[other])
  {
    hide Apart;
    assert TxInv(s, s.txs[d]) && RowInv(s, id) && EffectsInv(s, id);
  }

  lemma MarkUndisturbs(s: State, d: nat, id: Identity, at: nat, woken: set<Identity>, e: nat)
    requires Inv(s) && d in s.txs && e in s.txs && d != e && Marks(s.txs[d].phase, id, at, woken)
    ensures Undisturbed(s, Apply(s, Commit(d)), s.txs[e].phase)
  {
    hide RowInv, EffectsInv, Apart, MarkedRows;
    var later, phase := Apply(s, Commit(d)), s.txs[e].phase;
    assert TxInv(s, s.txs[d]) && TxInv(s, s.txs[e]);
    forall other
      ensures other != id ==> WaitingFor(later, other) == WaitingFor(s, other)
      ensures other in s.rows && other != id && s.rows[other].waiting != Some(id) ==> RowStays(s, later, other)
      ensures later.IsProcessed(other) == (s.IsProcessed(other) || other == id)
    {
      MarkedRowsAre(s, d, id, at, woken, other);
      if other != id {
        SameWaits(s, d, id, at, woken, other);
      }
    }
    if phase.HasHead() && s.txs[d].phase.Marked? {
      HeadsDiffer(s, d, e);
    }
    if phase.SetAside? && phase.dependency == id {
      WaitExcludesMark(s, e, d, id);
    }
    if phase.Resolved? {
      ResolveExcludesMark(s, d, e, id, at, woken);
      ParkedDoesNotWait(s, phase.resolves);
    }
    MarkedRowsAre(s, d, id, at, woken, id);
  }

  lemma ParkedDoesNotWait(s: State, id: Identity)
    requires Inv(s) && id in s.rows && s.rows[id].parked
    ensures s.rows[id].waiting.None?
  {
    assert RowInv(s, id);
  }

  lemma SameWaits(s: State, d: nat, id: Identity, at: nat, woken: set<Identity>, other: Identity)
    requires Inv(s) && d in s.txs && Marks(s.txs[d].phase, id, at, woken) && other != id
    ensures WaitingFor(Apply(s, Commit(d)), other) == WaitingFor(s, other)
  {
    hide Inv;
    forall r
      ensures r in WaitingFor(Apply(s, Commit(d)), other) <==> r in WaitingFor(s, other)
    {
      MarkedRowsAre(s, d, id, at, woken, r);
    }
  }

  /** A row is not resolved while it is marked, or resolved twice at once. */
  lemma ResolveExcludesMark(s: State, d: nat, e: nat, id: Identity, at: nat, woken: set<Identity>)
    requires Inv(s) && d in s.txs && e in s.txs && d != e && Marks(s.txs[d].phase, id, at, woken)
    ensures !(s.txs[e].phase.Resolved? && s.txs[e].phase.resolves == id)
  {
    hide EffectsInv, RowInv;
    assert TxInv(s, s.txs[d]) && TxInv(s, s.txs[e]) && Apart(s, s.txs[d].phase, s.txs[e].phase);
    assert s.txs[d].phase.Resolved? ==> HoldsIdentity(s.txs[d].phase, s.slots, id);
    assert s.txs[e].phase.Resolved? ==> HoldsIdentity(s.txs[e].phase, s.slots, s.txs[e].phase.resolves);
  }

  lemma MarkedRowIsFine(s: State, d: nat, id: Identity, at: nat, woken: set<Identity>, other: Identity)
    requires Inv(s) && d in s.txs && Marks(s.txs[d].phase, id, at, woken) && other in s.rows
    requires MarksStay(s, Apply(s, Commit(d)))
    ensures other in Apply(s, Commit(d)).rows && RowInv(Apply(s, Commit(d)), other)
  {
    hide Apart, EffectsInv, MarkedRows;
    var later := Apply(s, Commit(d));
    assert RowInv(s, other) && TxInv(s, s.txs[d]);
    MarkedRowsAre(s, d, id, at, woken, other);
    BeforeStays(s, later, other);
    if s.rows[other].waiting.Some? {
      MarkedRowsAre(s, d, id, at, woken, s.rows[other].waiting.value);
    }
  }

  lemma MarkedEffectsAreFine(s: State, d: nat, id: Identity, at: nat, woken: set<Identity>, other: Identity)
    requires Inv(s) && d in s.txs && Marks(s.txs[d].phase, id, at, woken)
    ensures EffectsInv(Apply(s, Commit(d)), other)
  {
    hide Apart, RowInv, MarkedRows;
    assert EffectsInv(s, other) && EffectsInv(s, id) && TxInv(s, s.txs[d]);
    MarkedRowsAre(s, d, id, at, woken, other);
  }

  lemma CommitMarkKeeps(s: State, d: nat, id: Identity, at: nat, woken: set<Identity>)
    requires Inv(s) && Enabled(s, Commit(d)) && Marks(s.txs[d].phase, id, at, woken)
    ensures Inv(Apply(s, Commit(d)))
  {
    hide Apart, Undisturbed, RowInv, EffectsInv, MarkedRows;
    var later := Apply(s, Commit(d));
    forall other
      ensures s.IsProcessed(other) ==> later.IsProcessed(other) && later.rows[other].processed == s.rows[other].processed
      ensures other in later.rows ==> other in s.rows
    {
      MarkedRowsAre(s, d, id, at, woken, other);
    }
    forall other | other in later.rows
      ensures RowInv(later, other)
    {
      MarkedRowIsFine(s, d, id, at, woken, other);
    }
    forall other
      ensures EffectsInv(later, other)
    {
      MarkedEffectsAreFine(s, d, id, at, woken, other);
    }
    forall e | e in later.txs
      ensures Undisturbed(s, later, later.txs[e].phase)
    {
      MarkUndisturbs(s, d, id, at, woken, e);
    }
    RowsMove(s, later);
  }

  lemma CommitKeeps(s: State, d: nat)
    requires Inv(s) && Enabled(s, Commit(d))
    ensures Inv(Apply(s, Commit(d)))
  {
    hide Inv;
    match s.txs[d].phase
    case SetAside(_, _, _) => CommitWaitKeeps(s, d);
    case Recorded(_, _, _, _) => CommitFailureKeeps(s, d);
    case Marked(_, id, at, woken) => CommitMarkKeeps(s, d, id, at, woken);
    case Resolved(id, at, woken) => CommitMarkKeeps(s, d, id, at, woken);
  }

  lemma UnparkKeeps(s: State, id: Identity)
    requires Inv(s) && Enabled(s, Unpark(id))
    ensures Inv(Apply(s, Unpark(id)))
  {
    hide Apart;
    var later := Apply(s, Unpark(id));
    assert forall other :: later.IsProcessed(other) == s.IsProcessed(other);
    assert forall other :: WaitingFor(later, other) == WaitingFor(s, other);
    forall other | other in later.rows
      ensures RowInv(later, other)
    {
      assert RowInv(s, other);
      BeforeStays(s, later, other);
    }
    forall other
      ensures EffectsInv(later, other)
    {
      assert EffectsInv(s, other);
    }
    forall d | d in later.txs
      ensures Undisturbed(s, later, later.txs[d].phase)
    {
      assert TxInv(s, s.txs[d]);
    }
    RowsMove(s, later);
  }

  lemma ExpireUndisturbs(s: State, ids: set<Identity>, d: nat)
    requires Inv(s) && Enabled(s, Expire(ids)) && d in s.txs
    ensures Undisturbed(s, Apply(s, Expire(ids)), s.txs[d].phase)
  {
    hide Apart, EffectsInv, RowInv;
    var later, phase := Apply(s, Expire(ids)), s.txs[d].phase;
    assert TxInv(s, s.txs[d]);
    forall x | (phase.Marked? && x == phase.id) || (phase.Resolved? && x == phase.resolves)
      ensures WaitingFor(later, x) == WaitingFor(s, x)
    {
      assert forall r :: r in WaitingFor(s, x) ==> LocksRow(phase, r);
    }
    if phase.HasHead() {
      assert LocksRow(phase, phase.id);
    }
    if phase.Resolved? {
      assert LocksRow(phase, phase.resolves);
    }
  }

  lemma ExpireKeeps(s: State, ids: set<Identity>)
    requires Inv(s) && Enabled(s, Expire(ids))
    ensures Inv(Apply(s, Expire(ids)))
  {
    hide Apart, Undisturbed;
    var later := Apply(s, Expire(ids));
    forall other | other in s.rows
      ensures later.IsProcessed(other) == s.IsProcessed(other)
    {
      assert RowInv(s, other);
    }
    forall other | other in later.rows
      ensures RowInv(later, other)
    {
      assert RowInv(s, other);
      BeforeStays(s, later, other);
    }
    forall other
      ensures EffectsInv(later, other)
    {
      assert EffectsInv(s, other);
    }
    forall d | d in later.txs
      ensures Undisturbed(s, later, later.txs[d].phase)
    {
      ExpireUndisturbs(s, ids, d);
    }
    RowsMove(s, later);
  }

  /** The invariant is kept by every step. */
  lemma StepKeeps(s: State, step: Step)
    requires Inv(s) && Enabled(s, step)
    ensures Inv(Apply(s, step))
  {
    hide Inv;
    match step
    case Receive(id, slot, received, dependencies) => ReceiveKeeps(s, id, slot, received, dependencies);
    case Take(d, slot) => TakeKeeps(s, d, slot);
    case ReadHead(d, head, deferred) => ReadHeadKeeps(s, d, head, deferred);
    case Check(d) => CheckKeeps(s, d);
    case LockDependency(d) => LockDependencyKeeps(s, d);
    case SetWaiting(d) => SetWaitingKeeps(s, d);
    case Handle(d, accepted, permanent) => HandleKeeps(s, d, accepted, permanent);
    case LockOwn(d) => LockOwnKeeps(s, d);
    case Mark(d) => MarkKeeps(s, d);
    case Record(d) => RecordKeeps(s, d);
    case Commit(d) => CommitKeeps(s, d);
    case RollBack(d) => TxEnds(s, d);
    case LockResolved(d, id) => LockResolvedKeeps(s, d, id);
    case Resolve(d) => ResolveKeeps(s, d);
    case Unpark(id) => UnparkKeeps(s, id);
    case Expire(ids) => ExpireKeeps(s, ids);
  }
}
