/** What every step of the inbox keeps. */
module InboxInvariant {
  import opened InboxProtocol

  /** Every dependency of the row is processed, before position `at`. */
  ghost predicate DependenciesBefore(s: State, id: Identity, at: nat)
    requires id in s.rows
  {
    forall dependency :: dependency in s.rows[id].dependencies ==>
      s.IsProcessed(dependency) && s.rows[dependency].processed.value < at
  }

  ghost predicate RowInv(s: State, id: Identity)
    requires id in s.rows
  {
    var row := s.rows[id];
    && row.slot < s.slots && row.received < s.next
    && (row.waiting.Some? ==>
          && row.processed.None? && !row.parked
          && row.waiting.value in row.dependencies && !s.IsProcessed(row.waiting.value))
    && (row.processed.Some? ==> !row.parked && row.processed.value < s.next)
    && (row.processed.Some? && id !in s.byHand ==> DependenciesBefore(s, id, row.processed.value))
  }

  /** The subscriber's effects are durable once, exactly where a dispatcher's mark is. */
  ghost predicate EffectsInv(s: State, id: Identity) {
    && s.Effects(id) == (if s.IsProcessed(id) && id !in s.byHand then 1 else 0)
    && (id in s.byHand ==> s.IsProcessed(id))
  }

  /** A dispatcher's head is still in the queue of the slot it holds. */
  ghost predicate HeadInv(s: State, phase: Phase)
    requires phase.HasHead()
  {
    phase.slot < s.slots && s.IsQueued(phase.id) && s.rows[phase.id].slot == phase.slot
  }

  ghost predicate PhaseInv(s: State, phase: Phase) {
    && (phase.HasHead() ==> HeadInv(s, phase))
    && match phase
       case Taken(slot) => slot < s.slots
       case Headed(_, id, checked) =>
         && checked <= |s.rows[id].dependencies|
         && forall i :: 0 <= i < checked ==> s.IsProcessed(s.rows[id].dependencies[i])
       case Blocked(_, id, dependency) => dependency in s.rows[id].dependencies
       case Locked(_, id, dependency) => dependency in s.rows[id].dependencies
       case SetAside(_, id, dependency) => dependency in s.rows[id].dependencies && !s.IsProcessed(dependency)
       case Handled(_, id) => DependenciesBefore(s, id, s.next)
       case Refused(_, _, _) => true
       case MarkLocked(_, id) => DependenciesBefore(s, id, s.next)
       case Marked(_, id, at, woken) => at < s.next && DependenciesBefore(s, id, at) && woken == WaitingFor(s, id)
       case Recorded(_, id, attempts, parked) =>
         && attempts == s.rows[id].attempts + 1
         && (s.maxAttempts > 0 && attempts >= s.maxAttempts ==> parked)
       case Resolving(_) => true
       case Resolved(id, at, woken) =>
         && id in s.rows && s.rows[id].parked && at < s.next && woken == WaitingFor(s, id)
  }

  ghost predicate TxInv(s: State, tx: Tx) {
    PhaseInv(s, tx.phase)
    && tx.effects == (if tx.phase.Handled? || tx.phase.MarkLocked? || tx.phase.Marked? then 1 else 0)
  }

  /** No slot has two dispatchers, and no identity two holders. */
  ghost predicate Apart(s: State, one: Phase, other: Phase) {
    && (one.OfDispatcher() && other.OfDispatcher() ==> one.slot != other.slot)
    && (forall id :: !(HoldsIdentity(one, s.slots, id) && HoldsIdentity(other, s.slots, id)))
  }

  ghost predicate Inv(s: State) {
    && 1 <= s.slots
    && (forall id :: id in s.rows ==> RowInv(s, id))
    && (forall id :: EffectsInv(s, id))
    && (forall d :: d in s.txs ==> TxInv(s, s.txs[d]))
    && (forall d, e :: d in s.txs && e in s.txs && d != e ==> Apart(s, s.txs[d].phase, s.txs[e].phase))
  }

  lemma InitialHolds(s: State)
    requires Initial(s)
    ensures Inv(s)
  {
  }

  // A transaction goes on, and no row changes.

  lemma RowsStay(s: State, later: State)
    requires later.rows == s.rows && later.byHand == s.byHand && later.effects == s.effects && s.next <= later.next
    requires later.slots == s.slots && later.maxAttempts == s.maxAttempts
    ensures forall id :: id in s.rows && RowInv(s, id) ==> RowInv(later, id)
    ensures forall id :: EffectsInv(s, id) ==> EffectsInv(later, id)
    ensures forall tx :: TxInv(s, tx) ==> TxInv(later, tx)
    ensures forall id, at :: id in s.rows && DependenciesBefore(s, id, at) ==> DependenciesBefore(later, id, at)
  {
    assert forall id :: WaitingFor(later, id) == WaitingFor(s, id);
    assert forall id :: later.IsProcessed(id) == s.IsProcessed(id);
  }

  /** What a transaction may become: apart from every other as it was. */
  ghost predicate StaysApart(s: State, d: nat, phase: Phase) {
    forall e :: e in s.txs && e != d ==> Apart(s, phase, s.txs[e].phase) && Apart(s, s.txs[e].phase, phase)
  }

  lemma TxGoesOn(s: State, later: State, d: nat, tx: Tx)
    requires Inv(s) && later == s.(txs := s.txs[d := tx], next := later.next) && s.next <= later.next
    requires TxInv(later, tx) && StaysApart(s, d, tx.phase)
    ensures Inv(later)
  {
    hide RowInv, EffectsInv, TxInv, Apart;
    RowsStay(s, later);
    forall e, f | e in later.txs && f in later.txs && e != f
      ensures Apart(later, later.txs[e].phase, later.txs[f].phase)
    {
      ApartStays(s, later, later.txs[e].phase, later.txs[f].phase);
    }
  }

  lemma ApartStays(s: State, later: State, one: Phase, other: Phase)
    requires later.slots == s.slots
    ensures Apart(later, one, other) == Apart(s, one, other)
  {
  }

  lemma TxEnds(s: State, d: nat)
    requires Inv(s)
    ensures Inv(Ended(s, d))
  {
    hide RowInv, EffectsInv, TxInv, Apart;
    var later := Ended(s, d);
    RowsStay(s, later);
    forall e, f | e in later.txs && f in later.txs && e != f
      ensures Apart(later, later.txs[e].phase, later.txs[f].phase)
    {
      ApartStays(s, later, s.txs[e].phase, s.txs[f].phase);
    }
  }
}
