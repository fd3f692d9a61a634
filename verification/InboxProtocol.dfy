/** The inbox as a protocol: the statements its dispatchers and operators run against
    PostgreSQL, each under a snapshot of its own, with the locks their transactions hold to
    their end. What a transaction wrote is seen by the others once it commits. */
module InboxProtocol {
  import opened Options

  /** A message's identity, the key of its row. */
  datatype Identity = Identity(tenant: string, streamType: string, streamId: string, position: int)

  /** A row as committed. `waited` and `outcomes` are its history: the dependencies it was ever
      set aside for, and how many dispatches committed an outcome of it. */
  datatype Row = Row(slot: nat, received: nat, dependencies: seq<Identity>,
                     waiting: Option<Identity>, processed: Option<nat>, attempts: nat, parked: bool,
                     waited: set<Identity>, outcomes: nat)
  {
    /** Neither processed, parked nor waiting. */
    predicate InQueue() {
      processed.None? && !parked && waiting.None?
    }
  }

  /** How far a transaction has got. A dispatcher's took a slot; read its head, and found so
      many of its dependencies processed, or one that is not, locked that one's identity, and
      set the head aside; or ran the subscriber, and marked the head or recorded the failure.
      An operator's locked the identity it resolves, and marked it. */
  datatype Phase =
    | Taken(slot: nat)
    | Headed(slot: nat, id: Identity, checked: nat)
    | Blocked(slot: nat, id: Identity, dependency: Identity)
    | Locked(slot: nat, id: Identity, dependency: Identity)
    | SetAside(slot: nat, id: Identity, dependency: Identity)
    | Handled(slot: nat, id: Identity)
    | Refused(slot: nat, id: Identity, permanent: bool)
    | MarkLocked(slot: nat, id: Identity)
    | Marked(slot: nat, id: Identity, at: nat, woken: set<Identity>)
    | Recorded(slot: nat, id: Identity, attempts: nat, parked: bool)
    | Resolving(resolves: Identity)
    | Resolved(resolves: Identity, at: nat, woken: set<Identity>)
  {
    predicate OfDispatcher() {
      !Resolving? && !Resolved?
    }

    predicate HasHead() {
      OfDispatcher() && !Taken?
    }
  }

  /** A transaction in progress: its phase, and how many runs of the subscriber left their
      effects in it. */
  datatype Tx = Tx(phase: Phase, effects: nat)

  /** `txs` are the transactions in progress, by session. `effects[id]` counts the runs of the
      subscriber on `id` whose effects are durable; `byHand` are the rows operators resolved. */
  datatype State = State(slots: nat, maxAttempts: nat, rows: map<Identity, Row>, next: nat, txs: map<nat, Tx>,
                         effects: map<Identity, nat>, byHand: set<Identity>)
  {
    predicate IsProcessed(id: Identity) {
      id in rows && rows[id].processed.Some?
    }

    predicate IsQueued(id: Identity) {
      id in rows && rows[id].InQueue()
    }

    function Effects(id: Identity): nat {
      if id in effects then effects[id] else 0
    }
  }

  // Locks, as the phases of the transactions that hold them.

  predicate HoldsSlot(phase: Phase, slot: nat) {
    phase.OfDispatcher() && phase.slot == slot
  }

  /** The advisory lock on an identity: a wait holds its dependency's, a mark its own row's
      where there is more than one slot, a resolve its row's. */
  predicate HoldsIdentity(phase: Phase, slots: nat, id: Identity) {
    match phase
    case Locked(_, _, dependency) => dependency == id
    case SetAside(_, _, dependency) => dependency == id
    case MarkLocked(_, own) => own == id
    case Marked(_, own, _, _) => slots > 1 && own == id
    case Resolving(own) => own == id
    case Resolved(own, _, _) => own == id
    case _ => false
  }

  /** The row is locked: a head, a row a mark or a resolve wrote. */
  predicate LocksRow(phase: Phase, id: Identity) {
    || (phase.HasHead() && phase.id == id)
    || (phase.Marked? && id in phase.woken)
    || (phase.Resolved? && (phase.resolves == id || id in phase.woken))
  }

  predicate SlotIsFree(s: State, slot: nat) {
    forall d :: d in s.txs ==> !HoldsSlot(s.txs[d].phase, slot)
  }

  predicate IdentityIsFree(s: State, id: Identity) {
    forall d :: d in s.txs ==> !HoldsIdentity(s.txs[d].phase, s.slots, id)
  }

  predicate RowIsFree(s: State, id: Identity) {
    forall d :: d in s.txs ==> !LocksRow(s.txs[d].phase, id)
  }

  /** The head of a slot: the oldest row of its queue. */
  predicate IsHead(s: State, slot: nat, id: Identity) {
    && s.IsQueued(id) && s.rows[id].slot == slot
    && forall other :: other in s.rows && s.IsQueued(other) && s.rows[other].slot == slot ==>
         s.rows[id].received <= s.rows[other].received
  }

  /** The committed rows that wait for `id`. */
  function WaitingFor(s: State, id: Identity): set<Identity> {
    set r | r in s.rows && s.rows[r].waiting == Some(id)
  }

  // The steps. `d` is the session.

  datatype Step =
    // committed with a position drawn then or before: rows may come out of their order
    | Receive(id: Identity, slot: nat, received: nat, dependencies: seq<Identity>)
    // a dispatcher
    | Take(d: nat, slot: nat)
    | ReadHead(d: nat, head: Option<Identity>, deferred: bool)
    | Check(d: nat)
    | LockDependency(d: nat)
    | SetWaiting(d: nat)
    | Handle(d: nat, accepted: bool, permanent: bool)
    | LockOwn(d: nat)
    | Mark(d: nat)
    | Record(d: nat)
    | Commit(d: nat)
    | RollBack(d: nat)
    // operators, and the expiry of waits
    | LockResolved(d: nat, id: Identity)
    | Resolve(d: nat)
    | Unpark(id: Identity)
    | Expire(ids: set<Identity>)

  predicate At(s: State, d: nat) {
    d in s.txs
  }

  /** All of the head's dependencies were found processed. */
  predicate IsReady(s: State, phase: Phase) {
    phase.Headed? && phase.id in s.rows && phase.checked == |s.rows[phase.id].dependencies|
  }

  predicate Enabled(s: State, step: Step) {
    match step
    case Receive(id, slot, received, _) => id !in s.rows && slot < s.slots && received <= s.next
                                           && forall other :: other in s.rows ==> s.rows[other].received != received
    case Take(d, slot) => d !in s.txs && slot < s.slots && SlotIsFree(s, slot)
    case ReadHead(d, head, _) =>
      && At(s, d) && s.txs[d].phase.Taken?
      && (if head.Some? then IsHead(s, s.txs[d].phase.slot, head.value)
          else forall id :: id in s.rows ==> !(s.IsQueued(id) && s.rows[id].slot == s.txs[d].phase.slot))
    case Check(d) => At(s, d) && s.txs[d].phase.Headed? && s.txs[d].phase.id in s.rows
                     && s.txs[d].phase.checked < |s.rows[s.txs[d].phase.id].dependencies|
    case LockDependency(d) => At(s, d) && s.txs[d].phase.Blocked? && IdentityIsFree(s, s.txs[d].phase.dependency)
    case SetWaiting(d) => At(s, d) && s.txs[d].phase.Locked?
    case Handle(d, _, _) => At(s, d) && IsReady(s, s.txs[d].phase)
    case LockOwn(d) => At(s, d) && s.txs[d].phase.Handled? && s.slots > 1 && IdentityIsFree(s, s.txs[d].phase.id)
    case Mark(d) => At(s, d) && (s.txs[d].phase.MarkLocked? || (s.txs[d].phase.Handled? && s.slots <= 1))
    case Record(d) => At(s, d) && s.txs[d].phase.Refused? && s.txs[d].phase.id in s.rows
    case Commit(d) => At(s, d) && (s.txs[d].phase.SetAside? || s.txs[d].phase.Marked?
                                   || s.txs[d].phase.Recorded? || s.txs[d].phase.Resolved?)
    case RollBack(d) => At(s, d)
    case LockResolved(d, id) => d !in s.txs && IdentityIsFree(s, id)
    case Resolve(d) => At(s, d) && s.txs[d].phase.Resolving? && RowIsFree(s, s.txs[d].phase.resolves)
    case Unpark(id) => RowIsFree(s, id)
    case Expire(ids) => forall id :: id in ids ==> id in s.rows && s.rows[id].waiting.Some? && RowIsFree(s, id)
  }

  function WithPhase(s: State, d: nat, phase: Phase): State
    requires At(s, d)
  {
    s.(txs := s.txs[d := s.txs[d].(phase := phase)])
  }

  function Ended(s: State, d: nat): State {
    s.(txs := s.txs - {d})
  }

  /** The rows with a mark committed: `id` processed, and what waited for it back in the queue. */
  function MarkedRows(s: State, id: Identity, at: nat, woken: set<Identity>): map<Identity, Row> {
    map r | r in s.rows ::
      var row := if r in woken then s.rows[r].(waiting := None) else s.rows[r];
      if r == id then row.(processed := Some(at), parked := false) else row
  }

  /** What a committed transaction makes durable. */
  function Committed(s: State, tx: Tx): (later: State) {
    match tx.phase
    case SetAside(_, id, dependency) =>
      if id !in s.rows then s else
        var row := s.rows[id];
        s.(rows := s.rows[id := row.(waiting := Some(dependency), waited := row.waited + {dependency}, outcomes := row.outcomes + 1)])
    case Marked(_, id, at, woken) =>
      if id !in s.rows then s else
        var rows := MarkedRows(s, id, at, woken);
        s.(rows := rows[id := rows[id].(outcomes := s.rows[id].outcomes + 1)],
           effects := s.effects[id := s.Effects(id) + tx.effects])
    case Recorded(_, id, attempts, parked) =>
      if id !in s.rows then s else
        var row := s.rows[id];
        s.(rows := s.rows[id := row.(attempts := attempts, parked := parked, outcomes := row.outcomes + 1)],
           effects := s.effects[id := s.Effects(id) + tx.effects])
    case Resolved(id, at, woken) => s.(rows := MarkedRows(s, id, at, woken), byHand := s.byHand + {id})
    case _ => s
  }

  function Apply(s: State, step: Step): (later: State)
    requires Enabled(s, step)
  {
    match step
    case Receive(id, slot, received, dependencies) =>
      s.(rows := s.rows[id := Row(slot, received, dependencies, None, None, 0, false, {}, 0)],
         next := if received == s.next then s.next + 1 else s.next)
    case Take(d, slot) => s.(txs := s.txs[d := Tx(Taken(slot), 0)])
    case ReadHead(d, head, deferred) =>
      if head.None? || deferred then Ended(s, d) else WithPhase(s, d, Headed(s.txs[d].phase.slot, head.value, 0))
    case Check(d) =>
      var phase := s.txs[d].phase;
      var dependency := s.rows[phase.id].dependencies[phase.checked];
      WithPhase(s, d, if s.IsProcessed(dependency) then phase.(checked := phase.checked + 1)
                      else Blocked(phase.slot, phase.id, dependency))
    case LockDependency(d) =>
      var phase := s.txs[d].phase;
      WithPhase(s, d, Locked(phase.slot, phase.id, phase.dependency))
    case SetWaiting(d) =>
      var phase := s.txs[d].phase;
      if s.IsProcessed(phase.dependency) then Ended(s, d)
      else WithPhase(s, d, SetAside(phase.slot, phase.id, phase.dependency))
    case Handle(d, accepted, permanent) =>
      var tx := s.txs[d];
      // a refusal rolls its effects back to the savepoint
      s.(txs := s.txs[d := if accepted then Tx(Handled(tx.phase.slot, tx.phase.id), tx.effects + 1)
                           else Tx(Refused(tx.phase.slot, tx.phase.id, permanent), tx.effects)])
    case LockOwn(d) =>
      var phase := s.txs[d].phase;
      WithPhase(s, d, MarkLocked(phase.slot, phase.id))
    case Mark(d) =>
      var phase := s.txs[d].phase;
      WithPhase(s, d, Marked(phase.slot, phase.id, s.next, WaitingFor(s, phase.id))).(next := s.next + 1)
    case Record(d) =>
      var phase := s.txs[d].phase;
      var attempts := s.rows[phase.id].attempts + 1;
      WithPhase(s, d, Recorded(phase.slot, phase.id, attempts,
                               phase.permanent || (s.maxAttempts > 0 && attempts >= s.maxAttempts)))
    case Commit(d) => Ended(Committed(s, s.txs[d]), d)
    case RollBack(d) => Ended(s, d)
    case LockResolved(d, id) => s.(txs := s.txs[d := Tx(Resolving(id), 0)])
    case Resolve(d) =>
      var id := s.txs[d].phase.resolves;
      if id in s.rows && s.rows[id].parked then
        WithPhase(s, d, Resolved(id, s.next, WaitingFor(s, id))).(next := s.next + 1)
      else Ended(s, d)
    case Unpark(id) =>
      if id in s.rows && s.rows[id].parked then s.(rows := s.rows[id := s.rows[id].(parked := false, attempts := 0)]) else s
    case Expire(ids) => s.(rows := ExpiredRows(s, ids))
  }

  function ExpiredRows(s: State, ids: set<Identity>): map<Identity, Row> {
    map r | r in s.rows :: if r in ids then s.rows[r].(parked := true, waiting := None) else s.rows[r]
  }

  /** An inbox as its migrations leave it. */
  predicate Initial(s: State) {
    && 1 <= s.slots && s.rows == map[] && s.txs == map[] && s.effects == map[] && s.byHand == {}
  }
}
