/** The relay's dispatch as its statements run, one after another, with whatever others do
    between them; the operator's move of a selection; and a pass of the reclamation. */
module OutboxDispatch {
  import opened Snapshots
  import opened Rings
  import opened Ascending
  import opened OutboxDatabase
  import opened Options
  import opened OutboxRelay
  import opened OutboxProtocol
  import opened OutboxInvariant
  import opened OutboxSteps
  import opened OutboxTheorems

  /** How a dispatch ends: a batch committed; no slot with work; the batch rolled back, its
      subscriber having failed; or waiting for the reclamation's key to make its positions. */
  datatype Outcome = Delivered(slot: nat) | Idle | SubscriberFailed(slot: nat) | Waiting

  /** A step of the dispatcher that holds, or takes, position row `k`. */
  predicate IsOfDispatcher(step: Step, k: Key) {
    match step
    case Look(j) => j == k
    case TakeSnapshot(j, _) => j == k
    case StartEpoch(j, _) => j == k
    case ReadTheBatch(j, _) => j == k
    case Tell(j) => j == k
    case Ack(j) => j == k
    case RollBack(j) => j == k
    case _ => false
  }

  /** While a dispatcher holds a position row nobody else changes it, or tells its subscriber
      anything: moves wait for the row, and it is not forgotten. */
  lemma OthersLeaveIt(s: State, step: Step, k: Key)
    requires s.db.Valid() && Enabled(s, step) && Working(s, k) && !IsOfDispatcher(step, k)
    ensures var later := Apply(s, step);
            && later.limit == s.limit && k in later.lanes && later.lanes[k] == s.lanes[k] && Heard(later, k) == Heard(s, k)
            && s.db.tx.bystanders <= later.db.tx.bystanders
  {
    hide Apply, Enabled;
    StepGrowsBystanders(s, step);
    OthersLeaveTheLane(s, step, k);
    OthersTellNothing(s, step, k);
  }

  lemma OthersTellNothing(s: State, step: Step, k: Key)
    requires s.db.Valid() && Enabled(s, step) && step != Tell(k)
    ensures Apply(s, step).limit == s.limit && Heard(Apply(s, step), k) == Heard(s, k)
  {
    hide NewPosition, ConvertedPosition, StartWork, ReadBatch, ShownRows, RewoundLanes, MovedLanes, MovedUnheard, AckedLane,
         Pinned, IsOldest, FoundNewest, IsClosed, WritersEnded, Emptied, Database.Valid, MayInsert, Begin, Insert, Commit, Abort,
         SelectionUnlocked, Unheard, Enabled;
  }

  lemma OthersLeaveTheLane(s: State, step: Step, k: Key)
    requires s.db.Valid() && Enabled(s, step) && Working(s, k) && !IsOfDispatcher(step, k)
    ensures k in Apply(s, step).lanes && Apply(s, step).lanes[k] == s.lanes[k]
  {
    hide NewPosition, ConvertedPosition, StartWork, ReadBatch, ShownRows, RewoundLane, MovedLane, MovedUnheard, AckedLane,
         Pinned, IsOldest, FoundNewest, IsClosed, WritersEnded, Emptied, Database.Valid, MayInsert, Begin, Insert, Commit, Abort;
  }

  /** A step of the transaction that holds the reclamation's key. */
  predicate IsOfKeyHolder(step: Step) {
    step.FinishNow? || (IsPassStep(step) && !step.BeginPass?) || step.Recheck? || step.Empty?
  }

  /** While the key is held, nothing is emptied but by its holder. */
  lemma OthersLeaveTheKey(s: State, step: Step)
    requires s.db.Valid() && Enabled(s, step) && !s.holder.Free? && !IsOfKeyHolder(step)
    ensures KeyIsHeld(s, Apply(s, step))
  {
    hide NewPosition, ConvertedPosition, StartWork, ReadBatch, ShownRows, RewoundLanes, MovedLanes, MovedUnheard, AckedLane,
         Pinned, IsOldest, FoundNewest, IsClosed, WritersEnded, Database.Valid, MayInsert, SelectionUnlocked;
  }

  /** Meanwhile the key stayed with its holder, and nothing was emptied. */
  predicate KeyIsHeld(before: State, after: State) {
    && after.holder == before.holder && after.margin == before.margin && after.db.table.ring == before.db.table.ring
    && after.db.table.gone == before.db.table.gone && after.db.table.intactFrom == before.db.table.intactFrom
  }

  /** What a committed batch leaves of a position. */
  predicate Moved(before: Position, after: Position, batch: seq<nat>, limit: nat) {
    if |batch| < limit then after.epoch == None
    else
      && batch != [] && after.delivered == before.delivered && after.epoch.Some?
      && after.epoch.value.offset == batch[|batch| - 1]
      && (before.epoch.Some? ==> after.epoch.value.snapshot == before.epoch.value.snapshot
                                 && after.epoch.value.handed == before.epoch.value.handed + batch)
  }

  /** The batch is of rows the position owed, and goes up by position. */
  ghost predicate WasOwed(db: Database, k: Key, before: Position, batch: seq<nat>) {
    && (forall p :: p in batch ==> Matches(db.table, k, p) && db.Landed(p) && !before.delivered.Sees(db.table.rows[p].xid))
    && (forall i, j :: 0 <= i < j < |batch| ==> batch[i] < batch[j])
  }

  // A look.

  /** The generations the positions of a selection without an epoch may find new rows in. */
  function LookNames(s: State, group: string, uri: string, now: Snapshot): set<nat>
    requires s.db.table.ring.Valid()
  {
    set k, g | k in s.lanes && k.group == group && k.uri == uri && s.lanes[k].position.epoch.None?
               && g in s.db.table.ring.GenerationsNew(s.lanes[k].position.delivered, now) :: g
  }

  /** The slot has a row, whatever its URI, that the statement sees and `delivered` could not:
      its id is not below the `xmax`, or was running then. */
  predicate HasNewRow(db: Database, statement: Snapshot, names: set<nat>, slot: nat, delivered: Snapshot)
    requires db.table.ring.Valid()
  {
    exists p :: p in db.table.rows && Readable(db, statement, p) && db.table.rows[p].slot == slot
                && db.table.GenerationOf(p) in names
                && (db.table.rows[p].xid >= delivered.xmax || db.table.rows[p].xid in delivered.xip)
  }

  /** The slot's position row can be taken, and has work. */
  predicate CanTake(s: State, k: Key, names: set<nat>, own: set<nat>)
    requires s.db.table.ring.Valid()
  {
    Unlocked(s, k)
    && (s.lanes[k].position.epoch.Some?
        || HasNewRow(s.db, s.db.tx.CurrentSnapshot(own), names, k.slot, s.lanes[k].position.delivered))
  }

  /** No slot of the selection has work that can be taken. */
  ghost predicate NoneToTake(s: State, group: string, uri: string, slots: nat, names: set<nat>, own: set<nat>)
    requires s.db.table.ring.Valid()
  {
    forall n: nat :: n < slots ==> !CanTake(s, Key(group, uri, n), names, own)
  }

  /** Nobody else does anything. */
  ghost predicate Quiet(others: nat -> seq<Step>) {
    forall n :: others(n) == []
  }

  /** A slot has a row its position did not deliver, readable under the earlier snapshot the
      names were worked out from: the look does not pass it by. */
  lemma LookMissesNothing(s: State, k: Key, own: set<nat>, now: Snapshot, p: nat)
    requires Inv(s) && Unlocked(s, k) && s.lanes[k].position.epoch.None? && own <= s.db.tx.bystanders
    requires Settled(s.db.tx, now) && s.db.Landed(p) && s.db.table.rows[p].slot == k.slot
    requires now.Sees(s.db.table.rows[p].xid) && !s.lanes[k].position.delivered.Sees(s.db.table.rows[p].xid)
    ensures CanTake(s, k, LookNames(s, k.group, k.uri, now), own)
  {
    hide InCommitOrder, HolderInv, WorkInv, EpochInv, ShownAreAccounted;
    assert LaneInv(s.db, k, s.lanes[k], s.limit, Heard(s, k), Unheard(s, k));
    var d, x := s.lanes[k].position.delivered, s.db.table.rows[p].xid;
    NamesAreSound(s.db.table.ring, d, now, x);
    CurrentContains(s.db.tx, own, now, x);
    assert s.db.table.GenerationOf(p) in LookNames(s, k.group, k.uri, now);
    assert Readable(s.db, s.db.tx.CurrentSnapshot(own), p);
  }

  /** A slot the look takes without an epoch has a row its position did not deliver. */
  lemma LookFindsWork(s: State, k: Key, names: set<nat>, own: set<nat>) returns (p: nat)
    requires Inv(s) && CanTake(s, k, names, own) && s.lanes[k].position.epoch.None?
    ensures s.db.Landed(p) && s.db.table.rows[p].slot == k.slot && p !in s.db.table.gone
    ensures !s.lanes[k].position.delivered.Sees(s.db.table.rows[p].xid)
  {
    hide InCommitOrder, HolderInv, WorkInv, EpochInv, ShownAreAccounted;
    assert LaneInv(s.db, k, s.lanes[k], s.limit, Heard(s, k), Unheard(s, k));
    var d := s.lanes[k].position.delivered;
    p :| p in s.db.table.rows && Readable(s.db, s.db.tx.CurrentSnapshot(own), p) && s.db.table.rows[p].slot == k.slot
         && s.db.table.GenerationOf(p) in names
         && (s.db.table.rows[p].xid >= d.xmax || s.db.table.rows[p].xid in d.xip);
  }

  /** Where a new position row begins: with the group's row for the empty URI, if it has one;
      failing that, where it shows nothing that is still in the ring. */
  predicate StartsWhere(before: State, after: State, k: Key, own: set<nat>)
    requires k in after.lanes
  {
    var everything := Key(k.group, "", k.slot);
    k !in before.lanes ==>
      after.lanes[k].position == if k.uri != "" && everything in before.lanes
                                 then Position(before.lanes[everything].position.delivered, None)
                                 else NewPosition(before.db, own)
  }

  /** The dispatcher holds the row as it was when taken. */
  predicate StillHolds(s: State, k: Key, before: State) {
    && k in before.lanes && Working(s, k) && s.limit == before.limit
    && s.lanes[k].position == before.lanes[k].position
    && s.lanes[k].accepted == before.lanes[k].accepted && s.lanes[k].skipped == before.lanes[k].skipped
  }

  lemma BatchWasOwed(s: State, k: Key)
    requires Inv(s) && Working(s, k) && s.lanes[k].work.value.Batched?
    ensures WasOwed(s.db, k, s.lanes[k].position, s.lanes[k].work.value.batch)
    ensures |s.lanes[k].work.value.batch| <= s.limit
  {
    hide InCommitOrder, HolderInv, ShownAreAccounted, ShowsTheGone, EpochInv, First, Slice;
    assert LaneInv(s.db, k, s.lanes[k], s.limit, Heard(s, k), Unheard(s, k));
    var d, work := s.lanes[k].position.delivered, s.lanes[k].work.value;
    var owed := Owed(s.db, k, d, work.epoch.snapshot);
    BatchIsOwed(owed, work.epoch.offset, s.db.table.nextPosition, s.limit, work.batch);
    SliceAscends(owed, work.epoch.offset + 1, s.db.table.nextPosition);
  }

  // What each of a dispatcher's statements does to the row it holds.

  lemma SnapshotStep(s: State, k: Key, own: set<nat>)
    requires s.db.Valid() && Working(s, k) && s.lanes[k].work.value.Looked? && own <= s.db.tx.bystanders
    requires s.lanes[k].position.epoch == None
    ensures Enabled(s, TakeSnapshot(k, own))
    ensures var later := Apply(s, TakeSnapshot(k, own));
            StillHolds(later, k, s) && Heard(later, k) == Heard(s, k) && later.db == s.db && later.lanes[k].work.value.Snapped?
  {
  }

  lemma StartStep(s: State, k: Key, own: set<nat>)
    requires s.db.Valid() && Working(s, k) && own <= s.db.tx.bystanders
    requires (s.lanes[k].work.value.Looked? && s.lanes[k].position.epoch.Some?) || s.lanes[k].work.value.Snapped?
    ensures Enabled(s, StartEpoch(k, own))
    ensures var later := Apply(s, StartEpoch(k, own));
            && StillHolds(later, k, s) && Heard(later, k) == Heard(s, k) && later.db == s.db
            && (later.lanes[k].work.value.Started? || (later.lanes[k].work.value.Nothing? && s.lanes[k].work.value.Snapped?))
            && (s.lanes[k].work.value.Looked? ==>
                  && later.lanes[k].work.value.epoch.snapshot == s.lanes[k].position.epoch.value.snapshot
                  && later.lanes[k].work.value.epoch.handed == s.lanes[k].position.epoch.value.handed)
  {
    hide LowestFirst, HighestLast, GenerationsFound, StartRows;
  }

  lemma ReadStep(s: State, k: Key, own: set<nat>)
    requires s.db.Valid() && Working(s, k) && own <= s.db.tx.bystanders && s.lanes[k].work.value.Started?
    ensures Enabled(s, ReadTheBatch(k, own))
    ensures var later := Apply(s, ReadTheBatch(k, own));
            && StillHolds(later, k, s) && Heard(later, k) == Heard(s, k) && later.db == s.db
            && later.lanes[k].work.value.Batched?
            && later.lanes[k].work == Some(Batched(s.lanes[k].work.value.epoch, later.lanes[k].work.value.batch, 0))
  {
    hide ReadBatch;
  }

  lemma TellStep(s: State, k: Key)
    requires s.db.Valid() && Working(s, k) && s.lanes[k].work.value.Batched?
    requires s.lanes[k].work.value.told < |s.lanes[k].work.value.batch|
    ensures Enabled(s, Tell(k))
    ensures var later, work := Apply(s, Tell(k)), s.lanes[k].work.value;
            && StillHolds(later, k, s) && Heard(later, k) == Heard(s, k) + [work.batch[work.told]]
            && later.lanes[k].work == Some(Batched(work.epoch, work.batch, work.told + 1))
  {
  }

  lemma RollBackStep(s: State, k: Key)
    requires s.db.Valid() && Working(s, k)
    ensures Enabled(s, RollBack(k))
    ensures var later := Apply(s, RollBack(k));
            later.lanes == s.lanes[k := s.lanes[k].(work := None)] && Heard(later, k) == Heard(s, k)
  {
  }

  lemma AckStep(s: State, k: Key)
    requires s.db.Valid() && Working(s, k) && 1 <= s.limit
    requires s.lanes[k].work.value.Nothing?
             || (s.lanes[k].work.value.Batched? && s.lanes[k].work.value.told == |s.lanes[k].work.value.batch|)
    ensures Enabled(s, Ack(k))
    ensures var later := Apply(s, Ack(k));
            later.db == s.db && later.limit == s.limit && later.lanes == s.lanes[k := AckedLane(s.lanes[k], s.limit)]
            && Heard(later, k) == Heard(s, k)
  {
  }

  /** The whole batch was accepted, it was owed, and the position moved by it. */
  ghost predicate WasDelivered(before: State, after: State, k: Key, batch: seq<nat>, subscriber: nat -> bool) {
    && k in before.lanes && k in after.lanes
    && Heard(after, k) == Heard(before, k) + batch && (forall p :: p in batch ==> subscriber(p))
    && after.lanes[k].accepted == before.lanes[k].accepted + (set p | p in batch)
    && WasOwed(after.db, k, before.lanes[k].position, batch)
    && Moved(before.lanes[k].position, after.lanes[k].position, batch, after.limit)
  }

  /** The subscriber failed at the last message told: the position is as it was. */
  ghost predicate WasRolledBack(before: State, after: State, k: Key, batch: seq<nat>, told: nat, subscriber: nat -> bool) {
    && k in before.lanes && k in after.lanes && 0 < told <= |batch|
    && Heard(after, k) == Heard(before, k) + batch[..told]
    && !subscriber(batch[told - 1]) && (forall i :: 0 <= i < told - 1 ==> subscriber(batch[i]))
    && after.lanes[k].position == before.lanes[k].position && after.lanes[k].accepted == before.lanes[k].accepted
  }

  /** The run came to `s`, from its state `first` on. */
  ghost predicate CameTo(run: seq<State>, first: nat, s: State) {
    exists i :: first <= i < |run| && run[i] == s
  }

  lemma RunsMeet(run: seq<State>, steps: seq<Step>)
    requires IsRun(run, steps)
    ensures |run| == |steps| + 1 && run[|run| - 1] == Last(run)
  {
  }

  lemma NoneWasOwed(db: Database, k: Key, before: Position)
    ensures WasOwed(db, k, before, [])
  {
  }

  class Relay {
    var state: State
    ghost var run: seq<State>
    ghost var steps: seq<Step>

    ghost predicate Valid()
      reads this
    {
      IsRun(run, steps) && Last(run) == state && Inv(state) && state.db.Valid() && 1 <= state.limit
    }

    constructor (ring: Ring, limit: nat, margin: nat)
      requires ring.Valid() && 1 <= limit
      ensures Valid() && steps == []
    {
      state := State(Database(Transactions(1, 0, map[], {}), Table(1, map[], map[], {}, 1, ring)), limit, margin,
                     map[], map[], map[], Free);
      run := [State(Database(Transactions(1, 0, map[], {}), Table(1, map[], map[], {}, 1, ring)), limit, margin,
                    map[], map[], map[], Free)];
      steps := [];
      new;
      InitialHolds(state);
    }

    /** One statement, whoever's. */
    method Do(step: Step)
      requires Valid() && Enabled(state, step)
      modifies this
      ensures Valid() && state == Apply(old(state), step) && steps == old(steps) + [step] && run == old(run) + [state]
    {
      hide LaneInv, InCommitOrder, HolderInv, Initial, Apply, Enabled;
      RunGoesOn(run, steps, step);
      StepKeeps(state, step);
      state, run, steps := Apply(state, step), run + [Apply(state, step)], steps + [step];
    }

    /** What others do before the next statement: of `script`, what can happen. The caller may
        hold a position row, and does what is left to the key's holder if there is one. */
    method Others(script: seq<Step>, held: Option<Key>)
      requires Valid()
      modifies this
      ensures Valid() && old(steps) <= steps && old(run) <= run && old(state.db.tx.bystanders) <= state.db.tx.bystanders
      ensures script == [] ==> state == old(state)
      ensures held.Some? && Working(old(state), held.value) ==>
                && held.value in state.lanes && state.lanes[held.value] == old(state.lanes[held.value])
                && Heard(state, held.value) == Heard(old(state), held.value) && state.limit == old(state.limit)
    {
      hide Apply, Enabled, IsRun, Inv;
      for i := 0 to |script|
        invariant Valid() && old(steps) <= steps && old(run) <= run && old(state.db.tx.bystanders) <= state.db.tx.bystanders
        invariant script == [] ==> state == old(state)
        invariant held.Some? && Working(old(state), held.value) ==>
                    && held.value in state.lanes && state.lanes[held.value] == old(state.lanes[held.value])
                    && Heard(state, held.value) == Heard(old(state), held.value) && state.limit == old(state.limit)
      {
        if (held.Some? ==> !IsOfDispatcher(script[i], held.value)) && Enabled(state, script[i]) {
          StepGrowsBystanders(state, script[i]);
          if held.Some? && Working(state, held.value) {
            OthersLeaveIt(state, script[i], held.value);
          }
          Do(script[i]);
        }
      }
    }

    /** What others can do while this caller has the key of the reclamation. */
    method Meanwhile(script: seq<Step>)
      requires Valid() && !state.holder.Free?
      modifies this
      ensures Valid() && old(steps) <= steps && old(run) <= run && old(state.db.tx.bystanders) <= state.db.tx.bystanders
      ensures KeyIsHeld(old(state), state) && (script == [] ==> state == old(state))
    {
      hide Apply, Enabled, IsRun, Inv;
      for i := 0 to |script|
        invariant Valid() && old(steps) <= steps && old(run) <= run && old(state.db.tx.bystanders) <= state.db.tx.bystanders
        invariant KeyIsHeld(old(state), state) && (script == [] ==> state == old(state))
      {
        if !IsOfKeyHolder(script[i]) && Enabled(state, script[i]) {
          StepGrowsBystanders(state, script[i]);
          OthersLeaveTheKey(state, script[i]);
          Do(script[i]);
        }
      }
    }

    /** A look: the names first, then the slot to take, if any has work; and whether the
        selection has positions at all. */
    method Take(group: string, uri: string, slots: nat, own: set<nat>, others: seq<Step>)
      returns (slot: Option<nat>, known: bool)
      requires Valid() && own <= state.db.tx.bystanders
      modifies this
      ensures Valid() && old(steps) <= steps && old(run) <= run && old(state.db.tx.bystanders) <= state.db.tx.bystanders
      ensures slot.Some? ==> slot.value < slots && Working(state, Key(group, uri, slot.value))
                             && state.lanes[Key(group, uri, slot.value)].work == Some(Looked)
      ensures slot.None? ==>
                NoneToTake(state, group, uri, slots, LookNames(old(state), group, uri, old(state.db.tx.CurrentSnapshot(own))), own)
      ensures known <==> exists k :: k in state.lanes && IsOf(k, group, uri)
      ensures others == [] && slot.None? ==> state == old(state)
    {
      hide Goes, Initial, LaneInv, InCommitOrder, HolderInv, LookNames, HasNewRow, RowsAreWritten, CommitsAreTimed, GoneRowsHadEnded;
      var names := LookNames(state, group, uri, state.db.tx.CurrentSnapshot(own));
      Others(others, None);
      known := exists k :: k in state.lanes && IsOf(k, group, uri);
      if chosen: nat :| chosen < slots && CanTake(state, Key(group, uri, chosen), names, own) {
        Do(Look(Key(group, uri, chosen)));
        slot := Some(chosen);
      } else {
        slot := None;
      }
    }

    method EnsurePosition(k: Key, own: set<nat>)
      requires Valid() && own <= state.db.tx.bystanders && state.holder.Free?
      modifies this
      ensures Valid() && old(steps) <= steps && old(run) <= run && state.db == old(state.db) && state.holder.Free?
      ensures k in state.lanes && StartsWhere(old(state), state, k, own)
      ensures forall j :: j != k ==> (j in state.lanes <==> j in old(state.lanes))
      ensures forall j :: j in old(state.lanes) ==> state.lanes[j] == old(state.lanes[j])
    {
      hide Inv, Goes, Initial;
      if k in state.lanes {
      } else if k.uri != "" && Key(k.group, "", k.slot) in state.lanes {
        Do(CreateLane(k));
      } else {
        Do(Create(k, own));
      }
    }

    /** Each slot of the group and URI given a position row, unless it had one. */
    method EnsurePositions(group: string, uri: string, slots: nat, own: set<nat>)
      requires Valid() && own <= state.db.tx.bystanders && state.holder.Free?
      modifies this
      ensures Valid() && old(steps) <= steps && old(run) <= run && state.db == old(state.db) && state.holder.Free?
      ensures forall k :: k in state.lanes <==> k in old(state.lanes) || (k.group == group && k.uri == uri && k.slot < slots)
      ensures forall k :: k in old(state.lanes) ==> state.lanes[k] == old(state.lanes[k])
      ensures forall k :: k in state.lanes ==> StartsWhere(old(state), state, k, own)
    {
      hide IsRun, Inv, NewPosition;
      for slot := 0 to slots
        invariant Valid() && old(steps) <= steps && old(run) <= run && state.db == old(state.db) && state.holder.Free?
        invariant forall k :: k in state.lanes <==> k in old(state.lanes) || (k.group == group && k.uri == uri && k.slot < slot)
        invariant forall k :: k in old(state.lanes) ==> state.lanes[k] == old(state.lanes[k])
        invariant forall k :: k in state.lanes ==> StartsWhere(old(state), state, k, own)
      {
        EnsurePosition(Key(group, uri, slot), own);
      }
    }

    /** The epoch of the row held: the one in flight, or a new one over what is new. */
    method StartTheEpoch(k: Key, own: set<nat>, others: nat -> seq<Step>, ghost before: State)
      requires Valid() && own <= state.db.tx.bystanders
      requires StillHolds(state, k, before) && state.lanes[k].work == Some(Looked)
      modifies this
      ensures Valid() && old(steps) <= steps && old(run) <= run && StillHolds(state, k, before) && own <= state.db.tx.bystanders
      ensures Heard(state, k) == Heard(old(state), k)
      ensures state.lanes[k].work.value.Started? || (state.lanes[k].work.value.Nothing? && before.lanes[k].position.epoch == None)
      ensures before.lanes[k].position.epoch.Some? && state.lanes[k].work.value.Started? ==>
                && state.lanes[k].work.value.epoch.snapshot == before.lanes[k].position.epoch.value.snapshot
                && state.lanes[k].work.value.epoch.handed == before.lanes[k].position.epoch.value.handed
    {
      hide IsRun, Inv, Apply, Enabled, Database.Valid, Last;
      if state.lanes[k].position.epoch == None {
        SnapshotStep(state, k, own);
        Do(TakeSnapshot(k, own));
        Others(others(0), Some(k));
      }
      StartStep(state, k, own);
      Do(StartEpoch(k, own));
      Others(others(1), Some(k));
    }

    method ReadABatch(k: Key, own: set<nat>, ghost before: State) returns (batch: seq<nat>)
      requires Valid() && own <= state.db.tx.bystanders
      requires StillHolds(state, k, before) && state.lanes[k].work.value.Started?
      modifies this
      ensures Valid() && old(steps) <= steps && old(run) <= run && StillHolds(state, k, before) && Heard(state, k) == Heard(old(state), k)
      ensures |batch| <= state.limit && WasOwed(state.db, k, before.lanes[k].position, batch)
      ensures state.lanes[k].work == Some(Batched(old(state).lanes[k].work.value.epoch, batch, 0))
    {
      hide IsRun, Inv, Apply, Enabled, Database.Valid, Last, WasOwed;
      ReadStep(state, k, own);
      Do(ReadTheBatch(k, own));
      batch := state.lanes[k].work.value.batch;
      BatchWasOwed(state, k);
    }

    /** The next message of the batch to the subscriber. */
    method TellOne(k: Key, batch: seq<nat>, told: nat, others: seq<Step>, ghost before: State)
      requires Valid() && StillHolds(state, k, before) && told < |batch|
      requires state.lanes[k].work.value.Batched? && state.lanes[k].work.value.batch == batch && state.lanes[k].work.value.told == told
      modifies this
      ensures Valid() && old(steps) <= steps && old(run) <= run && StillHolds(state, k, before)
      ensures state.lanes[k].work == Some(Batched(old(state).lanes[k].work.value.epoch, batch, told + 1))
      ensures Heard(state, k) == Heard(old(state), k) + [batch[told]]
    {
      hide IsRun, Inv, Apply, Enabled, Database.Valid, Last;
      Others(others, Some(k));
      TellStep(state, k);
      Do(Tell(k));
    }

    /** Each message of the batch to the subscriber, until one fails. */
    method TellAll(k: Key, batch: seq<nat>, subscriber: nat -> bool, others: nat -> seq<Step>, ghost before: State)
      returns (told: nat, failed: bool)
      requires Valid() && StillHolds(state, k, before)
      requires state.lanes[k].work.value.Batched? && state.lanes[k].work.value.batch == batch && state.lanes[k].work.value.told == 0
      modifies this
      ensures Valid() && old(steps) <= steps && old(run) <= run && StillHolds(state, k, before)
      ensures state.lanes[k].work == Some(Batched(old(state).lanes[k].work.value.epoch, batch, told)) && told <= |batch|
      ensures Heard(state, k) == Heard(old(state), k) + batch[..told]
      ensures failed ==> 0 < told && !subscriber(batch[told - 1]) && forall i :: 0 <= i < told - 1 ==> subscriber(batch[i])
      ensures !failed ==> told == |batch| && forall i :: 0 <= i < told ==> subscriber(batch[i])
    {
      hide IsRun, Inv, Apply, Enabled, Database.Valid, Last, Heard;
      told, failed := 0, false;
      while told < |batch|
        invariant Valid() && old(steps) <= steps && old(run) <= run && StillHolds(state, k, before)
        invariant state.lanes[k].work == Some(Batched(old(state).lanes[k].work.value.epoch, batch, told)) && told <= |batch|
        invariant Heard(state, k) == Heard(old(state), k) + batch[..told]
        invariant forall i :: 0 <= i < told ==> subscriber(batch[i])
      {
        TellOne(k, batch, told, others(told), before);
        assert batch[..told + 1] == batch[..told] + [batch[told]];
        told := told + 1;
        if !subscriber(batch[told - 1]) {
          failed := true;
          return;
        }
      }
    }

    /** The batch accepted whole: the position moved, and the row let go. */
    method MoveOn(k: Key, batch: seq<nat>, ghost before: State)
      requires Valid() && StillHolds(state, k, before) && |batch| <= state.limit
      requires var work := state.lanes[k].work.value;
               || (work.Nothing? && batch == [])
               || (work.Batched? && work.batch == batch && work.told == |batch|
                   && (before.lanes[k].position.epoch.Some? ==>
                         && work.epoch.snapshot == before.lanes[k].position.epoch.value.snapshot
                         && work.epoch.handed == before.lanes[k].position.epoch.value.handed))
      modifies this
      ensures Valid() && old(steps) <= steps && old(run) <= run && k in state.lanes && state.lanes[k].work == None
      ensures state.lanes[k].accepted == before.lanes[k].accepted + (set p | p in batch)
      ensures Heard(state, k) == Heard(old(state), k) && state.db == old(state.db) && state.limit == old(state.limit)
      ensures Moved(before.lanes[k].position, state.lanes[k].position, batch, state.limit)
    {
      hide IsRun, Inv, Apply, Enabled, Database.Valid, Last;
      AckStep(state, k);
      Do(Ack(k));
    }

    /** The batch told; then the position moved by it, or all of it rolled back. */
    method Deliver(k: Key, batch: seq<nat>, subscriber: nat -> bool, others: seq<Step>, meanwhile: nat -> seq<Step>, ghost before: State)
      returns (outcome: Outcome, told: nat)
      requires Valid() && StillHolds(state, k, before) && |batch| <= state.limit && Heard(state, k) == Heard(before, k)
      requires state.lanes[k].work.value.Batched? && state.lanes[k].work.value.batch == batch && state.lanes[k].work.value.told == 0
      requires before.lanes[k].position.epoch.Some? ==>
                 && state.lanes[k].work.value.epoch.snapshot == before.lanes[k].position.epoch.value.snapshot
                 && state.lanes[k].work.value.epoch.handed == before.lanes[k].position.epoch.value.handed
      modifies this
      ensures Valid() && old(steps) <= steps && old(run) <= run
      ensures outcome == Delivered(k.slot) || outcome == SubscriberFailed(k.slot)
      ensures k in state.lanes && state.lanes[k].work == None
      ensures outcome.Delivered? ==> WasDelivered(before, state, k, batch, subscriber)
      ensures outcome.SubscriberFailed? ==> WasRolledBack(before, state, k, batch, told, subscriber)
    {
      hide IsRun, Inv, Apply, Enabled, Database.Valid, Last, WasOwed;
      var failed: bool;
      told, failed := TellAll(k, batch, subscriber, meanwhile, before);
      if failed {
        RollBackStep(state, k);
        Do(RollBack(k));
        return SubscriberFailed(k.slot), told;
      }
      Others(others, Some(k));
      BatchWasOwed(state, k);
      MoveOn(k, batch, before);
      outcome := Delivered(k.slot);
    }

    /** The slot taken: its epoch, a batch, each message, and the position moved, or nothing
        of it at all. */
    method HandOn(k: Key, own: set<nat>, subscriber: nat -> bool, others: nat -> seq<Step>, meanwhile: nat -> seq<Step>)
      returns (outcome: Outcome, batch: seq<nat>, told: nat)
      requires Valid() && own <= state.db.tx.bystanders && Working(state, k) && state.lanes[k].work == Some(Looked)
      modifies this
      ensures Valid() && old(steps) <= steps && old(run) <= run
      ensures outcome == Delivered(k.slot) || outcome == SubscriberFailed(k.slot)
      ensures k in state.lanes && state.lanes[k].work == None
      ensures outcome.Delivered? ==> WasDelivered(old(state), state, k, batch, subscriber)
      ensures outcome.SubscriberFailed? ==> WasRolledBack(old(state), state, k, batch, told, subscriber)
    {
      hide IsRun, Inv, Apply, Enabled, Database.Valid, Last, WasOwed;
      ghost var before := state;
      batch, told := [], 0;
      Others(others(0), Some(k));
      StartTheEpoch(k, own, (n: nat) => others(1 + n), before);
      if state.lanes[k].work.value.Nothing? {
        NoneWasOwed(state.db, k, before.lanes[k].position);
        MoveOn(k, batch, before);
        return Delivered(k.slot), batch, told;
      }
      batch := ReadABatch(k, own, before);
      outcome, told := Deliver(k, batch, subscriber, others(3), meanwhile, before);
    }

    /** A look, and after the first contact of a selection another; `waits` when the position rows
        cannot be made yet, the reclamation's key being held. */
    method Fetch(group: string, uri: string, slots: nat, own: set<nat>, others: nat -> seq<Step>)
      returns (slot: Option<nat>, waits: bool)
      requires Valid() && own <= state.db.tx.bystanders
      modifies this
      ensures Valid() && old(steps) <= steps && old(run) <= run && own <= state.db.tx.bystanders
      ensures slot.Some? ==> !waits && Working(state, Key(group, uri, slot.value))
                             && state.lanes[Key(group, uri, slot.value)].work == Some(Looked)
      ensures slot.None? && !waits && Quiet(others) ==>
                NoneToTake(state, group, uri, slots, LookNames(state, group, uri, state.db.tx.CurrentSnapshot(own)), own)
      ensures waits && Quiet(others) ==> !old(state).holder.Free? && forall k :: k in state.lanes ==> !IsOf(k, group, uri)
    {
      hide IsRun, Inv, Apply, Enabled, Database.Valid, Last, NoneToTake, LookNames;
      var known: bool;
      slot, known := Take(group, uri, slots, own, others(0));
      waits := false;
      if !known {
        Others(others(1), None);
        if !state.holder.Free? {
          return None, true;
        }
        EnsurePositions(group, uri, slots, own);
        slot, known := Take(group, uri, slots, own, others(2));
      }
    }

    /** A dispatch: a look, and the slot taken handed on. `before` is the state in which the row
        was taken. */
    method Dispatch(group: string, uri: string, slots: nat, own: set<nat>, subscriber: nat -> bool,
                    others: nat -> seq<Step>, meanwhile: nat -> seq<Step>)
      returns (outcome: Outcome, batch: seq<nat>, told: nat, ghost before: State)
      requires Valid() && own <= state.db.tx.bystanders
      modifies this
      ensures Valid() && old(steps) <= steps && old(run) <= run && CameTo(run, |old(steps)|, before)
      ensures outcome.Delivered? ==> WasDelivered(before, state, Key(group, uri, outcome.slot), batch, subscriber)
      ensures outcome.SubscriberFailed? ==> WasRolledBack(before, state, Key(group, uri, outcome.slot), batch, told, subscriber)
      ensures outcome.Idle? && Quiet(others) ==>
                NoneToTake(state, group, uri, slots, LookNames(state, group, uri, state.db.tx.CurrentSnapshot(own)), own)
      ensures outcome.Waiting? && Quiet(others) ==> !old(state).holder.Free? && forall k :: k in state.lanes ==> !IsOf(k, group, uri)
    {
      hide IsRun, Inv, Apply, Enabled, Database.Valid, Last, WasDelivered, WasRolledBack, NoneToTake, LookNames;
      RunsMeet(run, steps);
      batch, told := [], 0;
      var slot, waits := Fetch(group, uri, slots, own, others);
      before := state;
      ghost var at := |run| - 1;
      RunsMeet(run, steps);
      assert run[at] == before;
      if slot == None {
        outcome := if waits then Waiting else Idle;
        return;
      }
      outcome, batch, told := HandOn(Key(group, uri, slot.value), own, subscriber, (n: nat) => others(3 + n), meanwhile);
      assert run[at] == before;
    }

    /** Every slot's position moved back to `f`, when all of them can be locked. */
    method MoveBack(group: string, uri: string, f: nat) returns (outcome: MoveOutcome)
      requires Valid() && state.holder.Free? && state.db.table.intactFrom <= f
      modifies this
      ensures Valid() && old(steps) <= steps && old(run) <= run
      ensures outcome.Done? || outcome.Waits?
      ensures outcome.Done? ==> IsRewound(old(state), state, group, uri, f)
      ensures outcome.Waits? ==> state == old(state) && !SelectionUnlocked(state, group, uri)
    {
      hide IsRun, Inv, Apply, Enabled, Database.Valid, Last, IsRewound, SelectionUnlocked;
      if !SelectionUnlocked(state, group, uri) {
        return Waits;
      }
      RewindStep(state, group, uri, f);
      Do(Rewind(group, uri, f));
      outcome := Done;
    }

    /** Every slot's position moved ahead to a snapshot taken at once, when all of them can be
        locked; what others do comes between. `before` is the state they were moved in. */
    method MoveAhead(group: string, uri: string, own: set<nat>, others: seq<Step>) returns (outcome: MoveOutcome, ghost before: State)
      requires Valid() && own <= state.db.tx.bystanders && state.holder.Free?
      modifies this
      ensures Valid() && old(steps) <= steps && old(run) <= run && CameTo(run, |old(run)|, before)
      ensures outcome.Done? || outcome.Waits?
      ensures outcome.Done? ==> IsMovedToNow(before, state, group, uri)
      ensures outcome.Waits? ==> !SelectionUnlocked(state, group, uri)
    {
      hide IsRun, Inv, Apply, Enabled, Database.Valid, Last, IsMovedToNow, SelectionUnlocked;
      BeginNowStep(state, group, uri, own);
      Do(BeginNow(group, uri, own));
      Meanwhile(others);
      before := state;
      RunsMeet(run, steps);
      assert run[|run| - 1] == before;
      if !SelectionUnlocked(state, group, uri) {
        return Waits, before;
      }
      FinishNowStep(state);
      ghost var at := |run| - 1;
      Do(FinishNow);
      assert run[at] == before;
      outcome := Done;
    }

    /** All positions of a group and URI moved as `to` says. `before` is the state the positions
        were moved in. */
    method SetPosition(group: string, uri: string, to: Move, slots: nat, own: set<nat>, others: nat -> seq<Step>)
      returns (outcome: MoveOutcome, ghost before: State)
      requires Valid() && own <= state.db.tx.bystanders
      modifies this
      ensures Valid() && old(steps) <= steps && old(run) <= run && CameTo(run, |old(steps)|, before)
      ensures outcome.Reclaimed? ==> to == From(outcome.requested) && outcome.requested < outcome.intactFrom == state.db.table.intactFrom
      ensures outcome.Done? && !to.Now? ==> IsRewound(before, state, group, uri, to.Floor(before.db.table.intactFrom))
      ensures outcome.Done? && to.Now? ==> IsMovedToNow(before, state, group, uri)
      ensures outcome.Waits? && Quiet(others) ==> !old(state).holder.Free? || !SelectionUnlocked(state, group, uri)
    {
      hide IsRun, Inv, Apply, Enabled, Database.Valid, Last, IsRewound, IsMovedToNow, SelectionUnlocked;
      RunsMeet(run, steps);
      Others(others(0), None);
      before := state;
      ghost var at := |run| - 1;
      RunsMeet(run, steps);
      assert run[at] == before;
      if !state.holder.Free? {
        return Waits, before;
      }
      // `intactFrom` is 1 while nothing was emptied: no bound then
      if to.From? && to.xid < state.db.table.intactFrom != 1 {
        return Reclaimed(to.xid, state.db.table.intactFrom), before;
      }
      EnsurePositions(group, uri, slots, own);
      if to.Now? {
        outcome, before := MoveAhead(group, uri, own, others(1));
      } else {
        before, at := state, |run| - 1;
        RunsMeet(run, steps);
        outcome := MoveBack(group, uri, to.Floor(state.db.table.intactFrom));
        assert run[at] == before;
      }
    }
  }

  datatype Move = Start | From(xid: nat) | Now
  {
    /** What a rewind goes back to: the start is what the ring keeps, and no transaction is below 1. */
    function Floor(intactFrom: nat): nat {
      if !From? then intactFrom else if xid == 0 then 1 else xid
    }
  }

  datatype MoveOutcome = Done | Reclaimed(requested: nat, intactFrom: nat) | Waits

  /** Key `k` is of the selection. */
  predicate IsOf(k: Key, group: string, uri: string) {
    k.group == group && k.uri == uri
  }

  /** Rewound to `f`: the position shows nothing from `f` on, so it owes every row there, and
      all of those are still in the table. */
  ghost predicate IsRewound(before: State, after: State, group: string, uri: string, f: nat) {
    && after.lanes.Keys == before.lanes.Keys && after.db == before.db
    && (forall k :: k in after.lanes && !IsOf(k, group, uri) ==> after.lanes[k] == before.lanes[k])
    && (forall k :: k in after.lanes && IsOf(k, group, uri) ==>
          && after.lanes[k].position == Position(before.lanes[k].position.delivered.Below(f), None)
          && forall p :: after.db.Landed(p) && f <= after.db.table.rows[p].xid ==>
               p !in after.db.table.gone && !after.lanes[k].position.delivered.Sees(after.db.table.rows[p].xid))
  }

  /** Every position of the selection shows exactly what had committed when the move began. */
  ghost predicate IsMovedToNow(before: State, after: State, group: string, uri: string) {
    && after.lanes.Keys == before.lanes.Keys && before.holder.Moving? && after.db == before.db && after.holder.Free?
    && (forall k :: k in after.lanes && !IsOf(k, group, uri) ==> after.lanes[k] == before.lanes[k])
    && (forall k :: k in after.lanes && IsOf(k, group, uri) ==> after.lanes[k].position == Position(before.holder.snapshot, None))
  }

  lemma RewindStep(s: State, group: string, uri: string, f: nat)
    requires Inv(s) && s.holder.Free? && SelectionUnlocked(s, group, uri) && s.db.table.intactFrom <= f
    ensures Enabled(s, Rewind(group, uri, f))
    ensures IsRewound(s, Apply(s, Rewind(group, uri, f)), group, uri, f)
  {
    hide LaneInv, InCommitOrder;
    var later := Apply(s, Rewind(group, uri, f));
    forall k, p | k in later.lanes && IsOf(k, group, uri) && later.db.Landed(p) && f <= later.db.table.rows[p].xid
      ensures p !in later.db.table.gone && !later.lanes[k].position.delivered.Sees(later.db.table.rows[p].xid)
    {
      BelowKeepsExactly(s.lanes[k].position.delivered, f, later.db.table.rows[p].xid);
    }
  }

  lemma BeginNowStep(s: State, group: string, uri: string, own: set<nat>)
    requires s.db.Valid() && s.holder.Free? && own <= s.db.tx.bystanders
    ensures Enabled(s, BeginNow(group, uri, own))
    ensures Apply(s, BeginNow(group, uri, own)).holder == Moving(group, uri, s.db.tx.CurrentSnapshot(own))
  {
  }

  lemma FinishNowStep(s: State)
    requires s.db.Valid() && s.holder.Moving? && SelectionUnlocked(s, s.holder.group, s.holder.uri)
    ensures Enabled(s, FinishNow)
    ensures IsMovedToNow(s, Apply(s, FinishNow), s.holder.group, s.holder.uri)
  {
  }

  lemma StepGrowsBystanders(s: State, step: Step)
    requires s.db.Valid() && Enabled(s, step)
    ensures s.db.tx.bystanders <= Apply(s, step).db.tx.bystanders
  {
    hide NewPosition, ConvertedPosition, StartWork, ReadBatch, ShownRows, RewoundLanes, MovedLanes, MovedUnheard, AckedLane,
         Pinned, IsOldest, FoundNewest, IsClosed, WritersEnded, Emptied, Database.Valid, MayInsert, SelectionUnlocked;
  }
}
