/** The outbox as a protocol: publishers, dispatchers, the reclamation and the
    operators, each statement one step that reads its own snapshot, and what it
    locks locked until its transaction is over. */
module OutboxProtocol {
  import opened Snapshots
  import opened Ascending
  import opened OutboxDatabase
  import opened Options
  import opened OutboxRelay

  /** How far the transaction holding a position row has got: it looked and took the
      row; it took its epoch's snapshot; it found nothing new; it knows its epoch; it
      read a batch, and handed on the first `told` messages of it. */
  datatype Work =
    | Looked
    | Snapped(snapshot: Snapshot)
    | Nothing(snapshot: Snapshot)
    | Started(epoch: Epoch)
    | Batched(epoch: Epoch, batch: seq<nat>, told: nat)

  /** A position row, the work of the dispatcher that holds it, and its history:
      `accepted` the rows accepted in committed batches since the last rewind past
      them, `skipped` those the position was moved past without handing them on. */
  datatype Lane = Lane(position: Position, work: Option<Work>, accepted: set<nat>, skipped: set<nat>)

  datatype Stage = Begun | Found | Chosen | Past | Closed | Passed | Held | Measured | Rechecked

  /** A pass of the reclamation: its stage, its candidate generation, and the ids of
      the candidate's oldest and newest rows. */
  datatype Pass = Pass(stage: Stage, generation: nat, oldest: nat, newest: nat)

  /** Who holds the reclamation's advisory key exclusively. A move ahead to now takes
      its snapshot before it waits for the rows. */
  datatype KeyHolder = Free | Reclaiming(pass: Pass) | Moving(group: string, uri: string, snapshot: Snapshot)

  /** `heard[k]` is what the subscribers of a position were handed, in order, repeats and
      rolled-back batches included; `unheard[k]` what it was ever moved past. */
  datatype State = State(
    db: Database,
    limit: nat,
    margin: nat,
    lanes: map<Key, Lane>,
    heard: map<Key, seq<nat>>,
    unheard: map<Key, set<nat>>,
    holder: KeyHolder)

  function Heard(s: State, k: Key): seq<nat> {
    if k in s.heard then s.heard[k] else []
  }

  function Unheard(s: State, k: Key): set<nat> {
    if k in s.unheard then s.unheard[k] else {}
  }

  // What the statements compute of a position.

  /** The rows of a position's slot and selection that `delivered` shows. */
  function ShownRows(db: Database, key: Key, delivered: Snapshot): set<nat> {
    set p | p in db.table.rows && Matches(db.table, key, p) && db.Landed(p) && delivered.Sees(db.table.rows[p].xid)
  }

  /** Where a new group starts: the current snapshot below `intact_from`. */
  function NewPosition(db: Database, own: set<nat>): Position {
    Position(db.tx.CurrentSnapshot(own).Below(db.table.intactFrom), None)
  }

  /** A position of the older relay, `(l, offset)`, converted: transaction `l` is in
      flight at `offset`, of an epoch whose end nobody worked out yet; where nothing
      was acknowledged, `l == 0`, nothing is delivered. */
  function ConvertedPosition(db: Database, key: Key, l: nat, offset: nat): Position {
    var delivered, epoch := Snapshot(l, l, []), Snapshot(l + 1, l + 1, []);
    var handed := Slice(Owed(db, key, delivered, epoch), 0, offset + 1);
    if l == 0 then Position(NOTHING, None) else Position(delivered, Some(Epoch(epoch, offset, None, [], handed, 0, |handed|)))
  }

  /** A stored epoch without its end, given it. */
  function WithEnd(epoch: Epoch, found: seq<Generation>): Epoch {
    var end := match HighestLast(found)
      case None => epoch.offset
      case Some(last) => if last > epoch.offset then last else epoch.offset;
    epoch.(end := Some(end), generations := found)
  }

  /** What the epoch's start makes of the work: the stored epoch, completed if it was
      converted; a new one over what is new in `snapshot`; or nothing to hand on. */
  function StartWork(db: Database, key: Key, lane: Lane, statement: Snapshot): Work
    requires db.table.ring.Valid() && lane.work.Some?
    requires (lane.work.value.Looked? && lane.position.epoch.Some?) || lane.work.value.Snapped?
  {
    var delivered := lane.position.delivered;
    if lane.work.value.Looked? then
      var epoch := lane.position.epoch.value;
      if epoch.end.Some? then Started(epoch)
      else
        var rows := StartRows(db, statement, key, delivered, epoch.snapshot);
        Started(WithEnd(epoch, GenerationsFound(db.table, rows, db.table.ring.generations)))
    else
      var snapshot := lane.work.value.snapshot;
      var found := GenerationsFound(db.table, StartRows(db, statement, key, delivered, snapshot), db.table.ring.generations);
      match (LowestFirst(found), HighestLast(found))
      case (Some(first), Some(last)) => Started(Epoch(snapshot, if first == 0 then 0 else first - 1, Some(last), found, [], 0, 0))
      case _ => Nothing(snapshot)
  }

  /** What an acknowledgement writes: the offset of the batch's last row; or, of a batch that
      did not fill up, the epoch's snapshot as the new `delivered`. */
  function AckedPosition(position: Position, work: Work, limit: nat): Position
    requires work.Nothing? || (work.Batched? && 1 <= limit)
  {
    match work
    case Nothing(snapshot) => Position(snapshot, None)
    case Batched(epoch, batch, told) =>
      if |batch| < limit then Position(epoch.snapshot, None)
      else position.(epoch := Some(epoch.(offset := batch[|batch| - 1], handed := epoch.handed + batch,
                                          batches := epoch.batches + 1)))
  }

  /** Whether the observer is told that the epoch drained before its end. */
  predicate ReportedShort(work: Work, limit: nat)
    requires work.Batched? && work.epoch.end.Some?
  {
    var reached := if work.batch == [] then work.epoch.offset else work.batch[|work.batch| - 1];
    |work.batch| < limit && reached < work.epoch.end.value
  }

  /** A rewind to `f`: what was delivered below it is kept, the epoch cleared. */
  function RewoundLane(db: Database, lane: Lane, f: nat): Lane {
    var kept := (rows: set<nat>) => set p | p in rows && p in db.table.rows && db.table.rows[p].xid < f;
    Lane(Position(lane.position.delivered.Below(f), None), None, kept(lane.accepted), kept(lane.skipped))
  }

  /** A move ahead: every row shown counts as delivered. */
  function MovedLane(db: Database, key: Key, lane: Lane, now: Snapshot): Lane {
    Lane(Position(now, None), None, lane.accepted, lane.skipped + ShownRows(db, key, now))
  }

  // What the reclamation's statements ask.

  /** A row of `g` that the statement reads carries id `x`. */
  predicate HasRowOf(db: Database, statement: Snapshot, g: nat, x: nat)
    requires db.table.ring.Valid()
  {
    exists p :: p in db.table.rows && Readable(db, statement, p) && db.table.GenerationOf(p) == g
                && db.table.rows[p].xid == x
  }

  /** The position has yet to show some row there: the newest is at or after its `xmax`, or
      the rows' transaction was running for it. */
  predicate Pins(db: Database, statement: Snapshot, delivered: Snapshot, g: nat, newest: nat)
    requires db.table.ring.Valid()
  {
    delivered.xmax <= newest || exists x :: x in delivered.xip && x <= newest && HasRowOf(db, statement, g, x)
  }

  predicate Pinned(s: State, statement: Snapshot, g: nat, newest: nat)
    requires s.db.table.ring.Valid()
  {
    exists k :: k in s.lanes && Pins(s.db, statement, s.lanes[k].position.delivered, g, newest)
  }

  /** The row at `p` has the least id of those the statement reads. */
  predicate IsOldest(db: Database, statement: Snapshot, p: nat) {
    Readable(db, statement, p)
    && forall q :: q in db.table.rows && Readable(db, statement, q) ==> db.table.rows[p].xid <= db.table.rows[q].xid
  }

  /** `newest` is the greatest id in generation `g` of those the statement reads. */
  predicate IsNewest(db: Database, statement: Snapshot, g: nat, newest: nat)
    requires db.table.ring.Valid()
  {
    HasRowOf(db, statement, g, newest)
    && forall q :: q in db.table.rows && Readable(db, statement, q) && db.table.GenerationOf(q) == g ==> db.table.rows[q].xid <= newest
  }

  /** The newest id in the pass's generation, or, of one without a row, what was known of it. */
  predicate FoundNewest(db: Database, statement: Snapshot, pass: Pass, newest: nat)
    requires db.table.ring.Valid()
  {
    || IsNewest(db, statement, pass.generation, newest)
    || (newest == pass.newest
        && forall q :: q in db.table.rows && Readable(db, statement, q) ==> db.table.GenerationOf(q) != pass.generation)
  }

  /** No transaction open in this database holds an id in the generation. */
  predicate IsClosed(db: Database, g: nat)
    requires db.table.ring.Valid()
  {
    forall x :: x in db.tx.status && db.tx.IsRunning(x) && x !in db.tx.bystanders ==> db.table.ring.GenerationOf(x) != g
  }

  /** No transaction in progress wrote to the partition, so its lock is granted. */
  predicate WritersEnded(db: Database, g: nat)
    requires db.table.ring.Valid()
  {
    forall p :: p in db.table.rows && db.table.GenerationOf(p) == g ==> db.tx.Ended(db.table.rows[p].xid)
  }

  /** The pass holds the partition's lock, `ACCESS EXCLUSIVE`: nobody writes there. */
  predicate HoldsPartition(holder: KeyHolder, g: nat) {
    && holder.Reclaiming? && holder.pass.generation == g
    && (holder.pass.stage.Held? || holder.pass.stage.Measured? || holder.pass.stage.Rechecked?)
  }

  /** `TRUNCATE` of the generation's partition, and `intact_from` raised past its newest row. */
  function Emptied(table: Table, g: nat, newest: nat): Table
    requires table.ring.Valid()
  {
    table.(gone := table.gone + (set p | p in table.rows && table.GenerationOf(p) == g),
           intactFrom := if table.intactFrom < newest + 1 then newest + 1 else table.intactFrom)
  }

  // The steps. `own` are the ids the acting transaction holds itself.

  datatype Step =
    // anyone's transactions
    | BeginTx(bystander: bool)
    | InsertRow(row: Row)
    | CommitTx(xid: nat)
    | AbortTx(xid: nat)
    // position rows made and dropped
    | Create(key: Key, own: set<nat>)
    | CreateLane(key: Key)
    | Convert(key: Key, l: nat, offset: nat)
    | Forget(key: Key)
    // a dispatcher
    | Look(key: Key)
    | TakeSnapshot(key: Key, own: set<nat>)
    | StartEpoch(key: Key, own: set<nat>)
    | ReadTheBatch(key: Key, own: set<nat>)
    | Tell(key: Key)
    | Ack(key: Key)
    | RollBack(key: Key)
    // an operator
    | Rewind(group: string, uri: string, from: nat)
    | BeginNow(group: string, uri: string, own: set<nat>)
    | FinishNow
    // the reclamation
    | BeginPass
    | FindOldest(own: set<nat>, oldestRow: nat)
    | FindNewest(own: set<nat>, newestId: nat)
    | CheckPast
    | CheckClosed
    | CheckPassed(own: set<nat>)
    | LockPartition
    | Measure(own: set<nat>, newestId: nat)
    | Recheck(own: set<nat>)
    | Empty
    | EndPass

  predicate Unlocked(s: State, k: Key) {
    k in s.lanes && s.lanes[k].work == None
  }

  predicate Working(s: State, k: Key) {
    k in s.lanes && s.lanes[k].work.Some?
  }

  predicate AtStage(s: State, stage: Stage) {
    s.holder.Reclaiming? && s.holder.pass.stage == stage
  }

  /** Every position row of a selection can be locked. */
  predicate SelectionUnlocked(s: State, group: string, uri: string) {
    forall k :: k in s.lanes && k.group == group && k.uri == uri ==> s.lanes[k].work == None
  }

  predicate Enabled(s: State, step: Step)
    requires s.db.Valid()
  {
    match step
    case BeginTx(_) => true
    case InsertRow(row) => MayInsert(s.db.tx, row.xid) && !HoldsPartition(s.holder, s.db.table.ring.GenerationOf(row.xid))
    case CommitTx(xid) => s.db.tx.IsRunning(xid)
    case AbortTx(xid) => s.db.tx.IsRunning(xid)
    // new groups take the key shared: no pass holds it
    case Create(k, own) => k !in s.lanes && own <= s.db.tx.bystanders && s.holder.Free?
                           && (k.uri == "" || Key(k.group, "", k.slot) !in s.lanes)
    case CreateLane(k) => k !in s.lanes && s.holder.Free? && k.uri != "" && Key(k.group, "", k.slot) in s.lanes
    // before the ring: the older relay had handed on what lies at or before its pair
    case Convert(k, l, offset) => k !in s.lanes && s.holder.Free? && s.db.table.gone == {} && l <= s.db.tx.latest
                                  && (forall x :: 1 <= x <= l ==> s.db.tx.Ended(x))
    case Forget(k) => Unlocked(s, k) && s.holder.Free?
    case Look(k) => Unlocked(s, k)
    case TakeSnapshot(k, own) => Working(s, k) && s.lanes[k].work.value.Looked? && s.lanes[k].position.epoch == None
                                 && own <= s.db.tx.bystanders
    case StartEpoch(k, own) => Working(s, k) && own <= s.db.tx.bystanders
                               && ((s.lanes[k].work.value.Looked? && s.lanes[k].position.epoch.Some?)
                                   || s.lanes[k].work.value.Snapped?)
    case ReadTheBatch(k, own) => Working(s, k) && s.lanes[k].work.value.Started? && own <= s.db.tx.bystanders
    case Tell(k) => Working(s, k) && s.lanes[k].work.value.Batched?
                    && s.lanes[k].work.value.told < |s.lanes[k].work.value.batch|
    case Ack(k) => Working(s, k) && 1 <= s.limit
                   && (s.lanes[k].work.value.Nothing?
                       || (s.lanes[k].work.value.Batched? && s.lanes[k].work.value.told == |s.lanes[k].work.value.batch|))
    case RollBack(k) => Working(s, k)
    // rewinds take the key exclusively, wait for every row, and keep above `intact_from`
    case Rewind(group, uri, f) => s.holder.Free? && SelectionUnlocked(s, group, uri) && s.db.table.intactFrom <= f
    case BeginNow(group, uri, own) => s.holder.Free? && own <= s.db.tx.bystanders
    case FinishNow => s.holder.Moving? && SelectionUnlocked(s, s.holder.group, s.holder.uri)
    case BeginPass => s.holder.Free?
    case FindOldest(own, p) => AtStage(s, Begun) && own <= s.db.tx.bystanders
                               && IsOldest(s.db, s.db.tx.CurrentSnapshot(own), p)
    case FindNewest(own, newest) => AtStage(s, Found) && own <= s.db.tx.bystanders
                                    && FoundNewest(s.db, s.db.tx.CurrentSnapshot(own), s.holder.pass, newest)
    case CheckPast => AtStage(s, Chosen)
                      && s.db.table.ring.WindowOf(s.db.tx.latest + 1) - s.db.table.ring.WindowOf(s.holder.pass.newest) >= s.margin
    case CheckClosed => AtStage(s, Past) && IsClosed(s.db, s.holder.pass.generation)
    case CheckPassed(own) => AtStage(s, Closed) && own <= s.db.tx.bystanders
                             && !Pinned(s, s.db.tx.CurrentSnapshot(own), s.holder.pass.generation, s.holder.pass.newest)
    case LockPartition => AtStage(s, Passed) && WritersEnded(s.db, s.holder.pass.generation)
    case Measure(own, newest) => AtStage(s, Held) && own <= s.db.tx.bystanders
                                 && FoundNewest(s.db, s.db.tx.CurrentSnapshot(own), s.holder.pass, newest)
    case Recheck(own) => AtStage(s, Measured) && own <= s.db.tx.bystanders
                         && !Pinned(s, s.db.tx.CurrentSnapshot(own), s.holder.pass.generation, s.holder.pass.newest)
    case Empty => AtStage(s, Rechecked)
    case EndPass => s.holder.Reclaiming?
  }

  function AtNextStage(s: State, stage: Stage): State
    requires s.holder.Reclaiming?
  {
    s.(holder := Reclaiming(s.holder.pass.(stage := stage)))
  }

  function WithWork(s: State, k: Key, work: Option<Work>): State
    requires k in s.lanes
  {
    s.(lanes := s.lanes[k := s.lanes[k].(work := work)])
  }

  /** A position row made: what it starts past is skipped. */
  function WithNew(s: State, k: Key, position: Position, passed: set<nat>, unheard: set<nat>): State {
    s.(lanes := s.lanes[k := Lane(position, None, {}, passed)], unheard := s.unheard[k := Unheard(s, k) + unheard])
  }

  function AckedLane(lane: Lane, limit: nat): Lane
    requires lane.work.Some? && (lane.work.value.Nothing? || (lane.work.value.Batched? && 1 <= limit))
  {
    var accepted := if lane.work.value.Batched? then set p | p in lane.work.value.batch else {};
    Lane(AckedPosition(lane.position, lane.work.value, limit), None, lane.accepted + accepted, lane.skipped)
  }

  function RewoundLanes(s: State, group: string, uri: string, f: nat): map<Key, Lane> {
    map k | k in s.lanes :: if k.group == group && k.uri == uri then RewoundLane(s.db, s.lanes[k], f) else s.lanes[k]
  }

  function MovedLanes(s: State, group: string, uri: string, now: Snapshot): map<Key, Lane> {
    map k | k in s.lanes :: if k.group == group && k.uri == uri then MovedLane(s.db, k, s.lanes[k], now) else s.lanes[k]
  }

  function MovedUnheard(s: State, group: string, uri: string, now: Snapshot): map<Key, set<nat>> {
    map k | k in s.unheard.Keys + s.lanes.Keys ::
      if k in s.lanes && k.group == group && k.uri == uri then Unheard(s, k) + ShownRows(s.db, k, now) else Unheard(s, k)
  }

  /** What a step does. */
  function Apply(s: State, step: Step): (later: State)
    requires s.db.Valid() && Enabled(s, step)
  {
    match step
    case BeginTx(bystander) => s.(db := Begin(s.db, bystander))
    case InsertRow(row) => s.(db := Insert(s.db, row))
    case CommitTx(xid) => s.(db := Commit(s.db, xid))
    case AbortTx(xid) => s.(db := Abort(s.db, xid))
    case Create(k, own) =>
      var position := NewPosition(s.db, own);
      var passed := ShownRows(s.db, k, position.delivered);
      WithNew(s, k, position, passed, passed)
    case CreateLane(k) =>
      var delivered := s.lanes[Key(k.group, "", k.slot)].position.delivered;
      var passed := ShownRows(s.db, k, delivered);
      WithNew(s, k, Position(delivered, None), passed, passed)
    case Convert(k, l, offset) =>
      var position := ConvertedPosition(s.db, k, l, offset);
      if l == 0 then WithNew(s, k, position, {}, {})
      else
        var handed := set p | p in position.epoch.value.handed;
        WithNew(s, k, position, ShownRows(s.db, k, position.delivered) + handed,
                ShownRows(s.db, k, position.epoch.value.snapshot))
    case Forget(k) => s.(lanes := s.lanes - {k})
    case Look(k) => WithWork(s, k, Some(Looked))
    case TakeSnapshot(k, own) => WithWork(s, k, Some(Snapped(s.db.tx.CurrentSnapshot(own))))
    case StartEpoch(k, own) => WithWork(s, k, Some(StartWork(s.db, k, s.lanes[k], s.db.tx.CurrentSnapshot(own))))
    case ReadTheBatch(k, own) =>
      var epoch := s.lanes[k].work.value.epoch;
      var batch := ReadBatch(s.db, s.db.tx.CurrentSnapshot(own), k, s.lanes[k].position.delivered, epoch, s.limit);
      WithWork(s, k, Some(Batched(epoch, batch, 0)))
    case Tell(k) =>
      var work := s.lanes[k].work.value;
      WithWork(s, k, Some(work.(told := work.told + 1))).(heard := s.heard[k := Heard(s, k) + [work.batch[work.told]]])
    case Ack(k) => s.(lanes := s.lanes[k := AckedLane(s.lanes[k], s.limit)])
    case RollBack(k) => WithWork(s, k, None)
    case Rewind(group, uri, f) => s.(lanes := RewoundLanes(s, group, uri, f))
    case BeginNow(group, uri, own) => s.(holder := Moving(group, uri, s.db.tx.CurrentSnapshot(own)))
    case FinishNow =>
      s.(lanes := MovedLanes(s, s.holder.group, s.holder.uri, s.holder.snapshot),
         unheard := MovedUnheard(s, s.holder.group, s.holder.uri, s.holder.snapshot),
         holder := Free)
    case BeginPass => s.(holder := Reclaiming(Pass(Begun, 0, 0, 0)))
    case FindOldest(own, p) =>
      var xid := s.db.table.rows[p].xid;
      s.(holder := Reclaiming(Pass(Found, s.db.table.GenerationOf(p), xid, xid)))
    case FindNewest(own, newest) => s.(holder := Reclaiming(s.holder.pass.(stage := Chosen, newest := newest)))
    case CheckPast => AtNextStage(s, Past)
    case CheckClosed => AtNextStage(s, Closed)
    case CheckPassed(own) => AtNextStage(s, Passed)
    case LockPartition => AtNextStage(s, Held)
    case Measure(own, newest) => s.(holder := Reclaiming(s.holder.pass.(stage := Measured, newest := newest)))
    case Recheck(own) => AtNextStage(s, Rechecked)
    case Empty =>
      s.(db := s.db.(table := Emptied(s.db.table, s.holder.pass.generation, s.holder.pass.newest)), holder := Free)
    case EndPass => s.(holder := Free)
  }

  /** An outbox as its migrations leave it: empty, on a server that has run nothing. */
  predicate Initial(s: State) {
    && s.db == Database(Transactions(1, 0, map[], {}), Table(1, map[], map[], {}, 1, s.db.table.ring))
    && s.db.table.ring.Valid() && 1 <= s.limit
    && s.lanes == map[] && s.heard == map[] && s.unheard == map[] && s.holder == Free
  }
}
