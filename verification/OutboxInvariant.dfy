/** What every step of the outbox keeps. */
module OutboxInvariant {
  import opened Snapshots
  import opened Ascending
  import opened OutboxDatabase
  import opened OutboxRelay
  import opened OutboxProtocol

  /** What a position has answered for: accepted by its subscriber, or moved past. */
  function Accounted(lane: Lane): set<nat> {
    lane.accepted + lane.skipped
  }

  /** `later` shows every row `earlier` shows. */
  ghost predicate ShowsAll(db: Database, earlier: Snapshot, later: Snapshot) {
    forall p :: p in db.table.rows && earlier.Sees(db.table.rows[p].xid) ==> later.Sees(db.table.rows[p].xid)
  }

  /** Every row emptied was of a transaction `delivered` shows, or never landed. */
  ghost predicate ShowsTheGone(db: Database, delivered: Snapshot) {
    forall p :: p in db.table.gone && db.Landed(p) ==> delivered.Sees(db.table.rows[p].xid)
  }

  /** Every row shown was accounted for. */
  ghost predicate ShownAreAccounted(db: Database, key: Key, delivered: Snapshot, accounted: set<nat>) {
    forall p :: Matches(db.table, key, p) && db.Landed(p) && delivered.Sees(db.table.rows[p].xid) ==> p in accounted
  }

  /** The epoch's end: no row of it lies further, and it is one, or behind the offset. */
  ghost predicate EndsAt(owed: set<nat>, offset: nat, end: nat) {
    && (forall p :: p in owed ==> p <= end)
    && (end <= offset || end in owed)
  }

  /** An epoch in flight over `owed`, its rows: those up to its offset were handed on. */
  ghost predicate EpochIsExact(owed: set<nat>, e: Epoch, limit: nat) {
    && e.handed == Slice(owed, 0, e.offset + 1)
    && |e.handed| == e.before + e.batches * limit
    && (e.end.Some? ==> EndsAt(owed, e.offset, e.end.value))
  }

  ghost predicate EpochInv(db: Database, key: Key, delivered: Snapshot, e: Epoch, limit: nat, accounted: set<nat>, unheard: set<nat>)
    requires db.Valid()
  {
    var owed := Owed(db, key, delivered, e.snapshot);
    && Settled(db.tx, e.snapshot) && ShowsAll(db, delivered, e.snapshot)
    && (ClosedUnderCommit(db, e.snapshot) || owed <= unheard)
    && EpochIsExact(owed, e, limit)
    && (forall p :: p in e.handed ==> p in accounted)
    && (e.end.Some? ==> Records(db.table, owed, e.generations))
  }

  ghost predicate WorkInv(db: Database, key: Key, lane: Lane, limit: nat, heard: seq<nat>, unheard: set<nat>)
    requires db.Valid()
  {
    var d := lane.position.delivered;
    lane.work.Some? ==>
      match lane.work.value
      case Looked => true
      case Snapped(e) => Settled(db.tx, e) && ShowsAll(db, d, e) && ClosedUnderCommit(db, e)
      case Nothing(e) => Settled(db.tx, e) && ShowsAll(db, d, e) && Owed(db, key, d, e) == {}
      case Started(e) => e.end.Some? && EpochInv(db, key, d, e, limit, Accounted(lane), unheard)
      case Batched(e, batch, told) =>
        && e.end.Some? && EpochInv(db, key, d, e, limit, Accounted(lane), unheard)
        && batch == First(Slice(Owed(db, key, d, e.snapshot), e.offset + 1, db.table.nextPosition), limit)
        && told <= |batch| && forall i :: 0 <= i < told ==> batch[i] in heard
  }

  ghost predicate PositionInv(db: Database, key: Key, lane: Lane, limit: nat, heard: seq<nat>, unheard: set<nat>)
    requires db.Valid()
  {
    var d := lane.position.delivered;
    && Settled(db.tx, d) && ShowsTheGone(db, d)
    && ShownAreAccounted(db, key, d, Accounted(lane))
    && (forall p :: p in lane.accepted ==> p in heard)
    && lane.skipped <= unheard
    && (lane.position.epoch.Some? ==>
          EpochInv(db, key, d, lane.position.epoch.value, limit, Accounted(lane), unheard))
  }

  ghost predicate LaneInv(db: Database, key: Key, lane: Lane, limit: nat, heard: seq<nat>, unheard: set<nat>)
    requires db.Valid()
  {
    PositionInv(db, key, lane, limit, heard, unheard) && WorkInv(db, key, lane, limit, heard, unheard)
  }

  /** Commit order, so far: before a row was handed on, so was every row of the position
      whose transaction had committed before that row's position was drawn. */
  ghost predicate InCommitOrder(db: Database, key: Key, heard: seq<nat>, unheard: set<nat>) {
    && (forall i :: 0 <= i < |heard| ==> heard[i] < db.table.nextPosition)
    && forall i, a :: 0 <= i < |heard| && PrecedesInCommit(db, key, a, heard[i]) && a !in unheard && heard[i] !in unheard
                      ==> a in heard[..i]
  }

  /** The row at `a` is the position's, and its transaction had committed before `b` was drawn. */
  ghost predicate PrecedesInCommit(db: Database, key: Key, a: nat, b: nat) {
    Matches(db.table, key, a) && db.CommittedBeforeDraw(db.table.rows[a].xid, b)
  }

  ghost predicate HolderInv(s: State)
    requires s.db.Valid()
  {
    match s.holder
    case Free => true
    case Moving(_, _, snapshot) => Settled(s.db.tx, snapshot) && ShowsTheGone(s.db, snapshot)
    case Reclaiming(pass) =>
      && pass.newest < s.db.tx.next
      && (pass.stage.Held? || pass.stage.Measured? || pass.stage.Rechecked? ==> WritersEnded(s.db, pass.generation))
      && (pass.stage.Measured? || pass.stage.Rechecked? ==> EndsBy(s.db, pass.generation, pass.newest))
      && (pass.stage.Rechecked? ==> AllPassed(s, pass.generation))
  }

  /** The row at `p` is left in generation `g`. */
  ghost predicate LeftIn(db: Database, g: nat, p: nat)
    requires db.Valid()
  {
    p in db.table.rows && db.Landed(p) && p !in db.table.gone && db.table.GenerationOf(p) == g
  }

  /** Every row left in the generation is of an id up to `newest`. */
  ghost predicate EndsBy(db: Database, g: nat, newest: nat)
    requires db.Valid()
  {
    forall p :: LeftIn(db, g, p) ==> db.table.rows[p].xid <= newest
  }

  /** Every position shows every row left in the generation. */
  ghost predicate AllPassed(s: State, g: nat)
    requires s.db.Valid()
  {
    forall p, k :: LeftIn(s.db, g, p) && k in s.lanes ==> s.lanes[k].position.delivered.Sees(s.db.table.rows[p].xid)
  }

  ghost predicate Inv(s: State) {
    && s.db.Valid() && 1 <= s.limit
    && (forall k :: k in s.lanes ==> LaneInv(s.db, k, s.lanes[k], s.limit, Heard(s, k), Unheard(s, k)))
    && (forall k :: InCommitOrder(s.db, k, Heard(s, k), Unheard(s, k)))
    && HolderInv(s)
  }

  // Under a position the database moves on.

  lemma ShownInBoth(db: Database, later: Database, s: Snapshot, p: nat)
    requires Extends(db, later) && Settled(db.tx, s)
    requires p in later.table.rows && s.Sees(later.table.rows[p].xid)
    ensures p in db.table.rows && later.table.rows[p] == db.table.rows[p]
    ensures later.Landed(p) == db.Landed(p)
    ensures forall key :: Matches(later.table, key, p) == Matches(db.table, key, p)
  {
    NewRowsAreNotShown(db, later, s, p);
  }

  lemma OwedStays(db: Database, later: Database, key: Key, d: Snapshot, e: Snapshot)
    requires Extends(db, later) && Settled(db.tx, e)
    ensures Owed(later, key, d, e) == Owed(db, key, d, e)
  {
    forall p | p in Owed(later, key, d, e)
      ensures p in Owed(db, key, d, e)
    {
      ShownInBoth(db, later, e, p);
    }
    forall p | p in Owed(db, key, d, e)
      ensures p in Owed(later, key, d, e)
    {
      ShownInBoth(db, later, e, p);
    }
  }

  lemma EpochInvStays(db: Database, later: Database, key: Key, d: Snapshot, e: Epoch, limit: nat, accounted: set<nat>, unheard: set<nat>)
    requires Extends(db, later) && Settled(db.tx, d) && EpochInv(db, key, d, e, limit, accounted, unheard)
    ensures EpochInv(later, key, d, e, limit, accounted, unheard)
  {
    OwedStays(db, later, key, d, e.snapshot);
    SettledStays(db.tx, later.tx, e.snapshot);
    ShowsAllStays(db, later, d, e.snapshot);
    if ClosedUnderCommit(db, e.snapshot) {
      ClosedStays(db, later, e.snapshot);
    }
    if e.end.Some? {
      RecordsStay(db, later, Owed(db, key, d, e.snapshot), e.generations);
    }
  }

  lemma RecordsStay(db: Database, later: Database, rows: set<nat>, found: seq<Generation>)
    requires Extends(db, later) && Records(db.table, rows, found) && rows <= db.table.rows.Keys
    ensures Records(later.table, rows, found)
  {
    forall p | p in rows
      ensures Covers(found, later.table.GenerationOf(p), p)
    {
      assert later.table.GenerationOf(p) == db.table.GenerationOf(p);
    }
  }

  lemma ShowsAllStays(db: Database, later: Database, d: Snapshot, e: Snapshot)
    requires Extends(db, later) && Settled(db.tx, d) && ShowsAll(db, d, e)
    ensures ShowsAll(later, d, e)
  {
    forall p | p in later.table.rows && d.Sees(later.table.rows[p].xid)
      ensures e.Sees(later.table.rows[p].xid)
    {
      ShownInBoth(db, later, d, p);
    }
  }

  lemma BatchStays(db: Database, later: Database, owed: set<nat>, offset: nat)
    requires Extends(db, later) && owed <= db.table.rows.Keys
    ensures Slice(owed, offset + 1, later.table.nextPosition) == Slice(owed, offset + 1, db.table.nextPosition)
  {
    SliceBound(owed, offset + 1, db.table.nextPosition, later.table.nextPosition);
  }

  lemma LaneStays(db: Database, later: Database, key: Key, lane: Lane, limit: nat, heard: seq<nat>, unheard: set<nat>)
    requires Extends(db, later) && LaneInv(db, key, lane, limit, heard, unheard)
    ensures LaneInv(later, key, lane, limit, heard, unheard)
  {
    PositionStays(db, later, key, lane, limit, heard, unheard);
    WorkStays(db, later, key, lane, limit, heard, unheard);
  }

  lemma PositionStays(db: Database, later: Database, key: Key, lane: Lane, limit: nat, heard: seq<nat>, unheard: set<nat>)
    requires Extends(db, later) && PositionInv(db, key, lane, limit, heard, unheard)
    ensures PositionInv(later, key, lane, limit, heard, unheard)
  {
    var d := lane.position.delivered;
    SettledStays(db.tx, later.tx, d);
    forall p | Matches(later.table, key, p) && later.Landed(p) && d.Sees(later.table.rows[p].xid)
      ensures p in Accounted(lane)
    {
      ShownInBoth(db, later, d, p);
    }
    GoneStay(db, later, d);
    if lane.position.epoch.Some? {
      EpochInvStays(db, later, key, d, lane.position.epoch.value, limit, Accounted(lane), unheard);
    }
  }

  lemma GoneStay(db: Database, later: Database, d: Snapshot)
    requires Extends(db, later) && ShowsTheGone(db, d)
    ensures ShowsTheGone(later, d)
  {
    forall p | p in later.table.gone && later.Landed(p)
      ensures d.Sees(later.table.rows[p].xid)
    {
      assert db.tx.Ended(db.table.rows[p].xid);
    }
  }

  lemma OwedAreRows(db: Database, key: Key, d: Snapshot, e: Snapshot)
    requires db.Valid()
    ensures Owed(db, key, d, e) <= db.table.rows.Keys
    ensures forall p :: p in Owed(db, key, d, e) ==> p < db.table.nextPosition
  {
  }

  lemma WorkStays(db: Database, later: Database, key: Key, lane: Lane, limit: nat, heard: seq<nat>, unheard: set<nat>)
    requires Extends(db, later) && Settled(db.tx, lane.position.delivered) && WorkInv(db, key, lane, limit, heard, unheard)
    ensures WorkInv(later, key, lane, limit, heard, unheard)
  {
    hide Owed, Slice, First, ShowsAll, ClosedUnderCommit, Records, EndsAt;
    var d := lane.position.delivered;
    if lane.work.Some? {
      match lane.work.value
      case Looked =>
      case Snapped(e) =>
        SettledStays(db.tx, later.tx, e);
        ShowsAllStays(db, later, d, e);
        ClosedStays(db, later, e);
      case Nothing(e) =>
        SettledStays(db.tx, later.tx, e);
        ShowsAllStays(db, later, d, e);
        OwedStays(db, later, key, d, e);
      case Started(e) =>
        EpochInvStays(db, later, key, d, e, limit, Accounted(lane), unheard);
      case Batched(e, batch, told) =>
        EpochInvStays(db, later, key, d, e, limit, Accounted(lane), unheard);
        OwedStays(db, later, key, d, e.snapshot);
        OwedAreRows(db, key, d, e.snapshot);
        BatchStays(db, later, Owed(db, key, d, e.snapshot), e.offset);
    }
  }

  lemma OrderStays(db: Database, later: Database, key: Key, heard: seq<nat>, unheard: set<nat>)
    requires Extends(db, later) && InCommitOrder(db, key, heard, unheard)
    ensures InCommitOrder(later, key, heard, unheard)
  {
    forall i, a | 0 <= i < |heard| && PrecedesInCommit(later, key, a, heard[i]) && a !in unheard && heard[i] !in unheard
      ensures a in heard[..i]
    {
      assert later.table.rows[a].xid in db.table.drawnBefore;
      assert a in db.table.rows;
      assert PrecedesInCommit(db, key, a, heard[i]);
    }
  }
}
