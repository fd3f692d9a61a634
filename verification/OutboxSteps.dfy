/** Every step of the outbox keeps its invariant, one lemma for each kind of step. */
module OutboxSteps {
  import opened Snapshots
  import opened Ascending
  import opened OutboxDatabase
  import opened Options
  import opened OutboxRelay
  import opened OutboxProtocol
  import opened OutboxInvariant

  // Anyone's transactions.

  /** New rows are not of the partition a pass holds. */
  ghost predicate SparesPartition(s: State, later: Database)
    requires s.db.Valid()
  {
    forall p :: p in later.table.rows && p !in s.db.table.rows ==>
      !HoldsPartition(s.holder, s.db.table.ring.GenerationOf(later.table.rows[p].xid))
  }

  lemma HolderStays(s: State, later: Database)
    requires Inv(s) && Extends(s.db, later) && SparesPartition(s, later) && s.db.tx.next <= later.tx.next
    ensures HolderInv(s.(db := later))
  {
    match s.holder
    case Free =>
    case Moving(_, _, snapshot) =>
      SettledStays(s.db.tx, later.tx, snapshot);
      GoneStay(s.db, later, snapshot);
    case Reclaiming(pass) =>
      if HoldsPartition(s.holder, pass.generation) {
        HeldPartitionStays(s, later, pass.generation);
      }
  }

  /** Nothing lands in a partition a pass holds. */
  lemma HeldPartitionStays(s: State, later: Database, g: nat)
    requires s.db.Valid() && Extends(s.db, later) && SparesPartition(s, later)
    requires HoldsPartition(s.holder, g) && WritersEnded(s.db, g)
    ensures WritersEnded(later, g)
    ensures forall p :: LeftIn(later, g, p) ==> LeftIn(s.db, g, p) && later.table.rows[p] == s.db.table.rows[p]
  {
    forall p | p in later.table.rows && later.table.GenerationOf(p) == g
      ensures p in s.db.table.rows && s.db.tx.Ended(s.db.table.rows[p].xid)
      ensures later.Landed(p) == s.db.Landed(p)
    {
      assert p in s.db.table.rows;
      assert s.db.table.GenerationOf(p) == g;
    }
  }

  lemma DatabaseMovesOn(s: State, later: Database)
    requires Inv(s) && Extends(s.db, later) && SparesPartition(s, later) && s.db.tx.next <= later.tx.next
    ensures Inv(s.(db := later))
  {
    hide LaneInv, InCommitOrder, HolderInv, SparesPartition, MovesOn, Grows;
    HolderStays(s, later);
    var after := s.(db := later);
    forall k | k in after.lanes
      ensures LaneInv(later, k, after.lanes[k], after.limit, Heard(after, k), Unheard(after, k))
    {
      LaneStays(s.db, later, k, s.lanes[k], s.limit, Heard(s, k), Unheard(s, k));
    }
    forall k
      ensures InCommitOrder(later, k, Heard(after, k), Unheard(after, k))
    {
      OrderStays(s.db, later, k, Heard(s, k), Unheard(s, k));
    }
  }

  lemma BeginTxKeeps(s: State, bystander: bool)
    requires Inv(s)
    ensures Inv(s.(db := Begin(s.db, bystander)))
  {
    BeginExtends(s.db, bystander);
    DatabaseMovesOn(s, Begin(s.db, bystander));
  }

  lemma InsertRowKeeps(s: State, row: Row)
    requires Inv(s) && Enabled(s, InsertRow(row))
    ensures Inv(s.(db := Insert(s.db, row)))
  {
    InsertExtends(s.db, row);
    DatabaseMovesOn(s, Insert(s.db, row));
  }

  lemma CommitTxKeeps(s: State, xid: nat)
    requires Inv(s) && Enabled(s, CommitTx(xid))
    ensures Inv(s.(db := Commit(s.db, xid)))
  {
    CommitExtends(s.db, xid);
    DatabaseMovesOn(s, Commit(s.db, xid));
  }

  lemma AbortTxKeeps(s: State, xid: nat)
    requires Inv(s) && Enabled(s, AbortTx(xid))
    ensures Inv(s.(db := Abort(s.db, xid)))
  {
    AbortExtends(s.db, xid);
    DatabaseMovesOn(s, Abort(s.db, xid));
  }

  // A position row.

  /** A position row may change while a pass has rechecked only by showing more. */
  ghost predicate MayMove(s: State, k: Key, lane: Lane)
    requires s.db.Valid()
  {
    AtStage(s, Rechecked) ==>
      k in s.lanes && ShowsAll(s.db, s.lanes[k].position.delivered, lane.position.delivered)
  }

  lemma LaneMoves(s: State, later: State, k: Key, lane: Lane)
    requires Inv(s) && later.db == s.db && later.limit == s.limit && later.holder == s.holder
    requires later.lanes == s.lanes[k := lane]
    requires forall j :: j != k ==> Heard(later, j) == Heard(s, j) && Unheard(later, j) == Unheard(s, j)
    requires LaneInv(s.db, k, lane, s.limit, Heard(later, k), Unheard(later, k))
    requires InCommitOrder(s.db, k, Heard(later, k), Unheard(later, k))
    requires MayMove(s, k, lane)
    ensures Inv(later)
  {
    hide LaneInv, InCommitOrder;
    forall j | j in later.lanes
      ensures LaneInv(later.db, j, later.lanes[j], later.limit, Heard(later, j), Unheard(later, j))
    {
      assert j == k || (j in s.lanes && later.lanes[j] == s.lanes[j]);
    }
    forall j
      ensures InCommitOrder(later.db, j, Heard(later, j), Unheard(later, j))
    {
      assert j == k || Heard(later, j) == Heard(s, j);
    }
  }

  /** More rows moved past unheard, before anything of this position is handed on. */
  lemma MoreUnheard(db: Database, key: Key, heard: seq<nat>, unheard: set<nat>, more: set<nat>)
    requires InCommitOrder(db, key, heard, unheard)
    ensures InCommitOrder(db, key, heard, unheard + more)
  {
  }

  lemma CreateKeeps(s: State, k: Key, own: set<nat>)
    requires Inv(s) && Enabled(s, Create(k, own))
    ensures Inv(Apply(s, Create(k, own)))
  {
    hide InCommitOrder, HolderInv, EpochInv, ShowsTheGone;
    var now := s.db.tx.CurrentSnapshot(own);
    CurrentIsSettled(s.db, own);
    NewSnapshotShowsTheGone(s.db, own);
    BelowIsSettled(s.db.tx, now, s.db.table.intactFrom);
    var later := Apply(s, Create(k, own));
    BelowShowsTheGone(s.db, now, s.db.table.intactFrom);
    MoreUnheard(s.db, k, Heard(s, k), Unheard(s, k), later.lanes[k].skipped);
    LaneMoves(s, later, k, later.lanes[k]);
  }

  /** Every row emptied and landed had been committed, and shows in any snapshot taken now. */
  lemma NewSnapshotShowsTheGone(db: Database, own: set<nat>)
    requires db.Valid() && own <= db.tx.bystanders
    ensures ShowsTheGone(db, db.tx.CurrentSnapshot(own))
  {
    forall p | p in db.table.gone && db.Landed(p)
      ensures db.tx.CurrentSnapshot(own).Sees(db.table.rows[p].xid)
    {
      CurrentSnapshotShows(db.tx, own, db.table.rows[p].xid);
    }
  }

  lemma BelowIsSettled(tx: Transactions, s: Snapshot, f: nat)
    requires Settled(tx, s) && 1 <= f
    ensures Settled(tx, s.Below(f))
  {
    BelowIsValid(s, f);
    forall x: nat
      ensures s.Below(f).Sees(x) ==> s.Sees(x)
    {
      BelowKeepsExactly(s, f, x);
    }
  }

  /** What was emptied lies below `intact_from`: a rewind not below it, and a new group
      at it, keep it shown. */
  lemma BelowShowsTheGone(db: Database, s: Snapshot, f: nat)
    requires db.Valid() && ShowsTheGone(db, s) && db.table.intactFrom <= f
    ensures ShowsTheGone(db, s.Below(f))
  {
    forall p | p in db.table.gone && db.Landed(p)
      ensures s.Below(f).Sees(db.table.rows[p].xid)
    {
      BelowKeepsExactly(s, f, db.table.rows[p].xid);
    }
  }

  lemma CreateLaneKeeps(s: State, k: Key)
    requires Inv(s) && Enabled(s, CreateLane(k))
    ensures Inv(Apply(s, CreateLane(k)))
  {
    hide InCommitOrder, HolderInv, EpochInv, Settled, ShowsTheGone;
    var later := Apply(s, CreateLane(k));
    MoreUnheard(s.db, k, Heard(s, k), Unheard(s, k), later.lanes[k].skipped);
    LaneMoves(s, later, k, later.lanes[k]);
  }

  lemma UpToIsSettled(tx: Transactions, l: nat)
    requires tx.Valid() && 1 <= l <= tx.latest + 1 && forall x :: 1 <= x < l ==> tx.Ended(x)
    ensures Settled(tx, Snapshot(l, l, []))
  {
  }

  /** The rest of transaction `l`, exactly: what the older relay handed on of it is before its offset. */
  lemma ConvertedIsExact(db: Database, key: Key, l: nat, offset: nat, limit: nat, accounted: set<nat>, unheard: set<nat>)
    requires db.Valid() && 1 <= l <= db.tx.latest && forall x :: 1 <= x <= l ==> db.tx.Ended(x)
    requires var e := ConvertedPosition(db, key, l, offset).epoch.value;
             (forall p :: p in e.handed ==> p in accounted) && ShownRows(db, key, e.snapshot) <= unheard
    ensures var position := ConvertedPosition(db, key, l, offset);
            EpochInv(db, key, position.delivered, position.epoch.value, limit, accounted, unheard)
  {
    hide Slice;
    var position := ConvertedPosition(db, key, l, offset);
    var e := position.epoch.value;
    UpToIsSettled(db.tx, l + 1);
    assert Owed(db, key, position.delivered, e.snapshot) <= ShownRows(db, key, e.snapshot);
  }

  lemma ConvertedKeeps(s: State, k: Key, l: nat, offset: nat)
    requires Inv(s) && Enabled(s, Convert(k, l, offset)) && 1 <= l
    ensures Inv(Apply(s, Convert(k, l, offset)))
  {
    hide InCommitOrder, HolderInv, Slice, Settled, EpochInv;
    var later := Apply(s, Convert(k, l, offset));
    var lane := later.lanes[k];
    var e := lane.position.epoch.value;
    UpToIsSettled(s.db.tx, l);
    var passed := ShownRows(s.db, k, e.snapshot);
    SliceHasExactly(Owed(s.db, k, lane.position.delivered, e.snapshot), 0, offset + 1);
    assert lane.skipped <= passed;
    ConvertedIsExact(s.db, k, l, offset, s.limit, Accounted(lane), Unheard(later, k));
    MoreUnheard(s.db, k, Heard(s, k), Unheard(s, k), passed);
    LaneMoves(s, later, k, lane);
  }

  lemma ConvertKeeps(s: State, k: Key, l: nat, offset: nat)
    requires Inv(s) && Enabled(s, Convert(k, l, offset))
    ensures Inv(Apply(s, Convert(k, l, offset)))
  {
    hide InCommitOrder, HolderInv, EpochInv, LaneInv;
    if l > 0 {
      ConvertedKeeps(s, k, l, offset);
    } else {
      var later := Apply(s, Convert(k, l, offset));
      NothingIsFine(s.db, k, s.limit, Heard(later, k), Unheard(later, k));
      MoreUnheard(s.db, k, Heard(s, k), Unheard(s, k), {});
      LaneMoves(s, later, k, later.lanes[k]);
    }
  }

  lemma NothingIsFine(db: Database, key: Key, limit: nat, heard: seq<nat>, unheard: set<nat>)
    requires db.Valid() && db.table.gone == {}
    ensures LaneInv(db, key, Lane(Position(NOTHING, None), None, {}, {}), limit, heard, unheard)
  {
  }

  lemma ForgetKeeps(s: State, k: Key)
    requires Inv(s) && Enabled(s, Forget(k))
    ensures Inv(Apply(s, Forget(k)))
  {
    hide LaneInv, InCommitOrder;
    var later := Apply(s, Forget(k));
    forall j | j in later.lanes
      ensures LaneInv(later.db, j, later.lanes[j], later.limit, Heard(later, j), Unheard(later, j))
    {
      assert LaneInv(s.db, j, s.lanes[j], s.limit, Heard(s, j), Unheard(s, j));
    }
    forall j
      ensures InCommitOrder(later.db, j, Heard(later, j), Unheard(later, j))
    {
      assert InCommitOrder(s.db, j, Heard(s, j), Unheard(s, j));
    }
  }

  // A dispatcher.

  /** The dispatcher's own transaction goes on, the row as committed unchanged. */
  lemma WorkMoves(s: State, k: Key, work: Option<Work>)
    requires Inv(s) && k in s.lanes
    requires WorkInv(s.db, k, s.lanes[k].(work := work), s.limit, Heard(s, k), Unheard(s, k))
    ensures Inv(WithWork(s, k, work))
  {
    hide InCommitOrder, HolderInv, EpochInv, Slice, First, Owed;
    var lane := s.lanes[k].(work := work);
    LaneMoves(s, WithWork(s, k, work), k, lane);
  }

  lemma LookKeeps(s: State, k: Key)
    requires Inv(s) && Enabled(s, Look(k))
    ensures Inv(Apply(s, Look(k)))
  {
    WorkMoves(s, k, Some(Looked));
  }

  lemma RollBackKeeps(s: State, k: Key)
    requires Inv(s) && Enabled(s, RollBack(k))
    ensures Inv(Apply(s, RollBack(k)))
  {
    WorkMoves(s, k, None);
  }

  lemma TakeSnapshotKeeps(s: State, k: Key, own: set<nat>)
    requires Inv(s) && Enabled(s, TakeSnapshot(k, own))
    ensures Inv(Apply(s, TakeSnapshot(k, own)))
  {
    var now := s.db.tx.CurrentSnapshot(own);
    CurrentIsSettled(s.db, own);
    NowShowsAll(s.db, own, s.lanes[k].position.delivered);
    WorkMoves(s, k, Some(Snapped(now)));
  }

  /** A snapshot taken now shows every row any earlier one shows. */
  lemma NowShowsAll(db: Database, own: set<nat>, earlier: Snapshot)
    requires db.Valid() && own <= db.tx.bystanders && Settled(db.tx, earlier)
    ensures ShowsAll(db, earlier, db.tx.CurrentSnapshot(own))
  {
    forall p | p in db.table.rows && earlier.Sees(db.table.rows[p].xid)
      ensures db.tx.CurrentSnapshot(own).Sees(db.table.rows[p].xid)
    {
      CurrentContains(db.tx, own, earlier, db.table.rows[p].xid);
    }
  }

  /** Every row the epoch owes can be read: owed rows are never emptied, and a statement
      after the epoch's snapshot sees what it shows. */
  lemma OwedAreReadable(db: Database, own: set<nat>, key: Key, d: Snapshot, e: Snapshot)
    requires db.Valid() && own <= db.tx.bystanders && ShowsTheGone(db, d) && Settled(db.tx, e)
    ensures forall p :: p in Owed(db, key, d, e) ==> Readable(db, db.tx.CurrentSnapshot(own), p)
  {
    forall p | p in Owed(db, key, d, e)
      ensures Readable(db, db.tx.CurrentSnapshot(own), p)
    {
      CurrentContains(db.tx, own, e, db.table.rows[p].xid);
    }
  }

  /** What the start's statement records is exact: every row owed is covered. */
  lemma StartRecords(db: Database, own: set<nat>, key: Key, d: Snapshot, e: Snapshot)
    requires db.Valid() && own <= db.tx.bystanders && ShowsTheGone(db, d) && Settled(db.tx, d) && Settled(db.tx, e)
    ensures var rows := StartRows(db, db.tx.CurrentSnapshot(own), key, d, e);
            rows == Owed(db, key, d, e)
            && Records(db.table, rows, GenerationsFound(db.table, rows, db.table.ring.generations))
  {
    OwedAreReadable(db, own, key, d, e);
    StartFindsTheOwed(db, db.tx.CurrentSnapshot(own), key, d, e);
    FoundRecords(db.table, Owed(db, key, d, e), db.table.ring.generations);
  }

  /** The highest position recorded is the last row's. */
  lemma HighestIsTheLast(table: Table, owed: set<nat>, found: seq<Generation>)
    requires table.ring.Valid() && Records(table, owed, found) && owed <= table.rows.Keys
    ensures HighestLast(found).None? <==> owed == {}
    ensures HighestLast(found).Some? ==> HighestLast(found).value in owed
                                         && forall p :: p in owed ==> p <= HighestLast(found).value
    ensures LowestFirst(found).None? <==> owed == {}
    ensures LowestFirst(found).Some? ==> LowestFirst(found).value in owed
                                         && forall p :: p in owed ==> LowestFirst(found).value <= p
  {
    HighestLastIs(found);
    LowestFirstIs(found);
    forall p | p in owed
      ensures found != [] && LowestFirst(found).value <= p <= HighestLast(found).value
    {
      assert Covers(found, table.GenerationOf(p), p);
    }
    if found != [] {
      assert found[0].first in owed;
    }
  }

  /** A converted epoch given its end is exact, with every row of it recorded. */
  lemma EndIsGiven(db: Database, own: set<nat>, key: Key, d: Snapshot, e: Epoch, limit: nat, accounted: set<nat>, unheard: set<nat>)
    requires db.Valid() && own <= db.tx.bystanders && ShowsTheGone(db, d) && Settled(db.tx, d)
    requires EpochInv(db, key, d, e, limit, accounted, unheard) && e.end.None?
    ensures var rows := StartRows(db, db.tx.CurrentSnapshot(own), key, d, e.snapshot);
            var ended := WithEnd(e, GenerationsFound(db.table, rows, db.table.ring.generations));
            ended.end.Some? && EpochInv(db, key, d, ended, limit, accounted, unheard)
  {
    hide GenerationsFound, StartRows, Records, Settled, ClosedUnderCommit, Slice, LowestFirst, HighestLast, Owed;
    OwedAreRows(db, key, d, e.snapshot);
    var owed := Owed(db, key, d, e.snapshot);
    StartRecords(db, own, key, d, e.snapshot);
    var found := GenerationsFound(db.table, owed, db.table.ring.generations);
    HighestIsTheLast(db.table, owed, found);
    var ended := WithEnd(e, found);
    assert EpochIsExact(owed, ended, limit);
  }

  lemma StartStoredKeeps(s: State, k: Key, own: set<nat>)
    requires Inv(s) && Enabled(s, StartEpoch(k, own)) && s.lanes[k].work.value.Looked?
    ensures Inv(Apply(s, StartEpoch(k, own)))
  {
    hide GenerationsFound, StartRows, EpochInv, ShowsTheGone, ShownAreAccounted, InCommitOrder, HolderInv;
    var lane := s.lanes[k];
    var d, e := lane.position.delivered, lane.position.epoch.value;
    if e.end.None? {
      EndIsGiven(s.db, own, k, d, e, s.limit, Accounted(lane), Unheard(s, k));
    }
    var work := StartWork(s.db, k, lane, s.db.tx.CurrentSnapshot(own));
    WorkMoves(s, k, Some(work));
  }

  /** A new epoch starts before its first row and ends at its last, or has none. */
  lemma EpochIsBegun(db: Database, own: set<nat>, key: Key, d: Snapshot, e: Snapshot, limit: nat, accounted: set<nat>, unheard: set<nat>)
    requires db.Valid() && own <= db.tx.bystanders && ShowsTheGone(db, d) && Settled(db.tx, d)
    requires Settled(db.tx, e) && ShowsAll(db, d, e) && ClosedUnderCommit(db, e)
    ensures var rows := StartRows(db, db.tx.CurrentSnapshot(own), key, d, e);
            var found := GenerationsFound(db.table, rows, db.table.ring.generations);
            && (LowestFirst(found).None? ==> Owed(db, key, d, e) == {})
            && (LowestFirst(found).Some? <==> HighestLast(found).Some?)
            && (LowestFirst(found).Some? ==>
                  var first := LowestFirst(found).value;
                  EpochInv(db, key, d, Epoch(e, if first == 0 then 0 else first - 1, HighestLast(found), found, [], 0, 0),
                           limit, accounted, unheard))
  {
    hide First, GenerationsFound, LowestFirst, HighestLast, StartRows, Records;
    var owed := Owed(db, key, d, e);
    StartRecords(db, own, key, d, e);
    var found := GenerationsFound(db.table, owed, db.table.ring.generations);
    HighestIsTheLast(db.table, owed, found);
    if LowestFirst(found).Some? {
      var first := LowestFirst(found).value;
      SliceOfNone(owed, 0, (if first == 0 then 0 else first - 1) + 1);
    }
  }

  lemma StartNewKeeps(s: State, k: Key, own: set<nat>)
    requires Inv(s) && Enabled(s, StartEpoch(k, own)) && s.lanes[k].work.value.Snapped?
    ensures Inv(Apply(s, StartEpoch(k, own)))
  {
    hide First, Slice, Owed, EpochInv, InCommitOrder, ShowsTheGone, ShownAreAccounted, GenerationsFound, StartRows, HolderInv;
    var lane := s.lanes[k];
    EpochIsBegun(s.db, own, k, lane.position.delivered, lane.work.value.snapshot, s.limit, Accounted(lane), Unheard(s, k));
    WorkMoves(s, k, Some(StartWork(s.db, k, lane, s.db.tx.CurrentSnapshot(own))));
  }

  lemma ReadTheBatchKeeps(s: State, k: Key, own: set<nat>)
    requires Inv(s) && Enabled(s, ReadTheBatch(k, own))
    ensures Inv(Apply(s, ReadTheBatch(k, own)))
  {
    hide Slice, First, EpochIsExact, ReadBatch, InCommitOrder, HolderInv, Readable, ClosedUnderCommit, ShownAreAccounted;
    var lane := s.lanes[k];
    var d, e := lane.position.delivered, lane.work.value.epoch;
    var statement := s.db.tx.CurrentSnapshot(own);
    OwedAreReadable(s.db, own, k, d, e.snapshot);
    BatchIsTheNextOwed(s.db, statement, k, d, e, s.limit);
    WorkMoves(s, k, Some(Batched(e, ReadBatch(s.db, statement, k, d, e, s.limit), 0)));
  }

  /** A row before `b` in the epoch was handed on in it already, or comes earlier in the batch. */
  lemma EarlierIsTold(owed: set<nat>, e: Epoch, limit: nat, batch: seq<nat>, told: nat, next: nat, a: nat)
    requires EpochIsExact(owed, e, limit) && batch == First(Slice(owed, e.offset + 1, next), limit)
    requires told < |batch| && a in owed && a < batch[told]
    ensures a in e.handed || a in batch[..told]
  {
    var rest := Slice(owed, e.offset + 1, next);
    if a <= e.offset {
      SliceHasExactly(owed, 0, e.offset + 1);
    } else {
      SliceUpTo(owed, e.offset + 1, next, told);
      SliceHasExactly(owed, e.offset + 1, batch[told] + 1);
      var upto := rest[..told + 1];
      assert a in upto;
      assert upto == batch[..told] + [batch[told]];
    }
  }

  /** What precedes a row of the epoch in commit order is a row of the epoch, or was
      shown by `delivered` already. */
  lemma PrecedingIsInEpoch(db: Database, key: Key, d: Snapshot, e: Snapshot, a: nat, b: nat)
    requires db.Valid() && ClosedUnderCommit(db, e) && b in Owed(db, key, d, e) && PrecedesInCommit(db, key, a, b)
    ensures a < b && db.Landed(a) && (d.Sees(db.table.rows[a].xid) || a in Owed(db, key, d, e))
  {
  }

  lemma BatchIsOwed(owed: set<nat>, offset: nat, next: nat, limit: nat, batch: seq<nat>)
    requires batch == First(Slice(owed, offset + 1, next), limit)
    ensures forall p :: p in batch ==> p in owed && offset < p < next
  {
    SliceHasExactly(owed, offset + 1, next);
    var rest := Slice(owed, offset + 1, next);
    assert forall p :: p in First(rest, limit) ==> p in rest;
  }

  /** The next message of a batch is behind every row that precedes it in commit order. */
  lemma NextIsInOrder(db: Database, key: Key, lane: Lane, limit: nat, heard: seq<nat>, unheard: set<nat>, a: nat)
    requires db.Valid() && LaneInv(db, key, lane, limit, heard, unheard)
    requires lane.work.Some? && lane.work.value.Batched? && lane.work.value.told < |lane.work.value.batch|
    requires PrecedesInCommit(db, key, a, lane.work.value.batch[lane.work.value.told])
    requires a !in unheard && lane.work.value.batch[lane.work.value.told] !in unheard
    ensures a in heard
  {
    hide First, Slice, Records, EndsAt;
    var d, work := lane.position.delivered, lane.work.value;
    var e, b := work.epoch, work.batch[work.told];
    var owed := Owed(db, key, d, e.snapshot);
    BatchIsOwed(owed, e.offset, db.table.nextPosition, limit, work.batch);
    assert b in work.batch;
    PrecedingIsInEpoch(db, key, d, e.snapshot, a, b);
    if !d.Sees(db.table.rows[a].xid) {
      EarlierIsTold(owed, e, limit, work.batch, work.told, db.table.nextPosition, a);
    }
    assert a in Accounted(lane) || a in work.batch[..work.told];
  }

  /** One more message handed on, in commit order. */
  lemma OrderGrows(db: Database, key: Key, heard: seq<nat>, unheard: set<nat>, b: nat)
    requires InCommitOrder(db, key, heard, unheard) && b < db.table.nextPosition
    requires forall a :: PrecedesInCommit(db, key, a, b) && a !in unheard && b !in unheard ==> a in heard
    ensures InCommitOrder(db, key, heard + [b], unheard)
  {
    var after := heard + [b];
    forall i, a | 0 <= i < |after| && PrecedesInCommit(db, key, a, after[i]) && a !in unheard && after[i] !in unheard
      ensures a in after[..i]
    {
      assert after[..i] == heard[..i];
    }
  }

  lemma TellKeeps(s: State, k: Key)
    requires Inv(s) && Enabled(s, Tell(k))
    ensures Inv(Apply(s, Tell(k)))
  {
    hide First, Slice, Owed, InCommitOrder, HolderInv, LaneInv, ShowsAll;
    var later, work := Apply(s, Tell(k)), s.lanes[k].work.value;
    ToldInOrder(s, k);
    ToldLane(s.db, k, s.lanes[k], s.limit, Heard(s, k), Unheard(s, k));
    MovesNothing(s, k, later.lanes[k]);
    LaneMoves(s, later, k, later.lanes[k]);
  }

  lemma MovesNothing(s: State, k: Key, lane: Lane)
    requires Inv(s) && k in s.lanes && lane.position.delivered == s.lanes[k].position.delivered
    ensures MayMove(s, k, lane)
  {
  }

  lemma ToldLane(db: Database, k: Key, lane: Lane, limit: nat, heard: seq<nat>, unheard: set<nat>)
    requires db.Valid() && LaneInv(db, k, lane, limit, heard, unheard)
    requires lane.work.Some? && lane.work.value.Batched? && lane.work.value.told < |lane.work.value.batch|
    ensures var work := lane.work.value;
            LaneInv(db, k, lane.(work := Some(work.(told := work.told + 1))), limit, heard + [work.batch[work.told]], unheard)
  {
    hide First, Slice, Owed, EpochInv, ShowsTheGone, ShownAreAccounted, Settled;
  }

  /** The next message of the batch, handed on, is in commit order. */
  lemma ToldInOrder(s: State, k: Key)
    requires Inv(s) && Enabled(s, Tell(k))
    ensures var work := s.lanes[k].work.value;
            InCommitOrder(s.db, k, Heard(s, k) + [work.batch[work.told]], Unheard(s, k))
  {
    hide First, Slice, Owed, EpochInv, InCommitOrder, HolderInv, PrecedesInCommit, ShowsTheGone, ShownAreAccounted, Settled;
    var lane := s.lanes[k];
    var work, heard := lane.work.value, Heard(s, k);
    var b := work.batch[work.told];
    BatchIsOwed(Owed(s.db, k, lane.position.delivered, work.epoch.snapshot), work.epoch.offset, s.db.table.nextPosition,
                s.limit, work.batch);
    assert b in work.batch;
    forall a | PrecedesInCommit(s.db, k, a, b) && a !in Unheard(s, k) && b !in Unheard(s, k)
      ensures a in heard
    {
      NextIsInOrder(s.db, k, lane, s.limit, heard, Unheard(s, k), a);
    }
    OrderGrows(s.db, k, heard, Unheard(s, k), b);
  }

  /** The rows of a batch after those handed on before make the epoch's rows up to its last. */
  lemma BatchContinues(owed: set<nat>, e: Epoch, batch: seq<nat>, limit: nat, next: nat)
    requires EpochIsExact(owed, e, limit) && forall p :: p in owed ==> p < next
    requires batch == First(Slice(owed, e.offset + 1, next), limit)
    ensures |batch| < limit ==> e.handed + batch == Slice(owed, 0, next) && forall p :: p in owed ==> p in e.handed + batch
    ensures |batch| == limit > 0 ==> e.offset < batch[limit - 1] && e.handed + batch == Slice(owed, 0, batch[limit - 1] + 1)
  {
    var rest := Slice(owed, e.offset + 1, next);
    if |batch| < limit {
      assert batch == rest;
      if e.offset + 1 <= next {
        SliceSplits(owed, 0, e.offset + 1, next);
      } else {
        SliceBound(owed, 0, next, e.offset + 1);
      }
      SliceHasExactly(owed, 0, next);
    } else if limit > 0 {
      SliceUpTo(owed, e.offset + 1, next, limit - 1);
      var last := batch[limit - 1];
      SliceSplits(owed, 0, e.offset + 1, last + 1);
      assert batch == rest[..limit];
    }
  }

  lemma AckNothingKeeps(s: State, k: Key)
    requires Inv(s) && Enabled(s, Ack(k)) && s.lanes[k].work.value.Nothing?
    ensures Inv(Apply(s, Ack(k)))
  {
    hide InCommitOrder, HolderInv, EpochInv, Owed, ClosedUnderCommit;
    var lane, later := s.lanes[k], Apply(s, Ack(k));
    var d, e := lane.position.delivered, lane.work.value.snapshot;
    assert later.lanes[k].accepted == lane.accepted;
    DeliveredMoves(s.db, k, d, e, Accounted(lane), Accounted(lane));
    LaneMoves(s, later, k, later.lanes[k]);
  }

  lemma AckKeeps(s: State, k: Key)
    requires Inv(s) && Enabled(s, Ack(k))
    ensures Inv(Apply(s, Ack(k)))
  {
    hide Inv;
    if s.lanes[k].work.value.Nothing? {
      AckNothingKeeps(s, k);
    } else if |s.lanes[k].work.value.batch| < s.limit {
      AckDrainedKeeps(s, k);
    } else {
      AckFullKeeps(s, k);
    }
  }

  /** `delivered` moved to an epoch whose every row is accounted for. */
  lemma DeliveredMoves(db: Database, key: Key, d: Snapshot, e: Snapshot, accounted: set<nat>, more: set<nat>)
    requires db.Valid() && ShowsTheGone(db, d) && ShownAreAccounted(db, key, d, accounted) && ShowsAll(db, d, e)
    requires accounted <= more && Owed(db, key, d, e) <= more
    ensures ShowsTheGone(db, e) && ShownAreAccounted(db, key, e, more)
  {
    forall p | Matches(db.table, key, p) && db.Landed(p) && e.Sees(db.table.rows[p].xid)
      ensures p in more
    {
      assert d.Sees(db.table.rows[p].xid) || p in Owed(db, key, d, e);
    }
  }

  /** A full batch committed leaves the epoch exact, and every row of it up to its offset accounted for. */
  lemma EpochGoesOn(db: Database, key: Key, d: Snapshot, e: Epoch, limit: nat, batch: seq<nat>, accounted: set<nat>, unheard: set<nat>)
    requires db.Valid() && 1 <= limit && e.end.Some? && EpochInv(db, key, d, e, limit, accounted, unheard)
    requires batch == First(Slice(Owed(db, key, d, e.snapshot), e.offset + 1, db.table.nextPosition), limit) && |batch| == limit
    ensures var moved := e.(offset := batch[limit - 1], handed := e.handed + batch, batches := e.batches + 1);
            EpochInv(db, key, d, moved, limit, accounted + (set p | p in batch), unheard)
  {
    hide First, Slice, Records;
    var owed := Owed(db, key, d, e.snapshot);
    BatchContinues(owed, e, batch, limit, db.table.nextPosition);
    EndIsFurther(owed, e, batch, limit, db.table.nextPosition);
    assert (e.batches + 1) * limit == e.batches * limit + limit;
  }

  lemma AckFullKeeps(s: State, k: Key)
    requires Inv(s) && Enabled(s, Ack(k)) && s.lanes[k].work.value.Batched? && |s.lanes[k].work.value.batch| >= s.limit
    ensures Inv(Apply(s, Ack(k)))
  {
    hide LaneInv, InCommitOrder, HolderInv, ShowsAll, AckedLane;
    var later := Apply(s, Ack(k));
    FullBatchMoves(s.db, k, s.lanes[k], s.limit, Heard(s, k), Unheard(s, k));
    MovesNothing(s, k, later.lanes[k]);
    LaneMoves(s, later, k, later.lanes[k]);
  }

  /** A full batch accepted moves the epoch on, and `delivered` not at all. */
  lemma FullBatchMoves(db: Database, k: Key, lane: Lane, limit: nat, heard: seq<nat>, unheard: set<nat>)
    requires db.Valid() && LaneInv(db, k, lane, limit, heard, unheard) && 1 <= limit
    requires lane.work.Some? && lane.work.value.Batched? && |lane.work.value.batch| >= limit
    requires lane.work.value.told == |lane.work.value.batch|
    ensures AckedLane(lane, limit).position.delivered == lane.position.delivered
    ensures LaneInv(db, k, AckedLane(lane, limit), limit, heard, unheard)
  {
    hide First, Slice, Owed, EpochInv, ShowsTheGone, Settled;
    var after, work := AckedLane(lane, limit), lane.work.value;
    EpochGoesOn(db, k, lane.position.delivered, work.epoch, limit, work.batch, Accounted(lane), unheard);
    assert Accounted(after) == Accounted(lane) + (set p | p in work.batch);
  }

  lemma AckDrainedKeeps(s: State, k: Key)
    requires Inv(s) && Enabled(s, Ack(k)) && s.lanes[k].work.value.Batched? && |s.lanes[k].work.value.batch| < s.limit
    ensures Inv(Apply(s, Ack(k)))
  {
    hide First, Slice, InCommitOrder, HolderInv, Records, ClosedUnderCommit, Settled, Owed, ShowsTheGone, ShownAreAccounted;
    OwedAreRows(s.db, k, s.lanes[k].position.delivered, s.lanes[k].work.value.epoch.snapshot);
    var lane, later := s.lanes[k], Apply(s, Ack(k));
    var after, work := later.lanes[k], lane.work.value;
    var d, e := lane.position.delivered, work.epoch;
    BatchContinues(Owed(s.db, k, d, e.snapshot), e, work.batch, s.limit, s.db.table.nextPosition);
    assert Owed(s.db, k, d, e.snapshot) <= Accounted(after);
    DeliveredMoves(s.db, k, d, e.snapshot, Accounted(lane), Accounted(after));
    LaneMoves(s, later, k, after);
  }

  /** A full batch moves the offset towards the end, and not past a row. */
  lemma EndIsFurther(owed: set<nat>, e: Epoch, batch: seq<nat>, limit: nat, next: nat)
    requires 1 <= limit && |batch| == limit && e.end.Some? && EndsAt(owed, e.offset, e.end.value)
    requires batch == First(Slice(owed, e.offset + 1, next), limit)
    ensures EndsAt(owed, batch[limit - 1], e.end.value)
  {
    SliceUpTo(owed, e.offset + 1, next, limit - 1);
  }

  // An operator.

  /** Positions replaced for a whole selection, while nobody else holds the key. */
  lemma SelectionMoves(s: State, later: State)
    requires Inv(s) && later.db == s.db && later.limit == s.limit && later.heard == s.heard && later.holder.Free?
    requires later.lanes.Keys == s.lanes.Keys
    requires forall k :: k in s.lanes ==> LaneInv(s.db, k, later.lanes[k], s.limit, Heard(s, k), Unheard(later, k))
    requires forall k :: Unheard(s, k) <= Unheard(later, k)
    ensures Inv(later)
  {
    hide LaneInv, InCommitOrder;
    forall k
      ensures InCommitOrder(later.db, k, Heard(later, k), Unheard(later, k))
    {
      MoreUnheard(s.db, k, Heard(s, k), Unheard(s, k), Unheard(later, k));
      assert Unheard(s, k) + Unheard(later, k) == Unheard(later, k);
    }
  }

  lemma RewoundIsFine(db: Database, key: Key, lane: Lane, limit: nat, heard: seq<nat>, unheard: set<nat>, f: nat)
    requires db.Valid() && LaneInv(db, key, lane, limit, heard, unheard) && db.table.intactFrom <= f
    ensures LaneInv(db, key, RewoundLane(db, lane, f), limit, heard, unheard)
  {
    hide EpochInv, ShowsTheGone, Settled;
    var d, after := lane.position.delivered, RewoundLane(db, lane, f);
    BelowIsSettled(db.tx, d, f);
    BelowShowsTheGone(db, d, f);
    forall p | Matches(db.table, key, p) && db.Landed(p) && d.Below(f).Sees(db.table.rows[p].xid)
      ensures p in Accounted(after)
    {
      BelowKeepsExactly(d, f, db.table.rows[p].xid);
    }
  }

  lemma RewindKeeps(s: State, group: string, uri: string, f: nat)
    requires Inv(s) && Enabled(s, Rewind(group, uri, f))
    ensures Inv(Apply(s, Rewind(group, uri, f)))
  {
    hide LaneInv, InCommitOrder;
    var later := Apply(s, Rewind(group, uri, f));
    forall k | k in s.lanes
      ensures LaneInv(s.db, k, later.lanes[k], s.limit, Heard(s, k), Unheard(later, k))
    {
      RewoundIsFine(s.db, k, s.lanes[k], s.limit, Heard(s, k), Unheard(s, k), f);
    }
    SelectionMoves(s, later);
  }

  lemma BeginNowKeeps(s: State, group: string, uri: string, own: set<nat>)
    requires Inv(s) && Enabled(s, BeginNow(group, uri, own))
    ensures Inv(Apply(s, BeginNow(group, uri, own)))
  {
    CurrentIsSettled(s.db, own);
    NewSnapshotShowsTheGone(s.db, own);
    HolderMoves(s, Moving(group, uri, s.db.tx.CurrentSnapshot(own)));
  }

  lemma MovedIsFine(db: Database, key: Key, lane: Lane, limit: nat, heard: seq<nat>, unheard: set<nat>, now: Snapshot)
    requires db.Valid() && LaneInv(db, key, lane, limit, heard, unheard) && Settled(db.tx, now) && ShowsTheGone(db, now)
    ensures LaneInv(db, key, MovedLane(db, key, lane, now), limit, heard, unheard + ShownRows(db, key, now))
  {
    hide EpochInv, ShowsTheGone, Settled;
  }

  lemma FinishNowKeeps(s: State)
    requires Inv(s) && Enabled(s, FinishNow)
    ensures Inv(Apply(s, FinishNow))
  {
    hide LaneInv, InCommitOrder, ShowsTheGone, Settled;
    var later, now := Apply(s, FinishNow), s.holder.snapshot;
    forall k | k in s.lanes
      ensures LaneInv(s.db, k, later.lanes[k], s.limit, Heard(s, k), Unheard(later, k))
    {
      MovedIsFine(s.db, k, s.lanes[k], s.limit, Heard(s, k), Unheard(s, k), now);
    }
    SelectionMoves(s, later);
  }

  // The reclamation.

  lemma HolderMoves(s: State, holder: KeyHolder)
    requires Inv(s) && HolderInv(s.(holder := holder))
    ensures Inv(s.(holder := holder))
  {
    hide LaneInv, InCommitOrder, HolderInv;
    var later := s.(holder := holder);
    forall k | k in later.lanes
      ensures LaneInv(later.db, k, later.lanes[k], later.limit, Heard(later, k), Unheard(later, k))
    {
    }
    forall k
      ensures InCommitOrder(later.db, k, Heard(later, k), Unheard(later, k))
    {
      assert InCommitOrder(s.db, k, Heard(s, k), Unheard(s, k));
    }
  }

  /** Every row left is one that any statement now reads. */
  lemma LeftAreReadable(db: Database, own: set<nat>, g: nat, p: nat)
    requires db.Valid() && own <= db.tx.bystanders && LeftIn(db, g, p)
    ensures Readable(db, db.tx.CurrentSnapshot(own), p)
  {
    CurrentSnapshotShows(db.tx, own, db.table.rows[p].xid);
  }

  lemma MeasureEnds(s: State, own: set<nat>, newest: nat)
    requires Inv(s) && Enabled(s, Measure(own, newest))
    ensures newest < s.db.tx.next && EndsBy(s.db, s.holder.pass.generation, newest)
  {
    hide LaneInv, InCommitOrder;
    var g := s.holder.pass.generation;
    forall p | LeftIn(s.db, g, p)
      ensures s.db.table.rows[p].xid <= newest
    {
      LeftAreReadable(s.db, own, g, p);
    }
  }

  /** No position pins the generation: each shows every row left in it. */
  lemma UnpinnedIsPassed(s: State, own: set<nat>, g: nat, newest: nat)
    requires Inv(s) && own <= s.db.tx.bystanders && EndsBy(s.db, g, newest)
    requires !Pinned(s, s.db.tx.CurrentSnapshot(own), g, newest)
    ensures AllPassed(s, g)
  {
    hide InCommitOrder, EpochInv, WorkInv, ShowsTheGone, ShownAreAccounted, HolderInv;
    forall p, k | LeftIn(s.db, g, p) && k in s.lanes
      ensures s.lanes[k].position.delivered.Sees(s.db.table.rows[p].xid)
    {
      LeftAreReadable(s.db, own, g, p);
      var d := s.lanes[k].position.delivered;
      assert !Pins(s.db, s.db.tx.CurrentSnapshot(own), d, g, newest);
      assert HasRowOf(s.db, s.db.tx.CurrentSnapshot(own), g, s.db.table.rows[p].xid);
    }
  }

  lemma RecheckKeeps(s: State, own: set<nat>)
    requires Inv(s) && Enabled(s, Recheck(own))
    ensures Inv(Apply(s, Recheck(own)))
  {
    hide LaneInv, InCommitOrder;
    UnpinnedIsPassed(s, own, s.holder.pass.generation, s.holder.pass.newest);
    HolderMoves(s, AtNextStage(s, Rechecked).holder);
  }

  /** The database once generation `g` is emptied. */
  function AfterEmptying(db: Database, g: nat, newest: nat): Database
    requires db.table.ring.Valid()
  {
    db.(table := Emptied(db.table, g, newest))
  }

  lemma EmptiedIsValid(db: Database, g: nat, newest: nat)
    requires db.Valid() && WritersEnded(db, g) && newest < db.tx.next && EndsBy(db, g, newest)
    ensures AfterEmptying(db, g, newest).Valid()
  {
    var later := AfterEmptying(db, g, newest);
    forall p | p in later.table.gone && later.tx.IsCommitted(later.table.rows[p].xid)
      ensures later.table.rows[p].xid < later.table.intactFrom
    {
      assert p in db.table.gone || LeftIn(db, g, p);
    }
  }

  lemma EmptyingShowsTheGone(s: State, g: nat, newest: nat, k: Key)
    requires Inv(s) && AllPassed(s, g) && k in s.lanes
    ensures ShowsTheGone(AfterEmptying(s.db, g, newest), s.lanes[k].position.delivered)
  {
    hide InCommitOrder, EpochInv, WorkInv, ShownAreAccounted, HolderInv;
    var later := AfterEmptying(s.db, g, newest);
    forall p | p in later.table.gone && later.Landed(p)
      ensures s.lanes[k].position.delivered.Sees(later.table.rows[p].xid)
    {
      assert p in s.db.table.gone || LeftIn(s.db, g, p);
    }
  }

  /** Emptying takes no row a position owes, and no epoch in flight reads one it takes. */
  lemma LaneOutlivesEmptying(db: Database, g: nat, newest: nat, key: Key, lane: Lane, limit: nat, heard: seq<nat>, unheard: set<nat>)
    requires db.Valid() && AfterEmptying(db, g, newest).Valid() && LaneInv(db, key, lane, limit, heard, unheard)
    requires ShowsTheGone(AfterEmptying(db, g, newest), lane.position.delivered)
    ensures LaneInv(AfterEmptying(db, g, newest), key, lane, limit, heard, unheard)
  {
    hide ShowsTheGone, First, Slice, EpochInv;
    var d := lane.position.delivered;
    assert forall e: Snapshot :: Owed(AfterEmptying(db, g, newest), key, d, e) == Owed(db, key, d, e);
    forall e: Epoch | EpochInv(db, key, d, e, limit, Accounted(lane), unheard)
      ensures EpochInv(AfterEmptying(db, g, newest), key, d, e, limit, Accounted(lane), unheard)
    {
      EpochOutlivesEmptying(db, g, newest, key, d, e, limit, Accounted(lane), unheard);
    }
  }

  /** What an epoch says of the rows and their transactions says nothing of the rows emptied. */
  lemma SaidOfAll(db: Database, g: nat, newest: nat, d: Snapshot, e: Snapshot, owed: set<nat>, found: seq<Generation>)
    requires db.Valid() && AfterEmptying(db, g, newest).Valid() && owed <= db.table.rows.Keys
    ensures var later := AfterEmptying(db, g, newest);
            && ShowsAll(later, d, e) == ShowsAll(db, d, e) && ClosedUnderCommit(later, e) == ClosedUnderCommit(db, e)
            && Records(later.table, owed, found) == Records(db.table, owed, found)
  {
    hide Transactions.Valid, RowsAreWritten, CommitsAreTimed, GoneRowsHadEnded;
    var later := AfterEmptying(db, g, newest);
    assert later.tx == db.tx && later.table.rows == db.table.rows && later.table.ring == db.table.ring;
  }

  lemma EpochOutlivesEmptying(db: Database, g: nat, newest: nat, key: Key, d: Snapshot, e: Epoch, limit: nat,
                              accounted: set<nat>, unheard: set<nat>)
    requires db.Valid() && AfterEmptying(db, g, newest).Valid() && EpochInv(db, key, d, e, limit, accounted, unheard)
    ensures EpochInv(AfterEmptying(db, g, newest), key, d, e, limit, accounted, unheard)
  {
    hide EpochIsExact, Settled, ShowsAll, ClosedUnderCommit, Records, Transactions.Valid, RowsAreWritten, CommitsAreTimed,
         GoneRowsHadEnded;
    var owed := Owed(db, key, d, e.snapshot);
    OwedAreRows(db, key, d, e.snapshot);
    assert Owed(AfterEmptying(db, g, newest), key, d, e.snapshot) == owed;
    SaidOfAll(db, g, newest, d, e.snapshot, owed, e.generations);
  }

  lemma EmptyKeeps(s: State)
    requires Inv(s) && Enabled(s, Empty)
    ensures Inv(Apply(s, Empty))
  {
    hide LaneInv, InCommitOrder, ShowsTheGone;
    var later, g, newest := Apply(s, Empty), s.holder.pass.generation, s.holder.pass.newest;
    EmptiedIsValid(s.db, g, newest);
    forall k | k in later.lanes
      ensures LaneInv(later.db, k, later.lanes[k], later.limit, Heard(later, k), Unheard(later, k))
    {
      EmptyingShowsTheGone(s, g, newest, k);
      LaneOutlivesEmptying(s.db, g, newest, k, s.lanes[k], s.limit, Heard(s, k), Unheard(s, k));
    }
    forall k
      ensures InCommitOrder(later.db, k, Heard(later, k), Unheard(later, k))
    {
      OrderOutlivesEmptying(s.db, g, newest, k, Heard(s, k), Unheard(s, k));
    }
  }

  lemma OrderOutlivesEmptying(db: Database, g: nat, newest: nat, key: Key, heard: seq<nat>, unheard: set<nat>)
    requires db.Valid() && InCommitOrder(db, key, heard, unheard)
    ensures InCommitOrder(AfterEmptying(db, g, newest), key, heard, unheard)
  {
    var later := AfterEmptying(db, g, newest);
    assert forall a, b :: PrecedesInCommit(later, key, a, b) ==> PrecedesInCommit(db, key, a, b);
  }

  /** The steps of a pass before it holds the partition change nothing but the pass. */
  predicate IsPassStep(step: Step) {
    step.BeginPass? || step.FindOldest? || step.FindNewest? || step.CheckPast? || step.CheckClosed? || step.CheckPassed?
    || step.LockPartition? || step.Measure? || step.EndPass?
  }

  /** A row's id was given out. */
  lemma FoundIdIsKnown(s: State, own: set<nat>, g: nat, x: nat)
    requires s.db.Valid() && HasRowOf(s.db, s.db.tx.CurrentSnapshot(own), g, x)
    ensures x < s.db.tx.next
  {
  }

  lemma PassStepKeeps(s: State, step: Step)
    requires Inv(s) && Enabled(s, step) && IsPassStep(step)
    ensures Inv(Apply(s, step))
  {
    hide LaneInv, InCommitOrder, HolderInv;
    PassHolds(s, step);
    HolderMoves(s, Apply(s, step).holder);
  }

  /** What a pass knows at each of its stages. */
  lemma PassHolds(s: State, step: Step)
    requires Inv(s) && s.db.Valid() && HolderInv(s) && Enabled(s, step) && IsPassStep(step)
    ensures Apply(s, step) == s.(holder := Apply(s, step).holder) && HolderInv(Apply(s, step))
  {
    hide Inv, LaneInv, InCommitOrder, EndsBy, Readable, HasRowOf;
    if IsSearch(step) {
      SearchHolds(s, step);
    } else {
      hide Pinned, IsClosed, AllPassed, ShowsTheGone;
    }
  }

  predicate IsSearch(step: Step) {
    step.FindOldest? || step.FindNewest? || step.Measure?
  }

  lemma SearchHolds(s: State, step: Step)
    requires Inv(s) && s.db.Valid() && HolderInv(s) && Enabled(s, step) && IsSearch(step)
    ensures Apply(s, step) == s.(holder := Apply(s, step).holder) && HolderInv(Apply(s, step))
  {
    hide Inv, LaneInv, InCommitOrder, EndsBy, Readable, HasRowOf, AllPassed, ShowsTheGone;
    if step.FindOldest? {
      OldestIdIsKnown(s, step.own, step.oldestRow);
    } else if step.FindNewest? && IsNewest(s.db, s.db.tx.CurrentSnapshot(step.own), s.holder.pass.generation, step.newestId) {
      FoundIdIsKnown(s, step.own, s.holder.pass.generation, step.newestId);
    } else if step.Measure? {
      MeasureEnds(s, step.own, step.newestId);
    }
  }

  lemma OldestIdIsKnown(s: State, own: set<nat>, p: nat)
    requires s.db.Valid() && Readable(s.db, s.db.tx.CurrentSnapshot(own), p)
    ensures p in s.db.table.rows && s.db.table.rows[p].xid < s.db.tx.next
  {
  }
}
