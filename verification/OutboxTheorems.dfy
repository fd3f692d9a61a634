/** What holds in every run of the outbox, whatever the interleaving of publishers,
    dispatchers, crashes, new groups, rewinds and passes of the reclamation. */
module OutboxTheorems {
  import opened Snapshots
  import opened Rings
  import opened Ascending
  import opened OutboxDatabase
  import opened OutboxRelay
  import opened OutboxProtocol
  import opened OutboxInvariant
  import opened OutboxSteps

  ghost predicate Goes(s: State, step: Step, later: State) {
    s.db.Valid() && Enabled(s, step) && later == Apply(s, step)
  }

  /** Steps taken one after another from an empty outbox. */
  ghost predicate IsRun(run: seq<State>, steps: seq<Step>) {
    |run| == |steps| + 1 && Initial(run[0])
    && forall i :: 0 <= i < |steps| ==> Goes(run[i], steps[i], run[i + 1])
  }

  /** Where a run has got to. */
  function Last(run: seq<State>): State
    requires run != []
  {
    run[|run| - 1]
  }

  lemma InitialHolds(s: State)
    requires Initial(s)
    ensures Inv(s)
  {
  }

  lemma DatabaseStepKeeps(s: State, step: Step)
    requires Inv(s) && Enabled(s, step)
    requires step.BeginTx? || step.InsertRow? || step.CommitTx? || step.AbortTx?
    ensures Inv(Apply(s, step))
  {
    hide Inv;
    match step
    case BeginTx(bystander) => BeginTxKeeps(s, bystander);
    case InsertRow(row) => InsertRowKeeps(s, row);
    case CommitTx(xid) => CommitTxKeeps(s, xid);
    case AbortTx(xid) => AbortTxKeeps(s, xid);
  }

  lemma DispatcherStepKeeps(s: State, step: Step)
    requires Inv(s) && Enabled(s, step)
    requires step.Look? || step.TakeSnapshot? || step.StartEpoch? || step.ReadTheBatch? || step.Tell? || step.Ack? || step.RollBack?
    ensures Inv(Apply(s, step))
  {
    hide Inv;
    match step
    case Look(k) => LookKeeps(s, k);
    case TakeSnapshot(k, own) => TakeSnapshotKeeps(s, k, own);
    case StartEpoch(k, own) =>
      if s.lanes[k].work.value.Looked? {
        StartStoredKeeps(s, k, own);
      } else {
        StartNewKeeps(s, k, own);
      }
    case ReadTheBatch(k, own) => ReadTheBatchKeeps(s, k, own);
    case Tell(k) => TellKeeps(s, k);
    case Ack(k) => AckKeeps(s, k);
    case RollBack(k) => RollBackKeeps(s, k);
  }

  /** The invariant is kept by every step. */
  lemma StepKeeps(s: State, step: Step)
    requires Inv(s) && Enabled(s, step)
    ensures Inv(Apply(s, step))
  {
    hide Inv;
    match step
    case BeginTx(_) => DatabaseStepKeeps(s, step);
    case InsertRow(_) => DatabaseStepKeeps(s, step);
    case CommitTx(_) => DatabaseStepKeeps(s, step);
    case AbortTx(_) => DatabaseStepKeeps(s, step);
    case Create(k, own) => CreateKeeps(s, k, own);
    case CreateLane(k) => CreateLaneKeeps(s, k);
    case Convert(k, l, offset) => ConvertKeeps(s, k, l, offset);
    case Forget(k) => ForgetKeeps(s, k);
    case Rewind(group, uri, from) => RewindKeeps(s, group, uri, from);
    case BeginNow(group, uri, own) => BeginNowKeeps(s, group, uri, own);
    case FinishNow => FinishNowKeeps(s);
    case Recheck(own) => RecheckKeeps(s, own);
    case Empty => EmptyKeeps(s);
    case _ =>
      if IsPassStep(step) {
        PassStepKeeps(s, step);
      } else {
        DispatcherStepKeeps(s, step);
      }
  }

  lemma {:induction false} RunKeeps(run: seq<State>, steps: seq<Step>)
    requires IsRun(run, steps)
    ensures Inv(Last(run))
  {
    hide Inv, Initial;
    if steps == [] {
      InitialHolds(run[0]);
    } else {
      var n := |steps| - 1;
      Shorter(run, steps, n);
      RunKeeps(run[..n + 1], steps[..n]);
      assert Goes(run[n], steps[n], run[n + 1]);
      StepKeeps(run[n], steps[n]);
    }
  }

  /** A run stopped earlier is a run. */
  lemma Shorter(run: seq<State>, steps: seq<Step>, n: nat)
    requires IsRun(run, steps) && n <= |steps|
    ensures IsRun(run[..n + 1], steps[..n]) && Last(run[..n + 1]) == run[n]
  {
    forall i | 0 <= i < n
      ensures Goes(run[..n + 1][i], steps[..n][i], run[..n + 1][i + 1])
    {
      assert Goes(run[i], steps[i], run[i + 1]);
    }
  }

  /** Any step enabled where a run has got to continues it. */
  lemma RunGoesOn(run: seq<State>, steps: seq<Step>, step: Step)
    requires IsRun(run, steps)
    ensures Last(run).db.Valid()
    ensures Enabled(Last(run), step) ==> IsRun(run + [Apply(Last(run), step)], steps + [step])
  {
    hide Initial;
    RunKeeps(run, steps);
    if Enabled(Last(run), step) {
      var longer, more := run + [Apply(Last(run), step)], steps + [step];
      forall i | 0 <= i < |more|
        ensures Goes(longer[i], more[i], longer[i + 1])
      {
        assert i < |steps| ==> Goes(run[i], steps[i], run[i + 1]);
      }
    }
  }

  // Nothing owed is lost.

  /** Each committed row that some position's `delivered` does not show is still in the table. */
  lemma OwedIsKept(run: seq<State>, steps: seq<Step>, k: Key, p: nat)
    requires IsRun(run, steps) && k in Last(run).lanes && Last(run).db.Landed(p)
    requires !Last(run).lanes[k].position.delivered.Sees(Last(run).db.table.rows[p].xid)
    ensures p !in Last(run).db.table.gone
  {
    hide InCommitOrder, EpochInv, WorkInv, HolderInv, Goes, Initial;
    RunKeeps(run, steps);
  }

  /** No committed row of a transaction from `intact_from` on was ever emptied: what a
      rewind it admits promises to hand on again is there. */
  lemma IntactFromIsIntact(run: seq<State>, steps: seq<Step>, p: nat)
    requires IsRun(run, steps) && Last(run).db.Landed(p)
    requires Last(run).db.table.intactFrom <= Last(run).db.table.rows[p].xid
    ensures p !in Last(run).db.table.gone
  {
    hide LaneInv, InCommitOrder, HolderInv, Goes, Initial;
    RunKeeps(run, steps);
  }

  // Nothing is passed over.

  /** The position was never moved past a row without handing it on: where it started showed
      none of its rows; it was not converted part of the way; it was not moved ahead to now. */
  ghost predicate NeverSkips(run: seq<State>, steps: seq<Step>, k: Key)
    requires IsRun(run, steps)
  {
    forall i :: 0 <= i < |steps| ==> StepSkipsNone(run[i], steps[i], k)
  }

  ghost predicate StepSkipsNone(s: State, step: Step, k: Key) {
    match step
    case Create(j, own) => j == k ==> ShownRows(s.db, k, NewPosition(s.db, own).delivered) == {}
    case CreateLane(j) =>
      var everything := Key(k.group, "", k.slot);
      j == k && everything in s.lanes ==> ShownRows(s.db, k, s.lanes[everything].position.delivered) == {}
    case Convert(j, l, _) => j == k ==> l == 0
    case FinishNow => s.holder.Moving? ==> !(s.holder.group == k.group && s.holder.uri == k.uri)
    case _ => true
  }

  /** A position made before anything was emptied starts where it shows nothing. */
  lemma FirstStartsShowNone(db: Database, own: set<nat>, k: Key)
    requires db.Valid() && own <= db.tx.bystanders && db.table.intactFrom == 1
    ensures ShownRows(db, k, NewPosition(db, own).delivered) == {}
  {
    var now := db.tx.CurrentSnapshot(own);
    CurrentSnapshotShows(db.tx, own, 1);
    forall x: nat
      ensures now.Below(1).Sees(x) ==> x < 1
    {
      BelowKeepsExactly(now, 1, x);
    }
  }

  lemma StepHidesNone(s: State, step: Step, k: Key)
    requires s.db.Valid() && Enabled(s, step) && StepSkipsNone(s, step, k)
    requires Unheard(s, k) == {}
    ensures Unheard(Apply(s, step), k) == {}
  {
    hide NewPosition, ConvertedPosition, StartWork, ReadBatch, ShownRows, AckedPosition, Begin, Insert, Commit, Abort,
         Pinned, IsOldest, FoundNewest, IsClosed, WritersEnded, Emptied, Database.Valid, MayInsert, SelectionUnlocked;
  }

  lemma {:induction false} NothingIsUnheard(run: seq<State>, steps: seq<Step>, k: Key)
    requires IsRun(run, steps) && NeverSkips(run, steps, k)
    ensures Unheard(Last(run), k) == {}
  {
    if steps != [] {
      var n := |steps| - 1;
      Shorter(run, steps, n);
      assert NeverSkips(run[..n + 1], steps[..n], k);
      NothingIsUnheard(run[..n + 1], steps[..n], k);
      assert Goes(run[n], steps[n], run[n + 1]);
      StepHidesNone(run[n], steps[n], k);
    }
  }

  /** `delivered` shows a transaction only when every committed row of it, in that slot and
      selection, was accepted by the subscriber. */
  lemma NothingIsPassedOver(run: seq<State>, steps: seq<Step>, k: Key, p: nat)
    requires IsRun(run, steps) && NeverSkips(run, steps, k) && k in Last(run).lanes
    requires Matches(Last(run).db.table, k, p) && Last(run).db.Landed(p)
    requires Last(run).lanes[k].position.delivered.Sees(Last(run).db.table.rows[p].xid)
    ensures p in Last(run).lanes[k].accepted
  {
    hide InCommitOrder, EpochInv, WorkInv, HolderInv;
    RunKeeps(run, steps);
    NothingIsUnheard(run, steps, k);
  }

  /** Row `p` of the position was in a batch accepted whole and committed. */
  ghost predicate WasAccepted(run: seq<State>, steps: seq<Step>, k: Key, p: nat)
    requires IsRun(run, steps)
  {
    exists i :: 0 <= i < |steps| && Accepts(run[i], steps[i], k, p)
  }

  ghost predicate Accepts(s: State, step: Step, k: Key, p: nat) {
    && step == Ack(k) && Working(s, k) && s.lanes[k].work.value.Batched?
    && s.lanes[k].work.value.told == |s.lanes[k].work.value.batch| && p in s.lanes[k].work.value.batch
  }

  lemma AcceptedByAck(s: State, step: Step, k: Key, p: nat)
    requires s.db.Valid() && Enabled(s, step)
    requires k in Apply(s, step).lanes && p in Apply(s, step).lanes[k].accepted
    ensures (k in s.lanes && p in s.lanes[k].accepted) || Accepts(s, step, k, p)
  {
    hide NewPosition, ConvertedPosition, StartWork, ReadBatch, ShownRows, MovedUnheard, AckedPosition, Begin, Insert, Commit, Abort,
         Pinned, IsOldest, FoundNewest, IsClosed, WritersEnded, Emptied, Database.Valid, MayInsert, SelectionUnlocked;
  }

  /** What counts as accepted was accepted, in a committed dispatch. */
  lemma {:induction false} AcceptedWasAccepted(run: seq<State>, steps: seq<Step>, k: Key, p: nat)
    requires IsRun(run, steps) && k in Last(run).lanes && p in Last(run).lanes[k].accepted
    ensures WasAccepted(run, steps, k, p)
  {
    hide Accepts, Enabled, Apply;
    if steps != [] {
      var n := |steps| - 1;
      Shorter(run, steps, n);
      assert Goes(run[n], steps[n], run[n + 1]);
      AcceptedByAck(run[n], steps[n], k, p);
      if k in run[n].lanes && p in run[n].lanes[k].accepted {
        AcceptedWasAccepted(run[..n + 1], steps[..n], k, p);
        var i :| 0 <= i < n && Accepts(run[..n + 1][i], steps[..n][i], k, p);
        assert Accepts(run[i], steps[i], k, p);
      } else {
        assert Accepts(run[n], steps[n], k, p);
      }
    }
  }

  // Commit order.

  /** The table keeps every row, and when every commit came. */
  ghost predicate Remembers(earlier: Table, later: Table) {
    && earlier.nextPosition <= later.nextPosition
    && (forall p :: p in earlier.rows ==> p in later.rows && later.rows[p] == earlier.rows[p])
    && (forall x :: x in earlier.drawnBefore ==> x in later.drawnBefore && later.drawnBefore[x] == earlier.drawnBefore[x])
  }

  lemma StepRemembers(s: State, step: Step)
    requires s.db.Valid() && Enabled(s, step)
    ensures Remembers(s.db.table, Apply(s, step).db.table)
  {
    match step
    case BeginTx(bystander) => BeginExtends(s.db, bystander);
    case InsertRow(row) => InsertExtends(s.db, row);
    case CommitTx(xid) => CommitExtends(s.db, xid);
    case AbortTx(xid) => AbortExtends(s.db, xid);
    case _ =>
  }

  lemma {:induction false} RunRemembers(run: seq<State>, steps: seq<Step>, i: nat, j: nat)
    requires IsRun(run, steps) && i <= j < |run|
    ensures Remembers(run[i].db.table, run[j].db.table)
  {
    hide Initial, Apply, Enabled;
    if i < j {
      RunRemembers(run, steps, i, j - 1);
      assert Goes(run[j - 1], steps[j - 1], run[j]);
      StepRemembers(run[j - 1], steps[j - 1]);
    }
  }

  /** `a` was first handed on before `b` was: every time `b` was, `a` had been. */
  ghost predicate HandedBefore(heard: seq<nat>, a: nat, b: nat) {
    forall n :: 0 <= n < |heard| && heard[n] == b ==> a in heard[..n]
  }

  /** If transaction `x` committed before a row drew its position, and both rows are of one
      position, then `x`'s row is first handed to the subscriber before the other: across
      epochs, rolled-back batches, crashes and rewinds, absent a move past either. */
  lemma CommitOrder(run: seq<State>, steps: seq<Step>, k: Key, i: nat, j: nat, x: nat, a: nat)
    requires IsRun(run, steps) && i < j < |steps|
    requires steps[i] == CommitTx(x) && steps[j].InsertRow?
    requires Matches(run[i].db.table, k, a) && run[i].db.table.rows[a].xid == x
    requires a !in Unheard(Last(run), k) && run[j].db.table.nextPosition !in Unheard(Last(run), k)
    ensures HandedBefore(Heard(Last(run), k), a, run[j].db.table.nextPosition)
  {
    hide LaneInv, HolderInv, Initial;
    var b, s := run[j].db.table.nextPosition, Last(run);
    RunKeeps(run, steps);
    CommittedBefore(run, steps, k, i, j, x, a);
    hide Goes, IsRun, PrecedesInCommit;
    assert InCommitOrder(s.db, k, Heard(s, k), Unheard(s, k));
  }

  lemma CommittedBefore(run: seq<State>, steps: seq<Step>, k: Key, i: nat, j: nat, x: nat, a: nat)
    requires IsRun(run, steps) && i < j < |steps|
    requires steps[i] == CommitTx(x) && steps[j].InsertRow?
    requires Matches(run[i].db.table, k, a) && run[i].db.table.rows[a].xid == x
    ensures PrecedesInCommit(Last(run).db, k, a, run[j].db.table.nextPosition)
  {
    hide LaneInv, HolderInv, Initial, InCommitOrder;
    assert Goes(run[i], steps[i], run[i + 1]);
    RunRemembers(run, steps, i, i + 1);
    RunRemembers(run, steps, i + 1, j);
    RunRemembers(run, steps, j, |steps|);
  }

  lemma CommitOrderFromTheStart(run: seq<State>, steps: seq<Step>, k: Key, i: nat, j: nat, x: nat, a: nat)
    requires IsRun(run, steps) && NeverSkips(run, steps, k) && i < j < |steps|
    requires steps[i] == CommitTx(x) && steps[j].InsertRow?
    requires Matches(run[i].db.table, k, a) && run[i].db.table.rows[a].xid == x
    ensures HandedBefore(Heard(Last(run), k), a, run[j].db.table.nextPosition)
  {
    NothingIsUnheard(run, steps, k);
    CommitOrder(run, steps, k, i, j, x, a);
  }

  // An epoch, from its first batch to its last.

  /** The rows of the batches committed so far are the epoch's rows up to its offset, in
      position order; with the batch that drains it, all of them. */
  lemma BatchesAreTheEpoch(run: seq<State>, steps: seq<Step>, k: Key)
    requires IsRun(run, steps) && Working(Last(run), k) && Last(run).lanes[k].work.value.Batched?
    ensures var s := Last(run);
            var e, batch := s.lanes[k].work.value.epoch, s.lanes[k].work.value.batch;
            var owed := Owed(s.db, k, s.lanes[k].position.delivered, e.snapshot);
            && e.handed == Slice(owed, 0, e.offset + 1)
            && (|batch| < s.limit ==> e.handed + batch == Slice(owed, 0, s.db.table.nextPosition))
            && (|batch| >= s.limit ==> |batch| == s.limit > 0 && e.handed + batch == Slice(owed, 0, batch[s.limit - 1] + 1))
  {
    hide InCommitOrder, HolderInv, Goes, Initial, Slice, First, ShownAreAccounted, ShowsTheGone, Settled, Records;
    RunKeeps(run, steps);
    var s := Last(run);
    var e, batch := s.lanes[k].work.value.epoch, s.lanes[k].work.value.batch;
    OwedAreRows(s.db, k, s.lanes[k].position.delivered, e.snapshot);
    BatchContinues(Owed(s.db, k, s.lanes[k].position.delivered, e.snapshot), e, batch, s.limit, s.db.table.nextPosition);
  }

  /** How many rows an epoch has. */
  function EpochSize(s: State, k: Key, e: Epoch): nat
    requires k in s.lanes
  {
    |Slice(Owed(s.db, k, s.lanes[k].position.delivered, e.snapshot), 0, s.db.table.nextPosition)|
  }

  /** An epoch of `n` rows at batch size `limit`, `before` of them handed on by an older
      relay, is drained by exactly its dispatch number `(n - before) / limit + 1`. */
  lemma EpochProgress(run: seq<State>, steps: seq<Step>, k: Key)
    requires IsRun(run, steps) && Working(Last(run), k) && Last(run).lanes[k].work.value.Batched?
    ensures var s := Last(run);
            var e, batch := s.lanes[k].work.value.epoch, s.lanes[k].work.value.batch;
            && e.before <= EpochSize(s, k, e) && 1 <= s.limit
            && e.batches <= (EpochSize(s, k, e) - e.before) / s.limit
            && (|batch| < s.limit <==> e.batches == (EpochSize(s, k, e) - e.before) / s.limit)
  {
    hide InCommitOrder, HolderInv, Goes, Initial, Slice, First, ShownAreAccounted, ShowsTheGone, Settled, Records, Owed, EndsAt;
    RunKeeps(run, steps);
    BatchesAreTheEpoch(run, steps, k);
    var s := Last(run);
    var e, batch := s.lanes[k].work.value.epoch, s.lanes[k].work.value.batch;
    OwedAreRows(s.db, k, s.lanes[k].position.delivered, e.snapshot);
    BatchesCount(Owed(s.db, k, s.lanes[k].position.delivered, e.snapshot), s.db.table.nextPosition, e, batch, s.limit);
  }

  lemma BatchesCount(owed: set<nat>, next: nat, e: Epoch, batch: seq<nat>, limit: nat)
    requires 1 <= limit && |batch| <= limit && |e.handed| == e.before + e.batches * limit && forall p :: p in owed ==> p < next
    requires |batch| < limit ==> e.handed + batch == Slice(owed, 0, next)
    requires |batch| == limit ==> e.handed + batch == Slice(owed, 0, batch[limit - 1] + 1)
    ensures var n := |Slice(owed, 0, next)|;
            && e.before <= n && e.batches <= (n - e.before) / limit
            && (|batch| < limit <==> e.batches == (n - e.before) / limit)
  {
    hide Slice;
    var n := |Slice(owed, 0, next)|;
    if |batch| < limit {
      assert n - e.before == limit * e.batches + |batch|;
      QuotientIs(n - e.before, limit, e.batches);
    } else {
      PrefixIsShorter(owed, batch[limit - 1] + 1, next);
      FullBatchesFit(n - e.before, limit, e.batches + 1);
    }
  }

  lemma PrefixIsShorter(owed: set<nat>, mid: nat, hi: nat)
    requires forall p :: p in owed ==> p < hi
    ensures |Slice(owed, 0, mid)| <= |Slice(owed, 0, hi)|
  {
    hide Slice;
    if mid <= hi {
      SliceSplits(owed, 0, mid, hi);
    } else {
      SliceBound(owed, 0, hi, mid);
    }
  }

  lemma FullBatchesFit(n: nat, d: nat, q: nat)
    requires 1 <= d && d * q <= n
    ensures q <= n / d
  {
    assert n == d * (n / d) + n % d;
    if n / d < q {
      ProductsInOrder(n / d + 1, q, d);
    }
  }

  /** While no row is deleted by hand, no epoch drains before its end. */
  lemma NeverShort(run: seq<State>, steps: seq<Step>, k: Key)
    requires IsRun(run, steps) && Working(Last(run), k) && Last(run).lanes[k].work.value.Batched?
    ensures Last(run).lanes[k].work.value.epoch.end.Some?
    ensures !ReportedShort(Last(run).lanes[k].work.value, Last(run).limit)
  {
    hide InCommitOrder, HolderInv, Goes, Initial, Slice, First, ShownAreAccounted, ShowsTheGone, Settled, Records;
    RunKeeps(run, steps);
    var s := Last(run);
    var e, batch := s.lanes[k].work.value.epoch, s.lanes[k].work.value.batch;
    var owed := Owed(s.db, k, s.lanes[k].position.delivered, e.snapshot);
    OwedAreRows(s.db, k, s.lanes[k].position.delivered, e.snapshot);
    BatchIsOwed(owed, e.offset, s.db.table.nextPosition, s.limit, batch);
    assert batch != [] ==> batch[|batch| - 1] in batch;
    if |batch| < s.limit && e.offset < e.end.value {
      EndIsReached(owed, e, batch, s.limit, s.db.table.nextPosition);
    }
  }

  lemma EndIsReached(owed: set<nat>, e: Epoch, batch: seq<nat>, limit: nat, next: nat)
    requires batch == First(Slice(owed, e.offset + 1, next), limit) && |batch| < limit
    requires e.end.Some? && e.offset < e.end.value && e.end.value in owed && e.end.value < next
    ensures batch != [] && batch[|batch| - 1] >= e.end.value
  {
    SliceHasExactly(owed, e.offset + 1, next);
    SliceAscends(owed, e.offset + 1, next);
    assert e.end.value in batch;
    var n :| 0 <= n < |batch| && batch[n] == e.end.value;
  }

  /** No position is past the server's ids: absent a restore, the relay never refuses a
      counter reset. What an epoch in flight shows includes what was delivered. */
  lemma PositionsAreOfThisServer(run: seq<State>, steps: seq<Step>, k: Key)
    requires IsRun(run, steps) && k in Last(run).lanes
    ensures var s := Last(run);
            var position := s.lanes[k].position;
            && position.delivered.Valid() && position.delivered.xmax <= s.db.tx.latest + 1
            && (position.epoch.Some? ==> ShowsAll(s.db, position.delivered, position.epoch.value.snapshot))
  {
    hide InCommitOrder, HolderInv, Goes, Initial, ShownAreAccounted, ShowsTheGone, EpochIsExact, Records, WorkInv;
    RunKeeps(run, steps);
  }
}
