/** The reclamation's loop body, statement by statement, with what others do in between. */
module OutboxReclaim {
  import opened Snapshots
  import opened Ascending
  import opened OutboxDatabase
  import opened Options
  import opened OutboxRelay
  import opened OutboxProtocol
  import opened OutboxInvariant
  import opened OutboxSteps
  import opened OutboxTheorems
  import opened OutboxDispatch

  datatype Reclamation = Emptied(generation: nat, newest: nat) | Skipped(why: Reason)

  datatype Reason = Busy | NothingLeft | NotPast | NotClosed | NotPassed | Locked | PassedNoMore

  /** The ids of the rows a statement reads in generation `g`. */
  function IdsIn(db: Database, statement: Snapshot, g: nat): set<nat>
    requires db.table.ring.Valid()
  {
    set p | p in db.table.rows && Readable(db, statement, p) && db.table.GenerationOf(p) == g :: db.table.rows[p].xid
  }

  /** The least id of generation `g`. */
  function LeastOf(db: Database, statement: Snapshot, g: nat): Option<nat>
    requires db.table.ring.Valid()
  {
    var ids := Slice(IdsIn(db, statement, g), 0, db.tx.next);
    if ids == [] then None else Some(ids[0])
  }

  /** The newest id of generation `g`. */
  function NewestOf(db: Database, statement: Snapshot, g: nat): Option<nat>
    requires db.table.ring.Valid()
  {
    var ids := Slice(IdsIn(db, statement, g), 0, db.tx.next);
    if ids == [] then None else Some(ids[|ids| - 1])
  }

  lemma EndsOfASlice(ids: set<nat>, hi: nat)
    requires forall x :: x in ids ==> x < hi
    ensures Slice(ids, 0, hi) == [] <==> ids == {}
    ensures ids != {} ==>
              var r := Slice(ids, 0, hi);
              && r[0] in ids && r[|r| - 1] in ids
              && forall x :: x in ids ==> r[0] <= x <= r[|r| - 1]
  {
    hide Slice;
    SliceHasExactly(ids, 0, hi);
    SliceAscends(ids, 0, hi);
    var r := Slice(ids, 0, hi);
    if r != [] {
      assert r[0] in r && r[|r| - 1] in r;
    }
    forall x | x in ids
      ensures r != [] && r[0] <= x <= r[|r| - 1]
    {
      var i :| 0 <= i < |r| && r[i] == x;
    }
  }

  lemma LeastAndNewest(db: Database, statement: Snapshot, g: nat)
    requires db.Valid()
    ensures LeastOf(db, statement, g).None? <==> NewestOf(db, statement, g).None?
    ensures LeastOf(db, statement, g).Some? ==> HasRowOf(db, statement, g, LeastOf(db, statement, g).value)
    ensures NewestOf(db, statement, g).Some? ==> IsNewest(db, statement, g, NewestOf(db, statement, g).value)
    ensures forall p :: p in db.table.rows && Readable(db, statement, p) && db.table.GenerationOf(p) == g ==>
              LeastOf(db, statement, g).Some? && LeastOf(db, statement, g).value <= db.table.rows[p].xid
  {
    hide Slice;
    var ids := IdsIn(db, statement, g);
    EndsOfASlice(ids, db.tx.next);
    forall p | p in db.table.rows && Readable(db, statement, p) && db.table.GenerationOf(p) == g
      ensures db.table.rows[p].xid in ids
    {
    }
  }

  /** What the statement finds for a generation without a row is what was known before. */
  lemma NewestIsFound(db: Database, statement: Snapshot, pass: Pass)
    requires db.Valid()
    ensures var newest := NewestOf(db, statement, pass.generation);
            FoundNewest(db, statement, pass, if newest.Some? then newest.value else pass.newest)
  {
    hide NewestOf, LeastOf;
    LeastAndNewest(db, statement, pass.generation);
  }

  /** The oldest row left, by a look at each generation in turn: its generation and its id. */
  method Candidate(db: Database, statement: Snapshot) returns (oldest: Option<(nat, nat)>)
    requires db.Valid()
    ensures oldest.None? <==> forall p :: p in db.table.rows ==> !Readable(db, statement, p)
    ensures oldest.Some? ==>
              && HasRowOf(db, statement, oldest.value.0, oldest.value.1)
              && forall p :: p in db.table.rows && Readable(db, statement, p) ==> oldest.value.1 <= db.table.rows[p].xid
  {
    hide LeastOf, NewestOf, Readable;
    oldest := None;
    for g := 0 to db.table.ring.generations
      invariant oldest.None? ==> forall p :: p in db.table.rows && Readable(db, statement, p) ==> g <= db.table.GenerationOf(p)
      invariant oldest.Some? ==>
                  && HasRowOf(db, statement, oldest.value.0, oldest.value.1)
                  && forall p :: p in db.table.rows && Readable(db, statement, p) && db.table.GenerationOf(p) < g ==>
                       oldest.value.1 <= db.table.rows[p].xid
    {
      LeastAndNewest(db, statement, g);
      var least := LeastOf(db, statement, g);
      if least.Some? && (oldest.None? || least.value < oldest.value.1) {
        oldest := Some((g, least.value));
      }
    }
  }

  /** A row of the candidate's oldest id. */
  method OldestRow(db: Database, statement: Snapshot) returns (row: Option<nat>)
    requires db.Valid()
    ensures row.Some? ==> row.value in db.table.rows && IsOldest(db, statement, row.value)
    ensures row.None? ==> forall p :: p in db.table.rows ==> !Readable(db, statement, p)
  {
    hide Readable, Transactions.Valid, RowsAreWritten, CommitsAreTimed, GoneRowsHadEnded;
    var oldest := Candidate(db, statement);
    if oldest.None? {
      return None;
    }
    var p :| p in db.table.rows && Readable(db, statement, p) && db.table.GenerationOf(p) == oldest.value.0
             && db.table.rows[p].xid == oldest.value.1;
    row := Some(p);
  }

  /** Nothing more is gone. */
  predicate Untouched(before: State, after: State) {
    after.db.table.gone == before.db.table.gone && after.db.table.intactFrom == before.db.table.intactFrom
  }

  /** One generation was emptied, every position past it, and `intact_from` raised past its
      newest row. */
  ghost predicate WasEmptied(before: State, after: State, g: nat, newest: nat) {
    && after.db.Valid() && after.holder.Free?
    && after.db.table.gone == before.db.table.gone + (set p | p in after.db.table.rows && after.db.table.GenerationOf(p) == g)
    && after.db.table.intactFrom == (if before.db.table.intactFrom < newest + 1 then newest + 1 else before.db.table.intactFrom)
    && (forall p :: p in after.db.table.rows && after.db.table.GenerationOf(p) == g ==> after.db.tx.Ended(after.db.table.rows[p].xid))
    && (forall p, k :: p in after.db.table.gone && after.db.Landed(p) && k in after.lanes ==>
          after.lanes[k].position.delivered.Sees(after.db.table.rows[p].xid))
  }

  lemma EmptyStep(s: State)
    requires Inv(s) && AtStage(s, Rechecked)
    ensures Enabled(s, Empty)
    ensures WasEmptied(s, Apply(s, Empty), s.holder.pass.generation, s.holder.pass.newest)
  {
    hide InCommitOrder, EpochInv, WorkInv, ShownAreAccounted;
    var g, newest := s.holder.pass.generation, s.holder.pass.newest;
    var later := Apply(s, Empty);
    EmptiedIsValid(s.db, g, newest);
    forall p, k | p in later.db.table.gone && later.db.Landed(p) && k in later.lanes
      ensures later.lanes[k].position.delivered.Sees(later.db.table.rows[p].xid)
    {
      EmptyingShowsTheGone(s, g, newest, k);
    }
  }

  /** The pass goes on to its next stage. */
  lemma NextStage(s: State, step: Step)
    requires s.db.Valid() && Enabled(s, step) && (IsPassStep(step) || step.Recheck?) && !step.BeginPass? && !step.EndPass?
    ensures var later := Apply(s, step);
            && OnlyThePass(s, later) && later.holder.Reclaiming?
            && (!step.FindOldest? ==>
                  later.holder.pass.generation == s.holder.pass.generation && later.holder.pass.oldest == s.holder.pass.oldest)
            && (!step.FindOldest? && !step.FindNewest? && !step.Measure? ==> later.holder.pass.newest == s.holder.pass.newest)
            && (step.FindOldest? ==>
                  step.oldestRow in s.db.table.rows && later.holder.pass.generation == s.db.table.GenerationOf(step.oldestRow))
            && ((step.FindNewest? || step.Measure?) ==> later.holder.pass.newest == step.newestId)
            && (step.FindOldest? ==> later.holder.pass.stage == Found)
            && (step.FindNewest? ==> later.holder.pass.stage == Chosen)
            && (step.CheckPast? ==> later.holder.pass.stage == Past)
            && (step.CheckClosed? ==> later.holder.pass.stage == Closed)
            && (step.CheckPassed? ==> later.holder.pass.stage == Passed)
            && (step.LockPartition? ==> later.holder.pass.stage == Held)
            && (step.Measure? ==> later.holder.pass.stage == Measured)
            && (step.Recheck? ==> later.holder.pass.stage == Rechecked)
  {
  }

  lemma FindOldestMay(s: State, own: set<nat>, p: nat)
    requires s.db.Valid() && AtStage(s, Begun) && own <= s.db.tx.bystanders && IsOldest(s.db, s.db.tx.CurrentSnapshot(own), p)
    ensures Enabled(s, FindOldest(own, p))
  {
  }

  lemma FindNewestMay(s: State, own: set<nat>, newest: nat)
    requires s.db.Valid() && own <= s.db.tx.bystanders && s.holder.Reclaiming?
    requires FoundNewest(s.db, s.db.tx.CurrentSnapshot(own), s.holder.pass, newest)
    ensures AtStage(s, Found) ==> Enabled(s, FindNewest(own, newest))
    ensures AtStage(s, Held) ==> Enabled(s, Measure(own, newest))
  {
  }

  lemma BeginStep(s: State)
    requires s.db.Valid() && s.holder.Free?
    ensures Enabled(s, BeginPass) && OnlyThePass(s, Apply(s, BeginPass)) && AtStage(Apply(s, BeginPass), Begun)
  {
  }

  lemma EndStep(s: State)
    requires s.db.Valid() && s.holder.Reclaiming?
    ensures Enabled(s, EndPass) && Apply(s, EndPass).db == s.db && Apply(s, EndPass).holder.Free?
  {
  }

  // What a pass asks, when nobody else does anything.

  /** The row at `p` is the oldest left, and `newest` the newest id of its generation. */
  ghost predicate IsCandidate(s: State, own: set<nat>, p: nat, newest: nat)
    requires s.db.Valid()
  {
    var statement := s.db.tx.CurrentSnapshot(own);
    IsOldest(s.db, statement, p) && IsNewest(s.db, statement, s.db.table.GenerationOf(p), newest)
  }

  ghost predicate IsPast(s: State, newest: nat)
    requires s.db.Valid()
  {
    s.db.table.ring.WindowOf(s.db.tx.latest + 1) - s.db.table.ring.WindowOf(newest) >= s.margin
  }

  /** Generation `g` is behind by the margin, closed and passed by every position. */
  ghost predicate IsChecked(s: State, own: set<nat>, g: nat, newest: nat)
    requires s.db.Valid()
  {
    IsPast(s, newest) && IsClosed(s.db, g) && !Pinned(s, s.db.tx.CurrentSnapshot(own), g, newest)
  }

  /** A pass finds a generation to empty. */
  ghost predicate CanEmpty(s: State, own: set<nat>)
    requires s.db.Valid()
  {
    exists p, newest :: IsCandidate(s, own, p, newest)
                        && IsChecked(s, own, s.db.table.GenerationOf(p), newest) && WritersEnded(s.db, s.db.table.GenerationOf(p))
  }

  lemma CandidateIsOne(s: State, own: set<nat>, p: nat, newest: nat)
    requires s.db.Valid() && IsCandidate(s, own, p, newest)
    ensures var g := s.db.table.GenerationOf(p);
            CanEmpty(s, own) <==> IsChecked(s, own, g, newest) && WritersEnded(s.db, g)
  {
    hide IsChecked, WritersEnded, Transactions.Valid, RowsAreWritten, CommitsAreTimed, GoneRowsHadEnded;
    forall q, n | IsCandidate(s, own, q, n)
      ensures s.db.table.GenerationOf(q) == s.db.table.GenerationOf(p) && n == newest
    {
    }
  }

  /** The state with the pass at another stage. */
  predicate OnlyThePass(before: State, after: State) {
    after == before.(holder := after.holder)
  }

  lemma SamePass(s: State, later: State, own: set<nat>, p: nat, newest: nat)
    requires s.db.Valid() && OnlyThePass(s, later)
    ensures later.db.Valid() && IsCandidate(later, own, p, newest) == IsCandidate(s, own, p, newest)
    ensures IsChecked(later, own, p, newest) == IsChecked(s, own, p, newest)
  {
  }

  lemma WhenEnabled(s: State, own: set<nat>)
    requires s.db.Valid() && s.holder.Reclaiming? && own <= s.db.tx.bystanders
    ensures var pass := s.holder.pass;
            && (AtStage(s, Chosen) ==> (Enabled(s, CheckPast) <==> IsPast(s, pass.newest)))
            && (AtStage(s, Past) ==> (Enabled(s, CheckClosed) <==> IsClosed(s.db, pass.generation)))
            && (AtStage(s, Closed) ==>
                  (Enabled(s, CheckPassed(own)) <==> !Pinned(s, s.db.tx.CurrentSnapshot(own), pass.generation, pass.newest)))
            && (AtStage(s, Passed) ==> (Enabled(s, LockPartition) <==> WritersEnded(s.db, pass.generation)))
            && (AtStage(s, Measured) ==>
                  (Enabled(s, Recheck(own)) <==> !Pinned(s, s.db.tx.CurrentSnapshot(own), pass.generation, pass.newest)))
  {
  }

  /** The pass gives its key back, with nothing emptied. */
  method GiveUp(relay: Relay, why: Reason) returns (outcome: Reclamation)
    requires relay.Valid() && relay.state.holder.Reclaiming?
    modifies relay
    ensures relay.Valid() && relay.state.db == old(relay.state.db) && relay.state.holder.Free? && outcome == Skipped(why)
  {
    hide Apply, Enabled, IsRun, Inv, Database.Valid;
    EndStep(relay.state);
    relay.Do(EndPass);
    outcome := Skipped(why);
  }

  /** A stage of the pass, then what others do before its next. */
  method Advance(relay: Relay, step: Step, meanwhile: seq<Step>)
    requires relay.Valid() && Enabled(relay.state, step)
    requires (IsPassStep(step) || step.Recheck?) && !step.BeginPass? && !step.EndPass?
    modifies relay
    ensures relay.Valid() && relay.state.holder.Reclaiming? && relay.state.holder == Apply(old(relay.state), step).holder
    ensures Untouched(old(relay.state), relay.state)
    ensures meanwhile == [] ==> OnlyThePass(old(relay.state), relay.state)
    ensures old(relay.state.db.tx.bystanders) <= relay.state.db.tx.bystanders
  {
    hide Apply, Enabled, IsRun, Inv, Database.Valid;
    NextStage(relay.state, step);
    relay.Do(step);
    relay.Meanwhile(meanwhile);
  }

  /** The candidate and its newest row, and whether it is past, closed and passed. Undisturbed,
      a pass gives up here only if there is nothing it could empty. */
  method Choose(relay: Relay, own: set<nat>, others: nat -> seq<Step>) returns (why: Option<Reason>, ghost p: nat)
    requires relay.Valid() && own <= relay.state.db.tx.bystanders && AtStage(relay.state, Begun)
    modifies relay
    ensures relay.Valid() && relay.state.holder.Reclaiming? && Untouched(old(relay.state), relay.state)
    ensures old(relay.state.db.tx.bystanders) <= relay.state.db.tx.bystanders
    ensures why.None? ==> AtStage(relay.state, Passed)
    ensures Quiet(others) ==> OnlyThePass(old(relay.state), relay.state)
    ensures Quiet(others) && why.None? ==> IsReady(old(relay.state), own, relay.state.holder.pass, p)
    ensures Quiet(others) && why.Some? ==> !CanEmpty(old(relay.state), own)
  {
    hide Apply, Enabled, IsRun, Inv, Transactions.Valid, RowsAreWritten, CommitsAreTimed, GoneRowsHadEnded, NewestOf, FoundNewest, Readable,
         HasRowOf, IsChecked, IsCandidate, IsOldest, IsNewest, CanEmpty;
    ghost var first := relay.state;
    p := 0;
    var statement := relay.state.db.tx.CurrentSnapshot(own);
    var row := OldestRow(relay.state.db, statement);
    if row.None? {
      NothingToEmpty(first, own);
      return Some(NothingLeft), p;
    }
    p := row.value;
    FindOldestMay(relay.state, own, p);
    NextStage(relay.state, FindOldest(own, row.value));
    Advance(relay, FindOldest(own, row.value), others(0));
    ghost var found := relay.state;
    Newest(relay, own, others(1), p);
    ghost var chosen := relay.state;
    why := Check(relay, own, others);
    if Quiet(others) {
      SamePass(first, found, own, p, chosen.holder.pass.newest);
      CandidateIsOne(first, own, p, chosen.holder.pass.newest);
      SamePass(first, chosen, own, chosen.holder.pass.generation, chosen.holder.pass.newest);
    }
  }

  /** What the pass knows of its candidate, the row at `p`: it is past, closed and passed. */
  ghost predicate IsReady(s: State, own: set<nat>, pass: Pass, p: nat)
    requires s.db.Valid()
  {
    IsCandidate(s, own, p, pass.newest) && pass.generation == s.db.table.GenerationOf(p)
    && IsChecked(s, own, pass.generation, pass.newest)
  }

  lemma NothingToEmpty(s: State, own: set<nat>)
    requires s.db.Valid() && forall p :: p in s.db.table.rows ==> !Readable(s.db, s.db.tx.CurrentSnapshot(own), p)
    ensures !CanEmpty(s, own)
  {
    hide Readable, IsChecked, WritersEnded;
  }

  /** The newest row of the candidate, which the row at `p` is the oldest of. */
  method Newest(relay: Relay, own: set<nat>, meanwhile: seq<Step>, ghost p: nat)
    requires relay.Valid() && own <= relay.state.db.tx.bystanders && AtStage(relay.state, Found)
    modifies relay
    ensures relay.Valid() && AtStage(relay.state, Chosen) && Untouched(old(relay.state), relay.state)
    ensures old(relay.state.db.tx.bystanders) <= relay.state.db.tx.bystanders
    ensures meanwhile == [] ==> OnlyThePass(old(relay.state), relay.state)
    ensures meanwhile == [] && p in old(relay.state).db.table.rows
            && IsOldest(old(relay.state).db, old(relay.state).db.tx.CurrentSnapshot(own), p)
            && old(relay.state).holder.pass.generation == old(relay.state).db.table.GenerationOf(p) ==>
              IsCandidate(old(relay.state), own, p, relay.state.holder.pass.newest)
              && relay.state.holder.pass.generation == old(relay.state).db.table.GenerationOf(p)
  {
    hide Apply, Enabled, IsRun, Inv, Transactions.Valid, RowsAreWritten, CommitsAreTimed, GoneRowsHadEnded, NewestOf, FoundNewest, Readable,
         HasRowOf, IsChecked, IsCandidate, IsOldest, IsNewest, CanEmpty;
    ghost var first := relay.state;
    var statement := relay.state.db.tx.CurrentSnapshot(own);
    var newest := NewestOf(relay.state.db, statement, relay.state.holder.pass.generation);
    NewestIsFound(relay.state.db, statement, relay.state.holder.pass);
    var found := if newest.Some? then newest.value else relay.state.holder.pass.newest;
    FindNewestMay(relay.state, own, found);
    NextStage(relay.state, FindNewest(own, found));
    Advance(relay, FindNewest(own, found), meanwhile);
    if p in first.db.table.rows && IsOldest(first.db, statement, p) && first.holder.pass.generation == first.db.table.GenerationOf(p) {
      FoundIsNewest(first, own, p, found);
    }
  }

  lemma FoundIsNewest(s: State, own: set<nat>, p: nat, found: nat)
    requires s.db.Valid() && s.holder.Reclaiming? && IsOldest(s.db, s.db.tx.CurrentSnapshot(own), p)
    requires s.holder.pass.generation == s.db.table.GenerationOf(p)
    requires FoundNewest(s.db, s.db.tx.CurrentSnapshot(own), s.holder.pass, found)
    ensures IsCandidate(s, own, p, found)
  {
    hide Transactions.Valid, RowsAreWritten, CommitsAreTimed, GoneRowsHadEnded;
  }

  /** Past, closed, passed: each asked in its turn. */
  method Check(relay: Relay, own: set<nat>, others: nat -> seq<Step>) returns (why: Option<Reason>)
    requires relay.Valid() && own <= relay.state.db.tx.bystanders && AtStage(relay.state, Chosen)
    modifies relay
    ensures relay.Valid() && relay.state.holder.Reclaiming? && Untouched(old(relay.state), relay.state)
    ensures old(relay.state.db.tx.bystanders) <= relay.state.db.tx.bystanders
    ensures why.None? ==> AtStage(relay.state, Passed)
    ensures Quiet(others) ==> OnlyThePass(old(relay.state), relay.state) && SameCandidate(old(relay.state), relay.state)
    ensures Quiet(others) ==>
              (why.None? <==>
                 IsChecked(old(relay.state), own, old(relay.state).holder.pass.generation, old(relay.state).holder.pass.newest))
  {
    hide Apply, Enabled, IsRun, Inv, Database.Valid, IsPast, IsClosed, Pinned;
    WhenEnabled(relay.state, own);
    if !Enabled(relay.state, CheckPast) {
      return Some(NotPast);
    }
    NextStage(relay.state, CheckPast);
    Advance(relay, CheckPast, others(2));
    WhenEnabled(relay.state, own);
    if !Enabled(relay.state, CheckClosed) {
      return Some(NotClosed);
    }
    NextStage(relay.state, CheckClosed);
    Advance(relay, CheckClosed, others(3));
    WhenEnabled(relay.state, own);
    if !Enabled(relay.state, CheckPassed(own)) {
      SameAsked(old(relay.state), relay.state, own);
      return Some(NotPassed);
    }
    SameAsked(old(relay.state), relay.state, own);
    NextStage(relay.state, CheckPassed(own));
    Advance(relay, CheckPassed(own), others(4));
    why := None;
  }

  predicate SameCandidate(before: State, after: State) {
    && before.holder.Reclaiming? && after.holder.Reclaiming?
    && after.holder.pass.generation == before.holder.pass.generation && after.holder.pass.newest == before.holder.pass.newest
  }

  lemma SameAsked(s: State, later: State, own: set<nat>)
    requires s.db.Valid()
    ensures OnlyThePass(s, later) ==>
              && later.db.Valid()
              && forall g, newest ::
                   Pinned(later, s.db.tx.CurrentSnapshot(own), g, newest) == Pinned(s, s.db.tx.CurrentSnapshot(own), g, newest)
  {
  }

  /** The last part of a pass. With the partition locked, what it decided on is checked once
      more, and the partition emptied and the bound raised only if it still holds. Undisturbed,
      what was passed is emptied unless its partition cannot be locked: for a writer, or for a
      reader, such as a dispatch in the middle of a batch; `unread` says there is no reader. */
  method TryEmpty(relay: Relay, own: set<nat>, others: nat -> seq<Step>, unread: bool, ghost p: nat) returns (outcome: Reclamation)
    requires relay.Valid() && own <= relay.state.db.tx.bystanders && AtStage(relay.state, Passed)
    modifies relay
    ensures relay.Valid() && relay.state.holder.Free?
    ensures outcome.Skipped? ==> Untouched(old(relay.state), relay.state)
    ensures outcome.Emptied? ==> WasEmptied(old(relay.state), relay.state, outcome.generation, outcome.newest)
    ensures Quiet(others) && IsReady(old(relay.state), own, old(relay.state).holder.pass, p) ==>
              && (outcome.Emptied? <==> unread && WritersEnded(old(relay.state).db, old(relay.state).holder.pass.generation))
              && (outcome.Emptied? ==> outcome.generation == old(relay.state).holder.pass.generation
                                       && outcome.newest == old(relay.state).holder.pass.newest)
  {
    hide Apply, Enabled, IsRun, Inv, Transactions.Valid, RowsAreWritten, CommitsAreTimed, GoneRowsHadEnded, NewestOf, FoundNewest,
         WasEmptied, IsReady, WritersEnded, Pinned, IsNewest;
    WhenEnabled(relay.state, own);
    if !unread || !Enabled(relay.state, LockPartition) {
      outcome := GiveUp(relay, Locked);
      return;
    }
    NextStage(relay.state, LockPartition);
    Advance(relay, LockPartition, others(0));
    ghost var held := relay.state;
    MeasureAgain(relay, own, others(1));
    WhenEnabled(relay.state, own);
    if Quiet(others) && IsReady(old(relay.state), own, old(relay.state).holder.pass, p) {
      StillReady(old(relay.state), held, relay.state, own, p);
    }
    if !Enabled(relay.state, Recheck(own)) {
      outcome := GiveUp(relay, PassedNoMore);
      return;
    }
    NextStage(relay.state, Recheck(own));
    Advance(relay, Recheck(own), others(2));
    outcome := Emptied(relay.state.holder.pass.generation, relay.state.holder.pass.newest);
    ghost var before := relay.state;
    EmptyStep(relay.state);
    relay.Do(Empty);
    SameEmptying(old(relay.state), before, relay.state, outcome.generation, outcome.newest);
  }

  /** The newest row again, now that nobody writes there. */
  method MeasureAgain(relay: Relay, own: set<nat>, meanwhile: seq<Step>)
    requires relay.Valid() && own <= relay.state.db.tx.bystanders && AtStage(relay.state, Held)
    modifies relay
    ensures relay.Valid() && AtStage(relay.state, Measured) && Untouched(old(relay.state), relay.state)
    ensures old(relay.state.db.tx.bystanders) <= relay.state.db.tx.bystanders
    ensures relay.state.holder.pass.generation == old(relay.state).holder.pass.generation
    ensures meanwhile == [] ==> OnlyThePass(old(relay.state), relay.state)
    ensures FoundNewest(old(relay.state).db, old(relay.state).db.tx.CurrentSnapshot(own), old(relay.state).holder.pass,
                        relay.state.holder.pass.newest)
  {
    hide Apply, Enabled, IsRun, Inv, Transactions.Valid, RowsAreWritten, CommitsAreTimed, GoneRowsHadEnded, NewestOf, FoundNewest,
         WasEmptied;
    var statement := relay.state.db.tx.CurrentSnapshot(own);
    var newest := NewestOf(relay.state.db, statement, relay.state.holder.pass.generation);
    NewestIsFound(relay.state.db, statement, relay.state.holder.pass);
    var found := if newest.Some? then newest.value else relay.state.holder.pass.newest;
    FindNewestMay(relay.state, own, found);
    NextStage(relay.state, Measure(own, found));
    Advance(relay, Measure(own, found), meanwhile);
  }

  /** Nothing changed: the newest row is the one that was measured, and no position pins it. */
  lemma StillReady(s: State, held: State, later: State, own: set<nat>, p: nat)
    requires s.db.Valid() && s.holder.Reclaiming? && IsReady(s, own, s.holder.pass, p)
    requires OnlyThePass(s, held) && SameCandidate(s, held)
    requires OnlyThePass(held, later) && later.holder.Reclaiming? && later.holder.pass.generation == s.holder.pass.generation
    requires FoundNewest(s.db, s.db.tx.CurrentSnapshot(own), held.holder.pass, later.holder.pass.newest)
    ensures later.holder.pass.newest == s.holder.pass.newest
    ensures !Pinned(later, later.db.tx.CurrentSnapshot(own), later.holder.pass.generation, later.holder.pass.newest)
  {
    hide Transactions.Valid, RowsAreWritten, CommitsAreTimed, GoneRowsHadEnded;
  }

  lemma SameEmptying(first: State, before: State, after: State, g: nat, newest: nat)
    requires Untouched(first, before) && WasEmptied(before, after, g, newest)
    ensures WasEmptied(first, after, g, newest)
  {
  }

  /** A pass: whatever others do meanwhile, it empties one generation that every position has
      passed, or nothing. Undisturbed, it does empty one exactly when the oldest left is past,
      closed and passed, and neither a writer nor a reader has its partition. */
  method RunPass(relay: Relay, own: set<nat>, others: nat -> seq<Step>, under: nat -> seq<Step>, unread: bool)
    returns (outcome: Reclamation)
    requires relay.Valid() && own <= relay.state.db.tx.bystanders
    modifies relay
    ensures relay.Valid()
    ensures outcome.Skipped? ==> Untouched(old(relay.state), relay.state)
    ensures outcome.Emptied? ==> WasEmptied(old(relay.state), relay.state, outcome.generation, outcome.newest)
    ensures Quiet(others) && Quiet(under) ==>
              (outcome.Emptied? <==> unread && old(relay.state).holder.Free? && CanEmpty(old(relay.state), own))
  {
    hide Apply, Enabled, IsRun, Inv, Database.Valid, WasEmptied, CanEmpty, IsReady;
    if !relay.state.holder.Free? {
      return Skipped(Busy);
    }
    ghost var first := relay.state;
    BeginStep(relay.state);
    relay.Do(BeginPass);
    ghost var begun := relay.state;
    SameToEmpty(first, begun, own);
    var why: Option<Reason>;
    ghost var p;
    why, p := Choose(relay, own, others);
    if why.Some? {
      outcome := GiveUp(relay, why.value);
      return;
    }
    ghost var before := relay.state;
    outcome := TryEmpty(relay, own, under, unread, p);
    if outcome.Emptied? {
      SameEmptying(old(relay.state), before, relay.state, outcome.generation, outcome.newest);
    }
    if Quiet(others) {
      ReadyCanBeEmptied(begun, before, own, p);
    }
  }

  lemma SameToEmpty(s: State, later: State, own: set<nat>)
    requires s.db.Valid() && OnlyThePass(s, later)
    ensures later.db.Valid() && CanEmpty(later, own) == CanEmpty(s, own)
  {
    forall p, newest
      ensures IsCandidate(later, own, p, newest) == IsCandidate(s, own, p, newest)
      ensures p in s.db.table.rows ==>
                IsChecked(later, own, s.db.table.GenerationOf(p), newest) == IsChecked(s, own, s.db.table.GenerationOf(p), newest)
    {
      SamePass(s, later, own, p, newest);
      if p in s.db.table.rows {
        SamePass(s, later, own, s.db.table.GenerationOf(p), newest);
      }
    }
    hide IsCandidate, IsChecked;
  }

  lemma ReadyCanBeEmptied(s: State, later: State, own: set<nat>, p: nat)
    requires s.db.Valid() && OnlyThePass(s, later) && later.holder.Reclaiming? && IsReady(s, own, later.holder.pass, p)
    ensures later.db.Valid() && IsReady(later, own, later.holder.pass, p)
    ensures CanEmpty(s, own) <==> WritersEnded(later.db, later.holder.pass.generation)
  {
    hide IsCandidate, IsChecked, WritersEnded;
    CandidateIsOne(s, own, p, later.holder.pass.newest);
    SamePass(s, later, own, p, later.holder.pass.newest);
    SamePass(s, later, own, later.holder.pass.generation, later.holder.pass.newest);
  }
}
