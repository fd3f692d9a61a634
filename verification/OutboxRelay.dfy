/** What the relay's statements read: the rows an epoch starts with, the
    generations it records, and a batch of it. */
module OutboxRelay {
  import opened Snapshots
  import opened Rings
  import opened Ascending
  import opened OutboxDatabase
  import opened Options

  /** A position row's key: a selection, of one slot. */
  datatype Key = Key(group: string, uri: string, slot: nat)

  /** A generation an epoch found rows in, with the lowest and highest positions there. */
  datatype Generation = Generation(generation: nat, first: nat, last: nat)

  /** An epoch in flight. `handed`, `batches` and `before` are its history: the rows of
      its committed batches, how many those were, and how many of its rows an older
      relay had handed on before its position was converted. */
  datatype Epoch = Epoch(snapshot: Snapshot, offset: nat, end: Option<nat>, generations: seq<Generation>,
                         handed: seq<nat>, batches: nat, before: nat)

  datatype Position = Position(delivered: Snapshot, epoch: Option<Epoch>)

  /** Every URI, one URI, or everything under it. */
  predicate Selects(selection: string, uri: string) {
    selection == "" || uri == selection || selection + "/" <= uri
  }

  /** The row at `p` is of the selection and the slot. */
  predicate Matches(table: Table, key: Key, p: nat) {
    p in table.rows && table.rows[p].slot == key.slot && Selects(key.uri, table.rows[p].uri)
  }

  /** A statement can read the row: its transaction committed and is visible in the
      statement's snapshot, and its partition was not emptied. */
  predicate Readable(db: Database, statement: Snapshot, p: nat) {
    db.Landed(p) && p !in db.table.gone && statement.Sees(db.table.rows[p].xid)
  }

  /** What `epoch` shows of the slot and selection and `delivered` does not. */
  function Owed(db: Database, key: Key, delivered: Snapshot, epoch: Snapshot): set<nat> {
    set p | p in db.table.rows && Matches(db.table, key, p) && db.Landed(p)
            && epoch.Sees(db.table.rows[p].xid) && !delivered.Sees(db.table.rows[p].xid)
  }

  /** The rows the epoch's start reads: in the generations worked out from the two
      snapshots, the ids from `delivered`'s `xmax` on, and those of its in-progress
      list that have ended since. */
  function StartRows(db: Database, statement: Snapshot, key: Key, delivered: Snapshot, epoch: Snapshot): set<nat>
    requires db.table.ring.Valid()
  {
    var names := db.table.ring.GenerationsNew(delivered, epoch);
    set p | p in db.table.rows && Readable(db, statement, p) && Matches(db.table, key, p)
            && db.table.GenerationOf(p) in names
            && ((delivered.xmax <= db.table.rows[p].xid < epoch.xmax && epoch.Sees(db.table.rows[p].xid))
                || (db.table.rows[p].xid in delivered.xip && epoch.Sees(db.table.rows[p].xid)))
  }

  /** The rows of `rows` in generation `g`, ascending. */
  function InGeneration(table: Table, rows: set<nat>, g: nat): seq<nat>
    requires table.ring.Valid()
  {
    Slice(set p | p in rows && p in table.rows && table.GenerationOf(p) == g, 0, table.nextPosition)
  }

  /** Where `rows` are, generation by generation below `upto`: the least and the greatest. */
  function GenerationsFound(table: Table, rows: set<nat>, upto: nat): (found: seq<Generation>)
    requires table.ring.Valid()
  {
    if upto == 0 then []
    else
      var here := InGeneration(table, rows, upto - 1);
      GenerationsFound(table, rows, upto - 1)
      + (if here == [] then [] else [Generation(upto - 1, here[0], here[|here| - 1])])
  }

  /** The lowest first position, when there is one. */
  function LowestFirst(found: seq<Generation>): Option<nat> {
    if found == [] then None
    else match LowestFirst(found[1..])
      case None => Some(found[0].first)
      case Some(rest) => Some(if found[0].first < rest then found[0].first else rest)
  }

  /** The highest last position, when there is one. */
  function HighestLast(found: seq<Generation>): Option<nat> {
    if found == [] then None
    else match HighestLast(found[1..])
      case None => Some(found[0].last)
      case Some(rest) => Some(if found[0].last > rest then found[0].last else rest)
  }

  /** One generation's branch of a batch, before its limit. */
  function Branch(db: Database, statement: Snapshot, key: Key, delivered: Snapshot, epoch: Epoch, g: Generation): set<nat>
    requires db.table.ring.Valid()
  {
    var from := if epoch.offset > g.first - 1 then epoch.offset else g.first - 1;
    set p | p in db.table.rows && Readable(db, statement, p) && Matches(db.table, key, p)
            && db.table.GenerationOf(p) == g.generation && from < p <= g.last
            && epoch.snapshot.Sees(db.table.rows[p].xid) && !delivered.Sees(db.table.rows[p].xid)
  }

  /** The branches of the generations not passed by, each with its own limit, together. */
  function LimitedBranches(db: Database, statement: Snapshot, key: Key, delivered: Snapshot, epoch: Epoch,
                           generations: seq<Generation>, limit: nat): set<nat>
    requires db.table.ring.Valid()
  {
    if generations == [] then {}
    else
      (if generations[0].last > epoch.offset
       then Limited(Branch(db, statement, key, delivered, epoch, generations[0]), 0, db.table.nextPosition, limit)
       else {})
      + LimitedBranches(db, statement, key, delivered, epoch, generations[1..], limit)
  }

  /** A batch of the epoch: its branches merged by position, limited again. */
  function ReadBatch(db: Database, statement: Snapshot, key: Key, delivered: Snapshot, epoch: Epoch, limit: nat): seq<nat>
    requires db.table.ring.Valid()
  {
    First(Slice(LimitedBranches(db, statement, key, delivered, epoch, epoch.generations, limit),
                0, db.table.nextPosition), limit)
  }

  // What the statements find.

  /** Both halves of the start's query together are the epoch's rows, and the named
      generations leave none out. */
  lemma StartFindsTheOwed(db: Database, statement: Snapshot, key: Key, delivered: Snapshot, epoch: Snapshot)
    requires db.Valid() && delivered.Valid() && epoch.Valid()
    requires forall p :: p in Owed(db, key, delivered, epoch) ==> Readable(db, statement, p)
    ensures StartRows(db, statement, key, delivered, epoch) == Owed(db, key, delivered, epoch)
  {
    forall p | p in Owed(db, key, delivered, epoch)
      ensures p in StartRows(db, statement, key, delivered, epoch)
    {
      NamesAreSound(db.table.ring, delivered, epoch, db.table.rows[p].xid);
    }
  }

  /** A recorded generation takes position `p` of generation `g` in. */
  ghost predicate Covers(found: seq<Generation>, g: nat, p: nat) {
    exists i :: 0 <= i < |found| && found[i].generation == g && found[i].first <= p <= found[i].last
  }

  /** What the recorded generations say of the rows they were found by. */
  ghost predicate Records(table: Table, rows: set<nat>, found: seq<Generation>)
    requires table.ring.Valid()
  {
    && (forall i, j :: 0 <= i < j < |found| ==> found[i].generation < found[j].generation)
    && (forall i :: 0 <= i < |found| ==> found[i].first in rows && found[i].last in rows)
    && (forall p :: p in rows && p in table.rows ==> Covers(found, table.GenerationOf(p), p))
  }

  ghost predicate RecordsBelow(table: Table, rows: set<nat>, upto: nat, found: seq<Generation>)
    requires table.ring.Valid()
  {
    && (forall i :: 0 <= i < |found| ==> found[i].generation < upto)
    && (forall i :: 0 <= i < |found| ==> found[i].first in rows && found[i].last in rows)
    && (forall i, j :: 0 <= i < j < |found| ==> found[i].generation < found[j].generation)
    && (forall p :: p in rows && p in table.rows && table.GenerationOf(p) < upto ==> Covers(found, table.GenerationOf(p), p))
  }

  lemma {:induction false} FoundRecords(table: Table, rows: set<nat>, upto: nat)
    requires table.ring.Valid()
    requires forall p :: p in rows ==> p in table.rows && p < table.nextPosition
    ensures RecordsBelow(table, rows, upto, GenerationsFound(table, rows, upto))
  {
    if upto > 0 {
      FoundRecords(table, rows, upto - 1);
      GenerationIsListed(table, rows, upto - 1);
      RecordOneMore(table, rows, upto - 1, GenerationsFound(table, rows, upto - 1), InGeneration(table, rows, upto - 1));
    }
  }

  lemma GenerationIsListed(table: Table, rows: set<nat>, g: nat)
    requires table.ring.Valid()
    requires forall p :: p in rows ==> p in table.rows && p < table.nextPosition
    ensures forall p :: p in InGeneration(table, rows, g) <==> p in rows && table.GenerationOf(p) == g
    ensures var here := InGeneration(table, rows, g); forall i, j :: 0 <= i < j < |here| ==> here[i] < here[j]
  {
    var of := set p | p in rows && p in table.rows && table.GenerationOf(p) == g;
    SliceHasExactly(of, 0, table.nextPosition);
    SliceAscends(of, 0, table.nextPosition);
  }

  lemma RecordOneMore(table: Table, rows: set<nat>, g: nat, earlier: seq<Generation>, here: seq<nat>)
    requires table.ring.Valid() && RecordsBelow(table, rows, g, earlier)
    requires forall p :: p in rows ==> p in table.rows
    requires forall p :: p in here <==> p in rows && table.GenerationOf(p) == g
    requires forall i, j :: 0 <= i < j < |here| ==> here[i] < here[j]
    ensures RecordsBelow(table, rows, g + 1,
                         earlier + (if here == [] then [] else [Generation(g, here[0], here[|here| - 1])]))
  {
    var found := earlier + (if here == [] then [] else [Generation(g, here[0], here[|here| - 1])]);
    if here != [] {
      assert here[0] in here && here[|here| - 1] in here;
    }
    forall p | p in rows && table.GenerationOf(p) < g + 1
      ensures Covers(found, table.GenerationOf(p), p)
    {
      CoversOneMore(earlier, g, here, table.GenerationOf(p), p);
    }
  }

  lemma CoversOneMore(earlier: seq<Generation>, g: nat, here: seq<nat>, of: nat, p: nat)
    requires forall i, j :: 0 <= i < j < |here| ==> here[i] < here[j]
    requires Covers(earlier, of, p) || (of == g && p in here)
    ensures Covers(earlier + (if here == [] then [] else [Generation(g, here[0], here[|here| - 1])]), of, p)
  {
    var found := earlier + (if here == [] then [] else [Generation(g, here[0], here[|here| - 1])]);
    if i :| 0 <= i < |earlier| && earlier[i].generation == of && earlier[i].first <= p <= earlier[i].last {
      assert found[i] == earlier[i];
    } else {
      var k :| 0 <= k < |here| && here[k] == p;
      assert found[|earlier|] == Generation(g, here[0], here[|here| - 1]);
    }
  }

  lemma {:induction false} LowestFirstIs(found: seq<Generation>)
    ensures LowestFirst(found).None? <==> found == []
    ensures LowestFirst(found).Some? ==>
              && (forall i :: 0 <= i < |found| ==> LowestFirst(found).value <= found[i].first)
              && (exists i :: 0 <= i < |found| && found[i].first == LowestFirst(found).value)
  {
    if found != [] {
      LowestFirstIs(found[1..]);
      if found[1..] != [] && LowestFirst(found).value != found[0].first {
        var i :| 0 <= i < |found[1..]| && found[1..][i].first == LowestFirst(found).value;
        assert found[i + 1].first == LowestFirst(found).value;
      }
    }
  }

  lemma {:induction false} HighestLastIs(found: seq<Generation>)
    ensures HighestLast(found).None? <==> found == []
    ensures HighestLast(found).Some? ==>
              && (forall i :: 0 <= i < |found| ==> found[i].last <= HighestLast(found).value)
              && (exists i :: 0 <= i < |found| && found[i].last == HighestLast(found).value)
  {
    if found != [] {
      HighestLastIs(found[1..]);
      if found[1..] != [] && HighestLast(found).value != found[0].last {
        var i :| 0 <= i < |found[1..]| && found[1..][i].last == HighestLast(found).value;
        assert found[i + 1].last == HighestLast(found).value;
      }
    }
  }

  /** The branches without their limits. */
  function Branches(db: Database, statement: Snapshot, key: Key, delivered: Snapshot, epoch: Epoch,
                    generations: seq<Generation>): set<nat>
    requires db.table.ring.Valid()
  {
    if generations == [] then {}
    else
      (if generations[0].last > epoch.offset then Branch(db, statement, key, delivered, epoch, generations[0]) else {})
      + Branches(db, statement, key, delivered, epoch, generations[1..])
  }

  lemma {:induction false} LimitsLoseNothing(db: Database, statement: Snapshot, key: Key, delivered: Snapshot,
                                             epoch: Epoch, generations: seq<Generation>, limit: nat, b: set<nat>)
    requires db.table.ring.Valid()
    ensures var hi := db.table.nextPosition;
            First(Slice(Branches(db, statement, key, delivered, epoch, generations) + b, 0, hi), limit)
            == First(Slice(LimitedBranches(db, statement, key, delivered, epoch, generations, limit) + b, 0, hi), limit)
  {
    if generations != [] {
      var hi := db.table.nextPosition;
      var rest := Branches(db, statement, key, delivered, epoch, generations[1..]);
      var limited := LimitedBranches(db, statement, key, delivered, epoch, generations[1..], limit);
      var one: set<nat> := {};
      var oneLimited: set<nat> := {};
      if generations[0].last > epoch.offset {
        one := Branch(db, statement, key, delivered, epoch, generations[0]);
        oneLimited := Limited(one, 0, hi, limit);
        LimitOfABranch(one, rest + b, 0, hi, limit);
      }
      LimitsLoseNothing(db, statement, key, delivered, epoch, generations[1..], limit, oneLimited + b);
      assert one + rest + b == one + (rest + b);
      assert oneLimited + (rest + b) == rest + (oneLimited + b);
      assert oneLimited + limited + b == limited + (oneLimited + b);
    }
  }

  /** The branches together are the epoch's rows past its offset. */
  lemma {:induction false} BranchesHold(db: Database, statement: Snapshot, key: Key, delivered: Snapshot,
                                        epoch: Epoch, generations: seq<Generation>, p: nat)
    requires db.table.ring.Valid()
    ensures p in Branches(db, statement, key, delivered, epoch, generations)
            <==> && p in Owed(db, key, delivered, epoch.snapshot) && Readable(db, statement, p) && p > epoch.offset
                 && Covers(generations, db.table.GenerationOf(p), p)
  {
    if generations != [] {
      BranchesHold(db, statement, key, delivered, epoch, generations[1..], p);
      if p in db.table.rows {
        CoversFirstOrRest(generations, db.table.GenerationOf(p), p);
      }
    }
  }

  lemma CoversFirstOrRest(found: seq<Generation>, g: nat, p: nat)
    requires found != []
    ensures Covers(found, g, p) <==> (found[0].generation == g && found[0].first <= p <= found[0].last)
                                     || Covers(found[1..], g, p)
  {
    var rest := found[1..];
    if i :| 0 <= i < |rest| && rest[i].generation == g && rest[i].first <= p <= rest[i].last {
      assert found[i + 1] == rest[i];
    }
    if i :| 0 <= i < |found| && found[i].generation == g && found[i].first <= p <= found[i].last && i > 0 {
      assert rest[i - 1] == found[i];
    }
  }

  /** `part` is what `whole` holds past `offset`. */
  ghost predicate IsPast(part: set<nat>, whole: set<nat>, offset: nat) {
    forall p: nat :: p in part <==> p in whole && p > offset
  }

  lemma BranchesAreTheNextOwed(db: Database, statement: Snapshot, key: Key, delivered: Snapshot, epoch: Epoch)
    requires db.Valid()
    requires Records(db.table, Owed(db, key, delivered, epoch.snapshot), epoch.generations)
    requires forall p :: p in Owed(db, key, delivered, epoch.snapshot) ==> Readable(db, statement, p)
    ensures IsPast(Branches(db, statement, key, delivered, epoch, epoch.generations),
                   Owed(db, key, delivered, epoch.snapshot), epoch.offset)
  {
    forall p: nat
      ensures p in Branches(db, statement, key, delivered, epoch, epoch.generations)
              <==> p in Owed(db, key, delivered, epoch.snapshot) && p > epoch.offset
    {
      BranchesHold(db, statement, key, delivered, epoch, epoch.generations, p);
    }
  }

  /** The part of a set past an offset, listed. */
  lemma SlicePast(part: set<nat>, whole: set<nat>, offset: nat, hi: nat)
    requires IsPast(part, whole, offset)
    ensures Slice(part, 0, hi) == Slice(whole, offset + 1, hi)
  {
    if offset + 1 <= hi {
      SliceSplits(part, 0, offset + 1, hi);
      SliceOfNone(part, 0, offset + 1);
      SliceAgrees(part, whole, offset + 1, hi);
    } else {
      SliceOfNone(part, 0, hi);
    }
  }

  lemma BranchesListed(db: Database, statement: Snapshot, key: Key, delivered: Snapshot, epoch: Epoch, owed: set<nat>)
    requires db.table.ring.Valid()
    requires IsPast(Branches(db, statement, key, delivered, epoch, epoch.generations), owed, epoch.offset)
    ensures Slice(Branches(db, statement, key, delivered, epoch, epoch.generations), 0, db.table.nextPosition)
            == Slice(owed, epoch.offset + 1, db.table.nextPosition)
  {
    SlicePast(Branches(db, statement, key, delivered, epoch, epoch.generations), owed, epoch.offset,
              db.table.nextPosition);
  }

  lemma LimitsOfABatch(db: Database, statement: Snapshot, key: Key, delivered: Snapshot, epoch: Epoch, limit: nat)
    requires db.table.ring.Valid()
    ensures ReadBatch(db, statement, key, delivered, epoch, limit)
            == First(Slice(Branches(db, statement, key, delivered, epoch, epoch.generations), 0, db.table.nextPosition), limit)
  {
    LimitsLoseNothing(db, statement, key, delivered, epoch, epoch.generations, limit, {});
    assert forall s: set<nat> :: s + {} == s;
  }

  /** The union of the branches' limited reads, limited, is the epoch's rows past its offset, up to
      `limit` of them. */
  lemma BatchIsTheNextOwed(db: Database, statement: Snapshot, key: Key, delivered: Snapshot, epoch: Epoch, limit: nat)
    requires db.Valid()
    requires Records(db.table, Owed(db, key, delivered, epoch.snapshot), epoch.generations)
    requires forall p :: p in Owed(db, key, delivered, epoch.snapshot) ==> Readable(db, statement, p)
    ensures ReadBatch(db, statement, key, delivered, epoch, limit)
            == First(Slice(Owed(db, key, delivered, epoch.snapshot), epoch.offset + 1, db.table.nextPosition), limit)
  {
    BranchesAreTheNextOwed(db, statement, key, delivered, epoch);
    BranchesListed(db, statement, key, delivered, epoch, Owed(db, key, delivered, epoch.snapshot));
    LimitsOfABatch(db, statement, key, delivered, epoch, limit);
  }
}
