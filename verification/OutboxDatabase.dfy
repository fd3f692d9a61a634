/** PostgreSQL as far as the outbox relies on it: transactions, the snapshots
    they end in, the position sequence, and the table's rows. */
module OutboxDatabase {
  import opened Snapshots
  import opened Rings

  datatype Status = Running | Committed | Aborted

  /** The server's transactions. `bystanders` are those that write no row of this
      outbox: a dispatcher's, the reclamation's, another database's. */
  datatype Transactions = Transactions(next: nat, latest: nat, status: map<nat, Status>, bystanders: set<nat>)
  {
    predicate Ended(xid: nat) {
      xid in status && status[xid] != Running
    }

    predicate IsRunning(xid: nat) {
      xid in status && status[xid] == Running
    }

    predicate IsCommitted(xid: nat) {
      xid in status && status[xid] == Committed
    }

    ghost predicate Valid() {
      && latest < next
      && (forall x: nat :: x in status <==> 1 <= x < next)
      && (forall x: nat :: Ended(x) ==> x <= latest)
      && bystanders <= status.Keys
    }

    /** The ids below `bound` still running, but `own`, ascending. */
    function RunningBelow(bound: nat, own: set<nat>): (r: seq<nat>)
      ensures forall x :: x in r <==> 1 <= x < bound && IsRunning(x) && x !in own
    {
      if bound <= 1 then []
      else RunningBelow(bound - 1, own) + (if IsRunning(bound - 1) && bound - 1 !in own then [bound - 1] else [])
    }

    /** `pg_current_snapshot()` in a transaction holding the ids `own`: the ids from
        one past the latest ended on are not visible, nor those still running below
        it, except the transaction's own, which the server does not list. */
    function CurrentSnapshot(own: set<nat>): (r: Snapshot) {
      var xip := RunningBelow(latest + 1, own);
      Snapshot(if xip == [] then latest + 1 else xip[0], latest + 1, xip)
    }
  }

  /** A row as its transaction inserted it; its position is its key. */
  datatype Row = Row(xid: nat, slot: nat, uri: string)

  /** The table and its sequence. `rows` holds every row ever inserted, by position;
      `gone` those emptied with their partition. `drawnBefore[x]` is the sequence's
      next value when `x` committed: a position from it on was drawn after that. */
  datatype Table = Table(nextPosition: nat, rows: map<nat, Row>, drawnBefore: map<nat, nat>, gone: set<nat>,
                         intactFrom: nat, ring: Ring)
  {
    function GenerationOf(p: nat): nat
      requires ring.Valid() && p in rows
    {
      ring.GenerationOf(rows[p].xid)
    }
  }

  datatype Database = Database(tx: Transactions, table: Table)
  {
    /** The row at `p` was inserted by a transaction that committed. */
    predicate Landed(p: nat) {
      p in table.rows && tx.IsCommitted(table.rows[p].xid)
    }

    /** Transaction `x` had committed before position `p` was drawn. */
    predicate CommittedBeforeDraw(x: nat, p: nat) {
      x in table.drawnBefore && table.drawnBefore[x] <= p
    }

    ghost predicate Valid() {
      && tx.Valid() && table.ring.Valid()
      && 1 <= table.nextPosition && 1 <= table.intactFrom <= tx.next
      && RowsAreWritten(tx, table)
      && CommitsAreTimed(tx, table)
      && GoneRowsHadEnded(tx, table)
    }
  }

  ghost predicate RowsAreWritten(tx: Transactions, table: Table) {
    forall p :: p in table.rows ==>
      1 <= p < table.nextPosition && table.rows[p].xid in tx.status && table.rows[p].xid !in tx.bystanders
  }

  ghost predicate CommitsAreTimed(tx: Transactions, table: Table) {
    && (forall x :: x in table.drawnBefore <==> tx.IsCommitted(x))
    && (forall x :: x in table.drawnBefore ==> table.drawnBefore[x] <= table.nextPosition)
    && (forall p :: p in table.rows && table.rows[p].xid in table.drawnBefore ==> p < table.drawnBefore[table.rows[p].xid])
  }

  ghost predicate GoneRowsHadEnded(tx: Transactions, table: Table) {
    && table.gone <= table.rows.Keys
    && (forall p :: p in table.gone ==> tx.Ended(table.rows[p].xid))
    && (forall p :: p in table.gone && tx.IsCommitted(table.rows[p].xid) ==> table.rows[p].xid < table.intactFrom)
  }

  lemma {:induction false} RunningAscends(tx: Transactions, bound: nat, own: set<nat>)
    ensures forall i, j :: 0 <= i < j < |tx.RunningBelow(bound, own)|
              ==> tx.RunningBelow(bound, own)[i] < tx.RunningBelow(bound, own)[j]
  {
    if bound > 1 {
      RunningAscends(tx, bound - 1, own);
      var r := tx.RunningBelow(bound - 1, own);
      assert forall i :: 0 <= i < |r| ==> r[i] in r;
    }
  }

  /** The current snapshot shows exactly the transactions that have ended, and its
      own transaction's id when another has ended after it. */
  lemma CurrentSnapshotShows(tx: Transactions, own: set<nat>, x: nat)
    requires tx.Valid() && own <= tx.bystanders && 1 <= x
    ensures tx.CurrentSnapshot(own).Valid()
    ensures tx.CurrentSnapshot(own).Sees(x) <==> tx.Ended(x) || (tx.IsRunning(x) && x in own && x <= tx.latest)
  {
    var s := tx.CurrentSnapshot(own);
    RunningAscends(tx, tx.latest + 1, own);
    if s.xip != [] {
      assert s.xip[0] in s.xip;
      assert forall y :: y in s.xip ==> s.xip[0] <= y;
    }
  }

  /** What a snapshot taken at some time, or a rewind of one, is worth now: every
      transaction it shows has ended, or writes no row. */
  ghost predicate Settled(tx: Transactions, s: Snapshot) {
    && s.Valid() && s.xmax <= tx.latest + 1
    && forall x: nat :: 1 <= x && s.Sees(x) ==> tx.Ended(x) || x in tx.bystanders
  }

  /** A snapshot that shows the transaction of a row shows every transaction that
      had committed before that row's position was drawn. */
  ghost predicate ClosedUnderCommit(db: Database, s: Snapshot) {
    forall x, p :: p in db.table.rows && s.Sees(db.table.rows[p].xid) && db.CommittedBeforeDraw(x, p) ==> s.Sees(x)
  }

  /** How transactions move on: nothing that has ended changes. */
  ghost predicate MovesOn(tx: Transactions, later: Transactions) {
    && tx.latest <= later.latest && tx.bystanders <= later.bystanders
    && (forall x :: tx.Ended(x) ==> later.Ended(x) && later.status[x] == tx.status[x])
  }

  /** How the table grows: a new row's transaction is running, a new commit is timed
      after every position drawn. */
  ghost predicate Grows(table: Table, later: Table, now: Transactions) {
    && later.ring == table.ring && later.gone == table.gone && later.intactFrom == table.intactFrom
    && table.nextPosition <= later.nextPosition
    && (forall x :: x in table.drawnBefore ==> x in later.drawnBefore && later.drawnBefore[x] == table.drawnBefore[x])
    && (forall x :: x in later.drawnBefore && x !in table.drawnBefore ==> table.nextPosition <= later.drawnBefore[x])
    && (forall p :: p in table.rows ==> p in later.rows && later.rows[p] == table.rows[p])
    && (forall p :: p in later.rows && p !in table.rows ==> now.IsRunning(later.rows[p].xid))
  }

  /** How the database moves on under a position. */
  ghost predicate Extends(db: Database, later: Database) {
    && db.Valid() && later.Valid()
    && MovesOn(db.tx, later.tx) && Grows(db.table, later.table, later.tx)
  }

  lemma CurrentIsSettled(db: Database, own: set<nat>)
    requires db.Valid() && own <= db.tx.bystanders
    ensures Settled(db.tx, db.tx.CurrentSnapshot(own)) && ClosedUnderCommit(db, db.tx.CurrentSnapshot(own))
  {
    var s := db.tx.CurrentSnapshot(own);
    CurrentSnapshotShows(db.tx, own, 1);
    forall x: nat | 1 <= x
      ensures s.Sees(x) <==> db.tx.Ended(x) || (db.tx.IsRunning(x) && x in own && x <= db.tx.latest)
    {
      CurrentSnapshotShows(db.tx, own, x);
    }
  }

  /** Every snapshot settled so far is contained in the current one, but for ids
      that write no row. */
  lemma CurrentContains(tx: Transactions, own: set<nat>, s: Snapshot, x: nat)
    requires tx.Valid() && own <= tx.bystanders && Settled(tx, s)
    requires 1 <= x && s.Sees(x) && x !in tx.bystanders
    ensures tx.CurrentSnapshot(own).Sees(x)
  {
    CurrentSnapshotShows(tx, own, x);
  }

  lemma SettledStays(tx: Transactions, later: Transactions, s: Snapshot)
    requires MovesOn(tx, later) && Settled(tx, s)
    ensures Settled(later, s)
  {
  }

  /** A row drawn after a snapshot settled is not shown by it. */
  lemma NewRowsAreNotShown(db: Database, later: Database, s: Snapshot, p: nat)
    requires Extends(db, later) && Settled(db.tx, s)
    requires p in later.table.rows && s.Sees(later.table.rows[p].xid)
    ensures p in db.table.rows && later.table.rows[p] == db.table.rows[p] && db.tx.Ended(db.table.rows[p].xid)
  {
  }

  lemma ClosedStays(db: Database, later: Database, s: Snapshot)
    requires Extends(db, later) && Settled(db.tx, s) && ClosedUnderCommit(db, s)
    ensures ClosedUnderCommit(later, s)
  {
    forall x, p | p in later.table.rows && s.Sees(later.table.rows[p].xid) && later.CommittedBeforeDraw(x, p)
      ensures s.Sees(x)
    {
      NewRowsAreNotShown(db, later, s, p);
    }
  }

  // The steps of the transactions that publish, and of everyone else's.

  /** A transaction is given an id, at its first write. */
  function Begin(db: Database, bystander: bool): (later: Database) {
    var tx := db.tx;
    db.(tx := Transactions(tx.next + 1, tx.latest, tx.status[tx.next := Running],
                           if bystander then tx.bystanders + {tx.next} else tx.bystanders))
  }

  predicate MayInsert(tx: Transactions, xid: nat) {
    tx.IsRunning(xid) && xid !in tx.bystanders
  }

  /** `INSERT`: the position is drawn now, one at a time. */
  function Insert(db: Database, row: Row): (later: Database) {
    var table := db.table;
    db.(table := table.(rows := table.rows[table.nextPosition := row], nextPosition := table.nextPosition + 1))
  }

  function Commit(db: Database, xid: nat): (later: Database) {
    Database(End(db.tx, xid, Committed), db.table.(drawnBefore := db.table.drawnBefore[xid := db.table.nextPosition]))
  }

  function Abort(db: Database, xid: nat): (later: Database) {
    db.(tx := End(db.tx, xid, Aborted))
  }

  function End(tx: Transactions, xid: nat, how: Status): (later: Transactions) {
    tx.(status := tx.status[xid := how], latest := if tx.latest < xid then xid else tx.latest)
  }

  lemma BeginMovesOn(tx: Transactions, later: Transactions, bystander: bool)
    requires tx.Valid()
    requires later == Transactions(tx.next + 1, tx.latest, tx.status[tx.next := Running],
                                   if bystander then tx.bystanders + {tx.next} else tx.bystanders)
    ensures later.Valid() && MovesOn(tx, later)
    ensures forall x :: later.Ended(x) <==> tx.Ended(x)
    ensures forall x :: later.IsCommitted(x) <==> tx.IsCommitted(x)
  {
    assert tx.next !in tx.status;
    forall x: nat | later.Ended(x)
      ensures tx.Ended(x)
    {
    }
  }

  lemma EndMovesOn(tx: Transactions, xid: nat, how: Status)
    requires tx.Valid() && tx.IsRunning(xid) && how != Running
    ensures End(tx, xid, how).Valid() && MovesOn(tx, End(tx, xid, how))
    ensures End(tx, xid, how).status.Keys == tx.status.Keys
  {
    var later := End(tx, xid, how);
    forall x: nat | later.Ended(x)
      ensures x <= later.latest
    {
      assert x == xid || tx.Ended(x);
    }
  }

  lemma BeginExtends(db: Database, bystander: bool)
    requires db.Valid()
    ensures Extends(db, Begin(db, bystander))
  {
    BeginMovesOn(db.tx, Begin(db, bystander).tx, bystander);
    assert db.tx.next !in db.tx.status;
  }

  lemma InsertExtends(db: Database, row: Row)
    requires db.Valid() && MayInsert(db.tx, row.xid)
    ensures Extends(db, Insert(db, row))
  {
    assert row.xid !in db.table.drawnBefore;
  }

  lemma CommitExtends(db: Database, xid: nat)
    requires db.Valid() && db.tx.IsRunning(xid)
    ensures Extends(db, Commit(db, xid))
  {
    EndMovesOn(db.tx, xid, Committed);
    assert xid !in db.table.drawnBefore;
  }

  lemma AbortExtends(db: Database, xid: nat)
    requires db.Valid() && db.tx.IsRunning(xid)
    ensures Extends(db, Abort(db, xid))
  {
    EndMovesOn(db.tx, xid, Aborted);
  }
}
