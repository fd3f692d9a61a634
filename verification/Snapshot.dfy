/** A PostgreSQL snapshot as the outbox keeps it: which transactions it shows,
    and what a rewind leaves of it. */
module Snapshots {

  /** Ids below `xmin` are over and ids from `xmax` on are not; of the ones between, those in
      `xip` are running. */
  datatype Snapshot = Snapshot(xmin: nat, xmax: nat, xip: seq<nat>) {

    /** What the transaction wrote is shown: it was over when the snapshot was taken. */
    predicate Sees(xid: nat) {
      xid < xmin || (xid < xmax && xid !in xip)
    }

    /** The snapshot cut at `xid`, both bounds lowered to it and the running ids past it dropped. */
    function Below(xid: nat): (r: Snapshot) {
      Snapshot(if xmin < xid then xmin else xid, if xmax < xid then xmax else xid, KeepBelow(xip, xid))
    }

    /** What the server guarantees of a snapshot it prints. */
    predicate Valid() {
      1 <= xmin <= xmax && forall x | x in xip :: xmin <= x < xmax
    }
  }

  /** `1:1:`, in which no transaction is visible. */
  const NOTHING := Snapshot(1, 1, [])

  /** The ids of `xip` below `xid`, in their order. */
  function KeepBelow(xip: seq<nat>, xid: nat): (r: seq<nat>)
    ensures forall x :: x in r <==> x in xip && x < xid
  {
    if xip == [] then []
    else (if xip[0] < xid then [xip[0]] else []) + KeepBelow(xip[1..], xid)
  }

  /** A rewind to `f` keeps exactly what was visible below `f`. */
  lemma BelowKeepsExactly(s: Snapshot, f: nat, x: nat)
    ensures s.Below(f).Sees(x) <==> x < f && s.Sees(x)
  {
  }

  /** A rewound snapshot is one the server would accept. */
  lemma BelowIsValid(s: Snapshot, f: nat)
    requires s.Valid() && 1 <= f
    ensures s.Below(f).Valid()
  {
  }

  /** Rewinding twice is rewinding to the lower id. */
  lemma BelowTwice(s: Snapshot, f: nat, g: nat, x: nat)
    ensures s.Below(f).Below(g).Sees(x) <==> s.Below(if f < g then f else g).Sees(x)
  {
    BelowKeepsExactly(s.Below(f), g, x);
    BelowKeepsExactly(s, f, x);
    BelowKeepsExactly(s, if f < g then f else g, x);
  }
}
