/** Custody of signing keys, kept in memory and kept in a table: two implementations of one
    machine. */
module Custody {
  import opened Options

  /** A tenant's key of one algorithm. */
  datatype Keyring = Keyring(tenant: string, algorithm: string)

  /** What was generated, told apart by what it was generated from. */
  datatype Key = Key(secret: nat)

  datatype Signature = Signature(version: nat, key: Key)

  datatype Answer =
    | Version(version: nat)
    | Signed(signature: Signature)
    | Done
    | KeyNotFound
    | NoKeyOfVersion(version: nat)
    | BadSignature
    | Unsupported
    | DoesNotFit(version: nat)

  /** Versions are of 32 bits; a column holds those below 2^31. */
  const MAX_VERSION: nat := 0xffff_ffff

  const MAX_STORED: nat := 0x7fff_ffff

  lemma {:induction false} GreatestExists(s: set<nat>) returns (m: nat)
    requires s != {}
    ensures m in s && forall x :: x in s ==> x <= m
    decreases |s|
  {
    var one :| one in s;
    assert forall x :: x in s ==> x == one || x in s - {one};
    m := one;
    if s - {one} != {} {
      var other := GreatestExists(s - {one});
      m := if one < other then other else one;
    }
  }

  lemma HasGreatest(s: set<nat>)
    requires s != {}
    ensures exists m :: m in s && forall x :: x in s ==> x <= m
  {
    var m := GreatestExists(s);
  }

  function Greatest(s: set<nat>): (m: nat)
    requires s != {}
    ensures m in s && forall x :: x in s ==> x <= m
  {
    HasGreatest(s);
    var m :| m in s && forall x :: x in s ==> x <= m;
    m
  }

  /** The keyring in memory: the versions that serve, and the last version made. */
  datatype Ring = Ring(versions: map<nat, Key>, made: nat)

  const NO_RING := Ring(map[], 0)

  /** The version after the last made: saturating, as the counter is of 32 bits. */
  function NextMade(made: nat): nat {
    if made < MAX_VERSION then made + 1 else MAX_VERSION
  }

  /** The versions that serve are a contiguous interval that ends at the last made. */
  ghost predicate IsInterval(versions: map<nat, Key>, latest: nat) {
    && latest in versions
    && (forall v :: v in versions ==> 1 <= v <= latest)
    && (forall v, w :: v in versions && v <= w <= latest ==> w in versions)
  }

  ghost predicate ValidRing(r: Ring) {
    r.made <= MAX_VERSION && if r.versions == map[] then r.made == 0 else IsInterval(r.versions, r.made)
  }

  class InMemoryKeys {
    var signing: map<Keyring, Ring>
    const managed: bool

    constructor (managed: bool)
      ensures signing == map[] && this.managed == managed && Valid()
    {
      signing := map[];
      this.managed := managed;
    }

    ghost predicate Valid()
      reads this
    {
      forall k :: k in signing ==> ValidRing(signing[k])
    }

    function RingOf(k: Keyring): Ring
      reads this
    {
      if k in signing then signing[k] else NO_RING
    }

    /** The next version, of the key generated for it. */
    method Push(k: Keyring, generated: Key) returns (version: nat)
      requires Valid()
      modifies this
      ensures Valid() && version == NextMade(old(RingOf(k)).made)
      ensures signing == old(signing)[k := Ring(old(RingOf(k)).versions[version := generated], version)]
    {
      var ring := RingOf(k);
      version := NextMade(ring.made);
      assert IsInterval(ring.versions[version := generated], version);
      signing := signing[k := Ring(ring.versions[version := generated], version)];
    }

    method Sign(k: Keyring, generated: Key) returns (answer: Answer)
      requires Valid()
      modifies this
      ensures Valid() && InMemory(managed, old(RingOf(k)), OpSign(generated)) == (answer, RingOf(k))
      ensures forall other :: other != k ==> RingOf(other) == old(RingOf(other))
    {
      if RingOf(k).versions == map[] {
        if managed {
          return KeyNotFound;
        }
        var _ := Push(k, generated);
      }
      var latest := Greatest(RingOf(k).versions.Keys);
      answer := Signed(Signature(latest, RingOf(k).versions[latest]));
    }

    method SignWithVersion(k: Keyring, version: nat) returns (answer: Answer)
      requires Valid()
      ensures InMemory(managed, RingOf(k), OpSignWithVersion(version)) == (answer, RingOf(k))
    {
      var ring := RingOf(k);
      answer := if ring.versions == map[] then KeyNotFound
      else if version in ring.versions then Signed(Signature(version, ring.versions[version]))
      else NoKeyOfVersion(version);
    }

    method Verify(k: Keyring, signature: Signature) returns (answer: Answer)
      requires Valid()
      ensures InMemory(managed, RingOf(k), OpVerify(signature)) == (answer, RingOf(k))
    {
      var ring := RingOf(k);
      answer := if ring.versions == map[] then KeyNotFound
      else if signature.version !in ring.versions then NoKeyOfVersion(signature.version)
      else if ring.versions[signature.version] == signature.key then Done
      else BadSignature;
    }

    method Create(k: Keyring, rotates: bool, generated: Key) returns (answer: Answer)
      requires Valid()
      modifies this
      ensures Valid() && InMemory(managed, old(RingOf(k)), OpCreate(rotates, generated)) == (answer, RingOf(k))
      ensures forall other :: other != k ==> RingOf(other) == old(RingOf(other))
    {
      if rotates {
        return Unsupported;
      }
      if RingOf(k).versions == map[] {
        var version := Push(k, generated);
        answer := Version(version);
      } else {
        answer := Version(RingOf(k).made);
      }
    }

    method Rotate(k: Keyring, generated: Key) returns (answer: Answer)
      requires Valid()
      modifies this
      ensures Valid() && InMemory(managed, old(RingOf(k)), OpRotate(generated)) == (answer, RingOf(k))
      ensures forall other :: other != k ==> RingOf(other) == old(RingOf(other))
    {
      if RingOf(k).versions == map[] {
        return KeyNotFound;
      }
      var version := Push(k, generated);
      answer := Version(version);
    }

    method RetireBefore(k: Keyring, version: nat) returns (answer: Answer)
      requires Valid()
      modifies this
      ensures Valid() && InMemory(managed, old(RingOf(k)), OpRetire(version)) == (answer, RingOf(k))
      ensures forall other :: other != k ==> RingOf(other) == old(RingOf(other))
    {
      var ring := RingOf(k);
      if ring.versions == map[] {
        return KeyNotFound;
      }
      if version > ring.made {
        return NoKeyOfVersion(version);
      }
      signing := signing[k := ring.(versions := Kept(ring.versions, version))];
      assert ring.made in Kept(ring.versions, version);
      answer := Done;
    }

    method Delete(k: Keyring) returns (answer: Answer)
      requires Valid()
      modifies this
      ensures Valid() && InMemory(managed, old(RingOf(k)), OpDelete) == (answer, RingOf(k))
      ensures forall other :: other != k ==> RingOf(other) == old(RingOf(other))
    {
      signing := signing - {k};
      answer := Done;
    }
  }

  /** The versions from `version` on. */
  function Kept(versions: map<nat, Key>, version: nat): map<nat, Key> {
    map v | v in versions && v >= version :: versions[v]
  }

  // One keyring of either, under one operation: its answer and what it leaves.

  datatype Op =
    | OpSign(generated: Key)
    | OpSignWithVersion(version: nat)
    | OpVerify(signature: Signature)
    | OpCreate(rotates: bool, generated: Key)
    | OpRotate(generated: Key)
    | OpRetire(version: nat)
    | OpDelete

  function InMemory(managed: bool, r: Ring, op: Op): (after: (Answer, Ring)) {
    var made := NextMade(r.made);
    match op
    case OpSign(generated) =>
      if r.versions == map[] then
        if managed then (KeyNotFound, r)
        else (Signed(Signature(made, generated)), Ring(map[made := generated], made))
      else
        var latest := Greatest(r.versions.Keys);
        (Signed(Signature(latest, r.versions[latest])), r)
    case OpSignWithVersion(version) =>
      (if r.versions == map[] then KeyNotFound
       else if version in r.versions then Signed(Signature(version, r.versions[version]))
       else NoKeyOfVersion(version), r)
    case OpVerify(signature) =>
      (if r.versions == map[] then KeyNotFound
       else if signature.version !in r.versions then NoKeyOfVersion(signature.version)
       else if r.versions[signature.version] == signature.key then Done
       else BadSignature, r)
    case OpCreate(rotates, generated) =>
      if rotates then (Unsupported, r)
      else if r.versions == map[] then (Version(made), Ring(map[made := generated], made))
      else (Version(r.made), r)
    case OpRotate(generated) =>
      if r.versions == map[] then (KeyNotFound, r)
      else (Version(made), Ring(r.versions[made := generated], made))
    case OpRetire(version) =>
      if r.versions == map[] then (KeyNotFound, r)
      else if version > r.made then (NoKeyOfVersion(version), r)
      else (Done, r.(versions := Kept(r.versions, version)))
    case OpDelete => (Done, NO_RING)
  }

  /** The keyring's rows in the table. */
  function InTable(managed: bool, rows: map<nat, Key>, op: Op): (after: (Answer, map<nat, Key>)) {
    match op
    case OpSign(generated) =>
      if rows == map[] then
        if managed then (KeyNotFound, rows) else (Signed(Signature(1, generated)), map[1 := generated])
      else
        var latest := Greatest(rows.Keys);
        (Signed(Signature(latest, rows[latest])), rows)
    case OpSignWithVersion(version) =>
      (if version > MAX_STORED then DoesNotFit(version)
       else if version in rows then Signed(Signature(version, rows[version]))
       else if rows == map[] then KeyNotFound
       else NoKeyOfVersion(version), rows)
    case OpVerify(signature) =>
      (if signature.version > MAX_STORED then DoesNotFit(signature.version)
       else if signature.version in rows then (if rows[signature.version] == signature.key then Done else BadSignature)
       else if rows == map[] then KeyNotFound
       else NoKeyOfVersion(signature.version), rows)
    case OpCreate(rotates, generated) =>
      if rotates then (Unsupported, rows)
      else if rows == map[] then (Version(1), map[1 := generated])
      else (Version(Greatest(rows.Keys)), rows)
    case OpRotate(generated) =>
      if rows == map[] then (KeyNotFound, rows)
      else
        var next := Greatest(rows.Keys) + 1;
        // rolled back: the column does not hold it
        if next > MAX_STORED then (DoesNotFit(next), rows) else (Version(next), rows[next := generated])
    case OpRetire(version) =>
      if rows == map[] then (KeyNotFound, rows)
      else if version > Greatest(rows.Keys) then (NoKeyOfVersion(version), rows)
      else (Done, Kept(rows, version))
    case OpDelete => (Done, map[])
  }

  /** The table's rows: a version of a keyring, and its key. */
  datatype Row = Row(keyring: Keyring, version: nat)

  class KeyTable {
    var rows: map<Row, Key>
    const managed: bool

    constructor (managed: bool)
      ensures rows == map[] && this.managed == managed
    {
      rows := map[];
      this.managed := managed;
    }

    function RowsOf(k: Keyring): map<nat, Key>
      reads this
    {
      map v | v in (set row | row in rows && row.keyring == k :: row.version) :: rows[Row(k, v)]
    }

    /** The latest version, none of no key. */
    method LatestVersion(k: Keyring) returns (latest: Option<nat>)
      ensures latest == if RowsOf(k) == map[] then None else Some(Greatest(RowsOf(k).Keys))
    {
      var versions := RowsOf(k);
      latest := if versions == map[] then None else Some(Greatest(versions.Keys));
    }

    method Save(k: Keyring, version: nat, key: Key)
      requires version <= MAX_STORED
      modifies this
      ensures RowsOf(k) == old(RowsOf(k))[version := key]
      ensures forall other :: other != k ==> RowsOf(other) == old(RowsOf(other))
    {
      rows := rows[Row(k, version) := key];
    }

    method Sign(k: Keyring, generated: Key) returns (answer: Answer)
      modifies this
      ensures InTable(managed, old(RowsOf(k)), OpSign(generated)) == (answer, RowsOf(k))
      ensures forall other :: other != k ==> RowsOf(other) == old(RowsOf(other))
    {
      var latest := LatestVersion(k);
      if latest.Some? {
        return Signed(Signature(latest.value, RowsOf(k)[latest.value]));
      }
      if managed {
        return KeyNotFound;
      }
      Save(k, 1, generated);
      answer := Signed(Signature(1, generated));
    }

    /** The key of a version; or whether it is the version that is missing, or the key. */
    method KeyOfVersion(k: Keyring, version: nat) returns (key: Option<Key>, refusal: Answer)
      ensures key.Some? <==> version <= MAX_STORED && version in RowsOf(k)
      ensures key.Some? ==> key.value == RowsOf(k)[version]
      ensures refusal == if version > MAX_STORED then DoesNotFit(version)
                         else if RowsOf(k) == map[] then KeyNotFound else NoKeyOfVersion(version)
    {
      if version > MAX_STORED {
        return None, DoesNotFit(version);
      }
      refusal := if RowsOf(k) == map[] then KeyNotFound else NoKeyOfVersion(version);
      key := if Row(k, version) in rows then Some(rows[Row(k, version)]) else None;
    }

    method SignWithVersion(k: Keyring, version: nat) returns (answer: Answer)
      ensures InTable(managed, RowsOf(k), OpSignWithVersion(version)) == (answer, RowsOf(k))
    {
      var key, refusal := KeyOfVersion(k, version);
      answer := if key.Some? then Signed(Signature(version, key.value)) else refusal;
    }

    method Verify(k: Keyring, signature: Signature) returns (answer: Answer)
      ensures InTable(managed, RowsOf(k), OpVerify(signature)) == (answer, RowsOf(k))
    {
      var key, refusal := KeyOfVersion(k, signature.version);
      answer := if key.None? then refusal else if key.value == signature.key then Done else BadSignature;
    }

    method Create(k: Keyring, rotates: bool, generated: Key) returns (answer: Answer)
      modifies this
      ensures InTable(managed, old(RowsOf(k)), OpCreate(rotates, generated)) == (answer, RowsOf(k))
      ensures forall other :: other != k ==> RowsOf(other) == old(RowsOf(other))
    {
      if rotates {
        return Unsupported;
      }
      var latest := LatestVersion(k);
      if latest.Some? {
        return Version(latest.value);
      }
      Save(k, 1, generated);
      answer := Version(1);
    }

    method Rotate(k: Keyring, generated: Key) returns (answer: Answer)
      modifies this
      ensures InTable(managed, old(RowsOf(k)), OpRotate(generated)) == (answer, RowsOf(k))
      ensures forall other :: other != k ==> RowsOf(other) == old(RowsOf(other))
    {
      var latest := LatestVersion(k);
      if latest.None? {
        return KeyNotFound;
      }
      if latest.value + 1 > MAX_STORED {
        return DoesNotFit(latest.value + 1);
      }
      Save(k, latest.value + 1, generated);
      answer := Version(latest.value + 1);
    }

    method RetireBefore(k: Keyring, version: nat) returns (answer: Answer)
      modifies this
      ensures InTable(managed, old(RowsOf(k)), OpRetire(version)) == (answer, RowsOf(k))
      ensures forall other :: other != k ==> RowsOf(other) == old(RowsOf(other))
    {
      var latest := LatestVersion(k);
      if latest.None? {
        return KeyNotFound;
      }
      if version > latest.value {
        return NoKeyOfVersion(version);
      }
      rows := map row | row in rows && !(row.keyring == k && row.version < version) :: rows[row];
      assert RowsOf(k) == Kept(old(RowsOf(k)), version);
      assert forall other :: other != k ==> RowsOf(other) == old(RowsOf(other));
      answer := Done;
    }

    method Delete(k: Keyring) returns (answer: Answer)
      modifies this
      ensures InTable(managed, old(RowsOf(k)), OpDelete) == (answer, RowsOf(k))
      ensures forall other :: other != k ==> RowsOf(other) == old(RowsOf(other))
    {
      rows := map row | row in rows && row.keyring != k :: rows[row];
      answer := Done;
    }
  }

  // One machine.

  /** The table's rows are the ring's versions, and the column holds them all. */
  ghost predicate Agree(r: Ring, rows: map<nat, Key>) {
    ValidRing(r) && rows == r.versions && r.made <= MAX_STORED
  }

  /** What the column holds: no version asked for past it, and no rotation past it. */
  predicate Fits(r: Ring, op: Op) {
    match op
    case OpSignWithVersion(version) => version <= MAX_STORED
    case OpVerify(signature) => signature.version <= MAX_STORED
    case OpRotate(_) => r.versions == map[] || r.made < MAX_STORED
    case _ => true
  }

  lemma LatestIsMade(r: Ring)
    requires ValidRing(r) && r.versions != map[]
    ensures Greatest(r.versions.Keys) == r.made
  {
  }

  /** Whatever is asked, the ring stays a contiguous interval that ends at the last made. */
  lemma RingStaysValid(managed: bool, r: Ring, op: Op)
    requires ValidRing(r)
    ensures ValidRing(InMemory(managed, r, op).1)
  {
    var after := InMemory(managed, r, op).1;
    match op
    case OpRotate(_) => assert r.versions != map[] ==> after.made in after.versions;
    case OpRetire(version) => assert r.versions != map[] && version <= r.made ==> r.made in after.versions;
    case OpCreate(_, _) => FirstIsInterval(after, r);
    case OpSign(_) => FirstIsInterval(after, r);
    case _ =>
  }

  lemma FirstIsInterval(after: Ring, r: Ring)
    requires ValidRing(r) && (after == r || (r.versions == map[] && exists key :: after == Ring(map[1 := key], 1)))
    ensures ValidRing(after)
  {
    if after != r {
      assert 1 in after.versions;
    }
  }

  /** The two answer alike, refusals included, and are left alike, exactly when the column
      holds what is asked. */
  lemma OneMachine(managed: bool, r: Ring, rows: map<nat, Key>, op: Op)
    requires Agree(r, rows)
    ensures InMemory(managed, r, op).0 == InTable(managed, rows, op).0 <==> Fits(r, op)
    ensures Fits(r, op) ==> Agree(InMemory(managed, r, op).1, InTable(managed, rows, op).1)
  {
    RingStaysValid(managed, r, op);
    if r.versions != map[] {
      LatestIsMade(r);
    }
  }

  /** What a sequence of operations answers. */
  function AllInMemory(managed: bool, r: Ring, ops: seq<Op>): (after: (seq<Answer>, Ring))
    decreases |ops|
  {
    if ops == [] then ([], r)
    else
      var first := InMemory(managed, r, ops[0]);
      var rest := AllInMemory(managed, first.1, ops[1..]);
      ([first.0] + rest.0, rest.1)
  }

  function AllInTable(managed: bool, rows: map<nat, Key>, ops: seq<Op>): (after: (seq<Answer>, map<nat, Key>))
    decreases |ops|
  {
    if ops == [] then ([], rows)
    else
      var first := InTable(managed, rows, ops[0]);
      var rest := AllInTable(managed, first.1, ops[1..]);
      ([first.0] + rest.0, rest.1)
  }

  /** Each operation fits where it comes. */
  predicate AllFit(managed: bool, r: Ring, ops: seq<Op>)
    decreases |ops|
  {
    ops == [] || (Fits(r, ops[0]) && AllFit(managed, InMemory(managed, r, ops[0]).1, ops[1..]))
  }

  /** For every sequence of operations: the same answers, exactly when the column holds what
      each asks. */
  lemma {:induction false} OneCustody(managed: bool, r: Ring, rows: map<nat, Key>, ops: seq<Op>)
    requires Agree(r, rows)
    ensures AllInMemory(managed, r, ops).0 == AllInTable(managed, rows, ops).0 <==> AllFit(managed, r, ops)
    ensures AllFit(managed, r, ops) ==> Agree(AllInMemory(managed, r, ops).1, AllInTable(managed, rows, ops).1)
    decreases |ops|
  {
    if ops != [] {
      hide InMemory, InTable, Fits, Agree;
      OneMachine(managed, r, rows, ops[0]);
      var one, other := InMemory(managed, r, ops[0]), InTable(managed, rows, ops[0]);
      var a, b := AllInMemory(managed, one.1, ops[1..]).0, AllInTable(managed, other.1, ops[1..]).0;
      if Fits(r, ops[0]) {
        OneCustody(managed, one.1, other.1, ops[1..]);
      }
      assert [one.0] + a == [other.0] + b <==> one.0 == other.0 && a == b by {
        assert ([one.0] + a)[0] == one.0 && ([one.0] + a)[1..] == a;
        assert ([other.0] + b)[0] == other.0 && ([other.0] + b)[1..] == b;
      }
    }
  }

  lemma OneKeepsRetired(managed: bool, r: Ring, op: Op, version: nat)
    requires ValidRing(r) && !op.OpDelete? && r.versions != map[] && version <= r.made && version !in r.versions
    ensures var after := InMemory(managed, r, op).1;
            after.versions != map[] && version <= after.made && version !in after.versions
  {
    RingStaysValid(managed, r, op);
    assert r.made in r.versions;
    assert op.OpRetire? ==> r.made in InMemory(managed, r, op).1.versions;
    assert op.OpRotate? ==> InMemory(managed, r, op).1.made in InMemory(managed, r, op).1.versions;
  }

  /** A version retired never comes back, whatever is asked next, until the key is deleted. */
  lemma {:induction false} RetiredStays(managed: bool, r: Ring, ops: seq<Op>, version: nat)
    requires ValidRing(r) && r.versions != map[] && version <= r.made && version !in r.versions
    requires forall i :: 0 <= i < |ops| ==> !ops[i].OpDelete?
    ensures version !in AllInMemory(managed, r, ops).1.versions
    ensures InMemory(managed, AllInMemory(managed, r, ops).1, OpSignWithVersion(version)).0 == NoKeyOfVersion(version)
    decreases |ops|
  {
    if ops != [] {
      hide InMemory;
      RingStaysValid(managed, r, ops[0]);
      OneKeepsRetired(managed, r, ops[0], version);
      RetiredStays(managed, InMemory(managed, r, ops[0]).1, ops[1..], version);
    }
  }

  /** A retirement below the latest leaves every version from its bound on, and answers for
      nothing below it. */
  lemma RetirementIsExact(managed: bool, r: Ring, version: nat, asked: nat)
    requires ValidRing(r) && r.versions != map[] && version <= r.made
    ensures var after := InMemory(managed, r, OpRetire(version)).1;
            && (asked in after.versions <==> asked in r.versions && asked >= version)
            && (InMemory(managed, after, OpSignWithVersion(asked)).0 == NoKeyOfVersion(asked) <==> asked !in r.versions || asked < version)
  {
    assert r.made in Kept(r.versions, version);
  }

  /** Past the column the two part: a rotation there makes a version in memory, and is refused
      by the table. */
  lemma PastTheColumn(managed: bool, key: Key, generated: Key)
    ensures var r := Ring(map[MAX_STORED := key], MAX_STORED);
            && Agree(r, r.versions)
            && InMemory(managed, r, OpRotate(generated)).0 == Version(MAX_STORED + 1)
            && InTable(managed, r.versions, OpRotate(generated)) == (DoesNotFit(MAX_STORED + 1), r.versions)
  {
    var r := Ring(map[MAX_STORED := key], MAX_STORED);
    assert MAX_STORED in r.versions;
    LatestIsMade(r);
  }
}
