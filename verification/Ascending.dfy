/** Finite sets of positions listed in order: what `ORDER BY "position"` and
    `LIMIT` make of the rows a statement reads. */
module Ascending {

  /** The elements of `s` in `[lo, hi)`, ascending. */
  function Slice(s: set<nat>, lo: nat, hi: nat): (r: seq<nat>)
    decreases hi
  {
    if hi <= lo then []
    else Slice(s, lo, hi - 1) + (if hi - 1 in s then [hi - 1] else [])
  }

  /** The first `n` of `r`, or all of a shorter one. */
  function First(r: seq<nat>, n: nat): (f: seq<nat>)
    ensures |f| <= n && f <= r
  {
    if |r| <= n then r else r[..n]
  }

  lemma {:induction false} SliceHasExactly(s: set<nat>, lo: nat, hi: nat)
    ensures forall p :: p in Slice(s, lo, hi) <==> p in s && lo <= p < hi
    decreases hi
  {
    if lo < hi {
      SliceHasExactly(s, lo, hi - 1);
    }
  }

  lemma {:induction false} SliceSplits(s: set<nat>, lo: nat, mid: nat, hi: nat)
    requires lo <= mid <= hi
    ensures Slice(s, lo, hi) == Slice(s, lo, mid) + Slice(s, mid, hi)
    decreases hi
  {
    if mid < hi {
      SliceSplits(s, lo, mid, hi - 1);
    }
  }

  lemma {:induction false} SliceAscends(s: set<nat>, lo: nat, hi: nat)
    ensures forall i, j :: 0 <= i < j < |Slice(s, lo, hi)| ==> Slice(s, lo, hi)[i] < Slice(s, lo, hi)[j]
    decreases hi
  {
    if lo < hi {
      SliceAscends(s, lo, hi - 1);
      SliceHasExactly(s, lo, hi - 1);
      var r := Slice(s, lo, hi - 1);
      assert forall i :: 0 <= i < |r| ==> r[i] in r;
    }
  }

  /** The slice up to an element of it is its prefix up to that element. */
  lemma {:induction false} SliceUpTo(s: set<nat>, lo: nat, hi: nat, k: nat)
    requires k < |Slice(s, lo, hi)|
    ensures lo <= Slice(s, lo, hi)[k] < hi
    ensures Slice(s, lo, Slice(s, lo, hi)[k] + 1) == Slice(s, lo, hi)[..k + 1]
    decreases hi
  {
    var r := Slice(s, lo, hi);
    if lo < hi {
      var shorter := Slice(s, lo, hi - 1);
      if k < |shorter| {
        SliceUpTo(s, lo, hi - 1, k);
        assert r[..k + 1] == shorter[..k + 1];
      } else {
        assert r[k] == hi - 1;
        assert r[..k + 1] == r;
      }
    }
  }

  /** A slice reads its set between its bounds only. */
  lemma {:induction false} SliceAgrees(s: set<nat>, t: set<nat>, lo: nat, hi: nat)
    requires forall p :: lo <= p < hi ==> (p in s <==> p in t)
    ensures Slice(s, lo, hi) == Slice(t, lo, hi)
    decreases hi
  {
    if lo < hi {
      SliceAgrees(s, t, lo, hi - 1);
    }
  }

  lemma {:induction false} SliceOfNone(s: set<nat>, lo: nat, hi: nat)
    requires forall p :: lo <= p < hi ==> p !in s
    ensures Slice(s, lo, hi) == []
    decreases hi
  {
    if lo < hi {
      SliceOfNone(s, lo, hi - 1);
    }
  }

  /** A bound past every element changes nothing. */
  lemma SliceBound(s: set<nat>, lo: nat, hi: nat, further: nat)
    requires hi <= further && forall p :: p in s ==> p < hi
    ensures Slice(s, lo, further) == Slice(s, lo, hi)
  {
    if lo <= hi {
      SliceSplits(s, lo, hi, further);
      SliceOfNone(s, hi, further);
    } else {
      SliceOfNone(s, lo, further);
    }
  }

  /** A subset's slice is no longer. */
  lemma {:induction false} SliceOfFewer(a: set<nat>, b: set<nat>, lo: nat, hi: nat)
    requires a <= b
    ensures |Slice(a, lo, hi)| <= |Slice(b, lo, hi)|
    decreases hi
  {
    if lo < hi {
      SliceOfFewer(a, b, lo, hi - 1);
    }
  }

  /** A branch of a `UNION ALL` with its own `LIMIT`. */
  function Limited(a: set<nat>, lo: nat, hi: nat, n: nat): (r: set<nat>) {
    set p | p in First(Slice(a, lo, hi), n)
  }

  /** An element is kept by a branch's limit while fewer than `n` come before it. */
  lemma {:induction false} LimitedIs(a: set<nat>, lo: nat, hi: nat, n: nat, p: nat)
    ensures p in Limited(a, lo, hi, n) <==> p in a && lo <= p < hi && |Slice(a, lo, p)| < n
  {
    var r := Slice(a, lo, hi);
    SliceHasExactly(a, lo, hi);
    if p in a && lo <= p < hi {
      SliceSplits(a, lo, p, hi);
      SliceSplits(a, p, p + 1, hi);
      var k := |Slice(a, lo, p)|;
      assert r[k] == p;
      if n < |r| {
        SliceAscends(a, lo, hi);
        assert p in r[..n] <==> k < n;
      }
    }
  }

  /** Limiting one branch before it is merged with the others loses nothing of
      the first `n` of the merge. */
  lemma {:induction false} LimitOfABranch(a: set<nat>, b: set<nat>, lo: nat, hi: nat, n: nat)
    ensures First(Slice(a + b, lo, hi), n) == First(Slice(Limited(a, lo, hi, n) + b, lo, hi), n)
  {
    LimitHolds(a, Limited(a, lo, hi, n), b, lo, hi, hi, n);
  }

  lemma {:induction false} LimitHolds(a: set<nat>, limited: set<nat>, b: set<nat>, lo: nat, hi: nat, whole: nat, n: nat)
    requires hi <= whole && limited == Limited(a, lo, whole, n)
    ensures First(Slice(a + b, lo, hi), n) == First(Slice(limited + b, lo, hi), n)
    ensures |Slice(a, lo, hi)| <= n ==> |Slice(limited, lo, hi)| == |Slice(a, lo, hi)|
    ensures |Slice(a, lo, hi)| >= n ==> |Slice(limited, lo, hi)| >= n
    decreases hi
  {
    if lo < hi {
      LimitHolds(a, limited, b, lo, hi - 1, whole, n);
      LimitedIs(a, lo, whole, n, hi - 1);
      var m, l := Slice(a + b, lo, hi - 1), Slice(limited + b, lo, hi - 1);
      if hi - 1 in a && hi - 1 !in limited && hi - 1 !in b {
        // the branch was full already, and so is the merge
        SliceOfFewer(a, a + b, lo, hi - 1);
        FirstOfFull(m, hi - 1, n);
      } else if hi - 1 in a + b {
        FirstOfBoth(m, l, hi - 1, n);
      }
    }
  }

  lemma FirstOfBoth(m: seq<nat>, l: seq<nat>, x: nat, n: nat)
    requires First(m, n) == First(l, n)
    ensures First(m + [x], n) == First(l + [x], n)
  {
    if |m| < n {
      assert m == l;
    } else {
      FirstOfFull(m, x, n);
      FirstOfFull(l, x, n);
    }
  }

  lemma FirstOfFull(m: seq<nat>, x: nat, n: nat)
    requires n <= |m|
    ensures First(m + [x], n) == First(m, n)
  {
    assert (m + [x])[..n] == m[..n];
  }
}
