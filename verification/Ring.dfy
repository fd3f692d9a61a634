/** Transaction ids cut into windows, and the windows dealt out to generations in rotation;
    which generations an interval of ids meets. */
module Rings {
  import opened Snapshots

  /** The numbers below `n`. */
  function Below(n: nat): (r: set<nat>)
    ensures forall g: nat :: g in r <==> g < n
  {
    if n == 0 then {} else Below(n - 1) + {n - 1}
  }

  lemma ProductsInOrder(a: int, b: int, d: nat)
    requires a <= b
    ensures d * a <= d * b
  {
  }

  /** The quotient is the number whose multiples enclose `n`. */
  lemma QuotientIs(n: nat, d: nat, q: nat)
    requires d * q <= n < d * q + d
    ensures n / d == q && n % d == n - d * q
  {
    assert n == d * (n / d) + n % d;
    if n / d < q {
      ProductsInOrder(n / d + 1, q, d);
    } else if n / d > q {
      ProductsInOrder(q + 1, n / d, d);
    }
  }

  /** Division is monotone: the windows of ids are in the ids' order. */
  lemma WindowsInOrder(x: nat, y: nat, d: nat)
    requires x <= y && 1 <= d
    ensures x / d <= y / d
  {
    assert x == d * (x / d) + x % d;
    assert y == d * (y / d) + y % d;
    if y / d < x / d {
      ProductsInOrder(y / d + 1, x / d, d);
    }
  }

  /** Every window between those of `from` and `to - 1` holds an id of `[from, to)`. */
  lemma WindowHasAnId(from: nat, to: nat, d: nat, w: nat) returns (x: nat)
    requires from < to && 1 <= d && from / d <= w <= (to - 1) / d
    ensures from <= x < to && x / d == w
  {
    if w == from / d {
      x := from;
    } else {
      x := d * w;
      QuotientIs(x, d, w);
      assert from == d * (from / d) + from % d;
      ProductsInOrder(from / d + 1, w, d);
      assert to - 1 == d * ((to - 1) / d) + (to - 1) % d;
      ProductsInOrder(w, (to - 1) / d, d);
    }
  }

  /** `count` consecutive windows take every remainder of `count`. */
  lemma LapHasEveryGeneration(first: nat, g: nat, count: nat) returns (w: nat)
    requires g < count
    ensures first <= w < first + count && w % count == g
  {
    var q, r := first / count, first % count;
    assert first == count * q + r;
    if g >= r {
      w := first + (g - r);
      QuotientIs(w, count, q);
    } else {
      w := first + count + g - r;
      assert count * (q + 1) == count * q + count;
      QuotientIs(w, count, q + 1);
    }
  }

  /** How many generations there are, and how many consecutive ids a window holds. */
  datatype Ring = Ring(generations: nat, window: nat) {
    predicate Valid() {
      2 <= generations && 1 <= window
    }

    function WindowOf(xid: nat): nat
      requires Valid()
    {
      xid / window
    }

    /** The id's window, counted off round the generations. */
    function GenerationOf(xid: nat): (g: nat)
      requires Valid()
      ensures g < generations
    {
      (xid / window) % generations
    }

    /** The generations met between `from` and `to`, `to` excluded: those of the windows from
        first to last, or all of them where the windows are at least as many. */
    function GenerationsBetween(from: nat, to: nat): (names: set<nat>)
      requires Valid()
    {
      if from >= to then {}
      else
        var first, last := from / window, (to - 1) / window;
        if last - first + 1 >= generations then Below(generations)
        else set w | first <= w <= last :: w % generations
    }

    /** Those met from one `xmax` to the other, and those of the ids that were running for
        `delivered` and are visible to `epoch`. */
    function GenerationsNew(delivered: Snapshot, epoch: Snapshot): (names: set<nat>)
      requires Valid()
    {
      GenerationsBetween(delivered.xmax, epoch.xmax)
      + set x | x in delivered.xip && epoch.Sees(x) :: GenerationOf(x)
    }
  }

  /** A valid ring nearest to the numbers asked for. */
  function New(generations: nat, window: nat): (r: Ring)
    ensures r.Valid()
    ensures Ring(generations, window).Valid() && generations <= 32767 ==> r == Ring(generations, window)
  {
    Ring(if generations < 2 then 2 else if generations > 32767 then 32767 else generations,
         if window < 1 then 1 else window)
  }

  /** `GenerationsBetween(from, to)` names a generation exactly when an id of
      `[from, to)` lies in it, whole laps and the wrap-around included. */
  lemma BetweenIsExact(ring: Ring, from: nat, to: nat, g: nat)
    requires ring.Valid()
    ensures g in ring.GenerationsBetween(from, to) <==>
            exists x :: from <= x < to && ring.GenerationOf(x) == g
  {
    if from < to {
      var first, last := from / ring.window, (to - 1) / ring.window;
      if g in ring.GenerationsBetween(from, to) {
        var w: nat;
        if last - first + 1 >= ring.generations {
          w := LapHasEveryGeneration(first, g, ring.generations);
        } else {
          w :| first <= w <= last && w % ring.generations == g;
        }
        var x := WindowHasAnId(from, to, ring.window, w);
        assert ring.GenerationOf(x) == g;
      }
      forall x | from <= x < to && ring.GenerationOf(x) == g
        ensures g in ring.GenerationsBetween(from, to)
      {
        WindowsInOrder(from, x, ring.window);
        WindowsInOrder(x, to - 1, ring.window);
      }
    }
  }

  /** Every id the epoch sees and `delivered` does not lies in a named generation. */
  lemma NamesAreSound(ring: Ring, delivered: Snapshot, epoch: Snapshot, x: nat)
    requires ring.Valid() && delivered.Valid() && epoch.Valid()
    requires epoch.Sees(x) && !delivered.Sees(x)
    ensures ring.GenerationOf(x) in ring.GenerationsNew(delivered, epoch)
  {
    if x >= delivered.xmax {
      BetweenIsExact(ring, delivered.xmax, epoch.xmax, ring.GenerationOf(x));
    }
  }

  /** A named generation holds an id drawn since `delivered`, or one that was
      running in `delivered` and is visible in the epoch: the server's oldest
      transaction names none. */
  lemma NamesAreTight(ring: Ring, delivered: Snapshot, epoch: Snapshot, g: nat) returns (x: nat)
    requires ring.Valid() && delivered.Valid() && epoch.Valid()
    requires g in ring.GenerationsNew(delivered, epoch)
    ensures ring.GenerationOf(x) == g && !delivered.Sees(x) && x < epoch.xmax
    ensures delivered.xmax <= x || epoch.Sees(x)
  {
    if g in ring.GenerationsBetween(delivered.xmax, epoch.xmax) {
      BetweenIsExact(ring, delivered.xmax, epoch.xmax, g);
      x :| delivered.xmax <= x < epoch.xmax && ring.GenerationOf(x) == g;
    } else {
      x :| x in delivered.xip && epoch.Sees(x) && ring.GenerationOf(x) == g;
    }
  }
}
