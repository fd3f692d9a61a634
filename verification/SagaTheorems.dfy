/** What runs of nested slips come to: every leaf done by a slip that failed was undone once, and
    no leaf before it was done; branches stopped at any moment; and leaves undone in the reverse
    of their order. */
module SagaTheorems {
  import opened Options
  import opened SagaSlips
  import opened SagaRun

  function Dids(t: seq<Event>): multiset<nat> {
    if t == [] then multiset{}
    else (if t[0].Did? then multiset{t[0].leaf} else multiset{}) + Dids(t[1..])
  }

  function Undids(t: seq<Event>): multiset<nat> {
    if t == [] then multiset{}
    else (if t[0].Undid? then multiset{t[0].leaf} else multiset{}) + Undids(t[1..])
  }

  lemma {:induction false} EffectOfPrefix(before: multiset<nat>, t: seq<Event>, n: nat)
    requires n <= |t| && Effect(before, t).Some?
    ensures Effect(before, t[..n]).Some?
    decreases |t|
  {
    if n > 0 {
      EffectOfFirst(before, t);
      EffectOfPrefix(Applied(before, t[0]), t[1..], n - 1);
      assert t[..n][1..] == t[1..][..n - 1];
      EffectFromFirst(before, t[..n]);
    }
  }

  lemma OneBalances(before: multiset<nat>, dids: multiset<nat>, after: multiset<nat>, undids: multiset<nat>, event: Event)
    requires Applied(before, event) + dids == after + undids && (event.Undid? ==> event.leaf in before)
    ensures event.Did? ==> before + (multiset{event.leaf} + dids) == after + (multiset{} + undids)
    ensures event.Undid? ==> before + (multiset{} + dids) == after + (multiset{event.leaf} + undids)
  {
    var one := multiset{event.leaf};
    if event.Did? {
      assert before + (one + dids) == before + one + dids;
      assert after + (multiset{} + undids) == after + undids;
    } else {
      assert before + (multiset{} + dids) == before - one + dids + one;
      assert after + (one + undids) == after + undids + one;
    }
  }

  /** Whatever is outstanding was done more often than undone, as often as it is outstanding; and
      nothing was undone before it was done. */
  lemma {:induction false} EffectBalances(before: multiset<nat>, t: seq<Event>)
    requires Effect(before, t).Some?
    ensures before + Dids(t) == Effect(before, t).value + Undids(t)
    decreases |t|
  {
    if t == [] {
    } else {
      hide Effect;
      EffectOfFirst(before, t);
      EffectBalances(Applied(before, t[0]), t[1..]);
      OneBalances(before, Dids(t[1..]), Effect(before, t).value, Undids(t[1..]), t[0]);
    }
  }

  /** A slip that failed leaves nothing: each leaf done, at any depth, was undone exactly once. */
  lemma FailureIsUndone(first: Slips, later: Slips, h: nat, t: seq<Event>, at: Slips, done: nat, n: nat)
    requires h in first && first[h].completed == [] && Ran(first, later, h, false, t, at, done, n)
    ensures Leaves(later, h) == multiset{} && Dids(t) == Undids(t)
    ensures forall k: nat :: k <= |t| ==> Undids(t[..k]) <= Dids(t[..k])
  {
    hide Kept, Undoes;
    NothingDone(first, h);
    NothingDone(later, h);
    EffectBalances(multiset{}, t);
    assert multiset{} + Dids(t) == Dids(t) && multiset{} + Undids(t) == Undids(t);
    forall k: nat | k <= |t|
      ensures Undids(t[..k]) <= Dids(t[..k])
    {
      EffectOfPrefix(multiset{}, t, k);
      EffectBalances(multiset{}, t[..k]);
      assert multiset{} + Dids(t[..k]) == Dids(t[..k]);
    }
  }

  /** A slip that succeeded, and later was undone: the same. */
  lemma SuccessIsUndone(first: Slips, later: Slips, h: nat, t: seq<Event>, at: Slips, done: nat, n: nat, undone: seq<Event>)
    requires h in first && first[h].completed == [] && Ran(first, later, h, true, t, at, done, n)
    requires Effect(Leaves(later, h), undone) == Some(multiset{})
    ensures Leaves(later, h) + Undids(t) == Dids(t) && Dids(t + undone) == Undids(t + undone)
  {
    hide Kept, Undoes, Forward;
    NothingDone(first, h);
    EffectBalances(multiset{}, t);
    assert multiset{} + Dids(t) == Dids(t);
    EffectChains(multiset{}, t, undone);
    EffectBalances(multiset{}, t + undone);
    assert multiset{} + Dids(t + undone) == Dids(t + undone) && multiset{} + Undids(t + undone) == Undids(t + undone);
  }

  /** Each part cut short. */
  function Cut(parts: seq<seq<Event>>, cuts: seq<nat>): (r: seq<seq<Event>>)
    requires |cuts| == |parts| && forall i :: 0 <= i < |parts| ==> cuts[i] <= |parts[i]|
  {
    seq(|parts|, i requires 0 <= i < |parts| => parts[i][..cuts[i]])
  }

  /** Branches stopped at any moment: each has taken some of its own steps, in its own order. */
  lemma {:induction false} ShuffleStopped(parts: seq<seq<Event>>, t: seq<Event>, n: nat) returns (cuts: seq<nat>)
    requires IsShuffle(parts, t) && n <= |t|
    ensures |cuts| == |parts| && forall i :: 0 <= i < |parts| ==> cuts[i] <= |parts[i]|
    ensures IsShuffle(Cut(parts, cuts), t[..n])
    decreases |t|
  {
    if n == 0 {
      cuts := seq(|parts|, i => 0);
    } else {
      var i :| 0 <= i < |parts| && parts[i] != [] && parts[i][0] == t[0] && IsShuffle(parts[i := parts[i][1..]], t[1..]);
      var rest := ShuffleStopped(parts[i := parts[i][1..]], t[1..], n - 1);
      cuts := rest[i := rest[i] + 1];
      var cut := Cut(parts, cuts);
      assert cut[i] == parts[i][..rest[i] + 1] && cut[i][1..] == parts[i][1..][..rest[i]];
      assert cut[i := cut[i][1..]] == Cut(parts[i := parts[i][1..]], rest);
      assert t[..n][1..] == t[1..][..n - 1];
    }
  }

  /** What is outstanding at any moment of branches run at once is what each has outstanding at
      its own point. */
  lemma AtAnyMoment(befores: seq<multiset<nat>>, parts: seq<seq<Event>>, afters: seq<multiset<nat>>, t: seq<Event>, n: nat)
    returns (cuts: seq<nat>, now: seq<multiset<nat>>)
    requires EffectsOf(befores, parts, afters) && IsShuffle(parts, t) && n <= |t|
    ensures |cuts| == |parts| && forall i :: 0 <= i < |parts| ==> cuts[i] <= |parts[i]|
    ensures EffectsOf(befores, Cut(parts, cuts), now) && Effect(Sum(befores), t[..n]) == Some(Sum(now))
  {
    hide IsShuffle, Sum, Effect;
    cuts := ShuffleStopped(parts, t, n);
    forall i | 0 <= i < |parts|
      ensures Effect(befores[i], Cut(parts, cuts)[i]).Some?
    {
      EffectOfPrefix(befores[i], parts[i], cuts[i]);
    }
    now := seq(|parts|, i requires 0 <= i < |parts| => Effect(befores[i], Cut(parts, cuts)[i]).value);
    ShuffleEffect(befores, Cut(parts, cuts), now, t[..n]);
  }

  lemma LeafLogUndone(s: Slips, h: nat, log: Log, t: seq<Event>)
    requires log.LeafDone? && UndoesLog(s, h, log, t)
    ensures t == [Undid(log.leaf)]
  {
  }

  /** Last in, first out, where a slip holds leaves only: undone in the very reverse. */
  lemma {:induction false} LeavesUndoneInReverse(s: Slips, h: nat, m: nat, t: seq<Event>)
    requires h in s && m <= |s[h].completed| && Undoes(s, h, m, t)
    requires forall i :: m <= i < |s[h].completed| ==> s[h].completed[i].LeafDone?
    ensures |t| == |s[h].completed| - m
    ensures forall i :: 0 <= i < |t| ==> t[i] == Undid(s[h].completed[|s[h].completed| - 1 - i].leaf)
    decreases |s[h].completed| - m
  {
    if m < |s[h].completed| {
      var n: nat :| UndoesDownTo(s, h, m, t, n);
      LeavesUndoneInReverse(s, h, m + 1, t[..n]);
      LeafLogUndone(s, h, s[h].completed[m], t[n..]);
      assert t == t[..n] + t[n..];
    }
  }
}
