/** Routing slips run forward and undone: each activity as its loops run, the slips shared by
    handle and changed in place. */
module SagaRun {
  import opened Options
  import opened SagaSlips
  import opened SagaMachine
  import opened SagaMoves
  import opened SagaView

  // What undoing a slip does, in order: its last log first.

  /** `t` undoes one log: a leaf's work; the alternative that succeeded; or the branches, at once. */
  ghost predicate UndoesLog(s: Slips, h: nat, log: Log, t: seq<Event>)
    decreases h, 1
  {
    match log
    case LeafDone(leaf) => t == [Undid(leaf)]
    case Succeeded(k) => k < h && k in s && Undoes(s, k, 0, t)
    case Executed(hs) => exists parts :: UndoesAll(s, h, hs, parts) && IsShuffle(parts, t)
  }

  ghost predicate UndoesAll(s: Slips, h: nat, hs: seq<nat>, parts: seq<seq<Event>>)
    decreases h, 0
  {
    |parts| == |hs| && forall i :: 0 <= i < |hs| ==> hs[i] < h && hs[i] in s && Undoes(s, hs[i], 0, parts[i])
  }

  /** `t` undoes the logs of slip `h` from `m` on, the last first. */
  ghost predicate Undoes(s: Slips, h: nat, m: nat, t: seq<Event>)
    requires h in s
    decreases h, 2, |s[h].completed| - m
  {
    if m >= |s[h].completed| then t == []
    else exists n: nat :: UndoesDownTo(s, h, m, t, n)
  }

  ghost predicate UndoesDownTo(s: Slips, h: nat, m: nat, t: seq<Event>, n: nat)
    requires h in s && m < |s[h].completed|
    decreases h, 2, |s[h].completed| - m, 0
  {
    n <= |t| && Undoes(s, h, m + 1, t[..n]) && UndoesLog(s, h, s[h].completed[m], t[n..])
  }

  /** Last in, first out: what undoes the logs from `k` on comes before everything that undoes
      those below. */
  lemma {:induction false} LastInFirstOut(s: Slips, h: nat, m: nat, k: nat, t: seq<Event>) returns (n: nat)
    requires h in s && m <= k && Undoes(s, h, m, t)
    ensures n <= |t| && Undoes(s, h, k, t[..n])
    decreases k - m
  {
    if m == k || m >= |s[h].completed| {
      n := |t|;
      assert t[..n] == t;
    } else {
      var i: nat :| UndoesDownTo(s, h, m, t, i);
      n := LastInFirstOut(s, h, m + 1, k, t[..i]);
      assert t[..i][..n] == t[..n];
    }
  }

  // Slips that were not touched.

  /** The tree at `k` is as it was. */
  ghost predicate Unchanged(s: Slips, later: Slips, k: nat) {
    Tree(s, k) && later.Keys == s.Keys && forall x :: x in Owns(s, k) && x in s ==> later[x] == s[x]
  }

  lemma UnchangedIs(s: Slips, later: Slips, k: nat)
    requires Unchanged(s, later, k)
    ensures Tree(later, k) && Owns(later, k) == Owns(s, k) && Leaves(later, k) == Leaves(s, k) && later[k] == s[k]
    ensures forall m: nat, t :: Undoes(later, k, m, t) == Undoes(s, k, m, t)
  {
    var owned := s.Keys - Owns(s, k);
    assert Within(s, later, owned);
    TreeStays(s, later, k, owned);
    assert k in Owns(s, k);
    forall m: nat, t
      ensures Undoes(later, k, m, t) == Undoes(s, k, m, t)
    {
      UndoesStays(s, later, k, m, t);
    }
  }

  lemma {:induction false} UndoesStays(s: Slips, later: Slips, h: nat, m: nat, t: seq<Event>)
    requires Unchanged(s, later, h)
    ensures h in later && Undoes(later, h, m, t) == Undoes(s, h, m, t)
    decreases h, 2, |s[h].completed| - m
  {
    assert h in Owns(s, h);
    if m < |s[h].completed| {
      forall n: nat
        ensures UndoesDownTo(later, h, m, t, n) == UndoesDownTo(s, h, m, t, n)
      {
        if n <= |t| {
          UndoesStays(s, later, h, m + 1, t[..n]);
          LogChildren(s, h, m);
          forall k | k in HandlesOfLog(s[h].completed[m])
            ensures Unchanged(s, later, k)
          {
            ChildUnchanged(s, later, h, k);
          }
          UndoesLogStays(s, later, h, s[h].completed[m], t[n..]);
        }
      }
    }
  }

  lemma ChildUnchanged(s: Slips, later: Slips, h: nat, k: nat)
    requires Unchanged(s, later, h) && k in Children(s[h])
    ensures Unchanged(s, later, k) && k < h
  {
    ChildIsOwned(s, h, Children(s[h]), k);
    var hs := Children(s[h]);
    var i :| 0 <= i < |hs| && hs[i] == k;
    forall x | x in Owns(s, k)
      ensures x in Owns(s, h)
    {
      OwnsAllIs(s, h, hs, x);
      assert x in Owns(s, hs[i]);
    }
  }

  lemma LogChildren(s: Slips, h: nat, m: nat)
    requires h in s && m < |s[h].completed|
    ensures forall k :: k in HandlesOfLog(s[h].completed[m]) ==> k in Children(s[h])
  {
    forall k | k in HandlesOfLog(s[h].completed[m])
      ensures k in Children(s[h])
    {
      LogHandlesOfPart(s[h].completed, m, k);
    }
  }

  lemma {:induction false} UndoesLogStays(s: Slips, later: Slips, h: nat, log: Log, t: seq<Event>)
    requires forall k :: k in HandlesOfLog(log) && k < h ==> Unchanged(s, later, k)
    requires later.Keys == s.Keys
    ensures UndoesLog(later, h, log, t) == UndoesLog(s, h, log, t)
    decreases h, 1
  {
    match log
    case LeafDone(_) =>
    case Succeeded(k) =>
      assert k in HandlesOfLog(log);
      if k < h && k in s {
        UndoesStays(s, later, k, 0, t);
      }
    case Executed(hs) =>
      forall parts
        ensures UndoesAll(later, h, hs, parts) == UndoesAll(s, h, hs, parts)
      {
        if |parts| == |hs| {
          forall i | 0 <= i < |hs| && hs[i] < h && hs[i] in s
            ensures Undoes(later, hs[i], 0, parts[i]) == Undoes(s, hs[i], 0, parts[i])
          {
            assert hs[i] in HandlesOfLog(log);
            UndoesStays(s, later, hs[i], 0, parts[i]);
          }
        }
      }
  }

  // What a slip comes to, whatever it did before: known from its leaves alone.

  /** Every piece of the slip's work succeeds. */
  ghost predicate Succeeds(s: Slips, h: nat)
    decreases h, 1
  {
    h in s && forall i :: 0 <= i < |s[h].next| ==> ItemSucceeds(s, h, s[h].next[i])
  }

  /** A leaf that works; some alternative, or every branch, that succeeds. */
  ghost predicate ItemSucceeds(s: Slips, h: nat, item: Item)
    decreases h, 0
  {
    match item
    case Leaf(_, works) => works
    case Fallback(hs) => exists i :: 0 <= i < |hs| && hs[i] < h && Succeeds(s, hs[i])
    case Parallel(hs) => forall i :: 0 <= i < |hs| && hs[i] < h ==> Succeeds(s, hs[i])
  }

  lemma {:induction false} SucceedsStays(s: Slips, later: Slips, h: nat)
    requires Unchanged(s, later, h)
    ensures Succeeds(later, h) == Succeeds(s, h)
    decreases h, 1
  {
    assert h in Owns(s, h);
    TreeIs(s, h);
    forall i | 0 <= i < |s[h].next|
      ensures ItemSucceeds(later, h, s[h].next[i]) == ItemSucceeds(s, h, s[h].next[i])
    {
      forall k | k in HandlesOfItem(s[h].next[i])
        ensures Unchanged(s, later, k)
      {
        ItemHandlesOfPart(s[h].next, i, k);
        ChildOfLogOrItem(s[h], k);
        ChildUnchanged(s, later, h, k);
      }
      ItemStays(s, later, h, s[h].next[i]);
    }
  }

  lemma {:induction false} ItemStays(s: Slips, later: Slips, h: nat, item: Item)
    requires forall k :: k in HandlesOfItem(item) && k < h ==> Unchanged(s, later, k)
    ensures ItemSucceeds(later, h, item) == ItemSucceeds(s, h, item)
    decreases h, 0
  {
    var hs := HandlesOfItem(item);
    forall i | 0 <= i < |hs| && hs[i] < h
      ensures Succeeds(later, hs[i]) == Succeeds(s, hs[i])
    {
      SucceedsStays(s, later, hs[i]);
    }
  }

  /** How branches run at once interleave: some way, each time. */
  ghost predicate Interleaves(mix: seq<seq<Event>> -> seq<Event>) {
    forall parts :: IsShuffle(parts, mix(parts))
  }

  lemma {:induction false} SumOfNone(parts: seq<multiset<nat>>)
    requires forall i :: 0 <= i < |parts| ==> parts[i] == multiset{}
    ensures Sum(parts) == multiset{}
  {
    if parts != [] {
      SumOfNone(parts[1..]);
    }
  }

  /** What a step on slip `h` leaves alone, and keeps: whatever is not the slip's, and that it
      is a tree. */
  ghost predicate Kept(s: Slips, later: Slips, h: nat) {
    Within(s, later, Owns(s, h)) && Tree(later, h) && Owns(later, h) <= Owns(s, h)
  }

  lemma KeptChains(s: Slips, mid: Slips, later: Slips, h: nat)
    requires Kept(s, mid, h) && Kept(mid, later, h)
    ensures Kept(s, later, h)
  {
  }

  /** The slips `hs` that stood apart from slip `h` were run, and nothing else. */
  ghost predicate OnlyApart(s: Slips, later: Slips, h: nat, hs: seq<nat>) {
    && Working(later, h, hs) && Within(s, later, OwnsAll(s, h, hs)) && h in s && later[h] == s[h]
    && Leaves(later, h) == Leaves(s, h) && Owns(later, h) == Owns(s, h) && OwnsAll(later, h, hs) <= OwnsAll(s, h, hs)
  }

  lemma UnchangedChains(s: Slips, mid: Slips, later: Slips, k: nat)
    requires Unchanged(s, mid, k) && Unchanged(mid, later, k)
    ensures Unchanged(s, later, k)
  {
    hide Tree, Owns, Leaves, Undoes;
    UnchangedIs(s, mid, k);
  }

  lemma LessOwns(s: Slips, later: Slips, h: nat, slip: Slip)
    requires Tree(s, h) && later == s[h := slip]
    ensures forall k :: k in Children(s[h]) ==> Unchanged(s, later, k)
  {
    forall k | k in Children(s[h])
      ensures Unchanged(s, later, k)
    {
      ChildIsOwned(s, h, Children(s[h]), k);
      forall x | x in Owns(s, k)
        ensures x != h
      {
        OwnsBelow(s, k, x);
      }
    }
  }

  lemma PoppedChildren(slip: Slip, k: nat)
    requires slip.completed != [] && k in Children(slip.(completed := slip.completed[..|slip.completed| - 1]))
    ensures k in Children(slip)
  {
  }

  lemma ChildApart(s: Slips, later: Slips, h: nat, hs: seq<nat>, k: nat)
    requires Working(s, h, hs) && Within(s, later, OwnsAll(s, h, hs)) && k in Children(s[h])
    ensures Unchanged(s, later, k)
  {
    ChildIsOwned(s, h, Children(s[h]), k);
    forall x | x in Owns(s, k)
      ensures x in Owns(s, h)
    {
      var cs := Children(s[h]);
      OwnsAllIs(s, h, cs, x);
      var i :| 0 <= i < |cs| && cs[i] == k;
      assert x in Owns(s, cs[i]);
    }
  }

  /** The logs of slip `h` from `m` on were undone by `t`; what is left of the slip was not touched. */
  ghost predicate UndoneDownTo(first: Slips, now: Slips, h: nat, m: nat, t: seq<Event>) {
    && h in first && h in now && Kept(first, now, h) && now[h].next == first[h].next
    && m == |now[h].completed| <= |first[h].completed| && now[h].completed == first[h].completed[..m]
    && Effect(Leaves(first, h), t) == Some(Leaves(now, h)) && Undoes(first, h, m, t)
    && forall k :: k in Children(now[h]) ==> Unchanged(first, now, k)
  }

  /** The last log of slip `h` was popped, and undone by `t`. */
  ghost predicate LastUndone(first: Slips, later: Slips, h: nat, t: seq<Event>) {
    && h in first && h in later && first[h].completed != [] && Kept(first, later, h)
    && var m := |first[h].completed| - 1;
       && later[h] == first[h].(completed := first[h].completed[..m])
       && Effect(Leaves(first, h), t) == Some(Leaves(later, h)) && UndoesLog(first, h, first[h].completed[m], t)
       && forall k :: k in Children(later[h]) ==> Unchanged(first, later, k)
  }

  /** A log popped, and its slips undone. */
  lemma LogUndone(first: Slips, popped: Slips, later: Slips, h: nat, t: seq<Event>)
    requires h in first && Tree(first, h) && first[h].completed != []
    requires popped == first[h := first[h].(completed := first[h].completed[..|first[h].completed| - 1])]
    requires var log := first[h].completed[|first[h].completed| - 1];
             && Working(popped, h, HandlesOfLog(log)) && OnlyApart(popped, later, h, HandlesOfLog(log))
             && Effect(LeavesOfLog(popped, h, log), t) == Some(multiset{}) && UndoesLog(popped, h, log, t)
    ensures LastUndone(first, later, h, t)
  {
    hide Owns, OwnsAll, Leaves, LeavesOfLog, Tree, Effect, Undoes, UndoesLog, Children;
    var log := first[h].completed[|first[h].completed| - 1];
    LogTaken(first, h);
    OwnsIs(first, h);
    EffectBeside(LeavesOfLog(popped, h, log), t, Leaves(popped, h));
    assert LeavesOfLog(popped, h, log) + Leaves(popped, h) == Leaves(first, h);
    assert multiset{} + Leaves(popped, h) == Leaves(later, h);
    LessOwns(first, popped, h, popped[h]);
    LogChildren(first, h, |first[h].completed| - 1);
    UndoesLogStays(first, popped, h, log, t);
    forall k | k in Children(later[h])
      ensures Unchanged(first, later, k)
    {
      PoppedChildren(first[h], k);
      ChildApart(popped, later, h, HandlesOfLog(log), k);
      UnchangedChains(first, popped, later, k);
    }
  }

  lemma OneMoreUndone(first: Slips, before: Slips, later: Slips, h: nat, m: nat, t: seq<Event>, undone: seq<Event>)
    requires Tree(first, h) && UndoneDownTo(first, before, h, m + 1, t) && LastUndone(before, later, h, undone)
    ensures UndoneDownTo(first, later, h, m, t + undone)
  {
    hide Owns, OwnsAll, Leaves, Tree, Effect, Children;
    EffectChains(Leaves(first, h), t, undone);
    KeptChains(first, before, later, h);
    LogChildren(before, h, m);
    UndoesLogStays(first, before, h, before[h].completed[m], undone);
    var all := t + undone;
    assert all[..|t|] == t && all[|t|..] == undone;
    assert UndoesDownTo(first, h, m, all, |t|);
    forall k | k in Children(later[h])
      ensures Unchanged(first, later, k)
    {
      PoppedChildren(before[h], k);
      UnchangedChains(first, before, later, k);
    }
  }

  lemma NothingDone(s: Slips, h: nat)
    requires h in s && s[h].completed == []
    ensures Leaves(s, h) == multiset{}
  {
  }

  lemma UndoneNothing(s: Slips, h: nat)
    requires h in s && Tree(s, h)
    ensures UndoneDownTo(s, s, h, |s[h].completed|, [])
  {
    hide Leaves, Owns;
    assert s[h].completed[..|s[h].completed|] == s[h].completed;
    forall k | k in Children(s[h])
      ensures Unchanged(s, s, k)
    {
      ChildIsOwned(s, h, Children(s[h]), k);
    }
  }

  // Slips run apart from the slip that held them.

  lemma ApartAtFirst(s: Slips, h: nat, hs: seq<nat>)
    requires Working(s, h, hs)
    ensures OnlyApart(s, s, h, hs)
  {
  }

  /** One of the slips apart was run; its siblings were not touched. */
  lemma BranchRan(first: Slips, before: Slips, later: Slips, h: nat, hs: seq<nat>, k: nat)
    requires OnlyApart(first, before, h, hs) && k in hs && Kept(before, later, k)
    ensures OnlyApart(first, later, h, hs)
    ensures forall j :: j in hs && j != k ==> Unchanged(before, later, j)
  {
    hide Leaves;
    OneRan(before, later, h, hs, k);
    forall j | j in hs && j != k
      ensures Unchanged(before, later, j)
    {
      var a :| 0 <= a < |hs| && hs[a] == k;
      var b :| 0 <= b < |hs| && hs[b] == j;
      assert Owns(before, hs[a]) !! Owns(before, hs[b]);
    }
  }

  lemma LeafUndone(s: Slips, h: nat, leaf: nat)
    requires Working(s, h, [])
    ensures OnlyApart(s, s, h, []) && Effect(LeavesOfLog(s, h, LeafDone(leaf)), [Undid(leaf)]) == Some(multiset{})
    ensures UndoesLog(s, h, LeafDone(leaf), [Undid(leaf)])
  {
    ApartAtFirst(s, h, []);
    assert multiset{leaf} - multiset{leaf} == multiset{};
    assert [Undid(leaf)][1..] == [];
    hide OnlyApart;
  }

  lemma AlternativeUndone(s: Slips, later: Slips, h: nat, k: nat, t: seq<Event>)
    requires Working(s, h, [k]) && Kept(s, later, k) && Undoes(s, k, 0, t)
    requires Effect(Leaves(s, k), t) == Some(multiset{})
    ensures OnlyApart(s, later, h, [k]) && Effect(LeavesOfLog(s, h, Succeeded(k)), t) == Some(multiset{})
    ensures UndoesLog(s, h, Succeeded(k), t)
  {
    hide Leaves, Effect, Undoes;
    ApartAtFirst(s, h, [k]);
    BranchRan(s, s, later, h, [k], k);
    assert [k][0] < h;
  }

  lemma Apart(s: Slips, h: nat, hs: seq<nat>, i: nat)
    requires Working(s, h, hs) && i < |hs|
    ensures hs[i] < h && hs[i] in s && Tree(s, hs[i]) && forall j :: 0 <= j < |hs| && j != i ==> hs[j] != hs[i]
  {
    TreeIs(s, hs[i]);
    forall j | 0 <= j < |hs| && j != i
      ensures hs[j] != hs[i]
    {
      assert hs[i] in Owns(s, hs[i]) && hs[j] in Owns(s, hs[j]);
      if j < i {
        assert Owns(s, hs[j]) !! Owns(s, hs[i]);
      } else {
        assert Owns(s, hs[i]) !! Owns(s, hs[j]);
      }
    }
  }

  // Branches run at once: each takes its own steps, and they interleave.

  /** The first of the branches were undone, each by its part; the rest were not touched. */
  ghost predicate Undoing(first: Slips, now: Slips, h: nat, hs: seq<nat>, parts: seq<seq<Event>>) {
    && |parts| <= |hs| && OnlyApart(first, now, h, hs)
    && (forall i :: 0 <= i < |parts| ==> BranchUndone(first, now, hs[i], parts[i]))
    && forall i :: |parts| <= i < |hs| ==> Unchanged(first, now, hs[i])
  }

  ghost predicate BranchUndone(first: Slips, now: Slips, k: nat, part: seq<Event>) {
    && k in first && k in now && now[k].completed == []
    && Effect(Leaves(first, k), part) == Some(multiset{}) && Undoes(first, k, 0, part)
  }

  lemma NextBranchUndone(first: Slips, before: Slips, later: Slips, h: nat, hs: seq<nat>, parts: seq<seq<Event>>, part: seq<Event>)
    requires Undoing(first, before, h, hs, parts) && |parts| < |hs| && Kept(before, later, hs[|parts|])
    requires BranchUndone(before, later, hs[|parts|], part)
    ensures Undoing(first, later, h, hs, parts + [part])
  {
    hide Tree, Owns, OwnsAll, Leaves, Effect, Undoes, OnlyApart, Kept, Forest;
    var n := |parts|;
    BranchRan(first, before, later, h, hs, hs[n]);
    BranchesDiffer(first, before, h, hs, n);
    forall i | 0 <= i < |hs| && i != n
      ensures Unchanged(before, later, hs[i])
    {
    }
    forall i | n < i < |hs|
      ensures Unchanged(first, later, hs[i])
    {
      UnchangedChains(first, before, later, hs[i]);
    }
    UnchangedIs(first, before, hs[n]);
    forall i | 0 <= i < n
      ensures BranchUndone(first, later, hs[i], (parts + [part])[i])
    {
      assert BranchUndone(first, before, hs[i], parts[i]);
      UnchangedIs(before, later, hs[i]);
    }
  }

  lemma BranchesDiffer(first: Slips, now: Slips, h: nat, hs: seq<nat>, n: nat)
    requires OnlyApart(first, now, h, hs) && n < |hs|
    ensures hs[n] < h && hs[n] in now && Tree(now, hs[n]) && forall i :: 0 <= i < |hs| && i != n ==> hs[i] != hs[n]
  {
    Apart(now, h, hs, n);
  }

  lemma UndoingAtFirst(s: Slips, h: nat, hs: seq<nat>)
    requires Working(s, h, hs)
    ensures Undoing(s, s, h, hs, [])
  {
    ApartAtFirst(s, h, hs);
    hide OnlyApart, Owns, Leaves;
  }

  lemma UndoneIsIdle(first: Slips, now: Slips, h: nat, hs: seq<nat>, parts: seq<seq<Event>>)
    requires Undoing(first, now, h, hs, parts) && |parts| == |hs|
    ensures Idle(now, hs)
  {
    hide Tree, Owns, OnlyApart, Unchanged, Leaves, Undoes;
    forall k | k in hs
      ensures k in now && now[k].completed == []
    {
      var i :| 0 <= i < |hs| && hs[i] == k;
      assert BranchUndone(first, now, hs[i], parts[i]);
    }
  }

  lemma BranchesUndone(first: Slips, now: Slips, h: nat, hs: seq<nat>, parts: seq<seq<Event>>, t: seq<Event>)
    requires Working(first, h, hs) && Undoing(first, now, h, hs, parts) && |parts| == |hs| && IsShuffle(parts, t)
    ensures Effect(LeavesOfLog(first, h, Executed(hs)), t) == Some(multiset{}) && UndoesLog(first, h, Executed(hs), t)
  {
    hide Tree, Owns, OwnsAll, Leaves, Effect, Undoes, OnlyApart, IsShuffle, Sum;
    var none := seq(|hs|, i => multiset{});
    forall i | 0 <= i < |hs|
      ensures hs[i] < h && hs[i] in first && Undoes(first, hs[i], 0, parts[i])
      ensures Effect(LeavesOfAll(first, h, hs)[i], parts[i]) == Some(none[i])
    {
      Apart(first, h, hs, i);
      assert BranchUndone(first, now, hs[i], parts[i]);
    }
    ShuffleEffect(LeavesOfAll(first, h, hs), parts, none, t);
    SumOfNone(none);
    assert UndoesAll(first, h, hs, parts);
  }

  /** The first of the branches were run, each by its part; the rest did nothing yet. */
  ghost predicate Running(first: Slips, now: Slips, h: nat, hs: seq<nat>, parts: seq<seq<Event>>) {
    && |parts| <= |hs| && OnlyApart(first, now, h, hs)
    && (forall i :: 0 <= i < |parts| ==> Effect(multiset{}, parts[i]) == Some(Leaves(now, hs[i])))
    && forall i :: |parts| <= i < |hs| ==> Unchanged(first, now, hs[i]) && hs[i] in now && now[hs[i]].completed == []
  }

  lemma NextBranchRan(first: Slips, before: Slips, later: Slips, h: nat, hs: seq<nat>, parts: seq<seq<Event>>, part: seq<Event>)
    requires Running(first, before, h, hs, parts) && |parts| < |hs| && Kept(before, later, hs[|parts|])
    requires Effect(Leaves(before, hs[|parts|]), part) == Some(Leaves(later, hs[|parts|]))
    ensures Running(first, later, h, hs, parts + [part])
  {
    hide Tree, Owns, OwnsAll, Leaves, Effect, Undoes, OnlyApart, Kept, Forest;
    var n := |parts|;
    NothingDone(before, hs[n]);
    BranchRan(first, before, later, h, hs, hs[n]);
    BranchesDiffer(first, before, h, hs, n);
    forall i | 0 <= i < |hs| && i != n
      ensures Leaves(later, hs[i]) == Leaves(before, hs[i])
      ensures i > n ==> Unchanged(first, later, hs[i]) && hs[i] in later && later[hs[i]].completed == []
    {
      assert Unchanged(before, later, hs[i]);
      UnchangedIs(before, later, hs[i]);
      if i > n {
        UnchangedChains(first, before, later, hs[i]);
      }
    }
  }

  lemma BranchesRan(first: Slips, now: Slips, h: nat, hs: seq<nat>, parts: seq<seq<Event>>, t: seq<Event>)
    requires Running(first, now, h, hs, parts) && |parts| == |hs| && IsShuffle(parts, t)
    ensures Effect(multiset{}, t) == Some(LeavesOfLog(now, h, Executed(hs)))
  {
    hide Tree, Owns, OwnsAll, Leaves, Effect, Undoes, IsShuffle, Sum, Forest;
    var none := seq(|hs|, i => multiset{});
    forall i | 0 <= i < |hs|
      ensures Effect(none[i], parts[i]) == Some(LeavesOfAll(now, h, hs)[i])
    {
      BranchesDiffer(first, now, h, hs, i);
    }
    ShuffleEffect(none, parts, LeavesOfAll(now, h, hs), t);
    SumOfNone(none);
  }

  // The forward path.

  /** The log a piece of work leaves. */
  predicate LogOf(item: Item, log: Log) {
    match item
    case Leaf(leaf, works) => works && log == LeafDone(leaf)
    case Fallback(hs) => log.Succeeded? && log.alternative in hs
    case Parallel(hs) => log == Executed(hs)
  }

  /** What work apart from slip `h` came to: its log and what that leaves outstanding, or nothing. */
  ghost predicate WorkDone(s: Slips, h: nat, item: Item, log: Option<Log>, t: seq<Event>) {
    match log
    case Some(l) => LogOf(item, l) && Working(s, h, HandlesOfLog(l)) && Effect(multiset{}, t) == Some(LeavesOfLog(s, h, l))
    case None => Effect(multiset{}, t) == Some(multiset{}) && forall k :: k in HandlesOfItem(item) ==> k in s && s[k].completed == []
  }

  /** No slip among `hs` has done anything. */
  ghost predicate Idle(s: Slips, hs: seq<nat>) {
    forall k :: k in hs ==> k in s && s[k].completed == []
  }

  lemma AlternativeRan(first: Slips, before: Slips, later: Slips, h: nat, hs: seq<nat>, k: nat, t: seq<Event>, u: seq<Event>, ok: bool)
    requires OnlyApart(first, before, h, hs) && k in hs && Kept(before, later, k) && Idle(before, hs)
    requires Effect(multiset{}, t) == Some(multiset{}) && Effect(Leaves(before, k), u) == Some(Leaves(later, k))
    requires !ok ==> k in later && later[k].completed == []
    ensures OnlyApart(first, later, h, hs)
    ensures forall j :: j in hs && j != k && Unchanged(first, before, j) ==> Unchanged(first, later, j)
    ensures if ok then WorkDone(later, h, Fallback(hs), Some(Succeeded(k)), t + u)
            else Idle(later, hs) && Effect(multiset{}, t + u) == Some(multiset{})
  {
    hide Tree, Owns, OwnsAll, Leaves, Effect, Undoes, OnlyApart, Kept, Forest;
    BranchRan(first, before, later, h, hs, k);
    NothingDone(before, k);
    EffectChains(multiset{}, t, u);
    forall j | j in hs && j != k && Unchanged(first, before, j)
      ensures Unchanged(first, later, j)
    {
      UnchangedChains(first, before, later, j);
    }
    if ok {
      OneApart(first, later, h, hs, k);
    } else {
      NothingDone(later, k);
      forall j | j in hs && j != k
        ensures j in later && later[j].completed == []
      {
        UnchangedIs(before, later, j);
      }
    }
  }

  lemma OneApart(first: Slips, now: Slips, h: nat, hs: seq<nat>, k: nat)
    requires OnlyApart(first, now, h, hs) && k in hs
    ensures Working(now, h, [k]) && k < h
  {
    hide Leaves, Undoes;
    var n :| 0 <= n < |hs| && hs[n] == k;
    forall x | x in OwnsAll(now, h, [k])
      ensures x in OwnsAll(now, h, hs)
    {
      OwnsAllIs(now, h, [k], x);
      OwnsAllIs(now, h, hs, x);
    }
  }

  /** One piece of work was taken off slip `h` and done: its log on the stack, or nothing left. */
  ghost predicate NextDone(first: Slips, later: Slips, h: nat, ok: bool, t: seq<Event>) {
    && h in first && h in later && first[h].next != [] && Kept(first, later, h)
    && later[h].next == first[h].next[1..] && Effect(Leaves(first, h), t) == Some(Leaves(later, h))
    && (forall k :: k in ItemHandles(later[h].next) ==> Unchanged(first, later, k))
    && (!ok ==> later[h].completed == first[h].completed)
    && (ok ==> exists log :: later[h].completed == first[h].completed + [log] && LogOf(first[h].next[0], log))
  }

  lemma WorkTaken(first: Slips, taken: Slips, ran: Slips, h: nat, item: Item)
    requires h in first && Tree(first, h) && first[h].next != [] && item == first[h].next[0]
    requires taken == first[h := first[h].(next := first[h].next[1..])] && OnlyApart(taken, ran, h, HandlesOfItem(item))
    ensures Kept(first, ran, h) && Leaves(ran, h) == Leaves(first, h) && ran[h] == taken[h]
    ensures OwnsAll(ran, h, HandlesOfItem(item)) <= Owns(first, h) && h !in OwnsAll(taken, h, HandlesOfItem(item))
  {
    hide Leaves, Forest;
    ItemTaken(first, h);
    assert h in Owns(taken, h);
  }

  /** What is left in the queue was not touched. */
  lemma RestStays(first: Slips, taken: Slips, ran: Slips, h: nat, item: Item)
    requires h in first && Tree(first, h) && first[h].next != [] && item == first[h].next[0]
    requires taken == first[h := first[h].(next := first[h].next[1..])] && OnlyApart(taken, ran, h, HandlesOfItem(item))
    ensures forall k :: k in ItemHandles(taken[h].next) ==> k in Children(taken[h]) && Unchanged(first, ran, k)
  {
    hide Leaves, Forest, Owns, OwnsAll, Tree, Unchanged;
    ItemTaken(first, h);
    ApartIs(taken, ran, h, HandlesOfItem(item));
    LessOwns(first, taken, h, taken[h]);
    forall k | k in ItemHandles(taken[h].next)
      ensures k in Children(taken[h]) && Unchanged(first, ran, k)
    {
      ChildOfLogOrItem(taken[h], k);
      ChildOfLogOrItem(first[h], k);
      ChildApart(taken, ran, h, HandlesOfItem(item), k);
      UnchangedChains(first, taken, ran, k);
    }
  }

  lemma ApartIs(s: Slips, later: Slips, h: nat, hs: seq<nat>)
    requires OnlyApart(s, later, h, hs)
    ensures Within(s, later, OwnsAll(s, h, hs)) && h in s && h in later && later[h] == s[h] && Tree(later, h)
  {
    hide Leaves;
  }

  lemma WorkFailed(first: Slips, taken: Slips, ran: Slips, h: nat, item: Item, t: seq<Event>)
    requires h in first && Tree(first, h) && first[h].next != [] && item == first[h].next[0]
    requires taken == first[h := first[h].(next := first[h].next[1..])] && OnlyApart(taken, ran, h, HandlesOfItem(item))
    requires WorkDone(ran, h, item, None, t)
    ensures NextDone(first, ran, h, false, t)
  {
    hide Leaves, Tree, Owns, OwnsAll, Effect, OnlyApart, Kept;
    WorkTaken(first, taken, ran, h, item);
    RestStays(first, taken, ran, h, item);
    EffectBeside(multiset{}, t, Leaves(first, h));
    assert multiset{} + Leaves(first, h) == Leaves(first, h);
    KeptHas(first, ran, h);
  }

  lemma KeptHas(s: Slips, later: Slips, h: nat)
    requires Kept(s, later, h)
    ensures h in later && Within(s, later, Owns(s, h)) && Tree(later, h) && Owns(later, h) <= Owns(s, h)
  {
    hide Leaves;
  }

  lemma LogLeavesApart(taken: Slips, ran: Slips, h: nat, item: Item, log: Log)
    requires OnlyApart(taken, ran, h, HandlesOfItem(item)) && LogOf(item, log)
    ensures OwnsAll(ran, h, HandlesOfLog(log)) <= OwnsAll(ran, h, HandlesOfItem(item))
  {
    hide Leaves;
    forall x | x in OwnsAll(ran, h, HandlesOfLog(log))
      ensures x in OwnsAll(ran, h, HandlesOfItem(item))
    {
      if log.Succeeded? {
        OneApart(taken, ran, h, HandlesOfItem(item), log.alternative);
        OwnsAllIs(ran, h, [log.alternative], x);
        OwnsAllIs(ran, h, HandlesOfItem(item), x);
      }
    }
  }

  lemma WorkLogged(first: Slips, taken: Slips, ran: Slips, h: nat, item: Item, log: Log, t: seq<Event>)
    requires h in first && Tree(first, h) && first[h].next != [] && item == first[h].next[0]
    requires taken == first[h := first[h].(next := first[h].next[1..])] && OnlyApart(taken, ran, h, HandlesOfItem(item))
    requires WorkDone(ran, h, item, Some(log), t) && h in ran
    ensures NextDone(first, ran[h := WithLog(ran[h], log)], h, true, t)
  {
    hide Leaves, LeavesOfLog, Tree, Owns, OwnsAll, Effect, OnlyApart, Kept, HandlesOfLog, HandlesOfItem, Working;
    WorkTaken(first, taken, ran, h, item);
    LogLeavesApart(taken, ran, h, item, log);
    RestStillStays(first, taken, ran, h, item, log);
    LogPut(ran, h, log);
    EffectBeside(multiset{}, t, Leaves(first, h));
    assert multiset{} + Leaves(first, h) == Leaves(first, h);
    KeptHas(first, ran, h);
    var later := ran[h := WithLog(ran[h], log)];
    OwnerIn(first, h);
    assert Kept(first, later, h) by {
      KeptIs(first, later, h);
    }
    assert LeavesOfLog(ran, h, log) + Leaves(first, h) == Leaves(later, h);
    assert later[h].completed == first[h].completed + [log];
  }

  lemma RestStillStays(first: Slips, taken: Slips, ran: Slips, h: nat, item: Item, log: Log)
    requires h in first && Tree(first, h) && first[h].next != [] && item == first[h].next[0]
    requires taken == first[h := first[h].(next := first[h].next[1..])] && OnlyApart(taken, ran, h, HandlesOfItem(item)) && h in ran
    ensures forall k :: k in ItemHandles(taken[h].next) ==> Unchanged(first, ran[h := WithLog(ran[h], log)], k)
  {
    hide Leaves, Forest, Owns, OwnsAll, Tree, Unchanged, OnlyApart;
    RestStays(first, taken, ran, h, item);
    ApartIs(taken, ran, h, HandlesOfItem(item));
    LessOwns(ran, ran[h := WithLog(ran[h], log)], h, WithLog(ran[h], log));
    forall k | k in ItemHandles(taken[h].next)
      ensures Unchanged(first, ran[h := WithLog(ran[h], log)], k)
    {
      UnchangedChains(first, ran, ran[h := WithLog(ran[h], log)], k);
    }
  }

  lemma OwnerIn(s: Slips, h: nat)
    ensures h in Owns(s, h)
  {
  }

  lemma KeptIs(s: Slips, later: Slips, h: nat)
    requires Within(s, later, Owns(s, h)) && Tree(later, h) && Owns(later, h) <= Owns(s, h)
    ensures Kept(s, later, h)
  {
    hide Leaves;
  }

  /** Slip `h` went forward through some of its work: those items are off its queue and their logs
      on its stack, in order. */
  ghost predicate Forward(first: Slips, now: Slips, h: nat, done: nat, t: seq<Event>) {
    && h in first && h in now && Kept(first, now, h) && Effect(Leaves(first, h), t) == Some(Leaves(now, h))
    && done <= |first[h].next| && |now[h].completed| == |first[h].completed| + done
    && first[h].completed <= now[h].completed
    && (forall i :: 0 <= i < done ==> LogOf(first[h].next[i], now[h].completed[|first[h].completed| + i]))
    && (forall i :: 0 <= i < done ==> ItemSucceeds(first, h, first[h].next[i]))
  }

  /** What slip `h` has still to do was not touched. */
  ghost predicate RestUnchanged(first: Slips, now: Slips, h: nat) {
    h in now && forall k :: k in ItemHandles(now[h].next) ==> Unchanged(first, now, k)
  }

  lemma ForwardNone(s: Slips, h: nat)
    requires h in s && Tree(s, h)
    ensures Forward(s, s, h, 0, []) && RestUnchanged(s, s, h)
  {
    hide Leaves, Owns;
    forall k | k in ItemHandles(s[h].next)
      ensures Unchanged(s, s, k)
    {
      ChildOfLogOrItem(s[h], k);
      ChildIsOwned(s, h, Children(s[h]), k);
    }
  }

  lemma ForwardOne(first: Slips, before: Slips, later: Slips, h: nat, done: nat, ok: bool, t: seq<Event>, u: seq<Event>)
    requires Forward(first, before, h, done, t) && before[h].next == first[h].next[done..] && NextDone(before, later, h, ok, u)
    requires RestUnchanged(first, before, h) && (ok <==> ItemSucceeds(before, h, before[h].next[0]))
    ensures ok <==> ItemSucceeds(first, h, first[h].next[done])
    ensures Forward(first, later, h, if ok then done + 1 else done, t + u) && later[h].next == first[h].next[done + 1..]
    ensures RestUnchanged(first, later, h)
  {
    hide Leaves, Owns, Tree, Effect, Kept, ItemSucceeds, Unchanged;
    forall k | k in HandlesOfItem(before[h].next[0])
      ensures Unchanged(first, before, k)
    {
      ItemHandlesOfPart(before[h].next, 0, k);
    }
    ItemStays(first, before, h, before[h].next[0]);
    forall k | k in ItemHandles(later[h].next)
      ensures Unchanged(first, later, k)
    {
      assert k in ItemHandles(before[h].next);
      UnchangedChains(first, before, later, k);
    }
    KeptChains(first, before, later, h);
    EffectChains(Leaves(first, h), t, u);
    assert before[h].next[0] == first[h].next[done];
    if ok {
      var log :| later[h].completed == before[h].completed + [log] && LogOf(before[h].next[0], log);
    }
  }

  /** A slip ran: to its end, every piece of work done and logged; or to a failure at piece `done`,
      after which everything done was undone, last in first out. */
  ghost predicate Ran(first: Slips, later: Slips, h: nat, ok: bool, t: seq<Event>, at: Slips, done: nat, n: nat) {
    && h in first && h in later && Kept(first, later, h) && Effect(Leaves(first, h), t) == Some(Leaves(later, h))
    && n <= |t| && Forward(first, at, h, done, t[..n])
    && (ok <==> Succeeds(first, h))
    && (ok ==> later == at && n == |t| && later[h].next == [] && done == |first[h].next|)
    && (!ok ==> later[h].completed == [] && done < |first[h].next| && !ItemSucceeds(first, h, first[h].next[done])
                && Undoes(at, h, 0, t[n..]))
  }

  lemma RanThrough(first: Slips, later: Slips, h: nat, t: seq<Event>)
    requires h in first && Forward(first, later, h, |first[h].next|, t) && later[h].next == []
    ensures Ran(first, later, h, true, t, later, |first[h].next|, |t|)
  {
    assert t[..|t|] == t;
    hide Leaves, Owns, Tree, Effect, Kept, ItemSucceeds;
  }

  lemma RanBack(first: Slips, at: Slips, later: Slips, h: nat, done: nat, t: seq<Event>, undone: seq<Event>)
    requires h in first && Forward(first, at, h, done, t) && done < |first[h].next| && !ItemSucceeds(first, h, first[h].next[done])
    requires h in later && later[h].completed == [] && Kept(at, later, h)
    requires Effect(Leaves(at, h), undone) == Some(multiset{}) && Undoes(at, h, 0, undone)
    ensures Ran(first, later, h, false, t + undone, at, done, |t|)
  {
    hide Leaves, Owns, Tree, Effect, Kept, Undoes, ItemSucceeds;
    KeptChains(first, at, later, h);
    EffectChains(Leaves(first, h), t, undone);
    NothingDone(later, h);
    assert (t + undone)[..|t|] == t && (t + undone)[|t|..] == undone;
  }

  lemma LeafRan(s: Slips, h: nat, leaf: nat)
    requires Working(s, h, [])
    ensures WorkDone(s, h, Leaf(leaf, true), Some(LeafDone(leaf)), [Did(leaf)])
  {
    assert multiset{} + multiset{leaf} == multiset{leaf};
    assert [Did(leaf)][1..] == [];
  }

  lemma ApartChains(s: Slips, mid: Slips, later: Slips, h: nat, hs: seq<nat>)
    requires OnlyApart(s, mid, h, hs) && OnlyApart(mid, later, h, hs)
    ensures OnlyApart(s, later, h, hs)
  {
    hide Leaves, Owns, Tree;
  }

  /** The first of the slips that succeeds. */
  ghost predicate IsFirstToSucceed(s: Slips, hs: seq<nat>, k: nat) {
    exists i :: 0 <= i < |hs| && hs[i] == k && Succeeds(s, k) && forall j :: 0 <= j < i ==> !Succeeds(s, hs[j])
  }

  lemma NoneTouched(s: Slips, h: nat, hs: seq<nat>)
    requires Working(s, h, hs)
    ensures forall i :: 0 <= i < |hs| ==> hs[i] < h && Unchanged(s, s, hs[i])
  {
    hide Leaves;
  }

  lemma TakenIsSame(first: Slips, taken: Slips, h: nat, item: Item)
    requires h in first && Tree(first, h) && first[h].next != [] && item == first[h].next[0]
    requires taken == first[h := first[h].(next := first[h].next[1..])]
    ensures ItemSucceeds(taken, h, item) == ItemSucceeds(first, h, item)
  {
    hide Leaves, Forest, Owns, OwnsAll, Tree, Unchanged;
    LessOwns(first, taken, h, taken[h]);
    forall k | k in HandlesOfItem(item)
      ensures Unchanged(first, taken, k)
    {
      ItemHandlesOfPart(first[h].next, 0, k);
      ChildOfLogOrItem(first[h], k);
    }
    ItemStays(first, taken, h, item);
  }

  // The machine's steps that slips take.

  function FlightOf(s: Slips, h: nat, mode: Mode): Flight {
    Flight(View(s, h), mode, Free)
  }

  lemma UnchangedView(s: Slips, later: Slips, k: nat)
    requires Unchanged(s, later, k)
    ensures View(later, k) == View(s, k)
  {
    hide View, Leaves, Tree;
    assert Within(s, later, s.Keys - Owns(s, k));
    ViewStays(s, later, k, s.Keys - Owns(s, k));
  }

  /** Slips apart were run: the slip itself is seen as it was. */
  lemma ApartView(s: Slips, later: Slips, h: nat, hs: seq<nat>)
    requires Working(s, h, hs) && OnlyApart(s, later, h, hs)
    ensures View(later, h) == View(s, h)
  {
    hide View, Leaves, Tree, Owns, OwnsAll, Unchanged;
    ApartIs(s, later, h, hs);
    forall k | k in Children(s[h])
      ensures ViewBelow(later, h, k) == ViewBelow(s, h, k)
    {
      ChildApart(s, later, h, hs, k);
      UnchangedView(s, later, k);
    }
    ViewSame(s, later, h);
  }

  /** The last log of a slip, and the slip without it. */
  lemma PoppedView(first: Slips, popped: Slips, h: nat)
    requires h in first && first[h].completed != []
    requires popped == first[h := first[h].(completed := first[h].completed[..|first[h].completed| - 1])]
    ensures View(first, h) == WithDone(View(popped, h), ViewLog(popped, h, first[h].completed[|first[h].completed| - 1]))
  {
    hide ViewLog, ViewItem;
    var n := |first[h].completed| - 1;
    BelowIgnores(first, h, popped[h], LogHandles(first[h].completed));
    LogsSame(first, popped, h, first[h].completed);
    BelowIgnores(first, h, popped[h], ItemHandles(first[h].next));
    ItemsSame(first, popped, h, first[h].next);
    assert ViewLogs(popped, h, first[h].completed)
           == ViewLogs(popped, h, popped[h].completed) + [ViewLog(popped, h, first[h].completed[n])];
  }

  lemma LogSeenUndone(first: Slips, popped: Slips, later: Slips, h: nat, t: seq<Event>)
    requires h in first && first[h].completed != []
    requires popped == first[h := first[h].(completed := first[h].completed[..|first[h].completed| - 1])]
    requires var log := first[h].completed[|first[h].completed| - 1];
             && Working(popped, h, HandlesOfLog(log)) && OnlyApart(popped, later, h, HandlesOfLog(log))
             && LogComes(ViewLog(popped, h, log), t)
    ensures Comes(FlightOf(first, h, Back), t, FlightOf(later, h, Back))
  {
    hide View, ViewLog, Working, OnlyApart, LogComes, Comes;
    var log := first[h].completed[|first[h].completed| - 1];
    PoppedView(first, popped, h);
    ApartView(popped, later, h, HandlesOfLog(log));
    PoppedComes(View(popped, h), ViewLog(popped, h, log), t);
  }

  /** The next item of a slip, and the slip without it. */
  lemma TakenView(first: Slips, taken: Slips, h: nat)
    requires h in first && first[h].next != [] && taken == first[h := first[h].(next := first[h].next[1..])]
    ensures View(first, h) == Before(View(taken, h), ViewItem(taken, h, first[h].next[0]))
  {
    hide ViewLog, ViewItem;
    BelowIgnores(first, h, taken[h], LogHandles(first[h].completed));
    LogsSame(first, taken, h, first[h].completed);
    BelowIgnores(first, h, taken[h], ItemHandles(first[h].next));
    ItemsSame(first, taken, h, first[h].next);
    assert ViewItems(taken, h, first[h].next) == [ViewItem(taken, h, first[h].next[0])] + ViewItems(taken, h, taken[h].next);
  }

  lemma LoggedView(s: Slips, h: nat, log: Log)
    requires h in s
    ensures View(s[h := WithLog(s[h], log)], h) == WithDone(View(s, h), ViewLog(s, h, log))
  {
    hide ViewLog, ViewItem;
    var later := s[h := WithLog(s[h], log)];
    BelowIgnores(s, h, later[h], LogHandles(later[h].completed));
    LogsSame(s, later, h, later[h].completed);
    BelowIgnores(s, h, later[h], ItemHandles(s[h].next));
    ItemsSame(s, later, h, s[h].next);
    assert ViewLogs(s, h, later[h].completed) == ViewLogs(s, h, s[h].completed) + [ViewLog(s, h, log)];
  }

  function ViewDone(s: Slips, h: nat, log: Option<Log>): Option<Done> {
    match log case Some(l) => Some(ViewLog(s, h, l)) case None => None
  }

  lemma WorkSeenDone(first: Slips, taken: Slips, ran: Slips, h: nat, item: Item, log: Option<Log>, t: seq<Event>)
    requires h in first && Tree(first, h) && first[h].next != [] && item == first[h].next[0]
    requires taken == first[h := first[h].(next := first[h].next[1..])] && OnlyApart(taken, ran, h, HandlesOfItem(item)) && h in ran
    requires ItemComes(ViewItem(taken, h, item), t, ViewDone(ran, h, log))
    ensures Comes(FlightOf(first, h, Ahead), t,
                  if log.Some? then FlightOf(ran[h := WithLog(ran[h], log.value)], h, Ahead) else FlightOf(ran, h, Back))
  {
    hide View, ViewLog, ViewItem, Tree, OnlyApart, Working, Comes;
    ItemTaken(first, h);
    TakenView(first, taken, h);
    ApartView(taken, ran, h, HandlesOfItem(item));
    if log.Some? {
      LoggedView(ran, h, log.value);
    }
    assert Comes(Flight(Before(View(taken, h), ViewItem(taken, h, item)), Ahead, Free), t, Returned(View(taken, h), ViewDone(ran, h, log)));
  }

  lemma EmptyView(s: Slips, h: nat)
    requires h in s
    ensures s[h].completed == [] ==> View(s, h).done == []
    ensures s[h].next == [] ==> View(s, h).todo == []
  {
  }

  lemma AlternativeSeen(s: Slips, h: nat, k: nat, t: seq<Event>, g: Flight)
    requires k < h && Comes(FlightOf(s, k, Back), t, g) && g.mode.Over?
    ensures LogComes(ViewLog(s, h, Succeeded(k)), t)
  {
    hide View, Comes;
    assert GoesBack(View(s, k), t);
    OneGoesBack(View(s, k), t);
  }

  /** The branches that have run, each to its end. */
  ghost predicate Ended(first: Slips, now: Slips, hs: seq<nat>, parts: seq<seq<Event>>) {
    |parts| <= |hs| && forall i :: 0 <= i < |parts| ==> BranchEnded(first, now, hs[i], parts[i])
  }

  ghost predicate BranchEnded(first: Slips, now: Slips, k: nat, part: seq<Event>) {
    Comes(FlightOf(first, k, Ahead), part, FlightOf(now, k, Over(Succeeds(first, k))))
  }

  lemma NextBranchEnded(first: Slips, before: Slips, later: Slips, h: nat, hs: seq<nat>, parts: seq<seq<Event>>, part: seq<Event>, ok: bool)
    requires Running(first, before, h, hs, parts) && |parts| < |hs| && Kept(before, later, hs[|parts|])
    requires Ended(first, before, hs, parts) && ok == Succeeds(first, hs[|parts|])
    requires Comes(FlightOf(before, hs[|parts|], Ahead), part, FlightOf(later, hs[|parts|], Over(ok)))
    ensures Ended(first, later, hs, parts + [part])
  {
    hide Tree, Owns, OwnsAll, Leaves, Effect, OnlyApart, Kept, Forest, View, Comes, Succeeds, Unchanged;
    var n := |parts|;
    BranchRan(first, before, later, h, hs, hs[n]);
    BranchesDiffer(first, before, h, hs, n);
    UnchangedView(first, before, hs[n]);
    forall i | 0 <= i < n
      ensures BranchEnded(first, later, hs[i], (parts + [part])[i])
    {
      assert BranchEnded(first, before, hs[i], parts[i]);
      UnchangedView(before, later, hs[i]);
    }
  }

  lemma BranchesEnded(first: Slips, now: Slips, h: nat, hs: seq<nat>, parts: seq<seq<Event>>) returns (gs: seq<Flight>)
    requires Running(first, now, h, hs, parts) && |parts| == |hs| && Ended(first, now, hs, parts)
    ensures ComeApart(Starting(ViewAll(first, h, hs), Ahead), parts, gs) && AllOver(gs) && NodesOf(gs) == ViewAll(now, h, hs)
    ensures AllWell(gs) <==> forall i :: 0 <= i < |hs| ==> Succeeds(first, hs[i])
  {
    hide Leaves, Effect, OnlyApart, View, Comes, Succeeds, Unchanged;
    forall i | 0 <= i < |hs|
      ensures hs[i] < h
    {
      BranchesDiffer(first, now, h, hs, i);
    }
    gs := seq(|hs|, i requires 0 <= i < |hs| => FlightOf(now, hs[i], Over(Succeeds(first, hs[i]))));
    forall i | 0 <= i < |hs|
      ensures Comes(Starting(ViewAll(first, h, hs), Ahead)[i], parts[i], gs[i])
    {
      assert BranchEnded(first, now, hs[i], parts[i]);
    }
    assert forall i :: 0 <= i < |hs| ==> gs[i].mode == Over(Succeeds(first, hs[i]));
    assert forall i :: 0 <= i < |gs| ==> (gs[i].mode == Over(true) <==> Succeeds(first, hs[i]));
  }

  /** The branches that went back, each to the bottom of its stack. */
  ghost predicate WentBack(first: Slips, hs: seq<nat>, parts: seq<seq<Event>>) {
    |parts| <= |hs| && forall i :: 0 <= i < |parts| ==> GoesBack(View(first, hs[i]), parts[i])
  }

  lemma NextBranchBack(first: Slips, before: Slips, h: nat, hs: seq<nat>, parts: seq<seq<Event>>, part: seq<Event>, g: Flight)
    requires Undoing(first, before, h, hs, parts) && |parts| < |hs| && WentBack(first, hs, parts)
    requires Comes(FlightOf(before, hs[|parts|], Back), part, g) && g.mode.Over?
    ensures WentBack(first, hs, parts + [part])
  {
    hide OnlyApart, View, Comes, Unchanged, BranchUndone;
    UnchangedView(first, before, hs[|parts|]);
    assert GoesBack(View(first, hs[|parts|]), part);
  }

  lemma BranchesWentBack(first: Slips, h: nat, hs: seq<nat>, parts: seq<seq<Event>>, t: seq<Event>)
    requires Working(first, h, hs) && WentBack(first, hs, parts) && |parts| == |hs| && IsShuffle(parts, t)
    ensures AllGoBack(ViewAll(first, h, hs), t)
  {
    hide View, GoesBack, AllGoBack, IsShuffle;
    forall i | 0 <= i < |hs|
      ensures GoesBack(ViewAll(first, h, hs)[i], parts[i])
    {
      Apart(first, h, hs, i);
    }
    BranchesGoBack(ViewAll(first, h, hs), parts, t);
  }

  /** After each of its events a run is at a moment whose completed logs, those of slips in flight
      included, reach exactly what is outstanding. */
  ghost predicate AlwaysReached(first: Slips, h: nat, mode: Mode, t: seq<Event>) {
    forall k :: 0 <= k <= |t| ==> HasMoment(first, h, mode, t[..k])
  }

  ghost predicate HasMoment(first: Slips, h: nat, mode: Mode, t: seq<Event>) {
    exists m :: IsMoment(first, h, mode, t, m)
  }

  ghost predicate IsMoment(first: Slips, h: nat, mode: Mode, t: seq<Event>, m: Flight) {
    Comes(FlightOf(first, h, mode), t, m) && Effect(Leaves(first, h), t) == Some(Reach(m))
  }

  lemma IsAlwaysReached(first: Slips, h: nat, mode: Mode, t: seq<Event>, g: Flight)
    requires Tree(first, h) && !mode.Over? && Comes(FlightOf(first, h, mode), t, g)
    ensures AlwaysReached(first, h, mode, t)
  {
    hide View, Leaves, Comes, Effect, Tree, Reach;
    TreeIsFresh(first, h);
    LeftIsLeaves(first, h);
    ReachOfFree(FlightOf(first, h, mode));
    forall k | 0 <= k <= |t|
      ensures HasMoment(first, h, mode, t[..k])
    {
      var m := AtEveryMoment(FlightOf(first, h, mode), t, g, k);
      assert IsMoment(first, h, mode, t[..k], m);
    }
  }

  class Saga {
    var slips: Slips

    constructor (slips: Slips)
      ensures this.slips == slips
    {
      this.slips := slips;
    }

    // The backward path.

    /** The slip undone to the bottom of its stack: a branch's compensation, an alternative's
        that failed or was to be undone. */
    method UndoAll(h: nat, mix: seq<seq<Event>> -> seq<Event>) returns (t: seq<Event>)
      requires Tree(slips, h) && Interleaves(mix)
      modifies this
      ensures Kept(old(slips), slips, h) && slips[h] == Slip([], old(slips)[h].next)
      ensures Effect(Leaves(old(slips), h), t) == Some(multiset{}) && Undoes(old(slips), h, 0, t)
      ensures Comes(FlightOf(old(slips), h, Back), t, FlightOf(slips, h, Over(false)))
      ensures AlwaysReached(old(slips), h, Back, t)
      decreases h, 2
    {
      hide View, Comes, AlwaysReached;
      t := [];
      ghost var first := slips;
      UndoneNothing(first, h);
      ComesNowhere(FlightOf(first, h, Back));
      while slips[h].completed != []
        invariant h in slips && UndoneDownTo(first, slips, h, |slips[h].completed|, t)
        invariant Comes(FlightOf(first, h, Back), t, FlightOf(slips, h, Back))
        decreases |slips[h].completed|
      {
        ghost var before, m := slips, |slips[h].completed| - 1;
        var more, undone := UndoLast(h, mix);
        OneMoreUndone(first, before, slips, h, m, t, undone);
        ComesOn(FlightOf(first, h, Back), t, FlightOf(before, h, Back), undone, FlightOf(slips, h, Back));
        t := t + undone;
      }
      NothingDone(slips, h);
      EmptyView(slips, h);
      BottomIsOver(FlightOf(first, h, Back), t, View(slips, h));
      IsAlwaysReached(first, h, Back, t, FlightOf(slips, h, Over(false)));
    }

    /** The last log popped and undone; `None` when there is no work to undo. */
    method UndoLast(h: nat, mix: seq<seq<Event>> -> seq<Event>) returns (more: Option<bool>, t: seq<Event>)
      requires Tree(slips, h) && Interleaves(mix)
      modifies this
      ensures old(slips)[h].completed == [] ==> more == None && t == [] && slips == old(slips)
      ensures old(slips)[h].completed != [] ==> more == Some(true) && LastUndone(old(slips), slips, h, t)
      ensures old(slips)[h].completed != [] ==> Comes(FlightOf(old(slips), h, Back), t, FlightOf(slips, h, Back))
      decreases h, 1
    {
      if slips[h].completed == [] {
        return None, [];
      }
      ghost var first := slips;
      var n := |slips[h].completed| - 1;
      var log := slips[h].completed[n];
      LogTaken(slips, h);
      slips := slips[h := slips[h].(completed := slips[h].completed[..n])];
      ghost var popped := slips;
      match log {
        case LeafDone(leaf) =>
          t := [Undid(leaf)];
          LeafUndone(popped, h, leaf);
          assert LogComes(ViewLog(popped, h, log), t);
        case Succeeded(k) =>
          Apart(popped, h, [k], 0);
          t := UndoAll(k, mix);
          AlternativeUndone(popped, slips, h, k, t);
          AlternativeSeen(popped, h, k, t, FlightOf(slips, k, Over(false)));
        case Executed(hs) =>
          t := UndoBranches(h, hs, mix);
      }
      LogUndone(first, popped, slips, h, t);
      LogSeenUndone(first, popped, slips, h, t);
      more := Some(true);
    }

    /** Branches undone at once, each to the bottom of its own stack. */
    method UndoBranches(h: nat, hs: seq<nat>, mix: seq<seq<Event>> -> seq<Event>) returns (t: seq<Event>)
      requires Working(slips, h, hs) && Interleaves(mix)
      modifies this
      ensures OnlyApart(old(slips), slips, h, hs) && Idle(slips, hs)
      ensures Effect(LeavesOfLog(old(slips), h, Executed(hs)), t) == Some(multiset{}) && UndoesLog(old(slips), h, Executed(hs), t)
      ensures AllGoBack(ViewAll(old(slips), h, hs), t)
      decreases h, 0
    {
      hide View, Comes, GoesBack, AllGoBack;
      ghost var first := slips;
      var parts := [];
      UndoingAtFirst(first, h, hs);
      while |parts| < |hs|
        invariant Undoing(first, slips, h, hs, parts) && WentBack(first, hs, parts)
      {
        ghost var before := slips;
        BranchesDiffer(first, slips, h, hs, |parts|);
        var part := UndoAll(hs[|parts|], mix);
        NextBranchUndone(first, before, slips, h, hs, parts, part);
        NextBranchBack(first, before, h, hs, parts, part, FlightOf(slips, hs[|parts|], Over(false)));
        parts := parts + [part];
      }
      t := mix(parts);
      BranchesUndone(first, slips, h, hs, parts, t);
      BranchesWentBack(first, h, hs, parts, t);
      UndoneIsIdle(first, slips, h, hs, parts);
    }

    // The forward path.

    /** The next piece of work taken off the queue and done, its log put on the stack; `None` when
        there is none. A piece that fails leaves nothing. */
    method ProcessNext(h: nat, mix: seq<seq<Event>> -> seq<Event>) returns (ok: Option<bool>, t: seq<Event>)
      requires Tree(slips, h) && Interleaves(mix)
      modifies this
      ensures old(slips)[h].next == [] ==> ok == None && t == [] && slips == old(slips)
      ensures old(slips)[h].next != [] ==> ok.Some? && NextDone(old(slips), slips, h, ok.value, t)
      ensures old(slips)[h].next != [] ==> (ok.value <==> ItemSucceeds(old(slips), h, old(slips)[h].next[0]))
      ensures old(slips)[h].next != [] ==>
                Comes(FlightOf(old(slips), h, Ahead), t, FlightOf(slips, h, if ok.value then Ahead else Back))
      decreases h, 4
    {
      if slips[h].next == [] {
        return None, [];
      }
      ghost var first := slips;
      var item := slips[h].next[0];
      ItemTaken(slips, h);
      slips := slips[h := slips[h].(next := slips[h].next[1..])];
      ghost var taken := slips;
      TakenIsSame(first, taken, h, item);
      var log;
      log, t := DoWork(h, item, mix);
      WorkSeenDone(first, taken, slips, h, item, log, t);
      if log.Some? {
        WorkLogged(first, taken, slips, h, item, log.value, t);
        slips := slips[h := WithLog(slips[h], log.value)];
        ok := Some(true);
      } else {
        WorkFailed(first, taken, slips, h, item, t);
        ok := Some(false);
      }
    }

    method DoWork(h: nat, item: Item, mix: seq<seq<Event>> -> seq<Event>) returns (log: Option<Log>, t: seq<Event>)
      requires Working(slips, h, HandlesOfItem(item)) && Idle(slips, HandlesOfItem(item)) && Interleaves(mix)
      modifies this
      ensures OnlyApart(old(slips), slips, h, HandlesOfItem(item)) && WorkDone(slips, h, item, log, t)
      ensures ItemComes(ViewItem(old(slips), h, item), t, ViewDone(slips, h, log))
      ensures log.Some? <==> ItemSucceeds(old(slips), h, item)
      decreases h, 3
    {
      match item
      case Leaf(leaf, works) =>
        ApartAtFirst(slips, h, []);
        LeafComes(leaf, works);
        if works {
          log, t := Some(LeafDone(leaf)), [Did(leaf)];
          LeafRan(slips, h, leaf);
        } else {
          log, t := None, [];
        }
      case Fallback(alternatives) =>
        log, t := DoFallback(h, alternatives, mix);
      case Parallel(branches) =>
        log, t := DoParallel(h, branches, mix);
    }

    /** The alternatives, in order, until one succeeds; each that fails undoes itself. */
    method DoFallback(h: nat, hs: seq<nat>, mix: seq<seq<Event>> -> seq<Event>) returns (log: Option<Log>, t: seq<Event>)
      requires Working(slips, h, hs) && Idle(slips, hs) && Interleaves(mix)
      modifies this
      ensures OnlyApart(old(slips), slips, h, hs) && WorkDone(slips, h, Fallback(hs), log, t)
      ensures ItemComes(TryEach(ViewAll(old(slips), h, hs)), t, ViewDone(slips, h, log))
      ensures log.Some? <==> ItemSucceeds(old(slips), h, Fallback(hs))
      ensures log.Some? ==> IsFirstToSucceed(old(slips), hs, log.value.alternative)
      decreases h, 2
    {
      hide Leaves, Owns, OwnsAll, Tree, Unchanged, OnlyApart, Kept, Succeeds, View, Comes, TriesCome, ItemComes;
      ghost var first := slips;
      ApartAtFirst(first, h, hs);
      NoneTouched(first, h, hs);
      ghost var nodes := ViewAll(first, h, hs);
      NothingTried(nodes);
      t := [];
      for i := 0 to |hs|
        invariant OnlyApart(first, slips, h, hs) && Idle(slips, hs) && Effect(multiset{}, t) == Some(multiset{})
        invariant TriesCome(nodes, i, t)
        invariant forall j :: 0 <= j < i ==> !Succeeds(first, hs[j])
        invariant forall j :: i <= j < |hs| ==> Unchanged(first, slips, hs[j])
      {
        ghost var before := slips;
        BranchesDiffer(first, slips, h, hs, i);
        SucceedsStays(first, before, hs[i]);
        var ok, u, at, done, n := Execute(hs[i], mix);
        AlternativeRan(first, before, slips, h, hs, hs[i], t, u, ok);
        UnchangedView(first, before, hs[i]);
        if ok {
          NextSucceeds(nodes, i, t, u, FlightOf(slips, hs[i], Over(true)));
          assert ViewLog(slips, h, Succeeded(hs[i])) == OfAlternative(View(slips, hs[i]));
        } else {
          NextFails(nodes, i, t, u, FlightOf(slips, hs[i], Over(false)));
        }
        t := t + u;
        if ok {
          return Some(Succeeded(hs[i])), t;
        }
      }
      log := None;
      NoneSucceeds(nodes, t);
    }

    /** The branches at once; if any failed, all of them are undone. */
    method DoParallel(h: nat, hs: seq<nat>, mix: seq<seq<Event>> -> seq<Event>) returns (log: Option<Log>, t: seq<Event>)
      requires Working(slips, h, hs) && Idle(slips, hs) && Interleaves(mix)
      modifies this
      ensures OnlyApart(old(slips), slips, h, hs) && WorkDone(slips, h, Parallel(hs), log, t)
      ensures ItemComes(DoAll(ViewAll(old(slips), h, hs)), t, ViewDone(slips, h, log))
      ensures log.Some? <==> ItemSucceeds(old(slips), h, Parallel(hs))
      decreases h, 2
    {
      hide Leaves, Owns, OwnsAll, Tree, Unchanged, Effect, Succeeds, View, ViewAll, Comes, ItemComes, AllGoBack, AllWell, BranchEnded;
      ghost var first := slips;
      ApartAtFirst(first, h, hs);
      NoneTouched(first, h, hs);
      var parts, failed := [], false;
      while |parts| < |hs|
        invariant Running(first, slips, h, hs, parts) && Ended(first, slips, hs, parts)
        invariant !failed <==> forall j :: 0 <= j < |parts| ==> Succeeds(first, hs[j])
      {
        ghost var before := slips;
        BranchesDiffer(first, slips, h, hs, |parts|);
        SucceedsStays(first, before, hs[|parts|]);
        var ok, part, at, done, n := Execute(hs[|parts|], mix);
        NextBranchRan(first, before, slips, h, hs, parts, part);
        NextBranchEnded(first, before, slips, h, hs, parts, part, ok);
        failed := failed || !ok;
        parts := parts + [part];
      }
      t := mix(parts);
      BranchesRan(first, slips, h, hs, parts, t);
      ghost var ends := BranchesEnded(first, slips, h, hs, parts);
      if !failed {
        BranchesSucceed(ViewAll(first, h, hs), parts, ends, t);
        return Some(Executed(hs)), t;
      }
      ghost var ran := slips;
      var undone := UndoBranches(h, hs, mix);
      EffectChains(multiset{}, t, undone);
      ApartChains(first, ran, slips, h, hs);
      BranchesFail(ViewAll(first, h, hs), parts, ends, t, undone);
      log, t := None, t + undone;
    }

    /** A branch or an alternative run to its end, or to its first failure and back. */
    method Execute(h: nat, mix: seq<seq<Event>> -> seq<Event>)
      returns (ok: bool, t: seq<Event>, ghost at: Slips, ghost done: nat, ghost n: nat)
      requires Tree(slips, h) && Interleaves(mix)
      modifies this
      ensures Ran(old(slips), slips, h, ok, t, at, done, n)
      ensures Comes(FlightOf(old(slips), h, Ahead), t, FlightOf(slips, h, Over(ok)))
      ensures AlwaysReached(old(slips), h, Ahead, t)
      decreases h, 5
    {
      hide View, Comes, AlwaysReached;
      ghost var first := slips;
      done, t := 0, [];
      ForwardNone(first, h);
      ComesNowhere(FlightOf(first, h, Ahead));
      while slips[h].next != []
        invariant Forward(first, slips, h, done, t) && slips[h].next == first[h].next[done..] && RestUnchanged(first, slips, h)
        invariant Comes(FlightOf(first, h, Ahead), t, FlightOf(slips, h, Ahead))
        decreases |slips[h].next|
      {
        ghost var before := slips;
        KeptHas(first, before, h);
        var worked, u := ProcessNext(h, mix);
        ForwardOne(first, before, slips, h, done, worked.value, t, u);
        ComesOn(FlightOf(first, h, Ahead), t, FlightOf(before, h, Ahead), u, FlightOf(slips, h, if worked.value then Ahead else Back));
        t := t + u;
        if !worked.value {
          at, n := slips, |t|;
          KeptHas(first, slips, h);
          var undone := UndoAll(h, mix);
          RanBack(first, at, slips, h, done, t, undone);
          ComesOn(FlightOf(first, h, Ahead), t, FlightOf(at, h, Back), undone, FlightOf(slips, h, Over(false)));
          ok, t := false, t + undone;
          IsAlwaysReached(first, h, Ahead, t, FlightOf(slips, h, Over(false)));
          return;
        }
        done := done + 1;
      }
      ok, at, n := true, slips, |t|;
      RanThrough(first, slips, h, t);
      EmptyView(slips, h);
      EndIsOver(FlightOf(first, h, Ahead), t, View(slips, h));
      IsAlwaysReached(first, h, Ahead, t, FlightOf(slips, h, Over(true)));
    }
  }
}
