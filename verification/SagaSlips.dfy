/** Routing slips, nested through fallback and parallel activities, and what their runs leave
    outstanding. Slips are shared by handle; a slip is built before the item that holds it, so
    its handle is less than its holder's. */
module SagaSlips {
  import opened Options

  /** A step of the forward path: an activity that works or fails; alternatives, tried until one
      succeeds; or branches, run at once. */
  datatype Item = Leaf(leaf: nat, works: bool) | Fallback(alternatives: seq<nat>) | Parallel(branches: seq<nat>)

  /** Completed work: a leaf's, the alternative's that succeeded, or the branches'. */
  datatype Log = LeafDone(leaf: nat) | Succeeded(alternative: nat) | Executed(branches: seq<nat>)

  /** A stack of completed work, the last on top, and a queue of work to do. */
  datatype Slip = Slip(completed: seq<Log>, next: seq<Item>)

  type Slips = map<nat, Slip>

  /** What leaves did and undid, in order. */
  datatype Event = Did(leaf: nat) | Undid(leaf: nat)

  /** What is outstanding after `t`, where `before` was; nothing, if something was undone that
      was not outstanding. */
  function Effect(before: multiset<nat>, t: seq<Event>): (after: Option<multiset<nat>>)
    decreases |t|
  {
    if t == [] then Some(before)
    else match t[0]
      case Did(leaf) => Effect(before + multiset{leaf}, t[1..])
      case Undid(leaf) => if leaf in before then Effect(before - multiset{leaf}, t[1..]) else None
  }

  lemma {:induction false} EffectChains(before: multiset<nat>, t: seq<Event>, u: seq<Event>)
    requires Effect(before, t).Some?
    ensures Effect(before, t + u) == Effect(Effect(before, t).value, u)
    decreases |t|
  {
    if t == [] {
      assert t + u == u;
    } else {
      assert (t + u)[0] == t[0] && (t + u)[1..] == t[1..] + u;
      EffectChains(match t[0] case Did(leaf) => before + multiset{leaf} case Undid(leaf) => before - multiset{leaf}, t[1..], u);
    }
  }

  /** What else is outstanding does not matter. */
  lemma {:induction false} EffectBeside(before: multiset<nat>, t: seq<Event>, beside: multiset<nat>)
    requires Effect(before, t).Some?
    ensures Effect(before + beside, t) == Some(Effect(before, t).value + beside)
    decreases |t|
  {
    if t != [] {
      match t[0]
      case Did(leaf) =>
        assert before + beside + multiset{leaf} == before + multiset{leaf} + beside;
        EffectBeside(before + multiset{leaf}, t[1..], beside);
      case Undid(leaf) =>
        assert before + beside - multiset{leaf} == before - multiset{leaf} + beside;
        EffectBeside(before - multiset{leaf}, t[1..], beside);
    }
  }

  // Interleavings.

  /** Some part is not used up. */
  predicate AllEmpty(parts: seq<seq<Event>>) {
    forall i :: 0 <= i < |parts| ==> parts[i] == []
  }

  /** `t` is the parts run at once: some interleaving of them, each in its own order. */
  ghost predicate IsShuffle(parts: seq<seq<Event>>, t: seq<Event>)
    decreases |t|
  {
    if t == [] then AllEmpty(parts)
    else exists i :: 0 <= i < |parts| && parts[i] != [] && parts[i][0] == t[0] && IsShuffle(parts[i := parts[i][1..]], t[1..])
  }

  function Sum(parts: seq<multiset<nat>>): multiset<nat> {
    if parts == [] then multiset{} else parts[0] + Sum(parts[1..])
  }

  lemma {:induction false} SumUpdated(parts: seq<multiset<nat>>, i: nat, m: multiset<nat>)
    requires i < |parts|
    ensures parts[i] <= Sum(parts) && Sum(parts[i := m]) == Sum(parts) - parts[i] + m
    decreases |parts|
  {
    if i == 0 {
      assert parts[0 := m][1..] == parts[1..];
    } else {
      SumUpdated(parts[1..], i - 1, m);
      assert parts[i := m][1..] == parts[1..][i - 1 := m];
    }
  }

  /** Each part's effect is its own, whatever the interleaving. */
  ghost predicate EffectsOf(befores: seq<multiset<nat>>, parts: seq<seq<Event>>, afters: seq<multiset<nat>>) {
    |befores| == |parts| == |afters| && forall i :: 0 <= i < |parts| ==> Effect(befores[i], parts[i]) == Some(afters[i])
  }

  /** What one event leaves of what is outstanding. */
  function Applied(before: multiset<nat>, event: Event): multiset<nat> {
    match event case Did(leaf) => before + multiset{leaf} case Undid(leaf) => before - multiset{leaf}
  }

  lemma EffectOfFirst(before: multiset<nat>, t: seq<Event>)
    requires t != [] && Effect(before, t).Some?
    ensures Effect(before, t) == Effect(Applied(before, t[0]), t[1..]) && (t[0].Undid? ==> t[0].leaf in before)
  {
  }

  lemma EffectFromFirst(before: multiset<nat>, t: seq<Event>)
    requires t != [] && (t[0].Undid? ==> t[0].leaf in before)
    ensures Effect(before, t) == Effect(Applied(before, t[0]), t[1..])
  {
  }

  lemma {:induction false} ShuffleEffect(befores: seq<multiset<nat>>, parts: seq<seq<Event>>, afters: seq<multiset<nat>>, t: seq<Event>)
    requires EffectsOf(befores, parts, afters) && IsShuffle(parts, t)
    ensures Effect(Sum(befores), t) == Some(Sum(afters))
    decreases |t|
  {
    if t == [] {
      assert befores == afters;
    } else {
      var i :| 0 <= i < |parts| && parts[i] != [] && parts[i][0] == t[0] && IsShuffle(parts[i := parts[i][1..]], t[1..]);
      hide Effect, EffectsOf, IsShuffle, Sum, Applied;
      FirstTaken(befores, parts, afters, i);
      ShuffleEffect(befores[i := Applied(befores[i], t[0])], parts[i := parts[i][1..]], afters, t[1..]);
      EffectFromFirst(Sum(befores), t);
    }
  }

  /** The first event of one part, taken. */
  lemma FirstTaken(befores: seq<multiset<nat>>, parts: seq<seq<Event>>, afters: seq<multiset<nat>>, i: nat)
    requires EffectsOf(befores, parts, afters) && i < |parts| && parts[i] != []
    ensures var event := parts[i][0];
            && EffectsOf(befores[i := Applied(befores[i], event)], parts[i := parts[i][1..]], afters)
            && Sum(befores[i := Applied(befores[i], event)]) == Applied(Sum(befores), event)
            && (event.Undid? ==> event.leaf in Sum(befores))
  {
    hide Effect, Sum;
    EffectOfFirst(befores[i], parts[i]);
    SumUpdated(befores, i, Applied(befores[i], parts[i][0]));
    OneEvent(Sum(befores), befores[i], parts[i][0]);
  }

  lemma OneEvent(sum: multiset<nat>, part: multiset<nat>, event: Event)
    requires part <= sum && (event.Undid? ==> event.leaf in part)
    ensures event.Did? ==> sum - part + (part + multiset{event.leaf}) == sum + multiset{event.leaf}
    ensures event.Undid? ==> event.leaf in sum && sum - part + (part - multiset{event.leaf}) == sum - multiset{event.leaf}
  {
  }

  // Slips by their handles.

  function HandlesOfItem(item: Item): seq<nat> {
    match item case Leaf(_, _) => [] case Fallback(hs) => hs case Parallel(hs) => hs
  }

  function HandlesOfLog(log: Log): seq<nat> {
    match log case LeafDone(_) => [] case Succeeded(h) => [h] case Executed(hs) => hs
  }

  function ItemHandles(items: seq<Item>): seq<nat> {
    if items == [] then [] else HandlesOfItem(items[0]) + ItemHandles(items[1..])
  }

  function LogHandles(logs: seq<Log>): seq<nat> {
    if logs == [] then [] else LogHandles(logs[..|logs| - 1]) + HandlesOfLog(logs[|logs| - 1])
  }

  /** The slips a slip holds, through its logs and its items. */
  function Children(slip: Slip): seq<nat> {
    LogHandles(slip.completed) + ItemHandles(slip.next)
  }

  /** A slip and those it holds, at any depth. */
  function Owns(s: Slips, h: nat): set<nat>
    decreases h, 1, 0
  {
    {h} + if h in s then OwnsAll(s, h, Children(s[h])) else {}
  }

  function OwnsAll(s: Slips, h: nat, hs: seq<nat>): set<nat>
    decreases h, 0, |hs|
  {
    if hs == [] then {} else (if hs[0] < h then Owns(s, hs[0]) else {hs[0]}) + OwnsAll(s, h, hs[1..])
  }

  /** What is outstanding of a slip: the leaves reachable from its completed logs. */
  function Leaves(s: Slips, h: nat): multiset<nat>
    decreases h, 2, 0
  {
    if h in s then LogLeaves(s, h, s[h].completed) else multiset{}
  }

  function LogLeaves(s: Slips, h: nat, logs: seq<Log>): multiset<nat>
    decreases h, 1, |logs|
  {
    if logs == [] then multiset{}
    else LogLeaves(s, h, logs[..|logs| - 1]) + LeavesOfLog(s, h, logs[|logs| - 1])
  }

  function LeavesOfLog(s: Slips, h: nat, log: Log): multiset<nat>
    decreases h, 1, 0
  {
    match log
    case LeafDone(leaf) => multiset{leaf}
    case Succeeded(k) => if k < h then Leaves(s, k) else multiset{}
    case Executed(hs) => Sum(LeavesOfAll(s, h, hs))
  }

  function LeavesOfAll(s: Slips, h: nat, hs: seq<nat>): (r: seq<multiset<nat>>)
    ensures |r| == |hs| && forall i :: 0 <= i < |hs| ==> r[i] == if hs[i] < h then Leaves(s, hs[i]) else multiset{}
    decreases h, 0, |hs|
  {
    if hs == [] then [] else [if hs[0] < h then Leaves(s, hs[0]) else multiset{}] + LeavesOfAll(s, h, hs[1..])
  }

  /** A tree of slips: each held once, and those not run yet have completed nothing. */
  ghost predicate Tree(s: Slips, h: nat)
    decreases h, 1
  {
    h in s && Forest(s, h, Children(s[h])) && forall k :: k in ItemHandles(s[h].next) ==> k in s && s[k].completed == []
  }

  ghost predicate Forest(s: Slips, h: nat, hs: seq<nat>)
    decreases h, 0
  {
    && (forall i :: 0 <= i < |hs| ==> hs[i] < h && Tree(s, hs[i]))
    && (forall i, j :: 0 <= i < j < |hs| ==> Owns(s, hs[i]) !! Owns(s, hs[j]))
  }

  lemma {:induction false} OwnsAllIs(s: Slips, h: nat, hs: seq<nat>, x: nat)
    requires forall i :: 0 <= i < |hs| ==> hs[i] < h
    ensures x in OwnsAll(s, h, hs) <==> exists i :: 0 <= i < |hs| && x in Owns(s, hs[i])
    decreases |hs|
  {
    if hs != [] {
      OwnsAllIs(s, h, hs[1..], x);
      if x in OwnsAll(s, h, hs[1..]) {
        var i :| 0 <= i < |hs[1..]| && x in Owns(s, hs[1..][i]);
        assert x in Owns(s, hs[i + 1]);
      }
      if i :| 0 < i < |hs| && x in Owns(s, hs[i]) {
        assert hs[1..][i - 1] == hs[i];
      }
    }
  }

  /** Everything a slip holds has a lesser handle. */
  lemma {:induction false} OwnsBelow(s: Slips, h: nat, x: nat)
    requires Tree(s, h) && x in Owns(s, h)
    ensures x <= h && x in s
    decreases h
  {
    if x != h {
      OwnsAllIs(s, h, Children(s[h]), x);
      var i :| 0 <= i < |Children(s[h])| && x in Owns(s, Children(s[h])[i]);
      OwnsBelow(s, Children(s[h])[i], x);
    }
  }

  /** Slips changed among `owned` only. */
  ghost predicate Within(s: Slips, later: Slips, owned: set<nat>) {
    later.Keys == s.Keys && forall x :: x in s && x !in owned ==> later[x] == s[x]
  }

  lemma {:induction false} AllLeavesSame(s: Slips, later: Slips, h: nat, hs: seq<nat>)
    requires forall k :: k in hs ==> Leaves(later, k) == Leaves(s, k)
    ensures LeavesOfAll(later, h, hs) == LeavesOfAll(s, h, hs)
    decreases |hs|
  {
    hide Leaves;
    if hs != [] {
      assert hs[0] in hs;
      AllLeavesSame(s, later, h, hs[1..]);
    }
  }

  lemma LogLeavesOfOne(s: Slips, later: Slips, h: nat, log: Log)
    requires forall k :: k in HandlesOfLog(log) ==> Leaves(later, k) == Leaves(s, k)
    ensures LeavesOfLog(later, h, log) == LeavesOfLog(s, h, log)
  {
    hide Leaves, LeavesOfAll, Sum;
    match log
    case LeafDone(_) =>
    case Succeeded(k) => assert k in HandlesOfLog(log);
    case Executed(hs) => AllLeavesSame(s, later, h, hs);
  }

  lemma {:induction false} LogLeavesSame(s: Slips, later: Slips, h: nat, logs: seq<Log>)
    requires forall k :: k in LogHandles(logs) ==> Leaves(later, k) == Leaves(s, k)
    ensures LogLeaves(later, h, logs) == LogLeaves(s, h, logs)
    decreases |logs|
  {
    hide LeavesOfLog, Leaves, HandlesOfLog;
    if logs != [] {
      var init, last := logs[..|logs| - 1], logs[|logs| - 1];
      LogLeavesSame(s, later, h, init);
      LogLeavesOfOne(s, later, h, last);
    }
  }

  lemma {:induction false} LogHandlesOfPart(logs: seq<Log>, m: nat, k: nat)
    requires m < |logs| && k in HandlesOfLog(logs[m])
    ensures k in LogHandles(logs)
    decreases |logs|
  {
    if m < |logs| - 1 {
      LogHandlesOfPart(logs[..|logs| - 1], m, k);
    }
  }

  lemma {:induction false} ItemHandlesOfPart(items: seq<Item>, i: nat, k: nat)
    requires i < |items| && k in HandlesOfItem(items[i])
    ensures k in ItemHandles(items)
    decreases |items|
  {
    if i > 0 {
      ItemHandlesOfPart(items[1..], i - 1, k);
    }
  }

  /** What a slip's children are: its logs' handles, then its items'. */
  lemma ChildOfLogOrItem(slip: Slip, k: nat)
    ensures k in LogHandles(slip.completed) || k in ItemHandles(slip.next) <==> k in Children(slip)
  {
  }

  /** Nothing of a tree changed: it owns, and leaves outstanding, what it did. */
  lemma {:induction false} TreeStays(s: Slips, later: Slips, h: nat, owned: set<nat>)
    requires Tree(s, h) && Within(s, later, owned) && Owns(s, h) !! owned
    ensures Tree(later, h) && Owns(later, h) == Owns(s, h) && Leaves(later, h) == Leaves(s, h)
    decreases h, 2
  {
    assert h in Owns(s, h) && later[h] == s[h];
    var hs := Children(s[h]);
    ForestStays(s, later, h, hs, owned);
    ChildrenStay(s, later, h, owned);
    LeavesStay(s, later, h);
  }

  lemma LeavesStay(s: Slips, later: Slips, h: nat)
    requires h in s && h in later && later[h] == s[h]
    requires forall k :: k in Children(s[h]) ==> Leaves(later, k) == Leaves(s, k)
    ensures Leaves(later, h) == Leaves(s, h)
  {
    hide LogLeaves;
    forall k | k in LogHandles(s[h].completed)
      ensures Leaves(later, k) == Leaves(s, k)
    {
      ChildOfLogOrItem(s[h], k);
    }
    LogLeavesSame(s, later, h, s[h].completed);
  }

  lemma ChildrenStay(s: Slips, later: Slips, h: nat, owned: set<nat>)
    requires Tree(s, h) && Within(s, later, owned) && Owns(s, h) !! owned
    ensures forall k :: k in ItemHandles(s[h].next) ==> k in later && later[k].completed == []
  {
    forall k | k in ItemHandles(s[h].next)
      ensures k in later && later[k].completed == []
    {
      ChildOfLogOrItem(s[h], k);
      ChildIsOwned(s, h, Children(s[h]), k);
    }
  }

  lemma ChildIsOwned(s: Slips, h: nat, hs: seq<nat>, k: nat)
    requires Forest(s, h, hs) && k in hs
    ensures k in OwnsAll(s, h, hs) && k < h && Tree(s, k)
  {
    OwnsAllIs(s, h, hs, k);
    var i :| 0 <= i < |hs| && hs[i] == k;
    assert k in Owns(s, hs[i]);
  }

  lemma {:induction false} ForestStays(s: Slips, later: Slips, h: nat, hs: seq<nat>, owned: set<nat>)
    requires Forest(s, h, hs) && Within(s, later, owned) && OwnsAll(s, h, hs) !! owned
    ensures Forest(later, h, hs) && OwnsAll(later, h, hs) == OwnsAll(s, h, hs)
    ensures forall k :: k in hs ==> Owns(later, k) == Owns(s, k) && Leaves(later, k) == Leaves(s, k)
    decreases h, 1
  {
    forall i | 0 <= i < |hs|
      ensures Tree(later, hs[i]) && Owns(later, hs[i]) == Owns(s, hs[i]) && Leaves(later, hs[i]) == Leaves(s, hs[i])
    {
      forall x | x in Owns(s, hs[i])
        ensures x in OwnsAll(s, h, hs)
      {
        OwnsAllIs(s, h, hs, x);
      }
      TreeStays(s, later, hs[i], owned);
    }
    forall x
      ensures x in OwnsAll(later, h, hs) <==> x in OwnsAll(s, h, hs)
    {
      OwnsAllIs(s, h, hs, x);
      OwnsAllIs(later, h, hs, x);
    }
  }

  // An item or a log taken off a slip, or put on it.

  lemma {:induction false} OwnsAllJoins(s: Slips, h: nat, a: seq<nat>, b: seq<nat>)
    ensures OwnsAll(s, h, a + b) == OwnsAll(s, h, a) + OwnsAll(s, h, b)
    decreases |a|
  {
    hide Owns;
    if a == [] {
      assert a + b == b;
    } else {
      assert (a + b)[0] == a[0] && (a + b)[1..] == a[1..] + b;
      OwnsAllJoins(s, h, a[1..], b);
    }
  }

  lemma ForestSplits(s: Slips, h: nat, a: seq<nat>, b: seq<nat>)
    requires Forest(s, h, a + b)
    ensures Forest(s, h, a) && Forest(s, h, b) && OwnsAll(s, h, a) !! OwnsAll(s, h, b)
  {
    hide Owns, Tree;
    var c := a + b;
    assert forall i :: 0 <= i < |a| ==> c[i] == a[i];
    assert forall i :: 0 <= i < |b| ==> c[|a| + i] == b[i];
    forall i, j | 0 <= i < j < |b|
      ensures Owns(s, b[i]) !! Owns(s, b[j])
    {
      assert Owns(s, c[|a| + i]) !! Owns(s, c[|a| + j]);
    }
    forall x | x in OwnsAll(s, h, a)
      ensures x !in OwnsAll(s, h, b)
    {
      OwnsAllIs(s, h, a, x);
      OwnsAllIs(s, h, b, x);
      var i :| 0 <= i < |a| && x in Owns(s, a[i]);
      forall j | 0 <= j < |b|
        ensures x !in Owns(s, b[j])
      {
        assert Owns(s, c[i]) !! Owns(s, c[|a| + j]);
      }
    }
  }

  lemma ForestJoins(s: Slips, h: nat, a: seq<nat>, b: seq<nat>)
    requires Forest(s, h, a) && Forest(s, h, b) && OwnsAll(s, h, a) !! OwnsAll(s, h, b)
    ensures Forest(s, h, a + b)
  {
    hide Owns, Tree;
    var c := a + b;
    forall i, j | 0 <= i < j < |c|
      ensures Owns(s, c[i]) !! Owns(s, c[j])
    {
      if i < |a| <= j {
        forall x | x in Owns(s, a[i])
          ensures x !in Owns(s, b[j - |a|])
        {
          OwnsAllIs(s, h, a, x);
          OwnsAllIs(s, h, b, x);
        }
      }
    }
  }

  lemma NoneOwnsItsHolder(s: Slips, h: nat, hs: seq<nat>)
    requires Forest(s, h, hs)
    ensures h !in OwnsAll(s, h, hs)
  {
    OwnsAllIs(s, h, hs, h);
    forall i | 0 <= i < |hs|
      ensures h !in Owns(s, hs[i])
    {
      if h in Owns(s, hs[i]) {
        OwnsBelow(s, hs[i], h);
      }
    }
  }

  /** A slip, and slips apart from it that an item or a log of it held. */
  ghost predicate Working(s: Slips, h: nat, hs: seq<nat>) {
    Tree(s, h) && Forest(s, h, hs) && OwnsAll(s, h, hs) !! Owns(s, h)
  }

  /** The slip at `h` is put in another's place, of which it has some children; the rest stand apart. */
  lemma Parted(s: Slips, h: nat, slip: Slip, kept: seq<nat>, hs: seq<nat>)
    requires h in s && Forest(s, h, kept) && Forest(s, h, hs) && OwnsAll(s, h, kept) !! OwnsAll(s, h, hs)
    requires Children(slip) == kept && forall k :: k in ItemHandles(slip.next) ==> k in s && s[k].completed == []
    ensures Working(s[h := slip], h, hs)
    ensures Owns(s[h := slip], h) == {h} + OwnsAll(s, h, kept) && OwnsAll(s[h := slip], h, hs) == OwnsAll(s, h, hs)
    ensures forall k :: k in kept || k in hs ==> Leaves(s[h := slip], k) == Leaves(s, k)
  {
    hide Leaves, Owns, OwnsAll, Tree, Forest, Children;
    var later := s[h := slip];
    NoneOwnsItsHolder(s, h, kept);
    OthersOfForestStay(s, h, slip, kept);
    OthersOfForestStay(s, h, slip, hs);
    NoneOwnsItsHolder(s, h, hs);
    OwnsIs(later, h);
    forall k | k in ItemHandles(slip.next)
      ensures k in later && later[k].completed == []
    {
      ChildOfLogOrItem(slip, k);
      ChildIsOwned(s, h, kept, k);
    }
    IsTree(later, h);
  }

  lemma IsTree(s: Slips, h: nat)
    requires h in s && Forest(s, h, Children(s[h])) && forall k :: k in ItemHandles(s[h].next) ==> k in s && s[k].completed == []
    ensures Tree(s, h)
  {
  }

  /** Slips that a slip holds, or held, do not change with it. */
  lemma OthersOfForestStay(s: Slips, h: nat, slip: Slip, hs: seq<nat>)
    requires h in s && Forest(s, h, hs)
    ensures var later := s[h := slip];
            && Forest(later, h, hs) && OwnsAll(later, h, hs) == OwnsAll(s, h, hs)
            && forall k :: k in hs ==> Leaves(later, k) == Leaves(s, k)
  {
    hide Leaves, Owns, OwnsAll, Tree, Forest;
    NoneOwnsItsHolder(s, h, hs);
    ForestStays(s, s[h := slip], h, hs, {h});
  }

  /** The next item off the queue: its slips stand apart, not run. */
  lemma ItemTaken(s: Slips, h: nat)
    requires Tree(s, h) && s[h].next != []
    ensures var hs, later := HandlesOfItem(s[h].next[0]), s[h := s[h].(next := s[h].next[1..])];
            && Working(later, h, hs) && Leaves(later, h) == Leaves(s, h)
            && Owns(later, h) + OwnsAll(later, h, hs) <= Owns(s, h)
            && forall k :: k in hs ==> k in later && later[k].completed == []
  {
    hide Leaves, Owns, Tree, Forest;
    TreeIs(s, h);
    var slip := s[h];
    var hs, logs, rest := HandlesOfItem(slip.next[0]), LogHandles(slip.completed), ItemHandles(slip.next[1..]);
    assert Children(slip) == logs + (hs + rest);
    ForestSplits(s, h, logs, hs + rest);
    ForestSplits(s, h, hs, rest);
    OwnsAllJoins(s, h, logs, hs + rest);
    OwnsAllJoins(s, h, hs, rest);
    ForestJoins(s, h, logs, rest);
    OwnsAllJoins(s, h, logs, rest);
    Parted(s, h, slip.(next := slip.next[1..]), logs + rest, hs);
    LeavesOfSame(s, s[h := slip.(next := slip.next[1..])], h);
    OwnsIs(s, h);
    NoneOwnsItsHolder(s, h, hs);
    forall k | k in hs
      ensures k in s && s[k].completed == [] && k != h
    {
      assert k in ItemHandles(slip.next);
      ChildIsOwned(s, h, hs, k);
    }
  }

  lemma TreeIs(s: Slips, h: nat)
    requires Tree(s, h)
    ensures h in s && Forest(s, h, Children(s[h])) && forall k :: k in ItemHandles(s[h].next) ==> k in s && s[k].completed == []
  {
  }

  lemma OwnsIs(s: Slips, h: nat)
    requires h in s
    ensures Owns(s, h) == {h} + OwnsAll(s, h, Children(s[h]))
  {
  }

  lemma LeavesOfSame(s: Slips, later: Slips, h: nat)
    requires h in s && h in later && later[h].completed == s[h].completed
    requires forall k :: k in LogHandles(s[h].completed) ==> Leaves(later, k) == Leaves(s, k)
    ensures Leaves(later, h) == Leaves(s, h)
  {
    hide LogLeaves;
    LogLeavesSame(s, later, h, s[h].completed);
  }

  /** The last log off the stack: its slips stand apart, and what it left outstanding with them. */
  lemma LogTaken(s: Slips, h: nat)
    requires Tree(s, h) && s[h].completed != []
    ensures var n := |s[h].completed| - 1;
            var log, later := s[h].completed[n], s[h := s[h].(completed := s[h].completed[..n])];
            && Working(later, h, HandlesOfLog(log)) && Leaves(s, h) == Leaves(later, h) + LeavesOfLog(later, h, log)
            && Owns(later, h) + OwnsAll(later, h, HandlesOfLog(log)) <= Owns(s, h)
  {
    hide Leaves, Owns, Tree, Forest, LeavesOfLog;
    TreeIs(s, h);
    var slip, n := s[h], |s[h].completed| - 1;
    var log, init, rest := slip.completed[n], LogHandles(slip.completed[..n]), ItemHandles(slip.next);
    var hs, later := HandlesOfLog(log), s[h := slip.(completed := slip.completed[..n])];
    assert Children(slip) == (init + hs) + rest;
    ForestSplits(s, h, init + hs, rest);
    ForestSplits(s, h, init, hs);
    OwnsAllJoins(s, h, init + hs, rest);
    OwnsAllJoins(s, h, init, hs);
    ForestJoins(s, h, init, rest);
    OwnsAllJoins(s, h, init, rest);
    Parted(s, h, slip.(completed := slip.completed[..n]), init + rest, hs);
    OwnsIs(s, h);
    LogLeavesSame(s, later, h, slip.completed[..n]);
    LogLeavesOfOne(s, later, h, log);
    LeavesByLog(s, h);
    LeavesAre(later, h);
  }

  lemma LeavesByLog(s: Slips, h: nat)
    requires h in s && s[h].completed != []
    ensures var n := |s[h].completed| - 1;
            Leaves(s, h) == LogLeaves(s, h, s[h].completed[..n]) + LeavesOfLog(s, h, s[h].completed[n])
  {
  }

  lemma LeavesAre(s: Slips, h: nat)
    requires h in s
    ensures Leaves(s, h) == LogLeaves(s, h, s[h].completed)
  {
  }

  /** A slip with one more log on its stack. */
  function WithLog(slip: Slip, log: Log): Slip {
    slip.(completed := slip.completed + [log])
  }

  lemma ForestInserts(s: Slips, h: nat, a: seq<nat>, hs: seq<nat>, b: seq<nat>)
    requires Forest(s, h, a + b) && Forest(s, h, hs) && OwnsAll(s, h, a + b) !! OwnsAll(s, h, hs)
    ensures Forest(s, h, (a + hs) + b) && OwnsAll(s, h, (a + hs) + b) == OwnsAll(s, h, a + b) + OwnsAll(s, h, hs)
  {
    hide Owns, Tree, Forest, OwnsAll;
    ForestSplits(s, h, a, b);
    OwnsAllJoins(s, h, a, b);
    ForestJoins(s, h, a, hs);
    OwnsAllJoins(s, h, a, hs);
    ForestJoins(s, h, a + hs, b);
    OwnsAllJoins(s, h, a + hs, b);
  }

  lemma ChildrenWithLog(slip: Slip, log: Log)
    ensures Children(WithLog(slip, log)) == (LogHandles(slip.completed) + HandlesOfLog(log)) + ItemHandles(slip.next)
    ensures LogHandles(WithLog(slip, log).completed) == LogHandles(slip.completed) + HandlesOfLog(log)
    ensures WithLog(slip, log).completed[..|slip.completed|] == slip.completed
  {
  }

  lemma LogPutTree(s: Slips, h: nat, log: Log)
    requires Working(s, h, HandlesOfLog(log))
    ensures var later := s[h := WithLog(s[h], log)];
            && Tree(later, h) && Owns(later, h) == Owns(s, h) + OwnsAll(s, h, HandlesOfLog(log))
            && forall k :: k in Children(WithLog(s[h], log)) ==> Leaves(later, k) == Leaves(s, k)
  {
    hide Leaves, Owns, OwnsAll, Tree, Forest, LeavesOfLog, LogHandles, HandlesOfLog, ItemHandles;
    TreeIs(s, h);
    OwnsIs(s, h);
    ForestInserts(s, h, LogHandles(s[h].completed), HandlesOfLog(log), ItemHandles(s[h].next));
    ChildrenWithLog(s[h], log);
    NoForest(s, h);
    Parted(s, h, WithLog(s[h], log), Children(WithLog(s[h], log)), []);
    WorkingIs(s[h := WithLog(s[h], log)], h, []);
  }

  /** A log put on the stack, of slips that stood apart. */
  lemma LogPut(s: Slips, h: nat, log: Log)
    requires Working(s, h, HandlesOfLog(log))
    ensures var later := s[h := WithLog(s[h], log)];
            && Tree(later, h) && Leaves(later, h) == Leaves(s, h) + LeavesOfLog(s, h, log)
            && Owns(later, h) == Owns(s, h) + OwnsAll(s, h, HandlesOfLog(log))
  {
    LogPutTree(s, h, log);
    hide Leaves, Owns, Tree, Forest, LeavesOfLog, LogLeaves, Working, LogHandles, HandlesOfLog;
    WorkingIs(s, h, HandlesOfLog(log));
    TreeIs(s, h);
    var later := s[h := WithLog(s[h], log)];
    ChildrenWithLog(s[h], log);
    LogLeavesSame(s, later, h, s[h].completed);
    LogLeavesOfOne(s, later, h, log);
    LeavesByLog(later, h);
    LeavesAre(s, h);
  }

  lemma NoForest(s: Slips, h: nat)
    ensures Forest(s, h, []) && OwnsAll(s, h, []) == {}
  {
  }

  lemma WorkingIs(s: Slips, h: nat, hs: seq<nat>)
    requires Working(s, h, hs)
    ensures Tree(s, h) && Forest(s, h, hs) && OwnsAll(s, h, hs) !! Owns(s, h)
  {
  }

  /** One of the slips that stand apart was run: it owns no more than it did, and nothing else
      changed. */
  lemma OneRan(s: Slips, later: Slips, h: nat, hs: seq<nat>, k: nat)
    requires Working(s, h, hs) && k in hs && Within(s, later, Owns(s, k)) && Tree(later, k) && Owns(later, k) <= Owns(s, k)
    ensures Working(later, h, hs) && Leaves(later, h) == Leaves(s, h) && Owns(later, h) == Owns(s, h)
    ensures OwnsAll(later, h, hs) <= OwnsAll(s, h, hs) && later[h] == s[h]
    ensures forall j :: j in hs && j != k ==>
              j in later && later[j] == s[j] && Owns(later, j) == Owns(s, j) && Leaves(later, j) == Leaves(s, j)
    ensures Owns(s, k) <= OwnsAll(s, h, hs)
  {
    hide Leaves;
    var n :| 0 <= n < |hs| && hs[n] == k;
    forall x | x in Owns(s, k)
      ensures x in OwnsAll(s, h, hs)
    {
      OwnsAllIs(s, h, hs, x);
    }
    TreeStays(s, later, h, Owns(s, k));
    assert h in Owns(s, h);
    forall i | 0 <= i < |hs| && i != n
      ensures Tree(later, hs[i]) && Owns(later, hs[i]) == Owns(s, hs[i]) && Leaves(later, hs[i]) == Leaves(s, hs[i])
      ensures hs[i] in Owns(s, hs[i]) && hs[i] !in Owns(s, k)
    {
      assert Owns(s, hs[i]) !! Owns(s, hs[n]);
      TreeStays(s, later, hs[i], Owns(s, k));
    }
    OthersApart(s, later, h, hs, n);
  }

  lemma OthersApart(s: Slips, later: Slips, h: nat, hs: seq<nat>, n: nat)
    requires Forest(s, h, hs) && n < |hs| && Tree(later, hs[n]) && Owns(later, hs[n]) <= Owns(s, hs[n])
    requires forall i :: 0 <= i < |hs| && i != n ==> Tree(later, hs[i]) && Owns(later, hs[i]) == Owns(s, hs[i])
    ensures Forest(later, h, hs) && OwnsAll(later, h, hs) <= OwnsAll(s, h, hs)
  {
    hide Owns, Tree;
    forall x | x in OwnsAll(later, h, hs)
      ensures x in OwnsAll(s, h, hs)
    {
      OwnsAllIs(s, h, hs, x);
      OwnsAllIs(later, h, hs, x);
    }
  }
}
