/** Slips shared by handle, seen as the trees they are. */
module SagaView {
  import opened SagaSlips
  import opened SagaMachine

  /** The slip at `h`, with all it holds. */
  function View(s: Slips, h: nat): Node
    decreases h, 2
  {
    if h in s then Node(ViewLogs(s, h, s[h].completed), ViewItems(s, h, s[h].next)) else Node([], [])
  }

  function ViewLogs(s: Slips, h: nat, logs: seq<Log>): (r: seq<Done>)
    ensures |r| == |logs| && forall i :: 0 <= i < |logs| ==> r[i] == ViewLog(s, h, logs[i])
    decreases h, 1
  {
    seq(|logs|, i requires 0 <= i < |logs| => ViewLog(s, h, logs[i]))
  }

  function ViewItems(s: Slips, h: nat, items: seq<Item>): (r: seq<Todo>)
    ensures |r| == |items| && forall i :: 0 <= i < |items| ==> r[i] == ViewItem(s, h, items[i])
    decreases h, 1
  {
    seq(|items|, i requires 0 <= i < |items| => ViewItem(s, h, items[i]))
  }

  function ViewLog(s: Slips, h: nat, log: Log): Done
    decreases h, 0, 2
  {
    match log
    case LeafDone(leaf) => OfLeaf(leaf)
    case Succeeded(k) => OfAlternative(ViewBelow(s, h, k))
    case Executed(hs) => OfBranches(ViewAll(s, h, hs))
  }

  function ViewItem(s: Slips, h: nat, item: Item): Todo
    decreases h, 0, 2
  {
    match item
    case Leaf(leaf, works) => DoLeaf(leaf, works)
    case Fallback(hs) => TryEach(ViewAll(s, h, hs))
    case Parallel(hs) => DoAll(ViewAll(s, h, hs))
  }

  function ViewAll(s: Slips, h: nat, hs: seq<nat>): (r: seq<Node>)
    ensures |r| == |hs| && forall i :: 0 <= i < |hs| ==> r[i] == ViewBelow(s, h, hs[i])
    decreases h, 0, 1
  {
    seq(|hs|, i requires 0 <= i < |hs| => ViewBelow(s, h, hs[i]))
  }

  function ViewBelow(s: Slips, h: nat, k: nat): Node
    decreases h, 0, 0
  {
    if k < h then View(s, k) else Node([], [])
  }

  // The same slips, the same tree.

  ghost predicate SameBelow(s: Slips, later: Slips, h: nat, hs: seq<nat>) {
    forall k :: k in hs ==> ViewBelow(later, h, k) == ViewBelow(s, h, k)
  }

  lemma AllSame(s: Slips, later: Slips, h: nat, hs: seq<nat>)
    requires SameBelow(s, later, h, hs)
    ensures ViewAll(later, h, hs) == ViewAll(s, h, hs)
  {
  }

  lemma LogSame(s: Slips, later: Slips, h: nat, log: Log)
    requires SameBelow(s, later, h, HandlesOfLog(log))
    ensures ViewLog(later, h, log) == ViewLog(s, h, log)
  {
    AllSame(s, later, h, HandlesOfLog(log));
  }

  lemma ItemSame(s: Slips, later: Slips, h: nat, item: Item)
    requires SameBelow(s, later, h, HandlesOfItem(item))
    ensures ViewItem(later, h, item) == ViewItem(s, h, item)
  {
    AllSame(s, later, h, HandlesOfItem(item));
  }

  lemma LogsSame(s: Slips, later: Slips, h: nat, logs: seq<Log>)
    requires SameBelow(s, later, h, LogHandles(logs))
    ensures ViewLogs(later, h, logs) == ViewLogs(s, h, logs)
  {
    hide ViewBelow, ViewLog;
    forall i | 0 <= i < |logs|
      ensures ViewLog(later, h, logs[i]) == ViewLog(s, h, logs[i])
    {
      forall k | k in HandlesOfLog(logs[i])
        ensures ViewBelow(later, h, k) == ViewBelow(s, h, k)
      {
        LogHandlesOfPart(logs, i, k);
      }
      LogSame(s, later, h, logs[i]);
    }
  }

  lemma ItemsSame(s: Slips, later: Slips, h: nat, items: seq<Item>)
    requires SameBelow(s, later, h, ItemHandles(items))
    ensures ViewItems(later, h, items) == ViewItems(s, h, items)
  {
    hide ViewBelow, ViewItem;
    forall i | 0 <= i < |items|
      ensures ViewItem(later, h, items[i]) == ViewItem(s, h, items[i])
    {
      forall k | k in HandlesOfItem(items[i])
        ensures ViewBelow(later, h, k) == ViewBelow(s, h, k)
      {
        ItemHandlesOfPart(items, i, k);
      }
      ItemSame(s, later, h, items[i]);
    }
  }

  /** A slip is seen as it was, when it is the same and so are those it holds. */
  lemma ViewSame(s: Slips, later: Slips, h: nat)
    requires h in s && h in later && later[h] == s[h] && SameBelow(s, later, h, Children(s[h]))
    ensures View(later, h) == View(s, h)
  {
    hide ViewBelow, ViewLog, ViewItem;
    LogsSame(s, later, h, s[h].completed);
    ItemsSame(s, later, h, s[h].next);
  }

  /** Nothing of a tree changed: it is seen as it was. */
  lemma {:induction false} ViewStays(s: Slips, later: Slips, h: nat, owned: set<nat>)
    requires Tree(s, h) && Within(s, later, owned) && Owns(s, h) !! owned
    ensures View(later, h) == View(s, h)
    decreases h
  {
    hide View, Leaves;
    assert h in Owns(s, h) && later[h] == s[h];
    var hs := Children(s[h]);
    forall k | k in hs
      ensures ViewBelow(later, h, k) == ViewBelow(s, h, k)
    {
      ChildIsOwned(s, h, hs, k);
      var i :| 0 <= i < |hs| && hs[i] == k;
      forall x | x in Owns(s, k)
        ensures x in Owns(s, h)
      {
        OwnsAllIs(s, h, hs, x);
        assert x in Owns(s, hs[i]);
      }
      ViewStays(s, later, k, owned);
    }
    ViewSame(s, later, h);
  }

  /** Below it, a slip does not matter. */
  lemma {:induction false} ViewIgnores(s: Slips, h: nat, slip: Slip, k: nat)
    requires k < h
    ensures View(s[h := slip], k) == View(s, k)
    decreases k
  {
    if k in s {
      hide View;
      forall x | x in Children(s[k])
        ensures ViewBelow(s[h := slip], k, x) == ViewBelow(s, k, x)
      {
        if x < k {
          ViewIgnores(s, h, slip, x);
        }
      }
      ViewSame(s, s[h := slip], k);
    }
  }

  lemma BelowIgnores(s: Slips, h: nat, slip: Slip, hs: seq<nat>)
    ensures SameBelow(s, s[h := slip], h, hs)
  {
    hide View;
    forall k | k in hs && k < h
      ensures View(s[h := slip], k) == View(s, k)
    {
      ViewIgnores(s, h, slip, k);
    }
  }

  // What is outstanding of a slip is what is left of the tree.

  lemma {:induction false} LeftOfLogsIs(s: Slips, h: nat, logs: seq<Log>)
    requires forall k :: k in LogHandles(logs) && k < h ==> Left(View(s, k)) == Leaves(s, k)
    ensures LeftOfLogs(ViewLogs(s, h, logs)) == LogLeaves(s, h, logs)
    decreases |logs|
  {
    hide View, Leaves, Left, LeavesOfLog, LeftOfLog, ViewLog;
    if logs != [] {
      var n := |logs| - 1;
      LeftOfLogsIs(s, h, logs[..n]);
      LeftOfLogIs(s, h, logs[n]);
      assert ViewLogs(s, h, logs)[..n] == ViewLogs(s, h, logs[..n]);
    }
  }

  lemma LeftOfLogIs(s: Slips, h: nat, log: Log)
    requires forall k :: k in HandlesOfLog(log) && k < h ==> Left(View(s, k)) == Leaves(s, k)
    ensures LeftOfLog(ViewLog(s, h, log)) == LeavesOfLog(s, h, log)
  {
    hide View, Leaves;
    match log
    case LeafDone(_) =>
    case Succeeded(k) => assert k in HandlesOfLog(log);
    case Executed(hs) => LeftOfAllIs(s, h, hs);
  }

  lemma {:induction false} LeftOfAllIs(s: Slips, h: nat, hs: seq<nat>)
    requires forall k :: k in hs && k < h ==> Left(View(s, k)) == Leaves(s, k)
    ensures LeftOfAll(ViewAll(s, h, hs)) == Sum(LeavesOfAll(s, h, hs))
    decreases |hs|
  {
    hide View, Leaves;
    if hs != [] {
      LeftOfAllIs(s, h, hs[1..]);
      assert hs[0] in hs;
      assert ViewAll(s, h, hs)[1..] == ViewAll(s, h, hs[1..]);
      assert LeavesOfAll(s, h, hs)[1..] == LeavesOfAll(s, h, hs[1..]);
    }
  }

  lemma {:induction false} LeftIsLeaves(s: Slips, h: nat)
    ensures Left(View(s, h)) == Leaves(s, h)
    decreases h
  {
    if h in s {
      forall k | k in LogHandles(s[h].completed) && k < h
        ensures Left(View(s, k)) == Leaves(s, k)
      {
        LeftIsLeaves(s, k);
      }
      LeftOfLogsIs(s, h, s[h].completed);
    }
  }

  /** Slips held by the queue of a tree have done nothing. */
  lemma {:induction false} TreeIsFresh(s: Slips, h: nat)
    requires Tree(s, h)
    ensures Fresh(View(s, h).todo)
    decreases h
  {
    var items := s[h].next;
    forall i | 0 <= i < |items|
      ensures AllFresh(ViewAll(s, h, HandlesOfItem(items[i])))
    {
      var hs := HandlesOfItem(items[i]);
      forall j | 0 <= j < |hs|
        ensures ViewBelow(s, h, hs[j]).done == [] && Fresh(ViewBelow(s, h, hs[j]).todo)
      {
        ItemHandlesOfPart(items, i, hs[j]);
        ChildOfLogOrItem(s[h], hs[j]);
        ChildIsOwned(s, h, Children(s[h]), hs[j]);
        TreeIsFresh(s, hs[j]);
      }
    }
    forall i | 0 <= i < |items|
      ensures match View(s, h).todo[i] case DoLeaf(_, _) => true case TryEach(nodes) => AllFresh(nodes) case DoAll(nodes) => AllFresh(nodes)
    {
      assert View(s, h).todo[i] == ViewItem(s, h, items[i]);
      assert AllFresh(ViewAll(s, h, HandlesOfItem(items[i])));
    }
  }
}
