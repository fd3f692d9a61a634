/** Runs of nested slips one event at a time, branches moving in any order: at every moment what
    is outstanding is exactly what completed logs reach, those of slips in flight included. Slips
    are trees of values here, each standing inside the log or the item that holds it. */
module SagaMachine {
  import opened Options
  import opened SagaSlips

  /** A slip: its stack of completed work, and its queue. */
  datatype Node = Node(done: seq<Done>, todo: seq<Todo>)

  datatype Done = OfLeaf(leaf: nat) | OfAlternative(node: Node) | OfBranches(nodes: seq<Node>)

  datatype Todo = DoLeaf(leaf: nat, works: bool) | TryEach(nodes: seq<Node>) | DoAll(nodes: seq<Node>)

  /** A slip being worked on, and the slips that its work runs or undoes apart from it. */
  datatype Flight = Flight(node: Node, mode: Mode, busy: Busy)

  datatype Mode = Ahead | Back | Over(ok: bool)

  datatype Busy = Free | Beside(aim: Aim, flights: seq<Flight>)

  /** What the slips apart are at: one alternative, with the rest to try after it; the branches;
      undoing the branches of which some failed; or undoing a log. */
  datatype Aim = Alternative(rest: seq<Node>) | Branches | Compensation | Reverting

  function Starting(nodes: seq<Node>, mode: Mode): (r: seq<Flight>)
    ensures |r| == |nodes| && forall i :: 0 <= i < |nodes| ==> r[i] == Flight(nodes[i], mode, Free)
  {
    seq(|nodes|, i requires 0 <= i < |nodes| => Flight(nodes[i], mode, Free))
  }

  function NodesOf(flights: seq<Flight>): (r: seq<Node>)
    ensures |r| == |flights| && forall i :: 0 <= i < |flights| ==> r[i] == flights[i].node
  {
    seq(|flights|, i requires 0 <= i < |flights| => flights[i].node)
  }

  /** The next alternative; when there is none, the work has failed. */
  function Trying(node: Node, rest: seq<Node>): Flight {
    if rest == [] then Flight(node, Back, Free)
    else Flight(node, Ahead, Beside(Alternative(rest[1..]), [Flight(rest[0], Ahead, Free)]))
  }

  function WithDone(node: Node, log: Done): Node {
    Node(node.done + [log], node.todo)
  }

  /** A slip's own next step: an item off its queue, or a log off its stack; over, when there is
      none. */
  function OwnStep(f: Flight): (r: (Option<Event>, Flight))
    requires f.busy.Free? && !f.mode.Over?
  {
    if f.mode.Ahead? then
      if f.node.todo == [] then (None, f.(mode := Over(true)))
      else
        var taken := Node(f.node.done, f.node.todo[1..]);
        match f.node.todo[0]
        case DoLeaf(leaf, works) =>
          if works then (Some(Did(leaf)), Flight(WithDone(taken, OfLeaf(leaf)), Ahead, Free)) else (None, Flight(taken, Back, Free))
        case TryEach(nodes) => (None, Trying(taken, nodes))
        case DoAll(nodes) => (None, Flight(taken, Ahead, Beside(Branches, Starting(nodes, Ahead))))
    else
      if f.node.done == [] then (None, f.(mode := Over(false)))
      else
        var popped := Node(f.node.done[..|f.node.done| - 1], f.node.todo);
        match f.node.done[|f.node.done| - 1]
        case OfLeaf(leaf) => (Some(Undid(leaf)), Flight(popped, Back, Free))
        case OfAlternative(node) => (None, Flight(popped, Back, Beside(Reverting, [Flight(node, Back, Free)])))
        case OfBranches(nodes) => (None, Flight(popped, Back, Beside(Reverting, Starting(nodes, Back))))
  }

  predicate AllOver(flights: seq<Flight>) {
    forall i :: 0 <= i < |flights| ==> flights[i].mode.Over?
  }

  predicate AllWell(flights: seq<Flight>) {
    forall i :: 0 <= i < |flights| ==> flights[i].mode == Over(true)
  }

  /** The slips apart have come to their ends. */
  function Rejoined(f: Flight): Flight
    requires f.busy.Beside? && AllOver(f.busy.flights)
  {
    match f.busy.aim
    case Alternative(rest) =>
      if AllWell(f.busy.flights) && f.busy.flights != []
      then Flight(WithDone(f.node, OfAlternative(f.busy.flights[0].node)), Ahead, Free) else Trying(f.node, rest)
    case Branches =>
      if AllWell(f.busy.flights) then Flight(WithDone(f.node, OfBranches(NodesOf(f.busy.flights))), Ahead, Free)
      else f.(busy := Beside(Compensation, Starting(NodesOf(f.busy.flights), Back)))
    case Compensation => Flight(f.node, Back, Free)
    case Reverting => Flight(f.node, Back, Free)
  }

  /** One step, with its event if a leaf was done or undone. */
  ghost predicate Step(f: Flight, e: Option<Event>, g: Flight) {
    if f.busy.Beside? then
      || (AllOver(f.busy.flights) && e == None && g == Rejoined(f))
      || (g == f.(busy := g.busy) && g.busy.Beside? && g.busy.aim == f.busy.aim && StepOfOne(f.busy.flights, e, g.busy.flights))
    else !f.mode.Over? && (e, g) == OwnStep(f)
  }

  /** Any one of them, whichever it is, takes a step. */
  ghost predicate StepOfOne(fs: seq<Flight>, e: Option<Event>, gs: seq<Flight>) {
    exists i :: 0 <= i < |fs| && |gs| == |fs| && gs == fs[i := gs[i]] && Step(fs[i], e, gs[i])
  }

  // Runs.

  ghost predicate Runs(f: Flight, es: seq<Option<Event>>, g: Flight)
    decreases |es|
  {
    if es == [] then f == g else exists m :: Step(f, es[0], m) && Runs(m, es[1..], g)
  }

  function Trace(es: seq<Option<Event>>): seq<Event> {
    if es == [] then [] else (match es[0] case Some(event) => [event] case None => []) + Trace(es[1..])
  }

  /** `t` takes `f` to `g`. */
  ghost predicate Comes(f: Flight, t: seq<Event>, g: Flight) {
    exists es :: Trace(es) == t && Runs(f, es, g)
  }

  lemma {:induction false} TraceJoins(es: seq<Option<Event>>, more: seq<Option<Event>>)
    ensures Trace(es + more) == Trace(es) + Trace(more)
    decreases |es|
  {
    if es == [] {
      assert es + more == more;
    } else {
      assert (es + more)[0] == es[0] && (es + more)[1..] == es[1..] + more;
      TraceJoins(es[1..], more);
    }
  }

  lemma {:induction false} RunsOn(f: Flight, es: seq<Option<Event>>, m: Flight, more: seq<Option<Event>>, g: Flight)
    requires Runs(f, es, m) && Runs(m, more, g)
    ensures Runs(f, es + more, g)
    decreases |es|
  {
    if es == [] {
      assert es + more == more;
    } else {
      var x :| Step(f, es[0], x) && Runs(x, es[1..], m);
      RunsOn(x, es[1..], m, more, g);
      assert (es + more)[0] == es[0] && (es + more)[1..] == es[1..] + more;
    }
  }

  lemma ComesOn(f: Flight, t: seq<Event>, m: Flight, u: seq<Event>, g: Flight)
    requires Comes(f, t, m) && Comes(m, u, g)
    ensures Comes(f, t + u, g)
  {
    hide Runs;
    var es :| Trace(es) == t && Runs(f, es, m);
    var more :| Trace(more) == u && Runs(m, more, g);
    TraceJoins(es, more);
    RunsOn(f, es, m, more, g);
  }

  lemma ComesNowhere(f: Flight)
    ensures Comes(f, [], f)
  {
    assert Trace([]) == [] && Runs(f, [], f);
  }

  function Seen(e: Option<Event>): seq<Event> {
    match e case Some(event) => [event] case None => []
  }

  lemma ComesByOne(f: Flight, e: Option<Event>, g: Flight)
    requires Step(f, e, g)
    ensures Comes(f, Seen(e), g)
  {
    var es := [e];
    assert es[1..] == [] && Runs(g, es[1..], g);
    assert Trace(es) == Seen(e) + Trace(es[1..]);
    assert Runs(f, es, g);
  }

  // What completed logs reach.

  function Left(node: Node): multiset<nat> {
    LeftOfLogs(node.done)
  }

  function LeftOfLogs(logs: seq<Done>): multiset<nat> {
    if logs == [] then multiset{} else LeftOfLogs(logs[..|logs| - 1]) + LeftOfLog(logs[|logs| - 1])
  }

  function LeftOfLog(log: Done): multiset<nat> {
    match log
    case OfLeaf(leaf) => multiset{leaf}
    case OfAlternative(node) => Left(node)
    case OfBranches(nodes) => LeftOfAll(nodes)
  }

  function LeftOfAll(nodes: seq<Node>): multiset<nat> {
    if nodes == [] then multiset{} else Left(nodes[0]) + LeftOfAll(nodes[1..])
  }

  /** What the completed logs of a slip, and of every slip in flight apart from it, reach. */
  function Reach(f: Flight): multiset<nat> {
    Left(f.node) + if f.busy.Beside? then ReachOfAll(f.busy.flights) else multiset{}
  }

  function ReachOfAll(flights: seq<Flight>): multiset<nat> {
    if flights == [] then multiset{} else Reach(flights[0]) + ReachOfAll(flights[1..])
  }

  // What flights always are.

  /** Slips not run yet have completed nothing. */
  predicate Fresh(todo: seq<Todo>) {
    forall i :: 0 <= i < |todo| ==>
      match todo[i]
      case DoLeaf(_, _) => true
      case TryEach(nodes) => AllFresh(nodes)
      case DoAll(nodes) => AllFresh(nodes)
  }

  predicate AllFresh(nodes: seq<Node>) {
    forall i :: 0 <= i < |nodes| ==> nodes[i].done == [] && Fresh(nodes[i].todo)
  }

  /** A slip that failed has nothing left on its stack; the slips that are undone go back only. */
  predicate Sound(f: Flight) {
    && (f.mode == Over(false) ==> f.node.done == [])
    && (f.mode.Ahead? ==> Fresh(f.node.todo))
    && (f.busy.Beside? ==>
          && !f.mode.Over? && AllSound(f.busy.flights)
          && match f.busy.aim
             case Alternative(rest) => f.mode.Ahead? && |f.busy.flights| == 1 && AllFresh(rest)
             case Branches => f.mode.Ahead?
             case Compensation => f.mode.Ahead? && AllBack(f.busy.flights)
             case Reverting => f.mode.Back? && AllBack(f.busy.flights))
  }

  predicate AllSound(flights: seq<Flight>) {
    forall i :: 0 <= i < |flights| ==> Sound(flights[i])
  }

  predicate AllBack(flights: seq<Flight>) {
    forall i :: 0 <= i < |flights| ==> flights[i].mode.Back? || flights[i].mode == Over(false)
  }

  /** The event, if any, changes what is outstanding to what is reached. */
  ghost predicate Accounts(before: multiset<nat>, e: Option<Event>, after: multiset<nat>) {
    match e
    case None => after == before
    case Some(event) => (event.Undid? ==> event.leaf in before) && after == Applied(before, event)
  }

  lemma {:induction false} ReachOfOne(fs: seq<Flight>, i: nat, g: Flight)
    requires i < |fs|
    ensures Reach(fs[i]) <= ReachOfAll(fs) && ReachOfAll(fs[i := g]) == ReachOfAll(fs) - Reach(fs[i]) + Reach(g)
    decreases |fs|
  {
    hide Reach;
    if i == 0 {
      assert fs[0 := g][1..] == fs[1..];
    } else {
      ReachOfOne(fs[1..], i - 1, g);
      assert fs[i := g][1..] == fs[1..][i - 1 := g];
    }
  }

  lemma {:induction false} ReachOfStarting(nodes: seq<Node>, mode: Mode)
    ensures ReachOfAll(Starting(nodes, mode)) == LeftOfAll(nodes)
    decreases |nodes|
  {
    if nodes != [] {
      ReachOfStarting(nodes[1..], mode);
      assert Starting(nodes, mode)[1..] == Starting(nodes[1..], mode);
      assert Reach(Starting(nodes, mode)[0]) == Left(nodes[0]) + multiset{};
    }
  }

  lemma NothingLeft(node: Node)
    requires node.done == []
    ensures Left(node) == multiset{}
  {
  }

  lemma {:induction false} LeftOfFresh(nodes: seq<Node>)
    requires AllFresh(nodes)
    ensures LeftOfAll(nodes) == multiset{}
    decreases |nodes|
  {
    if nodes != [] {
      LeftOfFresh(nodes[1..]);
      NothingLeft(nodes[0]);
    }
  }

  /** Of slips at their ends their own logs are what is reached. */
  lemma {:induction false} ReachOfOver(flights: seq<Flight>)
    requires AllOver(flights) && AllSound(flights)
    ensures ReachOfAll(flights) == LeftOfAll(NodesOf(flights))
    decreases |flights|
  {
    if flights != [] {
      ReachOfOver(flights[1..]);
      assert NodesOf(flights)[1..] == NodesOf(flights[1..]);
      assert flights[0].busy.Free?;
      assert Reach(flights[0]) == Left(flights[0].node) + multiset{};
    }
  }

  lemma {:induction false} ReachOfUndone(flights: seq<Flight>)
    requires AllOver(flights) && AllSound(flights) && AllBack(flights)
    ensures ReachOfAll(flights) == multiset{}
    decreases |flights|
  {
    if flights != [] {
      ReachOfUndone(flights[1..]);
      assert flights[0].busy.Free? && flights[0].node.done == [];
      NothingLeft(flights[0].node);
    }
  }

  lemma LeftOfPushed(node: Node, log: Done)
    ensures Left(WithDone(node, log)) == Left(node) + LeftOfLog(log)
  {
    assert (node.done + [log])[..|node.done|] == node.done;
  }

  lemma TryingReaches(node: Node, rest: seq<Node>)
    requires AllFresh(rest) && Fresh(node.todo)
    ensures Sound(Trying(node, rest)) && Reach(Trying(node, rest)) == Left(node)
  {
    if rest != [] {
      var first := Flight(rest[0], Ahead, Free);
      NothingLeft(rest[0]);
      assert Reach(first) == multiset{};
      assert [first][1..] == [];
      assert ReachOfAll([first]) == Reach(first) + multiset{};
    }
  }

  lemma AheadStepAccounts(f: Flight)
    requires Sound(f) && f.busy.Free? && f.mode.Ahead?
    ensures var (e, g) := OwnStep(f); Sound(g) && Accounts(Reach(f), e, Reach(g))
  {
    if f.node.todo != [] {
      var taken := Node(f.node.done, f.node.todo[1..]);
      assert Fresh(taken.todo);
      match f.node.todo[0]
      case DoLeaf(leaf, works) => LeftOfPushed(taken, OfLeaf(leaf));
      case TryEach(nodes) => TryingReaches(taken, nodes);
      case DoAll(nodes) =>
        ReachOfStarting(nodes, Ahead);
        LeftOfFresh(nodes);
    }
  }

  lemma ReachOfFree(f: Flight)
    requires f.busy.Free?
    ensures Reach(f) == Left(f.node)
  {
    hide Left;
  }

  lemma ReachOfApart(f: Flight)
    requires f.busy.Beside?
    ensures Reach(f) == Left(f.node) + ReachOfAll(f.busy.flights)
  {
    hide Left, ReachOfAll;
  }

  lemma PoppedReaches(node: Node, popped: Node, log: Done)
    requires node == WithDone(popped, log) && !log.OfLeaf?
    ensures var flights := Starting(if log.OfAlternative? then [log.node] else log.nodes, Back);
            Sound(Flight(popped, Back, Beside(Reverting, flights))) && Left(node) == Left(popped) + ReachOfAll(flights)
  {
    hide Left;
    LeftOfPushed(popped, log);
    if log.OfAlternative? {
      ReachOfStarting([log.node], Back);
      assert [log.node][1..] == [];
      assert LeftOfAll([log.node]) == Left(log.node) + multiset{};
      assert AllSound(Starting([log.node], Back)) && AllBack(Starting([log.node], Back));
    } else {
      ReachOfStarting(log.nodes, Back);
      assert LeftOfLog(log) == LeftOfAll(log.nodes);
      assert AllSound(Starting(log.nodes, Back)) && AllBack(Starting(log.nodes, Back));
    }
  }

  lemma LeafPopped(popped: Node, leaf: nat)
    ensures var reach := Left(WithDone(popped, OfLeaf(leaf)));
            Accounts(reach, Some(Undid(leaf)), Reach(Flight(popped, Back, Free)))
  {
    hide Left, Reach;
    LeftOfPushed(popped, OfLeaf(leaf));
    ReachOfFree(Flight(popped, Back, Free));
    assert Left(popped) + multiset{leaf} - multiset{leaf} == Left(popped);
  }

  lemma SlipsPopped(popped: Node, log: Done)
    requires !log.OfLeaf?
    ensures var g := Flight(popped, Back, Beside(Reverting, Starting(if log.OfAlternative? then [log.node] else log.nodes, Back)));
            Sound(g) && Reach(g) == Left(WithDone(popped, log))
  {
    hide Left, ReachOfAll, Sound, Reach;
    PoppedReaches(WithDone(popped, log), popped, log);
    ReachOfApart(Flight(popped, Back, Beside(Reverting, Starting(if log.OfAlternative? then [log.node] else log.nodes, Back))));
  }

  lemma BackStepAccounts(f: Flight)
    requires Sound(f) && f.busy.Free? && f.mode.Back?
    ensures var (e, g) := OwnStep(f); Sound(g) && Accounts(Reach(f), e, Reach(g))
  {
    hide Reach, Left, ReachOfAll, Fresh;
    ReachOfFree(f);
    if f.node.done != [] {
      var n := |f.node.done| - 1;
      var popped, log := Node(f.node.done[..n], f.node.todo), f.node.done[n];
      assert f.node == WithDone(popped, log);
      if log.OfLeaf? {
        LeafPopped(popped, log.leaf);
      } else {
        SlipsPopped(popped, log);
        assert log.OfAlternative? ==> Starting([log.node], Back) == [Flight(log.node, Back, Free)];
      }
    } else {
      ReachOfFree(f.(mode := Over(false)));
    }
  }

  lemma RejoinedAccounts(f: Flight)
    requires Sound(f) && f.busy.Beside? && AllOver(f.busy.flights)
    ensures Sound(Rejoined(f)) && Reach(Rejoined(f)) == Reach(f)
  {
    var fs := f.busy.flights;
    ReachOfOver(fs);
    match f.busy.aim
    case Alternative(rest) =>
      assert NodesOf(fs)[1..] == [];
      if AllWell(fs) {
        LeftOfPushed(f.node, OfAlternative(fs[0].node));
      } else {
        ReachOfUndone(fs);
        TryingReaches(f.node, rest);
      }
    case Branches =>
      if AllWell(fs) {
        LeftOfPushed(f.node, OfBranches(NodesOf(fs)));
      } else {
        ReachOfStarting(NodesOf(fs), Back);
      }
    case Compensation => ReachOfUndone(fs);
    case Reverting => ReachOfUndone(fs);
  }

  /** What is going back goes back. */
  lemma BackStays(f: Flight, e: Option<Event>, g: Flight)
    requires Sound(f) && Step(f, e, g) && (f.mode.Back? || f.mode == Over(false))
    ensures g.mode.Back? || g.mode == Over(false)
  {
  }

  lemma AccountsBeside(before: multiset<nat>, e: Option<Event>, after: multiset<nat>, all: multiset<nat>)
    requires Accounts(before, e, after) && before <= all
    ensures Accounts(all, e, all - before + after)
  {
    match e
    case None => assert all - before + before == all;
    case Some(Did(leaf)) => assert all - before + (before + multiset{leaf}) == all + multiset{leaf};
    case Some(Undid(leaf)) => assert all - before + (before - multiset{leaf}) == all - multiset{leaf};
  }

  lemma OneOfThemAccounts(f: Flight, g: Flight, i: nat, e: Option<Event>)
    requires Sound(f) && f.busy.Beside? && i < |f.busy.flights|
    requires g.busy.Beside? && |g.busy.flights| == |f.busy.flights|
    requires g == f.(busy := Beside(f.busy.aim, f.busy.flights[i := g.busy.flights[i]]))
    requires Step(f.busy.flights[i], e, g.busy.flights[i])
    requires Sound(g.busy.flights[i]) && Accounts(Reach(f.busy.flights[i]), e, Reach(g.busy.flights[i]))
    ensures Sound(g) && Accounts(Reach(f), e, Reach(g))
  {
    hide Reach, Left, ReachOfAll, Fresh, Accounts, Step;
    var fs, gs := f.busy.flights, g.busy.flights;
    if AllBack(fs) {
      BackStays(fs[i], e, gs[i]);
    }
    ReachOfOne(fs, i, gs[i]);
    AccountsBeside(Reach(fs[i]), e, Reach(gs[i]), ReachOfAll(fs));
    ReachOfApart(f);
    ReachOfApart(g);
    AccountsBeside(ReachOfAll(fs), e, ReachOfAll(gs), Reach(f));
    assert Reach(f) - ReachOfAll(fs) + ReachOfAll(gs) == Reach(g);
  }

  /** A step keeps flights sound, and leaves reached exactly what its event leaves outstanding. */
  lemma {:induction false} StepAccounts(f: Flight, e: Option<Event>, g: Flight)
    requires Sound(f) && Step(f, e, g)
    ensures Sound(g) && Accounts(Reach(f), e, Reach(g))
    decreases f
  {
    hide Reach, Accounts, Sound, OwnStep, Rejoined;
    if f.busy.Free? {
      if f.mode.Ahead? {
        AheadStepAccounts(f);
      } else {
        BackStepAccounts(f);
      }
    } else if AllOver(f.busy.flights) && e == None && g == Rejoined(f) {
      RejoinedAccounts(f);
      NoEvent(Reach(f));
    } else {
      var fs, gs := f.busy.flights, g.busy.flights;
      var i :| 0 <= i < |fs| && |gs| == |fs| && gs == fs[i := gs[i]] && Step(fs[i], e, gs[i]);
      ApartIsSound(f, i);
      StepAccounts(fs[i], e, gs[i]);
      OneOfThemAccounts(f, g, i, e);
    }
  }

  lemma NoEvent(reach: multiset<nat>)
    ensures Accounts(reach, None, reach)
  {
  }

  lemma ApartIsSound(f: Flight, i: nat)
    requires Sound(f) && f.busy.Beside? && i < |f.busy.flights|
    ensures Sound(f.busy.flights[i])
  {
  }

  /** Over every run what is outstanding is exactly what completed logs reach. */
  lemma {:induction false} RunAccounts(f: Flight, es: seq<Option<Event>>, g: Flight)
    requires Sound(f) && Runs(f, es, g)
    ensures Sound(g) && Effect(Reach(f), Trace(es)) == Some(Reach(g))
    decreases |es|
  {
    if es != [] {
      hide Step, Sound, Reach, Effect;
      var m :| Step(f, es[0], m) && Runs(m, es[1..], g);
      StepAccounts(f, es[0], m);
      RunAccounts(m, es[1..], g);
      if es[0].Some? {
        assert Trace(es) == [es[0].value] + Trace(es[1..]);
        EffectFromFirst(Reach(f), Trace(es));
        assert Trace(es)[1..] == Trace(es[1..]);
      } else {
        assert Trace(es) == Trace(es[1..]);
      }
    }
  }

  /** A run stopped after any of its events. */
  lemma {:induction false} RunStopped(f: Flight, es: seq<Option<Event>>, g: Flight, k: nat) returns (n: nat, m: Flight)
    requires Runs(f, es, g) && k <= |Trace(es)|
    ensures n <= |es| && Runs(f, es[..n], m) && Trace(es[..n]) == Trace(es)[..k]
    decreases |es|
  {
    if k == 0 {
      n, m := 0, f;
    } else {
      var x :| Step(f, es[0], x) && Runs(x, es[1..], g);
      var n', m' := RunStopped(x, es[1..], g, k - |Seen(es[0])|);
      n, m := n' + 1, m';
      assert es[..n][1..] == es[1..][..n'];
      assert Trace(es) == Seen(es[0]) + Trace(es[1..]);
    }
  }

  /** At every moment: after any of its events a run is at a moment whose completed logs reach
      exactly what is outstanding. */
  lemma AtEveryMoment(f: Flight, t: seq<Event>, g: Flight, k: nat) returns (m: Flight)
    requires Sound(f) && Comes(f, t, g) && k <= |t|
    ensures Comes(f, t[..k], m) && Sound(m) && Effect(Reach(f), t[..k]) == Some(Reach(m))
  {
    var es :| Trace(es) == t && Runs(f, es, g);
    var n, at := RunStopped(f, es, g, k);
    m := at;
    RunAccounts(f, es[..n], m);
  }
}
