/** How runs of the machine are put together: branches that move each on its own move together in
    any interleaving, and so a piece of work comes to its log, or to nothing. */
module SagaMoves {
  import opened Options
  import opened SagaSlips
  import opened SagaMachine

  // Flights moving together.

  ghost predicate RunTogether(fs: seq<Flight>, es: seq<Option<Event>>, gs: seq<Flight>)
    decreases |es|
  {
    if es == [] then fs == gs else exists ms :: StepOfOne(fs, es[0], ms) && RunTogether(ms, es[1..], gs)
  }

  ghost predicate ComeTogether(fs: seq<Flight>, t: seq<Event>, gs: seq<Flight>) {
    exists es :: Trace(es) == t && RunTogether(fs, es, gs)
  }

  lemma TogetherByOne(fs: seq<Flight>, i: nat, e: Option<Event>, m: Flight, t: seq<Event>, gs: seq<Flight>)
    requires i < |fs| && Step(fs[i], e, m) && ComeTogether(fs[i := m], t, gs)
    ensures ComeTogether(fs, Seen(e) + t, gs)
  {
    hide Step;
    var es :| Trace(es) == t && RunTogether(fs[i := m], es, gs);
    assert fs[i := m][i] == m;
    assert StepOfOne(fs, e, fs[i := m]);
    var all := [e] + es;
    assert all[0] == e && all[1..] == es;
    assert Trace(all) == Seen(e) + t;
    assert RunTogether(fs, all, gs);
  }

  function Traces(ess: seq<seq<Option<Event>>>): (r: seq<seq<Event>>)
    ensures |r| == |ess| && forall i :: 0 <= i < |ess| ==> r[i] == Trace(ess[i])
  {
    seq(|ess|, i requires 0 <= i < |ess| => Trace(ess[i]))
  }

  function Length(ess: seq<seq<Option<Event>>>): nat {
    if ess == [] then 0 else |ess[0]| + Length(ess[1..])
  }

  lemma {:induction false} LengthTaken(ess: seq<seq<Option<Event>>>, i: nat)
    requires i < |ess| && ess[i] != []
    ensures Length(ess[i := ess[i][1..]]) < Length(ess)
    decreases |ess|
  {
    if i == 0 {
      assert ess[0 := ess[0][1..]][1..] == ess[1..];
    } else {
      LengthTaken(ess[1..], i - 1);
      assert ess[i := ess[i][1..]][1..] == ess[1..][i - 1 := ess[i][1..]];
    }
  }

  ghost predicate RunApart(fs: seq<Flight>, ess: seq<seq<Option<Event>>>, gs: seq<Flight>) {
    |fs| == |ess| == |gs| && forall i :: 0 <= i < |fs| ==> Runs(fs[i], ess[i], gs[i])
  }

  lemma FirstStep(fs: seq<Flight>, ess: seq<seq<Option<Event>>>, gs: seq<Flight>, i: nat) returns (m: Flight)
    requires RunApart(fs, ess, gs) && i < |fs| && ess[i] != []
    ensures Step(fs[i], ess[i][0], m) && RunApart(fs[i := m], ess[i := ess[i][1..]], gs)
  {
    hide Step;
    m :| Step(fs[i], ess[i][0], m) && Runs(m, ess[i][1..], gs[i]);
  }

  /** Each by its own run, and in any interleaving of their events. */
  lemma {:induction false} Interleaved(fs: seq<Flight>, ess: seq<seq<Option<Event>>>, gs: seq<Flight>, t: seq<Event>)
    requires RunApart(fs, ess, gs) && IsShuffle(Traces(ess), t)
    ensures ComeTogether(fs, t, gs)
    decreases Length(ess)
  {
    hide Step, Runs, StepOfOne, ComeTogether, RunApart, Length;
    assert |ess| == |fs| by {
      assert RunApart(fs, ess, gs);
      AsMany(fs, ess, gs);
    }
    if i :| 0 <= i < |ess| && ess[i] != [] && ess[i][0] == None {
      var m := FirstStep(fs, ess, gs, i);
      LengthTaken(ess, i);
      assert Trace(ess[i]) == Trace(ess[i][1..]);
      assert Traces(ess[i := ess[i][1..]]) == Traces(ess);
      Interleaved(fs[i := m], ess[i := ess[i][1..]], gs, t);
      TogetherByOne(fs, i, None, m, t, gs);
      assert Seen(None) + t == t;
    } else if t == [] {
      forall i | 0 <= i < |ess|
        ensures ess[i] == []
      {
        assert Traces(ess)[i] == [];
      }
      NoneMoved(fs, ess, gs);
    } else {
      var parts := Traces(ess);
      var i :| 0 <= i < |parts| && parts[i] != [] && parts[i][0] == t[0] && IsShuffle(parts[i := parts[i][1..]], t[1..]);
      assert parts[i] == Trace(ess[i]) && ess[i] != [];
      var m := FirstStep(fs, ess, gs, i);
      LengthTaken(ess, i);
      assert Traces(ess[i := ess[i][1..]]) == parts[i := parts[i][1..]];
      Interleaved(fs[i := m], ess[i := ess[i][1..]], gs, t[1..]);
      TogetherByOne(fs, i, Some(t[0]), m, t[1..], gs);
      assert Seen(Some(t[0])) + t[1..] == t;
    }
  }

  lemma AsMany(fs: seq<Flight>, ess: seq<seq<Option<Event>>>, gs: seq<Flight>)
    requires RunApart(fs, ess, gs)
    ensures |ess| == |fs| == |gs|
  {
  }

  lemma NoneMoved(fs: seq<Flight>, ess: seq<seq<Option<Event>>>, gs: seq<Flight>)
    requires RunApart(fs, ess, gs) && forall i :: 0 <= i < |ess| ==> ess[i] == []
    ensures ComeTogether(fs, [], gs)
  {
    hide Step;
    forall i | 0 <= i < |fs|
      ensures fs[i] == gs[i]
    {
      assert Runs(fs[i], ess[i], gs[i]);
    }
    assert fs == gs;
    assert Trace([]) == [] && RunTogether(fs, [], gs);
  }

  ghost predicate ComeApart(fs: seq<Flight>, parts: seq<seq<Event>>, gs: seq<Flight>) {
    |fs| == |parts| == |gs| && forall i :: 0 <= i < |fs| ==> Comes(fs[i], parts[i], gs[i])
  }

  lemma {:induction false} TheirRuns(fs: seq<Flight>, parts: seq<seq<Event>>, gs: seq<Flight>) returns (ess: seq<seq<Option<Event>>>)
    requires ComeApart(fs, parts, gs)
    ensures RunApart(fs, ess, gs) && Traces(ess) == parts
    decreases |fs|
  {
    hide Step, Runs, Trace;
    if fs == [] {
      ess := [];
    } else {
      assert Comes(fs[0], parts[0], gs[0]);
      var es :| Trace(es) == parts[0] && Runs(fs[0], es, gs[0]);
      assert ComeApart(fs[1..], parts[1..], gs[1..]);
      var rest := TheirRuns(fs[1..], parts[1..], gs[1..]);
      ess := [es] + rest;
      forall i | 0 < i < |fs|
        ensures Runs(fs[i], ess[i], gs[i]) && Trace(ess[i]) == parts[i]
      {
        assert fs[1..][i - 1] == fs[i] && gs[1..][i - 1] == gs[i] && Traces(rest)[i - 1] == parts[1..][i - 1];
      }
    }
  }

  /** Branches that come each to its end come there in any interleaving. */
  lemma BranchesComeTogether(fs: seq<Flight>, parts: seq<seq<Event>>, gs: seq<Flight>, t: seq<Event>)
    requires ComeApart(fs, parts, gs) && IsShuffle(parts, t)
    ensures ComeTogether(fs, t, gs)
  {
    hide ComeApart, RunApart, IsShuffle, ComeTogether;
    var ess := TheirRuns(fs, parts, gs);
    Interleaved(fs, ess, gs, t);
  }

  /** While slips in flight move, the slip they left stays as it is. */
  lemma {:induction false} ApartRuns(f: Flight, es: seq<Option<Event>>, gs: seq<Flight>)
    requires f.busy.Beside? && RunTogether(f.busy.flights, es, gs)
    ensures Runs(f, es, f.(busy := Beside(f.busy.aim, gs)))
    decreases |es|
  {
    hide StepOfOne, Rejoined;
    if es != [] {
      var ms :| StepOfOne(f.busy.flights, es[0], ms) && RunTogether(ms, es[1..], gs);
      var m := f.(busy := Beside(f.busy.aim, ms));
      ApartRuns(m, es[1..], gs);
      assert Step(f, es[0], m);
    }
  }

  lemma ApartComes(f: Flight, t: seq<Event>, gs: seq<Flight>)
    requires f.busy.Beside? && ComeTogether(f.busy.flights, t, gs)
    ensures Comes(f, t, f.(busy := Beside(f.busy.aim, gs)))
  {
    hide RunTogether, Runs;
    var es :| Trace(es) == t && RunTogether(f.busy.flights, es, gs);
    ApartRuns(f, es, gs);
  }

  lemma OneComesTogether(f: Flight, t: seq<Event>, g: Flight)
    requires Comes(f, t, g)
    ensures ComeTogether([f], t, [g])
  {
    hide Comes, IsShuffle, ComeTogether;
    OnePart(t);
    BranchesComeTogether([f], [t], [g], t);
  }

  lemma {:induction false} OnePart(t: seq<Event>)
    ensures IsShuffle([t], t)
    decreases |t|
  {
    if t != [] {
      OnePart(t[1..]);
      assert [t][0 := t[1..]] == [t[1..]];
      assert [t][0][0] == t[0];
    }
  }

  lemma ComesOver(f: Flight, t: seq<Event>, m: Flight, g: Flight)
    requires Comes(f, t, m) && Step(m, None, g)
    ensures Comes(f, t, g)
  {
    hide Comes, Step;
    ComesByOne(m, None, g);
    ComesOn(f, t, m, [], g);
    assert t + [] == t;
  }

  lemma ComesAfter(f: Flight, m: Flight, t: seq<Event>, g: Flight)
    requires Step(f, None, m) && Comes(m, t, g)
    ensures Comes(f, t, g)
  {
    hide Comes, Step;
    ComesByOne(f, None, m);
    ComesOn(f, [], m, t, g);
    assert [] + t == t;
  }

  // The last log, popped and undone.

  /** `t` undoes a log: a leaf's work; or the slips of it, each to the bottom of its stack. */
  ghost predicate LogComes(log: Done, t: seq<Event>) {
    match log
    case OfLeaf(leaf) => t == [Undid(leaf)]
    case OfAlternative(node) => AllGoBack([node], t)
    case OfBranches(nodes) => AllGoBack(nodes, t)
  }

  ghost predicate AllGoBack(nodes: seq<Node>, t: seq<Event>) {
    exists gs :: ComeTogether(Starting(nodes, Back), t, gs) && AllOver(gs)
  }

  lemma PoppedComes(node: Node, log: Done, t: seq<Event>)
    requires LogComes(log, t)
    ensures Comes(Flight(WithDone(node, log), Back, Free), t, Flight(node, Back, Free))
  {
    hide ComeTogether, Comes;
    var f := Flight(WithDone(node, log), Back, Free);
    assert (node.done + [log])[..|node.done|] == node.done;
    if log.OfLeaf? {
      ComesByOne(f, Some(t[0]), Flight(node, Back, Free));
    } else {
      var nodes := if log.OfAlternative? then [log.node] else log.nodes;
      var gs :| ComeTogether(Starting(nodes, Back), t, gs) && AllOver(gs);
      var apart := Flight(node, Back, Beside(Reverting, Starting(nodes, Back)));
      assert log.OfAlternative? ==> Starting(nodes, Back) == [Flight(log.node, Back, Free)];
      ApartComes(apart, t, gs);
      ComesOver(apart, t, apart.(busy := Beside(Reverting, gs)), Flight(node, Back, Free));
      ComesAfter(f, apart, t, Flight(node, Back, Free));
    }
  }

  // The next item, taken and done.

  /** A slip before its next item is taken. */
  function Before(node: Node, item: Todo): Node {
    Node(node.done, [item] + node.todo)
  }

  /** A slip after: with the work's log; or going back, when the work has failed. */
  function Returned(node: Node, log: Option<Done>): Flight {
    match log case Some(l) => Flight(WithDone(node, l), Ahead, Free) case None => Flight(node, Back, Free)
  }

  ghost predicate ItemComes(item: Todo, t: seq<Event>, log: Option<Done>) {
    forall node :: Comes(Flight(Before(node, item), Ahead, Free), t, Returned(node, log))
  }

  lemma LeafComes(leaf: nat, works: bool)
    ensures ItemComes(DoLeaf(leaf, works), if works then [Did(leaf)] else [], if works then Some(OfLeaf(leaf)) else None)
  {
    var item, log, e := DoLeaf(leaf, works), if works then Some(OfLeaf(leaf)) else None, if works then Some(Did(leaf)) else None;
    forall node
      ensures Comes(Flight(Before(node, item), Ahead, Free), Seen(e), Returned(node, log))
    {
      assert ([item] + node.todo)[1..] == node.todo;
      ComesByOne(Flight(Before(node, item), Ahead, Free), e, Returned(node, log));
    }
  }

  /** The alternatives before the `i`th were tried by `t`, and have failed. */
  ghost predicate TriesCome(nodes: seq<Node>, i: nat, t: seq<Event>) {
    i <= |nodes| && forall node :: Comes(Trying(node, nodes), t, Trying(node, nodes[i..]))
  }

  lemma NothingTried(nodes: seq<Node>)
    ensures TriesCome(nodes, 0, [])
  {
    hide Comes, Trying;
    assert nodes[0..] == nodes;
    forall node
      ensures Comes(Trying(node, nodes), [], Trying(node, nodes[0..]))
    {
      ComesNowhere(Trying(node, nodes));
    }
  }

  /** One alternative, run to its end. */
  lemma TriedOne(node: Node, rest: seq<Node>, t: seq<Event>, g: Flight)
    requires rest != [] && Comes(Flight(rest[0], Ahead, Free), t, g) && g.mode.Over?
    ensures Comes(Trying(node, rest), t,
                  if g.mode.ok then Flight(WithDone(node, OfAlternative(g.node)), Ahead, Free) else Trying(node, rest[1..]))
  {
    hide Comes;
    var f := Trying(node, rest);
    OneComesTogether(Flight(rest[0], Ahead, Free), t, g);
    ApartComes(f, t, [g]);
    var over := f.(busy := Beside(f.busy.aim, [g]));
    assert AllWell([g]) <==> [g][0].mode.ok;
    ComesOver(f, t, over, Rejoined(over));
  }

  lemma NextFails(nodes: seq<Node>, i: nat, t: seq<Event>, u: seq<Event>, g: Flight)
    requires TriesCome(nodes, i, t) && i < |nodes| && Comes(Flight(nodes[i], Ahead, Free), u, g) && g.mode == Over(false)
    ensures TriesCome(nodes, i + 1, t + u)
  {
    hide Comes, Trying;
    assert nodes[i..][1..] == nodes[i + 1..];
    forall node
      ensures Comes(Trying(node, nodes), t + u, Trying(node, nodes[i + 1..]))
    {
      TriedOne(node, nodes[i..], u, g);
      ComesOn(Trying(node, nodes), t, Trying(node, nodes[i..]), u, Trying(node, nodes[i + 1..]));
    }
  }

  lemma TakenToTry(node: Node, nodes: seq<Node>)
    ensures Step(Flight(Before(node, TryEach(nodes)), Ahead, Free), None, Trying(node, nodes))
  {
    assert ([TryEach(nodes)] + node.todo)[1..] == node.todo;
  }

  lemma NextSucceeds(nodes: seq<Node>, i: nat, t: seq<Event>, u: seq<Event>, g: Flight)
    requires TriesCome(nodes, i, t) && i < |nodes| && Comes(Flight(nodes[i], Ahead, Free), u, g) && g.mode == Over(true)
    ensures ItemComes(TryEach(nodes), t + u, Some(OfAlternative(g.node)))
  {
    hide Comes, Trying, Step;
    forall node
      ensures Comes(Flight(Before(node, TryEach(nodes)), Ahead, Free), t + u, Returned(node, Some(OfAlternative(g.node))))
    {
      TriedOne(node, nodes[i..], u, g);
      ComesOn(Trying(node, nodes), t, Trying(node, nodes[i..]), u, Returned(node, Some(OfAlternative(g.node))));
      TakenToTry(node, nodes);
      ComesAfter(Flight(Before(node, TryEach(nodes)), Ahead, Free), Trying(node, nodes), t + u,
                 Returned(node, Some(OfAlternative(g.node))));
    }
  }

  lemma NoneSucceeds(nodes: seq<Node>, t: seq<Event>)
    requires TriesCome(nodes, |nodes|, t)
    ensures ItemComes(TryEach(nodes), t, None)
  {
    hide Comes, Step;
    assert nodes[|nodes|..] == [];
    forall node
      ensures Comes(Flight(Before(node, TryEach(nodes)), Ahead, Free), t, Returned(node, None))
    {
      TakenToTry(node, nodes);
      assert Comes(Trying(node, nodes), t, Trying(node, nodes[|nodes|..]));
      ComesAfter(Flight(Before(node, TryEach(nodes)), Ahead, Free), Trying(node, nodes), t, Flight(node, Back, Free));
    }
  }

  /** The branches, run to their ends at once. */
  lemma BranchesEnd(node: Node, nodes: seq<Node>, parts: seq<seq<Event>>, gs: seq<Flight>, t: seq<Event>)
    requires ComeApart(Starting(nodes, Ahead), parts, gs) && IsShuffle(parts, t) && AllOver(gs)
    ensures var f := Flight(node, Ahead, Beside(Branches, gs));
            && Comes(Flight(Before(node, DoAll(nodes)), Ahead, Free), t, f)
            && Comes(Flight(Before(node, DoAll(nodes)), Ahead, Free), t, Rejoined(f))
  {
    hide Comes, ComeApart, ComeTogether, IsShuffle, Rejoined;
    var f := Flight(node, Ahead, Beside(Branches, Starting(nodes, Ahead)));
    BranchesComeTogether(Starting(nodes, Ahead), parts, gs, t);
    ApartComes(f, t, gs);
    assert ([DoAll(nodes)] + node.todo)[1..] == node.todo;
    ComesAfter(Flight(Before(node, DoAll(nodes)), Ahead, Free), f, t, Flight(node, Ahead, Beside(Branches, gs)));
    ComesOver(Flight(Before(node, DoAll(nodes)), Ahead, Free), t, Flight(node, Ahead, Beside(Branches, gs)),
              Rejoined(Flight(node, Ahead, Beside(Branches, gs))));
  }

  lemma BranchesSucceed(nodes: seq<Node>, parts: seq<seq<Event>>, gs: seq<Flight>, t: seq<Event>)
    requires ComeApart(Starting(nodes, Ahead), parts, gs) && IsShuffle(parts, t) && AllWell(gs)
    ensures ItemComes(DoAll(nodes), t, Some(OfBranches(NodesOf(gs))))
  {
    hide Comes, ComeApart, IsShuffle;
    forall node
      ensures Comes(Flight(Before(node, DoAll(nodes)), Ahead, Free), t, Returned(node, Some(OfBranches(NodesOf(gs)))))
    {
      BranchesEnd(node, nodes, parts, gs, t);
    }
  }

  /** Some branch failed: all of them are undone. */
  lemma BranchesFail(nodes: seq<Node>, parts: seq<seq<Event>>, gs: seq<Flight>, t: seq<Event>, u: seq<Event>)
    requires ComeApart(Starting(nodes, Ahead), parts, gs) && IsShuffle(parts, t) && AllOver(gs) && !AllWell(gs)
    requires AllGoBack(NodesOf(gs), u)
    ensures ItemComes(DoAll(nodes), t + u, None)
  {
    hide Comes, ComeApart, ComeTogether, IsShuffle;
    var backs :| ComeTogether(Starting(NodesOf(gs), Back), u, backs) && AllOver(backs);
    forall node
      ensures Comes(Flight(Before(node, DoAll(nodes)), Ahead, Free), t + u, Returned(node, None))
    {
      BranchesEnd(node, nodes, parts, gs, t);
      var f := Flight(node, Ahead, Beside(Compensation, Starting(NodesOf(gs), Back)));
      ApartComes(f, u, backs);
      ComesOver(f, u, f.(busy := Beside(Compensation, backs)), Flight(node, Back, Free));
      ComesOn(Flight(Before(node, DoAll(nodes)), Ahead, Free), t, f, u, Flight(node, Back, Free));
    }
  }

  /** `t` takes a slip to the bottom of its stack. */
  ghost predicate GoesBack(node: Node, t: seq<Event>) {
    exists g :: Comes(Flight(node, Back, Free), t, g) && g.mode.Over?
  }

  lemma {:induction false} TheirEnds(nodes: seq<Node>, parts: seq<seq<Event>>) returns (gs: seq<Flight>)
    requires |parts| == |nodes| && forall i :: 0 <= i < |nodes| ==> GoesBack(nodes[i], parts[i])
    ensures ComeApart(Starting(nodes, Back), parts, gs) && AllOver(gs)
    decreases |nodes|
  {
    hide Comes;
    if nodes == [] {
      gs := [];
    } else {
      assert GoesBack(nodes[0], parts[0]);
      var g :| Comes(Flight(nodes[0], Back, Free), parts[0], g) && g.mode.Over?;
      var rest := TheirEnds(nodes[1..], parts[1..]);
      gs := [g] + rest;
      forall i | 0 < i < |nodes|
        ensures Comes(Starting(nodes, Back)[i], parts[i], gs[i]) && gs[i].mode.Over?
      {
        assert Starting(nodes[1..], Back)[i - 1] == Starting(nodes, Back)[i] && parts[1..][i - 1] == parts[i];
      }
    }
  }

  lemma BranchesGoBack(nodes: seq<Node>, parts: seq<seq<Event>>, t: seq<Event>)
    requires |parts| == |nodes| && forall i :: 0 <= i < |nodes| ==> GoesBack(nodes[i], parts[i])
    requires IsShuffle(parts, t)
    ensures AllGoBack(nodes, t)
  {
    hide Comes, ComeApart, ComeTogether, GoesBack, IsShuffle;
    var gs := TheirEnds(nodes, parts);
    BranchesComeTogether(Starting(nodes, Back), parts, gs, t);
  }

  lemma OneGoesBack(node: Node, t: seq<Event>)
    requires GoesBack(node, t)
    ensures AllGoBack([node], t)
  {
    hide GoesBack, AllGoBack, IsShuffle;
    OnePart(t);
    BranchesGoBack([node], [t], t);
  }

  lemma BottomIsOver(f: Flight, t: seq<Event>, node: Node)
    requires Comes(f, t, Flight(node, Back, Free)) && node.done == []
    ensures Comes(f, t, Flight(node, Over(false), Free))
  {
    hide Comes;
    ComesOver(f, t, Flight(node, Back, Free), Flight(node, Over(false), Free));
  }

  lemma EndIsOver(f: Flight, t: seq<Event>, node: Node)
    requires Comes(f, t, Flight(node, Ahead, Free)) && node.todo == []
    ensures Comes(f, t, Flight(node, Over(true), Free))
  {
    hide Comes;
    ComesOver(f, t, Flight(node, Ahead, Free), Flight(node, Over(true), Free));
  }
}
