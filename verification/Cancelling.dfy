/** Subscriptions of the in-memory broker and their cancelling: calls admitted under the lock
    handlers are detached under, and counted until they return. */
module Cancelling {
  import opened Options

  /** A canceller has taken the subscription's detach, to run it; waits for the calls in flight;
      or is back. `inside` is whether it cancels from inside a handler. */
  datatype Cancel = Took(subscription: nat, inside: bool) | Waits(subscription: nat, inside: bool) | Back(subscription: nat, inside: bool)

  /** A topic. `slots` are its groups, each with the subscription attached; `detaches` the
      subscriptions whose detach nobody took; `inFlight` their counts; `calls` what the delivery
      task admitted and has not finished, the first being run if `running`. */
  datatype State = State(slots: map<string, Option<nat>>, groups: map<nat, string>, detaches: set<nat>,
                         inFlight: map<nat, nat>, calls: seq<nat>, running: bool, cancels: map<nat, Cancel>)
  {
    predicate IsAttached(subscription: nat) {
      subscription in groups && groups[subscription] in slots && slots[groups[subscription]] == Some(subscription)
    }

    function Count(subscription: nat): nat {
      if subscription in inFlight then inFlight[subscription] else 0
    }
  }

  datatype Step =
    | Join(group: string)
    | Subscribe(group: string, subscription: nat)
    | Admit(calls: seq<nat>)
    | StartCall
    | EndCall
    | TakeDetach(c: nat, subscription: nat, inside: bool)
    | RunDetach(c: nat)
    | Quiesce(c: nat)

  /** Each attached handler is called once, in whatever order the groups come. */
  predicate AreAttached(s: State, calls: seq<nat>) {
    && (forall i, j :: 0 <= i < j < |calls| ==> calls[i] != calls[j])
    && (forall n :: n in calls ==> s.IsAttached(n))
    && (forall n :: n in s.groups && s.IsAttached(n) ==> n in calls)
  }

  predicate Enabled(s: State, step: Step) {
    match step
    case Join(group) => group !in s.slots
    case Subscribe(group, n) => group in s.slots && n !in s.groups
    case Admit(calls) => s.calls == [] && !s.running && AreAttached(s, calls)
    case StartCall => s.calls != [] && !s.running
    case EndCall => s.running && s.calls != []
    case TakeDetach(c, n, _) => c !in s.cancels && n in s.groups
    case RunDetach(c) => c in s.cancels && s.cancels[c].Took?
    case Quiesce(c) => c in s.cancels && s.cancels[c].Waits? && (s.cancels[c].inside || s.Count(s.cancels[c].subscription) == 0)
  }

  /** One more of each call. */
  function Counted(counts: map<nat, nat>, calls: seq<nat>): map<nat, nat>
    decreases |calls|
  {
    if calls == [] then counts
    else
      var n := calls[0];
      Counted(counts[n := (if n in counts then counts[n] else 0) + 1], calls[1..])
  }

  function CountedOut(counts: map<nat, nat>, n: nat): map<nat, nat> {
    var now := if n in counts then counts[n] else 0;
    counts[n := if now == 0 then 0 else now - 1]
  }

  function Apply(s: State, step: Step): (later: State)
    requires Enabled(s, step)
  {
    match step
    case Join(group) => s.(slots := s.slots[group := None])
    // whatever was attached in the group no longer is
    case Subscribe(group, n) =>
      s.(slots := s.slots[group := Some(n)], groups := s.groups[n := group], detaches := s.detaches + {n})
    case Admit(calls) => s.(calls := calls, inFlight := Counted(s.inFlight, calls))
    case StartCall => s.(running := true)
    // returned, failed or panicked alike
    case EndCall => s.(calls := s.calls[1..], running := false, inFlight := CountedOut(s.inFlight, s.calls[0]))
    case TakeDetach(c, n, inside) =>
      s.(detaches := s.detaches - {n}, cancels := s.cancels[c := if n in s.detaches then Took(n, inside) else Waits(n, inside)])
    case RunDetach(c) =>
      var cancel := s.cancels[c];
      var waiting := s.(cancels := s.cancels[c := Waits(cancel.subscription, cancel.inside)]);
      if s.IsAttached(cancel.subscription) then waiting.(slots := s.slots[s.groups[cancel.subscription] := None]) else waiting
    case Quiesce(c) => s.(cancels := s.cancels[c := Back(s.cancels[c].subscription, s.cancels[c].inside)])
  }

  ghost predicate Initial(s: State) {
    s == State(map[], map[], {}, map[], [], false, map[])
  }

  /** How many calls of the subscription the delivery task has. */
  function CallsOf(calls: seq<nat>, n: nat): nat {
    if calls == [] then 0 else (if calls[0] == n then 1 else 0) + CallsOf(calls[1..], n)
  }

  predicate IsTaker(s: State, c: nat, n: nat) {
    c in s.cancels && s.cancels[c].Took? && s.cancels[c].subscription == n
  }

  /** A canceller took the subscription's detach and has not run it. */
  ghost predicate IsUnderway(s: State, n: nat) {
    exists c :: IsTaker(s, c, n)
  }

  /** Each subscription's count is of its calls. */
  ghost predicate CountsAre(s: State) {
    forall n :: s.Count(n) == CallsOf(s.calls, n)
  }

  /** Whatever is called, attached, or to be detached was subscribed; and a cancelled
      subscription's detach was taken. */
  ghost predicate AllSubscribed(s: State) {
    && (forall n :: n in s.calls ==> n in s.groups) && (s.running ==> s.calls != [])
    && (forall group :: group in s.slots && s.slots[group].Some? ==>
          s.slots[group].value in s.groups && s.groups[s.slots[group].value] == group)
    && (forall n :: n in s.detaches ==> n in s.groups)
    && (forall c :: c in s.cancels ==> s.cancels[c].subscription in s.groups && s.cancels[c].subscription !in s.detaches)
  }

  /** Of a subscription attached, the detach is there, or was taken to be run. */
  ghost predicate DetachIsAhead(s: State) {
    forall n :: s.IsAttached(n) && n !in s.detaches ==> IsUnderway(s, n)
  }

  ghost predicate Inv(s: State) {
    CountsAre(s) && AllSubscribed(s) && DetachIsAhead(s)
  }

  /** No call of the subscription's handler is running, or will start. */
  ghost predicate IsFinal(s: State, n: nat) {
    n in s.groups && !s.IsAttached(n) && n !in s.calls
  }

  lemma {:induction false} NoCallsNoCount(calls: seq<nat>, n: nat)
    ensures CallsOf(calls, n) == 0 <==> n !in calls
  {
    if calls != [] {
      NoCallsNoCount(calls[1..], n);
      assert n in calls <==> n == calls[0] || n in calls[1..];
    }
  }

  lemma {:induction false} CountedIs(counts: map<nat, nat>, calls: seq<nat>, n: nat)
    ensures (if n in Counted(counts, calls) then Counted(counts, calls)[n] else 0)
            == (if n in counts then counts[n] else 0) + CallsOf(calls, n)
    decreases |calls|
  {
    if calls != [] {
      var m := calls[0];
      CountedIs(counts[m := (if m in counts then counts[m] else 0) + 1], calls[1..], n);
    }
  }

  lemma UnderwayStays(s: State, later: State, n: nat)
    requires IsUnderway(s, n)
    requires forall c :: IsTaker(s, c, n) ==> IsTaker(later, c, n)
    ensures IsUnderway(later, n)
  {
    var c :| IsTaker(s, c, n);
    assert IsTaker(later, c, n);
  }

  lemma CountsKept(s: State, step: Step, n: nat)
    requires CountsAre(s) && Enabled(s, step)
    ensures Apply(s, step).Count(n) == CallsOf(Apply(s, step).calls, n)
  {
    hide State.IsAttached, AreAttached;
    assert s.Count(n) == CallsOf(s.calls, n);
    if step.Admit? {
      hide Counted;
      CountedIs(s.inFlight, step.calls, n);
    }
  }

  lemma AllSubscribedKept(s: State, step: Step)
    requires AllSubscribed(s) && Enabled(s, step)
    ensures AllSubscribed(Apply(s, step))
  {
    hide Counted, CountedOut, CallsOf, State.Count;
  }

  /** The invariant is kept by every step. */
  lemma StepKeeps(s: State, step: Step)
    requires Inv(s) && Enabled(s, step)
    ensures Inv(Apply(s, step))
  {
    hide CallsOf, IsUnderway, AllSubscribed, Enabled, Apply, State.IsAttached, State.Count;
    var later := Apply(s, step);
    forall n
      ensures later.Count(n) == CallsOf(later.calls, n)
    {
      CountsKept(s, step, n);
    }
    AllSubscribedKept(s, step);
    forall n | later.IsAttached(n) && n !in later.detaches
      ensures IsUnderway(later, n)
    {
      AttachedIsUnderway(s, step, n);
    }
  }

  lemma AttachedIsUnderway(s: State, step: Step, n: nat)
    requires Inv(s) && Enabled(s, step) && Apply(s, step).IsAttached(n) && n !in Apply(s, step).detaches
    ensures IsUnderway(Apply(s, step), n)
  {
    hide CallsOf, Counted, CountedOut, CountsAre;
    var later := Apply(s, step);
    if step.TakeDetach? && step.subscription == n && n in s.detaches {
      assert IsTaker(later, step.c, n);
    } else {
      assert s.IsAttached(n) && n !in s.detaches;
      UnderwayStays(s, later, n);
    }
  }

  /** A canceller outside a handler comes back to a handler that is not running and will not
      run, exactly unless another canceller has taken the subscription's detach and not run it,
      the handler being attached still. */
  lemma BackIsFinal(s: State, c: nat)
    requires Inv(s) && Enabled(s, Quiesce(c)) && !s.cancels[c].inside
    ensures var n := s.cancels[c].subscription;
            IsFinal(Apply(s, Quiesce(c)), n) <==> !(IsUnderway(s, n) && s.IsAttached(n))
  {
    NoCallsNoCount(s.calls, s.cancels[c].subscription);
  }

  /** What is final stays so: whatever is delivered, subscribed or cancelled after, no call of
      the handler starts. */
  lemma FinalStays(s: State, step: Step, n: nat)
    requires Inv(s) && Enabled(s, step) && IsFinal(s, n)
    ensures IsFinal(Apply(s, step), n)
  {
    if step.EndCall? {
      assert forall m :: m in s.calls[1..] ==> m in s.calls;
    }
  }

  /** A cancel takes out no handler but its own subscription's, so another that has the group by
      then keeps it. */
  lemma LaterStaysAttached(s: State, step: Step, n: nat)
    requires Inv(s) && Enabled(s, step) && s.IsAttached(n)
    requires !(step.Subscribe? && step.group == s.groups[n])
    requires step.RunDetach? ==> s.cancels[step.c].subscription != n
    ensures Apply(s, step).IsAttached(n)
  {
  }

  // Every run.

  ghost predicate Goes(s: State, step: Step, later: State) {
    Enabled(s, step) && later == Apply(s, step)
  }

  ghost predicate IsRun(run: seq<State>, steps: seq<Step>) {
    |run| == |steps| + 1 && Initial(run[0]) && forall i :: 0 <= i < |steps| ==> Goes(run[i], steps[i], run[i + 1])
  }

  lemma {:induction false} RunKeeps(run: seq<State>, steps: seq<Step>, n: nat)
    requires IsRun(run, steps) && n < |run|
    ensures Inv(run[n])
  {
    hide Inv, Enabled, Apply;
    if n == 0 {
      InitialHolds(run[0]);
    } else {
      RunKeeps(run, steps, n - 1);
      assert Goes(run[n - 1], steps[n - 1], run[n]);
      StepKeeps(run[n - 1], steps[n - 1]);
    }
  }

  lemma InitialHolds(s: State)
    requires Initial(s)
    ensures Inv(s)
  {
  }

  /** Step `i` of the run is canceller `c` coming back, outside a handler, from cancelling `n`. */
  ghost predicate ComesBack(run: seq<State>, steps: seq<Step>, i: nat, c: nat, n: nat) {
    i < |steps| < |run| && steps[i] == Quiesce(c) && c in run[i].cancels && run[i].cancels[c] == Waits(n, false)
  }

  /** A cancel comes back outside a handler while nobody is between taking the subscription's
      detach and running it: from then on, whatever happens, the handler is not running and no
      call of it starts. */
  lemma {:induction false} CancelIsFinal(run: seq<State>, steps: seq<Step>, i: nat, c: nat, n: nat, j: nat)
    requires IsRun(run, steps) && ComesBack(run, steps, i, c, n) && i < j < |run| && !IsUnderway(run[i], n)
    ensures IsFinal(run[j], n)
    decreases j
  {
    hide Inv, Apply, IsFinal;
    RunKeeps(run, steps, j - 1);
    assert Goes(run[j - 1], steps[j - 1], run[j]);
    if j == i + 1 {
      BackIsFinal(run[i], c);
    } else {
      CancelIsFinal(run, steps, i, c, n, j - 1);
      FinalStays(run[j - 1], steps[j - 1], n);
    }
  }

  /** Cancels of one subscription that follow one another: none begins while another has taken
      the detach and not run it. */
  ghost predicate CancelsInTurn(run: seq<State>, steps: seq<Step>, n: nat)
    requires |run| == |steps| + 1
  {
    forall i :: 0 <= i < |steps| && steps[i].TakeDetach? && steps[i].subscription == n ==> !IsUnderway(run[i], n)
  }

  /** While a canceller has taken the detach it is the only one. */
  ghost predicate OnlyOne(s: State, n: nat) {
    forall c, d :: IsTaker(s, c, n) && d in s.cancels && s.cancels[d].subscription == n ==> c == d
  }

  lemma OnlyOneStays(s: State, step: Step, n: nat)
    requires Inv(s) && Enabled(s, step) && OnlyOne(s, n)
    requires step.TakeDetach? && step.subscription == n ==> !IsUnderway(s, n)
    ensures OnlyOne(Apply(s, step), n)
  {
    var later := Apply(s, step);
    forall c, d | IsTaker(later, c, n) && d in later.cancels && later.cancels[d].subscription == n
      ensures c == d
    {
      assert IsTaker(s, c, n) || (step.TakeDetach? && step.c == c && n in s.detaches);
    }
  }

  lemma {:induction false} InTurnOnlyOne(run: seq<State>, steps: seq<Step>, n: nat, i: nat)
    requires IsRun(run, steps) && CancelsInTurn(run, steps, n) && i < |run|
    ensures OnlyOne(run[i], n)
  {
    hide Inv, Apply, Enabled;
    if i > 0 {
      InTurnOnlyOne(run, steps, n, i - 1);
      RunKeeps(run, steps, i - 1);
      assert Goes(run[i - 1], steps[i - 1], run[i]);
      OnlyOneStays(run[i - 1], steps[i - 1], n);
    }
  }

  /** Cancels of a subscription that follow one another are final, each. */
  lemma CancelInTurnIsFinal(run: seq<State>, steps: seq<Step>, i: nat, c: nat, n: nat, j: nat)
    requires IsRun(run, steps) && CancelsInTurn(run, steps, n) && ComesBack(run, steps, i, c, n) && i < j < |run|
    ensures IsFinal(run[j], n)
  {
    InTurnOnlyOne(run, steps, n, i);
    CancelIsFinal(run, steps, i, c, n, j);
  }

  // Two cancels at once.

  const JOINED := State(map["g" := None], map[], {}, map[], [], false, map[])

  const ATTACHED := State(map["g" := Some(1)], map[1 := "g"], {1}, map[], [], false, map[])

  const FIRST_TOOK := ATTACHED.(detaches := {}, cancels := map[1 := Took(1, false)])

  const SECOND_WAITS := FIRST_TOOK.(cancels := map[1 := Took(1, false), 2 := Waits(1, false)])

  const SECOND_IS_BACK := SECOND_WAITS.(cancels := map[1 := Took(1, false), 2 := Back(1, false)])

  const ADMITTED := SECOND_IS_BACK.(calls := [1], inFlight := map[1 := 1])

  const RUNNING := ADMITTED.(running := true)

  lemma RaceBegins(s: State)
    requires Initial(s)
    ensures Goes(s, Join("g"), JOINED) && Goes(JOINED, Subscribe("g", 1), ATTACHED)
    ensures Goes(ATTACHED, TakeDetach(1, 1, false), FIRST_TOOK) && Goes(FIRST_TOOK, TakeDetach(2, 1, false), SECOND_WAITS)
  {
  }

  lemma RaceEnds()
    ensures Goes(SECOND_WAITS, Quiesce(2), SECOND_IS_BACK) && Goes(SECOND_IS_BACK, Admit([1]), ADMITTED)
    ensures Goes(ADMITTED, StartCall, RUNNING)
  {
    assert AreAttached(SECOND_IS_BACK, [1]);
    assert Counted(map[], [1]) == map[1 := 1];
  }

  /** The second of two cancels at once comes back while the first has taken the detach and not
      run it; a message comes, and the handler runs. */
  lemma RaceLetsACallStart() returns (run: seq<State>, steps: seq<Step>)
    ensures IsRun(run, steps) && ComesBack(run, steps, 4, 2, 1)
    ensures run[|run| - 1].running && run[|run| - 1].calls == [1] && !IsFinal(run[|run| - 1], 1)
  {
    var s := State(map[], map[], {}, map[], [], false, map[]);
    RaceBegins(s);
    RaceEnds();
    hide Goes, Enabled, Apply;
    run := [s, JOINED, ATTACHED, FIRST_TOOK, SECOND_WAITS, SECOND_IS_BACK, ADMITTED, RUNNING];
    steps := [Join("g"), Subscribe("g", 1), TakeDetach(1, 1, false), TakeDetach(2, 1, false), Quiesce(2), Admit([1]), StartCall];
  }

  // The broker's methods.

  /** How a handler's call ends. */
  datatype Ending = Returned | FailedCall | Panicked

  /** The delivery's own steps, of a run. */
  function OfDelivery(steps: seq<Step>): seq<Step> {
    if steps == [] then []
    else OfDelivery(steps[..|steps| - 1]) + if IsOfDelivery(steps[|steps| - 1]) then [steps[|steps| - 1]] else []
  }

  /** `n` calls, each over before the next. */
  function CallsInTurn(n: nat): seq<Step> {
    if n == 0 then [] else CallsInTurn(n - 1) + [StartCall, EndCall]
  }

  class Broker {
    var state: State
    ghost var run: seq<State>
    ghost var steps: seq<Step>

    ghost predicate Valid()
      reads this
    {
      IsRun(run, steps) && run[|run| - 1] == state && Inv(state)
    }

    constructor ()
      ensures Valid() && steps == []
    {
      state, run, steps := State(map[], map[], {}, map[], [], false, map[]), [State(map[], map[], {}, map[], [], false, map[])], [];
      new;
      InitialHolds(state);
    }

    method Do(step: Step)
      requires Valid() && Enabled(state, step)
      modifies this
      ensures Valid() && state == Apply(old(state), step) && steps == old(steps) + [step]
      ensures OfDelivery(steps) == OfDelivery(old(steps)) + if IsOfDelivery(step) then [step] else []
    {
      hide Inv, Initial, Apply, Enabled;
      StepKeeps(state, step);
      ghost var longer, more := run + [Apply(state, step)], steps + [step];
      forall i | 0 <= i < |more|
        ensures Goes(longer[i], more[i], longer[i + 1])
      {
        assert i < |steps| ==> Goes(run[i], steps[i], run[i + 1]);
      }
      assert more[..|more| - 1] == steps;
      state, run, steps := Apply(state, step), longer, more;
    }

    /** What goes on between two steps: of `script`, what can happen, but for the delivery's own
        steps if it is the delivery that waits, and canceller `c`'s. */
    method Others(script: seq<Step>, delivering: bool, c: Option<nat>)
      requires Valid()
      modifies this
      ensures Valid() && old(steps) <= steps && LeftAlone(old(state), state, delivering, c)
      ensures delivering ==> OfDelivery(steps) == OfDelivery(old(steps))
    {
      hide Inv, Apply, Enabled, IsRun;
      for i := 0 to |script|
        invariant Valid() && old(steps) <= steps && LeftAlone(old(state), state, delivering, c)
        invariant delivering ==> OfDelivery(steps) == OfDelivery(old(steps))
      {
        if !(delivering && IsOfDelivery(script[i])) && !(c.Some? && IsOfCanceller(script[i], c.value)) && Enabled(state, script[i]) {
          OthersLeaveAlone(state, script[i], delivering, c);
          Do(script[i]);
        }
      }
    }

    /** The handlers attached now, one for each group that has one. */
    method Attached() returns (calls: seq<nat>)
      requires Valid()
      ensures AreAttached(state, calls)
    {
      hide IsRun;
      calls := [];
      var left := state.slots.Keys;
      while left != {}
        invariant left <= state.slots.Keys
        invariant forall i, j :: 0 <= i < j < |calls| ==> calls[i] != calls[j]
        invariant forall n :: n in calls ==> state.IsAttached(n) && state.groups[n] !in left
        invariant forall n :: n in state.groups && state.IsAttached(n) && state.groups[n] !in left ==> n in calls
        decreases |left|
      {
        var group :| group in left;
        left := left - {group};
        if state.slots[group].Some? {
          calls := calls + [state.slots[group].value];
        }
      }
    }

    /** The delivery of one message: admitted to every attached handler at once, each then called
        in turn; a handler that fails or panics is counted out as one that returns. */
    method Deliver(endings: nat -> Ending, others: nat -> seq<Step>) returns (calls: seq<nat>)
      requires Valid() && state.calls == [] && !state.running
      modifies this
      ensures Valid() && old(steps) <= steps && state.calls == [] && !state.running
      ensures AreAttached(old(state), calls)
      ensures OfDelivery(steps) == OfDelivery(old(steps)) + [Admit(calls)] + CallsInTurn(|calls|)
    {
      calls := Attached();
      hide Inv, IsRun, AreAttached, OfDelivery, Counted;
      Do(Admit(calls));
      CallAll(calls, endings, others);
    }

    /** Each call admitted, in turn. */
    method CallAll(calls: seq<nat>, endings: nat -> Ending, others: nat -> seq<Step>)
      requires Valid() && state.calls == calls && !state.running
      modifies this
      ensures Valid() && old(steps) <= steps && state.calls == [] && !state.running
      ensures OfDelivery(steps) == OfDelivery(old(steps)) + CallsInTurn(|calls|)
    {
      hide Inv, IsRun, OfDelivery;
      var made := 0;
      while made < |calls|
        invariant Valid() && old(steps) <= steps && made <= |calls| && state.calls == calls[made..] && !state.running
        invariant OfDelivery(steps) == OfDelivery(old(steps)) + CallsInTurn(made)
        decreases |calls| - made
      {
        CallOne(endings(made), (n: nat) => others(2 * made + n));
        made := made + 1;
      }
    }

    method CallOne(ending: Ending, others: nat -> seq<Step>)
      requires Valid() && state.calls != [] && !state.running
      modifies this
      ensures Valid() && old(steps) <= steps && state.calls == old(state.calls)[1..] && !state.running
      ensures OfDelivery(steps) == OfDelivery(old(steps)) + [StartCall, EndCall]
    {
      hide Inv, IsRun, AreAttached, OfDelivery, CountedOut;
      Others(others(0), true, None);
      Do(StartCall);
      Others(others(1), true, None);
      match ending
      case Returned => Do(EndCall);
      case FailedCall => Do(EndCall);
      case Panicked => Do(EndCall);
    }

    /** The detach taken and run, if nobody took it. */
    method Detach(n: nat, c: nat, inside: bool, others: nat -> seq<Step>)
      requires Valid() && n in state.groups && c !in state.cancels
      modifies this
      ensures Valid() && old(steps) <= steps && c in state.cancels && state.cancels[c] == Waits(n, inside)
    {
      hide Inv, IsRun, OfDelivery;
      Others(others(0), false, Some(c));
      Do(TakeDetach(c, n, inside));
      Others(others(1), false, Some(c));
      if state.cancels[c].Took? {
        Do(RunDetach(c));
        Others(others(2), false, Some(c));
      }
    }

    /** A cancel: detached; then, outside a handler, the calls in flight waited for. It comes
        back to a final subscription unless another cancel is between taking the detach and
        running it. */
    method Cancel(n: nat, c: nat, inside: bool, others: nat -> seq<Step>) returns (waits: bool)
      requires Valid() && n in state.groups && c !in state.cancels
      modifies this
      ensures Valid() && old(steps) <= steps && c in state.cancels
      ensures !waits ==> state.cancels[c] == Back(n, inside)
      ensures waits ==> !inside && state.Count(n) > 0 && state.cancels[c] == Waits(n, inside)
      ensures !waits && !inside ==> (IsFinal(state, n) <==> !(IsUnderway(state, n) && state.IsAttached(n)))
    {
      hide Inv, IsRun, IsFinal, IsUnderway;
      Detach(n, c, inside, others);
      waits := !inside && state.Count(n) > 0;
      if !waits {
        if !inside {
          BackIsFinal(state, c);
        }
        SameUnderway(state, c, n);
        Do(Quiesce(c));
      }
    }
  }

  predicate IsOfDelivery(step: Step) {
    step.Admit? || step.StartCall? || step.EndCall?
  }

  predicate IsOfCanceller(step: Step, c: nat) {
    (step.TakeDetach? || step.RunDetach? || step.Quiesce?) && step.c == c
  }

  ghost predicate LeftAlone(s: State, later: State, delivering: bool, c: Option<nat>) {
    && (delivering ==> later.calls == s.calls && later.running == s.running)
    && (c.Some? ==> (c.value in later.cancels <==> c.value in s.cancels)
                    && (c.value in s.cancels ==> later.cancels[c.value] == s.cancels[c.value]))
    && s.groups.Keys <= later.groups.Keys
  }

  lemma OthersLeaveAlone(s: State, step: Step, delivering: bool, c: Option<nat>)
    requires Enabled(s, step) && !(delivering && IsOfDelivery(step)) && !(c.Some? && IsOfCanceller(step, c.value))
    ensures LeftAlone(s, Apply(s, step), delivering, c)
  {
  }

  lemma SameUnderway(s: State, c: nat, n: nat)
    requires Enabled(s, Quiesce(c))
    ensures IsUnderway(Apply(s, Quiesce(c)), n) == IsUnderway(s, n)
  {
    var later := Apply(s, Quiesce(c));
    forall d
      ensures IsTaker(later, d, n) == IsTaker(s, d, n)
    {
    }
  }
}
