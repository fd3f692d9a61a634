/** Keys a service has unwrapped, kept for a while and up to a number: what a hit is an answer
    to, how old it is, and that a tenant's are gone once its keys are retired or deleted. */
module UnwrapCache {
  import opened Options

  datatype Key = Key(secret: nat)

  /** What a key was unwrapped from, and for whom. */
  datatype Id = Id(tenant: string, wrapped: seq<bv8>)

  datatype Entry = Entry(key: Key, since: nat)

  datatype Result<+T> = Ok(value: T) | Refused

  /** What a call came to: a key from the cache at instant `now`; the service's answer of instant
      `at`, kept from `since` on, or not kept, where a cache has no room or no time; a refusal of
      the service; or a tenant's keys forgotten. */
  datatype Event =
    | Hit(id: Id, key: Key, now: nat)
    | Kept(id: Id, key: Key, at: nat, since: nat)
    | Passed(id: Id, key: Key, at: nat)
    | Denied(id: Id, at: nat)
    | Forgot(tenant: string)

  /** The entries between two calls, at an instant. */
  datatype State = State(entries: map<Id, Entry>, now: nat)

  // What each call does to the entries.

  /** No one kept is older than one evicted. */
  ghost predicate EvictedAreOldest(before: map<Id, Entry>, after: map<Id, Entry>) {
    && (forall id :: id in after ==> id in before && after[id] == before[id])
    && (forall id, kept :: id in before && id !in after && kept in after ==> before[id].since <= after[kept].since)
  }

  /** Whatever went had expired by `now`. */
  ghost predicate OnlyExpiredWent(before: map<Id, Entry>, after: map<Id, Entry>, ttl: nat, now: nat) {
    && (forall id :: id in after ==> id in before && after[id] == before[id])
    && (forall id :: id in before && id !in after ==> now - before[id].since >= ttl)
  }

  /** Whatever is there had not expired by `now`. */
  ghost predicate AllLive(entries: map<Id, Entry>, ttl: nat, now: nat) {
    forall id :: id in entries ==> now - entries[id].since < ttl
  }

  /** Room for one more: nothing goes while there is room, and no more than makes it. */
  ghost predicate RoomMade(before: map<Id, Entry>, after: map<Id, Entry>, capacity: nat) {
    && EvictedAreOldest(before, after)
    && if |before| < capacity then after == before else |after| == capacity - 1
  }

  /** The expired go, then the oldest. */
  ghost predicate Cleared(before: map<Id, Entry>, live: map<Id, Entry>, after: map<Id, Entry>, capacity: nat, ttl: nat, from: nat,
                          to: nat) {
    && OnlyExpiredWent(before, live, ttl, to) && AllLive(live, ttl, from) && RoomMade(live, after, capacity)
  }

  /** Nothing live is kept under `id`. */
  predicate Missed(s: State, id: Id, ttl: nat, now: nat) {
    id !in s.entries || now - s.entries[id].since >= ttl
  }

  function WithoutTenant(entries: map<Id, Entry>, tenant: string): map<Id, Entry> {
    map id | id in entries && id.tenant != tenant :: entries[id]
  }

  /** What a call that came to `event` leaves of the entries. */
  ghost predicate Goes(capacity: nat, ttl: nat, s: State, event: Event, later: State) {
    && s.now <= later.now
    && match event
       case Hit(id, key, now) =>
         && s.now <= now <= later.now && later.entries == s.entries
         && id in s.entries && s.entries[id].key == key && now - s.entries[id].since < ttl
       case Kept(id, key, at, since) =>
         && capacity > 0 && ttl > 0 && s.now <= at <= since <= later.now && Missed(s, id, ttl, at)
         && exists live, room ::
              Cleared(s.entries, live, room, capacity, ttl, at, since) && later.entries == room[id := Entry(key, since)]
       case Passed(id, _, at) =>
         (capacity == 0 || ttl == 0) && s.now <= at <= later.now && Missed(s, id, ttl, at) && later.entries == s.entries
       case Denied(id, at) => s.now <= at <= later.now && Missed(s, id, ttl, at) && later.entries == s.entries
       case Forgot(tenant) => later.entries == WithoutTenant(s.entries, tenant)
  }

  /** A sequence of calls, from an empty cache on. */
  ghost predicate IsRun(capacity: nat, ttl: nat, run: seq<State>, log: seq<Event>) {
    && |run| == |log| + 1 && run[0].entries == map[]
    && forall i :: 0 <= i < |log| ==> Goes(capacity, ttl, run[i], log[i], run[i + 1])
  }

  // Where an entry is from.

  /** The service was asked for the key of `id`. */
  predicate Asks(event: Event, id: Id) {
    (event.Kept? || event.Passed? || event.Denied?) && event.id == id
  }

  /** Event `j` of the log is the service's answer that the entry is, and nobody forgot the
      tenant since. */
  ghost predicate IsSource(log: seq<Event>, j: nat, id: Id, entry: Entry) {
    && j < |log| && log[j].Kept? && log[j].id == id && log[j].key == entry.key && log[j].since == entry.since
    && log[j].at <= entry.since
    && forall k :: j < k < |log| ==> log[k] != Forgot(id.tenant)
  }

  /** The service was not asked again since event `j`. */
  ghost predicate IsLatest(log: seq<Event>, j: nat, id: Id) {
    forall k :: j < k < |log| ==> !Asks(log[k], id)
  }

  /** Each entry is an answer of the service, its latest unless the entry has expired. */
  ghost predicate HasSource(ttl: nat, log: seq<Event>, now: nat, id: Id, entry: Entry) {
    exists j: nat :: IsSource(log, j, id, entry) && (IsLatest(log, j, id) || now - entry.since >= ttl)
  }

  ghost predicate Inv(capacity: nat, ttl: nat, log: seq<Event>, s: State) {
    && |s.entries| <= capacity
    && forall id :: id in s.entries ==> HasSource(ttl, log, s.now, id, s.entries[id]) && s.entries[id].since <= s.now
  }

  lemma SourceStays(ttl: nat, log: seq<Event>, event: Event, now: nat, later: nat, id: Id, entry: Entry)
    requires HasSource(ttl, log, now, id, entry) && now <= later && event != Forgot(id.tenant)
    requires Asks(event, id) ==> later - entry.since >= ttl
    ensures HasSource(ttl, log + [event], later, id, entry)
  {
    var j: nat :| IsSource(log, j, id, entry) && (IsLatest(log, j, id) || now - entry.since >= ttl);
    var more := log + [event];
    assert IsSource(more, j, id, entry);
    assert IsLatest(log, j, id) && !Asks(event, id) ==> IsLatest(more, j, id);
  }

  lemma NewSource(ttl: nat, log: seq<Event>, id: Id, key: Key, at: nat, since: nat, now: nat)
    requires at <= since
    ensures HasSource(ttl, log + [Kept(id, key, at, since)], now, id, Entry(key, since))
  {
    var more := log + [Kept(id, key, at, since)];
    assert IsSource(more, |log|, id, Entry(key, since)) && IsLatest(more, |log|, id);
  }

  lemma SizeKept(capacity: nat, ttl: nat, s: State, event: Event, later: State)
    requires Goes(capacity, ttl, s, event, later) && |s.entries| <= capacity
    ensures |later.entries| <= capacity
  {
    match event
    case Kept(id, key, at, since) =>
      var live, room :| Cleared(s.entries, live, room, capacity, ttl, at, since) && later.entries == room[id := Entry(key, since)];
      OneMore(room, id, Entry(key, since));
    case Forgot(tenant) => NoMore(s.entries, later.entries);
    case _ =>
  }

  /** Every call keeps it. */
  lemma StepKeeps(capacity: nat, ttl: nat, log: seq<Event>, s: State, event: Event, later: State)
    requires Inv(capacity, ttl, log, s) && Goes(capacity, ttl, s, event, later)
    ensures Inv(capacity, ttl, log + [event], later)
  {
    hide HasSource;
    SizeKept(capacity, ttl, s, event, later);
    forall id | id in later.entries
      ensures HasSource(ttl, log + [event], later.now, id, later.entries[id]) && later.entries[id].since <= later.now
    {
      if event.Kept? && event.id == id {
        NewSource(ttl, log, id, event.key, event.at, event.since, later.now);
      } else {
        SourceStays(ttl, log, event, s.now, later.now, id, s.entries[id]);
      }
    }
  }

  lemma {:induction false} RunKeeps(capacity: nat, ttl: nat, run: seq<State>, log: seq<Event>, n: nat)
    requires IsRun(capacity, ttl, run, log) && n <= |log|
    ensures Inv(capacity, ttl, log[..n], run[n])
  {
    hide Inv, Goes;
    if n == 0 {
      NothingKept(capacity, ttl, run[0]);
    } else {
      RunKeeps(capacity, ttl, run, log, n - 1);
      StepKeeps(capacity, ttl, log[..n - 1], run[n - 1], log[n - 1], run[n]);
      assert log[..n] == log[..n - 1] + [log[n - 1]];
    }
  }

  lemma NothingKept(capacity: nat, ttl: nat, s: State)
    requires s.entries == map[]
    ensures Inv(capacity, ttl, [], s)
  {
  }

  // Over any sequence of calls.

  /** A hit is the service's latest answer for that tenant and those bytes, kept less than `ttl`
      ago, and the tenant was not forgotten since. */
  lemma HitsAreAnswers(capacity: nat, ttl: nat, run: seq<State>, log: seq<Event>, i: nat) returns (j: nat)
    requires IsRun(capacity, ttl, run, log) && i < |log| && log[i].Hit?
    ensures j < i && log[j].Kept? && log[j].id == log[i].id && log[j].key == log[i].key
    ensures log[j].at <= log[j].since <= log[i].now < log[j].since + ttl
    ensures forall k :: j < k < i ==> log[k] != Forgot(log[i].id.tenant) && !Asks(log[k], log[i].id)
  {
    hide Inv, Goes;
    RunKeeps(capacity, ttl, run, log, i);
    j := HitHasSource(capacity, ttl, log[..i], run[i], log[i], run[i + 1]);
    assert forall k :: 0 <= k < i ==> log[..i][k] == log[k];
  }

  lemma HitHasSource(capacity: nat, ttl: nat, log: seq<Event>, s: State, hit: Event, later: State) returns (j: nat)
    requires Inv(capacity, ttl, log, s) && Goes(capacity, ttl, s, hit, later) && hit.Hit?
    ensures IsSource(log, j, hit.id, Entry(hit.key, s.entries[hit.id].since)) && IsLatest(log, j, hit.id)
    ensures log[j].since <= hit.now < log[j].since + ttl
  {
    var entry := s.entries[hit.id];
    assert HasSource(ttl, log, s.now, hit.id, entry);
    j :| IsSource(log, j, hit.id, entry) && (IsLatest(log, j, hit.id) || s.now - entry.since >= ttl);
  }

  /** Never more than the capacity. */
  lemma SizeIsBounded(capacity: nat, ttl: nat, run: seq<State>, log: seq<Event>, n: nat)
    requires IsRun(capacity, ttl, run, log) && n <= |log|
    ensures |run[n].entries| <= capacity
  {
    RunKeeps(capacity, ttl, run, log, n);
  }

  /** After a tenant is forgotten, a key of it comes from the cache only once the service was
      asked again. */
  lemma ForgottenIsAsked(capacity: nat, ttl: nat, run: seq<State>, log: seq<Event>, f: nat, i: nat)
    requires IsRun(capacity, ttl, run, log) && f < i < |log| && log[i].Hit? && log[f] == Forgot(log[i].id.tenant)
    ensures exists k :: f < k < i && Asks(log[k], log[i].id)
  {
    var j := HitsAreAnswers(capacity, ttl, run, log, i);
    assert f < j && Asks(log[j], log[i].id);
  }

  /** The answer given is younger than the time to live and the time it took to keep it. */
  lemma AnswerAge(capacity: nat, ttl: nat, run: seq<State>, log: seq<Event>, i: nat) returns (j: nat)
    requires IsRun(capacity, ttl, run, log) && i < |log| && log[i].Hit?
    ensures j < i && log[j].Kept? && log[j].id == log[i].id && log[j].key == log[i].key && log[j].at <= log[j].since
    ensures log[i].now - log[j].at < ttl + (log[j].since - log[j].at)
  {
    j := HitsAreAnswers(capacity, ttl, run, log, i);
  }

  /** In some sequence of calls an answer of instant `at`, kept from `since` on, is given at `now`. */
  ghost predicate IsGivenAt(capacity: nat, ttl: nat, at: nat, since: nat, now: nat) {
    exists run, log: seq<Event>, j: nat, i: nat :: IsRun(capacity, ttl, run, log) && j < i < |log| && Gives(log, j, i, at, since, now)
  }

  /** Event `i` of the log gives the answer of event `j`, the last for its key. */
  ghost predicate Gives(log: seq<Event>, j: nat, i: nat, at: nat, since: nat, now: nat)
    requires j < i < |log|
  {
    && log[j].Kept? && log[j].at == at && log[j].since == since && log[i] == Hit(log[j].id, log[j].key, now)
    && forall k :: j < k < i ==> !Asks(log[k], log[j].id)
  }

  /** The time to live counts from the keeping: an answer can be given at an age of `ttl` or more
      exactly if time passed between the answer and its keeping. */
  lemma OldAnswers(capacity: nat, ttl: nat, at: nat, since: nat)
    requires capacity > 0 && ttl > 0 && at <= since
    ensures (exists now: nat :: IsGivenAt(capacity, ttl, at, since, now) && now - at >= ttl) <==> at < since
  {
    if at < since {
      GivenTillItExpires(capacity, ttl, at, since, since + ttl - 1);
    }
    forall now: nat | IsGivenAt(capacity, ttl, at, since, now)
      ensures now - at < ttl + (since - at)
    {
      var run, log: seq<Event>, j: nat, i: nat :| IsRun(capacity, ttl, run, log) && j < i < |log| && Gives(log, j, i, at, since, now);
      hide IsRun;
      var source := HitsAreAnswers(capacity, ttl, run, log, i);
      assert source == j by {
        assert Asks(log[source], log[j].id) && Asks(log[j], log[i].id);
      }
    }
  }

  lemma GivenTillItExpires(capacity: nat, ttl: nat, at: nat, since: nat, now: nat)
    requires capacity > 0 && at <= since <= now < since + ttl
    ensures IsGivenAt(capacity, ttl, at, since, now)
  {
    var id, key := Id("", []), Key(0);
    var entries := map[id := Entry(key, since)];
    var run, log := [State(map[], at), State(entries, since), State(entries, now)], [Kept(id, key, at, since), Hit(id, key, now)];
    var none: map<Id, Entry> := map[];
    assert Cleared(none, none, none, capacity, ttl, at, since) && entries == none[id := Entry(key, since)];
    assert Goes(capacity, ttl, run[0], log[0], run[1]);
    assert Goes(capacity, ttl, run[1], log[1], run[2]);
    assert IsRun(capacity, ttl, run, log) && Gives(log, 0, 1, at, since, now);
  }

  // The cache's methods.

  ghost predicate Rises(clock: nat -> nat) {
    forall m, n :: m <= n ==> clock(m) <= clock(n)
  }

  class Cached {
    const capacity: nat
    const ttl: nat
    var entries: map<Id, Entry>
    // the clock, read so many times so far
    const clock: nat -> nat
    var looked: nat
    ghost var run: seq<State>
    ghost var log: seq<Event>

    ghost predicate Valid()
      reads this
    {
      && Rises(clock) && IsRun(capacity, ttl, run, log)
      && run[|run| - 1].entries == entries && run[|run| - 1].now <= clock(looked)
    }

    constructor (capacity: nat, ttl: nat, clock: nat -> nat)
      requires Rises(clock)
      ensures Valid() && entries == map[] && log == [] && this.capacity == capacity && this.ttl == ttl && this.clock == clock
    {
      this.capacity, this.ttl, this.clock := capacity, ttl, clock;
      entries, looked, run, log := map[], 0, [State(map[], clock(0))], [];
    }

    method Now() returns (now: nat)
      modifies this`looked
      ensures now == clock(old(looked)) && looked == old(looked) + 1
    {
      now := clock(looked);
      looked := looked + 1;
    }

    /** The key kept, if it is kept still, at the instant it was looked for. */
    method Get(id: Id) returns (key: Option<Key>, ghost now: nat)
      requires Rises(clock)
      modifies this`looked
      ensures old(looked) <= looked && clock(old(looked)) <= now <= clock(looked)
      ensures key.Some? <==> id in entries && now - entries[id].since < ttl
      ensures key.Some? ==> key.value == entries[id].key
    {
      key, now := None, clock(looked);
      ClockRises(clock, looked, looked + 1);
      if id in entries {
        var read := Now();
        if read - entries[id].since < ttl {
          key := Some(entries[id].key);
        }
      }
    }

    /** Expired entries go: each asked for its age in turn. */
    method Expire()
      requires Rises(clock)
      modifies this`entries, this`looked
      ensures old(looked) <= looked && clock(old(looked)) <= clock(looked)
      ensures OnlyExpiredWent(old(entries), entries, ttl, clock(looked)) && AllLive(entries, ttl, clock(old(looked)))
    {
      hide Rises;
      var left := entries.Keys;
      while left != {}
        invariant old(looked) <= looked && clock(old(looked)) <= clock(looked) && left <= entries.Keys
        invariant OnlyExpiredWent(old(entries), entries, ttl, clock(looked))
        invariant forall id :: id in entries && id !in left ==> clock(old(looked)) - entries[id].since < ttl
        decreases |left|
      {
        var id :| id in left;
        ClockRises(clock, looked, looked + 1);
        var now := Now();
        if now - entries[id].since >= ttl {
          entries := entries - {id};
        }
        left := left - {id};
      }
    }

    /** An oldest entry. */
    method Oldest() returns (oldest: Id)
      requires entries != map[]
      ensures oldest in entries && forall id :: id in entries ==> entries[oldest].since <= entries[id].since
    {
      oldest :| oldest in entries;
      var left := entries.Keys - {oldest};
      while left != {}
        invariant left <= entries.Keys && oldest in entries
        invariant forall id :: id in entries && id !in left ==> entries[oldest].since <= entries[id].since
        decreases |left|
      {
        var id :| id in left;
        if entries[id].since < entries[oldest].since {
          oldest := id;
        }
        left := left - {id};
      }
    }

    /** Room is made: the oldest go, until one more fits. */
    method Evict()
      requires capacity > 0
      modifies this`entries
      ensures RoomMade(old(entries), entries, capacity)
    {
      while |entries| >= capacity
        invariant EvictedAreOldest(old(entries), entries)
        invariant if |old(entries)| < capacity then entries == old(entries) else capacity - 1 <= |entries|
        decreases |entries|
      {
        assert entries != map[];
        var oldest := Oldest();
        SmallerWithout(entries, oldest);
        entries := entries - {oldest};
      }
    }

    /** `key` is kept as the service's answer. Whatever has expired is dropped before, and then
        as many of the oldest as it takes: `live` is what was left of the first, `room` of both. */
    method Put(id: Id, key: Key) returns (ghost live: map<Id, Entry>, ghost room: map<Id, Entry>)
      requires Rises(clock)
      modifies this`entries, this`looked
      ensures old(looked) <= looked
      ensures capacity == 0 || ttl == 0 ==> entries == old(entries) && looked == old(looked)
      ensures capacity > 0 && ttl > 0 ==>
                && id in entries && clock(old(looked)) <= entries[id].since <= clock(looked)
                && Cleared(old(entries), live, room, capacity, ttl, clock(old(looked)), entries[id].since)
                && entries == room[id := Entry(key, entries[id].since)]
    {
      live, room := entries, entries;
      if capacity == 0 || ttl == 0 {
        return;
      }
      hide Rises, RoomMade, OnlyExpiredWent, AllLive;
      Expire();
      live := entries;
      Evict();
      room := entries;
      ClockRises(clock, looked, looked + 1);
      var now := Now();
      entries := entries[id := Entry(key, now)];
    }

    /** The tenant's keys go. */
    method Forget(tenant: string)
      modifies this`entries
      ensures entries == WithoutTenant(old(entries), tenant)
    {
      entries := map id | id in entries && id.tenant != tenant :: entries[id];
    }

    /** The service's answer, and the instant it came. */
    method Ask(id: Id, service: Id -> Result<Key>) returns (key: Result<Key>, ghost at: nat)
      requires Rises(clock)
      modifies this`looked
      ensures key == service(id) && looked == old(looked) + 1 && clock(old(looked)) <= at <= clock(looked)
    {
      ClockRises(clock, looked, looked + 1);
      key, at := service(id), clock(looked + 1);
      looked := looked + 1;
    }

    /** What a call came to, in the log. */
    ghost method Record(event: Event)
      requires Rises(clock) && IsRun(capacity, ttl, run, log)
      requires Goes(capacity, ttl, run[|run| - 1], event, State(entries, clock(looked)))
      modifies this`run, this`log
      ensures Valid() && log == old(log) + [event]
    {
      hide Goes, Rises;
      var longer, more := run + [State(entries, clock(looked))], log + [event];
      forall i | 0 <= i < |more|
        ensures Goes(capacity, ttl, longer[i], more[i], longer[i + 1])
      {
        assert i < |log| ==> Goes(capacity, ttl, run[i], log[i], run[i + 1]);
      }
      run, log := longer, more;
    }

    /** A key kept and still young; otherwise the service is `asked`, and its answer kept. */
    method DecryptDek(tenant: string, wrapped: seq<bv8>, service: Id -> Result<Key>) returns (key: Result<Key>, asked: bool)
      requires Valid()
      modifies this
      ensures Valid() && old(looked) <= looked && |log| == |old(log)| + 1 && old(log) <= log
      ensures var id, event := Id(tenant, wrapped), log[|log| - 1];
              if !asked then
                && id in old(entries) && key == Ok(old(entries)[id].key) && entries == old(entries)
                && event.Hit? && event == Hit(id, key.value, event.now) && clock(old(looked)) <= event.now < old(entries)[id].since + ttl
              else
                && key == service(id) && Asks(event, id) && clock(old(looked)) <= event.at <= clock(looked)
                && (id in old(entries) ==> event.at - old(entries)[id].since >= ttl)
                && if key == Refused then event == Denied(id, event.at) && entries == old(entries)
                   else if capacity == 0 || ttl == 0 then event == Passed(id, key.value, event.at) && entries == old(entries)
                   else event.Kept? && event == Kept(id, key.value, event.at, event.since)
                        && id in entries && entries[id] == Entry(key.value, event.since)
    {
      hide Rises, Cleared, IsRun;
      RunsMeet(capacity, ttl, run, log);
      ghost var from;
      var id := Id(tenant, wrapped);
      ghost var now, at;
      var held;
      held, now := Get(id);
      if held.Some? {
        Record(Hit(id, held.value, now));
        return Ok(held.value), false;
      }
      asked := true;
      key, at := Ask(id, service);
      if key.Ok? {
        from := clock(looked);
        ghost var live, room := Put(id, key.value);
        if capacity == 0 || ttl == 0 {
          Record(Passed(id, key.value, at));
        } else {
          ClearedFrom(old(entries), live, room, capacity, ttl, from, at, entries[id].since);
          Record(Kept(id, key.value, at, entries[id].since));
        }
      } else {
        Record(Denied(id, at));
      }
    }

    /** The service retires versions, or deletes the tenant's keys; if it does, what was unwrapped
        is forgotten. */
    method RetireOrDelete(tenant: string, done: bool)
      requires Valid()
      modifies this
      ensures Valid() && looked == old(looked)
      ensures done ==> entries == WithoutTenant(old(entries), tenant) && log == old(log) + [Forgot(tenant)]
      ensures !done ==> entries == old(entries) && log == old(log)
    {
      if done {
        Forget(tenant);
        Record(Forgot(tenant));
      }
    }
  }

  lemma RunsMeet(capacity: nat, ttl: nat, run: seq<State>, log: seq<Event>)
    requires IsRun(capacity, ttl, run, log)
    ensures |run| == |log| + 1
  {
  }

  /** What is live at an instant was live before it. */
  lemma ClearedFrom(before: map<Id, Entry>, live: map<Id, Entry>, after: map<Id, Entry>, capacity: nat, ttl: nat, from: nat,
                    earlier: nat, to: nat)
    requires Cleared(before, live, after, capacity, ttl, from, to) && earlier <= from
    ensures Cleared(before, live, after, capacity, ttl, earlier, to)
  {
    hide RoomMade, OnlyExpiredWent;
  }

  lemma ClockRises(clock: nat -> nat, m: nat, n: nat)
    requires Rises(clock) && m <= n
    ensures clock(m) <= clock(n)
  {
  }

  lemma SmallerWithout(entries: map<Id, Entry>, id: Id)
    requires id in entries
    ensures |entries - {id}| == |entries| - 1
  {
    assert entries.Keys == (entries - {id}).Keys + {id};
    assert |entries.Keys| == |entries| && |(entries - {id}).Keys| == |entries - {id}|;
  }

  lemma OneMore(entries: map<Id, Entry>, id: Id, entry: Entry)
    ensures |entries[id := entry]| <= |entries| + 1
  {
    var later := entries[id := entry];
    assert later.Keys == entries.Keys + {id};
    assert |later.Keys| == |later| && |entries.Keys| == |entries|;
  }

  lemma NoMore(entries: map<Id, Entry>, fewer: map<Id, Entry>)
    requires fewer.Keys <= entries.Keys
    ensures |fewer| <= |entries|
  {
    assert entries.Keys == fewer.Keys + (entries.Keys - fewer.Keys);
    assert |fewer.Keys| == |fewer| && |entries.Keys| == |entries|;
  }
}
