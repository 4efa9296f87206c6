/**
  * The worker that polls the feed: the snapshot it publishes, the followed flight
  * it holds through missed polls, and the routes it adds.
  */
module FeedWorker {
  import opened Common
  import opened AircraftRecord
  import opened TargetSelection
  import opened RouteDirection
  import opened RouteCache

  const FOCUS_HOLD_S: real := 1800.0
  const RETRY_UNKNOWN_MS: int := 60 * 60 * 1000
  const RETRY_FAILED_MS: int := 5 * 60 * 1000
  const FIRST_BACKOFF_S: nat := 5
  const MAX_BACKOFF_S: nat := 300
  const MAX_RATE_BACKOFF_S: nat := 900
  const MAX_AIRCRAFT: nat := 5

  datatype State = ConfigRequired | TimeSync | Searching | Live | Empty | Stale | Offline

  datatype Error = NoError | Wifi | Time | DnsTls | Http | RateLimit | Parse | Config

  datatype Snapshot = Snapshot(sequence: nat, updatedMs: int, lastSuccessMs: int, state: State, error: Error,
                               httpStatus: int, retryAfterS: nat, aircraft: seq<Aircraft>)

  function Boot(configured: bool): Snapshot {
    if configured then Snapshot(0, 0, 0, Offline, Wifi, 0, 0, [])
    else Snapshot(0, 0, 0, ConfigRequired, Config, 0, 0, [])
  }

  /** Everything published so far; the last one is the shared snapshot. */
  type History = h: seq<Snapshot> | h != [] witness [Boot(true)]

  /** Which of the identity lookups for the followed flight is in use. */
  datatype Lookup = Lookup(focus: string, count: nat, index: nat, resolved: bool)

  const NO_LOOKUP := Lookup("", 0, 0, false)

  datatype Feed = Feed(history: History, focus: Lookup, pending: Pending, routes: seq<Entry>, backoffS: nat)

  /** The worker as it starts. */
  function Start(configured: bool): Feed {
    Feed([Boot(configured)], NO_LOOKUP, NONE, seq(CACHE_ENTRIES, _ => UNUSED), FIRST_BACKOFF_S)
  }

  /** `kinds` counts the plausible identities of a followed flight. */
  datatype Env = Env(geometry: Geometry, kinds: string -> nat)

  /** What the route database answers for one callsign. */
  datatype RouteAnswer = RouteAnswer(known: bool, failed: bool, route: Route, fetchedMs: int)

  /** A response parsed, and the clock as it is read in the steps that follow. */
  datatype Answer = Answer(list: seq<Aircraft>, readMs: int, settleMs: int, routeMs: int,
                           route: RouteAnswer, againMs: int)

  datatype Outcome = Answered(answer: Answer)
                   | Failed(httpStatus: int, unreadable: bool, retryAfterS: nat, failMs: int)
                   | Interrupted

  datatype Cycle = Cycle(configured: bool, online: bool, timeValid: bool, focus: string, startMs: int,
                         outcome: Outcome)

  // ----- what is published

  function PublishWaiting(h: History, state: State, error: Error, now: int): History {
    var s := Last(h);
    var effective := if s.aircraft != [] then Stale else state;
    if s.state == effective && s.error == error then h
    else h + [Snapshot(s.sequence + 1, now, s.lastSuccessMs, effective, error, 0, 0, s.aircraft)]
  }

  predicate Blocked(s: Snapshot) {
    s.state == ConfigRequired || s.state == TimeSync || (s.state in {Offline, Stale} && s.error == Wifi)
  }

  function PublishSearching(h: History, now: int): History {
    var s := Last(h);
    if !Blocked(s) then h
    else h + [s.(sequence := s.sequence + 1, updatedMs := now, httpStatus := 0, error := NoError,
                 state := if s.aircraft != [] then s.state else Searching)]
  }

  function PublishFailure(h: History, error: Error, httpStatus: int, retryS: nat, now: int): History {
    var s := Last(h);
    h + [Snapshot(s.sequence + 1, now, s.lastSuccessMs, if s.aircraft != [] then Stale else Offline,
                  error, httpStatus, retryS, s.aircraft)]
  }

  /** The error to show and the seconds to wait. */
  function Diagnose(httpStatus: int, unreadable: bool, retryAfterS: nat, backoffS: nat): (Error, nat) {
    if httpStatus == 429 then
      var wait := if retryAfterS > 0 then retryAfterS else if backoffS < 60 then 60 else backoffS;
      (RateLimit, if wait > MAX_RATE_BACKOFF_S then MAX_RATE_BACKOFF_S else wait)
    else if 400 <= httpStatus < 500 then (Config, MAX_RATE_BACKOFF_S)
    else if httpStatus >= 300 then (Http, backoffS)
    else if unreadable then (Parse, backoffS)
    else (DnsTls, backoffS)
  }

  function Doubled(backoffS: nat): nat {
    if backoffS >= MAX_BACKOFF_S then backoffS
    else if backoffS * 2 > MAX_BACKOFF_S then MAX_BACKOFF_S
    else backoffS * 2
  }

  // ----- the followed flight

  function Lower(c: char): char { if 'A' <= c <= 'Z' then c + 32 as char else c }

  predicate SameText(a: string, b: string) {
    |a| == |b| && forall i :: 0 <= i < |a| ==> Lower(a[i]) == Lower(b[i])
  }

  predicate Matches(a: Aircraft, focus: string) {
    focus != "" && (SameText(a.hex, focus) || (a.callsign != "" && SameText(a.callsign, focus)) ||
                    (a.registration != "" && SameText(a.registration, focus)))
  }

  function FocusSync(l: Lookup, focus: string, kinds: string -> nat): Lookup {
    if l.focus == focus then l else Lookup(focus, kinds(focus), 0, false)
  }

  /** The age of the position held, were it published now. */
  function HeldAge(previous: Snapshot, now: int): real
    requires previous.aircraft != []
  {
    var elapsed := (now - previous.lastSuccessMs) as real / 1000.0;
    previous.aircraft[0].seenPosS + if elapsed > 0.0 then elapsed else 0.0
  }

  predicate Holds(previous: Snapshot, focus: string, now: int) {
    previous.aircraft != [] && Matches(previous.aircraft[0], focus) && previous.lastSuccessMs > 0 &&
    HeldAge(previous, now) <= FOCUS_HOLD_S
  }

  function NextKind(l: Lookup): Lookup {
    if !l.resolved && l.count > 1 then l.(index := (l.index + 1) % l.count) else l
  }

  function FocusAfterPoll(l: Lookup, previous: Snapshot, candidate: Snapshot, now: int): (Lookup, Snapshot) {
    if candidate.aircraft != [] then (l.(resolved := true), candidate)
    else if Holds(previous, l.focus, now) then
      (l, candidate.(aircraft := [previous.aircraft[0].(seenPosS := HeldAge(previous, now))], state := Live))
    else (NextKind(l), candidate)
  }

  // ----- routes

  predicate Expired(e: Entry, now: int) {
    if e.failed then now - e.fetchedMs > RETRY_FAILED_MS
    else !e.known && now - e.fetchedMs > RETRY_UNKNOWN_MS
  }

  /** One aircraft with its route from the cache, or word that a lookup is wanted. */
  function EnrichOne(g: Geometry, entries: seq<Entry>, a: Aircraft, now: int): (r: (seq<Entry>, Aircraft, bool))
    ensures |r.0| == |entries|
  {
    var k := FindEntry(entries, a.callsign, 0);
    if a.callsign == "" then (entries, a, false)
    else if k < |entries| && !Expired(entries[k], now) then
      var (e, shown) := Poll(g, entries[k], a, now);
      (entries[k := e], shown, false)
    else (entries, a, true)
  }

  /** The first n aircraft enriched, and the first of them that wants a lookup. */
  function Enrich(g: Geometry, entries: seq<Entry>, list: seq<Aircraft>, now: int, n: nat)
    : (r: (seq<Entry>, seq<Aircraft>, Option<nat>))
    requires n <= |list|
    ensures |r.0| == |entries| && |r.1| == |list|
    ensures r.2.Some? ==> r.2.value < n
  {
    if n == 0 then (entries, list, None)
    else
      var (before, done, wanted) := Enrich(g, entries, list, now, n - 1);
      var (after, a, wants) := EnrichOne(g, before, list[n - 1], now);
      (after, done[n - 1 := a], if wanted == None && wants then Some(n - 1) else wanted)
  }

  function Filled(e: Entry, answer: RouteAnswer): Entry {
    e.(known := answer.known, failed := answer.failed, route := answer.route, fetchedMs := answer.fetchedMs)
  }

  /** The cache with the answer for this callsign. */
  function LookedUp(entries: seq<Entry>, callsign: string, answer: RouteAnswer): (r: seq<Entry>)
    requires entries != []
    ensures |r| == |entries|
  {
    var k := FindEntry(entries, callsign, 0);
    if k < |entries| then entries[k := Filled(entries[k], answer)]
    else entries[Victim(entries, 0, 0) := Filled(Fresh(callsign), answer)]
  }

  // ----- a cycle

  function Parsed(previous: Snapshot, a: Answer): Snapshot {
    Snapshot(previous.sequence + 1, a.readMs, a.readMs, if a.list == [] then Empty else Live, NoError, 200, 0, a.list)
  }

  /** The identity lookup and the list of targets, the followed flight held if need be. */
  function Followed(f: Feed, a: Answer): (Lookup, Snapshot) {
    var previous := Last(f.history);
    if f.focus.focus == "" then (f.focus, Parsed(previous, a))
    else FocusAfterPoll(f.focus, previous, Parsed(previous, a), a.settleMs)
  }

  /** The routes added, the result published, and published again after a lookup. */
  function ShowRoutes(g: Geometry, h: History, routes: seq<Entry>, s: Snapshot, a: Answer): (History, seq<Entry>)
    requires routes != []
  {
    var (entries, shown, wanted) := Enrich(g, routes, s.aircraft, a.routeMs, |s.aircraft|);
    var first := s.(aircraft := shown);
    if wanted == None then (h + [first], entries)
    else
      var filled := LookedUp(entries, shown[wanted.value].callsign, a.route);
      var (last, again, _) := Enrich(g, filled, shown, a.againMs, |shown|);
      (h + [first, s.(aircraft := again, sequence := s.sequence + 1)], last)
  }

  function Succeed(g: Geometry, f: Feed, a: Answer): Feed
    requires f.routes != []
  {
    var (focus, candidate) := Followed(f, a);
    var (list, pending) := Settle(Last(f.history).aircraft, candidate.aircraft, f.pending);
    var (history, routes) := ShowRoutes(g, f.history, f.routes, candidate.(aircraft := list), a);
    Feed(history, focus, pending, routes, FIRST_BACKOFF_S)
  }

  function Fail(f: Feed, httpStatus: int, unreadable: bool, retryAfterS: nat, now: int): Feed {
    var (error, wait) := Diagnose(httpStatus, unreadable, retryAfterS, f.backoffS);
    f.(history := PublishFailure(f.history, error, httpStatus, wait, now), backoffS := Doubled(f.backoffS))
  }

  function Next(env: Env, f: Feed, c: Cycle): (r: Feed)
    requires f.routes != []
  {
    if !c.configured then f.(history := PublishWaiting(f.history, ConfigRequired, Config, c.startMs))
    else if !c.online then f.(history := PublishWaiting(f.history, Offline, Wifi, c.startMs))
    else if !c.timeValid then f.(history := PublishWaiting(f.history, TimeSync, Time, c.startMs))
    else
      var ready := f.(history := PublishSearching(f.history, c.startMs),
                      focus := FocusSync(f.focus, c.focus, env.kinds));
      match c.outcome
      case Answered(a) => Succeed(env.geometry, ready, a)
      case Failed(httpStatus, unreadable, retryAfterS, now) => Fail(ready, httpStatus, unreadable, retryAfterS, now)
      case Interrupted => ready
  }

  /** The two caches name the same callsigns in the same places. */
  predicate SameNames(a: seq<Entry>, b: seq<Entry>) {
    |a| == |b| && forall i :: 0 <= i < |a| ==> a[i].used == b[i].used && a[i].callsign == b[i].callsign
  }

  lemma PollKeepsName(g: Geometry, e: Entry, a: Aircraft, now: int)
    ensures var entry := Poll(g, e, a, now).0; entry.used == e.used && entry.callsign == e.callsign
  {}

  lemma {:induction false} EnrichKeepsNames(g: Geometry, entries: seq<Entry>, list: seq<Aircraft>, now: int, n: nat)
    requires n <= |list|
    ensures SameNames(entries, Enrich(g, entries, list, now, n).0)
    decreases n
  {
    hide Poll, Expired;
    if n > 0 {
      EnrichKeepsNames(g, entries, list, now, n - 1);
      var before := Enrich(g, entries, list, now, n - 1).0;
      var a := list[n - 1];
      var k := FindEntry(before, a.callsign, 0);
      if k < |before| { PollKeepsName(g, before[k], a, now); }
    }
  }

  lemma SameNamesDistinct(a: seq<Entry>, b: seq<Entry>)
    requires SameNames(a, b) && Distinct(a)
    ensures Distinct(b)
  {}

  // ----- in place

  class Worker {
    const env: Env
    const filter: TargetFilter
    const cache: RouteCache
    var snapshot: Snapshot
    var focus: Lookup
    var backoffS: nat
    ghost var history: History

    ghost predicate Valid()
      reads this, cache.entries
    {
      && Last(history) == snapshot
      && cache.geometry == env.geometry
      && cache.entries.Length == CACHE_ENTRIES && Distinct(cache.entries[..])
    }

    ghost function Abstract(): Feed
      reads this, filter, cache.entries
    {
      Feed(history, focus, Pending(filter.pendingHex, filter.pendingPolls), cache.entries[..], backoffS)
    }

    constructor (env: Env, configured: bool)
      ensures Valid() && fresh(filter) && fresh(cache) && fresh(cache.entries) && this.env == env
      ensures Abstract() == Start(configured)
    {
      this.env := env;
      filter := new TargetFilter();
      cache := new RouteCache(env.geometry);
      snapshot := Boot(configured);
      history := [Boot(configured)];
      focus := NO_LOOKUP;
      backoffS := FIRST_BACKOFF_S;
    }

    method Publish(s: Snapshot)
      modifies this`snapshot, this`history
      ensures history == old(history) + [s] && snapshot == s
    {
      snapshot := s;
      history := history + [s];
    }

    method Wait(state: State, error: Error, now: int)
      requires Last(history) == snapshot
      modifies this`snapshot, this`history
      ensures history == PublishWaiting(old(history), state, error, now) && Last(history) == snapshot
    {
      var effective := if snapshot.aircraft != [] then Stale else state;
      if snapshot.state == effective && snapshot.error == error {
        return;
      }
      Publish(snapshot.(sequence := snapshot.sequence + 1, updatedMs := now, state := effective,
                        error := error, httpStatus := 0, retryAfterS := 0));
    }

    method Search(now: int)
      requires Last(history) == snapshot
      modifies this`snapshot, this`history
      ensures history == PublishSearching(old(history), now) && Last(history) == snapshot
    {
      if !Blocked(snapshot) {
        return;
      }
      var s := snapshot.(error := NoError);
      if s.aircraft == [] {
        s := s.(state := Searching);
      }
      Publish(s.(sequence := s.sequence + 1, updatedMs := now, httpStatus := 0));
    }

    method Report(error: Error, httpStatus: int, retryS: nat, now: int)
      requires Last(history) == snapshot
      modifies this`snapshot, this`history
      ensures history == PublishFailure(old(history), error, httpStatus, retryS, now) && Last(history) == snapshot
    {
      Publish(snapshot.(sequence := snapshot.sequence + 1, updatedMs := now,
                        state := if snapshot.aircraft != [] then Stale else Offline,
                        error := error, httpStatus := httpStatus, retryAfterS := retryS));
    }

    method SyncFocus(text: string)
      modifies this`focus
      ensures focus == FocusSync(old(focus), text, env.kinds)
    {
      if focus.focus != text {
        focus := Lookup(text, env.kinds(text), 0, false);
      }
    }

    /** `count` aircraft stand in `targets`; a held one is put there. */
    method AfterPoll(previous: Snapshot, candidate: Snapshot, targets: array<Aircraft>, now: int)
      returns (count: nat, state: State)
      requires |candidate.aircraft| <= targets.Length == MAX_AIRCRAFT
      requires targets[..|candidate.aircraft|] == candidate.aircraft
      modifies this`focus, targets
      ensures count <= targets.Length
      ensures (focus, candidate.(aircraft := targets[..count], state := state))
           == FocusAfterPoll(old(focus), previous, candidate, now)
    {
      count, state := |candidate.aircraft|, candidate.state;
      if count > 0 {
        focus := focus.(resolved := true);
        return;
      }
      if previous.aircraft != [] && Matches(previous.aircraft[0], focus.focus) && previous.lastSuccessMs > 0 {
        var elapsed := (now - previous.lastSuccessMs) as real / 1000.0;
        var age := previous.aircraft[0].seenPosS + if elapsed > 0.0 then elapsed else 0.0;
        if age <= FOCUS_HOLD_S {
          targets[0] := previous.aircraft[0];
          targets[0] := targets[0].(seenPosS := age);
          assert targets[..1] == [previous.aircraft[0].(seenPosS := HeldAge(previous, now))];
          return 1, Live;
        }
      }
      if !focus.resolved && focus.count > 1 {
        focus := focus.(index := (focus.index + 1) % focus.count);
      }
    }

    method EnrichTarget(targets: array<Aircraft>, index: nat, now: int) returns (wants: bool)
      requires index < targets.Length && cache.geometry == env.geometry
      modifies targets, cache.entries
      ensures (cache.entries[..], targets[index], wants)
           == EnrichOne(env.geometry, old(cache.entries[..]), old(targets[index]), now)
      ensures targets[..] == old(targets[..])[index := targets[index]]
    {
      hide Poll, Expired;
      var aircraft := targets[index];
      if aircraft.callsign == "" {
        return false;
      }
      var found := cache.Find(aircraft.callsign);
      wants := found == None || Expired(cache.entries[found.value], now);
      if !wants {
        targets[index] := cache.OrientRoute(found.value, aircraft, now);
      }
    }

    /** Routes for the first `count` targets; gives the first one that wants a lookup. */
    method EnrichFromCache(targets: array<Aircraft>, count: nat, now: int) returns (wanted: Option<nat>)
      requires count <= targets.Length && cache.geometry == env.geometry
      modifies targets, cache.entries
      ensures (cache.entries[..], targets[..count], wanted)
           == Enrich(env.geometry, old(cache.entries[..]), old(targets[..count]), now, count)
    {
      hide EnrichOne;
      ghost var before := targets[..count];
      wanted := None;
      for index := 0 to count
        invariant (cache.entries[..], targets[..count], wanted)
               == Enrich(env.geometry, old(cache.entries[..]), before, now, index)
        invariant forall i :: index <= i < count ==> targets[i] == before[i]
      {
        ghost var done := targets[..count];
        var wants := EnrichTarget(targets, index, now);
        assert targets[..count] == done[index := targets[index]];
        if wanted == None && wants {
          wanted := Some(index);
        }
      }
    }

    method LookUpRoute(callsign: string, answer: RouteAnswer)
      requires cache.entries.Length == CACHE_ENTRIES && Distinct(cache.entries[..])
      modifies cache.entries
      ensures cache.entries[..] == LookedUp(old(cache.entries[..]), callsign, answer)
      ensures Distinct(cache.entries[..])
    {
      ghost var before := cache.entries[..];
      var found := cache.Find(callsign);
      var slot := found.GetOr(0);
      if found == None {
        slot := cache.Allocate(callsign);
      }
      ghost var mid := cache.entries[..];
      cache.entries[slot] := Filled(cache.entries[slot], answer);
      SameNamesDistinct(mid, cache.entries[..]);
    }

    /** Publishes `s` with the first `count` targets and their routes, and again after a lookup. */
    method PublishWithRoutes(s: Snapshot, targets: array<Aircraft>, count: nat, a: Answer)
      requires Valid() && count <= targets.Length && s.aircraft == targets[..count]
      modifies this`snapshot, this`history, targets, cache.entries
      ensures Valid()
      ensures (history, cache.entries[..]) == ShowRoutes(env.geometry, old(history), old(cache.entries[..]), s, a)
    {
      hide Enrich, LookedUp;
      ghost var entries := cache.entries[..];
      var wanted := EnrichFromCache(targets, count, a.routeMs);
      EnrichKeepsNames(env.geometry, entries, s.aircraft, a.routeMs, count);
      SameNamesDistinct(entries, cache.entries[..]);
      Publish(s.(aircraft := targets[..count]));
      if wanted.Some? {
        ghost var first, shown := cache.entries[..], targets[..count];
        LookUpRoute(targets[wanted.value].callsign, a.route);
        entries := cache.entries[..];
        var _ := EnrichFromCache(targets, count, a.againMs);
        EnrichKeepsNames(env.geometry, entries, shown, a.againMs, count);
        SameNamesDistinct(entries, cache.entries[..]);
        assert entries == LookedUp(first, shown[wanted.value].callsign, a.route);
        Publish(s.(aircraft := targets[..count], sequence := s.sequence + 1));
        assert history == old(history) + [s.(aircraft := shown), snapshot];
      }
    }

    method OnSuccess(a: Answer)
      requires Valid() && |a.list| <= MAX_AIRCRAFT
      modifies this, filter, cache.entries
      ensures Valid() && Abstract() == Succeed(env.geometry, old(Abstract()), a)
    {
      hide Settle, ShowRoutes, FocusAfterPoll;
      var candidate := Parsed(snapshot, a);
      var previous := snapshot;
      var targets := new Aircraft[MAX_AIRCRAFT](i => if 0 <= i < |a.list| then a.list[i] else NOBODY);
      assert targets[..|a.list|] == a.list;
      var count, state := |a.list|, candidate.state;
      if focus.focus != "" {
        count, state := AfterPoll(previous, candidate, targets, a.settleMs);
      }
      ghost var followed := candidate.(aircraft := targets[..count], state := state);
      assert Followed(old(Abstract()), a) == (focus, followed);
      filter.Apply(previous.aircraft, targets, count);
      ghost var pending := Pending(filter.pendingHex, filter.pendingPolls);
      assert (targets[..count], pending) == Settle(previous.aircraft, followed.aircraft, old(Abstract().pending));
      ghost var list := targets[..count];
      assert candidate.(aircraft := list, state := state) == followed.(aircraft := list);
      PublishWithRoutes(candidate.(aircraft := targets[..count], state := state), targets, count, a);
      backoffS := FIRST_BACKOFF_S;
    }

    method OnFailure(httpStatus: int, unreadable: bool, retryAfterS: nat, now: int)
      requires Valid()
      modifies this`snapshot, this`history, this`backoffS
      ensures Valid() && Abstract() == Fail(old(Abstract()), httpStatus, unreadable, retryAfterS, now)
    {
      var error, wait := DnsTls, backoffS;
      if httpStatus == 429 {
        error := RateLimit;
        wait := if retryAfterS > 0 then retryAfterS else if backoffS < 60 then 60 else backoffS;
        if wait > MAX_RATE_BACKOFF_S {
          wait := MAX_RATE_BACKOFF_S;
        }
      } else if httpStatus >= 400 && httpStatus < 500 {
        error, wait := Config, MAX_RATE_BACKOFF_S;
      } else if httpStatus >= 300 {
        error := Http;
      } else if unreadable {
        error := Parse;
      }
      Report(error, httpStatus, wait, now);
      if backoffS < MAX_BACKOFF_S {
        backoffS := backoffS * 2;
        if backoffS > MAX_BACKOFF_S {
          backoffS := MAX_BACKOFF_S;
        }
      }
    }

    /** One turn of the worker's loop. */
    method RunCycle(c: Cycle)
      requires Valid() && (c.outcome.Answered? ==> |c.outcome.answer.list| <= MAX_AIRCRAFT)
      modifies this, filter, cache.entries
      ensures Valid() && Abstract() == Next(env, old(Abstract()), c)
    {
      hide Succeed, Fail, PublishWaiting, PublishSearching, FocusSync;
      if !c.configured {
        Wait(ConfigRequired, Config, c.startMs);
      } else if !c.online {
        Wait(Offline, Wifi, c.startMs);
      } else if !c.timeValid {
        Wait(TimeSync, Time, c.startMs);
      } else {
        Search(c.startMs);
        SyncFocus(c.focus);
        match c.outcome {
          case Answered(a) => OnSuccess(a);
          case Failed(httpStatus, unreadable, retryAfterS, now) => OnFailure(httpStatus, unreadable, retryAfterS, now);
          case Interrupted =>
        }
      }
    }
  }
}
