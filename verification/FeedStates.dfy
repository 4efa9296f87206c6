/** What one cycle of the worker shows: the state, the error, the wait and the routes. */
module FeedStates {
  import opened Common
  import opened AircraftRecord
  import opened RouteDirection
  import RouteCache
  import opened FeedWorker
  import opened FeedRuns
  import TargetSelection

  function Min(a: nat, b: nat): nat { if a < b then a else b }

  function Max(a: nat, b: nat): nat { if a > b then a else b }

  // ----- failures

  /** A failed poll keeps the aircraft as stale, says what went wrong, and how long to wait:
      too many requests wait as told, or a minute at least; a refused request waits
      longest; anything else waits for the backoff. */
  lemma FailureShows(env: Env, f: Feed, c: Cycle)
    requires f.routes != [] && Polling(c) && c.outcome.Failed? && f.backoffS <= 300
    ensures var s, g := Current(f), Next(env, f, c);
            var t, status := Current(g), c.outcome.httpStatus;
            && t.aircraft == s.aircraft && t.lastSuccessMs == s.lastSuccessMs
            && t.state == (if s.aircraft != [] then Stale else Offline)
            && t.httpStatus == status && t.updatedMs == c.outcome.failMs
            && (status == 429 ==>
                  && t.error == RateLimit
                  && t.retryAfterS == Min(900, if c.outcome.retryAfterS > 0 then c.outcome.retryAfterS
                                               else Max(60, f.backoffS)))
            && (400 <= status < 500 && status != 429 ==> t.error == Config && t.retryAfterS == 900)
            && (300 <= status < 400 || status >= 500 ==> t.error == Http && t.retryAfterS == f.backoffS)
            && (status < 300 ==>
                  t.error == (if c.outcome.unreadable then Parse else DnsTls) && t.retryAfterS == f.backoffS)
            && g.backoffS == Min(300, 2 * f.backoffS) && g.pending == f.pending && g.routes == f.routes
  {
    hide FocusSync, Blocked;
  }

  /** Polls that failed since the last one that succeeded. */
  function Failures(run: seq<Cycle>): nat {
    if run == [] || Polled(Last(run)) then 0
    else Failures(Init(run)) + if Polling(Last(run)) && Last(run).outcome.Failed? then 1 else 0
  }

  const BACKOFFS: seq<nat> := [5, 10, 20, 40, 80, 160, 300]

  lemma BackoffStep(env: Env, f: Feed, c: Cycle)
    requires f.routes != [] && f.backoffS <= 300
    ensures Next(env, f, c).backoffS ==
            if Polled(c) then 5 else if Polling(c) && c.outcome.Failed? then Min(300, 2 * f.backoffS) else f.backoffS
  {
    if Polled(c) {
      SucceedKeeps(env.geometry, Ready(env, f, c), c.outcome.answer);
      assert Next(env, f, c) == Succeed(env.geometry, Ready(env, f, c), c.outcome.answer);
      hide Succeed, Next;
    }
  }

  /** Over every run the backoff is that of the failures in a row: 5 s, doubled each time, at most 300 s. */
  lemma {:induction false} BackoffIs(env: Env, configured: bool, run: seq<Cycle>)
    ensures After(env, configured, run).backoffS == BACKOFFS[Min(6, Failures(run))]
    decreases |run|
  {
    hide Next;
    if run != [] {
      BackoffIs(env, configured, Init(run));
      BackoffStep(env, After(env, configured, Init(run)), Last(run));
    }
  }

  // ----- waiting, searching, success

  /** `t` shows that nothing can be polled for a reason, or the aircraft as stale. */
  predicate WaitsFor(s: Snapshot, t: Snapshot, state: State, error: Error) {
    && t.aircraft == s.aircraft && t.lastSuccessMs == s.lastSuccessMs
    && t.state == (if s.aircraft != [] then Stale else state) && t.error == error
    && (t == s || (t.sequence == s.sequence + 1 && t.httpStatus == 0 && t.retryAfterS == 0))
  }

  /** Without a location, a network or the time, in this order, the reason is shown. */
  lemma WaitingShows(env: Env, f: Feed, c: Cycle)
    requires f.routes != []
    ensures var s, t := Current(f), Current(Next(env, f, c));
            && (!c.configured ==> WaitsFor(s, t, ConfigRequired, Config))
            && (c.configured && !c.online ==> WaitsFor(s, t, Offline, Wifi))
            && (c.configured && c.online && !c.timeValid ==> WaitsFor(s, t, TimeSync, Time))
    ensures !Polling(c) ==> Next(env, f, c) == f.(history := Next(env, f, c).history)
  {}

  /** When polling starts after a wait for one of these, its error is cleared at once;
      otherwise nothing shows that a poll has begun. */
  lemma SearchingShows(env: Env, f: Feed, c: Cycle)
    requires f.routes != [] && Polling(c) && c.outcome.Interrupted?
    ensures var s, t := Current(f), Current(Next(env, f, c));
            var waited := s.state in {ConfigRequired, TimeSync} || (s.state in {Offline, Stale} && s.error == Wifi);
            && t.aircraft == s.aircraft
            && (!waited ==> t == s)
            && (waited ==> t.error == NoError && t.httpStatus == 0 && t.updatedMs == c.startMs &&
                           t.state == if s.aircraft != [] then s.state else Searching)
  {}

  /** A successful poll shows live aircraft, or that there are none, and clears what was wrong. */
  predicate Succeeded(t: Snapshot, readMs: int) {
    && t.state == (if t.aircraft != [] then Live else Empty)
    && t.error == NoError && t.httpStatus == 200 && t.retryAfterS == 0
    && t.updatedMs == readMs && t.lastSuccessMs == readMs
  }

  lemma FollowedSucceeded(f: Feed, a: Answer)
    ensures Succeeded(Followed(f, a).1, a.readMs)
  {
    hide Matches, HeldAge;
  }

  lemma ShowRoutesSucceeded(g: Geometry, h: History, routes: seq<Entry>, s: Snapshot, a: Answer, readMs: int)
    requires routes != [] && Succeeded(s, readMs)
    ensures Succeeded(Last(ShowRoutes(g, h, routes, s, a).0), readMs)
  {
    hide Enrich, LookedUp;
  }

  lemma PollSucceeds(env: Env, f: Feed, c: Cycle)
    requires f.routes != [] && Polled(c)
    ensures Succeeded(Current(Next(env, f, c)), c.outcome.answer.readMs)
  {
    var ready, a := Ready(env, f, c), c.outcome.answer;
    FollowedSucceeded(ready, a);
    var followed := Followed(ready, a).1;
    SettleKeepsLength(Current(ready).aircraft, followed.aircraft, ready.pending);
    var s := followed.(aircraft := Settled(ready, a).0);
    ShowRoutesSucceeded(env.geometry, ready.history, ready.routes, s, a, a.readMs);
    assert Next(env, f, c) == Succeed(env.geometry, ready, a);
    hide Followed, ShowRoutes, TargetSelection.Settle, Succeeded, Next;
  }

  /** A new flight starts with its first identity, unresolved; the same one keeps its lookup. */
  lemma NewFlightStartsOver(env: Env, f: Feed, c: Cycle)
    requires f.routes != [] && Polling(c) && !c.outcome.Answered?
    ensures Next(env, f, c).focus ==
            if c.focus == f.focus.focus then f.focus else Lookup(c.focus, env.kinds(c.focus), 0, false)
  {
    hide PublishSearching, PublishFailure;
  }

  const UPPER := "ABCDEFGHIJKLMNOPQRSTUVWXYZ"
  const LOWER := "abcdefghijklmnopqrstuvwxyz"

  /** Letters are compared without regard to case, and nothing else is changed. */
  lemma LowerMeans(c: char)
    ensures forall i :: 0 <= i < 26 ==> Lower(UPPER[i]) == LOWER[i]
    ensures c !in UPPER ==> Lower(c) == c
  {
    if 'A' <= c <= 'Z' { assert UPPER[c as int - 'A' as int] == c; }
  }

  function Lowered(text: string): (r: string)
    ensures |r| == |text|
  {
    seq(|text|, i requires 0 <= i < |text| => Lower(text[i]))
  }

  /** A flight is followed by its address, its callsign or its registration, in any case. */
  lemma MatchesMeans(a: Aircraft, focus: string)
    ensures Matches(a, focus) <==>
            focus != "" && Lowered(focus) in {Lowered(a.hex), Lowered(a.callsign), Lowered(a.registration)}
  {
    SameTextMeans(a.hex, focus);
    SameTextMeans(a.callsign, focus);
    SameTextMeans(a.registration, focus);
    hide SameText, Lowered;
  }

  lemma SameTextMeans(a: string, b: string)
    ensures SameText(a, b) <==> Lowered(a) == Lowered(b)
  {
    if Lowered(a) == Lowered(b) {
      forall i | 0 <= i < |a| ensures Lower(a[i]) == Lower(b[i]) {
        assert Lowered(a)[i] == Lowered(b)[i];
      }
    }
  }

  // ----- the target shown

  /** Over every run of the worker: after a successful poll the leader of the list is the
      target exactly when it takes over, and otherwise the target before it is. */
  lemma TargetShownExactly(env: Env, configured: bool, run: seq<Cycle>)
    requires run != [] && Polled(Last(run)) && AllNamed(run)
    ensures var polls := Candidates(env, configured, run);
            && polls != []
            && (Last(polls) != [] ==>
                  var s, t := Current(After(env, configured, Init(run))), Current(After(env, configured, run));
                  && t.aircraft != []
                  && (TargetSelection.LeaderTakes(polls) ==> t.aircraft[0].hex == Last(polls)[0].hex)
                  && (!TargetSelection.LeaderTakes(polls) ==>
                        s.aircraft != [] && t.aircraft[0].hex == s.aircraft[0].hex))
  {
    var polls := Candidates(env, configured, run);
    var f, g := After(env, configured, Init(run)), After(env, configured, run);
    assert Init(polls) == Candidates(env, configured, Init(run));
    if Last(polls) != [] {
      ShowsTheSelection(env, configured, Init(run));
      ShowsTheSelection(env, configured, run);
      CandidatesIdentified(env, configured, run);
      SameFirst(TargetSelection.After(Init(polls)).shown, Current(f).aircraft);
      SameFirst(TargetSelection.After(polls).shown, Current(g).aircraft);
      hide After, Candidates, Next, SameBut, TargetSelection.After, TargetSelection.Identified;
      var k := TargetSelection.TargetExactly(polls);
    }
  }

  // ----- routes

  /** A cached answer that is still good: a route for ever, an unknown callsign for an
      hour, a failed lookup for five minutes. */
  predicate Usable(e: Entry, now: int) {
    if e.failed then now - e.fetchedMs <= 300000 else e.known || now - e.fetchedMs <= 3600000
  }

  /** The two entries differ at most in the direction settled. */
  predicate SameFacts(a: Entry, b: Entry) {
    a == b.(orientation := a.orientation, orientedMs := a.orientedMs)
  }

  predicate AllSameFacts(a: seq<Entry>, b: seq<Entry>) {
    |a| == |b| && forall i :: 0 <= i < |a| ==> SameFacts(a[i], b[i])
  }

  lemma PollKeepsFacts(g: Geometry, e: Entry, a: Aircraft, now: int)
    ensures SameFacts(e, Poll(g, e, a, now).0)
  {
    hide Evidence;
  }

  lemma {:induction false} SameFactsFind(a: seq<Entry>, b: seq<Entry>, callsign: string, from: nat)
    requires AllSameFacts(a, b) && from <= |a|
    ensures RouteCache.FindEntry(a, callsign, from) == RouteCache.FindEntry(b, callsign, from)
    decreases |a| - from
  {
    if from < |a| {
      assert SameFacts(a[from], b[from]);
      SameFactsFind(a, b, callsign, from + 1);
    }
  }

  /** The aircraft as a cached answer shows it: with the route one way round or the other. */
  predicate ShownWith(e: Entry, a: Aircraft, shown: Aircraft) {
    if e.known then shown.routeValid && (shown.route == e.route || shown.route == Swapped(e.route))
    else shown == a.(routeValid := false)
  }

  lemma PollShows(g: Geometry, e: Entry, a: Aircraft, now: int)
    ensures ShownWith(e, a, Poll(g, e, a, now).1)
  {
    hide Evidence;
  }

  predicate HasUsable(entries: seq<Entry>, callsign: string, now: int) {
    var k := RouteCache.FindEntry(entries, callsign, 0);
    k < |entries| && Usable(entries[k], now)
  }

  /** What enrichment makes of one aircraft. */
  predicate Enriched(entries: seq<Entry>, a: Aircraft, shown: Aircraft, now: int) {
    if a.callsign != "" && HasUsable(entries, a.callsign, now)
    then ShownWith(entries[RouteCache.FindEntry(entries, a.callsign, 0)], a, shown)
    else shown == a
  }

  predicate Wants(entries: seq<Entry>, a: Aircraft, now: int) {
    a.callsign != "" && !HasUsable(entries, a.callsign, now)
  }

  lemma OneEnriched(g: Geometry, entries: seq<Entry>, before: seq<Entry>, a: Aircraft, now: int)
    requires AllSameFacts(entries, before)
    ensures var (after, shown, wants) := EnrichOne(g, before, a, now);
            && AllSameFacts(entries, after) && Enriched(entries, a, shown, now)
            && (wants <==> Wants(entries, a, now))
  {
    SameFactsFind(entries, before, a.callsign, 0);
    var k := RouteCache.FindEntry(before, a.callsign, 0);
    if k < |before| {
      PollKeepsFacts(g, before[k], a, now);
      PollShows(g, before[k], a, now);
    }
    hide Poll;
  }

  /** Each aircraft gets its route from the cache, if there is a good answer for its
      callsign, and the first one without is the one to look up. */
  lemma {:induction false} RoutesFromCache(g: Geometry, entries: seq<Entry>, list: seq<Aircraft>, now: int, n: nat)
    requires n <= |list|
    ensures var (after, shown, wanted) := Enrich(g, entries, list, now, n);
            && AllSameFacts(entries, after)
            && (forall i :: 0 <= i < n ==> Enriched(entries, list[i], shown[i], now))
            && (wanted == None ==> forall i :: 0 <= i < n ==> !Wants(entries, list[i], now))
            && (wanted.Some? ==> Wants(entries, list[wanted.value], now) &&
                                 forall i :: 0 <= i < wanted.value ==> !Wants(entries, list[i], now))
    decreases n
  {
    hide EnrichOne, Enriched, Wants, SameFacts;
    if n == 0 {
      assert forall e: Entry :: SameFacts(e, e) by { ItsOwnFacts(); }
    } else {
      RoutesFromCache(g, entries, list, now, n - 1);
      OneEnriched(g, entries, Enrich(g, entries, list, now, n - 1).0, list[n - 1], now);
    }
  }

  lemma ItsOwnFacts()
    ensures forall e: Entry :: SameFacts(e, e)
  {}

  /** After a lookup the cache holds its answer for the callsign. */
  lemma AnswerIsCached(entries: seq<Entry>, callsign: string, answer: RouteAnswer)
    requires entries != []
    ensures var after := LookedUp(entries, callsign, answer);
            exists k :: 0 <= k < |after| && after[k].used && after[k].callsign == callsign &&
              after[k].known == answer.known && after[k].failed == answer.failed &&
              after[k].route == answer.route && after[k].fetchedMs == answer.fetchedMs &&
              forall i :: 0 <= i < |after| && i != k ==> after[i] == entries[i]
  {
    var k := RouteCache.FindEntry(entries, callsign, 0);
    var slot := if k < |entries| then k else RouteCache.Victim(entries, 0, 0);
    assert LookedUp(entries, callsign, answer)[slot].used;
  }
}
