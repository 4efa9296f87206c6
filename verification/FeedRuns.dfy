/** What the worker keeps over every run of cycles. */
module FeedRuns {
  import opened Common
  import opened AircraftRecord
  import TargetSelection
  import opened RouteDirection
  import RouteCache
  import opened FeedWorker

  // ----- what enrichment leaves alone

  /** An aircraft without its route. */
  function Bare(a: Aircraft): Aircraft { a.(routeValid := false, route := NO_ROUTE, routeConfirmed := false) }

  predicate SameBut(a: seq<Aircraft>, b: seq<Aircraft>) {
    |a| == |b| && forall i :: 0 <= i < |a| ==> Bare(a[i]) == Bare(b[i])
  }

  lemma PollOnlyRoutes(g: Geometry, e: Entry, a: Aircraft, now: int)
    ensures Bare(Poll(g, e, a, now).1) == Bare(a)
  {}

  /** Enrichment changes nothing but routes. */
  lemma {:induction false} EnrichOnlyRoutes(g: Geometry, entries: seq<Entry>, list: seq<Aircraft>, now: int, n: nat)
    requires n <= |list|
    ensures SameBut(list, Enrich(g, entries, list, now, n).1)
    ensures forall i :: n <= i < |list| ==> Enrich(g, entries, list, now, n).1[i] == list[i]
    decreases n
  {
    hide Poll, Expired, Bare;
    if n > 0 {
      EnrichOnlyRoutes(g, entries, list, now, n - 1);
      var before, a := Enrich(g, entries, list, now, n - 1).0, list[n - 1];
      var k := RouteCache.FindEntry(before, a.callsign, 0);
      if k < |before| { PollOnlyRoutes(g, before[k], a, now); }
    }
  }

  lemma SettleKeepsLength(previous: seq<Aircraft>, list: seq<Aircraft>, p: TargetSelection.Pending)
    ensures |TargetSelection.Settle(previous, list, p).0| == |list|
  {}

  // ----- the published snapshots

  /** The n-th snapshot carries the number n, shows aircraft exactly when live or stale,
      and asks for no longer wait than the longest. */
  predicate Sound(s: Snapshot, n: nat) {
    && s.sequence == n
    && (s.aircraft != [] <==> s.state in {Live, Stale})
    && s.retryAfterS <= MAX_RATE_BACKOFF_S
  }

  ghost predicate AllSound(h: History) { forall k: nat :: k < |h| ==> Sound(h[k], k) }

  /** Nothing published is taken back. */
  predicate Extends(h: History, more: History) { |h| <= |more| && more[..|h|] == h }

  lemma PublishesSound(h: History, state: State, error: Error, httpStatus: int, retryS: nat, now: int)
    requires AllSound(h) && state !in {Live, Stale} && retryS <= MAX_RATE_BACKOFF_S
    ensures var waiting := PublishWaiting(h, state, error, now); AllSound(waiting) && Extends(h, waiting)
    ensures var searching := PublishSearching(h, now); AllSound(searching) && Extends(h, searching)
    ensures var failed := PublishFailure(h, error, httpStatus, retryS, now); AllSound(failed) && Extends(h, failed)
  {}

  lemma FollowedIsSound(f: Feed, a: Answer)
    requires AllSound(f.history)
    ensures Sound(Followed(f, a).1, |f.history|)
  {
    hide Matches, HeldAge;
  }

  lemma ShowRoutesSound(g: Geometry, h: History, routes: seq<Entry>, s: Snapshot, a: Answer)
    requires routes != [] && AllSound(h) && Sound(s, |h|)
    ensures var shown := ShowRoutes(g, h, routes, s, a).0; AllSound(shown) && Extends(h, shown)
  {
    hide Enrich, LookedUp;
  }

  lemma SuccessIsSound(g: Geometry, f: Feed, a: Answer)
    requires f.routes != [] && AllSound(f.history)
    ensures AllSound(Succeed(g, f, a).history) && Extends(f.history, Succeed(g, f, a).history)
  {
    hide Followed, ShowRoutes, TargetSelection.Settle;
    var candidate := Followed(f, a).1;
    FollowedIsSound(f, a);
    SettleKeepsLength(Last(f.history).aircraft, candidate.aircraft, f.pending);
    var list := TargetSelection.Settle(Last(f.history).aircraft, candidate.aircraft, f.pending).0;
    ShowRoutesSound(g, f.history, f.routes, candidate.(aircraft := list), a);
  }

  lemma StepIsSound(env: Env, f: Feed, c: Cycle)
    requires f.routes != [] && AllSound(f.history) && f.backoffS <= MAX_BACKOFF_S
    ensures var next := Next(env, f, c);
            next.routes != [] && AllSound(next.history) && Extends(f.history, next.history) &&
            next.backoffS <= MAX_BACKOFF_S
  {
    hide Succeed, AllSound, PublishWaiting, PublishSearching, PublishFailure;
    PublishesSound(f.history, ConfigRequired, Config, 0, 0, c.startMs);
    PublishesSound(f.history, Offline, Wifi, 0, 0, c.startMs);
    PublishesSound(f.history, TimeSync, Time, 0, 0, c.startMs);
    var ready := f.(history := PublishSearching(f.history, c.startMs), focus := FocusSync(f.focus, c.focus, env.kinds));
    match c.outcome
    case Answered(a) =>
      SuccessIsSound(env.geometry, ready, a);
      SucceedKeeps(env.geometry, ready, a);
    case Failed(httpStatus, unreadable, retryAfterS, now) =>
      var (error, wait) := Diagnose(httpStatus, unreadable, retryAfterS, f.backoffS);
      PublishesSound(ready.history, Offline, error, httpStatus, wait, now);
    case Interrupted =>
  }

  lemma SucceedKeeps(g: Geometry, f: Feed, a: Answer)
    requires f.routes != []
    ensures var next := Succeed(g, f, a);
            next.routes != [] && next.backoffS == FIRST_BACKOFF_S && next.focus == Followed(f, a).0
  {
    hide Followed, Enrich, LookedUp, TargetSelection.Settle;
  }

  // ----- runs

  function After(env: Env, configured: bool, run: seq<Cycle>): (r: Feed)
    ensures r.routes != []
    decreases |run|
  {
    if run == [] then Start(configured)
    else
      var before := After(env, configured, Init(run));
      NextKeepsRoutes(env, before, Last(run));
      Next(env, before, Last(run))
  }

  lemma NextKeepsRoutes(env: Env, f: Feed, c: Cycle)
    requires f.routes != []
    ensures Next(env, f, c).routes != []
  {
    hide Succeed;
    var ready := f.(history := PublishSearching(f.history, c.startMs), focus := FocusSync(f.focus, c.focus, env.kinds));
    if c.outcome.Answered? { SucceedKeeps(env.geometry, ready, c.outcome.answer); }
  }

  /** Over every run, the n-th snapshot published has sequence n, and aircraft are
      shown exactly in the live and stale states. */
  lemma {:induction false} EverySnapshotSound(env: Env, configured: bool, run: seq<Cycle>)
    ensures AllSound(After(env, configured, run).history) && After(env, configured, run).backoffS <= MAX_BACKOFF_S
    ensures run != [] ==> Extends(After(env, configured, Init(run)).history, After(env, configured, run).history)
    decreases |run|
  {
    hide Next;
    if run != [] {
      EverySnapshotSound(env, configured, Init(run));
      StepIsSound(env, After(env, configured, Init(run)), Last(run));
    }
  }

  /** Waiting for the same reason again publishes nothing. */
  lemma WaitingSettles(h: History, state: State, error: Error, now: int, later: int)
    ensures var once := PublishWaiting(h, state, error, now); PublishWaiting(once, state, error, later) == once
  {}

  // ----- the followed flight, held

  /** The cycle gets as far as a parsed response. */
  predicate Polled(c: Cycle) { c.configured && c.online && c.timeValid && c.outcome.Answered? }

  /** The cycle brings no aircraft: a poll that missed or failed, or none at all. */
  predicate Missed(c: Cycle) { Polled(c) ==> c.outcome.answer.list == [] }

  function Current(f: Feed): Snapshot { Last(f.history) }

  /** The time, in milliseconds of the device's clock, at which the target was where it is shown. */
  function PositionMs(s: Snapshot): real
    requires s.aircraft != []
  {
    s.lastSuccessMs as real - 1000.0 * s.aircraft[0].seenPosS
  }

  /** How far the two clock reads of a successful poll lie apart. */
  function SlipMs(c: Cycle): int {
    if Polled(c) then c.outcome.answer.settleMs - c.outcome.answer.readMs else 0
  }

  function Ready(env: Env, f: Feed, c: Cycle): Feed {
    f.(history := PublishSearching(f.history, c.startMs), focus := FocusSync(f.focus, c.focus, env.kinds))
  }

  lemma WithoutAPoll(env: Env, f: Feed, c: Cycle)
    requires f.routes != [] && !Polled(c)
    ensures var s, t := Current(f), Current(Next(env, f, c));
            t.aircraft == s.aircraft && t.lastSuccessMs == s.lastSuccessMs
    ensures Next(env, f, c).pending == f.pending && Next(env, f, c).routes == f.routes
  {}

  /** Every snapshot a successful poll publishes has the followed list, but for order and routes. */
  predicate Shows(s: Snapshot, candidate: Snapshot, list: seq<Aircraft>) {
    && SameBut(list, s.aircraft) && s.lastSuccessMs == candidate.lastSuccessMs
  }

  lemma SameButTwice(a: seq<Aircraft>, b: seq<Aircraft>, c: seq<Aircraft>)
    requires SameBut(a, b) && SameBut(b, c)
    ensures SameBut(a, c)
  {}

  lemma ShowRoutesShows(g: Geometry, h: History, routes: seq<Entry>, s: Snapshot, a: Answer)
    requires routes != []
    ensures var shown := ShowRoutes(g, h, routes, s, a).0;
            |h| < |shown| && forall k :: |h| <= k < |shown| ==> Shows(shown[k], s, s.aircraft)
  {
    var (entries, first, wanted) := Enrich(g, routes, s.aircraft, a.routeMs, |s.aircraft|);
    EnrichOnlyRoutes(g, routes, s.aircraft, a.routeMs, |s.aircraft|);
    if wanted.Some? {
      var filled := LookedUp(entries, first[wanted.value].callsign, a.route);
      EnrichOnlyRoutes(g, filled, first, a.againMs, |first|);
      SameButTwice(s.aircraft, first, Enrich(g, filled, first, a.againMs, |first|).1);
    }
    hide SameBut, Enrich, LookedUp;
  }

  function Settled(f: Feed, a: Answer): (seq<Aircraft>, TargetSelection.Pending) {
    TargetSelection.Settle(Current(f).aircraft, Followed(f, a).1.aircraft, f.pending)
  }

  lemma SuccessShows(g: Geometry, f: Feed, a: Answer)
    requires f.routes != []
    ensures var h := Succeed(g, f, a).history;
            |f.history| < |h| && forall k :: |f.history| <= k < |h| ==> Shows(h[k], Followed(f, a).1, Settled(f, a).0)
    ensures Succeed(g, f, a).pending == Settled(f, a).1
  {
    hide Followed, ShowRoutes, TargetSelection.Settle, SameBut;
    var candidate := Followed(f, a).1.(aircraft := Settled(f, a).0);
    ShowRoutesShows(g, f.history, f.routes, candidate, a);
  }

  /** After an empty answer the target is the last one shown, still within the hold, or there is none. */
  lemma MissedSettles(f: Feed, a: Answer)
    requires a.list == []
    ensures var s, list := Current(f), Settled(f, a).0;
            var held := f.focus.focus != "" && Holds(s, f.focus.focus, a.settleMs);
            list == if held then [s.aircraft[0].(seenPosS := HeldAge(s, a.settleMs))] else []
    ensures Followed(f, a).1.lastSuccessMs == a.readMs
  {
    hide Matches, HeldAge;
  }

  /** What one missed poll publishes: nothing older than the hold, and exactly
      then nothing at all when the flight is another one or its position too old. */
  lemma MissedPublishes(g: Geometry, f: Feed, a: Answer)
    requires f.routes != [] && a.list == [] && Current(f).lastSuccessMs <= a.settleMs
    ensures var h, s := Succeed(g, f, a).history, Current(f);
            forall k :: |f.history| <= k < |h| ==>
              && (h[k].aircraft != [] ==> |h[k].aircraft| == 1 && h[k].aircraft[0].seenPosS <= FOCUS_HOLD_S)
              && (h[k].aircraft != [] <==>
                    && s.aircraft != [] && Matches(s.aircraft[0], f.focus.focus) && s.lastSuccessMs > 0
                    && a.settleMs as real - PositionMs(s) <= 1000.0 * FOCUS_HOLD_S)
  {
    MissedSettles(f, a);
    SuccessShows(g, f, a);
    hide Succeed, Followed, Settled, SameText;
  }

  /** One missed cycle: the target stays the same, and its position time moves back by
      exactly the time between the two clock reads. */
  lemma MissedKeepsPosition(env: Env, f: Feed, c: Cycle)
    requires f.routes != [] && Missed(c)
    requires Polled(c) ==> Current(f).lastSuccessMs <= c.outcome.answer.settleMs
    ensures var s, t := Current(f), Current(Next(env, f, c));
            t.aircraft != [] ==>
              && s.aircraft != []
              && Bare(t.aircraft[0]).(seenPosS := 0.0) == Bare(s.aircraft[0]).(seenPosS := 0.0)
              && PositionMs(t) == PositionMs(s) - SlipMs(c) as real
  {
    if Polled(c) {
      var ready, a := Ready(env, f, c), c.outcome.answer;
      assert Current(ready).aircraft == Current(f).aircraft && Current(ready).lastSuccessMs == Current(f).lastSuccessMs;
      MissedSettles(ready, a);
      SuccessShows(env.geometry, ready, a);
      assert Next(env, f, c) == Succeed(env.geometry, ready, a);
      hide Succeed, Followed, Settled, Next, Matches;
    } else {
      WithoutAPoll(env, f, c);
      hide Next;
    }
  }

  /** The clock never goes back from one successful poll to the next, nor within one. */
  predicate Clocked(run: seq<Cycle>) {
    && (forall k :: 0 <= k < |run| && Polled(run[k]) ==>
          0 <= run[k].outcome.answer.readMs <= run[k].outcome.answer.settleMs)
    && forall k, m :: 0 <= k < m < |run| && Polled(run[k]) && Polled(run[m]) ==>
         run[k].outcome.answer.readMs <= run[m].outcome.answer.readMs
  }

  lemma FollowedReads(f: Feed, a: Answer)
    ensures Followed(f, a).1.lastSuccessMs == a.readMs
  {}

  lemma LastSuccessStep(env: Env, f: Feed, c: Cycle)
    requires f.routes != []
    ensures Current(Next(env, f, c)).lastSuccessMs ==
            if Polled(c) then c.outcome.answer.readMs else Current(f).lastSuccessMs
  {
    if Polled(c) {
      FollowedReads(Ready(env, f, c), c.outcome.answer);
      SuccessShows(env.geometry, Ready(env, f, c), c.outcome.answer);
      assert Next(env, f, c) == Succeed(env.geometry, Ready(env, f, c), c.outcome.answer);
      hide Succeed, Followed, Settled, Next;
    } else {
      WithoutAPoll(env, f, c);
      hide Next;
    }
  }

  lemma {:induction false} LastSuccessIsPast(env: Env, configured: bool, run: seq<Cycle>, t: int)
    requires t >= 0 && forall k :: 0 <= k < |run| && Polled(run[k]) ==> run[k].outcome.answer.readMs <= t
    ensures Current(After(env, configured, run)).lastSuccessMs <= t
    decreases |run|
  {
    hide Next;
    if run != [] {
      LastSuccessIsPast(env, configured, Init(run), t);
      LastSuccessStep(env, After(env, configured, Init(run)), Last(run));
    }
  }

  function SlipsMs(run: seq<Cycle>, i: nat): int
    requires i <= |run|
    decreases |run|
  {
    if |run| == i then 0 else SlipsMs(Init(run), i) + SlipMs(Last(run))
  }

  lemma {:induction false} SlipsAreForward(run: seq<Cycle>, i: nat)
    requires i <= |run| && Clocked(run)
    ensures SlipsMs(run, i) >= 0
    decreases |run|
  {
    if i < |run| { SlipsAreForward(Init(run), i); }
  }

  /** Through any run of missed and failed polls and of waiting, as long as a target
      is shown it is the same one, and its position time is exactly what it was less
      the time between the clock reads: never later, so its shown age is never too small. */
  lemma {:induction false} HeldPositionIsExact(env: Env, configured: bool, run: seq<Cycle>, i: nat)
    requires i <= |run| && Clocked(run) && forall k :: i <= k < |run| ==> Missed(run[k])
    requires Current(After(env, configured, run)).aircraft != []
    ensures var s, t := Current(After(env, configured, run[..i])), Current(After(env, configured, run));
            && s.aircraft != []
            && Bare(t.aircraft[0]).(seenPosS := 0.0) == Bare(s.aircraft[0]).(seenPosS := 0.0)
            && PositionMs(t) == PositionMs(s) - SlipsMs(run, i) as real <= PositionMs(s)
    decreases |run|
  {
    hide Next, PositionMs;
    SlipsAreForward(run, i);
    if i == |run| {
      assert run[..i] == run;
    } else {
      var before, c := After(env, configured, Init(run)), Last(run);
      assert After(env, configured, run) == Next(env, before, c);
      hide After;
      if Polled(c) { LastSuccessIsPast(env, configured, Init(run), c.outcome.answer.readMs); }
      MissedKeepsPosition(env, before, c);
      HeldPositionIsExact(env, configured, Init(run), i);
      assert Init(run)[..i] == run[..i];
    }
  }

  // ----- the identity looked up

  /** The cycle gets as far as polling. */
  predicate Polling(c: Cycle) { c.configured && c.online && c.timeValid }

  predicate WellPlaced(l: Lookup) { if l.count == 0 then l.index == 0 else l.index < l.count }

  lemma FocusStep(env: Env, f: Feed, c: Cycle)
    requires f.routes != []
    ensures var l := Next(env, f, c).focus;
            if Polling(c) then
              var synced := FocusSync(f.focus, c.focus, env.kinds);
              if Polled(c) && c.focus != "" then
                if c.outcome.answer.list != [] then l == synced.(resolved := true)
                else l == synced || (l == NextKind(synced) && Current(Next(env, f, c)).aircraft == [])
              else l == synced
            else l == f.focus
    ensures Polled(c) && c.focus != "" && c.outcome.answer.list == [] && Current(f).aircraft == [] ==>
              Next(env, f, c).focus == NextKind(FocusSync(f.focus, c.focus, env.kinds)) &&
              Current(Next(env, f, c)).aircraft == []
  {
    var ready := Ready(env, f, c);
    if Polled(c) {
      var a := c.outcome.answer;
      assert Current(ready).aircraft == Current(f).aircraft;
      assert Next(env, f, c) == Succeed(env.geometry, ready, a);
      SucceedKeeps(env.geometry, ready, a);
      SuccessShows(env.geometry, ready, a);
      if a.list == [] { MissedSettles(ready, a); }
      hide Succeed, Settled, Next, Matches, HeldAge, NextKind, PublishSearching;
    } else {
      hide PublishWaiting, PublishSearching, PublishFailure, NextKind;
    }
  }

  /** The lookup in use is always one of those that are plausible. */
  lemma {:induction false} LookupIsPlausible(env: Env, configured: bool, run: seq<Cycle>)
    ensures WellPlaced(After(env, configured, run).focus)
    decreases |run|
  {
    hide Next;
    if run != [] {
      LookupIsPlausible(env, configured, Init(run));
      FocusStep(env, After(env, configured, Init(run)), Last(run));
    }
  }

  /** Once a lookup has answered, it is kept as long as the flight followed is the same. */
  lemma {:induction false} AnswerPins(env: Env, configured: bool, run: seq<Cycle>, i: nat)
    requires i <= |run| && After(env, configured, run[..i]).focus.resolved
    requires forall k :: i <= k < |run| && Polling(run[k]) ==>
               run[k].focus == After(env, configured, run[..i]).focus.focus
    ensures After(env, configured, run).focus == After(env, configured, run[..i]).focus
    decreases |run|
  {
    hide Next;
    if i == |run| {
      assert run[..i] == run;
    } else {
      assert Init(run)[..i] == run[..i];
      AnswerPins(env, configured, Init(run), i);
      FocusStep(env, After(env, configured, Init(run)), Last(run));
    }
  }

  predicate MissedFor(c: Cycle, focus: string) { Polled(c) && c.focus == focus && c.outcome.answer.list == [] }

  predicate AllMissed(run: seq<Cycle>, from: nat, focus: string) {
    forall k :: from <= k < |run| ==> MissedFor(run[k], focus)
  }

  /** A flight is followed, no lookup has found it, and none is shown. */
  predicate Seeking(f: Feed) {
    f.focus.focus != "" && !f.focus.resolved && f.focus.count > 0 && Current(f).aircraft == []
  }

  /** The lookup in use n turns after `index`. */
  function Turn(index: nat, n: nat, count: nat): nat
    requires count > 0
  {
    (index + n) % count
  }

  /** While nothing is found, the plausible identities take turns. */
  lemma {:induction false} MissesTakeTurns(env: Env, configured: bool, run: seq<Cycle>, f: Feed, i: nat)
    requires i <= |run| && f == After(env, configured, run[..i])
    requires Seeking(f) && AllMissed(run, i, f.focus.focus)
    ensures SoughtFor(f, |run| - i, After(env, configured, run))
    decreases |run|
  {
    hide Next, Seeking, Turn, MissedFor;
    if i == |run| {
      LookupIsPlausible(env, configured, run);
      assert run[..i] == run;
      NoTurnsYet(f);
    } else {
      assert Init(run)[..i] == run[..i];
      MissesTakeTurns(env, configured, Init(run), f, i);
      OneMoreMiss(env, f, |run| - 1 - i, After(env, configured, Init(run)), Last(run));
    }
  }

  /** After n misses from f on, the lookup has gone on by n turns. */
  predicate SoughtFor(f: Feed, n: nat, g: Feed) {
    && f.focus.count > 0 && Current(g).aircraft == []
    && g.focus == f.focus.(index := Turn(f.focus.index, n, f.focus.count))
  }

  lemma NoTurnsYet(f: Feed)
    requires Seeking(f) && WellPlaced(f.focus)
    ensures SoughtFor(f, 0, f)
  {}

  lemma IndexSought(f: Feed, n: nat, g: Feed)
    requires SoughtFor(f, n, g)
    ensures f.focus.count > 0 && g.focus.index == Turn(f.focus.index, n, f.focus.count)
  {}

  lemma OneMoreMiss(env: Env, f: Feed, n: nat, g: Feed, c: Cycle)
    requires g.routes != [] && Seeking(f) && SoughtFor(f, n, g) && MissedFor(c, f.focus.focus)
    ensures SoughtFor(f, n + 1, Next(env, g, c))
  {
    hide Next;
    FocusStep(env, g, c);
    OneTurn(f.focus.index, n, f.focus.count);
    hide Turn;
  }

  lemma OneTurn(index: nat, n: nat, count: nat)
    requires count > 0
    ensures (Turn(index, n, count) + 1) % count == Turn(index, n + 1, count)
    ensures count == 1 ==> Turn(index, n + 1, count) == 0
  {
    var q, r := (index + n) / count, (index + n) % count;
    assert index + n == q * count + r;
    if r + 1 == count {
      assert (q + 1) * count == q * count + count;
      Remainder(index + n + 1, q + 1, 0, count);
      Remainder(r + 1, 1, 0, count);
    } else {
      Remainder(index + n + 1, q, r + 1, count);
      Remainder(r + 1, 0, r + 1, count);
    }
  }

  lemma Remainder(a: nat, q: nat, r: nat, m: nat)
    requires r < m && a == q * m + r
    ensures a % m == r
  {
    var d := a / m;
    if d > q { OneMore(q, d, m); } else if d < q { OneMore(d, q, m); }
  }

  lemma {:induction false} OneMore(x: nat, y: nat, m: nat)
    requires x < y
    ensures x * m + m <= y * m
    decreases y
  {
    assert y * m == (y - 1) * m + m;
    if x < y - 1 { OneMore(x, y - 1, m); }
  }

  /** The number of misses after which lookup d is in use. */
  function Until(index: nat, d: nat, count: nat): (n: nat)
    requires index < count && d < count
    ensures n < count && Turn(index, n, count) == d
  {
    if d >= index then
      Remainder(d, 0, d, count);
      d - index
    else
      Remainder(d + count, 1, d, count);
      d + count - index
  }

  /** So each of them is tried within as many polls as there are. */
  lemma EveryIdentityTried(env: Env, configured: bool, run: seq<Cycle>, f: Feed, i: nat, d: nat) returns (k: nat)
    requires i <= |run| && f == After(env, configured, run[..i])
    requires Seeking(f) && AllMissed(run, i, f.focus.focus) && d < f.focus.count <= |run| - i
    ensures i <= k < |run| && After(env, configured, run[..k]).focus.index == d
  {
    hide *;
    IndexIsPlausible(env, configured, run[..i], f);
    var n := Until(f.focus.index, d, f.focus.count);
    k := i + n;
    AfterMisses(env, configured, run, f, i, n);
  }

  lemma IndexIsPlausible(env: Env, configured: bool, run: seq<Cycle>, f: Feed)
    requires f == After(env, configured, run) && Seeking(f)
    ensures f.focus.index < f.focus.count
  {
    LookupIsPlausible(env, configured, run);
    hide After;
  }

  lemma StillMissed(run: seq<Cycle>, from: nat, to: nat, focus: string)
    requires to <= |run| && AllMissed(run, from, focus)
    ensures AllMissed(run[..to], from, focus)
  {}

  lemma AfterMisses(env: Env, configured: bool, run: seq<Cycle>, f: Feed, i: nat, n: nat)
    requires i + n <= |run| && f == After(env, configured, run[..i])
    requires Seeking(f) && AllMissed(run, i, f.focus.focus)
    ensures f.focus.count > 0
    ensures After(env, configured, run[..i + n]).focus.index == Turn(f.focus.index, n, f.focus.count)
  {
    hide *;
    var sofar := run[..i + n];
    assert sofar[..i] == run[..i];
    StillMissed(run, i, i + n, f.focus.focus);
    MissesTakeTurns(env, configured, sofar, f, i);
    IndexSought(f, n, After(env, configured, sofar));
  }

  // ----- the target

  /** The lists that the target is chosen from, one for each successful poll. */
  function Candidates(env: Env, configured: bool, run: seq<Cycle>): seq<seq<Aircraft>>
    decreases |run|
  {
    if run == [] then []
    else
      var before := Candidates(env, configured, Init(run));
      if !Polled(Last(run)) then before
      else
        var ready := Ready(env, After(env, configured, Init(run)), Last(run));
        before + [Followed(ready, Last(run).outcome.answer).1.aircraft]
  }

  lemma SettleIgnoresRoutes(a: seq<Aircraft>, b: seq<Aircraft>, list: seq<Aircraft>, p: TargetSelection.Pending)
    requires SameBut(a, b)
    ensures TargetSelection.Settle(a, list, p) == TargetSelection.Settle(b, list, p)
  {
    if a != [] { assert Bare(a[0]).hex == Bare(b[0]).hex; }
  }

  /** The aircraft shown after any run are those that the target selection shows after
      its polls, whatever failed or waited in between; only routes are added. */
  lemma {:induction false} ShowsTheSelection(env: Env, configured: bool, run: seq<Cycle>)
    ensures var f := After(env, configured, run);
            var selection := TargetSelection.After(Candidates(env, configured, run));
            SameBut(selection.shown, Current(f).aircraft) && f.pending == selection.pending
    decreases |run|
  {
    if run == [] { return; }
    hide Next, TargetSelection.Settle, SameBut;
    var f, c := After(env, configured, Init(run)), Last(run);
    ShowsTheSelection(env, configured, Init(run));
    if Polled(c) {
      var ready, a := Ready(env, f, c), c.outcome.answer;
      var polls := Candidates(env, configured, run);
      assert Init(polls) == Candidates(env, configured, Init(run));
      ReadyKeeps(env, f, c);
      SuccessShows(env.geometry, ready, a);
      SettleIgnoresRoutes(TargetSelection.After(Init(polls)).shown, Current(f).aircraft, Last(polls), f.pending);
      hide Succeed, Followed;
    } else {
      WithoutAPoll(env, f, c);
    }
  }

  lemma ReadyKeeps(env: Env, f: Feed, c: Cycle)
    requires f.routes != [] && Polled(c)
    ensures var ready := Ready(env, f, c);
            && Current(ready).aircraft == Current(f).aircraft && ready.pending == f.pending && ready.routes == f.routes
            && Next(env, f, c) == Succeed(env.geometry, ready, c.outcome.answer)
  {}

  predicate Named(list: seq<Aircraft>) { forall i :: 0 <= i < |list| ==> list[i].hex != "" }

  lemma ReorderedIsNamed(list: seq<Aircraft>, k: nat)
    requires Named(list) && k < |list|
    ensures Named(TargetSelection.ToFront(list, k))
  {}

  lemma ShownAreNamed(polls: seq<seq<Aircraft>>)
    requires TargetSelection.Identified(polls)
    ensures Named(TargetSelection.After(polls).shown)
  {
    if polls != [] {
      var k := TargetSelection.ShownIsReordered(polls);
      assert Named(polls[|polls| - 1]);
      if TargetSelection.After(polls).shown != Last(polls) { ReorderedIsNamed(Last(polls), k); }
      hide Named, TargetSelection.After;
    }
  }

  lemma SameButNamed(a: seq<Aircraft>, b: seq<Aircraft>)
    requires SameBut(a, b) && Named(a)
    ensures Named(b)
  {
    forall i | 0 <= i < |b| ensures b[i].hex != "" { assert Bare(a[i]).hex == Bare(b[i]).hex; }
  }

  lemma FollowedAreNamed(f: Feed, a: Answer)
    requires Named(Current(f).aircraft) && Named(a.list)
    ensures Named(Followed(f, a).1.aircraft)
  {
    hide Matches, HeldAge;
  }

  /** The parser lets no aircraft through without an identity. */
  predicate AllNamed(run: seq<Cycle>) {
    forall k :: 0 <= k < |run| && Polled(run[k]) ==> Named(run[k].outcome.answer.list)
  }

  lemma OneMoreIdentified(polls: seq<seq<Aircraft>>, list: seq<Aircraft>)
    requires TargetSelection.Identified(polls) && Named(list)
    ensures TargetSelection.Identified(polls + [list])
  {}

  lemma {:induction false} CandidatesIdentified(env: Env, configured: bool, run: seq<Cycle>)
    requires AllNamed(run)
    ensures TargetSelection.Identified(Candidates(env, configured, run))
    decreases |run|
  {
    if run != [] {
      var f, c := After(env, configured, Init(run)), Last(run);
      var before := Candidates(env, configured, Init(run));
      assert AllNamed(Init(run)) by { assert forall k :: 0 <= k < |run| - 1 ==> Init(run)[k] == run[k]; }
      CandidatesIdentified(env, configured, Init(run));
      hide TargetSelection.After, Next, Followed, Named, SameBut, TargetSelection.Identified;
      if Polled(c) {
        ReadyKeeps(env, f, c);
        ShowsTheSelection(env, configured, Init(run));
        ShownAreNamed(before);
        SameButNamed(TargetSelection.After(before).shown, Current(f).aircraft);
        FollowedAreNamed(Ready(env, f, c), c.outcome.answer);
        OneMoreIdentified(before, Followed(Ready(env, f, c), c.outcome.answer).1.aircraft);
      }
    }
  }

  /** Over any run, the target shown changes only in a successful poll, and then only
      when the old one is no longer in the list, or the new one is at most nine tenths
      as far, or the new one led the poll before as well while the old one was kept. */
  lemma TargetChangesForAReason(env: Env, configured: bool, run: seq<Cycle>)
    requires run != [] && AllNamed(run)
    requires var s, t := Current(After(env, configured, Init(run))), Current(After(env, configured, run));
             s.aircraft != [] && t.aircraft != [] && s.aircraft[0].hex != t.aircraft[0].hex
    ensures var s, t := Current(After(env, configured, Init(run))), Current(After(env, configured, run));
            var polls := Candidates(env, configured, run);
            && Polled(Last(run)) && polls != [] && Last(polls) != []
            && var target, list := s.aircraft[0].hex, Last(polls);
            var k := TargetSelection.IndexOf(list, target, 0);
            && t.aircraft[0].hex == list[0].hex
            && (|| k == |list|
                || list[0].distanceNm <= list[k].distanceNm * 0.9
                || (|polls| >= 2 && polls[|polls| - 2] != [] && polls[|polls| - 2][0].hex == list[0].hex &&
                    var kept := TargetSelection.After(Init(Init(polls))).shown;
                    kept != [] && kept[0].hex == target))
  {
    var f, g := After(env, configured, Init(run)), After(env, configured, run);
    var polls := Candidates(env, configured, run);
    WithoutAPollAt(env, f, Last(run));
    ShowsTheSelection(env, configured, Init(run));
    ShowsTheSelection(env, configured, run);
    CandidatesIdentified(env, configured, run);
    assert Init(polls) == Candidates(env, configured, Init(run));
    SameFirst(TargetSelection.After(Init(polls)).shown, Current(f).aircraft);
    SameFirst(TargetSelection.After(polls).shown, Current(g).aircraft);
    hide After, Candidates, Next, SameBut, TargetSelection.After, TargetSelection.Identified;
    TargetSelection.SwitchesForAReason(polls);
  }

  lemma WithoutAPollAt(env: Env, f: Feed, c: Cycle)
    requires f.routes != []
    ensures !Polled(c) ==> Current(Next(env, f, c)).aircraft == Current(f).aircraft
  {
    if !Polled(c) { WithoutAPoll(env, f, c); }
  }

  lemma SameFirst(a: seq<Aircraft>, b: seq<Aircraft>)
    requires SameBut(a, b)
    ensures |a| == |b| && (a != [] ==> a[0].hex == b[0].hex)
  {
    if a != [] { assert Bare(a[0]).hex == Bare(b[0]).hex; }
  }
}
