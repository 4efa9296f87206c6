/** How soon after a billed lookup for the followed flight the next one can be billed. */
module LookupRepeats {
  import opened Common
  import opened LookupBudget
  import opened LookupRuns

  // ----- one cycle

  /** Nothing that is wanted more takes this cycle, and there are a flight and a key. */
  predicate Free(codes: Codes, g: Flight, c: Cycle) {
    && g.check.state != Pending && !RouteJob(g, Callsign(codes, g, c), c.now)
    && g.info.code != "" && g.quota.keySet
  }

  /** A lookup made now would be billed. */
  predicate Payable(codes: Codes, g: Flight, c: Cycle) {
    var code := FollowedCode(g, Callsign(codes, g, c));
    codes.airline(code) && codes.safe(code) && Available(g.quota) && Charged(c.reply)
  }

  /** The cycle is billed for the followed flight. */
  predicate BilledFollowed(codes: Codes, f: Flight, c: Cycle) {
    Prepare(f, c).check.state != Pending && Service(codes, f, c).1
  }

  lemma BilledWhen(codes: Codes, f: Flight, c: Cycle)
    ensures var g := Prepare(f, c);
            BilledFollowed(codes, f, c) <==> Free(codes, g, c) && ScheduleDue(g, c.now) && Payable(codes, g, c)
  {
    hide Prepare, RouteJob, ScheduleDue, Callsign, RunCheck;
  }

  /** With the flight unchanged, a cycle starts with the day rolled and events noted. */
  lemma SameFlightPrepares(f: Flight, c: Cycle)
    requires c.focus == f.info.code
    ensures var g := Prepare(f, c);
            && g.info == f.info && g.check == f.check
            && g.timing == f.timing.(events := g.timing.events)
            && (g.timing.events <==> f.timing.events || (c.event && f.info.code != ""))
  {}

  /** What a billed lookup leaves behind. */
  predicate Left(f: Flight, t: int) {
    && f.timing.attemptMs == t && f.info.code != ""
    && f.info.schedule in {Good, NotFound, Error}
    && (f.info.schedule == Good ==>
          !f.timing.events && (f.timing.fetchMs == t || t - f.timing.fetchMs > EVENT_REFRESH_MS))
  }

  lemma BilledLeaves(codes: Codes, f: Flight, c: Cycle)
    requires BilledFollowed(codes, f, c)
    ensures Left(Service(codes, f, c).0, c.now) && Service(codes, f, c).0.info.code == c.focus
  {
    BilledWhen(codes, f, c);
    PrepareFollows(f, c);
    var g := Prepare(f, c);
    hide Prepare, RouteJob, Callsign, RunCheck;
  }

  lemma PrepareFollows(f: Flight, c: Cycle)
    ensures Prepare(f, c).info.code == c.focus
  {}

  // ----- what stays until the next billed lookup

  /** At time u, within twenty minutes of the billed lookup at t that left `left`
      behind, and with none billed since: good details stay as they are, whatever
      keys come; the rest stays not good, and as it is while no key has come. */
  predicate Since(left: Flight, t: int, f: Flight, u: int, keyed: bool) {
    && f.info.code == left.info.code && t <= f.timing.attemptMs <= u
    && if left.info.schedule == Good
       then f.info.schedule == Good && f.timing.fetchMs == left.timing.fetchMs
       else f.info.schedule != Good && (keyed || Unkeyed(left, t, f))
  }

  /** Nothing found stays so; an error stays, or was followed by a lookup that was not
      billed more than ten minutes after t. */
  predicate Unkeyed(left: Flight, t: int, f: Flight) {
    match left.info.schedule
    case NotFound => f.info.schedule == NotFound && f.timing.attemptMs == t
    case Error =>
      || (f.info.schedule == Error && f.timing.attemptMs == t)
      || (f.timing.attemptMs > t + RETRY_ERROR_MS && f.info.schedule != NoKey)
    case _ => false
  }

  lemma LeftSince(left: Flight, t: int)
    requires Left(left, t)
    ensures Since(left, t, left, t, false)
  {}

  lemma CheckKeepsFlight(codes: Codes, f: Flight, c: Cycle)
    ensures var g := RunCheck(codes, f, c).0; g.info == f.info && g.timing == f.timing
  {}

  /** A followed lookup that is made but not billed finds nothing good. */
  lemma UnbilledSettles(codes: Codes, g: Flight, callsign: string, c: Cycle)
    requires !LookUpFollowed(codes, g, callsign, c).1
    ensures var h := LookUpFollowed(codes, g, callsign, c).0;
            && h.info.code == g.info.code && h.timing.attemptMs == c.now && h.timing.fetchMs == g.timing.fetchMs
            && (g.info.schedule == Good ==> h.info.schedule == Good)
            && (g.info.schedule != Good ==> h.info.schedule in {Unsupported, Quota, NotFound, Unauthorized, Error})
  {}

  lemma OthersKeepFlight(codes: Codes, g: Flight, callsign: string, c: Cycle)
    ensures var h := LookUpRoute(codes, g, callsign, c);
            && h.info.code == g.info.code && h.timing == g.timing
            && (h.info.schedule == g.info.schedule || (g.info.schedule == Unsupported && h.info.schedule == Idle))
    ensures var h := LookUpUsage(g, c); h.info == g.info && h.timing == g.timing
  {}

  lemma CycleKeepsSince(codes: Codes, left: Flight, t: int, f: Flight, u: int, keyed: bool, c: Cycle)
    requires Since(left, t, f, u, keyed) && c.focus == f.info.code && u <= c.now <= t + EVENT_REFRESH_MS
    requires !BilledFollowed(codes, f, c)
    ensures Since(left, t, Service(codes, f, c).0, c.now, keyed)
  {
    SameFlightPrepares(f, c);
    var g := Prepare(f, c);
    var callsign := Callsign(codes, g, c);
    CheckKeepsFlight(codes, g, c);
    OthersKeepFlight(codes, g, callsign, c);
    hide Prepare, RunCheck, RouteJob, LookUpRoute, LookUpUsage, LookUpFollowed, UsageDue, Callsign;
    if !LookUpFollowed(codes, g, callsign, c).1 { UnbilledSettles(codes, g, callsign, c); }
  }

  /** When, within twenty minutes, the next lookup is due.  Good details that the last
      one failed to refresh: with a takeoff or an approach since, if they are more than
      twenty minutes old, or else if they are more than six hours old.  Otherwise: at
      once when a key, or a code that can be looked up at last, has made a fresh start;
      or ten minutes after an error. */
  predicate Repeats(left: Flight, g: Flight, now: int) {
    if left.info.schedule == Good then
      || (g.timing.events && now - left.timing.fetchMs > EVENT_REFRESH_MS)
      || now - left.timing.fetchMs > STALE_MS
    else
      || (g.info.schedule == Idle && now > BOOT_GRACE_MS)
      || (g.info.schedule == Error && now - g.timing.attemptMs > RETRY_ERROR_MS)
  }

  lemma DueWithinTwenty(left: Flight, t: int, f: Flight, u: int, keyed: bool, c: Cycle)
    requires Left(left, t) && Since(left, t, f, u, keyed) && c.focus == f.info.code
    requires u <= c.now <= t + EVENT_REFRESH_MS
    ensures var g := Prepare(f, c); ScheduleDue(g, c.now) <==> Repeats(left, g, c.now)
    ensures Repeats(left, Prepare(f, c), c.now) ==>
              if left.info.schedule == Good then left.timing.fetchMs != t
              else !keyed ==> left.info.schedule == Error && c.now - t > RETRY_ERROR_MS
  {
    SameFlightPrepares(f, c);
    hide Prepare;
  }

  // ----- over runs

  predicate BilledAt(codes: Codes, keySet: bool, run: seq<Event>, k: nat)
    requires k < |run|
  {
    run[k].Serve? && BilledFollowed(codes, After(codes, keySet, run[..k]), run[k].cycle)
  }

  /** From event i to event j the flight followed is the same. */
  predicate SameFlight(run: seq<Event>, i: nat, j: nat)
    requires i < |run| && j < |run| && run[i].Serve?
  {
    forall k :: i < k <= j ==> run[k].Serve? ==> run[k].cycle.focus == run[i].cycle.focus
  }

  /** A key has come after event i and before event n. */
  predicate Keyed(run: seq<Event>, i: nat, n: nat)
    requires n <= |run|
  {
    exists k :: i < k < n && run[k].NewKey?
  }

  lemma AfterNext(codes: Codes, keySet: bool, run: seq<Event>, k: nat)
    requires k < |run|
    ensures After(codes, keySet, run[..k + 1]) == Next(codes, After(codes, keySet, run[..k]), run[k]).0
  {
    assert Init(run[..k + 1]) == run[..k];
  }

  lemma BilledLeavesAt(codes: Codes, keySet: bool, run: seq<Event>, i: nat)
    requires i < |run| && BilledAt(codes, keySet, run, i)
    ensures var left := After(codes, keySet, run[..i + 1]);
            Left(left, run[i].cycle.now) && left.info.code == run[i].cycle.focus
  {
    AfterNext(codes, keySet, run, i);
    BilledLeaves(codes, After(codes, keySet, run[..i]), run[i].cycle);
    hide After, Service, BilledFollowed;
  }

  /** The time of the last cycle among the first n events, no earlier than t. */
  function Latest(run: seq<Event>, n: nat, t: int): int
    requires n <= |run|
  {
    if n == 0 then t else if run[n - 1].Serve? then run[n - 1].cycle.now else Latest(run, n - 1, t)
  }

  lemma {:induction false} LatestBounds(run: seq<Event>, i: nat, n: nat, t: int)
    requires InTime(run) && i < n <= |run| && run[i].Serve?
    ensures run[i].cycle.now <= Latest(run, n, t)
    ensures forall j :: n <= j < |run| && run[j].Serve? ==> Latest(run, n, t) <= run[j].cycle.now
    decreases n
  {
    if !run[n - 1].Serve? { LatestBounds(run, i, n - 1, t); }
  }

  /** Up to event n the flight is the same, and no lookup after the one at i was billed. */
  predicate NoneBilled(codes: Codes, keySet: bool, run: seq<Event>, i: nat, n: nat)
    requires n <= |run|
  {
    forall k :: i < k < n ==> !BilledAt(codes, keySet, run, k)
  }

  lemma NoneBilledAt(codes: Codes, keySet: bool, run: seq<Event>, i: nat, n: nat, f: Flight)
    requires i < n < |run| && NoneBilled(codes, keySet, run, i, n + 1) && f == After(codes, keySet, run[..n])
    ensures NoneBilled(codes, keySet, run, i, n)
    ensures run[n].Serve? ==> !BilledFollowed(codes, f, run[n].cycle)
  {
    hide BilledFollowed, After;
    assert !BilledAt(codes, keySet, run, n);
  }

  lemma SinceStarts(codes: Codes, keySet: bool, run: seq<Event>, i: nat, left: Flight)
    requires i < |run| && BilledAt(codes, keySet, run, i) && left == After(codes, keySet, run[..i + 1])
    ensures Since(left, run[i].cycle.now, left, Latest(run, i + 1, 0), Keyed(run, i, i + 1))
         && left.info.code == run[i].cycle.focus
  {
    hide After, BilledFollowed, Left, Since;
    BilledLeavesAt(codes, keySet, run, i);
    LeftSince(left, run[i].cycle.now);
  }

  lemma LatestGrows(run: seq<Event>, i: nat, n: nat)
    requires InTime(run) && i < n < |run| && run[i].Serve?
    ensures Latest(run, n, 0) <= Latest(run, n + 1, 0)
    ensures Latest(run, n + 1, 0) == if run[n].Serve? then run[n].cycle.now else Latest(run, n, 0)
  {
    LatestBounds(run, i, n, 0);
    hide InTime;
  }

  lemma FocusStays(run: seq<Event>, i: nat, n: nat)
    requires i < n < |run| && run[i].Serve? && SameFlight(run, i, n)
    ensures SameFlight(run, i, n - 1)
    ensures Keyed(run, i, n + 1) == (Keyed(run, i, n) || run[n].NewKey?)
    ensures run[n].Serve? ==> run[n].cycle.focus == run[i].cycle.focus
  {}

  lemma {:induction false} SinceThrough(codes: Codes, keySet: bool, run: seq<Event>, i: nat, n: nat,
                                        left: Flight, t: int)
    requires i < n <= |run| && BilledAt(codes, keySet, run, i) && run[i].Serve? && t == run[i].cycle.now
    requires InTime(run) && SameFlight(run, i, n - 1) && NoneBilled(codes, keySet, run, i, n)
    requires left == After(codes, keySet, run[..i + 1]) && Latest(run, n, 0) <= t + EVENT_REFRESH_MS
    ensures Since(left, t, After(codes, keySet, run[..n]), Latest(run, n, 0), Keyed(run, i, n))
         && left.info.code == run[i].cycle.focus
    decreases n
  {
    hide *;
    SinceStarts(codes, keySet, run, i, left);
    if n > i + 1 {
      var k := n - 1;
      var f := After(codes, keySet, run[..k]);
      LatestGrows(run, i, k);
      FocusStays(run, i, k);
      NoneBilledAt(codes, keySet, run, i, k, f);
      SinceThrough(codes, keySet, run, i, k, left, t);
      SinceFollows(left, t, f, Latest(run, k, 0), Keyed(run, i, k));
      EventKeepsSince(codes, left, t, f, Latest(run, k, 0), Keyed(run, i, k), run[k]);
      AfterNext(codes, keySet, run, k);
    }
  }

  lemma SinceFollows(left: Flight, t: int, f: Flight, u: int, keyed: bool)
    requires Since(left, t, f, u, keyed)
    ensures f.info.code == left.info.code
  {}

  lemma EventKeepsSince(codes: Codes, left: Flight, t: int, f: Flight, u: int, keyed: bool, e: Event)
    requires Since(left, t, f, u, keyed)
    requires e.Serve? ==> e.cycle.focus == f.info.code && u <= e.cycle.now <= t + EVENT_REFRESH_MS &&
                          !BilledFollowed(codes, f, e.cycle)
    ensures Since(left, t, Next(codes, f, e).0, if e.Serve? then e.cycle.now else u, keyed || e.NewKey?)
  {
    if e.Serve? { CycleKeepsSince(codes, left, t, f, u, keyed, e.cycle); }
    hide Service;
  }

  /** Exactly when two successive billed lookups for one flight lie at most twenty
      minutes apart, whatever keys and checks come between them. */
  lemma TwentyMinutesExactly(codes: Codes, keySet: bool, run: seq<Event>, i: nat, j: nat)
    requires InTime(run) && i < j < |run| && run[j].Serve?
    requires BilledAt(codes, keySet, run, i) && SameFlight(run, i, j)
    requires NoneBilled(codes, keySet, run, i, j)
    requires run[j].cycle.now - run[i].cycle.now <= EVENT_REFRESH_MS
    ensures var left, c := After(codes, keySet, run[..i + 1]), run[j].cycle;
            var g := Prepare(After(codes, keySet, run[..j]), c);
            BilledAt(codes, keySet, run, j) <==>
              Free(codes, g, c) && Payable(codes, g, c) && Repeats(left, g, c.now)
    ensures BilledAt(codes, keySet, run, j) ==>
              var left, t := After(codes, keySet, run[..i + 1]), run[i].cycle.now;
              if left.info.schedule == Good then left.timing.fetchMs != t
              else !Keyed(run, i, j) ==> left.info.schedule == Error && run[j].cycle.now - t > RETRY_ERROR_MS
  {
    var left, t, c := After(codes, keySet, run[..i + 1]), run[i].cycle.now, run[j].cycle;
    var f := After(codes, keySet, run[..j]);
    BilledLeavesAt(codes, keySet, run, i);
    LatestBounds(run, i, j, 0);
    SinceThrough(codes, keySet, run, i, j, left, t);
    SinceFollows(left, t, f, Latest(run, j, 0), Keyed(run, i, j));
    hide After, Left, BilledFollowed, Prepare, InTime, Repeats, Free, Payable, Since, Keyed;
    DueWithinTwenty(left, t, f, Latest(run, j, 0), Keyed(run, i, j), c);
    BilledWhen(codes, f, c);
  }

  /** So the twenty minutes hold after every lookup that succeeded, and, as long as no
      key comes, after every one that found nothing. */
  lemma TwentyMinutesKept(codes: Codes, keySet: bool, run: seq<Event>, i: nat, j: nat)
    requires InTime(run) && i < j < |run|
    requires BilledAt(codes, keySet, run, i) && BilledAt(codes, keySet, run, j) && SameFlight(run, i, j)
    requires NoneBilled(codes, keySet, run, i, j)
    requires var left := After(codes, keySet, run[..i + 1]);
             || (left.info.schedule == Good && left.timing.fetchMs == run[i].cycle.now)
             || (left.info.schedule == NotFound && !Keyed(run, i, j))
    ensures run[j].cycle.now - run[i].cycle.now > EVENT_REFRESH_MS
  {
    if run[j].cycle.now - run[i].cycle.now <= EVENT_REFRESH_MS {
      TwentyMinutesExactly(codes, keySet, run, i, j);
      hide After, BilledFollowed, Prepare, Free, Payable;
      assert false;
    }
  }

  /** And after one that failed to refresh stale details, the very next cycle that is
      free for it is billed again, until the cap is reached. */
  lemma StaleRefreshRepeats(codes: Codes, keySet: bool, run: seq<Event>, i: nat)
    requires InTime(run) && i + 1 < |run| && run[i + 1].Serve?
    requires BilledAt(codes, keySet, run, i) && SameFlight(run, i, i + 1)
    requires var left := After(codes, keySet, run[..i + 1]);
             left.info.schedule == Good && run[i].cycle.now - left.timing.fetchMs > STALE_MS
    ensures var c := run[i + 1].cycle;
            var g := Prepare(After(codes, keySet, run[..i + 1]), c);
            BilledAt(codes, keySet, run, i + 1) <==> Free(codes, g, c) && Payable(codes, g, c)
  {
    var left, c := After(codes, keySet, run[..i + 1]), run[i + 1].cycle;
    BilledLeavesAt(codes, keySet, run, i);
    hide After, BilledFollowed, Free, Payable;
    SameFlightPrepares(left, c);
    BilledWhen(codes, left, c);
    hide Prepare;
  }

  /** Good details are looked up again only 20 minutes on, and then only for a takeoff
      or an approach, or after six hours. */
  lemma RefreshIsOld(codes: Codes, f: Flight, c: Cycle)
    requires Service(codes, f, c).1 && f.check.state != Pending && f.info.schedule == Good && f.info.code == c.focus
    ensures c.now - f.timing.fetchMs > EVENT_REFRESH_MS
    ensures f.timing.events || c.event || c.now - f.timing.fetchMs > STALE_MS
  {
    hide LookUpFollowed, LookUpRoute;
  }

  // ----- runs from the start that come to it

  /** A cycle that follows the flight; its lookup, if made, is billed and reads as `parsed`. */
  function Follow(now: int, event: bool, parsed: Parsed): Event {
    Serve(Cycle(now, now, FLIGHT, "", event, false, RouteReply(true, None), Reply(true, 200, parsed), NoUsage, false))
  }

  /** The flight is followed, its route was looked up, and `calls` lookups were billed this day. */
  predicate Following(f: Flight, schedule: Schedule, timing: Timing, calls: nat) {
    && f.quota == Budget(true, false, 0, calls) && f.info == Info(FLIGHT, None, schedule) && f.check == UNCHECKED
    && f.route.key == FLIGHT && f.route.done && f.timing == timing && f.dayStartMs == 30000
  }

  const MINUTE := 60 * 1000

  lemma FirstFollows(codes: Codes)
    requires Known(codes)
    ensures Following(Next(codes, Boot(true), Follow(30000, false, Good)).0, Idle, NO_TIMING, 0)
  {}

  lemma OnceMore(codes: Codes, f: Flight, now: int, event: bool, parsed: Parsed,
                 schedule: Schedule, timing: Timing, calls: nat)
    requires Known(codes) && Following(f, schedule, timing, calls) && calls < DAILY_CAP && now - 30000 < DAY_MS
    requires ScheduleDue(f.(timing := timing.(events := timing.events || event)), now)
    ensures var e := Follow(now, event, parsed);
            && BilledFollowed(codes, f, e.cycle)
            && Following(Next(codes, f, e).0,
                         if parsed == Good || schedule == Good then Good else parsed,
                         if parsed == Good then Timing(false, now, now)
                         else if schedule == Good then Timing(false, now, timing.fetchMs)
                         else Timing(timing.events || event, now, timing.fetchMs),
                         calls + 1)
  {
    BilledWhen(codes, f, Follow(now, event, parsed).cycle);
  }

  /** The two events at `i` and `j` are billed, for one flight and at most twenty minutes apart. */
  predicate CloserThanTwenty(codes: Codes, run: seq<Event>, i: nat, j: nat) {
    && i < j < |run| && InTime(run) && BilledAt(codes, true, run, i) && BilledAt(codes, true, run, j)
    && SameFlight(run, i, j) && run[j].cycle.now - run[i].cycle.now <= EVENT_REFRESH_MS
  }

  lemma LastBilled(codes: Codes, run: seq<Event>, e: Event)
    requires e.Serve? && BilledFollowed(codes, After(codes, true, run), e.cycle)
    ensures BilledAt(codes, true, run + [e], |run|)
  {
    assert (run + [e])[..|run|] == run;
  }

  lemma StillBilled(codes: Codes, run: seq<Event>, e: Event, k: nat)
    requires k < |run| && BilledAt(codes, true, run, k)
    ensures BilledAt(codes, true, run + [e], k)
  {
    assert (run + [e])[..k] == run[..k];
  }

  /** One more cycle at the end of a run, billed. */
  lemma ExtendRun(codes: Codes, run: seq<Event>, now: int, event: bool, parsed: Parsed,
                  schedule: Schedule, timing: Timing, calls: nat)
    requires Known(codes) && Following(After(codes, true, run), schedule, timing, calls) && calls < DAILY_CAP
    requires now - 30000 < DAY_MS
    requires ScheduleDue(After(codes, true, run).(timing := timing.(events := timing.events || event)), now)
    ensures var more := run + [Follow(now, event, parsed)];
            && BilledAt(codes, true, more, |run|)
            && Following(After(codes, true, more),
                         if parsed == Good || schedule == Good then Good else parsed,
                         if parsed == Good then Timing(false, now, now)
                         else if schedule == Good then Timing(false, now, timing.fetchMs)
                         else Timing(timing.events || event, now, timing.fetchMs),
                         calls + 1)
  {
    var e := Follow(now, event, parsed);
    OnceMore(codes, After(codes, true, run), now, event, parsed, schedule, timing, calls);
    hide Following, BilledFollowed, Next;
    LastBilled(codes, run, e);
    assert Init(run + [e]) == run && Last(run + [e]) == e;
  }

  lemma Opens(codes: Codes, parsed: Parsed)
    requires Known(codes)
    ensures var run := [Follow(30000, false, Good), Follow(31000, false, parsed)];
            && BilledAt(codes, true, run, 1)
            && Following(After(codes, true, run), parsed, Timing(false, 31000, if parsed == Good then 31000 else 0), 1)
  {
    var run := [Follow(30000, false, Good)];
    assert Init(run) == [];
    assert run + [Follow(31000, false, parsed)] == [Follow(30000, false, Good), Follow(31000, false, parsed)];
    FirstFollows(codes);
    ExtendRun(codes, run, 31000, false, parsed, Idle, NO_TIMING, 0);
  }

  /** A billed answer that cannot be read is followed by the next one ten minutes on. */
  lemma UnreadableRepeats(codes: Codes)
    requires Known(codes)
    ensures CloserThanTwenty(codes, [Follow(30000, false, Good), Follow(31000, false, Error),
                                     Follow(31000 + 10 * MINUTE + 1, false, Error)], 1, 2)
  {
    assert DAILY_CAP > 1 && 31000 < MINUTE && 10 * MINUTE == RETRY_ERROR_MS && RETRY_ERROR_MS + 31000 < DAY_MS;
    assert RETRY_ERROR_MS < EVENT_REFRESH_MS;
    hide *;
    var now := 31000 + 10 * MINUTE + 1;
    var run, e := [Follow(30000, false, Good), Follow(31000, false, Error)], Follow(now, false, Error);
    Opens(codes, Error);
    RetryFails(codes, run, now, 31000, 1);
    StillBilled(codes, run, e, 1);
    assert run + [e] == [run[0], run[1], e];
    ThreeInTime(now);
    Closer(codes, run + [e], 1, 2);
  }

  /** A lookup tried again after an error, billed, but not to be read. */
  lemma RetryFails(codes: Codes, run: seq<Event>, now: int, attempt: int, calls: nat)
    requires Known(codes) && Following(After(codes, true, run), Error, Timing(false, attempt, 0), calls)
    requires calls < DAILY_CAP && now - 30000 < DAY_MS && now - attempt > RETRY_ERROR_MS
    ensures BilledAt(codes, true, run + [Follow(now, false, Error)], |run|)
  {
    ExtendRun(codes, run, now, false, Error, Error, Timing(false, attempt, 0), calls);
    hide After, BilledAt, Following;
  }

  lemma ThreeInTime(now: int)
    requires now > 31000
    ensures var run := [Follow(30000, false, Good), Follow(31000, false, Error), Follow(now, false, Error)];
            InTime(run) && run[1].Serve? && run[2].Serve? && SameFlight(run, 1, 2) &&
            run[1].cycle.now == 31000 && run[2].cycle.now == now
  {}

  /** A refresh of the details fetched at 31 s, wanted and billed, but not to be read. */
  lemma RefreshFails(codes: Codes, run: seq<Event>, now: int, event: bool, attempt: int, calls: nat)
    requires Known(codes) && Following(After(codes, true, run), Good, Timing(false, attempt, 31000), calls)
    requires calls < DAILY_CAP && now - 30000 < DAY_MS
    requires if event then now - 31000 > EVENT_REFRESH_MS else now - 31000 > STALE_MS
    ensures var more := run + [Follow(now, event, Error)];
            && BilledAt(codes, true, more, |run|)
            && Following(After(codes, true, more), Good, Timing(false, now, 31000), calls + 1)
  {
    ExtendRun(codes, run, now, event, Error, Good, Timing(false, attempt, 31000), calls);
    hide After, BilledAt, Following;
  }

  lemma Closer(codes: Codes, run: seq<Event>, i: nat, j: nat)
    requires i < j < |run| && InTime(run) && BilledAt(codes, true, run, i) && BilledAt(codes, true, run, j)
    requires SameFlight(run, i, j) && run[j].cycle.now - run[i].cycle.now <= EVENT_REFRESH_MS
    ensures CloserThanTwenty(codes, run, i, j)
  {}

  /** The flight's first good details, and two refreshes that fail. */
  function Failures(a: int, b: int, event: bool): seq<Event> {
    [Follow(30000, false, Good), Follow(31000, false, Good), Follow(a, event, Error), Follow(b, event, Error)]
  }

  lemma FailuresInTime(a: int, b: int, event: bool)
    requires 31000 < a <= b
    ensures var run := Failures(a, b, event);
            InTime(run) && run[2].Serve? && run[3].Serve? && SameFlight(run, 2, 3) &&
            run[2].cycle.now == a && run[3].cycle.now == b
  {}

  lemma FailuresBilled(codes: Codes, a: int, b: int, event: bool)
    requires Known(codes) && 31000 < a <= b && b - 30000 < DAY_MS
    requires if event then a - 31000 > EVENT_REFRESH_MS else a - 31000 > STALE_MS
    ensures |Failures(a, b, event)| == 4
    ensures BilledAt(codes, true, Failures(a, b, event), 2) && BilledAt(codes, true, Failures(a, b, event), 3)
  {
    assert DAILY_CAP > 3;
    var run := [Follow(30000, false, Good), Follow(31000, false, Good)];
    var e, d := Follow(a, event, Error), Follow(b, event, Error);
    assert Failures(a, b, event) == run + [e] + [d];
    hide *;
    Opens(codes, Good);
    RefreshFails(codes, run, a, event, 31000, 1);
    RefreshFails(codes, run + [e], b, event, a, 2);
    StillBilled(codes, run + [e], d, 2);
  }

  /** They are both billed: for events, or because the details are stale. */
  lemma TwoFailures(codes: Codes, a: int, b: int, event: bool)
    requires Known(codes) && 31000 < a <= b <= a + EVENT_REFRESH_MS && b - 30000 < DAY_MS
    requires if event then a - 31000 > EVENT_REFRESH_MS else a - 31000 > STALE_MS
    ensures CloserThanTwenty(codes, Failures(a, b, event), 2, 3)
  {
    hide *;
    FailuresBilled(codes, a, b, event);
    FailuresInTime(a, b, event);
    Closer(codes, Failures(a, b, event), 2, 3);
  }

  /** A takeoff, a refresh that cannot be read, and an approach five minutes later. */
  lemma FailedEventRepeats(codes: Codes)
    requires Known(codes)
    ensures CloserThanTwenty(codes, Failures(31000 + 21 * MINUTE, 31000 + 26 * MINUTE, true), 2, 3)
  {
    TwoFailures(codes, 31000 + 21 * MINUTE, 31000 + 26 * MINUTE, true);
  }

  /** Six hours on, a refresh that cannot be read is billed again five seconds later. */
  lemma StaleRepeats(codes: Codes)
    requires Known(codes)
    ensures CloserThanTwenty(codes, Failures(31000 + 361 * MINUTE, 36000 + 361 * MINUTE, false), 2, 3)
  {
    TwoFailures(codes, 31000 + 361 * MINUTE, 36000 + 361 * MINUTE, false);
  }

  // ----- what a new key, or the flight dropped and taken up again, does to it

  lemma KeyStartsAfresh(codes: Codes, run: seq<Event>, schedule: Schedule, timing: Timing, calls: nat)
    requires Following(After(codes, true, run), schedule, timing, calls) && schedule != Good
    ensures Following(After(codes, true, run + [NewKey(true)]), Idle, timing, calls)
  {
    assert Init(run + [NewKey(true)]) == run && Last(run + [NewKey(true)]) == NewKey(true);
  }

  /** The first lookup of a fresh start. */
  lemma FreshLookup(codes: Codes, run: seq<Event>, now: int, parsed: Parsed, timing: Timing, calls: nat)
    requires Known(codes) && Following(After(codes, true, run), Idle, timing, calls) && calls < DAILY_CAP
    requires BOOT_GRACE_MS < now < 30000 + DAY_MS
    ensures BilledAt(codes, true, run + [Follow(now, false, parsed)], |run|)
  {
    ExtendRun(codes, run, now, false, parsed, Idle, timing, calls);
    hide After, BilledAt, Following;
  }

  lemma KeyInTime()
    ensures var run := [Follow(30000, false, Good), Follow(31000, false, NotFound), NewKey(true),
                        Follow(36000, false, Good)];
            InTime(run) && run[1].Serve? && SameFlight(run, 1, 3) && Keyed(run, 1, 3)
  {
    assert NewKey(true).NewKey?;
    var run := [Follow(30000, false, Good), Follow(31000, false, NotFound), NewKey(true), Follow(36000, false, Good)];
    assert run[2].NewKey?;
  }

  /** Nothing found, a key set again, and the next lookup billed five seconds later. */
  lemma KeyRepeats(codes: Codes)
    requires Known(codes)
    ensures var run := [Follow(30000, false, Good), Follow(31000, false, NotFound), NewKey(true),
                        Follow(36000, false, Good)];
            && InTime(run) && BilledAt(codes, true, run, 1) && BilledAt(codes, true, run, 3)
            && SameFlight(run, 1, 3) && Keyed(run, 1, 3)
            && After(codes, true, run[..2]).info.schedule == NotFound
  {
    assert DAILY_CAP > 1 && BOOT_GRACE_MS < 36000 < 30000 + DAY_MS;
    hide *;
    var run, e := [Follow(30000, false, Good), Follow(31000, false, NotFound)], Follow(36000, false, Good);
    Opens(codes, NotFound);
    FollowingIs(After(codes, true, run), NotFound, Timing(false, 31000, 0), 1);
    KeyStartsAfresh(codes, run, NotFound, Timing(false, 31000, 0), 1);
    FreshLookup(codes, run + [NewKey(true)], 36000, Good, Timing(false, 31000, 0), 1);
    StillBilled(codes, run, NewKey(true), 1);
    StillBilled(codes, run + [NewKey(true)], e, 1);
    var all := run + [NewKey(true)] + [e];
    assert all == [run[0], run[1], NewKey(true), e] && all[..2] == run;
    KeyInTime();
  }

  lemma FollowingIs(f: Flight, schedule: Schedule, timing: Timing, calls: nat)
    requires Following(f, schedule, timing, calls)
    ensures f.info.schedule == schedule
  {}

  /** A cycle that follows no flight. */
  function Unfollow(now: int): Event {
    Serve(Cycle(now, now, "", "", false, false, RouteReply(true, None), Reply(true, 404, NotFound), NoUsage, false))
  }

  predicate Unfollowed(f: Flight, calls: nat) {
    && f.quota == Budget(true, false, 0, calls) && f.info.code == "" && f.check == UNCHECKED && f.dayStartMs == 30000
  }

  lemma Drops(codes: Codes, run: seq<Event>, schedule: Schedule, timing: Timing, calls: nat, now: int)
    requires Following(After(codes, true, run), schedule, timing, calls) && now - 30000 < DAY_MS
    ensures Unfollowed(After(codes, true, run + [Unfollow(now)]), calls)
  {
    assert Init(run + [Unfollow(now)]) == run && Last(run + [Unfollow(now)]) == Unfollow(now);
    hide After;
  }

  lemma TakesUp(codes: Codes, run: seq<Event>, calls: nat, now: int)
    requires Known(codes) && Unfollowed(After(codes, true, run), calls) && now - 30000 < DAY_MS
    ensures Following(After(codes, true, run + [Follow(now, false, Good)]), Idle, NO_TIMING, calls)
  {
    var e := Follow(now, false, Good);
    assert Init(run + [e]) == run && Last(run + [e]) == e;
    hide After;
  }

  /** Good details, the flight dropped and followed again: billed again 15 seconds later. */
  lemma RefollowRepeats(codes: Codes)
    requires Known(codes)
    ensures var run := [Follow(30000, false, Good), Follow(31000, false, Good), Unfollow(36000),
                        Follow(41000, false, Good), Follow(46000, false, Good)];
            && InTime(run) && BilledAt(codes, true, run, 1) && BilledAt(codes, true, run, 4)
  {
    assert DAILY_CAP > 1 && BOOT_GRACE_MS < 46000 < 30000 + DAY_MS;
    hide *;
    var run := [Follow(30000, false, Good), Follow(31000, false, Good)];
    var drop, take, e := Unfollow(36000), Follow(41000, false, Good), Follow(46000, false, Good);
    Opens(codes, Good);
    Drops(codes, run, Good, Timing(false, 31000, 31000), 1, 36000);
    TakesUp(codes, run + [drop], 1, 41000);
    FreshLookup(codes, run + [drop] + [take], 46000, Good, NO_TIMING, 1);
    StillBilled(codes, run, drop, 1);
    StillBilled(codes, run + [drop], take, 1);
    StillBilled(codes, run + [drop] + [take], e, 1);
    assert run + [drop] + [take] + [e] == [run[0], run[1], drop, take, e];
    FiveInTime();
  }

  lemma FiveInTime()
    ensures InTime([Follow(30000, false, Good), Follow(31000, false, Good), Unfollow(36000),
                    Follow(41000, false, Good), Follow(46000, false, Good)])
  {}
}
