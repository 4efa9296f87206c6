/** Which job a service cycle does, what a lookup finds, and when it is tried again. */
module LookupJobs {
  import opened Common
  import opened LookupBudget
  import opened LookupRuns
  import opened LookupRepeats

  // ----- what a lookup finds

  /** What an answer of the schedule service says: only a whole one with status 200 or 201
      is read; 404 is nothing found; 401 and 403 refuse the key; 402 and 429 the quota. */
  predicate Says(reply: Reply, found: Schedule) {
    && (reply.status in {200, 201} ==> found == if reply.whole then reply.parsed else Error)
    && (reply.whole || reply.status != 0 ==>
          && (reply.status == 404 ==> found == NotFound)
          && (reply.status in {401, 403} ==> found == Unauthorized)
          && (reply.status in {402, 429} ==> found == Quota))
    && (reply.status !in {200, 201, 401, 402, 403, 404, 429} ==> found == Error)
  }

  /** The code to look up: the route's flight number, or else the callsign flown, or the
      text followed. */
  function CodeOf(g: Flight, c: Cycle): string {
    if g.info.route.Some? && g.info.route.value != "" then g.info.route.value
    else if c.callsign != "" then c.callsign else c.focus
  }

  /** Which lookups are made for this code, and what is found. */
  predicate Finds(codes: Codes, q: Budget, code: string, reply: Reply, found: Schedule, billed: bool) {
    && (!codes.airline(code) ==> found == Unsupported && !billed)
    && (codes.airline(code) && !(q.callsToday < 12 && (!q.usageValid || q.remaining > 3)) ==> found == Quota && !billed)
    && (codes.airline(code) && q.callsToday < 12 && (!q.usageValid || q.remaining > 3) ==>
          if codes.safe(code) then Says(reply, found) && (billed <==> reply.status in {200, 201})
          else found == Unsupported && !billed)
  }

  lemma AnswerSays(reply: Reply)
    ensures Says(reply, Answer(reply))
  {}

  lemma LookupFinds(codes: Codes, g: Flight, callsign: string, c: Cycle) returns (found: Schedule)
    ensures var (h, billed) := LookUpFollowed(codes, g, callsign, c);
            && Finds(codes, g.quota, FollowedCode(g, callsign), c.reply, found, billed)
            && h == Settle(g.(quota := h.quota, usageDirty := h.usageDirty), found, c.now)
            && h.quota == g.quota.(callsToday := h.quota.callsToday)
  {
    AnswerSays(c.reply);
    var code := FollowedCode(g, callsign);
    found := if !codes.airline(code) then Unsupported else if !Available(g.quota) then Quota
             else Lookup(codes, g, code, c.reply).1;
    hide Answer, Says, FollowedCode;
  }

  /** The followed flight's lookup leaves what it found, except that good details outlive
      a lookup that finds none. */
  predicate FoundFor(g: Flight, h: Flight, found: Schedule, now: int) {
    && h.timing.attemptMs == now && h.route == g.route && h.info.route == g.info.route
    && h.info.schedule == (if found == Good || g.info.schedule == Good then Good else found)
    && h.timing.fetchMs == (if found == Good then now else g.timing.fetchMs)
    && (found == Good || g.info.schedule == Good ==> !h.timing.events)
    && (found != Good && g.info.schedule != Good ==> h.timing.events == g.timing.events)
  }

  lemma FollowedFinds(codes: Codes, f: Flight, c: Cycle) returns (found: Schedule)
    requires var g := Prepare(f, c); Free(codes, g, c) && ScheduleDue(g, c.now)
    ensures var g, (h, billed) := Prepare(f, c), Service(codes, f, c);
            && FoundFor(g, h, found, c.now)
            && (CodeOf(g, c) != c.focus || codes.airline(c.focus) ==>
                  Finds(codes, g.quota, CodeOf(g, c), c.reply, found, billed))
            && (billed && !codes.safe("") ==> codes.airline(CodeOf(g, c)) && codes.safe(CodeOf(g, c)))
  {
    var g := Prepare(f, c);
    PrepareFollows(f, c);
    var callsign := Callsign(codes, g, c);
    found := LookupFinds(codes, g, callsign, c);
    hide Prepare, ScheduleDue, RouteJob, LookUpFollowed;
  }

  /** A check finds the route, and on request the schedule, by its flight number or by the
      number as typed. */
  lemma CheckFinds(codes: Codes, f: Flight, c: Cycle)
    requires Prepare(f, c).check.state == Pending
    ensures var g, (h, billed) := Prepare(f, c), Service(codes, f, c);
            var icao := c.route.route.Some? && c.route.route.value != "";
            var code := if icao then c.route.route.value else g.check.query;
            && h.check == g.check.(state := Done, route := c.route.route, schedule := h.check.schedule)
            && h.checkDoneMs == c.doneMs
            && (!g.check.scheduleRequested ==> h.check.schedule == Idle && !billed)
            && (g.check.scheduleRequested && !g.quota.keySet ==> h.check.schedule == NoKey && !billed)
            && (g.check.scheduleRequested && g.quota.keySet ==>
                  Finds(codes.(airline := (x: string) => icao || codes.iata(x) || codes.airline(x)), g.quota, code,
                        c.reply, h.check.schedule, billed))
  {
    AnswerSays(c.reply);
    hide Prepare, Answer, Says;
  }

  // ----- which job is done

  /** One cycle does one job: a check; or else the route of a callsign that is new, or that
      was not answered five minutes ago; or else the schedule, when due; or else the logo;
      or else what is left of the quota, after a billed lookup or every six hours. */
  lemma JobsInOrder(codes: Codes, f: Flight, c: Cycle)
    ensures var g, h := Prepare(f, c), Service(codes, f, c).0;
            var callsign := if c.focus != "" && c.callsign != "" then c.callsign
                            else if codes.airline(c.focus) then c.focus else "";
            if g.check.state == Pending then
              h.check.state == Done && h.info == g.info && h.timing == g.timing && h.route == g.route &&
              h.usageFetchedMs == g.usageFetchedMs
            else if c.focus != "" && callsign != "" &&
                    (callsign != g.route.key || (!g.route.done && c.now - g.route.attemptMs > 300000)) then
              h == g.(route := Routing(callsign, c.route.answered, c.now), info := h.info) &&
              h.info == Info(c.focus, c.route.route,
                             if g.info.schedule == Unsupported && codes.airline(callsign) then Idle
                             else g.info.schedule)
            else if c.focus != "" && g.quota.keySet && ScheduleDue(g, c.now) then
              h.timing.attemptMs == c.now && h.check == g.check && h.route == g.route &&
              h.usageFetchedMs == g.usageFetchedMs
            else if c.focus != "" && c.logoJob then h == g
            else if g.quota.keySet &&
                    (g.usageDirty || g.usageFetchedMs == 0 || c.now - g.usageFetchedMs > 21600000) then
              && h == g.(usageFetchedMs := c.now, usageDirty := false, quota := h.quota)
              && h.quota == (if c.usage.Remaining? then g.quota.(usageValid := true, remaining := c.usage.left)
                             else if c.usage.Denied? then g.quota.(usageValid := false) else g.quota)
            else h == g
  {
    PrepareFollows(f, c);
    CheckTallies(codes, Prepare(f, c), c);
    var g := Prepare(f, c);
    var found := LookupFinds(codes, g, Callsign(codes, g, c), c);
    hide Prepare, ScheduleDue, LookUpFollowed;
  }

  // ----- a flight newly followed

  /** A check done less than 20 minutes ago that found the flight, by its text or by its
      flight number. */
  predicate JustChecked(f: Flight, focus: string, now: int) {
    && focus != "" && f.check.state == Done && now - f.checkDoneMs < 1200000
    && (f.check.query == focus || f.check.route == Some(focus))
  }

  /** A new flight starts with what such a check found, and otherwise with nothing. */
  lemma NewFlight(f: Flight, c: Cycle)
    requires c.focus != f.info.code
    ensures var g := Prepare(f, c);
            var checked := JustChecked(f, c.focus, c.now);
            && g.info.code == c.focus && g.check == f.check
            && g.info.route == (if checked then f.check.route else None)
            && (checked && f.check.scheduleRequested && f.check.schedule == Good ==>
                  g.info.schedule == Good && g.timing.fetchMs == f.checkDoneMs)
            && (!(checked && f.check.scheduleRequested && f.check.schedule == Good) ==>
                  g.info.schedule == (if f.quota.keySet then Idle else NoKey) && g.timing.fetchMs == 0)
            && (g.timing.events ==> c.event)
            && (g.route.done ==> checked && f.check.route.Some? && g.route.key == c.focus && !c.nextLeg)
  {}

  /** The same flight goes on as it was: events add up, and a new leg asks for the route again. */
  lemma SameFlightGoesOn(f: Flight, c: Cycle)
    requires c.focus == f.info.code
    ensures var g := Prepare(f, c);
            && g == f.(dayStartMs := g.dayStartMs, quota := g.quota, timing := g.timing, route := g.route)
            && g.timing == f.timing.(events := f.timing.events || (c.event && c.focus != ""))
            && g.route == f.route.(done := f.route.done && !(c.nextLeg && c.focus != ""))
  {}

  /** So details that a check paid for are not looked up again when the flight is followed. */
  lemma CheckSavesLookup(codes: Codes, f: Flight, c: Cycle)
    requires c.focus != f.info.code && JustChecked(f, c.focus, c.now)
    requires f.check.scheduleRequested && f.check.schedule == Good
    ensures !BilledFollowed(codes, f, c) && !Service(codes, f, c).1
  {
    NewFlight(f, c);
    BilledWhen(codes, f, c);
    hide Prepare;
  }

  /** What a new key changes: details that are not good are looked up afresh. */
  lemma NewKeyStarts(f: Flight, given: bool)
    ensures var g := SetKey(f, given);
            && g == f.(quota := g.quota, info := g.info, usageDirty := given)
            && g.quota == f.quota.(keySet := given, usageValid := false)
            && g.info == f.info.(schedule := if f.info.schedule == Good then Good else if given then Idle else NoKey)
  {}

  // ----- when a lookup is tried again

  /** The cycle makes, or gives up, a lookup for the followed flight. */
  predicate TriedAt(codes: Codes, keySet: bool, run: seq<Event>, k: nat)
    requires k < |run|
  {
    run[k].Serve? &&
    var g := Prepare(After(codes, keySet, run[..k]), run[k].cycle);
    Free(codes, g, run[k].cycle) && ScheduleDue(g, run[k].cycle.now)
  }

  /** The time to wait after a lookup that was not good: ten minutes after an error, three
      hours when nothing was found, six when the key or the quota was refused. */
  function RetryMs(s: Schedule): int {
    match s
    case Error => 600000
    case NotFound => 10800000
    case Unauthorized => 21600000
    case Quota => 21600000
    case _ => 0
  }

  predicate Retried(s: Schedule) { s in {Error, NotFound, Unauthorized, Quota} }

  predicate Untried(codes: Codes, keySet: bool, run: seq<Event>, i: nat, n: nat)
    requires n <= |run|
  {
    forall k :: i < k < n ==> !TriedAt(codes, keySet, run, k)
  }

  /** The flight, what was found for it and when stay the same. */
  predicate Still(f: Flight, code: string, schedule: Schedule, attemptMs: int) {
    f.info.code == code && f.info.schedule == schedule && f.timing.attemptMs == attemptMs
  }

  lemma UntriedEventKeeps(codes: Codes, f: Flight, e: Event, code: string, schedule: Schedule, attemptMs: int)
    requires Still(f, code, schedule, attemptMs) && Retried(schedule) && !e.NewKey?
    requires e.Serve? ==> e.cycle.focus == code &&
                          !(Free(codes, Prepare(f, e.cycle), e.cycle) && ScheduleDue(Prepare(f, e.cycle), e.cycle.now))
    ensures Still(Next(codes, f, e).0, code, schedule, attemptMs)
  {
    if e.Serve? {
      SameFlightPrepares(f, e.cycle);
      JobsInOrder(codes, f, e.cycle);
      hide Prepare, Service, ScheduleDue;
    }
  }

  lemma {:induction false} UntriedKeeps(codes: Codes, keySet: bool, run: seq<Event>, i: nat, n: nat, left: Flight)
    requires i < n <= |run| && run[i].Serve? && SameFlight(run, i, n - 1) && !Keyed(run, i, n)
    requires Untried(codes, keySet, run, i, n) && left == After(codes, keySet, run[..i + 1])
    requires Retried(left.info.schedule) && left.info.code == run[i].cycle.focus
    ensures Still(After(codes, keySet, run[..n]), left.info.code, left.info.schedule, left.timing.attemptMs)
    decreases n
  {
    hide Next, After, Free, ScheduleDue, Prepare, Retried;
    if n > i + 1 {
      var k := n - 1;
      UntriedKeeps(codes, keySet, run, i, k, left);
      AfterNext(codes, keySet, run, k);
      assert !TriedAt(codes, keySet, run, k);
      UntriedEventKeeps(codes, After(codes, keySet, run[..k]), run[k], left.info.code, left.info.schedule,
                        left.timing.attemptMs);
    }
  }

  /** After a lookup that left no good details, the same flight is looked up again, no key
      having come, exactly in the first free cycle after the time to wait. */
  lemma TriedAgainExactly(codes: Codes, keySet: bool, run: seq<Event>, i: nat, j: nat)
    requires i < j < |run| && TriedAt(codes, keySet, run, i) && run[j].Serve?
    requires SameFlight(run, i, j) && !Keyed(run, i, j) && Untried(codes, keySet, run, i, j)
    requires Retried(After(codes, keySet, run[..i + 1]).info.schedule)
    ensures var left, c := After(codes, keySet, run[..i + 1]), run[j].cycle;
            TriedAt(codes, keySet, run, j) <==>
              Free(codes, Prepare(After(codes, keySet, run[..j]), c), c) &&
              c.now - run[i].cycle.now > RetryMs(left.info.schedule)
  {
    var left, c := After(codes, keySet, run[..i + 1]), run[j].cycle;
    var f := After(codes, keySet, run[..j]);
    LeftByTry(codes, keySet, run, i);
    UntriedKeeps(codes, keySet, run, i, j, left);
    SameFlightPrepares(f, c);
    hide After, Prepare, Free;
  }

  lemma LeftByTry(codes: Codes, keySet: bool, run: seq<Event>, i: nat)
    requires i < |run| && TriedAt(codes, keySet, run, i)
    ensures var left := After(codes, keySet, run[..i + 1]);
            left.info.code == run[i].cycle.focus && left.timing.attemptMs == run[i].cycle.now
  {
    var f, c := After(codes, keySet, run[..i]), run[i].cycle;
    AfterNext(codes, keySet, run, i);
    PrepareFollows(f, c);
    var g := Prepare(f, c);
    var found := LookupFinds(codes, g, Callsign(codes, g, c), c);
    hide After, Prepare, ScheduleDue, RouteJob, Callsign, LookUpFollowed;
  }
}
