/**
  * The schedule lookups that cost credit: one service cycle after another, for the
  * followed flight or for a check asked for from the dashboard.
  */
module LookupBudget {
  import opened Common

  const DAILY_CAP: nat := 12
  const MIN_REMAINING: int := 3
  const DAY_MS: int := 24 * 3600 * 1000
  const BOOT_GRACE_MS: int := 20000
  const EVENT_REFRESH_MS: int := 20 * 60 * 1000
  const STALE_MS: int := 6 * 3600 * 1000
  const RETRY_ERROR_MS: int := 10 * 60 * 1000
  const RETRY_NOT_FOUND_MS: int := 3 * 3600 * 1000
  const RETRY_DENIED_MS: int := 6 * 3600 * 1000
  const ROUTE_RETRY_MS: int := 5 * 60 * 1000
  const USAGE_REFRESH_MS: int := 6 * 3600 * 1000

  datatype Schedule = NoKey | Idle | Good | NotFound | Unauthorized | Quota | Error | Unsupported

  /** What reading a response body can give. */
  type Parsed = s: Schedule | s == Good || s == NotFound || s == Error witness Good

  datatype Budget = Budget(keySet: bool, usageValid: bool, remaining: int, callsToday: nat)

  /** `route` holds the flight number in ICAO form, possibly empty, once the route is known. */
  datatype Info = Info(code: string, route: Option<string>, schedule: Schedule)

  datatype CheckState = NoCheck | Pending | Done

  datatype Check = Check(state: CheckState, query: string, scheduleRequested: bool,
                         route: Option<string>, schedule: Schedule)

  /** The route lookup for the followed flight. */
  datatype Routing = Routing(key: string, done: bool, attemptMs: int)

  /** The schedule lookups for the followed flight; `events` says that one is wanted. */
  datatype Timing = Timing(events: bool, attemptMs: int, fetchMs: int)

  const NO_ROUTING := Routing("", false, 0)
  const NO_TIMING := Timing(false, 0, 0)

  datatype Flight = Flight(
    quota: Budget, info: Info, check: Check, checkDoneMs: int, usageDirty: bool,
    route: Routing, timing: Timing, usageFetchedMs: int, dayStartMs: int)

  const UNCHECKED := Check(NoCheck, "", false, None, NoKey)

  function Boot(keySet: bool): Flight {
    Flight(Budget(keySet, false, 0, 0), Info("", None, if keySet then Idle else NoKey), UNCHECKED,
           0, false, NO_ROUTING, NO_TIMING, 0, 0)
  }

  /** The three tests of a flight code: airline callsign, IATA flight number, safe in a URL. */
  datatype Codes = Codes(airline: string -> bool, iata: string -> bool, safe: string -> bool)

  /** The schedule service's answer: whether it came whole, its status (0 for none) and its body. */
  datatype Reply = Reply(whole: bool, status: nat, parsed: Parsed)

  datatype RouteReply = RouteReply(answered: bool, route: Option<string>)

  datatype UsageReply = Remaining(left: int) | Denied | NoUsage

  /** What one service cycle meets: `callsign` is the followed aircraft's own, or empty;
      `event` a takeoff or approach, `nextLeg` a new takeoff after a landing;
      `logoJob` says that fetching the airline's logo takes the cycle, `doneMs` is the
      time when a check is done. */
  datatype Cycle = Cycle(now: int, doneMs: int, focus: string, callsign: string, event: bool, nextLeg: bool,
                         route: RouteReply, reply: Reply, usage: UsageReply, logoJob: bool)

  // ----- the steps of a cycle

  predicate DayOver(f: Flight, now: int) { f.dayStartMs == 0 || now - f.dayStartMs >= DAY_MS }

  function RollDay(f: Flight, now: int): Flight {
    if DayOver(f, now) then f.(dayStartMs := now, quota := f.quota.(callsToday := 0)) else f
  }

  predicate Available(q: Budget) {
    q.callsToday < DAILY_CAP && (!q.usageValid || q.remaining > MIN_REMAINING)
  }

  predicate Charged(reply: Reply) { reply.status == 200 || reply.status == 201 }

  function Answer(reply: Reply): Schedule {
    if !reply.whole && reply.status == 0 then Error
    else if Charged(reply) then if reply.whole then reply.parsed else Error
    else if reply.status == 404 then NotFound
    else if reply.status == 401 || reply.status == 403 then Unauthorized
    else if reply.status == 402 || reply.status == 429 then Quota
    else Error
  }

  /** A lookup, what it found, and whether it was billed. */
  function Lookup(codes: Codes, f: Flight, code: string, reply: Reply): (Flight, Schedule, bool) {
    if !codes.safe(code) then (f, Unsupported, false)
    else if Charged(reply) then
      (f.(quota := f.quota.(callsToday := f.quota.callsToday + 1), usageDirty := true), Answer(reply), true)
    else (f, Answer(reply), false)
  }

  function CheckSchedule(codes: Codes, f: Flight, route: Option<string>, reply: Reply): (Flight, Schedule, bool) {
    var icao := route.GetOr("") != "";
    var code := if icao then route.value else f.check.query;
    if !f.check.scheduleRequested then (f, Idle, false)
    else if !f.quota.keySet then (f, NoKey, false)
    else if !icao && !codes.iata(code) && !codes.airline(code) then (f, Unsupported, false)
    else if !Available(f.quota) then (f, Quota, false)
    else Lookup(codes, f, code, reply)
  }

  function RunCheck(codes: Codes, f: Flight, c: Cycle): (Flight, bool) {
    var (g, schedule, billed) := CheckSchedule(codes, f, c.route.route, c.reply);
    (g.(check := g.check.(state := Done, route := c.route.route, schedule := schedule), checkDoneMs := c.doneMs),
     billed)
  }

  /** A check made just now found the flight that is to be followed. */
  predicate CheckCovers(f: Flight, focus: string, now: int) {
    focus != "" && f.check.state == Done && now - f.checkDoneMs < EVENT_REFRESH_MS &&
    (f.check.query == focus || f.check.route.GetOr("") == focus)
  }

  function ResetFocus(f: Flight, focus: string, now: int): Flight {
    var known := CheckCovers(f, focus, now);
    var paid := known && f.check.scheduleRequested && f.check.schedule == Good;
    f.(info := Info(focus, if known then f.check.route else None,
                    if paid then Good else if f.quota.keySet then Idle else NoKey),
       route := if known && f.check.route.Some? then Routing(focus, true, 0) else NO_ROUTING,
       timing := if paid then Timing(false, f.checkDoneMs, f.checkDoneMs) else NO_TIMING)
  }

  predicate ScheduleDue(f: Flight, now: int) {
    match f.info.schedule
    case Idle => now > BOOT_GRACE_MS
    case Good => (f.timing.events && now - f.timing.fetchMs > EVENT_REFRESH_MS) || now - f.timing.fetchMs > STALE_MS
    case NotFound => now - f.timing.attemptMs > RETRY_NOT_FOUND_MS
    case Unauthorized => now - f.timing.attemptMs > RETRY_DENIED_MS
    case Quota => now - f.timing.attemptMs > RETRY_DENIED_MS
    case Error => now - f.timing.attemptMs > RETRY_ERROR_MS
    case _ => false
  }

  /** The day rolled, the focus followed and what ADS-B saw taken in. */
  function Prepare(f: Flight, c: Cycle): Flight {
    var g := RollDay(f, c.now);
    var h := if g.info.code != c.focus then ResetFocus(g, c.focus, c.now) else g;
    if h.info.code == "" then h
    else h.(timing := h.timing.(events := h.timing.events || c.event),
            route := h.route.(done := h.route.done && !c.nextLeg))
  }

  function Callsign(codes: Codes, f: Flight, c: Cycle): string {
    if f.info.code != "" && c.callsign != "" then c.callsign
    else if codes.airline(f.info.code) then f.info.code else ""
  }

  predicate RouteJob(f: Flight, callsign: string, now: int) {
    f.info.code != "" && callsign != "" &&
    (callsign != f.route.key || (!f.route.done && now - f.route.attemptMs > ROUTE_RETRY_MS))
  }

  function LookUpRoute(codes: Codes, f: Flight, callsign: string, c: Cycle): Flight {
    f.(route := Routing(callsign, c.route.answered, c.now),
       info := f.info.(route := c.route.route,
                       schedule := if f.info.schedule == Unsupported && codes.airline(callsign) then Idle
                                   else f.info.schedule))
  }

  function Settle(f: Flight, found: Schedule, now: int): Flight {
    if found == Good then f.(info := f.info.(schedule := Good), timing := Timing(false, now, now))
    else if f.info.schedule == Good then f.(timing := Timing(false, now, f.timing.fetchMs))
    else f.(info := f.info.(schedule := found), timing := f.timing.(attemptMs := now))
  }

  function FollowedCode(f: Flight, callsign: string): string {
    if f.info.route.GetOr("") != "" then f.info.route.value else callsign
  }

  function LookUpFollowed(codes: Codes, f: Flight, callsign: string, c: Cycle): (Flight, bool) {
    var code := FollowedCode(f, callsign);
    var (g, found, billed) :=
      if !codes.airline(code) then (f, Unsupported, false)
      else if !Available(f.quota) then (f, Quota, false)
      else Lookup(codes, f, code, c.reply);
    (Settle(g, found, c.now), billed)
  }

  predicate UsageDue(f: Flight, now: int) {
    f.quota.keySet && (f.usageDirty || f.usageFetchedMs == 0 || now - f.usageFetchedMs > USAGE_REFRESH_MS)
  }

  function LookUpUsage(f: Flight, c: Cycle): Flight {
    var g := f.(usageFetchedMs := c.now, usageDirty := false);
    match c.usage
    case Remaining(left) => g.(quota := g.quota.(usageValid := true, remaining := left))
    case Denied => g.(quota := g.quota.(usageValid := false))
    case NoUsage => g
  }

  /** One cycle does one job, the most wanted first; also says whether a lookup was billed. */
  function Service(codes: Codes, f: Flight, c: Cycle): (Flight, bool) {
    var g := Prepare(f, c);
    var callsign := Callsign(codes, g, c);
    if g.check.state == Pending then RunCheck(codes, g, c)
    else if RouteJob(g, callsign, c.now) then (LookUpRoute(codes, g, callsign, c), false)
    else if g.info.code != "" && g.quota.keySet && ScheduleDue(g, c.now) then LookUpFollowed(codes, g, callsign, c)
    else if g.info.code != "" && c.logoJob then (g, false)
    else if UsageDue(g, c.now) then (LookUpUsage(g, c), false)
    else (g, false)
  }

  function SetKey(f: Flight, given: bool): Flight {
    f.(quota := f.quota.(keySet := given, usageValid := false), usageDirty := given,
       info := if f.info.schedule == Good then f.info
               else f.info.(schedule := if given then Idle else NoKey))
  }

  function RequestCheck(f: Flight, query: string, schedule: bool): Flight {
    f.(check := Check(Pending, query, schedule, None, NoKey))
  }

  // ----- in place

  class FlightInfo {
    const codes: Codes
    var quota: Budget
    var info: Info
    var check: Check
    var checkDoneMs: int
    var usageDirty: bool
    var route: Routing
    var timing: Timing
    var usageFetchedMs: int
    var dayStartMs: int

    function State(): Flight
      reads this
    {
      Flight(quota, info, check, checkDoneMs, usageDirty, route, timing, usageFetchedMs, dayStartMs)
    }

    constructor (codes: Codes, keySet: bool)
      ensures State() == Boot(keySet) && this.codes == codes
    {
      this.codes := codes;
      quota := Budget(keySet, false, 0, 0);
      info := Info("", None, if keySet then Idle else NoKey);
      check, checkDoneMs := UNCHECKED, 0;
      route, timing := NO_ROUTING, NO_TIMING;
      usageDirty, usageFetchedMs, dayStartMs := false, 0, 0;
    }

    method ScheduleLookup(code: string, reply: Reply) returns (found: Schedule, billed: bool)
      modifies this
      ensures (State(), found, billed) == Lookup(codes, old(State()), code, reply)
    {
      if !codes.safe(code) {
        return Unsupported, false;
      }
      billed := reply.status == 200 || reply.status == 201;
      if !reply.whole && reply.status == 0 {
        found := Error;
      } else if billed {
        quota := quota.(callsToday := quota.callsToday + 1);
        usageDirty := true;
        found := if reply.whole then reply.parsed else Error;
      } else {
        found := match reply.status
          case 404 => NotFound
          case 401 | 403 => Unauthorized
          case 402 | 429 => Quota
          case _ => Error;
      }
    }

    method CheckNow(c: Cycle) returns (billed: bool)
      modifies this
      ensures (State(), billed) == RunCheck(codes, old(State()), c)
    {
      hide Lookup;
      var found;
      found, billed := Idle, false;
      var icao := c.route.route.GetOr("") != "";
      var code := if icao then c.route.route.value else check.query;
      if check.scheduleRequested {
        if !quota.keySet {
          found := NoKey;
        } else if !icao && !codes.iata(code) && !codes.airline(code) {
          found := Unsupported;
        } else if !Available(quota) {
          found := Quota;
        } else {
          found, billed := ScheduleLookup(code, c.reply);
        }
      }
      check := check.(state := Done, route := c.route.route, schedule := found);
      checkDoneMs := c.doneMs;
    }

    method ChangeFocus(focus: string, now: int)
      modifies this
      ensures State() == ResetFocus(old(State()), focus, now)
    {
      info := Info(focus, None, if quota.keySet then Idle else NoKey);
      route, timing := NO_ROUTING, NO_TIMING;
      if CheckCovers(State(), focus, now) {
        if check.route.Some? {
          info := info.(route := check.route);
          route := Routing(focus, true, 0);
        }
        if check.scheduleRequested && check.schedule == Good {
          info := info.(schedule := Good);
          timing := Timing(false, checkDoneMs, checkDoneMs);
        }
      }
    }

    method FollowedLookup(callsign: string, c: Cycle) returns (billed: bool)
      modifies this
      ensures (State(), billed) == LookUpFollowed(codes, old(State()), callsign, c)
    {
      hide Lookup;
      var code := FollowedCode(State(), callsign);
      var found;
      found, billed := Unsupported, false;
      if codes.airline(code) {
        if !Available(quota) {
          found := Quota;
        } else {
          found, billed := ScheduleLookup(code, c.reply);
        }
      }
      timing := timing.(attemptMs := c.now);
      if found == Good {
        timing := timing.(fetchMs := c.now, events := false);
      }
      if found == Good || info.schedule != Good {
        info := info.(schedule := found);
      } else {
        timing := timing.(events := false);
      }
    }

    method Start(c: Cycle)
      modifies this
      ensures State() == Prepare(old(State()), c)
    {
      hide ResetFocus;
      if dayStartMs == 0 || c.now - dayStartMs >= DAY_MS {
        dayStartMs := c.now;
        quota := quota.(callsToday := 0);
      }
      if info.code != c.focus {
        ChangeFocus(c.focus, c.now);
      }
      if info.code != "" {
        timing := timing.(events := timing.events || c.event);
        route := route.(done := route.done && !c.nextLeg);
      }
    }

    method Serve(c: Cycle) returns (billed: bool)
      modifies this
      ensures (State(), billed) == Service(codes, old(State()), c)
    {
      hide Prepare, RunCheck, LookUpFollowed, ScheduleDue;
      billed := false;
      Start(c);
      if check.state == Pending {
        billed := CheckNow(c);
        return;
      }
      var callsign := if info.code != "" && c.callsign != "" then c.callsign
                      else if codes.airline(info.code) then info.code else "";
      if info.code != "" && callsign != "" &&
         (callsign != route.key || (!route.done && c.now - route.attemptMs > ROUTE_RETRY_MS)) {
        route := Routing(callsign, c.route.answered, c.now);
        info := info.(route := c.route.route);
        if info.schedule == Unsupported && codes.airline(callsign) {
          info := info.(schedule := Idle);
        }
        return;
      }
      if info.code != "" && quota.keySet && ScheduleDue(State(), c.now) {
        billed := FollowedLookup(callsign, c);
        return;
      }
      if info.code != "" && c.logoJob {
        return;
      }
      if UsageDue(State(), c.now) {
        usageFetchedMs, usageDirty := c.now, false;
        match c.usage {
          case Remaining(left) => quota := quota.(usageValid := true, remaining := left);
          case Denied => quota := quota.(usageValid := false);
          case NoUsage =>
        }
      }
    }
  }
}
