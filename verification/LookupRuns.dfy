/** How many lookups a run of cycles can be billed for, whatever happens between them. */
module LookupRuns {
  import opened Common
  import opened LookupBudget

  datatype Event = Serve(cycle: Cycle) | NewKey(given: bool) | Ask(query: string, schedule: bool)

  function Next(codes: Codes, f: Flight, e: Event): (Flight, bool) {
    match e
    case Serve(c) => Service(codes, f, c)
    case NewKey(given) => (SetKey(f, given), false)
    case Ask(query, schedule) => (RequestCheck(f, query, schedule), false)
  }

  function After(codes: Codes, keySet: bool, run: seq<Event>): Flight
    decreases |run|
  {
    if run == [] then Boot(keySet) else Next(codes, After(codes, keySet, Init(run)), Last(run)).0
  }

  predicate Billed(codes: Codes, keySet: bool, run: seq<Event>, k: nat)
    requires k < |run|
  {
    Next(codes, After(codes, keySet, run[..k]), run[k]).1
  }

  /** The count of calls starts again at event k. */
  predicate Resets(codes: Codes, keySet: bool, run: seq<Event>, k: nat)
    requires k < |run|
  {
    run[k].Serve? && DayOver(After(codes, keySet, run[..k]), run[k].cycle.now)
  }

  /** The number of lookups billed in events i to j. */
  function Bills(codes: Codes, keySet: bool, run: seq<Event>, i: nat, j: nat): nat
    requires i <= j <= |run|
    decreases j
  {
    if i == j then 0
    else Bills(codes, keySet, run, i, j - 1) + if Billed(codes, keySet, run, j - 1) then 1 else 0
  }

  // ----- one event

  predicate Over(f: Flight, e: Event) { e.Serve? && DayOver(f, e.cycle.now) }

  /** The count and the start of the day after an event. */
  predicate Tallied(f: Flight, e: Event, g: Flight, billed: bool) {
    && g.quota.callsToday == (if Over(f, e) then 0 else f.quota.callsToday) + (if billed then 1 else 0)
    && g.dayStartMs == (if Over(f, e) then e.cycle.now else f.dayStartMs)
    && (billed ==> g.quota.callsToday <= DAILY_CAP)
  }

  lemma CheckTallies(codes: Codes, f: Flight, c: Cycle)
    ensures var (g, billed) := RunCheck(codes, f, c);
            && g.quota == f.quota.(callsToday := f.quota.callsToday + if billed then 1 else 0)
            && g.dayStartMs == f.dayStartMs
            && (billed ==> Available(f.quota) && f.quota.keySet && Charged(c.reply))
  {}

  lemma FollowedTallies(codes: Codes, f: Flight, callsign: string, c: Cycle)
    ensures var (g, billed) := LookUpFollowed(codes, f, callsign, c);
            && g.quota == f.quota.(callsToday := f.quota.callsToday + if billed then 1 else 0)
            && g.dayStartMs == f.dayStartMs
            && (billed ==> Available(f.quota) && Charged(c.reply))
  {}

  lemma PrepareTallies(f: Flight, c: Cycle)
    ensures var g := Prepare(f, c);
            && g.quota == (if DayOver(f, c.now) then f.quota.(callsToday := 0) else f.quota)
            && g.dayStartMs == (if DayOver(f, c.now) then c.now else f.dayStartMs)
  {}

  lemma ServiceTallies(codes: Codes, f: Flight, c: Cycle)
    ensures var (g, billed) := Service(codes, f, c);
            && Tallied(f, Serve(c), g, billed)
            && (billed ==> f.quota.keySet && Charged(c.reply) &&
                           (f.quota.usageValid ==> f.quota.remaining > MIN_REMAINING))
  {
    PrepareTallies(f, c);
    var g := Prepare(f, c);
    CheckTallies(codes, g, c);
    FollowedTallies(codes, g, Callsign(codes, g, c), c);
    hide Prepare, RunCheck, LookUpFollowed, ScheduleDue, RouteJob, UsageDue, Callsign, DayOver;
  }

  /** Each event bills at most one lookup, counts it, and never goes past the cap;
      only the cycle after the day is over starts the count again. */
  lemma EventTallies(codes: Codes, f: Flight, e: Event)
    ensures var (g, billed) := Next(codes, f, e); Tallied(f, e, g, billed)
  {
    if e.Serve? {
      ServiceTallies(codes, f, e.cycle);
    }
    hide Service;
  }

  // ----- runs

  lemma AfterOneMore(codes: Codes, keySet: bool, run: seq<Event>, k: nat)
    requires k < |run|
    ensures var f := After(codes, keySet, run[..k]);
            After(codes, keySet, run[..k + 1]) == Next(codes, f, run[k]).0 &&
            Tallied(f, run[k], After(codes, keySet, run[..k + 1]), Billed(codes, keySet, run, k))
  {
    assert Init(run[..k + 1]) == run[..k];
    EventTallies(codes, After(codes, keySet, run[..k]), run[k]);
    hide Next, Tallied;
  }

  function Calls(codes: Codes, keySet: bool, run: seq<Event>, k: nat): nat
    requires k <= |run|
  {
    After(codes, keySet, run[..k]).quota.callsToday
  }

  lemma {:induction false} CallsCapped(codes: Codes, keySet: bool, run: seq<Event>, k: nat)
    requires k <= |run|
    ensures Calls(codes, keySet, run, k) <= DAILY_CAP
  {
    hide Next;
    if k > 0 {
      CallsCapped(codes, keySet, run, k - 1);
      AfterOneMore(codes, keySet, run, k - 1);
    }
  }

  /** Nothing resets strictly between the events i and j. */
  ghost predicate SameDay(codes: Codes, keySet: bool, run: seq<Event>, i: nat, j: nat)
    requires j <= |run|
  {
    forall k :: i < k < j ==> !Resets(codes, keySet, run, k)
  }

  /** The count is exactly the lookups billed since it last started. */
  lemma {:induction false} CallsAreBills(codes: Codes, keySet: bool, run: seq<Event>, i: nat, j: nat)
    requires i < j <= |run| && SameDay(codes, keySet, run, i, j)
    ensures Calls(codes, keySet, run, j)
         == Bills(codes, keySet, run, i, j)
            + if Resets(codes, keySet, run, i) then 0 else Calls(codes, keySet, run, i)
    decreases j
  {
    hide Next, After;
    var k := j - 1;
    AfterOneMore(codes, keySet, run, k);
    hide Billed, Over, DayOver;
    assert run[..k + 1] == run[..j];
    if i < k {
      CallsAreBills(codes, keySet, run, i, k);
      assert !Resets(codes, keySet, run, k);
    } else {
      assert Bills(codes, keySet, run, i, i) == 0;
    }
  }

  /** Between two resets at most the daily cap is billed. */
  lemma CapBetweenResets(codes: Codes, keySet: bool, run: seq<Event>, i: nat, j: nat)
    requires i <= j <= |run| && SameDay(codes, keySet, run, i, j)
    ensures Bills(codes, keySet, run, i, j) <= DAILY_CAP
  {
    if i < j {
      CallsAreBills(codes, keySet, run, i, j);
      CallsCapped(codes, keySet, run, j);
    }
  }

  lemma {:induction false} BillsSplit(codes: Codes, keySet: bool, run: seq<Event>, i: nat, k: nat, j: nat)
    requires i <= k <= j <= |run|
    ensures Bills(codes, keySet, run, i, j) == Bills(codes, keySet, run, i, k) + Bills(codes, keySet, run, k, j)
    decreases j
  {
    hide Billed;
    if k < j {
      BillsSplit(codes, keySet, run, i, k, j - 1);
    }
  }

  /** Cycles come in the order of time, after the clock has started. */
  predicate InTime(run: seq<Event>) {
    && (forall i :: 0 <= i < |run| && run[i].Serve? ==> run[i].cycle.now > 0)
    && forall i, j :: 0 <= i < j < |run| && run[i].Serve? && run[j].Serve? ==> run[i].cycle.now <= run[j].cycle.now
  }

  /** From a reset on, the day has started no earlier than it. */
  lemma {:induction false} DayStartsAfter(codes: Codes, keySet: bool, run: seq<Event>, a: nat, k: nat)
    requires InTime(run) && a < k <= |run| && Resets(codes, keySet, run, a)
    ensures After(codes, keySet, run[..k]).dayStartMs >= run[a].cycle.now
    decreases k
  {
    hide Next, After;
    AfterOneMore(codes, keySet, run, k - 1);
    if a < k - 1 {
      DayStartsAfter(codes, keySet, run, a, k - 1);
    }
  }

  /** Two resets are at least a day apart. */
  lemma ResetsADayApart(codes: Codes, keySet: bool, run: seq<Event>, a: nat, b: nat)
    requires InTime(run) && a < b < |run|
    requires Resets(codes, keySet, run, a) && Resets(codes, keySet, run, b)
    ensures run[b].cycle.now - run[a].cycle.now >= DAY_MS
  {
    DayStartsAfter(codes, keySet, run, a, b);
  }

  predicate Started(f: Flight, now: int) { f.dayStartMs != 0 && now - f.dayStartMs < DAY_MS }

  /** Once a cycle has come at some time, the day is not over for any other at that time. */
  lemma {:induction false} StartedAtOnce(codes: Codes, keySet: bool, run: seq<Event>, x: nat, y: nat)
    requires InTime(run) && x < y <= |run| && run[x].Serve?
    requires forall k :: x <= k < y && run[k].Serve? ==> run[k].cycle.now == run[x].cycle.now
    ensures Started(After(codes, keySet, run[..y]), run[x].cycle.now)
    decreases y
  {
    hide Next, After;
    AfterOneMore(codes, keySet, run, y - 1);
    if x < y - 1 {
      StartedAtOnce(codes, keySet, run, x, y - 1);
    }
  }

  lemma {:induction false} NoCycleNoBill(codes: Codes, keySet: bool, run: seq<Event>, i: nat, j: nat)
    requires i <= j <= |run| && forall k :: i <= k < j ==> !run[k].Serve?
    ensures Bills(codes, keySet, run, i, j) == 0
    decreases j
  {
    hide After;
    if i < j { NoCycleNoBill(codes, keySet, run, i, j - 1); }
  }

  /** The cycles of events i to j lie within this time. */
  predicate Within(run: seq<Event>, i: nat, j: nat, time: int)
    requires j <= |run|
  {
    forall k, m :: i <= k <= m < j && run[k].Serve? && run[m].Serve? ==> run[m].cycle.now - run[k].cycle.now <= time
  }

  /** When two resets fit into 24 hours, they are the ends, and nothing is billed before the first. */
  lemma TwoResetsAreTheEnds(codes: Codes, keySet: bool, run: seq<Event>, i: nat, k: nat, m: nat, j: nat)
    requires InTime(run) && i < k < m < j <= |run| && Within(run, i, j, DAY_MS)
    requires Resets(codes, keySet, run, k) && Resets(codes, keySet, run, m)
    ensures Bills(codes, keySet, run, i, k) == 0
  {
    ResetsADayApart(codes, keySet, run, k, m);
    forall x | i <= x < k ensures !run[x].Serve? {
      if run[x].Serve? {
        assert run[m].cycle.now - run[x].cycle.now <= DAY_MS && run[x].cycle.now <= run[k].cycle.now;
        StartedAtOnce(codes, keySet, run, x, k);
      }
    }
    NoCycleNoBill(codes, keySet, run, i, k);
  }

  lemma NoThirdReset(codes: Codes, keySet: bool, run: seq<Event>, i: nat, k: nat, m: nat, j: nat, x: nat)
    requires InTime(run) && i < k < m < j <= |run| && Within(run, i, j, DAY_MS) && i < x < j && x != k && x != m
    requires Resets(codes, keySet, run, k) && Resets(codes, keySet, run, m)
    ensures !Resets(codes, keySet, run, x)
  {
    hide Next, After;
    if Resets(codes, keySet, run, x) {
      ResetsADayApart(codes, keySet, run, k, m);
      if x < k { ResetsADayApart(codes, keySet, run, x, k); }
      else if x < m { ResetsADayApart(codes, keySet, run, k, x); ResetsADayApart(codes, keySet, run, x, m); }
      else { ResetsADayApart(codes, keySet, run, m, x); }
    }
  }

  /** Within 24 hours at most twice the daily cap is billed, whatever keys, flights
      and checks come in between. */
  lemma TwiceTheCapADay(codes: Codes, keySet: bool, run: seq<Event>, i: nat, j: nat)
    requires InTime(run) && i <= j <= |run| && Within(run, i, j, DAY_MS)
    ensures Bills(codes, keySet, run, i, j) <= 2 * DAILY_CAP
  {
    hide Next, After, Resets, InTime, Within;
    if SameDay(codes, keySet, run, i, j) {
      CapBetweenResets(codes, keySet, run, i, j);
    } else {
      var k :| i < k < j && Resets(codes, keySet, run, k);
      BillsSplit(codes, keySet, run, i, k, j);
      if m :| i < m < j && m != k && Resets(codes, keySet, run, m) {
        var first, last := if k < m then k else m, if k < m then m else k;
        forall x | i < x < j && x != first && x != last ensures !Resets(codes, keySet, run, x) {
          NoThirdReset(codes, keySet, run, i, first, last, j, x);
        }
        TwoResetsAreTheEnds(codes, keySet, run, i, first, last, j);
        BillsSplit(codes, keySet, run, i, first, j);
        BillsSplit(codes, keySet, run, first, last, j);
        CapBetweenResets(codes, keySet, run, first, last);
        CapBetweenResets(codes, keySet, run, last, j);
      } else {
        CapBetweenResets(codes, keySet, run, i, k);
        CapBetweenResets(codes, keySet, run, k, j);
      }
    }
  }

  /** A span with one reset bills what the first day still counted and what the second did. */
  lemma SpanOverAReset(codes: Codes, keySet: bool, run: seq<Event>, i: nat, k: nat, j: nat)
    requires i < k < j <= |run| && Resets(codes, keySet, run, k)
    requires SameDay(codes, keySet, run, i, k) && SameDay(codes, keySet, run, k, j)
    ensures Bills(codes, keySet, run, i, j)
         == Calls(codes, keySet, run, k) + Calls(codes, keySet, run, j)
            - if Resets(codes, keySet, run, i) then 0 else Calls(codes, keySet, run, i)
  {
    hide Next, After, Resets, Calls, Bills, SameDay;
    CallsAreBills(codes, keySet, run, i, k);
    CallsAreBills(codes, keySet, run, k, j);
    BillsSplit(codes, keySet, run, i, k, j);
  }

  /** In less than 24 hours at most the cap is billed, exactly when the count does not
      start again in between, or what it shows at its reset and at the end, less what it
      showed at the start, is within the cap. */
  lemma CapHoldsExactly(codes: Codes, keySet: bool, run: seq<Event>, i: nat, j: nat)
    requires InTime(run) && i <= j <= |run| && Within(run, i, j, DAY_MS - 1)
    ensures Bills(codes, keySet, run, i, j) <= DAILY_CAP <==>
              || SameDay(codes, keySet, run, i, j)
              || exists k :: i < k < j && Resets(codes, keySet, run, k) &&
                   Calls(codes, keySet, run, k) + Calls(codes, keySet, run, j)
                   - (if Resets(codes, keySet, run, i) then 0 else Calls(codes, keySet, run, i)) <= DAILY_CAP
  {
    hide Next, After, Calls, Bills, Resets, InTime;
    if SameDay(codes, keySet, run, i, j) {
      CapBetweenResets(codes, keySet, run, i, j);
    } else {
      forall k | i < k < j && Resets(codes, keySet, run, k)
        ensures Bills(codes, keySet, run, i, j)
             == Calls(codes, keySet, run, k) + Calls(codes, keySet, run, j)
                - if Resets(codes, keySet, run, i) then 0 else Calls(codes, keySet, run, i)
      {
        forall m | i < m < j && m != k ensures !Resets(codes, keySet, run, m) {
          OneResetADay(codes, keySet, run, i, j, k, m);
        }
        SpanOverAReset(codes, keySet, run, i, k, j);
      }
    }
  }

  lemma OneResetADay(codes: Codes, keySet: bool, run: seq<Event>, i: nat, j: nat, k: nat, m: nat)
    requires InTime(run) && j <= |run| && Within(run, i, j, DAY_MS - 1)
    requires i < k < j && i < m < j && k != m && Resets(codes, keySet, run, k)
    ensures !Resets(codes, keySet, run, m)
  {
    hide Next, After;
    if Resets(codes, keySet, run, m) {
      if m < k { ResetsADayApart(codes, keySet, run, m, k); } else { ResetsADayApart(codes, keySet, run, k, m); }
    }
  }

  // ----- the cap does not hold in every 24 hours

  const FLIGHT := "AAL1"

  /** A check of one flight, answered and billed at once. */
  function Paid(now: int): Cycle {
    Cycle(now, now, "", "", false, false, RouteReply(true, None), Reply(true, 200, Good), NoUsage, false)
  }

  /** A run with n checks more, five seconds apart, the first of them served at `from`. */
  function Checks(run: seq<Event>, n: nat, from: int): (r: seq<Event>)
    ensures |r| == |run| + 2 * n && r[..|run|] == run
  {
    if n == 0 then run
    else Checks(run, n - 1, from) + [Ask(FLIGHT, true), Serve(Paid(from + (n - 1) * 5000))]
  }

  /** Following nothing, with a key, and with no word of what the service has left. */
  predicate Plain(f: Flight, calls: nat, day: int) {
    f.quota == Budget(true, false, 0, calls) && f.info.code == "" && f.dayStartMs == day
  }

  predicate Known(codes: Codes) { codes.safe(FLIGHT) && codes.airline(FLIGHT) }

  lemma OneCheckBills(codes: Codes, f: Flight, calls: nat, day: int, now: int)
    requires Known(codes) && Plain(f, calls, day)
    requires !DayOver(f, now) ==> calls < DAILY_CAP
    ensures var asked := RequestCheck(f, FLIGHT, true);
            var (g, billed) := Service(codes, asked, Paid(now));
            billed && Plain(g, (if DayOver(f, now) then 0 else calls) + 1, if DayOver(f, now) then now else day)
  {}

  lemma {:induction false} BillsOfPrefix(codes: Codes, run: seq<Event>, more: seq<Event>, i: nat, j: nat)
    requires i <= j <= |run| <= |more| && more[..|run|] == run
    ensures Bills(codes, true, more, i, j) == Bills(codes, true, run, i, j)
    decreases j
  {
    if i < j {
      BillsOfPrefix(codes, run, more, i, j - 1);
      assert more[..j - 1] == run[..j - 1];
    }
  }

  lemma LastTwo(codes: Codes, run: seq<Event>, i: nat, now: int)
    requires i <= |run|
    ensures var more := run + [Ask(FLIGHT, true), Serve(Paid(now))];
            var (g, billed) := Service(codes, RequestCheck(After(codes, true, run), FLIGHT, true), Paid(now));
            After(codes, true, more) == g &&
            Bills(codes, true, more, i, |more|) == Bills(codes, true, run, i, |run|) + if billed then 1 else 0
  {
    hide Service, RequestCheck;
    var mid := run + [Ask(FLIGHT, true)];
    var more := run + [Ask(FLIGHT, true), Serve(Paid(now))];
    assert Init(mid) == run && Init(more) == mid && more[..|run|] == run && more[..|run| + 1] == mid;
    BillsOfPrefix(codes, run, more, i, |run|);
  }

  /** One more check: it is counted in its day, or is the first of the next. */
  lemma OneMoreCheck(codes: Codes, run: seq<Event>, i: nat, calls: nat, day: int, now: int)
    requires Known(codes) && i <= |run| && Plain(After(codes, true, run), calls, day) && day != 0
    requires now - day >= DAY_MS || calls < DAILY_CAP
    ensures var more, over := run + [Ask(FLIGHT, true), Serve(Paid(now))], now - day >= DAY_MS;
            && Plain(After(codes, true, more), (if over then 0 else calls) + 1, if over then now else day)
            && Bills(codes, true, more, i, |more|) == Bills(codes, true, run, i, |run|) + 1
  {
    OneCheckBills(codes, After(codes, true, run), calls, day, now);
    LastTwo(codes, run, i, now);
    hide After, Bills, Service, RequestCheck;
  }

  lemma ChecksGrow(run: seq<Event>, n: nat, from: int)
    requires n > 0
    ensures Checks(run, n, from) ==
            Checks(run, n - 1, from) + [Ask(FLIGHT, true), Serve(Paid(from + (n - 1) * 5000))]
    ensures n == 1 ==> Checks(run, n - 1, from) == run
  {}

  /** The day and the count that checks from `from` on are counted in. */
  predicate CountsIn(calls: nat, day: int, from: int, base: nat, start: int) {
    if from - day >= DAY_MS then base == 0 && start == from else base == calls && start == day
  }

  lemma FirstCheck(codes: Codes, run: seq<Event>, i: nat, calls: nat, day: int, from: int, base: nat, start: int)
    requires Known(codes) && i <= |run| && Plain(After(codes, true, run), calls, day) && day > 0
    requires CountsIn(calls, day, from, base, start) && base < DAILY_CAP
    ensures var more := Checks(run, 1, from);
            && Plain(After(codes, true, more), base + 1, start)
            && Bills(codes, true, more, i, |more|) == Bills(codes, true, run, i, |run|) + 1
  {
    ChecksGrow(run, 1, from);
    OneMoreCheck(codes, run, i, calls, day, from);
    hide Plain, After, Bills, Checks;
  }

  lemma NextCheck(codes: Codes, run: seq<Event>, i: nat, n: nat, from: int, base: nat, start: int, bills: nat)
    requires Known(codes) && i <= |run| && n > 0 && start > 0
    requires base + n < DAILY_CAP && from + n * 5000 - start < DAY_MS
    requires Plain(After(codes, true, Checks(run, n, from)), base + n, start)
    requires Bills(codes, true, Checks(run, n, from), i, |Checks(run, n, from)|) == bills
    ensures var more := Checks(run, n + 1, from);
            && Plain(After(codes, true, more), base + n + 1, start)
            && Bills(codes, true, more, i, |more|) == bills + 1
  {
    hide *;
    ChecksGrow(run, n + 1, from);
    OneMoreCheck(codes, Checks(run, n, from), i, base + n, start, from + n * 5000);
  }

  /** n checks bill n lookups, unless the cap is in the way. */
  lemma {:induction false} ChecksBill(codes: Codes, run: seq<Event>, i: nat, n: nat, calls: nat, day: int, from: int,
                                      base: nat, start: int)
    requires Known(codes) && i <= |run| && Plain(After(codes, true, run), calls, day)
    requires day > 0 && start > 0 && n > 0 && CountsIn(calls, day, from, base, start)
    requires base + n <= DAILY_CAP && from + n * 5000 - start < DAY_MS
    ensures var more := Checks(run, n, from);
            && Plain(After(codes, true, more), base + n, start)
            && Bills(codes, true, more, i, |more|) == Bills(codes, true, run, i, |run|) + n
  {
    hide *;
    if n == 1 {
      FirstCheck(codes, run, i, calls, day, from, base, start);
    } else {
      ChecksBill(codes, run, i, n - 1, calls, day, from, base, start);
      NextCheck(codes, run, i, n - 1, from, base, start, Bills(codes, true, run, i, |run|) + n - 1);
    }
  }

  /** A first cycle, which looks nothing up, a second after the start. */
  const OPENING: int := 1000

  function Opening(): Event { Serve(Paid(OPENING).(reply := Reply(true, 404, NotFound))) }

  lemma BootIsPlain(codes: Codes)
    ensures Plain(After(codes, true, [Opening()]), 0, OPENING) && Bills(codes, true, [Opening()], 1, 1) == 0
  {
    assert Init([Opening()]) == [];
  }

  /** Twelve checks in the last minute of the first day, and twelve in the next minute. */
  function TwoBursts(): seq<Event> {
    Checks(Checks([Opening()], DAILY_CAP, DAY_MS - 60000), DAILY_CAP, DAY_MS + OPENING)
  }

  lemma BurstsBill(codes: Codes)
    requires Known(codes)
    ensures |TwoBursts()| > 1 && Bills(codes, true, TwoBursts(), 1, |TwoBursts()|) == 2 * DAILY_CAP
  {
    var boot, first, second := [Opening()], DAY_MS - 60000, DAY_MS + OPENING;
    assert TwoBursts() == Checks(Checks(boot, DAILY_CAP, first), DAILY_CAP, second);
    assert OPENING > 0 && first + DAILY_CAP * 5000 - OPENING < DAY_MS && DAILY_CAP > 0 && DAILY_CAP * 5000 < DAY_MS;
    assert CountsIn(0, OPENING, first, 0, OPENING) && CountsIn(DAILY_CAP, OPENING, second, 0, second) && second > 0;
    hide *;
    BootIsPlain(codes);
    ChecksBill(codes, boot, 1, DAILY_CAP, 0, OPENING, first, 0, OPENING);
    ChecksBill(codes, Checks(boot, DAILY_CAP, first), 1, DAILY_CAP, DAILY_CAP, OPENING, second, 0, second);
  }

  /** The cycles from event i on come between these times. */
  predicate Between(run: seq<Event>, i: nat, from: int, to: int) {
    forall k :: i <= k < |run| && run[k].Serve? ==> from <= run[k].cycle.now <= to
  }

  lemma {:induction false} ChecksInTime(run: seq<Event>, i: nat, n: nat, start: int, from: int)
    requires InTime(run) && Between(run, 0, 1, from) && Between(run, i, start, from) && 0 < start <= from && i <= |run|
    ensures var r, to := Checks(run, n, from), from + n * 5000;
            InTime(r) && Between(r, 0, 1, to) && Between(r, i, start, to)
  {
    if n > 0 {
      hide *;
      ChecksGrow(run, n, from);
      ChecksInTime(run, i, n - 1, start, from);
      OneMoreInTime(Checks(run, n - 1, from), i, start, from + (n - 1) * 5000);
    }
  }

  lemma OneMoreInTime(run: seq<Event>, i: nat, start: int, now: int)
    requires InTime(run) && Between(run, 0, 1, now) && Between(run, i, start, now) && 0 < start <= now && i <= |run|
    ensures var r, to := run + [Ask(FLIGHT, true), Serve(Paid(now))], now + 5000;
            InTime(r) && Between(r, 0, 1, to) && Between(r, i, start, to)
  {}

  /** Twice the cap can be billed within about two minutes: the day is a fixed one. */
  lemma RollingCapFails(codes: Codes) returns (run: seq<Event>, i: nat)
    requires Known(codes)
    ensures InTime(run) && i <= |run| && Bills(codes, true, run, i, |run|) == 2 * DAILY_CAP
    ensures Between(run, i, DAY_MS - 60000, DAY_MS + 61000)
  {
    i, run := 1, TwoBursts();
    BurstsBill(codes);
    var first, second := DAY_MS - 60000, DAY_MS + OPENING;
    ChecksInTime([Opening()], 1, DAILY_CAP, first, first);
    ChecksInTime(Checks([Opening()], DAILY_CAP, first), 1, DAILY_CAP, first, second);
    hide Bills, Checks;
  }
}
