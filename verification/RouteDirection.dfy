/**
  * Which way a route is flown: what one position says about it, how the
  * direction is settled over many polls, and that the order in which the route
  * database lists the airports never matters.
  */
module RouteDirection {
  import opened Common
  import opened AircraftRecord

  /** Distance in nautical miles and initial bearing: any deterministic function. */
  type Geometry = (Position, Position) -> (real, real)

  function Abs(x: real): real { if x < 0.0 then -x else x }

  function AngleBetween(a: real, b: real): real {
    var turns := (Abs(a - b) / 360.0).Floor as real;
    var difference := Abs(a - b) - turns * 360.0;
    if difference > 180.0 then 360.0 - difference else difference
  }

  // ----- one position

  /** What a clear climb or descent close to one of the airports says. */
  function TerminalEvidence(a: Aircraft, toOrigin: real, toDestination: real): int {
    if a.verticalRateFpm == None || a.altitudeFt == None || a.altitudeFt.value >= 15000 then 0
    else
      var rate := a.verticalRateFpm.value;
      if rate > 500 && toOrigin < 40.0 && toDestination > toOrigin then 1
      else if rate > 500 && toDestination < 40.0 && toOrigin > toDestination then -1
      else if rate < -500 && toDestination < 60.0 && toOrigin > toDestination then 1
      else if rate < -500 && toOrigin < 60.0 && toDestination > toOrigin then -1
      else 0
  }

  /** What the track says away from both airports. */
  function EnrouteEvidence(a: Aircraft, origin: (real, real), destination: (real, real)): int {
    if a.track == None || origin.0 <= 30.0 || destination.0 <= 30.0 then 0
    else
      var towardDestination := AngleBetween(a.track.value, destination.1);
      var towardOrigin := AngleBetween(a.track.value, origin.1);
      if towardDestination < 45.0 && towardOrigin > 90.0 then 1
      else if towardOrigin < 45.0 && towardDestination > 90.0 then -1
      else 0
  }

  /** +1 for the order as given, -1 for the reverse, 0 for no evidence. */
  function Evidence(geometry: Geometry, a: Aircraft): int {
    if a.route.origin == None || a.route.destination == None || a.ground then 0
    else
      var origin := geometry(a.position, a.route.origin.value);
      var destination := geometry(a.position, a.route.destination.value);
      var terminal := TerminalEvidence(a, origin.0, destination.0);
      if terminal != 0 then terminal else EnrouteEvidence(a, origin, destination)
  }

  function Swapped(r: Route): Route {
    Route(r.to, r.from, r.destination, r.origin, r.airline)
  }

  function Reverse(a: Aircraft): Aircraft { a.(route := Swapped(a.route)) }

  lemma ReverseTwice(a: Aircraft)
    ensures Reverse(Reverse(a)) == a
  {}

  /** Evidence is about the leg, not about how it is listed. */
  lemma EvidenceReverses(geometry: Geometry, a: Aircraft)
    ensures Evidence(geometry, Reverse(a)) == -Evidence(geometry, a)
    ensures -1 <= Evidence(geometry, a) <= 1
  {}

  // ----- a cache entry over many polls

  /** Milliseconds a direction holds without fresh evidence, and against contrary evidence. */
  const HOLD_MS: int := 12 * 60 * 60 * 1000
  const CONTRARY_MS: int := 30 * 1000

  datatype Entry = Entry(callsign: string, used: bool, known: bool, failed: bool, route: Route,
                         fetchedMs: int, orientation: int, orientedMs: int)

  /** The same entry, had the database listed the leg the other way round. */
  function Mirror(e: Entry): Entry {
    e.(route := Swapped(e.route), orientation := -e.orientation)
  }

  function ApplyRoute(a: Aircraft, e: Entry): Aircraft {
    if e.known then a.(routeValid := true, route := e.route) else a.(routeValid := false)
  }

  /** The entry's direction after evidence seen at `now`. */
  function Oriented(e: Entry, evidence: int, now: int): Entry {
    var settled := if evidence != 0 && (e.orientation == 0 || evidence == e.orientation ||
                                        now - e.orientedMs > CONTRARY_MS)
                   then e.(orientation := evidence, orientedMs := now) else e;
    if settled.orientation != 0 && now - settled.orientedMs > HOLD_MS then settled.(orientation := 0) else settled
  }

  /** One poll: the entry afterwards, and the aircraft as shown. */
  function Poll(geometry: Geometry, e: Entry, a: Aircraft, now: int): (Entry, Aircraft) {
    var applied := ApplyRoute(a, e);
    if !e.known then (e, applied)
    else
      var after := Oriented(e, Evidence(geometry, applied), now);
      (after,
       (if after.orientation < 0 then Reverse(applied) else applied).(routeConfirmed := after.orientation != 0))
  }

  datatype Sighting = Sighting(aircraft: Aircraft, now: int)

  function EntryAfter(geometry: Geometry, e: Entry, polls: seq<Sighting>): Entry
    decreases |polls|
  {
    if polls == [] then e
    else Poll(geometry, EntryAfter(geometry, e, Init(polls)), Last(polls).aircraft, Last(polls).now).0
  }

  /** The aircraft shown by the last of these polls. */
  function Shown(geometry: Geometry, e: Entry, polls: seq<Sighting>): Aircraft
    requires polls != []
  {
    Poll(geometry, EntryAfter(geometry, e, Init(polls)), Last(polls).aircraft, Last(polls).now).1
  }

  lemma PollMirrors(geometry: Geometry, e: Entry, a: Aircraft, now: int)
    ensures Poll(geometry, Mirror(e), a, now).0 == Mirror(Poll(geometry, e, a, now).0)
    ensures e.known ==>
              var shown, mirrored := Poll(geometry, e, a, now).1, Poll(geometry, Mirror(e), a, now).1;
              && shown.routeConfirmed == mirrored.routeConfirmed
              && mirrored == (if shown.routeConfirmed then shown else Reverse(shown))
  {
    if e.known {
      var applied := ApplyRoute(a, e);
      assert ApplyRoute(a, Mirror(e)) == Reverse(applied);
      EvidenceReverses(geometry, applied);
      hide Evidence;
    }
  }

  /** Over any run of polls an entry and its mirror image keep opposite directions
      with equal times, and show the same route whenever it is confirmed. */
  lemma {:induction false} ListingDoesNotMatter(geometry: Geometry, e: Entry, polls: seq<Sighting>)
    ensures EntryAfter(geometry, Mirror(e), polls) == Mirror(EntryAfter(geometry, e, polls))
    ensures e.known && polls != [] ==>
              var shown, mirrored := Shown(geometry, e, polls), Shown(geometry, Mirror(e), polls);
              && shown.routeConfirmed == mirrored.routeConfirmed
              && (shown.routeConfirmed ==> mirrored.route == shown.route)
              && (!shown.routeConfirmed ==> mirrored.route == Swapped(shown.route))
    decreases |polls|
  {
    if polls != [] {
      ListingDoesNotMatter(geometry, e, Init(polls));
      KnownStays(geometry, e, Init(polls));
      PollMirrors(geometry, EntryAfter(geometry, e, Init(polls)), Last(polls).aircraft, Last(polls).now);
      hide Poll, Evidence, Oriented;
    }
  }

  lemma {:induction false} KnownStays(geometry: Geometry, e: Entry, polls: seq<Sighting>)
    ensures EntryAfter(geometry, e, polls).known == e.known && EntryAfter(geometry, e, polls).route == e.route
    decreases |polls|
  {
    if polls != [] { KnownStays(geometry, e, Init(polls)); }
  }

  // ----- what the evidence means

  /** Low enough, and with what it takes, for a climb or a descent to say something. */
  predicate Low(a: Aircraft) { a.verticalRateFpm.Some? && a.altitudeFt.Some? && a.altitudeFt.value < 15000 }

  /** Climbing out near an airport `here` away, the other one being farther. */
  predicate Departs(a: Aircraft, here: real, other: real) {
    Low(a) && a.verticalRateFpm.value > 500 && here < 40.0 && here < other
  }

  /** Coming down near it. */
  predicate Arrives(a: Aircraft, here: real, other: real) {
    Low(a) && a.verticalRateFpm.value < -500 && here < 60.0 && here < other
  }

  function FullTurns(n: int): real { 360.0 * n as real }

  /** `d` is the angle between two bearings: the least of all ways round. */
  ghost predicate IsAngle(a: real, b: real, d: real) {
    0.0 <= d <= 180.0 && exists n: int :: a - b == d + FullTurns(n) || b - a == d + FullTurns(n)
  }

  lemma AngleIsLeast(a: real, b: real)
    ensures IsAngle(a, b, AngleBetween(a, b))
  {
    var turns := (Abs(a - b) / 360.0).Floor;
    var difference := Abs(a - b) - turns as real * 360.0;
    assert 0.0 <= difference < 360.0;
    if difference > 180.0 {
      assert FullTurns(-(turns + 1)) == -360.0 * turns as real - 360.0;
      if a >= b {
        assert b - a == (360.0 - difference) + FullTurns(-(turns + 1));
      } else {
        assert a - b == (360.0 - difference) + FullTurns(-(turns + 1));
      }
    } else if a >= b {
      assert a - b == difference + FullTurns(turns);
    } else {
      assert b - a == difference + FullTurns(turns);
    }
  }

  /** Away from both airports and on a track toward one of them. */
  predicate HeadsFor(a: Aircraft, here: (real, real), other: (real, real)) {
    && here.0 > 30.0 && other.0 > 30.0 && a.track.Some?
    && AngleBetween(a.track.value, here.1) < 45.0 && AngleBetween(a.track.value, other.1) > 90.0
  }

  /** The position says that the aircraft flies from `from` to `to`. */
  predicate Flies(geometry: Geometry, a: Aircraft, from: Position, to: Position) {
    var f, t := geometry(a.position, from), geometry(a.position, to);
    && !a.ground
    && (|| Departs(a, f.0, t.0) || Arrives(a, t.0, f.0)
        || (HeadsFor(a, t, f) && !Departs(a, t.0, f.0) && !Arrives(a, f.0, t.0)))
  }

  lemma NotBothWays(geometry: Geometry, a: Aircraft, p: Position, q: Position)
    requires Flies(geometry, a, p, q)
    ensures !Flies(geometry, a, q, p)
  {
    hide AngleBetween;
  }

  /** Evidence for the order listed is flying in that order, evidence against it in the other. */
  lemma EvidenceMeans(geometry: Geometry, a: Aircraft)
    requires a.route.origin.Some? && a.route.destination.Some?
    ensures var p, q := a.route.origin.value, a.route.destination.value;
            && (Evidence(geometry, a) == 1 <==> Flies(geometry, a, p, q))
            && (Evidence(geometry, a) == -1 <==> Flies(geometry, a, q, p))
  {
    hide AngleBetween;
  }

  /** An aircraft whose direction was not yet seen is shown on its way: from where it
      flies to where it flies, confirmed, however the leg is listed; and unconfirmed as
      listed when its position says nothing. */
  lemma ShownAsFlown(geometry: Geometry, e: Entry, a: Aircraft, now: int)
    requires e.known && e.orientation == 0 && e.route.origin.Some? && e.route.destination.Some?
    ensures var p, q, shown := e.route.origin.value, e.route.destination.value, Poll(geometry, e, a, now).1;
            && shown.routeValid
            && (Flies(geometry, a, p, q) ==>
                  && shown.routeConfirmed && shown.route.from == e.route.from && shown.route.to == e.route.to
                  && shown.route.origin == Some(p) && shown.route.destination == Some(q))
            && (Flies(geometry, a, q, p) ==>
                  && shown.routeConfirmed && shown.route.from == e.route.to && shown.route.to == e.route.from
                  && shown.route.origin == Some(q) && shown.route.destination == Some(p))
            && (!Flies(geometry, a, p, q) && !Flies(geometry, a, q, p) ==>
                  !shown.routeConfirmed && shown.route == e.route)
  {
    EvidenceMeans(geometry, ApplyRoute(a, e));
    FliesWithRoute(geometry, a, e, e.route.origin.value, e.route.destination.value);
    FliesWithRoute(geometry, a, e, e.route.destination.value, e.route.origin.value);
    EvidenceReverses(geometry, ApplyRoute(a, e));
    hide Evidence, Flies;
  }

  lemma FliesWithRoute(geometry: Geometry, a: Aircraft, e: Entry, p: Position, q: Position)
    ensures Flies(geometry, ApplyRoute(a, e), p, q) == Flies(geometry, a, p, q)
  {
    hide AngleBetween;
  }

  /** Once seen, the direction shown is the one last settled. */
  lemma ShownAsSettled(geometry: Geometry, e: Entry, a: Aircraft, now: int)
    requires e.known
    ensures var (after, shown) := Poll(geometry, e, a, now);
            && shown.routeConfirmed == (after.orientation != 0)
            && shown.route.from == (if after.orientation < 0 then e.route.to else e.route.from)
            && shown.route.to == (if after.orientation < 0 then e.route.from else e.route.to)
  {
    hide Evidence;
  }

  // ----- what a settled direction rests on

  /** Evidence of poll `i`, in the order the entry lists the leg. */
  function EvidenceAt(geometry: Geometry, e: Entry, polls: seq<Sighting>, i: nat): int
    requires i < |polls|
  {
    Evidence(geometry, ApplyRoute(polls[i].aircraft, e))
  }

  /** Poll `i` is the latest one supporting the direction, it is not older than the
      hold, and any later contrary evidence came within the thirty seconds. */
  ghost predicate RestsOn(geometry: Geometry, e: Entry, polls: seq<Sighting>, orientation: int, since: int, i: nat) {
    && i < |polls| && polls[i].now == since && EvidenceAt(geometry, e, polls, i) == orientation
    && Last(polls).now - since <= HOLD_MS
    && forall j :: i < j < |polls| ==>
         EvidenceAt(geometry, e, polls, j) == 0 ||
         (EvidenceAt(geometry, e, polls, j) == -orientation && polls[j].now - since <= CONTRARY_MS)
  }

  lemma RestsOnMore(geometry: Geometry, e: Entry, polls: seq<Sighting>, orientation: int, since: int, i: nat)
    requires polls != [] && RestsOn(geometry, e, Init(polls), orientation, since, i)
    requires Last(polls).now - since <= HOLD_MS
    requires var last := EvidenceAt(geometry, e, polls, |polls| - 1);
             last == 0 || (last == -orientation && Last(polls).now - since <= CONTRARY_MS)
    ensures RestsOn(geometry, e, polls, orientation, since, i)
  {
    hide Evidence;
    forall j | i < j < |polls|
      ensures EvidenceAt(geometry, e, polls, j) == 0 ||
              (EvidenceAt(geometry, e, polls, j) == -orientation && polls[j].now - since <= CONTRARY_MS)
    {
      if j < |polls| - 1 { assert EvidenceAt(geometry, e, Init(polls), j) == EvidenceAt(geometry, e, polls, j); }
    }
  }

  /** A direction confirmed from a fresh entry rests on evidence seen within the hold. */
  lemma {:induction false} DirectionRestsOnEvidence(geometry: Geometry, e: Entry, polls: seq<Sighting>)
    returns (i: nat)
    requires e.known && e.orientation == 0
    ensures var after := EntryAfter(geometry, e, polls);
            -1 <= after.orientation <= 1 &&
            (after.orientation != 0 ==> RestsOn(geometry, e, polls, after.orientation, after.orientedMs, i))
    decreases |polls|
  {
    hide Evidence, TerminalEvidence, EnrouteEvidence;
    i := 0;
    if polls != [] {
      i := DirectionRestsOnEvidence(geometry, e, Init(polls));
      var n := |polls| - 1;
      var before := EntryAfter(geometry, e, Init(polls));
      var after := EntryAfter(geometry, e, polls);
      KnownStays(geometry, e, Init(polls));
      assert ApplyRoute(polls[n].aircraft, before) == ApplyRoute(polls[n].aircraft, e);
      var evidence := EvidenceAt(geometry, e, polls, n);
      EvidenceReverses(geometry, ApplyRoute(polls[n].aircraft, e));
      assert after == Oriented(before, evidence, polls[n].now);
      if after.orientation != 0 {
        if evidence != 0 && after.orientedMs == polls[n].now && after.orientation == evidence {
          i := n;
        } else {
          RestsOnMore(geometry, e, polls, after.orientation, after.orientedMs, i);
        }
      }
    }
  }

  /** Contrary evidence turns a held direction round at once, and exactly when
      more than thirty seconds have passed since it was last supported. */
  lemma TurnsExactly(e: Entry, evidence: int, now: int)
    requires e.orientation != 0 && evidence == -e.orientation
    ensures Oriented(e, evidence, now).orientation == -e.orientation <==> now - e.orientedMs > CONTRARY_MS
    ensures Oriented(e, evidence, now).orientation == e.orientation <==> now - e.orientedMs <= CONTRARY_MS
  {}

  /** So over any polls one contrary poll suffices, and a second one in a row is not
      needed: it turns a held direction exactly when that is more than thirty seconds
      after the direction was last supported. */
  lemma OneContraryPoll(geometry: Geometry, e: Entry, polls: seq<Sighting>, s: Sighting)
    requires e.known
    requires var held := EntryAfter(geometry, e, polls).orientation;
             held != 0 && Evidence(geometry, ApplyRoute(s.aircraft, e)) == -held
    ensures var before, after := EntryAfter(geometry, e, polls), EntryAfter(geometry, e, polls + [s]);
            after.orientation == -before.orientation <==> s.now - before.orientedMs > CONTRARY_MS
  {
    hide Evidence;
    assert Init(polls + [s]) == polls && Last(polls + [s]) == s;
    KnownStays(geometry, e, polls);
    var before := EntryAfter(geometry, e, polls);
    assert ApplyRoute(s.aircraft, before) == ApplyRoute(s.aircraft, e);
    TurnsExactly(before, -before.orientation, s.now);
  }

  // ----- such polls

  const SOUTH := Position(0.0, 0.0)
  const NORTH := Position(40.0, 0.0)
  const BETWEEN := Position(20.0, 0.0)

  /** Distances, at 60 NM a degree, and bearings along this meridian. */
  function Meridian(a: Position, b: Position): (real, real) {
    (60.0 * Abs(b.latitude - a.latitude), if b.latitude >= a.latitude then 0.0 else 180.0)
  }

  /** A poll halfway between the airports. */
  function Halfway(track: real, now: int): Sighting {
    Sighting(NOBODY.(hex := "a1b2c3", callsign := "ASA1", track := Some(track), position := BETWEEN), now)
  }

  /** Seen northbound and then once southbound: 31 seconds later the direction has
      turned, 29 seconds later it has not. */
  lemma OnePollTurns()
    ensures var e := Entry("ASA1", true, true, false, Route("SEA", "ANC", Some(SOUTH), Some(NORTH), "AS"), 0, 0, 0);
            && EntryAfter(Meridian, e, [Halfway(0.0, 1000)]).orientation == 1
            && EntryAfter(Meridian, e, [Halfway(0.0, 1000), Halfway(180.0, 32000)]).orientation == -1
            && EntryAfter(Meridian, e, [Halfway(0.0, 1000), Halfway(180.0, 30000)]).orientation == 1
  {
    var e := Entry("ASA1", true, true, false, Route("SEA", "ANC", Some(SOUTH), Some(NORTH), "AS"), 0, 0, 0);
    var first := Halfway(0.0, 1000);
    HalfwayEvidence(e, 1000);
    assert Init([first]) == [];
    assert EntryAfter(Meridian, e, []) == e;
    assert EntryAfter(Meridian, e, [first]) == e.(orientation := 1, orientedMs := 1000);
    forall now | now == 30000 || now == 32000
      ensures EntryAfter(Meridian, e, [first, Halfway(180.0, now)]).orientation == if now == 32000 then -1 else 1
    {
      HalfwayEvidence(e, now);
      assert [first] + [Halfway(180.0, now)] == [first, Halfway(180.0, now)];
      assert Init([first, Halfway(180.0, now)]) == [first];
    }
  }

  lemma HalfwayEvidence(e: Entry, now: int)
    requires e.known && e.route.origin == Some(SOUTH) && e.route.destination == Some(NORTH)
    ensures Evidence(Meridian, ApplyRoute(Halfway(0.0, now).aircraft, e)) == 1
    ensures Evidence(Meridian, ApplyRoute(Halfway(180.0, now).aircraft, e)) == -1
  {
    assert AngleBetween(0.0, 0.0) == 0.0 && AngleBetween(180.0, 180.0) == 0.0;
    assert AngleBetween(0.0, 180.0) == 180.0 && AngleBetween(180.0, 0.0) == 180.0;
  }
}
