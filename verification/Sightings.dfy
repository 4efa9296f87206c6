/**
  * The sighting table: which aircraft were written to the log within the window.
  * Times are kept as a 32-bit tick count that wraps.
  */
module Sightings {
  import opened Common

  const SEEN_ENTRIES: nat := 128
  const TICKS: nat := 0x1_0000_0000

  datatype Entry = Entry(hex: string, loggedAt: nat, pending: bool, firstSeen: nat)

  const EMPTY := Entry("", 0, false, 0)

  /** `window` and `grace` are in ticks. */
  datatype Limits = Limits(window: nat, grace: nat)

  /** One aircraft of a snapshot; `at` counts ticks since the start and does not wrap. */
  datatype Sighting = Sighting(hex: string, at: nat, routePending: bool)

  function Tick(at: nat): nat { at % TICKS }

  /** The C difference of two tick counts. */
  function Elapsed(now: nat, since: nat): nat { (now - since) % TICKS }

  predicate Free(e: Entry, now: nat, window: nat) {
    e.hex == "" || (!e.pending && Elapsed(now, e.loggedAt) >= window)
  }

  predicate Matches(e: Entry, hex: string) { e.hex != "" && e.hex == hex }

  /** The first place from which `hex` stands in the table, or the length. */
  function Find(table: seq<Entry>, hex: string, from: nat): (k: nat)
    requires from <= |table|
    ensures from <= k <= |table|
    ensures k < |table| ==> Matches(table[k], hex)
    ensures forall i :: from <= i < k ==> !Matches(table[i], hex)
    decreases |table| - from
  {
    if from == |table| || Matches(table[from], hex) then from else Find(table, hex, from + 1)
  }

  function FirstFree(table: seq<Entry>, now: nat, window: nat, from: nat): (k: nat)
    requires from <= |table|
    ensures from <= k <= |table|
    ensures k < |table| ==> Free(table[k], now, window)
    ensures forall i :: from <= i < k ==> !Free(table[i], now, window)
    decreases |table| - from
  {
    if from == |table| || Free(table[from], now, window) then from
    else FirstFree(table, now, window, from + 1)
  }

  /** Every entry is another aircraft's and still needed. */
  predicate AllBusy(table: seq<Entry>, hex: string, now: nat, window: nat) {
    Find(table, hex, 0) == |table| && FirstFree(table, now, window, 0) == |table|
  }

  function New(hex: string, now: nat): Entry { Entry(hex, 0, true, now) }

  /** The entry to use: the aircraft's own, else a new one in the first free slot, else in slot 0. */
  function Slot(table: seq<Entry>, hex: string, now: nat, window: nat): (r: (nat, Entry))
    requires table != []
    ensures r.0 < |table|
  {
    var own := Find(table, hex, 0);
    var free := FirstFree(table, now, window, 0);
    if own < |table| then (own, table[own])
    else (if free < |table| then free else 0, New(hex, now))
  }

  /** What the sighting does to its entry, and whether it is written now. */
  function Decide(e: Entry, s: Sighting, l: Limits): (Entry, bool) {
    var now := Tick(s.at);
    if !e.pending && Elapsed(now, e.loggedAt) < l.window then (e, false)
    else
      var waiting := if e.pending then e else e.(pending := true, firstSeen := now);
      if s.routePending && Elapsed(now, waiting.firstSeen) < l.grace then (waiting, false)
      else (waiting.(pending := false, loggedAt := now), true)
  }

  function Step(table: seq<Entry>, s: Sighting, l: Limits): (seq<Entry>, bool)
    requires table != []
  {
    var (slot, e) := Slot(table, s.hex, Tick(s.at), l.window);
    var (kept, log) := Decide(e, s, l);
    (table[slot := kept], log)
  }

  // ----- in place

  class SeenTable {
    const seen: array<Entry>

    constructor ()
      ensures fresh(seen) && seen[..] == Start()
    {
      seen := new Entry[SEEN_ENTRIES](_ => EMPTY);
      new;
      assert seen[..] == Start();
    }

    method SeenSlot(hex: string, now: nat, window: nat) returns (slot: nat)
      requires seen.Length > 0
      modifies seen
      ensures slot < seen.Length
      ensures var (k, e) := Slot(old(seen[..]), hex, now, window);
              slot == k && seen[..] == old(seen[..])[k := e]
    {
      ghost var table := seen[..];
      var free := None;
      for index := 0 to seen.Length
        invariant seen[..] == table
        invariant Find(table, hex, 0) == Find(table, hex, index)
        invariant if free == None then FirstFree(table, now, window, 0) == FirstFree(table, now, window, index)
                  else free.value == FirstFree(table, now, window, 0) < index
      {
        if seen[index].hex != "" && seen[index].hex == hex {
          return index;
        }
        if free == None && Free(seen[index], now, window) {
          free := Some(index);
        }
      }
      slot := free.GetOr(0);
      seen[slot] := New(hex, now);
    }

    method ShouldLog(s: Sighting, l: Limits) returns (log: bool)
      requires seen.Length > 0
      modifies seen
      ensures (seen[..], log) == Step(old(seen[..]), s, l)
    {
      var now := Tick(s.at);
      ghost var table := seen[..];
      var entry := SeenSlot(s.hex, now, l.window);
      ghost var e := seen[entry];
      assert Slot(table, s.hex, now, l.window) == (entry, e) && seen[..] == table[entry := e];
      hide Elapsed, Slot, Tick;
      if !seen[entry].pending {
        if Elapsed(now, seen[entry].loggedAt) < l.window {
          return false;
        }
        seen[entry] := seen[entry].(pending := true, firstSeen := now);
        assert seen[..] == table[entry := seen[entry]];
      }
      if s.routePending && Elapsed(now, seen[entry].firstSeen) < l.grace {
        return false;
      }
      seen[entry] := seen[entry].(pending := false, loggedAt := now);
      log := true;
      assert seen[..] == table[entry := seen[entry]];
    }
  }

  // ----- over a run of sightings

  function Start(): seq<Entry> { seq(SEEN_ENTRIES, _ => EMPTY) }

  function After(run: seq<Sighting>, l: Limits): (r: seq<Entry>)
    ensures |r| == SEEN_ENTRIES
    decreases |run|
  {
    if run == [] then Start() else Step(After(Init(run), l), Last(run), l).0
  }

  /** Sighting k of the run is written when it comes. */
  predicate Logged(run: seq<Sighting>, l: Limits, k: nat)
    requires k < |run|
  {
    Step(After(run[..k], l), run[k], l).1
  }

  /** Sighting k of the run takes slot 0 away from the aircraft `hex`. */
  predicate Evicts(run: seq<Sighting>, l: Limits, k: nat, hex: string)
    requires k < |run|
  {
    var table := After(run[..k], l);
    AllBusy(table, run[k].hex, Tick(run[k].at), l.window) && table[0].hex == hex
  }

  predicate Ordered(run: seq<Sighting>) {
    forall i, j :: 0 <= i <= j < |run| ==> run[i].at <= run[j].at
  }

  predicate Distinct(table: seq<Entry>) {
    forall i, j :: 0 <= i < j < |table| && table[i].hex != "" ==> table[i].hex != table[j].hex
  }

  lemma StepKeepsDistinct(table: seq<Entry>, s: Sighting, l: Limits)
    requires table != [] && Distinct(table)
    ensures Distinct(Step(table, s, l).0)
  {
    var (slot, e) := Slot(table, s.hex, Tick(s.at), l.window);
    assert e.hex == s.hex;
    assert forall i :: 0 <= i < |table| && i != slot && table[i].hex != "" ==> table[i].hex != s.hex;
  }

  /** No two entries ever hold the same aircraft. */
  lemma {:induction false} OneEntryEach(run: seq<Sighting>, l: Limits)
    ensures Distinct(After(run, l))
    decreases |run|
  {
    if run != [] {
      OneEntryEach(Init(run), l);
      StepKeepsDistinct(After(Init(run), l), Last(run), l);
    }
  }

  lemma RealTime(at: nat, since: nat, window: nat)
    requires since <= at < since + window && window < TICKS
    ensures Elapsed(Tick(at), Tick(since)) == at - since
  {
    var q, p := at / TICKS, since / TICKS;
    assert at == q * TICKS + Tick(at) && since == p * TICKS + Tick(since);
    assert q == p || q == p + 1;
  }

  /** The table remembers that `hex` was written at time `since`. */
  predicate Remembers(table: seq<Entry>, hex: string, since: nat) {
    exists e :: 0 <= e < |table| && table[e].hex == hex && !table[e].pending && table[e].loggedAt == Tick(since)
  }

  /** Within the window the memory lasts, unless evicted, and silences the aircraft. */
  lemma StepRemembers(table: seq<Entry>, s: Sighting, l: Limits, hex: string, since: nat)
    requires table != [] && Distinct(table) && hex != "" && Remembers(table, hex, since)
    requires since <= s.at < since + l.window && l.window < TICKS
    requires !(AllBusy(table, s.hex, Tick(s.at), l.window) && table[0].hex == hex)
    ensures Remembers(Step(table, s, l).0, hex, since)
    ensures s.hex == hex ==> !Step(table, s, l).1
  {
    RealTime(s.at, since, l.window);
    hide Elapsed, Tick;
    var e :| 0 <= e < |table| && table[e].hex == hex && !table[e].pending && table[e].loggedAt == Tick(since);
    assert Step(table, s, l).0[e] == table[e];
  }

  predicate NeverEvicted(run: seq<Sighting>, l: Limits, hex: string, from: nat, to: nat)
    requires to <= |run|
  {
    forall k :: from <= k < to ==> !Evicts(run, l, k, hex)
  }

  /** Sighting i was written; the table still remembers it after the first n, or the window has passed. */
  lemma {:induction false} RememberedThrough(run: seq<Sighting>, l: Limits, i: nat, n: nat)
    requires Ordered(run) && l.window < TICKS && i < n <= |run|
    requires run[i].hex != "" && Logged(run, l, i)
    requires NeverEvicted(run, l, run[i].hex, i + 1, n)
    ensures run[n - 1].at - run[i].at >= l.window || Remembers(After(run[..n], l), run[i].hex, run[i].at)
    decreases n
  {
    var before := After(run[..n - 1], l);
    assert Init(run[..n]) == run[..n - 1] && Last(run[..n]) == run[n - 1];
    assert After(run[..n], l) == Step(before, run[n - 1], l).0;
    if n == i + 1 {
      var (slot, e) := Slot(before, run[i].hex, Tick(run[i].at), l.window);
      assert After(run[..n], l)[slot].loggedAt == Tick(run[i].at);
    } else if run[n - 1].at - run[i].at < l.window {
      RememberedThrough(run, l, i, n - 1);
      OneEntryEach(run[..n - 1], l);
      assert !Evicts(run, l, n - 1, run[i].hex);
      StepRemembers(before, run[n - 1], l, run[i].hex, run[i].at);
    }
  }

  /** Two sightings of one aircraft are both written only a whole window apart, in
      true time and whatever the tick count wraps to, unless its entry was evicted
      between them. */
  lemma WrittenOncePerWindow(run: seq<Sighting>, l: Limits, i: nat, j: nat)
    requires Ordered(run) && l.window < TICKS && i < j < |run|
    requires run[i].hex == run[j].hex != "" && Logged(run, l, i) && Logged(run, l, j)
    requires NeverEvicted(run, l, run[i].hex, i + 1, j + 1)
    ensures run[j].at - run[i].at >= l.window
  {
    if run[j].at - run[i].at < l.window {
      RememberedThrough(run, l, i, j);
      OneEntryEach(run[..j], l);
      assert !Evicts(run, l, j, run[i].hex);
      StepRemembers(After(run[..j], l), run[j], l, run[i].hex, run[i].at);
      assert false;
    }
  }

  // ----- nothing is silenced without a record

  predicate WrittenAt(run: seq<Sighting>, l: Limits, i: nat, e: Entry) {
    i < |run| && Logged(run, l, i) && run[i].hex == e.hex && Tick(run[i].at) == e.loggedAt
  }

  /** Sighting i, not written, is the one that the entry has waited for a route since. */
  predicate WaitingSince(run: seq<Sighting>, l: Limits, i: nat, e: Entry) {
    i < |run| && !Logged(run, l, i) && run[i].routePending && run[i].hex == e.hex && Tick(run[i].at) == e.firstSeen
  }

  predicate StandsFor(run: seq<Sighting>, l: Limits, i: nat, e: Entry) {
    if e.pending then WaitingSince(run, l, i, e) else WrittenAt(run, l, i, e)
  }

  ghost predicate Justified(run: seq<Sighting>, l: Limits, e: Entry) {
    e.hex != "" ==> exists i: nat :: StandsFor(run, l, i, e)
  }

  lemma LongerJustifies(run: seq<Sighting>, l: Limits, e: Entry)
    requires run != [] && Justified(Init(run), l, e)
    ensures Justified(run, l, e)
  {
    if e.hex != "" {
      var i: nat :| StandsFor(Init(run), l, i, e);
      assert Init(run)[..i] == run[..i];
      assert StandsFor(run, l, i, e);
    }
  }

  /** Deciding leaves the entry as it was, or marks it as of this sighting. */
  lemma DecideMarks(e: Entry, s: Sighting, l: Limits)
    ensures var (kept, log) := Decide(e, s, l);
            && kept.hex == e.hex
            && (log ==> !kept.pending && kept.loggedAt == Tick(s.at))
            && (!log ==> kept == e || (kept.pending && s.routePending && kept.firstSeen == Tick(s.at)))
            && (!log && e == New(s.hex, Tick(s.at)) ==> s.routePending)
  {}

  /** Every entry stands for a record that was written, or for a sighting that waits. */
  lemma {:induction false} EntriesAreJustified(run: seq<Sighting>, l: Limits, e: nat)
    requires e < SEEN_ENTRIES
    ensures Justified(run, l, After(run, l)[e])
    decreases |run|
  {
    if run != [] {
      hide Decide;
      var n, before, s := |run| - 1, After(Init(run), l), Last(run);
      assert run[..n] == Init(run);
      var (slot, own) := Slot(before, s.hex, Tick(s.at), l.window);
      EntriesAreJustified(Init(run), l, e);
      DecideMarks(own, s, l);
      LongerJustifies(run, l, before[e]);
      if e == slot && (Logged(run, l, n) || After(run, l)[e] != before[e]) {
        assert StandsFor(run, l, n, After(run, l)[e]);
      }
    }
  }

  /** A sighting is left out only when its aircraft was written less than a window
      earlier, or waits for its route since less than the grace, by the tick count. */
  lemma LeftOutForAReason(run: seq<Sighting>, l: Limits, k: nat) returns (i: nat)
    requires k < |run| && run[k].hex != "" && !Logged(run, l, k)
    ensures i <= k && run[i].hex == run[k].hex
    ensures var since := Elapsed(Tick(run[k].at), Tick(run[i].at));
            || (i < k && Logged(run, l, i) && since < l.window)
            || (run[k].routePending && run[i].routePending && !Logged(run, l, i) && since < l.grace)
  {
    var table, s := After(run[..k], l), run[k];
    var (slot, e) := Slot(table, s.hex, Tick(s.at), l.window);
    EntriesAreJustified(run[..k], l, slot);
    if !e.pending && Elapsed(Tick(s.at), e.loggedAt) >= l.window {
      i := k;
    } else if e == table[slot] && table[slot].hex == s.hex {
      i :| StandsFor(run[..k], l, i, e);
      assert run[..k][..i] == run[..i];
    } else {
      i := k;
    }
  }

  // ----- when eviction cannot happen, and when it does harm

  function HexesOf(table: seq<Entry>): set<string> {
    if table == [] then {} else HexesOf(Init(table)) + {Last(table).hex}
  }

  function Seen(run: seq<Sighting>): set<string> {
    if run == [] then {} else Seen(Init(run)) + {Last(run).hex}
  }

  lemma KeepsTheName(e: Entry, s: Sighting, l: Limits)
    ensures Decide(e, s, l).0.hex == e.hex
  {}

  lemma {:induction false} EntryWasSeen(run: seq<Sighting>, l: Limits, e: nat)
    requires e < SEEN_ENTRIES && After(run, l)[e].hex != ""
    ensures After(run, l)[e].hex in Seen(run)
    decreases |run|
  {
    var before, s := After(Init(run), l), Last(run);
    KeepsTheName(Slot(before, s.hex, Tick(s.at), l.window).1, s, l);
    hide Decide, Tick;
    if After(run, l)[e].hex != s.hex {
      EntryWasSeen(Init(run), l, e);
    }
  }

  lemma {:induction false} HexesAre(table: seq<Entry>, h: string)
    ensures h in HexesOf(table) <==> exists i :: 0 <= i < |table| && table[i].hex == h
    decreases |table|
  {
    if table != [] {
      HexesAre(Init(table), h);
      assert forall i :: 0 <= i < |table| - 1 ==> table[i] == Init(table)[i];
    }
  }

  lemma {:induction false} SeenBefore(run: seq<Sighting>, k: nat)
    requires k <= |run|
    ensures Seen(run[..k]) <= Seen(run)
    decreases |run|
  {
    if k < |run| {
      SeenBefore(Init(run), k);
      assert Init(run)[..k] == run[..k];
    } else {
      assert run[..k] == run;
    }
  }

  lemma {:induction false} FullTableCounts(table: seq<Entry>)
    requires Distinct(table) && forall i :: 0 <= i < |table| ==> table[i].hex != ""
    ensures |HexesOf(table)| == |table|
    decreases |table|
  {
    if table != [] {
      FullTableCounts(Init(table));
      HexesAre(Init(table), Last(table).hex);
    }
  }

  lemma Smaller(a: set<string>, b: set<string>)
    requires a <= b
    ensures |a| <= |b|
  {
    if a != b {
      var more := b - a;
      assert b == a + more;
    }
  }

  /** With at most as many aircraft as entries nothing is evicted, however time wraps. */
  lemma FewAircraftAreKept(run: seq<Sighting>, l: Limits, k: nat)
    requires |Seen(run)| <= SEEN_ENTRIES && k < |run|
    ensures !AllBusy(After(run[..k], l), run[k].hex, Tick(run[k].at), l.window)
  {
    var table := After(run[..k], l);
    if AllBusy(table, run[k].hex, Tick(run[k].at), l.window) {
      OneEntryEach(run[..k], l);
      FullTableCounts(table);
      HexesAre(table, run[k].hex);
      SeenBefore(run, k);
      SeenBefore(run, k + 1);
      assert Init(run[..k + 1]) == run[..k] && Last(run[..k + 1]) == run[k];
      forall h | h in HexesOf(table) ensures h in Seen(run) {
        HexesAre(table, h);
        var e :| 0 <= e < |table| && table[e].hex == h;
        EntryWasSeen(run[..k], l, e);
      }
      Smaller(HexesOf(table) + {run[k].hex}, Seen(run));
      assert false;
    }
  }

  /** ... so then each is written at most once a window. */
  lemma FewAircraftWrittenOnce(run: seq<Sighting>, l: Limits, i: nat, j: nat)
    requires Ordered(run) && l.window < TICKS && i < j < |run| && |Seen(run)| <= SEEN_ENTRIES
    requires run[i].hex == run[j].hex != "" && Logged(run, l, i) && Logged(run, l, j)
    ensures run[j].at - run[i].at >= l.window
  {
    forall k: nat | i + 1 <= k < j + 1 ensures !Evicts(run, l, k, run[i].hex) {
      FewAircraftAreKept(run, l, k);
    }
    WrittenOncePerWindow(run, l, i, j);
  }

  // ----- exactly when an aircraft is written again within the window

  /** Nothing in the table keeps `hex` from being written. */
  predicate Unwritten(table: seq<Entry>, hex: string) {
    forall e :: 0 <= e < |table| && table[e].hex == hex ==> table[e].pending
  }

  lemma EvictionForgets(table: seq<Entry>, s: Sighting, l: Limits, hex: string)
    requires table != [] && Distinct(table) && hex != "" && table[0].hex == hex
    requires AllBusy(table, s.hex, Tick(s.at), l.window)
    ensures Unwritten(Step(table, s, l).0, hex)
  {
    assert !Matches(table[0], s.hex);
    KeepsTheName(New(s.hex, Tick(s.at)), s, l);
    hide Decide, Tick;
    assert forall e :: 1 <= e < |table| ==> table[e].hex != hex;
  }

  /** What is not written stays so: another aircraft changes nothing, and the
      aircraft itself, while left out, is only waiting. */
  lemma StepStaysUnwritten(table: seq<Entry>, s: Sighting, l: Limits, hex: string)
    requires table != [] && hex != "" && Unwritten(table, hex)
    ensures s.hex == hex && !s.routePending ==> Step(table, s, l).1
    ensures !(s.hex == hex && Step(table, s, l).1) ==> Unwritten(Step(table, s, l).0, hex)
  {
    var (slot, e) := Slot(table, s.hex, Tick(s.at), l.window);
    assert s.hex == hex ==> e.pending;
    KeepsTheName(e, s, l);
    DecideMarks(e, s, l);
  }

  lemma {:induction false} UnwrittenThrough(run: seq<Sighting>, l: Limits, k: nat, n: nat, hex: string)
    requires k < n <= |run| && hex != "" && Evicts(run, l, k, hex)
    requires forall m :: k < m < n && run[m].hex == hex ==> !Logged(run, l, m)
    ensures Unwritten(After(run[..n], l), hex)
    decreases n
  {
    hide Slot, Decide, Unwritten, AllBusy;
    var before := After(run[..n - 1], l);
    assert Init(run[..n]) == run[..n - 1] && Last(run[..n]) == run[n - 1];
    OneEntryEach(run[..n - 1], l);
    if n == k + 1 {
      EvictionForgets(before, run[k], l, hex);
    } else {
      UnwrittenThrough(run, l, k, n - 1, hex);
      StepStaysUnwritten(before, run[n - 1], l, hex);
    }
  }

  /** An aircraft, once written and not written again since, is written less than a
      window later exactly when its entry was evicted in between. */
  lemma WrittenAgainExactly(run: seq<Sighting>, l: Limits, i: nat, j: nat)
    requires Ordered(run) && l.window < TICKS && i < j < |run|
    requires run[i].hex == run[j].hex != "" && Logged(run, l, i)
    requires forall m :: i < m < j && run[m].hex == run[i].hex ==> !Logged(run, l, m)
    requires run[j].at - run[i].at < l.window && !run[j].routePending
    ensures Logged(run, l, j) <==> exists k :: i < k < j && Evicts(run, l, k, run[i].hex)
  {
    var hex := run[i].hex;
    if k :| i < k < j && Evicts(run, l, k, hex) {
      UnwrittenThrough(run, l, k, j, hex);
      StepStaysUnwritten(After(run[..j], l), run[j], l, hex);
    } else if Logged(run, l, j) {
      NoneEvictsItself(run, l, j);
      WrittenOncePerWindow(run, l, i, j);
    }
  }

  lemma NoneEvictsItself(run: seq<Sighting>, l: Limits, j: nat)
    requires j < |run| && run[j].hex != ""
    ensures !Evicts(run, l, j, run[j].hex)
  {
    var table := After(run[..j], l);
    if Find(table, run[j].hex, 0) == |table| { assert !Matches(table[0], run[j].hex); }
  }

  /** A full and busy table writes the aircraft of slot 0 again at once, as soon as
      a further aircraft has been seen. */
  lemma FullTableRepeats(table: seq<Entry>, s: Sighting, t: Sighting, l: Limits)
    requires table != [] && 0 < l.window < TICKS && !s.routePending && !t.routePending
    requires s.at == t.at && s.hex != "" && t.hex != "" && Distinct(table)
    requires AllBusy(table, s.hex, Tick(s.at), l.window)
    requires table[0].hex == t.hex
    ensures var (next, log) := Step(table, s, l);
            log && AllBusy(next, t.hex, Tick(t.at), l.window) && Step(next, t, l).1
  {
    RealTime(s.at, s.at, l.window);
    hide Elapsed, Tick;
    var now, next := Tick(s.at), Step(table, s, l).0;
    assert next[0].hex == s.hex && !Free(next[0], now, l.window);
    forall i | 1 <= i < |next| ensures !Free(next[i], now, l.window) && !Matches(next[i], t.hex) {
      assert next[i] == table[i];
      assert !Free(table[i], now, l.window);
    }
    assert !Matches(table[0], s.hex);
  }

  // ----- exactly when an aircraft that waits for its route is written

  /** The aircraft has one entry, and it has waited since that time. */
  predicate WaitsSince(table: seq<Entry>, hex: string, since: nat) {
    exists e :: 0 <= e < |table| && table[e].hex == hex && table[e].pending && table[e].firstSeen == Tick(since)
  }

  /** A sighting of an aircraft that waits: held while its route is awaited and the grace
      lasts, and written otherwise.  Sightings of others leave it waiting, unless evicted. */
  lemma WaitingStep(table: seq<Entry>, s: Sighting, l: Limits, hex: string, since: nat)
    requires table != [] && Distinct(table) && hex != "" && WaitsSince(table, hex, since)
    requires since <= s.at < since + TICKS
    requires !(AllBusy(table, s.hex, Tick(s.at), l.window) && table[0].hex == hex)
    ensures s.hex == hex ==> (Step(table, s, l).1 <==> !s.routePending || s.at - since >= l.grace)
    ensures !(s.hex == hex && Step(table, s, l).1) ==> WaitsSince(Step(table, s, l).0, hex, since)
  {
    TrueElapsed(s.at, since);
    hide Elapsed, Tick;
    var e :| 0 <= e < |table| && table[e].hex == hex && table[e].pending && table[e].firstSeen == Tick(since);
    var next := Step(table, s, l).0;
    if s.hex == hex {
      assert Find(table, hex, 0) == e;
      assert next == table[e := Decide(table[e], s, l).0];
      assert next[e].hex == hex;
    } else {
      assert next[e] == table[e];
    }
  }

  lemma TrueElapsed(at: nat, since: nat)
    requires since <= at < since + TICKS
    ensures Elapsed(Tick(at), Tick(since)) == at - since
  {
    var q, p := at / TICKS, since / TICKS;
    assert at == q * TICKS + Tick(at) && since == p * TICKS + Tick(since);
    assert q == p || q == p + 1;
  }

  /** The aircraft has no entry. */
  predicate Unknown(table: seq<Entry>, hex: string) { forall e :: 0 <= e < |table| ==> table[e].hex != hex }

  /** The record that its entry stands for is a window old. */
  predicate Outdated(table: seq<Entry>, hex: string, now: nat, window: nat) {
    exists e :: 0 <= e < |table| && table[e].hex == hex && !table[e].pending &&
      Elapsed(now, table[e].loggedAt) >= window
  }

  /** The first sighting of an aircraft without an entry, or whose record is a window
      old: held exactly when its route is awaited, and the grace is not nothing. */
  lemma WaitStarts(table: seq<Entry>, s: Sighting, l: Limits)
    requires table != [] && Distinct(table) && s.hex != ""
    requires Unknown(table, s.hex) || Outdated(table, s.hex, Tick(s.at), l.window)
    ensures Step(table, s, l).1 <==> !s.routePending || l.grace == 0
    ensures !Step(table, s, l).1 ==> WaitsSince(Step(table, s, l).0, s.hex, s.at)
  {
    TrueElapsed(s.at, s.at);
    var now := Tick(s.at);
    var own := Find(table, s.hex, 0);
    var (slot, e) := Slot(table, s.hex, now, l.window);
    if own < |table| {
      var k :| 0 <= k < |table| && table[k].hex == s.hex && !table[k].pending &&
        Elapsed(now, table[k].loggedAt) >= l.window;
      assert own == k;
    }
    assert Step(table, s, l).0[slot] == Decide(e, s, l).0;
    hide Elapsed, Tick;
  }

  /** Sighting m starts the wait of its aircraft: it comes without an entry or with one a
      window old, and is held for its route. */
  predicate StartsWait(run: seq<Sighting>, l: Limits, m: nat)
    requires m < |run|
  {
    var table, s := After(run[..m], l), run[m];
    && s.hex != "" && s.routePending && l.grace > 0
    && (Unknown(table, s.hex) || Outdated(table, s.hex, Tick(s.at), l.window))
  }

  lemma {:induction false} WaitsThrough(run: seq<Sighting>, l: Limits, m: nat, n: nat)
    requires Ordered(run) && m < n <= |run| && StartsWait(run, l, m) && run[n - 1].at < run[m].at + TICKS
    requires NeverEvicted(run, l, run[m].hex, m + 1, n)
    requires forall k :: m < k < n && run[k].hex == run[m].hex ==> !Logged(run, l, k)
    ensures WaitsSince(After(run[..n], l), run[m].hex, run[m].at)
    decreases n
  {
    hide Slot, Decide, AllBusy, WaitsSince, Unknown;
    var k := n - 1;
    var before := After(run[..k], l);
    assert Init(run[..n]) == run[..k] && Last(run[..n]) == run[k];
    OneEntryEach(run[..k], l);
    if n == m + 1 {
      WaitStarts(before, run[m], l);
    } else {
      WaitsThrough(run, l, m, k);
      assert !Evicts(run, l, k, run[m].hex);
      WaitingStep(before, run[k], l, run[m].hex, run[m].at);
    }
  }

  /** An aircraft that began to wait for its route, kept since, is next written exactly
      when its route is no longer awaited, or the grace has passed, in true time. */
  lemma WrittenAfterWaiting(run: seq<Sighting>, l: Limits, m: nat, k: nat)
    requires Ordered(run) && m < k < |run| && StartsWait(run, l, m) && run[k].hex == run[m].hex
    requires run[k].at < run[m].at + TICKS && NeverEvicted(run, l, run[m].hex, m + 1, k)
    requires forall j :: m < j < k && run[j].hex == run[m].hex ==> !Logged(run, l, j)
    ensures !Logged(run, l, m)
    ensures Logged(run, l, k) <==> !run[k].routePending || run[k].at - run[m].at >= l.grace
  {
    OneEntryEach(run[..m], l);
    WaitStarts(After(run[..m], l), run[m], l);
    WaitsThrough(run, l, m, k);
    OneEntryEach(run[..k], l);
    NoneEvictsItself(run, l, k);
    hide Slot, Decide, Unknown;
    WaitingStep(After(run[..k], l), run[k], l, run[m].hex, run[m].at);
  }

  /** The first sighting of an aircraft in a run is written at once exactly when its
      route is not awaited (or there is no grace). */
  lemma FirstSighting(run: seq<Sighting>, l: Limits, m: nat)
    requires m < |run| && run[m].hex != "" && forall i :: 0 <= i < m ==> run[i].hex != run[m].hex
    ensures Logged(run, l, m) <==> !run[m].routePending || l.grace == 0
    ensures run[m].routePending && l.grace > 0 ==> StartsWait(run, l, m)
  {
    var table := After(run[..m], l);
    OneEntryEach(run[..m], l);
    forall e | 0 <= e < |table| ensures table[e].hex != run[m].hex {
      if table[e].hex == run[m].hex {
        EntryWasSeen(run[..m], l, e);
        NotSeen(run[..m], run[m].hex);
      }
    }
    WaitStarts(table, run[m], l);
    hide Step;
  }

  lemma {:induction false} NotSeen(run: seq<Sighting>, hex: string)
    requires forall i :: 0 <= i < |run| ==> run[i].hex != hex
    ensures hex !in Seen(run)
    decreases |run|
  {
    if run != [] { NotSeen(Init(run), hex); }
  }

  // ----- a run from the start that comes to it

  function Digit(d: nat): char
    requires d < 16
  {
    if d < 10 then '0' + d as char else 'A' + (d - 10) as char
  }

  /** The address 0000XX of aircraft n. */
  function Name(n: nat): (name: string)
    requires n < 256
    ensures name != ""
  {
    "0000" + [Digit(n / 16), Digit(n % 16)]
  }

  lemma NamesDiffer(m: nat, n: nat)
    requires m < 256 && n < 256 && m != n
    ensures Name(m) != Name(n)
  {
    DigitsDiffer(m / 16, n / 16);
    DigitsDiffer(m % 16, n % 16);
    hide Digit;
    assert Name(m)[4] == Digit(m / 16) && Name(m)[5] == Digit(m % 16);
    assert Name(n)[4] == Digit(n / 16) && Name(n)[5] == Digit(n % 16);
  }

  lemma DigitsDiffer(m: nat, n: nat)
    requires m < 16 && n < 16
    ensures m != n ==> Digit(m) != Digit(n)
  {}

  /** The time of each snapshot, read from a clock that does not go back. */
  type Clock = nat -> nat

  /** Aircraft come five to a snapshot. */
  const PER_SNAPSHOT: nat := 5

  /** The snapshots that 129 aircraft fill, and one more, come one after another within a window. */
  predicate Paced(clock: Clock, l: Limits) {
    forall m: nat, n: nat :: m < n <= 26 ==> clock(m) < clock(n) < clock(m) + l.window
  }

  /** Sighting i of an aircraft with nothing to wait for. */
  function Nth(clock: Clock, i: nat): Sighting
    requires i < 256
  {
    Sighting(Name(i), clock(i / PER_SNAPSHOT), false)
  }

  function Crowd(clock: Clock, n: nat): (r: seq<Sighting>)
    requires n < 256
    ensures |r| == n && forall i :: 0 <= i < n ==> r[i] == Nth(clock, i)
  {
    seq(n, i requires 0 <= i < n => Nth(clock, i))
  }

  lemma InTheWindow(clock: Clock, l: Limits, i: nat, at: nat)
    requires Paced(clock, l) && 0 < l.window && i <= 26 && at <= 26 && i <= at
    ensures clock(i) <= clock(at) < clock(i) + l.window
  {}

  /** The first n entries are written, the others empty. */
  predicate Filled(table: seq<Entry>, n: nat, clock: Clock) {
    && |table| == SEEN_ENTRIES && n <= SEEN_ENTRIES
    && forall i :: 0 <= i < SEEN_ENTRIES ==>
         table[i] == if i < n then Written(Nth(clock, i)) else EMPTY
  }

  function Written(s: Sighting): Entry { Entry(s.hex, Tick(s.at), false, Tick(s.at)) }

  lemma FilledIsBusy(table: seq<Entry>, n: nat, l: Limits, clock: Clock, m: nat)
    requires Filled(table, n, clock) && 0 < l.window < TICKS && Paced(clock, l) && n <= PER_SNAPSHOT * m + 5 && m <= 26
    ensures Find(table, Name(n), 0) == SEEN_ENTRIES && FirstFree(table, Tick(clock(m)), l.window, 0) == n
  {
    var own := Find(table, Name(n), 0);
    if own < SEEN_ENTRIES {
      assert own < n && table[own].hex == Name(own);
      NamesDiffer(own, n);
    }
    forall i | 0 <= i < n ensures !Free(table[i], Tick(clock(m)), l.window) {
      InTheWindow(clock, l, i / PER_SNAPSHOT, m);
      RealTime(clock(m), clock(i / PER_SNAPSHOT), l.window);
    }
    assert n < SEEN_ENTRIES ==> table[n] == EMPTY && Free(table[n], Tick(clock(m)), l.window);
    hide Name, Elapsed, Tick, Free;
  }

  /** A new aircraft goes to the first free slot and is written. */
  lemma NewIsWritten(table: seq<Entry>, s: Sighting, l: Limits, n: nat)
    requires table != [] && !s.routePending && Find(table, s.hex, 0) == |table|
    requires n == FirstFree(table, Tick(s.at), l.window, 0)
    ensures Step(table, s, l) == (table[(if n < |table| then n else 0) := Written(s)], true)
  {
    hide Find, FirstFree;
  }

  lemma OneMoreFills(table: seq<Entry>, n: nat, l: Limits, clock: Clock)
    requires Filled(table, n, clock) && n < SEEN_ENTRIES && 0 < l.window < TICKS && Paced(clock, l)
    ensures Filled(Step(table, Nth(clock, n), l).0, n + 1, clock) && Step(table, Nth(clock, n), l).1
  {
    FilledIsBusy(table, n, l, clock, n / PER_SNAPSHOT);
    NewIsWritten(table, Nth(clock, n), l, n);
    hide Name, Step, Written;
  }

  lemma {:induction false} CrowdFills(n: nat, l: Limits, clock: Clock)
    requires n <= SEEN_ENTRIES && 0 < l.window < TICKS && Paced(clock, l)
    ensures Filled(After(Crowd(clock, n), l), n, clock)
  {
    if n > 0 {
      CrowdFills(n - 1, l, clock);
      assert Init(Crowd(clock, n)) == Crowd(clock, n - 1) && Last(Crowd(clock, n)) == Nth(clock, n - 1);
      OneMoreFills(After(Crowd(clock, n - 1), l), n - 1, l, clock);
      hide Name, Step, Filled;
    }
  }

  /** 129 aircraft, five to a snapshot, and then the first again. */
  function CrowdAndFirst(clock: Clock): (run: seq<Sighting>)
    ensures |run| == SEEN_ENTRIES + 2
    ensures run[..SEEN_ENTRIES] == Crowd(clock, SEEN_ENTRIES)
    ensures forall i :: 0 <= i <= SEEN_ENTRIES ==> run[i] == Nth(clock, i)
    ensures Last(run) == Sighting(Name(0), clock(26), false)
  {
    Crowd(clock, SEEN_ENTRIES + 1) + [Sighting(Name(0), clock(26), false)]
  }

  lemma CrowdOrdered(l: Limits, clock: Clock)
    requires Paced(clock, l)
    ensures Ordered(CrowdAndFirst(clock))
  {}

  lemma CrowdEvicts(l: Limits, clock: Clock)
    requires 0 < l.window < TICKS && Paced(clock, l)
    ensures Logged(CrowdAndFirst(clock), l, 0) && Evicts(CrowdAndFirst(clock), l, SEEN_ENTRIES, Name(0))
  {
    var run := CrowdAndFirst(clock);
    assert run[..0] == Crowd(clock, 0);
    CrowdFills(0, l, clock);
    OneMoreFills(After(run[..0], l), 0, l, clock);
    CrowdFills(SEEN_ENTRIES, l, clock);
    FilledIsBusy(After(run[..SEEN_ENTRIES], l), SEEN_ENTRIES, l, clock, 25);
    hide Step, Name, Find, FirstFree;
  }

  /** Of 129 aircraft in successive snapshots from the start on, the first is written
      a second time within the window, if it is seen again. */
  lemma CrowdRepeats(l: Limits, clock: Clock)
    requires 0 < l.window < TICKS && Paced(clock, l)
    ensures var run := CrowdAndFirst(clock);
            && Ordered(run) && run[0].hex == Last(run).hex != "" && Last(run).at - run[0].at < l.window
            && Logged(run, l, 0) && Logged(run, l, |run| - 1) && Evicts(run, l, SEEN_ENTRIES, run[0].hex)
  {
    var run := CrowdAndFirst(clock);
    CrowdOrdered(l, clock);
    CrowdEvicts(l, clock);
    forall m | 0 < m < |run| - 1 ensures run[m].hex != run[0].hex { NamesDiffer(m, 0); }
    InTheWindow(clock, l, 0, 26);
    hide Logged, Evicts, Name, CrowdAndFirst;
    WrittenAgainExactly(run, l, 0, |run| - 1);
  }
}
