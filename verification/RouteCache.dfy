/** The route cache: one entry a callsign, the oldest lookup giving way, each entry settling its direction. */
module RouteCache {
  import opened Common
  import opened AircraftRecord
  import opened RouteDirection

  const CACHE_ENTRIES: nat := 12

  const UNUSED := Entry("", false, false, false, NO_ROUTE, 0, 0, 0)

  function Fresh(callsign: string): Entry { UNUSED.(callsign := callsign, used := true) }

  predicate Holds(entries: seq<Entry>, callsign: string) {
    exists i :: 0 <= i < |entries| && entries[i].used && entries[i].callsign == callsign
  }

  /** The first entry for this callsign, or the length. */
  function FindEntry(entries: seq<Entry>, callsign: string, from: nat): (k: nat)
    requires from <= |entries|
    ensures from <= k <= |entries|
    ensures k < |entries| ==> entries[k].used && entries[k].callsign == callsign
    ensures forall i :: from <= i < k ==> !(entries[i].used && entries[i].callsign == callsign)
    decreases |entries| - from
  {
    if from == |entries| || (entries[from].used && entries[from].callsign == callsign) then from
    else FindEntry(entries, callsign, from + 1)
  }

  /** No callsign has two entries. */
  predicate Distinct(entries: seq<Entry>) {
    forall i, j :: 0 <= i < j < |entries| && entries[i].used && entries[j].used ==>
      entries[i].callsign != entries[j].callsign
  }

  /** The first unused entry, or else the first of those looked up longest ago. */
  predicate GivesWay(entries: seq<Entry>, v: nat) {
    && v < |entries|
    && (if entries[v].used
        then (forall i :: 0 <= i < |entries| ==> entries[i].used && entries[i].fetchedMs >= entries[v].fetchedMs)
             && forall i :: 0 <= i < v ==> entries[i].fetchedMs > entries[v].fetchedMs
        else forall i :: 0 <= i < v ==> entries[i].used)
  }

  /** The entry that gives way, when those before `from` are in use and `v` is the oldest of them. */
  function Victim(entries: seq<Entry>, v: nat, from: nat): (r: nat)
    requires v < |entries| && from <= |entries|
    ensures r < |entries|
    decreases |entries| - from
  {
    if from == |entries| then v
    else if !entries[from].used then from
    else Victim(entries, if entries[from].fetchedMs < entries[v].fetchedMs then from else v, from + 1)
  }

  lemma AllocationKeepsDistinct(entries: seq<Entry>, v: nat, callsign: string)
    requires Distinct(entries) && v < |entries| && !Holds(entries, callsign)
    ensures Distinct(entries[v := Fresh(callsign)]) && Holds(entries[v := Fresh(callsign)], callsign)
  {
    assert entries[v := Fresh(callsign)][v].used;
  }

  class RouteCache {
    const geometry: Geometry
    const entries: array<Entry>

    constructor (geometry: Geometry)
      ensures this.geometry == geometry && fresh(entries)
      ensures entries.Length == CACHE_ENTRIES && Distinct(entries[..])
      ensures entries[..] == seq(CACHE_ENTRIES, _ => UNUSED)
    {
      this.geometry := geometry;
      entries := new Entry[CACHE_ENTRIES](_ => UNUSED);
      new;
      assert entries[..] == seq(CACHE_ENTRIES, _ => UNUSED);
    }

    method Find(callsign: string) returns (found: Option<nat>)
      ensures found.Some? ==> found.value < entries.Length && entries[found.value].used &&
                              entries[found.value].callsign == callsign
      ensures found == None ==> !Holds(entries[..], callsign)
      ensures found.GetOr(entries.Length) == FindEntry(entries[..], callsign, 0)
    {
      for index := 0 to entries.Length
        invariant forall i :: 0 <= i < index ==> !(entries[i].used && entries[i].callsign == callsign)
        invariant FindEntry(entries[..], callsign, 0) == FindEntry(entries[..], callsign, index)
      {
        if entries[index].used && entries[index].callsign == callsign {
          return Some(index);
        }
      }
      found := None;
    }

    method Allocate(callsign: string) returns (victim: nat)
      requires entries.Length == CACHE_ENTRIES && Distinct(entries[..]) && !Holds(entries[..], callsign)
      modifies entries
      ensures GivesWay(old(entries[..]), victim) && victim == Victim(old(entries[..]), 0, 0)
      ensures entries[..] == old(entries[..])[victim := Fresh(callsign)]
      ensures Distinct(entries[..])
    {
      victim := 0;
      var index := 0;
      while index < entries.Length
        invariant index <= entries.Length && victim < entries.Length
        invariant forall i :: 0 <= i < index ==> entries[i].used
        invariant Victim(entries[..], 0, 0) == Victim(entries[..], victim, index)
        invariant if index == 0 then victim == 0 else victim < index
        invariant index > 0 ==>
          (forall i :: 0 <= i < index ==> entries[i].fetchedMs >= entries[victim].fetchedMs) &&
          (forall i :: 0 <= i < victim ==> entries[i].fetchedMs > entries[victim].fetchedMs)
      {
        if !entries[index].used {
          victim := index;
          break;
        }
        if entries[index].fetchedMs < entries[victim].fetchedMs {
          victim := index;
        }
        index := index + 1;
      }
      AllocationKeepsDistinct(entries[..], victim, callsign);
      entries[victim] := Fresh(callsign);
    }

    /** One poll of an aircraft with a cached route: its route as shown, and what the entry learns. */
    method OrientRoute(index: nat, aircraft: Aircraft, now: int) returns (shown: Aircraft)
      requires index < entries.Length
      modifies entries
      ensures var (entry, poll) := Poll(geometry, old(entries[index]), aircraft, now);
              entries[..] == old(entries[..])[index := entry] && shown == poll
    {
      hide Evidence;
      shown := ApplyRoute(aircraft, entries[index]);
      if !entries[index].known {
        return;
      }
      var evidence := Evidence(geometry, shown);
      if evidence != 0 {
        if entries[index].orientation == 0 || evidence == entries[index].orientation {
          entries[index] := entries[index].(orientation := evidence, orientedMs := now);
        } else if now - entries[index].orientedMs > CONTRARY_MS {
          entries[index] := entries[index].(orientation := evidence, orientedMs := now);
        }
      }
      if entries[index].orientation != 0 && now - entries[index].orientedMs > HOLD_MS {
        entries[index] := entries[index].(orientation := 0);
      }
      if entries[index].orientation < 0 {
        shown := Reverse(shown);
      }
      shown := shown.(routeConfirmed := entries[index].orientation != 0);
    }
  }
}
