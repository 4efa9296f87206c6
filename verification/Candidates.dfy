/** Which aircraft of a response are kept: the comparison and the list of the five nearest. */
module Candidates {
  import opened Common
  import opened AircraftRecord
  import opened BoundedInsertion

  const MAX_AIRCRAFT: nat := 5

  /** The sign of C's strcmp. */
  function StrCmp(a: string, b: string): int {
    if a == b then 0
    else if a == [] then -1
    else if b == [] then 1
    else if a[0] == b[0] then StrCmp(a[1..], b[1..])
    else if a[0] < b[0] then -1 else 1
  }

  function Abs(x: real): real { if x < 0.0 then -x else x }

  /** Nearer first, then fresher, each beyond a tolerance; then by hex. */
  function Compare(left: Aircraft, right: Aircraft): int {
    var difference := left.distanceNm - right.distanceNm;
    if Abs(difference) > 0.001 then (if difference < 0.0 then -1 else 1)
    else if Abs(left.seenPosS - right.seenPosS) > 0.001 then
      (if left.seenPosS < right.seenPosS then -1 else 1)
    else StrCmp(left.hex, right.hex)
  }

  /** The candidate list after these aircraft were inserted in this order. */
  function Nearest(xs: seq<Aircraft>): seq<Aircraft> {
    InsertAll(Compare, MAX_AIRCRAFT, xs)
  }

  lemma {:induction false} StrCmpAntisymmetric(a: string, b: string)
    ensures StrCmp(a, b) == -StrCmp(b, a)
    ensures StrCmp(a, b) == 0 <==> a == b
  {
    if a != b && a != [] && b != [] && a[0] == b[0] {
      StrCmpAntisymmetric(a[1..], b[1..]);
      assert a == [a[0]] + a[1..] && b == [b[0]] + b[1..];
    }
  }

  lemma CompareAntisymmetric()
    ensures Antisymmetric(Compare)
  {
    forall a: Aircraft, b: Aircraft ensures Compare(a, b) == -Compare(b, a) {
      StrCmpAntisymmetric(a.hex, b.hex);
    }
  }

  /** At most five, as many as there were, and each neighbouring pair in order: for any insertions. */
  lemma NearestInOrder(xs: seq<Aircraft>)
    ensures NeighboursInOrder(Compare, Nearest(xs))
    ensures |Nearest(xs)| == if |xs| < MAX_AIRCRAFT then |xs| else MAX_AIRCRAFT
  {
    CompareAntisymmetric();
    AllInOrder(Compare, MAX_AIRCRAFT, xs);
  }

  /** Where the tolerances leave the comparison transitive, the list is the first
      five of the one stable sort of everything inserted. */
  lemma NearestIsFirstFive(xs: seq<Aircraft>, order: seq<nat>)
    requires TransitiveOn(Compare, xs) && StableSort(Compare, xs, order)
    ensures Nearest(xs) == Top(MAX_AIRCRAFT, Pick(xs, order))
  {
    CompareAntisymmetric();
    FirstOfStableSort(Compare, MAX_AIRCRAFT, xs, order);
  }

  lemma StableSortExists(xs: seq<Aircraft>)
    requires TransitiveOn(Compare, xs)
    ensures exists order :: StableSort(Compare, xs, order)
  {
    CompareAntisymmetric();
    SortedIndicesStable(Compare, xs);
  }

  // ----- what the order is

  /** `a` comes first in the order of strings: at the first difference, or as the shorter. */
  predicate Precedes(a: string, b: string) {
    exists k :: 0 <= k <= |a| && k <= |b| && a[..k] == b[..k] &&
      if k == |a| then k < |b| else k < |b| && a[k] < b[k]
  }

  lemma {:induction false} StrCmpPrecedes(a: string, b: string)
    ensures StrCmp(a, b) == -1 ==> Precedes(a, b)
    ensures StrCmp(a, b) in {-1, 0, 1}
  {
    if a != b && a != [] && b != [] && a[0] == b[0] {
      StrCmpPrecedes(a[1..], b[1..]);
      assert a == [a[0]] + a[1..] && b == [b[0]] + b[1..];
      if StrCmp(a, b) == -1 {
        var k :| 0 <= k <= |a[1..]| && k <= |b[1..]| && a[1..][..k] == b[1..][..k] &&
          if k == |a[1..]| then k < |b[1..]| else k < |b[1..]| && a[1..][k] < b[1..][k];
        assert a[..k + 1] == [a[0]] + a[1..][..k] && b[..k + 1] == [b[0]] + b[1..][..k];
      }
    } else if a == [] {
      assert a[..0] == b[..0];
    } else if b != [] && a[0] < b[0] {
      assert a[..0] == b[..0];
    }
  }

  /** `a` is listed before `b` with reason: it is nearer; or about as near and fresher;
      or about as near and fresh, and has the lower address or the same. */
  predicate Leads(a: Aircraft, b: Aircraft) {
    var farther, older := a.distanceNm - b.distanceNm, a.seenPosS - b.seenPosS;
    || farther < -0.001
    || (farther <= 0.001 && (older < -0.001 || (older <= 0.001 && (a.hex == b.hex || Precedes(a.hex, b.hex)))))
  }

  lemma LowerLeads(a: Aircraft, b: Aircraft)
    requires Compare(a, b) <= 0
    ensures Leads(a, b)
  {
    StrCmpPrecedes(a.hex, b.hex);
    StrCmpAntisymmetric(a.hex, b.hex);
    hide Precedes;
  }

  /** Each aircraft listed is at most the tolerance farther than the next; if they are
      about as far it is at most the tolerance older; if about as old too, its address
      comes first. */
  lemma ListedInTurn(xs: seq<Aircraft>)
    ensures forall i :: 0 <= i < |Nearest(xs)| - 1 ==> Leads(Nearest(xs)[i], Nearest(xs)[i + 1])
  {
    NearestInOrder(xs);
    var list := Nearest(xs);
    hide Compare, Nearest, Leads;
    forall i | 0 <= i < |list| - 1 ensures Leads(list[i], list[i + 1]) {
      assert Compare(list[i], list[i + 1]) <= 0;
      LowerLeads(list[i], list[i + 1]);
    }
  }

  /** No two aircraft are about as far. */
  predicate Spaced(xs: seq<Aircraft>) {
    forall i, j :: 0 <= i < j < |xs| ==> Abs(xs[i].distanceNm - xs[j].distanceNm) > 0.001
  }

  predicate ByDistance(list: seq<Aircraft>) {
    forall i, j :: 0 <= i < j < |list| ==> list[i].distanceNm < list[j].distanceNm
  }

  /** All of xs that is not listed is farther than all that is; and nothing is left out
      of a list that is not full. */
  predicate OthersFarther(list: seq<Aircraft>, xs: seq<Aircraft>) {
    forall x :: x in xs && x !in list ==> |list| == MAX_AIRCRAFT && FartherThanAll(x, list)
  }

  predicate FartherThanAll(x: Aircraft, list: seq<Aircraft>) {
    forall i :: 0 <= i < |list| ==> list[i].distanceNm < x.distanceNm
  }

  predicate Splits(list: seq<Aircraft>, p: nat, a: Aircraft) {
    && p <= |list|
    && (forall i :: 0 <= i < p ==> list[i].distanceNm < a.distanceNm)
    && (forall i :: p <= i < |list| ==> a.distanceNm < list[i].distanceNm)
  }

  lemma PositionSplits(list: seq<Aircraft>, a: Aircraft)
    requires ByDistance(list) && forall i :: 0 <= i < |list| ==> Abs(list[i].distanceNm - a.distanceNm) > 0.001
    ensures Splits(list, BoundedInsertion.Position(Compare, list, a), a)
  {
    var p := BoundedInsertion.Position(Compare, list, a);
    assert forall i :: 0 <= i < p ==> Compare(list[i], a) <= 0;
    assert p < |list| ==> Compare(list[p], a) > 0;
  }

  lemma FullByDistance(list: seq<Aircraft>, p: nat, a: Aircraft)
    requires ByDistance(list) && Splits(list, p, a)
    ensures ByDistance(InsertAt(list, p, a))
    ensures forall b :: b in InsertAt(list, p, a) <==> b in list || b == a
    ensures FartherThanAll(a, list) ||
            (list != [] && forall b :: b in InsertAt(list, p, a) ==> b.distanceNm <= Last(list).distanceNm)
  {
    var full := InsertAt(list, p, a);
    forall b | b in list ensures b in full {
      var i :| 0 <= i < |list| && list[i] == b;
      assert full[if i < p then i else i + 1] == b;
    }
    assert full[p] == a;
  }

  lemma CutByDistance(full: seq<Aircraft>, n: nat)
    requires ByDistance(full) && n <= |full|
    ensures ByDistance(full[..n])
    ensures forall x :: x in full && x !in full[..n] ==> FartherThanAll(x, full[..n])
  {
    forall x | x in full && x !in full[..n] ensures FartherThanAll(x, full[..n]) {
      var k :| 0 <= k < |full| && full[k] == x;
      assert k >= n;
    }
  }

  /** One more insertion leaves the list by distance, and nobody nearer out. */
  lemma InsertByDistance(list: seq<Aircraft>, xs: seq<Aircraft>, a: Aircraft)
    requires ByDistance(list) && |list| <= MAX_AIRCRAFT && OthersFarther(list, xs)
    requires forall i :: 0 <= i < |list| ==> Abs(list[i].distanceNm - a.distanceNm) > 0.001
    ensures var r := Insert(Compare, MAX_AIRCRAFT, list, a); ByDistance(r) && OthersFarther(r, xs + [a])
  {
    var p := BoundedInsertion.Position(Compare, list, a);
    var full := InsertAt(list, p, a);
    PositionSplits(list, a);
    FullByDistance(list, p, a);
    var n := if |full| <= MAX_AIRCRAFT then |full| else MAX_AIRCRAFT;
    CutByDistance(full, n);
    var r := full[..n];
    assert Insert(Compare, MAX_AIRCRAFT, list, a) == r;
    hide Compare, Insert, InsertAt, ByDistance, Splits;
    forall x | x in xs + [a] && x !in r ensures |r| == MAX_AIRCRAFT && FartherThanAll(x, r) {
      if x !in list && x != a { LeftOutStays(list, full, r, a, x); } else { assert x in full; }
    }
  }

  lemma LeftOutStays(list: seq<Aircraft>, full: seq<Aircraft>, r: seq<Aircraft>, a: Aircraft, x: Aircraft)
    requires |list| == MAX_AIRCRAFT && FartherThanAll(x, list)
    requires |full| == MAX_AIRCRAFT + 1 && r == full[..MAX_AIRCRAFT]
    requires ByDistance(full) && forall b :: b in full <==> b in list || b == a
    requires FartherThanAll(a, list) || forall b :: b in full ==> b.distanceNm <= Last(list).distanceNm
    ensures |r| == MAX_AIRCRAFT && FartherThanAll(x, r)
  {
    forall i | 0 <= i < |r| ensures r[i].distanceNm < x.distanceNm {
      assert r[i] == full[i] && full[i] in full && full[5] in full && full[i].distanceNm < full[5].distanceNm;
    }
  }

  /** Where no two are about as far, the list is by distance, and whoever is left out is
      farther than everyone listed. */
  lemma {:induction false} NearestAreNearest(xs: seq<Aircraft>)
    requires Spaced(xs)
    ensures ByDistance(Nearest(xs)) && OthersFarther(Nearest(xs), xs)
    decreases |xs|
  {
    if xs != [] {
      hide *;
      var less, a := xs[..|xs| - 1], xs[|xs| - 1];
      NearestGrows(xs, less, a);
      NearestAreNearest(less);
      InsertByDistance(Nearest(less), less, a);
    }
  }

  lemma NearestGrows(xs: seq<Aircraft>, less: seq<Aircraft>, a: Aircraft)
    requires Spaced(xs) && xs != [] && less == xs[..|xs| - 1] && a == xs[|xs| - 1]
    ensures xs == less + [a] && Spaced(less) && |Nearest(less)| <= MAX_AIRCRAFT
    ensures Nearest(xs) == Insert(Compare, MAX_AIRCRAFT, Nearest(less), a)
    ensures forall i :: 0 <= i < |Nearest(less)| ==> Abs(Nearest(less)[i].distanceNm - a.distanceNm) > 0.001
  {
    assert less == Init(xs) && a == Last(xs);
    NearestInOrder(less);
    SpacedFromLast(xs, Nearest(less));
    hide Compare, Insert;
  }

  lemma SpacedFromLast(xs: seq<Aircraft>, list: seq<Aircraft>)
    requires xs != [] && Spaced(xs) && list == Nearest(Init(xs))
    ensures forall i :: 0 <= i < |list| ==> Abs(list[i].distanceNm - Last(xs).distanceNm) > 0.001
  {
    forall i | 0 <= i < |list| ensures Abs(list[i].distanceNm - Last(xs).distanceNm) > 0.001 {
      NearestAreInserted(Init(xs), list[i]);
      var k :| 0 <= k < |Init(xs)| && Init(xs)[k] == list[i];
      assert xs[k] == list[i];
    }
  }

  // ----- exactly when the list is in order end to end

  /** Every entry goes before, or with, all that are listed after it. */
  predicate InOrderThroughout(list: seq<Aircraft>) {
    forall i, j :: 0 <= i < j < |list| ==> Compare(list[i], list[j]) <= 0
  }

  /** No two aircraft share an address. */
  predicate Addressed(xs: seq<Aircraft>) {
    forall i, j :: 0 <= i < |xs| && 0 <= j < |xs| && xs[i].hex == xs[j].hex ==> xs[i] == xs[j]
  }

  /** A tie is between an aircraft and itself. */
  lemma Ties(a: Aircraft, b: Aircraft)
    ensures Compare(a, b) == 0 ==> a.hex == b.hex
    ensures Compare(a, a) == 0
  {
    StrCmpAntisymmetric(a.hex, b.hex);
    StrCmpAntisymmetric(a.hex, a.hex);
  }

  /** Between two neighbours-in-order a transitive comparison orders all. */
  lemma {:induction false} NeighboursReach(list: seq<Aircraft>, i: nat, j: nat)
    requires NeighboursInOrder(Compare, list) && TransitiveOn(Compare, list) && i < j < |list|
    ensures Compare(list[i], list[j]) <= 0
    decreases j
  {
    hide Compare;
    assert Compare(list[j - 1], list[j - 1 + 1]) <= 0;
    if i < j - 1 {
      NeighboursReach(list, i, j - 1);
      assert Compare(list[i], list[j - 1]) <= 0 && Compare(list[j - 1], list[j]) <= 0;
    }
  }

  /** A tie or a lower one of two listed aircraft stands first. */
  lemma StandsFirst(list: seq<Aircraft>, i: nat, j: nat)
    requires InOrderThroughout(list) && Addressed(list) && i < |list| && j < |list|
    requires Compare(list[i], list[j]) <= 0
    ensures list[i] == list[j] || i < j
  {
    hide Compare;
    CompareAntisymmetric();
    assert Compare(list[i], list[j]) == -Compare(list[j], list[i]);
    Ties(list[i], list[j]);
  }

  /** A list whose neighbours are in order is in order throughout exactly when the
      comparison is transitive on it. */
  lemma ThroughoutIsTransitive(list: seq<Aircraft>)
    requires NeighboursInOrder(Compare, list) && Addressed(list)
    ensures InOrderThroughout(list) <==> TransitiveOn(Compare, list)
  {
    hide Compare;
    if TransitiveOn(Compare, list) {
      forall i, j | 0 <= i < j < |list| ensures Compare(list[i], list[j]) <= 0 {
        NeighboursReach(list, i, j);
      }
    }
    if InOrderThroughout(list) {
      forall i, j, k | 0 <= i < |list| && 0 <= j < |list| && 0 <= k < |list| &&
                       Compare(list[i], list[j]) <= 0 && Compare(list[j], list[k]) <= 0
        ensures Compare(list[i], list[k]) <= 0
      {
        StandsFirst(list, i, j);
        StandsFirst(list, j, k);
        Ties(list[i], list[i]);
      }
    }
  }

  lemma InsertedAll(list: seq<Aircraft>, a: Aircraft)
    requires |list| < MAX_AIRCRAFT
    ensures multiset(Insert(Compare, MAX_AIRCRAFT, list, a)) == multiset(list + [a])
  {
    var p := BoundedInsertion.Position(Compare, list, a);
    assert list == list[..p] + list[p..];
  }

  /** Up to five, nothing is dropped. */
  lemma {:induction false} NearestKeepsAll(xs: seq<Aircraft>)
    requires |xs| <= MAX_AIRCRAFT
    ensures multiset(Nearest(xs)) == multiset(xs)
    decreases |xs|
  {
    hide Compare, Insert;
    if xs != [] {
      NearestKeepsAll(Init(xs));
      NearestInOrder(Init(xs));
      InsertedAll(Nearest(Init(xs)), Last(xs));
      assert xs == Init(xs) + [Last(xs)];
    }
  }

  /** Being transitive is about the aircraft, not about their order. */
  lemma TransitiveAnyOrder(xs: seq<Aircraft>, ys: seq<Aircraft>)
    requires (forall a :: a in ys ==> a in xs) && TransitiveOn(Compare, xs)
    ensures TransitiveOn(Compare, ys)
  {
    hide Compare;
    forall i, j, k | 0 <= i < |ys| && 0 <= j < |ys| && 0 <= k < |ys| &&
                     Compare(ys[i], ys[j]) <= 0 && Compare(ys[j], ys[k]) <= 0
      ensures Compare(ys[i], ys[k]) <= 0
    {
      assert ys[i] in xs && ys[j] in xs && ys[k] in xs;
      var a, b, c :|
        0 <= a < |xs| && 0 <= b < |xs| && 0 <= c < |xs| && xs[a] == ys[i] && xs[b] == ys[j] && xs[c] == ys[k];
      assert Compare(xs[a], xs[b]) <= 0 && Compare(xs[b], xs[c]) <= 0;
    }
  }

  lemma AddressedAnyOrder(xs: seq<Aircraft>, ys: seq<Aircraft>)
    requires (forall a :: a in ys ==> a in xs) && Addressed(xs)
    ensures Addressed(ys)
  {
    forall i, j | 0 <= i < |ys| && 0 <= j < |ys| && ys[i].hex == ys[j].hex ensures ys[i] == ys[j] {
      assert ys[i] in xs && ys[j] in xs;
    }
  }

  lemma {:induction false} NearestAreInserted(xs: seq<Aircraft>, a: Aircraft)
    requires a in Nearest(xs)
    ensures a in xs
    decreases |xs|
  {
    hide Compare;
    var before := Nearest(Init(xs));
    var p := BoundedInsertion.Position(Compare, before, Last(xs));
    assert a in before || a == Last(xs);
    if a != Last(xs) { NearestAreInserted(Init(xs), a); }
  }

  /** For any insertions, the list kept is in order end to end exactly when the
      comparison is transitive on what is kept. */
  lemma OrderedIffKeptTransitive(xs: seq<Aircraft>)
    requires Addressed(xs)
    ensures InOrderThroughout(Nearest(xs)) <==> TransitiveOn(Compare, Nearest(xs))
  {
    NearestInOrder(xs);
    forall a | a in Nearest(xs) ensures a in xs { NearestAreInserted(xs, a); }
    AddressedAnyOrder(xs, Nearest(xs));
    ThroughoutIsTransitive(Nearest(xs));
  }

  /** For up to five, exactly when it is transitive on what was inserted. */
  lemma OrderedIffTransitive(xs: seq<Aircraft>)
    requires Addressed(xs) && |xs| <= MAX_AIRCRAFT
    ensures InOrderThroughout(Nearest(xs)) <==> TransitiveOn(Compare, xs)
  {
    hide Compare, Nearest;
    OrderedIffKeptTransitive(xs);
    NearestKeepsAll(xs);
    forall a ensures a in xs <==> a in Nearest(xs) {
      assert a in multiset(xs) <==> a in multiset(Nearest(xs));
    }
    if TransitiveOn(Compare, xs) { TransitiveAnyOrder(xs, Nearest(xs)); }
    if TransitiveOn(Compare, Nearest(xs)) { TransitiveAnyOrder(Nearest(xs), xs); }
  }

  /** For any number, transitive on all that were inserted is enough. */
  lemma OrderedIfTransitive(xs: seq<Aircraft>)
    requires TransitiveOn(Compare, xs)
    ensures InOrderThroughout(Nearest(xs))
  {
    var list := Nearest(xs);
    NearestInOrder(xs);
    forall a | a in list ensures a in xs { NearestAreInserted(xs, a); }
    TransitiveAnyOrder(xs, list);
    forall i, j | 0 <= i < j < |list| ensures Compare(list[i], list[j]) <= 0 {
      NeighboursReach(list, i, j);
    }
  }

  function At(hex: string, distance: real): Aircraft {
    NOBODY.(hex := hex, distanceNm := distance)
  }

  /** The tolerance can break transitivity: three aircraft a little under 0.001 NM
      apart, each step decided by hex, end up with the farthest listed first. */
  lemma ToleranceBreaksSorting()
    ensures var xs := [At("CCC", 0.0), At("BBB", 0.0008), At("AAA", 0.0016)];
            Nearest(xs) == [xs[2], xs[1], xs[0]] && Compare(xs[0], xs[2]) < 0
  {
    var a, b, c := At("CCC", 0.0), At("BBB", 0.0008), At("AAA", 0.0016);
    assert Compare(a, b) == 1 && Compare(b, c) == 1 && Compare(a, c) == -1;
    ThreeReversed(Compare, MAX_AIRCRAFT, a, b, c);
  }

  /** The same three behind three nearer ones. */
  function Six(): seq<Aircraft> {
    [At("111", 1.0), At("222", 2.0), At("333", 3.0), At("CCC", 4.0), At("BBB", 4.0008), At("AAA", 4.0016)]
  }

  lemma SixCompare()
    ensures forall i, j :: 0 <= i < 3 && i < j < 6 ==> Compare(Six()[i], Six()[j]) == -1
    ensures Compare(Six()[3], Six()[4]) == 1 && Compare(Six()[4], Six()[5]) == 1
    ensures Compare(Six()[5], Six()[4]) == -1 && Compare(Six()[4], Six()[3]) == -1 && Compare(Six()[5], Six()[3]) == 1
  {
    forall i, j | 0 <= i < 3 && i < j < 6 ensures Compare(Six()[i], Six()[j]) == -1 {
      assert Six()[j].distanceNm - Six()[i].distanceNm > 0.001;
    }
  }

  /** Their list is in order, since the one that would break it is dropped. */
  lemma OrderedWithoutTransitive()
    ensures |Nearest(Six())| == 5 && InOrderThroughout(Nearest(Six())) && !TransitiveOn(Compare, Six())
  {
    SixCompare();
    hide Compare, At;
    var s := Six();
    SixInserted(Compare, s[0], s[1], s[2], s[3], s[4], s[5]);
    assert s == [s[0], s[1], s[2], s[3], s[4], s[5]];
    FiveInOrder(s);
    NotTransitive(s);
    hide InsertAll;
  }

  lemma FiveInOrder(s: seq<Aircraft>)
    requires |s| == 6 && forall i, j :: 0 <= i < 3 && i < j < 6 ==> Compare(s[i], s[j]) == -1
    requires Compare(s[5], s[4]) == -1
    ensures InOrderThroughout([s[0], s[1], s[2], s[5], s[4]])
  {
    hide Compare;
  }

  lemma NotTransitive(s: seq<Aircraft>)
    requires |s| == 6 && Compare(s[5], s[4]) == -1 && Compare(s[4], s[3]) == -1 && Compare(s[5], s[3]) == 1
    ensures !TransitiveOn(Compare, s)
  {
    hide Compare;
  }
}
