/**
  * Insertion into a bounded list under a three-way comparison, and its
  * independent description: the head of a stable sort of everything inserted.
  */
module BoundedInsertion {
  import opened Common

  type Comparison<!T> = (T, T) -> int

  ghost predicate Antisymmetric<T(!new)>(cmp: Comparison<T>) {
    forall a, b :: cmp(a, b) == -cmp(b, a)
  }

  /** How many leading entries stay in front of a newcomer. */
  function Position<T>(cmp: Comparison<T>, list: seq<T>, a: T): (p: nat)
    ensures p <= |list|
    ensures forall i :: 0 <= i < p ==> cmp(list[i], a) <= 0
    ensures p < |list| ==> cmp(list[p], a) > 0
  {
    if list == [] || cmp(list[0], a) > 0 then 0 else 1 + Position(cmp, list[1..], a)
  }

  function Top<T>(cap: nat, list: seq<T>): seq<T> {
    if |list| <= cap then list else list[..cap]
  }

  function InsertAt<T>(list: seq<T>, p: nat, a: T): (r: seq<T>)
    requires p <= |list|
    ensures |r| == |list| + 1
    ensures forall i :: 0 <= i < |r| ==> r[i] == if i < p then list[i] else if i == p then a else list[i - 1]
  {
    list[..p] + [a] + list[p..]
  }

  function Insert<T>(cmp: Comparison<T>, cap: nat, list: seq<T>, a: T): seq<T> {
    Top(cap, InsertAt(list, Position(cmp, list, a), a))
  }

  function InsertAll<T>(cmp: Comparison<T>, cap: nat, xs: seq<T>): seq<T> {
    if xs == [] then [] else Insert(cmp, cap, InsertAll(cmp, cap, Init(xs)), Last(xs))
  }

  predicate NeighboursInOrder<T>(cmp: Comparison<T>, list: seq<T>) {
    forall i :: 0 <= i < |list| - 1 ==> cmp(list[i], list[i + 1]) <= 0
  }

  // ----- an independent description: the head of a stable sort

  predicate TransitiveOn<T>(cmp: Comparison<T>, xs: seq<T>) {
    forall i, j, k {:trigger cmp(xs[i], xs[j]), cmp(xs[j], xs[k])} ::
      (0 <= i < |xs| && 0 <= j < |xs| && 0 <= k < |xs| &&
       cmp(xs[i], xs[j]) <= 0 && cmp(xs[j], xs[k]) <= 0) ==> cmp(xs[i], xs[k]) <= 0
  }

  /** The i-th goes before the j-th: it compares lower, or equal and came first. */
  predicate Before<T>(cmp: Comparison<T>, xs: seq<T>, i: nat, j: nat)
    requires i < |xs| && j < |xs|
  {
    cmp(xs[i], xs[j]) < 0 || (cmp(xs[i], xs[j]) == 0 && i < j)
  }

  predicate Indices(order: seq<nat>, n: nat) {
    |order| == n && forall i :: 0 <= i < |order| ==> order[i] < n
  }

  predicate Ordered<T>(cmp: Comparison<T>, xs: seq<T>, order: seq<nat>)
    requires Indices(order, |xs|)
  {
    forall i, j :: 0 <= i < j < |order| ==> Before(cmp, xs, order[i], order[j])
  }

  /** `order` lists every index of `xs` in the order a stable sort puts them. */
  ghost predicate StableSort<T>(cmp: Comparison<T>, xs: seq<T>, order: seq<nat>) {
    && Indices(order, |xs|)
    && (forall k: nat :: k < |xs| ==> k in order)
    && Ordered(cmp, xs, order)
  }

  function Pick<T>(xs: seq<T>, order: seq<nat>): (r: seq<T>)
    requires Indices(order, |xs|)
    ensures |r| == |order|
    ensures forall i :: 0 <= i < |r| ==> r[i] == xs[order[i]]
  {
    seq(|order|, i requires 0 <= i < |order| => xs[order[i]])
  }

  // ----- properties

  /** Insertion keeps neighbours in order and grows the list up to its capacity. */
  lemma InsertKeepsOrder<T(!new)>(cmp: Comparison<T>, cap: nat, list: seq<T>, a: T)
    requires Antisymmetric(cmp) && |list| <= cap && NeighboursInOrder(cmp, list)
    ensures NeighboursInOrder(cmp, Insert(cmp, cap, list, a))
    ensures |Insert(cmp, cap, list, a)| == if |list| < cap then |list| + 1 else cap
  {
    var p := Position(cmp, list, a);
    var r := InsertAt(list, p, a);
    forall i | 0 <= i < |r| - 1 ensures cmp(r[i], r[i + 1]) <= 0 {
      if i == p { assert cmp(a, list[p]) == -cmp(list[p], a); }
      if i > p { assert cmp(list[i - 1], list[i - 1 + 1]) <= 0; }
    }
  }

  lemma {:induction false} AllInOrder<T(!new)>(cmp: Comparison<T>, cap: nat, xs: seq<T>)
    requires Antisymmetric(cmp)
    ensures NeighboursInOrder(cmp, InsertAll(cmp, cap, xs))
    ensures |InsertAll(cmp, cap, xs)| == if |xs| < cap then |xs| else cap
  {
    if xs != [] {
      AllInOrder(cmp, cap, Init(xs));
      InsertKeepsOrder(cmp, cap, InsertAll(cmp, cap, Init(xs)), Last(xs));
    }
  }

  /** A stable order of the indices, built by inserting one index at a time. */
  ghost function SortedIndices<T>(cmp: Comparison<T>, xs: seq<T>): (order: seq<nat>)
    ensures Indices(order, |xs|)
  {
    if xs == [] then []
    else
      var before := SortedIndices(cmp, Init(xs));
      InsertAt(before, Position(cmp, Pick(Init(xs), before), Last(xs)), |xs| - 1)
  }

  /** The bounded list is the head of the unbounded one, transitive comparison or not. */
  lemma {:induction false} BoundedIsPrefix<T>(cmp: Comparison<T>, cap: nat, xs: seq<T>)
    ensures InsertAll(cmp, cap, xs) == Top(cap, Pick(xs, SortedIndices(cmp, xs)))
  {
    if xs != [] {
      BoundedIsPrefix(cmp, cap, Init(xs));
      var list := Pick(Init(xs), SortedIndices(cmp, Init(xs)));
      PickInserted(cmp, xs);
      TopInsert(cmp, cap, list, Last(xs));
      hide Position, Pick, SortedIndices, InsertAt, Top;
    }
  }

  lemma PickInserted<T>(cmp: Comparison<T>, xs: seq<T>)
    requires xs != []
    ensures var list := Pick(Init(xs), SortedIndices(cmp, Init(xs)));
            Pick(xs, SortedIndices(cmp, xs)) == InsertAt(list, Position(cmp, list, Last(xs)), Last(xs))
  {
    var before := SortedIndices(cmp, Init(xs));
    var list := Pick(Init(xs), before);
    PickInsertAt(xs, before, Position(cmp, list, Last(xs)));
  }

  lemma PickInsertAt<T>(xs: seq<T>, before: seq<nat>, p: nat)
    requires xs != [] && Indices(before, |xs| - 1) && p <= |before|
    ensures Indices(InsertAt(before, p, |xs| - 1), |xs|)
    ensures Pick(xs, InsertAt(before, p, |xs| - 1)) == InsertAt(Pick(Init(xs), before), p, Last(xs))
  {}

  /** `Position` is the only place with no greater entry before it and a greater one, or the end, at it. */
  lemma PositionUnique<T>(cmp: Comparison<T>, list: seq<T>, a: T, p: nat)
    requires p <= |list|
    requires forall i :: 0 <= i < p ==> cmp(list[i], a) <= 0
    requires p < |list| ==> cmp(list[p], a) > 0
    ensures p == Position(cmp, list, a)
  {
    if p > 0 { PositionUnique(cmp, list[1..], a, p - 1); }
  }

  lemma TopInsert<T>(cmp: Comparison<T>, cap: nat, list: seq<T>, a: T)
    ensures Insert(cmp, cap, Top(cap, list), a) == Top(cap, InsertAt(list, Position(cmp, list, a), a))
  {
    var p := Position(cmp, list, a);
    var top := Top(cap, list);
    var q := if p < |top| then p else |top|;
    PositionUnique(cmp, top, a, q);
    TopInsertAt(cap, list, p, a);
  }

  lemma TopInsertAt<T>(cap: nat, list: seq<T>, p: nat, a: T)
    requires p <= |list|
    ensures var top := Top(cap, list);
            Top(cap, InsertAt(top, if p < |top| then p else |top|, a)) == Top(cap, InsertAt(list, p, a))
  {}

  lemma {:induction false} SortedIndicesStable<T(!new)>(cmp: Comparison<T>, xs: seq<T>)
    requires Antisymmetric(cmp) && TransitiveOn(cmp, xs)
    ensures StableSort(cmp, xs, SortedIndices(cmp, xs))
  {
    if xs != [] {
      var less := Init(xs);
      SortedIndicesStable(cmp, less);
      var before, order := SortedIndices(cmp, less), SortedIndices(cmp, xs);
      var p := Position(cmp, Pick(less, before), Last(xs));
      assert order == InsertAt(before, p, |less|);
      AllIndicesKept(before, p);
      forall i, j | 0 <= i < j < |order| ensures Before(cmp, xs, order[i], order[j]) {
        InsertedBefore(cmp, xs, before, p, i, j);
      }
    }
  }

  lemma AllIndicesKept(before: seq<nat>, p: nat)
    requires p <= |before|
    requires forall k: nat :: k < |before| ==> k in before
    ensures forall k: nat :: k < |before| + 1 ==> k in InsertAt(before, p, |before|)
  {
    var order := InsertAt(before, p, |before|);
    forall k: nat | k < |before| + 1 ensures k in order {
      if k < |before| {
        assert k in before;
        var i: nat :| i < |before| && before[i] == k;
        assert order[if i < p then i else i + 1] == k;
      } else {
        assert order[p] == k;
      }
    }
  }

  lemma OrderedAt<T>(cmp: Comparison<T>, xs: seq<T>, before: seq<nat>, i: nat, j: nat)
    requires xs != [] && Indices(before, |xs| - 1) && Ordered(cmp, Init(xs), before)
    requires i < j < |before|
    ensures Before(cmp, xs, before[i], before[j])
  {
    assert Before(cmp, Init(xs), before[i], before[j]);
  }

  lemma PositionAt<T>(cmp: Comparison<T>, xs: seq<T>, before: seq<nat>, p: nat, i: nat)
    requires xs != [] && Indices(before, |xs| - 1)
    requires p == Position(cmp, Pick(Init(xs), before), Last(xs)) && i < |before|
    ensures i < p ==> cmp(xs[before[i]], Last(xs)) <= 0
    ensures i == p ==> cmp(xs[before[i]], Last(xs)) > 0
  {
    assert Pick(Init(xs), before)[i] == xs[before[i]];
  }

  /** Two places of the list that the newest index was put into at `p` are in stable order. */
  lemma InsertedBefore<T(!new)>(cmp: Comparison<T>, xs: seq<T>, before: seq<nat>, p: nat, i: nat, j: nat)
    requires Antisymmetric(cmp) && xs != [] && TransitiveOn(cmp, xs)
    requires Indices(before, |xs| - 1) && Ordered(cmp, Init(xs), before)
    requires p == Position(cmp, Pick(Init(xs), before), Last(xs))
    requires i < j < |xs|
    ensures var order := InsertAt(before, p, |xs| - 1);
            Before(cmp, xs, order[i], order[j])
  {
    hide Antisymmetric, TransitiveOn, Ordered, Position, Pick;
    if i == p {
      NewestBefore(cmp, xs, before, p, j);
    } else if j == p {
      PositionAt(cmp, xs, before, p, i);
    } else {
      OrderedAt(cmp, xs, before, if i < p then i else i - 1, if j < p then j else j - 1);
    }
  }

  lemma NewestBefore<T(!new)>(cmp: Comparison<T>, xs: seq<T>, before: seq<nat>, p: nat, j: nat)
    requires Antisymmetric(cmp) && xs != [] && TransitiveOn(cmp, xs)
    requires Indices(before, |xs| - 1) && Ordered(cmp, Init(xs), before)
    requires p == Position(cmp, Pick(Init(xs), before), Last(xs))
    requires p < j < |xs|
    ensures Before(cmp, xs, |xs| - 1, before[j - 1])
  {
    hide Antisymmetric, TransitiveOn, Ordered, Position, Pick;
    var n := |xs| - 1;
    var m, q := before[j - 1], before[p];
    if p < j - 1 { OrderedAt(cmp, xs, before, p, j - 1); }
    PositionAt(cmp, xs, before, p, p);
    TransitiveAt(cmp, xs, q, m, n);
    LessThanAll(cmp, xs[n], xs[q], xs[m]);
  }

  lemma TransitiveAt<T>(cmp: Comparison<T>, xs: seq<T>, i: nat, j: nat, k: nat)
    requires TransitiveOn(cmp, xs) && i < |xs| && j < |xs| && k < |xs|
    ensures cmp(xs[i], xs[j]) <= 0 && cmp(xs[j], xs[k]) <= 0 ==> cmp(xs[i], xs[k]) <= 0
  {}

  lemma LessThanAll<T(!new)>(cmp: Comparison<T>, a: T, q: T, m: T)
    requires Antisymmetric(cmp) && cmp(q, a) > 0 && (q == m || cmp(q, m) <= 0)
    requires cmp(q, m) <= 0 && cmp(m, a) <= 0 ==> cmp(q, a) <= 0
    ensures cmp(a, m) < 0
  {
    assert cmp(a, m) == -cmp(m, a);
    assert cmp(q, q) == -cmp(q, q);
  }

  lemma {:induction false} StableSortUnique<T(!new)>(
    cmp: Comparison<T>, xs: seq<T>, s: seq<nat>, t: seq<nat>, p: nat)
    requires Antisymmetric(cmp)
    requires StableSort(cmp, xs, s) && StableSort(cmp, xs, t) && p <= |xs|
    ensures forall i :: 0 <= i < p ==> s[i] == t[i]
  {
    if p > 0 {
      StableSortUnique(cmp, xs, s, t, p - 1);
      var x, y := s[p - 1], t[p - 1];
      assert x in t && y in s;
      assert x == y || Before(cmp, xs, x, y) by {
        var i: nat :| i < |s| && s[i] == y;
      }
      assert x == y || Before(cmp, xs, y, x) by {
        var j: nat :| j < |t| && t[j] == x;
      }
      assert cmp(xs[x], xs[y]) == -cmp(xs[y], xs[x]);
    }
  }

  /** After any insertions the list is the head of THE stable sort of everything inserted. */
  lemma FirstOfStableSort<T(!new)>(cmp: Comparison<T>, cap: nat, xs: seq<T>, order: seq<nat>)
    requires Antisymmetric(cmp) && TransitiveOn(cmp, xs) && StableSort(cmp, xs, order)
    ensures InsertAll(cmp, cap, xs) == Top(cap, Pick(xs, order))
  {
    BoundedIsPrefix(cmp, cap, xs);
    SortedIndicesStable(cmp, xs);
    StableSortUnique(cmp, xs, order, SortedIndices(cmp, xs), |xs|);
    assert order == SortedIndices(cmp, xs);
  }

  lemma InsertAllNext<T>(cmp: Comparison<T>, cap: nat, xs: seq<T>, a: T, p: nat)
    requires |InsertAll(cmp, cap, xs)| < cap
    requires var list := InsertAll(cmp, cap, xs);
             p <= |list| && (forall i :: 0 <= i < p ==> cmp(list[i], a) <= 0) &&
             (p < |list| ==> cmp(list[p], a) > 0)
    ensures InsertAll(cmp, cap, xs + [a]) == InsertAt(InsertAll(cmp, cap, xs), p, a)
  {
    assert Init(xs + [a]) == xs;
    PositionUnique(cmp, InsertAll(cmp, cap, xs), a, p);
  }

  /** Three entries each of which compares lower than the one before it come out reversed. */
  lemma ThreeReversed<T>(cmp: Comparison<T>, cap: nat, a: T, b: T, c: T)
    requires cap >= 3 && cmp(a, b) > 0 && cmp(b, c) > 0
    ensures InsertAll(cmp, cap, [a, b, c]) == [c, b, a]
  {
    assert [] + [a] == [a] && [a] + [b] == [a, b] && [a, b] + [c] == [a, b, c];
    InsertAllNext(cmp, cap, [], a, 0);
    InsertAllNext(cmp, cap, [a], b, 0);
    InsertAllNext(cmp, cap, [a, b], c, 0);
  }

  /** Behind three in order, three that each belong before the last: one is dropped. */
  lemma SixInserted<T>(cmp: Comparison<T>, p: T, q: T, r: T, a: T, b: T, c: T)
    requires cmp(p, q) <= 0 && cmp(p, r) <= 0 && cmp(q, r) <= 0 && cmp(a, b) > 0 && cmp(b, c) > 0
    requires forall x, y :: x in [p, q, r] && y in [a, b, c] ==> cmp(x, y) <= 0
    ensures InsertAll(cmp, 5, [p, q, r, a, b, c]) == [p, q, r, c, b]
  {
    FirstFive(cmp, p, q, r, a, b);
    var xs, list := [p, q, r, a, b], [p, q, r, b, a];
    assert xs + [c] == [p, q, r, a, b, c] && Init(xs + [c]) == xs;
    PositionUnique(cmp, list, c, 3);
    assert InsertAt(list, 3, c)[..5] == [p, q, r, c, b];
    hide Position, InsertAt;
  }

  lemma FirstFive<T>(cmp: Comparison<T>, p: T, q: T, r: T, a: T, b: T)
    requires cmp(p, q) <= 0 && cmp(p, r) <= 0 && cmp(q, r) <= 0 && cmp(a, b) > 0
    requires forall x, y :: x in [p, q, r] && y in [a, b] ==> cmp(x, y) <= 0
    ensures InsertAll(cmp, 5, [p, q, r, a, b]) == [p, q, r, b, a]
  {
    hide Position, Insert;
    assert [] + [p] == [p] && [p] + [q] == [p, q] && [p, q] + [r] == [p, q, r];
    assert [p, q, r] + [a] == [p, q, r, a] && [p, q, r, a] + [b] == [p, q, r, a, b];
    InsertAllNext(cmp, 5, [], p, 0);
    InsertAllNext(cmp, 5, [p], q, 1);
    InsertAllNext(cmp, 5, [p, q], r, 2);
    InsertAllNext(cmp, 5, [p, q, r], a, 3);
    InsertAllNext(cmp, 5, [p, q, r, a], b, 3);
  }

  /** The result of an insertion, element by element. */
  lemma InsertedElements<T>(cmp: Comparison<T>, cap: nat, list: seq<T>, a: T, p: nat, r: seq<T>)
    requires p == Position(cmp, list, a) < cap
    requires |r| == (if |list| < cap then |list| + 1 else cap)
    requires forall i :: 0 <= i < |r| && i < p ==> r[i] == list[i]
    requires p < |r| ==> r[p] == a
    requires forall i :: p < i < |r| ==> r[i] == list[i - 1]
    ensures r == Insert(cmp, cap, list, a)
  {
    hide *;
    HeadOfInserted(list, a, p, r);
    InsertIsHead(cmp, cap, list, a, |r|);
  }

  lemma InsertIsHead<T>(cmp: Comparison<T>, cap: nat, list: seq<T>, a: T, n: nat)
    requires n == if |list| < cap then |list| + 1 else cap
    ensures Insert(cmp, cap, list, a) == InsertAt(list, Position(cmp, list, a), a)[..n]
  {
    hide Position, InsertAt;
  }

  lemma HeadOfInserted<T>(list: seq<T>, a: T, p: nat, r: seq<T>)
    requires p <= |list| && |r| <= |list| + 1
    requires forall i :: 0 <= i < |r| && i < p ==> r[i] == list[i]
    requires p < |r| ==> r[p] == a
    requires forall i :: p < i < |r| ==> r[i] == list[i - 1]
    ensures r == InsertAt(list, p, a)[..|r|]
  {
    var head := InsertAt(list, p, a)[..|r|];
    assert forall i :: 0 <= i < |r| ==> r[i] == head[i];
    hide InsertAt;
  }

  /** A newcomer behind a full list is dropped. */
  lemma InsertBehind<T>(cmp: Comparison<T>, cap: nat, list: seq<T>, a: T)
    requires |list| <= cap <= Position(cmp, list, a)
    ensures Insert(cmp, cap, list, a) == list
  {
    var p := Position(cmp, list, a);
    assert p == |list| == cap;
    hide *;
    InsertIsHead(cmp, cap, list, a, cap);
    HeadOfInserted(list, a, p, list);
  }
}
