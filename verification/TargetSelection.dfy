/** Which aircraft is shown as the target: a challenger that is not clearly nearer must lead twice. */
module TargetSelection {
  import opened Common
  import opened AircraftRecord

  datatype Pending = Pending(hex: string, polls: nat)

  const NONE := Pending("", 0)

  /** The first place after the front where this hex stands, or the length. */
  function IndexOf(list: seq<Aircraft>, hex: string, from: nat): (k: nat)
    requires from <= |list|
    ensures from <= k <= |list|
    ensures k < |list| ==> list[k].hex == hex
    ensures forall i :: from <= i < k ==> list[i].hex != hex
    decreases |list| - from
  {
    if from == |list| || list[from].hex == hex then from else IndexOf(list, hex, from + 1)
  }

  /** One aircraft brought to the front, the others in their order. */
  function ToFront(list: seq<Aircraft>, k: nat): (r: seq<Aircraft>)
    requires k < |list|
    ensures |r| == |list|
  {
    [list[k]] + list[..k] + list[k + 1..]
  }

  /** The list to show and the pending challenger, after a poll's candidates. */
  function Settle(previous: seq<Aircraft>, candidate: seq<Aircraft>, p: Pending): (seq<Aircraft>, Pending) {
    if previous == [] || |candidate| < 2 || previous[0].hex == candidate[0].hex then (candidate, NONE)
    else
      var k := IndexOf(candidate, previous[0].hex, 1);
      if k == |candidate| || candidate[0].distanceNm <= candidate[k].distanceNm * 0.9 then (candidate, NONE)
      else
        var polls := if p.hex == candidate[0].hex then p.polls + 1 else 1;
        if polls < 2 then (ToFront(candidate, k), Pending(candidate[0].hex, polls)) else (candidate, NONE)
  }

  // ----- in place

  class TargetFilter {
    var pendingHex: string
    var pendingPolls: nat

    constructor ()
      ensures pendingHex == "" && pendingPolls == 0
    {
      pendingHex, pendingPolls := "", 0;
    }

    method Reset()
      modifies this
      ensures pendingHex == "" && pendingPolls == 0
    {
      pendingHex, pendingPolls := "", 0;
    }

    method Apply(previous: seq<Aircraft>, candidate: array<Aircraft>, count: nat)
      requires count <= candidate.Length
      modifies this, candidate
      ensures (candidate[..count], Pending(pendingHex, pendingPolls))
           == Settle(previous, old(candidate[..count]), old(Pending(pendingHex, pendingPolls)))
      ensures candidate[count..] == old(candidate[count..])
    {
      ghost var list := candidate[..count];
      if previous == [] || count < 2 || previous[0].hex == candidate[0].hex {
        Reset();
        return;
      }
      var current := 1;
      while current < count && candidate[current].hex != previous[0].hex
        invariant 1 <= current <= count
        invariant IndexOf(list, previous[0].hex, 1) == IndexOf(list, previous[0].hex, current)
      {
        current := current + 1;
      }
      if current >= count || candidate[0].distanceNm <= candidate[current].distanceNm * 0.9 {
        Reset();
        return;
      }
      if pendingHex == candidate[0].hex {
        pendingPolls := pendingPolls + 1;
      } else {
        pendingHex := candidate[0].hex;
        pendingPolls := 1;
      }
      if pendingPolls < 2 {
        BringToFront(candidate, current);
        InFront(old(candidate[..]), candidate[..], current, count);
      } else {
        Reset();
      }
    }
  }

  method BringToFront(candidate: array<Aircraft>, current: nat)
    requires current < candidate.Length
    modifies candidate
    ensures candidate[..] == ToFront(old(candidate[..]), current)
  {
    var keep := candidate[current];
    forall i | 0 < i <= current {
      candidate[i] := candidate[i - 1];
    }
    candidate[0] := keep;
  }

  lemma InFront(before: seq<Aircraft>, after: seq<Aircraft>, current: nat, count: nat)
    requires current < count <= |before| && after == ToFront(before, current)
    ensures after[..count] == ToFront(before[..count], current) && after[count..] == before[count..]
  {}

  // ----- over a run of polls

  datatype Selection = Selection(shown: seq<Aircraft>, pending: Pending)

  const START := Selection([], NONE)

  function After(polls: seq<seq<Aircraft>>): Selection {
    if polls == [] then START
    else
      var before := After(Init(polls));
      var (shown, pending) := Settle(before.shown, Last(polls), before.pending);
      Selection(shown, pending)
  }

  /** The parser lets no aircraft through without an identity. */
  predicate Identified(polls: seq<seq<Aircraft>>) {
    forall i, j :: 0 <= i < |polls| && 0 <= j < |polls[i]| ==> polls[i][j].hex != ""
  }

  /** The list shown is the parsed one, or has one aircraft brought to its front. */
  lemma ShownIsReordered(polls: seq<seq<Aircraft>>) returns (k: nat)
    requires polls != []
    ensures var list, shown := Last(polls), After(polls).shown;
            shown == list || (k < |list| && shown == ToFront(list, k))
    ensures multiset(After(polls).shown) == multiset(Last(polls))
  {
    var list := Last(polls);
    var before := After(Init(polls));
    k := if before.shown != [] && |list| >= 1 then IndexOf(list, before.shown[0].hex, 1) else 0;
    if k < |list| {
      assert list == list[..k] + [list[k]] + list[k + 1..];
    }
  }

  /** A challenger is pending only if it led the last poll while the target before it was kept. */
  ghost predicate PendingMeans(polls: seq<seq<Aircraft>>) {
    var s := After(polls);
    && s.pending.polls <= 1
    && (s.pending.polls == 0 <==> s.pending.hex == "")
    && (s.pending.polls == 1 ==>
          && polls != [] && |Last(polls)| >= 2 && Last(polls)[0].hex == s.pending.hex
          && After(Init(polls)).shown != [] && s.shown != []
          && s.shown[0].hex == After(Init(polls)).shown[0].hex != s.pending.hex)
  }

  lemma IdentifiedInit(polls: seq<seq<Aircraft>>)
    requires polls != [] && Identified(polls)
    ensures Identified(Init(polls))
  {
    var less: seq<seq<Aircraft>> := Init(polls);
    forall i, j | 0 <= i < |less| && 0 <= j < |less[i]| ensures less[i][j].hex != "" {
      assert polls[i][j].hex != "";
    }
  }

  lemma {:induction false} PendingInvariant(polls: seq<seq<Aircraft>>)
    requires Identified(polls)
    ensures PendingMeans(polls)
    decreases |polls|
  {
    if polls != [] {
      IdentifiedInit(polls);
      PendingInvariant(Init(polls));
      if Last(polls) != [] { assert polls[|polls| - 1][0].hex != ""; }
    }
  }

  /** The target changes only when the old one left the list, or the new one is at
      most nine tenths of its distance away, or the new one also led the poll
      before, while the old one was kept. */
  lemma SwitchesForAReason(polls: seq<seq<Aircraft>>)
    requires polls != [] && Identified(polls)
    requires After(Init(polls)).shown != [] && After(polls).shown != []
    requires var target, challenger := After(Init(polls)).shown[0].hex, After(polls).shown[0].hex;
             target != challenger
    ensures var target, list := After(Init(polls)).shown[0].hex, Last(polls);
            var k := IndexOf(list, target, 0);
            && list != [] && After(polls).shown == list
            && (|| k == |list|
                || list[0].distanceNm <= list[k].distanceNm * 0.9
                || (|polls| >= 2 &&
                    var before := polls[|polls| - 2];
                    && before != [] && before[0].hex == list[0].hex
                    && After(Init(Init(polls))).shown != []
                    && After(Init(Init(polls))).shown[0].hex == target))
  {
    IdentifiedInit(polls);
    PendingInvariant(Init(polls));
    var list := Last(polls);
    if list != [] { assert polls[|polls| - 1][0].hex != ""; }
  }

  /** A challenger that leads twice running, though not clearly nearer, is taken up. */
  lemma SecondLeadSwitches(previous: seq<Aircraft>, candidate: seq<Aircraft>)
    requires previous != [] && |candidate| >= 2 && previous[0].hex != candidate[0].hex
    ensures Settle(previous, candidate, Pending(candidate[0].hex, 1)) == (candidate, NONE)
  {}

  // ----- exactly when the target changes

  /** In poll n the leader led already, while another was kept as the target. */
  predicate LedBefore(polls: seq<seq<Aircraft>>, leader: string) {
    && |polls| >= 2 && polls[|polls| - 2] != [] && polls[|polls| - 2][0].hex == leader
    && After(Init(polls)).shown != [] && After(Init(polls)).shown[0].hex != leader
  }

  /** The leader of the last poll may become the target: there is no other, or it has left
      the list, or it is more than a tenth farther, or the leader led before. */
  predicate LeaderTakes(polls: seq<seq<Aircraft>>)
    requires polls != [] && Last(polls) != []
  {
    var list, shown := Last(polls), After(Init(polls)).shown;
    || shown == []
    || shown[0].hex == list[0].hex
    || (forall k :: 0 <= k < |list| ==> list[k].hex != shown[0].hex)
    || (exists k :: 0 <= k < |list| && list[k].hex == shown[0].hex &&
          (forall i :: 0 <= i < k ==> list[i].hex != shown[0].hex) &&
          list[0].distanceNm <= list[k].distanceNm * 0.9)
    || LedBefore(polls, list[0].hex)
  }

  lemma PendingIsLedBefore(polls: seq<seq<Aircraft>>)
    requires polls != [] && Last(polls) != [] && Identified(polls)
    ensures After(Init(polls)).pending == Pending(Last(polls)[0].hex, 1) <==> LedBefore(polls, Last(polls)[0].hex)
  {
    IdentifiedInit(polls);
    PendingInvariant(Init(polls));
    assert Last(polls)[0].hex != "" by { assert polls[|polls| - 1][0].hex != ""; }
    if |polls| >= 2 {
      assert Last(Init(polls)) == polls[|polls| - 2];
      IdentifiedInit(Init(polls));
      PendingInvariant(Init(Init(polls)));
    }
  }

  /** Over every run of polls: the leader is the target exactly when it takes over; the
      list is then as parsed.  Otherwise the old target is in front, and all others
      follow in their order. */
  lemma TargetExactly(polls: seq<seq<Aircraft>>) returns (k: nat)
    requires polls != [] && Last(polls) != [] && Identified(polls)
    ensures LeaderTakes(polls) ==> After(polls).shown == Last(polls)
    ensures !LeaderTakes(polls) ==>
              var list, target := Last(polls), After(Init(polls)).shown[0].hex;
              && 0 < k < |list| && list[k].hex == target
              && (forall i :: 0 <= i < k ==> list[i].hex != target)
              && After(polls).shown == [list[k]] + list[..k] + list[k + 1..]
  {
    var list, before := Last(polls), After(Init(polls));
    IdentifiedInit(polls);
    PendingInvariant(Init(polls));
    PendingIsLedBefore(polls);
    k := 0;
    if before.shown != [] {
      k := IndexOf(list, before.shown[0].hex, 0);
      hide LedBefore, After;
      if list[0].hex != before.shown[0].hex {
        assert k == IndexOf(list, before.shown[0].hex, 1);
      }
    }
  }
}
