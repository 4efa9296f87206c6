/**
  * Domain names on the wire (RFC 1035 sections 2.3.4, 3.1 and 4.1.4): the
  * recursive expansion of a possibly compressed name, and the decoder's loop.
  */
module DnsName {
  import opened Common

  const MAX_PACKET: nat := 512
  const HEADER: nat := 12
  const MAX_NAME: nat := 255
  const MAX_LABEL: nat := 63

  /** How a name continues from an offset: it ends, a label follows, or a pointer redirects. */
  datatype Expansion = Root | Label(rest: Expansion) | Pointer(rest: Expansion)

  /** Offset a two-byte pointer names. */
  function Target(p: seq<byte>, at: nat): nat
    requires at + 1 < |p| && p[at] >= 0xC0
  {
    var lead: int := p[at];
    var low: int := p[at + 1];
    (lead - 0xC0) * 256 + low
  }

  /** `d` is a finite expansion of the name at `at`.  Pointers go strictly back, and not into the header. */
  ghost predicate Derives(p: seq<byte>, compress: bool, at: nat, d: Expansion)
    decreases d
  {
    && at < |p|
    && match d
       case Root => p[at] == 0
       case Label(rest) =>
         && 1 <= p[at] <= MAX_LABEL && at + 1 + p[at] <= |p|
         && Derives(p, compress, at + 1 + p[at], rest)
       case Pointer(rest) =>
         && compress && p[at] >= 0xC0 && at + 1 < |p|
         && HEADER <= Target(p, at) < at
         && Derives(p, compress, Target(p, at), rest)
  }

  /** The expanded name: length-prefixed labels up to the empty one. */
  ghost function Name(p: seq<byte>, compress: bool, at: nat, d: Expansion): (n: seq<byte>)
    requires Derives(p, compress, at, d)
    ensures |n| >= 1
    decreases d
  {
    match d
    case Root => [0]
    case Label(rest) => p[at..at + 1 + p[at]] + Name(p, compress, at + 1 + p[at], rest)
    case Pointer(rest) => Name(p, compress, Target(p, at), rest)
  }

  /** Bytes the name takes up where it stands. */
  ghost function WireLength(p: seq<byte>, compress: bool, at: nat, d: Expansion): (n: nat)
    requires Derives(p, compress, at, d)
    ensures 1 <= n && at + n <= |p|
    decreases d
  {
    match d
    case Root => 1
    case Label(rest) => 1 + p[at] + WireLength(p, compress, at + 1 + p[at], rest)
    case Pointer(_) => 2
  }

  function Size(d: Expansion): nat {
    match d
    case Root => 0
    case Label(rest) => 1 + Size(rest)
    case Pointer(rest) => 1 + Size(rest)
  }

  /** A name of legal length stands at `at`. */
  ghost predicate NameAt(p: seq<byte>, compress: bool, at: nat) {
    exists d :: Derives(p, compress, at, d) && |Name(p, compress, at, d)| <= MAX_NAME
  }

  /** A name expands in one way only. */
  lemma {:induction false} OneExpansion(p: seq<byte>, compress: bool, at: nat, d: Expansion, e: Expansion)
    requires Derives(p, compress, at, d) && Derives(p, compress, at, e)
    ensures d == e
    decreases d
  {
    match d
    case Root =>
    case Label(rest) => OneExpansion(p, compress, at + 1 + p[at], rest, e.rest);
    case Pointer(rest) => OneExpansion(p, compress, Target(p, at), rest, e.rest);
  }

  /** Without compression the expanded name is the wire bytes themselves. */
  lemma {:induction false} PlainName(p: seq<byte>, at: nat, d: Expansion)
    requires Derives(p, false, at, d)
    ensures Name(p, false, at, d) == p[at..at + WireLength(p, false, at, d)]
    decreases d
  {
    match d
    case Root =>
    case Label(rest) =>
      var next := at + 1 + p[at];
      PlainName(p, next, rest);
      hide Derives;
      assert p[at..next] + p[next..next + WireLength(p, false, next, rest)]
          == p[at..next + WireLength(p, false, next, rest)];
  }

  /** A pointer is the offset's fourteen bits under two set ones, and stands for the name there. */
  lemma PointerWritten(p: seq<byte>, at: nat, v: nat, d: Expansion)
    requires at + 1 < |p| && v < 0x4000
    requires p[at] as int == 0xC0 + v / 256 && p[at + 1] as int == v % 256
    ensures Derives(p, true, at, d) <==> d.Pointer? && 12 <= v < at && Derives(p, true, v, d.rest)
    ensures Derives(p, true, at, d) ==> Name(p, true, at, d) == Name(p, true, v, d.rest)
  {
    assert Target(p, at) == v;
    hide Target;
  }

  // ----- what the decoder's loop knows

  /** The walk from `start` has come to `cursor`, having put out `output`;
      `wire` is settled once a pointer was followed. */
  ghost predicate Walked(p: seq<byte>, compress: bool, start: nat, cursor: nat, output: seq<byte>, wire: Option<nat>) {
    && (wire == None ==> start <= cursor)
    && (forall d :: Derives(p, compress, start, d) ==> exists e :: Derives(p, compress, cursor, e))
    && (forall e :: Derives(p, compress, cursor, e) ==> Completes(p, compress, start, cursor, output, wire, e))
  }

  ghost predicate Completes(p: seq<byte>, compress: bool, start: nat, cursor: nat, output: seq<byte>,
                            wire: Option<nat>, e: Expansion)
    requires Derives(p, compress, cursor, e)
  {
    exists d :: Derives(p, compress, start, d) &&
      Name(p, compress, start, d) == output + Name(p, compress, cursor, e) &&
      WireLength(p, compress, start, d)
        == (match wire case Some(w) => w case None => cursor - start + WireLength(p, compress, cursor, e))
  }

  /** The name at `o` has an expansion of more than `n` steps. */
  ghost predicate Longer(p: seq<byte>, compress: bool, o: nat, n: nat) {
    exists f :: Derives(p, compress, o, f) && Size(f) > n
  }

  /** Every offset in `trail` has a longer way to go than `cursor`. */
  ghost predicate Behind(p: seq<byte>, compress: bool, trail: set<nat>, cursor: nat) {
    forall o, e :: o in trail && Derives(p, compress, cursor, e) ==> Longer(p, compress, o, Size(e))
  }

  lemma BehindAt(p: seq<byte>, compress: bool, trail: set<nat>, cursor: nat, o: nat, e: Expansion)
    requires Behind(p, compress, trail, cursor) && o in trail && Derives(p, compress, cursor, e)
    ensures Longer(p, compress, o, Size(e))
  {
    hide Longer;
  }

  lemma WalkStarts(p: seq<byte>, compress: bool, at: nat)
    ensures Walked(p, compress, at, at, [], None) && Behind(p, compress, {}, at)
  {
    forall e | Derives(p, compress, at, e) ensures Completes(p, compress, at, at, [], None, e) {
      assert [] + Name(p, compress, at, e) == Name(p, compress, at, e);
    }
  }

  /** Coming back to an offset means there is no finite expansion. */
  lemma NoReturn(p: seq<byte>, compress: bool, trail: set<nat>, cursor: nat, e: Expansion)
    requires Behind(p, compress, trail, cursor) && cursor in trail
    ensures !Derives(p, compress, cursor, e)
  {
    hide Behind;
    if Derives(p, compress, cursor, e) {
      BehindAt(p, compress, trail, cursor, cursor, e);
      var f :| Derives(p, compress, cursor, f) && Size(f) > Size(e);
      OneExpansion(p, compress, cursor, e, f);
    }
  }

  lemma WalkLabel(p: seq<byte>, compress: bool, start: nat, cursor: nat, output: seq<byte>, wire: Option<nat>)
    requires Walked(p, compress, start, cursor, output, wire)
    requires cursor < |p| && 1 <= p[cursor] <= MAX_LABEL && cursor + 1 + p[cursor] <= |p|
    ensures var next := cursor + 1 + p[cursor];
            Walked(p, compress, start, next, output + p[cursor..next], wire)
  {
    hide Derives, Name, WireLength;
    var next := cursor + 1 + p[cursor];
    forall d | Derives(p, compress, start, d) ensures exists e :: Derives(p, compress, next, e) {
      var e :| Derives(p, compress, cursor, e);
      LabelLeads(p, compress, cursor, e);
    }
    forall e | Derives(p, compress, next, e)
      ensures Completes(p, compress, start, next, output + p[cursor..next], wire, e)
    {
      LabelReads(p, compress, cursor, e);
      assert Completes(p, compress, start, cursor, output, wire, Label(e));
      assert output + Name(p, compress, cursor, Label(e)) == output + p[cursor..next] + Name(p, compress, next, e);
    }
  }

  lemma LabelLeads(p: seq<byte>, compress: bool, cursor: nat, e: Expansion)
    requires Derives(p, compress, cursor, e) && 1 <= p[cursor] <= MAX_LABEL
    ensures e.Label? && Derives(p, compress, cursor + 1 + p[cursor], e.rest)
  {}

  lemma LabelReads(p: seq<byte>, compress: bool, cursor: nat, e: Expansion)
    requires cursor < |p| && 1 <= p[cursor] <= MAX_LABEL && cursor + 1 + p[cursor] <= |p|
    requires Derives(p, compress, cursor + 1 + p[cursor], e)
    ensures var next := cursor + 1 + p[cursor];
            && Derives(p, compress, cursor, Label(e))
            && Name(p, compress, cursor, Label(e)) == p[cursor..next] + Name(p, compress, next, e)
            && WireLength(p, compress, cursor, Label(e)) == 1 + p[cursor] + WireLength(p, compress, next, e)
  {}

  /** One step on: if each expansion `e` at `next` gives the expansion `step` at `cursor`. */
  lemma BehindStep(p: seq<byte>, compress: bool, trail: set<nat>, cursor: nat, e: Expansion, step: Expansion)
    requires Behind(p, compress, trail, cursor)
    requires Derives(p, compress, cursor, step) && Size(step) > Size(e)
    ensures forall o :: o in trail + {cursor} ==> Longer(p, compress, o, Size(e))
  {
    hide Behind;
    forall o | o in trail + {cursor} ensures Longer(p, compress, o, Size(e)) {
      if o in trail { BehindAt(p, compress, trail, cursor, o, step); }
    }
  }

  lemma BehindLabel(p: seq<byte>, compress: bool, trail: set<nat>, cursor: nat)
    requires Behind(p, compress, trail, cursor)
    requires cursor < |p| && 1 <= p[cursor] <= MAX_LABEL && cursor + 1 + p[cursor] <= |p|
    ensures Behind(p, compress, trail + {cursor}, cursor + 1 + p[cursor])
  {
    hide Longer;
    var next := cursor + 1 + p[cursor];
    forall o, e | o in trail + {cursor} && Derives(p, compress, next, e) ensures Longer(p, compress, o, Size(e)) {
      assert Derives(p, compress, cursor, Label(e));
      BehindStep(p, compress, trail, cursor, e, Label(e));
    }
  }

  lemma WalkPointer(p: seq<byte>, start: nat, cursor: nat, output: seq<byte>, wire: Option<nat>)
    requires Walked(p, true, start, cursor, output, wire)
    requires cursor + 1 < |p| && p[cursor] >= 0xC0 && HEADER <= Target(p, cursor) < cursor
    ensures Walked(p, true, start, Target(p, cursor), output, if wire.Some? then wire else Some(cursor + 2 - start))
  {
    var next := Target(p, cursor);
    var wire' := if wire.Some? then wire else Some(cursor + 2 - start);
    forall d | Derives(p, true, start, d) ensures exists e :: Derives(p, true, next, e) {
      var e :| Derives(p, true, cursor, e);
      assert Derives(p, true, next, e.rest);
    }
    forall e | Derives(p, true, next, e)
      ensures Completes(p, true, start, next, output, wire', e)
    {
      assert Derives(p, true, cursor, Pointer(e));
      assert Completes(p, true, start, cursor, output, wire, Pointer(e));
    }
  }

  lemma BehindPointer(p: seq<byte>, trail: set<nat>, cursor: nat)
    requires Behind(p, true, trail, cursor)
    requires cursor + 1 < |p| && p[cursor] >= 0xC0 && HEADER <= Target(p, cursor) < cursor
    ensures Behind(p, true, trail + {cursor}, Target(p, cursor))
  {
    hide Longer;
    var next := Target(p, cursor);
    forall o, e | o in trail + {cursor} && Derives(p, true, next, e) ensures Longer(p, true, o, Size(e)) {
      assert Derives(p, true, cursor, Pointer(e));
      BehindStep(p, true, trail, cursor, e, Pointer(e));
    }
  }

  // ----- the visited bitmap

  /** `1U << k` as an octet. */
  function Bit(k: nat): bv8
    requires k < 8
  {
    if k == 0 then 0x01 else if k == 1 then 0x02 else if k == 2 then 0x04 else if k == 3 then 0x08
    else if k == 4 then 0x10 else if k == 5 then 0x20 else if k == 6 then 0x40 else 0x80
  }

  predicate Visited(bits: seq<bv8>, offset: nat)
    requires offset / 8 < |bits|
  {
    bits[offset / 8] & Bit(offset % 8) != 0
  }

  /** The bitmap records exactly the offsets in `trail`. */
  ghost predicate Records(bits: seq<bv8>, trail: set<nat>) {
    && |bits| == MAX_PACKET / 8
    && forall o: nat :: o < MAX_PACKET ==> (Visited(bits, o) <==> o in trail)
  }

  lemma BitsAreIndependent(b: bv8, j: nat, k: nat)
    requires j < 8 && k < 8
    ensures (b | Bit(j)) & Bit(k) != 0 <==> j == k || b & Bit(k) != 0
  {}

  lemma MarkRecords(bits: seq<bv8>, trail: set<nat>, offset: nat)
    requires Records(bits, trail) && offset < MAX_PACKET
    ensures Records(bits[offset / 8 := bits[offset / 8] | Bit(offset % 8)], trail + {offset})
  {
    var more := bits[offset / 8 := bits[offset / 8] | Bit(offset % 8)];
    forall o: nat | o < MAX_PACKET ensures Visited(more, o) <==> o in trail + {offset} {
      if o / 8 == offset / 8 {
        BitsAreIndependent(bits[offset / 8], offset % 8, o % 8);
        assert o == 8 * (o / 8) + o % 8 && offset == 8 * (offset / 8) + offset % 8;
      }
    }
  }

  /** A packet has only so many offsets. */
  lemma AllVisited(trail: set<nat>, n: nat, x: nat)
    requires (forall o :: o in trail ==> o < n) && |trail| >= n && x < n
    ensures x in trail
  {
    if x !in trail {
      Subset(trail, Below(n) - {x});
    }
  }

  ghost function Below(n: nat): (r: set<nat>)
    ensures |r| == n && forall o: nat :: o in r <==> o < n
  {
    if n == 0 then {} else Below(n - 1) + {n - 1}
  }

  lemma {:induction false} Subset<T>(a: set<T>, b: set<T>)
    requires a <= b
    ensures |a| <= |b|
  {
    if a != {} {
      var x :| x in a;
      Subset(a - {x}, b - {x});
    }
  }
}
