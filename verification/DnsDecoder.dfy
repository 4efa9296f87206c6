/** The name decoder: a loop over labels and pointers with a bitmap of offsets seen. */
module DnsDecoder {
  import opened Common
  import opened DnsName

  /** The decoder accepts: the packet is small enough and the name, expanded, fits. */
  ghost predicate Accepted(p: seq<byte>, compress: bool, at: nat, room: Option<nat>) {
    && |p| <= MAX_PACKET
    && exists d :: Derives(p, compress, at, d) && Fits(|Name(p, compress, at, d)|, room)
  }

  predicate Fits(length: nat, room: Option<nat>) {
    length <= MAX_NAME && (room.Some? ==> length <= room.value)
  }

  /** What one turn of the loop found at the cursor. */
  ghost predicate Deciding(p: seq<byte>, compress: bool, start: nat, cursor: nat, output: seq<byte>,
                           wire: Option<nat>, trail: set<nat>) {
    && Walked(p, compress, start, cursor, output, wire)
    && Behind(p, compress, trail, cursor)
  }

  /** No expansion goes on from here. */
  predicate Blocked(p: seq<byte>, compress: bool, cursor: nat) {
    || cursor >= |p|
    || 0x40 <= p[cursor] < 0xC0
    || (p[cursor] >= 0xC0 &&
        (!compress || cursor + 1 >= |p| || Target(p, cursor) < HEADER || Target(p, cursor) >= cursor))
  }

  lemma Stuck(p: seq<byte>, compress: bool, start: nat, cursor: nat, output: seq<byte>,
              wire: Option<nat>, trail: set<nat>, room: Option<nat>)
    requires Deciding(p, compress, start, cursor, output, wire, trail)
    requires cursor in trail || Blocked(p, compress, cursor)
    ensures !Accepted(p, compress, start, room)
  {
    if cursor in trail {
      forall e ensures !Derives(p, compress, cursor, e) { NoReturn(p, compress, trail, cursor, e); }
    }
    assert forall d :: Derives(p, compress, start, d) ==> exists e :: Derives(p, compress, cursor, e);
  }

  /** A label that is malformed, or that leaves no room for the rest, ends it. */
  lemma LabelRefused(p: seq<byte>, compress: bool, start: nat, cursor: nat, output: seq<byte>,
                     wire: Option<nat>, trail: set<nat>, room: Option<nat>)
    requires Deciding(p, compress, start, cursor, output, wire, trail)
    requires cursor < |p| && 1 <= p[cursor] < 0x40
    requires cursor + 1 + p[cursor] > |p| || !Fits(|output| + 1 + p[cursor] + 1, None) ||
             (room.Some? && |output| + 1 + p[cursor] > room.value)
    ensures !Accepted(p, compress, start, room)
  {
    if Accepted(p, compress, start, room) {
      var d := Rest(p, compress, start, cursor, output, wire, trail);
      var e :| Derives(p, compress, cursor, e) && Name(p, compress, start, d) == output + Name(p, compress, cursor, e);
      assert |Name(p, compress, cursor, e)| >= 1 + p[cursor] + 1;
      var d' :| Derives(p, compress, start, d') && Fits(|Name(p, compress, start, d')|, room);
      OneExpansion(p, compress, start, d, d');
    }
  }

  /** The whole expansion, and the part of it still ahead. */
  lemma Rest(p: seq<byte>, compress: bool, start: nat, cursor: nat, output: seq<byte>,
             wire: Option<nat>, trail: set<nat>) returns (d: Expansion)
    requires Deciding(p, compress, start, cursor, output, wire, trail)
    requires exists d :: Derives(p, compress, start, d)
    ensures Derives(p, compress, start, d)
    ensures exists e :: Derives(p, compress, cursor, e) &&
              Name(p, compress, start, d) == output + Name(p, compress, cursor, e)
  {
    d :| Derives(p, compress, start, d);
    var e :| Derives(p, compress, cursor, e);
    assert Completes(p, compress, start, cursor, output, wire, e);
    var d' :| Derives(p, compress, start, d') &&
      Name(p, compress, start, d') == output + Name(p, compress, cursor, e);
    OneExpansion(p, compress, start, d, d');
  }

  /** The empty label: the name is complete. */
  lemma RootReached(p: seq<byte>, compress: bool, start: nat, cursor: nat, output: seq<byte>,
                    wire: Option<nat>, trail: set<nat>, room: Option<nat>)
    requires Deciding(p, compress, start, cursor, output, wire, trail) && |p| <= MAX_PACKET
    requires cursor < |p| && p[cursor] == 0
    ensures wire == None ==> start <= cursor
    ensures Answers(p, compress, start, if wire.Some? then wire.value else cursor + 1 - start, output + [0])
    ensures Accepted(p, compress, start, room) <==> Fits(|output| + 1, room)
  {
    assert Derives(p, compress, cursor, Root);
    assert Completes(p, compress, start, cursor, output, wire, Root);
    var d :| Derives(p, compress, start, d) &&
      Name(p, compress, start, d) == output + Name(p, compress, cursor, Root) &&
      WireLength(p, compress, start, d)
        == (match wire case Some(w) => w case None => cursor - start + WireLength(p, compress, cursor, Root));
    forall e | Derives(p, compress, start, e) ensures e == d { OneExpansion(p, compress, start, e, d); }
  }

  lemma Outside(p: seq<byte>, compress: bool, at: nat, room: Option<nat>)
    requires at >= |p| || |p| > MAX_PACKET
    ensures !Accepted(p, compress, at, room)
  {}

  lemma DecidingStarts(p: seq<byte>, compress: bool, at: nat)
    ensures Deciding(p, compress, at, at, [], None, {})
  {
    WalkStarts(p, compress, at);
  }

  lemma DecidingLabel(p: seq<byte>, compress: bool, start: nat, cursor: nat, output: seq<byte>,
                      wire: Option<nat>, trail: set<nat>)
    requires Deciding(p, compress, start, cursor, output, wire, trail)
    requires cursor < |p| && 1 <= p[cursor] <= MAX_LABEL && cursor + 1 + p[cursor] <= |p|
    ensures var next := cursor + 1 + p[cursor];
            Deciding(p, compress, start, next, output + p[cursor..next], wire, trail + {cursor})
  {
    WalkLabel(p, compress, start, cursor, output, wire);
    BehindLabel(p, compress, trail, cursor);
  }

  lemma DecidingPointer(p: seq<byte>, start: nat, cursor: nat, output: seq<byte>,
                        wire: Option<nat>, trail: set<nat>)
    requires Deciding(p, true, start, cursor, output, wire, trail)
    requires cursor + 1 < |p| && p[cursor] >= 0xC0 && HEADER <= Target(p, cursor) < cursor
    ensures wire == None ==> start <= cursor
    ensures Deciding(p, true, start, Target(p, cursor), output,
                     if wire.Some? then wire else Some(cursor + 2 - start), trail + {cursor})
  {
    WalkPointer(p, start, cursor, output, wire);
    BehindPointer(p, trail, cursor);
  }

  /** The answer given for a name is the one its expansions have. */
  ghost predicate Answers(p: seq<byte>, compress: bool, at: nat, wireLength: nat, name: seq<byte>) {
    forall d :: Derives(p, compress, at, d) ==>
      wireLength == WireLength(p, compress, at, d) && name == Name(p, compress, at, d)
  }

  lemma EmptyRecords(bits: seq<bv8>)
    requires |bits| == MAX_PACKET / 8 && forall i :: 0 <= i < |bits| ==> bits[i] == 0
    ensures Records(bits, {})
  {}

  lemma RecordsAt(bits: seq<bv8>, trail: set<nat>, offset: nat)
    requires Records(bits, trail) && offset < MAX_PACKET
    ensures offset / 8 < |bits| && (Visited(bits, offset) <==> offset in trail)
  {}

  method OffsetWasVisited(visited: array<bv8>, offset: nat) returns (yes: bool)
    requires offset / 8 < visited.Length
    ensures yes <==> Visited(visited[..], offset)
  {
    yes := visited[offset / 8] & Bit(offset % 8) != 0;
  }

  method MarkOffsetVisited(visited: array<bv8>, offset: nat, ghost trail: set<nat>)
    requires Records(visited[..], trail) && offset < MAX_PACKET
    modifies visited
    ensures Records(visited[..], trail + {offset})
  {
    MarkRecords(visited[..], trail, offset);
    ghost var before := visited[..];
    visited[offset / 8] := visited[offset / 8] | Bit(offset % 8);
    assert visited[..] == before[offset / 8 := before[offset / 8] | Bit(offset % 8)];
  }

  /** True exactly when the name at `nameOffset` has a finite expansion of legal
      length that fits the buffer; then its in-place length and its expansion. */
  method DecodeName(packet: seq<byte>, nameOffset: nat, allowCompression: bool,
                    decoded: array?<byte>, decodedCapacity: nat)
    returns (ok: bool, wireLength: nat, decodedLength: nat, ghost name: seq<byte>)
    requires decoded != null ==> decodedCapacity <= decoded.Length
    modifies decoded
    ensures ok <==> Accepted(packet, allowCompression, nameOffset,
                             if decoded == null then None else Some(decodedCapacity))
    ensures ok ==> |name| == decodedLength && Answers(packet, allowCompression, nameOffset, wireLength, name)
    ensures ok && decoded != null ==> decodedLength <= decoded.Length && decoded[..decodedLength] == name
  {
    hide Deciding, Derives, Accepted, Answers, Records, Visited, Bit;
    ok, wireLength, decodedLength, name := false, 0, 0, [];
    ghost var room := if decoded == null then None else Some(decodedCapacity);
    if nameOffset >= |packet| || |packet| > MAX_PACKET {
      Outside(packet, allowCompression, nameOffset, room);
      return;
    }
    var visited := new bv8[MAX_PACKET / 8](_ => 0);
    var cursor: nat := nameOffset;
    var sourceEnd: nat := 0;
    var outputLength: nat := 0;
    var followedPointer := false;
    ghost var trail: set<nat> := {};
    ghost var output: seq<byte> := [];
    ghost var wire: Option<nat> := None;
    DecidingStarts(packet, allowCompression, nameOffset);
    EmptyRecords(visited[..]);
    var step := 0;
    while step < MAX_PACKET
      invariant step <= MAX_PACKET && |trail| == step && !ok
      invariant forall o :: o in trail ==> o < |packet|
      invariant Records(visited[..], trail)
      invariant Deciding(packet, allowCompression, nameOffset, cursor, output, wire, trail)
      invariant outputLength == |output| && Fits(outputLength + 1, None)
      invariant decoded != null ==> outputLength <= decodedCapacity && decoded[..outputLength] == output
      invariant followedPointer <==> wire.Some?
      invariant followedPointer ==> sourceEnd == nameOffset + wire.value
    {
      if cursor >= |packet| {
        Stuck(packet, allowCompression, nameOffset, cursor, output, wire, trail, room);
        return;
      }
      RecordsAt(visited[..], trail, cursor);
      var seen := OffsetWasVisited(visited, cursor);
      if seen {
        Stuck(packet, allowCompression, nameOffset, cursor, output, wire, trail, room);
        return;
      }
      MarkOffsetVisited(visited, cursor, trail);
      step := step + 1;

      var labelLength: int := packet[cursor];
      if labelLength >= 0xC0 {
        if !allowCompression || cursor + 1 >= |packet| {
          Stuck(packet, allowCompression, nameOffset, cursor, output, wire, trail, room);
          return;
        }
        var pointer := Target(packet, cursor);
        if pointer < HEADER || pointer >= cursor || pointer >= |packet| {
          Stuck(packet, allowCompression, nameOffset, cursor, output, wire, trail, room);
          return;
        }
        DecidingPointer(packet, nameOffset, cursor, output, wire, trail);
        trail := trail + {cursor};
        if !followedPointer {
          sourceEnd := cursor + 2;
          followedPointer := true;
          wire := Some(cursor + 2 - nameOffset);
        }
        cursor := pointer;
      } else if labelLength >= 0x40 {
        Stuck(packet, allowCompression, nameOffset, cursor, output, wire, trail, room);
        return;
      } else if labelLength == 0 {
        RootReached(packet, allowCompression, nameOffset, cursor, output, wire, trail, room);
        if !followedPointer {
          sourceEnd := cursor + 1;
        }
        if outputLength + 1 > MAX_NAME || (decoded != null && outputLength + 1 > decodedCapacity) {
          return;
        }
        if decoded != null {
          decoded[outputLength] := 0;
          assert decoded[..outputLength + 1] == output + [0];
        }
        name := output + [0];
        outputLength := outputLength + 1;
        wireLength := sourceEnd - nameOffset;
        decodedLength := outputLength;
        ok := true;
        return;
      } else {
        if labelLength > MAX_LABEL || cursor + 1 + labelLength > |packet| ||
           outputLength + 1 + labelLength + 1 > MAX_NAME ||
           (decoded != null && outputLength + 1 + labelLength > decodedCapacity) {
          LabelRefused(packet, allowCompression, nameOffset, cursor, output, wire, trail, room);
          return;
        }
        DecidingLabel(packet, allowCompression, nameOffset, cursor, output, wire, trail);
        var next: nat := cursor + 1 + labelLength;
        ghost var chunk := packet[cursor..next];
        assert |chunk| == 1 + labelLength;
        if decoded != null {
          CopyLabel(packet, cursor, labelLength, decoded, outputLength);
        }
        output := output + chunk;
        trail := trail + {cursor};
        outputLength := outputLength + 1 + labelLength;
        cursor := next;
      }
    }
    if cursor < |packet| { AllVisited(trail, |packet|, cursor); }
    Stuck(packet, allowCompression, nameOffset, cursor, output, wire, trail, room);
  }

  method CopyLabel(packet: seq<byte>, cursor: nat, labelLength: nat, decoded: array<byte>, at: nat)
    requires cursor + 1 + labelLength <= |packet| && at + 1 + labelLength <= decoded.Length
    requires packet[cursor] == labelLength
    modifies decoded
    ensures decoded[..at + 1 + labelLength] == old(decoded[..at]) + packet[cursor..cursor + 1 + labelLength]
  {
    ghost var before := decoded[..at];
    decoded[at] := labelLength;
    forall i | 0 <= i < labelLength {
      decoded[at + 1 + i] := packet[cursor + 1 + i];
    }
    assert decoded[..at] == before;
    assert decoded[at..at + 1 + labelLength] == packet[cursor..cursor + 1 + labelLength];
    assert decoded[..at + 1 + labelLength] == decoded[..at] + decoded[at..at + 1 + labelLength];
  }
}
