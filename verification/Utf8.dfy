/** The UTF-8 recogniser (RFC 3629 section 4), which also refuses the C1 controls. */
module Utf8 {
  import opened Common

  // ----- the encoding

  predicate Scalar(v: nat) { v <= 0x10FFFF && !(0xD800 <= v <= 0xDFFF) }

  predicate Allowed(v: nat) { Scalar(v) && !(0x80 <= v <= 0x9F) }

  /** The octets of one character (RFC 3629 section 3). */
  function Encode(v: nat): (s: seq<byte>)
    requires Scalar(v)
    ensures 1 <= |s| <= 4
  {
    if v < 0x80 then [v]
    else if v < 0x800 then [0xC0 + v / 0x40, 0x80 + v % 0x40]
    else if v < 0x1_0000 then [0xE0 + v / 0x1000, 0x80 + v / 0x40 % 0x40, 0x80 + v % 0x40]
    else [0xF0 + v / 0x4_0000, 0x80 + v / 0x1000 % 0x40, 0x80 + v / 0x40 % 0x40, 0x80 + v % 0x40]
  }

  predicate AllAllowed(vs: seq<nat>) { forall i :: 0 <= i < |vs| ==> Allowed(vs[i]) }

  function EncodeAll(vs: seq<nat>): seq<byte>
    requires AllAllowed(vs)
  {
    if vs == [] then [] else Encode(vs[0]) + EncodeAll(vs[1..])
  }

  /** The text encodes some characters, none of them a C1 control. */
  ghost predicate Encodes(text: seq<byte>) {
    exists vs: seq<nat> :: AllAllowed(vs) && EncodeAll(vs) == text
  }

  // ----- one character

  predicate Continuation(b: byte) { 0x80 <= b <= 0xBF }

  /** Octets to follow a lead octet, and the range of the first of them. */
  datatype Lead = Lead(count: nat, low: byte, high: byte)

  function LeadOf(b: byte): Option<Lead> {
    if 0xC2 <= b <= 0xDF then Some(Lead(1, if b == 0xC2 then 0xA0 else 0x80, 0xBF))
    else if b == 0xE0 then Some(Lead(2, 0xA0, 0xBF))
    else if 0xE1 <= b <= 0xEC then Some(Lead(2, 0x80, 0xBF))
    else if b == 0xED then Some(Lead(2, 0x80, 0x9F))
    else if 0xEE <= b <= 0xEF then Some(Lead(2, 0x80, 0xBF))
    else if b == 0xF0 then Some(Lead(3, 0x90, 0xBF))
    else if 0xF1 <= b <= 0xF3 then Some(Lead(3, 0x80, 0xBF))
    else if b == 0xF4 then Some(Lead(3, 0x80, 0x8F))
    else None
  }

  /** The length of the character the text starts with, if it is a good one. */
  function CharLength(s: seq<byte>): (n: Option<nat>)
    requires s != []
    ensures n.Some? ==> 1 <= n.value <= |s|
  {
    if s[0] <= 0x7F then Some(1)
    else match LeadOf(s[0])
         case None => None
         case Some(lead) =>
           if lead.count >= |s| || s[1] < lead.low || s[1] > lead.high ||
              (lead.count >= 2 && !Continuation(s[2])) || (lead.count >= 3 && !Continuation(s[3]))
           then None
           else Some(lead.count + 1)
  }

  /** What the recogniser accepts as one character is the encoding of one. */
  lemma CharIsEncoding(s: seq<byte>) returns (v: nat)
    requires s != [] && CharLength(s).Some?
    ensures Allowed(v) && Encode(v) == s[..CharLength(s).value]
  {
    var n := CharLength(s).value;
    var b0, b1: int := s[0], if n > 1 then s[1] else 0;
    var b2: int, b3: int := if n > 2 then s[2] else 0, if n > 3 then s[3] else 0;
    if n == 1 {
      v := b0;
      assert s[..1] == [s[0]];
    } else if n == 2 {
      v := (b0 - 0xC0) * 0x40 + (b1 - 0x80);
      assert s[..2] == [s[0], s[1]];
    } else if n == 3 {
      v := ThreeOctets(b0 - 0xE0, b1 - 0x80, b2 - 0x80);
      assert s[..3] == [s[0], s[1], s[2]];
    } else {
      v := FourOctets(b0 - 0xF0, b1 - 0x80, b2 - 0x80, b3 - 0x80);
      assert s[..4] == [s[0], s[1], s[2], s[3]];
    }
  }

  lemma ThreeOctets(a: nat, b: nat, c: nat) returns (v: nat)
    requires a < 16 && b < 64 && c < 64
    ensures v == a * 0x1000 + b * 0x40 + c
    ensures v / 0x1000 == a && v / 0x40 % 0x40 == b && v % 0x40 == c
  {
    v := a * 0x1000 + b * 0x40 + c;
    assert v / 0x40 == a * 0x40 + b;
  }

  lemma FourOctets(a: nat, b: nat, c: nat, d: nat) returns (v: nat)
    requires a < 8 && b < 64 && c < 64 && d < 64
    ensures v == a * 0x4_0000 + b * 0x1000 + c * 0x40 + d
    ensures v / 0x4_0000 == a && v / 0x1000 % 0x40 == b && v / 0x40 % 0x40 == c && v % 0x40 == d
  {
    v := a * 0x4_0000 + b * 0x1000 + c * 0x40 + d;
    assert v / 0x40 == a * 0x1000 + b * 0x40 + c;
    assert v / 0x1000 == a * 0x40 + b;
  }

  /** And every encoding of an allowed character is accepted, with its length. */
  lemma EncodingIsChar(v: nat, rest: seq<byte>)
    requires Allowed(v)
    ensures CharLength(Encode(v) + rest) == Some(|Encode(v)|)
  {}

  /** The text is good exactly when its first character is and the rest is. */
  lemma EncodesStep(s: seq<byte>)
    requires s != []
    ensures Encodes(s) <==> CharLength(s).Some? && Encodes(s[CharLength(s).value..])
  {
    if Encodes(s) {
      var vs: seq<nat> :| AllAllowed(vs) && EncodeAll(vs) == s;
      var rest := EncodeAll(vs[1..]);
      EncodingIsChar(vs[0], rest);
      assert s == Encode(vs[0]) + rest && s[|Encode(vs[0])|..] == rest;
    }
    if CharLength(s).Some? && Encodes(s[CharLength(s).value..]) {
      var n := CharLength(s).value;
      var v := CharIsEncoding(s);
      var vs: seq<nat> :| AllAllowed(vs) && EncodeAll(vs) == s[n..];
      assert ([v] + vs)[1..] == vs;
      assert s == s[..n] + s[n..];
      assert EncodeAll([v] + vs) == s;
    }
  }

  // ----- the loop

  /** Accepts a text exactly when it is the UTF-8 encoding of allowed characters. */
  method ValidUtf8(text: seq<byte>) returns (ok: bool)
    ensures ok <==> Encodes(text)
  {
    hide Encodes, LeadOf;
    var index := 0;
    while index < |text|
      invariant index <= |text|
      invariant Encodes(text) <==> Encodes(text[index..])
    {
      EncodesStep(text[index..]);
      var lead := text[index];
      if lead <= 0x7F {
        assert text[index..][1..] == text[index + 1..];
        index := index + 1;
        continue;
      }
      LeadCounts(lead);
      var range := LeadOf(lead);
      if range == None {
        return false;
      }
      var Lead(continuationCount, secondMin, secondMax) := range.value;
      if continuationCount >= |text| - index {
        return false;
      }
      var second := text[index + 1];
      if second < secondMin || second > secondMax {
        return false;
      }
      for offset := 2 to continuationCount + 1
        invariant forall j :: index + 2 <= j < index + offset ==> Continuation(text[j])
      {
        if text[index + offset] < 0x80 || text[index + offset] > 0xBF {
          assert !Continuation(text[index..][offset]);
          return false;
        }
      }
      assert continuationCount >= 2 ==> Continuation(text[index + 2]);
      assert continuationCount >= 3 ==> Continuation(text[index + 3]);
      assert CharLength(text[index..]) == Some(continuationCount + 1);
      assert text[index..][continuationCount + 1..] == text[index + continuationCount + 1..];
      index := index + continuationCount + 1;
    }
    assert text[index..] == [];
    EmptyEncodes();
    ok := true;
  }

  lemma LeadCounts(b: byte)
    ensures LeadOf(b).Some? ==> 1 <= LeadOf(b).value.count <= 3
  {}

  lemma EmptyEncodes()
    ensures Encodes([])
  {
    assert EncodeAll([]) == [];
  }
}
