/** Captive DNS messages (RFC 1035 sections 4.1.1 to 4.1.4): which queries are answered, and how. */
module DnsResponder {
  import opened Common
  import opened DnsName
  import opened DnsDecoder

  const TYPE_A: nat := 1
  const TYPE_ANY: nat := 255
  const CLASS_IN: nat := 1
  const ANSWER_TTL: nat := 30

  function U16(p: seq<byte>, at: nat): (v: nat)
    requires at + 1 < |p|
    ensures v < 0x10000
  {
    var high: int := p[at];
    var low: int := p[at + 1];
    high * 256 + low
  }

  function Bytes16(v: nat): seq<byte>
    requires v < 0x10000
  {
    [v / 256, v % 256]
  }

  // ----- messages

  ghost function NameEnd(p: seq<byte>, compress: bool, at: nat): (end: nat)
    requires NameAt(p, compress, at)
    ensures at < end <= |p|
  {
    var d :| Derives(p, compress, at, d) && |Name(p, compress, at, d)| <= MAX_NAME;
    at + WireLength(p, compress, at, d)
  }

  /** Where `count` resource records starting at `at` end, if they are all there. */
  ghost function RecordsEnd(p: seq<byte>, at: nat, count: nat): Option<nat>
    decreases count
  {
    if count == 0 then Some(at)
    else if !NameAt(p, true, at) then None
    else
      var fixed := NameEnd(p, true, at);
      if fixed + 10 > |p| then None
      else
        var end := fixed + 10 + U16(p, fixed + 8);
        if end > |p| then None else RecordsEnd(p, end, count - 1)
  }

  /** The message is exactly its header, one question and the records its counts promise. */
  ghost predicate Complete(p: seq<byte>) {
    && |p| >= HEADER && NameAt(p, false, HEADER)
    && NameEnd(p, false, HEADER) + 4 <= |p|
    && RecordsEnd(p, NameEnd(p, false, HEADER) + 4, U16(p, 6) + U16(p, 8) + U16(p, 10)) == Some(|p|)
  }

  predicate IsResponse(flags: nat) { flags >= 0x8000 }

  predicate PlainQuery(flags: nat) { (flags / 0x800) % 16 == 0 && (flags / 0x200) % 2 == 0 }

  predicate RecursionDesired(flags: nat) { (flags / 0x100) % 2 == 1 }

  datatype Parsed = Invalid | Ignore | Valid

  /** Responses are ignored; a query is valid when it is plain, asks one question and is complete. */
  ghost function Classify(p: seq<byte>): Parsed {
    if |p| < HEADER || |p| > MAX_PACKET then Invalid
    else if IsResponse(U16(p, 2)) then Ignore
    else if PlainQuery(U16(p, 2)) && U16(p, 4) == 1 && Complete(p) then Valid
    else Invalid
  }

  datatype Question = Question(flags: nat, qtype: nat, qclass: nat, nameLength: nat)

  /** The question a valid query asks. */
  ghost function QuestionOf(p: seq<byte>): Question
    requires Classify(p) == Valid
  {
    var end := NameEnd(p, false, HEADER);
    Question(U16(p, 2), U16(p, end), U16(p, end + 2), end - HEADER)
  }

  // ----- parsing

  lemma AnswersEnd(p: seq<byte>, compress: bool, at: nat, wireLength: nat, name: seq<byte>)
    requires Answers(p, compress, at, wireLength, name) && NameAt(p, compress, at)
    ensures NameEnd(p, compress, at) == at + wireLength
  {
    hide Derives;
  }

  lemma AcceptedIsNameAt(p: seq<byte>, compress: bool, at: nat)
    requires |p| <= MAX_PACKET
    ensures Accepted(p, compress, at, None) <==> NameAt(p, compress, at)
    ensures Accepted(p, compress, at, Some(MAX_NAME)) <==> NameAt(p, compress, at)
  {
    hide Derives;
    forall room | room == None || room == Some(MAX_NAME)
      ensures Accepted(p, compress, at, room) <==> NameAt(p, compress, at)
    {
      if Accepted(p, compress, at, room) {
        var d :| Derives(p, compress, at, d) && Fits(|Name(p, compress, at, d)|, room);
      }
      if NameAt(p, compress, at) {
        var d :| Derives(p, compress, at, d) && |Name(p, compress, at, d)| <= MAX_NAME;
        assert Fits(|Name(p, compress, at, d)|, room);
      }
    }
  }

  method ValidateResourceRecords(packet: seq<byte>, start: nat, recordCount: nat)
    returns (ok: bool, cursor: nat)
    requires |packet| <= MAX_PACKET && start <= |packet|
    ensures ok <==> RecordsEnd(packet, start, recordCount).Some?
    ensures ok ==> cursor == RecordsEnd(packet, start, recordCount).value
  {
    cursor := start;
    ok := false;
    for index := 0 to recordCount
      invariant cursor <= |packet|
      invariant RecordsEnd(packet, start, recordCount) == RecordsEnd(packet, cursor, recordCount - index)
    {
      var named, wireLength, decodedLength, name := DecodeName(packet, cursor, true, null, 0);
      AcceptedIsNameAt(packet, true, cursor);
      if !named {
        return;
      }
      AnswersEnd(packet, true, cursor, wireLength, name);
      if wireLength > |packet| - cursor {
        return;
      }
      cursor := cursor + wireLength;
      if cursor > |packet| || |packet| - cursor < 10 {
        return;
      }
      var dataLength := U16(packet, cursor + 8);
      cursor := cursor + 10;
      if dataLength > |packet| - cursor {
        return;
      }
      cursor := cursor + dataLength;
    }
    ok := true;
  }

  method ParseQuery(packet: seq<byte>, questionName: array<byte>) returns (r: Parsed, question: Question)
    requires questionName.Length == MAX_NAME
    modifies questionName
    ensures r == Classify(packet)
    ensures r == Valid ==>
              && question == QuestionOf(packet)
              && question.nameLength <= MAX_NAME
              && questionName[..question.nameLength] == packet[HEADER..HEADER + question.nameLength]
  {
    hide DnsDecoder.Answers, NameEnd;
    question := Question(0, 0, 0, 0);
    if |packet| < HEADER || |packet| > MAX_PACKET {
      return Invalid, question;
    }
    var flags := U16(packet, 2);
    if IsResponse(flags) {
      return Ignore, question;
    }
    if !PlainQuery(flags) || U16(packet, 4) != 1 {
      return Invalid, question;
    }
    var named, wireLength, nameLength, name := DecodeName(packet, HEADER, false, questionName, MAX_NAME);
    AcceptedIsNameAt(packet, false, HEADER);
    if !named {
      return Invalid, question;
    }
    AnswersEnd(packet, false, HEADER, wireLength, name);
    PlainAnswer(packet, HEADER, wireLength, name);
    var cursor := HEADER + wireLength;
    if cursor > |packet| || |packet| - cursor < 4 {
      return Invalid, question;
    }
    question := Question(flags, U16(packet, cursor), U16(packet, cursor + 2), nameLength);
    cursor := cursor + 4;
    var ok, end := ValidateResourceRecords(packet, cursor, U16(packet, 6) + U16(packet, 8) + U16(packet, 10));
    r := if ok && end == |packet| then Valid else Invalid;
  }

  lemma PlainAnswer(p: seq<byte>, at: nat, wireLength: nat, name: seq<byte>)
    requires Answers(p, false, at, wireLength, name) && NameAt(p, false, at)
    ensures at + wireLength <= |p| && name == p[at..at + wireLength]
  {
    var d :| Derives(p, false, at, d) && |Name(p, false, at, d)| <= MAX_NAME;
    PlainName(p, at, d);
  }

  // ----- answering

  predicate IncludeAnswer(q: Question) {
    q.qclass == CLASS_IN && (q.qtype == TYPE_A || q.qtype == TYPE_ANY)
  }

  /** The answer record: the question's name by pointer, and the portal's address. */
  function AnswerRecord(address: seq<byte>): seq<byte>
    requires |address| == 4
  {
    [0xC0, 0x0C] + Bytes16(TYPE_A) + Bytes16(CLASS_IN) + [0, 0, 0, ANSWER_TTL] + Bytes16(4) + address
  }

  function ResponseFlags(flags: nat): nat {
    0x8400 + if RecursionDesired(flags) then 0x100 else 0
  }

  /** The response, section by section. */
  function Response(request: seq<byte>, q: Question, name: seq<byte>, address: seq<byte>): seq<byte>
    requires |request| >= 2 && |address| == 4 && q.qtype < 0x10000 && q.qclass < 0x10000
  {
    request[..2] + Bytes16(ResponseFlags(q.flags)) + Bytes16(1) + Bytes16(if IncludeAnswer(q) then 1 else 0) +
    [0, 0, 0, 0] + name + Bytes16(q.qtype) + Bytes16(q.qclass) +
    (if IncludeAnswer(q) then AnswerRecord(address) else [])
  }

  /** Overwrites a stretch of the buffer. */
  method Put(bytes: array<byte>, at: nat, data: seq<byte>)
    requires at + |data| <= bytes.Length
    modifies bytes
    ensures bytes[..at + |data|] == old(bytes[..at]) + data
    ensures bytes[at + |data|..] == old(bytes[at + |data|..])
  {
    ghost var before, after := bytes[..at], bytes[at + |data|..];
    forall i | 0 <= i < |data| {
      bytes[at + i] := data[i];
    }
    assert bytes[..at] == before && bytes[at + |data|..] == after;
    assert bytes[at..at + |data|] == data;
    assert bytes[..at + |data|] == bytes[..at] + bytes[at..at + |data|];
  }

  method WriteU16(bytes: array<byte>, at: nat, value: nat)
    requires at + 2 <= bytes.Length && value < 0x10000
    modifies bytes
    ensures bytes[..at + 2] == old(bytes[..at]) + Bytes16(value)
    ensures bytes[at + 2..] == old(bytes[at + 2..])
  {
    Put(bytes, at, Bytes16(value));
  }

  method BuildResponse(request: seq<byte>, q: Question, questionName: seq<byte>, address: seq<byte>,
                       response: array<byte>) returns (length: nat)
    requires |request| >= HEADER && |address| == 4
    requires q.qtype < 0x10000 && q.qclass < 0x10000 && q.nameLength <= |questionName|
    modifies response
    ensures var r := Response(request, q, questionName[..q.nameLength], address);
            if |r| <= response.Length then length == |r| && response[..length] == r else length == 0
  {
    var includeAnswer := IncludeAnswer(q);
    var responseLength := HEADER + q.nameLength + 4 + (if includeAnswer then 16 else 0);
    length := 0;
    ghost var r := Response(request, q, questionName[..q.nameLength], address);
    assert |r| == responseLength;
    if responseLength > response.Length {
      return;
    }
    forall i | 0 <= i < responseLength {
      response[i] := 0;
    }
    PutHeader(response, responseLength, request, q);
    assert response[..HEADER] == r[..HEADER];
    var cursor := HEADER;
    Put(response, cursor, questionName[..q.nameLength]);
    cursor := cursor + q.nameLength;
    WriteU16(response, cursor, q.qtype);
    WriteU16(response, cursor + 2, q.qclass);
    cursor := cursor + 4;
    assert response[..cursor] == r[..cursor];
    if includeAnswer {
      PutAnswer(response, cursor, address);
    }
    length := responseLength;
  }

  method PutHeader(response: array<byte>, responseLength: nat, request: seq<byte>, q: Question)
    requires HEADER <= responseLength <= response.Length && |request| >= 2
    requires forall i :: 0 <= i < responseLength ==> response[i] == 0
    modifies response
    ensures response[..HEADER] == request[..2] + Bytes16(ResponseFlags(q.flags)) + Bytes16(1) +
                                  Bytes16(if IncludeAnswer(q) then 1 else 0) + [0, 0, 0, 0]
  {
    ghost var tail := response[8..];
    assert tail[..4] == [0, 0, 0, 0];
    response[0] := request[0];
    response[1] := request[1];
    assert response[..2] == request[..2] && response[8..] == tail;
    ghost var rest := response[4..];
    assert rest[4..] == tail;
    WriteU16(response, 2, ResponseFlags(q.flags));
    assert rest == response[4..];
    rest := response[6..];
    assert rest[2..] == tail by { assert rest[2..] == response[8..] == response[4..][4..]; }
    WriteU16(response, 4, 1);
    WriteU16(response, 6, if IncludeAnswer(q) then 1 else 0);
    assert response[8..] == tail;
    assert response[..HEADER] == response[..8] + response[8..][..4];
  }

  method PutAnswer(response: array<byte>, cursor: nat, address: seq<byte>)
    requires cursor + 16 <= response.Length && |address| == 4
    modifies response
    ensures response[..cursor + 16] == old(response[..cursor]) + AnswerRecord(address)
  {
    WriteU16(response, cursor, 0xC00C);
    WriteU16(response, cursor + 2, TYPE_A);
    WriteU16(response, cursor + 4, CLASS_IN);
    Put(response, cursor + 6, [0, 0, 0, ANSWER_TTL]);
    WriteU16(response, cursor + 10, 4);
    Put(response, cursor + 12, address);
  }

  // ----- what every answer is

  lemma ResponseLayout(p: seq<byte>, address: seq<byte>)
    requires Classify(p) == Valid && |address| == 4
    ensures var q := QuestionOf(p);
            var end := HEADER + q.nameLength;
            && q.nameLength <= MAX_NAME && end + 4 <= |p|
            && q.qtype < 0x10000 && q.qclass < 0x10000
            && var r := Response(p, q, p[HEADER..end], address);
            && |r| == end + 4 + (if IncludeAnswer(q) then 16 else 0)
            && r[..2] == p[..2] && U16(r, 2) == ResponseFlags(q.flags) && U16(r, 4) == 1
            && U16(r, 6) == (if IncludeAnswer(q) then 1 else 0) && U16(r, 8) == 0 && U16(r, 10) == 0
            && r[HEADER..end + 4] == p[HEADER..end + 4]
            && r[end + 4..] == (if IncludeAnswer(q) then AnswerRecord(address) else [])
  {
    hide Derives, RecordsEnd, NameAt, NameEnd, Complete, Classify, QuestionOf, Response;
    var d := QuestionName(p);
    var q := QuestionOf(p);
    var end := HEADER + q.nameLength;
    Sections(p, q, p[HEADER..end], address);
    BytesBack(p, end);
    BytesBack(p, end + 2);
    assert p[HEADER..end + 4] == p[HEADER..end] + Bytes16(q.qtype) + Bytes16(q.qclass);
  }

  lemma BytesBack(p: seq<byte>, at: nat)
    requires at + 2 <= |p|
    ensures Bytes16(U16(p, at)) == p[at..at + 2]
  {}

  /** The response's sections, by position. */
  lemma Sections(request: seq<byte>, q: Question, name: seq<byte>, address: seq<byte>)
    requires |request| >= 2 && |address| == 4 && q.qtype < 0x10000 && q.qclass < 0x10000
    ensures var r := Response(request, q, name, address);
            var end := HEADER + |name|;
            && |r| == end + 4 + (if IncludeAnswer(q) then 16 else 0)
            && r[..2] == request[..2] && U16(r, 2) == ResponseFlags(q.flags) && U16(r, 4) == 1
            && U16(r, 6) == (if IncludeAnswer(q) then 1 else 0) && U16(r, 8) == 0 && U16(r, 10) == 0
            && r[HEADER..end + 4] == name + Bytes16(q.qtype) + Bytes16(q.qclass)
            && r[end + 4..] == (if IncludeAnswer(q) then AnswerRecord(address) else [])
  {
    var head := request[..2] + Bytes16(ResponseFlags(q.flags)) + Bytes16(1) +
                Bytes16(if IncludeAnswer(q) then 1 else 0) + [0, 0, 0, 0];
    var body := name + Bytes16(q.qtype) + Bytes16(q.qclass);
    var tail := if IncludeAnswer(q) then AnswerRecord(address) else [];
    assert Response(request, q, name, address) == head + body + tail;
    HeadNumbers(request, ResponseFlags(q.flags), if IncludeAnswer(q) then 1 else 0, body + tail);
    assert head + (body + tail) == head + body + tail;
    Parts(head, body, tail);
    hide Response, AnswerRecord, IncludeAnswer, U16, Bytes16;
  }

  lemma HeadNumbers(request: seq<byte>, flags: nat, count: nat, rest: seq<byte>)
    requires |request| >= 2 && flags < 0x10000 && count < 0x10000
    ensures var r := request[..2] + Bytes16(flags) + Bytes16(1) + Bytes16(count) + [0, 0, 0, 0] + rest;
            && r[..2] == request[..2] && U16(r, 2) == flags && U16(r, 4) == 1 && U16(r, 6) == count
            && U16(r, 8) == 0 && U16(r, 10) == 0
  {}

  lemma Parts<T>(head: seq<T>, body: seq<T>, tail: seq<T>)
    ensures var r := head + body + tail;
            r[|head|..|head| + |body|] == body && r[|head| + |body|..] == tail
  {}

  lemma QuestionName(p: seq<byte>) returns (d: Expansion)
    requires Classify(p) == Valid
    ensures Derives(p, false, HEADER, d) && |Name(p, false, HEADER, d)| <= MAX_NAME
    ensures var q := QuestionOf(p);
            && q.nameLength == WireLength(p, false, HEADER, d) <= MAX_NAME
            && HEADER + q.nameLength + 4 <= |p|
            && q == Question(U16(p, 2), U16(p, HEADER + q.nameLength), U16(p, HEADER + q.nameLength + 2), q.nameLength)
  {
    var end := NameEnd(p, false, HEADER);
    d :| Derives(p, false, HEADER, d) && |Name(p, false, HEADER, d)| <= MAX_NAME &&
      end == HEADER + WireLength(p, false, HEADER, d);
    PlainName(p, HEADER, d);
  }

  /** An uncompressed name reads the same wherever its bytes are, pointers allowed or not. */
  lemma {:induction false} SameName(p: seq<byte>, r: seq<byte>, at: nat, d: Expansion, compress: bool)
    requires Derives(p, false, at, d)
    requires var end := at + WireLength(p, false, at, d);
             end <= |r| && p[at..end] == r[at..end]
    ensures Derives(r, compress, at, d)
    ensures WireLength(r, compress, at, d) == WireLength(p, false, at, d)
    ensures Name(r, compress, at, d) == Name(p, false, at, d)
    decreases d
  {
    var end := at + WireLength(p, false, at, d);
    assert p[at] == p[at..end][0] == r[at];
    if d.Label? {
      var next := at + 1 + p[at];
      assert p[next..end] == p[at..end][next - at..] == r[next..end];
      assert p[at..next] == p[at..end][..next - at] == r[at..next];
      SameName(p, r, next, d.rest, compress);
    }
  }

  lemma OneNameEnd(p: seq<byte>, compress: bool, at: nat, d: Expansion)
    requires Derives(p, compress, at, d) && |Name(p, compress, at, d)| <= MAX_NAME
    ensures NameAt(p, compress, at) && NameEnd(p, compress, at) == at + WireLength(p, compress, at, d)
  {
    var e :| Derives(p, compress, at, e) && |Name(p, compress, at, e)| <= MAX_NAME &&
      NameEnd(p, compress, at) == at + WireLength(p, compress, at, e);
    OneExpansion(p, compress, at, d, e);
  }

  /** The question section of the response names what the request asked for, and
      so does the answer's pointer. */
  lemma ResponseNames(p: seq<byte>, address: seq<byte>) returns (d: Expansion)
    requires Classify(p) == Valid && |address| == 4
    ensures Derives(p, false, HEADER, d) && |Name(p, false, HEADER, d)| <= MAX_NAME
    ensures HEADER + WireLength(p, false, HEADER, d) == HEADER + QuestionOf(p).nameLength <= |p|
    ensures var q := QuestionOf(p);
            var end := HEADER + q.nameLength;
            var r := Response(p, q, p[HEADER..end], address);
            && NameAt(r, false, HEADER) && NameEnd(r, false, HEADER) == end
            && (IncludeAnswer(q) ==>
                  && Derives(r, true, end + 4, Pointer(d))
                  && Name(r, true, end + 4, Pointer(d)) == Name(p, false, HEADER, d)
                  && WireLength(r, true, end + 4, Pointer(d)) == 2)
  {
    hide Response, Classify, QuestionOf, RecordsEnd, NameAt, NameEnd, Derives, Name, WireLength;
    ResponseLayout(p, address);
    d := QuestionName(p);
    var q := QuestionOf(p);
    var end := HEADER + q.nameLength;
    var r := Response(p, q, p[HEADER..end], address);
    assert p[HEADER..end] == p[HEADER..end + 4][..q.nameLength] && r[HEADER..end] == r[HEADER..end + 4][..q.nameLength];
    NamesInResponse(p, r, d, IncludeAnswer(q), address);
  }

  lemma NamesInResponse(p: seq<byte>, r: seq<byte>, d: Expansion, answered: bool, address: seq<byte>)
    requires Derives(p, false, HEADER, d) && |Name(p, false, HEADER, d)| <= MAX_NAME && |address| == 4
    requires var end := HEADER + WireLength(p, false, HEADER, d);
             && end + 4 <= |r| && p[HEADER..end] == r[HEADER..end]
             && (answered ==> r[end + 4..] == AnswerRecord(address))
    ensures var end := HEADER + WireLength(p, false, HEADER, d);
            && NameAt(r, false, HEADER) && NameEnd(r, false, HEADER) == end
            && (answered ==>
                  && Derives(r, true, end + 4, Pointer(d))
                  && Name(r, true, end + 4, Pointer(d)) == Name(p, false, HEADER, d)
                  && WireLength(r, true, end + 4, Pointer(d)) == 2)
  {
    hide *;
    var end := HEADER + WireLength(p, false, HEADER, d);
    SameName(p, r, HEADER, d, false);
    SameName(p, r, HEADER, d, true);
    OneNameEnd(r, false, HEADER, d);
    if answered {
      AnswerStarts(r, end + 4, address);
      PointsAtQuestion(r, end + 4, d);
    }
  }

  lemma AnswerStarts(r: seq<byte>, at: nat, address: seq<byte>)
    requires |address| == 4 && at <= |r| && r[at..] == AnswerRecord(address)
    ensures at + 1 < |r| && r[at] == 0xC0 && r[at + 1] == HEADER
  {
    assert r[at] == r[at..][0] && r[at + 1] == r[at..][1];
  }

  lemma PointsAtQuestion(r: seq<byte>, at: nat, d: Expansion)
    requires HEADER < at && at + 1 < |r| && r[at] == 0xC0 && r[at + 1] == HEADER && Derives(r, true, HEADER, d)
    ensures Derives(r, true, at, Pointer(d))
    ensures Name(r, true, at, Pointer(d)) == Name(r, true, HEADER, d) && WireLength(r, true, at, Pointer(d)) == 2
  {}

  lemma AnswerEnds(r: seq<byte>, at: nat, d: Expansion, address: seq<byte>)
    requires |address| == 4 && at <= |r| && r[at..] == AnswerRecord(address)
    requires Derives(r, true, at, Pointer(d)) && |Name(r, true, at, Pointer(d))| <= MAX_NAME
    requires WireLength(r, true, at, Pointer(d)) == 2
    ensures RecordsEnd(r, at, 1) == Some(|r|)
  {
    OneNameEnd(r, true, at, Pointer(d));
    assert |r| == at + 16;
    assert r[at + 10] == r[at..][10] == 0 && r[at + 11] == r[at..][11] == 4;
    assert U16(r, at + 10) == 4;
    assert RecordsEnd(r, at + 16, 0) == Some(at + 16);
  }

  /** Every accepted query gets a well-formed response: at most 287 bytes, the
      same ID, recursion bit and question bytes, complete as its own counts say,
      its answer pointing at the question's name, and never itself answered. */
  lemma ResponseIsWellFormed(p: seq<byte>, address: seq<byte>)
    requires Classify(p) == Valid && |address| == 4
    ensures var q := QuestionOf(p);
            var end := HEADER + q.nameLength;
            && end + 4 <= |p| && q.qtype < 0x10000 && q.qclass < 0x10000
            && var r := Response(p, q, p[HEADER..end], address);
            && HEADER < |r| <= 287
            && r[..2] == p[..2] && r[HEADER..end + 4] == p[HEADER..end + 4]
            && (RecursionDesired(U16(r, 2)) <==> RecursionDesired(U16(p, 2)))
            && r[2] == 0x84 + p[2] % 2 && r[3] == 0
            && U16(r, 4) == 1 && Complete(r)
            && U16(r, 6) == (if IncludeAnswer(q) then 1 else 0)
            && Classify(r) == Ignore
  {
    hide Derives, Name, WireLength, NameEnd, NameAt, Response, QuestionOf, Complete, RecordsEnd, AnswerRecord;
    ResponseLayout(p, address);
    var d := ResponseNames(p, address);
    var q := QuestionOf(p);
    var end := HEADER + q.nameLength;
    var r := Response(p, q, p[HEADER..end], address);
    FlagsOf(p);
    FlagOctets(p, r);
    if IncludeAnswer(q) { AnswerEnds(r, end + 4, d, address); } else { NoRecords(r, end + 4); }
    CompleteWith(r, end);
  }

  lemma NoRecords(r: seq<byte>, at: nat)
    requires at == |r|
    ensures RecordsEnd(r, at, 0) == Some(|r|)
  {}

  lemma FlagsOf(p: seq<byte>)
    requires Classify(p) == Valid
    ensures QuestionOf(p).flags == U16(p, 2)
  {}

  /** One question and its records, and nothing after them. */
  lemma CompleteWith(r: seq<byte>, end: nat)
    requires |r| >= HEADER && NameAt(r, false, HEADER) && NameEnd(r, false, HEADER) == end && end + 4 <= |r|
    requires RecordsEnd(r, end + 4, U16(r, 6) + U16(r, 8) + U16(r, 10)) == Some(|r|)
    ensures Complete(r)
  {}

  // ----- octet by octet

  /** A packet is a response by its first flag bit; otherwise it is a valid query exactly
      when its opcode and truncation bits are clear, it asks one question and is complete. */
  lemma ClassifyMeans(p: seq<byte>)
    ensures Classify(p) == Ignore <==> 12 <= |p| <= 512 && p[2] >= 0x80
    ensures Classify(p) == Valid <==>
            && 12 <= |p| <= 512 && p[2] < 0x80
            && (p[2] / 8) % 16 == 0 && (p[2] / 2) % 2 == 0 && p[4] == 0 && p[5] == 1 && Complete(p)
  {
    hide Complete;
    if |p| >= 12 {
      var high: int, low: int := p[2], p[3];
      FlagBits(high, low);
    }
  }

  lemma FlagBits(high: int, low: int)
    requires 0 <= high < 256 && 0 <= low < 256
    ensures var flags := high * 256 + low;
            && (flags >= 0x8000 <==> high >= 0x80)
            && (flags / 0x800) % 16 == (high / 8) % 16 && (flags / 0x200) % 2 == (high / 2) % 2
            && (flags / 0x100) % 2 == high % 2
  {
    var flags := high * 256 + low;
    assert flags / 0x800 == high / 8 && flags / 0x200 == high / 2 && flags / 0x100 == high;
  }

  /** Asks for an address, or for anything, in the Internet class. */
  predicate AsksForAddress(question: seq<byte>) { question == [0, 1, 0, 1] || question == [0, 255, 0, 1] }

  /** The response to a query: authoritative, without error, recursion as asked, the
      question repeated; and to a question for an address one answer, which points at
      the name, lasts 30 seconds and holds the portal's address. */
  ghost predicate WellAnswered(p: seq<byte>, r: seq<byte>, address: seq<byte>)
    requires NameAt(p, false, HEADER)
  {
    var end := NameEnd(p, false, HEADER);
    && HEADER <= end && end + 4 <= |p| && end + 4 <= |r|
    && r[..2] == p[..2]
    && r[2] == 0x84 + p[2] % 2 && r[3] == 0
    && r[4] == 0 && r[5] == 1
    && r[6] == 0 && r[7] == (if AsksForAddress(p[end..end + 4]) then 1 else 0)
    && r[8] == 0 && r[9] == 0 && r[10] == 0 && r[11] == 0
    && r[HEADER..end + 4] == p[HEADER..end + 4]
    && r[end + 4..] == if AsksForAddress(p[end..end + 4])
                       then [0xC0, 0x0C, 0, 1, 0, 1, 0, 0, 0, 30, 0, 4] + address else []
  }

  lemma ResponseOctets(p: seq<byte>, address: seq<byte>)
    requires Classify(p) == Valid && |address| == 4
    ensures NameAt(p, false, HEADER) && HEADER + QuestionOf(p).nameLength <= |p|
    ensures QuestionOf(p).qtype < 0x10000 && QuestionOf(p).qclass < 0x10000
    ensures var q := QuestionOf(p);
            WellAnswered(p, Response(p, q, p[HEADER..HEADER + q.nameLength], address), address)
  {
    hide Response, Complete, RecordsEnd, NameAt, NameEnd;
    ResponseLayout(p, address);
    var q := QuestionOf(p);
    var end := NameEndOf(p);
    var r := Response(p, q, p[HEADER..end], address);
    FlagOctets(p, r);
    TwoOctets(r, 4, 1);
    TwoOctets(r, 6, if IncludeAnswer(q) then 1 else 0);
    TwoOctets(r, 8, 0);
    TwoOctets(r, 10, 0);
    Asked(p, end);
  }

  lemma NameEndOf(p: seq<byte>) returns (end: nat)
    requires Classify(p) == Valid
    ensures NameAt(p, false, HEADER) && end == NameEnd(p, false, HEADER) == HEADER + QuestionOf(p).nameLength
    ensures end + 4 <= |p| && QuestionOf(p) == Question(U16(p, 2), U16(p, end), U16(p, end + 2), end - HEADER)
  {
    end := NameEnd(p, false, HEADER);
  }

  lemma TwoOctets(r: seq<byte>, at: nat, v: nat)
    requires at + 1 < |r| && U16(r, at) == v < 256
    ensures r[at] == 0 && r[at + 1] == v
  {}

  lemma FlagOctets(p: seq<byte>, r: seq<byte>)
    requires |p| >= 4 && |r| >= 4 && U16(r, 2) == ResponseFlags(U16(p, 2))
    ensures r[2] == 0x84 + p[2] % 2 && r[3] == 0
  {
    var high: int, low: int := p[2], p[3];
    FlagBits(high, low);
    var h: int, l: int := r[2], r[3];
    assert h * 256 + l == (0x84 + high % 2) * 256;
  }

  lemma Asked(p: seq<byte>, end: nat)
    requires end + 4 <= |p|
    ensures IncludeAnswer(Question(0, U16(p, end), U16(p, end + 2), 0)) <==> AsksForAddress(p[end..end + 4])
  {
    var a: int, b: int, c: int, d: int := p[end], p[end + 1], p[end + 2], p[end + 3];
    assert p[end..end + 4] == [p[end], p[end + 1], p[end + 2], p[end + 3]];
  }

  /** What one packet gets: nothing, unless it is a valid query. */
  method Respond(packet: seq<byte>, address: seq<byte>, questionName: array<byte>, response: array<byte>)
    returns (length: nat)
    requires |address| == 4 && questionName.Length == MAX_NAME && response.Length == MAX_PACKET
    requires questionName != response
    modifies questionName, response
    ensures Classify(packet) != Valid ==> length == 0
    ensures Classify(packet) == Valid ==>
              && 0 < length <= 287 && NameAt(packet, false, HEADER)
              && WellAnswered(packet, response[..length], address)
  {
    hide Response, Complete, RecordsEnd, NameAt, NameEnd, WellAnswered, Classify, QuestionOf;
    var parsed, question := ParseQuery(packet, questionName);
    if parsed != Valid {
      return 0;
    }
    ResponseOctets(packet, address);
    ResponseIsWellFormed(packet, address);
    var name := questionName[..question.nameLength];
    assert name[..question.nameLength] == name == packet[HEADER..HEADER + question.nameLength];
    length := BuildResponse(packet, question, name, address, response);
  }
}
