/**
  * The stream parser as a function of its state: one byte, one chunk, and the
  * final verdict.  `judge` stands for reading one captured object as an
  * aircraft: any deterministic function of its text.
  */
module StreamSpec {
  import opened Common
  import opened Body
  import opened Response
  import opened AircraftRecord
  import opened Candidates
  import BoundedInsertion

  const MAX_BODY_BYTES: nat := 8 * 1024 * 1024

  datatype Error = InvalidSize | InvalidResponse

  datatype Verdict = Malformed | Rejected | Accepted(aircraft: Aircraft)

  type Judge = seq<char> -> Verdict

  datatype Tally = Tally(objects: nat, rejected: nat, candidates: seq<Aircraft>)

  datatype Key = Key(text: seq<char>, hadEscape: bool)

  /** Inside a string; `key` is kept only for the root object's keys. */
  datatype Quoted = Quoted(escaped: bool, key: Option<Key>)

  /** The aircraft array: not seen yet, being read, or behind us. */
  datatype Ac = Unseen | Inside(expectObject: bool, anyObject: bool) | Complete

  datatype State = State(started: bool, complete: bool, closing: seq<char>, last: char,
                         quoted: Option<Quoted>, awaits: Await, ac: Ac,
                         capture: Option<seq<char>>, tally: Tally)

  const INITIAL := State(false, false, [], '\0', None, Anything, Unseen, None, Tally(0, 0, []))

  /** One more complete object. */
  function AddObject(judge: Judge, t: Tally, text: seq<char>): Result<Tally, Error> {
    if t.objects + 1 > MAX_OBJECTS then Err(InvalidSize)
    else match judge(text)
         case Malformed => Err(InvalidResponse)
         case Rejected => Ok(Tally(t.objects + 1, t.rejected + 1, t.candidates))
         case Accepted(a) =>
           Ok(Tally(t.objects + 1, t.rejected,
                    BoundedInsertion.Insert(Compare, MAX_AIRCRAFT, t.candidates, a)))
  }

  /** The last root-level byte is remembered to tell keys from values. */
  function Remember(s: State, b: char): State {
    if |s.closing| == 1 then s.(last := b) else s
  }

  function StepQuoted(s: State, b: char): Result<State, Error>
    requires s.quoted.Some?
  {
    var q := s.quoted.value;
    if q.escaped then
      Ok(s.(quoted := Some(Quoted(false, match q.key case None => None
                                         case Some(k) => Some(Key(k.text, true))))))
    else if b == '\\' then
      Ok(s.(quoted := Some(q.(escaped := true))))
    else if b == '"' then
      Ok(Remember(s.(quoted := None,
                     awaits := match q.key case None => s.awaits
                               case Some(k) => Colon(!k.hadEscape && k.text == "ac")), b))
    else if b < ' ' then Err(InvalidResponse)
    else match q.key
         case None => Ok(s)
         case Some(k) =>
           Ok(if |k.text| < KEY_BYTES
              then s.(quoted := Some(q.(key := Some(Key(k.text + [b], k.hadEscape)))))
              else s)
  }

  /** What the aircraft array allows directly inside it. */
  function StepList(ac: Ac, b: char): Result<Ac, Error>
    requires ac.Inside?
  {
    if b == '{' then
      if ac.expectObject then Ok(ac.(expectObject := false)) else Err(InvalidResponse)
    else if b == ',' then
      if ac.expectObject || !ac.anyObject then Err(InvalidResponse) else Ok(ac.(expectObject := true))
    else if b == ']' then
      if ac.expectObject && ac.anyObject then Err(InvalidResponse) else Ok(ac)
    else Err(InvalidResponse)
  }

  function StepOpen(s: State, b: char): Result<State, Error> {
    if |s.closing| >= MAX_DEPTH then Err(InvalidSize)
    else
      var capture := if s.ac.Inside? && |s.closing| == 2 && b == '{' then Some(['{']) else s.capture;
      Ok(Remember(s.(capture := capture, closing := s.closing + [Close(b)]), b))
  }

  function StepClose(judge: Judge, s: State, b: char): Result<State, Error> {
    if s.closing == [] || Last(s.closing) != b then Err(InvalidResponse)
    else
      var ac := if b == ']' && s.ac.Inside? && |s.closing| == 2 then Complete else s.ac;
      var s1 := s.(closing := Init(s.closing), ac := ac);
      if s1.capture.Some? && |s1.closing| == 2 && b == '}' then
        match AddObject(judge, s1.tally, s1.capture.value)
        case Err(e) => Err(e)
        case Ok(t) =>
          Ok(s1.(capture := None, tally := t,
                 ac := if ac.Inside? then ac.(anyObject := true) else ac))
      else if s1.closing == [] then
        if b != '}' then Err(InvalidResponse) else Ok(s1.(complete := true))
      else Ok(Remember(s1, b))
  }

  function StepStructure(judge: Judge, s: State, b: char): Result<State, Error> {
    var ac := if s.ac.Inside? && |s.closing| == 2 then StepList(s.ac, b) else Ok(s.ac);
    match ac
    case Err(e) => Err(e)
    case Ok(a) =>
      if Opens(b) then StepOpen(s.(ac := a), b)
      else if Closes(b) then StepClose(judge, s.(ac := a), b)
      else Ok(Remember(s.(ac := a), b))
  }

  function StepToken(judge: Judge, s: State, b: char): Result<State, Error> {
    match s.awaits
    case Colon(ac) =>
      if b != ':' then Err(InvalidResponse)
      else Ok(s.(last := ':', awaits := if ac then AcArray else Anything))
    case AcArray =>
      if b != '[' || s.ac != Unseen || |s.closing| != 1 then Err(InvalidResponse)
      else StepStructure(judge, s.(awaits := Anything, ac := Inside(true, false)), b)
    case Anything =>
      if b == '"' then
        var key := |s.closing| == 1 && (s.last == '{' || s.last == ',');
        Ok(s.(quoted := Some(Quoted(false, if key then Some(Key([], false)) else None))))
      else StepStructure(judge, s, b)
  }

  function Step(judge: Judge, s: State, b: char): Result<State, Error> {
    if s.complete then
      if Whitespace(b) then Ok(s) else Err(InvalidResponse)
    else if s.capture.Some? && |s.capture.value| >= MAX_OBJECT_BYTES then Err(InvalidSize)
    else
      var s1 := if s.capture.Some? then s.(capture := Some(s.capture.value + [b])) else s;
      if s1.quoted.Some? then StepQuoted(s1, b)
      else if Whitespace(b) then Ok(s1)
      else if !s1.started && b != '{' then Err(InvalidResponse)
      else StepToken(judge, s1.(started := true), b)
  }

  /** All the bytes in turn; the first error stands. */
  function Run(judge: Judge, from: State, body: seq<char>): Result<State, Error> {
    if body == [] then Ok(from)
    else match Run(judge, from, Init(body))
         case Err(e) => Err(e)
         case Ok(s) => Step(judge, s, Last(body))
  }

  /** What the parser object holds: bytes taken in, and how far it got. */
  datatype Parser = Parser(bytes: nat, run: Result<State, Error>)

  const FRESH := Parser(0, Ok(INITIAL))

  function Feed(judge: Judge, p: Parser, chunk: seq<char>): Parser {
    if p.run.Err? then p
    else if p.bytes + |chunk| > MAX_BODY_BYTES then p.(run := Err(InvalidSize))
    else Parser(p.bytes + |chunk|, Run(judge, p.run.value, chunk))
  }

  function FeedAll(judge: Judge, chunks: seq<seq<char>>): Parser {
    if chunks == [] then FRESH else Feed(judge, FeedAll(judge, Init(chunks)), Last(chunks))
  }

  /** The part of a snapshot that a response decides; `live` is the state LIVE rather than EMPTY. */
  datatype Report = Report(live: bool, reported: nat, accepted: nat, rejected: nat, responseBytes: nat,
                           aircraft: seq<Aircraft>)

  function Finish(p: Parser): Result<Report, Error> {
    match p.run
    case Err(e) => Err(e)
    case Ok(s) =>
      if !s.complete || s.quoted.Some? || s.closing != [] || s.ac != Complete ||
         s.capture.Some? || s.awaits != Anything then Err(InvalidResponse)
      else Ok(Report(|s.tally.candidates| > 0, s.tally.objects, |s.tally.candidates|, s.tally.rejected, p.bytes,
                     s.tally.candidates))
  }

  /** A byte makes a body too large in three ways: an object of over 4096 bytes, a 17th
      open bracket, or the end of the 8193rd object; any other error calls it malformed. */
  lemma TooLargeExactly(judge: Judge, s: State, b: char)
    ensures Step(judge, s, b) == Err(InvalidSize) <==>
              var structure := !s.complete && s.quoted == None && s.awaits == Anything && (s.started || b == '{');
              || (!s.complete && s.capture.Some? && |s.capture.value| >= 4096)
              || (structure && b in {'{', '['} && |s.closing| >= 16)
              || (structure && s.capture.Some? && b == '}' && |s.closing| == 3 && Last(s.closing) == '}' &&
                  s.tally.objects >= 8192)
  {}

  // ----- chunks

  function Concat(chunks: seq<seq<char>>): seq<char> {
    if chunks == [] then [] else Concat(Init(chunks)) + Last(chunks)
  }

  lemma {:induction false} RunConcat(judge: Judge, s: State, a: seq<char>, b: seq<char>)
    ensures Run(judge, s, a + b) == match Run(judge, s, a) case Err(e) => Err(e)
                                    case Ok(t) => Run(judge, t, b)
    decreases |b|
  {
    if b == [] {
      assert a + b == a;
    } else {
      RunConcat(judge, s, a, Init(b));
      assert Init(a + b) == a + Init(b) && Last(a + b) == Last(b);
    }
  }

  lemma {:induction false} FeedAllRuns(judge: Judge, chunks: seq<seq<char>>)
    ensures |Concat(chunks)| <= MAX_BODY_BYTES ==>
              FeedAll(judge, chunks).run == Run(judge, INITIAL, Concat(chunks))
    ensures |Concat(chunks)| <= MAX_BODY_BYTES && FeedAll(judge, chunks).run.Ok? ==>
              FeedAll(judge, chunks).bytes == |Concat(chunks)|
    ensures |Concat(chunks)| > MAX_BODY_BYTES ==> FeedAll(judge, chunks).run.Err?
    ensures FeedAll(judge, chunks).run.Ok? ==> FeedAll(judge, chunks).bytes == |Concat(chunks)|
  {
    if chunks != [] {
      FeedAllRuns(judge, Init(chunks));
      RunConcat(judge, INITIAL, Concat(Init(chunks)), Last(chunks));
    }
  }

  /** How the body is cut into chunks never matters: up to 8 MiB the verdict, the
      report and the error are those of the whole body; beyond it all fail. */
  lemma ChunkingDoesNotMatter(judge: Judge, chunks: seq<seq<char>>)
    ensures |Concat(chunks)| <= MAX_BODY_BYTES ==>
              Finish(FeedAll(judge, chunks)) == Finish(Feed(judge, FRESH, Concat(chunks)))
    ensures |Concat(chunks)| > MAX_BODY_BYTES ==> Finish(FeedAll(judge, chunks)).Err?
  {
    FeedAllRuns(judge, chunks);
  }
}
