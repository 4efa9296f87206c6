/**
  * The stream parser as the source keeps it: flags, counters and fixed
  * buffers, updated byte by byte.  Every method is tied to the parser function.
  */
module StreamParser {
  import opened Common
  import opened Body
  import opened Response
  import opened AircraftRecord
  import opened Candidates
  import opened StreamSpec
  import BoundedInsertion

  class StreamParser {
    const judge: Judge
    var bodyBytes: nat
    var objects: nat
    var rejected: nat
    var depth: nat
    const closing: array<char>
    var lastRootToken: char
    var rootStarted: bool
    var rootComplete: bool
    var inString: bool
    var escaped: bool
    var capturingKey: bool
    var keyHadEscape: bool
    const key: array<char>
    var keyLength: nat
    var expectColon: bool
    var pendingAcKey: bool
    var expectAcValue: bool
    var seenAc: bool
    var inAc: bool
    var acComplete: bool
    var acExpectObject: bool
    var acAnyObject: bool
    var capturingObject: bool
    const captured: array<char>
    var capturedLength: nat
    var error: Option<Error>
    const candidates: array<Aircraft>
    var candidateCount: nat

    /** The buffers have the source's sizes and the counters stay inside them. */
    ghost predicate Shape()
      reads this
    {
      && closing.Length == MAX_DEPTH && key.Length == KEY_BYTES && captured.Length == MAX_OBJECT_BYTES + 1
      && candidates.Length == MAX_AIRCRAFT
      && closing != key && closing != captured && key != captured
      && depth <= MAX_DEPTH && keyLength <= KEY_BYTES && capturedLength <= MAX_OBJECT_BYTES
      && candidateCount <= MAX_AIRCRAFT
    }

    /** The flags that exclude each other. */
    ghost predicate Consistent()
      reads this
    {
      && (capturingKey ==> inString)
      && (pendingAcKey ==> expectColon)
      && !(expectColon && expectAcValue)
      && (inString ==> !expectColon && !expectAcValue)
      && (seenAc <==> inAc || acComplete) && !(inAc && acComplete)
    }

    ghost predicate Valid()
      reads this
    {
      Shape() && (error == None ==> Consistent())
    }

    ghost function Repr(): set<object>
      reads this
    {
      {this, closing, key, captured, candidates}
    }

    ghost function ViewAwaits(): Await
      reads this
    {
      if expectColon then Colon(pendingAcKey) else if expectAcValue then AcArray else Anything
    }

    ghost function ViewAc(): Ac
      reads this
    {
      if inAc then Inside(acExpectObject, acAnyObject) else if acComplete then Complete else Unseen
    }

    ghost function ViewQuoted(): Option<Quoted>
      reads this, key
      requires Shape()
    {
      if !inString then None
      else Some(Quoted(escaped, if capturingKey then Some(Key(key[..keyLength], keyHadEscape)) else None))
    }

    ghost function View(): State
      reads this, closing, key, captured, candidates
      requires Shape()
    {
      State(rootStarted, rootComplete, closing[..depth], lastRootToken, ViewQuoted(), ViewAwaits(), ViewAc(),
            if capturingObject then Some(captured[..capturedLength]) else None,
            Tally(objects, rejected, candidates[..candidateCount]))
    }

    ghost function Model(): Parser
      reads this, closing, key, captured, candidates
      requires Shape()
    {
      Parser(bodyBytes, match error case Some(e) => Err(e) case None => Ok(View()))
    }

    constructor (judge: Judge)
      ensures Valid() && fresh(Repr() - {this})
      ensures this.judge == judge && Model() == FRESH
    {
      this.judge := judge;
      closing, key := new char[MAX_DEPTH], new char[KEY_BYTES];
      captured, candidates := new char[MAX_OBJECT_BYTES + 1], new Aircraft[MAX_AIRCRAFT](_ => NOBODY);
      bodyBytes, objects, rejected, depth, keyLength, capturedLength, candidateCount := 0, 0, 0, 0, 0, 0, 0;
      lastRootToken := '\0';
      rootStarted, rootComplete, inString, escaped := false, false, false, false;
      capturingKey, keyHadEscape, expectColon, pendingAcKey := false, false, false, false;
      expectAcValue, seenAc, inAc, acComplete := false, false, false, false;
      acExpectObject, acAnyObject, capturingObject := false, false, false;
      error := None;
    }

    /** Shifts the tail of the list up by one and drops what falls off the end. */
    method InsertCandidate(aircraft: Aircraft)
      requires Shape()
      modifies candidates, `candidateCount
      ensures Shape()
      ensures candidates[..candidateCount]
           == BoundedInsertion.Insert(Compare, MAX_AIRCRAFT, old(candidates[..candidateCount]), aircraft)
    {
      hide Compare, BoundedInsertion.Insert;
      ghost var list := candidates[..candidateCount];
      var position := FindPosition(aircraft);
      if position >= MAX_AIRCRAFT {
        BoundedInsertion.InsertBehind(Compare, MAX_AIRCRAFT, list, aircraft);
        return;
      }
      MakeRoom(position, aircraft);
      BoundedInsertion.InsertedElements(Compare, MAX_AIRCRAFT, list, aircraft, position, candidates[..candidateCount]);
    }

    method MakeRoom(position: nat, aircraft: Aircraft)
      requires candidates.Length == MAX_AIRCRAFT
      requires position <= candidateCount <= MAX_AIRCRAFT && position < MAX_AIRCRAFT
      modifies candidates, `candidateCount
      ensures candidateCount == if old(candidateCount) < MAX_AIRCRAFT then old(candidateCount) + 1 else MAX_AIRCRAFT
      ensures forall i :: 0 <= i < position ==> candidates[i] == old(candidates[i])
      ensures candidates[position] == aircraft
      ensures forall i :: position < i < candidateCount ==> candidates[i] == old(candidates[i - 1])
    {
      if candidateCount < MAX_AIRCRAFT {
        candidateCount := candidateCount + 1;
      }
      forall i | position < i < candidateCount {
        candidates[i] := candidates[i - 1];
      }
      candidates[position] := aircraft;
    }

    method FindPosition(aircraft: Aircraft) returns (position: nat)
      requires Shape()
      ensures position == BoundedInsertion.Position(Compare, candidates[..candidateCount], aircraft)
    {
      hide Compare;
      ghost var list := candidates[..candidateCount];
      position := 0;
      while position < candidateCount && Compare(candidates[position], aircraft) <= 0
        invariant position <= candidateCount
        invariant forall i :: 0 <= i < position ==> Compare(list[i], aircraft) <= 0
      {
        position := position + 1;
      }
      BoundedInsertion.PositionUnique(Compare, list, aircraft, position);
    }
  
    /** After a step: the error it promised, or the state it promised. */
    ghost predicate Ends(r: Result<State, Error>, err: Option<Error>)
      reads this, closing, key, captured, candidates
    {
      && Shape()
      && match r
         case Ok(s) => err == None && Consistent() && View() == s
         case Err(e) => err == Some(e)
    }

    /** Hands the captured object over and counts it. */
    method ParseAircraft() returns (err: Option<Error>)
      requires Shape()
      modifies candidates, `candidateCount, `rejected
      ensures Shape()
      ensures match judge(captured[..capturedLength])
              case Malformed =>
                err == Some(InvalidResponse) && rejected == old(rejected) &&
                candidates[..candidateCount] == old(candidates[..candidateCount])
              case Rejected =>
                err == None && rejected == old(rejected) + 1 &&
                candidates[..candidateCount] == old(candidates[..candidateCount])
              case Accepted(a) =>
                err == None && rejected == old(rejected) &&
                candidates[..candidateCount]
                  == BoundedInsertion.Insert(Compare, MAX_AIRCRAFT, old(candidates[..candidateCount]), a)
    {
      match judge(captured[..capturedLength])
      case Malformed =>
        err := Some(InvalidResponse);
      case Rejected =>
        rejected := rejected + 1;
        err := None;
      case Accepted(a) =>
        InsertCandidate(a);
        err := None;
    }

    method IsAcKey() returns (isAc: bool)
      requires Shape()
      ensures isAc <==> !keyHadEscape && key[..keyLength] == "ac"
    {
      isAc := !keyHadEscape && keyLength == 2 && key[0] == 'a' && key[1] == 'c';
      assert keyLength == 2 ==> key[..keyLength] == [key[0], key[1]];
    }

    /** The closing quote of a root key: it is now known to be "ac" or not. */
    method EndKeyString()
      requires Shape() && Consistent() && inString && capturingKey
      modifies `inString, `pendingAcKey, `expectColon, `capturingKey
      ensures Shape() && Consistent()
      ensures View() == old(View()).(
                quoted := None, awaits := Colon(!old(keyHadEscape) && old(key[..keyLength]) == "ac"))
    {
      pendingAcKey := IsAcKey();
      inString := false;
      expectColon := true;
      capturingKey := false;
    }

    method EndPlainString()
      requires Shape() && Consistent() && inString && !capturingKey
      modifies `inString
      ensures Shape() && Consistent()
      ensures View() == old(View()).(quoted := None)
    {
      inString := false;
    }

    method KeepKeyByte(b: char)
      requires Shape() && Consistent() && inString && capturingKey && keyLength < KEY_BYTES
      modifies `keyLength, key
      ensures Shape() && Consistent()
      ensures View() == old(View()).(
                quoted := Some(Quoted(old(escaped), Some(Key(old(key[..keyLength]) + [b], old(keyHadEscape))))))
    {
      key[keyLength] := b;
      keyLength := keyLength + 1;
      assert key[..keyLength] == old(key[..keyLength]) + [b];
    }

    method StartEscape()
      requires Shape() && Consistent() && inString
      modifies `escaped
      ensures Shape() && Consistent()
      ensures View() == old(View()).(quoted := Some(old(View()).quoted.value.(escaped := true)))
    {
      escaped := true;
    }

    method EndEscape()
      requires Shape() && Consistent() && inString && escaped
      modifies `escaped, `keyHadEscape
      ensures Shape() && Consistent()
      ensures View() == old(View()).(quoted := Some(Quoted(false,
                          match old(View()).quoted.value.key case None => None
                          case Some(k) => Some(Key(k.text, true)))))
    {
      escaped := false;
      if capturingKey {
        keyHadEscape := true;
      }
    }

    method FeedQuoted(b: char) returns (err: Option<Error>)
      requires Shape() && Consistent() && inString
      modifies `escaped, `keyHadEscape, `inString, `pendingAcKey, `expectColon, `capturingKey,
               `lastRootToken, `keyLength, key
      ensures Ends(StepQuoted(old(View()), b), err)
    {
      ghost var q := View().quoted.value;
      assert q == ViewQuoted().value && q.escaped == escaped;
      assert q.key == if capturingKey then Some(Key(key[..keyLength], keyHadEscape)) else None;
      hide View, ViewQuoted, ViewAc, ViewAwaits;
      err := None;
      if escaped {
        EndEscape();
      } else if b == '\\' {
        StartEscape();
      } else if b == '"' {
        if capturingKey {
          EndKeyString();
        } else {
          EndPlainString();
        }
        RememberRootToken(b);
      } else if b < ' ' {
        err := Some(InvalidResponse);
      } else if capturingKey && keyLength < KEY_BYTES {
        KeepKeyByte(b);
      }
    }

    /** Inside the aircraft array only objects, commas and the end may stand. */
    method FeedList(b: char) returns (err: Option<Error>)
      requires Shape() && Consistent() && inAc
      modifies `acExpectObject
      ensures match StepList(old(ViewAc()), b)
              case Ok(ac) => err == None && ViewAc() == ac
              case Err(e) => err == Some(e)
    {
      err := None;
      if b == '{' {
        if !acExpectObject {
          return Some(InvalidResponse);
        }
        acExpectObject := false;
      } else if b == ',' {
        if acExpectObject || !acAnyObject {
          return Some(InvalidResponse);
        }
        acExpectObject := true;
      } else if b == ']' {
        if acExpectObject && acAnyObject {
          return Some(InvalidResponse);
        }
      } else {
        return Some(InvalidResponse);
      }
    }

    method StartCapture()
      requires Shape() && Consistent()
      modifies `capturingObject, `capturedLength, captured
      ensures Shape() && Consistent()
      ensures View() == old(View()).(capture := Some(['{']))
    {
      capturingObject := true;
      capturedLength := 1;
      captured[0] := '{';
      assert captured[..capturedLength] == ['{'];
    }

    method Push(b: char)
      requires Shape() && Consistent() && depth < MAX_DEPTH && Opens(b)
      modifies closing, `depth
      ensures Shape() && Consistent()
      ensures View() == old(View()).(closing := old(View()).closing + [Close(b)])
    {
      closing[depth] := if b == '{' then '}' else ']';
      depth := depth + 1;
      assert closing[..depth] == old(closing[..depth]) + [Close(b)];
    }

    method RememberRootToken(b: char)
      requires Shape() && Consistent()
      modifies `lastRootToken
      ensures Shape() && Consistent()
      ensures View() == Remember(old(View()), b)
    {
      if depth == 1 {
        lastRootToken := b;
      }
    }

    method FeedOpen(b: char) returns (err: Option<Error>)
      requires Shape() && Consistent() && Opens(b)
      modifies `capturingObject, `capturedLength, captured, closing, `depth, `lastRootToken
      ensures Ends(StepOpen(old(View()), b), err)
    {
      if depth >= MAX_DEPTH {
        return Some(InvalidSize);
      }
      if inAc && depth == 2 && b == '{' {
        StartCapture();
      }
      Push(b);
      RememberRootToken(b);
      err := None;
    }

    method Pop()
      requires Shape() && Consistent() && depth > 0
      modifies `depth
      ensures Shape() && Consistent()
      ensures View() == old(View()).(closing := Init(old(View()).closing))
    {
      depth := depth - 1;
    }

    /** The end of a captured object. */
    method CountObject()
      requires Shape() && Consistent() && capturingObject
      modifies `capturingObject, `acAnyObject, `objects
      ensures Shape() && Consistent()
      ensures var ac := old(View()).ac;
              View() == old(View()).(capture := None,
                                     ac := if ac.Inside? then ac.(anyObject := true) else ac,
                                     tally := old(View()).tally.(objects := old(objects) + 1))
    {
      capturingObject := false;
      acAnyObject := true;
      objects := objects + 1;
    }

    method EndObject() returns (err: Option<Error>)
      requires Shape() && Consistent() && capturingObject
      modifies `capturingObject, `acAnyObject, `objects, `rejected, `candidateCount, candidates
      ensures Ends(match AddObject(judge, old(View()).tally, old(View()).capture.value)
                   case Err(e) => Err(e)
                   case Ok(t) => var ac := old(View()).ac;
                                 Ok(old(View()).(capture := None, tally := t,
                                                 ac := if ac.Inside? then ac.(anyObject := true) else ac)),
                   err)
    {
      CountObject();
      if objects > MAX_OBJECTS {
        return Some(InvalidSize);
      }
      ghost var s := View();
      err := ParseAircraft();
      assert View() == s.(tally := Tally(objects, rejected, candidates[..candidateCount]));
    }

    method EndList()
      requires Shape() && Consistent() && inAc
      modifies `inAc, `acComplete
      ensures Shape() && Consistent()
      ensures View() == old(View()).(ac := Complete)
    {
      inAc := false;
      acComplete := true;
    }

    method EndRoot()
      requires Shape() && Consistent()
      modifies `rootComplete
      ensures Shape() && Consistent()
      ensures View() == old(View()).(complete := true)
    {
      rootComplete := true;
    }

    /** The fields the parser branches on, in terms of the state. */
    lemma ViewFacts()
      requires Shape() && Consistent()
      ensures |View().closing| == depth && (depth > 0 ==> Last(View().closing) == closing[depth - 1])
      ensures View().ac.Inside? == inAc && View().capture.Some? == capturingObject
      ensures View().quoted.Some? == inString && View().awaits == ViewAwaits()
      ensures View().complete == rootComplete && View().started == rootStarted && View().last == lastRootToken
      ensures capturingObject ==> |View().capture.value| == capturedLength
      ensures (View().ac == Unseen) == !seenAc
    {}

    method FeedClose(b: char) returns (err: Option<Error>)
      requires Shape() && Consistent() && Closes(b)
      modifies `inAc, `acComplete, `depth, `capturingObject, `acAnyObject, `objects, `rootComplete,
               `lastRootToken, `rejected, `candidateCount, candidates
      ensures Ends(StepClose(judge, old(View()), b), err)
    {
      hide View, ViewQuoted, ViewAc, ViewAwaits, AddObject;
      ViewFacts();
      if depth == 0 || closing[depth - 1] != b {
        return Some(InvalidResponse);
      }
      if b == ']' && inAc && depth == 2 {
        EndList();
      }
      Pop();
      ViewFacts();
      if capturingObject && depth == 2 && b == '}' {
        err := EndObject();
        return;
      }
      if depth == 0 {
        if b != '}' {
          return Some(InvalidResponse);
        }
        EndRoot();
      }
      RememberRootToken(b);
      err := None;
    }
  
    method FeedStructure(b: char) returns (err: Option<Error>)
      requires Shape() && Consistent()
      modifies `capturingObject, `capturedLength, captured, closing, `depth, `lastRootToken, `acExpectObject,
               `inAc, `acComplete, `acAnyObject, `objects, `rootComplete, `rejected, `candidateCount, candidates
      ensures Ends(StepStructure(judge, old(View()), b), err)
    {
      ghost var s := View();
      ViewFacts();
      if inAc && depth == 2 {
        err := FeedList(b);
        if err.Some? {
          return;
        }
      }
      ghost var ac := if s.ac.Inside? && |s.closing| == 2 then StepList(s.ac, b) else Ok(s.ac);
      assert ac.Ok? && View() == s.(ac := ac.value);
      hide View, ViewQuoted, ViewAc, ViewAwaits, StepOpen, StepClose, StepList;
      if Opens(b) {
        err := FeedOpen(b);
      } else if Closes(b) {
        err := FeedClose(b);
      } else {
        RememberRootToken(b);
        err := None;
      }
    }

    /** A colon after a root key. */
    method EndKey()
      requires Shape() && Consistent() && expectColon
      modifies `expectColon, `expectAcValue, `pendingAcKey, `lastRootToken
      ensures Shape() && Consistent()
      ensures View() == old(View()).(last := ':', awaits := if old(pendingAcKey) then AcArray else Anything)
    {
      expectColon := false;
      expectAcValue := pendingAcKey;
      pendingAcKey := false;
      lastRootToken := ':';
    }

    method StartList()
      requires Shape() && Consistent() && expectAcValue && !seenAc
      modifies `seenAc, `inAc, `acExpectObject, `acAnyObject, `expectAcValue
      ensures Shape() && Consistent()
      ensures View() == old(View()).(awaits := Anything, ac := Inside(true, false))
    {
      seenAc := true;
      inAc := true;
      acExpectObject := true;
      acAnyObject := false;
      expectAcValue := false;
    }

    method ResetKey()
      requires Shape() && Consistent() && !inString
      modifies `escaped, `keyLength, `keyHadEscape
      ensures Shape() && Consistent() && !escaped && keyLength == 0 && !keyHadEscape
      ensures View() == old(View())
    {
      escaped := false;
      keyLength := 0;
      keyHadEscape := false;
    }

    method StartString()
      requires Shape() && Consistent() && !inString && !expectColon && !expectAcValue
      modifies `inString, `escaped, `keyLength, `keyHadEscape, `capturingKey
      ensures Shape() && Consistent()
      ensures var key := old(depth) == 1 && (old(lastRootToken) == '{' || old(lastRootToken) == ',');
              View() == old(View()).(quoted := Some(Quoted(false, if key then Some(Key([], false)) else None)))
    {
      ResetKey();
      inString := true;
      capturingKey := depth == 1 && (lastRootToken == '{' || lastRootToken == ',');
      assert key[..keyLength] == [];
    }

    method FeedToken(b: char) returns (err: Option<Error>)
      requires Shape() && Consistent() && !inString
      modifies `capturingObject, `capturedLength, captured, closing, `depth, `lastRootToken, `acExpectObject,
               `inAc, `acComplete, `acAnyObject, `objects, `rootComplete, `rejected, `candidateCount, candidates,
               `expectColon, `expectAcValue, `pendingAcKey, `seenAc, `inString, `escaped, `keyLength,
               `keyHadEscape, `capturingKey
      ensures Ends(StepToken(judge, old(View()), b), err)
    {
      hide View, ViewQuoted, ViewAc, StepStructure;
      ViewFacts();
      if expectColon {
        if b != ':' {
          return Some(InvalidResponse);
        }
        EndKey();
        return None;
      }
      if expectAcValue {
        if b != '[' || seenAc || depth != 1 {
          return Some(InvalidResponse);
        }
        StartList();
      }
      if b == '"' {
        StartString();
        return None;
      }
      err := FeedStructure(b);
    }

    method Capture(b: char)
      requires Shape() && Consistent() && capturingObject && capturedLength < MAX_OBJECT_BYTES
      modifies captured, `capturedLength
      ensures Shape() && Consistent()
      ensures View() == old(View()).(capture := Some(old(View()).capture.value + [b]))
    {
      captured[capturedLength] := b;
      capturedLength := capturedLength + 1;
      assert captured[..capturedLength] == old(captured[..capturedLength]) + [b];
    }

    method StartRoot()
      requires Shape() && Consistent()
      modifies `rootStarted
      ensures Shape() && Consistent()
      ensures View() == old(View()).(started := true)
    {
      rootStarted := true;
    }

    method FeedByte(b: char) returns (err: Option<Error>)
      requires Valid() && error == None
      modifies Repr()
      ensures Ends(Step(judge, old(View()), b), err)
      ensures bodyBytes == old(bodyBytes) && error == old(error)
    {
      hide View, ViewQuoted, ViewAc, ViewAwaits, StepToken, StepQuoted;
      ViewFacts();
      if rootComplete {
        return if Whitespace(b) then None else Some(InvalidResponse);
      }
      if capturingObject {
        if capturedLength >= MAX_OBJECT_BYTES {
          return Some(InvalidSize);
        }
        Capture(b);
      }
      ViewFacts();
      if inString {
        err := FeedQuoted(b);
        return;
      }
      if Whitespace(b) {
        return None;
      }
      if !rootStarted && b != '{' {
        return Some(InvalidResponse);
      }
      StartRoot();
      err := FeedToken(b);
    }

    /** A chunk of the response: refused whole if the body grows too long. */
    method Feed(data: seq<char>) returns (err: Option<Error>)
      requires Valid()
      modifies Repr()
      ensures Valid() && Model() == StreamSpec.Feed(judge, old(Model()), data) && err == error
    {
      if error.Some? {
        return error;
      }
      if |data| > MAX_BODY_BYTES - bodyBytes {
        error := Some(InvalidSize);
        return error;
      }
      bodyBytes := bodyBytes + |data|;
      ghost var from := View();
      assert from == old(View());
      assert data[..0] == [];
      var index := 0;
      while index < |data|
        invariant index <= |data| && Valid() && error == None
        invariant bodyBytes == old(bodyBytes) + |data|
        invariant Run(judge, from, data[..index]) == Ok(View())
      {
        hide View, Step, Run;
        RunNext(from, data, index, View());
        error := FeedByte(data[index]);
        if error.Some? {
          RunStops(from, data, index + 1, error.value);
          return error;
        }
        index := index + 1;
      }
      assert data[..index] == data;
      err := None;
    }

    lemma RunNext(from: State, data: seq<char>, index: nat, s: State)
      requires index < |data| && Run(judge, from, data[..index]) == Ok(s)
      ensures Run(judge, from, data[..index + 1]) == Step(judge, s, data[index])
    {
      assert Init(data[..index + 1]) == data[..index] && Last(data[..index + 1]) == data[index];
    }

    lemma RunStops(from: State, data: seq<char>, index: nat, e: Error)
      requires index <= |data| && Run(judge, from, data[..index]) == Err(e)
      ensures Run(judge, from, data) == Err(e)
    {
      assert data[..index] + data[index..] == data;
      RunConcat(judge, from, data[..index], data[index..]);
    }

    /** The verdict, once the response has ended. */
    method Finish() returns (r: Result<Report, Error>)
      requires Valid()
      ensures r == StreamSpec.Finish(Model())
    {
      if error.Some? {
        return Err(error.value);
      }
      if !rootComplete || inString || depth != 0 || !seenAc || !acComplete || capturingObject ||
         expectColon || expectAcValue {
        return Err(InvalidResponse);
      }
      r := Ok(Report(candidateCount > 0, objects, candidateCount, rejected, bodyBytes, candidates[..candidateCount]));
    }
  }
}
