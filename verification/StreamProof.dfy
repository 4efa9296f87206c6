/** The stream parser lets through exactly the admitted histories, byte by byte. */
module StreamProof {
  import opened Common
  import opened Body
  import opened Response
  import opened StreamSpec
  import opened StreamHistory

  /** One byte: the parser goes on exactly when the grown history is admitted,
      and is then in that history's state. */
  ghost predicate Matches(judge: Judge, h: Hist, b: char)
    requires Admitted(judge, h)
  {
    match Step(judge, StateOf(judge, h), b)
    case Ok(s) => Grow(h, b).Some? && Admitted(judge, Grow(h, b).value) && s == StateOf(judge, Grow(h, b).value)
    case Err(_) => Grow(h, b) == None || !Admitted(judge, Grow(h, b).value)
  }

  lemma AfterRoot(judge: Judge, h: Hist, b: char)
    requires Admitted(judge, h) && h.root.Some?
    ensures Matches(judge, h, b)
  {
    LastSpace(h.trail, b);
  }

  lemma BeforeRoot(judge: Judge, h: Hist, b: char)
    requires Admitted(judge, h) && h.root == None && h.stack == Base
    ensures Matches(judge, h, b)
  {
    hide ObjectTexts, ScanAc, RootNext, OpenText;
    LastSpace(h.lead, b);
    if b == '{' {
      assert RootItems(Open(Base, '{', Nil)) == Nil;
    }
  }

  /** What putting a token into the innermost group does to each level. */
  lemma PutLevels(stack: Stack, t: Token)
    requires stack.Open?
    ensures var put := Put(stack, t);
            && Depth(put) == Depth(stack) && Closings(put) == Closings(stack)
            && (Depth(stack) == 1 ==> RootItems(put) == Snoc(RootItems(stack), t))
            && (Depth(stack) >= 2 ==> RootItems(put) == RootItems(stack) && InList(put) == InList(stack))
            && (Depth(stack) == 2 ==> Level(put, 1).items == Snoc(Level(stack, 1).items, t))
            && (Depth(stack) >= 2 ==> Level(put, 1).open == Level(stack, 1).open)
            && (Depth(stack) >= 3 ==> Level(put, 1) == Level(stack, 1) && Level(put, 2).open == Level(stack, 2).open)
  {}

  lemma PutShape(h: Hist, t: Token)
    requires ShapeOk(h) && h.root == None && h.stack.Open? && TokenOk(t, Depth(h.stack))
    ensures ShapeOk(h.(stack := Put(h.stack, t), str := None))
  {}

  /** A token that no scan notices changes nothing but the captured text. */
  lemma PutUnnoticed(judge: Judge, h: Hist, t: Token)
    requires Admitted(judge, h) && h.root == None && h.stack.Open? && TokenOk(t, Depth(h.stack))
    requires Depth(h.stack) == 1 ==> Space(t)
    requires Depth(h.stack) == 2 && InList(h.stack) ==> Space(t) || t.Str?
    ensures var g := h.(stack := Put(h.stack, t), str := None);
            && ShapeOk(g) && ScansOk(g) && Objects(g) == Objects(h) && Capturing(g) == Capturing(h)
            && (Admitted(judge, g) ==>
                  StateOf(judge, g) == StateOf(judge, h).(quoted := None, capture := StateOf(judge, g).capture))
  {
    hide Closings, OpenText;
    PutLevels(h.stack, t);
    PutShape(h, t);
  }

  lemma CaptureGrows(judge: Judge, h: Hist, b: char)
    requires Admitted(judge, h) && h.root == None && h.stack.Open?
    requires Grow(h, b).Some? && Capturing(h) && Capturing(Grow(h, b).value)
    ensures OpenText(Grow(h, b).value, 2) == OpenText(h, 2) + [b]
    ensures StateOf(judge, h).capture == Some(OpenText(h, 2))
  {
    GrowOpenText(h, b, 2);
  }

  lemma SpaceByte(judge: Judge, h: Hist, b: char)
    requires Admitted(judge, h) && h.root == None && h.str == None && h.stack.Open? && Whitespace(b)
    ensures Matches(judge, h, b)
  {
    PutUnnoticed(judge, h, Atom(b));
    var g := h.(stack := Put(h.stack, Atom(b)), str := None);
    assert Grow(h, b) == Some(g);
    if Capturing(h) { CaptureGrows(judge, h, b); }
    SpaceStep(judge, h, b);
    InnerAdmitted(judge, h, h, g, b);
    if Admitted(judge, g) { CaptureState(judge, g); }
    hide Step, StateOf, Admitted, Grow, ScanStr, ScanRoot, Objects, ScansOk, ShapeOk;
  }

  lemma SpaceStep(judge: Judge, h: Hist, b: char)
    requires Admitted(judge, h) && h.root == None && h.str == None && h.stack.Open? && Whitespace(b)
    ensures StateOf(judge, h).quoted == None
    ensures Step(judge, StateOf(judge, h), b) ==
              if Full(h) then Err(InvalidSize) else Ok(Appended(judge, h, b))
  {}

  lemma StringGrows(h: Hist, b: char)
    requires ShapeOk(h) && h.str.Some?
    ensures var more := h.str.value + [b];
            && ScanStr(more) == StrNext(ScanStr(h.str.value).value, b)
            && (ScanStr(more).Some? <==> ShapeOk(h.(str := Some(more))))
  {
    var raw := h.str.value;
    assert Init(raw + [b]) == raw && Last(raw + [b]) == b;
  }

  /** A longer string changes only the string and the captured text. */
  lemma StringUnnoticed(judge: Judge, h: Hist, str: Option<seq<char>>)
    requires Admitted(judge, h) && h.str.Some? && str.Some? && ShapeOk(h.(str := str))
    ensures var g := h.(str := str);
            && ScansOk(g) && Objects(g) == Objects(h) && Capturing(g) == Capturing(h)
            && (Admitted(judge, g) ==>
                  StateOf(judge, g) == StateOf(judge, h).(quoted := QuotedOf(g), capture := StateOf(judge, g).capture))
  {}

  lemma InString(judge: Judge, h: Hist, b: char)
    requires Admitted(judge, h) && h.str.Some?
    requires b != '"' || ScanStr(h.str.value).value.escaped
    ensures Matches(judge, h, b)
  {
    StringGrows(h, b);
    if ScanStr(h.str.value + [b]).Some? {
      StringGoesOn(judge, h, b);
    } else {
      assert StepQuoted(StateOf(judge, h), b).Err?;
      assert !ShapeOk(Grow(h, b).value);
    }
  }

  /** The state with the byte already captured, as the parser's inner steps see it. */
  function Appended(judge: Judge, h: Hist, b: char): State
    requires Admitted(judge, h)
  {
    StateOf(judge, h).(capture := if Capturing(h) then Some(OpenText(h, 2) + [b]) else None)
  }

  predicate Full(h: Hist) { Capturing(h) && |OpenText(h, 2)| >= MAX_OBJECT_BYTES }

  lemma StringGoesOn(judge: Judge, h: Hist, b: char)
    requires Admitted(judge, h) && h.str.Some? && ScanStr(h.str.value + [b]).Some?
    requires b != '"' || ScanStr(h.str.value).value.escaped
    ensures Matches(judge, h, b)
  {
    StringGrows(h, b);
    var g := h.(str := Some(h.str.value + [b]));
    assert Grow(h, b) == Some(g);
    StringAdmitted(judge, h, b, g);
    StepInString(judge, h, b);
    hide Step, StateOf, Admitted, Grow, StepQuoted, ScanStr, StrNext, Capturing;
    if !Full(h) { QuotedStep(Appended(judge, h, b), h, b, g); }
  }

  lemma StepInString(judge: Judge, h: Hist, b: char)
    requires Admitted(judge, h) && h.str.Some?
    ensures Step(judge, StateOf(judge, h), b) ==
              if Full(h) then Err(InvalidSize) else StepQuoted(Appended(judge, h, b), b)
    ensures Appended(judge, h, b).quoted == QuotedOf(h)
  {}

  lemma StringAdmitted(judge: Judge, h: Hist, b: char, g: Hist)
    requires Admitted(judge, h) && h.str.Some? && ShapeOk(g)
    requires g == h.(str := Some(h.str.value + [b])) && Grow(h, b) == Some(g)
    ensures Admitted(judge, g) <==> !Full(h)
    ensures !Full(h) ==> StateOf(judge, g) == Appended(judge, h, b).(quoted := QuotedOf(g))
  {
    StringUnnoticed(judge, h, g.str);
    if Capturing(h) { CaptureGrows(judge, h, b); }
  }

  lemma QuotedStep(s: State, h: Hist, b: char, g: Hist)
    requires ShapeOk(h) && h.str.Some? && s.quoted == QuotedOf(h)
    requires b != '"' || ScanStr(h.str.value).value.escaped
    requires g == h.(str := Some(h.str.value + [b])) && ShapeOk(g)
    requires ScanStr(g.str.value) == StrNext(ScanStr(h.str.value).value, b)
    ensures StepQuoted(s, b) == Ok(s.(quoted := QuotedOf(g)))
  {}

  lemma QuoteGrows(judge: Judge, h: Hist, g: Hist)
    requires Admitted(judge, h) && h.root == None && h.str == None && h.stack.Open? && g == h.(str := Some([]))
    ensures Grow(h, '"') == Some(g) && ShapeOk(g)
    ensures Objects(g) == Objects(h) && Capturing(g) == Capturing(h)
    ensures ScansOk(g) <==> Appended(judge, h, '"').awaits == Anything
    ensures QuotedOf(g) == Some(Quoted(false, if Depth(h.stack) == 1 && LastRoot(h.stack) in {'{', ','}
                                              then Some(Key([], false)) else None))
  {
    hide Closings, TextAll, ScanAc;
  }

  lemma QuoteStarts(judge: Judge, h: Hist, g: Hist)
    requires Admitted(judge, h) && h.root == None && h.str == None && h.stack.Open? && g == h.(str := Some([]))
    requires Grow(h, '"') == Some(g) && ShapeOk(g) && Objects(g) == Objects(h) && Capturing(g) == Capturing(h)
    ensures Admitted(judge, g) <==> ScansOk(g) && !Full(h)
    ensures Admitted(judge, g) ==> StateOf(judge, g) == Appended(judge, h, '"').(quoted := QuotedOf(g))
  {
    hide ShapeOk, Objects, ObjectsOk;
    if Capturing(h) { CaptureGrows(judge, h, '"'); }
  }

  lemma QuoteStep(judge: Judge, s: State)
    ensures StepToken(judge, s, '"') ==
              if s.awaits != Anything then Err(InvalidResponse)
              else Ok(s.(quoted := Some(Quoted(false, if |s.closing| == 1 && s.last in {'{', ','}
                                                      then Some(Key([], false)) else None))))
  {}

  lemma QuoteByte(judge: Judge, h: Hist)
    requires Admitted(judge, h) && h.root == None && h.str == None && h.stack.Open?
    ensures Matches(judge, h, '"')
  {
    hide Step, StateOf, Admitted, Appended, StepToken, Grow, ScansOk, ShapeOk, Objects, Capturing, LastRoot, QuotedOf;
    var g, s := h.(str := Some([])), Appended(judge, h, '"');
    QuoteGrows(judge, h, g);
    QuoteStarts(judge, h, g);
    QuoteStep(judge, s);
    StepInside(judge, h, '"');
    LastIs(judge, h);
  }

  lemma LastIs(judge: Judge, h: Hist)
    requires Admitted(judge, h) && h.root == None && h.stack.Open?
    ensures var s := Appended(judge, h, '"'); |s.closing| == Depth(h.stack) && s.last == LastRoot(h.stack)
  {}

  /** Short of escapes, what a key kept is the head of the string. */
  lemma {:induction false} KeyIsHead(raw: seq<char>)
    requires ScanStr(raw).Some? && !ScanStr(raw).value.escaped && !ScanStr(raw).value.hadEscape
    ensures ScanStr(raw).value.key == if |raw| <= KEY_BYTES then raw else raw[..KEY_BYTES]
  {
    if raw != [] {
      assert raw == Init(raw) + [Last(raw)];
      KeyIsHead(Init(raw));
    }
  }

  lemma {:induction false} EscapeStays(raw: seq<char>)
    requires ScanStr(raw).Some? && (ScanStr(raw).value.escaped || ScanStr(raw).value.hadEscape)
    ensures '\\' in raw
  {
    if Last(raw) != '\\' { EscapeStays(Init(raw)); }
  }

  /** The key test of the parser is the plain comparison with "ac". */
  lemma KeyTest(raw: seq<char>)
    requires StrOk(raw)
    ensures var s := ScanStr(raw).value; (!s.hadEscape && s.key == "ac") <==> raw == "ac"
  {
    if ScanStr(raw).value.hadEscape {
      EscapeStays(raw);
    } else {
      KeyIsHead(raw);
    }
  }

  /** A root-level token the scan takes notice of. */
  lemma PutAtRoot(judge: Judge, h: Hist, t: Token)
    requires Admitted(judge, h) && h.root == None && Depth(h.stack) == 1 && TokenOk(t, 1)
    requires !Space(t) && !t.Group?
    ensures var g := h.(stack := Put(h.stack, t), str := None);
            var next := RootNext(ScanRoot(RootItems(h.stack)).value, t);
            && (Admitted(judge, g) <==> next.Some?)
            && (next.Some? ==>
                  StateOf(judge, g) ==
                  StateOf(judge, h).(quoted := None, last := next.value.last, awaits := next.value.awaits))
  {
    PutLevels(h.stack, t);
    PutShape(h, t);
    var g := h.(stack := Put(h.stack, t), str := None);
    assert ScanRoot(RootItems(g.stack)) == RootNext(ScanRoot(RootItems(h.stack)).value, t);
  }

  /** A comma, or something not allowed, directly in the aircraft array. */
  lemma PutInList(judge: Judge, h: Hist, b: char)
    requires Admitted(judge, h) && h.root == None && h.str == None && Depth(h.stack) == 2 && InList(h.stack)
    requires TokenOk(Atom(b), 2) && !Whitespace(b)
    ensures var g := h.(stack := Put(h.stack, Atom(b)), str := None);
            var next := AcNext(ScanAc(Level(h.stack, 1).items).value, Atom(b));
            && (Admitted(judge, g) <==> next.Some?)
            && (next.Some? ==>
                  StateOf(judge, g) == StateOf(judge, h).(ac := Inside(next.value.expectObject, next.value.anyObject)))
  {
    PutLevels(h.stack, Atom(b));
    PutShape(h, Atom(b));
    var g := h.(stack := Put(h.stack, Atom(b)), str := None);
    assert ScanAc(Level(g.stack, 1).items) == AcNext(ScanAc(Level(h.stack, 1).items).value, Atom(b));
  }

  lemma OtherAtRoot(judge: Judge, h: Hist, b: char)
    requires Admitted(judge, h) && h.root == None && h.str == None && Depth(h.stack) == 1
    requires !Whitespace(b) && b != '"' && !Opens(b) && !Closes(b)
    ensures Matches(judge, h, b)
  {
    hide Step, StateOf, Admitted, ScanRoot, Appended, StepToken, RootNext, InList;
    var g := h.(stack := Put(h.stack, Atom(b)));
    RootFacts(judge, h, b);
    PutAtRoot(judge, h, Atom(b));
    StepInside(judge, h, b);
    AppendedFacts(judge, h, b);
    RootByte(judge, Appended(judge, h, b), ScanRoot(RootItems(h.stack)).value, b);
    assert Grow(h, b) == Some(g);
    hide Grow;
  }

  lemma RootFacts(judge: Judge, h: Hist, b: char)
    requires Admitted(judge, h) && h.root == None && h.str == None && Depth(h.stack) == 1
    ensures ScanRoot(RootItems(h.stack)).Some?
    ensures var r := ScanRoot(RootItems(h.stack)).value;
            && StateOf(judge, h).last == r.last && StateOf(judge, h).awaits == r.awaits
            && Appended(judge, h, b) == StateOf(judge, h) && !Full(h) && StateOf(judge, h).quoted == None
            && |StateOf(judge, h).closing| == 1 && !StateOf(judge, h).ac.Inside?
  {}

  lemma RootByte(judge: Judge, s: State, r: RootScan, b: char)
    requires |s.closing| == 1 && s.last == r.last && s.awaits == r.awaits && !s.ac.Inside?
    requires !Whitespace(b) && b != '"' && !Opens(b) && !Closes(b)
    ensures var next := RootNext(r, Atom(b));
            StepToken(judge, s, b) ==
              if next.Some? then Ok(s.(last := next.value.last, awaits := next.value.awaits))
              else Err(InvalidResponse)
  {}

  lemma OtherInList(judge: Judge, h: Hist, b: char)
    requires Admitted(judge, h) && h.root == None && h.str == None && Depth(h.stack) == 2 && InList(h.stack)
    requires !Whitespace(b) && b != '"' && !Opens(b) && !Closes(b)
    ensures Matches(judge, h, b)
  {
    hide Step, StateOf, Admitted, ScanAc, ScanRoot, Appended, StepToken, AcNext, InList;
    var g := h.(stack := Put(h.stack, Atom(b)));
    ListFacts(judge, h, b);
    PutInList(judge, h, b);
    StepInside(judge, h, b);
    ListByte(judge, Appended(judge, h, b), ScanAc(Level(h.stack, 1).items).value, b);
    AppendedIdle(judge, h, b);
    assert Grow(h, b) == Some(g);
    hide Grow;
  }

  lemma AppendedIdle(judge: Judge, h: Hist, b: char)
    requires Admitted(judge, h) && h.root == None && h.str == None && h.stack.Open? && !Capturing(h)
    ensures Appended(judge, h, b) == StateOf(judge, h)
  {}

  lemma ListByte(judge: Judge, s: State, a: AcScan, b: char)
    requires |s.closing| == 2 && s.awaits == Anything && s.ac == Inside(a.expectObject, a.anyObject)
    requires !Whitespace(b) && b != '"' && !Opens(b) && !Closes(b)
    ensures var next := AcNext(a, Atom(b));
            StepToken(judge, s, b) ==
              if next.Some? then Ok(s.(ac := Inside(next.value.expectObject, next.value.anyObject)))
              else Err(InvalidResponse)
  {}

  lemma OtherInside(judge: Judge, h: Hist, b: char)
    requires Admitted(judge, h) && h.root == None && h.str == None && Depth(h.stack) >= 2
    requires !(Depth(h.stack) == 2 && InList(h.stack))
    requires !Whitespace(b) && b != '"' && !Opens(b) && !Closes(b)
    ensures Matches(judge, h, b)
  {
    hide Closings, OpenText;
    PutUnnoticed(judge, h, Atom(b));
    if Capturing(h) { CaptureGrows(judge, h, b); }
  }

  lemma OtherByte(judge: Judge, h: Hist, b: char)
    requires Admitted(judge, h) && h.root == None && h.str == None && h.stack.Open?
    requires !Whitespace(b) && b != '"' && !Opens(b) && !Closes(b)
    ensures Matches(judge, h, b)
  {
    if Depth(h.stack) == 1 {
      OtherAtRoot(judge, h, b);
    } else if Depth(h.stack) == 2 && InList(h.stack) {
      OtherInList(judge, h, b);
    } else {
      OtherInside(judge, h, b);
    }
  }

  lemma EndOfString(judge: Judge, h: Hist)
    requires Admitted(judge, h) && h.str.Some? && StrOk(h.str.value)
    ensures Matches(judge, h, '"')
  {
    if Depth(h.stack) == 1 { EndOfKey(judge, h); } else { EndOfText(judge, h); }
  }

  lemma EndOfKey(judge: Judge, h: Hist)
    requires Admitted(judge, h) && h.str.Some? && StrOk(h.str.value) && Depth(h.stack) == 1
    ensures Matches(judge, h, '"')
  {
    hide Closings, OpenText;
    PutAtRoot(judge, h, Str(h.str.value));
    KeyTest(h.str.value);
    var g := h.(stack := Put(h.stack, Str(h.str.value)), str := None);
    assert Grow(h, '"') == Some(g);
    var s, scan := StateOf(judge, h), ScanRoot(RootItems(h.stack)).value;
    var q := ScanStr(h.str.value).value;
    assert Step(judge, s, '"') == StepQuoted(s, '"');
    assert s.quoted == Some(Quoted(false, if scan.last == '{' || scan.last == ','
                                          then Some(Key(q.key, q.hadEscape)) else None));
    assert |s.closing| == 1 && s.awaits == scan.awaits == Anything;
    hide Step, StateOf, Admitted, Grow, ScanStr, ScanRoot;
  }

  lemma EndOfText(judge: Judge, h: Hist)
    requires Admitted(judge, h) && h.str.Some? && StrOk(h.str.value) && Depth(h.stack) >= 2
    ensures Matches(judge, h, '"')
  {
    PutUnnoticed(judge, h, Str(h.str.value));
    var g := h.(stack := Put(h.stack, Str(h.str.value)), str := None);
    assert Grow(h, '"') == Some(g);
    if Capturing(h) { CaptureGrows(judge, h, '"'); }
    TextEnds(judge, h);
    InnerAdmitted(judge, h, h, g, '"');
    if Admitted(judge, g) { CaptureState(judge, g); }
    hide Step, StateOf, Admitted, Grow, ScanStr, ScanRoot, Objects, ScansOk, ShapeOk;
  }

  lemma TextEnds(judge: Judge, h: Hist)
    requires Admitted(judge, h) && h.str.Some? && StrOk(h.str.value) && Depth(h.stack) >= 2
    ensures Step(judge, StateOf(judge, h), '"') ==
              if Full(h) then Err(InvalidSize) else Ok(Appended(judge, h, '"').(quoted := None))
  {}

  /** Without its innermost group, left empty of what came after it opened, a history stays admitted. */
  lemma BelowAdmitted(judge: Judge, h: Hist)
    requires Admitted(judge, h) && h.root == None && h.str == None && Depth(h.stack) >= 2
    ensures Admitted(judge, h.(stack := h.stack.below))
  {
    if Depth(h.stack) >= 4 && Capturing(h) {
      assert |TextAbove(h.stack.below, 2)| <= |TextAbove(h.stack, 2)|;
    }
  }

  lemma OpenLevels(stack: Stack, b: char)
    requires stack.Open?
    ensures var open := Open(stack, b, Nil);
            && Depth(open) == Depth(stack) + 1 && Closings(open) == Closings(stack) + [Close(b)]
            && RootItems(open) == RootItems(stack)
            && (Depth(stack) >= 2 ==> Level(open, 1) == Level(stack, 1) && InList(open) == InList(stack))
            && (Depth(stack) == 1 ==> Level(open, 1) == open)
            && (Depth(stack) == 2 ==> Level(open, 2) == open)
            && (Depth(stack) >= 3 ==> Level(open, 2) == Level(stack, 2))
  {}

  lemma OpenAtRoot(judge: Judge, h: Hist, b: char)
    requires Admitted(judge, h) && h.root == None && h.str == None && Depth(h.stack) == 1 && Opens(b)
    ensures Matches(judge, h, b)
  {
    OpenLevels(h.stack, b);
    var g := h.(stack := Open(h.stack, b, Nil));
    assert Grow(h, b) == Some(g) && ShapeOk(g);
    assert ObjectTexts(Level(g.stack, 1).items) == [];
  }

  lemma OpenState(judge: Judge, h: Hist, b: char)
    requires Admitted(judge, h) && h.root == None && h.str == None && Depth(h.stack) >= 2 && Opens(b)
    requires !(Depth(h.stack) == 2 && InList(h.stack))
    ensures var g := h.(stack := Open(h.stack, b, Nil));
            && Grow(h, b) == Some(g)
            && (Admitted(judge, g) <==> Depth(h.stack) < MAX_DEPTH && !Full(h))
            && (Admitted(judge, g) ==>
                  StateOf(judge, g) == Appended(judge, h, b).(closing := Closings(h.stack) + [Close(b)]))
  {
    hide OpenText, TextAll, ScanAc;
    OpenLevels(h.stack, b);
    var g := h.(stack := Open(h.stack, b, Nil));
    assert Grow(h, b) == Some(g) && (ShapeOk(g) <==> Depth(h.stack) < MAX_DEPTH);
    assert Objects(g) == Objects(h) && Capturing(g) == Capturing(h);
    if Capturing(h) { CaptureGrows(judge, h, b); }
  }

  lemma OpenStep(judge: Judge, s: State, b: char)
    requires Opens(b) && |s.closing| >= 2 && s.awaits == Anything
    requires |s.closing| == 2 ==> !s.ac.Inside?
    ensures StepToken(judge, s, b) ==
              if |s.closing| >= MAX_DEPTH then Err(InvalidSize)
              else Ok(s.(closing := s.closing + [Close(b)]))
  {}

  lemma OpenInside(judge: Judge, h: Hist, b: char)
    requires Admitted(judge, h) && h.root == None && h.str == None && Depth(h.stack) >= 2 && Opens(b)
    requires !(Depth(h.stack) == 2 && InList(h.stack))
    ensures Matches(judge, h, b)
  {
    OpenState(judge, h, b);
    StepInside(judge, h, b);
    OpenStep(judge, Appended(judge, h, b), b);
  }

  lemma OpenInList(judge: Judge, h: Hist, b: char)
    requires Admitted(judge, h) && h.root == None && h.str == None && Opens(b)
    requires Depth(h.stack) == 2 && InList(h.stack)
    ensures Matches(judge, h, b)
  {
    hide Step, StateOf, Admitted, ScanAc, ScanRoot, Appended, StepToken;
    var g := h.(stack := Open(h.stack, b, Nil));
    ListFacts(judge, h, b);
    ListOpened(judge, h, b, g);
    StepInside(judge, h, b);
    ListOpenStep(judge, Appended(judge, h, b), ScanAc(Level(h.stack, 1).items).value, b);
    assert Grow(h, b) == Some(g);
    hide Grow;
  }

  lemma ListFacts(judge: Judge, h: Hist, b: char)
    requires Admitted(judge, h) && h.root == None && h.str == None && Depth(h.stack) == 2 && InList(h.stack)
    ensures ScanAc(Level(h.stack, 1).items).Some? && !Capturing(h)
    ensures var s, a := Appended(judge, h, b), ScanAc(Level(h.stack, 1).items).value;
            && s.closing == Closings(h.stack) && s.awaits == Anything
            && s.ac == Inside(a.expectObject, a.anyObject)
  {}

  lemma ListOpenStep(judge: Judge, s: State, a: AcScan, b: char)
    requires Opens(b) && |s.closing| == 2 && s.awaits == Anything && s.ac == Inside(a.expectObject, a.anyObject)
    ensures StepToken(judge, s, b) ==
              if b == '{' && a.expectObject
              then Ok(s.(closing := s.closing + [Close(b)], capture := Some([b]), ac := Inside(false, a.anyObject)))
              else Err(InvalidResponse)
  {}

  lemma ListOpened(judge: Judge, h: Hist, b: char, g: Hist)
    requires Admitted(judge, h) && h.root == None && h.str == None && Opens(b)
    requires Depth(h.stack) == 2 && InList(h.stack) && g == h.(stack := Open(h.stack, b, Nil))
    ensures var a := ScanAc(Level(h.stack, 1).items).value;
            && (Admitted(judge, g) <==> b == '{' && a.expectObject)
            && (Admitted(judge, g) ==>
                  StateOf(judge, g) == Appended(judge, h, b).(closing := Closings(h.stack) + [Close(b)],
                                                             capture := Some([b]), ac := Inside(false, a.anyObject)))
  {
    OpenLevels(h.stack, b);
    assert ShapeOk(g) && Objects(g) == Objects(h) && Capturing(g);
    NothingAbove(h.stack);
    assert TextAbove(g.stack, 2) == TextAbove(h.stack, 2) + [b] + TextAll(Nil);
    assert OpenText(g, 2) == [b];
    assert ScansOk(g) <==> b == '{' && ScanAc(Level(h.stack, 1).items).value.expectObject;
  }

  lemma StepInside(judge: Judge, h: Hist, b: char)
    requires Admitted(judge, h) && h.root == None && h.str == None && h.stack.Open? && !Whitespace(b)
    ensures Step(judge, StateOf(judge, h), b) ==
              if Full(h) then Err(InvalidSize) else StepToken(judge, Appended(judge, h, b), b)
  {}

  /** What the inner steps see, in terms of the history. */
  lemma AppendedFacts(judge: Judge, h: Hist, b: char)
    requires Admitted(judge, h) && h.root == None && h.str == None && h.stack.Open?
    ensures var s := Appended(judge, h, b);
            && s.closing == Closings(h.stack) && s.quoted == None
            && s.awaits == (if Depth(h.stack) == 1 then ScanRoot(RootItems(h.stack)).value.awaits else Anything)
            && (s.ac.Inside? <==> InList(h.stack))
            && s.capture.Some? == Capturing(h)
  {}

  lemma WrongClose(judge: Judge, s: State, b: char)
    requires Closes(b) && (s.closing == [] || Last(s.closing) != b)
    ensures StepToken(judge, s, b).Err?
  {}

  lemma CloseWrong(judge: Judge, h: Hist, b: char)
    requires Admitted(judge, h) && h.root == None && h.str == None && h.stack.Open?
    requires Closes(b) && b != Close(h.stack.open)
    ensures Matches(judge, h, b)
  {
    StepInside(judge, h, b);
    WrongClose(judge, Appended(judge, h, b), b);
    AppendedFacts(judge, h, b);
    assert Grow(h, b) == None;
    hide Step, StateOf, Admitted, Appended, StepToken, Grow, InList, ScanRoot;
  }

  lemma CloseRoot(judge: Judge, h: Hist, b: char)
    requires Admitted(judge, h) && h.root == None && h.str == None && Depth(h.stack) == 1
    requires b == Close(h.stack.open)
    ensures Matches(judge, h, b)
  {
    hide Step, StateOf, Admitted, Appended, StepToken, InList, ScanRoot;
    var g := h.(stack := Base, root := Some(h.stack.items));
    RootFacts(judge, h, b);
    RootClosed(judge, h, g);
    StepInside(judge, h, b);
    AppendedFacts(judge, h, b);
    RootClose(judge, Appended(judge, h, b), b);
    assert Grow(h, b) == Some(g);
    hide Grow;
  }

  lemma RootClosed(judge: Judge, h: Hist, g: Hist)
    requires Admitted(judge, h) && h.root == None && h.str == None && Depth(h.stack) == 1
    requires g == h.(stack := Base, root := Some(h.stack.items))
    ensures h.stack.open == '{' && ScanRoot(RootItems(h.stack)).Some?
    ensures Admitted(judge, g) <==> ScanRoot(RootItems(h.stack)).value.awaits == Anything
    ensures Admitted(judge, g) ==> StateOf(judge, g) == StateOf(judge, h).(closing := [], complete := true)
  {
    assert RootItems(h.stack) == h.stack.items && ShapeOk(g);
    assert Objects(g) == Objects(h) && LastRoot(h.stack) == ScanRoot(h.stack.items).value.last;
    RootFacts(judge, h, '}');
    hide ShapeOk, Objects, ObjectsOk;
  }

  lemma RootClose(judge: Judge, s: State, b: char)
    requires b == '}' && |s.closing| == 1 && Last(s.closing) == b && !s.ac.Inside? && s.capture == None
    ensures StepToken(judge, s, b) ==
              if s.awaits == Anything then Ok(s.(closing := [], complete := true)) else Err(InvalidResponse)
  {}

  lemma BelowLevels(stack: Stack)
    requires Depth(stack) >= 2
    ensures var below := stack.below;
            && Depth(below) == Depth(stack) - 1 && Closings(stack) == Closings(below) + [Close(stack.open)]
            && RootItems(below) == RootItems(stack)
            && (Depth(stack) >= 3 ==> Level(below, 1) == Level(stack, 1) && InList(below) == InList(stack))
            && (Depth(stack) == 2 ==> Level(stack, 1) == stack)
            && (Depth(stack) == 3 ==> Level(stack, 2) == stack)
            && (Depth(stack) >= 4 ==> Level(below, 2) == Level(stack, 2))
  {
    var below := stack.below;
    assert Depth(below) == Depth(stack) - 1 && Closings(stack) == Closings(below) + [Close(stack.open)];
    hide ScanRoot, ScanAc, Closings;
    assert RootItems(below) == RootItems(stack);
    assert Depth(stack) >= 3 ==> Level(below, 1) == Level(stack, 1);
  }

  lemma SecondGrown(judge: Judge, h: Hist, b: char) returns (g: Hist)
    requires Admitted(judge, h) && h.root == None && h.str == None && Depth(h.stack) == 2
    requires b == Close(h.stack.open)
    ensures g == h.(stack := Put(h.stack.below, Group(h.stack.open, h.stack.items)))
    ensures Grow(h, b) == Some(g) && ShapeOk(g) && Depth(g.stack) == 1
    ensures ScanRoot(RootItems(g.stack)) ==
              RootNext(ScanRoot(RootItems(h.stack)).value, Group(h.stack.open, h.stack.items))
    ensures Closings(g.stack) == Closings(h.stack.below)
  {
    var t := Group(h.stack.open, h.stack.items);
    g := h.(stack := Put(h.stack.below, t));
    BelowLevels(h.stack);
    PutLevels(h.stack.below, t);
    assert TokenOk(t, 1);
    PutShape(h.(stack := h.stack.below), t);
  }

  /** Closing an ordinary second-level group. */
  lemma CloseValue(judge: Judge, h: Hist, b: char)
    requires Admitted(judge, h) && h.root == None && h.str == None && Depth(h.stack) == 2
    requires b == Close(h.stack.open) && !InList(h.stack)
    ensures Matches(judge, h, b)
  {
    var g := SecondGrown(judge, h, b);
    var r := ScanRoot(RootItems(h.stack)).value;
    assert ScanRoot(RootItems(g.stack)) == Some(r.(last := b));
    assert Objects(g) == Objects(h) && Admitted(judge, g);
    StepInside(judge, h, b);
    var s := StateOf(judge, h);
    assert StateOf(judge, g) == s.(closing := Closings(h.stack.below), last := b, awaits := r.awaits);
    CloseStep(judge, s, b);
  }

  /** Closing a group that is neither the root nor an aircraft object, in a state that awaits nothing. */
  lemma CloseStep(judge: Judge, s: State, b: char)
    requires Closes(b) && |s.closing| >= 2 && Last(s.closing) == b && s.awaits == Anything
    requires |s.closing| == 2 ==> !s.ac.Inside?
    requires |s.closing| == 3 ==> s.capture == None
    ensures StepToken(judge, s, b) == Ok(Remember(s.(closing := Init(s.closing)), b))
  {}

  /** Closing the aircraft array. */
  lemma CloseList(judge: Judge, h: Hist, b: char)
    requires Admitted(judge, h) && h.root == None && h.str == None && Depth(h.stack) == 2
    requires b == Close(h.stack.open) && InList(h.stack)
    ensures Matches(judge, h, b)
  {
    var g := SecondGrown(judge, h, b);
    assert Level(h.stack, 1) == h.stack && b == ']';
    var a := ScanAc(h.stack.items).value;
    StepInside(judge, h, b);
    var s := StateOf(judge, h);
    ListCloseStep(judge, s, a);
    if AcEnd(a) {
      assert ScanRoot(RootItems(g.stack)) == Some(RootScan(']', Anything, Some(h.stack.items)));
      assert Objects(g) == Objects(h) && Admitted(judge, g);
      assert StateOf(judge, g) == s.(closing := Closings(h.stack.below), last := ']', ac := Complete);
    }
  }

  lemma ListCloseStep(judge: Judge, s: State, a: AcScan)
    requires |s.closing| == 2 && Last(s.closing) == ']' && s.awaits == Anything && s.capture == None
    requires s.ac == Inside(a.expectObject, a.anyObject)
    ensures StepToken(judge, s, ']') ==
              if AcEnd(a) then Ok(s.(closing := Init(s.closing), last := ']', ac := Complete))
              else Err(InvalidResponse)
  {}

  lemma TallyGrows(judge: Judge, texts: seq<seq<char>>, text: seq<char>)
    ensures AddObject(judge, TallyOf(judge, texts), text) ==
              if |texts| + 1 > MAX_OBJECTS then Err(InvalidSize)
              else if judge(text) == Malformed then Err(InvalidResponse)
              else Ok(TallyOf(judge, texts + [text]))
  {
    var more := texts + [text];
    assert Init(more) == texts && Last(more) == text;
    var ins := Inserted(judge, texts);
    match judge(text)
    case Malformed =>
    case Rejected =>
    case Accepted(a) =>
      assert Inserted(judge, more) == ins + [a];
      assert Init(ins + [a]) == ins && Last(ins + [a]) == a;
  }

  lemma ObjectsGrow(judge: Judge, texts: seq<seq<char>>, text: seq<char>)
    requires ObjectsOk(judge, texts)
    ensures ObjectsOk(judge, texts + [text]) <==>
            (|texts| + 1 <= MAX_OBJECTS && |text| <= MAX_OBJECT_BYTES && judge(text) != Malformed)
  {
    var more := texts + [text];
    assert more[|texts|] == text;
    forall i | 0 <= i < |texts| ensures more[i] == texts[i] {}
  }

  /** Closing a group inside an aircraft object or inside an ordinary value. */
  lemma CloseInner(judge: Judge, h: Hist, b: char)
    requires Admitted(judge, h) && h.root == None && h.str == None && Depth(h.stack) >= 3
    requires b == Close(h.stack.open) && !(Depth(h.stack) == 3 && InList(h.stack))
    ensures Matches(judge, h, b)
  {
    InnerGrown(judge, h, b);
    StepInside(judge, h, b);
    if !Full(h) { CloseInnerStep(judge, h, b); }
    hide Step, StateOf, Admitted, Grow, Full, StepToken, Appended;
  }

  lemma CloseInnerStep(judge: Judge, h: Hist, b: char)
    requires Admitted(judge, h) && h.root == None && h.str == None && Depth(h.stack) >= 3
    requires b == Close(h.stack.open) && !(Depth(h.stack) == 3 && InList(h.stack))
    ensures StepToken(judge, Appended(judge, h, b), b)
         == Ok(Appended(judge, h, b).(closing := Init(Closings(h.stack))))
  {
    AppendedFacts(judge, h, b);
    assert Capturing(h) ==> InList(h.stack);
    hide StateOf, Admitted, StepToken, Appended, InList;
    CloseStep(judge, Appended(judge, h, b), b);
  }

  lemma InnerGrown(judge: Judge, h: Hist, b: char)
    requires Admitted(judge, h) && h.root == None && h.str == None && Depth(h.stack) >= 3
    requires b == Close(h.stack.open) && !(Depth(h.stack) == 3 && InList(h.stack))
    ensures Grow(h, b).Some?
    ensures var g := Grow(h, b).value;
            && (Admitted(judge, g) <==> !Full(h))
            && (Admitted(judge, g) ==>
                  StateOf(judge, g) == Appended(judge, h, b).(closing := Init(Closings(h.stack))))
  {
    var t := Group(h.stack.open, h.stack.items);
    var below := h.(stack := h.stack.below);
    var g := h.(stack := Put(below.stack, t));
    BelowAdmitted(judge, h);
    assert TokenOk(t, Depth(below.stack));
    assert Grow(h, b) == Some(g);
    InnerPut(judge, h, below, t, g);
    InnerStates(judge, h, below);
    if Capturing(h) { CaptureGrows(judge, h, b); }
    InnerEnd(judge, h, below, b, g);
  }

  lemma InnerPut(judge: Judge, h: Hist, below: Hist, t: Token, g: Hist)
    requires h.root == None && h.str == None && Depth(h.stack) >= 3
    requires !(Depth(h.stack) == 3 && InList(h.stack))
    requires below == h.(stack := h.stack.below) && Admitted(judge, below) && TokenOk(t, Depth(below.stack))
    requires g == h.(stack := Put(below.stack, t))
    ensures && ShapeOk(g) && ScansOk(g) && Objects(g) == Objects(below) && Capturing(g) == Capturing(below)
            && Closings(g.stack) == Closings(below.stack)
            && (Admitted(judge, g) ==>
                  StateOf(judge, g) == StateOf(judge, below).(quoted := None, capture := StateOf(judge, g).capture))
  {
    hide Admitted, StateOf, Objects, ScansOk, ShapeOk, Capturing;
    BelowLevels(h.stack);
    PutLevels(below.stack, t);
    PutUnnoticed(judge, below, t);
  }

  lemma InnerEnd(judge: Judge, h: Hist, below: Hist, b: char, g: Hist)
    requires Admitted(judge, h) && Admitted(judge, below) && h.root == None && h.str == None && Depth(h.stack) >= 3
    requires below == h.(stack := h.stack.below)
    requires g.root == None && g.str == None && g.stack.Open?
    requires ShapeOk(g) && ScansOk(g) && Objects(g) == Objects(below) && Capturing(g) == Capturing(h)
    requires Closings(g.stack) == Closings(below.stack)
    requires Admitted(judge, g) ==>
               StateOf(judge, g) == StateOf(judge, below).(quoted := None, capture := StateOf(judge, g).capture)
    requires StateOf(judge, below) ==
               StateOf(judge, h).(closing := Closings(below.stack), capture := StateOf(judge, below).capture)
    requires Capturing(h) ==> OpenText(g, 2) == OpenText(h, 2) + [b]
    requires Objects(below) == Objects(h)
    ensures Admitted(judge, g) <==> !Full(h)
    ensures Admitted(judge, g) ==>
              StateOf(judge, g) == Appended(judge, h, b).(closing := Init(Closings(h.stack)))
  {
    InnerAdmitted(judge, h, below, g, b);
    if Admitted(judge, g) {
      CaptureState(judge, g);
      assert StateOf(judge, h).quoted == None;
      hide StateOf, Admitted, ShapeOk, ScansOk, Objects, InList;
      assert Appended(judge, h, b) == StateOf(judge, h).(capture := StateOf(judge, g).capture);
    }
  }

  lemma CaptureState(judge: Judge, g: Hist)
    requires Admitted(judge, g) && g.root == None && g.stack.Open?
    ensures StateOf(judge, g).capture == (if Capturing(g) then Some(OpenText(g, 2)) else None)
  {}

  lemma InnerAdmitted(judge: Judge, h: Hist, below: Hist, g: Hist, b: char)
    requires Admitted(judge, h) && Objects(below) == Objects(h)
    requires ShapeOk(g) && ScansOk(g) && Objects(g) == Objects(below) && Capturing(g) == Capturing(h)
    requires Capturing(h) ==> OpenText(g, 2) == OpenText(h, 2) + [b]
    ensures Admitted(judge, g) <==> !Full(h)
  {
    hide ShapeOk, ScansOk, Objects, Capturing, ObjectsOk;
  }

  lemma InnerStates(judge: Judge, h: Hist, below: Hist)
    requires Admitted(judge, h) && h.root == None && h.str == None && Depth(h.stack) >= 3
    requires !(Depth(h.stack) == 3 && InList(h.stack))
    requires below == h.(stack := h.stack.below) && Admitted(judge, below)
    ensures StateOf(judge, below) ==
              StateOf(judge, h).(closing := Closings(below.stack), capture := StateOf(judge, below).capture)
    ensures Capturing(below) == Capturing(h) && Objects(below) == Objects(h)
  {
    BelowLevels(h.stack);
  }

  /** Closing an aircraft object: it is captured whole and handed over. */
  lemma CloseObject(judge: Judge, h: Hist)
    requires Admitted(judge, h) && h.root == None && h.str == None
    requires Depth(h.stack) == 3 && InList(h.stack)
    ensures Matches(judge, h, '}')
  {
    var g, text := ObjectGrown(judge, h);
    StepInside(judge, h, '}');
    if !Full(h) {
      ObjectStep(judge, Appended(judge, h, '}'));
      TallyGrows(judge, Objects(h), text);
      if Admitted(judge, g) { ObjectState(judge, h, g, text); }
    }
  }

  /** The text captured of an aircraft object is the object's, once it is closed. */
  lemma ObjectText(h: Hist)
    requires h.root == None && h.str == None && Depth(h.stack) == 3 && h.stack.open == '{'
    ensures OpenText(h, 2) + ['}'] == Text(Group(h.stack.open, h.stack.items))
  {
    GroupText(h.stack, '}', 2);
    NothingAbove(h.stack.below);
  }

  lemma ObjectGrown(judge: Judge, h: Hist) returns (g: Hist, text: seq<char>)
    requires Admitted(judge, h) && h.root == None && h.str == None
    requires Depth(h.stack) == 3 && InList(h.stack)
    ensures text == OpenText(h, 2) + ['}'] && Close(h.stack.open) == '}' && IsObject(Group(h.stack.open, h.stack.items))
    ensures Grow(h, '}') == Some(g) && ShapeOk(g) && g.str == None && g.root == None
    ensures g.stack == Put(h.stack.below, Group(h.stack.open, h.stack.items))
    ensures Objects(g) == Objects(h) + [text]
    ensures Admitted(judge, g) <==>
            (|Objects(h)| + 1 <= MAX_OBJECTS && !Full(h) && judge(text) != Malformed)
  {
    hide Closings, OpenText, TextAll;
    var t := Group(h.stack.open, h.stack.items);
    BelowLevels(h.stack);
    assert Level(h.stack, 2) == h.stack && h.stack.open == '{';
    g := h.(stack := Put(h.stack.below, t));
    text := OpenText(h, 2) + ['}'];
    ObjectText(h);
    BelowAdmitted(judge, h);
    PutShape(h.(stack := h.stack.below), t);
    PutLevels(h.stack.below, t);
    BelowLevels(h.stack.below);
    assert Objects(g) == Objects(h) + [text];
    ObjectsGrow(judge, Objects(h), text);
  }

  lemma ObjectStep(judge: Judge, s: State)
    requires |s.closing| == 3 && Last(s.closing) == '}' && s.awaits == Anything && s.capture.Some? && s.ac.Inside?
    ensures StepToken(judge, s, '}') ==
              match AddObject(judge, s.tally, s.capture.value) case Err(e) => Err(e)
              case Ok(t) => Ok(s.(closing := Init(s.closing), capture := None, tally := t,
                                  ac := s.ac.(anyObject := true)))
  {}

  lemma ObjectState(judge: Judge, h: Hist, g: Hist, text: seq<char>)
    requires Admitted(judge, h) && h.root == None && h.str == None
    requires Depth(h.stack) == 3 && InList(h.stack)
    requires Admitted(judge, g) && g.str == None && g.root == None
    requires g.stack == Put(h.stack.below, Group(h.stack.open, h.stack.items)) && h.stack.open == '{'
    requires Objects(g) == Objects(h) + [text]
    ensures StateOf(judge, g) ==
              StateOf(judge, h).(closing := Closings(h.stack.below), capture := None,
                                 tally := TallyOf(judge, Objects(h) + [text]),
                                 ac := Inside(false, true))
    ensures StateOf(judge, h).ac.Inside? && !StateOf(judge, h).ac.expectObject
  {
    BelowLevels(h.stack);
    PutLevels(h.stack.below, Group(h.stack.open, h.stack.items));
  }

  /** The one-byte law, for every admitted history and every byte. */
  lemma StepMatches(judge: Judge, h: Hist, b: char)
    requires Admitted(judge, h)
    ensures Matches(judge, h, b)
  {
    if h.root.Some? { AfterRoot(judge, h, b); }
    else if h.stack == Base { BeforeRoot(judge, h, b); }
    else if h.str.Some? {
      if b == '"' && !ScanStr(h.str.value).value.escaped { EndOfString(judge, h); }
      else { InString(judge, h, b); }
    }
    else if Whitespace(b) { SpaceByte(judge, h, b); }
    else if b == '"' { QuoteByte(judge, h); }
    else if Opens(b) { OpenByte(judge, h, b); }
    else if Closes(b) { CloseByte(judge, h, b); }
    else { OtherByte(judge, h, b); }
  }

  lemma OpenByte(judge: Judge, h: Hist, b: char)
    requires Admitted(judge, h) && h.root == None && h.str == None && h.stack.Open? && Opens(b)
    ensures Matches(judge, h, b)
  {
    if Depth(h.stack) == 1 { OpenAtRoot(judge, h, b); }
    else if Depth(h.stack) == 2 && InList(h.stack) { OpenInList(judge, h, b); }
    else { OpenInside(judge, h, b); }
  }

  lemma CloseByte(judge: Judge, h: Hist, b: char)
    requires Admitted(judge, h) && h.root == None && h.str == None && h.stack.Open? && Closes(b)
    ensures Matches(judge, h, b)
  {
    if b != Close(h.stack.open) { CloseWrong(judge, h, b); }
    else if Depth(h.stack) == 1 { CloseRoot(judge, h, b); }
    else if Depth(h.stack) == 2 {
      if InList(h.stack) { CloseList(judge, h, b); } else { CloseValue(judge, h, b); }
    }
    else if Depth(h.stack) == 3 && InList(h.stack) {
      assert Level(h.stack, 2) == h.stack;
      CloseObject(judge, h);
    }
    else { CloseInner(judge, h, b); }
  }

  // ----- every prefix of an admitted history is admitted

  lemma ShrinkAdmitted(judge: Judge, h: Hist)
    requires Admitted(judge, h) && h != START
    ensures Admitted(judge, Shrink(h))
  {
    ShrinkGrow(h);
    if h.root.Some? {
      ShrinkRoot(judge, h);
    } else if h.str.Some? {
      ShrinkString(judge, h);
    } else if h.stack.Open? {
      match h.stack.items
      case Nil => if h.stack.below != Base { BelowAdmitted(judge, h); }
      case Snoc(rest, t) => ShrinkToken(judge, h, rest, t);
    }
  }

  lemma ShrinkRoot(judge: Judge, h: Hist)
    requires Admitted(judge, h) && h.root.Some? && ShapeOk(Shrink(h))
    ensures Admitted(judge, Shrink(h))
  {
    if h.trail == [] {
      var g := Shrink(h);
      assert RootItems(g.stack) == h.root.value;
    }
  }

  lemma ShrinkString(judge: Judge, h: Hist)
    requires Admitted(judge, h) && h.str.Some? && ShapeOk(Shrink(h))
    ensures Admitted(judge, Shrink(h))
  {
    var g := Shrink(h);
    assert g.stack == h.stack && Capturing(g) == Capturing(h) && Objects(g) == Objects(h);
    assert |PartText(g.str)| <= |PartText(h.str)|;
  }

  /** The innermost group without its last token. */
  function Unput(stack: Stack): Stack
    requires stack.Open? && stack.items.Snoc?
  {
    Open(stack.below, stack.open, stack.items.rest)
  }

  lemma ObjectsPrefix(judge: Judge, texts: seq<seq<char>>, text: seq<char>)
    requires ObjectsOk(judge, texts + [text])
    ensures ObjectsOk(judge, texts) && |text| <= MAX_OBJECT_BYTES
  {
    var more := texts + [text];
    assert more[|texts|] == text;
    forall i | 0 <= i < |texts| ensures more[i] == texts[i] {}
  }

  lemma UnputAdmitted(judge: Judge, h: Hist)
    requires Admitted(judge, h) && h.root == None && h.str == None && h.stack.Open? && h.stack.items.Snoc?
    ensures Admitted(judge, h.(stack := Unput(h.stack)))
  {
    hide Closings;
    var t := h.stack.items.last;
    var g := h.(stack := Unput(h.stack));
    assert h.stack == Put(g.stack, t);
    PutLevels(g.stack, t);
    assert StackOk(g.stack);
    if Depth(h.stack) == 1 {
      assert ScanRoot(RootItems(g.stack)).Some?;
    } else if Depth(h.stack) == 2 && InList(h.stack) {
      assert ScanAc(Level(g.stack, 1).items).Some?;
      if IsObject(t) { ObjectsPrefix(judge, Objects(g), Text(t)); }
    } else if Capturing(h) {
      PutText(g.stack, t, 2);
    }
  }

  lemma ShrinkToken(judge: Judge, h: Hist, rest: Items, t: Token)
    requires Admitted(judge, h) && h.root == None && h.str == None && h.stack.Open?
    requires h.stack.items == Snoc(rest, t) && ShapeOk(Shrink(h))
    ensures Admitted(judge, Shrink(h))
  {
    UnputAdmitted(judge, h);
    match t
    case Atom(_) =>
    case Str(raw) => ReopenString(judge, h, raw);
    case Group(o, inner) => ReopenGroup(judge, h, o, inner);
  }

  lemma ReopenString(judge: Judge, h: Hist, raw: seq<char>)
    requires Admitted(judge, h) && h.root == None && h.str == None && h.stack.Open?
    requires h.stack.items.Snoc? && h.stack.items.last == Str(raw)
    requires Admitted(judge, h.(stack := Unput(h.stack)))
    requires ShapeOk(h.(stack := Unput(h.stack), str := Some(raw)))
    ensures Admitted(judge, h.(stack := Unput(h.stack), str := Some(raw)))
  {
    if Depth(h.stack) == 1 { ReopenKey(judge, h, raw); } else { ReopenText(judge, h, raw); }
  }

  lemma ReopenKey(judge: Judge, h: Hist, raw: seq<char>)
    requires Admitted(judge, h) && h.root == None && h.str == None && Depth(h.stack) == 1
    requires h.stack.items.Snoc? && h.stack.items.last == Str(raw)
    requires Admitted(judge, h.(stack := Unput(h.stack)))
    requires ShapeOk(h.(stack := Unput(h.stack), str := Some(raw)))
    ensures Admitted(judge, h.(stack := Unput(h.stack), str := Some(raw)))
  {
    var below := Unput(h.stack);
    assert RootItems(h.stack) == h.stack.items && RootItems(below) == below.items;
    assert ScanRoot(h.stack.items) == RootNext(ScanRoot(below.items).value, Str(raw));
  }

  lemma ReopenText(judge: Judge, h: Hist, raw: seq<char>)
    requires Admitted(judge, h) && h.root == None && h.str == None && Depth(h.stack) >= 2
    requires h.stack.items.Snoc? && h.stack.items.last == Str(raw)
    requires Admitted(judge, h.(stack := Unput(h.stack)))
    requires ShapeOk(h.(stack := Unput(h.stack), str := Some(raw)))
    ensures Admitted(judge, h.(stack := Unput(h.stack), str := Some(raw)))
  {
    var below := Unput(h.stack);
    assert h.stack == Put(below, Str(raw));
    PutLevels(below, Str(raw));
    if Depth(h.stack) >= 3 { PutText(below, Str(raw), 2); }
  }

  lemma ReopenGroup(judge: Judge, h: Hist, o: char, inner: Items)
    requires Admitted(judge, h) && h.root == None && h.str == None && h.stack.Open?
    requires h.stack.items.Snoc? && h.stack.items.last == Group(o, inner)
    requires Admitted(judge, h.(stack := Unput(h.stack)))
    requires ShapeOk(h.(stack := Open(Unput(h.stack), o, inner)))
    ensures Admitted(judge, h.(stack := Open(Unput(h.stack), o, inner)))
  {
    if Depth(h.stack) == 1 { ReopenSecond(judge, h, o, inner); }
    else if Depth(h.stack) == 2 && InList(h.stack) { ReopenObject(judge, h, o, inner); }
    else { ReopenInner(judge, h, o, inner); }
  }

  lemma ReopenSecond(judge: Judge, h: Hist, o: char, inner: Items)
    requires Admitted(judge, h) && h.root == None && h.str == None && Depth(h.stack) == 1
    requires h.stack.items.Snoc? && h.stack.items.last == Group(o, inner)
    requires ShapeOk(h.(stack := Open(Unput(h.stack), o, inner)))
    ensures Admitted(judge, h.(stack := Open(Unput(h.stack), o, inner)))
  {
    var below := Unput(h.stack);
    var g := h.(stack := Open(below, o, inner));
    BelowLevels(g.stack);
    assert RootItems(below) == below.items;
    assert ScanRoot(RootItems(h.stack)) == RootNext(ScanRoot(below.items).value, Group(o, inner));
    assert Objects(g) == Objects(h);
  }

  lemma ReopenObject(judge: Judge, h: Hist, o: char, inner: Items)
    requires Admitted(judge, h) && h.root == None && h.str == None && Depth(h.stack) == 2 && InList(h.stack)
    requires h.stack.items.Snoc? && h.stack.items.last == Group(o, inner)
    requires Admitted(judge, h.(stack := Unput(h.stack)))
    requires ShapeOk(h.(stack := Open(Unput(h.stack), o, inner)))
    ensures Admitted(judge, h.(stack := Open(Unput(h.stack), o, inner)))
  {
    var below := Unput(h.stack);
    var t := Group(o, inner);
    var g := h.(stack := Open(below, o, inner));
    BelowLevels(g.stack);
    PutLevels(below, t);
    assert h.stack == Put(below, t);
    ReopenedObjects(judge, h, below, t);
    ReopenedText(g, o);
    assert Objects(g) == ObjectTexts(below.items);
    ReopenedScans(h, g, below, t);
    hide ScansOk, ShapeOk, Objects, ObjectsOk, ObjectTexts, OpenText;
  }

  lemma ReopenedObjects(judge: Judge, h: Hist, below: Stack, t: Token)
    requires Admitted(judge, h) && h.root == None && h.str == None && Depth(h.stack) == 2 && InList(h.stack)
    requires below.Open? && h.stack == Put(below, t) && t.Group? && Level(h.stack, 1) == h.stack
    ensures IsObject(t) && ScanAc(below.items).Some? && ScanAc(below.items).value.expectObject
    ensures ObjectsOk(judge, ObjectTexts(below.items)) && |Text(t)| <= MAX_OBJECT_BYTES
  {
    assert ScanAc(h.stack.items) == AcNext(ScanAc(below.items).value, t);
    assert Objects(h) == ObjectTexts(below.items) + [Text(t)];
    ObjectsPrefix(judge, ObjectTexts(below.items), Text(t));
  }

  lemma ReopenedText(g: Hist, o: char)
    requires g.str == None && Depth(g.stack) == 3 && g.stack.open == o
    ensures |OpenText(g, 2)| < |Text(Group(o, g.stack.items))|
  {
    GroupText(g.stack, Close(o), 2);
    NothingAbove(g.stack.below);
  }

  lemma ReopenedScans(h: Hist, g: Hist, below: Stack, t: Token)
    requires ScansOk(h) && h.root == None && h.str == None && Depth(h.stack) == 2 && InList(h.stack)
    requires below.Open? && h.stack == Put(below, t) && IsObject(t) && Depth(below) == 2
    requires g == h.(stack := Open(below, t.open, t.inner))
    requires ScanAc(below.items).Some? && ScanAc(below.items).value.expectObject
    requires RootItems(below) == RootItems(h.stack) && RootItems(g.stack) == RootItems(h.stack)
    requires Level(g.stack, 1) == below && Level(g.stack, 2) == g.stack && Level(h.stack, 1) == h.stack
    ensures ScansOk(g)
  {}

  lemma ReopenInner(judge: Judge, h: Hist, o: char, inner: Items)
    requires Admitted(judge, h) && h.root == None && h.str == None && Depth(h.stack) >= 2
    requires !(Depth(h.stack) == 2 && InList(h.stack))
    requires h.stack.items.Snoc? && h.stack.items.last == Group(o, inner)
    requires Admitted(judge, h.(stack := Unput(h.stack)))
    requires ShapeOk(h.(stack := Open(Unput(h.stack), o, inner)))
    ensures Admitted(judge, h.(stack := Open(Unput(h.stack), o, inner)))
  {
    var below := Unput(h.stack);
    var g := h.(stack := Open(below, o, inner));
    BelowLevels(g.stack);
    PutLevels(below, Group(o, inner));
    assert h.stack == Put(below, Group(o, inner));
    if Capturing(h) {
      GroupText(g.stack, Close(o), 2);
      PutText(below, Group(o, inner), 2);
    }
  }
}
