/**
  * What the stream parser accepts and what it reports: a body is accepted
  * exactly when it is the text of a document that follows the rules, and the
  * report is a function of that document's aircraft objects.
  */
module StreamTheorems {
  import opened Common
  import opened Body
  import opened Response
  import opened Candidates
  import opened StreamSpec
  import opened StreamHistory
  import opened StreamProof

  // ----- reading a text back is unambiguous

  function Reread(text: seq<char>): Option<Hist> {
    if text == [] then Some(START)
    else match Reread(Init(text))
         case None => None
         case Some(h) => Grow(h, Last(text))
  }

  lemma {:induction false} RereadText(h: Hist)
    requires ShapeOk(h)
    ensures Reread(HistText(h)) == Some(h)
    decreases |HistText(h)|
  {
    if h == START {
      assert HistText(h) == [];
    } else {
      var g := Shrink(h);
      ShrinkGrow(h);
      GrowText(g, Last(HistText(h)));
      RereadText(g);
      assert Init(HistText(h)) == HistText(g);
    }
  }

  lemma DocHist(d: Document)
    ensures HistText(HistOf(d)) == DocText(d)
    ensures ShapeOk(HistOf(d)) <==> DocShapeOk(d)
  {
    assert CoreText(HistOf(d)) == Text(Group('{', d.root));
  }

  /** A text is the text of at most one document. */
  lemma OneReading(d: Document, e: Document)
    requires DocShapeOk(d) && DocShapeOk(e) && DocText(d) == DocText(e)
    ensures d == e
  {
    DocHist(d);
    DocHist(e);
    RereadText(HistOf(d));
    RereadText(HistOf(e));
  }

  // ----- runs and histories

  lemma StartState(judge: Judge)
    ensures HistText(START) == [] && Admitted(judge, START) && StateOf(judge, START) == INITIAL
  {
    assert Objects(START) == [] && Nearest([]) == [];
  }

  ghost predicate Reads(judge: Judge, body: seq<char>, s: State) {
    && Reread(body).Some?
    && var h := Reread(body).value;
    && Admitted(judge, h) && HistText(h) == body && s == StateOf(judge, h)
  }

  lemma AdmittedShape(judge: Judge, h: Hist)
    requires Admitted(judge, h)
    ensures ShapeOk(h)
  {}

  lemma ReadsOneMore(judge: Judge, body: seq<char>, s: State)
    requires body != [] && Reads(judge, Init(body), s) && Step(judge, s, Last(body)).Ok?
    ensures Reads(judge, body, Step(judge, s, Last(body)).value)
  {
    hide Step, StateOf, Admitted, HistText, Grow;
    var h, b := Reread(Init(body)).value, Last(body);
    assert ShapeOk(h) by { AdmittedShape(judge, h); }
    StepMatches(judge, h, b);
    assert Reread(body) == Grow(h, b);
    GrowText(h, b);
    assert body == Init(body) + [b];
  }

  lemma {:induction false} RunReads(judge: Judge, body: seq<char>)
    requires Run(judge, INITIAL, body).Ok?
    ensures Reads(judge, body, Run(judge, INITIAL, body).value)
  {
    if body == [] {
      StartState(judge);
    } else {
      RunReads(judge, Init(body));
      ReadsOneMore(judge, body, Run(judge, INITIAL, Init(body)).value);
    }
  }

  lemma {:induction false} RunAdmits(judge: Judge, h: Hist)
    requires Admitted(judge, h)
    ensures Run(judge, INITIAL, HistText(h)) == Ok(StateOf(judge, h))
    decreases |HistText(h)|
  {
    if h == START {
      StartState(judge);
    } else {
      var g := Shrink(h);
      var b := Last(HistText(h));
      ShrinkGrow(h);
      GrowText(g, b);
      assert Init(HistText(h)) == HistText(g);
      ShrinkAdmitted(judge, h);
      RunAdmits(judge, g);
      StepMatches(judge, g, b);
    }
  }

  // ----- the rules on a whole document

  /** The rules: shape, the key "ac" with its list, and the limits on its objects. */
  ghost predicate DocOk(judge: Judge, d: Document) {
    && DocShapeOk(d)
    && exists at: nat :: RootOk(Significant(d.root), at) &&
         ObjectsOk(judge, ObjectTexts(AcList(Significant(d.root), at)))
  }

  /** The complete objects of the one list under "ac", as text, in order. */
  ghost function AircraftTexts(d: Document): seq<seq<char>>
    requires exists at: nat :: RootOk(Significant(d.root), at)
  {
    var at: nat :| RootOk(Significant(d.root), at);
    ObjectTexts(AcList(Significant(d.root), at))
  }

  /** What a document's objects add up to. */
  ghost function ReportOf(judge: Judge, d: Document): Report
    requires DocOk(judge, d)
  {
    var texts := AircraftTexts(d);
    var inserted := Inserted(judge, texts);
    Report(Nearest(inserted) != [], |texts|, |Nearest(inserted)|, |texts| - |inserted|, |DocText(d)|, Nearest(inserted))
  }

  lemma DocAdmitted(judge: Judge, d: Document)
    requires DocShapeOk(d)
    ensures DocOk(judge, d) <==>
            (Admitted(judge, HistOf(d)) && ScanRoot(d.root).value.ac.Some?)
    ensures DocOk(judge, d) ==> AircraftTexts(d) == Objects(HistOf(d))
  {
    DocHist(d);
    ScanIsRules(d.root, 1);
    var h := HistOf(d);
    if DocOk(judge, d) {
      var at: nat :| RootOk(Significant(d.root), at) &&
        ObjectsOk(judge, ObjectTexts(AcList(Significant(d.root), at)));
      assert Objects(h) == ObjectTexts(AcList(Significant(d.root), at));
    }
    if Admitted(judge, h) && ScanRoot(d.root).value.ac.Some? {
      var at: nat :| RootOk(Significant(d.root), at);
      assert Objects(h) == ObjectTexts(AcList(Significant(d.root), at));
    }
  }

  /** Accepting is complete: the text of every document that follows the rules is
      accepted, and the report is the one its objects add up to. */
  lemma AcceptsDocuments(judge: Judge, d: Document)
    requires DocOk(judge, d)
    ensures Finish(Parser(|DocText(d)|, Run(judge, INITIAL, DocText(d)))) == Ok(ReportOf(judge, d))
  {
    hide *;
    DocIsWhole(judge, d);
    DocAdmitted(judge, d);
    DocHist(d);
    RunAdmits(judge, HistOf(d));
    CompleteFinishes(judge, HistOf(d), |DocText(d)|);
  }

  lemma DocIsWhole(judge: Judge, d: Document)
    requires DocOk(judge, d)
    ensures DocShapeOk(d) && HistOf(d).root == Some(d.root)
    ensures var texts := AircraftTexts(d);
            var kept := Nearest(Inserted(judge, texts));
            ReportOf(judge, d) ==
            Report(kept != [], |texts|, |kept|, |texts| - |Inserted(judge, texts)|, |DocText(d)|, kept)
  {
    hide AircraftTexts, Inserted, DocText, DocShapeOk, RootOk, ObjectsOk, Nearest;
  }

  /** A complete history with an aircraft array is finished with the tally of its objects. */
  lemma CompleteFinishes(judge: Judge, h: Hist, bytes: nat)
    requires Admitted(judge, h) && h.root.Some? && ScanRoot(h.root.value).value.ac.Some?
    ensures var kept := Nearest(Inserted(judge, Objects(h)));
            Finish(Parser(bytes, Ok(StateOf(judge, h)))) ==
            Ok(Report(kept != [], |Objects(h)|, |kept|, |Objects(h)| - |Inserted(judge, Objects(h))|, bytes, kept))
  {
    hide Objects, Inserted, ShapeOk, Nearest;
  }

  /** Accepting is sound: an accepted body is the text of a document that follows the rules. */
  lemma AcceptedIsDocument(judge: Judge, body: seq<char>) returns (d: Document)
    requires Finish(Parser(|body|, Run(judge, INITIAL, body))).Ok?
    ensures DocOk(judge, d) && DocText(d) == body
  {
    RunReads(judge, body);
    var h := Reread(body).value;
    d := Document(h.lead, h.root.value, h.trail);
    assert HistOf(d) == h;
    DocHist(d);
    DocAdmitted(judge, d);
  }

  /** The acceptance theorem, for bodies cut into chunks in any way. */
  lemma AcceptsExactly(judge: Judge, chunks: seq<seq<char>>)
    ensures Finish(FeedAll(judge, chunks)).Ok? <==>
            (|Concat(chunks)| <= MAX_BODY_BYTES &&
             exists d :: DocOk(judge, d) && DocText(d) == Concat(chunks))
    ensures forall d :: DocOk(judge, d) && DocText(d) == Concat(chunks) && |Concat(chunks)| <= MAX_BODY_BYTES ==>
              Finish(FeedAll(judge, chunks)) == Ok(ReportOf(judge, d))
  {
    var body := Concat(chunks);
    FeedAllRuns(judge, chunks);
    if |body| <= MAX_BODY_BYTES {
      forall d | DocOk(judge, d) && DocText(d) == body
        ensures Finish(FeedAll(judge, chunks)) == Ok(ReportOf(judge, d))
      {
        AcceptsDocuments(judge, d);
      }
      if Finish(FeedAll(judge, chunks)).Ok? {
        var d := AcceptedIsDocument(judge, body);
      }
    }
  }

  // ----- consequences

  function Nesting(t: Token): nat {
    match t
    case Group(_, inner) => 1 + NestingAll(inner)
    case _ => 0
  }

  function NestingAll(items: Items): nat {
    match items
    case Nil => 0
    case Snoc(rest, t) => if NestingAll(rest) >= Nesting(t) then NestingAll(rest) else Nesting(t)
  }

  lemma {:induction false} NestingBounded(items: Items, depth: nat)
    requires TokensOk(items, depth) && depth <= MAX_DEPTH
    ensures NestingAll(items) + depth <= MAX_DEPTH
    decreases items
  {
    match items
    case Nil =>
    case Snoc(rest, t) =>
      NestingBounded(rest, depth);
      match t
      case Group(_, inner) => NestingBounded(inner, depth + 1);
      case _ =>
  }

  /** Accepted bodies nest at most sixteen deep, report every object as rejected or
      inserted, and list at most five aircraft in order. */
  lemma AcceptedLimits(judge: Judge, d: Document)
    requires DocOk(judge, d)
    ensures Nesting(Group('{', d.root)) <= MAX_DEPTH
    ensures var r := ReportOf(judge, d);
            && r.reported == |AircraftTexts(d)| <= MAX_OBJECTS
            && r.reported == r.rejected + |Inserted(judge, AircraftTexts(d))|
            && r.aircraft == Nearest(Inserted(judge, AircraftTexts(d)))
            && r.accepted == |r.aircraft| <= MAX_AIRCRAFT && (r.live <==> r.aircraft != [])
  {
    NestingBounded(d.root, 1);
    DocAdmitted(judge, d);
    NearestInOrder(Inserted(judge, AircraftTexts(d)));
  }

  // ----- an accepted body that is not JSON

  /** Two strings side by side in the aircraft array, with no comma between them. */
  function StringsInTheList(): Document {
    Document([], Snoc(Snoc(Snoc(Nil, Str("ac")), Atom(':')), Group('[', Snoc(Snoc(Nil, Str("x")), Str("y")))), [])
  }

  lemma PlainStrings()
    ensures StrOk("ac") && StrOk("x") && StrOk("y")
  {
    assert Init("x") == "" && Init("y") == "" && Init("ac") == "a" && Init("a") == "";
    assert ScanStr("").Some? && ScanStr("a").Some?;
  }

  lemma StringsFollowTheRules(judge: Judge)
    ensures DocOk(judge, StringsInTheList())
    ensures AircraftTexts(StringsInTheList()) == []
  {
    var d := StringsInTheList();
    var list := Snoc(Snoc(Nil, Str("x")), Str("y"));
    PlainStrings();
    hide StrOk;
    var ts := Significant(d.root);
    assert ts == [Str("ac"), Atom(':'), Group('[', list)];
    assert Listed(Nil) == [] && Listed(Snoc(Nil, Str("x"))) == [] && Listed(list) == [];
    assert AircraftArray(ts[2]);
    assert MemberOk(ts, 0) && MemberOk(ts, 1) && MemberOk(ts, 2);
    assert RootOk(ts, 0);
    assert ObjectTexts(Snoc(Nil, Str("x"))) == [] && ObjectTexts(AcList(ts, 0)) == [];
  }

  /** It is accepted, as a response without aircraft. */
  lemma AcceptsWhatIsNotJson(judge: Judge)
    ensures var body := "{\"ac\":[\"x\"\"y\"]}";
            Finish(FeedAll(judge, [body])) == Ok(Report(false, 0, 0, 0, |body|, []))
  {
    var d, body := StringsInTheList(), "{\"ac\":[\"x\"\"y\"]}";
    StringsText();
    StringsFollowTheRules(judge);
    assert Concat([body]) == body by { assert Init([body]) == []; }
    AcceptsExactly(judge, [body]);
    NothingInserted(judge);
    hide DocOk, DocText, AircraftTexts, Finish, FeedAll, Nearest;
  }

  lemma StringsText()
    ensures DocText(StringsInTheList()) == "{\"ac\":[\"x\"\"y\"]}"
  {
    var list := Snoc(Snoc(Nil, Str("x")), Str("y"));
    assert TextAll(Nil) == "" && TextAll(Snoc(Nil, Str("x"))) == "\"x\"" && TextAll(list) == "\"x\"\"y\"";
    assert TextAll(Snoc(Nil, Str("ac"))) == "\"ac\"" && TextAll(Snoc(Snoc(Nil, Str("ac")), Atom(':'))) == "\"ac\":";
    assert Text(Group('[', list)) == "[\"x\"\"y\"]";
  }

  lemma NothingInserted(judge: Judge)
    ensures Inserted(judge, []) == [] && Nearest([]) == []
  {}
}
