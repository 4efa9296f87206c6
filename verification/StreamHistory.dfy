/**
  * The parser's state is a function of the structure read so far.  `Admitted`
  * says which partial structures the parser lets through, and `StateOf` gives
  * the state each of them leaves it in.
  */
module StreamHistory {
  import opened Common
  import opened Body
  import opened Response
  import opened AircraftRecord
  import opened Candidates
  import opened StreamSpec

  /** The stack as it was when level `k` was innermost, with what that level has gathered since. */
  function Level(stack: Stack, k: nat): (l: Stack)
    requires k < Depth(stack)
    ensures l.Open? && Depth(l) == k + 1
  {
    if Depth(stack) == k + 1 then stack else Level(stack.below, k)
  }

  function RootItems(stack: Stack): Items
    requires stack.Open?
  {
    Level(stack, 0).items
  }

  /** The second level is the aircraft array. */
  predicate InList(stack: Stack) {
    && Depth(stack) >= 2
    && ScanRoot(RootItems(stack)).Some? && ScanRoot(RootItems(stack)).value.awaits == AcArray
  }

  /** The second level may be open where it is. */
  predicate SecondLevelOk(stack: Stack, r: RootScan)
    requires Depth(stack) >= 2
  {
    match r.awaits
    case Colon(_) => false
    case Anything => true
    case AcArray =>
      && r.ac == None && Level(stack, 1).open == '['
      && ScanAc(Level(stack, 1).items).Some?
      && (Depth(stack) >= 3 ==> Level(stack, 2).open == '{' && ScanAc(Level(stack, 1).items).value.expectObject)
  }

  predicate ScansOk(h: Hist) {
    && (h.root.Some? ==> ScanRoot(h.root.value).Some? && ScanRoot(h.root.value).value.awaits == Anything)
    && (h.root == None && h.stack.Open? ==>
          && var scan := ScanRoot(RootItems(h.stack));
          && scan.Some?
          && (Depth(h.stack) >= 2 ==> SecondLevelOk(h.stack, scan.value))
          && (Depth(h.stack) == 1 && h.str.Some? ==> scan.value.awaits == Anything))
  }

  /** An aircraft object is being captured. */
  predicate Capturing(h: Hist) {
    h.root == None && InList(h.stack) && Depth(h.stack) >= 3
  }

  /** The complete aircraft objects so far. */
  function Objects(h: Hist): seq<seq<char>> {
    if h.root.Some? then KeptObjects(ScanRoot(h.root.value))
    else if h.stack == Base then []
    else if InList(h.stack) then ObjectTexts(Level(h.stack, 1).items)
    else KeptObjects(ScanRoot(RootItems(h.stack)))
  }

  function KeptObjects(scan: Option<RootScan>): seq<seq<char>> {
    if scan.Some? && scan.value.ac.Some? then ObjectTexts(scan.value.ac.value) else []
  }

  predicate ObjectsOk(judge: Judge, texts: seq<seq<char>>) {
    && |texts| <= MAX_OBJECTS
    && forall i :: 0 <= i < |texts| ==> |texts[i]| <= MAX_OBJECT_BYTES && judge(texts[i]) != Malformed
  }

  predicate Admitted(judge: Judge, h: Hist) {
    && ShapeOk(h) && ScansOk(h) && ObjectsOk(judge, Objects(h))
    && (Capturing(h) ==> |OpenText(h, 2)| <= MAX_OBJECT_BYTES)
  }

  // ----- the state

  /** The aircraft among the objects, in order. */
  function Inserted(judge: Judge, texts: seq<seq<char>>): (r: seq<Aircraft>)
    ensures |r| <= |texts|
  {
    if texts == [] then []
    else match judge(Last(texts))
         case Accepted(a) => Inserted(judge, Init(texts)) + [a]
         case _ => Inserted(judge, Init(texts))
  }

  function TallyOf(judge: Judge, texts: seq<seq<char>>): Tally {
    var inserted := Inserted(judge, texts);
    Tally(|texts|, |texts| - |inserted|, Nearest(inserted))
  }

  function Closings(stack: Stack): (c: seq<char>)
    ensures |c| == Depth(stack)
    ensures stack.Open? ==> Last(c) == Close(stack.open) && Init(c) == Closings(stack.below)
  {
    match stack
    case Base => []
    case Open(below, open, _) => Closings(below) + [Close(open)]
  }

  function QuotedOf(h: Hist): Option<Quoted>
    requires h.str.Some? ==> ScanStr(h.str.value).Some? && h.stack.Open?
  {
    if h.str == None then None
    else
      var s := ScanStr(h.str.value).value;
      var last := LastRoot(h.stack);
      var key := Depth(h.stack) == 1 && (last == '{' || last == ',');
      Some(Quoted(s.escaped, if key then Some(Key(s.key, s.hadEscape)) else None))
  }

  function LastRoot(stack: Stack): char {
    if stack.Open? && ScanRoot(RootItems(stack)).Some? then ScanRoot(RootItems(stack)).value.last else '\0'
  }

  function AcOf(stack: Stack): Ac
    requires stack.Open? && ScanRoot(RootItems(stack)).Some?
    requires Depth(stack) >= 2 ==> SecondLevelOk(stack, ScanRoot(RootItems(stack)).value)
  {
    var r := ScanRoot(RootItems(stack)).value;
    if Depth(stack) >= 2 && r.awaits == AcArray then
      var a := ScanAc(Level(stack, 1).items).value;
      Inside(a.expectObject && Depth(stack) == 2, a.anyObject)
    else if r.ac.Some? then Complete
    else Unseen
  }

  function StateOf(judge: Judge, h: Hist): State
    requires Admitted(judge, h)
  {
    var tally := TallyOf(judge, Objects(h));
    if h.root.Some? then
      var r := ScanRoot(h.root.value).value;
      State(true, true, [], r.last, None, Anything, if r.ac.Some? then Complete else Unseen, None, tally)
    else if h.stack == Base then
      INITIAL.(tally := tally)
    else
      var r := ScanRoot(RootItems(h.stack)).value;
      State(true, false, Closings(h.stack), r.last, QuotedOf(h),
            if Depth(h.stack) == 1 then r.awaits else Anything, AcOf(h.stack),
            if Capturing(h) then Some(OpenText(h, 2)) else None, tally)
  }
}
