/**
  * The members of the root object, twice: as rules on its significant tokens
  * (the form a reader would check a response against), and as a left-to-right
  * scan that the stream parser can be compared with.  The two agree.
  */
module Response {
  import opened Common
  import opened Body

  const MAX_OBJECT_BYTES: nat := 4096
  const MAX_OBJECTS: nat := 8192

  predicate Space(t: Token) { t.Atom? && Whitespace(t.byte) }

  predicate IsObject(t: Token) { t.Group? && t.open == '{' }

  // ----- the rules

  /** Everything but white space, in reading order. */
  function Significant(items: Items): seq<Token> {
    match items
    case Nil => []
    case Snoc(rest, t) => if Space(t) then Significant(rest) else Significant(rest) + [t]
  }

  /** A string is a key when nothing or a comma stands before it. */
  predicate KeyAt(ts: seq<Token>, i: nat)
    requires i < |ts|
  {
    ts[i].Str? && (i == 0 || ts[i - 1] == Atom(','))
  }

  predicate AcKeyAt(ts: seq<Token>, i: nat)
    requires i < |ts|
  {
    KeyAt(ts, i) && ts[i].raw == "ac"
  }

  /** The contents of an aircraft array: objects with single commas between
      them.  Strings are skipped: the source's quote test runs before its
      array test, so one may stand anywhere in the list. */
  function Listed(items: Items): seq<Token> {
    match items
    case Nil => []
    case Snoc(rest, t) => if Space(t) || t.Str? then Listed(rest) else Listed(rest) + [t]
  }

  predicate Alternates(ts: seq<Token>) {
    forall i :: 0 <= i < |ts| ==> if i % 2 == 0 then IsObject(ts[i]) else ts[i] == Atom(',')
  }

  predicate AircraftList(items: Items) {
    Alternates(Listed(items)) && (Listed(items) == [] || |Listed(items)| % 2 == 1)
  }

  predicate AircraftArray(t: Token) {
    t.Group? && t.open == '[' && AircraftList(t.inner)
  }

  /** Each key is followed by a colon, and the key "ac" then by an aircraft array. */
  predicate MemberOk(ts: seq<Token>, i: nat)
    requires i < |ts|
  {
    KeyAt(ts, i) ==>
      && i + 1 < |ts| && ts[i + 1] == Atom(':')
      && (ts[i].raw == "ac" ==> i + 2 < |ts| && AircraftArray(ts[i + 2]))
  }

  /** The rules on a root object, `at` being the one place of the key "ac". */
  predicate RootOk(ts: seq<Token>, at: nat) {
    && at < |ts| && AcKeyAt(ts, at)
    && (forall i :: 0 <= i < |ts| ==> MemberOk(ts, i))
    && (forall i :: 0 <= i < |ts| && AcKeyAt(ts, i) ==> i == at)
  }

  /** The contents of the aircraft array under the key "ac". */
  function AcList(ts: seq<Token>, at: nat): Items
    requires RootOk(ts, at)
  {
    assert MemberOk(ts, at);
    ts[at + 2].inner
  }

  /** The objects standing directly in a list, as text. */
  function ObjectTexts(items: Items): seq<seq<char>> {
    match items
    case Nil => []
    case Snoc(rest, t) => if IsObject(t) then ObjectTexts(rest) + [Text(t)] else ObjectTexts(rest)
  }

  // ----- the scan

  datatype Await = Anything | Colon(ac: bool) | AcArray

  datatype RootScan = RootScan(last: char, awaits: Await, ac: Option<Items>)

  function EndChar(t: Token): char {
    match t
    case Atom(b) => b
    case Str(_) => '"'
    case Group(open, _) => Close(open)
  }

  function RootNext(r: RootScan, t: Token): Option<RootScan> {
    if Space(t) then Some(r)
    else match r.awaits
         case Colon(ac) =>
           if t == Atom(':') then Some(r.(last := ':', awaits := if ac then AcArray else Anything))
           else None
         case AcArray =>
           if t.Group? && t.open == '[' && r.ac == None && ScanAc(t.inner).Some? && AcEnd(ScanAc(t.inner).value)
           then Some(RootScan(']', Anything, Some(t.inner)))
           else None
         case Anything =>
           Some(r.(last := EndChar(t),
                   awaits := if t.Str? && (r.last == '{' || r.last == ',') then Colon(t.raw == "ac")
                             else Anything))
  }

  function ScanRoot(items: Items): Option<RootScan> {
    match items
    case Nil => Some(RootScan('{', Anything, None))
    case Snoc(rest, t) =>
      match ScanRoot(rest)
      case None => None
      case Some(r) => RootNext(r, t)
  }

  datatype AcScan = AcScan(expectObject: bool, anyObject: bool)

  predicate AcEnd(a: AcScan) { !(a.expectObject && a.anyObject) }

  function AcNext(a: AcScan, t: Token): Option<AcScan> {
    if Space(t) || t.Str? then Some(a)
    else if t == Atom(',') then
      if a.expectObject || !a.anyObject then None else Some(AcScan(true, a.anyObject))
    else if IsObject(t) then
      if a.expectObject then Some(AcScan(false, true)) else None
    else None
  }

  function ScanAc(items: Items): Option<AcScan> {
    match items
    case Nil => Some(AcScan(true, false))
    case Snoc(rest, t) =>
      match ScanAc(rest)
      case None => None
      case Some(a) => AcNext(a, t)
  }

  // ----- the scan follows the rules

  lemma {:induction false} ScanAcMeaning(items: Items)
    ensures ScanAc(items).Some? <==> Alternates(Listed(items))
    ensures ScanAc(items).Some? ==>
              ScanAc(items).value == AcScan(|Listed(items)| % 2 == 0, Listed(items) != [])
  {
    match items
    case Nil =>
    case Snoc(rest, t) =>
      ScanAcMeaning(rest);
      var before, now := Listed(rest), Listed(items);
      if !Space(t) && !t.Str? {
        assert now == before + [t];
        assert Alternates(now) <==>
               (Alternates(before) && (if |before| % 2 == 0 then IsObject(t) else t == Atom(','))) by {
          if Alternates(now) {
            forall i | 0 <= i < |before| ensures before[i] == now[i] {}
            assert now[|before|] == t;
          }
        }
      }
  }

  lemma AcArrayMeaning(t: Token)
    ensures AircraftArray(t) <==>
            t.Group? && t.open == '[' && ScanAc(t.inner).Some? && AcEnd(ScanAc(t.inner).value)
  {
    if t.Group? { ScanAcMeaning(t.inner); }
  }

  /** The rules as far as a prefix of the tokens can show them. */
  predicate MemberSoFar(ts: seq<Token>, i: nat)
    requires i < |ts|
  {
    KeyAt(ts, i) ==>
      && (i + 1 < |ts| ==> ts[i + 1] == Atom(':'))
      && (ts[i].raw == "ac" && i + 2 < |ts| ==> AircraftArray(ts[i + 2]))
  }

  predicate PrefixOk(ts: seq<Token>, ac: Option<nat>) {
    && (forall i :: 0 <= i < |ts| ==> MemberSoFar(ts, i))
    && (ac.Some? ==> ac.value + 2 < |ts| && AcKeyAt(ts, ac.value) && AircraftArray(ts[ac.value + 2]))
    && (forall i :: 0 <= i < |ts| - 2 && AcKeyAt(ts, i) ==> ac == Some(i))
  }

  /** Where the scan stands after these tokens. */
  function Expected(ts: seq<Token>): Await {
    if |ts| >= 1 && KeyAt(ts, |ts| - 1) then Colon(Last(ts).raw == "ac")
    else if |ts| >= 2 && AcKeyAt(ts, |ts| - 2) then AcArray
    else Anything
  }

  function ScanOf(ts: seq<Token>, ac: Option<nat>): RootScan
    requires PrefixOk(ts, ac)
  {
    RootScan(if ts == [] then '{' else EndChar(Last(ts)), Expected(ts),
             match ac case None => None case Some(i) => Some(ts[i + 2].inner))
  }

  ghost predicate Scanned(items: Items, ac: Option<nat>) {
    PrefixOk(Significant(items), ac) && ScanRoot(items) == Some(ScanOf(Significant(items), ac))
  }

  lemma KeyPrefix(ts: seq<Token>, t: Token, i: nat)
    requires i < |ts|
    ensures KeyAt(ts + [t], i) == KeyAt(ts, i) && AcKeyAt(ts + [t], i) == AcKeyAt(ts, i)
  {}

  /** A prefix that breaks a rule cannot be completed. */
  lemma PrefixClosed(ts: seq<Token>, t: Token, ac: Option<nat>)
    requires PrefixOk(ts + [t], ac)
    ensures PrefixOk(ts, if ac == Some(|ts| - 2) then None else ac)
  {
    var us := ts + [t];
    forall i | 0 <= i < |ts| ensures MemberSoFar(ts, i) {
      KeyPrefix(ts, t, i);
      assert MemberSoFar(us, i);
    }
    if ac.Some? { KeyPrefix(ts, t, ac.value); }
    forall i | 0 <= i < |ts| - 2 && AcKeyAt(ts, i) ensures ac == Some(i) {
      KeyPrefix(ts, t, i);
    }
  }

  /** One more significant token: the scan goes on exactly when the rules still hold. */
  lemma ScanStep(ts: seq<Token>, t: Token, ac: Option<nat>) returns (ac': Option<nat>)
    requires PrefixOk(ts, ac) && !Space(t) && (t.Group? ==> Opens(t.open))
    requires forall i :: 0 <= i < |ts| ==> ts[i] != Atom('{')
    ensures RootNext(ScanOf(ts, ac), t).Some? ==>
              PrefixOk(ts + [t], ac') && RootNext(ScanOf(ts, ac), t) == Some(ScanOf(ts + [t], ac'))
    ensures RootNext(ScanOf(ts, ac), t) == None ==> forall x :: !PrefixOk(ts + [t], x)
  {
    var us, n := ts + [t], |ts|;
    ac' := if n >= 2 && AcKeyAt(ts, n - 2) && ac == None then Some(n - 2) else ac;
    AcArrayMeaning(t);
    var r := RootNext(ScanOf(ts, ac), t);
    if r.Some? {
      assert PrefixOk(us, ac') by {
        forall i | 0 <= i < |us| ensures MemberSoFar(us, i) {
          if i < n { KeyPrefix(ts, t, i); assert MemberSoFar(ts, i); }
        }
        if ac'.Some? { KeyPrefix(ts, t, ac'.value); }
        forall i | 0 <= i < |us| - 2 && AcKeyAt(us, i) ensures ac' == Some(i) {
          KeyPrefix(ts, t, i);
        }
      }
    } else {
      forall x ensures !PrefixOk(us, x) {
        if PrefixOk(us, x) {
          if n >= 1 { KeyPrefix(ts, t, n - 1); assert MemberSoFar(us, n - 1); }
          if n >= 2 { KeyPrefix(ts, t, n - 2); assert MemberSoFar(us, n - 2); }
          if ac.Some? { KeyPrefix(ts, t, ac.value); }
        }
      }
    }
  }

  predicate Proper(ts: seq<Token>) {
    forall i :: 0 <= i < |ts| ==> ts[i] != Atom('{') && (ts[i].Group? ==> Opens(ts[i].open))
  }

  lemma {:induction false} SignificantProper(items: Items, depth: nat)
    requires TokensOk(items, depth)
    ensures Proper(Significant(items))
  {
    match items
    case Nil =>
    case Snoc(rest, t) => SignificantProper(rest, depth);
  }

  lemma {:induction false} ScanRootMeaning(items: Items, depth: nat) returns (ac: Option<nat>)
    requires TokensOk(items, depth)
    ensures ScanRoot(items).Some? ==> Scanned(items, ac)
    ensures ScanRoot(items) == None ==> forall x :: !PrefixOk(Significant(items), x)
  {
    match items
    case Nil => ac := None;
    case Snoc(rest, t) =>
      var before := ScanRootMeaning(rest, depth);
      SignificantProper(rest, depth);
      if Space(t) {
        ac := before;
      } else if ScanRoot(rest).Some? {
        ac := ScanStep(Significant(rest), t, before);
      } else {
        ac := None;
        forall x ensures !PrefixOk(Significant(items), x) {
          if PrefixOk(Significant(items), x) {
            PrefixClosed(Significant(rest), t, x);
          }
        }
      }
  }

  /** The scan ends with an aircraft array, and nothing awaited, exactly when the
      rules hold; the array it kept is then the value of the one key "ac". */
  lemma ScanIsRules(items: Items, depth: nat)
    requires TokensOk(items, depth)
    ensures var scan := ScanRoot(items);
            (exists at: nat :: RootOk(Significant(items), at)) <==>
            (scan.Some? && scan.value.awaits == Anything && scan.value.ac.Some?)
    ensures forall at: nat :: RootOk(Significant(items), at) ==>
              ScanRoot(items).Some? && ScanRoot(items).value.ac == Some(AcList(Significant(items), at))
  {
    var ts, scan := Significant(items), ScanRoot(items);
    var ac := ScanRootMeaning(items, depth);
    forall at: nat | RootOk(ts, at)
      ensures scan.Some? && scan.value.awaits == Anything && scan.value.ac == Some(AcList(ts, at))
    {
      RulesArePrefix(ts, at);
      assert PrefixOk(ts, Some(at)) && scan.Some?;
      assert ac == Some(at);
      assert MemberOk(ts, |ts| - 1) && MemberOk(ts, |ts| - 2);
    }
    if scan.Some? && scan.value.awaits == Anything && scan.value.ac.Some? {
      CompleteIsRules(ts, ac.value);
      assert RootOk(Significant(items), ac.value);
      assert exists at: nat :: RootOk(Significant(items), at);
    } else {
      assert forall at: nat :: !RootOk(ts, at);
    }
  }

  lemma RulesArePrefix(ts: seq<Token>, at: nat)
    requires RootOk(ts, at)
    ensures at + 2 < |ts| && AircraftArray(ts[at + 2]) && PrefixOk(ts, Some(at))
  {
    assert MemberOk(ts, at);
    forall i | 0 <= i < |ts| ensures MemberSoFar(ts, i) { assert MemberOk(ts, i); }
  }

  lemma CompleteIsRules(ts: seq<Token>, at: nat)
    requires PrefixOk(ts, Some(at)) && Expected(ts) == Anything
    ensures RootOk(ts, at)
  {
    forall i | 0 <= i < |ts| ensures MemberOk(ts, i) { assert MemberSoFar(ts, i); }
  }
}
