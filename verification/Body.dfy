/**
  * What a feed response looks like as text: nested bracketed groups, quoted
  * strings and loose bytes.  A `Hist` is the same structure seen part-way, with
  * its open groups on a stack; `Grow` adds one byte to it and `Shrink` takes
  * the last byte off again.
  */
module Body {
  import opened Common

  const MAX_DEPTH: nat := 16

  datatype Token =
    | Atom(byte: char)
    | Str(raw: seq<char>)
    | Group(open: char, inner: Items)

  /** Tokens in reading order, the latest outermost. */
  datatype Items = Nil | Snoc(rest: Items, last: Token)

  /** Groups still open, the innermost outermost. */
  datatype Stack = Base | Open(below: Stack, open: char, items: Items)

  /** A whole response: one object between runs of white space. */
  datatype Document = Document(lead: seq<char>, root: Items, trail: seq<char>)

  datatype Hist = Hist(lead: seq<char>, stack: Stack, str: Option<seq<char>>,
                       root: Option<Items>, trail: seq<char>)

  const START := Hist([], Base, None, None, [])

  predicate Whitespace(b: char) { b == ' ' || b == '\t' || b == '\r' || b == '\n' }

  predicate Opens(b: char) { b == '{' || b == '[' }

  predicate Closes(b: char) { b == '}' || b == ']' }

  function Close(open: char): char { if open == '{' then '}' else ']' }

  predicate AllSpace(s: seq<char>) { forall i :: 0 <= i < |s| ==> Whitespace(s[i]) }

  // ----- text of a structure

  function Text(t: Token): seq<char> {
    match t
    case Atom(b) => [b]
    case Str(raw) => ['"'] + raw + ['"']
    case Group(open, inner) => [open] + TextAll(inner) + [Close(open)]
  }

  function TextAll(items: Items): seq<char> {
    match items
    case Nil => []
    case Snoc(rest, t) => TextAll(rest) + Text(t)
  }

  function Depth(stack: Stack): nat {
    match stack
    case Base => 0
    case Open(below, _, _) => Depth(below) + 1
  }

  /** Text of the open groups at levels `k` and up (level 0 is the root object). */
  function TextAbove(stack: Stack, k: nat): seq<char> {
    match stack
    case Base => []
    case Open(below, open, items) =>
      if Depth(below) < k then []
      else TextAbove(below, k) + [open] + TextAll(items)
  }

  function PartText(str: Option<seq<char>>): seq<char> {
    match str
    case None => []
    case Some(raw) => ['"'] + raw
  }

  function RootText(root: Option<Items>): seq<char> {
    match root
    case None => []
    case Some(items) => Text(Group('{', items))
  }

  function CoreText(h: Hist): seq<char> {
    TextAbove(h.stack, 0) + PartText(h.str) + RootText(h.root)
  }

  function HistText(h: Hist): seq<char> {
    h.lead + CoreText(h) + h.trail
  }

  function DocText(d: Document): seq<char> {
    d.lead + Text(Group('{', d.root)) + d.trail
  }

  function HistOf(d: Document): Hist {
    Hist(d.lead, Base, None, Some(d.root), d.trail)
  }

  // ----- strings

  /** A string read up to some point: is the next byte escaped, and which of
      its first unescaped bytes would a root key have kept. */
  datatype StrScan = StrScan(escaped: bool, key: seq<char>, hadEscape: bool)

  const KEY_BYTES: nat := 8

  function StrNext(s: StrScan, b: char): Option<StrScan> {
    if s.escaped then Some(StrScan(false, s.key, true))
    else if b == '\\' then Some(s.(escaped := true))
    else if b == '"' || b < ' ' then None
    else Some(if |s.key| < KEY_BYTES then s.(key := s.key + [b]) else s)
  }

  function ScanStr(raw: seq<char>): Option<StrScan> {
    if raw == [] then Some(StrScan(false, [], false))
    else match ScanStr(Init(raw))
         case None => None
         case Some(s) => StrNext(s, Last(raw))
  }

  /** The inside of a complete string: every quote escaped, no bare control. */
  predicate StrOk(raw: seq<char>) {
    ScanStr(raw).Some? && !ScanStr(raw).value.escaped
  }

  // ----- well-formed tokens

  predicate TokenOk(t: Token, depth: nat) {
    match t
    case Atom(b) => b != '"' && !Opens(b) && !Closes(b)
    case Str(raw) => StrOk(raw)
    case Group(open, inner) => Opens(open) && depth < MAX_DEPTH && TokensOk(inner, depth + 1)
  }

  predicate TokensOk(items: Items, depth: nat) {
    match items
    case Nil => true
    case Snoc(rest, t) => TokensOk(rest, depth) && TokenOk(t, depth)
  }

  predicate StackOk(stack: Stack) {
    match stack
    case Base => true
    case Open(below, open, items) =>
      && StackOk(below)
      && Depth(stack) <= MAX_DEPTH
      && (if below == Base then open == '{' else Opens(open))
      && TokensOk(items, Depth(stack))
  }

  /** Everything about a history that brackets, quotes and the nesting limit decide. */
  predicate ShapeOk(h: Hist) {
    && AllSpace(h.lead) && AllSpace(h.trail)
    && StackOk(h.stack)
    && (h.str.Some? ==> h.stack.Open? && ScanStr(h.str.value).Some?)
    && (if h.root.Some?
        then h.stack == Base && h.str == None && TokensOk(h.root.value, 1)
        else h.trail == [])
  }

  predicate DocShapeOk(d: Document) {
    AllSpace(d.lead) && AllSpace(d.trail) && TokensOk(d.root, 1)
  }

  // ----- one more byte, one byte fewer

  /** Adds a finished token to the innermost open group. */
  function Put(stack: Stack, t: Token): Stack
    requires stack.Open?
  {
    stack.(items := Snoc(stack.items, t))
  }

  function Grow(h: Hist, b: char): Option<Hist> {
    if h.root.Some? then
      Some(h.(trail := h.trail + [b]))
    else if h.str.Some? then
      if h.stack == Base then None
      else if b == '"' && ScanStr(h.str.value).Some? && !ScanStr(h.str.value).value.escaped then
        Some(h.(stack := Put(h.stack, Str(h.str.value)), str := None))
      else Some(h.(str := Some(h.str.value + [b])))
    else if h.stack == Base then
      if b == '{' then Some(h.(stack := Open(Base, '{', Nil)))
      else Some(h.(lead := h.lead + [b]))
    else if b == '"' then
      Some(h.(str := Some([])))
    else if Opens(b) then
      Some(h.(stack := Open(h.stack, b, Nil)))
    else if Closes(b) then
      if b != Close(h.stack.open) then None
      else if h.stack.below == Base then
        Some(h.(stack := Base, root := Some(h.stack.items)))
      else
        Some(h.(stack := Put(h.stack.below, Group(h.stack.open, h.stack.items))))
    else
      Some(h.(stack := Put(h.stack, Atom(b))))
  }

  function Shrink(h: Hist): Hist
    requires h != START
  {
    match h.root
    case Some(items) =>
      if h.trail != [] then h.(trail := Init(h.trail))
      else h.(stack := Open(Base, '{', items), root := None)
    case None =>
      match h.str
      case Some(raw) => if raw == [] then h.(str := None) else h.(str := Some(Init(raw)))
      case None =>
        match h.stack
        case Base => if h.lead == [] then h.(trail := []) else h.(lead := Init(h.lead))
        case Open(below, open, Nil) => h.(stack := below)
        case Open(below, open, Snoc(rest, Atom(_))) => h.(stack := Open(below, open, rest))
        case Open(below, open, Snoc(rest, Str(raw))) =>
          h.(stack := Open(below, open, rest), str := Some(raw))
        case Open(below, open, Snoc(rest, Group(o, inner))) =>
          h.(stack := Open(Open(below, open, rest), o, inner))
  }

  lemma LastSpace(s: seq<char>, b: char)
    ensures AllSpace(s + [b]) <==> AllSpace(s) && Whitespace(b)
  {
    assert (s + [b])[|s|] == b;
    forall i | 0 <= i < |s| ensures (s + [b])[i] == s[i] {}
  }

  /** A token put into an innermost group at level `k` or above extends the text from there. */
  lemma PutText(stack: Stack, t: Token, k: nat)
    requires stack.Open? && k < Depth(stack)
    ensures TextAbove(Put(stack, t), k) == TextAbove(stack, k) + Text(t)
  {
    var front := TextAbove(stack.below, k) + [stack.open];
    Assoc(front, TextAll(stack.items), Text(t));
  }

  lemma Assoc<T>(a: seq<T>, b: seq<T>, c: seq<T>)
    ensures (a + b) + c == a + (b + c)
  {}

  /** Text of a history that is inside its root object, from level `k` up. */
  function OpenText(h: Hist, k: nat): seq<char> {
    TextAbove(h.stack, k) + PartText(h.str)
  }

  /** Growing adds the byte to the text from any level that stays open. */
  lemma GrowOpenText(h: Hist, b: char, k: nat)
    requires ShapeOk(h) && Grow(h, b).Some? && h.root == None
    requires k < Depth(h.stack) && k < Depth(Grow(h, b).value.stack)
    ensures OpenText(Grow(h, b).value, k) == OpenText(h, k) + [b]
  {
    var g := Grow(h, b).value;
    if h.str.Some? {
      if g.str == None {
        PutText(h.stack, Str(h.str.value), k);
        Assoc(TextAbove(h.stack, k), PartText(h.str), [b]);
      } else {
        assert PartText(g.str) == PartText(h.str) + [b];
      }
    } else if b != '"' {
      GrowStackText(h, b, k);
    }
  }

  lemma GrowStackText(h: Hist, b: char, k: nat)
    requires ShapeOk(h) && Grow(h, b).Some? && h.root == None && h.str == None && b != '"'
    requires k < Depth(h.stack) && k < Depth(Grow(h, b).value.stack)
    ensures TextAbove(Grow(h, b).value.stack, k) == TextAbove(h.stack, k) + [b]
  {
    var s := h.stack;
    if Opens(b) {
    } else if Closes(b) {
      GroupText(s, b, k);
      PutText(s.below, Group(s.open, s.items), k);
    } else {
      PutText(s, Atom(b), k);
    }
  }

  /** The innermost group's text is the end of the text from its level or below. */
  lemma GroupText(s: Stack, b: char, k: nat)
    requires s.Open? && k <= Depth(s.below) && b == Close(s.open)
    ensures TextAbove(s, k) + [b] == TextAbove(s.below, k) + Text(Group(s.open, s.items))
  {
    Assoc(TextAbove(s.below, k), [s.open], TextAll(s.items));
    Assoc(TextAbove(s.below, k), [s.open] + TextAll(s.items), [b]);
  }

  lemma NothingAbove(s: Stack)
    ensures forall k :: k >= Depth(s) ==> TextAbove(s, k) == []
  {}

  /** Growing adds exactly the byte to the text. */
  lemma GrowText(h: Hist, b: char)
    requires ShapeOk(h) && Grow(h, b).Some?
    ensures HistText(Grow(h, b).value) == HistText(h) + [b]
  {
    if h.root == None && h.stack != Base { GrowTextInside(h, b); }
  }

  lemma GrowTextInside(h: Hist, b: char)
    requires ShapeOk(h) && Grow(h, b).Some? && h.root == None && h.stack != Base
    ensures HistText(Grow(h, b).value) == HistText(h) + [b]
  {
    var g := Grow(h, b).value;
    assert CoreText(g) == CoreText(h) + [b] by {
      assert CoreText(h) == OpenText(h, 0);
      if g.stack == Base {
        GroupText(h.stack, b, 0);
        assert OpenText(h, 0) == TextAbove(h.stack, 0);
      } else {
        GrowOpenText(h, b, 0);
        assert CoreText(g) == OpenText(g, 0);
      }
    }
    Assoc(h.lead, CoreText(h), [b]);
    assert HistText(h) == h.lead + CoreText(h) && HistText(g) == h.lead + CoreText(g);
  }

  /** The tokens of a well-formed history can be taken back one byte at a time. */
  lemma ShrinkGrow(h: Hist)
    requires ShapeOk(h) && h != START
    ensures ShapeOk(Shrink(h))
    ensures HistText(h) != [] && Grow(Shrink(h), Last(HistText(h))) == Some(h)
  {
    if h.root == None && h.str == None {
      ShrinkGrowStack(h);
    } else {
      ShrinkGrowOther(h);
    }
  }

  lemma ShrinkGrowOther(h: Hist)
    requires ShapeOk(h) && (h.root.Some? || h.str.Some?)
    ensures ShapeOk(Shrink(h))
    ensures HistText(h) != [] && Grow(Shrink(h), Last(HistText(h))) == Some(h)
  {
    var g := Shrink(h);
    if h.root.Some? {
      if h.trail != [] {
        assert h.trail == g.trail + [Last(h.trail)];
        LastSpace(g.trail, Last(h.trail));
      } else {
        assert Last(HistText(h)) == '}';
      }
    } else if h.str.Some? {
      if h.str.value != [] {
        var raw := h.str.value;
        assert raw == Init(raw) + [Last(raw)];
        assert Last(HistText(h)) == Last(raw);
      }
    }
  }

  lemma ShrinkGrowStack(h: Hist)
    requires ShapeOk(h) && h != START && h.root == None && h.str == None
    ensures ShapeOk(Shrink(h))
    ensures HistText(h) != [] && Grow(Shrink(h), Last(HistText(h))) == Some(h)
  {
    var g := Shrink(h);
    match h.stack
    case Base =>
      assert h.lead == g.lead + [Last(h.lead)];
      LastSpace(g.lead, Last(h.lead));
    case Open(below, open, Nil) =>
      assert HistText(h) == h.lead + TextAbove(below, 0) + [open];
    case Open(below, open, Snoc(rest, t)) =>
      ShrinkShape(h, below, open, rest, t);
      ShrinkLast(h, below, open, rest, t);
      RegrowToken(h, below, open, rest, t);
  }

  lemma ShrinkLast(h: Hist, below: Stack, open: char, rest: Items, t: Token)
    requires ShapeOk(h) && h.root == None && h.str == None
    requires h.stack == Open(below, open, Snoc(rest, t))
    ensures HistText(h) != [] && Last(HistText(h)) == Last(Text(t)) && Text(t) != []
  {
    LastOfText(t);
    var front := h.lead + (TextAbove(below, 0) + [open] + TextAll(rest));
    assert HistText(h) == front + Text(t) by {
      assert TextAbove(h.stack, 0) == TextAbove(below, 0) + [open] + (TextAll(rest) + Text(t));
      assert HistText(h) == h.lead + TextAbove(h.stack, 0);
    }
  }

  lemma RegrowToken(h: Hist, below: Stack, open: char, rest: Items, t: Token)
    requires h.root == None && h.str == None && h.trail == []
    requires h.stack == Open(below, open, Snoc(rest, t)) && TokenOk(t, Depth(h.stack))
    ensures Text(t) != [] && Grow(Shrink(h), Last(Text(t))) == Some(h)
  {
    LastOfText(t);
  }

  lemma LastOfText(t: Token)
    ensures Text(t) != []
    ensures Last(Text(t)) == match t case Atom(b) => b case Str(_) => '"' case Group(o, _) => Close(o)
  {}

  lemma ShrinkShape(h: Hist, below: Stack, open: char, rest: Items, t: Token)
    requires ShapeOk(h) && h.root == None && h.str == None
    requires h.stack == Open(below, open, Snoc(rest, t))
    ensures ShapeOk(Shrink(h)) && TokenOk(t, Depth(h.stack))
  {
    var d := Depth(h.stack);
    assert TokensOk(rest, d) && TokenOk(t, d);
    assert StackOk(Open(below, open, rest));
    match t
    case Atom(_) =>
    case Str(_) =>
    case Group(o, inner) => assert StackOk(Shrink(h).stack);
  }
}
