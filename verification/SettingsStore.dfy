/**
  * The two settings slots.  A save goes to the slot that loading would not use;
  * it may be cut short, leaving that slot as it was, written, or unreadable.
  */
module SettingsStore {
  import opened Common
  import opened Settings
  import opened SettingsRecord

  const GENERATION_MAX: nat := 0xFFFF_FFFF_FFFF_FFFF

  datatype Slot = A | B

  /** What the two slots decode to. */
  datatype Slots = Slots(a: Option<Settings>, b: Option<Settings>) {
    function Get(slot: Slot): Option<Settings> { if slot == A then a else b }

    function With(slot: Slot, s: Option<Settings>): Slots {
      if slot == A then this.(a := s) else this.(b := s)
    }
  }

  const EMPTY := Slots(None, None)

  /** The slot loading reads, if any can be read. */
  function Chosen(st: Slots): Option<Slot> {
    if st.a == None && st.b == None then None
    else if st.b == None || (st.a.Some? && st.a.value.generation >= st.b.value.generation) then Some(A)
    else Some(B)
  }

  function Loaded(st: Slots): Settings {
    match Chosen(st) case None => DEFAULTS case Some(slot) => st.Get(slot).value
  }

  /** The slot a save writes. */
  function Target(st: Slots): Slot {
    if st.a == None || (st.b.Some? && st.a.value.generation <= st.b.value.generation) then A else B
  }

  function Newest(st: Slots): nat {
    var a := if st.a.Some? then st.a.value.generation else 0;
    var b := if st.b.Some? then st.b.value.generation else 0;
    if a >= b then a else b
  }

  predicate Distinct(st: Slots) {
    st.a.Some? && st.b.Some? ==> st.a.value.generation != st.b.value.generation
  }

  predicate Readable(st: Slots) {
    (st.a.Some? ==> Validate(st.a.value)) && (st.b.Some? ==> Validate(st.b.value))
  }

  /** What a flash write leaves in its slot: what was there, the new record, or neither. */
  datatype Content = Old | New | Torn

  /** How a write ends: what it leaves, and whether the flash reports success. */
  datatype Fate = Fate(left: Content, reported: bool)

  const COMPLETED := Fate(New, true)

  datatype Attempt = Attempt(settings: Settings, fate: Fate)

  predicate Refused(st: Slots, s: Settings) { !Validate(s) || Newest(st) == GENERATION_MAX }

  /** The settings as a save stores them. */
  function Stamped(st: Slots, s: Settings): Settings
    requires Newest(st) < GENERATION_MAX
  {
    s.(generation := Newest(st) + 1)
  }

  predicate Lands(st: Slots, save: Attempt) {
    !Refused(st, save.settings) && save.fate.left == New
  }

  function After(st: Slots, save: Attempt): Slots
    requires Readable(st)
  {
    if Refused(st, save.settings) || save.fate.left == Old then st
    else st.With(Target(st), if save.fate.left == Torn then None else Some(Stamped(st, save.settings)))
  }

  function AfterAll(st: Slots, saves: seq<Attempt>): (r: Slots)
    requires Readable(st)
    ensures Readable(r)
    decreases |saves|
  {
    if saves == [] then st
    else
      var before := AfterAll(st, Init(saves));
      OneSave(before, Last(saves));
      After(before, Last(saves))
  }

  // ----- one save

  lemma OneSave(st: Slots, save: Attempt)
    requires Readable(st)
    ensures Readable(After(st, save))
  {
    if !Refused(st, save.settings) {
      assert Validate(Stamped(st, save.settings));
    }
  }

  /** A save never writes the slot that loading would use -- exactly when the
      generations differ. */
  lemma TargetIsSpare(st: Slots)
    ensures Distinct(st) <==> Chosen(st) != Some(Target(st))
  {}

  /** With equal generations a torn save loses the settings that loading gave. */
  lemma EqualGenerationsLose(s: Settings, t: Settings)
    requires Validate(s) && Validate(t) && s.generation == t.generation < GENERATION_MAX && s != t
    ensures var st := Slots(Some(s), Some(t));
            Loaded(st) == s && Loaded(After(st, Attempt(s, Fate(Torn, false)))) == t
  {}

  /** One save, however it ends, leaves loading at what it was or at the new
      settings, keeps the generations apart and never lets them go back. */
  lemma SaveIsAtomic(st: Slots, save: Attempt)
    requires Readable(st) && Distinct(st)
    ensures Distinct(After(st, save))
    ensures Loaded(After(st, save)) ==
              if Lands(st, save) then Stamped(st, save.settings) else Loaded(st)
    ensures Loaded(After(st, save)).generation >= Loaded(st).generation
  {}

  // ----- runs of saves

  /** The last save of a run that landed, with the generation it was given. */
  ghost function LastLanded(st: Slots, saves: seq<Attempt>): Option<nat>
    requires Readable(st)
    decreases |saves|
  {
    if saves == [] then None
    else if Lands(AfterAll(st, Init(saves)), Last(saves)) then Some(|saves| - 1)
    else LastLanded(st, Init(saves))
  }

  lemma {:induction false} RunStaysDistinct(st: Slots, saves: seq<Attempt>)
    requires Readable(st) && Distinct(st)
    ensures Distinct(AfterAll(st, saves))
    ensures Chosen(AfterAll(st, saves)) != Some(Target(AfterAll(st, saves)))
    decreases |saves|
  {
    hide Validate, After, Loaded, Chosen, Target, Distinct;
    if saves != [] {
      RunStaysDistinct(st, Init(saves));
      SaveIsAtomic(AfterAll(st, Init(saves)), Last(saves));
    }
    TargetIsSpare(AfterAll(st, saves));
  }

  /** After any run, loading gives the settings of the last save that landed. */
  lemma {:induction false} LoadsLastLanded(st: Slots, saves: seq<Attempt>)
    requires Readable(st) && Distinct(st)
    ensures match LastLanded(st, saves)
            case None => Loaded(AfterAll(st, saves)) == Loaded(st)
            case Some(i) =>
              && i < |saves|
              && saves[i].settings.(generation := 0) == Loaded(AfterAll(st, saves)).(generation := 0)
    decreases |saves|
  {
    hide Validate, Readable, After, Loaded, Chosen, Target, Distinct;
    if saves != [] {
      LoadsLastLanded(st, Init(saves));
      RunStaysDistinct(st, Init(saves));
      SaveIsAtomic(AfterAll(st, Init(saves)), Last(saves));
    }
  }

  /** ... which is never older than the last one that completed. */
  lemma {:induction false} NeverOlderThanCompleted(st: Slots, saves: seq<Attempt>, i: nat)
    requires Readable(st) && Distinct(st)
    requires i < |saves| && saves[i].fate == COMPLETED && !Refused(AfterAll(st, saves[..i]), saves[i].settings)
    ensures LastLanded(st, saves).Some? && LastLanded(st, saves).value >= i
    decreases |saves|
  {
    if i == |saves| - 1 {
      assert Init(saves) == saves[..i];
    } else {
      assert Init(saves)[..i] == saves[..i];
      NeverOlderThanCompleted(st, Init(saves), i);
    }
  }

  // ----- the slots as stored octets

  datatype SaveError = InvalidArgument | InvalidState | WriteFailed | InvalidResponse

  /** Success is what reads back; whatever the flash reports, nothing else is taken for it. */
  function Verdict(fate: Fate): Option<SaveError> {
    if !fate.reported then Some(WriteFailed) else if fate.left == New then None else Some(InvalidResponse)
  }

  class Nvs {
    const crc32: Checksum
    var a: Option<seq<byte>>
    var b: Option<seq<byte>>

    constructor (crc32: Checksum)
      ensures View() == EMPTY && this.crc32 == crc32
    {
      this.crc32 := crc32;
      a, b := None, None;
    }

    ghost function ReadOf(blob: Option<seq<byte>>): Option<Settings> {
      match blob case None => None case Some(wire) => Decode(crc32, wire)
    }

    ghost function View(): (st: Slots)
      reads this
      ensures Readable(st)
    {
      Slots(ReadOf(a), ReadOf(b))
    }

    method ReadSlot(slot: Slot) returns (r: Option<Settings>)
      ensures r == View().Get(slot)
    {
      var blob := if slot == A then a else b;
      if blob == None {
        return None;
      }
      r := DecodeSettings(crc32, blob.value);
    }

    method Load() returns (s: Settings)
      ensures s == Loaded(View())
    {
      hide ReadOf, Validate, Readable;
      var first := ReadSlot(A);
      var second := ReadSlot(B);
      if first == None && second == None {
        s := DEFAULTS;
      } else if second == None || (first.Some? && first.value.generation >= second.value.generation) {
        s := first.value;
      } else {
        s := second.value;
      }
    }

    method Put(slot: Slot, blob: seq<byte>)
      modifies this
      ensures View() == old(View()).With(slot, Decode(crc32, blob))
    {
      if slot == A {
        a := Some(blob);
      } else {
        b := Some(blob);
      }
    }

    method NewestGeneration() returns (newest: nat)
      ensures newest == Newest(View())
    {
      hide ReadOf, Validate, Readable;
      var first := ReadSlot(A);
      var second := ReadSlot(B);
      newest := 0;
      if first.Some? && first.value.generation > newest {
        newest := first.value.generation;
      }
      if second.Some? && second.value.generation > newest {
        newest := second.value.generation;
      }
    }

    method SpareSlot() returns (target: Slot)
      ensures target == Target(View())
    {
      hide ReadOf, Validate, Readable;
      var first := ReadSlot(A);
      var second := ReadSlot(B);
      target := if first == None || (second.Some? && first.value.generation <= second.value.generation) then A else B;
    }

    method Encoded(next: Settings) returns (blob: seq<byte>)
      requires Validate(next)
      ensures Decode(crc32, blob) == Some(next)
    {
      hide Validate, Decode, Record;
      RoundTrip(crc32, next);
      var wire := new byte[139];
      EncodeSettings(crc32, next, wire);
      blob := wire[..];
    }

    /** `fate` is how the flash write ends and `torn` what a torn one leaves. */
    method Save(settings: Settings, fate: Fate, torn: seq<byte>) returns (err: Option<SaveError>)
      requires Decode(crc32, torn) == None
      modifies this
      ensures View() == After(old(View()), Attempt(settings, fate))
      ensures err == if !Validate(settings) then Some(InvalidArgument)
                     else if Refused(old(View()), settings) then Some(InvalidState)
                     else Verdict(fate)
    {
      hide Validate, Decode, ReadOf, View, Newest, Target, Readable;
      if !Validate(settings) {
        return Some(InvalidArgument);
      }
      var newest := NewestGeneration();
      if newest == GENERATION_MAX {
        return Some(InvalidState);
      }
      NewestBounded(View());
      var next := settings.(generation := newest + 1);
      StampedValid(settings, newest + 1);
      var blob := Encoded(next);
      var target := SpareSlot();
      TargetIsOlder(View());
      err := Write(target, blob, fate, torn, next);
    }

    /** Writes the blob and, if the flash reports success, reads it back. */
    method Write(target: Slot, blob: seq<byte>, fate: Fate, torn: seq<byte>, next: Settings)
      returns (err: Option<SaveError>)
      requires Decode(crc32, torn) == None && Decode(crc32, blob) == Some(next)
      requires var before := View().Get(target); before.Some? ==> before.value.generation < next.generation
      modifies this
      ensures fate.left == Old ==> View() == old(View())
      ensures fate.left == Torn ==> View() == old(View()).With(target, None)
      ensures fate.left == New ==> View() == old(View()).With(target, Some(next))
      ensures err == Verdict(fate)
    {
      hide Validate, Decode, ReadOf, View;
      if fate.left == New {
        Put(target, blob);
      } else if fate.left == Torn {
        Put(target, torn);
      }
      if !fate.reported {
        return Some(WriteFailed);
      }
      var verified := ReadSlot(target);
      err := if verified == None || verified.value.generation != next.generation then Some(InvalidResponse) else None;
    }
  }

  lemma TargetIsOlder(st: Slots)
    ensures var before := st.Get(Target(st)); before.Some? ==> before.value.generation <= Newest(st)
  {}

  lemma NewestBounded(st: Slots)
    ensures Newest(st) <= GENERATION_MAX
  {}

  lemma StampedValid(s: Settings, generation: u64)
    requires Validate(s)
    ensures Validate(s.(generation := generation))
  {}
}
