/** The name -> class registry `step_types` of nightcore/__init__.py.

    `_NameTypeMap` is a dictionary; its `add` stores a class under its
    lower-case name and hands the class back, so it can decorate the class
    statement. The four change classes are registered in declaration order. */
module Registry {
  import opened Errors
  import opened Change

  /** The registered change classes. */
  datatype ChangeClass = SemitonesClass | TonesClass | OctavesClass | PercentClass

  /** `cls.__name__`. */
  function ClassName(cls: ChangeClass): string {
    match cls
    case SemitonesClass => "Semitones"
    case TonesClass => "Tones"
    case OctavesClass => "Octaves"
    case PercentClass => "Percent"
  }

  /** Calling the class with an amount: a change of that class. */
  function Construct(cls: ChangeClass, amount: real): (c: Change)
    ensures c.amount == amount
    ensures c.Percent? <==> cls == PercentClass
    ensures cls == SemitonesClass ==> c.n == SEMITONES_PER_OCTAVE
    ensures cls == TonesClass ==> c.n == TONES_PER_OCTAVE
    ensures cls == OctavesClass ==> c.n == OCTAVES_PER_OCTAVE
  {
    match cls
    case SemitonesClass => Semitones(amount)
    case TonesClass => Tones(amount)
    case OctavesClass => Octaves(amount)
    case PercentClass => Percent(amount)
  }

  /** `str.lower()` restricted to ASCII letters. */
  function LowerChar(ch: char): (r: char)
    ensures 'A' <= ch <= 'Z' ==> 'a' <= r <= 'z' && r as int - ch as int == 32
    ensures !('A' <= ch <= 'Z') ==> r == ch
  {
    if 'A' <= ch <= 'Z' then (ch as int + 32) as char else ch
  }

  function Lower(s: string): (r: string)
    ensures |r| == |s|
    ensures forall i :: 0 <= i < |s| ==> r[i] == LowerChar(s[i])
  {
    seq(|s|, i requires 0 <= i < |s| => LowerChar(s[i]))
  }

  /** The key under which `add` files a class. */
  function Key(cls: ChangeClass): string {
    Lower(ClassName(cls))
  }

  /** Lowering agrees with `t` character by character. */
  lemma LowerIs(s: string, t: string)
    requires |s| == |t|
    requires forall i :: 0 <= i < |s| ==> LowerChar(s[i]) == t[i]
    ensures Lower(s) == t
  {
  }

  /** The four keys are the lower-case class names. */
  lemma KeysAreLowerCaseNames()
    ensures Key(SemitonesClass) == "semitones"
    ensures Key(TonesClass) == "tones"
    ensures Key(OctavesClass) == "octaves"
    ensures Key(PercentClass) == "percent"
  {
    LowerIs("Semitones", "semitones");
    LowerIs("Tones", "tones");
    LowerIs("Octaves", "octaves");
    LowerIs("Percent", "percent");
  }

  /** Distinct classes get distinct keys, so no registration overwrites
      another. */
  lemma KeysDistinct(a: ChangeClass, b: ChangeClass)
    requires a != b
    ensures Key(a) != Key(b)
  {
    KeysAreLowerCaseNames();
    assert "octaves"[0] != "percent"[0];
  }

  /** `_NameTypeMap`: a dictionary from names to classes. */
  class NameTypeMap {
    var entries: map<string, ChangeClass>

    constructor ()
      ensures entries == map[]
    {
      entries := map[];
    }

    /** `add(obj)`: file `obj` under its lower-case name, return it unchanged. */
    method Add(obj: ChangeClass) returns (r: ChangeClass)
      modifies this
      ensures r == obj
      ensures entries == old(entries)[Key(obj) := obj]
    {
      entries := entries[Key(obj) := obj];
      r := obj;
    }

    /** `self.get(name)`. */
    function Get(name: string): (r: Option<ChangeClass>)
      reads this
      ensures r.Some? <==> name in entries
      ensures r.Some? ==> entries[name] == r.value
    {
      if name in entries then Some(entries[name]) else None
    }
  }

  /** The module-level registrations: `step_types` after the four
      `@step_types.add` decorators have run. */
  method StepTypes() returns (m: NameTypeMap)
    ensures fresh(m)
    ensures m.entries.Keys == {"semitones", "tones", "octaves", "percent"}
    ensures forall cls :: Key(cls) in m.entries && m.entries[Key(cls)] == cls
  {
    KeysAreLowerCaseNames();
    m := new NameTypeMap();
    var cls := m.Add(SemitonesClass);
    cls := m.Add(TonesClass);
    cls := m.Add(OctavesClass);
    cls := m.Add(PercentClass);
    forall a | true
      ensures Key(a) in m.entries && m.entries[Key(a)] == a
    {
      forall b | b != a { KeysDistinct(a, b); }
    }
  }
}
