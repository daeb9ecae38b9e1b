/** The relative-change value family of nightcore/__init__.py.

    A change holds one `amount`. An interval variant (Semitones, Tones,
    Octaves, and any other subclass of the interval base class, such as the
    1200-per-octave Cents of the test suite) is identified by its number of
    steps per octave and converts to the multiplier 2^(amount / n). Percent
    converts to amount / 100. A multiplier of 1.0 means "no change". */
module Change {
  import opened Exp2
  import opened Errors

  /** Steps per octave of an interval class; always positive. */
  type PerOctave = n: int | 0 < n witness 1

  const SEMITONES_PER_OCTAVE: PerOctave := 12
  const TONES_PER_OCTAVE: PerOctave := 6
  const OCTAVES_PER_OCTAVE: PerOctave := 1
  /** The Cents interval the test suite declares on top of the base class. */
  const CENTS_PER_OCTAVE: PerOctave := 1200

  /** One relative change. Python floats are modelled as reals. */
  datatype Change =
    | Interval(amount: real, n: PerOctave)
    | Percent(amount: real)

  function Semitones(amount: real): Change { Interval(amount, SEMITONES_PER_OCTAVE) }
  function Tones(amount: real): Change { Interval(amount, TONES_PER_OCTAVE) }
  function Octaves(amount: real): Change { Interval(amount, OCTAVES_PER_OCTAVE) }
  function Cents(amount: real): Change { Interval(amount, CENTS_PER_OCTAVE) }

  /** Both changes are of the same class: both Percent, or intervals with
      the same number of steps per octave. */
  predicate SameClass(a: Change, b: Change) {
    a.Interval? == b.Interval? && (a.Interval? ==> a.n == b.n)
  }

  /** The same variant with another amount (a fresh value of the same class). */
  function WithAmount(c: Change, amount: real): (r: Change)
    ensures r.amount == amount
    ensures SameClass(r, c)
  {
    match c
    case Interval(_, n) => Interval(amount, n)
    case Percent(_) => Percent(amount)
  }

  /** How many octaves an interval spans: the exponent of its multiplier. */
  function OctaveFraction(c: Change): real
    requires c.Interval?
  {
    c.amount / c.n as real
  }

  /** as_percent(): 2 ** (amount / n) for intervals, amount / 100 for Percent. */
  function AsPercent(c: Change, pow2: real -> real): (r: real)
    ensures c.Interval? ==> r == pow2(OctaveFraction(c))
    ensures c.Percent? ==> r == c.amount / 100.0
  {
    match c
    case Interval(amount, n) => pow2(amount / n as real)
    case Percent(amount) => amount / 100.0
  }

  /** A Python value that may stand where a change or a number is expected:
      a bare number, a change, or anything else (shown by its repr). */
  datatype Value =
    | Num(value: real)
    | Rel(change: Change)
    | Other(repr: string)

  /** float(x): a number is itself, a change is its as_percent(), and any
      other value has no float conversion (None, where Python raises
      TypeError). */
  function Float(x: Value, pow2: real -> real): (r: Option<real>)
    ensures r.Some? <==> !x.Other?
    ensures x.Num? ==> r == Some(x.value)
    ensures x.Rel? ==> r == Some(AsPercent(x.change, pow2))
  {
    match x
    case Num(v) => Some(v)
    case Rel(c) => Some(AsPercent(c, pow2))
    case Other(_) => None
  }

  /** The `==` that @dataclass generates: the same concrete class and equal
      amounts. */
  function DataclassEq(a: Change, b: Change): (r: bool)
    ensures r <==> SameClass(a, b) && a.amount == b.amount
  {
    a == b
  }

  /** An interval of amount 0 is the no-change multiplier 1.0. */
  lemma ZeroIntervalIsNoChange(n: PerOctave, pow2: real -> real)
    requires IsExp2(pow2)
    ensures AsPercent(Interval(0.0, n), pow2) == 1.0
  {
    assert OctaveFraction(Interval(0.0, n)) == 0.0;
    ZeroExponent(pow2);
  }

  /** Percent(100) is the no-change multiplier 1.0 and Percent(0) is 0.0. */
  lemma PercentNoChange(pow2: real -> real)
    ensures AsPercent(Percent(100.0), pow2) == 1.0
    ensures AsPercent(Percent(0.0), pow2) == 0.0
  {
  }

  /** Two intervals give the same multiplier exactly when they span the same
      fraction of an octave, whatever their classes. */
  lemma SamePitchIffSameOctaveFraction(a: Change, b: Change, pow2: real -> real)
    requires IsExp2(pow2)
    requires a.Interval? && b.Interval?
    ensures AsPercent(a, pow2) == AsPercent(b, pow2)
            <==> a.amount * b.n as real == b.amount * a.n as real
  {
    Injective(pow2, OctaveFraction(a), OctaveFraction(b));
    FractionsEqual(a.amount, a.n as real, b.amount, b.n as real);
  }

  lemma FractionsEqual(a: real, n: real, b: real, m: real)
    requires 0.0 < n && 0.0 < m
    ensures a / n == b / m <==> a * m == b * n
  {
    assert a / n * (n * m) == a * m;
    assert b / m * (n * m) == b * n;
  }

  /** One octave up, in every unit: 12 semitones, 6 tones, 1 octave and 1200
      cents all double the rate. */
  lemma OneOctaveDoubles(pow2: real -> real)
    requires IsExp2(pow2)
    ensures AsPercent(Semitones(12.0), pow2) == 2.0
    ensures AsPercent(Tones(6.0), pow2) == 2.0
    ensures AsPercent(Octaves(1.0), pow2) == 2.0
    ensures AsPercent(Cents(1200.0), pow2) == 2.0
  {
    assert OctaveFraction(Semitones(12.0)) == 1.0;
    assert OctaveFraction(Tones(6.0)) == 1.0;
    assert OctaveFraction(Octaves(1.0)) == 1.0;
    assert OctaveFraction(Cents(1200.0)) == 1.0;
  }

  /** The cents in one step of each class: 100 per semitone, 200 per tone,
      1200 per octave. Hence k steps of a class are k * that many cents. */
  lemma CentsPerStep(k: real, pow2: real -> real)
    ensures CENTS_PER_OCTAVE / SEMITONES_PER_OCTAVE == 100
    ensures CENTS_PER_OCTAVE / TONES_PER_OCTAVE == 200
    ensures CENTS_PER_OCTAVE / OCTAVES_PER_OCTAVE == 1200
    ensures AsPercent(Semitones(k), pow2) == AsPercent(Cents(100.0 * k), pow2)
    ensures AsPercent(Tones(k), pow2) == AsPercent(Cents(200.0 * k), pow2)
    ensures AsPercent(Octaves(k), pow2) == AsPercent(Cents(1200.0 * k), pow2)
  {
    assert OctaveFraction(Cents(100.0 * k)) == OctaveFraction(Semitones(k));
    assert OctaveFraction(Cents(200.0 * k)) == OctaveFraction(Tones(k));
    assert OctaveFraction(Cents(1200.0 * k)) == OctaveFraction(Octaves(k));
  }

  /** An interval multiplier is always positive; it is above 1.0 exactly when
      the amount is positive. */
  lemma IntervalSpeedsUpIffPositive(c: Change, pow2: real -> real)
    requires IsExp2(pow2)
    requires c.Interval?
    ensures 0.0 < AsPercent(c, pow2)
    ensures 1.0 < AsPercent(c, pow2) <==> 0.0 < c.amount
    ensures AsPercent(c, pow2) < 1.0 <==> c.amount < 0.0
  {
    AboveOneIffPositive(pow2, OctaveFraction(c));
    assert 0.0 < OctaveFraction(c) <==> 0.0 < c.amount;
    assert OctaveFraction(c) < 0.0 <==> c.amount < 0.0;
  }

  /** Dataclass equality: Tones(1) == Tones(1), but Semitones(12), Octaves(1)
      and Percent(200) are pairwise different values even though they share
      a multiplier. */
  lemma DataclassEqDistinguishesClasses(pow2: real -> real)
    requires IsExp2(pow2)
    ensures DataclassEq(Tones(1.0), Tones(1.0))
    ensures !DataclassEq(Semitones(12.0), Octaves(1.0))
    ensures AsPercent(Semitones(12.0), pow2) == AsPercent(Octaves(1.0), pow2)
    ensures !DataclassEq(Percent(200.0), Octaves(1.0))
    ensures !DataclassEq(Semitones(12.0), Percent(200.0))
  {
    OneOctaveDoubles(pow2);
  }

  /** Dataclass-equal changes always share their multiplier. */
  lemma DataclassEqSamePercent(a: Change, b: Change, pow2: real -> real)
    requires DataclassEq(a, b)
    ensures AsPercent(a, pow2) == AsPercent(b, pow2)
  {
  }
}
