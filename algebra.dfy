/** The operators that tests/test_relative_change.py asserts of relative
    changes: unary sign, comparisons, numeric coercion, interval arithmetic
    with unit rescaling, and Percent's forward and reverse arithmetic. The
    module that implements them, nightcore.change, is not part of this model;
    each operator is a named function here. Routing comparisons and `int()`
    through `as_percent()` is this model's choice. An operand pair the model
    does not support gives `UnsupportedOperand`, where Python would raise
    `TypeError` after trying the reflected method; `==` with an operand that
    has no float conversion is also `UnsupportedOperand` here, although
    Python's `==` would fall back to identity. */
module Algebra {
  import opened Exp2
  import opened Errors
  import opened Change

  /** The six binary arithmetic operators: + - * / // %. */
  datatype Op = Add | Sub | Mul | TrueDiv | FloorDiv | Mod {
    predicate Divides() { this == TrueDiv || this == FloorDiv || this == Mod }
  }

  /** The five comparisons: == < <= > >=. */
  datatype Cmp = Eq | Lt | Le | Gt | Ge

  // ---------------------------------------------------------------------
  // Python float arithmetic on reals

  /** `a // b` on floats: the floor of the quotient. */
  function FloorDivide(a: real, b: real): (q: real)
    requires b != 0.0
    ensures q == q.Floor as real
    ensures q <= a / b < q + 1.0
  {
    (a / b).Floor as real
  }

  /** `a % b` on floats: the remainder takes the sign of the divisor, and
      together with `//` it rebuilds the dividend. */
  function Modulo(a: real, b: real): (m: real)
    requires b != 0.0
    ensures 0.0 < b ==> 0.0 <= m < b
    ensures b < 0.0 ==> b < m <= 0.0
    ensures b * FloorDivide(a, b) + m == a
  {
    var q := FloorDivide(a, b);
    assert 0.0 < b ==> b * q <= a < b * q + b by {
      if 0.0 < b { QuotientBounds(a, b, q); }
    }
    assert b < 0.0 ==> b * q + b < a <= b * q by {
      if b < 0.0 { QuotientBoundsNegative(a, b, q); }
    }
    a - b * q
  }

  lemma QuotientBounds(a: real, b: real, q: real)
    requires 0.0 < b && q <= a / b < q + 1.0
    ensures b * q <= a < b * q + b
  {
    var x := a / b;
    assert b * x == a;
    ProductPositive(b, q + 1.0 - x);
    assert b * (q + 1.0 - x) == b * q + b - b * x;
    assert a < b * q + b;
    ProductNonNegative(b, x - q);
    assert b * (x - q) == b * x - b * q;
  }

  lemma QuotientBoundsNegative(a: real, b: real, q: real)
    requires b < 0.0 && q <= a / b < q + 1.0
    ensures b * q + b < a <= b * q
  {
    var x := a / b;
    assert b * x == a;
    ProductPositive(-b, q + 1.0 - x);
    assert (-b) * (q + 1.0 - x) == b * x - b * q - b;
    assert b * q + b < a;
    ProductNonNegative(-b, x - q);
    assert (-b) * (x - q) == b * q - b * x;
  }

  lemma ProductNonNegative(u: real, v: real)
    requires 0.0 <= u && 0.0 <= v
    ensures 0.0 <= u * v
  {
  }

  lemma ProductPositive(u: real, v: real)
    requires 0.0 < u && 0.0 < v
    ensures 0.0 < u * v
  {
  }

  /** One binary operator on two numbers; division by zero raises. */
  function Arith(op: Op, a: real, b: real): (r: Result<real>)
    ensures r.Err? <==> op.Divides() && b == 0.0
    ensures r.Err? ==> r.error == ZeroDivisionError
  {
    match op
    case Add => Ok(a + b)
    case Sub => Ok(a - b)
    case Mul => Ok(a * b)
    case TrueDiv => if b == 0.0 then Err(ZeroDivisionError) else Ok(a / b)
    case FloorDiv => if b == 0.0 then Err(ZeroDivisionError) else Ok(FloorDivide(a, b))
    case Mod => if b == 0.0 then Err(ZeroDivisionError) else Ok(Modulo(a, b))
  }

  // ---------------------------------------------------------------------
  // Unary sign

  /** `-x`: a positive amount is negated, any other amount is kept. */
  function Neg(c: Change): (r: Change)
    ensures SameClass(r, c)
    ensures r.amount <= 0.0
    ensures r.amount == c.amount || r.amount == -c.amount
  {
    if 0.0 < c.amount then WithAmount(c, -c.amount) else c
  }

  /** `+x`: a negative amount is negated, any other amount is kept. */
  function Pos(c: Change): (r: Change)
    ensures SameClass(r, c)
    ensures 0.0 <= r.amount
    ensures r.amount == c.amount || r.amount == -c.amount
  {
    if c.amount < 0.0 then WithAmount(c, -c.amount) else c
  }

  /** The sign operators only ever move an amount to one side of zero: each
      is idempotent, each undoes the other up to that side, and
      `-x` of a positive amount and `+x` of a negative one flip it
      (-Input(+123) has amount -123, +Input(-123) has amount 123). */
  lemma SignLaws(c: Change)
    ensures Neg(Neg(c)) == Neg(c)
    ensures Pos(Pos(c)) == Pos(c)
    ensures Neg(Pos(c)) == Neg(c)
    ensures Pos(Neg(c)) == Pos(c)
    ensures 0.0 < c.amount ==> Neg(c).amount == -c.amount && Pos(c) == c
    ensures c.amount < 0.0 ==> Pos(c).amount == -c.amount && Neg(c) == c
  {
  }

  /** Because of the guard, negating twice is not the identity on a positive
      amount: -(-Semitones(5)) is Semitones(-5). */
  lemma DoubleNegationKeepsSign()
    ensures Neg(Neg(Semitones(5.0))) == Semitones(-5.0)
    ensures Neg(Neg(Semitones(5.0))) != Semitones(5.0)
  {
  }

  // ---------------------------------------------------------------------
  // Comparison and numeric coercion

  /** The comparisons on the coerced numbers. */
  function Relate(cmp: Cmp, x: real, y: real): bool {
    match cmp
    case Eq => x == y
    case Lt => x < y
    case Le => x <= y
    case Gt => x > y
    case Ge => x >= y
  }

  /** `x <cmp> rhs`: `x.as_percent()` against the right operand coerced to a
      number, either a bare number or another change's `as_percent()`. */
  function Compare(cmp: Cmp, x: Change, rhs: Value, pow2: real -> real): (r: Result<bool>)
    ensures r.Err? <==> rhs.Other?
    ensures r.Err? ==> r.error == UnsupportedOperand
    ensures rhs.Num? ==> r == Ok(Relate(cmp, AsPercent(x, pow2), rhs.value))
    ensures rhs.Rel? ==> r == Ok(Relate(cmp, AsPercent(x, pow2), AsPercent(rhs.change, pow2)))
  {
    match Float(rhs, pow2)
    case Some(y) => Ok(Relate(cmp, AsPercent(x, pow2), y))
    case None => Err(UnsupportedOperand)
  }

  /** All five comparisons read the same two numbers: exactly one of `<`,
      `==`, `>` holds, `<=` is `<` or `==`, and `>=` is `>` or `==`. */
  lemma ComparisonsAgree(x: Change, rhs: Value, pow2: real -> real)
    requires !rhs.Other?
    ensures var lt, eq, gt := Compare(Lt, x, rhs, pow2).value, Compare(Eq, x, rhs, pow2).value,
                              Compare(Gt, x, rhs, pow2).value;
            (lt || eq || gt) && !(lt && eq) && !(lt && gt) && !(eq && gt)
            && Compare(Le, x, rhs, pow2).value == (lt || eq)
            && Compare(Ge, x, rhs, pow2).value == (gt || eq)
  {
  }

  /** Comparing two changes does not depend on which one is on the left. */
  lemma CompareSwap(x: Change, y: Change, pow2: real -> real)
    ensures Compare(Lt, x, Rel(y), pow2) == Compare(Gt, y, Rel(x), pow2)
    ensures Compare(Le, x, Rel(y), pow2) == Compare(Ge, y, Rel(x), pow2)
    ensures Compare(Eq, x, Rel(y), pow2) == Compare(Eq, y, Rel(x), pow2)
  {
  }

  /** Between intervals of any classes, the comparisons are the comparisons
      of the octave fractions they span. */
  lemma IntervalComparisonIsOctaveFraction(x: Change, y: Change, pow2: real -> real)
    requires IsExp2(pow2)
    requires x.Interval? && y.Interval?
    ensures Compare(Lt, x, Rel(y), pow2) == Ok(OctaveFraction(x) < OctaveFraction(y))
    ensures Compare(Eq, x, Rel(y), pow2) == Ok(OctaveFraction(x) == OctaveFraction(y))
  {
    Ordered(pow2, OctaveFraction(x), OctaveFraction(y));
    Injective(pow2, OctaveFraction(x), OctaveFraction(y));
  }

  /** Comparisons hold across classes and against numbers:
      Semitones(12) == Octaves(1), Semitones(12) == 2.0, Tones(1) < Semitones(3),
      and Semitones(12) == Octaves(1) although the two are not dataclass-equal. */
  lemma CrossClassComparisons(pow2: real -> real)
    requires IsExp2(pow2)
    ensures Compare(Eq, Semitones(12.0), Rel(Octaves(1.0)), pow2) == Ok(true)
    ensures Compare(Eq, Semitones(12.0), Num(2.0), pow2) == Ok(true)
    ensures Compare(Lt, Tones(1.0), Rel(Semitones(3.0)), pow2) == Ok(true)
    ensures !DataclassEq(Semitones(12.0), Octaves(1.0))
  {
    OneOctaveDoubles(pow2);
    IntervalComparisonIsOctaveFraction(Tones(1.0), Semitones(3.0), pow2);
  }

  /** The comparison table of the tests, all 30 cases: a change whose
      `as_percent()` is 1.0 (Percent(100) here) against the numbers 0, 1, 2
      and against changes whose `as_percent()` is 0, 1, 2 (Percent(0),
      Percent(100), Percent(200)). */
  lemma ComparisonTable(pow2: real -> real)
    ensures var one := Percent(100.0);
      Compare(Eq, one, Num(0.0), pow2) == Ok(false) && Compare(Eq, one, Num(1.0), pow2) == Ok(true)
      && Compare(Eq, one, Num(2.0), pow2) == Ok(false)
      && Compare(Lt, one, Num(0.0), pow2) == Ok(false) && Compare(Lt, one, Num(1.0), pow2) == Ok(false)
      && Compare(Lt, one, Num(2.0), pow2) == Ok(true)
      && Compare(Le, one, Num(0.0), pow2) == Ok(false) && Compare(Le, one, Num(1.0), pow2) == Ok(true)
      && Compare(Le, one, Num(2.0), pow2) == Ok(true)
      && Compare(Gt, one, Num(0.0), pow2) == Ok(true) && Compare(Gt, one, Num(1.0), pow2) == Ok(false)
      && Compare(Gt, one, Num(2.0), pow2) == Ok(false)
      && Compare(Ge, one, Num(0.0), pow2) == Ok(true) && Compare(Ge, one, Num(1.0), pow2) == Ok(true)
      && Compare(Ge, one, Num(2.0), pow2) == Ok(false)
    ensures var one, zero, two := Percent(100.0), Rel(Percent(0.0)), Rel(Percent(200.0));
      Compare(Eq, one, zero, pow2) == Ok(false) && Compare(Eq, one, Rel(one), pow2) == Ok(true)
      && Compare(Eq, one, two, pow2) == Ok(false)
      && Compare(Lt, one, zero, pow2) == Ok(false) && Compare(Lt, one, Rel(one), pow2) == Ok(false)
      && Compare(Lt, one, two, pow2) == Ok(true)
      && Compare(Le, one, zero, pow2) == Ok(false) && Compare(Le, one, Rel(one), pow2) == Ok(true)
      && Compare(Le, one, two, pow2) == Ok(true)
      && Compare(Gt, one, zero, pow2) == Ok(true) && Compare(Gt, one, Rel(one), pow2) == Ok(false)
      && Compare(Gt, one, two, pow2) == Ok(false)
      && Compare(Ge, one, zero, pow2) == Ok(true) && Compare(Ge, one, Rel(one), pow2) == Ok(true)
      && Compare(Ge, one, two, pow2) == Ok(false)
  {
  }

  /** `int(x)`: `x.as_percent()` truncated toward zero. */
  function Int(c: Change, pow2: real -> real): (r: int)
    ensures var p := AsPercent(c, pow2);
      (0.0 <= p ==> r as real <= p < r as real + 1.0)
      && (p < 0.0 ==> r as real - 1.0 < p <= r as real)
  {
    var p := AsPercent(c, pow2);
    if 0.0 <= p then p.Floor else -((-p).Floor)
  }

  /** int() of multiplier 1.1 gives 1; and since `Int` truncates, -1.1 gives
      -1 (not the floor, -2). */
  lemma IntTruncates(pow2: real -> real)
    ensures Int(Percent(110.0), pow2) == 1
    ensures Int(Percent(-110.0), pow2) == -1
  {
    assert AsPercent(Percent(110.0), pow2) == 1.1;
    assert AsPercent(Percent(-110.0), pow2) == -1.1;
  }

  // ---------------------------------------------------------------------
  // Arithmetic

  /** An interval amount re-expressed in units of `n` steps per octave. */
  function Rescaled(c: Change, n: PerOctave): real
    requires c.Interval?
  {
    c.amount * (n as real / c.n as real)
  }

  /** A result wrapped back into an interval of `n` steps per octave. */
  function AsInterval(r: Result<real>, n: PerOctave): Result<Change> {
    match r
    case Ok(v) => Ok(Interval(v, n))
    case Err(e) => Err(e)
  }

  /** A result wrapped back into a Percent. */
  function AsPercentResult(r: Result<real>): Result<Change> {
    match r
    case Ok(v) => Ok(Percent(v))
    case Err(e) => Err(e)
  }

  /** `l <op> rhs` with the change on the left. An interval takes another
      interval, rescaled into its own unit, or a bare number; Percent takes a
      bare number and works on its amount. The result has the left operand's
      class. */
  function BinaryOp(op: Op, l: Change, rhs: Value): (r: Result<Change>)
    ensures r.Ok? ==> SameClass(r.value, l)
    ensures r == Err(UnsupportedOperand)
            <==> !(rhs.Num? || (l.Interval? && rhs.Rel? && rhs.change.Interval?))
  {
    match l
    case Interval(a, n) =>
      (match rhs
       case Num(v) => AsInterval(Arith(op, a, v), n)
       case Rel(c) => if c.Interval? then AsInterval(Arith(op, a, Rescaled(c, n)), n)
                      else Err(UnsupportedOperand)
       case Other(_) => Err(UnsupportedOperand))
    case Percent(a) =>
      (match rhs
       case Num(v) => AsPercentResult(Arith(op, a, v))
       case _ => Err(UnsupportedOperand))
  }

  /** `v <op> rhs` with a bare number on the left (the reflected operators).
      Intervals have none. Percent's `+` and `-` raise or lower `v` by the
      percentage; its `*`, `/`, `//` and `%` act on `as_percent()`. */
  function ReflectedOp(op: Op, v: real, rhs: Change, pow2: real -> real): (r: Result<real>)
    ensures rhs.Interval? ==> r == Err(UnsupportedOperand)
    ensures r.Err? && rhs.Percent? ==> r.error == ZeroDivisionError
  {
    if rhs.Interval? then Err(UnsupportedOperand)
    else
      var p := AsPercent(rhs, pow2);
      if op == Add then Ok(v + v * p)
      else if op == Sub then Ok(v - v * p)
      else Arith(op, v, p)
  }

  /** Rescaling is lossless: the rescaled amount spans the same octave
      fraction, so it has the same multiplier. */
  lemma RescalePreservesPitch(c: Change, n: PerOctave, pow2: real -> real)
    requires c.Interval?
    ensures OctaveFraction(Interval(Rescaled(c, n), n)) == OctaveFraction(c)
    ensures AsPercent(Interval(Rescaled(c, n), n), pow2) == AsPercent(c, pow2)
  {
    var k, m := n as real, c.n as real;
    assert c.amount * (k / m) / k == c.amount / m;
  }

  /** Two intervals of the same class combine their amounts:
      op(C(a), C(b)) == C(op(a, b)). */
  lemma SameClassActsOnAmounts(op: Op, a: real, b: real, n: PerOctave)
    ensures BinaryOp(op, Interval(a, n), Rel(Interval(b, n))) == AsInterval(Arith(op, a, b), n)
  {
    assert Rescaled(Interval(b, n), n) == b;
  }

  /** The mixed-class cases of the tests: Cents(a) <op> X(1), for X of 12, 6
      or 1 steps per octave, is Cents(a <op> 1200 / X.n), i.e. the right side
      counts 100, 200 or 1200 cents. */
  lemma MixedClassRescalesToLeftUnit(op: Op, a: real)
    ensures BinaryOp(op, Cents(a), Rel(Semitones(1.0))) == AsInterval(Arith(op, a, 100.0), CENTS_PER_OCTAVE)
    ensures BinaryOp(op, Cents(a), Rel(Tones(1.0))) == AsInterval(Arith(op, a, 200.0), CENTS_PER_OCTAVE)
    ensures BinaryOp(op, Cents(a), Rel(Octaves(1.0))) == AsInterval(Arith(op, a, 1200.0), CENTS_PER_OCTAVE)
  {
    assert Rescaled(Semitones(1.0), CENTS_PER_OCTAVE) == 100.0;
    assert Rescaled(Tones(1.0), CENTS_PER_OCTAVE) == 200.0;
    assert Rescaled(Octaves(1.0), CENTS_PER_OCTAVE) == 1200.0;
  }

  /** Adding or subtracting intervals of any classes adds or subtracts the
      octave fractions they span. */
  lemma AddSubOctaveFractions(l: Change, r: Change)
    requires l.Interval? && r.Interval?
    ensures BinaryOp(Add, l, Rel(r)).Ok? && BinaryOp(Sub, l, Rel(r)).Ok?
    ensures OctaveFraction(BinaryOp(Add, l, Rel(r)).value) == OctaveFraction(l) + OctaveFraction(r)
    ensures OctaveFraction(BinaryOp(Sub, l, Rel(r)).value) == OctaveFraction(l) - OctaveFraction(r)
  {
    var s, k := Rescaled(r, l.n), l.n as real;
    RescalePreservesPitch(r, l.n, x => x);
    assert s / k == OctaveFraction(r);
    assert BinaryOp(Add, l, Rel(r)) == Ok(Interval(l.amount + s, l.n));
    assert BinaryOp(Sub, l, Rel(r)) == Ok(Interval(l.amount - s, l.n));
    assert (l.amount + s) / k == l.amount / k + s / k;
    assert (l.amount - s) / k == l.amount / k - s / k;
  }

  /** Adding intervals of any classes stacks the pitch shifts: the sum's
      multiplier is the product of the two multipliers. */
  lemma AddComposesMultipliers(l: Change, r: Change, pow2: real -> real)
    requires IsExp2(pow2)
    requires l.Interval? && r.Interval?
    ensures BinaryOp(Add, l, Rel(r)).Ok?
    ensures AsPercent(BinaryOp(Add, l, Rel(r)).value, pow2) == AsPercent(l, pow2) * AsPercent(r, pow2)
  {
    AddSubOctaveFractions(l, r);
    Sum(pow2, OctaveFraction(l), OctaveFraction(r));
  }

  /** Subtracting undoes adding: the difference's multiplier times the right
      operand's multiplier is the left operand's multiplier. */
  lemma SubDividesMultipliers(l: Change, r: Change, pow2: real -> real)
    requires IsExp2(pow2)
    requires l.Interval? && r.Interval?
    ensures BinaryOp(Sub, l, Rel(r)).Ok?
    ensures AsPercent(BinaryOp(Sub, l, Rel(r)).value, pow2) * AsPercent(r, pow2) == AsPercent(l, pow2)
  {
    AddSubOctaveFractions(l, r);
    Difference(pow2, OctaveFraction(l), OctaveFraction(r));
  }

  /** Cross-unit examples: Semitones(12) + Tones(0) is
      Semitones(12), and Octaves(1) - Semitones(6) is Octaves(0.5). */
  lemma CrossClassExamples()
    ensures BinaryOp(Add, Semitones(12.0), Rel(Tones(0.0))) == Ok(Semitones(12.0))
    ensures BinaryOp(Sub, Octaves(1.0), Rel(Semitones(6.0))) == Ok(Octaves(0.5))
  {
    assert Rescaled(Semitones(6.0), OCTAVES_PER_OCTAVE) == 0.5;
  }

  /** A bare number on the left of an interval is unsupported for every
      operator: a number has no unit to rescale into. */
  lemma NumberOnLeftOfIntervalFails(op: Op, v: real, a: real, n: PerOctave, pow2: real -> real)
    ensures ReflectedOp(op, v, Interval(a, n), pow2) == Err(UnsupportedOperand)
    ensures ReflectedOp(op, v, Cents(a), pow2) == Err(UnsupportedOperand)
  {
  }

  /** Percent with a number on the right acts on the amount:
      op(Percent(a), v) == Percent(op(a, v)); e.g. Percent(50) + 2 is
      Percent(52). In multipliers, `+ v` and `- v` shift `as_percent()` by
      v / 100, and `* v` scales it by v. */
  lemma PercentForwardActsOnAmount(op: Op, a: real, v: real, pow2: real -> real)
    ensures BinaryOp(op, Percent(a), Num(v)) == AsPercentResult(Arith(op, a, v))
    ensures BinaryOp(Add, Percent(50.0), Num(2.0)) == Ok(Percent(52.0))
    ensures AsPercent(BinaryOp(Add, Percent(a), Num(v)).value, pow2) == AsPercent(Percent(a), pow2) + v / 100.0
    ensures AsPercent(BinaryOp(Sub, Percent(a), Num(v)).value, pow2) == AsPercent(Percent(a), pow2) - v / 100.0
    ensures AsPercent(BinaryOp(Mul, Percent(a), Num(v)).value, pow2) == AsPercent(Percent(a), pow2) * v
  {
  }

  /** Percent's reflected `+` and `-` scale `v` by (100 + a)% and (100 - a)%,
      and its reflected `*`, `/`, `//`, `%` equal the operator on
      `as_percent()`. */
  lemma PercentReflectedScales(op: Op, v: real, a: real, pow2: real -> real)
    ensures ReflectedOp(Add, v, Percent(a), pow2) == Ok(v * AsPercent(Percent(100.0 + a), pow2))
    ensures ReflectedOp(Sub, v, Percent(a), pow2) == Ok(v * AsPercent(Percent(100.0 - a), pow2))
    ensures op != Add && op != Sub ==> ReflectedOp(op, v, Percent(a), pow2) == Arith(op, v, AsPercent(Percent(a), pow2))
  {
    var p := AsPercent(Percent(a), pow2);
    var plus, minus := ReflectedOp(Add, v, Percent(a), pow2), ReflectedOp(Sub, v, Percent(a), pow2);
    assert plus.Ok? && plus.value == v + v * p;
    assert minus.Ok? && minus.value == v - v * p;
    var up: Result<real> := Ok(v * AsPercent(Percent(100.0 + a), pow2));
    var down: Result<real> := Ok(v * AsPercent(Percent(100.0 - a), pow2));
    assert up.value == v * (1.0 + p) == v + v * p;
    assert down.value == v * (1.0 - p) == v - v * p;
  }

  /** The test cases with Percent(50) on the right of 2: 2 + Percent(50) is
      3.0 (not the point-wise 52), 2 - Percent(50) is 1.0, and `*`, `/`, `//`,
      `%` give 1.0, 4.0, 4.0 and 0.0, the values of op(2, 0.5). */
  lemma PercentReflectedExamples(pow2: real -> real)
    ensures ReflectedOp(Add, 2.0, Percent(50.0), pow2) == Ok(3.0)
    ensures ReflectedOp(Add, 2.0, Percent(50.0), pow2) != Ok(52.0)
    ensures ReflectedOp(Sub, 2.0, Percent(50.0), pow2) == Ok(1.0)
    ensures ReflectedOp(Mul, 2.0, Percent(50.0), pow2) == Ok(1.0)
    ensures ReflectedOp(TrueDiv, 2.0, Percent(50.0), pow2) == Ok(4.0)
    ensures ReflectedOp(FloorDiv, 2.0, Percent(50.0), pow2) == Ok(4.0)
    ensures ReflectedOp(Mod, 2.0, Percent(50.0), pow2) == Ok(0.0)
  {
    assert FloorDivide(2.0, 0.5) == 4.0;
  }

  /** Dividing by Percent(0), whose `as_percent()` is 0, raises
      ZeroDivisionError. */
  lemma ReflectedDivisionByZeroPercent(op: Op, v: real, pow2: real -> real)
    requires op.Divides()
    ensures ReflectedOp(op, v, Percent(0.0), pow2) == Err(ZeroDivisionError)
  {
  }
}
