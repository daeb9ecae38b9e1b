# nightcore: relative changes and the frame-rate rule, in Dafny

nightcore speeds up and pitches up audio by declaring a different frame rate
for the same samples. The user says how much with a *relative change*. It is
written in semitones, tones or octaves (the interval classes, 12, 6 and 1
steps per octave) or as a percentage. Every change converts to one playback
multiplier, `as_percent()`, where 1.0 means "no change". This project models:

- the value family (`Change`): its multipliers, dataclass equality, and the
  `step_types` registry that maps lower-case class names to classes
  (`Registry`);
- the frame-rate rule of the `Nightcore` class, `round(frame_rate *
  as_percent())` with Python's round-half-to-even, applied to unchanged
  sample data (`Audio`);
- the `nightcore` audio effect and the `@` operator of nightcore/effect.py
  (`Effect`). This covers the `TypeError` for an amount with no float
  conversion and the removal of the `file` keyword;
- the operator algebra that tests/test_relative_change.py asserts (`Algebra`):
  unary sign, comparisons, `int()`, interval arithmetic with unit rescaling,
  and Percent's forward and reflected arithmetic. Routing comparisons and
  `int()` through `as_percent()` is the model's choice; the tests cannot
  tell it apart from working on the amount (see "## Left out").

Python floats are Dafny `real`s. `2 ** x` cannot be computed exactly on reals.
Every member that needs it therefore takes the exponential as a parameter
`pow2: real -> real`. The lemmas that need its laws require `Exp2.IsExp2(pow2)`:
it is positive and strictly increasing, `2^1 == 2`, and
`2^(x+y) == 2^x * 2^y`. From these laws `Exp2` derives `2^0 == 1`, `2^-1 == 1/2`,
injectivity and order. The audio library's decoder (`AudioSegment.from_file`)
and its resampler (`set_frame_rate`) are parameters `fromFile` and `resample`
of the effect.

Modules: `Errors` (Option, Result, the exceptions), `Exp2`, `Change`,
`Registry`, `Audio`, `Effect`, `Algebra`, one file each.

What the code and the tests fix, beyond the plain reading of each operator:

- The reflected `+` and `-` of Percent scale the number:
  `2 + Percent(50) == 3.0` and `2 - Percent(50) == 1.0`
  (tests/test_relative_change.py:145-149), not the point-wise `2 + 50`.
  `Algebra.PercentReflectedExamples` proves both the value and that it
  differs from 52.
- Percent's forward `+`, `-`, `*`, `/`, `//`, `%` act on the amount:
  `op(Percent(50), 2) == Percent(op(50, 2))` for all six operators
  (tests/test_relative_change.py:151-160).
- Nothing in nightcore/__init__.py:73-78 or nightcore/__init__.py:82-89 rejects a Percent amount
  of zero or below, so the `Nightcore` class stamps a rate of zero or below
  (`Audio.DegeneratePercentIsNotRejected`).
- The dataclass `==` of nightcore/__init__.py:24-28 compares class and
  amount, so `Semitones(12)` and `Octaves(1)` differ under it although they
  share a multiplier (`Change.DataclassEqDistinguishesClasses`).

## Model

| member | source | states |
|---|---|---|
| `Change.ZeroIntervalIsNoChange` | nightcore/__init__.py:30-49 | an interval of amount 0, of any class, has multiplier 1.0, the no-change value |
| `Change.PercentNoChange` | nightcore/__init__.py:73-78 | Percent(100) has multiplier 1.0 and Percent(0) has 0.0 |
| `Change.SamePitchIffSameOctaveFraction` | nightcore/__init__.py:40-70 | two intervals of any classes have equal multipliers if and only if a/n == b/m (same fraction of an octave) |
| `Change.OneOctaveDoubles` | nightcore/__init__.py:52-70 | Semitones(12), Tones(6), Octaves(1) and Cents(1200) all have multiplier 2.0 |
| `Change.CentsPerStep` | tests/test_relative_change.py:78-89 | a semitone is 100 cents, a tone 200, an octave 1200, and k steps of each class have the same multiplier as that many cents |
| `Change.IntervalSpeedsUpIffPositive` | nightcore/__init__.py:30-49 | an interval multiplier is positive, above 1.0 iff the amount is positive, below 1.0 iff it is negative |
| `Change.AsPercent` | nightcore/__init__.py:48-78 | `as_percent()`: an interval's multiplier is 2 raised to its octave fraction (amount / steps per octave); a Percent's is amount / 100 |
| `Change.Float` | nightcore/__init__.py:36-37 | float() of a change is its as_percent(), of a number the number, and fails (None) for any other value |
| `Change.DataclassEq` | nightcore/__init__.py:24-28 | dataclass `==` holds iff both sides are of the same class and have equal amounts |
| `Change.DataclassEqDistinguishesClasses` | tests/test_nightcore.py:49-56 | Tones(1) == Tones(1), while Semitones(12), Octaves(1) and Percent(200) are pairwise unequal although Semitones(12) and Octaves(1) share their multiplier |
| `Change.DataclassEqSamePercent` | nightcore/__init__.py:24-49 | dataclass-equal changes have the same multiplier |
| `Registry.Construct` | nightcore/__init__.py:52-78 | calling a registered class gives a change with that amount, of that class and per-octave constant |
| `Registry.KeysAreLowerCaseNames` | nightcore/__init__.py:14-18 | the keys `add` files the four classes under are "semitones", "tones", "octaves", "percent" |
| `Registry.KeysDistinct` | nightcore/__init__.py:14-18 | distinct classes get distinct keys, so no registration overwrites another |
| `Registry.NameTypeMap.Add` | nightcore/__init__.py:15-18 | add stores the class under its lower-case name, changes no other entry, and returns the class unchanged |
| `Registry.NameTypeMap.Get` | nightcore/__init__.py:14 | dictionary lookup: a value iff the name is a key, and then the stored class |
| `Registry.StepTypes` | nightcore/__init__.py:21-73 | after the four registrations the keys are exactly the four lower-case names, each mapped to its class |
| `Audio.Round` | nightcore/__init__.py:88 | round() gives an integer within 1/2 of its argument, and an even one on a tie |
| `Audio.RoundUnique` | nightcore/__init__.py:88 | the integer within 1/2 that is even on a tie is unique, so Round's contract determines it |
| `Audio.RoundInteger` | nightcore/__init__.py:88 | rounding an integer gives it back |
| `Audio.RoundMonotone` | nightcore/__init__.py:88 | rounding preserves order |
| `Audio.NewFrameRate` | nightcore/__init__.py:85-88 | the new rate is within 1/2 of rate * multiplier |
| `Audio.Spawn` | nightcore/__init__.py:86-89 | the spawned segment keeps the raw data and declares the given rate |
| `Audio.NewFrameRateFollowsMultiplier` | nightcore/__init__.py:85-88 | multiplier 1.0 keeps the rate, a multiplier of at least 1.0 never lowers it, of at most 1.0 never raises it |
| `Audio.NewFrameRateMonotone` | nightcore/__init__.py:85-88 | a larger multiplier never gives a lower rate |
| `Audio.Nightcore.constructor` | nightcore/__init__.py:82-100 | the object keeps `change` as given and the raw data, and its audio declares round(frame_rate * as_percent()); `change` and `audio` are read-only properties in Python (nightcore/__init__.py:94-100) and `const` here, while `raw_data` is a plain attribute (nightcore/__init__.py:92) that the model also holds as `const` |
| `Audio.PercentRates` | tests/test_nightcore.py:18-25 | for every positive rate Percent(100) keeps it, Percent(150) raises it and Percent(50) lowers it (so the same data plays shorter, the same or longer) |
| `Audio.ExampleRates` | nightcore/__init__.py:85-88 | Semitones(12) on 44100 gives 88200, Percent(50) on 44100 gives 22050, Octaves(-1) on 48000 gives 24000 |
| `Audio.DegeneratePercentIsNotRejected` | nightcore/__init__.py:74-88 | a Percent amount of zero or below yields a rate of zero or below; nothing rejects it |
| `Effect.DecoderKwargs` | nightcore/effect.py:49-53 | the decoder gets every keyword argument except `file`, with its value unchanged |
| `Effect.SetFrameRate` | nightcore/effect.py:69-71 | the returned segment declares the requested rate and holds the resampler's data |
| `Effect.EffectFrameRate` | nightcore/effect.py:55-61 | the rate is round(rate * float(amount)) for a change (its as_percent()) or a number; any other amount gives TypeError "Cannot change audio speed by <repr>" (the message `Effect.CannotChangeMessage` builds), never a default |
| `Effect.NightcoreSegment` | nightcore/effect.py:55-71 | fails exactly for amounts without float conversion; otherwise the spawned segment keeps the original data at the new rate, and the result is resampled back to the original rate |
| `Effect.NightcoreEffect` | nightcore/effect.py:14-71 | a segment is used as is, a path is decoded without the `file` keyword (the segment `Effect.Source` picks); then the same outcome as the effect on that segment |
| `Effect.MatMul` | nightcore/effect.py:75-80 | `@` is NotImplemented exactly when the right operand has no float conversion, and otherwise returns the effect's segment |
| `Algebra.FloorDivide` | tests/test_relative_change.py:103-112 | `//` gives a whole number q with q <= a/b < q + 1 |
| `Algebra.Modulo` | tests/test_relative_change.py:103-112 | `%` takes the sign of the divisor, is smaller than it in magnitude, and b * (a // b) + a % b == a |
| `Algebra.Arith` | tests/test_relative_change.py:103-112 | an operator on numbers fails, with ZeroDivisionError, exactly for `/`, `//`, `%` by zero |
| `Algebra.Neg` | tests/test_relative_change.py:16-17 | unary minus keeps the class and gives an amount of zero or below that is the amount or its negation |
| `Algebra.Pos` | tests/test_relative_change.py:19-20 | unary plus keeps the class and gives an amount of zero or above that is the amount or its negation |
| `Algebra.SignLaws` | tests/test_relative_change.py:16-20 | minus and plus are idempotent, each absorbs the other, minus negates a positive amount and plus a negative one |
| `Algebra.DoubleNegationKeepsSign` | tests/test_relative_change.py:16-17 | under the sign guard of `Algebra.Neg` (a choice the tests leave open, see Left out), -(-Semitones(5)) is Semitones(-5), not Semitones(5) |
| `Algebra.Compare` | tests/test_relative_change.py:22-59 | a comparison reads x.as_percent() against a number or another change's as_percent() (a choice the `Input`-based tests cannot tell from comparing amounts, see Left out); other operands are unsupported |
| `Algebra.ComparisonsAgree` | tests/test_relative_change.py:22-59 | exactly one of <, ==, > holds; <= is < or ==, and >= is > or == |
| `Algebra.CompareSwap` | tests/test_relative_change.py:22-59 | x < y iff y > x, x <= y iff y >= x, and x == y iff y == x, across classes |
| `Algebra.IntervalComparisonIsOctaveFraction` | nightcore/__init__.py:48-49 | a consequence of comparing through `as_percent()` (the choice `Algebra.Compare` makes, see Left out): between intervals of any classes, < and == are < and == of their octave fractions |
| `Algebra.CrossClassComparisons` | nightcore/__init__.py:48-70 | a consequence of comparing through `as_percent()` (the choice `Algebra.Compare` makes, see Left out) together with the interval multipliers: Semitones(12) == Octaves(1), Semitones(12) == 2.0 and Tones(1) < Semitones(3) |
| `Algebra.ComparisonTable` | tests/test_relative_change.py:22-59 | all 30 tested cases: ==, <, <=, >, >= of a change of multiplier 1.0 against 0, 1, 2 and against changes of multiplier 0, 1, 2 |
| `Algebra.Int` | tests/test_relative_change.py:74-75 | int() of a change whose multiplier is 1.1 is 1; the model reads int() as as_percent() truncated toward zero, a choice that test cannot tell from int(amount) or from the floor (see Left out) |
| `Algebra.IntTruncates` | tests/test_relative_change.py:74-75 | int() of multiplier 1.1 is 1 (the tested case); int() of -1.1 is -1 as a consequence of the truncation choice of `Algebra.Int`, not of a test |
| `Algebra.BinaryOp` | tests/test_relative_change.py:103-160 | the result has the left operand's class; the operand is unsupported exactly when it is neither a number nor, for an interval, another interval |
| `Algebra.ReflectedOp` | tests/test_relative_change.py:91-101 | a number on the left of an interval is unsupported; with Percent on the right it can only fail by division by zero |
| `Algebra.RescalePreservesPitch` | tests/test_relative_change.py:114-130 | an amount rescaled into another interval unit spans the same octave fraction and has the same multiplier |
| `Algebra.SameClassActsOnAmounts` | tests/test_relative_change.py:103-112 | op(C(a), C(b)) == C(op(a, b)) for all six operators, division by zero included |
| `Algebra.MixedClassRescalesToLeftUnit` | tests/test_relative_change.py:114-130 | op(Cents(a), X(1)) == Cents(op(a, 1200 / X.n)) for semitones, tones and octaves |
| `Algebra.AddSubOctaveFractions` | tests/test_relative_change.py:114-130 | interval + and - of any classes add and subtract the octave fractions |
| `Algebra.AddComposesMultipliers` | tests/test_relative_change.py:114-130 | the multiplier of an interval sum is the product of the multipliers |
| `Algebra.SubDividesMultipliers` | tests/test_relative_change.py:114-130 | the multiplier of an interval difference times the right multiplier is the left multiplier |
| `Algebra.CrossClassExamples` | tests/test_relative_change.py:114-130 | Semitones(12) + Tones(0) is Semitones(12); Octaves(1) - Semitones(6) is Octaves(0.5) |
| `Algebra.NumberOnLeftOfIntervalFails` | tests/test_relative_change.py:91-101 | every operator with any number on the left of any interval (any amount, any steps per octave, Cents included) is unsupported |
| `Algebra.PercentForwardActsOnAmount` | tests/test_relative_change.py:151-160 | op(Percent(a), v) == Percent(op(a, v)); Percent(50) + 2 is Percent(52); in multipliers `+ v` and `- v` shift as_percent() by v / 100 and `* v` scales it by v |
| `Algebra.PercentReflectedScales` | tests/test_relative_change.py:144-170 | v + Percent(a) is v scaled by (100 + a)%, v - Percent(a) by (100 - a)%, and the other reflected operators act on as_percent() |
| `Algebra.PercentReflectedExamples` | tests/test_relative_change.py:144-170 | 2 + Percent(50) is 3.0 and not 52, 2 - Percent(50) is 1.0, and * / // % give op(2, 0.5) |
| `Algebra.ReflectedDivisionByZeroPercent` | tests/test_relative_change.py:162-170 | /, //, % by Percent(0) raise ZeroDivisionError |

## Left out

- The audio library itself is not modelled: decoding, `_spawn` internals, resampling in `set_frame_rate`, `export`, and the `register_pydub_effect` patching. A segment is only raw data and a frame rate. Decoding and resampling are opaque parameters.
- `Nightcore.from_file` and the module-level `from_file` are not modelled. They decode a file and then call the constructor, which is modelled.
- `Nightcore.using` is not modelled. It is a decorator that calls the wrapped function with no arguments and wraps the result.
- The `export` attribute of `Nightcore` is not modelled. It is a bound method of the audio library.
- nightcore/cli.py is not part of this model. It handles argument parsing, the terminal check, decode and export. Its rate line repeats `Audio.NewFrameRate`.
- Floating-point rounding in `2 ** x`, `/` and `*` is not modelled: arithmetic is on reals. `2 ** x` is a parameter with only the laws listed in `Exp2.IsExp2`.
- `Effect.EffectFrameRate`: a string amount is not modelled. `float("2")` would parse it and `float("x")` would raise an uncaught ValueError.
- `Effect.EffectFrameRate`: the `OverflowError`/`ValueError` that `round` raises on an infinite or NaN product are not modelled.
- `Change.AsPercent`: the `OverflowError` that Python's float `2 ** x` raises once amount / n reaches 1024 (e.g. `Semitones(12288)`) is not modelled; the model returns the real `pow2(amount / n)`. The error would escape `Nightcore.__init__` (nightcore/__init__.py:85) and `nightcore` (nightcore/effect.py:57-61 catches only `TypeError`).
- `Audio.Nightcore.constructor`: `raw_data` is held as a `const` field, so a caller reassigning the plain Python attribute `raw_data` (nightcore/__init__.py:92) is not modelled.
- `Audio.Nightcore.constructor`: the `OverflowError` that `round` raises on an infinite product (nightcore/__init__.py:88) is not modelled; the model's reals are never infinite.
- The test helper classes `Input` (multiplier equal to the amount) and the `flag` recorder are not modelled. `Algebra.ComparisonTable` and `Algebra.IntTruncates` use Percent amounts with the same multipliers instead.
- nightcore.change, the module that implements the operators, is not part of this model. The algebra follows the tests. Choices the tests do not pin down:
  - `Algebra.Compare` compares through `as_percent()`. tests/test_relative_change.py:22-59 compares only `Input` values, whose multiplier is their amount (tests/test_relative_change.py:7-9), so a plain comparison of amounts passes those tests too, and no test compares changes of different classes. `Algebra.CrossClassComparisons` (`Semitones(12) == Octaves(1)`, `Semitones(12) == 2.0`, `Tones(1) < Semitones(3)`) is a consequence of this choice, not of a test;
  - comparing with an operand that has no float conversion is `UnsupportedOperand`; for `==` Python's dispatch would instead end in an identity comparison that gives `False`;
  - Percent with a change on the right is `UnsupportedOperand`;
  - an interval with Percent on the right is `UnsupportedOperand`; Python would first try Percent's reflected method, which the model does not;
  - `Algebra.Int` is `as_percent()` truncated toward zero. tests/test_relative_change.py:74-75 has the one case `int(Input(1.1)) == 1`: `Input`'s multiplier is its amount and the value is positive, so neither `int(amount)` nor the floor is ruled out, and no test has a negative case. The -1.1 case of `Algebra.IntTruncates` is a consequence of this choice;
  - `Algebra.Neg` keeps an amount of zero or below as it is, and `Algebra.Pos` keeps an amount of zero or above. tests/test_relative_change.py:16-20 only negates a positive amount and applies `+` to a negative one, so a plain sign flip would pass the tests too. `Algebra.DoubleNegationKeepsSign` is a consequence of this choice, not of a test.
- Interval arithmetic with a bare number on the right is modelled as `op(a, v)` on the amount. tests/test_relative_change.py:140-141 returns instead of asserting, so no test backs this case.
- `Change.DataclassEq`: two distinct classes with the same steps per octave would be equal here but not in Python. The model identifies an interval class by its steps per octave.
