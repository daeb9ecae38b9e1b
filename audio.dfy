/** The frame-rate rule of nightcore/__init__.py: the `Nightcore` class
    stamps `round(frame_rate * as_percent())` onto the unchanged sample data.

    An audio segment is modelled by its raw sample data and its declared frame
    rate; the decoding, encoding and resampling of the audio library are not
    part of this model. */
module Audio {
  import opened Exp2
  import opened Change

  /** An audio segment: raw sample data and the rate it is declared at. */
  datatype Segment = Segment(rawData: seq<int>, frameRate: int)

  /** Python's `round` on a float: the nearest integer, ties to even. */
  function Round(x: real): (r: int)
    ensures -0.5 <= x - r as real <= 0.5
    ensures (x - r as real == 0.5 || r as real - x == 0.5) ==> r % 2 == 0
  {
    var f := x.Floor;
    var d := x - f as real;
    if d < 0.5 then f
    else if d > 0.5 then f + 1
    else if f % 2 == 0 then f
    else f + 1
  }

  /** The two properties of `Round`'s contract pin the result down: any
      integer within a half of x, and even on a tie, is `Round(x)`. */
  lemma RoundUnique(x: real, k: int)
    requires -0.5 <= x - k as real <= 0.5
    requires (x - k as real == 0.5 || k as real - x == 0.5) ==> k % 2 == 0
    ensures k == Round(x)
  {
  }

  /** Rounding an integer gives it back. */
  lemma RoundInteger(k: int)
    ensures Round(k as real) == k
  {
    RoundUnique(k as real, k);
  }

  /** Rounding never reverses the order of its arguments. */
  lemma RoundMonotone(x: real, y: real)
    requires x <= y
    ensures Round(x) <= Round(y)
  {
  }

  /** The new frame rate for a rate and a multiplier: round(rate * multiplier). */
  function NewFrameRate(rate: int, multiplier: real): (r: int)
    ensures -0.5 <= rate as real * multiplier - r as real <= 0.5
  {
    Round(rate as real * multiplier)
  }

  /** `_spawn(raw_data, overrides={"frame_rate": rate})`: the same data with
      another declared rate. */
  function Spawn(audio: Segment, rate: int): (r: Segment)
    ensures r.rawData == audio.rawData && r.frameRate == rate
  {
    audio.(frameRate := rate)
  }

  /** A multiplier of 1.0 keeps the rate; one of at least (at most) 1.0 never
      lowers (raises) it. */
  lemma NewFrameRateFollowsMultiplier(rate: nat, multiplier: real)
    ensures multiplier == 1.0 ==> NewFrameRate(rate, multiplier) == rate
    ensures 1.0 <= multiplier ==> rate <= NewFrameRate(rate, multiplier)
    ensures multiplier <= 1.0 ==> NewFrameRate(rate, multiplier) <= rate
  {
    RoundInteger(rate);
    if 1.0 <= multiplier {
      assert rate as real <= rate as real * multiplier;
      RoundMonotone(rate as real, rate as real * multiplier);
    }
    if multiplier <= 1.0 {
      assert rate as real * multiplier <= rate as real;
      RoundMonotone(rate as real * multiplier, rate as real);
    }
  }

  /** A larger multiplier never gives a lower rate. */
  lemma NewFrameRateMonotone(rate: nat, m1: real, m2: real)
    requires m1 <= m2
    ensures NewFrameRate(rate, m1) <= NewFrameRate(rate, m2)
  {
    var x1, x2 := rate as real * m1, rate as real * m2;
    assert x1 <= x2;
    RoundMonotone(x1, x2);
  }

  /** `Nightcore(audio, change)`: `change` and the re-rated audio are fixed at
      construction (`const`), which models the read-only `audio` and `change`
      properties. `export` is a bound method of the audio library and is not
      part of this model. */
  class Nightcore {
    const change: Change
    const audio: Segment
    const rawData: seq<int>

    constructor (audio: Segment, change: Change, pow2: real -> real)
      ensures this.change == change
      ensures this.audio.rawData == audio.rawData
      ensures this.audio.frameRate == NewFrameRate(audio.frameRate, AsPercent(change, pow2))
      ensures this.rawData == audio.rawData
    {
      this.change := change;
      var pctChange := AsPercent(change, pow2);
      var spawned := Spawn(audio, NewFrameRate(audio.frameRate, pctChange));
      this.audio := spawned;
      this.rawData := spawned.rawData;
    }
  }

  /** Percent(100) keeps the frame rate; Percent(150) raises it and Percent(50)
      lowers it for every positive rate. Since the sample data is kept, the
      first leaves the length of the audio unchanged, the second shortens it
      and the third lengthens it. */
  lemma PercentRates(rate: nat, pow2: real -> real)
    requires 0 < rate
    ensures NewFrameRate(rate, AsPercent(Percent(100.0), pow2)) == rate
    ensures rate < NewFrameRate(rate, AsPercent(Percent(150.0), pow2))
    ensures NewFrameRate(rate, AsPercent(Percent(50.0), pow2)) < rate
  {
    NewFrameRateFollowsMultiplier(rate, 1.0);
    assert AsPercent(Percent(150.0), pow2) == 1.5;
    assert AsPercent(Percent(50.0), pow2) == 0.5;
  }

  /** Example rates: 12 semitones on 44100 Hz give 88200 Hz,
      Percent(50) on 44100 Hz gives 22050 Hz, an octave down on 48000 Hz gives
      24000 Hz. */
  lemma ExampleRates(pow2: real -> real)
    requires IsExp2(pow2)
    ensures NewFrameRate(44100, AsPercent(Semitones(12.0), pow2)) == 88200
    ensures NewFrameRate(44100, AsPercent(Percent(50.0), pow2)) == 22050
    ensures NewFrameRate(48000, AsPercent(Octaves(-1.0), pow2)) == 24000
  {
    OneOctaveDoubles(pow2);
    MinusOneExponent(pow2);
    assert OctaveFraction(Octaves(-1.0)) == -1.0;
    RoundInteger(88200);
    RoundInteger(22050);
    RoundInteger(24000);
  }

  /** The class guards nothing: a Percent amount of zero or below (-100
      included) stamps a rate of zero or below onto the audio. */
  lemma DegeneratePercentIsNotRejected(rate: nat, amount: real, pow2: real -> real)
    requires amount <= 0.0
    ensures NewFrameRate(rate, AsPercent(Percent(amount), pow2)) <= 0
  {
    var m := AsPercent(Percent(amount), pow2);
    assert m <= 0.0;
    assert rate as real * m <= 0.0;
    RoundInteger(0);
    RoundMonotone(rate as real * m, 0.0);
  }
}
