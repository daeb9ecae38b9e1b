/** The `nightcore` audio effect and the `@` operator of nightcore/effect.py.

    The effect takes an audio segment or a path and an amount (a change, a bare
    number, or anything else), stamps `round(frame_rate * float(amount))` onto
    the unchanged sample data, and then asks the audio library to bring the
    result back to the original frame rate. Decoding a file and resampling are
    the audio library's work: they enter the model as the parameters
    `fromFile` and `resample`. */
module Effect {
  import opened Errors
  import opened Change
  import opened Audio

  /** `AudioOrPath`: a decoded segment or the path of a file to decode. */
  datatype AudioOrPath = AudioSegment(segment: Segment) | Path(path: string)

  /** The `@` operator's answer: a segment, or `NotImplemented`. */
  datatype MatMulResult = Returned(segment: Segment) | NotImplemented

  /** The message of the `TypeError` raised for an amount with no float
      conversion (the amount is shown by its repr). */
  function CannotChangeMessage(amount: Value): string
    requires amount.Other?
  {
    "Cannot change audio speed by " + amount.repr
  }

  /** The keyword arguments passed on to the decoder: every key but `file`,
      with its value. */
  function DecoderKwargs(kwargs: map<string, string>): (r: map<string, string>)
    ensures "file" !in r
    ensures r.Keys == kwargs.Keys - {"file"}
    ensures forall k :: k in r ==> r[k] == kwargs[k]
  {
    kwargs - {"file"}
  }

  /** `set_frame_rate(rate)`: the audio library resamples the data to `rate`
      and declares that rate. */
  function SetFrameRate(audio: Segment, rate: int, resample: (Segment, int) -> seq<int>): (r: Segment)
    ensures r.frameRate == rate
    ensures r.rawData == resample(audio, rate)
  {
    Segment(resample(audio, rate), rate)
  }

  /** The rate rule of the effect: round(frame_rate * float(amount)), or the
      `TypeError` naming the amount when it has no float conversion; there is
      no fallback to "no change". */
  function EffectFrameRate(rate: int, amount: Value, pow2: real -> real): (r: Result<int>)
    ensures r.Ok? <==> !amount.Other?
    ensures amount.Num? ==> r == Ok(NewFrameRate(rate, amount.value))
    ensures amount.Rel? ==> r == Ok(NewFrameRate(rate, AsPercent(amount.change, pow2)))
    ensures amount.Other? ==> r == Err(TypeError(CannotChangeMessage(amount)))
  {
    match Float(amount, pow2)
    case Some(m) => Ok(NewFrameRate(rate, m))
    case None => Err(TypeError(CannotChangeMessage(amount)))
  }

  /** The segment the effect works on: the given segment as it is, or the
      file decoded with the keyword arguments other than `file`. */
  function Source(audio: AudioOrPath, kwargs: map<string, string>,
                  fromFile: (string, map<string, string>) -> Segment): Segment
  {
    match audio
    case AudioSegment(s) => s
    case Path(p) => fromFile(p, DecoderKwargs(kwargs))
  }

  /** The effect on a segment. */
  method NightcoreSegment(audioSeg: Segment, amount: Value,
                          resample: (Segment, int) -> seq<int>, pow2: real -> real)
    returns (r: Result<Segment>)
    ensures r.Ok? <==> !amount.Other?
    ensures amount.Other? ==> r.error == TypeError(CannotChangeMessage(amount))
    ensures r.Ok? ==> r.value.frameRate == audioSeg.frameRate
    ensures r.Ok? ==>
      var spawned := Spawn(audioSeg, EffectFrameRate(audioSeg.frameRate, amount, pow2).value);
      spawned.rawData == audioSeg.rawData && r.value.rawData == resample(spawned, audioSeg.frameRate)
  {
    var pct := Float(amount, pow2);
    if pct.None? {
      return Err(TypeError(CannotChangeMessage(amount)));
    }
    var newFramerate := NewFrameRate(audioSeg.frameRate, pct.value);
    assert EffectFrameRate(audioSeg.frameRate, amount, pow2) == Ok(newFramerate);
    var newAudio := Spawn(audioSeg, newFramerate);
    r := Ok(SetFrameRate(newAudio, audioSeg.frameRate, resample));
  }

  /** `nightcore(audio, amount, **kwargs)`. The `kwargs` dictionary is the
      call's own, so removing `file` from it is a local update. */
  method NightcoreEffect(audio: AudioOrPath, amount: Value, kwargs: map<string, string>,
                   fromFile: (string, map<string, string>) -> Segment,
                   resample: (Segment, int) -> seq<int>, pow2: real -> real)
    returns (r: Result<Segment>)
    ensures r.Ok? <==> !amount.Other?
    ensures amount.Other? ==> r.error == TypeError(CannotChangeMessage(amount))
    ensures r.Ok? ==>
      var source := Source(audio, kwargs, fromFile);
      var spawned := Spawn(source, EffectFrameRate(source.frameRate, amount, pow2).value);
      r.value.frameRate == source.frameRate && r.value.rawData == resample(spawned, source.frameRate)
  {
    var audioSeg: Segment;
    if audio.AudioSegment? {
      audioSeg := audio.segment;
    } else {
      var kw := kwargs;
      if "file" in kw {
        kw := kw - {"file"};
      }
      assert kw == DecoderKwargs(kwargs);
      audioSeg := fromFile(audio.path, kw);
    }
    r := NightcoreSegment(audioSeg, amount, resample, pow2);
  }

  /** `segment @ other`: the effect when `other` has a float conversion,
      `NotImplemented` otherwise. */
  method MatMul(self: Segment, other: Value,
                resample: (Segment, int) -> seq<int>, pow2: real -> real)
    returns (r: MatMulResult)
    ensures r.NotImplemented? <==> other.Other?
    ensures r.Returned? ==>
      var spawned := Spawn(self, EffectFrameRate(self.frameRate, other, pow2).value);
      r.segment.frameRate == self.frameRate && r.segment.rawData == resample(spawned, self.frameRate)
  {
    if Float(other, pow2).Some? {
      var res := NightcoreSegment(self, other, resample, pow2);
      r := Returned(res.value);
    } else {
      r := NotImplemented;
    }
  }
}
