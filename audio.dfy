/**
 * Audio values and the numeric parts of metric extraction. Decoding,
 * encoding and librosa's signal processing are not modelled numerically:
 * they are oracle functions carried in `Codec` and `Dsp`. What is modelled
 * exactly is the arithmetic the pipeline applies to their results.
 */
module Audio {
  import opened Wrappers

  /** A decoded waveform: samples and sample rate. */
  datatype Signal = Signal(samples: seq<real>, rate: nat)

  /**
   * The codecs, as oracles: `decode` is loading a file's bytes as audio
   * (librosa.load with sr=None, pydub's AudioSegment.from_file), None when the
   * content cannot be decoded; `toWav` is re-encoding arbitrary audio bytes as
   * WAV bytes (ffmpeg, pydub's export); `encodeWav` is soundfile.write.
   */
  datatype Codec = Codec(
    decode: seq<int> -> Option<Signal>,
    toWav: seq<int> -> Option<seq<int>>,
    encodeWav: Signal -> seq<int>)

  /**
   * librosa's analysis routines, as oracles: `trim` is effects.trim with
   * top_db=30, `duration` is get_duration, and `meanRms` is
   * feature.rms(y=...).mean(), None when librosa raises.
   */
  datatype Dsp = Dsp(
    trim: seq<real> -> seq<real>,
    duration: Signal -> real,
    meanRms: seq<real> -> Option<real>)

  /** The fixed RMS level that maps to a clarity score of 1. */
  const ClarityReference: real := 0.1

  /** `min(max(x, 0), 1)` with Python's `max` and `min` on two arguments. */
  function Clamp01(x: real): (r: real)
    ensures 0.0 <= r <= 1.0
    ensures 0.0 <= x <= 1.0 ==> r == x
    ensures x < 0.0 ==> r == 0.0
    ensures 1.0 < x ==> r == 1.0
  {
    var atLeastZero := if 0.0 > x then 0.0 else x;
    if 1.0 < atLeastZero then 1.0 else atLeastZero
  }

  /** The clarity score `min(max(rms / 0.1, 0), 1)`, before rounding. */
  function ClarityScore(rms: real): (c: real)
    ensures 0.0 <= c <= 1.0
    ensures 0.0 <= rms <= ClarityReference ==> c == rms * 10.0
    ensures rms >= ClarityReference ==> c == 1.0
    ensures rms <= 0.0 ==> c == 0.0
  {
    Clamp01(rms / ClarityReference)
  }

  /** A louder signal never has a lower clarity score. */
  lemma ClarityMonotone(a: real, b: real)
    requires a <= b
    ensures ClarityScore(a) <= ClarityScore(b)
  {
  }

  /** 10^places, the scale `round` works at (a helper of Round). */
  function Scale(places: nat): (s: nat)
    ensures s >= 1
  {
    if places == 0 then 1 else 10 * Scale(places - 1)
  }

  /**
   * `round(x, places)`, taken as rounding half up on exact reals: the nearest
   * multiple of 10^-places, ties going up.
   */
  function Round(x: real, places: nat): real {
    var s := Scale(places) as real;
    (x * s + 0.5).Floor as real / s
  }

  /** Rounding keeps a value of the unit interval inside it. */
  lemma RoundUnitInterval(x: real, places: nat)
    requires 0.0 <= x <= 1.0
    ensures 0.0 <= Round(x, places) <= 1.0
  {
    var n := Scale(places);
    var s := n as real;
    ScaleWithin(x, s);
    var y := x * s + 0.5;
    var f := y.Floor;
    assert 0 <= f <= n;
    DivideWithin(f as real, s);
  }

  /** Arithmetic step for RoundUnitInterval: scaling keeps a unit-interval value within [0, s]. */
  lemma ScaleWithin(x: real, s: real)
    requires 0.0 <= x <= 1.0 && s >= 1.0
    ensures 0.0 <= x * s <= s
  {
  }

  /** Arithmetic step for RoundUnitInterval: dividing a value of [0, s] by s lands in [0, 1]. */
  lemma DivideWithin(a: real, s: real)
    requires s >= 1.0 && 0.0 <= a <= s
    ensures 0.0 <= a / s <= 1.0
  {
  }

  /** Rounding a non-negative value never makes it negative. */
  lemma RoundNonNegative(x: real, places: nat)
    requires 0.0 <= x
    ensures 0.0 <= Round(x, places)
  {
    var s := Scale(places) as real;
    ScaleNonNegative(x, s);
    var f := (x * s + 0.5).Floor;
    assert 0 <= f;
    DivideMonotone(0.0, f as real, s);
  }

  /** Arithmetic step for RoundNonNegative: scaling keeps a value non-negative. */
  lemma ScaleNonNegative(x: real, s: real)
    requires 0.0 <= x && s >= 1.0
    ensures 0.0 <= x * s
  {
  }

  /** Arithmetic step for RoundNonNegative: dividing by s >= 1 keeps the order. */
  lemma DivideMonotone(a: real, b: real, s: real)
    requires a <= b && s >= 1.0
    ensures a / s <= b / s
  {
  }

  /** Rounding moves a value by at most half a unit in the last place. */
  lemma RoundError(x: real, places: nat)
    ensures -0.5 <= (Round(x, places) - x) * Scale(places) as real <= 0.5
  {
    var s := Scale(places) as real;
    var y := x * s + 0.5;
    var f := y.Floor as real;
    assert y - 1.0 < f <= y;
    Distribute(f, x, s);
  }

  /** Arithmetic step for RoundError: multiplying back by s distributes over the difference. */
  lemma Distribute(f: real, x: real, s: real)
    requires s >= 1.0
    ensures (f / s - x) * s == f - x * s
  {
  }
}
