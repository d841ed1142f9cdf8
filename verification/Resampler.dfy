/**
 The child's linear-interpolation resampler, over exact rationals: interleaved
 16-bit audio from one rate to another.
 */
module Resampler {
  import opened Base
  import opened Arithmetic

  /** The saturating cast to 16 bits. */
  function ToSample(n: int): Sample { if n < -32768 then -32768 else if n > 32767 then 32767 else n }

  function SampleAt(input: seq<Sample>, channels: nat, frame: nat, c: nat): Sample {
    if frame * channels + c < |input| then input[frame * channels + c] else 0
  }

  function Offset(frame: nat, channels: nat, c: nat): nat { frame * channels + c }

  function Interpolate(a: int, b: int, frac: real): real { a as real + (b - a) as real * frac }

  function Lerp(a: Sample, b: Sample, frac: real): Sample { ToSample(Round(Interpolate(a, b, frac))) }

  function Position(j: nat, ratio: real): (pos: real)
    requires ratio > 0.0
    ensures pos >= 0.0
  {
    j as real * ratio
  }

  /** The input frames around a position in a signal of `frames` frames. */
  function Before(pos: real): nat requires pos >= 0.0 { pos.Floor }
  function After(pos: real, frames: nat): nat requires pos >= 0.0 && frames > 0 { Min(Before(pos) + 1, frames - 1) }

  function OutSample(input: seq<Sample>, channels: nat, frames: nat, pos: real, c: nat): Sample
    requires pos >= 0.0 && frames > 0
  {
    Lerp(SampleAt(input, channels, Before(pos), c), SampleAt(input, channels, After(pos, frames), c),
         pos - Before(pos) as real)
  }

  /** The first `n` output frames. */
  function Resampled(input: seq<Sample>, channels: nat, frames: nat, ratio: real, n: nat): (r: seq<Sample>)
    requires ratio > 0.0 && frames > 0
  {
    if n == 0 then []
    else Resampled(input, channels, frames, ratio, n - 1)
         + seq(channels, c requires 0 <= c < channels =>
             OutSample(input, channels, frames, Position(n - 1, ratio), c))
  }

  function OutputFrames(frames: nat, ratio: real): nat
    requires ratio > 0.0
  {
    QuotientSign(frames as real, ratio);
    Round(frames as real / ratio)
  }

  predicate PassesThrough(frames: nat, inRate: real, outRate: real) {
    || frames == 0 || inRate <= 0.0 || outRate <= 0.0
    || -0.5 < inRate - outRate < 0.5
    || OutputFrames(frames, inRate / outRate) == 0
  }

  // ── Arithmetic over the rationals ──────────────────────────────────

  lemma QuotientSign(a: real, b: real)
    requires a >= 0.0 && b > 0.0
    ensures a / b >= 0.0
  {
  }

  lemma ProductLess(x: real, y: real, z: real)
    requires z > 0.0 && x < y
    ensures x * z < y * z
  {
  }

  /** No output position reaches past the last input frame. */
  lemma PositionInRange(j: nat, frames: nat, ratio: real)
    requires ratio > 0.0 && j < OutputFrames(frames, ratio)
    ensures Before(Position(j, ratio)) < frames
  {
    var n := frames as real / ratio;
    QuotientSign(frames as real, ratio);
    assert j as real + 1.0 <= n + 0.5;
    ProductLess(j as real, n, ratio);
    assert n * ratio == frames as real;
  }

  lemma RoundBetween(x: real, lo: int, hi: int)
    requires lo as real <= x <= hi as real
    ensures lo <= Round(x) <= hi
  {
  }

  lemma Fraction(d: real, f: real)
    requires 0.0 <= f < 1.0 && d >= 0.0
    ensures 0.0 <= d * f <= d
  {
  }

  lemma InterpolateBetween(a: int, b: int, frac: real)
    requires 0.0 <= frac < 1.0
    ensures Min(a, b) as real <= Interpolate(a, b, frac) <= Max(a, b) as real
  {
    if a <= b {
      Fraction((b - a) as real, frac);
    } else {
      Fraction((a - b) as real, frac);
      assert (b - a) as real * frac == -((a - b) as real * frac);
    }
  }

  lemma LerpBetween(a: Sample, b: Sample, frac: real)
    requires 0.0 <= frac < 1.0
    ensures Min(a, b) <= Lerp(a, b, frac) <= Max(a, b)
  {
    InterpolateBetween(a, b, frac);
    RoundBetween(Interpolate(a, b, frac), Min(a, b), Max(a, b));
  }

  lemma FrameFits(frames: nat, channels: nat, n: nat, i: nat)
    requires channels > 0 && frames == Div(n, channels) && i < frames
    ensures i * channels + channels <= n
  {
    DivMod(n, channels);
    MulLe(channels, i + 1, frames);
  }

  // ── The resampler ──────────────────────────────────────────────────

  method ResampleAudio(input: seq<Sample>, inRate: real, outRate: real, channels: nat) returns (out: seq<Sample>)
    requires channels > 0
    ensures var frames := Div(|input|, channels);
      out == if PassesThrough(frames, inRate, outRate) then input
             else Resampled(input, channels, frames, inRate / outRate, OutputFrames(frames, inRate / outRate))
  {
    var frames := Div(|input|, channels);
    if frames == 0 || inRate <= 0.0 || outRate <= 0.0 || -0.5 < inRate - outRate < 0.5 {
      return input;
    }
    var ratio := inRate / outRate;
    var outputFrames := OutputFrames(frames, ratio);
    if outputFrames == 0 {
      return input;
    }
    out := [];
    var j := 0;
    while j < outputFrames
      invariant 0 <= j <= outputFrames
      invariant out == Resampled(input, channels, frames, ratio, j)
    {
      var pos := Position(j, ratio);
      PositionInRange(j, frames, ratio);
      if Before(pos) >= frames {
        break;
      }
      var frame := InterpolateFrame(input, channels, frames, pos);
      out := out + frame;
      j := j + 1;
    }
  }

  /** The inner loop: one output frame, every channel of it. */
  method InterpolateFrame(input: seq<Sample>, channels: nat, frames: nat, pos: real) returns (frame: seq<Sample>)
    requires channels > 0 && frames == Div(|input|, channels) && pos >= 0.0 && Before(pos) < frames
    ensures frame == seq(channels, c requires 0 <= c < channels => OutSample(input, channels, frames, pos, c))
  {
    var i0 := Before(pos);
    var frac := pos - i0 as real;
    var i1 := Min(i0 + 1, frames - 1);
    FrameFits(frames, channels, |input|, i0);
    FrameFits(frames, channels, |input|, i1);
    var base0, base1 := i0 * channels, i1 * channels;
    frame := [];
    var c := 0;
    while c < channels
      invariant 0 <= c <= channels
      invariant |frame| == c
      invariant forall k :: 0 <= k < c ==> frame[k] == OutSample(input, channels, frames, pos, k)
    {
      var v := Interpolate(input[base0 + c], input[base1 + c], frac);
      frame := frame + [ToSample(Round(v))];
      c := c + 1;
    }
  }

  lemma {:induction false} ResampledAt(
      input: seq<Sample>, channels: nat, frames: nat, ratio: real, n: nat, j: nat, c: nat)
    requires ratio > 0.0 && frames > 0 && j < n && c < channels
    ensures |Resampled(input, channels, frames, ratio, n)| == n * channels
    ensures j * channels + c < n * channels
    ensures Resampled(input, channels, frames, ratio, n)[j * channels + c]
            == OutSample(input, channels, frames, Position(j, ratio), c)
  {
    var r, before := Resampled(input, channels, frames, ratio, n), Resampled(input, channels, frames, ratio, n - 1);
    MulLe(channels, j + 1, n);
    if n == 1 {
      assert before == [];
    } else {
      assert (n - 1) * channels + channels == n * channels;
      ResampledAt(input, channels, frames, ratio, n - 1, if j < n - 1 then j else 0, c);
    }
  }

  /** One output sample: read in bounds, between its two input samples. */
  lemma OutSampleBetween(input: seq<Sample>, channels: nat, frames: nat, pos: real, c: nat)
    requires channels > 0 && c < channels && frames == Div(|input|, channels)
    requires pos >= 0.0 && Before(pos) < frames
    ensures var i0, i1 := Before(pos) * channels + c, After(pos, frames) * channels + c;
      && i0 < |input| && i1 < |input|
      && Min(input[i0], input[i1]) <= OutSample(input, channels, frames, pos, c) <= Max(input[i0], input[i1])
  {
    FrameFits(frames, channels, |input|, Before(pos));
    FrameFits(frames, channels, |input|, After(pos, frames));
    LerpBetween(SampleAt(input, channels, Before(pos), c), SampleAt(input, channels, After(pos, frames), c),
                pos - Before(pos) as real);
  }

  lemma RatesDivide(frames: nat, inRate: real, outRate: real, ratio: real)
    requires inRate > 0.0 && outRate > 0.0 && ratio == inRate / outRate
    ensures ratio > 0.0 && OutputFrames(frames, ratio) == Round(frames as real * outRate / inRate)
  {
    QuotientSign(frames as real, ratio);
    assert frames as real / ratio == frames as real * outRate / inRate;
  }

  /** Outside the pass-through cases the output has exactly round(frames*out/in)
      frames, because no position falls past the input and cuts the loop short. */
  lemma FrameCountIsExact(
      input: seq<Sample>, inRate: real, outRate: real, ratio: real, channels: nat, frames: nat)
    requires channels > 0 && frames == Div(|input|, channels)
    requires !PassesThrough(frames, inRate, outRate) && ratio == inRate / outRate
    ensures ratio > 0.0
    ensures var n := OutputFrames(frames, ratio);
      && n == Round(frames as real * outRate / inRate) > 0
      && |Resampled(input, channels, frames, ratio, n)| == n * channels
      && forall j: nat :: j < n ==> Before(Position(j, ratio)) < frames
  {
    RatesDivide(frames, inRate, outRate, ratio);
    var n := OutputFrames(frames, ratio);
    ResampledAt(input, channels, frames, ratio, n, 0, 0);
    forall j: nat | j < n ensures Before(Position(j, ratio)) < frames {
      PositionInRange(j, frames, ratio);
    }
  }

  /** Every output sample lies between the two input samples around its position,
      both of which exist, so it is neither clipped nor read out of range. */
  lemma ResampledBetweenNeighbours(input: seq<Sample>, channels: nat, frames: nat, ratio: real, j: nat, c: nat)
    requires channels > 0 && c < channels && frames == Div(|input|, channels) && ratio > 0.0
    requires j < OutputFrames(frames, ratio)
    ensures var out, pos := Resampled(input, channels, frames, ratio, OutputFrames(frames, ratio)), Position(j, ratio);
      && Before(pos) <= After(pos, frames) < frames
      && var i0, i1 := Before(pos) * channels + c, After(pos, frames) * channels + c;
      && i0 < |input| && i1 < |input| && j * channels + c < |out|
      && Min(input[i0], input[i1]) <= out[j * channels + c] <= Max(input[i0], input[i1])
  {
    PositionInRange(j, frames, ratio);
    ResampledAt(input, channels, frames, ratio, OutputFrames(frames, ratio), j, c);
    OutSampleBetween(input, channels, frames, Position(j, ratio), c);
  }

  lemma RoundIsNear(x: real)
    ensures -0.5 <= Round(x) as real - x <= 0.5
  {
  }

  lemma LerpInRange(a: Sample, b: Sample, f: real)
    requires 0.0 <= f < 1.0
    ensures Lerp(a, b, f) == Round(Interpolate(a, b, f))
  {
    InterpolateBetween(a, b, f);
    RoundBetween(Interpolate(a, b, f), Min(a, b), Max(a, b));
  }

  /** `v` is the straight line from `a` to `b` at the fraction `f`, rounded. */
  predicate OnTheLine(v: int, a: int, b: int, f: real) {
    -0.5 <= v as real - ((1.0 - f) * a as real + f * b as real) <= 0.5
  }

  lemma LerpIsNear(a: Sample, b: Sample, f: real)
    requires 0.0 <= f < 1.0
    ensures OnTheLine(Lerp(a, b, f), a, b, f)
  {
    LerpInRange(a, b, f);
    RoundIsNear(Interpolate(a, b, f));
    assert Interpolate(a, b, f) == (1.0 - f) * a as real + f * b as real;
  }

  lemma SampleOnTheLine(input: seq<Sample>, channels: nat, frames: nat, pos: real, c: nat)
    requires channels > 0 && c < channels && frames == Div(|input|, channels)
    requires pos >= 0.0 && Before(pos) < frames
    ensures var i0, i1 := Offset(Before(pos), channels, c), Offset(After(pos, frames), channels, c);
      && i0 < |input| && i1 < |input|
      && OnTheLine(OutSample(input, channels, frames, pos, c), input[i0], input[i1], pos - Before(pos) as real)
  {
    FrameFits(frames, channels, |input|, Before(pos));
    FrameFits(frames, channels, |input|, After(pos, frames));
    LerpIsNear(SampleAt(input, channels, Before(pos), c), SampleAt(input, channels, After(pos, frames), c),
               pos - Before(pos) as real);
  }

  /** Every output sample is within half a step of the point at its position, j times the ratio
      of the rates, on the straight line through its two input samples. */
  lemma OutputIsOnTheLine(input: seq<Sample>, channels: nat, frames: nat, ratio: real, j: nat, c: nat, pos: real)
    requires channels > 0 && c < channels && frames == Div(|input|, channels) && ratio > 0.0
    requires j < OutputFrames(frames, ratio) && pos == j as real * ratio >= 0.0
    ensures var out := Resampled(input, channels, frames, ratio, OutputFrames(frames, ratio));
      var i0, i1 := Offset(Before(pos), channels, c), Offset(After(pos, frames), channels, c);
      && i0 < |input| && i1 < |input| && Offset(j, channels, c) < |out|
      && OnTheLine(out[Offset(j, channels, c)], input[i0], input[i1], pos - Before(pos) as real)
  {
    assert pos == Position(j, ratio);
    PositionInRange(j, frames, ratio);
    ResampledAt(input, channels, frames, ratio, OutputFrames(frames, ratio), j, c);
    SampleOnTheLine(input, channels, frames, pos, c);
  }

  lemma WholeRatio(ratio: real, k: nat, frames: nat, i: nat)
    requires ratio > 0.0 && k as real * ratio == 1.0
    ensures OutputFrames(frames, ratio) == frames * k
    ensures Position(k * i, ratio) == i as real
  {
    assert (frames * k) as real * ratio == frames as real * (k as real * ratio);
    assert frames as real / ratio == (frames * k) as real;
    assert (k * i) as real * ratio == i as real * (k as real * ratio);
  }

  /** Upsampling by a whole factor k keeps every input frame i, as output frame k*i. */
  lemma WholeFactorKeepsInput(
      input: seq<Sample>, channels: nat, frames: nat, ratio: real, k: nat, i: nat, j: nat, c: nat)
    requires channels > 0 && c < channels && frames == Div(|input|, channels) && i < frames
    requires ratio > 0.0 && k as real * ratio == 1.0 && j == k * i
    ensures var out := Resampled(input, channels, frames, ratio, OutputFrames(frames, ratio));
      && |out| == frames * k * channels
      && Offset(j, channels, c) < |out| && Offset(i, channels, c) < |input|
      && out[Offset(j, channels, c)] == input[Offset(i, channels, c)]
  {
    WholeRatio(ratio, k, frames, i);
    assert k > 0;
    MulLe(k, i + 1, frames);
    FrameFits(frames, channels, |input|, i);
    ResampledAt(input, channels, frames, ratio, frames * k, j, c);
    ExactPosition(input, channels, frames, i, c);
  }

  lemma ExactPosition(input: seq<Sample>, channels: nat, frames: nat, i: nat, c: nat)
    requires frames > 0
    ensures OutSample(input, channels, frames, i as real, c) == SampleAt(input, channels, i, c)
  {
    var a := SampleAt(input, channels, i, c);
    var b := SampleAt(input, channels, After(i as real, frames), c);
    assert Interpolate(a, b, 0.0) == a as real;
    RoundBetween(a as real, a, a);
  }
}
