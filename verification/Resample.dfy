/** The linear resampler and the audio intake built on it, over exact rationals. */
module Resample {
  import opened Wrappers
  import opened WavWalk
  import WavRoundTrip

  function Blend(w: real, a: real, b: real): real {
    (1.0 - w) * a + w * b
  }

  /** The sample at the rational position `num / den`, on the line between its two
      neighbours; past the last sample it stays at the last one. */
  function Interpolate(samples: seq<real>, num: nat, den: nat): real
    requires 0 < den && num / den < |samples|
  {
    var i0 := num / den;
    var i1 := if i0 + 1 >= |samples| then |samples| - 1 else i0 + 1;
    var w := (num % den) as real / den as real;
    Blend(w, samples[i0], samples[i1])
  }

  lemma InterpolateAt(samples: seq<real>, num: nat, den: nat, i0: int, w: real)
    requires 0 < den && num / den < |samples| && i0 == num / den && w == (num % den) as real / den as real
    ensures 0 <= i0 < |samples|
    ensures Interpolate(samples, num, den) == Blend(w, samples[i0], samples[if i0 + 1 >= |samples| then |samples| - 1 else i0 + 1])
  {
    hide Blend;
    assert 0 <= num / den;
  }

  function CeilDiv(num: nat, den: nat): nat
    requires 0 < den
  {
    (num + den - 1) / den
  }

  lemma CeilDivBounds(num: nat, den: nat)
    requires 0 < den
    ensures num <= CeilDiv(num, den) * den < num + den
  {
  }

  lemma QuotientBelow(num: nat, den: nat, n: nat)
    requires 0 < den && num < n * den
    ensures num / den < n
  {
    var q := num / den;
    assert q * den <= num;
    assert q >= n ==> q * den >= n * den;
  }

  lemma InsideInput(n: nat, src: nat, dst: nat, i: nat)
    requires 0 < src && 0 < dst && i < CeilDiv(n * dst, src)
    ensures i * src / dst < n
  {
    var c, total := CeilDiv(n * dst, src), n * dst;
    CeilDivBounds(total, src);
    OneLess(i, c, src);
    QuotientBelow(i * src, dst, n);
  }

  lemma OneLess(i: nat, c: nat, src: nat)
    requires i < c
    ensures i * src + src <= c * src
  {
    var j := i + 1;
    assert j * src <= c * src;
    assert j * src == i * src + src;
  }

  function Resampled(samples: seq<real>, src: int, dst: int): seq<real> {
    if |samples| == 0 || src == dst || src < 1 || dst < 1 then samples
    else
      seq(CeilDiv(|samples| * dst, src), i requires 0 <= i < CeilDiv(|samples| * dst, src) =>
        InsideInput(|samples|, src, dst, i); Interpolate(samples, i * src, dst))
  }

  lemma ProperFraction(num: nat, den: nat)
    requires num < den
    ensures 0.0 <= num as real / den as real < 1.0
    ensures num == 0 ==> num as real / den as real == 0.0
  {
  }

  /** Real division and rounding agree with integer division. */
  lemma FloorIsDiv(num: nat, den: nat)
    requires 0 < den
    ensures (num as real / den as real).Floor == num / den
    ensures num as real / den as real - (num / den) as real == (num % den) as real / den as real
  {
    var q, r := num / den, num % den;
    assert num == q * den + r;
    assert num as real == q as real * den as real + r as real;
    assert num as real / den as real == q as real + r as real / den as real;
    ProperFraction(r, den);
  }

  lemma CeilIsCeilDiv(num: nat, den: nat)
    requires 0 < den
    ensures -((-(num as real / den as real)).Floor) == CeilDiv(num, den)
  {
    var c, x := CeilDiv(num, den), num as real / den as real;
    CeilDivBounds(num, den);
    var over := c * den - num;
    ProperFraction(over, den);
    assert x == c as real - over as real / den as real by {
      assert num as real == c as real * den as real - over as real;
    }
  }

  /** Where the loop's `i` falls, in the reals. */
  lemma Position(src: nat, dst: nat, i: nat)
    requires 0 < src && 0 < dst
    ensures var srcIdx := i as real * (src as real / dst as real);
            && srcIdx.Floor == i * src / dst
            && srcIdx - srcIdx.Floor as real == (i * src % dst) as real / dst as real
  {
    var ratio := src as real / dst as real;
    assert ratio * dst as real == src as real;
    assert (i as real * ratio) * dst as real == (i * src) as real;
    assert i as real * ratio == (i * src) as real / dst as real;
    FloorIsDiv(i * src, dst);
  }

  lemma ResampledAt(samples: seq<real>, src: int, dst: int, i: nat)
    requires |samples| != 0 && src != dst && 1 <= src && 1 <= dst && i < CeilDiv(|samples| * dst, src)
    ensures i * src / dst < |samples|
    ensures |Resampled(samples, src, dst)| == CeilDiv(|samples| * dst, src)
    ensures Resampled(samples, src, dst)[i] == Interpolate(samples, i * src, dst)
  {
    hide Interpolate, CeilDiv;
    InsideInput(|samples|, src, dst, i);
  }

  /** The loop. Its past-the-end branch is dead. */
  method ResampleLinear(samples: seq<real>, srcRate: int, dstRate: int) returns (r: seq<real>)
    ensures r == Resampled(samples, srcRate, dstRate)
  {
    hide CeilDiv;
    if |samples| == 0 || srcRate == dstRate {
      return samples;
    }
    if srcRate < 1 || dstRate < 1 {
      return samples;
    }
    CeilIsCeilDiv(|samples| * dstRate, srcRate);
    var out := new real[-((-((|samples| * dstRate) as real / srcRate as real)).Floor)];
    if out.Length == 0 {
      return out[..];
    }
    FillLinear(samples, srcRate, dstRate, out);
    r := out[..];
  }

  /** The input index at or before output `i`, and how far beyond it `i` falls. */
  method Locate(srcRate: int, dstRate: int, i: nat) returns (i0: int, w: real)
    requires 1 <= srcRate && 1 <= dstRate
    ensures i0 == i * srcRate / dstRate && w == (i * srcRate % dstRate) as real / dstRate as real
  {
    Position(srcRate, dstRate, i);
    var ratio := srcRate as real / dstRate as real;
    var srcIdx := i as real * ratio;
    i0 := srcIdx.Floor;
    w := srcIdx - i0 as real;
  }

  /** The loop's body. */
  method OneOutput(samples: seq<real>, srcRate: int, dstRate: int, i: nat) returns (x: real)
    requires |samples| != 0 && srcRate != dstRate && 1 <= srcRate && 1 <= dstRate && i < CeilDiv(|samples| * dstRate, srcRate)
    ensures i * srcRate / dstRate < |samples| && x == Interpolate(samples, i * srcRate, dstRate)
  {
    hide *;
    InsideInput(|samples|, srcRate, dstRate, i);
    var i0, w := Locate(srcRate, dstRate, i);
    ghost var num := i * srcRate;
    InterpolateAt(samples, num, dstRate, i0, w);
    var i1 := i0 + 1;
    if i1 >= |samples| {
      i1 := |samples| - 1;
    }
    if i0 >= |samples| {
      assert false;
    }
    x := Blend(w, samples[i0], samples[i1]);
  }

  method FillLinear(samples: seq<real>, srcRate: int, dstRate: int, out: array<real>)
    requires |samples| != 0 && srcRate != dstRate && 1 <= srcRate && 1 <= dstRate
    requires out.Length == CeilDiv(|samples| * dstRate, srcRate)
    modifies out
    ensures out[..] == Resampled(samples, srcRate, dstRate)
  {
    hide CeilDiv, Resampled, Interpolate;
    ResampledLength(samples, srcRate, dstRate);
    for i := 0 to out.Length
      invariant forall k :: 0 <= k < i ==> out[k] == Resampled(samples, srcRate, dstRate)[k]
    {
      ResampledAt(samples, srcRate, dstRate, i);
      out[i] := OneOutput(samples, srcRate, dstRate, i);
    }
  }

  // ------------------------------------------------------------- main results

  lemma ResampledLength(samples: seq<real>, src: int, dst: int)
    requires |samples| != 0 && src != dst && 1 <= src && 1 <= dst
    ensures |Resampled(samples, src, dst)| == CeilDiv(|samples| * dst, src)
  {
  }

  lemma ProductNonNegative(x: real, y: real)
    requires 0.0 <= x && 0.0 <= y
    ensures 0.0 <= x * y
  {
  }

  lemma Fraction(w: real, d: real) returns (t: real)
    requires 0.0 <= w < 1.0 && 0.0 <= d
    ensures t == w * d && 0.0 <= t <= d
  {
    t := w * d;
    var rest := 1.0 - w;
    ProductNonNegative(rest, d);
    ProductNonNegative(w, d);
    assert rest * d == d - t;
  }

  lemma BlendFromLeft(w: real, a: real, b: real, d: real)
    requires d == b - a
    ensures Blend(w, a, b) == a + w * d
  {
  }

  lemma BlendDown(w: real, a: real, b: real, d: real)
    requires d == a - b
    ensures Blend(w, a, b) == a - w * d
  {
  }

  lemma Between(a: real, b: real, w: real)
    requires 0.0 <= w < 1.0
    ensures a <= Blend(w, a, b) <= b || b <= Blend(w, a, b) <= a
    ensures w == 0.0 ==> Blend(w, a, b) == a
  {
    hide Blend;
    if a <= b {
      var d := b - a;
      var t := Fraction(w, d);
      BlendFromLeft(w, a, b, d);
    } else {
      var d := a - b;
      var t := Fraction(w, d);
      BlendDown(w, a, b, d);
    }
  }

  /** `x` lies between the two samples around the position `num / den`, and is the sample
      there if the position falls on one. */
  predicate Neighbourly(samples: seq<real>, num: nat, den: nat, x: real) {
    && 0 < den && num / den < |samples|
    && var i0 := num / den;
    && var i1 := if i0 + 1 < |samples| then i0 + 1 else i0;
    && (samples[i0] <= x <= samples[i1] || samples[i1] <= x <= samples[i0])
    && (num % den == 0 ==> x == samples[i0])
  }

  lemma InterpolateBetween(samples: seq<real>, num: nat, den: nat)
    requires 0 < den && num / den < |samples|
    ensures Neighbourly(samples, num, den, Interpolate(samples, num, den))
  {
    hide Blend;
    ProperFraction(num % den, den);
    var i0 := num / den;
    Between(samples[i0], samples[if i0 + 1 < |samples| then i0 + 1 else i0], (num % den) as real / den as real);
  }

  /** Every output lies between two neighbouring inputs. */
  lemma OutputBetweenNeighbours(samples: seq<real>, src: int, dst: int, i: nat)
    requires |samples| != 0 && src != dst && 1 <= src && 1 <= dst && i < |Resampled(samples, src, dst)|
    ensures Neighbourly(samples, i * src, dst, Resampled(samples, src, dst)[i])
  {
    hide CeilDiv, Interpolate, Resampled;
    ResampledLength(samples, src, dst);
    ResampledAt(samples, src, dst, i);
    InterpolateBetween(samples, i * src, dst);
  }

  /** So the output stays in range when the input is. */
  lemma OutputInRange(samples: seq<real>, src: int, dst: int)
    requires forall i :: 0 <= i < |samples| ==> -1.0 <= samples[i] < 1.0
    ensures forall i :: 0 <= i < |Resampled(samples, src, dst)| ==> -1.0 <= Resampled(samples, src, dst)[i] < 1.0
  {
    hide CeilDiv, Interpolate;
    if !(|samples| == 0 || src == dst || src < 1 || dst < 1) {
      forall i | 0 <= i < |Resampled(samples, src, dst)| ensures -1.0 <= Resampled(samples, src, dst)[i] < 1.0 {
        OutputBetweenNeighbours(samples, src, dst, i);
      }
    }
  }

  // ------------------------------------------------------------ audio intake

  const TARGET_SAMPLE_RATE := 16000

  datatype Limits = Limits(compressedBytes: int, decodedMonoSeconds: real, minSampleRate: int, maxSampleRate: int,
                           maxChannels: int, monoOnly: bool)

  const DEFAULT_LIMITS := Limits(512 * 1024, 20.0, 8000, 48000, 1, true)

  /** What the runtime gets: mono samples at the target rate, and where they came from. */
  datatype Audio = Audio(samples: seq<real>, sampleRate: int, originalRate: int, channelsIn: int, durationSecs: real, bytesConsumed: nat)

  datatype Intake = Taken(audio: Audio) | TurnedAway(err: DecodeError) | NoAnswer

  function IntakeOf(audio: Bytes, limits: Limits): Intake {
    if |audio| > limits.compressedBytes then TurnedAway(TooManyBytes)
    else if |audio| == 0 then TurnedAway(Empty)
    else
      match Decode(audio, limits.monoOnly)
      case NeverReturns => NoAnswer
      case Refused(err) => TurnedAway(err)
      case Accepted(samples, rate, channels) =>
        if rate < limits.minSampleRate || rate > limits.maxSampleRate then TurnedAway(RateOutOfBounds)
        else if channels > limits.maxChannels && limits.monoOnly then TurnedAway(MultiChannel)
        else
          var resampled := Resampled(samples, rate, TARGET_SAMPLE_RATE);
          var duration := |resampled| as real / TARGET_SAMPLE_RATE as real;
          if duration > limits.decodedMonoSeconds then TurnedAway(TooLong)
          else Taken(Audio(resampled, TARGET_SAMPLE_RATE, rate, channels, duration, |audio|))
  }

  /** A buffer that decodes is taken in exactly when it is within every limit: its bytes, its
      sample rate, its channels and its length after resampling. What comes out is the
      resampled audio. */
  lemma TakenIff(audio: Bytes, limits: Limits)
    requires Decode(audio, limits.monoOnly).Accepted?
    ensures var Accepted(samples, rate, channels) := Decode(audio, limits.monoOnly);
            var resampled := Resampled(samples, rate, 16000);
            && (IntakeOf(audio, limits).Taken? <==>
                  && 0 < |audio| <= limits.compressedBytes && limits.minSampleRate <= rate <= limits.maxSampleRate
                  && !(channels > limits.maxChannels && limits.monoOnly)
                  && |resampled| as real <= 16000.0 * limits.decodedMonoSeconds)
            && (IntakeOf(audio, limits).Taken? ==>
                  IntakeOf(audio, limits).audio == Audio(resampled, 16000, rate, channels, |resampled| as real / 16000.0, |audio|))
  {
    hide Decode, Resampled;
  }

  /** The first limit that is broken is the one reported, in this order: bytes, sample rate,
      channels, length. A buffer that does not decode gets the decoder's error. */
  lemma TurnedAwayBy(audio: Bytes, limits: Limits)
    ensures |audio| > limits.compressedBytes <==> IntakeOf(audio, limits) == TurnedAway(TooManyBytes)
    ensures |audio| == 0 <= limits.compressedBytes <==> IntakeOf(audio, limits) == TurnedAway(Empty)
    ensures 0 < |audio| <= limits.compressedBytes ==>
              match Decode(audio, limits.monoOnly)
              case NeverReturns => IntakeOf(audio, limits) == NoAnswer
              case Refused(err) => IntakeOf(audio, limits) == TurnedAway(err)
              case Accepted(samples, rate, channels) =>
                var inBounds := limits.minSampleRate <= rate <= limits.maxSampleRate;
                && (!inBounds <==> IntakeOf(audio, limits) == TurnedAway(RateOutOfBounds))
                && (inBounds && limits.monoOnly && channels > limits.maxChannels <==>
                      IntakeOf(audio, limits) == TurnedAway(MultiChannel))
                && (inBounds && !(limits.monoOnly && channels > limits.maxChannels)
                    && |Resampled(samples, rate, 16000)| as real > 16000.0 * limits.decodedMonoSeconds <==>
                      IntakeOf(audio, limits) == TurnedAway(TooLong))
  {
    NeverLimitErrors(audio, limits.monoOnly);
    hide Decode, Resampled;
  }

  /** Generated silence is taken in whole at the default limits, exactly up to the byte cap. */
  lemma GeneratedIsTakenIff(n: nat)
    ensures var r := IntakeOf(WavRoundTrip.Generated(n), DEFAULT_LIMITS);
            && (r.Taken? <==> n <= 262122)
            && (n <= 262122 ==> |r.audio.samples| == n && forall i :: 0 <= i < n ==> r.audio.samples[i] == 0.0)
            && (n > 262122 ==> r == TurnedAway(TooManyBytes))
  {
    var audio := WavRoundTrip.Generated(n);
    assert |audio| == 44 + 2 * n;
    WavRoundTrip.GeneratedDecodes(n, true);
    var m := 2 * n % 0x1_0000_0000 / 2;
    SilenceIsZero(m);
    hide WavRoundTrip.Generated, Decode;
    TurnedAwayBy(audio, DEFAULT_LIMITS);
    TakenIff(audio, DEFAULT_LIMITS);
    hide IntakeOf;
  }

  lemma SilenceIsZero(n: nat)
    ensures var s := WavRoundTrip.Normalized(WavRoundTrip.Silence(n));
            |s| == n && forall i :: 0 <= i < n ==> s[i] == 0.0
  {
  }

  /** Decoding after the content type has been accepted. */
  method DecodeWav(audio: Bytes, limits: Limits) returns (r: Intake)
    ensures r == IntakeOf(audio, limits)
    ensures r.Taken? ==> forall i :: 0 <= i < |r.audio.samples| ==> -1.0 <= r.audio.samples[i] < 1.0
    ensures r.Taken? && limits == DEFAULT_LIMITS ==> |r.audio.samples| <= 320000 && r.audio.bytesConsumed <= 524288
  {
    hide Decode, Resampled;
    if |audio| > limits.compressedBytes {
      return TurnedAway(TooManyBytes);
    }
    if |audio| == 0 {
      return TurnedAway(Empty);
    }
    var inner := DecodeRiffWav(audio, limits.monoOnly);
    if inner.NeverReturns? {
      return NoAnswer;
    }
    if inner.Refused? {
      return TurnedAway(inner.err);
    }
    if inner.sampleRate < limits.minSampleRate || inner.sampleRate > limits.maxSampleRate {
      return TurnedAway(RateOutOfBounds);
    }
    if inner.channels > limits.maxChannels && limits.monoOnly {
      return TurnedAway(MultiChannel);
    }
    var resampled := ResampleLinear(inner.samples, inner.sampleRate, TARGET_SAMPLE_RATE);
    var duration := |resampled| as real / TARGET_SAMPLE_RATE as real;
    if duration > limits.decodedMonoSeconds {
      return TurnedAway(TooLong);
    }
    OutputInRange(inner.samples, inner.sampleRate, TARGET_SAMPLE_RATE);
    r := Taken(Audio(resampled, TARGET_SAMPLE_RATE, inner.sampleRate, inner.channels, duration, |audio|));
  }

  /** The decoder's own errors are none of those that the intake gives. */
  lemma NeverLimitErrors(b: Bytes, monoOnly: bool)
    ensures var r := Decode(b, monoOnly);
            r.Refused? ==> !r.err.TooManyBytes? && !r.err.Empty? && !r.err.RateOutOfBounds? && !r.err.TooLong?
  {
    hide U16, U32, Frames;
    WalkErrors(b, START);
    WalkStaysInside(b, START);
  }

  lemma {:induction false} WalkErrors(b: Bytes, w: Walk)
    ensures var r := WalkChunks(b, w);
            r.Rejected? ==> !r.err.TooManyBytes? && !r.err.Empty? && !r.err.RateOutOfBounds? && !r.err.TooLong?
    decreases |b| - w.pos
  {
    hide U16, U32;
    if w.pos + 8 <= |b| && WalkTurn(b, w).Continue? && WalkTurn(b, w).w.pos > w.pos {
      WalkErrors(b, WalkTurn(b, w).w);
    }
  }
}
