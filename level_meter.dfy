/** Tunable constants of the voice-activity detector (static/script.js:8-11, 32). */
module Config {
  /** An average level strictly above this counts as speech. */
  const START_THRESHOLD: nat := 30
  /** Declared as the stop threshold, but no code path reads it: the stop
      decision is the complement of the START_THRESHOLD test. */
  const STOP_THRESHOLD: nat := 25
  /** Speech must last strictly longer than this (ms) before recording starts. */
  const MIN_SPEECH_DURATION: int := 500
  /** Silence must last strictly longer than this (ms) before recording stops. */
  const MIN_SILENCE_DURATION: int := 2000
  /** The analyser's transform size; it yields FFT_SIZE / 2 frequency bins. */
  const FFT_SIZE: nat := 512
  const BIN_COUNT: nat := FFT_SIZE / 2
}

/** The level meter: one frame of frequency-bin magnitudes becomes one
    loudness decision. */
module LevelMeter {
  import opened Config

  /** One frequency-bin magnitude, as stored in a Uint8Array. */
  type Byte = b: int | 0 <= b < 256

  /** The sum of the samples, taken left to right as the source's loop does. */
  function Sum(s: seq<Byte>): (r: nat)
    ensures r <= 255 * |s|
    ensures r == 0 <==> forall i :: 0 <= i < |s| ==> s[i] == 0
  {
    if s == [] then 0 else Sum(s[..|s| - 1]) + s[|s| - 1]
  }

  /** The arithmetic mean of a non-empty frame. */
  function Mean(s: seq<Byte>): real
    requires |s| > 0
  {
    Sum(s) as real / |s| as real
  }

  /** `average > START_THRESHOLD` without division: `sum > START_THRESHOLD * n`.
      For n == 0 this is `sum > 0`, which is also what the floating-point
      comparison gives (0/0 is NaN and compares false; a positive sum over
      zero is +Infinity). */
  predicate IsSpeech(sum: int, n: nat)
  {
    sum > START_THRESHOLD * n
  }

  /** The loop that sums the analyser's buffer (static/script.js:99-102). */
  method FrameSum(frame: array<Byte>) returns (sum: nat)
    ensures sum == Sum(frame[..])
    ensures sum <= 255 * frame.Length
  {
    sum := 0;
    var i := 0;
    while i < frame.Length
      invariant 0 <= i <= frame.Length
      invariant sum == Sum(frame[..i])
    {
      assert frame[..i + 1][..i] == frame[..i];
      sum := sum + frame[i];
      i := i + 1;
    }
    assert frame[..] == frame[..frame.Length];
  }

  /** The integer test is the source's mean comparison, in both directions. */
  lemma SpeechIffAverageAbove(sum: int, n: nat)
    requires n > 0
    ensures IsSpeech(sum, n) <==> sum as real / n as real > START_THRESHOLD as real
  {
  }

  /** A frame counts as speech exactly when its mean exceeds the threshold;
      a mean equal to the threshold is silence. */
  lemma FrameSpeechIffMeanAbove(frame: seq<Byte>)
    requires |frame| > 0
    ensures IsSpeech(Sum(frame), |frame|) <==> Mean(frame) > START_THRESHOLD as real
    ensures Mean(frame) == START_THRESHOLD as real ==> !IsSpeech(Sum(frame), |frame|)
  {
    SpeechIffAverageAbove(Sum(frame), |frame|);
  }

  /** Raising any bin never lowers the sum: the meter is monotone in every
      sample. */
  lemma {:induction false} SumMonotone(s: seq<Byte>, t: seq<Byte>)
    requires |s| == |t|
    requires forall i :: 0 <= i < |s| ==> s[i] <= t[i]
    ensures Sum(s) <= Sum(t)
  {
    if s != [] {
      SumMonotone(s[..|s| - 1], t[..|t| - 1]);
    }
  }

  /** So a frame at least as loud, bin by bin, as a speech frame is speech. */
  lemma LouderFrameIsSpeech(s: seq<Byte>, t: seq<Byte>)
    requires |s| == |t|
    requires forall i :: 0 <= i < |s| ==> s[i] <= t[i]
    requires IsSpeech(Sum(s), |s|)
    ensures IsSpeech(Sum(t), |t|)
  {
    SumMonotone(s, t);
  }

  /** A silent analyser frame (all bins zero) is never speech, whatever the
      number of bins. */
  lemma SilentFrameIsSilence(frame: seq<Byte>)
    requires forall i :: 0 <= i < |frame| ==> frame[i] == 0
    ensures !IsSpeech(Sum(frame), |frame|)
  {
  }
}
