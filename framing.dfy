/**
 * The input-stream callback of `create_paused_input_stream` in src/main2.rs:
 * it keeps the first channel of each interleaved frame, scales it to a 16-bit
 * sample, cuts the result into consecutive windows of 960 samples (the last
 * one possibly shorter) and asks the voice-activity detector about each window.
 */
module Framing {
  import opened Wrappers

  /** Samples per detector window: 20 ms at 48 kHz. */
  const FrameSize: nat := 960

  type I16 = x: int | -0x8000 <= x < 0x8000

  /** `cpal::ChannelCount`, a u16. */
  type ChannelCount = c: int | 0 <= c < 0x1_0000

  function Min(a: int, b: int): int { if a <= b then a else b }

  /** The number of windows of `size` needed to cover `n` samples: n / size rounded up. */
  function CeilDiv(n: nat, size: nat): nat
    requires size >= 1
  {
    (n + size - 1) / size
  }

  // ---------------------------------------------------------------------------
  // Facts about integer division used below

  lemma MulSucc(k: int, d: int)
    ensures k * d == (k - 1) * d + d
  {
  }

  lemma {:induction false} MulAtLeast(e: int, d: int)
    requires e >= 1 && d >= 1
    ensures e * d >= d
    decreases e
  {
    if e > 1 {
      MulAtLeast(e - 1, d);
      MulSucc(e, d);
    }
  }

  lemma DivUnique(n: int, d: int, q: int, r: int)
    requires d >= 1 && 0 <= r < d && n == q * d + r
    ensures n / d == q && n % d == r
  {
    var q', r' := n / d, n % d;
    assert n == q' * d + r';
    var e := q - q';
    assert e * d == q * d - q' * d;
    assert e * d == r' - r;
    if e >= 1 {
      MulAtLeast(e, d);
    } else if e <= -1 {
      MulAtLeast(-e, d);
    }
  }

  lemma DivStep(n: int, d: int)
    requires d >= 1 && n >= d
    ensures n / d == 1 + (n - d) / d
    ensures n % d == (n - d) % d
  {
    var q, r := (n - d) / d, (n - d) % d;
    assert n - d == q * d + r;
    assert n == (q + 1) * d + r;
    DivUnique(n, d, q + 1, r);
  }

  lemma DivSmall(n: int, d: int)
    requires d >= 1 && 0 <= n < d
    ensures n / d == 0 && n % d == n
  {
    DivUnique(n, d, 0, n);
  }

  /** Taking one window off a non-empty stretch leaves one window fewer. */
  lemma CeilDivStep(n: nat, size: nat)
    requires size >= 1 && n >= 1
    ensures CeilDiv(n, size) == 1 + CeilDiv(n - Min(size, n), size)
  {
    DivStep(n + size - 1, size);
    if n < size {
      DivSmall(n - 1, size);
      DivSmall(size - 1, size);
    }
  }

  // ---------------------------------------------------------------------------
  // First-channel extraction

  /**
   * The first channel of interleaved audio: one sample per complete frame of
   * `channels` samples, a trailing partial frame dropped.
   */
  function FirstChannel(samples: seq<real>, channels: ChannelCount): (mono: seq<real>)
    requires channels >= 1
    ensures |mono| == |samples| / channels
    decreases |samples|
  {
    if |samples| < channels then
      DivSmall(|samples|, channels);
      []
    else
      DivStep(|samples|, channels);
      [samples[0]] + FirstChannel(samples[channels..], channels)
  }

  /** Mono sample `i` is the first-channel sample of frame `i`, at `i * channels`, inside the batch. */
  lemma {:induction false} FirstChannelAt(samples: seq<real>, channels: ChannelCount, i: nat)
    requires channels >= 1 && i < |samples| / channels
    ensures i * channels < |samples|
    ensures FirstChannel(samples, channels)[i] == samples[i * channels]
    decreases i
  {
    if |samples| < channels {
      DivSmall(|samples|, channels);
    }
    DivStep(|samples|, channels);
    if i > 0 {
      FirstChannelAt(samples[channels..], channels, i - 1);
      MulSucc(i, channels);
    }
  }

  /**
   * Sequences laid end to end: interleaved audio as its frames of one sample
   * per channel, and the samples as their detector windows.
   */
  function Flatten<T>(frames: seq<seq<T>>): seq<T>
  {
    if frames == [] then [] else frames[0] + Flatten(frames[1..])
  }

  lemma {:induction false} FlattenLength(frames: seq<seq<real>>, channels: nat)
    requires forall k :: 0 <= k < |frames| ==> |frames[k]| == channels
    ensures |Flatten(frames)| == |frames| * channels
    decreases |frames|
  {
    if frames != [] {
      FlattenLength(frames[1..], channels);
    }
  }

  /** Extracting the first channel of interleaved frames gives back each frame's first sample. */
  lemma {:induction false} FirstChannelOfInterleaved(frames: seq<seq<real>>, channels: ChannelCount)
    requires channels >= 1
    requires forall k :: 0 <= k < |frames| ==> |frames[k]| == channels
    ensures |FirstChannel(Flatten(frames), channels)| == |frames|
    ensures forall k :: 0 <= k < |frames| ==> FirstChannel(Flatten(frames), channels)[k] == frames[k][0]
    decreases |frames|
  {
    if frames != [] {
      FirstChannelOfInterleaved(frames[1..], channels);
      FlattenLength(frames[1..], channels);
      var all := Flatten(frames);
      assert all[channels..] == Flatten(frames[1..]);
      assert all[0] == frames[0][0];
      var fc := FirstChannel(all, channels);
      forall k | 1 <= k < |frames|
        ensures fc[k] == frames[k][0]
      {
        assert frames[1..][k - 1] == frames[k];
      }
    }
  }

  /** A trailing partial frame contributes nothing to the first channel. */
  lemma {:induction false} PartialFrameDropped(whole: seq<real>, tail: seq<real>, channels: ChannelCount)
    requires channels >= 1
    requires |whole| % channels == 0 && |tail| < channels
    ensures FirstChannel(whole + tail, channels) == FirstChannel(whole, channels)
    decreases |whole|
  {
    if |whole| == 0 {
      assert whole + tail == tail;
    } else {
      if |whole| < channels {
        DivSmall(|whole|, channels);
      }
      DivStep(|whole|, channels);
      assert (whole + tail)[channels..] == whole[channels..] + tail;
      PartialFrameDropped(whole[channels..], tail, channels);
    }
  }

  /**
   * `(sample * i16::MAX as f32) as i16`: the product truncated toward zero and
   * saturated to the i16 range.
   */
  function ScaleToI16(x: real): (r: I16)
    ensures x >= 0.0 ==> r >= 0
    ensures x <= 0.0 ==> r <= 0
    ensures -1.0 <= x <= 1.0 ==> -1.0 < r as real - x * 32767.0 < 1.0
    ensures x >= 1.0 ==> r == 32767
    ensures x * 32767.0 <= -32768.0 ==> r == -32768
    ensures 0.0 <= x * 32767.0 < 32767.0 ==> r as real <= x * 32767.0
    ensures -32768.0 < x * 32767.0 <= 0.0 ==> x * 32767.0 <= r as real
  {
    var y := x * 32767.0;
    if y >= 32767.0 then 32767
    else if y <= -32768.0 then -32768
    else if y >= 0.0 then y.Floor
    else -((-y).Floor)
  }

  /** The scaled first channel, as the callback collects it in `i16_samples`. */
  function MonoI16(samples: seq<real>, channels: ChannelCount): (mono: seq<I16>)
    requires channels >= 1
  {
    var fc := FirstChannel(samples, channels);
    seq(|fc|, i requires 0 <= i < |fc| => ScaleToI16(fc[i]))
  }

  /**
   * The first loop of the callback (src/main2.rs:36-43): `len / channels`
   * iterations, each pushing the scaled sample at `i * channels`.
   */
  method ToMonoI16(samples: seq<real>, channels: ChannelCount) returns (i16Samples: seq<I16>)
    requires channels >= 1
    ensures |i16Samples| == |samples| / channels
    ensures forall i :: 0 <= i < |i16Samples| ==>
      i * channels < |samples| && i16Samples[i] == ScaleToI16(samples[i * channels])
    ensures i16Samples == MonoI16(samples, channels)
  {
    var numSamples := |samples| / channels;
    i16Samples := [];
    for i := 0 to numSamples
      invariant |i16Samples| == i
      invariant forall j :: 0 <= j < i ==>
        j * channels < |samples| && i16Samples[j] == ScaleToI16(samples[j * channels])
      invariant forall j :: 0 <= j < i ==> i16Samples[j] == ScaleToI16(FirstChannel(samples, channels)[j])
    {
      FirstChannelAt(samples, channels, i);
      var sample := samples[i * channels];
      i16Samples := i16Samples + [ScaleToI16(sample)];
    }
  }

  // ---------------------------------------------------------------------------
  // Windowing

  /** Consecutive windows of `size` samples; only the last may be shorter. */
  function Chunks<T>(s: seq<T>, size: nat): (frames: seq<seq<T>>)
    requires size >= 1
    ensures |frames| == CeilDiv(|s|, size)
    ensures forall k :: 0 <= k < |frames| ==> 0 < |frames[k]| <= size
    ensures forall k :: 0 <= k < |frames| - 1 ==> |frames[k]| == size
    decreases |s|
  {
    if |s| == 0 then
      DivSmall(size - 1, size);
      []
    else
      var end := Min(size, |s|);
      var rest := Chunks(s[end..], size);
      CeilDivStep(|s|, size);
      [s[..end]] + rest
  }

  /** Concatenating the windows in order gives back the samples: no gap, overlap or duplicate. */
  lemma {:induction false} ChunksFlatten<T>(s: seq<T>, size: nat)
    requires size >= 1
    ensures Flatten(Chunks(s, size)) == s
    decreases |s|
  {
    if |s| > 0 {
      var end := Min(size, |s|);
      ChunksFlatten(s[end..], size);
      assert s[..end] + s[end..] == s;
    }
  }

  /** Window `k` starts at `k * size`, inside the samples, and ends at `min(k * size + size, n)`. */
  lemma {:induction false} ChunkAt<T>(s: seq<T>, size: nat, k: nat)
    requires size >= 1 && k < |Chunks(s, size)|
    ensures k * size < |s|
    ensures Chunks(s, size)[k] == s[k * size .. Min(k * size + size, |s|)]
    decreases |s|
  {
    var end := Min(size, |s|);
    if k > 0 {
      var rest := s[end..];
      ChunkAt(rest, size, k - 1);
      assert end == size;
      var before, start := (k - 1) * size, k * size;
      MulSucc(k, size);
      assert start == before + size;
      var stop := Min(before + size, |rest|);
      assert stop + size == Min(start + size, |s|);
      assert rest[before..stop] == s[start..stop + size];
    }
  }

  /**
   * The second loop of the callback (src/main2.rs:46-50): window starts
   * `0, 960, 1920, ...` below the sample count, one detector call per window.
   * The detector answers `None` where its result would be an error, which
   * `unwrap` turns into a panic; the loop then stops with `completed` false.
   */
  method DetectSpeech(i16Samples: seq<I16>, vad: seq<I16> -> Option<bool>)
    returns (decisions: seq<bool>, completed: bool)
    ensures var frames := Chunks(i16Samples, FrameSize);
      |decisions| <= |frames| &&
      (forall k :: 0 <= k < |decisions| ==> vad(frames[k]) == Some(decisions[k])) &&
      (completed <==> |decisions| == |frames|) &&
      (!completed ==> vad(frames[|decisions|]).None?)
  {
    ghost var frames := Chunks(i16Samples, FrameSize);
    decisions := [];
    var i := 0;
    while i < |i16Samples|
      invariant i == |decisions| * FrameSize
      invariant |decisions| <= |frames|
      invariant i < |i16Samples| <==> |decisions| < |frames|
      invariant forall k :: 0 <= k < |decisions| ==> vad(frames[k]) == Some(decisions[k])
      decreases |i16Samples| - i
    {
      var end := Min(i + FrameSize, |i16Samples|);
      var frame := i16Samples[i..end];
      ChunkAt(i16Samples, FrameSize, |decisions|);
      var isSpeech := vad(frame);
      if isSpeech.None? {
        completed := false;
        return;
      }
      decisions := decisions + [isSpeech.value];
      i := i + FrameSize;
      if |decisions| < |frames| {
        ChunkAt(i16Samples, FrameSize, |decisions|);
      }
    }
    completed := true;
  }

  /**
   * The whole callback: one detector decision per window of the scaled first
   * channel, `ceil((len / channels) / 960)` of them when the detector accepts
   * every window, none for a batch shorter than one frame.
   */
  method InputCallback(samples: seq<real>, channels: ChannelCount, vad: seq<I16> -> Option<bool>)
    returns (decisions: seq<bool>, completed: bool)
    requires channels >= 1
    ensures var frames := Chunks(MonoI16(samples, channels), FrameSize);
      |decisions| <= |frames| &&
      (forall k :: 0 <= k < |decisions| ==> vad(frames[k]) == Some(decisions[k])) &&
      (completed <==> |decisions| == |frames|) &&
      (!completed ==> vad(frames[|decisions|]).None?)
    ensures completed ==> |decisions| == CeilDiv(|samples| / channels, FrameSize)
    ensures |samples| < channels ==> decisions == [] && completed
  {
    var i16Samples := ToMonoI16(samples, channels);
    decisions, completed := DetectSpeech(i16Samples, vad);
  }
}
