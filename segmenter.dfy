/**
 * The consumer side of the capture pipeline in src/main.rs: the silence-timeout
 * utterance segmenter `run_voice_activity_detection` and the record, transcribe,
 * clear cycle of `main` around the shared `audio_data` buffer.
 *
 * The wall clock and the channel are replaced by an abstract trace: every pass of
 * the polling loop is one `Poll`, holding the clock reading taken by the loop
 * guard, the result of `try_recv`, and the clock reading taken if the sample
 * resets the activity timestamp.
 */
module Segmenter {
  import opened Wrappers

  /** A received f32 sample, modelled by its exact real value. */
  type Sample = real

  /** A reading of the monotonic clock, in nanoseconds from an arbitrary origin. */
  type Instant = int

  /** The f32 literal 0.05 denotes 13421773 * 2^-28, slightly above one twentieth. */
  const VolumeThreshold: real := 13421773.0 / 268435456.0

  /** Two seconds, in nanoseconds. */
  const SilenceDuration: nat := 2_000_000_000

  function Abs(x: real): real { if x < 0.0 then -x else x }

  /** `Instant::elapsed`: the time since `since`, saturating at zero for a reading before it. */
  function Elapsed(since: Instant, now: Instant): nat
  {
    if now < since then 0 else now - since
  }

  /** A sample counts as voice activity when its magnitude is strictly above the threshold. */
  predicate IsVoice(x: Sample) { Abs(x) > VolumeThreshold }

  /**
   * One pass of the polling loop: `now` is the reading behind `elapsed()` in the
   * guard, `received` the outcome of `try_recv`, `stamp` the reading of
   * `Instant::now()` taken when the sample is voice.
   */
  datatype Poll = Poll(now: Instant, received: Option<Sample>, stamp: Instant)

  /** The segmenter's state: the last-activity timestamp and the recorded audio. */
  datatype State = State(last: Instant, audio: seq<Sample>)

  /** How a call of the segmenter ends: its final state, how many loop passes it made, and whether silence ended it. */
  datatype Outcome = Outcome(state: State, polls: nat, timedOut: bool)

  /** The trace is what a monotonic clock can produce: readings never go backwards. */
  predicate Monotonic(trace: seq<Poll>)
  {
    (forall j :: 0 <= j < |trace| ==> trace[j].now <= trace[j].stamp) &&
    (forall j :: 0 < j < |trace| ==> trace[j - 1].stamp <= trace[j].now)
  }

  // ---------------------------------------------------------------------------
  // Reference definitions, stated over a whole prefix of the trace

  /** Every sample the polls received, in receive order. */
  function Received(trace: seq<Poll>): seq<Sample>
  {
    if trace == [] then []
    else
      var p := trace[|trace| - 1];
      Received(trace[..|trace| - 1]) + (if p.received.Some? then [p.received.value] else [])
  }

  /** The stamp of the last voice sample in the trace, or `entry` when there is none. */
  function LastActivity(entry: Instant, trace: seq<Poll>): Instant
  {
    if trace == [] then entry
    else
      var p := trace[|trace| - 1];
      if p.received.Some? && IsVoice(p.received.value) then p.stamp
      else LastActivity(entry, trace[..|trace| - 1])
  }

  lemma {:induction false} ReceivedAppend(a: seq<Poll>, b: seq<Poll>)
    ensures Received(a + b) == Received(a) + Received(b)
    decreases |b|
  {
    if b == [] {
      assert a + b == a;
    } else {
      var b' := b[..|b| - 1];
      assert (a + b)[..|a + b| - 1] == a + b';
      assert b[..|b| - 1] == b';
      ReceivedAppend(a, b');
    }
  }

  lemma {:induction false} LastActivityAppend(entry: Instant, a: seq<Poll>, b: seq<Poll>)
    ensures LastActivity(entry, a + b) == LastActivity(LastActivity(entry, a), b)
    decreases |b|
  {
    if b == [] {
      assert a + b == a;
    } else {
      var b' := b[..|b| - 1];
      assert (a + b)[..|a + b| - 1] == a + b';
      assert b[..|b| - 1] == b';
      LastActivityAppend(entry, a, b');
    }
  }

  // ---------------------------------------------------------------------------
  // The loop, as a state machine

  /**
   * The body of the polling loop (src/main.rs:90-98): a failed poll changes
   * nothing; a received sample is appended whatever its level, and a voice
   * sample moves the activity timestamp to the poll's stamp.
   */
  function Step(s: State, p: Poll): (r: State)
    ensures r.audio == s.audio + Received([p])
    ensures r.last == LastActivity(s.last, [p])
    ensures p.received.None? ==> r == s
  {
    assert [p][..0] == [];
    match p.received
    case None => s
    case Some(x) => State(if IsVoice(x) then p.stamp else s.last, s.audio + [x])
  }

  /** The loop guard (src/main.rs:89): keep polling while less than the silence duration has elapsed. */
  predicate KeepsListening(s: State, p: Poll)
  {
    Elapsed(s.last, p.now) < SilenceDuration
  }

  /**
   * The whole loop over a finite trace. It times out at the first poll whose
   * guard sees the silence duration elapsed; if the trace runs out first, the
   * outcome is not timed out and every poll was made.
   */
  function Run(s: State, trace: seq<Poll>): (o: Outcome)
    ensures o.polls <= |trace|
    ensures o.timedOut <==> o.polls < |trace|
    ensures o.timedOut ==> !KeepsListening(o.state, trace[o.polls])
    ensures s.audio <= o.state.audio
    decreases |trace|
  {
    if trace == [] then Outcome(s, 0, false)
    else if !KeepsListening(s, trace[0]) then Outcome(s, 0, true)
    else
      var o := Run(Step(s, trace[0]), trace[1..]);
      Outcome(o.state, o.polls + 1, o.timedOut)
  }

  /**
   * The segmenter only appends: it appends exactly the received samples, in
   * receive order, and its timestamp is the stamp of the last voice sample
   * among the polls it made (or the entry time).
   */
  lemma {:induction false} RunRecordsReceived(s: State, trace: seq<Poll>)
    ensures var o := Run(s, trace);
      o.state.audio == s.audio + Received(trace[..o.polls]) &&
      o.state.last == LastActivity(s.last, trace[..o.polls])
    decreases |trace|
  {
    var o := Run(s, trace);
    if trace == [] || !KeepsListening(s, trace[0]) {
      assert trace[..o.polls] == [];
    } else {
      var p, rest := trace[0], trace[1..];
      var o' := Run(Step(s, p), rest);
      RunRecordsReceived(Step(s, p), rest);
      assert trace[..o.polls] == [p] + rest[..o'.polls];
      ReceivedAppend([p], rest[..o'.polls]);
      LastActivityAppend(s.last, [p], rest[..o'.polls]);
    }
  }

  /**
   * The loop makes every pass for which less than the silence duration had
   * elapsed since the last activity, and it stops at the first pass whose
   * guard sees the silence duration elapsed.
   */
  lemma {:induction false} RunStopsAtFirstSilence(s: State, trace: seq<Poll>)
    ensures var o := Run(s, trace);
      (forall j :: 0 <= j < o.polls ==>
        Elapsed(LastActivity(s.last, trace[..j]), trace[j].now) < SilenceDuration) &&
      (o.timedOut ==>
        Elapsed(LastActivity(s.last, trace[..o.polls]), trace[o.polls].now) >= SilenceDuration)
    decreases |trace|
  {
    var o := Run(s, trace);
    if trace == [] || !KeepsListening(s, trace[0]) {
      assert trace[..o.polls] == [];
    } else {
      var p, rest := trace[0], trace[1..];
      var s' := Step(s, p);
      RunStopsAtFirstSilence(s', rest);
      forall j | 0 <= j < o.polls
        ensures Elapsed(LastActivity(s.last, trace[..j]), trace[j].now) < SilenceDuration
      {
        if j > 0 {
          ShiftedPrefix(s, trace, j);
        }
      }
      if o.timedOut {
        ShiftedPrefix(s, trace, o.polls);
      }
    }
  }

  /** A prefix of the trace past its first poll, seen from the state after that poll. */
  lemma ShiftedPrefix(s: State, trace: seq<Poll>, j: nat)
    requires 0 < j < |trace|
    ensures LastActivity(s.last, trace[..j]) == LastActivity(Step(s, trace[0]).last, trace[1..][..j - 1])
    ensures trace[j] == trace[1..][j - 1]
  {
    assert trace[..j] == [trace[0]] + trace[1..][..j - 1];
    LastActivityAppend(s.last, [trace[0]], trace[1..][..j - 1]);
  }

  /**
   * With no voice sample in the trace the activity timestamp stays at the entry
   * time, so the loop ends at the first poll that sees the silence duration
   * elapsed since entry.
   */
  lemma {:induction false} QuietTraceTimesOutFromEntry(s: State, trace: seq<Poll>)
    requires forall j :: 0 <= j < |trace| && trace[j].received.Some? ==> !IsVoice(trace[j].received.value)
    ensures var o := Run(s, trace);
      o.state.last == s.last &&
      (forall j :: 0 <= j < o.polls ==> Elapsed(s.last, trace[j].now) < SilenceDuration) &&
      (o.timedOut ==> Elapsed(s.last, trace[o.polls].now) >= SilenceDuration)
    decreases |trace|
  {
    if trace != [] && KeepsListening(s, trace[0]) {
      QuietTraceTimesOutFromEntry(Step(s, trace[0]), trace[1..]);
    }
  }

  /**
   * Timeout accuracy: on a monotonic clock, when the loop times out after at
   * least one pass, the deadline (last activity plus the silence duration)
   * falls after the previous guard reading and no later than the final one,
   * so the loop stops within one poll interval of the deadline.
   */
  lemma {:induction false} TimeoutWithinOnePoll(s: State, trace: seq<Poll>)
    requires Monotonic(trace)
    ensures var o := Run(s, trace);
      o.timedOut && o.polls > 0 ==>
        trace[o.polls - 1].now < o.state.last + SilenceDuration <= trace[o.polls].now
    decreases |trace|
  {
    var o := Run(s, trace);
    if trace != [] && KeepsListening(s, trace[0]) {
      var rest := trace[1..];
      assert Monotonic(rest);
      TimeoutWithinOnePoll(Step(s, trace[0]), rest);
    }
  }

  /** The comparison is strict: a sample exactly at the threshold, of either sign, is not voice. */
  lemma ThresholdIsStrict(s: State, now: Instant, stamp: Instant)
    requires stamp != s.last
    ensures Step(s, Poll(now, Some(VolumeThreshold), stamp)).last == s.last
    ensures Step(s, Poll(now, Some(-VolumeThreshold), stamp)).last == s.last
    ensures Step(s, Poll(now, Some(VolumeThreshold + 1.0 / 268435456.0), stamp)).last == stamp
  {
  }

  // ---------------------------------------------------------------------------
  // The imperative code

  /** The `audio_data` vector of `main`, grown by `push` and emptied by `clear`. */
  class AudioData {
    var samples: seq<Sample>

    /** `Vec::new()` (src/main.rs:112). */
    constructor ()
      ensures samples == []
    {
      samples := [];
    }

    method Push(x: Sample)
      modifies this
      ensures samples == old(samples) + [x]
    {
      samples := samples + [x];
    }

    method Clear()
      modifies this
      ensures samples == []
    {
      samples := [];
    }
  }

  /**
   * `run_voice_activity_detection` (src/main.rs:86-100): `entry` is the clock
   * reading that initialises the activity timestamp, `rx` the passes of the
   * polling loop. Returns how many passes the loop made and whether it ended by
   * silence rather than by the end of the trace.
   */
  method RunVoiceActivityDetection(entry: Instant, rx: seq<Poll>, audioData: AudioData)
    returns (polls: nat, timedOut: bool)
    modifies audioData
    ensures var o := Run(State(entry, old(audioData.samples)), rx);
      audioData.samples == o.state.audio && polls == o.polls && timedOut == o.timedOut
  {
    ghost var start := State(entry, audioData.samples);
    var lastVoiceActivity := entry;
    var i := 0;
    while i < |rx| && Elapsed(lastVoiceActivity, rx[i].now) < SilenceDuration
      invariant 0 <= i <= |rx|
      invariant var o := Run(State(lastVoiceActivity, audioData.samples), rx[i..]);
        Run(start, rx) == Outcome(o.state, o.polls + i, o.timedOut)
    {
      assert rx[i..][1..] == rx[i + 1..];
      var received := rx[i].received;
      if received.Some? {
        var sample := received.value;
        if Abs(sample) > VolumeThreshold {
          lastVoiceActivity := rx[i].stamp;
        }
        audioData.Push(sample);
      }
      i := i + 1;
    }
    polls, timedOut := i, i < |rx|;
  }

  /** One recording phase of `main`: the entry time and the passes of its polling loop. */
  datatype Cycle = Cycle(entry: Instant, rx: seq<Poll>)

  /**
   * The buffers handed to the recognition engine by the cycles of `main`, each
   * recorded from an empty buffer, up to the first cycle whose trace runs out
   * before silence ends it.
   */
  function Utterances(cycles: seq<Cycle>): (us: seq<seq<Sample>>)
    ensures |us| <= |cycles|
    ensures forall k :: 0 <= k < |us| ==>
      var o := Run(State(cycles[k].entry, []), cycles[k].rx);
      o.timedOut && us[k] == Received(cycles[k].rx[..o.polls])
    decreases |cycles|
  {
    if cycles == [] then []
    else
      var o := Run(State(cycles[0].entry, []), cycles[0].rx);
      RunRecordsReceived(State(cycles[0].entry, []), cycles[0].rx);
      if o.timedOut then [o.state.audio] + Utterances(cycles[1..]) else []
  }

  /**
   * Every phase ended by silence is handed over: the buffers stop only at the
   * end of the phases or at the first phase whose trace runs out.
   */
  lemma {:induction false} UtterancesCoverTimedOutPhases(cycles: seq<Cycle>)
    ensures var n := |Utterances(cycles)|;
      n == |cycles| || !Run(State(cycles[n].entry, []), cycles[n].rx).timedOut
    decreases |cycles|
  {
    if cycles != [] && Run(State(cycles[0].entry, []), cycles[0].rx).timedOut {
      UtterancesCoverTimedOutPhases(cycles[1..]);
    }
  }

  /**
   * The loop of `main` (src/main.rs:112-149) over a finite list of recording
   * phases: record until silence into `audio_data`, hand the buffer to the
   * engine, clear it. Returns the buffers handed to the engine.
   */
  method Session(cycles: seq<Cycle>) returns (transcribed: seq<seq<Sample>>)
    ensures transcribed == Utterances(cycles)
    ensures |transcribed| == |cycles| ||
      !Run(State(cycles[|transcribed|].entry, []), cycles[|transcribed|].rx).timedOut
  {
    UtterancesCoverTimedOutPhases(cycles);
    var audioData := new AudioData();
    transcribed := [];
    var k := 0;
    while k < |cycles|
      invariant 0 <= k <= |cycles|
      invariant audioData.samples == []
      invariant transcribed + Utterances(cycles[k..]) == Utterances(cycles)
    {
      assert cycles[k..][1..] == cycles[k + 1..];
      var polls, timedOut := RunVoiceActivityDetection(cycles[k].entry, cycles[k].rx, audioData);
      if !timedOut {
        // The real loop is still polling: the trace of this phase has run out.
        return;
      }
      transcribed := transcribed + [audioData.samples];
      audioData.Clear();
      k := k + 1;
    }
  }
}
