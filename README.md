# whisper capture core, modelled in Dafny

This project models the two pieces of logic in the `whisper` speech-capture tool that can be stated
exactly. The rest of that program wires together audio devices, a resampler and a speech-recognition
engine whose code is not part of this model.

- **Utterance segmenter** (`segmenter.dfy`, module `Segmenter`). It models `run_voice_activity_detection`
  in `src/main.rs` and the record, transcribe, clear cycle of `main` around the `audio_data` buffer.
  The consumer thread polls the sample channel without blocking and appends every received sample to
  `audio_data`. A sample whose magnitude is strictly above `VOLUME_THRESHOLD` resets the
  last-activity timestamp. The loop ends at the first guard that sees `SILENCE_DURATION` (2 s)
  elapsed since that timestamp.
  - The clock and the channel are an input trace of `Poll`s. Each `Poll` is one pass of the loop: the
    guard's clock reading, the `try_recv` result, and the clock reading used if the sample resets the
    timestamp.
  - `Run` is the loop as a state machine over this trace.
  - `Received` and `LastActivity` are reference definitions over trace prefixes. The lemmas tie `Run`
    to them.
  - `RunVoiceActivityDetection` is the imperative loop over an `AudioData` object, proved equal to
    `Run`.
  - `Session` is `main`'s loop, proved to hand the engine exactly `Utterances`: one buffer per phase
    ended by silence, each recorded from empty, up to the first phase whose trace runs out.
- **Callback framing** (`framing.dfy`, module `Framing`). It models the input-stream callback of
  `create_paused_input_stream` in `src/main2.rs`.
  - It keeps sample `i * channels` (the first channel) of each of the `len / channels` complete frames
    and scales it to an i16 (`ToMonoI16`).
  - It cuts the result into windows of 960 samples, the last one possibly shorter (`Chunks`), and asks
    the voice-activity detector about each window in order (`DetectSpeech`).
  - The detector is a function parameter. `None` stands for the error that `unwrap` turns into a panic.
- `wrappers.dfy` holds the `Option` type.

Units and constants:
- Clock readings are integers in nanoseconds, so `SilenceDuration` is `2_000_000_000`.
- `Elapsed` saturates at zero for a reading earlier than its origin, as `Instant::elapsed` does.
- Finite f32 samples are modelled by their exact real values. `VolumeThreshold` is the exact value of the f32
  literal `0.05`: 13421773 / 2^28, a little above one twentieth. So a sample equal to that literal
  does not count as voice.

Facts about the code that shape the model:
- The loop guard is tested on every pass, including passes whose poll receives nothing
  (src/main.rs:89-90). The model tests it on every `Poll`.
- The callback in `src/main2.rs` keeps only channel 0 of each interleaved frame and does not average
  the channels (src/main2.rs:41).
- The resampler in `src/main.rs` is fed each callback batch directly, with no staging buffer
  (src/main.rs:21-24). The resampler is not modelled.

## Model

| member | source | states |
|---|---|---|
| `Segmenter.Step` | src/main.rs:90-98 | One pass of the loop. The buffer grows by exactly the samples `Received` from this poll: one for a successful `try_recv`, none for a failed one. The new timestamp is the `LastActivity` of this poll. A failed poll leaves the state unchanged. |
| `Segmenter.Run` | src/main.rs:86-100 | The loop over a finite trace makes at most one pass per poll. It times out exactly when it stops before the trace ends, and only at a poll whose guard sees the silence duration elapsed. The previous buffer is a prefix of the final one, so the loop only appends. |
| `Segmenter.RunRecordsReceived` | src/main.rs:90-98 | After the loop, the buffer is the old buffer followed by every sample received during the passes made, in receive order, whatever their level. The timestamp is the stamp of the last strictly-above-threshold sample among those passes, or the entry time if there was none. |
| `Segmenter.RunStopsAtFirstSilence` | src/main.rs:88-99 | Every pass the loop made had seen less than the silence duration since the last activity before it. When the loop times out, the final guard sees at least the silence duration elapsed. |
| `Segmenter.QuietTraceTimesOutFromEntry` | src/main.rs:88-89 | With no above-threshold sample, the timestamp stays at the entry time. The loop then ends at the first poll that sees 2 s elapsed since entry. |
| `Segmenter.TimeoutWithinOnePoll` | src/main.rs:89-94 | On a clock that never goes backwards, when the loop times out after at least one pass, the deadline (last activity + 2 s) lies after the previous guard reading and no later than the final one. So the loop stops within one poll interval of the deadline. |
| `Segmenter.ThresholdIsStrict` | src/main.rs:92-94 | A sample exactly at the threshold, positive or negative, does not move the timestamp. The next representable value above it does. |
| `Segmenter.AudioData.constructor` | src/main.rs:112 | `Vec::new()`: the buffer starts empty. |
| `Segmenter.AudioData.Push` | src/main.rs:97 | Appends one sample at the end and changes nothing else. |
| `Segmenter.AudioData.Clear` | src/main.rs:149 | Empties the buffer. |
| `Segmenter.RunVoiceActivityDetection` | src/main.rs:86-100 | The imperative loop leaves `audio_data` holding exactly what `Run` computes from the entry time and the old contents. It returns `Run`'s pass count and timeout flag. |
| `Segmenter.Utterances` | src/main.rs:123-149 | Each buffer handed to the engine holds exactly the samples received during its own recording phase, from an empty start, and that phase ended by silence. Nothing carries over from an earlier phase. |
| `Segmenter.UtterancesCoverTimedOutPhases` | src/main.rs:123-149 | Every phase ended by silence gets its buffer handed over: the list of buffers stops only after the last phase or at the first phase whose trace runs out before silence. |
| `Segmenter.Session` | src/main.rs:112-149 | The record, transcribe, clear loop hands the engine exactly `Utterances` of its phases, one for every phase up to the first whose trace runs out. Its loop invariant keeps `audio_data` empty at the start of every recording phase. |
| `Framing.FirstChannel` | src/main2.rs:36 | The mono length is `len / channels` by integer division. |
| `Framing.FirstChannelAt` | src/main2.rs:39-41 | Mono sample `i` is `samples[i * channels]`, and that index is inside the batch for every `i < len / channels`. |
| `Framing.FirstChannelOfInterleaved` | src/main2.rs:36-41 | Round trip: the first channel of interleaved frames is each frame's first sample, one per frame. |
| `Framing.PartialFrameDropped` | src/main2.rs:36 | A trailing partial frame adds nothing to the first channel. |
| `Framing.ScaleToI16` | src/main2.rs:42 | The scaled sample keeps the sign of the input. Inside the i16 range it is truncated toward zero: never above `x * 32767` for a non-negative product, never below it for a non-positive one. For inputs in [-1, 1] it is within 1 of `x * 32767`. It saturates at 32767 and -32768. |
| `Framing.ToMonoI16` | src/main2.rs:36-43 | The loop pushes exactly `len / channels` samples in index order. Sample `i` is the scaled value of `samples[i * channels]`, read in bounds. The result is `MonoI16`. |
| `Framing.Chunks` | src/main2.rs:46-48 | There are `ceil(n / size)` windows, none for no samples. Every window is non-empty and at most `size` long. Every window but the last is exactly `size` long. |
| `Framing.ChunksFlatten` | src/main2.rs:46-48 | Concatenating the windows in order gives back the samples exactly: no gap, overlap or duplicate. |
| `Framing.ChunkAt` | src/main2.rs:46-48 | Window `k` starts at `k * size`, which is below `n`, and spans `[k * size, min(k * size + size, n))`. |
| `Framing.DetectSpeech` | src/main2.rs:46-59 | The `step_by(960)` loop asks the detector about the windows in order and records one decision per window. It completes exactly when every window got a decision. Otherwise it stops at the first window the detector rejects, which is where `unwrap` panics. |
| `Framing.InputCallback` | src/main2.rs:34-59 | The callback makes one decision per 960-sample window of the scaled first channel. When it completes it has made `ceil((len / channels) / 960)` decisions, and none for a batch shorter than one frame. |

## Left out

- Device setup, stream build, `play` and `pause` (both files): hardware I/O. The model keeps only the
  order of the phases in `Session`.
- The rate converter (`SincFixedIn`) and its fixed 512-frame input: a foreign library doing
  floating-point signal processing. `audio_input_stream_data_callback` in `src/main.rs` is therefore
  not modelled.
- `convert_stereo_to_mono_audio` and the recognition engine (model loading, inference, segment
  printing): foreign calls. `Session` records the buffer handed to the engine and nothing else.
- The bounded `sync_channel` and the producer thread: concurrency. The consumer sees the channel only
  as the `try_recv` results in the trace.
- The `Instant` clock: replaced by the clock readings in the trace.
- `Segmenter.Step`: samples are reals, so NaN and infinite f32 samples are not modelled. The code
  appends a NaN sample without resetting the timestamp, since `NaN.abs() > VOLUME_THRESHOLD` is false.
- `Segmenter.Run`: the real loop never gives up. A finite trace that runs out before silence ends the
  call yields an outcome that is not timed out. `Session` stops at such a phase.
- `Framing.ScaleToI16`: works on reals. It does not model f32 rounding of the product or the NaN-to-0
  rule of Rust's saturating cast.
- `Framing.InputCallback`: a channel count of zero panics in the division, so it is a precondition.
  The detector's verdicts are a function parameter, not webrtc's algorithm. The printed lines are
  represented by the returned decisions.
- The tokio `main` of `src/main2.rs`, the command-line check and usage message, and the commented-out
  WAV export: runtime glue, I/O and dead code.
