# Voice-activity detector of the speech-to-speech translator

The browser front end (`static/script.js`) listens to the microphone, decides
frame by frame whether someone is speaking, records each utterance with a
`MediaRecorder`, and uploads the finished clip for translation. This project
models the part of it with real logic:

- the **level meter** (`LevelMeter`): the loop that sums one frame of
  frequency-bin magnitudes, and the test `average > START_THRESHOLD`, stated
  without floating point as `sum > START_THRESHOLD * n`;
- the **detector** (`Vad`): `checkAudioLevel`'s update of `isRecording`,
  `speechStartTime` and `silenceStartTime`, as a pure transition `Next` and as
  the class `Vad.Detector` whose `Tick` and `CheckAudioLevel` methods mutate
  the three fields in place and return the `start()`/`stop()` call they make
  of the recorder; plus the four-state machine (idle, pending speech,
  recording, pending silence) that the flag-and-timestamps encoding
  implements;
- **runs** of the detector (`VadTrace`): one decision per animation frame from
  the declared initial values, with the properties that hold along every run;
- the **chunk buffer** (`Recorder`): `ondataavailable` appends non-empty
  chunks to `audioChunks`, and `handleRecordingStop` joins them into one WAV
  blob, resets the buffer and pairs the blob with the target language.

The model follows the code as written:

- `STOP_THRESHOLD` (25) is declared but never read. The stop path is the
  `else` of `average > START_THRESHOLD`, so the detector has a single
  threshold; `Vad.StopThresholdUnused` shows a mean of 28 counting as silence.
- The timestamp checks are JavaScript truthiness tests, so a timer holding 0
  reads as absent. The fields are `Option<int>` and `Vad.Truthy` is
  "present and non-zero". Only the refinement lemma assumes a non-zero clock.
- `sum > 30 * n` also matches the floating-point test when `n == 0`. Then
  `0 / 0` is NaN and the test is false, and a positive sum over zero is
  +Infinity and the test is true.

Clock readings (`Date.now()`) and the analyser's frame are parameters.

## Model

| member | source | states |
|---|---|---|
| LevelMeter.Sum | static/script.js:99-102 | the accumulated sum of a frame is at most 255 per bin, and is zero exactly when every bin is zero |
| LevelMeter.FrameSum | static/script.js:99-102 | the loop over the analyser's array returns the left-to-right sum of its bins, bounded by 255 per bin |
| LevelMeter.SpeechIffAverageAbove | static/script.js:103-107 | for n > 0 the integer test `sum > 30 * n` holds exactly when the real average `sum / n` exceeds START_THRESHOLD |
| LevelMeter.FrameSpeechIffMeanAbove | static/script.js:99-107 | a frame is speech exactly when its mean is strictly above 30; a mean equal to 30 is silence |
| LevelMeter.SumMonotone | static/script.js:99-102 | raising bins never lowers the frame sum |
| LevelMeter.LouderFrameIsSpeech | static/script.js:99-107 | a frame at least as loud, bin by bin, as a speech frame is speech |
| LevelMeter.SilentFrameIsSilence | static/script.js:99-107 | an all-zero frame is never speech, for any bin count |
| Vad.InitialInv | static/script.js:18-20 | the declared values (not recording, both timers null) satisfy the timer-exclusion invariant |
| Vad.NextPreservesInv | static/script.js:107-138 | every tick keeps "recording implies no speech timer" and "idle implies no silence timer", so at most one timer is set |
| Vad.NextEventFlipsRecording | static/script.js:107-138 | a tick calls `start()` exactly when it turns recording on, `stop()` exactly when it turns it off, and nothing when the flag is unchanged |
| Vad.SpeechStartsTimer | static/script.js:107-110 | idle, speech level, no truthy speech timer: only `speechStartTime := now`, no recorder call, silence timer untouched |
| Vad.StartIff | static/script.js:107-118 | `start()` happens if and only if idle, speech, truthy speech timer and `now - speechStartTime > 500` (strict); afterwards recording with both timers null |
| Vad.SilenceWhileIdleResets | static/script.js:134-137 | idle with a silence level clears the speech timer and changes nothing else; a second such tick changes nothing more |
| Vad.SpeechWhileRecordingClearsSilence | static/script.js:119-122 | recording with a speech level clears the silence timer, keeps recording, and makes no recorder call |
| Vad.SilenceStartsTimer | static/script.js:123-126 | recording, silence level, no truthy silence timer: only `silenceStartTime := now` |
| Vad.StopIff | static/script.js:123-133 | `stop()` happens if and only if recording, silence, truthy silence timer and `now - silenceStartTime > 2000` (strict); afterwards idle with no silence timer |
| Vad.StopThresholdUnused | static/script.js:8-9 | STOP_THRESHOLD takes no part: a mean of 28, above it and below START_THRESHOLD, already starts the silence timer while recording |
| Vad.NextRefinesTransition | static/script.js:107-138 | on reachable states and non-zero clock readings, the flag-and-timestamps update implements the explicit four-state machine, recorder calls included |
| Vad.Detector.constructor | static/script.js:18-20 | a new detector is not recording and has no timers |
| Vad.Detector.Tick | static/script.js:107-138 | the in-place update of the three variables and the returned recorder call are those of `Next` for the level `sum > 30 * n`, and the timer invariant is kept |
| Vad.Detector.CheckAudioLevel | static/script.js:95-138 | summing the frame and then ticking gives `Next` applied to the frame's speech decision |
| VadTrace.RunAlternates | static/script.js:107-140 | along every run from the initial values the timers stay exclusive, recorder calls alternate start, stop, start, … beginning with start, and the detector records exactly after an odd number of calls |
| VadTrace.SpeechTimerHistory | static/script.js:107-118 | a set speech timer holds the clock reading of a past frame from which every frame so far was speech |
| VadTrace.SilenceTimerHistory | static/script.js:123-137 | a set silence timer holds the clock reading of a past frame from which every frame so far was silence |
| VadTrace.StartNeedsSustainedSpeech | static/script.js:107-118 | a `start()` at tick k is preceded by an unbroken run of speech frames ending at k whose first frame is more than 500 ms older |
| VadTrace.StopNeedsSustainedSilence | static/script.js:123-133 | a `stop()` at tick k happens while recording and is preceded by an unbroken run of silence frames ending at k whose first frame is more than 2000 ms older |
| VadTrace.QuietRunIsIdle | static/script.js:123-137 | a run of silent frames never calls the recorder and leaves the initial values in place |
| VadTrace.SustainedSpeechStartsOnce | static/script.js:107-118 | speech held from 1000 ms gives no start at 1500 ms (exactly 500 elapsed) and one start at 1550 ms |
| VadTrace.BlipResetsDebounce | static/script.js:107-110 | a frame whose mean equals 30 clears the pending speech timer, so the next speech frame restarts the debounce |
| VadTrace.SustainedSilenceStops | static/script.js:123-133 | while recording, silence held exactly 2000 ms does not stop and 2001 ms does |
| VadTrace.ShortSilenceKeepsRecording | static/script.js:119-133 | while recording, one second of silence followed by speech makes no call and returns to plain recording |
| VadTrace.Animate | static/script.js:95-140 | driving a fresh detector one tick per frame yields exactly the run's final state and calls, which alternate |
| Recorder.Kept | static/script.js:42-46 | the chunks kept from a stream are no more than those that arrived, and none is empty |
| Recorder.ConcatAppend | static/script.js:60 | joining two chunk lists one after the other gives their byte strings one after the other |
| Recorder.KeptAppend | static/script.js:42-46 | the chunks kept from a longer stream are those kept from its prefix followed by those kept from the rest |
| Recorder.ConcatKept | static/script.js:42-46 | dropping empty chunks loses no bytes: the kept chunks join into the concatenation of all that arrived |
| Recorder.KeptAllNonEmpty | static/script.js:42-46 | a stream with no empty chunk is kept whole, in order |
| Recorder.EmptyChunkOmitted | static/script.js:42-46 | chunks b1, empty, b2, b3 are buffered as b1, b2, b3 and joined as b1 + b2 + b3 |
| Recorder.ChunkBuffer.constructor | static/script.js:14 | a new buffer is empty |
| Recorder.ChunkBuffer.OnDataAvailable | static/script.js:42-46 | a non-empty chunk is appended at the end, an empty one leaves the buffer unchanged; the buffer holds only non-empty chunks |
| Recorder.ChunkBuffer.HandleRecordingStop | static/script.js:59-64 | the form carries a WAV blob of the buffered chunks joined in order, the file name and the target language read now; the buffer is left empty |
| Recorder.DeliverAll | static/script.js:42-46 | delivering a stream of chunk events appends exactly its non-empty chunks, in arrival order |
| Recorder.RecordUtterance | static/script.js:42-46 | from an empty buffer, delivering chunks and then stopping gives a blob of exactly the delivered bytes in arrival order, and leaves the buffer empty |

## Left out

- main.py: the HTTP routes, the calls to the external speech, translation and speech-synthesis services, and the file writes are network and disk I/O.
- Microphone access, `AudioContext`, the analyser's FFT (`getByteFrequencyData`) and `MediaRecorder` are browser APIs. The frame is a given byte array, and `start()`/`stop()` are the events a tick returns.
- The `fetch` upload and its response handling, audio playback, the cache-busting URL and the status texts are network and UI I/O (static/script.js:66-91, 115, 131).
- `requestAnimationFrame` scheduling is one `Tick` per frame, with a caller-supplied clock reading.
- The floating-point average is replaced by an integer comparison. `LevelMeter.SpeechIffAverageAbove` proves that the integer test agrees with the exact quotient for n > 0. The program's frames have 256 bins and a sum of at most 255 · 256, so the double quotient `sum / 256` is exact and the floating-point test gives the same answer. The rounding of double division is not modelled.
- The link between a `stop()` call and the asynchronous `onstop` callback that runs `HandleRecordingStop` is not modelled: `MediaRecorder` delivers it.
- Vad.NextRefinesTransition: assumes a non-zero clock reading, because with the JavaScript truthiness test a timer started at 0 reads as absent, which the four-state machine does not have.
