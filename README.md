# Android audio output and call-event detector of DSD-Flutter

A Dafny model of two pieces of the native layer of the DSD-Flutter plugin,
which runs the dsd-neo digital-voice decoder on Android.

**The OpenSL ES audio output backend** (`audio_android.c`):
- The decoder hands decoded 16-bit PCM frames to `dsd_audio_write`.
- They go into a ring of `2 * sample_rate` frames.
- The OpenSL ES player calls `player_callback` once per 256-frame period to take the next period into one of four transfer buffers.
- The ring never blocks the producer. When a write does not fit, the oldest frames are dropped. When less than a period is buffered, the callback pads with silence.
- `dsd_audio_open_output` builds a stream and prefills half its ring with silence. `dsd_audio_init` and `dsd_audio_cleanup` manage the shared engine and output mix. `set_error` keeps the last error message.

**The call-change detector** of `dsd_flutter_jni.cpp`:
- The poll thread compares the decoder's last talkgroup/source pair with the pair it saw before.
- On a change it sends one call event: start, update or end.
- `nativeInit` and `nativeStart` reset the remembered pair.

Files and modules:

- `arith.dfy` (`Arith`): Euclidean division facts behind the cursor arithmetic.
- `wrappers.dfy` (`Wrappers`): `Option`, used for a null message and for a round that sends nothing.
- `audio_ring.dfy` (`AudioRing`): the ring as values.
  - The cursor functions `ring_available` and `ring_free`.
  - The map from a sample index to a ring cell.
  - The readable frames as a window of frame slots.
  - The overflow policy (`Newest`) and the underflow policy (`Period`) as queue functions, with their lemmas.
- `audio_stream.dfy` (`AudioStream`): `struct dsd_audio_stream` as a class over arrays.
  - `ring_write` and `ring_read` are loops over samples.
  - `dsd_audio_write` and `player_callback` are proved against the queue functions.
- `audio_engine.dfy` (`AudioEngine`): the module statics as a class.
  - `dsd_audio_init`, `dsd_audio_cleanup`, `set_error` and `dsd_audio_open_output`.
  - The sample-rate map and the PCM format.
  - A count of live stream allocations, for the "nothing is leaked on failure" property.
- `call_events.dfy` (`CallEvents`): the detector.
  - A pure step function `Detect` and its lemmas.
  - `Track` for a run of rounds.
  - A class holding `g_last_tg`, `g_last_src` and the flags that `nativeInit`, `nativeStart` and the poll loop use.

Conventions:
- Every OpenSL ES call and every `calloc` is a success/failure outcome passed in by the caller (`EngineOutcomes`, `OpenOutcomes`, `enqueueOk`, `engineThreadOk`).
- The ring mutex is not modelled. Each method is one critical section, run to completion.
- Samples are `int16`. Cursors and sizes are unbounded naturals.
- The readable contents of the ring are a sequence of frames, oldest first. Each frame is a sequence of `channels` samples.

Two behaviours of the code that the model keeps as written:
- A failed `calloc` of the prefill buffer does not fail the open. The prefill is skipped and the stream opens with an empty ring (audio_android.c:407-416).
- A failed `dsd_audio_init` can leave the engine interface pointer `s_engine` set while `s_initialized` stays 0 (audio_android.c:195-221). `Init` states this: the `engine` flag is left as it was.

## Model

| member | source | states |
|---|---|---|
| `AudioRing.RingAvailable` | android/src/main/cpp/dsd-neo/src/platform/audio_android.c:94-100 | The fill level is below `ring_size`, and advancing the tail by it lands on the head: it is the forward distance from tail to head. |
| `AudioRing.AvailableUnique` | android/src/main/cpp/dsd-neo/src/platform/audio_android.c:94-100 | The fill level is the only distance below `ring_size` that takes the tail to the head, so any cursor bookkeeping that reaches the head by `a` frames has `a` frames readable. |
| `AudioRing.RingFree` | android/src/main/cpp/dsd-neo/src/platform/audio_android.c:102-105 | `ring_available + ring_free == ring_size - 1`, and the slot after the last free one is the tail: one slot is always kept empty. |
| `AudioRing.SampleIndexInBounds` | android/src/main/cpp/dsd-neo/src/platform/audio_android.c:107-127 | Every index `cursor*channels + (i % channels)` that `ring_write` and `ring_read` touch is below `ring_size*channels`. |
| `AudioRing.SamplePosInjective` | android/src/main/cpp/dsd-neo/src/platform/audio_android.c:107-116 | Within one lap of the ring, two different samples of a write go to two different cells. |
| `AudioRing.Newest` | android/src/main/cpp/dsd-neo/src/platform/audio_android.c:459-470 | The drop-oldest policy as a queue: the ring keeps the newest `cap` frames, in order. |
| `AudioRing.NewestKeepsWrite` | android/src/main/cpp/dsd-neo/src/platform/audio_android.c:459-470 | After a write the last frames kept are the newest written frames in order; while everything fits nothing is dropped. |
| `AudioRing.FifoAfterWrite` | android/src/main/cpp/dsd-neo/src/platform/audio_android.c:107-127 | FIFO order: when a write fits, the frames read after the earlier ones are exactly the written frames, in order. |
| `AudioRing.Period` | android/src/main/cpp/dsd-neo/src/platform/audio_android.c:139-151 | A transfer buffer holds exactly one period of frames. |
| `AudioRing.PeriodContents` | android/src/main/cpp/dsd-neo/src/platform/audio_android.c:139-151 | Frame `f` of a transfer buffer is the queue's frame `f` while the queue lasts and silence after it (zero padding on underflow). |
| `AudioRing.PeriodAfterWrite` | android/src/main/cpp/dsd-neo/src/platform/audio_android.c:139-151 | With a period already queued, a write that fits does not reach the next transfer buffer: it holds the oldest queued frames. |
| `AudioRing.PaddedFrames` | android/src/main/cpp/dsd-neo/src/platform/audio_android.c:146-150 | A buffer zeroed and then given `n` frames at its front reads as those frames followed by silence. |
| `AudioRing.FramesOfZeros` | android/src/main/cpp/dsd-neo/src/platform/audio_android.c:409-412 | A zero-filled (`calloc`ed) sample buffer reads as silent frames. |
| `AudioRing.ReadFrames` | android/src/main/cpp/dsd-neo/src/platform/audio_android.c:118-127 | Samples copied one by one from the tail on form the readable window's frames. |
| `AudioRing.WrittenFrames` | android/src/main/cpp/dsd-neo/src/platform/audio_android.c:107-116 | After a write of `frames` frames from the head, the slots it reached hold the last `min(frames, ring_size)` written frames in order. |
| `AudioRing.UntouchedFrames` | android/src/main/cpp/dsd-neo/src/platform/audio_android.c:107-116 | Slots a write did not reach keep their frames. |
| `AudioRing.WindowAdvance` | android/src/main/cpp/dsd-neo/src/platform/audio_android.c:118-127 | Consuming `k` frames moves the tail by `k` and leaves the rest of the readable window in place. |
| `AudioRing.WriteFillLevel` | android/src/main/cpp/dsd-neo/src/platform/audio_android.c:459-469 | After `dsd_audio_write` moves the tail past the shortfall and writes, `available == min(old_available + frames, ring_size - 1)`. |
| `AudioRing.WriteKeepsNewest` | android/src/main/cpp/dsd-neo/src/platform/audio_android.c:459-469 | What is readable after `dsd_audio_write` is the newest `ring_size - 1` frames of the old readable frames followed by the written ones. |
| `AudioStream.Stream.constructor` | android/src/main/cpp/dsd-neo/src/platform/audio_android.c:291-317 | A new stream has zeroed transfer buffers of one period each, a zeroed ring of `2 * sample_rate` frames, `buffer_size == 256 * channels * 2`, both cursors at 0 and nothing readable. |
| `AudioStream.Stream.RingWrite` | android/src/main/cpp/dsd-neo/src/platform/audio_android.c:107-116 | `ring_write` moves only the head, by `frames` mod `ring_size`; the reached slots hold the newest written frames and the other slots are unchanged. |
| `AudioStream.Stream.RingRead` | android/src/main/cpp/dsd-neo/src/platform/audio_android.c:118-127 | `ring_read` moves only the tail, by `frames` mod `ring_size`; the destination's first frames are the oldest readable frames in order, the rest of it is unchanged, and they leave the readable queue. |
| `AudioStream.Stream.Write` | android/src/main/cpp/dsd-neo/src/platform/audio_android.c:457-470 | The locked body of `dsd_audio_write` accepts every frame; the fill level becomes `min(old + frames, ring_size - 1)`, and the readable frames are the newest of the old ones followed by the written ones. |
| `AudioStream.Stream.PlayerCallback` | android/src/main/cpp/dsd-neo/src/platform/audio_android.c:133-164 | The current buffer receives the next period when a whole one is buffered, otherwise the buffered frames followed by zeros with the ring left empty; `current_buffer` advances by 1 mod 4 whatever Enqueue returns. |
| `AudioStream.AudioWrite` | android/src/main/cpp/dsd-neo/src/platform/audio_android.c:451-473 | A null stream, a null buffer or zero frames returns 0 and leaves the stream unchanged; otherwise it returns `frames` with the drop-oldest contents above. The buffer index and the playing flag never change. |
| `AudioEngine.SlSamplingRate` | android/src/main/cpp/dsd-neo/src/platform/audio_android.c:329-337 | 8000, 16000, 22050, 44100 and 48000 Hz map to their own `SL_SAMPLINGRATE_*` constant (the rate in milliHertz); every other rate maps to 48 kHz. |
| `AudioEngine.SamplingRateIsNative` | android/src/main/cpp/dsd-neo/src/platform/audio_android.c:329-337 | Every rate is played at one of the five native rates. |
| `AudioEngine.SamplingRateDistinguishesNative` | android/src/main/cpp/dsd-neo/src/platform/audio_android.c:329-337 | Different native rates get different constants. |
| `AudioEngine.PcmFormatFor` | android/src/main/cpp/dsd-neo/src/platform/audio_android.c:339-347 | The player's format is 16-bit little-endian PCM with the stream's channel count and mapped rate; its channel mask is front-left|front-right for 2 channels and front-centre otherwise. |
| `AudioEngine.NulTerminatedPrefixIsCString` | android/src/main/cpp/dsd-neo/src/platform/audio_android.c:84-86 | The copy `strncpy` plus the forced final NUL leave is a NUL-free prefix of the message of at most `limit` characters, stopping early only at the message's end or its first NUL. |
| `AudioEngine.TruncateError` | android/src/main/cpp/dsd-neo/src/platform/audio_android.c:82-91 | A stored message has at most 511 characters, holds no NUL and is a prefix of the message given. |
| `AudioEngine.TruncateErrorKeepsShortMessage` | android/src/main/cpp/dsd-neo/src/platform/audio_android.c:82-91 | A NUL-free message of at most 511 characters is stored whole; a longer one is cut to its first 511. |
| `AudioEngine.TruncateErrorIdempotent` | android/src/main/cpp/dsd-neo/src/platform/audio_android.c:82-91 | Storing a stored message again changes nothing. |
| `AudioEngine.InitFailure` | android/src/main/cpp/dsd-neo/src/platform/audio_android.c:179-221 | `dsd_audio_init` fails exactly when one of its five OpenSL ES steps fails; the first failure's message is the one reported. |
| `AudioEngine.OpenFailure` | android/src/main/cpp/dsd-neo/src/platform/audio_android.c:291-402 | `dsd_audio_open_output` fails after the engine is up exactly when an allocation of the stream, its buffers or its ring, or one of the six player steps fails. |
| `AudioEngine.AudioBackend.constructor` | android/src/main/cpp/dsd-neo/src/platform/audio_android.c:72-76 | At load time nothing is initialised, no handle is held and the error is empty. |
| `AudioEngine.AudioBackend.SetError` | android/src/main/cpp/dsd-neo/src/platform/audio_android.c:82-91 | `set_error` stores a message truncated to 511 characters, NUL-terminated; a null message clears the error. |
| `AudioEngine.AudioBackend.Init` | android/src/main/cpp/dsd-neo/src/platform/audio_android.c:170-226 | `dsd_audio_init` returns 0 without change when already initialised; otherwise it returns 0 exactly when every step succeeds, leaving engine, interface and output mix held; a failure returns -1, records the first failing step's message and leaves the backend uninitialised with no engine object or output mix. |
| `AudioEngine.AudioBackend.Cleanup` | android/src/main/cpp/dsd-neo/src/platform/audio_android.c:228-247 | `dsd_audio_cleanup` is a no-op when not initialised and otherwise leaves every handle null and the backend uninitialised. |
| `AudioEngine.AudioBackend.AllocateBuffers` | android/src/main/cpp/dsd-neo/src/platform/audio_android.c:302-309 | The four transfer-buffer allocations either all succeed, or the first failure records its message and nothing they allocated stays live. |
| `AudioEngine.AudioBackend.AllocateStream` | android/src/main/cpp/dsd-neo/src/platform/audio_android.c:291-317 | The record, buffer and ring allocations either all succeed (six allocations live) or the first failure records its message and nothing stays live. |
| `AudioEngine.AudioBackend.CreatePlayer` | android/src/main/cpp/dsd-neo/src/platform/audio_android.c:362-402 | The six player steps either all succeed (the player is live) or the first failure records its message and a created player is destroyed. |
| `AudioEngine.AudioBackend.OpenOutput` | android/src/main/cpp/dsd-neo/src/platform/audio_android.c:281-440 | `dsd_audio_open_output` initialises the engine when needed, leaves an engine that was already up untouched, and returns a stream exactly when every step succeeds: playing, ring of `2 * sample_rate` frames, `buffer_size == 256 * channels * 2`, mapped format, half the ring readable as silence (none when the prefill buffer cannot be allocated), buffers fresh and zeroed, and the engine initialised. On any failure it returns null, records the first failing step's message and leaves no stream allocation live. |
| `AudioEngine.AudioBackend.OpenStream` | android/src/main/cpp/dsd-neo/src/platform/audio_android.c:291-428 | Once the engine is up, a stream is returned exactly when every allocation and player step succeeds, holding the record, four freshly allocated transfer buffers, ring and player; otherwise null, the first failing step's message, and nothing left live. |
| `AudioEngine.StartStream` | android/src/main/cpp/dsd-neo/src/platform/audio_android.c:405-425 | The stream is marked playing; after the prefill `available == ring_size / 2` (0 when the prefill buffer cannot be allocated), every readable frame is silent and every transfer buffer is zeroed. |
| `AudioEngine.StartupPeriodIsPrefill` | android/src/main/cpp/dsd-neo/src/platform/audio_android.c:407-416 | Opened at 8000 Hz mono, a write of 500 frames is heard only after the prefill: the first period handed over is silence. |
| `AudioEngine.PrefillIsSilence` | android/src/main/cpp/dsd-neo/src/platform/audio_android.c:409-412 | Writing a zeroed buffer into an empty ring makes the readable frames silent. |
| `CallEvents.CallType` | android/src/main/cpp/dsd_flutter_jni.cpp:149-152 | The call type is "Private" exactly when `gi[0] == 1`, otherwise "Group". |
| `CallEvents.Detect` | android/src/main/cpp/dsd_flutter_jni.cpp:146-203 | After a round the remembered pair is the observed one, and an event is sent exactly when the observed pair differs from the remembered one (the end branch always fires for a change to (0, 0)); its type is start, update or end. |
| `CallEvents.NoChangeNoEvent` | android/src/main/cpp/dsd_flutter_jni.cpp:146 | An unchanged pair sends no event and leaves the remembered pair as it was. |
| `CallEvents.ChangeToCall` | android/src/main/cpp/dsd_flutter_jni.cpp:147-180 | A change to a non-zero pair sends type 0 when the remembered pair was (0, 0) and type 1 otherwise, carrying the new tg/src, NAC, slot, call type and emergency flag, never encrypted. |
| `CallEvents.ChangeToIdle` | android/src/main/cpp/dsd_flutter_jni.cpp:181-198 | A change from a non-zero pair to (0, 0) sends type 2 carrying the previous tg/src as a non-emergency "Group" call. |
| `CallEvents.PrivateExactlyWhenIndividual` | android/src/main/cpp/dsd_flutter_jni.cpp:149-152 | An event says "Private" exactly when it is a start or update and `gi[0] == 1`. |
| `CallEvents.RepeatIsSilent` | android/src/main/cpp/dsd_flutter_jni.cpp:201-202 | The same observation twice in a row sends no second event. |
| `CallEvents.Track` | android/src/main/cpp/dsd_flutter_jni.cpp:138-206 | Over a run of rounds the remembered pair is the last observation and no round sends more than one event. |
| `CallEvents.RunSendsOnce` | android/src/main/cpp/dsd_flutter_jni.cpp:146-202 | Consecutive identical observations send exactly one event when they differ from the remembered pair, and none otherwise. |
| `CallEvents.BracketedStep` | android/src/main/cpp/dsd_flutter_jni.cpp:146-202 | One round keeps the event stream well-bracketed. |
| `CallEvents.TrackFromResetIsBracketed` | android/src/main/cpp/dsd_flutter_jni.cpp:146-202 | From (0, 0) the first event is a start, and each end event repeats the tg/src of the start or update just before it. |
| `CallEvents.FirstCallAfterResetStarts` | android/src/main/cpp/dsd_flutter_jni.cpp:161 | After a reset, the first non-zero observation sends a type-0 event. |
| `CallEvents.CallMonitor.constructor` | android/src/main/cpp/dsd_flutter_jni.cpp:37-38 | The remembered pair starts at (0, 0). |
| `CallEvents.CallMonitor.Poll` | android/src/main/cpp/dsd_flutter_jni.cpp:146-203 | One round of the poll loop sends `Detect`'s event and remembers the observed pair. |
| `CallEvents.CallMonitor.PollLoop` | android/src/main/cpp/dsd_flutter_jni.cpp:135-211 | While the engine runs and the decoder state exists, the loop sends exactly the events of `Track` over the observations and ends remembering its last pair; otherwise it sends nothing. |
| `CallEvents.CallMonitor.NativeInit` | android/src/main/cpp/dsd_flutter_jni.cpp:290-326 | `nativeInit` reallocates the options and the state and resets the pair to (0, 0) only when both allocations succeed. |
| `CallEvents.CallMonitor.NativeStart` | android/src/main/cpp/dsd_flutter_jni.cpp:380-427 | `nativeStart` does nothing while the engine runs; otherwise, with options and state present, it resets the pair to (0, 0) and marks the engine running unless its thread cannot be created. |

## Left out

- `dsd_audio_drain`: it waits on the condition variable with a wall-clock timeout, so it depends on another thread running the callback meanwhile. With one sequential thread it could only return at once when the ring is empty or after a failed wait.
- `dsd_audio_close`, `dsd_audio_read`, `dsd_audio_open_input`, `dsd_audio_enumerate_devices`, `dsd_audio_list_devices`, `dsd_audio_get_error` and `dsd_audio_backend_name`: these are not part of this model.
- The mutex, the condition variable and the threads are not modelled. That covers the engine, stderr and poll threads, `pthread_join`, the JNI attach/detach, and the marshalling in `send_call_event_to_flutter`. A sent event is the `CallEvent` value that would be passed.
- OpenSL ES calls beyond their outcome are not modelled: the engine, mix and player objects, and the buffer queue. The outcome of the priming Enqueue calls is not a parameter, because the source only logs it.
- Logging is not modelled.
- The 100 ms sleep between poll rounds is not modelled, and neither is `nativeConnect`'s option setting.
- The `frequency` field of an event is the constant 0.0 and no floating-point arithmetic is involved.
- AudioStream.AudioWrite: does not model the `(int)frames` cast. A request above `INT_MAX` frames would return a truncated count in C.
- AudioStream.Stream.Write: requires the buffer to hold `frames * channels` samples. C reads that many samples from the caller's pointer and cannot check it.
- AudioStream.Stream.RingWrite: `size_t` overflow of `frames * channels` and of `ring_size * channels` is not modelled. Sizes are unbounded.
- AudioEngine.AudioBackend.OpenOutput: requires a positive sample rate and channel count, which the source does not check.
  - A zero rate gives a zero-frame ring. The later `% ring_size` divides by zero.
  - Negative values wrap in the `size_t` casts.
- AudioEngine.AudioBackend.OpenOutput: the `Stream` object exists only once the record, buffer and ring allocations have succeeded.
  - Before that, the allocations are tracked only as a count of live stream allocations (`live`), not as the individual pointers of the half-built record.
  - The count does not say which allocation is which.
- AudioEngine.AudioBackend.SetError: the 512-byte `s_last_error` array is modelled as the C string it holds: the characters before its first NUL. The bytes after that NUL are not modelled.
- CallEvents.CallMonitor.PollLoop: the engine-running and state flags are read once. In the source another thread can clear them between rounds, which ends the loop early.
- CallEvents.CallMonitor.NativeInit: joining a running engine is modelled as the engine having cleared its running flag. `initOpts`, `initState` and `freeState` are not modelled.
