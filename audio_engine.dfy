/** The module state of audio_android.c (the OpenSL ES engine, its output
    mix, the `s_initialized` flag and the last error message) and the
    operations that change it: `dsd_audio_init`, `dsd_audio_cleanup`,
    `set_error` and `dsd_audio_open_output`. Every OpenSL ES call and every
    allocation is an outcome the caller supplies; what the model tracks is
    which handles are held and which allocations are live. */
module AudioEngine {
  import opened Wrappers
  import opened AudioRing
  import opened AudioStream

  /** `sizeof(s_last_error)`: the message buffer, NUL terminator included. */
  const LAST_ERROR_SIZE: nat := 512

  // OpenSL ES constants used to describe the player's PCM format.
  const SL_SAMPLINGRATE_8: nat := 8000000
  const SL_SAMPLINGRATE_16: nat := 16000000
  const SL_SAMPLINGRATE_22_05: nat := 22050000
  const SL_SAMPLINGRATE_44_1: nat := 44100000
  const SL_SAMPLINGRATE_48: nat := 48000000
  const SL_PCMSAMPLEFORMAT_FIXED_16: nat := 0x0010
  const SL_SPEAKER_FRONT_LEFT: nat := 0x1
  const SL_SPEAKER_FRONT_RIGHT: nat := 0x2
  const SL_SPEAKER_FRONT_CENTER: nat := 0x4

  /** The sample rates the player is opened at natively. */
  const NATIVE_RATES: set<nat> := {8000, 16000, 22050, 44100, 48000}

  /** The `switch` of dsd_audio_open_output: a native rate is passed on as
      its `SL_SAMPLINGRATE_*` constant (milliHertz), any other rate falls
      back to 48 kHz. */
  function SlSamplingRate(rate: int): (r: nat)
    ensures rate in NATIVE_RATES ==> r == rate * 1000
    ensures rate !in NATIVE_RATES ==> r == SL_SAMPLINGRATE_48
  {
    match rate
    case 8000 => SL_SAMPLINGRATE_8
    case 16000 => SL_SAMPLINGRATE_16
    case 22050 => SL_SAMPLINGRATE_22_05
    case 44100 => SL_SAMPLINGRATE_44_1
    case 48000 => SL_SAMPLINGRATE_48
    case _ => SL_SAMPLINGRATE_48
  }

  /** Every rate is played at one of the native rates. */
  lemma SamplingRateIsNative(rate: int)
    ensures SlSamplingRate(rate) / 1000 in NATIVE_RATES
    ensures SlSamplingRate(rate) % 1000 == 0
  {
  }

  /** Different native rates are opened at different OpenSL ES sampling
      rate constants. */
  lemma SamplingRateDistinguishesNative(a: int, b: int)
    requires a in NATIVE_RATES && b in NATIVE_RATES && a != b
    ensures SlSamplingRate(a) != SlSamplingRate(b)
  {
  }

  /** The `SLDataFormat_PCM` of the player: 16-bit little-endian samples,
      stereo on the front pair and anything else on the front centre. */
  function PcmFormatFor(sampleRate: int, channels: nat): (f: PcmFormat)
    ensures f.numChannels == channels && f.samplesPerSec == SlSamplingRate(sampleRate)
    ensures f.bitsPerSample == 16 && f.containerSize == 16 && f.littleEndian
    ensures channels == 2 ==> f.channelMask == 0x3
    ensures channels != 2 ==> f.channelMask == 0x4
  {
    PcmFormat(
      channels,
      SlSamplingRate(sampleRate),
      SL_PCMSAMPLEFORMAT_FIXED_16,
      SL_PCMSAMPLEFORMAT_FIXED_16,
      if channels == 2 then SL_SPEAKER_FRONT_LEFT + SL_SPEAKER_FRONT_RIGHT else SL_SPEAKER_FRONT_CENTER,
      true)
  }

  /** The C string `strncpy` leaves in a buffer of `limit + 1` characters
      whose last one is then set to NUL: the characters of `s` before its
      first NUL, at most `limit` of them. */
  function NulTerminatedPrefix(s: string, limit: nat): string
    decreases limit
  {
    if limit == 0 || |s| == 0 || s[0] == '\0' then []
    else [s[0]] + NulTerminatedPrefix(s[1..], limit - 1)
  }

  /** The copy is a NUL-free prefix of at most `limit` characters that stops
      early only at the end of `s` or at its first NUL. */
  lemma {:induction false} NulTerminatedPrefixIsCString(s: string, limit: nat)
    ensures var r := NulTerminatedPrefix(s, limit);
            && |r| <= limit && r <= s && '\0' !in r
            && (|r| < limit ==> |r| == |s| || s[|r|] == '\0')
    decreases limit
  {
    if !(limit == 0 || |s| == 0 || s[0] == '\0') {
      NulTerminatedPrefixIsCString(s[1..], limit - 1);
    }
  }

  /** What `set_error(msg)` stores for a non-null message. */
  function TruncateError(msg: string): (r: string)
    ensures |r| < LAST_ERROR_SIZE && r <= msg && '\0' !in r
    ensures |r| < LAST_ERROR_SIZE - 1 ==> |r| == |msg| || msg[|r|] == '\0'
  {
    NulTerminatedPrefixIsCString(msg, LAST_ERROR_SIZE - 1);
    NulTerminatedPrefix(msg, LAST_ERROR_SIZE - 1)
  }

  /** A message without NUL that fits is stored whole; a longer one is cut
      to its first 511 characters. */
  lemma {:induction false} TruncateErrorKeepsShortMessage(msg: string)
    requires '\0' !in msg
    ensures |msg| < LAST_ERROR_SIZE ==> TruncateError(msg) == msg
    ensures |msg| >= LAST_ERROR_SIZE ==> TruncateError(msg) == msg[..LAST_ERROR_SIZE - 1]
  {
    var r := TruncateError(msg);
    if |r| < LAST_ERROR_SIZE - 1 {
      assert |r| == |msg|;
    }
    assert r == msg[..|r|];
  }

  /** Storing a stored message again changes nothing. */
  lemma TruncateErrorIdempotent(msg: string)
    ensures TruncateError(TruncateError(msg)) == TruncateError(msg)
  {
    TruncateErrorKeepsShortMessage(TruncateError(msg));
  }

  // The messages `set_error` records, one per failing step.
  const ERR_CREATE_ENGINE: string := "Failed to create OpenSL ES engine"
  const ERR_REALIZE_ENGINE: string := "Failed to realize OpenSL ES engine"
  const ERR_ENGINE_INTERFACE: string := "Failed to get OpenSL ES engine interface"
  const ERR_CREATE_OUTPUT_MIX: string := "Failed to create output mix"
  const ERR_REALIZE_OUTPUT_MIX: string := "Failed to realize output mix"
  const ERR_ALLOC_STREAM: string := "Failed to allocate audio stream"
  const ERR_ALLOC_BUFFER: string := "Failed to allocate audio buffer"
  const ERR_ALLOC_RING: string := "Failed to allocate ring buffer"
  const ERR_CREATE_PLAYER: string := "Failed to create audio player"
  const ERR_REALIZE_PLAYER: string := "Failed to realize audio player"
  const ERR_PLAY_INTERFACE: string := "Failed to get play interface"
  const ERR_QUEUE_INTERFACE: string := "Failed to get buffer queue interface"
  const ERR_REGISTER_CALLBACK: string := "Failed to register callback"
  const ERR_START_PLAYBACK: string := "Failed to start playback"

  /** Outcomes of the OpenSL ES calls of `dsd_audio_init`, in call order. */
  datatype EngineOutcomes = EngineOutcomes(
    createEngine: bool,
    realizeEngine: bool,
    engineInterface: bool,
    createOutputMix: bool,
    realizeOutputMix: bool)

  /** The message of the first failing step of `dsd_audio_init`, if any. */
  function InitFailure(o: EngineOutcomes): (r: Option<string>)
    ensures r.None? <==> o.createEngine && o.realizeEngine && o.engineInterface && o.createOutputMix && o.realizeOutputMix
    ensures !o.createEngine ==> r == Some(ERR_CREATE_ENGINE)
    ensures o.createEngine && o.realizeEngine && o.engineInterface && o.createOutputMix && !o.realizeOutputMix
            ==> r == Some(ERR_REALIZE_OUTPUT_MIX)
  {
    if !o.createEngine then Some(ERR_CREATE_ENGINE)
    else if !o.realizeEngine then Some(ERR_REALIZE_ENGINE)
    else if !o.engineInterface then Some(ERR_ENGINE_INTERFACE)
    else if !o.createOutputMix then Some(ERR_CREATE_OUTPUT_MIX)
    else if !o.realizeOutputMix then Some(ERR_REALIZE_OUTPUT_MIX)
    else None
  }

  /** Outcomes of the allocations and OpenSL ES calls of
      `dsd_audio_open_output`, in call order. `buffersAllocated` is how many
      of the four transfer-buffer `calloc`s succeed before the first that
      fails. `silenceAlloc` is the prefill buffer's `calloc`, whose failure
      only skips the prefill. */
  datatype OpenOutcomes = OpenOutcomes(
    streamAlloc: bool,
    buffersAllocated: nat,
    ringAlloc: bool,
    createPlayer: bool,
    realizePlayer: bool,
    playInterface: bool,
    queueInterface: bool,
    registerCallback: bool,
    startPlayback: bool,
    silenceAlloc: bool)

  /** The message of the first failing step of `dsd_audio_open_output`
      after the engine is up, if any. */
  function OpenFailure(o: OpenOutcomes): (r: Option<string>)
    ensures r.None? <==> o.streamAlloc && o.buffersAllocated >= AUDIO_BUFFER_COUNT && o.ringAlloc
                         && o.createPlayer && o.realizePlayer && o.playInterface && o.queueInterface
                         && o.registerCallback && o.startPlayback
    ensures !o.streamAlloc ==> r == Some(ERR_ALLOC_STREAM)
  {
    if !o.streamAlloc then Some(ERR_ALLOC_STREAM)
    else if o.buffersAllocated < AUDIO_BUFFER_COUNT then Some(ERR_ALLOC_BUFFER)
    else if !o.ringAlloc then Some(ERR_ALLOC_RING)
    else if !o.createPlayer then Some(ERR_CREATE_PLAYER)
    else if !o.realizePlayer then Some(ERR_REALIZE_PLAYER)
    else if !o.playInterface then Some(ERR_PLAY_INTERFACE)
    else if !o.queueInterface then Some(ERR_QUEUE_INTERFACE)
    else if !o.registerCallback then Some(ERR_REGISTER_CALLBACK)
    else if !o.startPlayback then Some(ERR_START_PLAYBACK)
    else None
  }

  /** How many allocations a stream holds before its player exists: the
      record, the four transfer buffers and the ring. */
  const STREAM_ALLOCATIONS: nat := 1 + AUDIO_BUFFER_COUNT + 1

  /** How many resources an open stream holds: its allocations and the player. */
  const STREAM_RESOURCES: nat := STREAM_ALLOCATIONS + 1

  /** The state of a stream `dsd_audio_open_output` returns. */
  ghost predicate StreamOpened(s: Stream, sampleRate: nat, channels: nat, prefilled: bool)
    reads s, s.ring, s.buffers
  {
    && s.Valid()
    && s.sampleRate == sampleRate && s.channels == channels
    && s.ringSize == 2 * sampleRate
    && s.bufferSize == AUDIO_BUFFER_FRAMES * channels * 2
    && s.format == PcmFormatFor(sampleRate, channels)
    && s.isPlaying
    && s.currentBuffer == 0
    && s.Available() == (if prefilled then s.ringSize / 2 else 0)
    && s.Readable() == Silence(s.Available(), channels)
    && (forall i, k :: 0 <= i < |s.buffers| && 0 <= k < s.buffers[i].Length ==> s.buffers[i][k] == 0)
  }

  /** The static state of the backend. A handle field is true when the
      corresponding static pointer is non-null. */
  class AudioBackend {
    var initialized: bool    // s_initialized
    var engineObj: bool      // s_engine_obj
    var engine: bool         // s_engine
    var outputMix: bool      // s_output_mix
    var lastError: string    // s_last_error, up to its NUL
    /** How many stream allocations and players are currently live. */
    ghost var live: nat

    ghost predicate Valid()
      reads this
    {
      && (initialized ==> engineObj && engine && outputMix)
      && (!initialized ==> !engineObj && !outputMix)
      && |lastError| < LAST_ERROR_SIZE && '\0' !in lastError
    }

    /** The statics at load time: nothing held, no error. */
    constructor ()
      ensures Valid() && !initialized && !engineObj && !engine && !outputMix
      ensures lastError == [] && live == 0
    {
      initialized, engineObj, engine, outputMix := false, false, false, false;
      lastError := [];
      live := 0;
    }

    /** `set_error`: a message is stored truncated to 511 characters; a null
        message clears the error. */
    method SetError(msg: Option<string>)
      modifies this`lastError
      ensures msg.Some? ==> lastError == TruncateError(msg.value)
      ensures msg.None? ==> lastError == []
      ensures |lastError| < LAST_ERROR_SIZE && '\0' !in lastError
    {
      if msg.Some? {
        lastError := TruncateError(msg.value);
      } else {
        lastError := [];
      }
    }

    /** `dsd_audio_init`: nothing to do when already initialised; otherwise
        creates and realises the engine, fetches its interface, and creates
        and realises the output mix. A failing step records its message,
        destroys what it created (the engine interface pointer is left as
        it was) and returns -1 with the backend still uninitialised. */
    method Init(o: EngineOutcomes) returns (rc: int)
      requires Valid()
      modifies this`initialized, this`engineObj, this`engine, this`outputMix, this`lastError
      ensures Valid()
      ensures rc == 0 <==> initialized
      ensures rc == 0 || rc == -1
      ensures old(initialized) ==> rc == 0 && unchanged(this)
      ensures !old(initialized) && InitFailure(o).None? ==> rc == 0 && lastError == old(lastError)
      ensures !old(initialized) && InitFailure(o).Some? ==> rc == -1 && lastError == TruncateError(InitFailure(o).value)
      ensures !old(initialized) ==> engine == (old(engine) || (o.createEngine && o.realizeEngine && o.engineInterface))
    {
      if initialized {
        return 0;
      }
      // slCreateEngine
      if !o.createEngine {
        SetError(Some(ERR_CREATE_ENGINE));
        return -1;
      }
      engineObj := true;
      if !o.realizeEngine {
        SetError(Some(ERR_REALIZE_ENGINE));
        engineObj := false;
        return -1;
      }
      if !o.engineInterface {
        SetError(Some(ERR_ENGINE_INTERFACE));
        engineObj := false;
        return -1;
      }
      engine := true;
      if !o.createOutputMix {
        SetError(Some(ERR_CREATE_OUTPUT_MIX));
        engineObj := false;
        return -1;
      }
      outputMix := true;
      if !o.realizeOutputMix {
        SetError(Some(ERR_REALIZE_OUTPUT_MIX));
        outputMix := false;
        engineObj := false;
        return -1;
      }
      initialized := true;
      rc := 0;
    }

    /** `dsd_audio_cleanup`: nothing to do when not initialised; otherwise
        destroys the output mix and the engine and forgets every handle. */
    method Cleanup()
      requires Valid()
      modifies this`initialized, this`engineObj, this`engine, this`outputMix
      ensures Valid()
      ensures !old(initialized) ==> unchanged(this)
      ensures old(initialized) ==> !initialized && !engineObj && !engine && !outputMix
      ensures lastError == old(lastError)
    {
      if !initialized {
        return;
      }
      if outputMix {
        outputMix := false;
      }
      if engineObj {
        engineObj := false;
        engine := false;
      }
      initialized := false;
    }

    /** The transfer-buffer loop of `dsd_audio_open_output`: four
        `calloc`s in turn. When one fails the message is recorded and the
        buffers allocated so far are freed. */
    method AllocateBuffers(o: OpenOutcomes) returns (ok: bool)
      requires Valid()
      modifies this`lastError, this`live
      ensures Valid()
      ensures ok <==> o.buffersAllocated >= AUDIO_BUFFER_COUNT
      ensures ok ==> live == old(live) + AUDIO_BUFFER_COUNT && lastError == old(lastError)
      ensures !ok ==> live == old(live) && lastError == TruncateError(ERR_ALLOC_BUFFER)
    {
      var i := 0;
      while i < AUDIO_BUFFER_COUNT
        invariant 0 <= i <= AUDIO_BUFFER_COUNT && i <= o.buffersAllocated
        invariant live == old(live) + i
        invariant lastError == old(lastError)
      {
        if i >= o.buffersAllocated {
          SetError(Some(ERR_ALLOC_BUFFER));
          live := live - i;
          return false;
        }
        live := live + 1;
        i := i + 1;
      }
      ok := true;
    }

    /** The allocation steps of `dsd_audio_open_output`: the stream record,
        the four transfer buffers and the ring. On a failure the message is
        recorded and what was allocated is freed. */
    method AllocateStream(o: OpenOutcomes) returns (ok: bool)
      requires Valid()
      modifies this`lastError, this`live
      ensures Valid()
      ensures ok <==> o.streamAlloc && o.buffersAllocated >= AUDIO_BUFFER_COUNT && o.ringAlloc
      ensures ok ==> live == old(live) + STREAM_ALLOCATIONS && lastError == old(lastError)
      ensures !ok ==> live == old(live) && lastError == TruncateError(OpenFailure(o).value)
    {
      if !o.streamAlloc {
        SetError(Some(ERR_ALLOC_STREAM));
        return false;
      }
      live := live + 1;
      ok := AllocateBuffers(o);
      if !ok {
        // error: free the record (the buffers are already released).
        live := live - 1;
        return;
      }
      if !o.ringAlloc {
        SetError(Some(ERR_ALLOC_RING));
        // error: free the transfer buffers and the record.
        live := live - AUDIO_BUFFER_COUNT - 1;
        return false;
      }
      live := live + 1;
    }

    /** The player steps of `dsd_audio_open_output`: create, realise, get
        the play and buffer-queue interfaces, register the callback, start
        playback. On a failure the message is recorded and a created player
        is destroyed. */
    method CreatePlayer(o: OpenOutcomes) returns (ok: bool)
      requires Valid() && o.streamAlloc && o.buffersAllocated >= AUDIO_BUFFER_COUNT && o.ringAlloc
      modifies this`lastError, this`live
      ensures Valid()
      ensures ok <==> OpenFailure(o).None?
      ensures ok ==> live == old(live) + 1 && lastError == old(lastError)
      ensures !ok ==> live == old(live) && lastError == TruncateError(OpenFailure(o).value)
    {
      if !o.createPlayer {
        SetError(Some(ERR_CREATE_PLAYER));
        return false;
      }
      live := live + 1;
      var failure: Option<string> := None;
      if !o.realizePlayer {
        failure := Some(ERR_REALIZE_PLAYER);
      } else if !o.playInterface {
        failure := Some(ERR_PLAY_INTERFACE);
      } else if !o.queueInterface {
        failure := Some(ERR_QUEUE_INTERFACE);
      } else if !o.registerCallback {
        failure := Some(ERR_REGISTER_CALLBACK);
      } else if !o.startPlayback {
        failure := Some(ERR_START_PLAYBACK);
      }
      if failure.Some? {
        SetError(failure);
        live := live - 1;
        return false;
      }
      ok := true;
    }

    /** `dsd_audio_open_output`: initialises the engine if needed, allocates
        the stream, its four transfer buffers and a ring of two seconds,
        creates, realises and starts the player, prefills half the ring with
        silence and primes the four buffers with silence. Any failure before
        playback starts records its message, releases everything the stream
        had acquired and returns null. */
    method OpenOutput(sampleRate: nat, channels: nat, engineOutcomes: EngineOutcomes, o: OpenOutcomes)
      returns (s: Stream?)
      requires Valid() && sampleRate > 0 && channels > 0
      modifies this`initialized, this`engineObj, this`engine, this`outputMix, this`lastError, this`live
      ensures Valid()
      ensures s != null <==> (old(initialized) || InitFailure(engineOutcomes).None?) && OpenFailure(o).None?
      ensures s == null ==> live == old(live)
      ensures s != null ==> && fresh(s) && fresh(s.ring)
                            && live == old(live) + STREAM_RESOURCES
                            && StreamOpened(s, sampleRate, channels, o.silenceAlloc)
                            && lastError == old(lastError)
      ensures s != null ==> initialized && forall i :: 0 <= i < |s.buffers| ==> fresh(s.buffers[i])
      ensures old(initialized) ==> && initialized && engineObj == old(engineObj) && engine == old(engine)
                                   && outputMix == old(outputMix)
      ensures !old(initialized) && InitFailure(engineOutcomes).Some?
              ==> !initialized && lastError == TruncateError(InitFailure(engineOutcomes).value)
      ensures (old(initialized) || InitFailure(engineOutcomes).None?) && OpenFailure(o).Some?
              ==> initialized && lastError == TruncateError(OpenFailure(o).value)
    {
      if !initialized {
        var rc := Init(engineOutcomes);
        if rc != 0 {
          return null;
        }
      }
      s := OpenStream(sampleRate, channels, o);
    }

    /** The steps of `dsd_audio_open_output` once the engine is up. */
    method OpenStream(sampleRate: nat, channels: nat, o: OpenOutcomes) returns (s: Stream?)
      requires Valid() && sampleRate > 0 && channels > 0
      modifies this`lastError, this`live
      ensures Valid()
      ensures s != null <==> OpenFailure(o).None?
      ensures s == null ==> live == old(live) && lastError == TruncateError(OpenFailure(o).value)
      ensures s != null ==> && fresh(s) && fresh(s.ring)
                            && live == old(live) + STREAM_RESOURCES
                            && StreamOpened(s, sampleRate, channels, o.silenceAlloc)
                            && lastError == old(lastError)
      ensures s != null ==> forall i :: 0 <= i < |s.buffers| ==> fresh(s.buffers[i])
    {
      var acquired := AllocateStream(o);
      if !acquired {
        return null;
      }
      var stream := new Stream(sampleRate, channels, PcmFormatFor(sampleRate, channels));
      var playing := CreatePlayer(o);
      if !playing {
        // error: free the transfer buffers, the ring and the record.
        live := live - STREAM_ALLOCATIONS;
        return null;
      }
      StartStream(stream, sampleRate, channels, o.silenceAlloc);
      s := stream;
    }
  }

  /** The last steps of a successful `dsd_audio_open_output`: the stream is
      marked playing, half the ring is filled with silence when the scratch
      buffer can be allocated, and every transfer buffer is zeroed and handed
      to the player (a failed enqueue is only logged). */
  method StartStream(stream: Stream, sampleRate: nat, channels: nat, silenceAlloc: bool)
    requires stream.Valid() && stream.ringHead == 0 && stream.ringTail == 0 && stream.currentBuffer == 0
    requires stream.sampleRate == sampleRate && stream.channels == channels
    requires stream.ringSize == 2 * sampleRate && stream.bufferSize == AUDIO_BUFFER_FRAMES * channels * 2
    requires stream.format == PcmFormatFor(sampleRate, channels)
    modifies stream`isPlaying, stream`ringHead, stream.ring, stream.buffers
    ensures StreamOpened(stream, sampleRate, channels, silenceAlloc)
  {
    stream.isPlaying := true;
    var prefillFrames := stream.ringSize / 2;
    if silenceAlloc {
      var silence := seq(prefillFrames * stream.channels, _ => 0 as int16);
      stream.RingWrite(silence, prefillFrames);
      PrefillIsSilence(stream.ring[..], silence, stream.channels, stream.ringSize, prefillFrames);
      SlotOfCursor(prefillFrames, stream.ringSize);
      AvailableUnique(stream.ringHead, 0, stream.ringSize, prefillFrames);
    }
    ghost var q := stream.Readable();
    for b := 0 to AUDIO_BUFFER_COUNT
      invariant stream.Valid() && stream.Readable() == q && stream.isPlaying
      invariant forall c, k :: 0 <= c < b && 0 <= k < stream.buffers[c].Length ==> stream.buffers[c][k] == 0
    {
      var buf := stream.buffers[b];
      forall k | 0 <= k < buf.Length {
        buf[k] := 0;
      }
    }
  }

  /** Opening at 8000 Hz mono prefills 8000 silent frames, so after a
      write of 500 frames the first period the callback hands over is still
      silence: the written frames come out only behind the prefill. */
  lemma StartupPeriodIsPrefill(d: seq<Frame>)
    requires |d| == 500
    ensures Period(Newest(Silence(8000, 1) + d, 2 * 8000 - 1), AUDIO_BUFFER_FRAMES, 1)
         == Silence(AUDIO_BUFFER_FRAMES, 1)
  {
    PeriodAfterWrite(Silence(8000, 1), d, 2 * 8000 - 1, AUDIO_BUFFER_FRAMES, 1);
  }

  /** The prefill written into an empty ring reads back as silence. */
  lemma PrefillIsSilence(store: seq<int16>, zeros: seq<int16>, ch: nat, size: nat, n: nat)
    requires ch > 0 && size > 0 && |store| == size * ch && n < size
    requires zeros == seq(n * ch, _ => 0 as int16)
    requires Window(store, ch, size, 0, n)[n - Min(n, size)..] == FramesOf(zeros, ch, n)[n - Min(n, size)..]
    ensures Window(store, ch, size, 0, n) == Silence(n, ch)
  {
    FramesOfZeros(n, ch);
  }
}
