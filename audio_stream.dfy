/** The output stream of audio_android.c (`struct dsd_audio_stream`): a ring
    of interleaved 16-bit frames filled by the decoder through
    `dsd_audio_write` and drained one period at a time by the player
    callback into a pool of four transfer buffers. The mutex that serialises
    the producer and the callback is not modelled: each method is one
    critical section, run to completion. */
module AudioStream {
  import opened Arith
  import opened AudioRing

  /** `SLDataFormat_PCM`, as handed to `CreateAudioPlayer`. */
  datatype PcmFormat = PcmFormat(
    numChannels: nat,
    samplesPerSec: nat,   // an `SL_SAMPLINGRATE_*` constant, in milliHertz
    bitsPerSample: nat,
    containerSize: nat,
    channelMask: nat,
    littleEndian: bool)

  class Stream {
    const sampleRate: nat
    const channels: nat
    const format: PcmFormat

    /** The transfer-buffer pool and the slot the next callback fills. */
    const buffers: seq<array<int16>>
    const bufferSize: nat      // in bytes
    const bufferFrames: nat
    var currentBuffer: nat

    /** The ring: `ringSize` frame slots, head = write cursor, tail = read cursor. */
    const ring: array<int16>
    const ringSize: nat
    var ringHead: nat
    var ringTail: nat

    var isPlaying: bool

    ghost predicate Valid()
      reads this
    {
      && channels > 0
      && ringSize > 0
      && ring.Length == ringSize * channels
      && ringHead < ringSize
      && ringTail < ringSize
      && bufferFrames == AUDIO_BUFFER_FRAMES
      && bufferSize == bufferFrames * channels * 2
      && |buffers| == AUDIO_BUFFER_COUNT
      && (forall i :: 0 <= i < |buffers| ==> buffers[i].Length == bufferFrames * channels && buffers[i] != ring)
      && (forall i, j :: 0 <= i < j < |buffers| ==> buffers[i] != buffers[j])
      && currentBuffer < AUDIO_BUFFER_COUNT
    }

    /** `ring_available(s)`. */
    function Available(): nat
      reads this
      requires Valid()
    {
      RingAvailable(ringHead, ringTail, ringSize)
    }

    /** The frames written and not yet read, oldest first. */
    ghost function Readable(): seq<Frame>
      reads this, ring
      requires Valid()
    {
      Window(ring[..], channels, ringSize, ringTail, Available())
    }

    /** The zero-filled allocations of dsd_audio_open_output (the stream
        record, four transfer buffers of one period each, and a ring of
        `2 * sampleRate` frames), with both cursors at slot 0. */
    constructor (sampleRate: nat, channels: nat, format: PcmFormat)
      requires sampleRate > 0 && channels > 0
      ensures Valid() && fresh(ring)
      ensures forall i :: 0 <= i < |buffers| ==> fresh(buffers[i])
      ensures this.sampleRate == sampleRate && this.channels == channels && this.format == format
      ensures ringSize == 2 * sampleRate && ringHead == 0 && ringTail == 0 && Readable() == []
      ensures bufferFrames == AUDIO_BUFFER_FRAMES && bufferSize == AUDIO_BUFFER_FRAMES * channels * 2
      ensures currentBuffer == 0 && !isPlaying
      ensures forall k :: 0 <= k < ring.Length ==> ring[k] == 0
      ensures forall i, k :: 0 <= i < |buffers| && 0 <= k < buffers[i].Length ==> buffers[i][k] == 0
    {
      this.sampleRate := sampleRate;
      this.channels := channels;
      this.format := format;
      bufferFrames := AUDIO_BUFFER_FRAMES;
      bufferSize := AUDIO_BUFFER_FRAMES * channels * 2;
      var b0 := new int16[AUDIO_BUFFER_FRAMES * channels](_ => 0);
      var b1 := new int16[AUDIO_BUFFER_FRAMES * channels](_ => 0);
      var b2 := new int16[AUDIO_BUFFER_FRAMES * channels](_ => 0);
      var b3 := new int16[AUDIO_BUFFER_FRAMES * channels](_ => 0);
      buffers := [b0, b1, b2, b3];
      currentBuffer := 0;
      ringSize := 2 * sampleRate;
      ring := new int16[2 * sampleRate * channels](_ => 0);
      ringHead, ringTail := 0, 0;
      isPlaying := false;
    }

    /** `ring_write`: copies `frames` frames of `data` sample by sample from
        the head on, advancing the head after each full frame. The caller
        makes room first; the copy itself overwrites whatever it reaches, so
        of a write longer than the ring only the last `ringSize` frames
        remain, and slots it does not reach keep their frames. */
    method RingWrite(data: seq<int16>, frames: nat)
      requires Valid() && frames * channels <= |data|
      modifies this`ringHead, ring
      ensures Valid()
      ensures ringHead == Slot(old(ringHead), frames, ringSize)
      ensures Window(ring[..], channels, ringSize, old(ringHead), frames)[frames - Min(frames, ringSize)..]
           == FramesOf(data, channels, frames)[frames - Min(frames, ringSize)..]
      ensures Window(ring[..], channels, ringSize, ringHead, ringSize - Min(frames, ringSize))
           == Window(old(ring[..]), channels, ringSize, ringHead, ringSize - Min(frames, ringSize))
    {
      ghost var h0, before := ringHead, ring[..];
      var samples := frames * channels;
      var lap := ringSize * channels;
      var i := 0;
      SlotOfCursor(h0, ringSize);
      while i < samples
        invariant 0 <= i <= samples
        invariant ringHead == Slot(h0, i / channels, ringSize)
        invariant forall k :: 0 <= k < i && i <= k + lap ==>
                    ring[SamplePos(h0, k, channels, ringSize)] == data[k]
        invariant forall k :: i <= k < lap ==>
                    ring[SamplePos(h0, k, channels, ringSize)] == before[SamplePos(h0, k, channels, ringSize)]
      {
        ghost var p := SamplePos(h0, i, channels, ringSize);
        forall k | 0 <= k < i && i < k + lap ensures SamplePos(h0, k, channels, ringSize) != p {
          SamplePosInjective(h0, k, i, channels, ringSize);
        }
        forall k | i < k < lap ensures SamplePos(h0, k, channels, ringSize) != p {
          SamplePosInjective(h0, i, k, channels, ringSize);
        }
        SampleIndexInBounds(ringHead, i, channels, ringSize);
        assert ringHead * channels + i % channels == p;
        ring[ringHead * channels + (i % channels)] := data[i];
        DivStep(i, channels);
        if (i + 1) % channels == 0 {
          SlotShift(h0, i / channels, 1, ringSize);
          ringHead := (ringHead + 1) % ringSize;
        }
        i := i + 1;
      }
      DivModUnique(samples, channels, frames, 0);
      var m := Min(frames, ringSize);
      MulMono(frames - m, frames, channels);
      MulMono(m, ringSize, channels);
      WrittenFrames(ring[..], data, channels, ringSize, h0, frames);
      if frames < ringSize {
        MulMono(frames, ringSize, channels);
        UntouchedFrames(before, ring[..], channels, ringSize, h0, frames);
      }
    }

    /** `ring_read`: copies `frames` frames from the tail on into `buf`,
        advancing the tail after each full frame. Callers never ask for more
        than is available. */
    method RingRead(buf: array<int16>, frames: nat)
      requires Valid() && buf != ring
      requires frames <= Available() && frames * channels <= buf.Length
      modifies this`ringTail, buf
      ensures Valid()
      ensures ringTail == Slot(old(ringTail), frames, ringSize)
      ensures FramesOf(buf[..], channels, frames) == old(Readable())[..frames]
      ensures forall k :: frames * channels <= k < buf.Length ==> buf[k] == old(buf[k])
      ensures Available() == old(Available()) - frames
      ensures Readable() == old(Readable())[frames..]
    {
      ghost var t0, a0 := ringTail, Available();
      var samples := frames * channels;
      var i := 0;
      SlotOfCursor(t0, ringSize);
      while i < samples
        invariant 0 <= i <= samples
        invariant ringTail == Slot(t0, i / channels, ringSize)
        invariant forall k :: 0 <= k < i ==> buf[k] == ring[SamplePos(t0, k, channels, ringSize)]
        invariant forall k :: i <= k < buf.Length ==> buf[k] == old(buf[k])
      {
        SampleIndexInBounds(ringTail, i, channels, ringSize);
        assert ringTail * channels + i % channels == SamplePos(t0, i, channels, ringSize);
        buf[i] := ring[ringTail * channels + (i % channels)];
        DivStep(i, channels);
        if (i + 1) % channels == 0 {
          SlotShift(t0, i / channels, 1, ringSize);
          ringTail := (ringTail + 1) % ringSize;
        }
        i := i + 1;
      }
      DivModUnique(samples, channels, frames, 0);
      ReadFrames(ring[..], buf[..], channels, ringSize, t0, frames);
      SlotShift(t0, frames, a0 - frames, ringSize);
      AvailableUnique(ringHead, ringTail, ringSize, a0 - frames);
      WindowAdvance(ring[..], channels, ringSize, t0, a0, frames);
    }

    /** The locked body of `dsd_audio_write`: when the new frames do not fit,
        the tail skips the shortfall (the oldest frames are dropped), then all
        frames are written. The producer is never refused and never waits. */
    method Write(data: seq<int16>, frames: nat) returns (accepted: nat)
      requires Valid() && frames * channels <= |data|
      modifies this`ringHead, this`ringTail, ring
      ensures Valid() && accepted == frames
      ensures Available() == Min(old(Available()) + frames, ringSize - 1)
      ensures Readable() == Newest(old(Readable()) + FramesOf(data, channels, frames), ringSize - 1)
    {
      ghost var h0, t0, before := ringHead, ringTail, ring[..];
      var freeFrames := RingFree(ringHead, ringTail, ringSize);
      if freeFrames < frames {
        var framesToDrop := frames - freeFrames;
        ringTail := (ringTail + framesToDrop) % ringSize;
      }
      ghost var t1 := ringTail;
      RingWrite(data, frames);
      accepted := frames;
      WriteFillLevel(h0, t0, ringSize, frames, t1);
      WriteKeepsNewest(before, ring[..], data, channels, ringSize, h0, t0, frames, t1);
    }

    /** `player_callback`: fills the current transfer buffer with the next
        period of frames when a whole period is buffered; otherwise zeroes it
        and copies what there is to its front, emptying the ring. The buffer
        is then enqueued (a failure is only logged) and the pool index moves
        on round-robin either way. */
    method PlayerCallback(enqueueOk: bool)
      requires Valid()
      modifies this`ringTail, this`currentBuffer, buffers[currentBuffer]
      ensures Valid()
      ensures currentBuffer == (old(currentBuffer) + 1) % AUDIO_BUFFER_COUNT
      ensures FramesOf(buffers[old(currentBuffer)][..], channels, bufferFrames)
           == Period(old(Readable()), bufferFrames, channels)
      ensures Available() == old(Available()) - Min(old(Available()), bufferFrames)
      ensures Readable() == old(Readable())[Min(old(Available()), bufferFrames)..]
    {
      var buf := buffers[currentBuffer];
      var framesToRead := bufferFrames;
      var available := RingAvailable(ringHead, ringTail, ringSize);
      ghost var q := Readable();
      if available >= framesToRead {
        RingRead(buf, framesToRead);
        assert Period(q, bufferFrames, channels) == q[..bufferFrames] + [];
      } else {
        // memset(buf, 0, buffer_size)
        forall k | 0 <= k < buf.Length {
          buf[k] := 0;
        }
        if available > 0 {
          RingRead(buf, available);
        }
        PaddedFrames(buf[..], channels, available, bufferFrames, q);
      }
      // A failed Enqueue (`enqueueOk` false) is only logged: the next period
      // is requested regardless.
      currentBuffer := (currentBuffer + 1) % AUDIO_BUFFER_COUNT;
    }
  }

  /** `dsd_audio_write`: a null stream, a null buffer or zero frames is a
      no-op returning 0; otherwise all frames are accepted. */
  method AudioWrite(stream: Stream?, buffer: array?<int16>, frames: nat) returns (r: int)
    requires stream != null ==> stream.Valid()
    requires stream != null && buffer != null ==> frames * stream.channels <= buffer.Length
    modifies if stream != null then {stream, stream.ring} else {}
    ensures stream == null || buffer == null || frames == 0 ==> r == 0
    ensures stream != null && (buffer == null || frames == 0) ==> unchanged(stream) && unchanged(stream.ring)
    ensures stream != null ==> stream.Valid()
    ensures stream != null ==> stream.currentBuffer == old(stream.currentBuffer) && stream.isPlaying == old(stream.isPlaying)
    ensures stream != null && buffer != null && frames > 0 ==>
              && r == frames
              && stream.Available() == Min(old(stream.Available()) + frames, stream.ringSize - 1)
              && stream.Readable()
                 == Newest(old(stream.Readable()) + FramesOf(old(buffer[..]), stream.channels, frames), stream.ringSize - 1)
  {
    if stream == null || buffer == null || frames == 0 {
      return 0;
    }
    var accepted := stream.Write(buffer[..], frames);
    r := accepted;
  }
}
