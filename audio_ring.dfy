/** The ring buffer of audio_android.c, on values: the cursor arithmetic of
    `ring_available` and `ring_free`, the sample index used by `ring_write` and
    `ring_read`, and the frame-level views in which the stream's contracts are
    stated. Cursors count frames; the storage holds `ring_size * channels`
    interleaved 16-bit samples. */
module AudioRing {
  import opened Arith

  /** `int16_t`: one PCM sample. */
  newtype int16 = x: int | -0x8000 <= x < 0x8000

  /** `AUDIO_BUFFER_COUNT`: transfer buffers handed round-robin to the player. */
  const AUDIO_BUFFER_COUNT: nat := 4
  /** `AUDIO_BUFFER_FRAMES`: frames per transfer buffer (one period). */
  const AUDIO_BUFFER_FRAMES: nat := 256

  /** One sample per channel at one instant. */
  type Frame = seq<int16>

  function Min(a: int, b: int): int { if a <= b then a else b }

  /** The frame slot `offset` frames after `base`, modulo the ring size. */
  function Slot(base: int, offset: int, size: nat): (s: nat)
    requires size > 0
    ensures s < size
  {
    (base + offset) % size
  }

  lemma SlotShift(base: int, x: int, y: int, size: nat)
    requires size > 0
    ensures Slot(Slot(base, x, size), y, size) == Slot(base, x + y, size)
  {
    ModOfSum(base + x, y, size);
  }

  lemma SlotWrap(base: int, x: int, size: nat)
    requires size > 0
    ensures Slot(base, x + size, size) == Slot(base, x, size)
  {
    ModAddMultiple(base + x, 1, size);
  }

  lemma SlotOfCursor(cursor: nat, size: nat)
    requires cursor < size
    ensures Slot(cursor, 0, size) == cursor
  {
    DivModUnique(cursor, size, 0, cursor);
  }

  /** `ring_available`: the frames written and not yet read. It is the
      distance from the read cursor forward to the write cursor, so it is
      below the ring size and moving the tail by it lands on the head. */
  function RingAvailable(head: nat, tail: nat, size: nat): (r: nat)
    requires head < size && tail < size
    ensures r < size
    ensures Slot(tail, r, size) == head
  {
    if head >= tail then
      SlotOfCursor(head, size);
      head - tail
    else
      SlotWrap(head, 0, size);
      SlotOfCursor(head, size);
      size - tail + head
  }

  /** The distance from tail to head is determined by the cursors: any
      count below the ring size that carries the tail onto the head is the
      available count. */
  lemma AvailableUnique(head: nat, tail: nat, size: nat, a: nat)
    requires head < size && tail < size && a < size
    requires Slot(tail, a, size) == head
    ensures RingAvailable(head, tail, size) == a
  {
    var r := RingAvailable(head, tail, size);
    SlotValue(tail, r, size);
    SlotValue(tail, a, size);
  }

  lemma SlotValue(tail: nat, a: nat, size: nat)
    requires tail < size && a < size
    ensures tail + a < size ==> Slot(tail, a, size) == tail + a
    ensures tail + a >= size ==> Slot(tail, a, size) == tail + a - size
  {
    if tail + a < size {
      DivModUnique(tail + a, size, 0, tail + a);
    } else {
      DivModUnique(tail + a, size, 1, tail + a - size);
    }
  }

  /** `ring_free`: one slot is kept empty so that a full ring and an empty
      ring have different cursors. Available plus free is ring_size - 1, and
      writing `free` frames would leave the head one slot short of the tail. */
  function RingFree(head: nat, tail: nat, size: nat): (r: nat)
    requires head < size && tail < size
    ensures r + RingAvailable(head, tail, size) == size - 1
    ensures Slot(head, r + 1, size) == tail
  {
    var a := RingAvailable(head, tail, size);
    SlotShift(tail, a, size - a, size);
    SlotWrap(tail, 0, size);
    SlotOfCursor(tail, size);
    size - a - 1
  }

  /** Array-index safety of `cursor * channels + (i % channels)`, the index
      ring_write stores to and ring_read loads from. */
  lemma SampleIndexInBounds(cursor: nat, i: nat, ch: nat, size: nat)
    requires ch > 0 && cursor < size
    ensures cursor * ch + i % ch < size * ch
  {
    MulMono(cursor + 1, size, ch);
  }

  /** Where sample `k` of a transfer that starts at frame slot `base` lives:
      the cursor has advanced `k / ch` times, the channel is `k % ch`. */
  function SamplePos(base: nat, k: nat, ch: nat, size: nat): (p: nat)
    requires ch > 0 && size > 0
    ensures p < size * ch
  {
    SampleIndexInBounds(Slot(base, k / ch, size), k, ch, size);
    Slot(base, k / ch, size) * ch + k % ch
  }

  lemma SamplePosOfFrame(base: nat, f: nat, c: nat, ch: nat, size: nat)
    requires c < ch && size > 0
    ensures SamplePos(base, f * ch + c, ch, size) == Slot(base, f, size) * ch + c
  {
    DivModUnique(f * ch + c, ch, f, c);
  }

  /** Fewer than `size * ch` samples apart, two samples of one transfer go to
      different storage cells: nothing is overwritten within one lap. */
  lemma SamplePosInjective(base: nat, k: nat, j: nat, ch: nat, size: nat)
    requires ch > 0 && size > 0 && k < j < k + size * ch
    ensures SamplePos(base, k, ch, size) != SamplePos(base, j, ch, size)
  {
    var s1, s2 := Slot(base, k / ch, size), Slot(base, j / ch, size);
    if SamplePos(base, k, ch, size) == SamplePos(base, j, ch, size) {
      DivModUnique(s1 * ch + k % ch, ch, s1, k % ch);
      DivModUnique(s2 * ch + j % ch, ch, s2, j % ch);
      var d := j / ch - k / ch;
      assert j - k == d * ch;
      if d <= 0 {
        MulMono(d, 0, ch);
        assert false;
      }
      if d >= size {
        MulMono(size, d, ch);
        assert false;
      }
      SlotShift(base, k / ch, d, size);
      SlotValue(s1, d, size);
      assert false;
    }
  }

  /** Frame slot `s` of interleaved storage. */
  function FrameIn(store: seq<int16>, ch: nat, s: nat): (f: Frame)
    requires s * ch + ch <= |store|
    ensures |f| == ch
  {
    store[s * ch .. s * ch + ch]
  }

  /** The first `n` frames of an interleaved buffer. */
  function FramesOf(store: seq<int16>, ch: nat, n: nat): seq<Frame>
    requires n * ch <= |store|
  {
    seq(n, f requires 0 <= f < n =>
      assert f * ch + ch <= |store| by { MulMono(f + 1, n, ch); }
      FrameIn(store, ch, f))
  }

  /** `n` consecutive frame slots of ring storage starting at slot `start`,
      wrapping at the ring size. */
  function Window(store: seq<int16>, ch: nat, size: nat, start: nat, n: nat): seq<Frame>
    requires ch > 0 && size > 0 && |store| == size * ch
  {
    seq(n, j requires 0 <= j < n =>
      assert Slot(start, j, size) * ch + ch <= |store| by { MulMono(Slot(start, j, size) + 1, size, ch); }
      FrameIn(store, ch, Slot(start, j, size)))
  }

  /** `n` frames of zero samples. */
  function Silence(n: nat, ch: nat): seq<Frame>
  {
    seq(n, _ => seq(ch, _ => 0 as int16))
  }

  /** What a ring of `cap` usable slots keeps of the queue `q`: its newest
      `cap` frames, in order. */
  function Newest(q: seq<Frame>, cap: nat): (r: seq<Frame>)
    ensures |r| == Min(|q|, cap)
    ensures forall j :: 0 <= j < |r| ==> r[j] == q[|q| - |r| + j]
  {
    if |q| <= cap then q else q[|q| - cap..]
  }

  /** One transfer buffer as the player callback fills it: the next frames
      of the queue, up to `period`, then silence up to `period`. */
  function Period(q: seq<Frame>, period: nat, ch: nat): (r: seq<Frame>)
    ensures |r| == period
  {
    var n := Min(|q|, period);
    q[..n] + Silence(period - n, ch)
  }

  // ---------------------------------------------------------------------
  // Queue-level properties of the drop-oldest and zero-padding policies.

  /** Writing never loses the newest frames: after appending `d`, the last
      `Min(|d|, cap)` frames the ring keeps are the newest frames of `d`, in
      order, and nothing is dropped while the total fits. */
  lemma NewestKeepsWrite(q: seq<Frame>, d: seq<Frame>, cap: nat)
    ensures var r, m := Newest(q + d, cap), Min(|d|, cap);
            r[|r| - m..] == d[|d| - m..]
    ensures |q| + |d| <= cap ==> Newest(q + d, cap) == q + d
  {
    var r, m := Newest(q + d, cap), Min(|d|, cap);
    forall i | |r| - m <= i < |r| ensures r[i] == d[|d| - |r| + i] {
      assert r[i] == (q + d)[|q| + |d| - |r| + i];
    }
  }

  /** FIFO order across a write and the reads that follow: once the frames
      queued before the write have been consumed, the next frames out are
      the written ones, in the order given. */
  lemma FifoAfterWrite(q: seq<Frame>, d: seq<Frame>, cap: nat)
    requires |q| + |d| <= cap
    ensures Newest(q + d, cap)[|q|..] == d
  {
    NewestKeepsWrite(q, d, cap);
  }

  /** Zero padding on underflow: the frames handed over are the queue's
      first frames in order, and every frame past the queue's end is silent. */
  lemma PeriodContents(q: seq<Frame>, period: nat, ch: nat, f: nat)
    requires f < period
    ensures f < |q| ==> Period(q, period, ch)[f] == q[f]
    ensures f >= |q| ==> Period(q, period, ch)[f] == seq(ch, _ => 0 as int16)
  {
    var n := Min(|q|, period);
    if f >= n {
      assert Period(q, period, ch)[f] == Silence(period - n, ch)[f - n];
    }
  }

  /** The callback drains in FIFO order: when at least a period was queued
      before a write that fits, the next period handed over is the oldest
      queued frames, not the written ones. */
  lemma PeriodAfterWrite(q: seq<Frame>, d: seq<Frame>, cap: nat, period: nat, ch: nat)
    requires period <= |q| && |q| + |d| <= cap
    ensures Period(Newest(q + d, cap), period, ch) == q[..period]
  {
    NewestKeepsWrite(q, d, cap);
    assert Silence(0, ch) == [];
    assert (q + d)[..period] == q[..period];
  }

  // ---------------------------------------------------------------------
  // From sample-level loop facts to frame-level views. Each frame equality
  // is proved one sample at a time, with the products kept in small lemmas.

  lemma FrameFits(f: nat, n: nat, ch: nat, c: nat)
    requires f < n && c < ch
    ensures f * ch + ch <= n * ch
    ensures f * ch + c < n * ch
  {
    MulMono(f + 1, n, ch);
  }

  lemma FrameSample(store: seq<int16>, ch: nat, s: nat, c: nat)
    requires s * ch + ch <= |store| && c < ch
    ensures FrameIn(store, ch, s)[c] == store[s * ch + c]
  {
  }

  lemma FramesOfZeros(n: nat, ch: nat)
    ensures FramesOf(seq(n * ch, _ => 0 as int16), ch, n) == Silence(n, ch)
  {
    var z := seq(n * ch, _ => 0 as int16);
    forall f | 0 <= f < n ensures FramesOf(z, ch, n)[f] == Silence(n, ch)[f] {
      MulMono(f + 1, n, ch);
    }
  }

  /** A transfer buffer that was zeroed and then received `n` frames holds,
      seen as `period` frames, those frames followed by silence. */
  lemma PaddedFrames(buf: seq<int16>, ch: nat, n: nat, period: nat, q: seq<Frame>)
    requires n <= period && period * ch <= |buf|
    requires n * ch <= |buf| && FramesOf(buf, ch, n) == q
    requires forall k :: n * ch <= k < period * ch ==> buf[k] == 0
    ensures FramesOf(buf, ch, period) == q + Silence(period - n, ch)
  {
    var got, want := FramesOf(buf, ch, period), q + Silence(period - n, ch);
    forall f | 0 <= f < period ensures got[f] == want[f] {
      if f < n {
        assert got[f] == FramesOf(buf, ch, n)[f];
      } else {
        forall c | 0 <= c < ch ensures got[f][c] == 0 {
          FrameFits(f, period, ch, c);
          MulMono(n, f, ch);
          FrameSample(buf, ch, f, c);
        }
      }
    }
  }

  /** Where sample `c` of frame `f` sits: below `n * ch` in a buffer of `n`
      frames, and in cell `slot * ch + c` of the ring. */
  lemma FrameIndex(start: nat, f: nat, c: nat, ch: nat, size: nat, n: nat)
    requires f < n && c < ch && size > 0
    ensures f * ch + c < n * ch && f * ch + ch <= n * ch
    ensures Slot(start, f, size) * ch + ch <= size * ch
    ensures SamplePos(start, f * ch + c, ch, size) == Slot(start, f, size) * ch + c
  {
    FrameFits(f, n, ch, c);
    FrameFits(Slot(start, f, size), size, ch, c);
    SamplePosOfFrame(start, f, c, ch, size);
  }

  /** One sample copied from the ring lands in the frame it belongs to. */
  lemma ReadSample(store: seq<int16>, buf: seq<int16>, ch: nat, size: nat, start: nat, n: nat, f: nat, c: nat)
    requires ch > 0 && size > 0 && |store| == size * ch && n * ch <= |buf| && f < n && c < ch
    requires forall k :: 0 <= k < n * ch ==> buf[k] == store[SamplePos(start, k, ch, size)]
    ensures f * ch + ch <= |buf| && Slot(start, f, size) * ch + ch <= |store|
    ensures FrameIn(buf, ch, f)[c] == FrameIn(store, ch, Slot(start, f, size))[c]
  {
    FrameIndex(start, f, c, ch, size, n);
    var k, s := f * ch + c, Slot(start, f, size);
    assert buf[k] == store[s * ch + c];
    FrameSample(buf, ch, f, c);
    FrameSample(store, ch, s, c);
  }

  /** Samples copied into a transfer buffer from consecutive ring positions
      form the frames of the ring window they came from. */
  lemma ReadFrames(store: seq<int16>, buf: seq<int16>, ch: nat, size: nat, start: nat, n: nat)
    requires ch > 0 && size > 0 && |store| == size * ch && n * ch <= |buf|
    requires forall k :: 0 <= k < n * ch ==> buf[k] == store[SamplePos(start, k, ch, size)]
    ensures FramesOf(buf, ch, n) == Window(store, ch, size, start, n)
  {
    var got, want := FramesOf(buf, ch, n), Window(store, ch, size, start, n);
    forall f | 0 <= f < n ensures got[f] == want[f] {
      forall c | 0 <= c < ch ensures got[f][c] == want[f][c] {
        ReadSample(store, buf, ch, size, start, n, f, c);
      }
    }
  }

  /** One sample of a frame that no later frame of the same write overwrote. */
  lemma WrittenSample(store: seq<int16>, data: seq<int16>, ch: nat, size: nat, start: nat, frames: nat, f: nat, c: nat)
    requires ch > 0 && size > 0 && |store| == size * ch && frames * ch <= |data|
    requires f < frames <= f + size && c < ch
    requires forall k :: 0 <= k < frames * ch && frames * ch <= k + size * ch ==>
               store[SamplePos(start, k, ch, size)] == data[k]
    ensures f * ch + ch <= |data| && Slot(start, f, size) * ch + ch <= |store|
    ensures FrameIn(store, ch, Slot(start, f, size))[c] == FrameIn(data, ch, f)[c]
  {
    FrameIndex(start, f, c, ch, size, frames);
    LastLap(f, frames, c, ch, size);
    var k, s := f * ch + c, Slot(start, f, size);
    assert 0 <= k < frames * ch && frames * ch <= k + size * ch;
    assert store[SamplePos(start, k, ch, size)] == data[k];
    FrameSample(data, ch, f, c);
    FrameSample(store, ch, s, c);
  }

  /** A frame among the last `size` of a write lies in the write's last lap. */
  lemma LastLap(f: nat, frames: nat, c: nat, ch: nat, size: nat)
    requires frames <= f + size
    ensures frames * ch <= f * ch + c + size * ch
  {
    MulMono(frames, f + size, ch);
    assert (f + size) * ch == f * ch + size * ch;
  }

  /** The frames a write leaves in the ring: of `frames` frames written from
      slot `start`, the last `Min(frames, size)` sit in their slots. */
  lemma WrittenFrames(store: seq<int16>, data: seq<int16>, ch: nat, size: nat, start: nat, frames: nat)
    requires ch > 0 && size > 0 && |store| == size * ch && frames * ch <= |data|
    requires forall k :: 0 <= k < frames * ch && frames * ch <= k + size * ch ==>
               store[SamplePos(start, k, ch, size)] == data[k]
    ensures var m := Min(frames, size);
            Window(store, ch, size, start, frames)[frames - m..] == FramesOf(data, ch, frames)[frames - m..]
  {
    var m := Min(frames, size);
    var w, d := Window(store, ch, size, start, frames), FramesOf(data, ch, frames);
    forall f | frames - m <= f < frames ensures w[f] == d[f] {
      forall c | 0 <= c < ch ensures w[f][c] == d[f][c] {
        WrittenSample(store, data, ch, size, start, frames, f, c);
      }
    }
  }

  /** One sample of a slot the write did not reach. */
  lemma UntouchedSample(before: seq<int16>, after: seq<int16>, ch: nat, size: nat, start: nat, frames: nat, j: nat, c: nat)
    requires ch > 0 && size > 0 && |before| == size * ch == |after| && frames + j < size && c < ch
    requires forall k :: frames * ch <= k < size * ch ==>
               after[SamplePos(start, k, ch, size)] == before[SamplePos(start, k, ch, size)]
    ensures Slot(start, frames + j, size) * ch + ch <= size * ch
    ensures FrameIn(after, ch, Slot(start, frames + j, size))[c] == FrameIn(before, ch, Slot(start, frames + j, size))[c]
  {
    FrameIndex(start, frames + j, c, ch, size, size);
    MulMono(frames, frames + j, ch);
    var k, s := (frames + j) * ch + c, Slot(start, frames + j, size);
    assert after[s * ch + c] == before[s * ch + c];
    FrameSample(after, ch, s, c);
    FrameSample(before, ch, s, c);
  }

  /** Slots a write of at most `size` frames did not reach keep their frames. */
  lemma UntouchedFrames(before: seq<int16>, after: seq<int16>, ch: nat, size: nat, start: nat, frames: nat)
    requires ch > 0 && size > 0 && |before| == size * ch == |after| && frames <= size
    requires forall k :: frames * ch <= k < size * ch ==>
               after[SamplePos(start, k, ch, size)] == before[SamplePos(start, k, ch, size)]
    ensures Window(after, ch, size, Slot(start, frames, size), size - frames)
         == Window(before, ch, size, Slot(start, frames, size), size - frames)
  {
    var s := Slot(start, frames, size);
    var wa, wb := Window(after, ch, size, s, size - frames), Window(before, ch, size, s, size - frames);
    forall j | 0 <= j < size - frames ensures wa[j] == wb[j] {
      SlotShift(start, frames, j, size);
      forall c | 0 <= c < ch ensures wa[j][c] == wb[j][c] {
        UntouchedSample(before, after, ch, size, start, frames, j, c);
      }
    }
  }

  /** Consuming `k` frames from the front of a window is the window that
      starts `k` slots later. */
  lemma WindowAdvance(store: seq<int16>, ch: nat, size: nat, start: nat, n: nat, k: nat)
    requires ch > 0 && size > 0 && |store| == size * ch && k <= n
    ensures Window(store, ch, size, Slot(start, k, size), n - k) == Window(store, ch, size, start, n)[k..]
  {
    var w1, w0 := Window(store, ch, size, Slot(start, k, size), n - k), Window(store, ch, size, start, n);
    forall j | 0 <= j < n - k ensures w1[j] == w0[k + j] {
      SlotShift(start, k, j, size);
    }
  }

  // ---------------------------------------------------------------------
  // The overflow policy of dsd_audio_write.

  /** The cursor bookkeeping of dsd_audio_write: after moving the tail past
      the frames that do not fit and writing all `frames` frames, the fill
      level is `min(old + frames, size - 1)`. */
  lemma WriteFillLevel(h0: nat, t0: nat, size: nat, frames: nat, t1: nat)
    requires h0 < size && t0 < size
    requires t1 == if frames <= RingFree(h0, t0, size) then t0
                   else Slot(t0, frames - RingFree(h0, t0, size), size)
    ensures t1 < size
    ensures RingAvailable(Slot(h0, frames, size), t1, size)
         == Min(RingAvailable(h0, t0, size) + frames, size - 1)
  {
    var a0, free := RingAvailable(h0, t0, size), RingFree(h0, t0, size);
    var a1 := Min(a0 + frames, size - 1);
    SlotShift(t0, a0, frames, size);
    if frames > free {
      SlotShift(t0, frames - free, size - 1, size);
    }
    AvailableUnique(Slot(h0, frames, size), t1, size, a1);
  }

  /** Frame `j` of what is readable after dsd_audio_write. */
  lemma WriteKeepsFrame(before: seq<int16>, after: seq<int16>, data: seq<int16>, ch: nat, size: nat,
                        h0: nat, t0: nat, frames: nat, t1: nat, j: nat)
    requires ch > 0 && size > 0 && |before| == size * ch == |after| && frames * ch <= |data|
    requires h0 < size && t0 < size
    requires t1 == if frames <= RingFree(h0, t0, size) then t0
                   else Slot(t0, frames - RingFree(h0, t0, size), size)
    requires var m := Min(frames, size);
             Window(after, ch, size, h0, frames)[frames - m..] == FramesOf(data, ch, frames)[frames - m..]
    requires Window(after, ch, size, Slot(h0, frames, size), size - Min(frames, size))
          == Window(before, ch, size, Slot(h0, frames, size), size - Min(frames, size))
    requires j < Min(RingAvailable(h0, t0, size) + frames, size - 1)
    ensures var a0 := RingAvailable(h0, t0, size);
            var q := Window(before, ch, size, t0, a0) + FramesOf(data, ch, frames);
            Window(after, ch, size, t1, Min(a0 + frames, size - 1))[j]
              == q[a0 + frames - Min(a0 + frames, size - 1) + j]
  {
    var a0, free := RingAvailable(h0, t0, size), RingFree(h0, t0, size);
    var a1, m := Min(a0 + frames, size - 1), Min(frames, size);
    var q := Window(before, ch, size, t0, a0) + FramesOf(data, ch, frames);
    var e: int := j + frames - a1;
    // The slot read as frame j is e slots past the old head.
    SlotShift(t0, a0, e, size);
    if frames > free {
      SlotShift(t0, frames - free, j, size);
    }
    assert Slot(t1, j, size) == Slot(h0, e, size);
    if e >= 0 {
      assert Window(after, ch, size, h0, frames)[frames - m..][e - (frames - m)]
          == FramesOf(data, ch, frames)[frames - m..][e - (frames - m)];
      assert q[a0 + e] == FramesOf(data, ch, frames)[e];
    } else {
      var d := e + size - frames;
      SlotWrap(h0, e, size);
      SlotShift(h0, frames, d, size);
      assert Window(after, ch, size, Slot(h0, frames, size), size - m)[d]
          == Window(before, ch, size, Slot(h0, frames, size), size - m)[d];
      assert q[a0 + e] == Window(before, ch, size, t0, a0)[a0 + e];
    }
  }

  /** What dsd_audio_write leaves readable: the newest `size - 1` frames of
      the old readable content followed by the written frames, in order. */
  lemma WriteKeepsNewest(before: seq<int16>, after: seq<int16>, data: seq<int16>, ch: nat, size: nat,
                         h0: nat, t0: nat, frames: nat, t1: nat)
    requires ch > 0 && size > 0 && |before| == size * ch == |after| && frames * ch <= |data|
    requires h0 < size && t0 < size
    requires t1 == if frames <= RingFree(h0, t0, size) then t0
                   else Slot(t0, frames - RingFree(h0, t0, size), size)
    requires var m := Min(frames, size);
             Window(after, ch, size, h0, frames)[frames - m..] == FramesOf(data, ch, frames)[frames - m..]
    requires Window(after, ch, size, Slot(h0, frames, size), size - Min(frames, size))
          == Window(before, ch, size, Slot(h0, frames, size), size - Min(frames, size))
    ensures var a0 := RingAvailable(h0, t0, size);
            Window(after, ch, size, t1, Min(a0 + frames, size - 1))
              == Newest(Window(before, ch, size, t0, a0) + FramesOf(data, ch, frames), size - 1)
  {
    var a0 := RingAvailable(h0, t0, size);
    var a1 := Min(a0 + frames, size - 1);
    var w := Window(after, ch, size, t1, a1);
    var n := Newest(Window(before, ch, size, t0, a0) + FramesOf(data, ch, frames), size - 1);
    forall j | 0 <= j < a1 ensures w[j] == n[j] {
      WriteKeepsFrame(before, after, data, ch, size, h0, t0, frames, t1, j);
    }
  }
}
