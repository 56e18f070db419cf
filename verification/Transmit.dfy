/** Sending one frame (src/port.c:1226-1279): the chunks the worker cuts, what the device is told, and what the
device should see of it. */
module Transmit {
  import opened Sequences
  import opened Frames

  const TX_FIFO_SIZE: nat := 100_000

  /** The room for one transfer: one byte less than the FIFO, rounded down to whole words. */
  const CHUNK: nat := 99_996

  /** One visit of the worker to the device: a transfer that may fail, the frame length if it is written,
  and the transmit command. */
  datatype Attempt = Attempt(chunk: seq<byte>, submitted: bool, frameLength: Option<nat>)

  /** The frame afterwards, the visit if there was one, and the result: 0 nothing, 1 more to send, 2 finished. */
  datatype Sent = Sent(frame: FrameValue, attempt: Option<Attempt>, result: nat)

  function ChunkLength(f: FrameValue): nat {
    Min(RoundUp4(f.length), CHUNK)
  }

  /** The visit the worker makes for a frame that has data. */
  function NextAttempt(f: FrameValue, submitted: bool): Attempt
    requires f.Valid()
  {
    Attempt(f.buffer[..ChunkLength(f)], submitted, if f.length == f.frameSize then Some(f.frameSize) else None)
  }

  /** A failed submission keeps the bytes, but the length and the transmit command are written all the same. */
  function TransmitFrame(f: FrameValue, submitted: bool): (s: Sent)
    requires f.Valid()
    ensures s.frame.Valid() && s.frame.frameSize == f.frameSize
  {
    if f.length == 0 then Sent(f, None, 0)
    else
      var g := if submitted then f.Removed(ChunkLength(f)) else f;
      Sent(g, Some(NextAttempt(f, submitted)), if g.length != 0 then 1 else 2)
  }

  /** The visits still to be made for a frame. */
  function Future(f: FrameValue): seq<Attempt>
    requires f.Valid()
    decreases f.length
  {
    if f.length == 0 then [] else [NextAttempt(f, true)] + Future(f.Removed(ChunkLength(f)))
  }

  // What the device should see of a frame, position by position.

  /** Past the end of the data: zeros in the first chunk, afterwards what the previous chunk left behind. */
  function PaddedByte(data: seq<byte>, p: nat): byte
    requires p < |data| + 4
  {
    if p < |data| then data[p] else if p < CHUNK then 0 else data[p - CHUNK]
  }

  function Padded(data: seq<byte>): (bytes: seq<byte>)
    ensures |bytes| == RoundUp4(|data|)
  {
    seq(RoundUp4(|data|), p requires 0 <= p < RoundUp4(|data|) => PaddedByte(data, p))
  }

  /** The visits from an offset on: successive chunks of the padded data, the length with the first. */
  function Ideal(data: seq<byte>, offset: nat): seq<Attempt>
    decreases |data| - offset
  {
    if offset >= |data| then []
    else
      [Attempt(Padded(data)[offset..Min(offset + CHUNK, RoundUp4(|data|))], true,
               if offset == 0 then Some(|data|) else None)]
      + Ideal(data, offset + CHUNK)
  }

  /** A frame whose copy from the user succeeded. */
  function NewFrame(data: seq<byte>): (f: FrameValue)
    ensures f.Valid() && f.length == f.frameSize == |data|
  {
    FrameValue([], 0, 0).Added(data).(frameSize := |data|)
  }

  /** The frame has sent everything before the offset: its data is the rest, and the bytes that pad its last word
  are the ones the device should see. */
  predicate SentUpTo(f: FrameValue, data: seq<byte>, offset: nat) {
    && f.Valid() && offset <= |data| && f.length == |data| - offset && f.frameSize == |data|
    && |f.buffer| == RoundUp4(|data|) && offset % 4 == 0
    && (forall j :: 0 <= j < f.length ==> f.buffer[j] == data[offset + j])
    && (f.length <= CHUNK ==>
          forall j :: f.length <= j < RoundUp4(f.length) ==> f.buffer[j] == PaddedByte(data, offset + j))
  }

  lemma NewFrameBuffer(data: seq<byte>)
    requires data != []
    ensures NewFrame(data).buffer == data + Zeros(RoundUp4(|data|) - |data|)
  {
    var zeros := Zeros(RoundUp4(|data|));
    assert FrameValue([], 0, 0).Grown(|data|).buffer == zeros;
    assert zeros[..0] + data + zeros[|data|..] == data + Zeros(RoundUp4(|data|) - |data|);
  }

  lemma NewFrameUnsent(data: seq<byte>)
    requires data != []
    ensures SentUpTo(NewFrame(data), data, 0)
  {
    NewFrameBuffer(data);
    hide FrameValue.Added;
    RoundUp4Bound(|data|);
  }

  lemma RoundUp4Shift(a: nat, k: nat)
    requires a % 4 == 0
    ensures RoundUp4(a + k) == a + RoundUp4(k)
  {
  }

  /** Whole words: what fits a transfer still fits it after rounding up. */
  lemma RoundUp4Bound(k: nat)
    ensures k <= CHUNK <==> RoundUp4(k) <= CHUNK
  {
  }

  lemma NextChunk(f: FrameValue, data: seq<byte>, offset: nat)
    requires SentUpTo(f, data, offset) && f.length > 0
    ensures f.buffer[..ChunkLength(f)] == Padded(data)[offset..Min(offset + CHUNK, RoundUp4(|data|))]
  {
    var end := Min(offset + CHUNK, RoundUp4(|data|));
    RoundUp4Shift(offset, f.length);
    RoundUp4Bound(f.length);
    hide RoundUp4;
    forall j | 0 <= j < ChunkLength(f) ensures f.buffer[j] == Padded(data)[offset..end][j] {
      assert Padded(data)[offset + j] == PaddedByte(data, offset + j);
    }
  }

  lemma ChunkRemoved(f: FrameValue, data: seq<byte>, offset: nat)
    requires SentUpTo(f, data, offset) && f.length > CHUNK
    ensures SentUpTo(f.Removed(CHUNK), data, offset + CHUNK)
  {
    var g := f.Removed(CHUNK);
    ChunkMoved(f, data, offset);
    assert |g.buffer| == RoundUp4(|data|) && g.Valid();
    hide FrameValue.Removed;
    forall j | g.length <= j < RoundUp4(g.length) && g.length <= CHUNK
      ensures g.buffer[j] == PaddedByte(data, offset + CHUNK + j)
    {
      assert j < f.length && g.buffer[j] == f.buffer[j] == data[offset + j];
    }
  }

  /** The rest moves to the front, and behind it everything stays. */
  lemma ChunkMoved(f: FrameValue, data: seq<byte>, offset: nat)
    requires SentUpTo(f, data, offset) && f.length > CHUNK
    ensures var g := f.Removed(CHUNK);
            && g.length == f.length - CHUNK && g.frameSize == f.frameSize && |g.buffer| == |f.buffer|
            && (forall j :: 0 <= j < g.length ==> g.buffer[j] == data[offset + CHUNK + j])
            && (forall j :: g.length <= j < |f.buffer| ==> g.buffer[j] == f.buffer[j])
  {
    hide RoundUp4, PaddedByte;
    var g := f.Removed(CHUNK);
    assert g.buffer == f.buffer[CHUNK..f.length] + f.buffer[f.length - CHUNK..];
  }

  /** What a frame still has to send is what the device should still see. */
  lemma {:induction false} FutureIsIdeal(f: FrameValue, data: seq<byte>, offset: nat)
    requires SentUpTo(f, data, offset)
    ensures Future(f) == Ideal(data, offset)
    decreases f.length
  {
    if f.length > 0 {
      NextChunk(f, data, offset);
      if f.length > CHUNK {
        ChunkRemoved(f, data, offset);
        FutureIsIdeal(f.Removed(CHUNK), data, offset + CHUNK);
      } else {
        assert f.Removed(ChunkLength(f)).length == 0;
      }
    }
  }

  lemma NewFrameFuture(data: seq<byte>)
    ensures Future(NewFrame(data)) == Ideal(data, 0)
  {
    if data == [] {
      assert Ideal(data, 0) == [];
    } else {
      NewFrameUnsent(data);
      FutureIsIdeal(NewFrame(data), data, 0);
    }
  }

  /** A frame needs one visit per started chunk. */
  lemma {:induction false} FutureCount(f: FrameValue)
    requires f.Valid()
    ensures |Future(f)| == (f.length + 99_995) / 99_996
    decreases f.length
  {
    if f.length > 0 {
      RoundUp4Bound(f.length);
      hide RoundUp4;
      FutureCount(f.Removed(ChunkLength(f)));
    }
  }

  // The chunks together.

  function Chunks(log: seq<Attempt>): seq<seq<byte>> {
    seq(|log|, i requires 0 <= i < |log| => log[i].chunk)
  }

  lemma ChunksAppend(a: seq<Attempt>, b: seq<Attempt>)
    ensures Concat(Chunks(a + b)) == Concat(Chunks(a)) + Concat(Chunks(b))
  {
    assert Chunks(a + b) == Chunks(a) + Chunks(b);
    ConcatAppend(Chunks(a), Chunks(b));
  }

  /** The padded data from an offset on is the next chunk and the padded data after it. */
  lemma PaddedSplits(data: seq<byte>, offset: nat)
    requires offset % 4 == 0 && offset < |data|
    ensures offset + CHUNK < |data| ==> offset + CHUNK <= RoundUp4(|data|)
    ensures Padded(data)[offset..] == if offset + CHUNK < |data|
                                      then Padded(data)[offset..offset + CHUNK] + Padded(data)[offset + CHUNK..]
                                      else Padded(data)[offset..Min(offset + CHUNK, RoundUp4(|data|))]
  {
    RoundUp4Shift(offset, |data| - offset);
    RoundUp4Bound(|data| - offset);
    hide RoundUp4, PaddedByte;
  }

  lemma FirstChunk(a: Attempt, tail: seq<Attempt>)
    ensures Concat(Chunks([a] + tail)) == a.chunk + Concat(Chunks(tail))
  {
    assert Chunks([a]) == [a.chunk];
    ConcatSingle(a.chunk);
    ChunksAppend([a], tail);
  }

  /** The chunks of a frame concatenate to its padded data. */
  lemma {:induction false} IdealChunks(data: seq<byte>, offset: nat)
    requires offset % 4 == 0 && offset < |data|
    ensures Concat(Chunks(Ideal(data, offset))) == Padded(data)[offset..]
    decreases |data| - offset
  {
    var tail := Ideal(data, offset + CHUNK);
    PaddedSplits(data, offset);
    if offset + CHUNK < |data| {
      IdealChunks(data, offset + CHUNK);
    }
    FirstChunk(Ideal(data, offset)[0], tail);
    hide Padded, Chunks, Concat, RoundUp4;
    assert offset + CHUNK >= |data| ==> Concat(Chunks(tail)) == [] by {
      NothingToSend(data, offset + CHUNK);
    }
  }

  lemma NothingToSend(data: seq<byte>, offset: nat)
    ensures offset >= |data| ==> Concat(Chunks(Ideal(data, offset))) == []
  {
  }

  /** Only the first visit writes the frame's length. */
  lemma {:induction false} LengthWrittenOnce(data: seq<byte>, offset: nat)
    ensures forall i :: 0 <= i < |Ideal(data, offset)| ==>
              Ideal(data, offset)[i].frameLength == if offset == 0 && i == 0 then Some(|data|) else None
    decreases |data| - offset
  {
    hide Padded;
    if offset < |data| {
      LengthWrittenOnce(data, offset + CHUNK);
    }
  }

  /** The visits of all writes, one frame after the other. */
  function IdealAll(written: seq<seq<byte>>): seq<Attempt> {
    if written == [] then [] else Ideal(written[0], 0) + IdealAll(written[1..])
  }

  lemma {:induction false} IdealAllSnoc(written: seq<seq<byte>>, data: seq<byte>)
    ensures IdealAll(written + [data]) == IdealAll(written) + Ideal(data, 0)
  {
    if written == [] {
      assert written + [data] == [data] && [data][1..] == [];
    } else {
      assert (written + [data])[0] == written[0] && (written + [data])[1..] == written[1..] + [data];
      IdealAllSnoc(written[1..], data);
    }
  }
}
