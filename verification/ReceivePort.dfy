/** The receive half of a port (src/port.c:222-332, 380-459, 828-865, 897-919 and 1146-1164, src/frame.c:264-285, the
non-blocking read of src/main.c:171-205). */
module ReceivePort {
  import opened Sequences
  import opened Frames
  import opened FrameLists
  import opened Transfers
  import RR = ReceiveRuns
  import RS = ReceiveResults
  import RL = ReceiveLimits
  import RP = ReceivePurges

  const EAGAIN := 11

  /** The frames of the size queue never hold data. */
  function SizesIn(contents: seq<FrameValue>): (sizes: seq<nat>)
    ensures |sizes| == |contents|
  {
    seq(|contents|, i requires 0 <= i < |contents| => contents[i].frameSize)
  }

  predicate NoData(contents: seq<FrameValue>) {
    forall i :: 0 <= i < |contents| ==> contents[i].buffer == [] && contents[i].length == 0
  }

  lemma {:induction false} NoDataNoUsage(contents: seq<FrameValue>)
    requires NoData(contents)
    ensures Usage(contents) == 0
  {
    if contents != [] {
      NoDataNoUsage(contents[1..]);
    }
  }

  /** Removing from a frame, in terms of its data alone. */
  method RemoveFrom(frame: Frame, count: nat) returns (out: seq<byte>)
    requires frame.Valid() && count <= frame.dataLength
    modifies frame`dataLength, frame.buffer
    ensures frame.Valid()
    ensures out == old(frame.Value().Data())[..count]
    ensures frame.Value().Data() == old(frame.Value().Data())[count..]
  {
    RemovedIsDrop(frame.Value(), count);
    hide FrameValue.Removed;
    var ok;
    ok, out := frame.RemoveData(count, true);
  }

  class Port {
    const istream: Frame
    const queuedIframes: FrameList
    var inputCap: nat
    var appendStatus: bool
    var rxMultiple: bool
    var ccr0: bv32
    var ccr2: bv32
    /** What the device sends, and the state of the machine. */
    ghost const fs: seq<seq<byte>>
    ghost var model: RR.State

    ghost function Footprint(): set<object?>
      reads istream, queuedIframes, queuedIframes.frames
    {
      (set o: object | o in queuedIframes.frames) + {queuedIframes, istream, istream.buffer}
    }

    /** The stream holds these bytes and the queue these sizes. */
    ghost predicate Holds(bytes: seq<byte>, sizes: seq<nat>)
      reads Footprint(), queuedIframes.Buffers()
    {
      && istream.Valid() && istream.Value().Data() == bytes
      && queuedIframes.Valid() && NoData(queuedIframes.contents) && SizesIn(queuedIframes.contents) == sizes
      && (forall f :: f in queuedIframes.frames ==> f != istream && f.buffer == null)
    }

    /** The port is in a state that the machine reaches, with no call under way. */
    ghost predicate Valid()
      reads this, Footprint(), queuedIframes.Buffers()
    {
      Matches(model) && Holds(model.stream.bytes, model.sizes.queue)
    }

    /** A port as the driver sets it up, in frame mode. */
    constructor (cap: nat, ghost fs: seq<seq<byte>>, ghost tail: Tail)
      requires RR.Device(fs)
      ensures Valid() && this.fs == fs && model == RR.Initial(cap, false, false, tail)
      ensures ccr0 == 0x0011_2004 && ccr2 == 0 && !IsStreaming()
      ensures fresh(istream) && fresh(queuedIframes)
    {
      istream := new Frame();
      queuedIframes := new FrameList();
      inputCap, appendStatus, rxMultiple, ccr0, ccr2 := cap, false, false, 0x0011_2004, 0;
      this.fs, model := fs, RR.Initial(cap, false, false, tail);
      new;
      RS.StartInvariant(fs, RS.Setting(cap, false, false, tail));
    }

    /** Transparent or x-sync mode without run-length coding, frame-sync pulses or termination bytes. */
    predicate IsStreaming(): (streaming: bool)
      reads this
      ensures streaming <==> (ccr0 & 0x7_0703 == 0x1 || ccr0 & 0x7_0703 == 0x2) && ccr2 & 0xffff_0000 == 0
    {
      && (ccr0 & 3 == 2 || ccr0 & 3 == 1)
      && !(ccr2 & 0xffff_0000 != 0 || ccr0 & 0x700 != 0 || (ccr0 & 0x7_0000) >> 16 != 0)
    }

    /** The modes one by one: 1 and 2 stream, 0 and 3 never do, nor does any mode with one of the three fields. */
    lemma StreamingModes()
      ensures (ccr0 == 1 || ccr0 == 2) && ccr2 == 0 ==> IsStreaming()
      ensures ccr0 & 0x3 == 0 || ccr0 & 0x3 == 3 ==> !IsStreaming()
      ensures ccr0 & 0x700 != 0 || ccr0 & 0x7_0000 != 0 || ccr2 & 0xffff_0000 != 0 ==> !IsStreaming()
    {
    }

    method GetInputMemoryUsage() returns (value: nat)
      requires Valid()
      ensures value == |model.stream.bytes|
    {
      hide RR.Invariant;
      value := Usage(model.stream.bytes, model.sizes.queue);
    }

    method Usage(ghost bytes: seq<byte>, ghost sizes: seq<nat>) returns (value: nat)
      requires Holds(bytes, sizes)
      ensures value == |bytes|
    {
      NoDataNoUsage(queuedIframes.contents);
      value := queuedIframes.estimatedMemoryUsage + istream.dataLength;
    }

    method HasIncomingData() returns (status: bool)
      requires Valid()
      ensures status <==> if (ccr0 & 0x7_0703 == 0x1 || ccr0 & 0x7_0703 == 0x2) && ccr2 & 0xffff_0000 == 0
                          then model.stream.bytes != []
                          else model.sizes.queue != [] && model.sizes.queue[0] <= |model.stream.bytes|
    {
      hide RR.Invariant;
      if IsStreaming() {
        return istream.dataLength != 0;
      }
      var frame := queuedIframes.PeekFront();
      return frame != null && frame.frameSize <= istream.dataLength;
    }

    // Filling.

    method AppendBytes(payload: seq<byte>, memory: bool, ghost bytes: seq<byte>, ghost sizes: seq<nat>)
        returns (appended: bool)
      requires Holds(bytes, sizes)
      modifies istream, istream.buffer
      ensures Holds(if appended then bytes + payload else bytes, sizes)
      ensures memory && payload != [] ==> appended
    {
      AddedIsAppend(istream.Value(), payload);
      hide FrameValue.Added, FrameList.Valid, SizesIn, NoData;
      appended := istream.AddData(payload, memory);
    }

    /** Exchanges the bytes of the words and appends the payload. */
    method AcceptPayload(buffer: array<byte>, payload: nat, memory: bool, ghost bytes: seq<byte>, ghost sizes: seq<nat>)
        returns (appended: bool)
      requires Holds(bytes, sizes) && buffer != istream.buffer && EvenUp(payload + 2) <= buffer.Length
      modifies buffer, istream, istream.buffer
      ensures Holds(if appended then bytes + PayloadOf(old(buffer[..]), payload) else bytes, sizes)
      ensures memory && payload != 0 ==> appended
    {
      assert buffer !in Footprint() && buffer !in queuedIframes.Buffers();
      hide Holds, Footprint, Exchanged;
      ExchangeBytes(buffer, payload);
      assert buffer[2..payload + 2] == buffer[..][2..payload + 2];
      appended := AppendBytes(buffer[2..payload + 2], memory, bytes, sizes);
    }

    /** The state of the port is now that of t. */
    ghost predicate Matches(t: RR.State)
      reads `inputCap, `appendStatus, `rxMultiple
    {
      && RR.Device(fs) && RR.Invariant(fs, t) && t.reader.Idle? && t.stream.flight.Nothing?
      && inputCap == t.cap && appendStatus == t.appendStatus && rxMultiple == t.multiple
    }

    ghost method Adopt(t: RR.State)
      requires Matches(t) && Holds(t.stream.bytes, t.sizes.queue)
      modifies `model
      ensures model == t && Valid()
    {
      model := t;
    }

    /** Any transfer of at least two bytes. The payload is appended as a whole or, beyond the cap or without memory, not
    at all. tail is what the previous transfer ended in. */
    method HandleTransfer(buffer: array<byte>, transferSize: nat, tail: Tail, memory: bool,
                          ghost bytes: seq<byte>, ghost sizes: seq<nat>) returns (newTail: Tail, appended: bool)
      requires Holds(bytes, sizes) && buffer != istream.buffer && 2 <= transferSize <= buffer.Length
      requires EvenUp(PayloadLength(buffer[..transferSize], tail) + 2) <= buffer.Length
      modifies buffer, istream, istream.buffer
      ensures newTail == TailOf(old(buffer[..transferSize]))
      ensures var n := PayloadLength(old(buffer[..transferSize]), tail);
              && (|bytes| + n > inputCap ==> !appended)
              && (memory && 0 < n && |bytes| + n <= inputCap ==> appended)
              && Holds(if appended then bytes + PayloadOf(old(buffer[..]), n) else bytes, sizes)
    {
      hide PayloadLength, PayloadOf;
      var payload := PayloadLength(buffer[..transferSize], tail);
      newTail := Tail(buffer[transferSize - 1], buffer[transferSize - 2]);
      var usage := Usage(bytes, sizes);
      if usage + payload > inputCap {
        return newTail, false;
      }
      appended := AcceptPayload(buffer, payload, memory, bytes, sizes);
    }

    /** A transfer arrives that holds the next bytes of the device: a Receive step, and an Append step if it passes the
    cap. An empty one is only submitted again. */
    method ReadDataCallback(buffer: array<byte>, transferSize: nat, tail: Tail, memory: bool,
                            ghost count: nat, ghost pad: byte) returns (newTail: Tail, appended: bool)
      requires Valid() && buffer != istream.buffer && transferSize <= buffer.Length
      requires transferSize != 0 ==> IsNext(fs, model.stream, buffer[..transferSize], count, pad)
      modifies buffer, `model, istream, istream.buffer
      ensures Valid()
      ensures transferSize == 0 ==> newTail == tail && !appended && model == old(model)
      ensures transferSize != 0 ==>
                Runs(fs, old(model), Callback(tail, count, pad, appended), model) && newTail == model.stream.tail
      ensures transferSize != 0 && memory && 0 < count && |old(model).stream.bytes| + count + 1 <= inputCap ==> appended
    {
      if transferSize == 0 {
        return tail, false;
      }
      newTail, appended := ReceiveNext(buffer, transferSize, tail, memory, count, pad);
    }

    lemma CallbackFacts(buffer: array<byte>, transferSize: nat, tail: Tail, count: nat, pad: byte, appended: bool)
      requires Valid() && transferSize <= buffer.Length && RR.Device(fs) && RR.Sound(model)
      requires IsNext(fs, model.stream, buffer[..transferSize], count, pad)
      ensures var t := RR.After(fs, model, Callback(tail, count, pad, appended));
              Matches(t) && CalledBack(fs, model, buffer[..], transferSize, tail, count, pad, appended, t)
    {
      hide IsNext, Holds, Runs, PayloadLength, PayloadOf, TailOf, EvenUp, RR.Invariant, RR.After, Callback;
      assert buffer[..][..transferSize] == buffer[..transferSize];
      CallbackReady(fs, model, buffer[..], transferSize, tail, count, pad, appended);
    }

    method ReceiveNext(buffer: array<byte>, transferSize: nat, tail: Tail, memory: bool,
                       ghost count: nat, ghost pad: byte)
        returns (newTail: Tail, appended: bool)
      requires Valid() && buffer != istream.buffer && transferSize <= buffer.Length
      requires IsNext(fs, model.stream, buffer[..transferSize], count, pad)
      modifies buffer, `model, istream, istream.buffer
      ensures Valid() && newTail == model.stream.tail
      ensures Runs(fs, old(model), Callback(tail, count, pad, appended), model)
      ensures memory && 0 < count && |old(model).stream.bytes| + count + 1 <= inputCap ==> appended
    {
      ghost var s := model;
      assert Holds(s.stream.bytes, s.sizes.queue) && RR.Device(fs) && RR.Sound(s);
      hide *;
      CallbackFacts(buffer, transferSize, tail, count, pad, true);
      CallbackFacts(buffer, transferSize, tail, count, pad, false);
      ghost var with, without := RR.After(fs, s, Callback(tail, count, pad, true)),
                                 RR.After(fs, s, Callback(tail, count, pad, false));
      assert buffer[..][..transferSize] == buffer[..transferSize];
      CalledBackMeans(fs, s, buffer[..], transferSize, tail, count, pad, true, with);
      CalledBackMeans(fs, s, buffer[..], transferSize, tail, count, pad, false, without);
      newTail, appended := HandleTransfer(buffer, transferSize, tail, memory, s.stream.bytes, s.sizes.queue);
      Adopt(if appended then with else without);
    }

    /** Queues one frame for each size the register gives, in that order. */
    method QueueSizes(sizes: seq<nat>, ghost bytes: seq<byte>, ghost queue: seq<nat>)
      requires Holds(bytes, queue)
      modifies queuedIframes
      ensures Holds(bytes, queue + sizes)
    {
      assert queue + sizes[..0] == queue;
      hide Holds;
      for i := 0 to |sizes|
        invariant Holds(bytes, queue + sizes[..i])
      {
        AddSize(sizes[i], bytes, queue + sizes[..i]);
        assert queue + sizes[..i] + [sizes[i]] == queue + sizes[..i + 1];
      }
      assert sizes[..|sizes|] == sizes;
    }

    /** The register gives the sizes of the device's next frames: one Size step for each. */
    method UpdateBcBuffer(sizes: seq<nat>)
      requires Valid() && model.sizes.sized + |sizes| <= |fs|
      requires sizes == RR.SizesOf(fs[model.sizes.sized..model.sizes.sized + |sizes|])
      modifies `model, queuedIframes
      ensures Valid() && Runs(fs, old(model), SizeSteps(|sizes|), model)
    {
      hide Holds, RR.Invariant, RR.After, RR.SizesOf, SizeSteps, Runs;
      ghost var s := model;
      SizesFacts(fs, s, |sizes|);
      ghost var t := Sized(fs, s, |sizes|);
      assert t.sizes.queue == s.sizes.queue + sizes && t.stream == s.stream && Matches(t);
      hide *;
      QueueSizes(sizes, s.stream.bytes, s.sizes.queue);
      Adopt(t);
    }

    method AddSize(size: nat, ghost bytes: seq<byte>, ghost queue: seq<nat>)
      requires Holds(bytes, queue)
      modifies queuedIframes
      ensures Holds(bytes, queue + [size])
    {
      var frame := new Frame();
      frame.frameSize := size;
      assert frame.Value() == FrameValue([], 0, size);
      hide FrameList.Valid, Frame.Value, Frame.Valid;
      queuedIframes.AddFrame(frame);
    }

    method ClearAll(ghost bytes: seq<byte>, ghost queue: seq<nat>)
      requires Holds(bytes, queue)
      modifies istream, queuedIframes, queuedIframes.frames
      ensures Holds([], [])
    {
      queuedIframes.Clear();
      istream.Clear();
    }

    /** Resets the receiver, then empties the queue, then the stream. The board has dropped the frames up to the one it
    goes on with, and the port is settled. */
    method PurgeRx(ghost skip: nat)
      requires Valid() && RR.Enabled(fs, model, RR.Reset(skip))
      modifies `model, istream, queuedIframes, queuedIframes.frames
      ensures Valid() && Runs(fs, old(model), PurgeSteps(skip), model)
      ensures RP.Emptied(fs, model) && |model.sizes.queue| <= model.sizes.sized <= |fs| && RP.Settled(fs, model)
    {
      ghost var s := model;
      PurgeFacts(fs, s, skip);
      ghost var t := RR.After(fs, s, PurgeSteps(skip));
      assert Matches(t);
      hide *;
      ClearAll(s.stream.bytes, s.sizes.queue);
      Adopt(t);
    }

    // Reading frames.

    /** The first critical section of a turn: the front size leaves the queue if its frame is there and fits. */
    method TakeSize(room: int, ghost bytes: seq<byte>, ghost sizes: seq<nat>) returns (taken: bool, size: nat)
      requires Holds(bytes, sizes)
      modifies queuedIframes
      ensures taken <==> room >= 0 && sizes != [] && sizes[0] <= room && sizes[0] <= |bytes|
      ensures taken ==> size == sizes[0]
      ensures Holds(bytes, if taken then sizes[1..] else sizes)
    {
      if room < 0 {
        return false, 0;
      }
      var frame := queuedIframes.PeekFront();
      if frame == null {
        return false, 0;
      }
      size := frame.frameSize;
      assert sizes != [] && size == sizes[0] && istream.dataLength == |bytes|;
      if size > room || istream.dataLength < size {
        return false, size;
      }
      frame := queuedIframes.RemoveFrame();
      assert SizesIn(queuedIframes.contents) == sizes[1..];
      return true, size;
    }

    method RemoveBytes(count: nat, ghost bytes: seq<byte>, ghost sizes: seq<nat>) returns (out: seq<byte>)
      requires Holds(bytes, sizes) && count <= |bytes|
      modifies istream`dataLength, istream.buffer
      ensures out == bytes[..count] && Holds(bytes[count..], sizes)
      ensures istream.buffer == old(istream.buffer)
    {
      out := RemoveFrom(istream, count);
      hide Frame.Value, Frame.Valid, FrameList.Valid, SizesIn, NoData;
    }

    /** The second one: the bytes go to the user, and the status bytes nowhere. */
    method ConsumeBytes(size: nat, kept: nat, ghost bytes: seq<byte>, ghost sizes: seq<nat>) returns (out: seq<byte>)
      requires Holds(bytes, sizes) && kept <= size <= |bytes|
      modifies istream`dataLength, istream.buffer
      ensures out == bytes[..kept] && Holds(bytes[size..], sizes)
      ensures istream.buffer == old(istream.buffer)
    {
      DropDrop(bytes, kept, size - kept);
      hide Holds;
      out := RemoveBytes(kept, bytes, sizes);
      var status := RemoveBytes(size - kept, bytes[kept..], sizes);
    }

    /** Both sections. */
    method TakeFrame(room: int, ghost bytes: seq<byte>, ghost sizes: seq<nat>)
        returns (taken: bool, got: seq<byte>, kept: nat)
      requires Holds(bytes, sizes) && RR.AtLeastTwo(sizes)
      modifies istream`dataLength, istream.buffer, queuedIframes
      ensures istream.buffer == old(istream.buffer)
      ensures taken <==> room >= 0 && sizes != [] && sizes[0] <= room && sizes[0] <= |bytes|
      ensures taken ==> kept == RR.KeptLength(sizes[0], appendStatus) && got == bytes[..kept]
      ensures if taken then Holds(bytes[sizes[0]..], sizes[1..]) else Holds(bytes, sizes)
    {
      hide Holds;
      var size;
      taken, size := TakeSize(room, bytes, sizes);
      got, kept := [], 0;
      if taken {
        kept := if appendStatus then size else size - 2;
        got := ConsumeBytes(size, kept, bytes, sizes[1..]);
      }
    }

    /** One frame after the other, until the next one is not there or does not fit, or one is enough. */
    method ReadLoop(buf: nat, ghost start: RR.State, ghost target: RR.State, ghost first: nat)
        returns (out: seq<byte>, outLength: nat)
      requires RR.Sound(start) && start.reader == RR.Looping(buf, [], 0, first, true)
      requires start.appendStatus == appendStatus && start.multiple == rxMultiple
      requires Holds(start.stream.bytes, start.sizes.queue) && target == RS.ReadOn(start)
      modifies istream`dataLength, istream.buffer, queuedIframes
      ensures Holds(target.stream.bytes, target.sizes.queue)
      ensures Ended(target, target.stream.bytes, target.sizes.queue, out, outLength)
    {
      hide Holds, RS.ReadOn;
      ghost var s := start;
      ghost var bytes, sizes := s.stream.bytes, s.sizes.queue;
      out, outLength := [], 0;
      var going := true;
      while going
        invariant Holds(bytes, sizes) && istream.buffer == old(istream.buffer)
        invariant going ==> InLoop(s, target, bytes, sizes, RR.Looping(buf, out, outLength, first, true),
                                   appendStatus, rxMultiple)
        invariant !going ==> Ended(target, bytes, sizes, out, outLength)
        decreases going, |sizes|
      {
        ghost var reader := RR.Looping(buf, out, outLength, first, true);
        TurnOfLoop(s, target, bytes, sizes, reader, appendStatus, rxMultiple);
        assert outLength <= buf && RR.AtLeastTwo(sizes);
        hide InLoop, Ended, Turned;
        var room := RR.MaxFrameLength(buf, outLength, appendStatus);
        var taken, got, kept := TakeFrame(room, bytes, sizes);
        going := taken && rxMultiple;
        if taken {
          out, outLength := out + got, outLength + kept;
          s, bytes, sizes := Turned(s), bytes[sizes[0]..], sizes[1..];
        }
      }
    }

    /** One call of the frame read: a run of the machine, which gives exactly the next frames while the stream is
    intact. */
    method FrameRead(buf: nat) returns (result: int, out: seq<byte>)
      requires Valid()
      modifies `model, istream`dataLength, istream.buffer, queuedIframes
      ensures Valid() && ReadRun(fs, old(model), buf, model, out, result)
      ensures result == -105 || 0 < result
      ensures (0 < result ==> |out| <= result) && (result < 0 ==> out == [])
      ensures RR.Intact(old(model).stream) ==> result == if out == [] then -105 else |out|
    {
      ghost var s := model;
      ghost var t := RS.ReadAlone(s, buf);
      ReadAloneFacts(fs, s, buf);
      assert Matches(t);
      hide Valid, Matches, Holds, RS.ReadOn, RS.ReadAlone, ReadRun, Ended;
      var outLength;
      out, outLength := ReadLoop(buf, RS.StartedRead(s, buf), t, s.sizes.taken);
      ReadEnded(fs, s, t, buf, out, outLength);
      result := if outLength == 0 then -RS.ENOBUFS else outLength;
      Adopt(t);
    }

    /** A read in streaming mode. */
    method StreamRead(length: nat) returns (outLength: nat, out: seq<byte>)
      requires Valid()
      modifies `model, istream`dataLength, istream.buffer
      ensures Valid() && Runs(fs, old(model), [RR.StreamRead(length)], model)
      ensures outLength == Min(length, |old(model).stream.bytes|)
      ensures out == old(model).stream.bytes[..outLength]
    {
      ghost var s := model;
      StreamReadFacts(fs, s, length);
      outLength := Min(length, istream.dataLength);
      assert outLength == Min(length, |s.stream.bytes|);
      assert Matches(RR.After(fs, s, [RR.StreamRead(length)]));
      hide Valid, Matches, Holds, Runs, RR.After;
      out := RemoveBytes(outLength, s.stream.bytes, s.sizes.queue);
      Adopt(RR.After(fs, s, [RR.StreamRead(length)]));
    }

    /** A read on a non-blocking descriptor. In frame mode it goes on exactly when a frame is ready. */
    method SynccomRead(count: nat) returns (result: int, out: seq<byte>)
      requires Valid()
      modifies `model, istream`dataLength, istream.buffer, queuedIframes
      ensures Valid() && (0 <= result ==> |out| <= result) && (result < 0 ==> out == [])
      ensures RR.Intact(old(model).stream) && 0 <= result ==> result == |out|
      ensures var s := old(model);
              if count == 0 then result == 0 && out == [] && model == s
              else if old((ccr0 & 0x7_0703 == 0x1 || ccr0 & 0x7_0703 == 0x2) && ccr2 & 0xffff_0000 == 0) then
                if s.stream.bytes == [] then result == -11 && out == [] && model == s
                else && result == Min(count, |s.stream.bytes|) && out == s.stream.bytes[..result]
                     && Runs(fs, s, [RR.StreamRead(count)], model)
              else
                if !RR.Ready(s) then result == -11 && out == [] && model == s
                else ReadRun(fs, s, count, model, out, result)
    {
      out := [];
      if count == 0 {
        return 0, out;
      }
      var incoming := HasIncomingData();
      if !incoming {
        return -EAGAIN, out;
      }
      hide Valid, ReadRun, Runs, RR.Ready;
      if IsStreaming() {
        result, out := StreamRead(count);
      } else {
        result, out := FrameRead(count);
      }
    }
  }

  // The methods as steps of the machine.

  /** The machine goes from s to t in these steps. */
  ghost predicate Runs(fs: seq<seq<byte>>, s: RR.State, steps: seq<RR.Step>, t: RR.State) {
    RR.Device(fs) && RR.Sound(s) && t == RR.After(fs, s, steps)
  }

  /** The transfer is the coding of the device's next bytes. */
  ghost predicate IsNext(fs: seq<seq<byte>>, st: RR.Stream, transfer: seq<byte>, count: nat, pad: byte) {
    && count < RR.MAX_TRANSFER && st.position + count <= |Concat(fs)|
    && transfer == Encode(RR.NextBytes(fs, st, count), pad)
  }

  function Callback(tail: Tail, count: nat, pad: byte, appended: bool): seq<RR.Step> {
    [RR.Elsewhere(tail), RR.Receive(count, pad), RR.Append(appended)]
  }

  /** What the callback finds in a buffer that begins with a transfer of the device. */
  lemma TransferFits(buffer: seq<byte>, size: nat, tail: Tail, p: seq<byte>, pad: byte)
    requires size <= |buffer| && |p| < RR.MAX_TRANSFER && buffer[..size] == Encode(p, pad)
    ensures 2 <= size && Whole(Encode(p, pad), tail)
    ensures var n, payload := PayloadLength(buffer[..size], tail), Decode(Encode(p, pad), tail);
            && EvenUp(n + 2) <= size && PayloadOf(buffer, n) == payload && |payload| == n && |p| <= n <= |p| + 1
  {
    DecodeCases(p, pad, tail);
    RestOfBufferIgnored(buffer, size, tail);
    hide PayloadLength, PayloadOf, Encode, Decode;
  }

  lemma AfterThree(fs: seq<seq<byte>>, s: RR.State, a: RR.Step, b: RR.Step, c: RR.Step)
    requires RR.Device(fs) && RR.Sound(s)
    ensures RR.After(fs, s, [a, b, c]) == RR.Next(fs, RR.Next(fs, RR.Next(fs, s, a), b), c)
  {
    hide RR.Next, RR.Device, RR.Sound;
    var s1 := RR.Next(fs, s, a);
    var s2 := RR.Next(fs, s1, b);
    RS.AfterOne(fs, s, a, [b, c]);
    RS.AfterOne(fs, s1, b, [c]);
    RS.AfterOne(fs, s2, c, []);
  }

  lemma HandledInFlight(st: RR.Stream, p: seq<byte>, pad: byte, cap: nat)
    requires |p| < RR.MAX_TRANSFER && st.flight.Nothing?
    ensures Whole(Encode(p, pad), st.tail)
    ensures var t, payload := RR.Handled(st, p, pad, cap), Decode(Encode(p, pad), st.tail);
            && t.bytes == st.bytes && t.tail == TailOf(Encode(p, pad))
            && if |st.bytes| + |payload| > cap then t.flight.Nothing?
               else t.flight.Flight? && t.flight.payload == payload
  {
    DecodeCases(p, pad, st.tail);
    hide Encode, Decode, TailOf, Misread;
  }

  lemma NextTransfer(fs: seq<seq<byte>>, s: RR.State, tail: Tail, count: nat, pad: byte)
    requires RR.Device(fs) && RR.Sound(s) && s.stream.flight.Nothing?
    requires count < RR.MAX_TRANSFER && s.stream.position + count <= |Concat(fs)|
    ensures var t, p := RR.Next(fs, RR.Next(fs, s, RR.Elsewhere(tail)), RR.Receive(count, pad)),
                        RR.NextBytes(fs, s.stream, count);
            t == s.(stream := RR.Handled(s.stream.(tail := tail), p, pad, s.cap))
  {
    hide Concat, RR.Handled;
  }

  /** A transfer with the device's next bytes. */
  lemma CallbackSteps(fs: seq<seq<byte>>, s: RR.State, tail: Tail, count: nat, pad: byte, appended: bool)
    requires RR.Device(fs) && RR.Invariant(fs, s) && s.stream.flight.Nothing?
    requires count < RR.MAX_TRANSFER && s.stream.position + count <= |Concat(fs)|
    ensures var t, p := RR.After(fs, s, Callback(tail, count, pad, appended)), RR.NextBytes(fs, s.stream, count);
            && Runs(fs, s, Callback(tail, count, pad, appended), t)
            && RR.Invariant(fs, t) && t == s.(stream := t.stream) && t.stream.flight.Nothing?
            && Whole(Encode(p, pad), tail) && t.stream.tail == TailOf(Encode(p, pad))
            && var payload := Decode(Encode(p, pad), tail);
               t.stream.bytes == if appended && |s.stream.bytes| + |payload| <= s.cap then s.stream.bytes + payload
                                 else s.stream.bytes
  {
    assert RR.Sound(s);
    RR.InvariantAfter(fs, s, Callback(tail, count, pad, appended));
    AfterThree(fs, s, RR.Elsewhere(tail), RR.Receive(count, pad), RR.Append(appended));
    NextTransfer(fs, s, tail, count, pad);
    HandledInFlight(s.stream.(tail := tail), RR.NextBytes(fs, s.stream, count), pad, s.cap);
    hide RR.Invariant, RR.Device, RR.After, RR.Handled, RR.NextBytes, Concat, Encode, Decode, Whole, TailOf, Misread;
  }

  /** What the callback makes of a buffer that begins with the device's next transfer. */
  ghost predicate CalledBack(fs: seq<seq<byte>>, s: RR.State, buffer: seq<byte>, size: nat, tail: Tail, count: nat,
                             pad: byte, appended: bool, t: RR.State) {
    && Runs(fs, s, Callback(tail, count, pad, appended), t) && t == s.(stream := t.stream)
    && t.stream.flight.Nothing? && 2 <= size <= |buffer| && t.stream.tail == TailOf(buffer[..size])
    && var n := PayloadLength(buffer[..size], tail);
       && EvenUp(n + 2) <= size && count <= n <= count + 1
       && t.stream.bytes == if appended && |s.stream.bytes| + n <= s.cap then s.stream.bytes + PayloadOf(buffer, n)
                            else s.stream.bytes
  }

  lemma CalledBackMeans(fs: seq<seq<byte>>, s: RR.State, buffer: seq<byte>, size: nat, tail: Tail, count: nat,
                        pad: byte, appended: bool, t: RR.State)
    requires CalledBack(fs, s, buffer, size, tail, count, pad, appended, t)
    ensures Runs(fs, s, Callback(tail, count, pad, appended), t) && t == s.(stream := t.stream)
    ensures 2 <= size <= |buffer| && t.stream.tail == TailOf(buffer[..size])
    ensures var n := PayloadLength(buffer[..size], tail);
            && EvenUp(n + 2) <= size && count <= n <= count + 1
            && t.stream.bytes == if appended && |s.stream.bytes| + n <= s.cap then s.stream.bytes + PayloadOf(buffer, n)
                                 else s.stream.bytes
  {
    hide Runs, Callback, PayloadLength, PayloadOf, TailOf, EvenUp;
  }

  lemma CallbackReady(fs: seq<seq<byte>>, s: RR.State, buffer: seq<byte>, size: nat, tail: Tail, count: nat, pad: byte,
                      appended: bool)
    requires RR.Device(fs) && RR.Invariant(fs, s) && s.stream.flight.Nothing?
    requires size <= |buffer| && IsNext(fs, s.stream, buffer[..size], count, pad)
    ensures var t := RR.After(fs, s, Callback(tail, count, pad, appended));
            RR.Invariant(fs, t) && CalledBack(fs, s, buffer, size, tail, count, pad, appended, t)
  {
    TransferFits(buffer, size, tail, RR.NextBytes(fs, s.stream, count), pad);
    CallbackSteps(fs, s, tail, count, pad, appended);
    hide RR.Invariant, RR.Device, Runs, Callback, RR.After, Whole, PayloadLength, PayloadOf, Encode, Decode, TailOf,
         RR.NextBytes;
  }

  function SizeSteps(n: nat): seq<RR.Step> {
    if n == 0 then [] else [RR.Size] + SizeSteps(n - 1)
  }

  /** The state with the sizes of the next n frames in the queue. */
  ghost function Sized(fs: seq<seq<byte>>, s: RR.State, n: nat): RR.State
    requires s.sizes.sized + n <= |fs|
  {
    var k := s.sizes.sized;
    s.(sizes := RR.Sizes(s.sizes.queue + RR.SizesOf(fs[k..k + n]), k + n, s.sizes.taken))
  }

  lemma SizedAgain(fs: seq<seq<byte>>, s: RR.State, n: nat)
    requires s.sizes.sized + n <= |fs|
    ensures n > 0 ==> Sized(fs, Sized(fs, s, 1), n - 1) == Sized(fs, s, n)
    ensures n == 0 ==> Sized(fs, s, n) == s
  {
    var k := s.sizes.sized;
    assert n == 0 ==> s.sizes.queue + RR.SizesOf(fs[k..k]) == s.sizes.queue;
    assert n > 0 ==> RR.SizesOf(fs[k..k + n]) == RR.SizesOf(fs[k..k + 1]) + RR.SizesOf(fs[k + 1..k + n]);
  }

  lemma OneSize(fs: seq<seq<byte>>, s: RR.State)
    requires RR.Device(fs) && RR.Sound(s) && s.sizes.sized + 1 <= |fs|
    ensures RR.After(fs, s, [RR.Size]) == Sized(fs, s, 1)
  {
    RL.SizeComes(fs, s);
    hide RR.After, RR.Sound, RR.Device;
    var k := s.sizes.sized;
    assert RR.SizesOf(fs[k..k + 1]) == [|fs[k]|];
  }

  lemma {:induction false} SizesCome(fs: seq<seq<byte>>, s: RR.State, n: nat)
    requires RR.Device(fs) && RR.Sound(s) && s.sizes.sized + n <= |fs|
    ensures RR.After(fs, s, SizeSteps(n)) == Sized(fs, s, n)
    decreases n
  {
    SizedAgain(fs, s, n);
    hide RR.Sound, RR.Device, RR.Next;
    if n > 0 {
      OneSize(fs, s);
      var t := Sized(fs, s, 1);
      assert t.sizes.sized == s.sizes.sized + 1;
      hide RR.After, Sized;
      RS.AfterAppend(fs, s, [RR.Size], SizeSteps(n - 1));
      SizesCome(fs, t, n - 1);
    }
  }

  lemma SizesFacts(fs: seq<seq<byte>>, s: RR.State, n: nat)
    requires RR.Device(fs) && RR.Invariant(fs, s) && s.sizes.sized + n <= |fs|
    ensures var t := Sized(fs, s, n); Runs(fs, s, SizeSteps(n), t) && RR.Invariant(fs, t)
  {
    SizesCome(fs, s, n);
    RR.InvariantAfter(fs, s, SizeSteps(n));
    assert RR.Sound(s);
    hide RR.Invariant, RR.Device, RR.Sound, RR.After, Sized, SizeSteps;
  }

  /** A frame read from s leads to t and gives out. It is a run of the machine, and what it gives are exactly the next
  frames while the stream is intact. */
  ghost predicate ReadRun(fs: seq<seq<byte>>, s: RR.State, buf: nat, t: RR.State, out: seq<byte>, result: int) {
    && RR.Device(fs) && RR.Sound(s) && s.reader.Idle?
    && Runs(fs, s, [RR.StartRead(buf)] + RS.ReadSteps(RS.StartedRead(s, buf)), t)
    && t == RS.ReadAlone(s, buf) && |t.finished| == |s.finished| + 1
    && var r := t.finished[|s.finished|];
       && out == r.out && |r.out| <= r.claimed && result == (if r.claimed == 0 then -105 else r.claimed)
       && (RR.Intact(s.stream) ==>
             && s.sizes.taken <= t.sizes.taken <= |fs| && r.claimed == |out|
             && out == RR.Delivery(fs[s.sizes.taken..t.sizes.taken], s.appendStatus))
  }

  lemma ReadAloneFacts(fs: seq<seq<byte>>, s: RR.State, buf: nat)
    requires RR.Device(fs) && RR.Invariant(fs, s) && s.reader.Idle?
    ensures var t := RS.ReadAlone(s, buf);
            && RR.Sound(s) && t == RS.ReadOn(RS.StartedRead(s, buf))
            && RR.Invariant(fs, t) && t.reader.Idle? && t.stream.flight == s.stream.flight
            && t.cap == s.cap && t.appendStatus == s.appendStatus && t.multiple == s.multiple
  {
    RS.ReadAloneIsRun(fs, s, buf);
    RS.ReadRecorded(RS.StartedRead(s, buf));
  }

  lemma ReadEnded(fs: seq<seq<byte>>, s: RR.State, t: RR.State, buf: nat, out: seq<byte>, outLength: nat)
    requires RR.Device(fs) && RR.Invariant(fs, s) && s.reader.Idle? && t == RS.ReadAlone(s, buf)
    requires Ended(t, t.stream.bytes, t.sizes.queue, out, outLength)
    ensures ReadRun(fs, s, buf, t, out, RS.Result(outLength))
  {
    var r := RS.StartedRead(s, buf);
    RS.ReadAloneIsRun(fs, s, buf);
    RS.ReadRecorded(r);
    if RR.Intact(s.stream) {
      RS.ReadStaysIntact(r);
      hide RS.ReadOn, RR.After, RS.ReadSteps, RR.Delivery;
      assert RR.AllRight(fs, t.appendStatus, t.finished);
      assert RR.ReadRight(fs, t.appendStatus, t.finished[|s.finished|]);
    }
  }

  function PurgeSteps(skip: nat): seq<RR.Step> {
    [RR.Reset(skip), RR.PurgeSizes, RR.PurgeStream]
  }

  lemma PurgeFacts(fs: seq<seq<byte>>, s: RR.State, skip: nat)
    requires RR.Device(fs) && RR.Invariant(fs, s) && s.reader.Idle? && s.stream.flight.Nothing?
    requires RR.Enabled(fs, s, RR.Reset(skip))
    ensures var t := RR.After(fs, s, PurgeSteps(skip));
            && Runs(fs, s, PurgeSteps(skip), t) && RR.Invariant(fs, t) && t == RP.Purged(fs, s, skip)
            && RP.Emptied(fs, t) && |t.sizes.queue| <= t.sizes.sized <= |fs| && RP.Settled(fs, t)
  {
    RP.PurgedEmptied(fs, s, skip);
    assert RR.Sound(s);
    hide RR.Invariant, RR.After, RP.Emptied, RP.Settled, RR.Enabled, Concat;
    RR.InvariantAfter(fs, s, PurgeSteps(skip));
  }

  lemma StreamReadFacts(fs: seq<seq<byte>>, s: RR.State, length: nat)
    requires RR.Device(fs) && RR.Invariant(fs, s) && s.reader.Idle?
    ensures var t := RR.After(fs, s, [RR.StreamRead(length)]);
            && Runs(fs, s, [RR.StreamRead(length)], t)
            && RR.Invariant(fs, t) && t == s.(stream := t.stream) && t.stream.flight == s.stream.flight
            && t.stream.bytes == s.stream.bytes[Min(length, |s.stream.bytes|)..]
  {
    RR.InvariantAfter(fs, s, [RR.StreamRead(length)]);
    RS.AfterOne(fs, s, RR.StreamRead(length), []);
    hide RR.Invariant, Concat;
  }

  // What the turns of the loop mean for the machine.

  /** The read has come as far as state s. */
  ghost predicate InLoop(s: RR.State, target: RR.State, bytes: seq<byte>, sizes: seq<nat>, reader: RR.Reader,
                         appendStatus: bool, multiple: bool) {
    && RR.Sound(s) && s.reader == reader && reader.Looping? && target == RS.ReadOn(s)
    && s.stream.bytes == bytes && s.sizes.queue == sizes && s.appendStatus == appendStatus && s.multiple == multiple
  }

  /** A finished read: what it leaves and what it gives. */
  ghost predicate Ended(t: RR.State, bytes: seq<byte>, sizes: seq<nat>, out: seq<byte>, claimed: nat) {
    && t.stream.bytes == bytes && t.sizes.queue == sizes && t.finished != []
    && var r := t.finished[|t.finished| - 1]; r.out == out && r.claimed == claimed
  }

  predicate MayTake(bytes: seq<byte>, sizes: seq<nat>, reader: RR.Reader, appendStatus: bool)
    requires reader.Looping? && reader.claimed <= reader.buf
  {
    && RR.MaxFrameLength(reader.buf, reader.claimed, appendStatus) >= 0
    && sizes != [] && sizes[0] <= RR.MaxFrameLength(reader.buf, reader.claimed, appendStatus) && sizes[0] <= |bytes|
  }

  ghost function Turned(s: RR.State): RR.State {
    if RR.Sound(s) && s.reader.Looping? && RR.CanTake(s) then RR.ConsumedFrom(RR.TakenFrom(s), true) else s
  }

  function TurnedReader(bytes: seq<byte>, reader: RR.Reader, kept: nat): RR.Reader
    requires reader.Looping? && kept <= |bytes|
  {
    RR.Looping(reader.buf, reader.out + bytes[..kept], reader.claimed + kept, reader.first, reader.full)
  }

  lemma TurnConsumes(s: RR.State)
    requires RR.Sound(s) && s.reader.Looping? && RR.CanTake(s)
    ensures var size := s.sizes.queue[0];
            var kept := RR.KeptLength(size, s.appendStatus);
            var bytes, sizes := s.stream.bytes[size..], s.sizes.queue[1..];
            var reader := TurnedReader(s.stream.bytes, s.reader, kept);
            if s.multiple then InLoop(Turned(s), RS.ReadOn(s), bytes, sizes, reader, s.appendStatus, s.multiple)
            else Ended(RS.ReadOn(s), bytes, sizes, reader.out, reader.claimed)
  {
    RS.ReadOnUnfolds(s);
    var taken := RR.TakenFrom(s);
    assert taken.reader.Taken?;
    RR.ConsumedBytes(s.stream, taken.reader.size, RR.KeptLength(taken.reader.size, s.appendStatus), true);
    hide RS.ReadOn, RR.MaxFrameLength, RR.Consumed, RR.Got;
  }

  /** One turn: either the read is over, or it goes on with the frame's bytes behind what was out. */
  lemma TurnOfLoop(s: RR.State, target: RR.State, bytes: seq<byte>, sizes: seq<nat>, reader: RR.Reader,
                   appendStatus: bool, multiple: bool)
    requires InLoop(s, target, bytes, sizes, reader, appendStatus, multiple)
    ensures reader.claimed <= reader.buf && RR.AtLeastTwo(sizes)
    ensures if !MayTake(bytes, sizes, reader, appendStatus) then Ended(target, bytes, sizes, reader.out, reader.claimed)
            else
              var kept := RR.KeptLength(sizes[0], appendStatus);
              var r := TurnedReader(bytes, reader, kept);
              if multiple then InLoop(Turned(s), target, bytes[sizes[0]..], sizes[1..], r, appendStatus, multiple)
              else Ended(target, bytes[sizes[0]..], sizes[1..], r.out, r.claimed)
  {
    assert RR.CanTake(s) ==> MayTake(bytes, sizes, reader, appendStatus);
    hide RR.MaxFrameLength, Turned, RS.ReadOn;
    if RR.CanTake(s) {
      TurnConsumes(s);
    } else {
      RS.ReadOnUnfolds(s);
    }
  }
}
