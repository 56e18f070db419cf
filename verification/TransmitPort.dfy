/** The transmit half of a port (src/port.c:199-220, 867-939 and 1227-1351, the non-blocking write of
src/main.c:207-250). Every call made while nobody else is inside is a few steps of the state machine in a row. */
module TransmitPort {
  import opened Sequences
  import opened Frames
  import opened FrameLists
  import opened Transmit
  import opened TransmitDevice
  import opened TransmitRuns
  import opened TransmitProgress
  import opened TransmitPurges

  const ENOMEM := 12
  const EAGAIN := 11
  const ENOBUFS := 105

  /** What comes of a copy, given whether there is memory and how many bytes the user's memory yields. */
  function OutcomeOf(data: seq<byte>, frameMemory: bool, bufferMemory: bool, copied: nat): (o: Outcome)
    ensures o.Faulted? ==> o.copied < |data|
  {
    if !frameMemory then NoFrame
    else if data == [] || !bufferMemory then NoBuffer
    else if copied < |data| then Faulted(copied)
    else Complete
  }

  /** A frame with the user's data; whatever happened to the copy, it claims the full size. */
  method FrameFromUser(data: seq<byte>, bufferMemory: bool, copied: nat) returns (frame: Frame)
    requires copied <= |data|
    ensures fresh(frame) && frame.Valid() && (frame.buffer != null ==> fresh(frame.buffer))
    ensures frame.Value() == FrameOf(data, OutcomeOf(data, true, bufferMemory, copied))
  {
    frame := new Frame();
    var ok := frame.AddDataFromUser(data, copied, bufferMemory);
    frame.frameSize := |data|;
  }

  class Port {
    var queuedOframes: FrameList
    var pendingOframe: Frame?
    var outputCap: nat
    ghost var model: State

    /** All the memory of the queue and the pending frame. */
    ghost function Footprint(): set<object?>
      reads `queuedOframes, `pendingOframe, queuedOframes, queuedOframes.frames, pendingOframe
    {
      (set o: object | o in queuedOframes.frames) + queuedOframes.Buffers() + {queuedOframes}
      + if pendingOframe == null then {} else {pendingOframe, pendingOframe.buffer}
    }

    /** The queue and the pending frame have these values, and share no memory. */
    ghost predicate Holds(queue: seq<FrameValue>, pending: Option<FrameValue>)
      reads `queuedOframes, `pendingOframe, Footprint()
    {
      && this !in Footprint() && queuedOframes.Valid() && queuedOframes.contents == queue
      && if pendingOframe == null then pending == None
         else && pendingOframe.Valid() && queuedOframes.Foreign(pendingOframe)
              && pending == Some(pendingOframe.Value())
    }

    /** A state of the machine between two calls, with the port's cap. */
    ghost predicate Matches(t: State)
      reads `outputCap
    {
      outputCap == t.cap && !t.held && Invariant(t)
    }

    ghost predicate Valid()
      reads this, Footprint()
    {
      Holds(model.queue, model.pending) && Matches(model)
    }

    /** The state of the port is now t. */
    ghost method Adopt(t: State)
      requires Matches(t) && Holds(t.queue, t.pending) && this !in Footprint()
      modifies `model
      ensures model == t && Valid()
    {
      hide Invariant;
      model := t;
    }

    constructor (cap: nat)
      ensures Valid() && model == Initial(cap)
    {
      queuedOframes := new FrameList();
      pendingOframe, outputCap, model := null, cap, Initial(cap);
    }

    /** At a quiescent point the two readings add up to the bytes queued and pending. */
    method GetOutputMemoryUsage() returns (value: nat)
      requires Valid()
      ensures value == Bytes(model)
    {
      value := queuedOframes.estimatedMemoryUsage;
      if pendingOframe != null {
        value := value + pendingOframe.dataLength;
      }
    }

    /** Sends what fits, tells the device the frame's length the first time, and removes what was submitted. */
    method PrepareFrameForFifo(frame: Frame, submitted: bool)
        returns (result: nat, length: nat, ghost visit: Option<Attempt>)
      requires frame.Valid()
      modifies frame, frame.buffer
      ensures frame.Valid() && frame.buffer == old(frame.buffer)
      ensures TransmitFrame(old(frame.Value()), submitted) == Sent(frame.Value(), visit, result)
      ensures length == if visit.Some? then |visit.value.chunk| else 0
    {
      var currentLength := frame.dataLength;
      var sizeInFifo := if currentLength % 4 == 0 then currentLength else currentLength + (4 - currentLength % 4);
      var frameSize := frame.frameSize;
      var fifoSpace := TX_FIFO_SIZE - 1;
      fifoSpace := fifoSpace - fifoSpace % 4;
      var transmitLength := if sizeInFifo > fifoSpace then fifoSpace else sizeInFifo;
      length, visit := 0, None;
      if transmitLength < 1 {
        return 0, length, visit;
      }
      ghost var f := frame.Value();
      var chunk := frame.buffer[..transmitLength];
      assert f.length == currentLength > 0 && f.frameSize == frameSize;
      assert transmitLength == ChunkLength(f) && chunk == f.buffer[..transmitLength];
      assert NextAttempt(f, submitted)
             == Attempt(chunk, submitted, if currentLength == frameSize then Some(frameSize) else None);
      hide RoundUp4, ChunkLength, NextAttempt, FrameValue.Removed;
      if submitted {
        var ok, out := frame.RemoveData(transmitLength, true);
      }
      length := transmitLength;
      var lengthRegister := if currentLength == frameSize then Some(frameSize) else None;
      visit := Some(Attempt(chunk, submitted, lengthRegister));
      result := if frame.dataLength != 0 then 1 else 2;
    }

    /** Without a pending frame, the oldest queued one becomes pending. */
    method AcquireFrame(ghost s: State)
      requires Sound(s) && Holds(s.queue, s.pending)
      modifies this`pendingOframe, queuedOframes
      ensures queuedOframes == old(queuedOframes)
      ensures Holds(Acquired(s).queue, Acquired(s).pending) && this !in Footprint()
      ensures pendingOframe != null <==> Acquired(s).pending.Some?
      ensures pendingOframe != null ==> {pendingOframe, pendingOframe.buffer} <= old(Footprint())
    {
      if pendingOframe == null {
        pendingOframe := queuedOframes.RemoveFrame();
      }
    }

    /** Sends from the pending frame, and lets it go when it is finished. */
    method SendPending(submitted: bool, ghost queue: seq<FrameValue>, ghost f: FrameValue) returns (result: nat)
      requires pendingOframe != null && f.Valid() && Holds(queue, Some(f))
      modifies this`pendingOframe, pendingOframe, pendingOframe.buffer
      ensures var sent := TransmitFrame(f, submitted);
              && result == sent.result
              && Holds(queue, if sent.result == 2 then None else Some(sent.frame)) && this !in Footprint()
    {
      assert pendingOframe !in queuedOframes.frames;
      assert pendingOframe.buffer == null || pendingOframe.buffer !in queuedOframes.Buffers();
      ghost var length, visit;
      hide FrameList.Valid, TransmitFrame, Frame.Value, Frame.Valid;
      result, length, visit := PrepareFrameForFifo(pendingOframe, submitted);
      if result == 2 {
        pendingOframe := null;
      }
    }

    /** The worker's effect on the queue and the pending frame. */
    method AcquireAndSend(submitted: bool, ghost s: State) returns (rescheduled: bool)
      requires Sound(s) && !s.held && Holds(s.queue, s.pending)
      modifies `pendingOframe, Footprint()
      ensures queuedOframes == old(queuedOframes) && model == old(model) && outputCap == old(outputCap)
      ensures this !in Footprint()
      ensures Holds(Worked(s, submitted).queue, Worked(s, submitted).pending)
      ensures rescheduled == Worked(s, submitted).scheduled
    {
      ghost var a := Acquired(s);
      WorkedFacts(s, submitted);
      assert queuedOframes in Footprint();
      hide *;
      AcquireFrame(s);
      rescheduled := false;
      if pendingOframe != null {
        var result := SendPending(submitted, a.queue, a.pending.value);
        rescheduled := result != 0;
      }
    }

    /** One run of the worker that was scheduled; it schedules itself again when the run did something. */
    method OframeWorker(submitted: bool) returns (rescheduled: bool)
      requires Valid() && model.scheduled
      modifies this, Footprint()
      ensures Valid() && model == After(old(model), [Acquire, Send(submitted)])
      ensures queuedOframes == old(queuedOframes)
      ensures rescheduled == model.scheduled
    {
      ghost var s, t := model, After(model, [Acquire, Send(submitted)]);
      WorkerSteps(s, submitted);
      assert this !in Footprint() && Matches(t) && s.scheduled;
      hide *;
      rescheduled := AcquireAndSend(submitted, s);
      Adopt(t);
    }

    method Enqueue(frame: Frame, ghost queue: seq<FrameValue>, ghost pending: Option<FrameValue>)
      requires Holds(queue, pending) && frame.Valid()
      requires frame !in Footprint() && (frame.buffer == null || frame.buffer !in Footprint())
      modifies queuedOframes
      ensures Holds(queue + [frame.Value()], pending)
    {
      assert queuedOframes.Foreign(frame);
      hide FrameList.Valid, Frame.Value;
      queuedOframes.AddFrame(frame);
    }

    /** Queues a frame with the user's data; a failed copy still queues a frame. */
    method QueueFrame(data: seq<byte>, bufferMemory: bool, copied: nat,
                      ghost queue: seq<FrameValue>, ghost pending: Option<FrameValue>)
      requires Holds(queue, pending) && copied <= |data|
      modifies queuedOframes
      ensures Holds(queue + [FrameOf(data, OutcomeOf(data, true, bufferMemory, copied))], pending)
      ensures this !in Footprint()
    {
      hide FrameOf, OutcomeOf, FrameList.Valid, Frame.Valid, Frame.Value;
      var frame := FrameFromUser(data, bufferMemory, copied);
      Enqueue(frame, queue, pending);
    }

    /** The write the driver makes for a writer that was admitted. */
    method Write(data: seq<byte>, frameMemory: bool, bufferMemory: bool, copied: nat) returns (error: int)
      requires Valid() && model.writer.Admitted? && model.writer.data == data && copied <= |data|
      modifies this, queuedOframes
      ensures Valid() && model == Next(old(model), Copy(OutcomeOf(data, frameMemory, bufferMemory, copied)))
      ensures queuedOframes == old(queuedOframes)
      ensures error == if frameMemory then 0 else -12
    {
      ghost var s, outcome := model, OutcomeOf(data, frameMemory, bufferMemory, copied);
      ghost var t := Next(s, Copy(outcome));
      CopyStep(s, outcome);
      assert Matches(t) && this !in Footprint();
      assert !frameMemory ==> t.queue == s.queue;
      assert frameMemory ==> t.queue == s.queue + [FrameOf(data, OutcomeOf(data, true, bufferMemory, copied))];
      hide *;
      error := if frameMemory then 0 else -ENOMEM;
      if frameMemory {
        QueueFrame(data, bufferMemory, copied, s.queue, s.pending);
      }
      Adopt(t);
    }

    method Admit(data: seq<byte>) returns (refusal: int)
      requires Valid()
      ensures refusal == if |data| > model.cap then -105
                         else if Bytes(model) + |data| > model.cap then -11
                         else 0
    {
      if |data| > outputCap {
        return -ENOBUFS;
      }
      var usage := GetOutputMemoryUsage();
      return if usage + |data| > outputCap then -EAGAIN else 0;
    }

    method WriteAdmitted(data: seq<byte>, frameMemory: bool, bufferMemory: bool, copied: nat) returns (result: int)
      requires Valid() && model.writer.Outside? && copied <= |data| && data != []
      requires Bytes(model) + |data| <= model.cap
      modifies this, queuedOframes
      ensures Valid() && queuedOframes == old(queuedOframes) && outputCap == old(outputCap)
      ensures result == if frameMemory then |data| else -12
      ensures model == Queued(old(model), data, OutcomeOf(data, frameMemory, bufferMemory, copied))
    {
      AdmitSteps(model, data);
      CopyResult(model, data, OutcomeOf(data, frameMemory, bufferMemory, copied));
      assert this !in Footprint();
      hide Invariant, Holds, Footprint, OutcomeOf, Queued, Next, Bytes;
      model := model.(writer := Admitted(data, model.cap));
      var error := Write(data, frameMemory, bufferMemory, copied);
      return if error < 0 then error else |data|;
    }

    /** A write on a non-blocking descriptor. It claims success whenever there was memory for the frame, even if
    the copy failed and the frame carries nothing. */
    method SynccomWrite(data: seq<byte>, frameMemory: bool, bufferMemory: bool, copied: nat) returns (result: int)
      requires Valid() && model.writer.Outside? && copied <= |data|
      modifies this, queuedOframes
      ensures Valid() && queuedOframes == old(queuedOframes) && outputCap == old(outputCap)
      ensures var s, outcome := old(model), OutcomeOf(data, frameMemory, bufferMemory, copied);
              if data == [] then result == 0 && model == s
              else if |data| > s.cap then result == -105 && model == s
              else if Bytes(s) + |data| > s.cap then result == -11 && model == s
              else if !frameMemory then result == -12 && model == s
              else result == |data| && model == Queued(s, data, outcome)
    {
      if |data| == 0 {
        return 0;
      }
      hide Invariant, Holds, Footprint, FrameOf, OutcomeOf, Bytes;
      var refusal := Admit(data);
      if refusal != 0 {
        return refusal;
      }
      result := WriteAdmitted(data, frameMemory, bufferMemory, copied);
    }

    method ClearFrames(ghost queue: seq<FrameValue>, ghost pending: Option<FrameValue>)
      requires Holds(queue, pending)
      modifies `pendingOframe, queuedOframes, queuedOframes.frames, pendingOframe
      ensures Holds([], None) && this !in Footprint()
      ensures queuedOframes == old(queuedOframes) && model == old(model) && outputCap == old(outputCap)
    {
      queuedOframes.Clear();
      if pendingOframe != null {
        pendingOframe.Clear();
        pendingOframe := null;
      }
    }

    /** Resets the transmitter, then throws away what is queued, then what is pending. What is left is a new port with
    a past. */
    method PurgeTx()
      requires Valid()
      modifies this, queuedOframes, queuedOframes.frames, pendingOframe
      ensures Valid() && model == After(old(model), PURGE) == Later(Emptied(old(model)), PastOf(old(model)))
      ensures queuedOframes == old(queuedOframes)
    {
      ghost var s, t := model, After(model, PURGE);
      PurgeSteps(s);
      assert Matches(t);
      hide *;
      ClearFrames(s.queue, s.pending);
      Adopt(t);
    }
  }

  /** The state after a run of the worker. */
  function Worked(s: State, submitted: bool): (t: State)
    requires Sound(s)
    ensures Sound(t)
  {
    var a := Acquired(s);
    if a.pending.Some? then SentFrom(a, submitted) else a
  }

  lemma WorkedFacts(s: State, submitted: bool)
    requires Sound(s) && !s.held
    ensures var a, w := Acquired(s), Worked(s, submitted);
            && (a.pending.None? ==> w == a && !w.scheduled)
            && (a.pending.Some? ==>
                  var f := a.pending.value;
                  && f.Valid() && w.queue == a.queue && (w.scheduled <==> TransmitFrame(f, submitted).result != 0)
                  && var sent := TransmitFrame(f, submitted);
                     w.pending == if sent.result == 2 then None else Some(sent.frame))
  {
    hide TransmitFrame;
  }

  lemma WorkerSteps(s: State, submitted: bool)
    requires Invariant(s) && !s.held && s.scheduled
    ensures var w, t := Worked(s, submitted), After(s, [Acquire, Send(submitted)]);
            && Invariant(t) && !t.held && t.queue == w.queue && t.pending == w.pending && t.cap == s.cap
            && t.scheduled == w.scheduled
  {
    InvariantAfter(s, [Acquire, Send(submitted)]);
    AfterTwo(s, Acquire, Send(submitted));
    hide Invariant, After, TransmitFrame;
  }

  /** The state with one more frame in the queue, if there was memory for it. */
  function Queued(s: State, data: seq<byte>, outcome: Outcome): State
    requires outcome.Faulted? ==> outcome.copied < |data|
  {
    if outcome.NoFrame? then s
    else
      s.(queue := s.queue + [FrameOf(data, outcome)], scheduled := true,
         written := s.written + [Carried(data, outcome)])
  }

  lemma CopyResult(s: State, data: seq<byte>, outcome: Outcome)
    requires Sound(s) && s.writer.Outside? && (outcome.Faulted? ==> outcome.copied < |data|)
    ensures Next(s.(writer := Admitted(data, s.cap)), Copy(outcome)) == Queued(s, data, outcome)
  {
    hide FrameOf;
  }

  /** Reading the usage and testing it while nobody else moves admits exactly what fits. */
  lemma AdmitSteps(s: State, data: seq<byte>)
    requires Invariant(s) && !s.held && s.writer.Outside? && data != []
    ensures var t := if Bytes(s) + |data| > s.cap then s else s.(writer := Admitted(data, s.cap));
            After(s, [Enter(data), ReadQueued, ReadPending, Check]) == t && Invariant(t)
  {
    InvariantAfter(s, [Enter(data), ReadQueued, ReadPending, Check]);
    hide Invariant;
    AfterFour(s, Enter(data), ReadQueued, ReadPending, Check);
  }

  lemma PurgeSteps(s: State)
    requires Invariant(s) && !s.held
    ensures var t := After(s, PURGE);
            && Invariant(t) && !t.held && t.queue == [] && t.pending == None && t.cap == s.cap
            && t == Later(Emptied(s), PastOf(s))
  {
    InvariantAfter(s, PURGE);
    PurgeInRow(s);
    PurgeEmpties(s);
    hide Invariant, After, Later, Emptied, PastOf;
  }

  lemma CopyStep(s: State, outcome: Outcome)
    requires Invariant(s) && !s.held && Enabled(s, Copy(outcome))
    ensures var t := Next(s, Copy(outcome));
            && Invariant(t) && !t.held && t.pending == s.pending && t.cap == s.cap
            && t.queue == if outcome.NoFrame? then s.queue else s.queue + [FrameOf(s.writer.data, outcome)]
  {
    InvariantAfter(s, [Copy(outcome)]);
    AfterOne(s, Copy(outcome));
    hide Invariant, After;
  }
}
