/** The receive side in frame mode as a state machine (src/port.c:235-297, 308-332, 380-459 and 828-865,
src/frame.c:264-285). The device's frames reach the driver twice: their bytes in transfers cut anywhere, each coded
and decoded on its own, and their sizes through a register, in no fixed order. A step is one critical section; the
transfer callback, the size worker, one reader, purging threads and a thread that changes the cap take turns in any
order. */
module ReceiveRuns {
  import opened Sequences
  import opened Frames
  import opened Transfers

  /** The reader takes a size from the queue, then that many bytes from the stream. What reached the user is out; the
  length the call will claim is claimed. full says whether every frame so far met the condition to be delivered. */
  datatype Reader =
    | Idle
    | Looping(buf: nat, out: seq<byte>, claimed: nat, first: nat, full: bool)
    | Taken(buf: nat, out: seq<byte>, claimed: nat, first: nat, full: bool, size: nat)

  /** A finished read: it consumed the frames from first up to last. */
  datatype Read = Read(buf: nat, out: seq<byte>, claimed: nat, first: nat, last: nat, full: bool)

  /** A transfer that passed the cap and waits to be appended: the payload the driver took it to have, the number of
  bytes the device sent, and whether it was misread. */
  datatype Flight = Nothing | Flight(payload: seq<byte>, count: nat, misread: bool)

  /** The byte stream, the transfer in flight and what the last transfer ended in. The other fields record the past:
  where the device's stream has been received to, how many bytes were removed or discarded, how many misread transfers
  were appended, and whether a purge or a failed copy to the user disturbed the order of things. */
  datatype Stream = Stream(
    bytes: seq<byte>, flight: Flight, tail: Tail,
    position: nat, removed: nat, discarded: nat, misread: nat, disturbed: bool)

  /** The queue of frame sizes, how many ever came in and how many were taken out. */
  datatype Sizes = Sizes(queue: seq<nat>, sized: nat, taken: nat)

  /** highest is the highest cap so far. */
  datatype State = State(
    stream: Stream, sizes: Sizes, reader: Reader, finished: seq<Read>,
    cap: nat, highest: nat, appendStatus: bool, multiple: bool)

  /** Elsewhere is a transfer of another port: all ports share the record of the last transfer's end. StreamRead is a
  read in streaming mode, which knows no frames. Reset, the first step of a purge, makes the board drop all it has not
  handed over: the frames whose sizes have not come so far up to a number of them, and what is left of their bytes. */
  datatype Step =
    | Receive(count: nat, pad: byte) | Append(memory: bool) | Elsewhere(tail: Tail)
    | Size
    | StartRead(buf: nat) | Take | Consume(copied: bool) | StreamRead(length: nat)
    | Reset(skip: nat) | PurgeSizes | PurgeStream
    | SetCap(cap: nat)

  function Empty(tail: Tail): Stream {
    Stream([], Nothing, tail, 0, 0, 0, 0, false)
  }

  function Initial(cap: nat, appendStatus: bool, multiple: bool, tail: Tail): State {
    State(Empty(tail), Sizes([], 0, 0), Idle, [], cap, cap, appendStatus, multiple)
  }

  /** The driver needs frames to end in two status bytes. */
  predicate Device(fs: seq<seq<byte>>) {
    forall f :: f in fs ==> |f| >= 2
  }

  // The room in the user's buffer, in the driver's 32-bit arithmetic.

  const WORD: nat := 0x1_0000_0000

  function Signed(n: nat): int
    requires n < WORD
  {
    if n < WORD / 2 then n else n - WORD
  }

  /** The largest frame that fits behind what is already out. */
  function MaxFrameLength(buf: nat, claimed: nat, appendStatus: bool): int
    requires claimed <= buf
  {
    var remaining := (buf - claimed) % WORD;
    Signed((remaining + if appendStatus then 0 else 2) % WORD)
  }

  /** What of a frame the reader gets. */
  function KeptLength(size: nat, appendStatus: bool): nat
    requires size >= 2
  {
    if appendStatus then size else size - 2
  }

  /** For buffers below two gigabytes the room is what one expects. */
  lemma RoomOfOrdinaryBuffer(buf: nat, claimed: nat, appendStatus: bool)
    requires claimed <= buf < WORD / 2 - 2
    ensures MaxFrameLength(buf, claimed, appendStatus) == buf - claimed + if appendStatus then 0 else 2
  {
  }

  /** For all buffers it is no more than there is. */
  lemma RoomIsThere(buf: nat, claimed: nat, appendStatus: bool)
    requires claimed <= buf
    ensures MaxFrameLength(buf, claimed, appendStatus) <= buf - claimed + if appendStatus then 0 else 2
  {
    assert (buf - claimed) % WORD <= buf - claimed;
  }

  /** The room there is, cut to 32 bits and read as a signed number. */
  lemma RoomExactly(buf: nat, claimed: nat, appendStatus: bool)
    requires claimed <= buf
    ensures var room := MaxFrameLength(buf, claimed, appendStatus);
            var there := buf - claimed + if appendStatus then 0 else 2;
            -0x8000_0000 <= room < 0x8000_0000 && (room - there) % 0x1_0000_0000 == 0
  {
    var there := buf - claimed;
    assert there == there / WORD * WORD + there % WORD;
    var sum := there % WORD + if appendStatus then 0 else 2;
    assert sum == sum / WORD * WORD + sum % WORD;
    MultipleOfWord(there / WORD + sum / WORD + 1);
    MultipleOfWord(there / WORD + sum / WORD);
  }

  lemma MultipleOfWord(k: nat)
    ensures -(k * WORD) % 0x1_0000_0000 == 0
  {
  }

  // Steps.

  const MAX_TRANSFER: nat := 0x1_0000

  /** What the device sends next. */
  function NextBytes(fs: seq<seq<byte>>, st: Stream, count: nat): (p: seq<byte>)
    requires st.position + count <= |Concat(fs)|
    ensures |p| == count
  {
    Concat(fs)[st.position..st.position + count]
  }

  /** The device codes its next bytes, the driver decodes them in the light of the last transfer's end. A transfer that
  would exceed the cap is discarded as a whole. */
  function Handled(st: Stream, p: seq<byte>, pad: byte, cap: nat): Stream
    requires |p| < MAX_TRANSFER
  {
    DecodeCases(p, pad, st.tail);
    var transfer := Encode(p, pad);
    var payload := Decode(transfer, st.tail);
    var now := st.(position := st.position + |p|, tail := TailOf(transfer));
    if |st.bytes| + |payload| > cap then now.(discarded := st.discarded + |p|)
    else now.(flight := Flight(payload, |p|, Misread(|p|, st.tail)))
  }

  /** Without memory nothing is appended; the driver does not notice. */
  function Appended(st: Stream, memory: bool): Stream
    requires st.flight.Flight?
  {
    if !memory then st.(flight := Nothing, discarded := st.discarded + st.flight.count)
    else st.(flight := Nothing, bytes := st.bytes + st.flight.payload,
             misread := st.misread + if st.flight.misread then 1 else 0)
  }

  /** The bytes the device sent that are neither appended nor discarded yet. */
  function InFlight(st: Stream): nat {
    if st.flight.Flight? then st.flight.count else 0
  }

  function Got(st: Stream, kept: nat, copied: bool): seq<byte> {
    st.bytes[..if copied then Min(kept, |st.bytes|) else 0]
  }

  /** The bytes the reader keeps leave the stream if they can be copied, then the status bytes if it does not keep
  them. */
  function Consumed(st: Stream, size: nat, kept: nat, copied: bool): Stream
    requires kept <= size
  {
    var rest := st.bytes[|Got(st, kept, copied)|..];
    var last := rest[Min(size - kept, |rest|)..];
    st.(bytes := last, removed := st.removed + (|st.bytes| - |last|),
        disturbed := st.disturbed || (!copied && kept > 0))
  }

  predicate AtLeastTwo(ns: seq<nat>) {
    forall i :: 0 <= i < |ns| ==> ns[i] >= 2
  }

  /** The exact condition for a frame's bytes to reach the user. */
  predicate Delivers(st: Stream, kept: nat, copied: bool) {
    kept == 0 || (copied && kept <= |st.bytes|)
  }

  function Drained(st: Stream, length: nat): Stream {
    var n := Min(length, |st.bytes|);
    st.(bytes := st.bytes[n..], removed := st.removed + n, disturbed := true)
  }

  /** Sizes are never below two, and the buffer is never overrun, whatever happened. */
  predicate Sound(s: State) {
    && AtLeastTwo(s.sizes.queue)
    && match s.reader
       case Idle => true
       case Looping(buf, out, claimed, first, full) => claimed <= buf
       case Taken(buf, out, claimed, first, full, size) =>
         size >= 2 && claimed + KeptLength(size, s.appendStatus) <= buf
  }

  predicate Enabled(fs: seq<seq<byte>>, s: State, step: Step) {
    match step
    case Receive(count, _) =>
      s.stream.flight.Nothing? && count < MAX_TRANSFER && s.stream.position + count <= |Concat(fs)|
    case Append(_) => s.stream.flight.Flight?
    case Size => s.sizes.sized < |fs|
    case StartRead(_) => s.reader.Idle?
    case StreamRead(_) => s.reader.Idle?
    case Take => s.reader.Looping?
    case Consume(_) => s.reader.Taken?
    case Reset(skip) =>
      s.sizes.sized + skip <= |fs| && s.stream.position <= |Concat(fs[..s.sizes.sized + skip])|
    case _ => true
  }

  function Finished(s: State): State
    requires s.reader.Looping?
  {
    var r := s.reader;
    s.(reader := Idle, finished := s.finished + [Read(r.buf, r.out, r.claimed, r.first, s.sizes.taken, r.full)])
  }

  /** There is a size, and its frame has arrived. */
  predicate Ready(s: State) {
    s.sizes.queue != [] && s.sizes.queue[0] <= |s.stream.bytes|
  }

  /** The reader may go on: the next frame is ready and fits. */
  predicate CanTake(s: State)
    requires Sound(s) && s.reader.Looping?
  {
    Ready(s) && s.sizes.queue[0] <= MaxFrameLength(s.reader.buf, s.reader.claimed, s.appendStatus)
  }

  function TakenFrom(s: State): (t: State)
    requires Sound(s) && s.reader.Looping?
    ensures Sound(t)
  {
    if !CanTake(s) then Finished(s)
    else
      var r, q := s.reader, s.sizes.queue;
      RoomIsThere(r.buf, r.claimed, s.appendStatus);
      s.(sizes := Sizes(q[1..], s.sizes.sized, s.sizes.taken + 1),
         reader := Taken(r.buf, r.out, r.claimed, r.first, r.full, q[0]))
  }

  /** The bytes go out and their number is claimed; a failed copy leaves them in the stream and is claimed as well. */
  function GoingOn(s: State, copied: bool): (t: State)
    requires Sound(s) && s.reader.Taken?
    ensures Sound(t) && t.reader.Looping?
  {
    var r := s.reader;
    var kept := KeptLength(r.size, s.appendStatus);
    s.(stream := Consumed(s.stream, r.size, kept, copied),
       reader := Looping(r.buf, r.out + Got(s.stream, kept, copied), r.claimed + kept, r.first,
                         r.full && Delivers(s.stream, kept, copied)))
  }

  function ConsumedFrom(s: State, copied: bool): (t: State)
    requires Sound(s) && s.reader.Taken?
    ensures Sound(t)
  {
    var t := GoingOn(s, copied);
    if s.multiple then t else Finished(t)
  }

  /** The board goes on with the first frame it has not dropped, for bytes and sizes alike. */
  function WasReset(fs: seq<seq<byte>>, s: State, skip: nat): State
    requires s.sizes.sized + skip <= |fs|
  {
    var k := s.sizes.sized + skip;
    s.(stream := s.stream.(position := |Concat(fs[..k])|, disturbed := true), sizes := s.sizes.(sized := k))
  }

  function Next(fs: seq<seq<byte>>, s: State, step: Step): (t: State)
    requires Device(fs) && Sound(s)
    ensures Sound(t)
  {
    if !Enabled(fs, s, step) then s
    else
      match step
      case Receive(count, pad) => s.(stream := Handled(s.stream, NextBytes(fs, s.stream, count), pad, s.cap))
      case Append(memory) => s.(stream := Appended(s.stream, memory))
      case Elsewhere(tail) => s.(stream := s.stream.(tail := tail))
      case Size => s.(sizes := Sizes(s.sizes.queue + [|fs[s.sizes.sized]|], s.sizes.sized + 1, s.sizes.taken))
      case StartRead(buf) => s.(reader := Looping(buf, [], 0, s.sizes.taken, true))
      case Take => TakenFrom(s)
      case Consume(copied) => ConsumedFrom(s, copied)
      case StreamRead(length) => s.(stream := Drained(s.stream, length))
      case Reset(skip) => WasReset(fs, s, skip)
      case PurgeSizes => s.(sizes := s.sizes.(queue := []), stream := s.stream.(disturbed := true))
      case PurgeStream => s.(stream := s.stream.(bytes := [], disturbed := true))
      case SetCap(cap) => s.(cap := cap, highest := if cap > s.highest then cap else s.highest)
  }

  function After(fs: seq<seq<byte>>, s: State, steps: seq<Step>): (t: State)
    requires Device(fs) && Sound(s)
    ensures Sound(t)
    decreases |steps|
  {
    if steps == [] then s else After(fs, Next(fs, s, steps[0]), steps[1..])
  }

  /** What a step does to the stream. */
  lemma StreamNext(fs: seq<seq<byte>>, s: State, step: Step)
    requires Device(fs) && Sound(s)
    ensures var t := Next(fs, s, step).stream;
            if !Enabled(fs, s, step) then t == s.stream
            else match step
                 case Receive(count, pad) => t == Handled(s.stream, NextBytes(fs, s.stream, count), pad, s.cap)
                 case Append(memory) => t == Appended(s.stream, memory)
                 case Elsewhere(tail) => t == s.stream.(tail := tail)
                 case StreamRead(length) => t == Drained(s.stream, length)
                 case Consume(copied) =>
                   t == Consumed(s.stream, s.reader.size, KeptLength(s.reader.size, s.appendStatus), copied)
                 case Reset(skip) => t == WasReset(fs, s, skip).stream
                 case PurgeSizes => t == s.stream.(disturbed := true)
                 case PurgeStream => t == s.stream.(bytes := [], disturbed := true)
                 case _ => t == s.stream
  {
    hide Concat, Handled, Appended, Consumed, Got, CanTake, MaxFrameLength;
  }

  /** What a received transfer does to the stream, in numbers. */
  lemma HandledCounts(st: Stream, p: seq<byte>, pad: byte, cap: nat)
    requires |p| < MAX_TRANSFER
    ensures var t, m := Handled(st, p, pad, cap), Misread(|p|, st.tail);
            && t.bytes == st.bytes && t.removed == st.removed && t.misread == st.misread
            && t.disturbed == st.disturbed && t.position == st.position + |p|
            && if |st.bytes| + |p| + (if m then 1 else 0) > cap
               then t.flight == st.flight && t.discarded == st.discarded + |p|
               else t.flight == Flight(p + if m then [pad] else [], |p|, m) && t.discarded == st.discarded
  {
    DecodeCases(p, pad, st.tail);
    hide Encode, Decode, TailOf, Misread;
  }

  // The cap.

  /** The transfer in flight was counted against the cap with all it will append. */
  predicate Capped(s: State) {
    && s.cap <= s.highest
    && |s.stream.bytes| + (if s.stream.flight.Flight? then |s.stream.flight.payload| else 0) <= s.highest
  }

  lemma CappedNext(fs: seq<seq<byte>>, s: State, step: Step)
    requires Device(fs) && Sound(s) && Capped(s)
    ensures Capped(Next(fs, s, step))
  {
    StreamNext(fs, s, step);
    CapNext(fs, s, step);
    if Enabled(fs, s, step) && step.Receive? {
      HandledCounts(s.stream, NextBytes(fs, s.stream, step.count), step.pad, s.cap);
    }
    hide Concat, Next, Handled, NextBytes;
  }

  lemma CapNext(fs: seq<seq<byte>>, s: State, step: Step)
    requires Device(fs) && Sound(s)
    ensures var t := Next(fs, s, step);
            if step.SetCap? then t.cap == step.cap && t.highest == if step.cap > s.highest then step.cap else s.highest
            else t.cap == s.cap && t.highest == s.highest
    ensures Next(fs, s, step).appendStatus == s.appendStatus && Next(fs, s, step).multiple == s.multiple
  {
    hide Concat, Handled, Appended, Consumed, Got, CanTake, MaxFrameLength;
  }

  // Lengths.

  /** Every byte received is in the stream, in flight, was removed or was discarded; every misread transfer that was
  appended brought one more. */
  predicate Counted(st: Stream) {
    !st.disturbed ==> |st.bytes| + InFlight(st) + st.removed + st.discarded == st.position + st.misread
  }

  /** The transfer in flight has the bytes the device sent, and the pad byte if it was misread. */
  predicate FlightCounts(st: Stream) {
    st.flight.Flight? ==>
      && st.flight.count <= st.position
      && |st.flight.payload| == st.flight.count + if st.flight.misread then 1 else 0
  }

  /** They are the ones the device sent last. */
  predicate FlightFresh(fs: seq<seq<byte>>, st: Stream)
    requires st.position <= |Concat(fs)| && FlightCounts(st)
  {
    st.flight.Flight? ==>
      st.flight.payload[..st.flight.count] == Concat(fs)[st.position - st.flight.count..st.position]
  }

  /** A reset can make the transfer in flight one of bytes that nothing else will follow. */
  predicate FlightRight(fs: seq<seq<byte>>, st: Stream) {
    st.position <= |Concat(fs)| && FlightCounts(st) && (!st.disturbed ==> FlightFresh(fs, st))
  }

  lemma ReceiveFlight(fs: seq<seq<byte>>, st: Stream, count: nat, pad: byte, cap: nat)
    requires st.flight.Nothing? && count < MAX_TRANSFER && st.position + count <= |Concat(fs)|
    ensures var t := Handled(st, NextBytes(fs, st, count), pad, cap);
            t.position <= |Concat(fs)| && FlightCounts(t) && FlightFresh(fs, t)
  {
    HandledCounts(st, NextBytes(fs, st, count), pad, cap);
    hide Concat, Handled, Misread;
    var p := NextBytes(fs, st, count);
    assert (p + [pad])[..count] == p && (p + [])[..count] == p;
  }

  lemma ResetPosition(fs: seq<seq<byte>>, s: State, skip: nat)
    requires Enabled(fs, s, Reset(skip))
    ensures s.stream.position <= WasReset(fs, s, skip).stream.position <= |Concat(fs)|
  {
    ConcatCut(fs, s.sizes.sized + skip);
    hide Concat;
  }

  /** A transfer that was fresh stays so until a reset. */
  lemma FreshNext(fs: seq<seq<byte>>, s: State, step: Step)
    requires Device(fs) && Sound(s) && !step.Reset?
    requires s.stream.position <= |Concat(fs)| && FlightCounts(s.stream) && FlightFresh(fs, s.stream)
    ensures var t := Next(fs, s, step).stream; t.position <= |Concat(fs)| && FlightCounts(t) && FlightFresh(fs, t)
  {
    StreamNext(fs, s, step);
    if Enabled(fs, s, step) && step.Receive? {
      ReceiveFlight(fs, s.stream, step.count, step.pad, s.cap);
      hide FlightFresh, FlightCounts;
    }
    hide Concat, Next, Handled, NextBytes;
  }

  lemma CountsNext(fs: seq<seq<byte>>, s: State, step: Step)
    requires Device(fs) && Sound(s) && s.stream.position <= |Concat(fs)| && FlightCounts(s.stream)
    ensures var t := Next(fs, s, step).stream; t.position <= |Concat(fs)| && FlightCounts(t)
    ensures s.stream.disturbed ==> Next(fs, s, step).stream.disturbed
    ensures step.Reset? ==> Next(fs, s, step).stream.disturbed || Next(fs, s, step) == s
  {
    StreamNext(fs, s, step);
    if Enabled(fs, s, step) && step.Receive? {
      ReceiveFlight(fs, s.stream, step.count, step.pad, s.cap);
      HandledCounts(s.stream, NextBytes(fs, s.stream, step.count), step.pad, s.cap);
      hide FlightFresh;
    }
    if Enabled(fs, s, step) && step.Reset? {
      ResetPosition(fs, s, step.skip);
    }
    hide Concat, Next, Handled, NextBytes;
  }

  lemma FlightRightNext(fs: seq<seq<byte>>, s: State, step: Step)
    requires Device(fs) && Sound(s) && FlightRight(fs, s.stream)
    ensures FlightRight(fs, Next(fs, s, step).stream)
  {
    CountsNext(fs, s, step);
    if !s.stream.disturbed {
      if !step.Reset? {
        FreshNext(fs, s, step);
      }
    }
    hide Next, Concat, FlightCounts, FlightFresh;
  }

  lemma CountedNext(fs: seq<seq<byte>>, s: State, step: Step)
    requires Device(fs) && Sound(s) && Counted(s.stream) && FlightRight(fs, s.stream)
    ensures Counted(Next(fs, s, step).stream)
  {
    StreamNext(fs, s, step);
    if Enabled(fs, s, step) && step.Receive? {
      HandledCounts(s.stream, NextBytes(fs, s.stream, step.count), step.pad, s.cap);
    }
    hide Concat, Next, Handled, NextBytes;
  }

  // Sizes, which discarded bytes do not disturb.

  function SizesOf(fs: seq<seq<byte>>): seq<nat> {
    seq(|fs|, i requires 0 <= i < |fs| => |fs[i]|)
  }

  /** The frames whose bytes have been consumed: all taken ones but the one the reader is at. */
  function Done(s: State): nat {
    if s.reader.Taken? && s.sizes.taken > 0 then s.sizes.taken - 1 else s.sizes.taken
  }

  /** The queued sizes are those of the next frames, exactly the bytes of the consumed frames were removed, and the
  frame the reader is at is there. */
  predicate Aligned(fs: seq<seq<byte>>, s: State) {
    !s.stream.disturbed ==>
      && s.sizes.taken <= s.sizes.sized <= |fs| && s.sizes.queue == SizesOf(fs[s.sizes.taken..s.sizes.sized])
      && s.stream.removed == |Concat(fs[..Done(s)])|
      && (s.reader.Taken? ==> s.sizes.taken > 0 && s.reader.size == |fs[s.sizes.taken - 1]| <= |s.stream.bytes|)
  }

  lemma SizeAligned(fs: seq<seq<byte>>, s: State)
    requires Device(fs) && Sound(s) && Aligned(fs, s)
    ensures Aligned(fs, Next(fs, s, Size))
  {
    hide Concat;
    if s.sizes.sized < |fs| && !s.stream.disturbed {
      assert SizesOf(fs[s.sizes.taken..s.sizes.sized + 1])
             == SizesOf(fs[s.sizes.taken..s.sizes.sized]) + [|fs[s.sizes.sized]|];
    }
  }

  lemma TakeAligned(fs: seq<seq<byte>>, s: State)
    requires Device(fs) && Sound(s) && Aligned(fs, s) && s.reader.Looping?
    ensures Aligned(fs, TakenFrom(s))
  {
    hide Concat, MaxFrameLength;
    if CanTake(s) && !s.stream.disturbed {
      assert s.sizes.queue[0] == |fs[s.sizes.taken]|;
      assert SizesOf(fs[s.sizes.taken..s.sizes.sized])[1..] == SizesOf(fs[s.sizes.taken + 1..s.sizes.sized]);
    }
  }

  lemma ConcatNext(fs: seq<seq<byte>>, k: nat)
    requires k < |fs|
    ensures Concat(fs[..k + 1]) == Concat(fs[..k]) + fs[k]
  {
    assert fs[..k + 1] == fs[..k] + [fs[k]];
    ConcatSnoc(fs[..k], fs[k]);
  }

  lemma ConsumeAligned(fs: seq<seq<byte>>, s: State, copied: bool)
    requires Device(fs) && Sound(s) && Aligned(fs, s) && s.reader.Taken?
    ensures Aligned(fs, ConsumedFrom(s, copied))
  {
    if !ConsumedFrom(s, copied).stream.disturbed {
      ConcatNext(fs, s.sizes.taken - 1);
      hide Concat, SizesOf;
    }
  }

  /** More bytes in the stream change nothing. */
  lemma GrowthAligned(fs: seq<seq<byte>>, s: State, st: Stream)
    requires Aligned(fs, s)
    requires st.disturbed == s.stream.disturbed && st.removed == s.stream.removed && |st.bytes| >= |s.stream.bytes|
    ensures Aligned(fs, s.(stream := st))
  {
    hide Concat, SizesOf;
  }

  lemma AlignedNext(fs: seq<seq<byte>>, s: State, step: Step)
    requires Device(fs) && Sound(s) && Aligned(fs, s)
    ensures Aligned(fs, Next(fs, s, step))
  {
    if Enabled(fs, s, step) {
      match step {
        case Size => SizeAligned(fs, s);
        case Take => TakeAligned(fs, s);
        case Consume(copied) => ConsumeAligned(fs, s, copied);
        case Receive(count, pad) =>
          HandledCounts(s.stream, NextBytes(fs, s.stream, count), pad, s.cap);
          GrowthAligned(fs, s, Handled(s.stream, NextBytes(fs, s.stream, count), pad, s.cap));
        case Append(memory) => GrowthAligned(fs, s, Appended(s.stream, memory));
        case Elsewhere(tail) => GrowthAligned(fs, s, s.stream.(tail := tail));
        case StreamRead(_) => assert Next(fs, s, step).stream.disturbed;
        case StartRead(_) => hide Concat, SizesOf;
        case SetCap(_) => hide Concat, SizesOf;
        case Reset(_) => assert Next(fs, s, step).stream.disturbed;
        case PurgeSizes => assert Next(fs, s, step).stream.disturbed;
        case PurgeStream => assert Next(fs, s, step).stream.disturbed;
      }
    }
  }

  // Framing, as long as nothing was discarded or disturbed.

  predicate Intact(st: Stream) {
    !st.disturbed && st.discarded == 0 && st.misread == 0
  }

  /** The stream holds the device's bytes from the first unread frame on. */
  predicate IsFramed(fs: seq<seq<byte>>, st: Stream) {
    && st.removed + InFlight(st) <= st.position <= |Concat(fs)|
    && st.bytes == Concat(fs)[st.removed..st.position - InFlight(st)]
  }

  predicate InStream(fs: seq<seq<byte>>, st: Stream) {
    Intact(st) ==> IsFramed(fs, st)
  }

  lemma SlicesMeet<T>(a: seq<T>, i: nat, j: nat, k: nat)
    requires i <= j <= k <= |a|
    ensures a[i..j] + a[j..k] == a[i..k]
  {
  }

  lemma AppendKeepsStream(fs: seq<seq<byte>>, st: Stream, memory: bool)
    requires InStream(fs, st) && FlightRight(fs, st) && st.flight.Flight?
    ensures InStream(fs, Appended(st, memory))
  {
    hide Concat;
    var t := Appended(st, memory);
    if Intact(t) {
      if memory {
        assert st.flight.payload == st.flight.payload[..st.flight.count];
        SlicesMeet(Concat(fs), st.removed, st.position - st.flight.count, st.position);
      }
    }
  }

  lemma ReceiveKeepsStream(fs: seq<seq<byte>>, st: Stream, count: nat, pad: byte, cap: nat)
    requires InStream(fs, st) && st.flight.Nothing? && count < MAX_TRANSFER && st.position + count <= |Concat(fs)|
    ensures InStream(fs, Handled(st, NextBytes(fs, st, count), pad, cap))
  {
    HandledCounts(st, NextBytes(fs, st, count), pad, cap);
    hide Concat, Handled, NextBytes;
  }

  lemma SameKeepsStream(fs: seq<seq<byte>>, st: Stream, t: Stream)
    requires InStream(fs, st) && (t.disturbed || t == st.(tail := t.tail))
    ensures InStream(fs, t)
  {
    hide Concat;
  }

  lemma InStreamNext(fs: seq<seq<byte>>, s: State, step: Step)
    requires Device(fs) && Sound(s) && InStream(fs, s.stream) && FlightRight(fs, s.stream)
    requires !s.stream.disturbed && s.reader.Taken? ==> s.reader.size <= |s.stream.bytes|
    ensures InStream(fs, Next(fs, s, step).stream)
  {
    StreamNext(fs, s, step);
    hide Next, Concat, Handled, Appended, Consumed, NextBytes, InStream, FlightRight;
    if Enabled(fs, s, step) {
      match step {
        case Receive(count, pad) => ReceiveKeepsStream(fs, s.stream, count, pad, s.cap);
        case Append(memory) => AppendKeepsStream(fs, s.stream, memory);
        case Consume(copied) =>
          ConsumeKeepsStream(fs, s.stream, s.reader.size, KeptLength(s.reader.size, s.appendStatus), copied);
        case _ => SameKeepsStream(fs, s.stream, Next(fs, s, step).stream);
      }
    }
  }

  /** A consumption that is not disturbed removes exactly the frame. */
  lemma ConsumedBytes(st: Stream, size: nat, kept: nat, copied: bool)
    requires kept <= size <= |st.bytes| && (copied || kept == 0)
    ensures Got(st, kept, copied) == st.bytes[..kept]
    ensures Consumed(st, size, kept, copied) == st.(bytes := st.bytes[size..], removed := st.removed + size)
  {
    assert st.bytes[kept..][size - kept..] == st.bytes[size..];
  }

  lemma ConsumedIntact(st: Stream, size: nat, kept: nat, copied: bool)
    requires kept <= size
    ensures Intact(Consumed(st, size, kept, copied)) <==> Intact(st) && (copied || kept == 0)
  {
  }

  lemma SliceDrops<T>(a: seq<T>, i: nat, k: nat, n: nat)
    requires i + n <= k <= |a|
    ensures a[i..k][n..] == a[i + n..k]
  {
  }

  lemma ConsumeKeepsStream(fs: seq<seq<byte>>, st: Stream, size: nat, kept: nat, copied: bool)
    requires InStream(fs, st) && kept <= size && (!st.disturbed ==> size <= |st.bytes|)
    ensures InStream(fs, Consumed(st, size, kept, copied))
  {
    ConsumedIntact(st, size, kept, copied);
    hide Concat, Consumed;
    if Intact(st) && (copied || kept == 0) {
      ConsumedBytes(st, size, kept, copied);
      SliceDrops(Concat(fs), st.removed, st.position - InFlight(st), size);
    }
  }

  // What the reader gets.

  /** What of the frames a reader is to have: with or without their status bytes. */
  function Delivery(fs: seq<seq<byte>>, appendStatus: bool): seq<byte>
    requires Device(fs)
  {
    if fs == [] then [] else fs[0][..KeptLength(|fs[0]|, appendStatus)] + Delivery(fs[1..], appendStatus)
  }

  lemma {:induction false} DeliverySnoc(fs: seq<seq<byte>>, f: seq<byte>, appendStatus: bool)
    requires Device(fs) && |f| >= 2
    ensures Device(fs + [f])
    ensures Delivery(fs + [f], appendStatus) == Delivery(fs, appendStatus) + f[..KeptLength(|f|, appendStatus)]
  {
    if fs == [] {
      assert fs + [f] == [f] && [f][1..] == [];
    } else {
      assert (fs + [f])[0] == fs[0] && (fs + [f])[1..] == fs[1..] + [f];
      DeliverySnoc(fs[1..], f, appendStatus);
    }
  }

  /** The frame after the first k is found in the stream behind their bytes. */
  lemma FrameInStream(fs: seq<seq<byte>>, k: nat)
    requires k < |fs|
    ensures |Concat(fs[..k])| + |fs[k]| <= |Concat(fs)|
    ensures Concat(fs)[|Concat(fs[..k])|..|Concat(fs[..k])| + |fs[k]|] == fs[k]
  {
    ConcatNext(fs, k);
    ConcatCut(fs, k + 1);
    hide Concat;
    var whole, n, m := Concat(fs), |Concat(fs[..k])|, |Concat(fs[..k])| + |fs[k]|;
    assert whole[..m][n..] == whole[n..m];
  }

  /** The current read holds exactly the frames it has consumed. */
  predicate InBuffer(fs: seq<seq<byte>>, s: State)
    requires Device(fs)
  {
    Intact(s.stream) && !s.reader.Idle? ==>
      && s.reader.first <= Done(s) <= |fs|
      && s.reader.out == Delivery(fs[s.reader.first..Done(s)], s.appendStatus)
      && s.reader.claimed == |s.reader.out|
  }

  /** The bytes in front of the stream are those of the frame the reader is at. */
  lemma FrameInFront(fs: seq<seq<byte>>, s: State)
    requires Device(fs) && Aligned(fs, s) && InStream(fs, s.stream) && s.reader.Taken? && Intact(s.stream)
    ensures s.stream.bytes[..s.reader.size] == fs[s.sizes.taken - 1]
  {
    var st, n := s.stream, s.reader.size;
    FrameInStream(fs, s.sizes.taken - 1);
    hide Concat, SizesOf;
    assert Concat(fs)[st.removed..st.position - InFlight(st)][..n] == Concat(fs)[st.removed..st.removed + n];
  }

  lemma DeliveryNext(fs: seq<seq<byte>>, i: nat, k: nat, appendStatus: bool)
    requires Device(fs) && i <= k < |fs|
    ensures Delivery(fs[i..k + 1], appendStatus)
            == Delivery(fs[i..k], appendStatus) + fs[k][..KeptLength(|fs[k]|, appendStatus)]
  {
    assert fs[i..k + 1] == fs[i..k] + [fs[k]];
    DeliverySnoc(fs[i..k], fs[k], appendStatus);
  }

  /** The copy to the user gets what the reader is to have of the frame. */
  lemma GotFrame(fs: seq<seq<byte>>, s: State, copied: bool)
    requires Device(fs) && Sound(s) && Aligned(fs, s) && InStream(fs, s.stream) && s.reader.Taken? && Intact(s.stream)
    requires copied || KeptLength(s.reader.size, s.appendStatus) == 0
    ensures var kept := KeptLength(s.reader.size, s.appendStatus);
            kept <= |fs[s.sizes.taken - 1]| && Got(s.stream, kept, copied) == fs[s.sizes.taken - 1][..kept]
  {
    var kept := KeptLength(s.reader.size, s.appendStatus);
    FrameInFront(fs, s);
    hide Concat, SizesOf, InStream;
    ConsumedBytes(s.stream, s.reader.size, kept, copied);
    assert s.stream.bytes[..kept] == s.stream.bytes[..s.reader.size][..kept];
  }

  lemma OutGrows(fs: seq<seq<byte>>, s: State, copied: bool)
    requires Device(fs) && Sound(s) && Aligned(fs, s) && InStream(fs, s.stream) && InBuffer(fs, s)
    requires s.reader.Taken? && Intact(s.stream) && (copied || KeptLength(s.reader.size, s.appendStatus) == 0)
    ensures var kept := KeptLength(s.reader.size, s.appendStatus);
            var out := s.reader.out + Got(s.stream, kept, copied);
            && s.reader.first <= s.sizes.taken <= |fs| && |out| == s.reader.claimed + kept
            && out == Delivery(fs[s.reader.first..s.sizes.taken], s.appendStatus)
  {
    hide Concat, SizesOf;
    GotFrame(fs, s, copied);
    hide InStream, Got, KeptLength;
    DeliveryNext(fs, s.reader.first, s.sizes.taken - 1, s.appendStatus);
    hide Delivery;
  }

  lemma ConsumeFillsBuffer(fs: seq<seq<byte>>, s: State, copied: bool)
    requires Device(fs) && Sound(s) && Aligned(fs, s) && InStream(fs, s.stream) && InBuffer(fs, s)
    requires s.reader.Taken?
    ensures InBuffer(fs, GoingOn(s, copied))
  {
    var kept := KeptLength(s.reader.size, s.appendStatus);
    ConsumedIntact(s.stream, s.reader.size, kept, copied);
    hide Aligned, InStream, Delivery, Consumed, Got;
    if Intact(s.stream) && (copied || kept == 0) {
      OutGrows(fs, s, copied);
    }
  }

  lemma StartsEmpty(fs: seq<seq<byte>>, s: State, buf: nat)
    requires Device(fs) && Aligned(fs, s) && s.reader.Idle?
    ensures InBuffer(fs, s.(reader := Looping(buf, [], 0, s.sizes.taken, true)))
  {
    hide Concat, SizesOf;
    assert Intact(s.stream) ==> fs[s.sizes.taken..s.sizes.taken] == [];
  }

  lemma TakeInBuffer(fs: seq<seq<byte>>, s: State)
    requires Device(fs) && Sound(s) && InBuffer(fs, s) && s.reader.Looping?
    ensures InBuffer(fs, TakenFrom(s))
  {
    hide Delivery, MaxFrameLength, KeptLength;
  }

  lemma StreamInBuffer(fs: seq<seq<byte>>, s: State, st: Stream)
    requires Device(fs) && InBuffer(fs, s) && (Intact(st) ==> Intact(s.stream))
    ensures InBuffer(fs, s.(stream := st))
  {
    hide Delivery;
  }

  lemma InBufferNext(fs: seq<seq<byte>>, s: State, step: Step)
    requires Device(fs) && Sound(s) && Aligned(fs, s) && InStream(fs, s.stream) && InBuffer(fs, s)
    ensures InBuffer(fs, Next(fs, s, step))
  {
    hide Aligned, InStream, Delivery;
    if Enabled(fs, s, step) {
      match step {
        case Consume(copied) => if s.multiple { ConsumeFillsBuffer(fs, s, copied); }
        case Take => TakeInBuffer(fs, s);
        case StartRead(buf) => StartsEmpty(fs, s, buf);
        case Receive(count, pad) =>
          HandledCounts(s.stream, NextBytes(fs, s.stream, count), pad, s.cap);
          StreamInBuffer(fs, s, Handled(s.stream, NextBytes(fs, s.stream, count), pad, s.cap));
        case Append(memory) => StreamInBuffer(fs, s, Appended(s.stream, memory));
        case _ =>
      }
    }
  }

  // Finished reads.

  predicate ReadRight(fs: seq<seq<byte>>, appendStatus: bool, r: Read)
    requires Device(fs)
  {
    && r.first <= r.last <= |fs| && r.claimed == |r.out| <= r.buf
    && r.out == Delivery(fs[r.first..r.last], appendStatus)
  }

  /** Where the frames of the next or current read begin. */
  function Begin(finished: seq<Read>): nat {
    if finished == [] then 0 else finished[|finished| - 1].last
  }

  /** Every read gave exactly its frames, and the reads took the frames one after the other. */
  predicate AllRight(fs: seq<seq<byte>>, appendStatus: bool, finished: seq<Read>)
    requires Device(fs)
  {
    forall i :: 0 <= i < |finished| ==>
      ReadRight(fs, appendStatus, finished[i]) && finished[i].first == Begin(finished[..i])
  }

  predicate Delivered(fs: seq<seq<byte>>, s: State)
    requires Device(fs)
  {
    Intact(s.stream) ==>
      && AllRight(fs, s.appendStatus, s.finished)
      && Begin(s.finished) == if s.reader.Idle? then s.sizes.taken else s.reader.first
  }

  lemma AllRightSnoc(fs: seq<seq<byte>>, appendStatus: bool, finished: seq<Read>, r: Read)
    requires Device(fs) && AllRight(fs, appendStatus, finished)
    requires ReadRight(fs, appendStatus, r) && r.first == Begin(finished)
    ensures AllRight(fs, appendStatus, finished + [r])
  {
    hide ReadRight, Begin;
    var all := finished + [r];
    forall i | 0 <= i < |all| ensures ReadRight(fs, appendStatus, all[i]) && all[i].first == Begin(all[..i]) {
      assert all[..i] == if i < |finished| then finished[..i] else finished;
    }
  }

  lemma FinishDelivers(fs: seq<seq<byte>>, s: State)
    requires Device(fs) && Sound(s) && InBuffer(fs, s) && Delivered(fs, s) && s.reader.Looping?
    ensures Delivered(fs, Finished(s))
  {
    if Intact(s.stream) {
      var r := s.reader;
      var read := Read(r.buf, r.out, r.claimed, r.first, s.sizes.taken, r.full);
      hide Delivery, AllRight;
      AllRightSnoc(fs, s.appendStatus, s.finished, read);
    }
  }

  lemma ConsumeDelivers(fs: seq<seq<byte>>, s: State, copied: bool)
    requires Device(fs) && Sound(s) && Aligned(fs, s) && InStream(fs, s.stream) && InBuffer(fs, s)
    requires Delivered(fs, s) && s.reader.Taken?
    ensures Delivered(fs, ConsumedFrom(s, copied))
  {
    ConsumeFillsBuffer(fs, s, copied);
    ConsumedIntact(s.stream, s.reader.size, KeptLength(s.reader.size, s.appendStatus), copied);
    hide Aligned, InStream, AllRight, InBuffer, Consumed, Got, Delivers;
    if !s.multiple {
      FinishDelivers(fs, GoingOn(s, copied));
    }
  }

  lemma DeliveredNext(fs: seq<seq<byte>>, s: State, step: Step)
    requires Device(fs) && Sound(s) && Aligned(fs, s) && InStream(fs, s.stream) && InBuffer(fs, s) && Delivered(fs, s)
    ensures Delivered(fs, Next(fs, s, step))
  {
    if Enabled(fs, s, step) {
      match step {
        case Take => if !CanTake(s) { FinishDelivers(fs, s); }
        case Consume(copied) => ConsumeDelivers(fs, s, copied);
        case _ => hide Concat, AllRight, Begin, Aligned, InStream, InBuffer, TakenFrom, ConsumedFrom;
      }
    }
  }

  // What a read claims, whatever happens.

  /** The claim is never too low, and right exactly if every frame met its condition. */
  predicate ClaimRight(out: seq<byte>, claimed: nat, full: bool) {
    |out| <= claimed && (|out| == claimed <==> full)
  }

  predicate Claims(s: State) {
    && (!s.reader.Idle? ==> ClaimRight(s.reader.out, s.reader.claimed, s.reader.full))
    && forall i :: 0 <= i < |s.finished| ==>
         ClaimRight(s.finished[i].out, s.finished[i].claimed, s.finished[i].full)
  }

  lemma FinishClaims(s: State)
    requires s.reader.Looping? && Claims(s)
    ensures Claims(Finished(s))
  {
    hide ClaimRight;
  }

  lemma ConsumeClaims(s: State, copied: bool)
    requires Sound(s) && s.reader.Taken? && Claims(s)
    ensures Claims(ConsumedFrom(s, copied))
  {
    var r, kept := s.reader, KeptLength(s.reader.size, s.appendStatus);
    assert ClaimRight(r.out + Got(s.stream, kept, copied), r.claimed + kept,
                      r.full && Delivers(s.stream, kept, copied));
    hide ClaimRight, Consumed, Got, Delivers, KeptLength;
  }

  lemma ClaimsNext(fs: seq<seq<byte>>, s: State, step: Step)
    requires Device(fs) && Sound(s) && Claims(s)
    ensures Claims(Next(fs, s, step))
  {
    if Enabled(fs, s, step) {
      match step {
        case Take =>
          if !CanTake(s) {
            FinishClaims(s);
          }
          hide ClaimRight, MaxFrameLength;
        case Consume(copied) => ConsumeClaims(s, copied);
        case _ => hide Concat, Handled, Appended, NextBytes;
      }
    }
  }

  // All of it, over every run.

  predicate Invariant(fs: seq<seq<byte>>, s: State)
    requires Device(fs)
  {
    && Sound(s) && Capped(s) && FlightRight(fs, s.stream) && Counted(s.stream) && Aligned(fs, s)
    && InStream(fs, s.stream) && InBuffer(fs, s) && Delivered(fs, s) && Claims(s)
  }

  lemma InvariantNext(fs: seq<seq<byte>>, s: State, step: Step)
    requires Device(fs) && Invariant(fs, s)
    ensures Invariant(fs, Next(fs, s, step))
  {
    assert !s.stream.disturbed && s.reader.Taken? ==> s.reader.size <= |s.stream.bytes|;
    hide Capped, FlightRight, Counted, Aligned, InStream, InBuffer, Delivered, Claims, Next;
    CappedNext(fs, s, step);
    FlightRightNext(fs, s, step);
    CountedNext(fs, s, step);
    AlignedNext(fs, s, step);
    InStreamNext(fs, s, step);
    InBufferNext(fs, s, step);
    DeliveredNext(fs, s, step);
    ClaimsNext(fs, s, step);
  }

  lemma {:induction false} InvariantAfter(fs: seq<seq<byte>>, s: State, steps: seq<Step>)
    requires Device(fs) && Invariant(fs, s)
    ensures Invariant(fs, After(fs, s, steps))
    decreases |steps|
  {
    assert Sound(s);
    hide Invariant, Next;
    if steps != [] {
      InvariantNext(fs, s, steps[0]);
      InvariantAfter(fs, Next(fs, s, steps[0]), steps[1..]);
    }
  }
}
