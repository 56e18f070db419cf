/** A purge of the receive side (src/port.c:828-865): it resets the receiver, empties the queue of sizes and clears the
stream, each under its own lock. What it restores, and when. */
module ReceivePurges {
  import opened Sequences
  import opened Frames
  import opened Transfers
  import opened ReceiveRuns
  import opened ReceiveResults

  // A port with a past.

  /** What lies before the frames that a purge leaves. */
  datatype Past = Past(position: nat, removed: nat, discarded: nat, misread: nat,
                       sized: nat, taken: nat, finished: seq<Read>, highest: nat)

  function Max(a: nat, b: nat): nat {
    if a > b then a else b
  }

  function LaterStream(st: Stream, p: Past): Stream {
    Stream(st.bytes, st.flight, st.tail, p.position + st.position, p.removed + st.removed,
           p.discarded + st.discarded, p.misread + st.misread, true)
  }

  function LaterReader(r: Reader, p: Past): Reader {
    match r
    case Idle => Idle
    case Looping(buf, out, claimed, first, full) => Looping(buf, out, claimed, p.taken + first, full)
    case Taken(buf, out, claimed, first, full, size) => Taken(buf, out, claimed, p.taken + first, full, size)
  }

  function LaterRead(r: Read, p: Past): Read {
    r.(first := p.taken + r.first, last := p.taken + r.last)
  }

  function LaterReads(finished: seq<Read>, p: Past): seq<Read> {
    seq(|finished|, i requires 0 <= i < |finished| => LaterRead(finished[i], p))
  }

  /** The same state with a past. */
  function Later(s: State, p: Past): State {
    State(LaterStream(s.stream, p), Sizes(s.sizes.queue, p.sized + s.sizes.sized, p.taken + s.sizes.taken),
          LaterReader(s.reader, p), p.finished + LaterReads(s.finished, p),
          s.cap, Max(p.highest, s.highest), s.appendStatus, s.multiple)
  }

  lemma LaterSound(s: State, p: Past)
    requires Sound(s)
    ensures Sound(Later(s, p))
  {
  }

  /** The past ends at the end of a frame, for bytes and sizes alike. */
  predicate Boundary(fs: seq<seq<byte>>, p: Past) {
    p.sized <= |fs| && p.position == |Concat(fs[..p.sized])|
  }

  /** The bytes of the first frames behind the past. */
  lemma BehindPast(fs: seq<seq<byte>>, n: nat, k: nat)
    requires n + k <= |fs|
    ensures |Concat(fs[..n + k])| == |Concat(fs[..n])| + |Concat(fs[n..][..k])|
  {
    assert fs[..n + k] == fs[..n] + fs[n..][..k];
    ConcatAppend(fs[..n], fs[n..][..k]);
  }

  lemma LaterResetEnabled(fs: seq<seq<byte>>, s: State, p: Past, skip: nat)
    requires Boundary(fs, p)
    ensures Enabled(fs, Later(s, p), Reset(skip)) <==> Enabled(fs[p.sized..], s, Reset(skip))
  {
    hide Concat, LaterReads;
    if p.sized + s.sizes.sized + skip <= |fs| {
      BehindPast(fs, p.sized, s.sizes.sized + skip);
    }
  }

  lemma LaterEnabled(fs: seq<seq<byte>>, s: State, p: Past, step: Step)
    requires Device(fs) && Sound(s) && Boundary(fs, p)
    ensures Enabled(fs, Later(s, p), step) <==> Enabled(fs[p.sized..], s, step)
  {
    if step.Reset? {
      LaterResetEnabled(fs, s, p, step.skip);
    } else {
      ConcatCut(fs, p.sized);
      hide Concat, LaterReads;
    }
  }

  lemma LaterBytes(fs: seq<seq<byte>>, st: Stream, p: Past, count: nat)
    requires Boundary(fs, p) && st.position + count <= |Concat(fs[p.sized..])|
    ensures p.position + st.position + count <= |Concat(fs)|
    ensures NextBytes(fs, LaterStream(st, p), count) == NextBytes(fs[p.sized..], st, count)
  {
    ConcatCut(fs, p.sized);
    SliceBehind(Concat(fs), p.position, st.position, st.position + count);
  }

  lemma SliceBehind<T>(a: seq<T>, n: nat, i: nat, k: nat)
    requires n <= |a| && i <= k <= |a| - n
    ensures a[n..][i..k] == a[n + i..n + k]
  {
  }

  lemma LaterHandled(st: Stream, p: Past, bytes: seq<byte>, pad: byte, cap: nat)
    requires |bytes| < MAX_TRANSFER
    ensures Handled(LaterStream(st, p), bytes, pad, cap)
            == LaterStream(Handled(st, bytes, pad, cap), p)
  {
    hide Encode, Decode, Misread, TailOf;
  }

  lemma LaterFinished(s: State, p: Past)
    requires s.reader.Looping?
    ensures Later(s, p).reader.Looping? && Finished(Later(s, p)) == Later(Finished(s), p)
  {
    var r := s.reader;
    var read := Read(r.buf, r.out, r.claimed, r.first, s.sizes.taken, r.full);
    assert LaterReads(s.finished + [read], p) == LaterReads(s.finished, p) + [LaterRead(read, p)];
  }

  lemma LaterTaken(s: State, p: Past)
    requires Sound(s) && s.reader.Looping?
    ensures Sound(Later(s, p)) && TakenFrom(Later(s, p)) == Later(TakenFrom(s), p)
  {
    LaterSound(s, p);
    LaterFinished(s, p);
    hide MaxFrameLength;
  }

  lemma LaterConsumedStream(st: Stream, p: Past, size: nat, kept: nat, copied: bool)
    requires kept <= size
    ensures Consumed(LaterStream(st, p), size, kept, copied) == LaterStream(Consumed(st, size, kept, copied), p)
    ensures Got(LaterStream(st, p), kept, copied) == Got(st, kept, copied)
    ensures Delivers(LaterStream(st, p), kept, copied) == Delivers(st, kept, copied)
  {
  }

  /** A reader that goes on with some more bytes out. */
  function Further(r: Reader, got: seq<byte>, kept: nat, delivers: bool): Reader
    requires r.Taken?
  {
    Looping(r.buf, r.out + got, r.claimed + kept, r.first, r.full && delivers)
  }

  lemma GoesFurther(s: State, copied: bool)
    requires Sound(s) && s.reader.Taken?
    ensures var r, kept := s.reader, KeptLength(s.reader.size, s.appendStatus);
            GoingOn(s, copied) == s.(stream := Consumed(s.stream, r.size, kept, copied),
                                     reader := Further(r, Got(s.stream, kept, copied), kept,
                                                       Delivers(s.stream, kept, copied)))
  {
    hide Sound, Consumed, Got, Delivers, KeptLength;
  }

  lemma LaterGoingOn(s: State, p: Past, copied: bool)
    requires Sound(s) && s.reader.Taken?
    ensures Sound(Later(s, p)) && GoingOn(Later(s, p), copied) == Later(GoingOn(s, copied), p)
  {
    var kept := KeptLength(s.reader.size, s.appendStatus);
    var st, r := Consumed(s.stream, s.reader.size, kept, copied), Further(s.reader, Got(s.stream, kept, copied), kept,
                                                                         Delivers(s.stream, kept, copied));
    LaterSound(s, p);
    LaterParts(s, p);
    assert LaterReader(r, p) == Further(LaterReader(s.reader, p), Got(s.stream, kept, copied), kept,
                                        Delivers(s.stream, kept, copied));
    hide *;
    LaterConsumedStream(s.stream, p, s.reader.size, kept, copied);
    GoesFurther(s, copied);
    GoesFurther(Later(s, p), copied);
    LaterUpdated(s, p, st, r);
  }

  lemma LaterParts(s: State, p: Past)
    requires s.reader.Taken?
    ensures var t := Later(s, p);
            && t.stream == LaterStream(s.stream, p) && t.reader == LaterReader(s.reader, p) && t.reader.Taken?
            && t.reader.size == s.reader.size && t.appendStatus == s.appendStatus
  {
    hide LaterStream, LaterReads;
  }

  lemma LaterUpdated(s: State, p: Past, st: Stream, r: Reader)
    ensures Later(s.(stream := st, reader := r), p) == Later(s, p).(stream := LaterStream(st, p),
                                                                    reader := LaterReader(r, p))
  {
    hide LaterStream, LaterReader, LaterReads;
  }

  lemma LaterConsumed(s: State, p: Past, copied: bool)
    requires Sound(s) && s.reader.Taken?
    ensures Sound(Later(s, p)) && ConsumedFrom(Later(s, p), copied) == Later(ConsumedFrom(s, copied), p)
  {
    LaterGoingOn(s, p, copied);
    LaterFinished(GoingOn(s, copied), p);
    hide GoingOn, Finished, LaterStream, LaterReads;
  }

  lemma LaterReset(fs: seq<seq<byte>>, s: State, p: Past, skip: nat)
    requires Device(fs) && Sound(s) && Boundary(fs, p) && Enabled(fs[p.sized..], s, Reset(skip))
    ensures Sound(Later(s, p)) && Next(fs, Later(s, p), Reset(skip)) == Later(Next(fs[p.sized..], s, Reset(skip)), p)
  {
    LaterSound(s, p);
    LaterEnabled(fs, s, p, Reset(skip));
    BehindPast(fs, p.sized, s.sizes.sized + skip);
    hide Concat, LaterReads;
  }

  lemma LaterOther(fs: seq<seq<byte>>, s: State, p: Past, step: Step)
    requires Device(fs) && Sound(s) && Boundary(fs, p) && Enabled(fs[p.sized..], s, step)
    requires !step.Take? && !step.Consume? && !step.Receive? && !step.Reset?
    ensures Sound(Later(s, p)) && Next(fs, Later(s, p), step) == Later(Next(fs[p.sized..], s, step), p)
  {
    LaterSound(s, p);
    LaterEnabled(fs, s, p, step);
    hide Concat, LaterReads, Handled, TakenFrom, ConsumedFrom, NextBytes;
  }

  lemma LaterReceive(fs: seq<seq<byte>>, s: State, p: Past, count: nat, pad: byte)
    requires Device(fs) && Sound(s) && Boundary(fs, p) && Enabled(fs[p.sized..], s, Receive(count, pad))
    ensures Sound(Later(s, p))
    ensures Next(fs, Later(s, p), Receive(count, pad)) == Later(Next(fs[p.sized..], s, Receive(count, pad)), p)
  {
    LaterSound(s, p);
    LaterEnabled(fs, s, p, Receive(count, pad));
    LaterBytes(fs, s.stream, p, count);
    LaterHandled(s.stream, p, NextBytes(fs[p.sized..], s.stream, count), pad, s.cap);
    hide Concat, LaterReads, Handled, NextBytes;
  }

  /** A port with a past does what a new one does. */
  lemma LaterNext(fs: seq<seq<byte>>, s: State, p: Past, step: Step)
    requires Device(fs) && Sound(s) && Boundary(fs, p)
    ensures Sound(Later(s, p)) && Next(fs, Later(s, p), step) == Later(Next(fs[p.sized..], s, step), p)
  {
    LaterSound(s, p);
    LaterEnabled(fs, s, p, step);
    hide LaterReads, Concat, Handled, TakenFrom, ConsumedFrom, NextBytes;
    if Enabled(fs[p.sized..], s, step) {
      match step {
        case Take => LaterTaken(s, p);
        case Consume(copied) => LaterConsumed(s, p, copied);
        case Receive(count, pad) => LaterReceive(fs, s, p, count, pad);
        case Reset(skip) => LaterReset(fs, s, p, skip);
        case _ => LaterOther(fs, s, p, step);
      }
    }
  }

  lemma {:induction false} LaterAfter(fs: seq<seq<byte>>, s: State, p: Past, steps: seq<Step>)
    requires Device(fs) && Sound(s) && Boundary(fs, p)
    ensures Sound(Later(s, p)) && After(fs, Later(s, p), steps) == Later(After(fs[p.sized..], s, steps), p)
    decreases |steps|
  {
    LaterSound(s, p);
    hide Next, Later, Boundary;
    if steps != [] {
      LaterNext(fs, s, p, steps[0]);
      LaterAfter(fs, Next(fs[p.sized..], s, steps[0]), p, steps[1..]);
    }
  }

  // How far sizes and bytes are apart.

  /** The frames whose sizes have left the queue and whose bytes were consumed or purged. */
  function Behind(s: State): int {
    s.sizes.sized - |s.sizes.queue| - if s.reader.Taken? then 1 else 0
  }

  /** The queue holds the latest sizes, and the frame the reader is at is complete. */
  predicate QueueRight(fs: seq<seq<byte>>, s: State) {
    && |s.sizes.queue| <= s.sizes.sized <= |fs| && 0 <= Behind(s)
    && s.sizes.queue == SizesOf(fs[s.sizes.sized - |s.sizes.queue|..s.sizes.sized])
    && (s.reader.Taken? ==> s.reader.size == |fs[Behind(s)]| <= |s.stream.bytes|)
  }

  /** How far the front of the stream is behind the front of the queue, but for what was discarded and misread. */
  function Drift(fs: seq<seq<byte>>, s: State): int
    requires QueueRight(fs, s)
  {
    s.stream.position - InFlight(s.stream) - |s.stream.bytes| - |Concat(fs[..Behind(s)])|
    - s.stream.discarded + s.stream.misread
  }

  lemma DriftOfStream(fs: seq<seq<byte>>, s: State, st: Stream)
    requires QueueRight(fs, s) && |st.bytes| >= |s.stream.bytes|
    requires st.position - InFlight(st) - |st.bytes| - st.discarded + st.misread
             == s.stream.position - InFlight(s.stream) - |s.stream.bytes| - s.stream.discarded + s.stream.misread
    ensures QueueRight(fs, s.(stream := st)) && Drift(fs, s.(stream := st)) == Drift(fs, s)
  {
    hide Concat, SizesOf;
  }

  lemma SizesOfSnoc(fs: seq<seq<byte>>, i: nat, k: nat)
    requires i <= k < |fs|
    ensures SizesOf(fs[i..k + 1]) == SizesOf(fs[i..k]) + [|fs[k]|]
  {
    assert fs[i..k + 1] == fs[i..k] + [fs[k]];
  }

  lemma DriftOfSize(fs: seq<seq<byte>>, s: State)
    requires QueueRight(fs, s) && s.sizes.sized < |fs|
    ensures var n := |fs[s.sizes.sized]|;
            var t := s.(sizes := Sizes(s.sizes.queue + [n], s.sizes.sized + 1, s.sizes.taken));
            QueueRight(fs, t) && Drift(fs, t) == Drift(fs, s)
  {
    hide Concat, SizesOf;
    SizesOfSnoc(fs, s.sizes.sized - |s.sizes.queue|, s.sizes.sized);
  }

  lemma DriftOfTake(fs: seq<seq<byte>>, s: State)
    requires Sound(s) && QueueRight(fs, s) && s.reader.Looping?
    ensures QueueRight(fs, TakenFrom(s)) && Drift(fs, TakenFrom(s)) == Drift(fs, s)
  {
    hide Concat, MaxFrameLength;
    if CanTake(s) {
      var i, k := s.sizes.sized - |s.sizes.queue|, s.sizes.sized;
      assert s.sizes.queue[0] == |fs[i]|;
      assert SizesOf(fs[i..k])[1..] == SizesOf(fs[i + 1..k]);
    }
  }

  lemma DriftOfConsume(fs: seq<seq<byte>>, s: State)
    requires Sound(s) && QueueRight(fs, s) && s.reader.Taken?
    ensures QueueRight(fs, ConsumedFrom(s, true)) && Drift(fs, ConsumedFrom(s, true)) == Drift(fs, s)
  {
    var kept := KeptLength(s.reader.size, s.appendStatus);
    var t := ConsumedFrom(s, true);
    ConsumedBytes(s.stream, s.reader.size, kept, true);
    ConcatNext(fs, Behind(s));
    assert t.sizes == s.sizes && !t.reader.Taken?;
    assert t.stream == s.stream.(bytes := s.stream.bytes[s.reader.size..], removed := s.stream.removed + s.reader.size);
    hide Concat, SizesOf, ConsumedFrom, Sound;
  }

  lemma DriftOfReceive(fs: seq<seq<byte>>, s: State, p: seq<byte>, pad: byte)
    requires QueueRight(fs, s) && s.stream.flight.Nothing? && |p| < MAX_TRANSFER
    ensures var t := s.(stream := Handled(s.stream, p, pad, s.cap));
            QueueRight(fs, t) && Drift(fs, t) == Drift(fs, s)
  {
    HandledCounts(s.stream, p, pad, s.cap);
    hide Concat, SizesOf, Handled, Misread;
    DriftOfStream(fs, s, Handled(s.stream, p, pad, s.cap));
  }

  lemma DriftOfOther(fs: seq<seq<byte>>, s: State, t: State)
    requires QueueRight(fs, s) && t.stream == s.stream && t.sizes == s.sizes
    requires t.reader == s.reader || (!s.reader.Taken? && !t.reader.Taken?)
    ensures QueueRight(fs, t) && Drift(fs, t) == Drift(fs, s)
  {
    hide Concat, SizesOf;
  }

  lemma DriftOfAppend(fs: seq<seq<byte>>, s: State, memory: bool)
    requires QueueRight(fs, s) && FlightRight(fs, s.stream) && s.stream.flight.Flight?
    ensures var t := s.(stream := Appended(s.stream, memory)); QueueRight(fs, t) && Drift(fs, t) == Drift(fs, s)
  {
    hide Concat, SizesOf;
    DriftOfStream(fs, s, Appended(s.stream, memory));
  }

  lemma DriftOfTail(fs: seq<seq<byte>>, s: State, tail: Tail)
    requires QueueRight(fs, s)
    ensures var t := s.(stream := s.stream.(tail := tail)); QueueRight(fs, t) && Drift(fs, t) == Drift(fs, s)
  {
    hide Concat, SizesOf;
    DriftOfStream(fs, s, s.stream.(tail := tail));
  }

  lemma DriftNext(fs: seq<seq<byte>>, s: State, step: Step)
    requires Device(fs) && Sound(s) && QueueRight(fs, s) && FlightRight(fs, s.stream) && Quiet(step)
    ensures QueueRight(fs, Next(fs, s, step)) && Drift(fs, Next(fs, s, step)) == Drift(fs, s)
  {
    hide Concat, SizesOf, Drift, QueueRight, Handled, Appended, TakenFrom, ConsumedFrom, NextBytes, FlightRight;
    if Enabled(fs, s, step) {
      match step {
        case Receive(count, pad) => DriftOfReceive(fs, s, NextBytes(fs, s.stream, count), pad);
        case Append(memory) => DriftOfAppend(fs, s, memory);
        case Elsewhere(tail) => DriftOfTail(fs, s, tail);
        case Size => DriftOfSize(fs, s);
        case Take => DriftOfTake(fs, s);
        case Consume(copied) => DriftOfConsume(fs, s);
        case StartRead(_) => DriftOfOther(fs, s, Next(fs, s, step));
        case SetCap(_) => DriftOfOther(fs, s, Next(fs, s, step));
      }
    }
  }

  lemma {:induction false} DriftAfter(fs: seq<seq<byte>>, s: State, steps: seq<Step>)
    requires Device(fs) && Sound(s) && QueueRight(fs, s) && FlightRight(fs, s.stream)
    requires forall step :: step in steps ==> Quiet(step)
    ensures var t := After(fs, s, steps);
            QueueRight(fs, t) && FlightRight(fs, t.stream) && Drift(fs, t) == Drift(fs, s)
    decreases |steps|
  {
    if steps != [] {
      assert steps[0] in steps;
      DriftNext(fs, s, steps[0]);
      FlightRightNext(fs, s, steps[0]);
      hide Next, Drift, QueueRight, FlightRight, Quiet;
      DriftAfter(fs, Next(fs, s, steps[0]), steps[1..]);
    }
  }

  // What a purge leaves.

  /** The bytes still to come begin with the frame whose size is the next in the queue, or the next to come. */
  predicate Settled(fs: seq<seq<byte>>, t: State)
    requires |t.sizes.queue| <= t.sizes.sized <= |fs|
  {
    t.stream.position - InFlight(t.stream) == |Concat(fs[..t.sizes.sized - |t.sizes.queue|])|
  }

  /** The port when a purge has ended: what came meanwhile may still be in the queue or in flight. */
  predicate Emptied(fs: seq<seq<byte>>, t: State) {
    && Sound(t) && Capped(t) && t.reader.Idle? && t.stream.bytes == [] && t.stream.disturbed
    && QueueRight(fs, t) && FlightRight(fs, t.stream)
    && (Settled(fs, t) ==> FlightFresh(fs, t.stream))
  }

  /** A new port with what is still in the queue and in flight. */
  function Rest(t: State): State {
    State(Stream([], t.stream.flight, t.stream.tail, InFlight(t.stream), 0, 0, 0, false),
          Sizes(t.sizes.queue, |t.sizes.queue|, 0), Idle, [], t.cap, t.highest, t.appendStatus, t.multiple)
  }

  function PastOf(t: State): Past
    requires InFlight(t.stream) <= t.stream.position && |t.sizes.queue| <= t.sizes.sized
  {
    var st := t.stream;
    Past(st.position - InFlight(st), st.removed, st.discarded, st.misread, t.sizes.sized - |t.sizes.queue|,
         t.sizes.taken, t.finished, t.highest)
  }

  /** The frames still to come or to be read. */
  function Remaining(fs: seq<seq<byte>>, t: State): seq<seq<byte>>
    requires |t.sizes.queue| <= t.sizes.sized <= |fs|
  {
    fs[t.sizes.sized - |t.sizes.queue|..]
  }

  lemma EmptiedIsLater(fs: seq<seq<byte>>, t: State)
    requires Emptied(fs, t)
    ensures InFlight(t.stream) <= t.stream.position
    ensures t == Later(Rest(t), PastOf(t)) && (Boundary(fs, PastOf(t)) <==> Settled(fs, t))
  {
    hide Concat, SizesOf, FlightFresh;
    assert t.finished + LaterReads([], PastOf(t)) == t.finished;
  }

  /** The transfer in flight as the first bytes of the remaining frames. */
  lemma RestFlight(fs: seq<seq<byte>>, t: State)
    requires Emptied(fs, t) && Settled(fs, t)
    ensures FlightRight(Remaining(fs, t), Rest(t).stream)
  {
    var n, c := t.sizes.sized - |t.sizes.queue|, InFlight(t.stream);
    ConcatCut(fs, n);
    hide Concat, SizesOf;
    SliceBehind(Concat(fs), t.stream.position - c, 0, c);
  }

  lemma RestInvariant(fs: seq<seq<byte>>, t: State)
    requires Device(fs) && Emptied(fs, t) && Settled(fs, t)
    ensures Device(Remaining(fs, t)) && Invariant(Remaining(fs, t), Rest(t))
  {
    var gs, k := Remaining(fs, t), |t.sizes.queue|;
    RestFlight(fs, t);
    assert gs[..k] == fs[t.sizes.sized - k..t.sizes.sized] && gs[0..k] == gs[..k] && gs[..0] == [];
    var c := InFlight(t.stream);
    assert c <= |Concat(gs)|;
    assert Concat(gs)[0..c - c] == [];
    assert Concat(gs[..0]) == [];
    hide Concat, FlightRight;
  }

  /** After a purge that leaves the port settled, every later run is a run of a new port on the remaining frames, with a
  past. */
  lemma PurgeRestarts(fs: seq<seq<byte>>, t: State, steps: seq<Step>)
    requires Device(fs) && Emptied(fs, t) && Settled(fs, t)
    ensures InFlight(t.stream) <= t.stream.position && Sound(Rest(t))
    ensures After(fs, t, steps) == Later(After(Remaining(fs, t), Rest(t), steps), PastOf(t))
  {
    EmptiedIsLater(fs, t);
    RestInvariant(fs, t);
    hide Later, Emptied, Settled, Invariant, After, Rest, Boundary;
    LaterAfter(fs, Rest(t), PastOf(t), steps);
  }

  /** So framing begins again: what the stream holds and what the reads give afterwards are the remaining frames, while
  nothing is discarded, misread or disturbed. */
  lemma FramingRestarts(fs: seq<seq<byte>>, t: State, steps: seq<Step>)
    requires Device(fs) && Emptied(fs, t) && Settled(fs, t)
    ensures InFlight(t.stream) <= t.stream.position && Sound(Rest(t))
    ensures var gs := Remaining(fs, t);
            var later, u := After(fs, t, steps), After(gs, Rest(t), steps);
            && later.stream.bytes == u.stream.bytes && later.sizes.queue == u.sizes.queue
            && later.finished == t.finished + LaterReads(u.finished, PastOf(t))
            && (Intact(u.stream) ==> IsFramed(gs, u.stream) && AllRight(gs, t.appendStatus, u.finished))
  {
    PurgeRestarts(fs, t, steps);
    RestInvariant(fs, t);
    InvariantAfter(Remaining(fs, t), Rest(t), steps);
    SettingsStay(Remaining(fs, t), Rest(t), steps);
    hide After, AllRight, IsFramed, Emptied, Settled;
  }

  /** The queue's first size belongs to the frame in front of the stream. */
  predicate InStep(fs: seq<seq<byte>>, s: State)
    requires |s.sizes.queue| <= s.sizes.sized <= |fs| && InFlight(s.stream) <= s.stream.position <= |Concat(fs)|
  {
    var begin, end := |Concat(fs[..s.sizes.sized - |s.sizes.queue|])|, s.stream.position - InFlight(s.stream);
    begin <= end && s.stream.bytes == Concat(fs)[begin..end]
  }

  lemma QuietNext(fs: seq<seq<byte>>, s: State, step: Step)
    requires Device(fs) && Sound(s) && Quiet(step) && !s.stream.disturbed
    ensures !Next(fs, s, step).stream.disturbed
  {
    StreamNext(fs, s, step);
    if Enabled(fs, s, step) && step.Receive? {
      HandledCounts(s.stream, NextBytes(fs, s.stream, step.count), step.pad, s.cap);
    }
    hide Next, Concat, Handled, NextBytes;
  }

  lemma {:induction false} QuietAfter(fs: seq<seq<byte>>, s: State, steps: seq<Step>)
    requires Device(fs) && Sound(s) && !s.stream.disturbed && forall step :: step in steps ==> Quiet(step)
    ensures !After(fs, s, steps).stream.disturbed
    decreases |steps|
  {
    if steps != [] {
      assert steps[0] in steps;
      QuietNext(fs, s, steps[0]);
      hide Next, Quiet;
      QuietAfter(fs, Next(fs, s, steps[0]), steps[1..]);
    }
  }

  /** Where the next frame begins among all. */
  lemma NextBehind(fs: seq<seq<byte>>, s: State, p: Past)
    requires Boundary(fs, p) && s.reader.Idle? && !s.stream.disturbed && Aligned(fs[p.sized..], s)
    ensures |s.sizes.queue| == s.sizes.sized - s.sizes.taken && p.sized + s.sizes.sized <= |fs|
    ensures |Concat(fs[..p.sized + s.sizes.taken])| == p.position + s.stream.removed
  {
    BehindPast(fs, p.sized, s.sizes.taken);
    hide Concat;
  }

  lemma BytesBehind(fs: seq<seq<byte>>, st: Stream, p: Past)
    requires Boundary(fs, p) && IsFramed(fs[p.sized..], st)
    ensures var i, k := p.position + st.removed, p.position + st.position - InFlight(st);
            i <= k <= p.position + st.position <= |Concat(fs)| && st.bytes == Concat(fs)[i..k]
  {
    hide Concat;
    ConcatCut(fs, p.sized);
    var gs := fs[p.sized..];
    assert st.bytes == Concat(gs)[st.removed..st.position - InFlight(st)];
    SliceBehind(Concat(fs), p.position, st.removed, st.position - InFlight(st));
  }

  /** In step with the remaining frames, in step with all. */
  lemma InStepBehind(fs: seq<seq<byte>>, s: State, p: Past)
    requires Boundary(fs, p) && s.reader.Idle? && !s.stream.disturbed
    requires Aligned(fs[p.sized..], s) && IsFramed(fs[p.sized..], s.stream)
    ensures var t := Later(s, p);
            && |t.sizes.queue| <= t.sizes.sized <= |fs| && InFlight(t.stream) <= t.stream.position <= |Concat(fs)|
            && InStep(fs, t)
  {
    hide *;
    NextBehind(fs, s, p);
    BytesBehind(fs, s.stream, p);
    LaterCounts(s, p);
    InStepAt(fs, Later(s, p), p.sized + s.sizes.taken, p.position + s.stream.removed);
  }

  lemma LaterCounts(s: State, p: Past)
    ensures var t := Later(s, p);
            && t.stream.bytes == s.stream.bytes && t.stream.position == p.position + s.stream.position
            && InFlight(t.stream) == InFlight(s.stream) && t.sizes.queue == s.sizes.queue
            && t.sizes.sized == p.sized + s.sizes.sized
  {
    hide LaterReads, LaterReader;
  }

  lemma InStepAt(fs: seq<seq<byte>>, t: State, n: nat, i: nat)
    requires n == t.sizes.sized - |t.sizes.queue| && t.sizes.sized <= |fs| && i == |Concat(fs[..n])|
    requires i + InFlight(t.stream) <= t.stream.position <= |Concat(fs)|
    requires t.stream.bytes == Concat(fs)[i..t.stream.position - InFlight(t.stream)]
    ensures InStep(fs, t)
  {
    hide Concat;
  }

  lemma InStepForGood(fs: seq<seq<byte>>, t: State, steps: seq<Step>)
    requires Device(fs) && Emptied(fs, t) && Settled(fs, t) && forall step :: step in steps ==> Quiet(step)
    ensures var u := After(fs, t, steps);
            u.reader.Idle? && u.stream.discarded == t.stream.discarded && u.stream.misread == t.stream.misread ==>
              && |u.sizes.queue| <= u.sizes.sized <= |fs| && InFlight(u.stream) <= u.stream.position <= |Concat(fs)|
              && InStep(fs, u)
  {
    var gs := Remaining(fs, t);
    EmptiedIsLater(fs, t);
    PurgeRestarts(fs, t, steps);
    RestInvariant(fs, t);
    InvariantAfter(gs, Rest(t), steps);
    QuietAfter(gs, Rest(t), steps);
    var v := After(gs, Rest(t), steps);
    assert Aligned(gs, v) && InStream(gs, v.stream);
    assert PastOf(t).discarded == t.stream.discarded && PastOf(t).misread == t.stream.misread;
    var p := PastOf(t);
    assert gs == fs[p.sized..];
    hide After, Emptied, Settled, Invariant, Aligned, IsFramed, InStep, Rest, PastOf, LaterReads, Concat, Boundary;
    if v.reader.Idle? && v.stream.discarded == 0 && v.stream.misread == 0 {
      InStepBehind(fs, v, p);
    }
  }

  lemma DriftOfEmptied(fs: seq<seq<byte>>, t: State)
    requires Emptied(fs, t)
    ensures QueueRight(fs, t)
    ensures Settled(fs, t) <==> Drift(fs, t) + t.stream.discarded - t.stream.misread == 0
  {
    hide Concat, SizesOf, FlightFresh;
  }

  lemma QueueBounds(fs: seq<seq<byte>>, s: State)
    requires QueueRight(fs, s)
    ensures |s.sizes.queue| <= s.sizes.sized <= |fs|
  {
  }

  lemma DriftInStep(fs: seq<seq<byte>>, s: State)
    requires QueueRight(fs, s) && FlightRight(fs, s.stream) && s.reader.Idle?
    requires InFlight(s.stream) <= s.stream.position && InStep(fs, s)
    ensures Drift(fs, s) + s.stream.discarded - s.stream.misread == 0
  {
    hide Concat, SizesOf, FlightFresh;
  }

  /** The distance shows whether the port is in step. */
  lemma NeverInStep(fs: seq<seq<byte>>, t: State, steps: seq<Step>)
    requires Device(fs) && Emptied(fs, t) && forall step :: step in steps ==> Quiet(step)
    ensures var u := After(fs, t, steps);
            && |u.sizes.queue| <= u.sizes.sized <= |fs| && InFlight(u.stream) <= u.stream.position <= |Concat(fs)|
            && (u.reader.Idle? && u.stream.discarded == t.stream.discarded && u.stream.misread == t.stream.misread ==>
                  (InStep(fs, u) ==> Settled(fs, t)))
  {
    DriftAfter(fs, t, steps);
    DriftOfEmptied(fs, t);
    var u := After(fs, t, steps);
    assert FlightCounts(u.stream) && |t.sizes.queue| <= t.sizes.sized <= |fs|;
    hide After, Concat, SizesOf, Quiet, Emptied, FlightFresh, Drift, Settled, InStep, QueueRight;
    QueueBounds(fs, u);
    if u.reader.Idle? && InStep(fs, u) {
      DriftInStep(fs, u);
    }
  }

  /** Whether a purge has left the port settled decides it for good: whatever comes and is read then, as long as nothing
  is discarded, misread, purged or faults, between two reads the port is in step if and only if it was settled. */
  lemma InStepIff(fs: seq<seq<byte>>, t: State, steps: seq<Step>)
    requires Device(fs) && Emptied(fs, t) && forall step :: step in steps ==> Quiet(step)
    ensures var u := After(fs, t, steps);
            && |u.sizes.queue| <= u.sizes.sized <= |fs| && InFlight(u.stream) <= u.stream.position <= |Concat(fs)|
            && (u.reader.Idle? && u.stream.discarded == t.stream.discarded && u.stream.misread == t.stream.misread ==>
                  (InStep(fs, u) <==> Settled(fs, t)))
  {
    NeverInStep(fs, t, steps);
    assert |t.sizes.queue| <= t.sizes.sized <= |fs|;
    hide After, Emptied, InStep, Concat;
    if Settled(fs, t) {
      InStepForGood(fs, t, steps);
    }
  }

  // A purge with anything that comes in between.

  lemma {:induction false} SizedWithin(fs: seq<seq<byte>>, s: State, steps: seq<Step>)
    requires Device(fs) && Sound(s) && s.sizes.sized <= |fs|
    ensures After(fs, s, steps).sizes.sized <= |fs|
    decreases |steps|
  {
    if steps != [] {
      SizedNext(fs, s, steps[0]);
      hide Next;
      SizedWithin(fs, Next(fs, s, steps[0]), steps[1..]);
    }
  }

  lemma SizedNext(fs: seq<seq<byte>>, s: State, step: Step)
    requires Device(fs) && Sound(s) && s.sizes.sized <= |fs|
    ensures Next(fs, s, step).sizes.sized <= |fs|
  {
    hide Concat, Handled, NextBytes, Consumed, Got, Delivers, MaxFrameLength;
  }

  /** A step of those who bring something, and a change of the cap. */
  predicate Arrival(step: Step) {
    step.Receive? || step.Append? || step.Elsewhere? || step.Size? || step.SetCap?
  }

  /** Since a reset to frame k: the transfer in flight is fresh, or nothing has come. */
  predicate Resetting(fs: seq<seq<byte>>, s: State, k: nat) {
    && Sound(s) && Capped(s) && s.reader.Idle? && s.stream.disturbed && FlightRight(fs, s.stream)
    && k <= s.sizes.sized <= |fs|
    && (FlightFresh(fs, s.stream) || s.stream.position == |Concat(fs[..k])|)
  }

  lemma ResetBegins(fs: seq<seq<byte>>, s: State, skip: nat)
    requires Device(fs) && Sound(s) && Capped(s) && FlightRight(fs, s.stream) && s.reader.Idle?
    requires Enabled(fs, s, Reset(skip))
    ensures Resetting(fs, Next(fs, s, Reset(skip)), s.sizes.sized + skip)
  {
    ResetPosition(fs, s, skip);
    hide Concat;
  }

  lemma SameWhileStale(fs: seq<seq<byte>>, s: State, step: Step)
    requires Device(fs) && Sound(s) && s.stream.flight.Flight?
    requires Arrival(step) || step.PurgeSizes? || step.PurgeStream?
    ensures var t := Next(fs, s, step).stream;
            t.position == s.stream.position && (t.flight == s.stream.flight || t.flight.Nothing?)
  {
    StreamNext(fs, s, step);
    hide Concat, Next;
  }

  lemma BringsSizes(fs: seq<seq<byte>>, s: State, step: Step)
    requires Device(fs) && Sound(s) && s.reader.Idle? && s.sizes.sized <= |fs|
    requires Arrival(step) || step.PurgeSizes? || step.PurgeStream?
    ensures var t := Next(fs, s, step);
            && s.sizes.sized <= t.sizes.sized <= |fs| && t.reader.Idle?
            && (s.stream.disturbed ==> t.stream.disturbed)
            && (Arrival(step) ==> t.sizes.sized - |t.sizes.queue| == s.sizes.sized - |s.sizes.queue|)
  {
    CountsOfSizes(fs, s, step);
    StreamNext(fs, s, step);
    if Enabled(fs, s, step) && step.Receive? {
      HandledCounts(s.stream, NextBytes(fs, s.stream, step.count), step.pad, s.cap);
    }
    hide Concat, Next, Handled, NextBytes;
  }

  lemma CountsOfSizes(fs: seq<seq<byte>>, s: State, step: Step)
    requires Device(fs) && Sound(s) && s.reader.Idle? && s.sizes.sized <= |fs|
    requires Arrival(step) || step.PurgeSizes? || step.PurgeStream?
    ensures var t := Next(fs, s, step);
            && s.sizes.sized <= t.sizes.sized <= |fs| && t.reader.Idle?
            && (Arrival(step) ==> t.sizes.sized - |t.sizes.queue| == s.sizes.sized - |s.sizes.queue|)
  {
    hide Concat, Handled, NextBytes, Appended;
  }

  lemma ResettingNext(fs: seq<seq<byte>>, s: State, k: nat, step: Step)
    requires Device(fs) && Resetting(fs, s, k)
    requires Arrival(step) || step.PurgeSizes? || step.PurgeStream?
    ensures Resetting(fs, Next(fs, s, step), k)
  {
    CappedNext(fs, s, step);
    FlightRightNext(fs, s, step);
    BringsSizes(fs, s, step);
    if s.stream.flight.Flight? {
      SameWhileStale(fs, s, step);
    }
    if FlightFresh(fs, s.stream) {
      FreshNext(fs, s, step);
    }
    hide Next, Concat, Capped;
  }

  /** Since the queue was emptied at frame m: it holds the sizes that came since. */
  predicate Requeued(fs: seq<seq<byte>>, s: State, m: nat) {
    QueueRight(fs, s) && s.sizes.sized - |s.sizes.queue| == m
  }

  lemma {:induction false} ArrivalsAfter(fs: seq<seq<byte>>, s: State, k: nat, steps: seq<Step>)
    requires Device(fs) && Resetting(fs, s, k) && forall step :: step in steps ==> Arrival(step)
    ensures Resetting(fs, After(fs, s, steps), k)
    ensures forall m: nat :: Requeued(fs, s, m) ==> Requeued(fs, After(fs, s, steps), m)
    decreases |steps|
  {
    if steps != [] {
      assert steps[0] in steps && Arrival(steps[0]);
      ResettingNext(fs, s, k, steps[0]);
      BringsSizes(fs, s, steps[0]);
      forall m: nat | Requeued(fs, s, m) ensures Requeued(fs, Next(fs, s, steps[0]), m) {
        DriftNext(fs, s, steps[0]);
      }
      assert Sound(s);
      hide Next, Resetting, Requeued, Arrival;
      ArrivalsAfter(fs, Next(fs, s, steps[0]), k, steps[1..]);
    }
  }

  /** A purge, with what comes between its steps. */
  function Purge(skip: nat, a: seq<Step>, b: seq<Step>): seq<Step> {
    ([Reset(skip)] + a) + ([PurgeSizes] + b + [PurgeStream])
  }

  lemma SizesEmptied(fs: seq<seq<byte>>, s: State, k: nat)
    requires Device(fs) && Resetting(fs, s, k)
    ensures Resetting(fs, Next(fs, s, PurgeSizes), k) && Requeued(fs, Next(fs, s, PurgeSizes), s.sizes.sized)
  {
    ResettingNext(fs, s, k, PurgeSizes);
    hide Concat, Resetting;
    assert SizesOf(fs[s.sizes.sized..s.sizes.sized]) == [];
  }

  /** A transfer from before the reset that is still in flight leaves the port settled only if it has no bytes. */
  lemma StaleSettles(fs: seq<seq<byte>>, t: State, k: nat)
    requires Resetting(fs, t, k) && QueueRight(fs, t) && k + |t.sizes.queue| <= t.sizes.sized
    requires Settled(fs, t)
    ensures FlightFresh(fs, t.stream)
  {
    BehindPast(fs, k, t.sizes.sized - |t.sizes.queue| - k);
    hide Concat, SizesOf, Capped;
  }

  lemma StreamEmptied(fs: seq<seq<byte>>, s: State, k: nat, m: nat)
    requires Device(fs) && Resetting(fs, s, k) && Requeued(fs, s, m) && k <= m
    ensures var t := Next(fs, s, PurgeStream); Emptied(fs, t) && t.sizes.sized - |t.sizes.queue| == m
  {
    var t := Next(fs, s, PurgeStream);
    ResettingNext(fs, s, k, PurgeStream);
    assert t == s.(stream := s.stream.(bytes := [], disturbed := true));
    assert QueueRight(fs, t) by {
      hide Resetting, Concat, SizesOf;
    }
    hide Concat, SizesOf, Next, FlightFresh, FlightCounts, QueueRight;
    QueueBounds(fs, t);
    if Settled(fs, t) {
      StaleSettles(fs, t, k);
    }
  }

  lemma UpToSizes(fs: seq<seq<byte>>, s: State, skip: nat, a: seq<Step>)
    requires Device(fs) && Sound(s) && Capped(s) && FlightRight(fs, s.stream) && s.reader.Idle?
    requires Enabled(fs, s, Reset(skip)) && forall step :: step in a ==> Arrival(step)
    ensures Resetting(fs, After(fs, s, [Reset(skip)] + a), s.sizes.sized + skip)
  {
    ResetBegins(fs, s, skip);
    AfterOne(fs, s, Reset(skip), a);
    hide Resetting, Arrival, Enabled, Next, After, Requeued;
    ArrivalsAfter(fs, Next(fs, s, Reset(skip)), s.sizes.sized + skip, a);
  }

  lemma FromSizes(fs: seq<seq<byte>>, u: State, k: nat, b: seq<Step>)
    requires Device(fs) && Resetting(fs, u, k) && forall step :: step in b ==> Arrival(step)
    ensures Sound(u) && u.sizes.sized <= |fs|
    ensures var t := Next(fs, After(fs, Next(fs, u, PurgeSizes), b), PurgeStream);
            && Emptied(fs, t) && |t.sizes.queue| <= t.sizes.sized <= |fs|
            && t.sizes.sized - |t.sizes.queue| == u.sizes.sized
  {
    assert Sound(u) && k <= u.sizes.sized <= |fs|;
    hide Resetting, Arrival, Next, After, Requeued, Emptied;
    SizesEmptied(fs, u, k);
    var w := Next(fs, u, PurgeSizes);
    ArrivalsAfter(fs, w, k, b);
    StreamEmptied(fs, After(fs, w, b), k, u.sizes.sized);
    EmptiedBounds(fs, Next(fs, After(fs, w, b), PurgeStream));
  }

  lemma EmptiedBounds(fs: seq<seq<byte>>, t: State)
    requires Emptied(fs, t)
    ensures |t.sizes.queue| <= t.sizes.sized <= |fs|
  {
    hide Settled, FlightFresh;
  }

  lemma SettledMeans(fs: seq<seq<byte>>, t: State, m: nat)
    requires |t.sizes.queue| <= t.sizes.sized <= |fs| && t.sizes.sized - |t.sizes.queue| == m
    ensures Settled(fs, t) <==> t.stream.position - InFlight(t.stream) == |Concat(fs[..m])|
  {
    hide Concat;
  }

  /** What a purge leaves, whatever arrives between its steps: the port is settled if and only if exactly the bytes of
  the frames whose sizes had come when the sizes were emptied have come when the stream is. */
  lemma PurgeEmpties(fs: seq<seq<byte>>, s: State, skip: nat, a: seq<Step>, b: seq<Step>)
    requires Device(fs) && Sound(s) && Capped(s) && FlightRight(fs, s.stream) && s.reader.Idle?
    requires Enabled(fs, s, Reset(skip)) && forall step :: step in a + b ==> Arrival(step)
    ensures var u, t := After(fs, s, [Reset(skip)] + a), After(fs, s, Purge(skip, a, b));
            && u.sizes.sized <= |fs| && Emptied(fs, t) && |t.sizes.queue| <= t.sizes.sized <= |fs|
            && (Settled(fs, t) <==> t.stream.position - InFlight(t.stream) == |Concat(fs[..u.sizes.sized])|)
  {
    hide *;
    assert (forall step :: step in a ==> step in a + b) && (forall step :: step in b ==> step in a + b);
    UpToSizes(fs, s, skip, a);
    var u := After(fs, s, [Reset(skip)] + a);
    FromSizes(fs, u, s.sizes.sized + skip, b);
    PurgeParts(fs, s, skip, a, b);
    SettledMeans(fs, After(fs, s, Purge(skip, a, b)), u.sizes.sized);
  }

  lemma PurgeParts(fs: seq<seq<byte>>, s: State, skip: nat, a: seq<Step>, b: seq<Step>)
    requires Device(fs) && Sound(s)
    ensures var u := After(fs, s, [Reset(skip)] + a);
            After(fs, s, Purge(skip, a, b)) == Next(fs, After(fs, Next(fs, u, PurgeSizes), b), PurgeStream)
  {
    hide Next, After;
    var u := After(fs, s, [Reset(skip)] + a);
    AfterAppend(fs, s, [Reset(skip)] + a, [PurgeSizes] + b + [PurgeStream]);
    AfterAppend(fs, u, [PurgeSizes] + b, [PurgeStream]);
    AfterOne(fs, u, PurgeSizes, b);
    var v := After(fs, Next(fs, u, PurgeSizes), b);
    JustOne(fs, v, PurgeStream);
  }

  lemma JustOne(fs: seq<seq<byte>>, s: State, step: Step)
    requires Device(fs) && Sound(s)
    ensures After(fs, s, [step]) == Next(fs, s, step)
  {
    hide Next;
    assert [step][1..] == [];
  }

  /** Every reached state can be purged. */
  lemma ReachedCanBePurged(fs: seq<seq<byte>>, g: Setting, steps: seq<Step>)
    requires Device(fs)
    ensures var s := Reached(fs, g, steps);
            s.sizes.sized <= |fs| && Sound(s) && Capped(s) && FlightRight(fs, s.stream)
  {
    ReachedInvariant(fs, g, steps);
    SizedWithin(fs, Start(g), steps);
    hide After, Concat;
  }

  /** The exact condition over all runs: a purge while no read is under way restores framing for good, or never. */
  lemma PurgeRestoresIff(fs: seq<seq<byte>>, g: Setting, before: seq<Step>, skip: nat, a: seq<Step>, b: seq<Step>,
                       steps: seq<Step>)
    requires Device(fs) && Reached(fs, g, before).reader.Idle? && Enabled(fs, Reached(fs, g, before), Reset(skip))
    requires (forall step :: step in a + b ==> Arrival(step)) && (forall step :: step in steps ==> Quiet(step))
    ensures var s := Reached(fs, g, before);
            var u, t := After(fs, s, [Reset(skip)] + a), After(fs, s, Purge(skip, a, b));
            var later := After(fs, t, steps);
            && u.sizes.sized <= |fs| && |later.sizes.queue| <= later.sizes.sized <= |fs|
            && InFlight(later.stream) <= later.stream.position <= |Concat(fs)|
            && (later.reader.Idle? && later.stream.discarded == t.stream.discarded
                && later.stream.misread == t.stream.misread ==>
                  (InStep(fs, later)
                   <==> t.stream.position - InFlight(t.stream) == |Concat(fs[..u.sizes.sized])|))
  {
    var s := Reached(fs, g, before);
    ReachedCanBePurged(fs, g, before);
    PurgeEmpties(fs, s, skip, a, b);
    var t := After(fs, s, Purge(skip, a, b));
    InStepIff(fs, t, steps);
    hide *;
  }

  // A purge that nothing comes between.

  function Purged(fs: seq<seq<byte>>, s: State, skip: nat): State
    requires s.sizes.sized + skip <= |fs|
  {
    var k := s.sizes.sized + skip;
    s.(sizes := Sizes([], k, s.sizes.taken),
       stream := s.stream.(position := |Concat(fs[..k])|, bytes := [], disturbed := true))
  }

  lemma PurgeNext(fs: seq<seq<byte>>, s: State, skip: nat)
    requires Device(fs) && Sound(s) && Enabled(fs, s, Reset(skip))
    ensures Next(fs, Next(fs, Next(fs, s, Reset(skip)), PurgeSizes), PurgeStream) == Purged(fs, s, skip)
  {
    hide Concat, Handled, Appended, TakenFrom, ConsumedFrom;
  }

  lemma PurgeInRow(fs: seq<seq<byte>>, s: State, skip: nat)
    requires Device(fs) && Sound(s) && Enabled(fs, s, Reset(skip))
    ensures After(fs, s, [Reset(skip), PurgeSizes, PurgeStream]) == Purged(fs, s, skip)
  {
    hide *;
    PurgeNext(fs, s, skip);
    PurgeParts(fs, s, skip, [], []);
    NothingBetween(fs, s, skip);
  }

  lemma NothingBetween(fs: seq<seq<byte>>, s: State, skip: nat)
    requires Device(fs) && Sound(s)
    ensures Purge(skip, [], []) == [Reset(skip), PurgeSizes, PurgeStream]
    ensures After(fs, s, [Reset(skip)] + []) == Next(fs, s, Reset(skip))
    ensures After(fs, Next(fs, Next(fs, s, Reset(skip)), PurgeSizes), [])
            == Next(fs, Next(fs, s, Reset(skip)), PurgeSizes)
  {
    hide Next;
    AfterOne(fs, s, Reset(skip), []);
  }

  /** Such a purge, in any run and at any moment without a read under way, restores framing if and only if no transfer
  with bytes from before the reset is in flight. */
  lemma UndividedPurge(fs: seq<seq<byte>>, g: Setting, before: seq<Step>, skip: nat)
    requires Device(fs) && Reached(fs, g, before).reader.Idle? && Enabled(fs, Reached(fs, g, before), Reset(skip))
    ensures var s := Reached(fs, g, before);
            var t := After(fs, s, [Reset(skip), PurgeSizes, PurgeStream]);
            && Emptied(fs, t) && |t.sizes.queue| <= t.sizes.sized <= |fs|
            && (Settled(fs, t) <==> InFlight(s.stream) == 0)
  {
    var s := Reached(fs, g, before);
    ReachedCanBePurged(fs, g, before);
    PurgedEmptied(fs, s, skip);
  }

  lemma PurgedEmptied(fs: seq<seq<byte>>, s: State, skip: nat)
    requires Device(fs) && Sound(s) && Capped(s) && FlightRight(fs, s.stream) && s.reader.Idle?
    requires Enabled(fs, s, Reset(skip))
    ensures var t := After(fs, s, [Reset(skip), PurgeSizes, PurgeStream]);
            && t == Purged(fs, s, skip) && Emptied(fs, t) && |t.sizes.queue| <= t.sizes.sized <= |fs|
            && (Settled(fs, t) <==> InFlight(s.stream) == 0)
  {
    hide *;
    PurgeInRow(fs, s, skip);
    PurgeEmpties(fs, s, skip, [], []);
    NothingBetween(fs, s, skip);
    PurgedPosition(fs, s, skip);
  }

  lemma PurgedPosition(fs: seq<seq<byte>>, s: State, skip: nat)
    requires Device(fs) && Sound(s) && FlightRight(fs, s.stream) && Enabled(fs, s, Reset(skip))
    ensures s.sizes.sized + skip <= |fs| && Next(fs, s, Reset(skip)).sizes.sized == s.sizes.sized + skip
    ensures var t := Purged(fs, s, skip);
            && t.sizes.queue == [] && t.sizes.sized == s.sizes.sized + skip
            && t.stream.position == |Concat(fs[..s.sizes.sized + skip])|
            && InFlight(t.stream) == InFlight(s.stream) <= t.stream.position
  {
    ResetPosition(fs, s, skip);
    hide Concat;
  }

  /** So without a transfer in flight it always restarts framing, at the first frame that the board has not dropped. */
  lemma UndividedPurgeRestarts(fs: seq<seq<byte>>, g: Setting, before: seq<Step>, skip: nat, steps: seq<Step>)
    requires Device(fs) && Reached(fs, g, before).reader.Idle? && Enabled(fs, Reached(fs, g, before), Reset(skip))
    requires InFlight(Reached(fs, g, before).stream) == 0
    ensures var s := Reached(fs, g, before);
            var t, gs := After(fs, s, [Reset(skip), PurgeSizes, PurgeStream]), fs[s.sizes.sized + skip..];
            && Sound(Rest(t)) && |t.sizes.queue| <= t.sizes.sized && InFlight(t.stream) <= t.stream.position
            && var later, u := After(fs, t, steps), After(gs, Rest(t), steps);
               && later.stream.bytes == u.stream.bytes && later.sizes.queue == u.sizes.queue
               && later.finished == s.finished + LaterReads(u.finished, PastOf(t))
               && (Intact(u.stream) ==> IsFramed(gs, u.stream) && AllRight(gs, s.appendStatus, u.finished))
  {
    hide *;
    var s := Reached(fs, g, before);
    ReachedCanBePurged(fs, g, before);
    PurgedEmptied(fs, s, skip);
    PurgedRemains(fs, s, skip);
    var t := After(fs, s, [Reset(skip), PurgeSizes, PurgeStream]);
    FramingRestarts(fs, t, steps);
  }

  lemma PurgedRemains(fs: seq<seq<byte>>, s: State, skip: nat)
    requires Enabled(fs, s, Reset(skip))
    ensures s.sizes.sized + skip <= |fs|
    ensures var t := Purged(fs, s, skip);
            && t.sizes.queue == [] && t.sizes.sized == s.sizes.sized + skip
            && Remaining(fs, t) == fs[s.sizes.sized + skip..]
            && t.finished == s.finished && t.appendStatus == s.appendStatus
  {
    hide Concat;
  }
}
