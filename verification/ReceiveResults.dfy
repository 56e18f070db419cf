/** What the receive machine's invariants mean for a reader, and where they end. */
module ReceiveResults {
  import opened Sequences
  import opened Frames
  import opened ReceiveRuns
  import opened Transfers

  const ENOBUFS := 105

  /** How a port is set up, and what the last transfer of any port ended in. */
  datatype Setting = Setting(cap: nat, appendStatus: bool, multiple: bool, tail: Tail)

  function Start(g: Setting): State {
    Initial(g.cap, g.appendStatus, g.multiple, g.tail)
  }

  function Reached(fs: seq<seq<byte>>, g: Setting, steps: seq<Step>): (s: State)
    requires Device(fs)
    ensures Sound(s)
  {
    After(fs, Start(g), steps)
  }

  lemma StartInvariant(fs: seq<seq<byte>>, g: Setting)
    requires Device(fs)
    ensures Invariant(fs, Start(g))
  {
    assert Concat(fs)[0..0] == [] && fs[0..0] == fs[..0] == [];
  }

  lemma ReachedInvariant(fs: seq<seq<byte>>, g: Setting, steps: seq<Step>)
    requires Device(fs)
    ensures Invariant(fs, Reached(fs, g, steps))
  {
    StartInvariant(fs, g);
    hide Invariant;
    InvariantAfter(fs, Start(g), steps);
  }

  lemma SlicePrefix<T>(a: seq<T>, i: nat, k: nat)
    requires i <= k <= |a|
    ensures a[i..k] <= a[i..]
  {
    assert a[i..][..k - i] == a[i..k];
  }

  /** However bytes, sizes and reads interleave: as long as nothing was discarded, misread or disturbed, the stream
  begins with the next frame, and the queue holds the sizes of the next frames. */
  lemma StreamIsFramed(fs: seq<seq<byte>>, g: Setting, steps: seq<Step>)
    requires Device(fs)
    ensures var s := Reached(fs, g, steps);
            Intact(s.stream) ==>
              && Done(s) <= s.sizes.taken <= s.sizes.sized <= |fs|
              && s.stream.bytes <= Concat(fs[Done(s)..])
              && s.sizes.queue == SizesOf(fs[s.sizes.taken..s.sizes.sized])
  {
    var s := Reached(fs, g, steps);
    ReachedInvariant(fs, g, steps);
    if Intact(s.stream) {
      ConcatCut(fs, Done(s));
      SlicePrefix(Concat(fs), s.stream.removed, s.stream.position - InFlight(s.stream));
    }
  }

  /** The reads finished so far gave the device's frames in order and exactly once, each frame in one read, with or
  without its status bytes. */
  lemma ReadsGiveFrames(fs: seq<seq<byte>>, g: Setting, steps: seq<Step>)
    requires Device(fs)
    ensures var s := Reached(fs, g, steps);
            Intact(s.stream) ==> AllRight(fs, g.appendStatus, s.finished)
  {
    ReachedInvariant(fs, g, steps);
    SettingsStay(fs, Start(g), steps);
  }

  lemma {:induction false} SettingsStay(fs: seq<seq<byte>>, s: State, steps: seq<Step>)
    requires Device(fs) && Sound(s)
    ensures After(fs, s, steps).appendStatus == s.appendStatus && After(fs, s, steps).multiple == s.multiple
    decreases |steps|
  {
    hide Next;
    if steps != [] {
      CapNext(fs, s, steps[0]);
      SettingsStay(fs, Next(fs, s, steps[0]), steps[1..]);
    }
  }

  /** The input memory in use never exceeds the highest cap, even when purged, discarding or faulting. */
  lemma InputCapRespected(fs: seq<seq<byte>>, g: Setting, steps: seq<Step>)
    requires Device(fs)
    ensures var s := Reached(fs, g, steps); |s.stream.bytes| <= s.highest
  {
    ReachedInvariant(fs, g, steps);
  }

  /** Every received byte is accounted for, and exactly the bytes of the consumed frames were removed. */
  lemma BytesAccountedFor(fs: seq<seq<byte>>, g: Setting, steps: seq<Step>)
    requires Device(fs)
    ensures var s := Reached(fs, g, steps); var st := s.stream;
            !st.disturbed ==>
              && |st.bytes| + InFlight(st) + st.removed + st.discarded == st.position + st.misread
              && Done(s) <= |fs| && st.removed == |Concat(fs[..Done(s)])|
  {
    ReachedInvariant(fs, g, steps);
  }

  /** The step appends a transfer that was misread. */
  predicate AppendsMisread(s: State, step: Step) {
    step == Append(true) && s.stream.flight.Flight? && s.stream.flight.misread
  }

  /** No transfer appended in this run had a length of 257 times an odd b behind a transfer ending in two bytes b. */
  predicate MisreadFree(fs: seq<seq<byte>>, s: State, steps: seq<Step>)
    requires Device(fs) && Sound(s)
    decreases |steps|
  {
    steps == [] || (!AppendsMisread(s, steps[0]) && MisreadFree(fs, Next(fs, s, steps[0]), steps[1..]))
  }

  lemma MisreadNext(fs: seq<seq<byte>>, s: State, step: Step)
    requires Device(fs) && Sound(s)
    ensures Next(fs, s, step).stream.misread == s.stream.misread + if AppendsMisread(s, step) then 1 else 0
  {
    StreamNext(fs, s, step);
    if Enabled(fs, s, step) && step.Receive? {
      HandledCounts(s.stream, NextBytes(fs, s.stream, step.count), step.pad, s.cap);
    }
    hide Concat, Next, Handled, NextBytes;
  }

  lemma {:induction false} MisreadCounted(fs: seq<seq<byte>>, s: State, steps: seq<Step>)
    requires Device(fs) && Sound(s)
    ensures After(fs, s, steps).stream.misread >= s.stream.misread
    ensures After(fs, s, steps).stream.misread == s.stream.misread <==> MisreadFree(fs, s, steps)
    decreases |steps|
  {
    if steps != [] {
      MisreadNext(fs, s, steps[0]);
      hide Next, AppendsMisread;
      MisreadCounted(fs, Next(fs, s, steps[0]), steps[1..]);
    }
  }

  /** The exact conditions for framing over all runs that nothing disturbed: without discards it holds if and only if
  no misread transfer was appended, and without misread transfers if and only if nothing was discarded. With both it
  can hold only if the bytes discarded are as many as the transfers misread. */
  lemma FramedIff(fs: seq<seq<byte>>, g: Setting, steps: seq<Step>)
    requires Device(fs)
    ensures var st := Reached(fs, g, steps).stream;
            !st.disturbed ==>
              && (st.discarded == 0 ==> (IsFramed(fs, st) <==> MisreadFree(fs, Start(g), steps)))
              && (MisreadFree(fs, Start(g), steps) ==> (IsFramed(fs, st) <==> st.discarded == 0))
              && (IsFramed(fs, st) ==> st.misread == st.discarded)
  {
    ReachedInvariant(fs, g, steps);
    MisreadCounted(fs, Start(g), steps);
    hide Concat, After, MisreadFree;
  }

  /** Between taking a size and consuming the bytes the lock is free, yet the frame stays complete. */
  lemma CheckStaysValid(fs: seq<seq<byte>>, g: Setting, steps: seq<Step>)
    requires Device(fs)
    ensures var s := Reached(fs, g, steps);
            !s.stream.disturbed && s.reader.Taken? ==> s.reader.size <= |s.stream.bytes|
  {
    ReachedInvariant(fs, g, steps);
  }

  // Readiness.

  predicate Acts(step: Step) {
    step.Take? || step.Consume? || step.StreamRead? || step.PurgeSizes? || step.PurgeStream?
  }

  lemma ReadyNext(fs: seq<seq<byte>>, s: State, step: Step)
    requires Device(fs) && Sound(s) && Ready(s) && !Acts(step)
    ensures Ready(Next(fs, s, step)) && Next(fs, s, step).sizes.queue[0] == s.sizes.queue[0]
  {
    if Enabled(fs, s, step) && step.Receive? {
      HandledCounts(s.stream, NextBytes(fs, s.stream, step.count), step.pad, s.cap);
    }
    hide Concat, Handled, NextBytes;
  }

  /** Readiness once seen holds until the reader acts or a purge comes. */
  lemma {:induction false} ReadyStays(fs: seq<seq<byte>>, s: State, steps: seq<Step>)
    requires Device(fs) && Sound(s) && Ready(s) && forall step :: step in steps ==> !Acts(step)
    ensures Ready(After(fs, s, steps)) && After(fs, s, steps).sizes.queue[0] == s.sizes.queue[0]
    decreases |steps|
  {
    if steps != [] {
      assert steps[0] in steps;
      ReadyNext(fs, s, steps[0]);
      hide Next, Ready;
      ReadyStays(fs, Next(fs, s, steps[0]), steps[1..]);
    }
  }

  /** A reader that finds a ready frame takes it, if and only if its buffer has the room. */
  lemma ReadyIsRead(fs: seq<seq<byte>>, s: State, steps: seq<Step>)
    requires Device(fs) && Sound(s) && Ready(s) && s.reader.Looping? && forall step :: step in steps ==> !Acts(step)
    ensures var t := After(fs, s, steps);
            && t.reader == s.reader
            && (Next(fs, t, Take).reader.Taken? <==>
                s.sizes.queue[0] <= MaxFrameLength(s.reader.buf, s.reader.claimed, s.appendStatus))
  {
    ReadyStays(fs, s, steps);
    ReaderWaits(fs, s, steps);
    SettingsStay(fs, s, steps);
    hide After, MaxFrameLength, Concat;
  }

  lemma WaitsNext(fs: seq<seq<byte>>, s: State, step: Step)
    requires Device(fs) && Sound(s) && s.reader.Looping? && !Acts(step)
    ensures Next(fs, s, step).reader == s.reader
  {
    hide Concat, Handled, Appended, NextBytes;
  }

  lemma {:induction false} ReaderWaits(fs: seq<seq<byte>>, s: State, steps: seq<Step>)
    requires Device(fs) && Sound(s) && s.reader.Looping? && forall step :: step in steps ==> !Acts(step)
    ensures After(fs, s, steps).reader == s.reader
    decreases |steps|
  {
    if steps != [] {
      assert steps[0] in steps;
      WaitsNext(fs, s, steps[0]);
      hide Next;
      ReaderWaits(fs, Next(fs, s, steps[0]), steps[1..]);
    }
  }

  // Results.

  /** What the call returns. */
  function Result(claimed: nat): int {
    if claimed == 0 then -ENOBUFS else claimed
  }

  lemma {:induction false} DeliveryEmpty(fs: seq<seq<byte>>, appendStatus: bool)
    requires Device(fs)
    ensures Delivery(fs, appendStatus) == [] <==> fs == [] || (!appendStatus && forall f :: f in fs ==> |f| == 2)
  {
    if fs != [] {
      DeliveryEmpty(fs[1..], appendStatus);
      assert forall f :: f in fs <==> f == fs[0] || f in fs[1..];
    }
  }

  /** A read fails with -ENOBUFS if and only if it consumed no frame, or only frames that are nothing but status bytes
  it does not keep: those are lost without a trace. */
  lemma FailsIff(fs: seq<seq<byte>>, appendStatus: bool, r: Read)
    requires Device(fs) && ReadRight(fs, appendStatus, r)
    ensures Result(r.claimed) == -105 <==>
            r.first == r.last || (!appendStatus && forall f :: f in fs[r.first..r.last] ==> |f| == 2)
    ensures Result(r.claimed) != -105 ==> Result(r.claimed) == |r.out| > 0
  {
    DeliveryEmpty(fs[r.first..r.last], appendStatus);
  }

  /** Consuming a frame delivers what it claims exactly if nothing is to be delivered, or the copy succeeds and the
  bytes are still there. */
  lemma ConsumeDeliversIff(fs: seq<seq<byte>>, s: State, copied: bool)
    requires Device(fs) && Sound(s) && s.reader.Taken? && s.multiple
    ensures var r, t := s.reader, Next(fs, s, Consume(copied)).reader;
            && t.claimed - r.claimed == KeptLength(r.size, s.appendStatus)
            && (|t.out| - |r.out| == t.claimed - r.claimed
                <==> Delivers(s.stream, KeptLength(r.size, s.appendStatus), copied))
            && t.full == (r.full && Delivers(s.stream, KeptLength(r.size, s.appendStatus), copied))
  {
    hide Concat, Consumed;
  }

  /** In every run, purges and failed copies included, no finished read claims less than it delivered, and it claims
  the right number exactly if each of its frames met that condition. */
  lemma ClaimsIff(fs: seq<seq<byte>>, g: Setting, steps: seq<Step>, i: nat)
    requires Device(fs) && i < |Reached(fs, g, steps).finished|
    ensures var r := Reached(fs, g, steps).finished[i]; |r.out| <= r.claimed && (|r.out| == r.claimed <==> r.full)
  {
    ReachedInvariant(fs, g, steps);
  }

  /** An undisturbed stream gives all frames only if nothing was discarded: it stays short of exactly the discarded
  bytes. */
  lemma DiscardsLeaveStreamShort(fs: seq<seq<byte>>, g: Setting, steps: seq<Step>)
    requires Device(fs)
    ensures var s := Reached(fs, g, steps);
            !s.stream.disturbed && s.stream.misread == 0 ==>
              && Done(s) <= |fs| && (Done(s) == |fs| ==> s.stream.discarded == 0)
              && (s.stream.position == |Concat(fs)| ==>
                    |s.stream.bytes| + InFlight(s.stream) + s.stream.discarded == |Concat(fs[Done(s)..])|)
  {
    var s := Reached(fs, g, steps);
    ReachedInvariant(fs, g, steps);
    if !s.stream.disturbed {
      ConcatCut(fs, Done(s));
      assert Done(s) == |fs| ==> fs[..Done(s)] == fs;
    }
  }

  lemma AfterOne(fs: seq<seq<byte>>, s: State, step: Step, rest: seq<Step>)
    requires Device(fs) && Sound(s)
    ensures After(fs, s, [step] + rest) == After(fs, Next(fs, s, step), rest)
  {
    assert ([step] + rest)[1..] == rest;
  }

  lemma {:induction false} AfterAppend(fs: seq<seq<byte>>, s: State, a: seq<Step>, b: seq<Step>)
    requires Device(fs) && Sound(s)
    ensures After(fs, s, a + b) == After(fs, After(fs, s, a), b)
    decreases |a|
  {
    hide Next;
    if a == [] {
      assert a + b == b;
    } else {
      assert (a + b)[0] == a[0] && (a + b)[1..] == a[1..] + b;
      AfterAppend(fs, Next(fs, s, a[0]), a[1..], b);
    }
  }

  // A read while nobody else moves.

  function ReadOn(s: State): (t: State)
    requires Sound(s) && s.reader.Looping?
    ensures Sound(t) && t.reader.Idle?
    decreases |s.sizes.queue|
  {
    var taken := TakenFrom(s);
    if taken.reader.Idle? then taken
    else
      var t := ConsumedFrom(taken, true);
      if t.reader.Idle? then t else ReadOn(t)
  }

  function StartedRead(s: State, buf: nat): (t: State)
    requires Sound(s)
    ensures Sound(t) && t.reader.Looping?
  {
    s.(reader := Looping(buf, [], 0, s.sizes.taken, true))
  }

  function ReadAlone(s: State, buf: nat): (t: State)
    requires Sound(s) && s.reader.Idle?
    ensures Sound(t) && t.reader.Idle?
  {
    ReadOn(StartedRead(s, buf))
  }

  function ReadSteps(s: State): seq<Step>
    requires Sound(s) && s.reader.Looping?
    decreases |s.sizes.queue|
  {
    var taken := TakenFrom(s);
    if taken.reader.Idle? then [Take]
    else
      var t := ConsumedFrom(taken, true);
      [Take] + ([Consume(true)] + if t.reader.Idle? then [] else ReadSteps(t))
  }

  lemma {:induction false} ReadOnIsRun(fs: seq<seq<byte>>, s: State)
    requires Device(fs) && Sound(s) && s.reader.Looping?
    ensures After(fs, s, ReadSteps(s)) == ReadOn(s)
    decreases |s.sizes.queue|
  {
    var taken := TakenFrom(s);
    assert Next(fs, s, Take) == taken;
    if taken.reader.Idle? {
      AfterOne(fs, s, Take, []);
    } else {
      var t := ConsumedFrom(taken, true);
      assert Next(fs, taken, Consume(true)) == t;
      var rest := if t.reader.Idle? then [] else ReadSteps(t);
      AfterOne(fs, s, Take, [Consume(true)] + rest);
      AfterOne(fs, taken, Consume(true), rest);
      if t.reader.Looping? {
        ReadOnIsRun(fs, t);
      }
    }
  }

  /** It is a run of the machine, so it keeps all of its invariants. */
  lemma ReadAloneIsRun(fs: seq<seq<byte>>, s: State, buf: nat)
    requires Device(fs) && Invariant(fs, s) && s.reader.Idle?
    ensures Invariant(fs, ReadAlone(s, buf))
    ensures ReadAlone(s, buf) == After(fs, s, [StartRead(buf)] + ReadSteps(StartedRead(s, buf)))
  {
    var t := StartedRead(s, buf);
    assert Next(fs, s, StartRead(buf)) == t;
    InvariantNext(fs, s, StartRead(buf));
    ReadOnIsRun(fs, t);
    InvariantAfter(fs, t, ReadSteps(t));
    AfterOne(fs, s, StartRead(buf), ReadSteps(t));
  }

  function Sum(ns: seq<nat>): nat {
    if ns == [] then 0 else ns[0] + Sum(ns[1..])
  }

  function KeptSum(ns: seq<nat>, appendStatus: bool): nat
    requires AtLeastTwo(ns)
  {
    if ns == [] then 0 else KeptLength(ns[0], appendStatus) + KeptSum(ns[1..], appendStatus)
  }

  /** The first n queued frames have arrived, and what the reader is to have of them fits. */
  predicate Fit(s: State, n: nat)
    requires Sound(s) && s.reader.Looping? && n <= |s.sizes.queue|
  {
    && Sum(s.sizes.queue[..n]) <= |s.stream.bytes|
    && s.reader.claimed + KeptSum(s.sizes.queue[..n], s.appendStatus) <= s.reader.buf
    && (n <= 1 || s.multiple)
  }

  lemma TurnConsumes(s: State)
    requires Sound(s) && s.reader.Taken? && s.reader.size <= |s.stream.bytes|
    ensures var t := ConsumedFrom(s, true);
            var claimed := s.reader.claimed + KeptLength(s.reader.size, s.appendStatus);
            && t.sizes == s.sizes && t.appendStatus == s.appendStatus && t.multiple == s.multiple
            && t.stream.bytes == s.stream.bytes[s.reader.size..]
            && (if s.multiple
                then t.reader.Looping? && t.reader.buf == s.reader.buf && t.reader.claimed == claimed
                     && t.finished == s.finished
                else t.reader.Idle? && |t.finished| == |s.finished| + 1 && t.finished[|s.finished|].claimed == claimed)
  {
    ConsumedBytes(s.stream, s.reader.size, KeptLength(s.reader.size, s.appendStatus), true);
    hide Consumed, Got;
  }

  /** What one turn of the loop does. */
  lemma OneTurn(s: State)
    requires Sound(s) && s.reader.Looping? && CanTake(s)
    ensures TakenFrom(s).reader.Taken?
    ensures var t, q := ConsumedFrom(TakenFrom(s), true), s.sizes.queue;
            var claimed := s.reader.claimed + KeptLength(q[0], s.appendStatus);
            && t.sizes == Sizes(q[1..], s.sizes.sized, s.sizes.taken + 1)
            && t.stream.bytes == s.stream.bytes[q[0]..]
            && t.appendStatus == s.appendStatus && t.multiple == s.multiple
            && (if s.multiple
                then t.reader.Looping? && t.reader.buf == s.reader.buf && t.reader.claimed == claimed
                     && t.finished == s.finished
                else t.reader.Idle? && |t.finished| == |s.finished| + 1 && t.finished[|s.finished|].claimed == claimed)
  {
    assert TakenFrom(s).reader.Taken?;
    hide ConsumedFrom, MaxFrameLength;
    TurnConsumes(TakenFrom(s));
  }

  lemma SumsFirst(q: seq<nat>, n: nat, appendStatus: bool)
    requires AtLeastTwo(q) && 0 < n <= |q|
    ensures Sum(q[..n]) == q[0] + Sum(q[1..][..n - 1])
    ensures KeptSum(q[..n], appendStatus) == KeptLength(q[0], appendStatus) + KeptSum(q[1..][..n - 1], appendStatus)
  {
    assert q[..n][0] == q[0] && q[..n][1..] == q[1..][..n - 1];
  }

  /** Looking at one frame after the other finds the longest prefix of the queue that fits. */
  lemma {:induction false} TakesLongestPrefix(s: State, n: nat)
    requires Sound(s) && s.reader.Looping? && s.reader.buf < WORD / 2 - 2 && n <= |s.sizes.queue|
    ensures var k := ReadOn(s).sizes.taken - s.sizes.taken;
            0 <= k <= |s.sizes.queue| && (n <= k <==> Fit(s, n))
    decreases |s.sizes.queue|
  {
    RoomOfOrdinaryBuffer(s.reader.buf, s.reader.claimed, s.appendStatus);
    if n > 0 {
      SumsFirst(s.sizes.queue, n, s.appendStatus);
    }
    hide Sum, KeptSum, Consumed, Got, ConsumedFrom, MaxFrameLength;
    if CanTake(s) {
      OneTurn(s);
      if s.multiple {
        TakesLongestPrefix(ConsumedFrom(TakenFrom(s), true), if n > 0 then n - 1 else 0);
      }
    }
  }

  lemma DropsAdd(q: seq<nat>, bytes: seq<byte>, k: nat)
    requires AtLeastTwo(q) && 0 < k <= |q| && q[0] + Sum(q[1..][..k - 1]) <= |bytes|
    ensures q[1..][k - 1..] == q[k..] && Sum(q[..k]) <= |bytes|
    ensures bytes[q[0]..][Sum(q[1..][..k - 1])..] == bytes[Sum(q[..k])..]
  {
    SumsFirst(q, k, true);
    hide Sum, KeptSum;
  }

  lemma ReadOnUnfolds(s: State)
    requires Sound(s) && s.reader.Looping?
    ensures ReadOn(s) == if !CanTake(s) then Finished(s)
                         else
                           var t := ConsumedFrom(TakenFrom(s), true);
                           if t.reader.Looping? then ReadOn(t) else t
  {
    assert CanTake(s) ==> TakenFrom(s).reader.Taken?;
  }

  /** The state the read leaves: the frames' sizes are gone from the queue, and exactly their bytes from the stream. */
  lemma {:induction false} ReadRemoves(s: State)
    requires Sound(s) && s.reader.Looping?
    ensures var t := ReadOn(s); var k := t.sizes.taken - s.sizes.taken;
            && 0 <= k <= |s.sizes.queue| && t.sizes.queue == s.sizes.queue[k..]
            && Sum(s.sizes.queue[..k]) <= |s.stream.bytes|
            && t.stream.bytes == s.stream.bytes[Sum(s.sizes.queue[..k])..]
    decreases |s.sizes.queue|
  {
    hide ReadOn, ConsumedFrom, TakenFrom, Sum, MaxFrameLength;
    ReadOnUnfolds(s);
    SumOfNone();
    if CanTake(s) {
      OneTurn(s);
      hide CanTake;
      var t := ConsumedFrom(TakenFrom(s), true);
      if s.multiple {
        ReadRemoves(t);
      }
      DropsAdd(s.sizes.queue, s.stream.bytes, ReadOn(s).sizes.taken - s.sizes.taken);
    }
  }

  lemma SumOfNone()
    ensures Sum([]) == 0
  {
  }

  lemma {:induction false} ReadStaysIntact(s: State)
    requires Sound(s) && s.reader.Looping? && Intact(s.stream)
    ensures Intact(ReadOn(s).stream)
    decreases |s.sizes.queue|
  {
    hide MaxFrameLength, KeptLength;
    if CanTake(s) && s.multiple {
      ReadStaysIntact(ConsumedFrom(TakenFrom(s), true));
    }
  }

  lemma {:induction false} ReadRecorded(s: State)
    requires Sound(s) && s.reader.Looping?
    ensures var t := ReadOn(s);
            && |t.finished| == |s.finished| + 1 && t.finished[..|s.finished|] == s.finished
            && t.finished[|s.finished|].first == s.reader.first && t.finished[|s.finished|].last == t.sizes.taken
            && t.appendStatus == s.appendStatus && t.multiple == s.multiple && t.cap == s.cap
            && t.stream.flight == s.stream.flight
    decreases |s.sizes.queue|
  {
    hide MaxFrameLength, Got, KeptLength;
    if CanTake(s) && s.multiple {
      ReadRecorded(ConsumedFrom(TakenFrom(s), true));
    }
  }

  /** The sums over the queue are the lengths of the frames. */
  lemma {:induction false} SumsOfFrames(fs: seq<seq<byte>>, appendStatus: bool)
    requires Device(fs)
    ensures AtLeastTwo(SizesOf(fs))
    ensures Sum(SizesOf(fs)) == |Concat(fs)|
    ensures KeptSum(SizesOf(fs), appendStatus) == |Delivery(fs, appendStatus)|
  {
    if fs != [] {
      SumsOfFrames(fs[1..], appendStatus);
      assert SizesOf(fs)[1..] == SizesOf(fs[1..]);
    }
  }

  lemma QueuedFrames(fs: seq<seq<byte>>, s: State, n: nat)
    requires Device(fs) && Sound(s) && Aligned(fs, s) && !s.stream.disturbed && n <= |s.sizes.queue|
    ensures s.sizes.taken + n <= |fs|
    ensures Sum(s.sizes.queue[..n]) == |Concat(fs[s.sizes.taken..s.sizes.taken + n])|
    ensures KeptSum(s.sizes.queue[..n], s.appendStatus)
            == |Delivery(fs[s.sizes.taken..s.sizes.taken + n], s.appendStatus)|
  {
    assert s.sizes.queue[..n] == SizesOf(fs[s.sizes.taken..s.sizes.taken + n]);
    hide Aligned;
    SumsOfFrames(fs[s.sizes.taken..s.sizes.taken + n], s.appendStatus);
  }

  /** A read while nobody else moves gives exactly the next frames: as many as have arrived and fit. The longest such
  prefix is taken, or at most one frame if the reader wants no more. */
  lemma ReadGivesLongestPrefix(fs: seq<seq<byte>>, s: State, buf: nat, n: nat)
    requires Device(fs) && Invariant(fs, s) && Intact(s.stream) && s.reader.Idle?
    requires buf < WORD / 2 - 2 && n <= |s.sizes.queue|
    ensures var t := ReadAlone(s, buf); var k := t.sizes.taken;
            && s.sizes.taken <= k <= |fs| && s.sizes.taken + n <= |fs| && |t.finished| == |s.finished| + 1
            && t.finished[|s.finished|].out == Delivery(fs[s.sizes.taken..k], s.appendStatus)
            && t.finished[|s.finished|].claimed == |Delivery(fs[s.sizes.taken..k], s.appendStatus)|
            && (s.sizes.taken + n <= k <==>
                  && |Concat(fs[s.sizes.taken..s.sizes.taken + n])| <= |s.stream.bytes|
                  && |Delivery(fs[s.sizes.taken..s.sizes.taken + n], s.appendStatus)| <= buf
                  && (n <= 1 || s.multiple))
  {
    var r := StartedRead(s, buf);
    var t := ReadAlone(s, buf);
    ReadAloneIsRun(fs, s, buf);
    TakesLongestPrefix(r, n);
    ReadRecorded(r);
    ReadStaysIntact(r);
    QueuedFrames(fs, s, n);
    assert AllRight(fs, t.appendStatus, t.finished);
    assert ReadRight(fs, t.appendStatus, t.finished[|s.finished|]);
  }

  // A read while others move.

  /** No purge, no read in streaming mode and no failed copy. */
  predicate Quiet(step: Step) {
    !step.Reset? && !step.PurgeSizes? && !step.PurgeStream? && !step.StreamRead? && step != Consume(false)
  }

  lemma {:induction false} SumsSnoc(q: seq<nat>, j: nat, appendStatus: bool)
    requires AtLeastTwo(q) && j < |q|
    ensures Sum(q[..j + 1]) == Sum(q[..j]) + q[j]
    ensures KeptSum(q[..j + 1], appendStatus) == KeptSum(q[..j], appendStatus) + KeptLength(q[j], appendStatus)
    decreases |q|
  {
    SumsFirst(q, j + 1, appendStatus);
    if j == 0 {
      assert q[1..][..0] == [] && q[..0] == [];
    } else {
      SumsFirst(q, j, appendStatus);
      hide Sum, KeptSum, KeptLength;
      SumsSnoc(q[1..], j - 1, appendStatus);
    }
  }

  lemma {:induction false} SumsGrow(q: seq<nat>, i: nat, k: nat, appendStatus: bool)
    requires AtLeastTwo(q) && i <= k <= |q|
    ensures Sum(q[..i]) <= Sum(q[..k]) && KeptSum(q[..i], appendStatus) <= KeptSum(q[..k], appendStatus)
    decreases k
  {
    if i < k {
      SumsSnoc(q, k - 1, appendStatus);
      hide Sum, KeptSum;
      SumsGrow(q, i, k - 1, appendStatus);
    }
  }

  /** The first j frames of the queue that s had have been consumed, and claimed. */
  predicate Consumes(s: State, t: State, j: nat)
    requires Sound(s) && s.reader.Looping? && !t.reader.Idle? && j <= |s.sizes.queue|
  {
    && t.reader.claimed == s.reader.claimed + KeptSum(s.sizes.queue[..j], s.appendStatus)
    && |s.stream.bytes| <= |t.stream.bytes| + Sum(s.sizes.queue[..j])
  }

  /** The read that was going on in s is still going on in t. As long as it has taken no more than the queue that s had,
  it has taken those frames. */
  predicate Reading(s: State, t: State)
    requires Sound(s) && s.reader.Looping?
  {
    && !t.reader.Idle? && t.finished == s.finished && t.appendStatus == s.appendStatus && t.multiple == s.multiple
    && t.reader.buf == s.reader.buf && s.sizes.taken <= t.sizes.taken
    && (t.reader.Taken? ==> t.reader.size <= |t.stream.bytes| && s.sizes.taken < t.sizes.taken)
    && var i := t.sizes.taken - s.sizes.taken;
       i <= |s.sizes.queue| ==>
         && s.sizes.queue[i..] <= t.sizes.queue
         && if t.reader.Taken? then t.reader.size == s.sizes.queue[i - 1] && Consumes(s, t, i - 1)
            else Consumes(s, t, i)
  }

  lemma ReadingStarts(s: State)
    requires Sound(s) && s.reader.Looping?
    ensures Reading(s, s)
  {
    assert s.sizes.queue[..0] == [];
  }

  /** More sizes and more bytes change nothing. */
  lemma ReadingGrows(s: State, t: State, u: State)
    requires Sound(s) && s.reader.Looping? && Reading(s, t)
    requires u.reader == t.reader && u.finished == t.finished && u.appendStatus == t.appendStatus
    requires u.multiple == t.multiple && u.sizes.taken == t.sizes.taken && t.sizes.queue <= u.sizes.queue
    requires |t.stream.bytes| <= |u.stream.bytes|
    ensures Reading(s, u)
  {
    hide Sum, KeptSum;
  }

  lemma OthersGrow(fs: seq<seq<byte>>, t: State, step: Step)
    requires Device(fs) && Sound(t) && !t.reader.Idle? && Quiet(step) && !step.Take? && !step.Consume?
    ensures var u := Next(fs, t, step);
            && u.reader == t.reader && u.finished == t.finished && u.appendStatus == t.appendStatus
            && u.multiple == t.multiple && u.sizes.taken == t.sizes.taken && t.sizes.queue <= u.sizes.queue
            && |t.stream.bytes| <= |u.stream.bytes|
  {
    if Enabled(fs, t, step) && step.Receive? {
      HandledCounts(t.stream, NextBytes(fs, t.stream, step.count), step.pad, t.cap);
    }
    hide Concat, Handled, NextBytes;
  }

  lemma TakeGoesOn(s: State, t: State)
    requires Sound(s) && s.reader.Looping? && Sound(t) && Reading(s, t) && t.reader.Looping? && CanTake(t)
    ensures Reading(s, TakenFrom(t))
  {
    var i := t.sizes.taken - s.sizes.taken;
    hide Sum, KeptSum, MaxFrameLength, KeptLength;
    if i < |s.sizes.queue| {
      assert s.sizes.queue[i..][0] == s.sizes.queue[i] && s.sizes.queue[i..][1..] == s.sizes.queue[i + 1..];
    }
  }

  lemma ConsumeGoesOn(s: State, t: State)
    requires Sound(s) && s.reader.Looping? && Sound(t) && Reading(s, t) && t.reader.Taken? && t.multiple
    ensures Reading(s, ConsumedFrom(t, true))
  {
    hide Sum, KeptSum, KeptLength, ConsumedFrom;
    var i := t.sizes.taken - s.sizes.taken;
    TurnConsumes(t);
    if i <= |s.sizes.queue| {
      SumsSnoc(s.sizes.queue, i - 1, s.appendStatus);
    }
  }

  lemma ReadingNext(fs: seq<seq<byte>>, s: State, t: State, step: Step)
    requires Device(fs) && Sound(s) && s.reader.Looping? && Sound(t) && Reading(s, t) && Quiet(step)
    ensures var u := Next(fs, t, step);
            if u.finished == t.finished then Reading(s, u)
            else |u.finished| == |t.finished| + 1 && Enabled(fs, t, step)
                 && if step.Take? then !CanTake(t) && u.sizes == t.sizes
                    else step == Consume(true) && !t.multiple && u.sizes == t.sizes
  {
    if !Enabled(fs, t, step) {
    } else if step.Take? {
      hide MaxFrameLength, Reading;
      if CanTake(t) {
        TakeGoesOn(s, t);
      }
    } else if step.Consume? {
      TurnConsumes(t);
      if t.multiple {
        ConsumeGoesOn(s, t);
      }
      hide ConsumedFrom, Reading;
    } else {
      OthersGrow(fs, t, step);
      hide Next, Reading;
      ReadingGrows(s, t, Next(fs, t, step));
    }
  }

  lemma {:induction false} FinishedGrows(fs: seq<seq<byte>>, s: State, steps: seq<Step>)
    requires Device(fs) && Sound(s)
    ensures |s.finished| <= |After(fs, s, steps).finished|
    decreases |steps|
  {
    hide Next;
    if steps != [] {
      FinishedNext(fs, s, steps[0]);
      FinishedGrows(fs, Next(fs, s, steps[0]), steps[1..]);
    }
  }

  lemma FinishedNext(fs: seq<seq<byte>>, s: State, step: Step)
    requires Device(fs) && Sound(s)
    ensures |s.finished| <= |Next(fs, s, step).finished|
  {
    hide Concat, Handled, NextBytes, Consumed, Got, Delivers, CanTake, KeptLength;
  }

  lemma {:induction false} ReadingAfter(fs: seq<seq<byte>>, s: State, t: State, steps: seq<Step>)
    requires Device(fs) && Sound(s) && s.reader.Looping? && Sound(t) && Reading(s, t)
    requires forall step :: step in steps ==> Quiet(step)
    requires |After(fs, t, steps).finished| == |t.finished|
    ensures Reading(s, After(fs, t, steps))
    decreases |steps|
  {
    if steps != [] {
      assert steps[0] in steps;
      ReadingNext(fs, s, t, steps[0]);
      hide Next, Reading, Quiet;
      FinishedGrows(fs, Next(fs, t, steps[0]), steps[1..]);
      ReadingAfter(fs, s, Next(fs, t, steps[0]), steps[1..]);
    }
  }

  /** If the first k frames of the queue that the read began with had arrived and fit, it does not end for the lack of a
  frame before it has taken them. */
  lemma StopsBehind(s: State, t: State, k: nat)
    requires Sound(s) && s.reader.Looping? && s.reader.buf < WORD / 2 - 2 && k <= |s.sizes.queue| && Fit(s, k)
    requires Sound(t) && Reading(s, t) && t.reader.Looping? && !CanTake(t)
    ensures k <= t.sizes.taken - s.sizes.taken
  {
    var i, q := t.sizes.taken - s.sizes.taken, s.sizes.queue;
    if i < k {
      assert q[i..][0] == q[i];
      assert t.sizes.queue[0] == q[i];
      SumsSnoc(q, i, s.appendStatus);
      SumsGrow(q, i + 1, k, s.appendStatus);
      RoomOfOrdinaryBuffer(t.reader.buf, t.reader.claimed, t.appendStatus);
      hide Sum, KeptSum, MaxFrameLength;
    }
  }

  /** A read into which bytes, sizes and changes of the cap come in any order takes at least the frames it would have
  taken alone. It ends when the next frame has not arrived or does not fit, or when one frame is enough. */
  lemma ReadTakesAtLeast(fs: seq<seq<byte>>, s: State, steps: seq<Step>, last: Step)
    requires Device(fs) && Sound(s) && s.reader.Looping? && s.reader.buf < WORD / 2 - 2
    requires Quiet(last) && forall step :: step in steps ==> Quiet(step)
    requires |After(fs, s, steps).finished| == |s.finished| < |Next(fs, After(fs, s, steps), last).finished|
    ensures var t := After(fs, s, steps);
            && ReadOn(s).sizes.taken <= Next(fs, t, last).sizes.taken
            && if last.Take? then t.reader.Looping? && !CanTake(t) else !s.multiple && s.sizes.taken < t.sizes.taken
  {
    var t, k := After(fs, s, steps), ReadOn(s).sizes.taken - s.sizes.taken;
    ReadingStarts(s);
    ReadingAfter(fs, s, s, steps);
    ReadingNext(fs, s, t, last);
    TakesLongestPrefix(s, 0);
    TakesLongestPrefix(s, k);
    assert t.multiple == s.multiple && (t.reader.Taken? ==> s.sizes.taken < t.sizes.taken);
    assert Fit(s, k) && (k <= 1 || s.multiple);
    assert Enabled(fs, t, last) && (last.Take? ==> t.reader.Looping?) && (last.Consume? ==> t.reader.Taken?);
    hide *;
    if last.Take? {
      StopsBehind(s, t, k);
    }
  }
}
