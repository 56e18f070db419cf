/** The transmit side as a state machine (src/port.c:199-220, 867-895, 921-939 and 1299-1351, src/main.c:207-250).
A step is one critical section: the worker, purging threads, a thread that changes the cap and the one writer that
holds the write semaphore take turns in any order. */
module TransmitRuns {
  import opened Sequences
  import opened Frames
  import opened FrameLists
  import opened Transmit
  import opened TransmitDevice

  /** How making a frame from the user's data can go. The driver ignores the two failures that leave a frame. */
  datatype Outcome = NoFrame | NoBuffer | Faulted(copied: nat) | Complete

  /** The writer first reads the queue's total, then the pending frame's length, then tests against the cap. */
  datatype Writer =
    | Outside
    | Inside(data: seq<byte>)
    | HasQueued(data: seq<byte>, queued: nat)
    | HasUsage(data: seq<byte>, usage: nat)
    | Admitted(data: seq<byte>, cap: nat)

  /** While held, the worker is inside the pending frame's lock; when scheduled, it is going to run. The last five
  fields only record the past: the highest cap so far, the visits to the device, how many of them came before the last
  reset of the transmitter, what each queued write carried, and how many bytes were purged. */
  datatype State = State(
    queue: seq<FrameValue>, pending: Option<FrameValue>, held: bool, scheduled: bool, cap: nat, writer: Writer,
    highest: nat, log: seq<Attempt>, resetAt: nat, written: seq<seq<byte>>, purged: nat)

  /** Timer is the handler of the port's timer, which schedules the worker. Reset, the first step of a purge, is sent
  under the lock that the worker holds during its run. */
  datatype Step =
    | Acquire | Send(submitted: bool) | Timer
    | Reset | PurgeQueue | PurgePending
    | Enter(data: seq<byte>) | ReadQueued | ReadPending | Check | Copy(outcome: Outcome)
    | SetCap(cap: nat)

  function Initial(cap: nat): State {
    State([], None, false, false, cap, Outside, cap, [], 0, [], 0)
  }

  predicate AllValid(fs: seq<FrameValue>) {
    forall f :: f in fs ==> f.Valid()
  }

  predicate Sound(s: State) {
    && AllValid(s.queue)
    && (s.pending.Some? ==> s.pending.value.Valid())
    && (s.held ==> s.pending.Some?)
  }

  function PendingBytes(s: State): nat {
    if s.pending.Some? then s.pending.value.length else 0
  }

  function Bytes(s: State): nat {
    Usage(s.queue) + PendingBytes(s)
  }

  /** The frame a write queues: empty unless the whole copy succeeded, but always with the full frame size. */
  function FrameOf(data: seq<byte>, outcome: Outcome): (f: FrameValue)
    requires outcome.Faulted? ==> outcome.copied < |data|
    ensures f.Valid() && f.frameSize == |data| && f.length == |Carried(data, outcome)|
  {
    match outcome
    case Faulted(copied) => FrameValue([], 0, 0).AddedFromUser(data, copied).(frameSize := |data|)
    case Complete => NewFrame(data)
    case _ => FrameValue([], 0, |data|)
  }

  function Carried(data: seq<byte>, outcome: Outcome): seq<byte> {
    if outcome.Complete? then data else []
  }

  predicate Enabled(s: State, step: Step) {
    match step
    case Acquire => !s.held && s.scheduled
    case Send(_) => s.held
    case Timer => true
    case Reset => !s.held
    case PurgeQueue => true
    case PurgePending => !s.held
    case Enter(data) => s.writer.Outside? && data != []
    case ReadQueued => s.writer.Inside?
    case ReadPending => s.writer.HasQueued? && !s.held
    case Check => s.writer.HasUsage?
    case Copy(outcome) => s.writer.Admitted? && (outcome.Faulted? ==> outcome.copied < |s.writer.data|)
    case SetCap(_) => true
  }

  /** The worker takes the pending lock and, without a pending frame, the oldest queued one. */
  function Acquired(s: State): (t: State)
    requires Sound(s)
    ensures Sound(t)
  {
    if s.pending.Some? then s.(held := true, scheduled := false)
    else if s.queue == [] then s.(scheduled := false)
    else s.(queue := s.queue[1..], pending := Some(s.queue[0]), held := true, scheduled := false)
  }

  /** The worker sends what fits, lets the frame go when it is finished, and schedules itself if it did anything. */
  function SentFrom(s: State, submitted: bool): (t: State)
    requires Sound(s) && s.pending.Some?
    ensures Sound(t)
  {
    var sent := TransmitFrame(s.pending.value, submitted);
    s.(pending := if sent.result == 2 then None else Some(sent.frame), held := false,
       scheduled := s.scheduled || sent.result != 0,
       log := if sent.attempt.Some? then s.log + [sent.attempt.value] else s.log)
  }

  function WriterStep(s: State, step: Step): State
    requires Sound(s) && Enabled(s, step)
    requires step.Enter? || step.ReadQueued? || step.ReadPending? || step.Check?
  {
    match step
    case Enter(data) => s.(writer := Inside(data))
    case ReadQueued => s.(writer := HasQueued(s.writer.data, Usage(s.queue)))
    case ReadPending => s.(writer := HasUsage(s.writer.data, s.writer.queued + PendingBytes(s)))
    case Check =>
      s.(writer := if s.writer.usage + |s.writer.data| > s.cap then Outside else Admitted(s.writer.data, s.cap))
  }

  function Copied(s: State, outcome: Outcome): (t: State)
    requires Sound(s) && Enabled(s, Copy(outcome))
    ensures Sound(t)
  {
    if outcome.NoFrame? then s.(writer := Outside)
    else
      s.(writer := Outside, scheduled := true, queue := s.queue + [FrameOf(s.writer.data, outcome)],
         written := s.written + [Carried(s.writer.data, outcome)])
  }

  /** A step that is not enabled has to wait: nothing happens. */
  function Next(s: State, step: Step): (t: State)
    requires Sound(s)
    ensures Sound(t)
  {
    if !Enabled(s, step) then s
    else
      match step
      case Acquire => Acquired(s)
      case Send(submitted) => SentFrom(s, submitted)
      case Timer => s.(scheduled := true)
      case Reset => s.(resetAt := |s.log|)
      case PurgeQueue => s.(queue := [], purged := s.purged + Usage(s.queue))
      case PurgePending => s.(pending := None, purged := s.purged + PendingBytes(s))
      case Copy(outcome) => Copied(s, outcome)
      case SetCap(cap) => s.(cap := cap, highest := if cap > s.highest then cap else s.highest)
      case _ => WriterStep(s, step)
  }

  function After(s: State, steps: seq<Step>): (t: State)
    requires Sound(s)
    ensures Sound(t)
    decreases |steps|
  {
    if steps == [] then s else After(Next(s, steps[0]), steps[1..])
  }

  // Conservation of bytes.

  /** Queued frames have all of their data or none. */
  predicate Unsent(fs: seq<FrameValue>) {
    forall i :: 0 <= i < |fs| ==> fs[i].length == 0 || fs[i].length == fs[i].frameSize
  }

  /** What the pending frame still has is what the device still lacks of its latest frame, unless the frame has not
  been started: then its next visit writes the length. */
  predicate Started(s: State) {
    && Unsent(s.queue)
    && (s.pending.Some? ==>
          var f := s.pending.value;
          f.length == 0 || f.length == f.frameSize || f.length == Room(FeedAll([], Seen(s.log))))
  }

  /** Every byte written has arrived as data of a frame, is pending, is queued, or was purged. */
  predicate Conserved(s: State) {
    && Carrying(s.log) && Started(s)
    && |Concat(s.written)| == BytesTaken(s.log) + Bytes(s) + s.purged
  }

  lemma UsageCons(fs: seq<FrameValue>)
    requires fs != []
    ensures Usage(fs) == fs[0].length + Usage(fs[1..])
  {
  }

  lemma VisitLengths(f: FrameValue, submitted: bool)
    requires f.Valid() && f.length > 0
    ensures var g, a := TransmitFrame(f, submitted).frame, NextAttempt(f, submitted);
            && g.frameSize == f.frameSize && |a.chunk| == ChunkLength(f) > 0 && a.submitted == submitted
            && a.frameLength == (if f.length == f.frameSize then Some(f.frameSize) else None)
            && g.length == f.length - if submitted then Min(ChunkLength(f), f.length) else 0
  {
  }

  /** What one visit does for the device: it takes exactly the bytes the frame loses. */
  lemma VisitCounts(log: seq<Attempt>, f: FrameValue, submitted: bool)
    requires f.Valid() && f.length > 0
    requires f.length == f.frameSize || f.length == Room(FeedAll([], Seen(log)))
    ensures var g, ds := TransmitFrame(f, submitted).frame, FeedAll([], Seen(log + [NextAttempt(f, submitted)]));
            && BytesTaken(log + [NextAttempt(f, submitted)]) == BytesTaken(log) + f.length - g.length
            && (g.length == g.frameSize || g.length == Room(ds))
  {
    var a := NextAttempt(f, submitted);
    VisitLengths(f, submitted);
    SeenSnoc(log, a);
    FeedAllSnoc([], Seen(log), Told(a));
    FeedAllFits([], Seen(log));
    FeedCounts(FeedAll([], Seen(log)), Told(a));
    hide FeedAll, Feed, FramesOf, Concat, Seen, TransmitFrame, NextAttempt, ChunkLength;
  }

  lemma SentFields(s: State, submitted: bool)
    requires Sound(s) && s.pending.Some? && s.pending.value.length > 0
    ensures var f := s.pending.value;
            var t, g := SentFrom(s, submitted), TransmitFrame(f, submitted).frame;
            && t.queue == s.queue && t.written == s.written && t.purged == s.purged
            && t.log == s.log + [NextAttempt(f, submitted)]
            && t.pending == (if g.length == 0 then None else Some(g))
  {
    hide NextAttempt;
  }

  lemma SendConserves(s: State, submitted: bool)
    requires Sound(s) && s.held && Conserved(s)
    ensures Conserved(SentFrom(s, submitted))
  {
    var f := s.pending.value;
    if f.length > 0 {
      var a := NextAttempt(f, submitted);
      VisitLengths(f, submitted);
      VisitCounts(s.log, f, submitted);
      SentFields(s, submitted);
      assert a.chunk != [] && a.frameLength != Some(0);
      assert Carrying(s.log + [a]);
      hide SentFrom, TransmitFrame, NextAttempt, Carrying, BytesTaken, Room, FeedAll, Seen, Usage, Concat;
    }
  }

  lemma CopyConserves(s: State, outcome: Outcome)
    requires Sound(s) && Enabled(s, Copy(outcome)) && Conserved(s)
    ensures Conserved(Copied(s, outcome))
  {
    if !outcome.NoFrame? {
      UsageSnoc(s.queue, FrameOf(s.writer.data, outcome));
      ConcatSnoc(s.written, Carried(s.writer.data, outcome));
      hide FrameOf, BytesTaken, Room, FeedAll, Seen, Usage, Concat;
    }
  }

  lemma ConservedNext(s: State, step: Step)
    requires Sound(s) && Conserved(s)
    ensures Conserved(Next(s, step))
  {
    if Enabled(s, step) {
      match step {
        case Acquire =>
          if s.queue != [] {
            UsageCons(s.queue);
          }
          hide BytesTaken, Room, FeedAll, Seen, Usage, Concat;
        case Send(submitted) => SendConserves(s, submitted);
        case Copy(outcome) => CopyConserves(s, outcome);
        case _ => hide BytesTaken, Room, FeedAll, Seen, Concat;
      }
    }
  }

  // The cap.

  /** What the writer has read so far does not undercount, and what it was admitted with fits. */
  predicate Capped(s: State) {
    && s.cap <= s.highest && Bytes(s) <= s.highest
    && match s.writer
       case HasQueued(_, queued) => Usage(s.queue) <= queued
       case HasUsage(_, usage) => Bytes(s) <= usage
       case Admitted(data, cap) => Bytes(s) + |data| <= cap <= s.highest
       case _ => true
  }

  lemma CappedNext(s: State, step: Step)
    requires Sound(s) && Capped(s)
    ensures Capped(Next(s, step))
  {
    if Enabled(s, step) {
      match step {
        case Acquire => if s.queue != [] { UsageCons(s.queue); }
        case Copy(outcome) =>
          if !outcome.NoFrame? {
            UsageSnoc(s.queue, FrameOf(s.writer.data, outcome));
          }
        case _ =>
      }
    }
  }

  // The stream of bytes.

  function FutureAll(fs: seq<FrameValue>): seq<Attempt>
    requires AllValid(fs)
  {
    if fs == [] then [] else Future(fs[0]) + FutureAll(fs[1..])
  }

  function FuturePending(s: State): seq<Attempt>
    requires Sound(s)
  {
    if s.pending.Some? then Future(s.pending.value) else []
  }

  /** What was sent and what is still to be sent is what the device should see of everything written. */
  predicate InOrder(s: State)
    requires Sound(s)
  {
    s.purged == 0 ==> Successes(s.log) + FuturePending(s) + FutureAll(s.queue) == IdealAll(s.written)
  }

  /** A failed visit is followed by the same visit again; the last one is still to be repeated. */
  predicate RetriedAt(s: State, i: nat)
    requires Sound(s) && i < |s.log|
  {
    if i + 1 < |s.log| then SameVisit(s.log[i], s.log[i + 1])
    else s.pending.Some? && s.pending.value.length > 0 && SameVisit(s.log[i], NextAttempt(s.pending.value, true))
  }

  predicate Retried(s: State)
    requires Sound(s)
  {
    s.purged == 0 ==> forall i :: 0 <= i < |s.log| && !s.log[i].submitted ==> RetriedAt(s, i)
  }

  lemma {:induction false} FutureAllSnoc(fs: seq<FrameValue>, f: FrameValue)
    requires AllValid(fs) && f.Valid()
    ensures AllValid(fs + [f]) && FutureAll(fs + [f]) == FutureAll(fs) + Future(f)
  {
    if fs == [] {
      assert fs + [f] == [f] && [f][1..] == [];
    } else {
      assert (fs + [f])[0] == fs[0] && (fs + [f])[1..] == fs[1..] + [f];
      FutureAllSnoc(fs[1..], f);
    }
  }

  lemma {:induction false} FutureAllOfEmpty(fs: seq<FrameValue>)
    requires AllValid(fs) && Usage(fs) == 0
    ensures FutureAll(fs) == []
  {
    if fs != [] {
      FutureAllOfEmpty(fs[1..]);
    }
  }

  lemma FrameOfFuture(data: seq<byte>, outcome: Outcome)
    requires outcome.Faulted? ==> outcome.copied < |data|
    ensures Future(FrameOf(data, outcome)) == Ideal(Carried(data, outcome), 0)
  {
    if outcome.Complete? {
      NewFrameFuture(data);
    }
  }

  lemma FutureStep(f: FrameValue)
    requires f.Valid() && f.length > 0
    ensures var g := TransmitFrame(f, true).frame;
            Future(f) == [NextAttempt(f, true)] + if g.length == 0 then [] else Future(g)
  {
    hide NextAttempt;
  }

  lemma Regroup<T>(a: seq<T>, b: seq<T>, c: seq<T>, d: seq<T>)
    ensures (a + b) + c + d == a + (b + c) + d == a + b + (c + d)
  {
  }

  /** A successful visit is the first one still to be made; a failed one leaves all of them to be made. */
  lemma SendKeepsOrder(s: State, submitted: bool)
    requires Sound(s) && s.held && InOrder(s)
    ensures InOrder(SentFrom(s, submitted))
  {
    var f, t := s.pending.value, SentFrom(s, submitted);
    if f.length > 0 {
      SuccessesSnoc(s.log, NextAttempt(f, submitted));
      FutureStep(f);
      Regroup(Successes(s.log), [NextAttempt(f, true)], FuturePending(t), FutureAll(s.queue));
      assert Successes(s.log) + [] == Successes(s.log);
      hide Successes, IdealAll, FutureAll, NextAttempt, Future;
    }
  }

  lemma CopyKeepsOrder(s: State, outcome: Outcome)
    requires Sound(s) && Enabled(s, Copy(outcome)) && InOrder(s)
    ensures InOrder(Copied(s, outcome))
  {
    if !outcome.NoFrame? {
      var f := FrameOf(s.writer.data, outcome);
      FutureAllSnoc(s.queue, f);
      FrameOfFuture(s.writer.data, outcome);
      IdealAllSnoc(s.written, Carried(s.writer.data, outcome));
      hide FrameOf, Future, FutureAll, Ideal, IdealAll, Successes, FuturePending, Carried;
      Regroup(Successes(s.log), FuturePending(s), FutureAll(s.queue), Future(f));
    }
  }

  lemma AcquireKeepsOrder(s: State)
    requires Sound(s) && !s.held && InOrder(s)
    ensures InOrder(Acquired(s))
  {
    hide Future, Successes, IdealAll;
  }

  lemma PurgeKeepsOrder(s: State)
    requires Sound(s) && InOrder(s)
    ensures InOrder(Next(s, PurgeQueue)) && InOrder(Next(s, PurgePending))
  {
    hide Successes, IdealAll;
    if Usage(s.queue) == 0 {
      FutureAllOfEmpty(s.queue);
    }
  }

  lemma InOrderNext(s: State, step: Step)
    requires Sound(s) && InOrder(s)
    ensures InOrder(Next(s, step))
  {
    if Enabled(s, step) {
      match step {
        case Acquire => AcquireKeepsOrder(s);
        case Send(submitted) => SendKeepsOrder(s, submitted);
        case Copy(outcome) => CopyKeepsOrder(s, outcome);
        case PurgeQueue => PurgeKeepsOrder(s);
        case PurgePending => PurgeKeepsOrder(s);
        case Enter(_) | ReadQueued | ReadPending | Check | SetCap(_) | Timer | Reset =>
          assert Next(s, step).(writer := s.writer, cap := s.cap, highest := s.highest, scheduled := s.scheduled,
                                resetAt := s.resetAt) == s;
      }
    }
  }

  lemma SendKeepsRetried(s: State, submitted: bool)
    requires Sound(s) && s.held && Retried(s)
    ensures Retried(SentFrom(s, submitted))
  {
    var t := SentFrom(s, submitted);
    forall i | t.purged == 0 && 0 <= i < |t.log| && !t.log[i].submitted ensures RetriedAt(t, i) {
      assert i < |s.log| ==> t.log[i] == s.log[i] && RetriedAt(s, i);
    }
  }

  lemma RetriedNext(s: State, step: Step)
    requires Sound(s) && Retried(s)
    ensures Retried(Next(s, step))
  {
    var t := Next(s, step);
    if step.Send? && s.held {
      SendKeepsRetried(s, step.submitted);
    } else {
      hide SameVisit, NextAttempt, Usage, FrameOf;
      forall i | t.purged == 0 && 0 <= i < |t.log| && !t.log[i].submitted ensures RetriedAt(t, i) {
        assert t.log == s.log && RetriedAt(s, i);
      }
    }
  }

  // All of it, over every run.

  predicate Invariant(s: State) {
    Sound(s) && Conserved(s) && Capped(s) && InOrder(s) && Retried(s)
  }

  lemma {:induction false} InvariantAfter(s: State, steps: seq<Step>)
    requires Invariant(s)
    ensures Invariant(After(s, steps))
    decreases |steps|
  {
    hide Conserved, Capped, InOrder, Retried, Next;
    if steps != [] {
      ConservedNext(s, steps[0]);
      CappedNext(s, steps[0]);
      InOrderNext(s, steps[0]);
      RetriedNext(s, steps[0]);
      InvariantAfter(Next(s, steps[0]), steps[1..]);
    }
  }

  function Reached(cap: nat, steps: seq<Step>): (s: State)
    ensures Sound(s)
  {
    After(Initial(cap), steps)
  }

  lemma ReachedInvariant(cap: nat, steps: seq<Step>)
    ensures Invariant(Reached(cap, steps))
  {
    InvariantAfter(Initial(cap), steps);
  }

  /** Every byte written has reached the device as data of a frame, is pending, queued or purged: in every run, with
  any purges and failed visits. */
  lemma NoByteLost(cap: nat, steps: seq<Step>)
    ensures var s := Reached(cap, steps);
            |Concat(s.written)|
            == |Concat(Reassemble(Seen(s.log)))| + PendingBytes(s) + Usage(s.queue) + s.purged
  {
    ReachedInvariant(cap, steps);
  }

  lemma CopyFits(s: State, outcome: Outcome)
    requires Sound(s) && Capped(s) && Enabled(s, Copy(outcome))
    ensures Bytes(Next(s, Copy(outcome))) <= s.writer.cap
  {
    if !outcome.NoFrame? {
      UsageSnoc(s.queue, FrameOf(s.writer.data, outcome));
    }
    hide Usage, FrameOf;
  }

  /** The memory in use never exceeds the highest cap, and right after a write not the cap it was tested against,
  whatever happened between the two readings and since. */
  lemma CapRespected(cap: nat, steps: seq<Step>, outcome: Outcome)
    ensures var s := Reached(cap, steps);
            && Bytes(s) <= s.highest
            && (Enabled(s, Copy(outcome)) ==> Bytes(Next(s, Copy(outcome))) <= s.writer.cap)
  {
    var s := Reached(cap, steps);
    ReachedInvariant(cap, steps);
    assert Capped(s);
    hide Reached, Invariant;
    if Enabled(s, Copy(outcome)) {
      CopyFits(s, outcome);
    }
  }

  /** A cap nobody changes is the highest. */
  lemma {:induction false} HighestCap(s: State, steps: seq<Step>)
    requires Sound(s) && forall step :: step in steps ==> !step.SetCap?
    ensures After(s, steps).highest == s.highest
    decreases |steps|
  {
    if steps != [] {
      HighestCap(Next(s, steps[0]), steps[1..]);
    }
  }

  lemma IsPrefix<T>(a: seq<T>, b: seq<T>, c: seq<T>, whole: seq<T>)
    requires a + b + c == whole
    ensures a <= whole
  {
    assert (a + b + c)[..|a|] == a;
  }

  /** Without a purge, the device has been sent a first part of what it should see of all writes in order. */
  lemma SentInOrder(cap: nat, steps: seq<Step>)
    ensures var s := Reached(cap, steps);
            s.purged == 0 ==> Successes(s.log) <= IdealAll(s.written)
  {
    var s := Reached(cap, steps);
    ReachedInvariant(cap, steps);
    if s.purged == 0 {
      IsPrefix(Successes(s.log), FuturePending(s), FutureAll(s.queue), IdealAll(s.written));
    }
  }

  predicate Drained(s: State) {
    s.pending == None && s.queue == []
  }

  lemma RetriedRepeats(s: State)
    requires Sound(s) && Retried(s) && s.purged == 0
    ensures Repeating(s.log)
  {
    forall i | 0 <= i && i + 1 < |s.log| && !s.log[i].submitted ensures SameVisit(s.log[i], s.log[i + 1]) {
      assert RetriedAt(s, i);
    }
  }

  /** The device of a drained port, from everything that reached it. */
  lemma DrainedDevice(s: State)
    requires Sound(s) && InOrder(s) && s.purged == 0 && Drained(s) && Repeating(s.log) && Carrying(s.log)
    ensures NonEmpty(Reassemble(Seen(s.log))) == NonEmpty(s.written)
    ensures Reassemble(Seen(s.log)) == NonEmpty(s.written) <==> NoLengthRepeated(s.log)
    ensures Lengths(s.log) == LengthsOf(NonEmpty(s.written)) <==> NoLengthRepeated(s.log)
  {
    assert Successes(s.log) + [] + [] == Successes(s.log);
    ReassembleAll(s.written);
    SeenExactly(s.log);
    LengthsIdeal(s.written);
    LengthsOfSuccesses(s.log);
  }

  /** Without a purge, once all is sent, the device has put together exactly the writes that carried data, and an
  empty frame more for every length a failed visit wrote: its frames are the writes if and only if no failed visit
  wrote a length, and the length register was then written once for each of them, in order. */
  lemma DeviceGetsWrites(cap: nat, steps: seq<Step>)
    ensures var s := Reached(cap, steps);
            s.purged == 0 && Drained(s) ==>
              && NonEmpty(Reassemble(Seen(s.log))) == NonEmpty(s.written)
              && (Reassemble(Seen(s.log)) == NonEmpty(s.written) <==> NoLengthRepeated(s.log))
              && (Lengths(s.log) == LengthsOf(NonEmpty(s.written)) <==> NoLengthRepeated(s.log))
  {
    var s := Reached(cap, steps);
    ReachedInvariant(cap, steps);
    if s.purged == 0 && Drained(s) {
      RetriedRepeats(s);
      DrainedDevice(s);
    }
  }

  lemma {:induction false} NoFailureNoRepetition(s: State, steps: seq<Step>)
    requires Sound(s) && Send(false) !in steps && (forall a :: a in s.log ==> a.submitted)
    ensures forall a :: a in After(s, steps).log ==> a.submitted
    decreases |steps|
  {
    if steps != [] {
      assert steps[0] in steps;
      LogNext(s, steps[0]);
      hide Next;
      NoFailureNoRepetition(Next(s, steps[0]), steps[1..]);
    }
  }

  lemma LogNext(s: State, step: Step)
    requires Sound(s) && step != Send(false) && (forall a :: a in s.log ==> a.submitted)
    ensures forall a :: a in Next(s, step).log ==> a.submitted
  {
    hide FrameOf, Usage;
  }

  /** If no submission fails, the length register is written exactly once for every write with data. */
  lemma LengthsWithoutFailures(cap: nat, steps: seq<Step>)
    requires Send(false) !in steps
    ensures var s := Reached(cap, steps);
            s.purged == 0 && Drained(s) ==> Lengths(s.log) == LengthsOf(NonEmpty(s.written))
  {
    DeviceGetsWrites(cap, steps);
    NoFailureNoRepetition(Initial(cap), steps);
  }

  /** Without a purge, a failed visit is repeated, length register included, until it succeeds. */
  lemma FailuresRepeat(cap: nat, steps: seq<Step>, i: nat)
    ensures var s := Reached(cap, steps);
            s.purged == 0 && i + 1 < |s.log| && !s.log[i].submitted ==> SameVisit(s.log[i], s.log[i + 1])
  {
    ReachedInvariant(cap, steps);
    var s := Reached(cap, steps);
    assert s.purged == 0 && i + 1 < |s.log| && !s.log[i].submitted ==> RetriedAt(s, i);
  }

  // A failed submission that the device notices.

  const ONE_BYTE: seq<byte> := [7]

  lemma AfterOne(s: State, step: Step)
    requires Sound(s)
    ensures After(s, [step]) == Next(s, step)
  {
    hide Next;
    assert [step][1..] == [];
  }

  lemma AfterTwo(s: State, a: Step, b: Step)
    requires Sound(s)
    ensures After(s, [a, b]) == Next(Next(s, a), b)
  {
    hide Next;
    assert [a, b][1..] == [b];
    AfterOne(Next(s, a), b);
  }

  lemma AfterThree(s: State, a: Step, b: Step, c: Step)
    requires Sound(s)
    ensures After(s, [a, b, c]) == Next(Next(Next(s, a), b), c)
  {
    hide Next;
    assert [a, b, c][1..] == [b, c];
    AfterTwo(Next(s, a), b, c);
  }

  lemma AfterFour(s: State, a: Step, b: Step, c: Step, d: Step)
    requires Sound(s)
    ensures After(s, [a, b, c, d]) == Next(Next(Next(Next(s, a), b), c), d)
  {
    hide Next;
    assert [a, b, c, d][1..] == [b, c, d];
    AfterThree(Next(s, a), b, c, d);
  }

  lemma {:induction false} AfterAppend(s: State, a: seq<Step>, b: seq<Step>)
    requires Sound(s)
    ensures After(s, a + b) == After(After(s, a), b)
    decreases |a|
  {
    hide Next;
    if a == [] {
      assert a + b == b;
    } else {
      assert (a + b)[0] == a[0] && (a + b)[1..] == a[1..] + b;
      AfterAppend(Next(s, a[0]), a[1..], b);
    }
  }

  function Example(queue: seq<FrameValue>, pending: Option<FrameValue>, held: bool, scheduled: bool,
                   log: seq<Attempt>, written: seq<seq<byte>>): State {
    State(queue, pending, held, scheduled, 1, Outside, 1, log, 0, written, 0)
  }

  lemma AdmitOne()
    ensures After(Initial(1), [Enter(ONE_BYTE), ReadQueued, ReadPending, Check])
            == Initial(1).(writer := Admitted(ONE_BYTE, 1))
  {
    var s0 := Initial(1);
    var s1 := s0.(writer := Inside(ONE_BYTE));
    var s2 := s0.(writer := HasQueued(ONE_BYTE, 0));
    var s3 := s0.(writer := HasUsage(ONE_BYTE, 0));
    assert Next(s0, Enter(ONE_BYTE)) == s1 && Next(s1, ReadQueued) == s2 && Next(s2, ReadPending) == s3;
    assert Next(s3, Check) == s0.(writer := Admitted(ONE_BYTE, 1));
    hide Next, After;
    AfterFour(s0, Enter(ONE_BYTE), ReadQueued, ReadPending, Check);
  }

  lemma CopyOne()
    ensures After(Initial(1).(writer := Admitted(ONE_BYTE, 1)), [Copy(Complete)])
            == Example([NewFrame(ONE_BYTE)], None, false, true, [], [ONE_BYTE])
  {
    var s := Initial(1).(writer := Admitted(ONE_BYTE, 1));
    assert [] + [NewFrame(ONE_BYTE)] == [NewFrame(ONE_BYTE)] && [] + [ONE_BYTE] == [ONE_BYTE];
    AfterOne(s, Copy(Complete));
    hide NewFrame, After;
  }

  lemma WriteOne()
    ensures After(Initial(1), [Enter(ONE_BYTE), ReadQueued, ReadPending, Check] + [Copy(Complete)])
            == Example([NewFrame(ONE_BYTE)], None, false, true, [], [ONE_BYTE])
  {
    AdmitOne();
    CopyOne();
    hide After, NewFrame;
    AfterAppend(Initial(1), [Enter(ONE_BYTE), ReadQueued, ReadPending, Check], [Copy(Complete)]);
  }

  lemma SendTwice()
    ensures var f := NewFrame(ONE_BYTE);
            After(Example([f], None, false, true, [], [ONE_BYTE]), [Acquire, Send(false), Acquire, Send(true)])
            == Example([], None, false, true, [NextAttempt(f, false), NextAttempt(f, true)], [ONE_BYTE])
  {
    var f := NewFrame(ONE_BYTE);
    assert f.length == 1 && f.frameSize == 1;
    hide NewFrame, NextAttempt;
    var s0 := Example([f], None, false, true, [], [ONE_BYTE]);
    var s1 := Example([], Some(f), true, false, [], [ONE_BYTE]);
    var s2 := Example([], Some(f), false, true, [NextAttempt(f, false)], [ONE_BYTE]);
    var s3 := Example([], Some(f), true, false, [NextAttempt(f, false)], [ONE_BYTE]);
    var s4 := Example([], None, false, true, [NextAttempt(f, false), NextAttempt(f, true)], [ONE_BYTE]);
    assert Next(s0, Acquire) == s1 && Next(s1, Send(false)) == s2 && Next(s2, Acquire) == s3;
    assert [NextAttempt(f, false)] + [NextAttempt(f, true)] == [NextAttempt(f, false), NextAttempt(f, true)];
    assert Next(s3, Send(true)) == s4;
    hide Next, Example, After;
    AfterFour(s0, Acquire, Send(false), Acquire, Send(true));
  }

  lemma OneByteVisits()
    ensures NewFrame(ONE_BYTE).length == NewFrame(ONE_BYTE).frameSize == 1
    ensures Cut(NextAttempt(NewFrame(ONE_BYTE), true).chunk, 1) == ONE_BYTE
    ensures NextAttempt(NewFrame(ONE_BYTE), true).frameLength == Some(1)
  {
    NewFrameBuffer(ONE_BYTE);
  }

  lemma DeviceOfTwoVisits(f: FrameValue)
    requires f.Valid() && f.length == f.frameSize == 1 && Cut(NextAttempt(f, true).chunk, 1) == ONE_BYTE
    ensures Reassemble(Seen([NextAttempt(f, false), NextAttempt(f, true)])) == [[], ONE_BYTE]
  {
    var failed, sent := NextAttempt(f, false), NextAttempt(f, true);
    assert Seen([failed, sent]) == [Told(failed)] + [sent];
    FeedAllSnoc([], [Told(failed)], sent);
    FeedAllSnoc([], [], Told(failed));
    assert [] + [Told(failed)] == [Told(failed)];
    assert FeedAll([], Seen([failed, sent])) == [Incoming(1, []), Incoming(1, ONE_BYTE)];
  }

  /** A run in which one submission fails and is repeated: the device gets the byte, and an empty frame before it. */
  lemma FailedVisitMakesEmptyFrame()
    ensures var steps := [Enter(ONE_BYTE), ReadQueued, ReadPending, Check] + [Copy(Complete)]
                         + [Acquire, Send(false), Acquire, Send(true)];
            var s := Reached(1, steps);
            Drained(s) && s.purged == 0 && s.written == [ONE_BYTE] && Reassemble(Seen(s.log)) == [[], ONE_BYTE]
  {
    WriteOne();
    SendTwice();
    AfterAppend(Initial(1), [Enter(ONE_BYTE), ReadQueued, ReadPending, Check] + [Copy(Complete)],
                [Acquire, Send(false), Acquire, Send(true)]);
    OneByteVisits();
    hide After, NewFrame, NextAttempt, Reassemble, Seen;
    DeviceOfTwoVisits(NewFrame(ONE_BYTE));
  }
}
