/** The worker's progress (src/port.c:1308-1351): when it runs again, how many runs it takes to send everything, and
what stops it. */
module TransmitProgress {
  import opened Sequences
  import opened Frames
  import opened FrameLists
  import opened Transmit
  import opened TransmitDevice
  import opened TransmitRuns

  /** The worker's next run, with a successful submission. Nothing happens unless it is scheduled. */
  function WorkerRun(s: State): (t: State)
    requires Sound(s) && !s.held
    ensures Sound(t) && !t.held
  {
    Next(Next(s, Acquire), Send(true))
  }

  function Runs(s: State, n: nat): (t: State)
    requires Sound(s) && !s.held
    ensures Sound(t) && !t.held
    decreases n
  {
    if n == 0 then s else Runs(WorkerRun(s), n - 1)
  }

  predicate NonEmptyFrames(s: State) {
    && (s.pending.Some? ==> s.pending.value.length > 0)
    && forall f :: f in s.queue ==> f.length > 0
  }

  /** The started chunks of the frames. */
  function Visits(fs: seq<FrameValue>): nat {
    if fs == [] then 0 else (fs[0].length + 99_995) / 99_996 + Visits(fs[1..])
  }

  function Work(s: State): nat {
    Visits(s.queue) + if s.pending.Some? then (s.pending.value.length + 99_995) / 99_996 else 0
  }

  lemma SendWorks(s: State)
    requires Sound(s) && s.pending.Some? && s.pending.value.length > 0
    ensures Work(SentFrom(s, true)) == Work(s) - 1
    ensures Bytes(SentFrom(s, true)) < Bytes(s)
  {
    var f := s.pending.value;
    FutureCount(f);
    FutureStep(f);
    var g := TransmitFrame(f, true).frame;
    FutureCount(g);
    hide Future, NextAttempt, Usage, Visits;
  }

  /** The frame whose turn it is has data. */
  predicate CanSend(s: State) {
    if s.pending.Some? then s.pending.value.length > 0 else s.queue != [] && s.queue[0].length > 0
  }

  /** While that is so and the worker is not inside, it is scheduled. */
  predicate Awake(s: State) {
    !s.held && CanSend(s) ==> s.scheduled
  }

  /** A run with something to send reduces what is left, by one chunk, and asks for another run. */
  lemma RunWorks(s: State)
    requires Sound(s) && !s.held && NonEmptyFrames(s) && !Drained(s) && s.scheduled
    ensures NonEmptyFrames(WorkerRun(s)) && Work(WorkerRun(s)) == Work(s) - 1 && Bytes(WorkerRun(s)) < Bytes(s)
    ensures WorkerRun(s).scheduled
  {
    var a := Acquired(s);
    if s.pending.None? {
      UsageCons(s.queue);
      assert s.queue[0] in s.queue;
    }
    SendWorks(a);
  }

  lemma WorkLeft(s: State)
    requires NonEmptyFrames(s)
    ensures Work(s) == 0 <==> Drained(s)
  {
    if s.queue != [] {
      assert s.queue[0] in s.queue;
    }
  }

  /** Frames with data drain in exactly as many runs as they have started chunks. */
  lemma {:induction false} DrainsExactly(s: State, n: nat)
    requires Sound(s) && !s.held && NonEmptyFrames(s) && Awake(s)
    ensures Drained(Runs(s, n)) <==> n >= Work(s)
    decreases n
  {
    WorkLeft(s);
    if n > 0 {
      if Drained(s) {
        assert WorkerRun(s) == s.(scheduled := false);
      } else {
        RunWorks(s);
      }
      hide Work, WorkerRun;
      DrainsExactly(WorkerRun(s), n - 1);
    }
  }

  lemma StuckRun(s: State)
    requires Sound(s) && !s.held && !NonEmptyFrames(s)
    ensures !NonEmptyFrames(WorkerRun(s))
  {
    if s.scheduled && s.pending.None? && s.queue[0].length > 0 {
      var f :| f in s.queue && f.length == 0;
      assert f in s.queue[1..];
    }
  }

  /** An empty frame, the trace of a failed copy, becomes pending and stays so: what is behind it is never sent. */
  lemma {:induction false} StuckForever(s: State, n: nat)
    requires Sound(s) && !s.held && !NonEmptyFrames(s)
    ensures !Drained(Runs(s, n))
    decreases n
  {
    if n > 0 {
      StuckRun(s);
      hide WorkerRun;
      StuckForever(WorkerRun(s), n - 1);
    }
  }

  /** The worker gets everything out if and only if no frame is empty. */
  lemma DrainsIff(s: State)
    requires Sound(s) && !s.held && Awake(s)
    ensures (exists n :: Drained(Runs(s, n))) <==> NonEmptyFrames(s)
  {
    if NonEmptyFrames(s) {
      DrainsExactly(s, Work(s));
    } else {
      forall n ensures !Drained(Runs(s, n)) {
        StuckForever(s, n);
      }
    }
  }

  /** Copies that do not fault and find memory make no empty frames, so nothing else can block the queue. */
  lemma {:induction false} NoFaultsNoEmptyFrames(s: State, steps: seq<Step>)
    requires Sound(s) && NonEmptyFrames(s) && (s.writer != Outside ==> s.writer.data != [])
    requires forall step :: step in steps && step.Copy? ==> step.outcome.NoFrame? || step.outcome.Complete?
    ensures NonEmptyFrames(After(s, steps))
    decreases |steps|
  {
    if steps != [] {
      NoFaultsStep(s, steps[0]);
      hide Next;
      NoFaultsNoEmptyFrames(Next(s, steps[0]), steps[1..]);
    }
  }

  lemma NoFaultsStep(s: State, step: Step)
    requires Sound(s) && NonEmptyFrames(s) && (s.writer != Outside ==> s.writer.data != [])
    requires step.Copy? ==> step.outcome.NoFrame? || step.outcome.Complete?
    ensures var t := Next(s, step); NonEmptyFrames(t) && (t.writer != Outside ==> t.writer.data != [])
  {
  }

  /** The step does not take away an empty frame in front of one with data while the worker sleeps. */
  predicate FreesNothing(s: State, step: Step) {
    step.PurgePending? && !s.held && s.pending.Some? && s.pending.value.length == 0 ==>
      s.queue == [] || s.queue[0].length == 0 || s.scheduled
  }

  predicate FreesNothingIn(s: State, steps: seq<Step>)
    requires Sound(s)
    decreases |steps|
  {
    steps == [] || (FreesNothing(s, steps[0]) && FreesNothingIn(Next(s, steps[0]), steps[1..]))
  }

  lemma AwakeNext(s: State, step: Step)
    requires Sound(s) && Awake(s)
    ensures Awake(Next(s, step)) <==> FreesNothing(s, step)
  {
    if Enabled(s, step) && step.Send? && s.pending.value.length > 0 {
      SentFields(s, step.submitted);
      assert SentFrom(s, step.submitted).scheduled;
    }
    hide FrameOf, Usage, NextAttempt, FrameValue.Removed;
  }

  /** In every run the worker is scheduled whenever it is not inside and can send something, unless a purge has taken
  away an empty frame in front of others. */
  lemma {:induction false} AwakeAfter(s: State, steps: seq<Step>)
    requires Sound(s) && Awake(s) && FreesNothingIn(s, steps)
    ensures Awake(After(s, steps))
    decreases |steps|
  {
    if steps != [] {
      AwakeNext(s, steps[0]);
      hide Next, FreesNothing, Awake;
      AwakeAfter(Next(s, steps[0]), steps[1..]);
    }
  }

  /** So a reached state in which no frame is empty and something is left to be sent has the worker scheduled. */
  lemma WorkIsScheduled(cap: nat, steps: seq<Step>)
    requires FreesNothingIn(Initial(cap), steps)
    ensures var s := Reached(cap, steps); !s.held && NonEmptyFrames(s) && !Drained(s) ==> s.scheduled
  {
    AwakeAfter(Initial(cap), steps);
    var s := Reached(cap, steps);
    assert s.queue != [] ==> s.queue[0] in s.queue;
  }

  /** Without failed copies there is nothing of the kind. */
  lemma {:induction false} NoFaultsFreeNothing(s: State, steps: seq<Step>)
    requires Sound(s) && NonEmptyFrames(s) && (s.writer != Outside ==> s.writer.data != [])
    requires forall step :: step in steps && step.Copy? ==> step.outcome.NoFrame? || step.outcome.Complete?
    ensures FreesNothingIn(s, steps)
    decreases |steps|
  {
    if steps != [] {
      NoFaultsStep(s, steps[0]);
      assert FreesNothing(s, steps[0]);
      hide Next, FreesNothing, NonEmptyFrames;
      NoFaultsFreeNothing(Next(s, steps[0]), steps[1..]);
    }
  }

  lemma {:induction false} RunsKeepOrder(s: State, n: nat)
    requires Sound(s) && !s.held && InOrder(s)
    ensures var t := Runs(s, n); InOrder(t) && t.written == s.written && t.purged == s.purged
    decreases n
  {
    if n > 0 {
      InOrderNext(s, Acquire);
      InOrderNext(Next(s, Acquire), Send(true));
      assert WorkerRun(s).written == s.written && WorkerRun(s).purged == s.purged;
      hide WorkerRun, InOrder;
      RunsKeepOrder(WorkerRun(s), n - 1);
    }
  }

  /** Those runs add no failed visit. */
  lemma {:induction false} RunsKeepLog(s: State, n: nat)
    requires Sound(s) && !s.held && Conserved(s) && Retried(s)
    ensures var t := Runs(s, n);
            Conserved(t) && Retried(t) && (NoLengthRepeated(t.log) <==> NoLengthRepeated(s.log))
    decreases n
  {
    if n > 0 {
      var a := Next(s, Acquire);
      ConservedNext(s, Acquire);
      ConservedNext(a, Send(true));
      RetriedNext(s, Acquire);
      RetriedNext(a, Send(true));
      if a.held {
        SendAddsNoFailure(a);
      }
      assert a.log == s.log && WorkerRun(s) == Next(a, Send(true));
      hide Acquired, SentFrom, Conserved, Retried, NoLengthRepeated, WorkerRun;
      RunsKeepLog(WorkerRun(s), n - 1);
    }
  }

  lemma SendAddsNoFailure(s: State)
    requires Sound(s) && s.pending.Some?
    ensures NoLengthRepeated(SentFrom(s, true).log) <==> NoLengthRepeated(s.log)
  {
    var t := SentFrom(s, true);
    assert forall a :: a in s.log ==> a in t.log;
    assert forall a :: a in t.log ==> a in s.log || a.submitted;
  }

  /** Whatever schedules and failed submissions came before: if no copy left an empty frame and nothing was purged,
  as many further runs as there are started chunks bring every write to the device, in order, with an empty frame in
  between for every length a failed visit had written and none otherwise. */
  lemma EverythingArrives(cap: nat, steps: seq<Step>)
    requires forall step :: step in steps && step.Copy? ==> step.outcome.NoFrame? || step.outcome.Complete?
    ensures var s := Reached(cap, steps);
            !s.held && s.purged == 0 ==>
              var t := Runs(s, Work(s));
              && Drained(t) && NonEmpty(Reassemble(Seen(t.log))) == NonEmpty(s.written)
              && (Reassemble(Seen(t.log)) == NonEmpty(s.written) <==> NoLengthRepeated(s.log))
  {
    var s := Reached(cap, steps);
    ReachedInvariant(cap, steps);
    NoFaultsNoEmptyFrames(Initial(cap), steps);
    NoFaultsFreeNothing(Initial(cap), steps);
    AwakeAfter(Initial(cap), steps);
    if !s.held && s.purged == 0 {
      var t := Runs(s, Work(s));
      DrainsExactly(s, Work(s));
      RunsKeepOrder(s, Work(s));
      RunsKeepLog(s, Work(s));
      RetriedRepeats(t);
      DrainedDevice(t);
    }
  }

  // A purge that leaves a frame to nobody.

  lemma AdmitReads(s: State, data: seq<byte>)
    requires Sound(s) && s.writer.Outside? && !s.held && data != []
    ensures Next(s, Enter(data)) == s.(writer := Inside(data))
    ensures Next(s.(writer := Inside(data)), ReadQueued) == s.(writer := HasQueued(data, Usage(s.queue)))
    ensures Next(s.(writer := HasQueued(data, Usage(s.queue))), ReadPending) == s.(writer := HasUsage(data, Bytes(s)))
  {
    hide Acquired, SentFrom, Copied, Usage;
  }

  lemma AdmitTests(s: State, data: seq<byte>)
    requires Sound(s) && Bytes(s) + |data| <= s.cap
    ensures Next(s.(writer := HasUsage(data, Bytes(s))), Check) == s.(writer := Admitted(data, s.cap))
  {
    hide Acquired, SentFrom, Copied, Bytes;
  }

  lemma Admits(s: State, data: seq<byte>)
    requires Sound(s) && s.writer.Outside? && !s.held && data != [] && Bytes(s) + |data| <= s.cap
    ensures After(s, [Enter(data), ReadQueued, ReadPending, Check]) == s.(writer := Admitted(data, s.cap))
  {
    AdmitReads(s, data);
    AdmitTests(s, data);
    hide *;
    AfterFour(s, Enter(data), ReadQueued, ReadPending, Check);
  }

  function WriteSteps(data: seq<byte>, outcome: Outcome): seq<Step> {
    [Enter(data), ReadQueued, ReadPending, Check] + [Copy(outcome)]
  }

  /** A write while nobody else moves. */
  lemma Writes(s: State, data: seq<byte>, outcome: Outcome)
    requires Sound(s) && s.writer.Outside? && !s.held && data != [] && Bytes(s) + |data| <= s.cap
    requires !outcome.NoFrame? && (outcome.Faulted? ==> outcome.copied < |data|)
    ensures After(s, WriteSteps(data, outcome))
            == s.(queue := s.queue + [FrameOf(data, outcome)], scheduled := true,
                  written := s.written + [Carried(data, outcome)])
  {
    var t := s.(writer := Admitted(data, s.cap));
    Admits(s, data);
    AfterOne(t, Copy(outcome));
    hide After;
    assert Next(t, Copy(outcome)) == s.(queue := s.queue + [FrameOf(data, outcome)], scheduled := true,
                                        written := s.written + [Carried(data, outcome)]) by {
      hide FrameOf, Carried;
    }
    hide Next, FrameOf, Carried;
    AfterAppend(s, [Enter(data), ReadQueued, ReadPending, Check], [Copy(outcome)]);
  }

  /** A run of the worker that meets an empty frame. */
  lemma RunsInVain(s: State, f: FrameValue)
    requires Sound(s) && !s.held && s.scheduled && f.Valid() && f.length == 0
    requires s.pending == Some(f) || (s.pending == None && s.queue != [] && s.queue[0] == f)
    ensures After(s, [Acquire, Send(true)])
            == s.(pending := Some(f), scheduled := false, queue := if s.pending.Some? then s.queue else s.queue[1..])
  {
    AfterTwo(s, Acquire, Send(true));
    hide After;
  }

  function ResetState(s: State): (t: State)
    requires Sound(s)
    ensures Sound(t)
  {
    s.(resetAt := |s.log|)
  }

  function Unqueued(s: State): (t: State)
    requires Sound(s)
    ensures Sound(t)
  {
    s.(queue := [], purged := s.purged + Usage(s.queue))
  }

  /** The steps of a purge. */
  lemma PurgeNext(s: State)
    requires Sound(s) && !s.held
    ensures Next(s, Reset) == ResetState(s)
    ensures Next(ResetState(s), PurgeQueue) == Unqueued(ResetState(s))
    ensures Unqueued(ResetState(s)) == s.(resetAt := |s.log|, queue := [], purged := s.purged + Usage(s.queue))
    ensures Next(Unqueued(ResetState(s)), PurgePending)
            == s.(resetAt := |s.log|, queue := [], pending := None, purged := s.purged + Bytes(s))
    ensures Next(s, PurgePending) == s.(pending := None, purged := s.purged + PendingBytes(s))
  {
    hide Acquired, SentFrom, Copied, WriterStep, Usage;
  }

  lemma Purges(s: State)
    requires Sound(s) && !s.held
    ensures After(s, [Reset, PurgeQueue])
            == s.(resetAt := |s.log|, queue := [], purged := s.purged + Usage(s.queue))
    ensures After(s, [PurgePending]) == s.(pending := None, purged := s.purged + PendingBytes(s))
  {
    hide *;
    PurgeNext(s);
    AfterTwo(s, Reset, PurgeQueue);
    AfterOne(s, PurgePending);
  }

  /** The copy fails, and the empty frame it leaves becomes pending. */
  lemma EmptyFrameWaits(s: State)
    requires Sound(s) && s.writer.Outside? && !s.held && s.cap >= 1 && s.queue == [] && s.pending == None
    ensures After(s, WriteSteps(ONE_BYTE, Faulted(0)) + [Acquire, Send(true)])
            == s.(pending := Some(FrameOf(ONE_BYTE, Faulted(0))), scheduled := false, written := s.written + [[]])
  {
    var e := FrameOf(ONE_BYTE, Faulted(0));
    Writes(s, ONE_BYTE, Faulted(0));
    assert e.length == 0 && [] + [e] == [e];
    hide After, FrameOf;
    var t := After(s, WriteSteps(ONE_BYTE, Faulted(0)));
    RunsInVain(t, e);
    AfterAppend(s, WriteSteps(ONE_BYTE, Faulted(0)), [Acquire, Send(true)]);
  }

  /** Behind it a frame is written, and the worker does not get to it. */
  lemma FrameWaitsBehind(s: State)
    requires Sound(s) && s.writer.Outside? && !s.held && s.cap >= 1 && s.queue == []
    requires s.pending.Some? && s.pending.value.length == 0
    ensures After(s, WriteSteps(ONE_BYTE, Complete) + [Acquire, Send(true)])
            == s.(queue := [NewFrame(ONE_BYTE)], scheduled := false, written := s.written + [ONE_BYTE])
  {
    Writes(s, ONE_BYTE, Complete);
    assert [] + [NewFrame(ONE_BYTE)] == [NewFrame(ONE_BYTE)];
    hide After, NewFrame;
    var t := After(s, WriteSteps(ONE_BYTE, Complete));
    RunsInVain(t, s.pending.value);
    AfterAppend(s, WriteSteps(ONE_BYTE, Complete), [Acquire, Send(true)]);
  }

  lemma PurgeMeetsWrite(s: State)
    requires Sound(s) && s.writer.Outside? && !s.held && s.cap >= 1 && s.queue == []
    requires s.pending.Some? && s.pending.value.length == 0
    ensures var t := After(s, [Reset, PurgeQueue] + (WriteSteps(ONE_BYTE, Complete) + [Acquire, Send(true)])
                              + [PurgePending]);
            t.queue == [NewFrame(ONE_BYTE)] && t.pending == None && !t.held && !t.scheduled
  {
    Purges(s);
    hide After, NewFrame, WriteSteps;
    var t := After(s, [Reset, PurgeQueue]);
    FrameWaitsBehind(t);
    Purges(After(t, WriteSteps(ONE_BYTE, Complete) + [Acquire, Send(true)]));
    AfterAppend(s, [Reset, PurgeQueue], WriteSteps(ONE_BYTE, Complete) + [Acquire, Send(true)]);
    AfterAppend(s, [Reset, PurgeQueue] + (WriteSteps(ONE_BYTE, Complete) + [Acquire, Send(true)]), [PurgePending]);
  }

  /** The run: a failed copy leaves an empty frame, which becomes pending; a purge begins; a write comes and the worker
  runs, in vain; the purge ends. The frame that was written waits for the next write. */
  lemma LostWakeup()
    ensures var steps := (WriteSteps(ONE_BYTE, Faulted(0)) + [Acquire, Send(true)])
                         + ([Reset, PurgeQueue] + (WriteSteps(ONE_BYTE, Complete) + [Acquire, Send(true)])
                            + [PurgePending]);
            var s := Reached(1, steps);
            !s.held && s.queue == [NewFrame(ONE_BYTE)] && s.pending == None && NonEmptyFrames(s) && !s.scheduled
  {
    var s := Initial(1);
    EmptyFrameWaits(s);
    assert FrameOf(ONE_BYTE, Faulted(0)).length == 0 && NewFrame(ONE_BYTE).length == 1;
    hide After, NewFrame, FrameOf, WriteSteps;
    PurgeMeetsWrite(After(s, WriteSteps(ONE_BYTE, Faulted(0)) + [Acquire, Send(true)]));
    AfterAppend(s, WriteSteps(ONE_BYTE, Faulted(0)) + [Acquire, Send(true)],
                [Reset, PurgeQueue] + (WriteSteps(ONE_BYTE, Complete) + [Acquire, Send(true)]) + [PurgePending]);
  }

  /** The timer wakes the worker, whatever was lost: frames with data are then sent. */
  lemma TimerRevives(s: State)
    requires Sound(s) && !s.held && NonEmptyFrames(s)
    ensures Drained(Runs(Next(s, Timer), Work(s)))
  {
    var t := Next(s, Timer);
    assert t == s.(scheduled := true);
    assert Work(t) == Work(s) && NonEmptyFrames(t) && Awake(t);
    hide *;
    DrainsExactly(t, Work(s));
  }

  /** A new worker sleeps until something is written. */
  lemma {:induction false} SleepsAtFirst(cap: nat, n: nat)
    ensures Runs(Initial(cap), n) == Initial(cap)
  {
    if n > 0 {
      SleepsAtFirst(cap, n - 1);
    }
  }

  /** The cap in force decides: a write that exceeds it is refused, whatever the cap was before. */
  lemma CapDecides(s: State, cap: nat, data: seq<byte>)
    requires Sound(s) && s.writer.Outside? && !s.held && data != []
    ensures After(Next(s, SetCap(cap)), [Enter(data), ReadQueued, ReadPending, Check]).writer
            == if Bytes(s) + |data| > cap then Outside else Admitted(data, cap)
  {
    var t := Next(s, SetCap(cap));
    assert t == s.(cap := cap, highest := t.highest) && Bytes(t) == Bytes(s);
    AdmitReads(t, data);
    var u := t.(writer := HasUsage(data, Bytes(t)));
    assert Sound(t) && Sound(u);
    assert Next(u, Check).writer == if Bytes(s) + |data| > cap then Outside else Admitted(data, cap);
    hide *;
    AfterFour(t, Enter(data), ReadQueued, ReadPending, Check);
  }
}
