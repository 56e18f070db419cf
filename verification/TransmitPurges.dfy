/** A purge of the transmit side (src/port.c:867-895): it resets the transmitter, empties the queue and drops the
pending frame, each under its own lock. */
module TransmitPurges {
  import opened Sequences
  import opened Frames
  import opened FrameLists
  import opened Transmit
  import opened TransmitDevice
  import opened TransmitRuns
  import opened TransmitProgress

  /** What lies before a purge. */
  datatype Past = Past(log: seq<Attempt>, written: seq<seq<byte>>, purged: nat)

  /** The same state with a past. */
  function Later(s: State, p: Past): State {
    s.(log := p.log + s.log, resetAt := |p.log| + s.resetAt, written := p.written + s.written,
       purged := p.purged + s.purged)
  }

  lemma LaterSent(s: State, p: Past, submitted: bool)
    requires Sound(s) && s.pending.Some?
    ensures SentFrom(Later(s, p), submitted) == Later(SentFrom(s, submitted), p)
  {
    hide TransmitFrame;
    var sent := TransmitFrame(s.pending.value, submitted);
    if sent.attempt.Some? {
      assert p.log + s.log + [sent.attempt.value] == p.log + (s.log + [sent.attempt.value]);
    }
  }

  lemma LaterCopied(s: State, p: Past, outcome: Outcome)
    requires Sound(s) && Enabled(s, Copy(outcome))
    ensures Copied(Later(s, p), outcome) == Later(Copied(s, outcome), p)
  {
    hide FrameOf, Carried;
    var carried := Carried(s.writer.data, outcome);
    assert p.written + s.written + [carried] == p.written + (s.written + [carried]);
  }

  lemma LaterOther(s: State, p: Past, step: Step)
    requires Sound(s) && Enabled(s, step) && !step.Send? && !step.Copy?
    ensures Next(Later(s, p), step) == Later(Next(s, step), p)
  {
    hide SentFrom, Copied, Usage;
  }

  /** A port with a past does what a new one does. */
  lemma LaterNext(s: State, p: Past, step: Step)
    requires Sound(s)
    ensures Sound(Later(s, p)) && Next(Later(s, p), step) == Later(Next(s, step), p)
  {
    hide SentFrom, Copied, Acquired, WriterStep;
    if Enabled(s, step) {
      match step {
        case Send(submitted) => LaterSent(s, p, submitted);
        case Copy(outcome) => LaterCopied(s, p, outcome);
        case _ => LaterOther(s, p, step);
      }
    }
  }

  lemma {:induction false} LaterAfter(s: State, p: Past, steps: seq<Step>)
    requires Sound(s)
    ensures Sound(Later(s, p)) && After(Later(s, p), steps) == Later(After(s, steps), p)
    decreases |steps|
  {
    if steps != [] {
      LaterNext(s, p, steps[0]);
      hide Next, Later;
      LaterAfter(Next(s, steps[0]), p, steps[1..]);
    }
  }

  const PURGE: seq<Step> := [Reset, PurgeQueue, PurgePending]

  function PastOf(s: State): Past {
    Past(s.log, s.written, s.purged + Bytes(s))
  }

  /** A new port that finds the worker and the writer where they are. */
  function Emptied(s: State): State {
    Initial(s.cap).(scheduled := s.scheduled, writer := s.writer, highest := s.highest)
  }

  lemma EmptiedInvariant(s: State)
    requires Invariant(s)
    ensures Invariant(Emptied(s))
  {
    assert [] + [] + FutureAll([]) == IdealAll([]);
    hide FutureAll, IdealAll;
  }

  lemma EmptiedLater(s: State)
    requires Sound(s) && !s.held
    ensures Sound(Emptied(s))
    ensures Later(Emptied(s), PastOf(s))
            == s.(resetAt := |s.log|, queue := [], pending := None, purged := s.purged + Bytes(s))
  {
    hide Bytes;
    assert s.log + [] == s.log && s.written + [] == s.written;
  }

  lemma PurgeInRow(s: State)
    requires Sound(s) && !s.held
    ensures After(s, [Reset, PurgeQueue, PurgePending])
            == s.(resetAt := |s.log|, queue := [], pending := None, purged := s.purged + Bytes(s))
  {
    hide *;
    PurgeNext(s);
    AfterThree(s, Reset, PurgeQueue, PurgePending);
  }

  lemma PurgeEmpties(s: State)
    requires Sound(s) && !s.held
    ensures Sound(Emptied(s)) && After(s, PURGE) == Later(Emptied(s), PastOf(s))
  {
    PurgeInRow(s);
    EmptiedLater(s);
    hide *;
  }

  /** A purge that nothing comes between leaves a new port with a past, wherever worker and writer are: every later run
  is a run of that port. */
  lemma PurgeRestarts(s: State, steps: seq<Step>)
    requires Sound(s) && !s.held
    ensures Sound(Emptied(s)) && After(s, PURGE + steps) == Later(After(Emptied(s), steps), PastOf(s))
  {
    PurgeEmpties(s);
    hide *;
    AfterAppend(s, PURGE, steps);
    LaterAfter(Emptied(s), PastOf(s), steps);
  }

  /** What a port with a past has since. */
  lemma SincePast(u: State, p: Past)
    ensures Later(u, p).log[|p.log|..] == u.log && Later(u, p).written[|p.written|..] == u.written
  {
  }

  /** So a device that forgets at the reset what it had gets from the visits since then nothing but the writes since
  then, whatever was on the way at the purge: every byte is accounted for, and once all is sent the device has exactly
  those writes, and empty frames if and only if a failed visit wrote a length. */
  lemma DeviceRestarts(cap: nat, before: seq<Step>, steps: seq<Step>)
    requires !Reached(cap, before).held
    ensures var s := Reached(cap, before);
            var t := After(s, PURGE + steps);
            && |s.log| <= |t.log| && |s.written| <= |t.written| && s.purged + Bytes(s) <= t.purged
            && var sent, later, purged := t.log[|s.log|..], t.written[|s.written|..], t.purged - s.purged - Bytes(s);
               && |Concat(later)| == |Concat(Reassemble(Seen(sent)))| + Bytes(t) + purged
               && (purged == 0 && Drained(t) ==>
                     && NonEmpty(Reassemble(Seen(sent))) == NonEmpty(later)
                     && (Reassemble(Seen(sent)) == NonEmpty(later) <==> NoLengthRepeated(sent)))
  {
    var s := Reached(cap, before);
    ReachedInvariant(cap, before);
    PurgeRestarts(s, steps);
    EmptiedInvariant(s);
    var u := After(Emptied(s), steps);
    InvariantAfter(Emptied(s), steps);
    SincePast(u, PastOf(s));
    if u.purged == 0 && Drained(u) {
      RetriedRepeats(u);
      DrainedDevice(u);
    }
    hide After, Reassemble, Seen, Concat, NonEmpty, NoLengthRepeated, InOrder, Retried, Capped, Emptied, Usage;
  }

  // A purge that the worker divides.

  lemma VisitSince(s: State)
    requires Sound(s) && !s.held && s.scheduled && s.pending.Some? && s.pending.value.length > 0
    ensures var t := After(s, [Reset, Acquire, Send(true)]);
            && t.resetAt == |s.log| <= |t.log| && t.log[t.resetAt..] == [NextAttempt(s.pending.value, true)]
  {
    var r := s.(resetAt := |s.log|);
    var a := r.(held := true, scheduled := false);
    assert Next(s, Reset) == r && Next(r, Acquire) == a;
    SentFields(a, true);
    assert Next(a, Send(true)) == SentFrom(a, true);
    assert SentFrom(a, true).resetAt == |s.log|;
    hide Next, After, SentFrom, NextAttempt, Sound;
    AfterThree(s, Reset, Acquire, Send(true));
    assert (s.log + [NextAttempt(s.pending.value, true)])[|s.log|..] == [NextAttempt(s.pending.value, true)];
  }

  /** A run of the worker after the reset still sends from the pending frame. The device starts a frame with it if and
  only if it is the frame's first visit; otherwise the bytes are lost to a device that forgot the frame. */
  lemma VisitAfterReset(s: State)
    requires Sound(s) && !s.held && s.scheduled && s.pending.Some? && s.pending.value.length > 0
    ensures var t, f := After(s, [Reset, Acquire, Send(true)]), s.pending.value;
            && t.resetAt <= |t.log|
            && Reassemble(Seen(t.log[t.resetAt..]))
               == if f.length == f.frameSize then [Cut(f.buffer, Min(f.length, CHUNK))] else []
  {
    var f := s.pending.value;
    VisitSince(s);
    hide After, Reassemble, Seen, NextAttempt;
    OneVisitSeen(f);
  }

  /** A device that has nothing and gets one visit. */
  lemma OneVisitSeen(f: FrameValue)
    requires f.Valid() && f.length > 0
    ensures Reassemble(Seen([NextAttempt(f, true)]))
            == if f.length == f.frameSize then [Cut(f.buffer, Min(f.length, CHUNK))] else []
  {
    var a := NextAttempt(f, true);
    assert Seen([a]) == [a];
    assert FeedAll([], [a]) == FeedAll(Feed([], a), []) == Feed([], a);
    hide Seen, FeedAll;
    assert f.length == f.frameSize ==> Cut(a.chunk, f.frameSize) == Cut(f.buffer, Min(f.length, CHUNK));
  }

  /** A frame of more than one chunk is started by the first run. */
  lemma RunStarts(s: State, f: FrameValue)
    requires Sound(s) && !s.held && s.scheduled && s.pending == None && s.queue == [f]
    requires f.length == f.frameSize > CHUNK
    ensures var t := After(s, [Acquire, Send(true)]);
            && !t.held && t.scheduled && t.pending.Some?
            && 0 < t.pending.value.length < t.pending.value.frameSize
  {
    var a := s.(queue := s.queue[1..], pending := Some(f), held := true, scheduled := false);
    assert Next(s, Acquire) == a;
    VisitLengths(f, true);
    SentFields(a, true);
    assert SentFrom(a, true).scheduled && !SentFrom(a, true).held by {
      hide NextAttempt;
    }
    assert Next(a, Send(true)) == SentFrom(a, true);
    hide Next, After, SentFrom, NextAttempt, TransmitFrame, Sound;
    AfterTwo(s, Acquire, Send(true));
  }

  /** A run from the start in which that happens: the worker sends two chunks, and the reset comes between them. */
  lemma ResetBetweenChunks(data: seq<byte>)
    requires |data| > CHUNK
    ensures var s := Reached(|data|, WriteSteps(data, Complete) + [Acquire, Send(true)]
                                     + [Reset, Acquire, Send(true)]);
            s.resetAt < |s.log| && Reassemble(Seen(s.log[s.resetAt..])) == []
  {
    var s := Initial(|data|);
    Writes(s, data, Complete);
    assert [] + [NewFrame(data)] == [NewFrame(data)];
    hide After, NewFrame, WriteSteps;
    var t := After(s, WriteSteps(data, Complete));
    RunStarts(t, NewFrame(data));
    var u := After(t, [Acquire, Send(true)]);
    VisitSince(u);
    VisitAfterReset(u);
    AfterAppend(s, WriteSteps(data, Complete), [Acquire, Send(true)]);
    AfterAppend(s, WriteSteps(data, Complete) + [Acquire, Send(true)], [Reset, Acquire, Send(true)]);
  }
}
