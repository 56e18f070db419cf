/** Where framing ends: runs from the start that lose it. */
module ReceiveLimits {
  import opened Sequences
  import opened Frames
  import opened Transfers
  import opened ReceiveRuns
  import opened ReceiveResults
  import opened ReceivePurges

  // Runs, put together from events.

  /** A transfer with the device's next bytes, appended. */
  function Arrived(st: Stream, p: seq<byte>, pad: byte): Stream
    requires |p| < MAX_TRANSFER
  {
    var m := Misread(|p|, st.tail);
    st.(bytes := st.bytes + p + (if m then [pad] else []), tail := TailOf(Encode(p, pad)),
        position := st.position + |p|, misread := st.misread + if m then 1 else 0)
  }

  lemma Arrives(fs: seq<seq<byte>>, s: State, count: nat, pad: byte)
    requires Device(fs) && Sound(s) && Enabled(fs, s, Receive(count, pad)) && |s.stream.bytes| + count + 1 <= s.cap
    ensures After(fs, s, [Receive(count, pad), Append(true)])
            == s.(stream := Arrived(s.stream, NextBytes(fs, s.stream, count), pad))
  {
    var p := NextBytes(fs, s.stream, count);
    var t := s.(stream := Handled(s.stream, p, pad, s.cap));
    assert Next(fs, s, Receive(count, pad)) == t by {
      hide Concat, Handled, NextBytes;
    }
    HandledThenAppended(s.stream, p, pad, s.cap);
    assert Next(fs, t, Append(true)) == s.(stream := Appended(t.stream, true)) by {
      hide Concat, Handled, Appended, NextBytes;
    }
    hide *;
    AfterOne(fs, s, Receive(count, pad), [Append(true)]);
    JustOne(fs, t, Append(true));
  }

  lemma HandledThenAppended(st: Stream, p: seq<byte>, pad: byte, cap: nat)
    requires |p| < MAX_TRANSFER && |st.bytes| + |p| + 1 <= cap && st.flight.Nothing?
    ensures Handled(st, p, pad, cap).flight.Flight?
    ensures Appended(Handled(st, p, pad, cap), true) == Arrived(st, p, pad)
  {
    DecodeCases(p, pad, st.tail);
    hide Encode, Decode, TailOf, Misread;
    assert st.bytes + p + [] == st.bytes + (p + []);
    assert st.bytes + p + [pad] == st.bytes + (p + [pad]);
  }

  /** In terms of what the transfer brings. */
  lemma Brings(fs: seq<seq<byte>>, s: State, p: seq<byte>, pad: byte)
    requires Device(fs) && Sound(s) && Enabled(fs, s, Receive(|p|, pad)) && |s.stream.bytes| + |p| + 1 <= s.cap
    requires NextBytes(fs, s.stream, |p|) == p
    ensures var t, m := After(fs, s, [Receive(|p|, pad), Append(true)]), Misread(|p|, s.stream.tail);
            && t == s.(stream := t.stream) && t.stream.flight.Nothing?
            && t.stream.bytes == s.stream.bytes + p + (if m then [pad] else [])
            && t.stream.position == s.stream.position + |p| && t.stream.tail == TailOf(Encode(p, pad))
            && t.stream.discarded == s.stream.discarded && t.stream.disturbed == s.stream.disturbed
  {
    Arrives(fs, s, |p|, pad);
    hide After, Concat, NextBytes, Misread, Encode, TailOf;
  }

  lemma SizeComes(fs: seq<seq<byte>>, s: State)
    requires Device(fs) && Sound(s) && s.sizes.sized < |fs|
    ensures After(fs, s, [Size])
            == s.(sizes := Sizes(s.sizes.queue + [|fs[s.sizes.sized]|], s.sizes.sized + 1, s.sizes.taken))
  {
    hide Concat;
    AfterOne(fs, s, Size, []);
  }

  /** A whole frame in one transfer, and then its size. */
  lemma FrameComes(fs: seq<seq<byte>>, s: State, p: seq<byte>)
    requires Device(fs) && Sound(s) && Enabled(fs, s, Receive(|p|, 0)) && |s.stream.bytes| + |p| + 1 <= s.cap
    requires NextBytes(fs, s.stream, |p|) == p && !Misread(|p|, s.stream.tail)
    requires s.sizes.sized < |fs| && |fs[s.sizes.sized]| == |p|
    ensures var t := After(fs, s, [Receive(|p|, 0), Append(true)] + [Size]);
            && t == s.(stream := t.stream, sizes := Sizes(s.sizes.queue + [|p|], s.sizes.sized + 1, s.sizes.taken))
            && t.stream.bytes == s.stream.bytes + p && t.stream.position == s.stream.position + |p|
            && t.stream.flight.Nothing?
  {
    Brings(fs, s, p, 0);
    hide After, NextBytes, Concat, Misread, Encode, TailOf;
    assert s.stream.bytes + p + [] == s.stream.bytes + p;
    SizeComes(fs, After(fs, s, [Receive(|p|, 0), Append(true)]));
    AfterAppend(fs, s, [Receive(|p|, 0), Append(true)], [Size]);
  }

  /** A read takes the front size. */
  lemma ReadBegins(fs: seq<seq<byte>>, s: State, buf: nat)
    requires Device(fs) && Sound(s) && s.reader.Idle? && Ready(s)
    requires s.sizes.queue[0] <= MaxFrameLength(buf, 0, s.appendStatus)
    ensures After(fs, s, [StartRead(buf), Take])
            == s.(sizes := Sizes(s.sizes.queue[1..], s.sizes.sized, s.sizes.taken + 1),
                  reader := Taken(buf, [], 0, s.sizes.taken, true, s.sizes.queue[0]))
  {
    hide Concat, MaxFrameLength;
    var t := s.(reader := Looping(buf, [], 0, s.sizes.taken, true));
    assert Next(fs, s, StartRead(buf)) == t;
    AfterOne(fs, s, StartRead(buf), [Take]);
    AfterOne(fs, t, Take, []);
  }

  /** And ends with it, in a port that reads one frame at a time. */
  lemma ReadEnds(fs: seq<seq<byte>>, s: State, copied: bool)
    requires Device(fs) && Sound(s) && s.reader.Taken? && !s.multiple && s.reader.claimed == 0 && s.reader.out == []
    requires s.reader.full
    ensures var r, kept := s.reader, KeptLength(s.reader.size, s.appendStatus);
            After(fs, s, [Consume(copied)])
            == s.(stream := Consumed(s.stream, r.size, kept, copied), reader := Idle,
                  finished := s.finished + [Read(r.buf, Got(s.stream, kept, copied), kept, r.first, s.sizes.taken,
                                                 Delivers(s.stream, kept, copied))])
  {
    hide Concat, Consumed, Delivers;
    AfterOne(fs, s, Consume(copied), []);
    var kept := KeptLength(s.reader.size, s.appendStatus);
    assert [] + Got(s.stream, kept, copied) == Got(s.stream, kept, copied);
  }

  lemma ReadsWhole(fs: seq<seq<byte>>, s: State, buf: nat)
    requires Device(fs) && Sound(s) && s.reader.Idle? && Ready(s) && s.appendStatus && !s.multiple
    requires s.sizes.queue[0] <= MaxFrameLength(buf, 0, true)
    ensures var n := s.sizes.queue[0];
            var t := After(fs, s, [StartRead(buf), Take] + [Consume(true)]);
            && t.finished == s.finished + [Read(buf, s.stream.bytes[..n], n, s.sizes.taken, s.sizes.taken + 1, true)]
            && t.stream.disturbed == s.stream.disturbed && t.stream.discarded == s.stream.discarded
  {
    ReadBegins(fs, s, buf);
    var t := After(fs, s, [StartRead(buf), Take]);
    AfterAppend(fs, s, [StartRead(buf), Take], [Consume(true)]);
    hide After, Concat, MaxFrameLength;
    ReadEnds(fs, t, true);
    hide Consumed;
  }

  // Discards.

  const TWO_FRAMES: seq<seq<byte>> := [[1, 2], [3, 4]]

  lemma TwoFrames()
    ensures Device(TWO_FRAMES) && Concat(TWO_FRAMES) == [1, 2, 3, 4] && Concat(TWO_FRAMES[..0]) == []
    ensures Concat(TWO_FRAMES[..1]) == [1, 2]
  {
    ConcatSingle(TWO_FRAMES[0]);
    ConcatSnoc([TWO_FRAMES[0]], TWO_FRAMES[1]);
    assert TWO_FRAMES == [TWO_FRAMES[0]] + [TWO_FRAMES[1]] && TWO_FRAMES[..1] == [TWO_FRAMES[0]];
  }

  /** A state of the port in the runs below, which takes one frame at a time with its status. */
  function At(stream: Stream, sizes: Sizes, cap: nat): State {
    State(stream, sizes, Idle, [], cap, cap, true, false)
  }

  /** From the second frame's bytes alone and the first frame's size, the first frame is read wrong. */
  lemma SecondForFirst(st: Stream, cap: nat)
    requires st.flight.Nothing? && st.position == 2 && st.bytes == [] && 3 <= cap
    ensures Device(TWO_FRAMES)
    ensures var s := At(st, Sizes([], 0, 0), cap);
            After(TWO_FRAMES, s, ([Receive(2, 0), Append(true)] + [Size]) + ([StartRead(10), Take] + [Consume(true)]))
            .finished == [Read(10, [3, 4], 2, 0, 1, true)]
  {
    var fs, s := TWO_FRAMES, At(st, Sizes([], 0, 0), cap);
    SecondComes(s);
    hide After, Concat;
    var u := After(fs, s, [Receive(2, 0), Append(true)] + [Size]);
    assert u.stream.bytes == [3, 4] && [3, 4][..2] == [3, 4];
    ReadsWhole(fs, u, 10);
    AfterAppend(fs, s, [Receive(2, 0), Append(true)] + [Size], [StartRead(10), Take] + [Consume(true)]);
  }

  /** The second frame's bytes, and a size of two. */
  lemma SecondComes(s: State)
    requires s == At(s.stream, Sizes([], 0, 0), s.cap) && s.stream.flight.Nothing? && s.stream.position == 2
    requires s.stream.bytes == [] && 3 <= s.cap
    ensures Device(TWO_FRAMES)
    ensures var t := After(TWO_FRAMES, s, [Receive(2, 0), Append(true)] + [Size]);
            t == s.(stream := t.stream, sizes := Sizes([2], 1, 0)) && t.stream.bytes == [3, 4]
  {
    TwoFrames();
    assert NextBytes(TWO_FRAMES, s.stream, 2) == [3, 4] && !Misread(2, s.stream.tail);
    assert [] + [3, 4] == [3, 4] && [] + [2] == [2];
    hide After, Concat, NextBytes, Misread;
    FrameComes(TWO_FRAMES, s, [3, 4]);
  }

  /** A run in which the first two bytes exceed the cap: once it is raised, the first read gives the second frame's
  bytes for the first frame. */
  lemma DiscardMisframes(tail: Tail)
    ensures Device(TWO_FRAMES)
    ensures var steps := ([Receive(2, 0)] + [SetCap(10)]) + (([Receive(2, 0), Append(true)] + [Size])
                                                             + ([StartRead(10), Take] + [Consume(true)]));
            var s := Reached(TWO_FRAMES, Setting(1, true, false, tail), steps);
            s.finished == [Read(10, [3, 4], 2, 0, 1, true)]
  {
    TwoFrames();
    var fs, s0 := TWO_FRAMES, Start(Setting(1, true, false, tail));
    assert NextBytes(fs, s0.stream, 2) == [1, 2] && !Misread(2, tail);
    HandledCounts(s0.stream, [1, 2], 0, 1);
    var st := Handled(s0.stream, [1, 2], 0, 1);
    assert Next(fs, s0, Receive(2, 0)) == At(st, Sizes([], 0, 0), 1);
    assert Next(fs, At(st, Sizes([], 0, 0), 1), SetCap(10)) == At(st, Sizes([], 0, 0), 10);
    hide Next, Concat, NextBytes, Handled;
    AfterOne(fs, s0, Receive(2, 0), [SetCap(10)]);
    AfterOne(fs, At(st, Sizes([], 0, 0), 1), SetCap(10), []);
    AfterAppend(fs, s0, [Receive(2, 0)] + [SetCap(10)],
                ([Receive(2, 0), Append(true)] + [Size]) + ([StartRead(10), Take] + [Consume(true)]));
    SecondForFirst(st, 10);
  }

  // Purges that do not restore framing.

  lemma FirstInFlight(s: State)
    requires s == At(s.stream, Sizes([], 0, 0), 10) && s.stream.bytes == [] && s.stream.position == 0
    requires s.stream.flight.Nothing?
    ensures Device(TWO_FRAMES)
    ensures var t := After(TWO_FRAMES, s, [Receive(2, 0)]);
            && t == s.(stream := t.stream) && t.stream.bytes == [] && t.stream.position == 2
            && t.stream.flight == Flight([1, 2], 2, false)
  {
    TwoFrames();
    var st := Handled(s.stream, [1, 2], 0, 10);
    assert NextBytes(TWO_FRAMES, s.stream, 2) == [1, 2] && !Misread(2, s.stream.tail);
    HandledCounts(s.stream, [1, 2], 0, 10);
    assert [1, 2] + [] == [1, 2];
    assert Next(TWO_FRAMES, s, Receive(2, 0)) == s.(stream := st);
    hide *;
    JustOne(TWO_FRAMES, s, Receive(2, 0));
  }

  lemma FirstIsStale(s: State)
    requires s == At(s.stream, Sizes([], 0, 0), 10) && s.stream.bytes == [] && s.stream.position == 2
    requires s.stream.flight == Flight([1, 2], 2, false)
    ensures Device(TWO_FRAMES)
    ensures var t := After(TWO_FRAMES, s, [Reset(1), PurgeSizes, PurgeStream] + [Append(true)]);
            && t == At(t.stream, Sizes([], 1, 0), 10) && t.stream.bytes == [1, 2] && t.stream.position == 2
            && t.stream.flight.Nothing?
  {
    TwoFrames();
    PurgeInRow(TWO_FRAMES, s, 1);
    var t := Purged(TWO_FRAMES, s, 1);
    assert [] + [1, 2] == [1, 2];
    assert t.stream.bytes == [] && t.stream.position == 2 && t.stream.flight == s.stream.flight;
    AfterAppend(TWO_FRAMES, s, [Reset(1), PurgeSizes, PurgeStream], [Append(true)]);
    JustOne(TWO_FRAMES, t, Append(true));
    hide After, Concat;
  }

  /** The bytes of the first frame are in the stream, and the next size is that of the second one. */
  lemma FirstForSecond(s: State)
    requires s == At(s.stream, Sizes([], 1, 0), 10) && s.stream.bytes == [1, 2]
    ensures Device(TWO_FRAMES)
    ensures After(TWO_FRAMES, s, [Size] + ([StartRead(10), Take] + [Consume(true)])).finished
            == [Read(10, [1, 2], 2, 0, 1, true)]
  {
    TwoFrames();
    SizeComes(TWO_FRAMES, s);
    assert [] + [2] == [2] && [1, 2][..2] == [1, 2];
    hide After, Concat;
    ReadsWhole(TWO_FRAMES, After(TWO_FRAMES, s, [Size]), 10);
    AfterAppend(TWO_FRAMES, s, [Size], [StartRead(10), Take] + [Consume(true)]);
  }

  /** A purge while a transfer is on its way through the callback: the transfer is appended behind the purge, and the
  next read gives its bytes for a frame that came later. */
  lemma FlightAcrossPurge(tail: Tail)
    ensures Device(TWO_FRAMES)
    ensures var steps := [Receive(2, 0)] + ([Reset(1), PurgeSizes, PurgeStream] + [Append(true)])
                         + ([Size] + ([StartRead(10), Take] + [Consume(true)]));
            Reached(TWO_FRAMES, Setting(10, true, false, tail), steps).finished == [Read(10, [1, 2], 2, 0, 1, true)]
  {
    var fs, s0 := TWO_FRAMES, Start(Setting(10, true, false, tail));
    FirstInFlight(s0);
    hide After;
    var s1 := After(fs, s0, [Receive(2, 0)]);
    FirstIsStale(s1);
    var s2 := After(fs, s1, [Reset(1), PurgeSizes, PurgeStream] + [Append(true)]);
    FirstForSecond(s2);
    AfterAppend(fs, s0, [Receive(2, 0)], [Reset(1), PurgeSizes, PurgeStream] + [Append(true)]);
    AfterAppend(fs, s0, [Receive(2, 0)] + ([Reset(1), PurgeSizes, PurgeStream] + [Append(true)]),
                [Size] + ([StartRead(10), Take] + [Consume(true)]));
  }

  lemma FirstFrameComes(s: State)
    requires s == At(s.stream, Sizes([], 0, 0), 10) && s.stream.bytes == [] && s.stream.position == 0
    requires s.stream.flight.Nothing?
    ensures Device(TWO_FRAMES)
    ensures var t := After(TWO_FRAMES, s, [Receive(2, 0), Append(true)] + [Size]);
            t == At(t.stream, Sizes([2], 1, 0), 10) && t.stream.position == 2 && t.stream.flight.Nothing?
  {
    TwoFrames();
    assert NextBytes(TWO_FRAMES, s.stream, 2) == [1, 2] && !Misread(2, s.stream.tail) && [] + [2] == [2];
    hide After, Concat, NextBytes, Misread;
    FrameComes(TWO_FRAMES, s, [1, 2]);
  }

  /** A reset of a port to which nothing has come drops nothing. */
  lemma SizesPurged(s: State)
    requires Sound(s) && s.stream.position == 0 && s.sizes.sized == 0
    ensures Device(TWO_FRAMES)
    ensures After(TWO_FRAMES, s, [Reset(0), PurgeSizes])
            == s.(sizes := s.sizes.(queue := []), stream := s.stream.(disturbed := true))
  {
    hide After;
    ResetNothing(s);
    assert [Reset(0)] + [PurgeSizes] == [Reset(0), PurgeSizes];
    AfterOne(TWO_FRAMES, s, Reset(0), [PurgeSizes]);
    JustOne(TWO_FRAMES, Next(TWO_FRAMES, s, Reset(0)), PurgeSizes);
  }

  lemma ResetNothing(s: State)
    requires Sound(s) && s.stream.position == 0 && s.sizes.sized == 0
    ensures Device(TWO_FRAMES)
    ensures Next(TWO_FRAMES, Next(TWO_FRAMES, s, Reset(0)), PurgeSizes)
            == s.(sizes := s.sizes.(queue := []), stream := s.stream.(disturbed := true))
  {
    TwoFrames();
    hide Concat, Handled, Appended, TakenFrom, ConsumedFrom;
    var r := s.(stream := s.stream.(disturbed := true));
    assert WasReset(TWO_FRAMES, s, 0) == r;
    assert Next(TWO_FRAMES, s, Reset(0)) == r;
  }

  lemma StreamPurged(fs: seq<seq<byte>>, s: State)
    requires Device(fs) && Sound(s)
    ensures After(fs, s, [PurgeStream]) == s.(stream := s.stream.(bytes := [], disturbed := true))
  {
    hide Concat;
    JustOne(fs, s, PurgeStream);
  }

  lemma BetweenThePurges(s: State)
    requires s == Start(Setting(10, true, false, s.stream.tail))
    ensures Device(TWO_FRAMES)
    ensures var t := After(TWO_FRAMES, s, [Reset(0), PurgeSizes] + ([Receive(2, 0), Append(true)] + [Size])
                                          + [PurgeStream]);
            t == At(t.stream, Sizes([2], 1, 0), 10) && t.stream.bytes == [] && t.stream.position == 2
            && t.stream.flight.Nothing?
  {
    TwoFrames();
    var fs := TWO_FRAMES;
    SizesPurged(s);
    hide After, Concat;
    var s1 := After(fs, s, [Reset(0), PurgeSizes]);
    FirstFrameComes(s1);
    StreamPurged(fs, After(fs, s1, [Receive(2, 0), Append(true)] + [Size]));
    AfterAppend(fs, s, [Reset(0), PurgeSizes], [Receive(2, 0), Append(true)] + [Size]);
    AfterAppend(fs, s, [Reset(0), PurgeSizes] + ([Receive(2, 0), Append(true)] + [Size]), [PurgeStream]);
  }

  /** A frame that comes, with its size, between the last two steps of a purge: only its bytes are purged. */
  lemma PurgeInTwoSteps(tail: Tail)
    ensures Device(TWO_FRAMES)
    ensures var steps := ([Reset(0), PurgeSizes] + ([Receive(2, 0), Append(true)] + [Size]) + [PurgeStream])
                         + ([Receive(2, 0), Append(true)] + ([StartRead(10), Take] + [Consume(true)]));
            Reached(TWO_FRAMES, Setting(10, true, false, tail), steps).finished == [Read(10, [3, 4], 2, 0, 1, true)]
  {
    TwoFrames();
    var fs, s0 := TWO_FRAMES, Start(Setting(10, true, false, tail));
    var purge := [Reset(0), PurgeSizes] + ([Receive(2, 0), Append(true)] + [Size]) + [PurgeStream];
    BetweenThePurges(s0);
    var s1 := After(fs, s0, purge);
    assert NextBytes(fs, s1.stream, 2) == [3, 4] && [] + [3, 4] + [] == [3, 4] && !Misread(2, s1.stream.tail);
    Brings(fs, s1, [3, 4], 0);
    hide After, Concat, NextBytes;
    var s2 := After(fs, s1, [Receive(2, 0), Append(true)]);
    assert s2.stream.bytes == [3, 4] && [3, 4][..2] == [3, 4];
    ReadsWhole(fs, s2, 10);
    AfterAppend(fs, s1, [Receive(2, 0), Append(true)], [StartRead(10), Take] + [Consume(true)]);
    AfterAppend(fs, s0, purge, [Receive(2, 0), Append(true)] + ([StartRead(10), Take] + [Consume(true)]));
  }

  // A frame whose claim is not delivered.

  const ONE_FRAME: seq<seq<byte>> := [[7, 8, 9]]

  lemma OneFrameComes(appendStatus: bool, tail: Tail)
    ensures Device(ONE_FRAME)
    ensures var s := Reached(ONE_FRAME, Setting(10, appendStatus, false, tail), [Receive(3, 0), Append(true)] + [Size]);
            && s == State(s.stream, Sizes([3], 1, 0), Idle, [], 10, 10, appendStatus, false)
            && s.stream.bytes == [7, 8, 9]
  {
    var fs, s := ONE_FRAME, Start(Setting(10, appendStatus, false, tail));
    ConcatSingle(fs[0]);
    assert NextBytes(fs, s.stream, 3) == [7, 8, 9] && !Misread(3, tail) && [] + [3] == [3] && [] + fs[0] == fs[0];
    hide After, Concat, NextBytes, Misread;
    FrameComes(fs, s, [7, 8, 9]);
  }

  /** The frame has arrived with its size, and a read has taken the size. */
  lemma OneFrameTaken(appendStatus: bool, tail: Tail)
    ensures Device(ONE_FRAME)
    ensures var s := Reached(ONE_FRAME, Setting(10, appendStatus, false, tail),
                             ([Receive(3, 0), Append(true)] + [Size]) + [StartRead(10), Take]);
            && s == State(s.stream, Sizes([], 1, 1), Taken(10, [], 0, 0, true, 3), [], 10, 10, appendStatus, false)
            && s.stream.bytes == [7, 8, 9]
  {
    var fs, s0 := ONE_FRAME, Start(Setting(10, appendStatus, false, tail));
    OneFrameComes(appendStatus, tail);
    hide After;
    ReadBegins(fs, After(fs, s0, [Receive(3, 0), Append(true)] + [Size]), 10);
    assert [3][1..] == [];
    AfterAppend(fs, s0, [Receive(3, 0), Append(true)] + [Size], [StartRead(10), Take]);
  }

  /** A run with a purge between the two critical sections of a read: it claims three bytes and delivers none. */
  lemma PurgeInGap(tail: Tail)
    ensures Device(ONE_FRAME)
    ensures var steps := ([Receive(3, 0), Append(true)] + [Size]) + [StartRead(10), Take]
                         + [Reset(0), PurgeSizes, PurgeStream] + [Consume(true)];
            Reached(ONE_FRAME, Setting(10, true, false, tail), steps).finished == [Read(10, [], 3, 0, 1, false)]
  {
    OneFrameTaken(true, tail);
    var fs, g, steps := ONE_FRAME, Setting(10, true, false, tail),
                        ([Receive(3, 0), Append(true)] + [Size]) + [StartRead(10), Take];
    var s := Reached(fs, g, steps);
    hide After, Concat;
    ReachedWithin(fs, g, steps);
    PurgeThenConsume(fs, s);
    AfterAppend(fs, Start(g), steps, [Reset(0), PurgeSizes, PurgeStream]);
    AfterAppend(fs, Start(g), steps + [Reset(0), PurgeSizes, PurgeStream], [Consume(true)]);
  }

  lemma ReachedWithin(fs: seq<seq<byte>>, g: Setting, steps: seq<Step>)
    requires Device(fs)
    ensures Reached(fs, g, steps).stream.position <= |Concat(fs)|
  {
    ReachedInvariant(fs, g, steps);
  }

  lemma PurgeThenConsume(fs: seq<seq<byte>>, s: State)
    requires Device(fs) && |fs| == 1 && s.stream.position <= |Concat(fs)| && s.finished == []
    requires s.reader == Taken(10, [], 0, 0, true, 3) && s.appendStatus && !s.multiple && s.sizes == Sizes([], 1, 1)
    ensures After(fs, After(fs, s, [Reset(0), PurgeSizes, PurgeStream]), [Consume(true)]).finished
            == [Read(10, [], 3, 0, 1, false)]
  {
    assert fs[..1] == fs;
    PurgeInRow(fs, s, 0);
    hide After, Concat;
    var t := Purged(fs, s, 0);
    assert t == s.(stream := t.stream) && t.stream.bytes == [];
    ReadEnds(fs, t, true);
    assert [] + [Read(10, [], 3, 0, 1, false)] == [Read(10, [], 3, 0, 1, false)];
  }

  /** A run in which the copy to the user fails: the read claims one byte and delivers none, two bytes that are not the
  status leave the stream, and what stays behind belongs to no frame. */
  lemma FailedCopy(tail: Tail)
    ensures Device(ONE_FRAME)
    ensures var steps := ([Receive(3, 0), Append(true)] + [Size]) + [StartRead(10), Take] + [Consume(false)];
            var s := Reached(ONE_FRAME, Setting(10, false, false, tail), steps);
            s.finished == [Read(10, [], 1, 0, 1, false)] && s.stream.bytes == [9] && s.sizes.queue == []
  {
    OneFrameTaken(false, tail);
    var fs, g, steps := ONE_FRAME, Setting(10, false, false, tail),
                        ([Receive(3, 0), Append(true)] + [Size]) + [StartRead(10), Take];
    var s := Reached(fs, g, steps);
    hide Next, After, Concat;
    AfterAppend(fs, Start(g), steps, [Consume(false)]);
    ReadEnds(fs, s, false);
    assert [7, 8, 9][0..][2..] == [9];
    assert [] + [Read(10, [], 1, 0, 1, false)] == [Read(10, [], 1, 0, 1, false)];
  }

  // A misread transfer.

  /** A frame that is sent as two bytes, 257 bytes and two bytes. */
  function LongFrame(): (f: seq<byte>)
    ensures |f| == 261
  {
    [1, 1] + Zeros(257) + [2, 3]
  }

  lemma OnesEndInOnes()
    ensures TailOf(Encode([1, 1], 0)) == Tail(1, 1)
  {
    assert Words([1, 1], 0) == [1, 1] + Words([], 0);
  }

  lemma LongFrameParts(fs: seq<seq<byte>>, st: Stream)
    requires fs == [LongFrame()]
    ensures |Concat(fs)| == 261
    ensures st.position == 0 ==> NextBytes(fs, st, 2) == [1, 1]
    ensures st.position == 2 ==> NextBytes(fs, st, 257) == Zeros(257)
    ensures st.position == 259 ==> NextBytes(fs, st, 2) == [2, 3]
  {
    ConcatSingle(LongFrame());
  }

  /** The long frame is on its way: this much of it was received, and nothing else happened. */
  predicate OnItsWay(s: State, position: nat, bytes: seq<byte>) {
    && s == At(s.stream, Sizes([], 0, 0), 1000) && s.stream.flight.Nothing? && s.stream.position == position
    && s.stream.bytes == bytes && !s.stream.disturbed && s.stream.discarded == 0
  }

  lemma LongFrameBegins(fs: seq<seq<byte>>, s: State)
    requires fs == [LongFrame()] && OnItsWay(s, 0, [])
    ensures Device(fs)
    ensures var t := After(fs, s, [Receive(2, 0), Append(true)]); OnItsWay(t, 2, [1, 1]) && t.stream.tail == Tail(1, 1)
  {
    LongFrameParts(fs, s.stream);
    OnesEndInOnes();
    assert [] + [1, 1] + [] == [1, 1] && !Misread(2, s.stream.tail);
    hide LongFrame, After, NextBytes, Concat, Encode, TailOf;
    Brings(fs, s, [1, 1], 0);
  }

  lemma LongFrameGoesOn(fs: seq<seq<byte>>, s: State)
    requires fs == [LongFrame()] && OnItsWay(s, 2, [1, 1]) && s.stream.tail == Tail(1, 1)
    ensures Device(fs)
    ensures OnItsWay(After(fs, s, [Receive(257, 9), Append(true)]), 259, [1, 1] + Zeros(257) + [9])
  {
    LongFrameParts(fs, s.stream);
    assert Misread(257, Tail(1, 1));
    hide LongFrame, After, NextBytes, Concat, Encode, TailOf;
    Brings(fs, s, Zeros(257), 9);
  }

  lemma LongFrameEnds(fs: seq<seq<byte>>, s: State)
    requires fs == [LongFrame()] && OnItsWay(s, 259, [1, 1] + Zeros(257) + [9])
    ensures Device(fs)
    ensures OnItsWay(After(fs, s, [Receive(2, 0), Append(true)]), 261, [1, 1] + Zeros(257) + [9] + [2, 3])
  {
    LongFrameParts(fs, s.stream);
    assert !Misread(2, s.stream.tail);
    hide LongFrame, After, NextBytes, Concat, Encode, TailOf;
    Brings(fs, s, [2, 3], 0);
    assert s.stream.bytes + [2, 3] + [] == s.stream.bytes + [2, 3];
  }

  /** The stream after the three transfers, the second with pad byte 9. */
  lemma LongFrameArrives(fs: seq<seq<byte>>, tail: Tail)
    requires fs == [LongFrame()]
    ensures Device(fs)
    ensures OnItsWay(Reached(fs, Setting(1000, true, false, tail),
                             [Receive(2, 0), Append(true)] + [Receive(257, 9), Append(true)]
                             + [Receive(2, 0), Append(true)]),
                     261, [1, 1] + Zeros(257) + [9] + [2, 3])
  {
    var s0 := Start(Setting(1000, true, false, tail));
    LongFrameBegins(fs, s0);
    hide After, OnItsWay, LongFrame;
    var s1 := After(fs, s0, [Receive(2, 0), Append(true)]);
    LongFrameGoesOn(fs, s1);
    var s2 := After(fs, s1, [Receive(257, 9), Append(true)]);
    LongFrameEnds(fs, s2);
    AfterAppend(fs, s0, [Receive(2, 0), Append(true)], [Receive(257, 9), Append(true)]);
    AfterAppend(fs, s0, [Receive(2, 0), Append(true)] + [Receive(257, 9), Append(true)],
                [Receive(2, 0), Append(true)]);
  }

  lemma LongFrameSized(fs: seq<seq<byte>>, s: State)
    requires fs == [LongFrame()] && OnItsWay(s, 261, [1, 1] + Zeros(257) + [9] + [2, 3])
    ensures Device(fs)
    ensures var t := After(fs, s, [Size]);
            t == s.(sizes := Sizes([261], 1, 0)) && t.stream.bytes[..261] == [1, 1] + Zeros(257) + [9, 2]
  {
    assert [] + [261] == [261];
    SizeComes(fs, s);
    hide After, LongFrame;
    assert s.stream.bytes == [1, 1] + Zeros(257) + [9, 2] + [3];
  }

  lemma LongFrameRead(fs: seq<seq<byte>>, s: State)
    requires fs == [LongFrame()] && OnItsWay(s, 261, [1, 1] + Zeros(257) + [9] + [2, 3])
    ensures Device(fs)
    ensures var t := After(fs, s, [Size] + ([StartRead(300), Take] + [Consume(true)]));
            && t.finished == [Read(300, [1, 1] + Zeros(257) + [9, 2], 261, 0, 1, true)]
            && !t.stream.disturbed && t.stream.discarded == 0
  {
    LongFrameSized(fs, s);
    hide After, LongFrame, Zeros;
    ReadsWhole(fs, After(fs, s, [Size]), 300);
    AfterAppend(fs, s, [Size], [StartRead(300), Take] + [Consume(true)]);
    var read := Read(300, [1, 1] + Zeros(257) + [9, 2], 261, 0, 1, true);
    assert [] + [read] == [read];
  }

  lemma NotTheLongFrame()
    ensures [1, 1] + Zeros(257) + [9, 2] != LongFrame()
  {
    assert ([1, 1] + Zeros(257) + [9, 2])[259] == 9 && LongFrame()[259] == 2;
  }

  /** A run without discards, purges and failures that gives a wrong frame: 257 bytes behind two ones. */
  lemma MisreadMisframes(tail: Tail)
    ensures Device([LongFrame()])
    ensures var steps := [Receive(2, 0), Append(true)] + [Receive(257, 9), Append(true)] + [Receive(2, 0), Append(true)]
                         + ([Size] + ([StartRead(300), Take] + [Consume(true)]));
            var s := Reached([LongFrame()], Setting(1000, true, false, tail), steps);
            && !s.stream.disturbed && s.stream.discarded == 0
            && s.finished == [Read(300, [1, 1] + Zeros(257) + [9, 2], 261, 0, 1, true)]
            && [1, 1] + Zeros(257) + [9, 2] != LongFrame()
  {
    var fs, g := [LongFrame()], Setting(1000, true, false, tail);
    var transfers := [Receive(2, 0), Append(true)] + [Receive(257, 9), Append(true)] + [Receive(2, 0), Append(true)];
    NotTheLongFrame();
    LongFrameArrives(fs, tail);
    hide After, LongFrame, Zeros, OnItsWay;
    LongFrameRead(fs, Reached(fs, g, transfers));
    AfterAppend(fs, Start(g), transfers, [Size] + ([StartRead(300), Take] + [Consume(true)]));
  }
}
