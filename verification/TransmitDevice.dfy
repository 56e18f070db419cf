/** The device's end of a transmission (src/port.c:1248-1256): what reaches it of a sequence of visits, failed ones
included, and the frames it puts together. */
module TransmitDevice {
  import opened Sequences
  import opened Frames
  import opened Transmit

  /** A frame coming in: the length the device was told, and the bytes it has so far. */
  datatype Incoming = Incoming(length: nat, bytes: seq<byte>)

  function Cut(bytes: seq<byte>, length: nat): seq<byte> {
    bytes[..Min(length, |bytes|)]
  }

  /** A length starts a frame; what goes beyond the length of the latest frame is padding. */
  function Feed(ds: seq<Incoming>, a: Attempt): seq<Incoming> {
    if a.frameLength.Some? then ds + [Incoming(a.frameLength.value, Cut(a.chunk, a.frameLength.value))]
    else if ds == [] then []
    else
      var d := ds[|ds| - 1];
      ds[..|ds| - 1] + [Incoming(d.length, Cut(d.bytes + a.chunk, d.length))]
  }

  function FeedAll(ds: seq<Incoming>, log: seq<Attempt>): seq<Incoming>
    decreases |log|
  {
    if log == [] then ds else FeedAll(Feed(ds, log[0]), log[1..])
  }

  function FramesOf(ds: seq<Incoming>): (fs: seq<seq<byte>>)
    ensures |fs| == |ds|
  {
    seq(|ds|, i requires 0 <= i < |ds| => ds[i].bytes)
  }

  /** The frames a device puts together from the visits that reach it. */
  function Reassemble(log: seq<Attempt>): seq<seq<byte>> {
    FramesOf(FeedAll([], log))
  }

  /** What reaches the device of a visit: of a failed one, the register writes without the chunk. */
  function Told(a: Attempt): Attempt {
    if a.submitted then a else a.(chunk := [])
  }

  function Seen(log: seq<Attempt>): (seen: seq<Attempt>)
    ensures |seen| == |log|
  {
    seq(|log|, i requires 0 <= i < |log| => Told(log[i]))
  }

  function Successes(log: seq<Attempt>): seq<Attempt> {
    if log == [] then []
    else (if log[0].submitted then [log[0]] else []) + Successes(log[1..])
  }

  /** The writes that carried data. */
  function NonEmpty(written: seq<seq<byte>>): seq<seq<byte>> {
    if written == [] then []
    else (if written[0] == [] then [] else [written[0]]) + NonEmpty(written[1..])
  }

  // Appending.

  lemma {:induction false} FeedAllAppend(ds: seq<Incoming>, a: seq<Attempt>, b: seq<Attempt>)
    ensures FeedAll(ds, a + b) == FeedAll(FeedAll(ds, a), b)
    decreases |a|
  {
    hide Feed;
    if a == [] {
      assert a + b == b;
    } else {
      assert (a + b)[0] == a[0] && (a + b)[1..] == a[1..] + b;
      FeedAllAppend(Feed(ds, a[0]), a[1..], b);
    }
  }

  lemma FeedAllSnoc(ds: seq<Incoming>, log: seq<Attempt>, a: Attempt)
    ensures FeedAll(ds, log + [a]) == Feed(FeedAll(ds, log), a)
  {
    FeedAllAppend(ds, log, [a]);
    assert FeedAll(FeedAll(ds, log), [a]) == FeedAll(Feed(FeedAll(ds, log), a), []);
  }

  lemma SeenSnoc(log: seq<Attempt>, a: Attempt)
    ensures Seen(log + [a]) == Seen(log) + [Told(a)]
  {
  }

  lemma {:induction false} SuccessesSnoc(log: seq<Attempt>, a: Attempt)
    ensures Successes(log + [a]) == Successes(log) + if a.submitted then [a] else []
  {
    if log == [] {
      assert log + [a] == [a] && [a][1..] == [];
    } else {
      assert (log + [a])[0] == log[0] && (log + [a])[1..] == log[1..] + [a];
      SuccessesSnoc(log[1..], a);
      assert Successes(log + [a]) == (if log[0].submitted then [log[0]] else []) + Successes(log[1..] + [a]);
    }
  }

  lemma {:induction false} NonEmptySnoc(ws: seq<seq<byte>>, w: seq<byte>)
    ensures NonEmpty(ws + [w]) == NonEmpty(ws) + if w == [] then [] else [w]
  {
    if ws == [] {
      assert ws + [w] == [w] && [w][1..] == [];
    } else {
      assert (ws + [w])[0] == ws[0] && (ws + [w])[1..] == ws[1..] + [w];
      NonEmptySnoc(ws[1..], w);
      assert NonEmpty(ws + [w]) == (if ws[0] == [] then [] else [ws[0]]) + NonEmpty(ws[1..] + [w]);
    }
  }

  // The device gets every frame back.

  /** In the middle of a frame: the device has the data up to the offset, and the visits to come bring the rest. */
  lemma {:induction false} IdealFeedsRest(ds: seq<Incoming>, data: seq<byte>, offset: nat)
    requires 0 < offset && offset % 4 == 0
    ensures FeedAll(ds + [Incoming(|data|, Cut(data, offset))], Ideal(data, offset)) == ds + [Incoming(|data|, data)]
    decreases |data| - offset
  {
    if offset < |data| {
      var now := ds + [Incoming(|data|, Cut(data, offset))];
      var next := ds + [Incoming(|data|, Cut(data, offset + CHUNK))];
      assert Feed(now, Ideal(data, offset)[0]) == next by {
        ChunkExtends(data, offset);
        hide Padded;
        assert now[..|now| - 1] == ds;
      }
      hide Feed, Padded;
      IdealFeedsRest(ds, data, offset + CHUNK);
    } else {
      assert Cut(data, offset) == data;
    }
  }

  lemma PaddedStart(data: seq<byte>)
    ensures Padded(data)[..|data|] == data
  {
  }

  lemma SliceOfPrefix<T>(whole: seq<T>, part: seq<T>, i: nat, j: nat, k: nat)
    requires i <= j <= k <= |whole| && j <= |part| <= |whole| && whole[..|part|] == part
    ensures whole[i..k][..j - i] == part[i..j]
  {
    forall n | 0 <= n < j - i ensures whole[i..k][n] == part[i..j][n] {
      assert whole[..|part|][i + n] == part[i + n];
    }
  }

  lemma ChunkExtends(data: seq<byte>, offset: nat)
    requires offset % 4 == 0 && offset < |data|
    ensures offset <= Min(offset + CHUNK, RoundUp4(|data|))
    ensures Cut(Cut(data, offset) + Padded(data)[offset..Min(offset + CHUNK, RoundUp4(|data|))], |data|)
            == Cut(data, offset + CHUNK)
  {
    RoundUp4Shift(offset, |data| - offset);
    RoundUp4Bound(|data| - offset);
    var end := Min(offset + CHUNK, RoundUp4(|data|));
    var stop := Min(end, |data|);
    PaddedStart(data);
    assert Cut(data, offset + CHUNK) == data[..stop];
    hide Padded, RoundUp4;
    SliceOfPrefix(Padded(data), data, offset, stop, end);
    assert Cut(data, offset) == data[..offset] && data[..offset] + data[offset..stop] == data[..stop];
  }

  lemma IdealFeeds(ds: seq<Incoming>, data: seq<byte>)
    requires data != []
    ensures FeedAll(ds, Ideal(data, 0)) == ds + [Incoming(|data|, data)]
  {
    ChunkExtends(data, 0);
    var chunk := Padded(data)[0..Min(CHUNK, RoundUp4(|data|))];
    assert Cut(data, 0) + chunk == chunk;
    hide Padded, RoundUp4;
    assert Feed(ds, Ideal(data, 0)[0]) == ds + [Incoming(|data|, Cut(data, CHUNK))];
    hide Feed;
    IdealFeedsRest(ds, data, CHUNK);
  }

  lemma {:induction false} ReassembleFrom(ds: seq<Incoming>, written: seq<seq<byte>>)
    ensures FramesOf(FeedAll(ds, IdealAll(written))) == FramesOf(ds) + NonEmpty(written)
    decreases |written|
  {
    if written != [] {
      var data := written[0];
      FeedAllAppend(ds, Ideal(data, 0), IdealAll(written[1..]));
      if data == [] {
        assert Ideal(data, 0) == [];
        ReassembleFrom(ds, written[1..]);
      } else {
        IdealFeeds(ds, data);
        hide Ideal, FeedAll;
        ReassembleFrom(ds + [Incoming(|data|, data)], written[1..]);
        assert FramesOf(ds + [Incoming(|data|, data)]) == FramesOf(ds) + [data];
      }
    }
  }

  /** The device gets back every write that carried data, in order. */
  lemma ReassembleAll(written: seq<seq<byte>>)
    ensures Reassemble(IdealAll(written)) == NonEmpty(written)
  {
    ReassembleFrom([], written);
  }

  // Bytes taken by the device.

  /** How many bytes the latest frame still lacks. */
  function Room(ds: seq<Incoming>): int {
    if ds == [] then 0 else ds[|ds| - 1].length - |ds[|ds| - 1].bytes|
  }

  predicate Fitting(ds: seq<Incoming>) {
    forall i :: 0 <= i < |ds| ==> |ds[i].bytes| <= ds[i].length
  }

  lemma {:induction false} FeedAllFits(ds: seq<Incoming>, log: seq<Attempt>)
    requires Fitting(ds)
    ensures Fitting(FeedAll(ds, log))
    decreases |log|
  {
    if log != [] {
      FeedAllFits(Feed(ds, log[0]), log[1..]);
    }
  }

  /** A visit gives the device what its chunk has and the frame lacks. */
  lemma FeedCounts(ds: seq<Incoming>, a: Attempt)
    requires Fitting(ds)
    ensures var room := if a.frameLength.Some? then a.frameLength.value else Room(ds);
            var n := if room < |a.chunk| then room else |a.chunk|;
            && |Concat(FramesOf(Feed(ds, a)))| == |Concat(FramesOf(ds))| + n
            && (a.frameLength.Some? || ds != [] ==> Room(Feed(ds, a)) == room - n)
  {
    var fs := FramesOf(ds);
    if a.frameLength.Some? {
      ConcatSnoc(fs, Cut(a.chunk, a.frameLength.value));
      assert FramesOf(Feed(ds, a)) == fs + [Cut(a.chunk, a.frameLength.value)];
    } else if ds != [] {
      var d := ds[|ds| - 1];
      var rest := FramesOf(ds[..|ds| - 1]);
      assert fs == rest + [d.bytes];
      assert FramesOf(Feed(ds, a)) == rest + [Cut(d.bytes + a.chunk, d.length)];
      ConcatSnoc(rest, d.bytes);
      ConcatSnoc(rest, Cut(d.bytes + a.chunk, d.length));
    }
  }

  /** The bytes of the log that the device counts as data of some frame. */
  function BytesTaken(log: seq<Attempt>): nat {
    |Concat(Reassemble(Seen(log)))|
  }

  // Failed visits.

  /** The same visit, whether it succeeded or not. */
  predicate SameVisit(a: Attempt, b: Attempt) {
    a.chunk == b.chunk && a.frameLength == b.frameLength
  }

  /** Every failed visit is followed by the same visit again. */
  predicate Repeating(log: seq<Attempt>) {
    forall i :: 0 <= i && i + 1 < |log| && !log[i].submitted ==> SameVisit(log[i], log[i + 1])
  }

  predicate Carrying(log: seq<Attempt>) {
    forall a :: a in log ==> a.chunk != [] && a.frameLength != Some(0)
  }

  /** No failed visit wrote a length. */
  predicate NoLengthRepeated(log: seq<Attempt>) {
    forall a :: a in log && !a.submitted ==> a.frameLength == None
  }

  predicate SameEnd(ds: seq<Incoming>, es: seq<Incoming>) {
    (ds == [] <==> es == []) && (ds != [] ==> ds[|ds| - 1] == es[|es| - 1])
  }

  predicate LengthJustFailed(log: seq<Attempt>) {
    log != [] && !log[|log| - 1].submitted && log[|log| - 1].frameLength.Some?
  }

  /** What the device makes of all visits, against what it would make of the successful ones. */
  predicate SameButEmpty(ds: seq<Incoming>, es: seq<Incoming>) {
    && NonEmpty(FramesOf(ds)) == FramesOf(es)
    && forall i :: 0 <= i < |es| ==> 0 < |es[i].bytes| <= es[i].length
  }

  lemma FramesOfSnoc(ds: seq<Incoming>, d: Incoming)
    ensures FramesOf(ds + [d]) == FramesOf(ds) + [d.bytes]
    ensures NonEmpty(FramesOf(ds + [d])) == NonEmpty(FramesOf(ds)) + if d.bytes == [] then [] else [d.bytes]
  {
    assert FramesOf(ds + [d]) == FramesOf(ds) + [d.bytes];
    NonEmptySnoc(FramesOf(ds), d.bytes);
  }

  lemma SameFront<T>(a: seq<T>, b: seq<T>, x: T)
    requires a + [x] == b + [x]
    ensures a == b
  {
    assert (a + [x])[..|a|] == a && (b + [x])[..|b|] == b;
  }

  /** A visit that starts a frame. */
  lemma StartKeepsSame(ds: seq<Incoming>, es: seq<Incoming>, a: Attempt)
    requires SameButEmpty(ds, es) && a.frameLength.Some? && a.chunk != [] && a.frameLength != Some(0)
    ensures SameButEmpty(Feed(ds, a), Feed(es, a)) && SameEnd(Feed(ds, a), Feed(es, a))
    ensures SameButEmpty(Feed(ds, a.(chunk := [])), es)
  {
    var d := Incoming(a.frameLength.value, Cut(a.chunk, a.frameLength.value));
    FramesOfSnoc(ds, d);
    FramesOfSnoc(es, d);
    FramesOfSnoc(ds, Incoming(a.frameLength.value, []));
  }

  lemma LastReplaced(ds: seq<Incoming>, es: seq<Incoming>, d: Incoming, e: Incoming)
    requires SameButEmpty(ds + [d], es + [d]) && 0 < |e.bytes| <= e.length
    ensures SameButEmpty(ds + [e], es + [e])
  {
    assert (es + [d])[|es|] == d;
    forall i | 0 <= i < |es| ensures 0 < |es[i].bytes| <= es[i].length {
      assert (es + [d])[i] == es[i];
    }
    FramesOfSnoc(ds, d);
    FramesOfSnoc(es, d);
    FramesOfSnoc(ds, e);
    FramesOfSnoc(es, e);
    hide NonEmpty, FramesOf;
    SameFront(NonEmpty(FramesOf(ds)), FramesOf(es), d.bytes);
  }

  /** A visit that goes on with one. */
  lemma GoOnKeepsSame(ds: seq<Incoming>, es: seq<Incoming>, a: Attempt)
    requires SameButEmpty(ds, es) && SameEnd(ds, es) && a.frameLength.None?
    ensures SameButEmpty(Feed(ds, a), Feed(es, a)) && SameEnd(Feed(ds, a), Feed(es, a))
    ensures Feed(ds, a.(chunk := [])) == ds
  {
    if ds != [] {
      var d := ds[|ds| - 1];
      var e := Incoming(d.length, Cut(d.bytes + a.chunk, d.length));
      assert ds == ds[..|ds| - 1] + [d] && es == es[..|es| - 1] + [d];
      assert 0 < |d.bytes| <= d.length && d.bytes + [] == d.bytes;
      assert Cut(d.bytes, d.length) == d.bytes && 0 < |e.bytes| <= e.length;
      hide SameButEmpty, Cut;
      LastReplaced(ds[..|ds| - 1], es[..|es| - 1], d, e);
    }
  }

  lemma OneMoreVisit(init: seq<Attempt>, a: Attempt)
    requires Repeating(init + [a]) && Carrying(init + [a])
    ensures Repeating(init) && Carrying(init) && a.chunk != [] && a.frameLength != Some(0)
    ensures LengthJustFailed(init) ==> a.frameLength.Some?
  {
    var log := init + [a];
    assert log[|init|] == a && a in log;
    assert forall b :: b in init ==> b in log;
    forall i | 0 <= i && i + 1 < |init| && !init[i].submitted ensures SameVisit(init[i], init[i + 1]) {
      assert log[i] == init[i] && log[i + 1] == init[i + 1];
    }
    if init != [] {
      assert log[|init| - 1] == init[|init| - 1] && |init| - 1 + 1 < |log|;
    }
  }

  /** All that failed visits add to the device's frames is empty ones. */
  lemma {:induction false} SeenAndSuccesses(log: seq<Attempt>)
    requires Repeating(log) && Carrying(log)
    ensures var ds, es := FeedAll([], Seen(log)), FeedAll([], Successes(log));
            SameButEmpty(ds, es) && (!LengthJustFailed(log) ==> SameEnd(ds, es))
    decreases |log|
  {
    if log != [] {
      var init, a := log[..|log| - 1], log[|log| - 1];
      assert log == init + [a];
      OneMoreVisit(init, a);
      SeenAndSuccesses(init);
      SeenSnoc(init, a);
      SuccessesSnoc(init, a);
      FeedAllSnoc([], Seen(init), Told(a));
      FeedAllSnoc([], Successes(init), a);
      assert Successes(init) + [] == Successes(init);
      hide Repeating, Carrying, FeedAll, Seen, Successes, Feed, SameButEmpty, SameEnd;
      if a.frameLength.Some? {
        StartKeepsSame(FeedAll([], Seen(init)), FeedAll([], Successes(init)), a);
      } else {
        GoOnKeepsSame(FeedAll([], Seen(init)), FeedAll([], Successes(init)), a);
      }
    }
  }

  // Lengths.

  /** The lengths written to the register. */
  function Lengths(log: seq<Attempt>): seq<nat> {
    if log == [] then []
    else (if log[0].frameLength.Some? then [log[0].frameLength.value] else []) + Lengths(log[1..])
  }

  function LengthsOf(ws: seq<seq<byte>>): seq<nat> {
    seq(|ws|, i requires 0 <= i < |ws| => |ws[i]|)
  }

  lemma {:induction false} LengthsAppend(a: seq<Attempt>, b: seq<Attempt>)
    ensures Lengths(a + b) == Lengths(a) + Lengths(b)
  {
    if a == [] {
      assert a + b == b;
    } else {
      assert (a + b)[0] == a[0] && (a + b)[1..] == a[1..] + b;
      LengthsAppend(a[1..], b);
      var first := if a[0].frameLength.Some? then [a[0].frameLength.value] else [];
      assert Lengths(a + b) == first + Lengths(a[1..] + b) && Lengths(a) == first + Lengths(a[1..]);
    }
  }

  /** The device has one frame for each length written. */
  lemma {:induction false} FramesCount(ds: seq<Incoming>, log: seq<Attempt>)
    ensures |FeedAll(ds, log)| == |ds| + |Lengths(log)|
    decreases |log|
  {
    if log != [] {
      FramesCount(Feed(ds, log[0]), log[1..]);
    }
  }

  lemma {:induction false} LengthsSeen(log: seq<Attempt>)
    ensures Lengths(Seen(log)) == Lengths(log)
  {
    if log != [] {
      assert Seen(log)[1..] == Seen(log[1..]);
      LengthsSeen(log[1..]);
    }
  }

  /** Failed visits write lengths of their own, unless none of them wrote one. */
  lemma {:induction false} LengthsOfSuccesses(log: seq<Attempt>)
    ensures |Lengths(Successes(log))| <= |Lengths(log)|
    ensures |Lengths(Successes(log))| == |Lengths(log)| <==> NoLengthRepeated(log)
    ensures NoLengthRepeated(log) ==> Lengths(Successes(log)) == Lengths(log)
  {
    if log != [] {
      LengthsOfSuccesses(log[1..]);
      assert NoLengthRepeated(log) <==> NoLengthRepeated([log[0]]) && NoLengthRepeated(log[1..]);
      LengthsAppend(if log[0].submitted then [log[0]] else [], Successes(log[1..]));
      assert Lengths([log[0]]) == if log[0].frameLength.Some? then [log[0].frameLength.value] else [];
    }
  }

  lemma {:induction false} NonEmptyShrinks(ws: seq<seq<byte>>)
    ensures |NonEmpty(ws)| <= |ws|
    ensures |NonEmpty(ws)| == |ws| ==> NonEmpty(ws) == ws
  {
    if ws != [] {
      NonEmptyShrinks(ws[1..]);
    }
  }

  /** The device's frames are those of the successful visits, exactly if no length was written twice; with the empty
  frames left out they always are. */
  lemma SeenExactly(log: seq<Attempt>)
    requires Repeating(log) && Carrying(log)
    ensures NonEmpty(Reassemble(Seen(log))) == Reassemble(Successes(log))
    ensures Reassemble(Seen(log)) == Reassemble(Successes(log)) <==> NoLengthRepeated(log)
  {
    SeenAndSuccesses(log);
    FramesCount([], Seen(log));
    FramesCount([], Successes(log));
    LengthsSeen(log);
    LengthsOfSuccesses(log);
    NonEmptyShrinks(Reassemble(Seen(log)));
  }

  lemma {:induction false} LengthsNone(log: seq<Attempt>)
    requires forall i :: 0 <= i < |log| ==> log[i].frameLength == None
    ensures Lengths(log) == []
  {
    if log != [] {
      LengthsNone(log[1..]);
    }
  }

  /** Ideally the length of every frame with data is written once, in order. */
  lemma {:induction false} LengthsIdeal(written: seq<seq<byte>>)
    ensures Lengths(IdealAll(written)) == LengthsOf(NonEmpty(written))
  {
    if written != [] {
      var data := written[0];
      LengthsIdeal(written[1..]);
      LengthsAppend(Ideal(data, 0), IdealAll(written[1..]));
      LengthWrittenOnce(data, 0);
      hide Ideal;
      if data == [] {
        assert Ideal(data, 0) == [] by { IdealOfNothing(); }
      } else {
        IdealOfSomething(data);
        LengthsNone(Ideal(data, 0)[1..]);
        assert LengthsOf([data] + NonEmpty(written[1..])) == [|data|] + LengthsOf(NonEmpty(written[1..]));
      }
    }
  }

  lemma IdealOfNothing()
    ensures Ideal([], 0) == []
  {
  }

  lemma IdealOfSomething(data: seq<byte>)
    requires data != []
    ensures Ideal(data, 0) != []
  {
  }
}
