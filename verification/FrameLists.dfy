/** The first-in first-out list of frames with its running memory total (src/flist.c). */
module FrameLists {
  import opened Frames

  /** The data bytes a list of frames holds. */
  function Usage(fs: seq<FrameValue>): nat {
    if fs == [] then 0 else fs[0].length + Usage(fs[1..])
  }

  lemma {:induction false} UsageAppend(fs: seq<FrameValue>, gs: seq<FrameValue>)
    ensures Usage(fs + gs) == Usage(fs) + Usage(gs)
  {
    if fs == [] {
      assert fs + gs == gs;
    } else {
      assert (fs + gs)[0] == fs[0] && (fs + gs)[1..] == fs[1..] + gs;
      UsageAppend(fs[1..], gs);
    }
  }

  lemma UsageSnoc(fs: seq<FrameValue>, f: FrameValue)
    ensures Usage(fs + [f]) == Usage(fs) + f.length
  {
    UsageAppend(fs, [f]);
    assert [f][1..] == [];
  }

  /** Two frames share no memory. */
  ghost predicate Apart(f: Frame, g: Frame)
    reads f, g
  {
    f != g && (f.buffer == null || f.buffer != g.buffer)
  }

  ghost predicate AllApart(fs: seq<Frame>)
    reads fs
  {
    forall i, j :: 0 <= i < j < |fs| ==> Apart(fs[i], fs[j])
  }

  lemma AllApartSnoc(fs: seq<Frame>, f: Frame)
    requires AllApart(fs) && forall i :: 0 <= i < |fs| ==> Apart(f, fs[i])
    ensures AllApart(fs + [f])
  {
  }

  class FrameList {
    var frames: seq<Frame>
    var estimatedMemoryUsage: nat
    /** The frames' values; queued frames are never changed. */
    ghost var contents: seq<FrameValue>

    ghost function Buffers(): set<array?<byte>>
      reads this, frames
    {
      set f: Frame | f in frames :: f.buffer
    }

    /** The running total is the sum recomputed from the frames. */
    ghost predicate Valid()
      reads this, frames, Buffers()
    {
      && |contents| == |frames|
      && (forall i :: 0 <= i < |frames| ==> frames[i].Valid() && frames[i].Value() == contents[i])
      && AllApart(frames)
      && estimatedMemoryUsage == Usage(contents)
    }

    /** The frame shares no memory with the list. */
    ghost predicate Foreign(f: Frame)
      reads this, frames, f
    {
      forall i :: 0 <= i < |frames| ==> Apart(f, frames[i])
    }

    constructor ()
      ensures Valid() && contents == [] && frames == []
    {
      frames, estimatedMemoryUsage, contents := [], 0, [];
    }

    method AddFrame(frame: Frame)
      requires Valid() && frame.Valid() && Foreign(frame)
      modifies this
      ensures Valid() && frames == old(frames) + [frame] && contents == old(contents) + [frame.Value()]
    {
      assert frame.Value().length == frame.dataLength;
      hide Usage, Frame.Value, Frame.Valid;
      AllApartSnoc(frames, frame);
      hide AllApart;
      UsageSnoc(contents, frame.Value());
      frames := frames + [frame];
      contents := contents + [frame.Value()];
      estimatedMemoryUsage := estimatedMemoryUsage + frame.dataLength;
    }

    method PeekFront() returns (frame: Frame?)
      requires Valid()
      ensures frame == null <==> contents == []
      ensures frame != null ==> frame == frames[0] && frame.Valid() && frame.Value() == contents[0]
    {
      frame := if |frames| == 0 then null else frames[0];
    }

    /** Takes the oldest frame; the total is reduced by what it holds now, which is what it held when added. */
    method RemoveFrame() returns (frame: Frame?)
      requires Valid()
      modifies this
      ensures Valid()
      ensures frame == null <==> old(contents) == []
      ensures frame == null ==> contents == [] && frames == old(frames)
      ensures frame != null ==> frame == old(frames[0]) && frames == old(frames)[1..] && Foreign(frame)
      ensures frame != null ==> frame.Valid() && old(contents) == [frame.Value()] + contents
    {
      if |frames| == 0 {
        return null;
      }
      frame := frames[0];
      frames, contents := frames[1..], contents[1..];
      estimatedMemoryUsage := estimatedMemoryUsage - frame.dataLength;
    }

    /** Takes the oldest frame only if it is complete and no larger than size. */
    method RemoveFrameIfLte(size: nat) returns (frame: Frame?)
      requires Valid()
      modifies this
      ensures Valid()
      ensures frame == null <==> old(contents) == [] || old(contents[0].length != contents[0].frameSize)
                                 || old(contents[0].length > size)
      ensures frame == null ==> contents == old(contents) && frames == old(frames)
      ensures frame != null ==> frame == old(frames[0]) && frames == old(frames)[1..] && Foreign(frame)
      ensures frame != null ==> frame.Valid() && old(contents) == [frame.Value()] + contents
    {
      if |frames| == 0 {
        return null;
      }
      if frames[0].dataLength != frames[0].frameSize {
        return null;
      }
      if frames[0].dataLength > size {
        return null;
      }
      frame := RemoveFrame();
    }

    /** Frees every frame's buffer and empties the list. */
    method Clear()
      requires Valid()
      modifies this, frames
      ensures Valid() && frames == [] && contents == []
    {
      var i := 0;
      while i < |frames|
        invariant i <= |frames| && frames == old(frames)
        invariant forall k :: i <= k < |frames| ==> frames[k].Valid()
        invariant forall k, m :: 0 <= k < m < |frames| ==> frames[k] != frames[m]
        modifies frames
      {
        frames[i].Clear();
        i := i + 1;
      }
      frames, contents, estimatedMemoryUsage := [], [], 0;
    }

    /** The accumulator loop that recomputes the total. */
    method CalculateMemoryUsage() returns (memory: nat)
      requires Valid()
      ensures memory == estimatedMemoryUsage == Usage(contents)
    {
      memory := 0;
      for i := 0 to |frames|
        invariant memory == Usage(contents[..i])
      {
        memory := memory + frames[i].dataLength;
        UsageSnoc(contents[..i], contents[i]);
        assert contents[..i + 1] == contents[..i] + [contents[i]];
      }
      assert contents[..|frames|] == contents;
    }

    method Length() returns (count: nat)
      ensures count == |frames|
    {
      count := 0;
      for i := 0 to |frames|
        invariant count == i
      {
        count := count + 1;
      }
    }
  }
}
