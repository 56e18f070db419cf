/** The growable byte buffer of the driver (src/frame.c): its value, the operations on that value as a byte queue,
and the class that performs them in place. */
module Frames {
  import opened Sequences

  newtype byte = x: int | 0 <= x < 256

  /** Buffers are allocated in multiples of four bytes. */
  function RoundUp4(n: nat): (m: nat)
    ensures m % 4 == 0 && n <= m < n + 4
  {
    if n % 4 == 0 then n else n + (4 - n % 4)
  }

  function Zeros(n: nat): (z: seq<byte>)
    ensures |z| == n && forall i :: 0 <= i < n ==> z[i] == 0
  {
    seq(n, _ => 0)
  }

  /** A frame's allocated bytes, how many of them are data, and the size the frame is to have. */
  datatype FrameValue = FrameValue(buffer: seq<byte>, length: nat, frameSize: nat)
  {
    predicate Valid() {
      length <= |buffer| && |buffer| % 4 == 0
    }

    function Data(): seq<byte>
      requires Valid()
    {
      buffer[..length]
    }

    /** Reallocation to at least size bytes: data beyond size is cut off, the rest of the new buffer is zero. */
    function Resized(size: nat): (f: FrameValue)
      requires Valid()
      ensures f.Valid() && f.length == Min(length, size)
      ensures size != 0 ==> |f.buffer| == RoundUp4(size)
    {
      if size == 0 then FrameValue([], 0, frameSize)
      else
        var kept := Min(length, size);
        FrameValue(buffer[..kept] + Zeros(RoundUp4(size) - kept), kept, frameSize)
    }

    /** Grows only when there is not enough space already. */
    function Grown(size: nat): (f: FrameValue)
      requires Valid() && length <= size
      ensures f.Valid() && f.length == length && size <= |f.buffer|
    {
      if size > |buffer| then Resized(size) else this
    }

    /** Copies bytes in behind the data, without counting them as data yet. */
    function Stored(bytes: seq<byte>): (f: FrameValue)
      requires Valid() && length + |bytes| <= |buffer|
      ensures f.Valid() && f.length == length
    {
      this.(buffer := buffer[..length] + bytes + buffer[length + |bytes|..])
    }

    function Added(bytes: seq<byte>): (f: FrameValue)
      requires Valid()
      ensures f.Valid()
    {
      if bytes == [] then this
      else Grown(length + |bytes|).Stored(bytes).(length := length + |bytes|)
    }

    /** A copy from the user that stops after some bytes: only a complete one counts as data. */
    function AddedFromUser(bytes: seq<byte>, copied: nat): (f: FrameValue)
      requires Valid() && copied <= |bytes|
      ensures f.Valid()
    {
      if copied == |bytes| then Added(bytes) else Grown(length + |bytes|).Stored(bytes[..copied])
    }

    /** Moves the remaining data to the front; what lies behind it stays. */
    function Removed(count: nat): (f: FrameValue)
      requires Valid()
      ensures f.Valid() && f.length == length - Min(count, length) && |f.buffer| == |buffer|
    {
      var n := Min(count, length);
      FrameValue(buffer[n..length] + buffer[length - n..], length - n, frameSize)
    }
  }

  lemma StoredNothing(f: FrameValue)
    requires f.Valid()
    ensures f.Stored([]) == f
  {
    assert f.buffer[..f.length] + [] + f.buffer[f.length..] == f.buffer;
  }

  lemma RemovedNothing(f: FrameValue, count: nat)
    requires f.Valid() && (count == 0 || f.length == 0)
    ensures f.Removed(count) == f
  {
    assert f.buffer[..f.length] + f.buffer[f.length..] == f.buffer;
  }

  /** Adding appends to the data. */
  lemma AddedIsAppend(f: FrameValue, bytes: seq<byte>)
    requires f.Valid()
    ensures f.Added(bytes).Data() == f.Data() + bytes
  {
  }

  /** Removing drops a prefix of the data, at most all of it. */
  lemma RemovedIsDrop(f: FrameValue, count: nat)
    requires f.Valid()
    ensures f.Removed(count).Data() == f.Data()[Min(count, f.length)..]
  {
  }

  /** Adding never truncates, and it is undone from the front: the queue is first in, first out. */
  lemma AddThenRemove(f: FrameValue, bytes: seq<byte>)
    requires f.Valid()
    ensures f.Added(bytes).Removed(f.length).Data() == bytes
  {
    AddedIsAppend(f, bytes);
    RemovedIsDrop(f.Added(bytes), f.length);
  }

  class Frame {
    var buffer: array?<byte>
    var dataLength: nat
    var bufferSize: nat
    var frameSize: nat

    ghost predicate Valid()
      reads this, buffer
    {
      && dataLength <= bufferSize && bufferSize % 4 == 0
      && (buffer == null <==> bufferSize == 0)
      && (buffer != null ==> buffer.Length == bufferSize)
    }

    ghost function Value(): (f: FrameValue)
      requires Valid()
      reads this, buffer
      ensures f.Valid()
    {
      FrameValue(if buffer == null then [] else buffer[..], dataLength, frameSize)
    }

    constructor ()
      ensures Valid() && buffer == null && Value() == FrameValue([], 0, 0)
    {
      buffer, dataLength, bufferSize, frameSize := null, 0, 0, 0;
    }

    /** Reallocates; without memory nothing changes. */
    method UpdateBufferSize(size: nat, memory: bool) returns (ok: bool)
      requires Valid()
      modifies this
      ensures Valid() && frameSize == old(frameSize)
      ensures ok <==> size == 0 || memory
      ensures Value() == if ok then old(Value()).Resized(size) else old(Value())
      ensures if ok && size != 0 then fresh(buffer) else if ok then buffer == null else buffer == old(buffer)
    {
      if size == 0 {
        buffer, bufferSize, dataLength := null, 0, 0;
        return true;
      }
      var fourAligned := if size % 4 == 0 then size else size + (4 - size % 4);
      if !memory {
        return false;
      }
      var newBuffer := new byte[fourAligned](_ => 0);
      if buffer != null {
        if dataLength != 0 {
          dataLength := Min(dataLength, size);
          forall i | 0 <= i < dataLength {
            newBuffer[i] := buffer[i];
          }
        }
      }
      buffer, bufferSize := newBuffer, fourAligned;
      assert buffer[..] == old(Value()).Resized(size).buffer;
      return true;
    }

    /** Copies bytes behind the data. */
    method Store(bytes: seq<byte>)
      requires Valid() && dataLength + |bytes| <= bufferSize && bytes != []
      modifies buffer
      ensures Valid() && Value() == old(Value()).Stored(bytes)
    {
      forall i | 0 <= i < |bytes| {
        buffer[dataLength + i] := bytes[i];
      }
      assert buffer[..] == old(Value()).Stored(bytes).buffer;
    }

    method StoreSome(bytes: seq<byte>)
      requires Valid() && dataLength + |bytes| <= bufferSize && buffer != null
      modifies buffer
      ensures Valid() && Value() == old(Value()).Stored(bytes)
    {
      if bytes == [] {
        StoredNothing(Value());
      } else {
        Store(bytes);
      }
    }

    /** Only updates the buffer size if there isn't enough space already. */
    method Grow(size: nat, memory: bool) returns (ok: bool)
      requires Valid() && dataLength < size
      modifies this
      ensures Valid() && frameSize == old(frameSize) && dataLength == old(dataLength)
      ensures ok <==> size <= old(bufferSize) || memory
      ensures Value() == if ok then old(Value()).Grown(size) else old(Value())
      ensures ok ==> size <= bufferSize
      ensures buffer == old(buffer) || fresh(buffer)
    {
      if size > bufferSize {
        ok := UpdateBufferSize(size, memory);
      } else {
        ok := true;
      }
    }

    /** Counts stored bytes as data. */
    method Commit(count: nat)
      requires Valid() && dataLength + count <= bufferSize
      modifies this`dataLength
      ensures Valid() && Value() == old(Value()).(length := old(dataLength) + count)
    {
      dataLength := dataLength + count;
    }

    method AddData(bytes: seq<byte>, memory: bool) returns (ok: bool)
      requires Valid()
      modifies this, buffer
      ensures Valid() && frameSize == old(frameSize)
      ensures ok <==> bytes != [] && (old(dataLength) + |bytes| <= old(bufferSize) || memory)
      ensures Value() == if ok then old(Value()).Added(bytes) else old(Value())
      ensures buffer == old(buffer) || fresh(buffer)
    {
      if |bytes| == 0 {
        return false;
      }
      ok := Grow(dataLength + |bytes|, memory);
      if !ok {
        return false;
      }
      Store(bytes);
      Commit(|bytes|);
    }

    /** As AddData, but the copy may stop after some bytes; then none of them counts as data. */
    method AddDataFromUser(bytes: seq<byte>, copied: nat, memory: bool) returns (ok: bool)
      requires Valid() && copied <= |bytes|
      modifies this, buffer
      ensures Valid() && frameSize == old(frameSize)
      ensures var fits := bytes != [] && (old(dataLength) + |bytes| <= old(bufferSize) || memory);
              && (ok <==> fits && copied == |bytes|)
              && Value() == (if fits then old(Value()).AddedFromUser(bytes, copied) else old(Value()))
      ensures buffer == old(buffer) || fresh(buffer)
    {
      hide FrameValue.Stored, FrameValue.Grown;
      if |bytes| == 0 {
        return false;
      }
      ok := Grow(dataLength + |bytes|, memory);
      if !ok {
        return false;
      }
      StoreSome(bytes[..copied]);
      if copied < |bytes| {
        return false;
      }
      assert bytes[..copied] == bytes;
      Commit(|bytes|);
    }

    /** Takes a prefix out: the remaining data moves up in the buffer. */
    method TakePrefix(removal: nat) returns (out: seq<byte>)
      requires Valid() && 0 < removal <= dataLength
      modifies this`dataLength, buffer
      ensures Valid() && Value() == old(Value()).Removed(removal)
      ensures out == old(Value()).Data()[..removal]
    {
      out := buffer[..removal];
      dataLength := dataLength - removal;
      MoveUp(removal);
    }

    /** Moves the data up in the buffer, byte by byte from the front. */
    method MoveUp(removal: nat)
      requires buffer != null && removal + dataLength <= buffer.Length
      modifies buffer
      ensures buffer[..] == old(buffer[removal..removal + dataLength] + buffer[dataLength..])
    {
      var i := 0;
      while i < dataLength
        invariant 0 <= i <= dataLength
        invariant forall k :: 0 <= k < i ==> buffer[k] == old(buffer[removal + k])
        invariant forall k :: i <= k < buffer.Length ==> buffer[k] == old(buffer[k])
      {
        buffer[i] := buffer[removal + i];
        i := i + 1;
      }
    }

    /** Hands out and drops a prefix. An empty frame counts as success; a failed copy to the user drops nothing. */
    method RemoveData(count: nat, copied: bool) returns (ok: bool, out: seq<byte>)
      requires Valid()
      modifies this`dataLength, buffer
      ensures Valid()
      ensures ok <==> copied || count == 0 || old(dataLength) == 0
      ensures Value() == if ok then old(Value()).Removed(count) else old(Value())
      ensures out == if ok then old(Value()).Data()[..Min(count, old(dataLength))] else []
    {
      if count == 0 || dataLength == 0 {
        RemovedNothing(Value(), count);
        return true, [];
      }
      if !copied {
        return false, [];
      }
      out := TakePrefix(Min(count, dataLength));
      ok := true;
    }

    method Clear()
      requires Valid()
      modifies this
      ensures Valid() && buffer == null && Value() == old(Value()).Resized(0)
    {
      var ok := UpdateBufferSize(0, true);
    }
  }

  // Moving data between frames.

  /** The destination after a transfer: resized to its frame size, then extended, each if memory allows. */
  function Received(f: FrameValue, bytes: seq<byte>, resized: bool, extended: bool): (g: FrameValue)
    requires f.Valid()
    ensures g.Valid()
  {
    var h := if f.frameSize == 0 || resized then f.Resized(f.frameSize) else f;
    if bytes != [] && (h.length + |bytes| <= |h.buffer| || extended) then h.Added(bytes) else h
  }

  /** Moves a prefix of the source's data behind the destination's, through a temporary copy. */
  method TransferData(destination: Frame, source: Frame, count: nat, memory: bool, resized: bool, extended: bool)
      returns (ok: bool)
    requires destination.Valid() && source.Valid() && destination != source
    requires destination.buffer == null || destination.buffer != source.buffer
    modifies destination, source, destination.buffer, source.buffer
    ensures destination.Valid() && source.Valid()
    ensures ok <==> count == 0 || old(source.dataLength) == 0 || (count <= old(source.dataLength) && memory)
    ensures var moved := ok && count != 0 && old(source.dataLength) != 0;
            && source.Value() == (if moved then old(source.Value()).Removed(count) else old(source.Value()))
            && destination.Value() == (if moved then Received(old(destination.Value()),
                                                              old(source.Value()).Data()[..count], resized, extended)
                                       else old(destination.Value()))
  {
    if count == 0 {
      return true;
    }
    if source.dataLength == 0 {
      return true;
    }
    if count > source.dataLength || !memory {
      return false;
    }
    var newBuffer := source.TakePrefix(count);
    var updated := destination.UpdateBufferSize(destination.frameSize, resized);
    var added := destination.AddData(newBuffer, extended);
    return true;
  }

  /** With memory, no byte is lost in a transfer exactly when the destination's data fits its frame size. */
  lemma TransferConserves(d: FrameValue, bytes: seq<byte>)
    requires d.Valid() && bytes != []
    ensures Received(d, bytes, true, true).Data() == d.Data() + bytes <==> d.length <= d.frameSize
  {
    AddedIsAppend(d.Resized(d.frameSize), bytes);
    if d.length > d.frameSize {
      assert |Received(d, bytes, true, true).Data()| == d.frameSize + |bytes|;
    }
  }
}
