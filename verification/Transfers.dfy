/** One USB transfer of received bytes (src/port.c:417-450): a header with the payload's length, then the payload
as 16-bit words with their two bytes exchanged. */
module Transfers {
  import opened Sequences
  import opened Frames

  /** The last two bytes of the previous transfer, kept to recognise a header the device got wrong. */
  datatype Tail = Tail(last: byte, beforeLast: byte)

  function EvenUp(n: nat): (m: nat)
    ensures m % 2 == 0 && n <= m <= n + 1
  {
    n + n % 2
  }

  // The device's side.

  /** The payload in words with exchanged bytes; an odd last byte shares its word with a pad byte. */
  function Words(p: seq<byte>, pad: byte): (w: seq<byte>)
    ensures |w| == EvenUp(|p|)
  {
    if p == [] then []
    else if |p| == 1 then [pad, p[0]]
    else [p[1], p[0]] + Words(p[2..], pad)
  }

  function Encode(p: seq<byte>, pad: byte): (t: seq<byte>)
    requires |p| < 0x1_0000
    ensures |t| == 2 + EvenUp(|p|)
  {
    [(|p| / 256) as byte, (|p| % 256) as byte] + Words(p, pad)
  }

  // The driver's side.

  predicate HeaderRepeated(transfer: seq<byte>, tail: Tail)
    requires |transfer| >= 2
  {
    tail.last == transfer[0] && tail.beforeLast == transfer[1] && tail.last == tail.beforeLast
  }

  /** The header, unless it looks like a repetition of the previous transfer's end. */
  function PayloadLength(transfer: seq<byte>, tail: Tail): nat
    requires |transfer| >= 2
  {
    if HeaderRepeated(transfer, tail) then |transfer| - 2 else transfer[0] as nat * 256 + transfer[1] as nat
  }

  function TailOf(transfer: seq<byte>): Tail
    requires |transfer| >= 2
  {
    Tail(transfer[|transfer| - 1], transfer[|transfer| - 2])
  }

  /** The other byte of the same word. */
  function Partner(i: nat): nat
  {
    if i % 2 == 0 then i + 1 else i - 1
  }

  /** The bytes with the first n exchanged in pairs. */
  function Exchanged(b: seq<byte>, n: nat): (e: seq<byte>)
    requires n % 2 == 0 && n <= |b|
    ensures |e| == |b|
  {
    seq(|b|, i requires 0 <= i < |b| => if i < n then b[Partner(i)] else b[i])
  }

  /** What the driver takes a payload of this length to be. */
  function PayloadOf(buffer: seq<byte>, length: nat): (p: seq<byte>)
    requires EvenUp(length + 2) <= |buffer|
    ensures |p| == length
  {
    Exchanged(buffer, EvenUp(length + 2))[2..length + 2]
  }

  /** The header claims no more than was transferred. */
  predicate Whole(transfer: seq<byte>, tail: Tail) {
    |transfer| >= 2 && EvenUp(PayloadLength(transfer, tail) + 2) <= |transfer|
  }

  function Decode(transfer: seq<byte>, tail: Tail): seq<byte>
    requires Whole(transfer, tail)
  {
    PayloadOf(transfer, PayloadLength(transfer, tail))
  }

  /** The loop that exchanges the bytes in the transfer buffer. */
  method ExchangeBytes(buffer: array<byte>, payload: nat)
    requires EvenUp(payload + 2) <= buffer.Length
    modifies buffer
    ensures buffer[..] == Exchanged(old(buffer[..]), EvenUp(payload + 2))
  {
    var i := 0;
    while i < payload + 2
      invariant i % 2 == 0 && i <= EvenUp(payload + 2)
      invariant forall k :: 0 <= k < buffer.Length ==> buffer[k] == Exchanged(old(buffer[..]), i)[k]
    {
      var temp := buffer[i];
      buffer[i] := buffer[i + 1];
      buffer[i + 1] := temp;
      i := i + 2;
    }
  }

  // The two sides together.

  /** On the wire: the length with its higher byte first, then the bytes of each word exchanged. */
  lemma OnTheWire()
    ensures Encode([1, 2, 3, 4, 5], 9) == [0, 5, 2, 1, 4, 3, 9, 5]
    ensures Whole([0, 5, 2, 1, 4, 3, 9, 5], Tail(0, 7))
    ensures Decode([0, 5, 2, 1, 4, 3, 9, 5], Tail(0, 7)) == [1, 2, 3, 4, 5]
    ensures TailOf([0, 5, 2, 1, 4, 3, 9, 5]) == Tail(5, 9)
    ensures PayloadLength([1, 2], Tail(2, 1)) == 258
  {
    assert Words([1, 2, 3, 4, 5], 9) == [2, 1] + ([4, 3] + Words([5], 9));
  }

  lemma {:induction false} WordsAt(p: seq<byte>, pad: byte, k: nat)
    requires k < EvenUp(|p|)
    ensures Partner(k) < EvenUp(|p|)
    ensures Words(p, pad)[Partner(k)] == if k < |p| then p[k] else pad
  {
    if k >= 2 {
      assert EvenUp(|p|) == EvenUp(|p[2..]|) + 2 && Partner(k) == Partner(k - 2) + 2;
      WordsAt(p[2..], pad, k - 2);
    }
  }

  /** The payload, with the pad byte after an odd one. */
  function WithPad(p: seq<byte>, pad: byte): (q: seq<byte>)
    ensures |q| == EvenUp(|p|)
  {
    p + if |p| % 2 == 0 then [] else [pad]
  }

  /** Exchanging the words back gives the payload and the pad byte. */
  lemma WordsExchanged(head: seq<byte>, p: seq<byte>, pad: byte)
    requires |head| == 2
    ensures (2 + EvenUp(|p|)) % 2 == 0
    ensures Exchanged(head + Words(p, pad), 2 + EvenUp(|p|))[2..] == WithPad(p, pad)
  {
    var n := 2 + EvenUp(|p|);
    var t := head + Words(p, pad);
    forall k | 0 <= k < EvenUp(|p|) ensures Exchanged(t, n)[2..][k] == WithPad(p, pad)[k] {
      WordsAt(p, pad, k);
      assert Partner(2 + k) == 2 + Partner(k);
      hide Words, Partner, EvenUp;
      assert Exchanged(t, n)[2 + k] == t[2 + Partner(k)];
    }
  }

  lemma HeaderBytes(n: nat)
    requires n < 0x1_0000
    ensures n / 256 == n % 256 <==> n % 257 == 0
    ensures n % 257 == 0 ==> n / 256 == n / 257
  {
    var q := n / 257;
    if n % 257 == 0 {
      assert n == 256 * q + q;
    }
    if n / 256 == n % 256 {
      assert n == 257 * (n / 256);
    }
  }

  lemma HeaderValue(p: seq<byte>, pad: byte)
    requires |p| < 0x1_0000
    ensures Encode(p, pad)[0] as nat * 256 + Encode(p, pad)[1] as nat == |p|
    ensures Encode(p, pad)[0] as nat == |p| / 256 && Encode(p, pad)[1] as nat == |p| % 256
  {
  }

  /** What the driver makes of a transfer: the payload, with the pad byte behind it if it is odd and its header is
  taken for a repetition. */
  lemma DecodeOfEncode(p: seq<byte>, pad: byte, tail: Tail)
    requires |p| < 0x1_0000
    ensures Whole(Encode(p, pad), tail)
    ensures Decode(Encode(p, pad), tail) == if HeaderRepeated(Encode(p, pad), tail) then WithPad(p, pad) else p
  {
    var t := Encode(p, pad);
    HeaderValue(p, pad);
    WordsExchanged(t[..2], p, pad);
    assert t == t[..2] + Words(p, pad);
    assert EvenUp(|p| + 2) == 2 + EvenUp(|p|) == EvenUp(EvenUp(|p|) + 2);
    assert WithPad(p, pad)[..|p|] == p;
    hide Exchanged, WithPad, EvenUp, Encode;
    DecodeIsPart(t, tail);
  }

  lemma DecodeIsPart(t: seq<byte>, tail: Tail)
    requires Whole(t, tail)
    ensures var n := PayloadLength(t, tail);
            Decode(t, tail) == Exchanged(t, EvenUp(n + 2))[2..][..n]
  {
  }

  /** An odd payload whose two header bytes are equal, behind a transfer that ended in the same two bytes. Up to 510
  bytes that is a payload of 257 bytes behind two ones. */
  predicate Misread(length: nat, tail: Tail) {
    length % 257 == 0 && length % 2 == 1 && tail.last as nat == tail.beforeLast as nat == length / 257
  }

  /** The pad byte comes along exactly with a misread payload. */
  lemma DecodeCases(p: seq<byte>, pad: byte, tail: Tail)
    requires |p| < 0x1_0000
    ensures Whole(Encode(p, pad), tail)
    ensures Decode(Encode(p, pad), tail) == p + if Misread(|p|, tail) then [pad] else []
    ensures |Decode(Encode(p, pad), tail)| == PayloadLength(Encode(p, pad), tail)
  {
    DecodeOfEncode(p, pad, tail);
    HeaderValue(p, pad);
    HeaderBytes(|p|);
    hide Encode, Whole, PayloadOf;
    assert p + [] == p;
  }

  /** The exact condition: a payload is read back unchanged if and only if it is not misread. */
  lemma RoundTripIff(p: seq<byte>, pad: byte, tail: Tail)
    requires |p| < 0x1_0000
    ensures Whole(Encode(p, pad), tail)
    ensures Decode(Encode(p, pad), tail) == p <==> !Misread(|p|, tail)
  {
    DecodeCases(p, pad, tail);
  }

  /** In terms of the bytes on the wire: behind any transfer, a payload is read back unchanged if and only if its length
  is not an odd multiple b of 257 while that transfer's last two bytes are both b. */
  lemma RoundTripBehind(transfer: seq<byte>, p: seq<byte>, pad: byte)
    requires |transfer| >= 2 && |p| < 0x1_0000
    ensures Whole(Encode(p, pad), TailOf(transfer))
    ensures Decode(Encode(p, pad), TailOf(transfer)) == p <==>
            !(|p| % 2 == 1 && |p| % 257 == 0
              && transfer[|transfer| - 2] as nat == |p| / 257 && transfer[|transfer| - 1] as nat == |p| / 257)
  {
    RoundTripIff(p, pad, TailOf(transfer));
    hide Encode, Decode, Whole;
  }

  lemma RepeatedTakesAll(t: seq<byte>, tail: Tail)
    requires |t| >= 2 && |t| % 2 == 0 && HeaderRepeated(t, tail)
    ensures Whole(t, tail) && Decode(t, tail) == Exchanged(t, |t|)[2..]
  {
    assert EvenUp(|t| - 2 + 2) == |t|;
    hide Exchanged, EvenUp;
  }

  /** What the firmware error does: the header is lost, and the previous transfer's last two bytes stand in its place.
  An even payload is recovered if they are equal. */
  lemma LostHeaderRecovered(p: seq<byte>, tail: Tail)
    requires |p| % 2 == 0 && tail.last == tail.beforeLast
    ensures var t := [tail.last, tail.beforeLast] + Words(p, 0);
            Whole(t, tail) && Decode(t, tail) == p
  {
    var head := [tail.last, tail.beforeLast];
    var t := head + Words(p, 0);
    EvenNeedsNoPad(p);
    assert t[0] == tail.last && t[1] == tail.beforeLast && HeaderRepeated(t, tail) by {
      hide Words, EvenUp, WithPad;
    }
    hide *;
    WordsExchanged(head, p, 0);
    RepeatedTakesAll(t, tail);
  }

  lemma EvenNeedsNoPad(p: seq<byte>)
    requires |p| % 2 == 0
    ensures EvenUp(|p|) == |p| && WithPad(p, 0) == p
  {
  }

  /** The transfer buffer may be longer than the transfer: what lies behind it does not matter. */
  lemma RestOfBufferIgnored(buffer: seq<byte>, size: nat, tail: Tail)
    requires size <= |buffer| && Whole(buffer[..size], tail)
    ensures PayloadOf(buffer, PayloadLength(buffer[..size], tail)) == Decode(buffer[..size], tail)
  {
    var n := PayloadLength(buffer[..size], tail);
    hide PayloadLength;
    forall k | 0 <= k < n ensures PayloadOf(buffer, n)[k] == PayloadOf(buffer[..size], n)[k] {
      assert Partner(k + 2) < EvenUp(n + 2);
    }
  }

  // Sequences of transfers.

  function EncodeAll(ps: seq<seq<byte>>, pads: seq<byte>): (ts: seq<seq<byte>>)
    requires |pads| == |ps| && forall i :: 0 <= i < |ps| ==> |ps[i]| < 0x1_0000
    ensures |ts| == |ps|
  {
    seq(|ps|, i requires 0 <= i < |ps| => Encode(ps[i], pads[i]))
  }

  /** The bytes of successive transfers, each read with the end of the one before in mind. */
  function DecodeAll(ts: seq<seq<byte>>, tail: Tail): Option<seq<byte>> {
    if ts == [] then Some([])
    else if !Whole(ts[0], tail) then None
    else
      var rest := DecodeAll(ts[1..], TailOf(ts[0]));
      if rest.None? then None else Some(Decode(ts[0], tail) + rest.value)
  }

  /** Whatever the cut into transfers, the driver sees the bytes the device sent, if no length is an odd multiple
  of 257. */
  lemma {:induction false} TransfersRoundTrip(ps: seq<seq<byte>>, pads: seq<byte>, tail: Tail)
    requires |pads| == |ps|
    requires forall i :: 0 <= i < |ps| ==> |ps[i]| < 0x1_0000 && (|ps[i]| % 257 != 0 || |ps[i]| % 2 == 0)
    ensures DecodeAll(EncodeAll(ps, pads), tail) == Some(Concat(ps))
    decreases |ps|
  {
    if ps != [] {
      RoundTripIff(ps[0], pads[0], tail);
      assert EncodeAll(ps, pads)[1..] == EncodeAll(ps[1..], pads[1..]);
      hide Encode, Decode, Whole, TailOf;
      TransfersRoundTrip(ps[1..], pads[1..], TailOf(Encode(ps[0], pads[0])));
    }
  }
}
