/** The encoder of the program word (lib/raw/calculate-clock-bits.c:513-959), table by table, as in-place
edits of the 20 bytes, and what each table leaves for the others. */
module ClockEncoder {
  import opened Words
  import opened ClockWord

  /** The eight patterns the encoder tries for one x: (2(x+3)+y) * scale. */
  predicate Matches(x: nat, od: nat) {
    exists y: nat, scale: nat :: y <= 1 && scale in {1, 2, 4, 8} && od == Pattern(x, y, scale)
  }

  /** The dividers the encoder can express. */
  predicate Representable(od: nat) {
    2 <= od <= 37 || exists x: nat :: x < 512 && Matches(x, od)
  }

  /** What the chip makes of a divider the encoder accepts: itself, exactly when it is representable. */
  ghost function Encoded(od: nat): nat {
    if Representable(od) then od else 7
  }

  // Bit facts, each about machine words only.

  function LowByte(w: bv16): bv8 {
    (w & 0xff) as bv8
  }

  function HighByte(w: bv16): bv8 {
    ((w >> 8) & 0xff) as bv8
  }

  lemma ShortReferenceBits(w: bv16)
    requires w < 0x10
    ensures var b0 := ((((!w) << 2) & 0xff) as bv8 & 0x3e) | 0x02;
            ReferenceField(b0) == w && b0 & 0x03 == 2
  {
  }

  lemma LongReferenceBits(w: bv16)
    requires w < 0x800
    ensures var b0, b1 := LowByte(w << 2) | 0x03, HighByte(w << 2);
            LongReferenceField(b0, b1) == w && b0 & 0x03 == 3 && b1 & 0xe0 == 0
  {
  }

  lemma VcoBits(b1: bv8, w: bv16)
    requires b1 & 0xe0 == 0 && w < 0x800
    ensures var c1, c2 := b1 | LowByte(w << 5), HighByte(w << 5);
            VcoField(c1, c2) == w && c1 & 0x1f == b1 & 0x1f
  {
  }

  lemma LongReferenceLowBits(b0: bv8, b1: bv8, c1: bv8)
    requires b1 & 0x1f == c1 & 0x1f
    ensures LongReferenceField(b0, b1) == LongReferenceField(b0, c1)
  {
  }

  lemma ReferenceIgnoresVcoBits(b0: bv8, b1: bv8, w: bv16)
    requires b1 & 0xe0 == 0 && w < 0x800
    ensures DecodeReference(b0, b1) == DecodeReference(b0, b1 | LowByte(w << 5))
  {
    VcoBits(b1, w);
    LongReferenceLowBits(b0, b1, b1 | LowByte(w << 5));
  }

  function ShortByte(w: bv16): bv8 {
    ((((((!w) << 2) & 0xff) as bv8) & 0x7f) & 0xfe) | 0x02
  }

  lemma ShortOutputBits(w: bv16)
    requires w < 0x20
    ensures ShortOutputField(ShortByte(w)) == w && OutputForm(ShortByte(w)) == 2
  {
  }

  // The long form: x in bits 5 to 13, and below it the tag bits: scale, inverted y and the form.

  function LowShare(w: bv16): bv8 {
    ((w << 5) & 0xff) as bv8
  }

  function HighShare(w: bv16): bv8 {
    (((w << 5) >> 8) & 0xff) as bv8
  }

  function Tag(y: nat, scale: nat): bv8
    requires y <= 1 && scale in {1, 2, 4, 8}
  {
    if y == 0 then (if scale == 1 then 0x04 else if scale == 2 then 0x0c else if scale == 4 then 0x14 else 0x1c)
    else (if scale == 1 then 0x00 else if scale == 2 then 0x08 else if scale == 4 then 0x10 else 0x18)
  }

  lemma TagMeaning(y: nat, scale: nat)
    requires y <= 1 && scale in {1, 2, 4, 8}
    ensures Parity(Tag(y, scale)) == y && Scale(Tag(y, scale)) == scale && Tag(y, scale) & 0xe3 == 0
  {
  }

  function Closed(b12: bv8): bv8 {
    (b12 & 0xfe) | 0x02
  }

  // Each fact about the long form's bytes on its own, so that the solver sees one bit pattern at a time.

  lemma LongFieldBits(w: bv16, tag: bv8)
    requires w < 0x200 && tag & 0xe3 == 0
    ensures LongOutputField(Closed(LowShare(w) | tag), 0x40 | HighShare(w)) == w
  {
  }

  lemma LongFormBits(b12: bv8)
    ensures OutputForm(Closed(b12)) == 2
  {
  }

  lemma LongParityBit(w: bv16, tag: bv8)
    ensures Parity(Closed(LowShare(w) | tag)) == Parity(tag)
  {
  }

  lemma LongScaleBits(w: bv16, tag: bv8)
    ensures Scale(Closed(LowShare(w) | tag)) == Scale(tag)
  {
  }

  lemma LongTopBits(w: bv16)
    requires w < 0x200
    ensures (0x40 | HighShare(w)) & 0xc0 == 0x40
  {
  }

  /** Bytes with these fields decode to the pattern. */
  lemma LongFieldsDecode(x: nat, y: nat, scale: nat, b11: bv8, b12: bv8, b13: bv8)
    requires x < 512 && HighBit(b11) && OutputForm(b12) == 2
    requires LongOutputField(b12, b13) == Word(x) && Parity(b12) == y && Scale(b12) == scale
    ensures DecodeOutput(b11, b12, b13) == Pattern(x, y, scale)
  {
    NatOfWord(x);
  }

  /** Bytes 12 and 13 hold x, y and the scale in the long form. */
  predicate Holds(b12: bv8, b13: bv8, x: nat, y: nat, scale: nat) {
    && OutputForm(b12) == 2 && LongOutputField(b12, b13) == Word(x) && Parity(b12) == y && Scale(b12) == scale
    && b13 & 0xc0 == 0x40
  }

  lemma LongFormHolds(x: nat, y: nat, scale: nat)
    requires x < 512 && y <= 1 && scale in {1, 2, 4, 8}
    ensures Holds(Closed(LowShare(Word(x)) | Tag(y, scale)), 0x40 | HighShare(Word(x)), x, y, scale)
  {
    assert Word(x) < 0x200 by {
      WordBound(x);
    }
    var tag := Tag(y, scale);
    TagMeaning(y, scale);
    LongFieldBits(Word(x), tag);
    LongFormBits(LowShare(Word(x)) | tag);
    LongParityBit(Word(x), tag);
    LongScaleBits(Word(x), tag);
    LongTopBits(Word(x));
  }

  lemma CurrentSparesResistor(b: bv8, c: bv8)
    requires b & 0x06 == c & 0x06
    ensures DecodeResistor(b) == DecodeResistor(c)
  {
  }

  lemma LowBitsClear(b: bv8)
    requires b & 0xc1 == 0
    ensures b & 0x81 == 0
  {
  }

  lemma OutputSparesResistor(b: bv8, c: bv8)
    requires b & 0x7f == c & 0x7f
    ensures DecodeResistor(b) == DecodeResistor(c)
    ensures b & 0xc1 == 0 ==> c & 0x41 == 0
  {
  }

  lemma OutputSparesCurrent(b: bv8, c: bv8)
    requires b & 0x7f == c & 0x7f
    ensures CurrentSteps(b) == CurrentSteps(c)
  {
  }

  lemma NothingFound()
    ensures Holds(Closed(0), 0x40, 0, 1, 1)
  {
    assert Word(0) == 0;
    LongFormHolds(0, 1, 1);
    NothingShared();
  }

  lemma NothingShared()
    ensures LowShare(0) | Tag(1, 1) == 0 && 0x40 | HighShare(0) == 0x40
  {
  }

  // The bytes themselves.

  /** The reference divider in byte 0: a code of its own, counted down from 17 above code 2, or above code 3. */
  function ReferenceLow(r: nat): bv8
    requires 1 <= r <= 2055
  {
    if r == 1 then 0x00 else if r == 2 then 0x01
    else if r <= 17 then LowByte(Word(17 - r) << 2) | 0x02
    else LowByte(Word(r - 8) << 2) | 0x03
  }

  function ReferenceHigh(r: nat): bv8 {
    if r <= 17 then 0x00 else HighByte(Word(r - 8) << 2)
  }

  function VcoLow(v: nat): bv8
    requires 12 <= v
  {
    LowByte(Word(v - 8) << 5)
  }

  function VcoHigh(v: nat): bv8
    requires 12 <= v
  {
    HighByte(Word(v - 8) << 5)
  }

  function ResistorBits(rs: nat): bv8
    requires IsResistor(rs)
  {
    if rs == 64000 then 0x00 else if rs == 52000 then 0x04 else if rs == 16000 then 0x02 else 0x06
  }

  /** The current in bits 3 to 5 of byte 11, and bytes 15 and 16. */
  function CurrentBytes(icp: nat): (bytes: (bv8, bv8, bv8))
    requires IsCurrent(icp)
  {
    match icp
    case 125 => (0x38, 0x04, 0x00)
    case 250 => (0x38, 0x84, 0x00)
    case 375 => (0x38, 0x04, 0x01)
    case 500 => (0x38, 0x84, 0x01)
    case 625 => (0x18, 0x04, 0x00)
    case 750 => (0x10, 0x04, 0x00)
    case 875 => (0x08, 0x04, 0x00)
    case 1000 => (0x00, 0x04, 0x00)
    case 1125 => (0x28, 0x04, 0x01)
    case 1250 => (0x18, 0x84, 0x00)
    case 1500 => (0x28, 0x84, 0x01)
    case 1750 => (0x08, 0x84, 0x00)
    case 1875 => (0x18, 0x04, 0x01)
    case 2000 => (0x00, 0x84, 0x00)
    case 2250 => (0x10, 0x04, 0x01)
    case 2500 => (0x18, 0x84, 0x01)
    case 2625 => (0x08, 0x04, 0x01)
    case 3000 => (0x00, 0x04, 0x01)
    case 3500 => (0x08, 0x84, 0x01)
    case _ => (0x00, 0x84, 0x01)
  }

  /** The output divider in bit 7 of byte 11. */
  function OutputTop(od: nat): bv8 {
    if od in {3, 6, 7, 9, 11, 13} || od > 37 then 0x80 else 0x00
  }

  /** And in bytes 12 and 13: a code of its own, counted down from 37, or the pattern with the least x. A divider that
  has none leaves the form alone. */
  ghost predicate OutputLaid(od: nat, b12: bv8, b13: bv8) {
    if od <= 37 then
      && b13 == 0x40
      && b12 == (match od
                 case 2 => 0x00
                 case 3 => 0x00
                 case 4 => 0x04
                 case 5 => 0x01
                 case 6 => 0x04
                 case 7 => 0x01
                 case 9 => 0x05
                 case 11 => 0x09
                 case 13 => 0x0d
                 case _ => LowByte(Word(37 - od) << 2) | 0x02)
    else if Representable(od) then
      exists x: nat, y: nat, scale: nat | x < 512 && y <= 1 && scale in {1, 2, 4, 8} && od == Pattern(x, y, scale) ::
        && (forall k :: 0 <= k < x ==> !Matches(k, od))
        && b12 == Closed(LowShare(Word(x)) | Tag(y, scale)) && b13 == 0x40 | HighShare(Word(x))
    else b12 == 0x02 && b13 == 0x40
  }

  lemma ShortReferenceByte(w: bv16)
    requires w < 0x10
    ensures ((((!w) << 2) & 0xff) as bv8 & 0x3e) | 0x02 == LowByte((w ^ 0x0f) << 2) | 0x02
  {
  }

  lemma ReferenceCountedDown(r: nat)
    requires 3 <= r <= 17
    ensures Word(17 - r) == Complement(Word(r - 2), 0x0f) && Word(r - 2) < 0x10
  {
    assert Ones(4) == 15 && Word(15) == 0x0f;
    CountedDown(r - 2, 4);
    WordBound(r - 2);
  }

  lemma ShortOutputByte(w: bv16)
    requires w < 0x20
    ensures ShortByte(w) == LowByte((w ^ 0x1f) << 2) | 0x02
  {
  }

  lemma OutputCountedDown(od: nat)
    requires 6 <= od <= 37
    ensures ShortByte(Word(od - 6)) == LowByte(Word(37 - od) << 2) | 0x02
  {
    assert Ones(5) == 31 && Word(31) == 0x1f;
    CountedDown(od - 6, 5);
    WordBound(od - 6);
    ShortOutputByte(Word(od - 6));
  }

  /** The byte of a reference divider from 3 to 17. */
  method ShortReference(r: nat) returns (b0: bv8)
    requires 3 <= r <= 17
    ensures b0 == ReferenceLow(r) && DecodeReference(b0, 0) == r
  {
    var w := Word(r - 2);
    NatOfWord(r - 2);
    ReferenceCountedDown(r);
    ShortReferenceBits(w);
    ShortReferenceByte(w);
    var temp := !w;
    temp := temp << 2;
    b0 := (temp & 0xff) as bv8;
    b0 := b0 & 0x3e;
    b0 := b0 | 0x02;
  }

  lemma LongReferenceDecodes(r: nat)
    requires 18 <= r <= 2055
    ensures DecodeReference(ReferenceLow(r), ReferenceHigh(r)) == r && ReferenceHigh(r) & 0xe0 == 0
  {
    assert Word(r - 8) < 0x800 by {
      WordBound(r - 8);
    }
    NatOfWord(r - 8);
    LongReferenceBits(Word(r - 8));
    hide Word, LowByte, HighByte, LongReferenceField;
  }

  /** The bytes of a reference divider from 18 on. */
  method LongReference(r: nat) returns (b0: bv8, b1: bv8)
    requires 18 <= r <= 2055
    ensures b0 == ReferenceLow(r) && b1 == ReferenceHigh(r) && DecodeReference(b0, b1) == r && b1 & 0xe0 == 0
  {
    LongReferenceDecodes(r);
    hide Word, LowByte, HighByte, DecodeReference;
    var temp := Word(r - 8);
    temp := temp << 2;
    b0 := LowByte(temp);
    b1 := HighByte(temp);
    b0 := b0 | 0x03;
  }

  /** Table 1: the input divider goes into byte 0 and the low 5 bits of byte 1. */
  method InputDividerTable(r: nat, p: array<bv8>) returns (ok: bool)
    requires p.Length == WORD_BYTES && p[0] == 0 && p[1] == 0
    modifies p
    ensures ok <==> 1 <= r <= 2055
    ensures ok ==> p[0] == ReferenceLow(r) && p[1] == ReferenceHigh(r)
    ensures ok ==> DecodeReference(p[0], p[1]) == r && p[1] & 0xe0 == 0
    ensures forall k :: 2 <= k < WORD_BYTES ==> p[k] == old(p[k])
  {
    if r == 1 || r == 2 {
      if r == 1 {
        p[0] := p[0] & 0xfc;
        p[1] := p[1] & 0xf0;
      } else {
        p[0] := p[0] & 0xfc;
        p[0] := p[0] | 0x01;
        p[1] := p[1] & 0xf0;
      }
    } else if 3 <= r <= 17 {
      assert ReferenceHigh(r) == 0;
      hide *;
      p[0] := ShortReference(r);
    } else if 18 <= r <= 2055 {
      hide *;
      p[0], p[1] := LongReference(r);
    } else {
      return false;
    }
    return true;
  }

  lemma VcoDecodes(v: nat, b0: bv8, in1: bv8)
    requires 12 <= v <= 2055 && in1 & 0xe0 == 0
    ensures DecodeVco(in1 | VcoLow(v), VcoHigh(v)) == v
    ensures DecodeReference(b0, in1 | VcoLow(v)) == DecodeReference(b0, in1)
  {
    assert Word(v - 8) < 0x800 by {
      WordBound(v - 8);
    }
    NatOfWord(v - 8);
    VcoBits(in1, Word(v - 8));
    ReferenceIgnoresVcoBits(b0, in1, Word(v - 8));
    hide Word, LowByte, HighByte, DecodeReference, VcoField;
  }

  /** The bytes of a VCO divider, over the reference divider's share of byte 1. */
  method VcoBytes(v: nat, ghost b0: bv8, in1: bv8) returns (b1: bv8, b2: bv8)
    requires 12 <= v <= 2055 && in1 & 0xe0 == 0
    ensures b1 == in1 | VcoLow(v) && b2 == VcoHigh(v) && DecodeVco(b1, b2) == v
    ensures DecodeReference(b0, b1) == DecodeReference(b0, in1)
  {
    VcoDecodes(v, b0, in1);
    hide Word, LowByte, HighByte, DecodeReference, DecodeVco;
    var temp := Word(v - 8);
    temp := temp << 5;
    b1, b2 := in1 | LowByte(temp), HighByte(temp);
  }

  lemma OrNothing(b: bv8)
    ensures 0 | b == b
  {
  }

  /** Table 2: the VCO divider goes into the high 3 bits of byte 1 and into byte 2. */
  method VcoDividerTable(v: nat, p: array<bv8>) returns (ok: bool)
    requires p.Length == WORD_BYTES && p[1] & 0xe0 == 0 && p[2] == 0
    modifies p
    ensures ok <==> 12 <= v <= 2055
    ensures ok ==> p[1] == old(p[1]) | VcoLow(v) && p[2] == VcoHigh(v)
    ensures ok ==> DecodeVco(p[1], p[2]) == v
    ensures DecodeReference(p[0], p[1]) == old(DecodeReference(p[0], p[1]))
    ensures forall k :: 0 <= k < WORD_BYTES && k != 1 && k != 2 ==> p[k] == old(p[k])
  {
    assert p.Length == 20;
    hide *;
    if 12 <= v <= 2055 {
      var b1, b2 := VcoBytes(v, p[0], p[1]);
      OrNothing(b2);
      p[1], p[2] := b1, p[2] | b2;
      return true;
    }
    return false;
  }

  /** Table 4: the resistor goes into bits 1 and 2 of byte 11. */
  method ResistorTable(rs: nat, p: array<bv8>) returns (ok: bool)
    requires p.Length == WORD_BYTES && p[11] == 0
    modifies p
    ensures ok <==> IsResistor(rs)
    ensures ok ==> p[11] == ResistorBits(rs) && DecodeResistor(p[11]) == rs
    ensures p[11] & 0xf9 == 0
    ensures forall k :: 0 <= k < WORD_BYTES && k != 11 ==> p[k] == old(p[k])
  {
    match rs {
      case 64000 =>
        p[11] := p[11] & 0xf9;
      case 52000 =>
        p[11] := p[11] & 0xf9;
        p[11] := p[11] | 0x04;
      case 16000 =>
        p[11] := p[11] & 0xf9;
        p[11] := p[11] | 0x02;
      case 4000 =>
        p[11] := p[11] | 0x06;
      case _ =>
        return false;
    }
    return true;
  }

  /** The branches of table 3 up to 1250. */
  method LowCurrent(icp: nat, in11: bv8, in15: bv8, in16: bv8) returns (b11: bv8, b15: bv8, b16: bv8)
    requires IsCurrent(icp) && icp <= 1250 && in11 & 0xf9 == 0 && in15 == 0x04 && in16 == 0
    ensures b11 == in11 | CurrentBytes(icp).0 && b15 == CurrentBytes(icp).1 && b16 == CurrentBytes(icp).2
    ensures DecodeCurrent(b11, b15, b16) == icp
    ensures b11 & 0x06 == in11 & 0x06 && b11 & 0xc1 == 0
    ensures b15 & 0x7f == 0x04 && b16 & 0xfe == 0
  {
    b11, b15, b16 := in11, in15, in16;
    match icp {
      case 125 => b11, b15, b16 := b11 | 0x38, b15 & 0x7f, b16 & 0xfe;
      case 250 => b11, b15, b16 := b11 | 0x38, b15 | 0x80, b16 & 0xfe;
      case 375 => b11, b15, b16 := b11 | 0x38, b15 & 0x7f, b16 | 0x01;
      case 500 => b11, b15, b16 := b11 | 0x38, b15 | 0x80, b16 | 0x01;
      case 625 => b11, b15, b16 := (b11 | 0x18) & 0xdf, b15 & 0x7f, b16 & 0xfe;
      case 750 => b11, b15, b16 := (b11 | 0x10) & 0xd7, b15 & 0x7f, b16 & 0xfe;
      case 875 => b11, b15, b16 := (b11 | 0x08) & 0xcf, b15 & 0x7f, b16 & 0xfe;
      case 1000 => b11, b15, b16 := b11 & 0xc7, b15 & 0x7f, b16 & 0xfe;
      case 1125 => b11, b15, b16 := (b11 | 0x28) & 0xef, b15 & 0x7f, b16 | 0x01;
      case 1250 => b11, b15, b16 := (b11 | 0x18) & 0xdf, b15 | 0x80, b16 & 0xfe;
    }
  }

  /** The branches of table 3 above 1250. */
  method HighCurrent(icp: nat, in11: bv8, in15: bv8, in16: bv8) returns (b11: bv8, b15: bv8, b16: bv8)
    requires IsCurrent(icp) && icp > 1250 && in11 & 0xf9 == 0 && in15 == 0x04 && in16 == 0
    ensures b11 == in11 | CurrentBytes(icp).0 && b15 == CurrentBytes(icp).1 && b16 == CurrentBytes(icp).2
    ensures DecodeCurrent(b11, b15, b16) == icp
    ensures b11 & 0x06 == in11 & 0x06 && b11 & 0xc1 == 0
    ensures b15 & 0x7f == 0x04 && b16 & 0xfe == 0
  {
    b11, b15, b16 := in11, in15, in16;
    match icp {
      case 1500 => b11, b15, b16 := (b11 | 0x28) & 0xef, b15 | 0x80, b16 | 0x01;
      case 1750 => b11, b15, b16 := (b11 | 0x08) & 0xcf, b15 | 0x80, b16 & 0xfe;
      case 1875 => b11, b15, b16 := (b11 | 0x18) & 0xdf, b15 & 0x7f, b16 | 0x01;
      case 2000 => b11, b15, b16 := b11 & 0xc7, b15 | 0x80, b16 & 0xfe;
      case 2250 => b11, b15, b16 := b11 | 0x10, b15 & 0x7f, b16 | 0x01;
      case 2500 => b11, b15, b16 := (b11 | 0x18) & 0xdf, b15 | 0x80, b16 | 0x01;
      case 2625 => b11, b15, b16 := (b11 | 0x08) & 0xcf, b15 & 0x7f, b16 | 0x01;
      case 3000 => b11, b15, b16 := b11 & 0xc7, b15 & 0x7f, b16 | 0x01;
      case 3500 => b11, b15, b16 := (b11 | 0x08) & 0xcf, b15 | 0x80, b16 | 0x01;
      case 4000 => b11, b15, b16 := b11 & 0xc7, b15 | 0x80, b16 | 0x01;
    }
  }

  /** Table 3: the current goes into bits 3 to 5 of byte 11, bit 7 of byte 15 and bit 0 of byte 16. */
  method CurrentTable(icp: nat, p: array<bv8>) returns (ok: bool)
    requires p.Length == WORD_BYTES && p[11] & 0xf9 == 0 && p[15] == 0x04 && p[16] == 0
    modifies p
    ensures ok <==> IsCurrent(icp)
    ensures ok ==> p[11] == old(p[11]) | CurrentBytes(icp).0
    ensures ok ==> p[15] == CurrentBytes(icp).1 && p[16] == CurrentBytes(icp).2
    ensures ok ==> DecodeCurrent(p[11], p[15], p[16]) == icp
    ensures ok ==> p[11] & 0x06 == old(p[11]) & 0x06 && p[11] & 0xc1 == 0
    ensures ok ==> p[15] & 0x7f == 0x04 && p[16] & 0xfe == 0
    ensures forall k :: 0 <= k < WORD_BYTES && k != 11 && k != 15 && k != 16 ==> p[k] == old(p[k])
  {
    if !IsCurrent(icp) {
      return false;
    }
    var b11, b15, b16;
    if icp <= 1250 {
      b11, b15, b16 := LowCurrent(icp, p[11], p[15], p[16]);
    } else {
      b11, b15, b16 := HighCurrent(icp, p[11], p[15], p[16]);
    }
    p[11], p[15], p[16] := b11, b15, b16;
    return true;
  }

  /** The eight branches for one x, in the source's order; what they clear of byte 12 is zero already. */
  method TryPatterns(od: nat, i: nat, in12: bv8) returns (matched: bool, b12: bv8, y: nat, scale: nat)
    requires i < 512 && in12 == 0
    ensures matched <==> Matches(i, od)
    ensures y <= 1 && scale in {1, 2, 4, 8}
    ensures matched ==> od == Pattern(i, y, scale) && b12 == LowShare(Word(i)) | Tag(y, scale)
    ensures !matched ==> b12 == in12
  {
    var low := LowShare(Word(i));
    LowShareClear(Word(i));
    matched, b12, y, scale := false, in12, 1, 1;
    if od == Pattern(i, 0, 1) {
      matched, b12, y, scale := true, ((in12 | low) & 0xe7) | 0x04, 0, 1;
    } else if od == Pattern(i, 0, 2) {
      matched, b12, y, scale := true, ((in12 | low) & 0xef) | 0x0c, 0, 2;
    } else if od == Pattern(i, 0, 4) {
      matched, b12, y, scale := true, ((in12 | low) & 0xf7) | 0x14, 0, 4;
    } else if od == Pattern(i, 0, 8) {
      matched, b12, y, scale := true, (in12 | low) | 0x1c, 0, 8;
    } else if od == Pattern(i, 1, 1) {
      matched, b12, y, scale := true, (in12 | low) & 0xe3, 1, 1;
    } else if od == Pattern(i, 1, 2) {
      matched, b12, y, scale := true, ((in12 | low) & 0xeb) | 0x08, 1, 2;
    } else if od == Pattern(i, 1, 4) {
      matched, b12, y, scale := true, ((in12 | low) & 0xf7) | 0x10, 1, 4;
    } else if od == Pattern(i, 1, 8) {
      matched, b12, y, scale := true, ((in12 | low) & 0xfb) | 0x18, 1, 8;
    }
  }

  lemma LowShareClear(w: bv16)
    ensures LowShare(w) & 0x1f == 0
  {
  }

  /** The search through x stops at the first one that matches. Without a match, only the form is set, and
  bytes 12 and 13 then hold x = 0, y = 1 and scale 1. */
  method LongForm(od: nat, in12: bv8, in13: bv8)
      returns (b12: bv8, b13: bv8, x: nat, y: nat, scale: nat)
    requires in12 == 0 && in13 == 0x40
    ensures Holds(b12, b13, x, y, scale) && x < 512 && y <= 1 && scale in {1, 2, 4, 8}
    ensures od == Pattern(x, y, scale) ==>
              b12 == Closed(LowShare(Word(x)) | Tag(y, scale)) && b13 == 0x40 | HighShare(Word(x))
    ensures od != Pattern(x, y, scale) ==> b12 == 0x02 && b13 == 0x40
    ensures od == Pattern(x, y, scale) ==> forall k :: 0 <= k < x ==> !Matches(k, od)
    ensures od != Pattern(x, y, scale) ==>
              x == 0 && y == 1 && scale == 1 && forall k :: 0 <= k < 512 ==> !Matches(k, od)
  {
    var i := 0;
    b12, b13, x, y, scale := in12, in13, 0, 1, 1;
    NothingFound();
    while i < 512
      invariant i <= 512 && b12 == 0 && b13 == 0x40 && x == 0 && y == 1 && scale == 1
      invariant forall k :: 0 <= k < i ==> !Matches(k, od)
    {
      var matched;
      matched, b12, y, scale := TryPatterns(od, i, b12);
      if matched {
        b13 := b13 | HighShare(Word(i));
        x := i;
        LongFormHolds(i, y, scale);
        break;
      }
      y, scale := 1, 1;
      i := i + 1;
    }
    b12 := b12 & 0xfe;
    b12 := b12 | 0x02;
  }

  /** Every divider of the search grid from 38 on matches some x below 512. */
  lemma GridRepresentable(od: nat)
    requires OnGrid(od)
    ensures Representable(od)
  {
    if od > 37 {
      var scale := if od <= 1029 then 1 else if od <= 2058 && od % 2 == 0 then 2
                   else if od <= 4116 && od % 4 == 0 then 4 else 8;
      var odd := od / scale;
      assert od == odd * scale;
      assert od == Pattern(odd / 2 - 3, odd % 2, scale);
      assert Matches(odd / 2 - 3, od);
    }
  }

  /** What the first-match loop finds decides whether the divider is representable. */
  lemma LongRepresentable(od: nat, x: nat, y: nat, scale: nat)
    requires od > 37 && x < 512 && y <= 1 && scale in {1, 2, 4, 8}
    requires od != Pattern(x, y, scale) ==> forall k :: 0 <= k < 512 ==> !Matches(k, od)
    ensures od == Pattern(x, y, scale) <==> Representable(od)
  {
    if od == Pattern(x, y, scale) {
      assert Matches(x, od);
    }
  }

  lemma ShortFieldDecodes(od: nat, b11: bv8, b13: bv8)
    requires 8 <= od <= 37 && !HighBit(b11)
    ensures DecodeOutput(b11, ShortByte(Word(od - 6)), b13) == od
  {
    assert Word(od - 6) < 0x20 by {
      WordBound(od - 6);
    }
    NatOfWord(od - 6);
    ShortOutputBits(Word(od - 6));
  }

  predicate SpecialDivider(od: nat) {
    od in {2, 3, 4, 5, 6, 7, 9, 11, 13}
  }

  /** The dividers with a pattern of their own. */
  method SpecialForm(od: nat, in11: bv8, in12: bv8) returns (b11: bv8, b12: bv8)
    requires SpecialDivider(od) && in11 & 0x81 == 0 && in12 == 0
    ensures forall b13 :: DecodeOutput(b11, b12, b13) == od
    ensures b11 & 0x7f == in11 & 0x7f && b11 == in11 | OutputTop(od) && OutputLaid(od, b12, 0x40)
  {
    b11, b12 := in11, in12;
    match od {
      case 2 => b11, b12 := b11 & 0x7f, b12 & 0x00;
      case 3 => b11, b12 := b11 | 0x80, b12 & 0x00;
      case 4 => b11, b12 := b11 & 0x7f, b12 | 0x04;
      case 5 => b11, b12 := b11 & 0x7f, b12 | 0x01;
      case 6 => b11, b12 := b11 | 0x80, b12 | 0x04;
      case 7 => b11, b12 := b11 | 0x80, b12 | 0x01;
      case 11 => b11, b12 := b11 | 0x80, b12 | 0x09;
      case 9 => b11, b12 := b11 | 0x80, b12 | 0x05;
      case 13 => b11, b12 := b11 | 0x80, b12 | 0x0d;
    }
  }

  lemma LowBitsKept(b: bv8)
    ensures (b & 0x7f) & 0x7f == b & 0x7f && (b | 0x80) & 0x7f == b & 0x7f
    ensures !HighBit(b & 0x7f) && HighBit(b | 0x80)
  {
  }

  lemma TopCleared(b: bv8)
    requires b & 0x81 == 0
    ensures b & 0x7f == b | 0x00
  {
  }

  method ShortForm(od: nat, in11: bv8) returns (b11: bv8, b12: bv8)
    requires 8 <= od <= 37 && !SpecialDivider(od) && in11 & 0x81 == 0
    ensures DecodeOutput(b11, b12, 0x40) == od
    ensures b11 & 0x7f == in11 & 0x7f && b11 == in11 | OutputTop(od) && OutputLaid(od, b12, 0x40)
  {
    LowBitsKept(in11);
    TopCleared(in11);
    ShortFieldDecodes(od, in11 & 0x7f, 0x40);
    OutputCountedDown(od);
    hide DecodeOutput, ShortByte, LowByte;
    b11, b12 := in11 & 0x7f, ShortByte(Word(od - 6));
  }

  /** What the first-match loop leaves in bytes 12 and 13 is the word's share of the divider. */
  lemma LongLaid(od: nat, b12: bv8, b13: bv8, x: nat, y: nat, scale: nat)
    requires 37 < od && x < 512 && y <= 1 && scale in {1, 2, 4, 8}
    requires od == Pattern(x, y, scale) ==>
               && b12 == Closed(LowShare(Word(x)) | Tag(y, scale)) && b13 == 0x40 | HighShare(Word(x))
               && forall k :: 0 <= k < x ==> !Matches(k, od)
    requires od != Pattern(x, y, scale) ==> b12 == 0x02 && b13 == 0x40 && forall k :: 0 <= k < 512 ==> !Matches(k, od)
    ensures OutputLaid(od, b12, b13)
  {
    LongRepresentable(od, x, y, scale);
    hide Matches, Pattern, Representable, Closed, LowShare, HighShare, Tag, Word, LowByte;
  }

  method LongBytes(od: nat, in11: bv8, in12: bv8, in13: bv8) returns (b11: bv8, b12: bv8, b13: bv8)
    requires 37 < od <= 8232 && in12 == 0 && in13 == 0x40
    ensures DecodeOutput(b11, b12, b13) == Encoded(od)
    ensures b11 & 0x7f == in11 & 0x7f && b13 & 0xc0 == 0x40
    ensures b11 == in11 | OutputTop(od) && OutputLaid(od, b12, b13)
  {
    LowBitsKept(in11);
    assert OutputTop(od) == 0x80;
    hide DecodeOutput, LongOutputField, OutputForm, HighBit, Parity, Scale, Closed, LowShare, HighShare, Tag, Matches,
         Pattern, Word, OutputLaid, OutputTop;
    var x, y, scale;
    b12, b13, x, y, scale := LongForm(od, in12, in13);
    b11 := in11 | 0x80;
    LongFieldsDecode(x, y, scale, b11, b12, b13);
    LongRepresentable(od, x, y, scale);
    LongLaid(od, b12, b13, x, y, scale);
  }

  method OutputBytes(od: nat, in11: bv8, in12: bv8, in13: bv8) returns (b11: bv8, b12: bv8, b13: bv8)
    requires 2 <= od <= 8232 && in11 & 0x81 == 0 && in12 == 0 && in13 == 0x40
    ensures DecodeOutput(b11, b12, b13) == Encoded(od)
    ensures b11 & 0x7f == in11 & 0x7f && b13 & 0xc0 == 0x40
    ensures b11 == in11 | OutputTop(od) && OutputLaid(od, b12, b13)
  {
    hide DecodeOutput, OutputLaid, OutputTop;
    b11, b12, b13 := in11, in12, in13;
    if SpecialDivider(od) {
      b11, b12 := SpecialForm(od, b11, b12);
      b13 := b13 & 0xc0;
    } else if od <= 37 {
      b11, b12 := ShortForm(od, b11);
      b13 := b13 & 0xc0;
    } else {
      b11, b12, b13 := LongBytes(od, b11, b12, b13);
    }
  }

  /** Table 5: the output divider goes into bit 7 of byte 11, byte 12 and the low 6 bits of byte 13. */
  method OutputDividerTable(od: nat, p: array<bv8>) returns (ok: bool)
    requires p.Length == WORD_BYTES && p[11] & 0x81 == 0 && p[12] == 0 && p[13] == 0x40
    modifies p
    ensures ok <==> 2 <= od <= 8232
    ensures ok ==> p[11] == old(p[11]) | OutputTop(od) && OutputLaid(od, p[12], p[13])
    ensures ok ==> DecodeOutput(p[11], p[12], p[13]) == Encoded(od)
    ensures p[11] & 0x7f == old(p[11]) & 0x7f && p[13] & 0xc0 == 0x40
    ensures forall k :: 0 <= k < WORD_BYTES && k != 11 && k != 12 && k != 13 ==> p[k] == old(p[k])
  {
    if !(2 <= od <= 8232) {
      return false;
    }
    var b11, b12, b13 := OutputBytes(od, p[11], p[12], p[13]);
    p[11], p[12], p[13] := b11, b12, b13;
    return true;
  }

  /** The bits no table writes: bytes 17 to 19 all ones, power up, CLK1 enabled, and zeros elsewhere. */
  predicate Template(p: seq<bv8>)
    requires |p| == WORD_BYTES
  {
    && (forall k :: 3 <= k <= 10 ==> p[k] == 0)
    && p[11] & 0x41 == 0
    && p[13] & 0xc0 == 0x40
    && p[14] == 0x01
    && p[15] & 0x7f == 0x04
    && p[16] & 0xfe == 0
    && (forall k :: 17 <= k <= 19 ==> p[k] == 0xff)
  }

  /** What the encoder returns: the first table that rejects its value, or 0. */
  function ResultCode(s: Setting): nat {
    if !(1 <= s.r <= 2055) then 3
    else if !(12 <= s.v <= 2055) then 4
    else if !IsResistor(s.rs) then 5
    else if !IsCurrent(s.icp) then 6
    else if !(2 <= s.od <= 8232) then 7
    else 0
  }

  /** The starting bytes: every field zero, the rest as in the template. */
  method ClearWord(p: array<bv8>)
    requires p.Length == WORD_BYTES
    modifies p
    ensures p[15] == 0x04 && p[14] == 0x01 && p[13] == 0x40 && forall k :: 17 <= k < WORD_BYTES ==> p[k] == 0xff
    ensures p[16] == 0 && forall k :: 0 <= k < 13 ==> p[k] == 0
  {
    forall k | 0 <= k < WORD_BYTES {
      p[k] := if k >= 17 then 0xff else 0x00;
    }
    p[15] := 0x04;
    p[14] := p[14] | 0x01;
    p[13] := p[13] | 0x40;
  }

  lemma DecodedFields(p: seq<bv8>, s: Setting)
    requires |p| == WORD_BYTES
    requires DecodeReference(p[0], p[1]) == s.r && DecodeVco(p[1], p[2]) == s.v
    requires DecodeOutput(p[11], p[12], p[13]) == s.od
    requires DecodeResistor(p[11]) == s.rs && DecodeCurrent(p[11], p[15], p[16]) == s.icp
    ensures Decode(p) == s
  {
  }

  /** Tables 1 and 2, on bytes 0 to 2. */
  method DividerTables(r: nat, v: nat, p: array<bv8>) returns (code: nat)
    requires p.Length == WORD_BYTES && p[0] == 0 && p[1] == 0 && p[2] == 0
    modifies p
    ensures code == if !(1 <= r <= 2055) then 3 else if !(12 <= v <= 2055) then 4 else 0
    ensures code == 0 ==> p[0] == ReferenceLow(r) && p[1] == ReferenceHigh(r) | VcoLow(v) && p[2] == VcoHigh(v)
    ensures code == 0 ==> DecodeReference(p[0], p[1]) == r && DecodeVco(p[1], p[2]) == v
    ensures forall k :: 3 <= k < WORD_BYTES ==> p[k] == old(p[k])
  {
    var ok := InputDividerTable(r, p);
    if !ok { return 3; }
    ok := VcoDividerTable(v, p);
    if !ok { return 4; }
    return 0;
  }

  /** Tables 4 and 3, on bytes 11, 15 and 16. */
  method FilterTables(rs: nat, icp: nat, p: array<bv8>) returns (code: nat)
    requires p.Length == WORD_BYTES && p[11] == 0 && p[15] == 0x04 && p[16] == 0
    modifies p
    ensures code == if !IsResistor(rs) then 5 else if !IsCurrent(icp) then 6 else 0
    ensures code == 0 ==> p[11] == ResistorBits(rs) | CurrentBytes(icp).0
    ensures code == 0 ==> p[15] == CurrentBytes(icp).1 && p[16] == CurrentBytes(icp).2
    ensures code == 0 ==> DecodeResistor(p[11]) == rs && DecodeCurrent(p[11], p[15], p[16]) == icp
    ensures code == 0 ==> p[11] & 0xc1 == 0 && p[15] & 0x7f == 0x04 && p[16] & 0xfe == 0
    ensures forall k :: 0 <= k < WORD_BYTES && k != 11 && k != 15 && k != 16 ==> p[k] == old(p[k])
  {
    var ok := ResistorTable(rs, p);
    if !ok { return 5; }
    ghost var resistorByte := p[11];
    ok := CurrentTable(icp, p);
    if !ok { return 6; }
    CurrentSparesResistor(resistorByte, p[11]);
    return 0;
  }

  /** Table 5, on bytes 11 to 13, which leaves the other tables' fields as they decode. */
  method OutputTable(od: nat, p: array<bv8>) returns (code: nat)
    requires p.Length == WORD_BYTES && p[11] & 0xc1 == 0 && p[12] == 0 && p[13] == 0x40
    modifies p
    ensures code == if !(2 <= od <= 8232) then 7 else 0
    ensures code == 0 ==> p[11] == old(p[11]) | OutputTop(od) && OutputLaid(od, p[12], p[13])
    ensures code == 0 ==> DecodeOutput(p[11], p[12], p[13]) == Encoded(od)
    ensures DecodeResistor(p[11]) == old(DecodeResistor(p[11])) && CurrentSteps(p[11]) == old(CurrentSteps(p[11]))
    ensures p[11] & 0x41 == 0 && p[13] & 0xc0 == 0x40
    ensures forall k :: 0 <= k < WORD_BYTES && k != 11 && k != 12 && k != 13 ==> p[k] == old(p[k])
  {
    LowBitsClear(p[11]);
    var ok := OutputDividerTable(od, p);
    OutputSparesResistor(old(p[11]), p[11]);
    OutputSparesCurrent(old(p[11]), p[11]);
    return if ok then 0 else 7;
  }

  /** The whole word of a setting. */
  ghost predicate Laid(p: seq<bv8>, s: Setting)
    requires |p| == WORD_BYTES
  {
    && ResultCode(s) == 0
    && p[0] == ReferenceLow(s.r) && p[1] == ReferenceHigh(s.r) | VcoLow(s.v) && p[2] == VcoHigh(s.v)
    && p[3] == p[4] == p[5] == p[6] == p[7] == p[8] == p[9] == p[10] == 0x00
    && p[11] == (ResistorBits(s.rs) | CurrentBytes(s.icp).0) | OutputTop(s.od)
    && OutputLaid(s.od, p[12], p[13]) && p[14] == 0x01
    && p[15] == CurrentBytes(s.icp).1 && p[16] == CurrentBytes(s.icp).2
    && p[17] == p[18] == p[19] == 0xff
  }

  /** Encodes a setting. The chip decodes the word to the same setting, exactly when its output divider is
  representable; every other divider it accepts comes out as 7. */
  method EncodeWord(s: Setting, p: array<bv8>) returns (code: nat)
    requires p.Length == WORD_BYTES
    modifies p
    ensures code == ResultCode(s)
    ensures code == 0 ==> Laid(p[..], s)
    ensures code == 0 ==> Decode(p[..]) == s.(od := Encoded(s.od)) && Template(p[..])
  {
    hide ReferenceLow, ReferenceHigh, VcoLow, VcoHigh, ResistorBits, CurrentBytes, OutputTop, OutputLaid,
         DecodeReference, DecodeVco, DecodeOutput, DecodeResistor, CurrentSteps, CurrentGain;
    ClearWord(p);
    code := DividerTables(s.r, s.v, p);
    if code != 0 { return; }
    ghost var dividers := p[..3];
    code := FilterTables(s.rs, s.icp, p);
    if code != 0 { return; }
    code := OutputTable(s.od, p);
    if code == 0 {
      assert p[..3] == dividers;
      DecodedFields(p[..], s.(od := Encoded(s.od)));
    }
  }
}
