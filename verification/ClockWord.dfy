/** The 160-bit program word of the ICS30703 clock chip (lib/raw/calculate-clock-bits.c, from line 513 on):
what the chip reads out of the 20 bytes, and the encoder that edits them in place. */
module ClockWord {
  import opened Words

  /** The five values the program word carries: the reference, VCO and output dividers, the loop filter
  resistor in ohms, and the charge pump current in units of 10 nA. */
  datatype Setting = Setting(r: nat, v: nat, od: nat, rs: nat, icp: nat)

  const WORD_BYTES: nat := 20

  /** The charge pump currents, in the order the search tries them. */
  const CURRENTS: seq<nat> := [125, 250, 375, 500, 625, 750, 875, 1000, 1125, 1250, 1500, 1750, 1875, 2000,
                               2250, 2500, 2625, 3000, 3500, 4000]

  /** The loop filter resistors, in the order the search tries them. */
  const RESISTORS: seq<nat> := [64000, 52000, 16000, 4000]

  predicate IsCurrent(icp: nat) {
    icp in {125, 250, 375, 500, 625, 750, 875, 1000, 1125, 1250, 1500, 1750, 1875, 2000, 2250, 2500, 2625, 3000,
            3500, 4000}
  }

  predicate IsResistor(rs: nat) {
    rs in {64000, 52000, 16000, 4000}
  }

  lemma TablesListTheValues()
    ensures |CURRENTS| == 20 && forall j :: 0 <= j < 20 ==> IsCurrent(CURRENTS[j])
    ensures |RESISTORS| == 4 && forall i :: 0 <= i < 4 ==> IsResistor(RESISTORS[i])
  {
  }

  /** The output dividers the search visits: all of them up to 1030, then every 2nd, 4th and 8th. */
  predicate OnGrid(od: nat) {
    && 2 <= od <= 8232
    && (od > 1030 ==> od % 2 == 0)
    && (od > 2060 ==> od % 4 == 0)
    && (od > 4120 ==> od % 8 == 0)
  }

  // What the chip makes of the bits.

  function Join(hi: bv8, lo: bv8): bv16 {
    ((hi as bv16) << 8) | (lo as bv16)
  }

  /** Reference divider: two fixed values, an inverted 4-bit field, or an 11-bit field. */
  function ReferenceField(b0: bv8): bv16 {
    (!((b0 as bv16) >> 2)) & 0x000f
  }

  function LongReferenceField(b0: bv8, b1: bv8): bv16 {
    (Join(b1, b0) >> 2) & 0x07ff
  }

  function DecodeReference(b0: bv8, b1: bv8): nat {
    var kind := b0 & 0x03;
    if kind == 0 then 1
    else if kind == 1 then 2
    else if kind == 2 then 2 + Nat(ReferenceField(b0))
    else 8 + Nat(LongReferenceField(b0, b1))
  }

  /** VCO divider: 11 bits from bit 13 of the word upward. */
  function VcoField(b1: bv8, b2: bv8): bv16 {
    Join(b2, b1) >> 5
  }

  function DecodeVco(b1: bv8, b2: bv8): nat {
    8 + Nat(VcoField(b1, b2))
  }

  function DecodeResistor(b11: bv8): nat {
    var field := b11 & 0x06;
    if field == 0 then 64000 else if field == 4 then 52000 else if field == 2 then 16000 else 4000
  }

  /** Charge pump current: a 3-bit field counting down in steps of 125, times a gain of 1 to 4. */
  function CurrentSteps(b11: bv8): nat {
    var field := b11 & 0x38;
    if field == 0x38 then 1 else if field == 0x30 then 2 else if field == 0x28 then 3
    else if field == 0x20 then 4 else if field == 0x18 then 5 else if field == 0x10 then 6
    else if field == 0x08 then 7 else 8
  }

  function CurrentGain(b15: bv8, b16: bv8): nat {
    if b16 & 0x01 == 0 then (if b15 & 0x80 == 0 then 1 else 2) else (if b15 & 0x80 == 0 then 3 else 4)
  }

  /** The steps are what bits 3 to 5 lack of 8. */
  lemma StepsCountDown(b11: bv8)
    ensures CurrentSteps(b11) == 8 - Nat(((b11 as bv16) >> 3) & 0x07)
  {
    assert Nat(0) == 0 && Nat(1) == 1 && Nat(2) == 2 && Nat(3) == 3 && Nat(4) == 4 && Nat(5) == 5 && Nat(6) == 6;
    assert Nat(7) == 7;
  }

  /** The gain is a number of two bits, plus one. */
  lemma GainBits(b15: bv8, b16: bv8)
    ensures CurrentGain(b15, b16) == 1 + Nat(((b15 as bv16) >> 7) & 0x01) + 2 * Nat((b16 as bv16) & 0x01)
  {
    assert Nat(0) == 0 && Nat(1) == 1;
  }

  function DecodeCurrent(b11: bv8, b15: bv8, b16: bv8): nat {
    125 * (CurrentSteps(b11) * CurrentGain(b15, b16))
  }

  /** Output divider, short form: an inverted 5-bit field. */
  function ShortOutputField(b12: bv8): bv16 {
    (!((b12 as bv16) >> 2)) & 0x001f
  }

  /** Output divider, long form: 9 bits across bytes 12 and 13. */
  function LongOutputField(b12: bv8, b13: bv8): bv16 {
    Join(b13 & 0x3f, b12) >> 5
  }

  function Scale(b12: bv8): nat {
    var field := b12 & 0x18;
    if field == 0 then 1 else if field == 0x08 then 2 else if field == 0x10 then 4 else 8
  }

  /** y is stored inverted. */
  function Parity(b12: bv8): nat {
    if b12 & 0x04 == 0 then 1 else 0
  }

  function OutputForm(b12: bv8): bv8 {
    b12 & 0x03
  }

  predicate HighBit(b11: bv8) {
    b11 & 0x80 != 0
  }

  function MiddleField(b12: bv8): bv8 {
    b12 & 0x0c
  }

  /** (2(x+3) + y) * scale. */
  function Pattern(x: nat, y: nat, scale: nat): nat {
    (2 * (x + 3) + y) * scale
  }

  function DecodeOutput(b11: bv8, b12: bv8, b13: bv8): nat {
    var form := OutputForm(b12);
    if form == 0 then
      if MiddleField(b12) == 0 then (if HighBit(b11) then 3 else 2) else (if HighBit(b11) then 6 else 4)
    else if form == 1 then
      if !HighBit(b11) then 5
      else
        var field := MiddleField(b12);
        if field == 0 then 7 else if field == 0x04 then 9 else if field == 0x08 then 11 else 13
    else if form == 2 then
      if HighBit(b11) then Pattern(Nat(LongOutputField(b12, b13)), Parity(b12), Scale(b12))
      else 6 + Nat(ShortOutputField(b12))
    else 0
  }

  function Decode(p: seq<bv8>): Setting
    requires |p| == WORD_BYTES
  {
    Setting(DecodeReference(p[0], p[1]), DecodeVco(p[1], p[2]), DecodeOutput(p[11], p[12], p[13]),
            DecodeResistor(p[11]), DecodeCurrent(p[11], p[15], p[16]))
  }
}
