/** Shifting the program word into the clock chip (src/port.c:982-1058): the register words the driver
writes, and a chip that shifts on rising clock edges and latches on the rising strobe. */
module ClockSerial {

  const WORD_BYTES: nat := 20
  const WORD_BITS: nat := 160
  const REGISTER_WORDS: nat := 323

  /** A value of the FCR register. */
  datatype Register = Register(value: bv32)

  // Control lines of one channel in the register.

  function StrobeMask(channel: nat): bv32 {
    if channel == 1 then 0x0800 else 0x0008
  }

  function DataMask(channel: nat): bv32 {
    if channel == 1 then 0x0100 else 0x0001
  }

  function ClockMask(channel: nat): bv32 {
    if channel == 1 then 0x0200 else 0x0002
  }

  function Masked(w: Register, mask: bv32): bv32 {
    w.value & mask
  }

  predicate High(w: Register, mask: bv32) {
    Masked(w, mask) != 0
  }

  predicate StrobeLine(w: Register, channel: nat) {
    High(w, StrobeMask(channel))
  }

  predicate DataLine(w: Register, channel: nat) {
    High(w, DataMask(channel))
  }

  predicate ClockLine(w: Register, channel: nat) {
    High(w, ClockMask(channel))
  }

  function SetLine(w: Register, mask: bv32): Register {
    Register(w.value | mask)
  }

  function ClearLine(w: Register, mask: bv32): Register {
    Register(w.value & !mask)
  }

  /** Everything in the register but the control lines of the two clock chips. */
  function Preserved(w: Register): Register {
    Register(w.value & 0xfffff0f0)
  }

  // The program word as bits.

  predicate BitOf(b: bv8, j: nat)
    requires j < 8
  {
    var m: bv8 := if j == 0 then 0x01 else if j == 1 then 0x02 else if j == 2 then 0x04 else if j == 3 then 0x08
                  else if j == 4 then 0x10 else if j == 5 then 0x20 else if j == 6 then 0x40 else 0x80;
    b & m != 0
  }

  /** The bits of a byte, bit 7 first. */
  function BitsOf(b: bv8): (bits: seq<bool>)
    ensures |bits| == 8
  {
    [BitOf(b, 7), BitOf(b, 6), BitOf(b, 5), BitOf(b, 4), BitOf(b, 3), BitOf(b, 2), BitOf(b, 1), BitOf(b, 0)]
  }

  /** The transmission: byte 19 bit 7 first, byte 0 bit 0 last. */
  function SentBits(p: seq<bv8>): (bits: seq<bool>)
    requires |p| == WORD_BYTES
    ensures |bits| == WORD_BITS
  {
    seq(WORD_BITS, n requires 0 <= n < WORD_BITS => BitsOf(p[19 - n / 8])[n % 8])
  }

  function PackBit(bit: bool, m: bv8): bv8 {
    if bit then m else 0
  }

  function Pack(bits: seq<bool>): bv8
    requires |bits| == 8
  {
    PackBit(bits[0], 0x80) | PackBit(bits[1], 0x40) | PackBit(bits[2], 0x20) | PackBit(bits[3], 0x10)
    | PackBit(bits[4], 0x08) | PackBit(bits[5], 0x04) | PackBit(bits[6], 0x02) | PackBit(bits[7], 0x01)
  }

  /** The bytes a full shift register holds; its oldest bit is bit 7 of byte 19. */
  function RegisterBytes(bits: seq<bool>): (p: seq<bv8>)
    requires |bits| == WORD_BITS
    ensures |p| == WORD_BYTES
  {
    seq(WORD_BYTES, k requires 0 <= k < WORD_BYTES => Pack(bits[8 * (19 - k)..8 * (19 - k) + 8]))
  }

  lemma PackBits(b: bv8)
    ensures Pack(BitsOf(b)) == b
  {
  }

  lemma SentBitOfByte(p: seq<bv8>, k: nat, i: nat)
    requires |p| == WORD_BYTES && k < WORD_BYTES && i < 8
    ensures SentBits(p)[8 * (19 - k) + i] == BitsOf(p[k])[i]
  {
    assert (8 * (19 - k) + i) / 8 == 19 - k && (8 * (19 - k) + i) % 8 == i;
  }

  lemma SentByte(p: seq<bv8>, k: nat)
    requires |p| == WORD_BYTES && k < WORD_BYTES
    ensures SentBits(p)[8 * (19 - k)..8 * (19 - k) + 8] == BitsOf(p[k])
  {
    var n := 8 * (19 - k);
    forall i | 0 <= i < 8 ensures SentBits(p)[n..n + 8][i] == BitsOf(p[k])[i] {
      SentBitOfByte(p, k, i);
    }
  }

  lemma PackedByte(bits: seq<bool>, k: nat)
    requires |bits| == WORD_BITS && k < WORD_BYTES
    ensures RegisterBytes(bits)[k] == Pack(bits[8 * (19 - k)..8 * (19 - k) + 8])
  {
    hide Pack;
  }

  lemma RegisterByte(p: seq<bv8>, k: nat)
    requires |p| == WORD_BYTES && k < WORD_BYTES
    ensures RegisterBytes(SentBits(p))[k] == p[k]
  {
    hide SentBits, BitsOf, Pack, RegisterBytes;
    SentByte(p, k);
    PackBits(p[k]);
    PackedByte(SentBits(p), k);
  }

  /** A register full of the sent bits holds the bytes of the program word. */
  lemma BytesOfSentBits(p: seq<bv8>)
    requires |p| == WORD_BYTES
    ensures RegisterBytes(SentBits(p)) == p
  {
    forall k | 0 <= k < WORD_BYTES ensures RegisterBytes(SentBits(p))[k] == p[k] {
      RegisterByte(p, k);
    }
  }

  // The chip.

  /** The chip sees two of its input lines' last levels, its shift register, and what the strobe latched. */
  datatype Chip = Chip(clock: bool, strobe: bool, register: seq<bool>, latched: seq<bool>)

  predicate ValidChip(c: Chip) {
    |c.register| == WORD_BITS && |c.latched| == WORD_BITS
  }

  /** One write to the FCR register: a rising clock edge shifts the data line in, a rising strobe latches. */
  function Write(c: Chip, w: Register, channel: nat): (c': Chip)
    requires ValidChip(c)
    ensures ValidChip(c')
  {
    var register := if !c.clock && ClockLine(w, channel) then c.register[1..] + [DataLine(w, channel)] else c.register;
    Chip(ClockLine(w, channel), StrobeLine(w, channel), register,
         if !c.strobe && StrobeLine(w, channel) then register else c.latched)
  }

  function WriteAll(c: Chip, words: seq<Register>, channel: nat): (c': Chip)
    requires ValidChip(c)
    ensures ValidChip(c')
  {
    if words == [] then c
    else Write(WriteAll(c, words[..|words| - 1], channel), words[|words| - 1], channel)
  }

  // The register words.

  /** The seven values a transmission is made of. */
  datatype Signals = Signals(idle: Register, rise0: Register, fall0: Register, rise1: Register, fall1: Register,
                             strobe: Register, final: Register)
  {
    /** The value that presents a bit with the clock high. */
    function Rise(bit: bool): Register {
      if bit then rise1 else rise0
    }

    function Fall(bit: bool): Register {
      if bit then fall1 else fall0
    }
  }

  function SignalsOf(fcr: Register, channel: nat): Signals {
    var idle := Preserved(fcr);
    var high := SetLine(SetLine(idle, DataMask(channel)), ClockMask(channel));
    var low := SetLine(ClearLine(idle, DataMask(channel)), ClockMask(channel));
    Signals(idle, low, ClearLine(low, ClockMask(channel)), high, ClearLine(high, ClockMask(channel)),
            ClearLine(SetLine(idle, StrobeMask(channel)), ClockMask(channel)), fcr)
  }

  /** Word m of the sequence: idle, then a rise and a fall per bit, then the strobe, then the original value. */
  function RegisterWord(bits: seq<bool>, s: Signals, m: nat): Register
    requires |bits| == WORD_BITS && m < REGISTER_WORDS
  {
    if m == 0 then s.idle
    else if m == 321 then s.strobe
    else if m == 322 then s.final
    else if m % 2 == 1 then s.Rise(bits[m / 2])
    else s.Fall(bits[m / 2 - 1])
  }

  function RegisterWords(bits: seq<bool>, s: Signals): (words: seq<Register>)
    requires |bits| == WORD_BITS
    ensures |words| == REGISTER_WORDS
  {
    seq(REGISTER_WORDS, m requires 0 <= m < REGISTER_WORDS => RegisterWord(bits, s, m))
  }

  // The same as register values, bit by bit.

  /** The bits of a byte in the order they are sent. */
  predicate SentAs(b: bv8, k: nat)
    requires k < 8
  {
    b & [0x80, 0x40, 0x20, 0x10, 0x08, 0x04, 0x02, 0x01][k] != 0
  }

  /** The lines in these bits of the register, beside what is preserved of it. */
  function Lines(fcr: Register, bits: bv32): Register {
    Register((fcr.value & 0xfffff0f0) | bits)
  }

  /** A bit with the clock high. The lines of channel 1 are eight bits above those of channel 0. */
  function RiseLines(fcr: Register, channel: nat, bit: bool): Register {
    Lines(fcr, if channel == 1 then (if bit then 0x0300 else 0x0200) else (if bit then 0x0003 else 0x0002))
  }

  /** And with the clock low. */
  function FallLines(fcr: Register, channel: nat, bit: bool): Register {
    Lines(fcr, if channel == 1 then (if bit then 0x0100 else 0x0000) else (if bit then 0x0001 else 0x0000))
  }

  function StrobeLines(fcr: Register, channel: nat): Register {
    Lines(fcr, if channel == 1 then 0x0800 else 0x0008)
  }

  /** Every bit of the word, byte 19 first, in its two words, then the strobe alone, then the register as it was. */
  predicate Transmits(words: seq<Register>, p: seq<bv8>, fcr: Register, channel: nat)
    requires |p| == WORD_BYTES
  {
    && |words| == 323 && words[0] == Lines(fcr, 0) && words[321] == StrobeLines(fcr, channel) && words[322] == fcr
    && forall n :: 0 <= n < 160 ==>
         && words[2 * n + 1] == RiseLines(fcr, channel, SentAs(p[19 - n / 8], n % 8))
         && words[2 * n + 2] == FallLines(fcr, channel, SentAs(p[19 - n / 8], n % 8))
  }

  lemma RiseValue(fcr: Register, channel: nat, bit: bool)
    ensures SignalsOf(fcr, channel).Rise(bit) == RiseLines(fcr, channel, bit)
  {
  }

  lemma FallValue(fcr: Register, channel: nat, bit: bool)
    ensures SignalsOf(fcr, channel).Fall(bit) == FallLines(fcr, channel, bit)
  {
  }

  lemma IdleValue(fcr: Register, channel: nat)
    ensures SignalsOf(fcr, channel).idle == Lines(fcr, 0)
  {
  }

  lemma StrobeValue(fcr: Register, channel: nat)
    ensures SignalsOf(fcr, channel).strobe == StrobeLines(fcr, channel)
  {
  }

  lemma BitSent(p: seq<bv8>, n: nat)
    requires |p| == WORD_BYTES && n < WORD_BITS
    ensures SentBits(p)[n] == SentAs(p[19 - n / 8], n % 8)
  {
    assert SentBits(p)[n] == BitsOf(p[19 - n / 8])[n % 8];
    hide SentBits;
    BitOfByte(p[19 - n / 8], n % 8);
  }

  lemma BitOfByte(b: bv8, k: nat)
    requires k < 8
    ensures BitsOf(b)[k] == SentAs(b, k)
  {
  }

  lemma FrameAt(bits: seq<bool>, s: Signals)
    requires |bits| == WORD_BITS
    ensures var words := RegisterWords(bits, s);
            words[0] == s.idle && words[321] == s.strobe && words[322] == s.final
  {
  }

  /** The words of the sequence have these values. */
  lemma TransmissionValues(p: seq<bv8>, fcr: Register, channel: nat)
    requires |p| == WORD_BYTES
    ensures Transmits(RegisterWords(SentBits(p), SignalsOf(fcr, channel)), p, fcr, channel)
  {
    var bits, s := SentBits(p), SignalsOf(fcr, channel);
    var words := RegisterWords(bits, s);
    assert s.final == fcr;
    hide SentBits, SignalsOf, RegisterWords, Lines, RiseLines, FallLines, StrobeLines, SentAs, Signals.Rise,
         Signals.Fall;
    IdleValue(fcr, channel);
    StrobeValue(fcr, channel);
    FrameAt(bits, s);
    forall n | 0 <= n < 160
      ensures var bit := SentAs(p[19 - n / 8], n % 8);
              words[2 * n + 1] == s.Rise(bit) && words[2 * n + 2] == s.Fall(bit)
    {
      BitSent(p, n);
      WordsOfBit(bits, s, n);
    }
    RiseValue(fcr, channel, true);
    RiseValue(fcr, channel, false);
    FallValue(fcr, channel, true);
    FallValue(fcr, channel, false);
  }

  /** The driver overrides the reference selection bit before it sends the word. */
  function SelectCrystal(p: seq<bv8>): (q: seq<bv8>)
    requires |p| == WORD_BYTES
    ensures |q| == WORD_BYTES
  {
    p[15 := p[15] | 0x04]
  }

  /** Bit j of byte i, as a position in the transmission. */
  method ReadBit(p: array<bv8>, i: nat, j: nat) returns (bit: bool)
    requires p.Length == WORD_BYTES && i < WORD_BYTES && j < 8
    ensures bit == SentBits(p[..])[8 * (19 - i) + (7 - j)]
  {
    SentBitOfByte(p[..], i, 7 - j);
    hide SentBits;
    bit := BitOf(p[i], j);
  }

  /** The words of the bits, without the frame around them. */
  predicate CarryBits(ws: seq<Register>, bits: seq<bool>, s: Signals) {
    && |ws| == REGISTER_WORDS && |bits| == WORD_BITS
    && forall n :: 0 <= n < WORD_BITS ==> ws[2 * n + 1] == s.Rise(bits[n]) && ws[2 * n + 2] == s.Fall(bits[n])
  }

  lemma WordsOfBit(bits: seq<bool>, s: Signals, n: nat)
    requires |bits| == WORD_BITS && n < WORD_BITS
    ensures RegisterWords(bits, s)[2 * n + 1] == s.Rise(bits[n])
    ensures RegisterWords(bits, s)[2 * n + 2] == s.Fall(bits[n])
  {
    assert (2 * n + 1) / 2 == n && (2 * n + 2) / 2 - 1 == n;
  }

  lemma WordsCarryBits(bits: seq<bool>, s: Signals)
    requires |bits| == WORD_BITS
    ensures CarryBits(RegisterWords(bits, s), bits, s)
  {
    forall n | 0 <= n < WORD_BITS
      ensures RegisterWords(bits, s)[2 * n + 1] == s.Rise(bits[n])
           && RegisterWords(bits, s)[2 * n + 2] == s.Fall(bits[n])
    {
      WordsOfBit(bits, s, n);
    }
  }

  lemma FrameWords(words: seq<Register>, bits: seq<bool>, s: Signals)
    requires |words| == REGISTER_WORDS && |bits| == WORD_BITS
    requires words[0] == s.idle && words[321] == s.strobe && words[322] == s.final
    requires forall m :: 1 <= m < 321 ==> words[m] == RegisterWords(bits, s)[m]
    ensures words == RegisterWords(bits, s)
  {
    assert RegisterWords(bits, s)[0] == s.idle && RegisterWords(bits, s)[321] == s.strobe;
    assert RegisterWords(bits, s)[322] == s.final;
  }

  /** One bit: set or clear the data line, then raise and lower the clock. */
  method ClockWords(fcr: Register, channel: nat, bit: bool) returns (rise: Register, fall: Register)
    ensures rise == SignalsOf(fcr, channel).Rise(bit) && fall == SignalsOf(fcr, channel).Fall(bit)
  {
    var value := Preserved(fcr);
    if bit {
      value := SetLine(value, DataMask(channel));
    } else {
      value := ClearLine(value, DataMask(channel));
    }
    value := SetLine(value, ClockMask(channel));
    rise := value;
    value := ClearLine(value, ClockMask(channel));
    fall := value;
  }

  /** The inner loop: the 16 words of byte i, from bit 7 down to bit 0. */
  method FillByte(p: array<bv8>, i: nat, fcr: Register, channel: nat, data: array<Register>, start: nat,
                  ghost ws: seq<Register>)
    requires p.Length == WORD_BYTES && data.Length == REGISTER_WORDS && i < WORD_BYTES && start == 1 + 16 * (19 - i)
    requires CarryBits(ws, SentBits(p[..]), SignalsOf(fcr, channel))
    modifies data
    ensures forall m :: 0 <= m < start ==> data[m] == old(data[m])
    ensures forall m :: start <= m < start + 16 ==> data[m] == ws[m]
  {
    var j := 7;
    var dataIndex := start;
    while j >= 0
      invariant -1 <= j <= 7 && dataIndex == start + 2 * (7 - j)
      invariant forall m :: 0 <= m < start ==> data[m] == old(data[m])
      invariant forall m :: start <= m < dataIndex ==> data[m] == ws[m]
    {
      var bit := ReadBit(p, i, j);
      var rise, fall := ClockWords(fcr, channel, bit);
      data[dataIndex] := rise;
      dataIndex := dataIndex + 1;
      data[dataIndex] := fall;
      dataIndex := dataIndex + 1;
      j := j - 1;
    }
  }

  /** The two words of every bit of every byte, from byte 19 bit 7 down to byte 0 bit 0. */
  method FillBits(p: array<bv8>, fcr: Register, channel: nat, data: array<Register>, ghost ws: seq<Register>)
    requires p.Length == WORD_BYTES && data.Length == REGISTER_WORDS
    requires CarryBits(ws, SentBits(p[..]), SignalsOf(fcr, channel))
    modifies data
    ensures data[0] == old(data[0]) && forall m :: 1 <= m < 321 ==> data[m] == ws[m]
  {
    var dataIndex := 1;
    var i := 19;
    while i >= 0
      invariant -1 <= i <= 19 && dataIndex == 1 + 16 * (19 - i) && data[0] == old(data[0])
      invariant forall m :: 1 <= m < dataIndex ==> data[m] == ws[m]
    {
      FillByte(p, i, fcr, channel, data, dataIndex, ws);
      dataIndex := dataIndex + 16;
      i := i - 1;
    }
  }

  /** Fills the 323 register words. Without memory for them, nothing is sent, but byte 15 has changed already. */
  method SetClockBits(p: array<bv8>, fcr: Register, channel: nat, memory: bool) returns (words: seq<Register>)
    requires p.Length == WORD_BYTES
    modifies p
    ensures p[..] == SelectCrystal(old(p[..]))
    ensures words == if memory then RegisterWords(SentBits(p[..]), SignalsOf(fcr, channel)) else []
    ensures memory ==> Transmits(words, p[..], fcr, channel)
  {
    p[15] := p[15] | 0x04;
    if !memory {
      return [];
    }
    var data := new Register[REGISTER_WORDS](_ => fcr);
    data[0] := Preserved(fcr);
    ghost var ws := RegisterWords(SentBits(p[..]), SignalsOf(fcr, channel));
    WordsCarryBits(SentBits(p[..]), SignalsOf(fcr, channel));
    FillBits(p, fcr, channel, data, ws);
    data[321] := ClearLine(SetLine(Preserved(fcr), StrobeMask(channel)), ClockMask(channel));
    data[322] := fcr;
    words := data[..];
    FrameWords(words, SentBits(p[..]), SignalsOf(fcr, channel));
    TransmissionValues(p[..], fcr, channel);
  }

  // What the chip makes of them.

  predicate Quiet(w: Register, channel: nat) {
    !ClockLine(w, channel) && !StrobeLine(w, channel)
  }

  /** A rise with this data level, whose fall leaves the lines quiet. */
  predicate Clocks(rise: Register, fall: Register, bit: bool, channel: nat) {
    ClocksOn(rise, fall, bit, ClockMask(channel), DataMask(channel), StrobeMask(channel))
  }

  predicate ClocksOn(rise: Register, fall: Register, bit: bool, clock: bv32, data: bv32, strobe: bv32) {
    && High(rise, clock) && !High(rise, strobe) && (High(rise, data) <==> bit)
    && !High(fall, clock) && !High(fall, strobe)
  }

  /** The line levels the chip relies on. */
  predicate DrivesLines(s: Signals, channel: nat) {
    && Quiet(s.idle, channel)
    && Clocks(s.rise0, s.fall0, false, channel)
    && Clocks(s.rise1, s.fall1, true, channel)
    && !ClockLine(s.strobe, channel) && StrobeLine(s.strobe, channel)
  }

  lemma IdleLines(fcr: Register, channel: nat)
    ensures Quiet(Preserved(fcr), channel)
  {
  }

  lemma SetKeepsOthers(w: Register, mask: bv32, other: bv32)
    requires mask & other == 0
    ensures Masked(SetLine(w, mask), other) == Masked(w, other)
  {
  }

  lemma ClearKeepsOthers(w: Register, mask: bv32, other: bv32)
    requires mask & other == 0
    ensures Masked(ClearLine(w, mask), other) == Masked(w, other)
  {
  }

  lemma SetRaises(w: Register, mask: bv32)
    requires mask != 0
    ensures High(SetLine(w, mask), mask)
  {
  }

  lemma ClearLowers(w: Register, mask: bv32)
    ensures !High(ClearLine(w, mask), mask)
  {
  }

  lemma SetLevel(w: Register, own: bv32, other: bv32)
    requires own != 0 && own & other == 0
    ensures High(SetLine(w, own), own) && (High(SetLine(w, own), other) <==> High(w, other))
  {
    SetRaises(w, own);
    SetKeepsOthers(w, own, other);
  }

  lemma ClearLevel(w: Register, own: bv32, other: bv32)
    requires own & other == 0
    ensures !High(ClearLine(w, own), own) && (High(ClearLine(w, own), other) <==> High(w, other))
  {
    ClearLowers(w, own);
    ClearKeepsOthers(w, own, other);
  }

  lemma DataApartFromStrobe(channel: nat)
    ensures DataMask(channel) & StrobeMask(channel) == 0
  {
  }

  lemma ClockApartFromData(channel: nat)
    ensures ClockMask(channel) & DataMask(channel) == 0
  {
  }

  lemma ClockApartFromStrobe(channel: nat)
    ensures ClockMask(channel) & StrobeMask(channel) == 0
  {
  }

  lemma MasksNonzero(channel: nat)
    ensures DataMask(channel) != 0 && ClockMask(channel) != 0 && StrobeMask(channel) != 0
  {
  }

  /** Raising and lowering the clock presents whatever data level the word had. */
  lemma ClockCycleOn(w: Register, bit: bool, clock: bv32, data: bv32, strobe: bv32)
    requires clock != 0 && clock & data == 0 && clock & strobe == 0
    requires High(w, data) <==> bit
    requires !High(w, strobe)
    ensures ClocksOn(SetLine(w, clock), ClearLine(SetLine(w, clock), clock), bit, clock, data, strobe)
  {
    SetLevel(w, clock, data);
    SetLevel(w, clock, strobe);
    ClearLevel(SetLine(w, clock), clock, strobe);
  }

  lemma ClockCycle(w: Register, channel: nat, bit: bool)
    requires DataLine(w, channel) <==> bit
    requires !StrobeLine(w, channel)
    ensures var rise := SetLine(w, ClockMask(channel));
            Clocks(rise, ClearLine(rise, ClockMask(channel)), bit, channel)
  {
    MasksNonzero(channel);
    ClockApartFromData(channel);
    ClockApartFromStrobe(channel);
    ClockCycleOn(w, bit, ClockMask(channel), DataMask(channel), StrobeMask(channel));
  }

  /** Setting or clearing the data line gives that data level and leaves the strobe low. */
  lemma DataLevel(idle: Register, channel: nat)
    requires Quiet(idle, channel)
    ensures var w := SetLine(idle, DataMask(channel)); DataLine(w, channel) && !StrobeLine(w, channel)
    ensures var w := ClearLine(idle, DataMask(channel)); !DataLine(w, channel) && !StrobeLine(w, channel)
  {
    MasksNonzero(channel);
    DataApartFromStrobe(channel);
    SetLevel(idle, DataMask(channel), StrobeMask(channel));
    ClearLevel(idle, DataMask(channel), StrobeMask(channel));
  }

  lemma StrobeLevel(idle: Register, channel: nat)
    ensures var w := ClearLine(SetLine(idle, StrobeMask(channel)), ClockMask(channel));
            StrobeLine(w, channel) && !ClockLine(w, channel)
  {
    MasksNonzero(channel);
    ClockApartFromStrobe(channel);
    SetRaises(idle, StrobeMask(channel));
    ClearLevel(SetLine(idle, StrobeMask(channel)), ClockMask(channel), StrobeMask(channel));
  }

  lemma SignalsDriveLines(fcr: Register, channel: nat)
    ensures DrivesLines(SignalsOf(fcr, channel), channel)
  {
    var idle := Preserved(fcr);
    IdleLines(fcr, channel);
    DataLevel(idle, channel);
    ClockCycle(SetLine(idle, DataMask(channel)), channel, true);
    ClockCycle(ClearLine(idle, DataMask(channel)), channel, false);
    StrobeLevel(idle, channel);
  }

  predicate AllPreserve(s: Signals, w: Register) {
    && Preserved(s.idle) == w && Preserved(s.rise0) == w && Preserved(s.fall0) == w && Preserved(s.rise1) == w
    && Preserved(s.fall1) == w && Preserved(s.strobe) == w && Preserved(s.final) == w
  }

  lemma PreservedLines(w: Register, mask: bv32)
    requires mask & 0xfffff0f0 == 0
    ensures Preserved(SetLine(w, mask)) == Preserved(w) && Preserved(ClearLine(w, mask)) == Preserved(w)
  {
  }

  lemma MasksAreControlLines(channel: nat)
    ensures DataMask(channel) & 0xfffff0f0 == 0 && ClockMask(channel) & 0xfffff0f0 == 0
    ensures StrobeMask(channel) & 0xfffff0f0 == 0
  {
  }

  lemma PreservedTwice(w: Register)
    ensures Preserved(Preserved(w)) == Preserved(w)
  {
  }

  lemma SignalsPreserve(fcr: Register, channel: nat)
    ensures AllPreserve(SignalsOf(fcr, channel), Preserved(fcr))
  {
    var idle, data, clock := Preserved(fcr), DataMask(channel), ClockMask(channel);
    MasksAreControlLines(channel);
    PreservedTwice(fcr);
    PreservedLines(idle, data);
    PreservedLines(SetLine(idle, data), clock);
    PreservedLines(SetLine(SetLine(idle, data), clock), clock);
    PreservedLines(ClearLine(idle, data), clock);
    PreservedLines(SetLine(ClearLine(idle, data), clock), clock);
    PreservedLines(idle, StrobeMask(channel));
    PreservedLines(SetLine(idle, StrobeMask(channel)), clock);
  }

  /** No register bit outside the control lines changes, the register ends up as it was, and the strobe is
  raised by word 321 alone. */
  lemma OtherBitsPreserved(bits: seq<bool>, fcr: Register, channel: nat, m: nat)
    requires |bits| == WORD_BITS && m < REGISTER_WORDS
    ensures var words := RegisterWords(bits, SignalsOf(fcr, channel));
            && Preserved(words[m]) == Preserved(fcr) && words[322] == fcr
            && (m < 322 ==> (StrobeLine(words[m], channel) <==> m == 321))
  {
    SignalsDriveLines(fcr, channel);
    SignalsPreserve(fcr, channel);
    WordProperties(bits, SignalsOf(fcr, channel), Preserved(fcr), channel, m);
  }

  lemma WordProperties(bits: seq<bool>, s: Signals, w: Register, channel: nat, m: nat)
    requires |bits| == WORD_BITS && m < REGISTER_WORDS && DrivesLines(s, channel) && AllPreserve(s, w)
    ensures Preserved(RegisterWord(bits, s, m)) == w
    ensures m < 322 ==> (StrobeLine(RegisterWord(bits, s, m), channel) <==> m == 321)
  {
  }

  /** A rise and a fall shift one bit in and latch nothing. */
  lemma ShiftOne(c: Chip, s: Signals, channel: nat, bit: bool)
    requires ValidChip(c) && !c.clock && !c.strobe && DrivesLines(s, channel)
    ensures Write(Write(c, s.Rise(bit), channel), s.Fall(bit), channel) == c.(register := c.register[1..] + [bit])
  {
  }

  lemma WriteAllStep(c: Chip, words: seq<Register>, k: nat, channel: nat)
    requires ValidChip(c) && k < |words|
    ensures WriteAll(c, words[..k + 1], channel) == Write(WriteAll(c, words[..k], channel), words[k], channel)
  {
    assert words[..k + 1][..k] == words[..k];
  }

  lemma NewestBits(register: seq<bool>, sent: seq<bool>, n: nat)
    requires |register| == |sent| == WORD_BITS && 0 < n <= WORD_BITS
    requires register[WORD_BITS - (n - 1)..] == sent[..n - 1]
    ensures (register[1..] + [sent[n - 1]])[WORD_BITS - n..] == sent[..n]
  {
    assert sent[..n] == sent[..n - 1] + [sent[n - 1]];
  }

  /** The shift register after n bits: both lines low, and the newest n bits are the first n sent. */
  predicate Received(c: Chip, bits: seq<bool>, n: nat)
    requires ValidChip(c) && |bits| == WORD_BITS && n <= WORD_BITS
  {
    !c.clock && !c.strobe && c.register[WORD_BITS - n..] == bits[..n]
  }

  lemma ReceiveOne(c: Chip, bits: seq<bool>, s: Signals, channel: nat, n: nat)
    requires ValidChip(c) && |bits| == WORD_BITS && 0 < n <= WORD_BITS && DrivesLines(s, channel)
    requires Received(c, bits, n - 1)
    ensures Received(Write(Write(c, s.Rise(bits[n - 1]), channel), s.Fall(bits[n - 1]), channel), bits, n)
  {
    ShiftOne(c, s, channel, bits[n - 1]);
    NewestBits(c.register, bits, n);
  }

  lemma WriteBit(c: Chip, bits: seq<bool>, s: Signals, channel: nat, n: nat)
    requires ValidChip(c) && |bits| == WORD_BITS && 0 < n <= WORD_BITS
    ensures var words := RegisterWords(bits, s);
            WriteAll(c, words[..2 * n + 1], channel)
            == Write(Write(WriteAll(c, words[..2 * n - 1], channel), s.Rise(bits[n - 1]), channel),
                     s.Fall(bits[n - 1]), channel)
  {
    hide Write, WriteAll, RegisterWords, Signals.Rise, Signals.Fall;
    var words := RegisterWords(bits, s);
    WriteAllStep(c, words, 2 * n - 1, channel);
    WriteAllStep(c, words, 2 * n, channel);
    WordsOfBit(bits, s, n - 1);
  }

  lemma {:induction false} ShiftedIn(c: Chip, bits: seq<bool>, s: Signals, channel: nat, n: nat)
    requires ValidChip(c) && |bits| == WORD_BITS && n <= WORD_BITS && DrivesLines(s, channel)
    ensures Received(WriteAll(c, RegisterWords(bits, s)[..2 * n + 1], channel), bits, n)
  {
    var words := RegisterWords(bits, s);
    if n == 0 {
      WriteAllStep(c, words, 0, channel);
    } else {
      assert 2 * (n - 1) + 1 == 2 * n - 1;
      ShiftedIn(c, bits, s, channel, n - 1);
      ReceiveOne(WriteAll(c, words[..2 * n - 1], channel), bits, s, channel, n);
      WriteBit(c, bits, s, channel, n);
    }
  }

  /** Whatever state the chip was in, it latches exactly the program word. */
  lemma ChipLatchesWord(c: Chip, p: seq<bv8>, fcr: Register, channel: nat)
    requires ValidChip(c) && |p| == WORD_BYTES
    ensures RegisterBytes(WriteAll(c, RegisterWords(SentBits(p), SignalsOf(fcr, channel)), channel).latched) == p
  {
    var s := SignalsOf(fcr, channel);
    SignalsDriveLines(fcr, channel);
    StrobeLatches(c, SentBits(p), s, channel);
    BytesOfSentBits(p);
  }

  lemma StrobeLatches(c: Chip, bits: seq<bool>, s: Signals, channel: nat)
    requires ValidChip(c) && |bits| == WORD_BITS && DrivesLines(s, channel)
    ensures WriteAll(c, RegisterWords(bits, s), channel).latched == bits
  {
    var words := RegisterWords(bits, s);
    ShiftedIn(c, bits, s, channel, WORD_BITS);
    WriteAllStep(c, words, 321, channel);
    WriteAllStep(c, words, 322, channel);
    var shifted := WriteAll(c, words[..321], channel);
    assert shifted.register[0..] == shifted.register && bits[..WORD_BITS] == bits;
    assert words[..323] == words;
  }
}
