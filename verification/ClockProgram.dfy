/** From a frequency to a programmed chip: calculate_clock_bits (lib/raw/calculate-clock-bits.c:52-135), then the
register words of the driver, as examples/clock-frequency.c strings them together. */
module ClockProgram {
  import opened Words
  import opened ClockWord
  import opened ClockEncoder
  import opened ClockRules
  import opened ClockSearch
  import ClockSerial

  function SettingOf(s: Solution): Setting
    requires InRange(s)
  {
    Setting(s.r, s.v, s.od, RESISTORS[s.i], CURRENTS[s.j])
  }

  /** The setting of a search result is one the encoder can express, so codes 3 to 7 never occur. */
  lemma SolutionsEncode(s: Solution)
    requires InRange(s)
    ensures ResultCode(SettingOf(s)) == 0 && Encoded(s.od) == s.od
  {
    TablesListTheValues();
    GridRepresentable(s.od);
  }

  /** Some candidate of the grid is within the requested tolerance. */
  ghost predicate Achievable(desired: nat, ppm: nat) {
    Supported(desired) && exists s: Solution :: InRange(s) && s.ppm == ppm && Admissible(desired, s)
  }

  /** The word that the documentation gives for 10 MHz. */
  const TEN_MEGAHERTZ_WORD: seq<bv8> := [0x01, 0xa0, 0x04, 0x00, 0x00, 0x00, 0x00, 0x00, 0x00, 0x00, 0x00, 0x9a, 0x4a,
                                         0x41, 0x01, 0x84, 0x01, 0xff, 0xff, 0xff]

  /** The word that the driver starts with. */
  const DEFAULT_WORD: seq<bv8> := [0x0f, 0x61, 0xe5, 0x00, 0x00, 0x00, 0x00, 0x00, 0x00, 0x00, 0x00, 0x18, 0x16,
                                   0x40, 0x01, 0x04, 0x00, 0xff, 0xff, 0xff]

  lemma SmallWords()
    ensures Word(5) == 5 && Word(10) == 10 && Word(26) == 26 && Word(37) == 37 && Word(67) == 67
    ensures Word(1835) == 1835
  {
  }

  lemma PatternOfFiftyFour(x: nat, y: nat, scale: nat)
    requires y <= 1 && scale in {1, 2, 4, 8} && 54 == Pattern(x, y, scale)
    ensures (x == 10 && y == 1 && scale == 2) || x == 24
  {
  }

  lemma BytesOfFiftyFour()
    ensures Closed(LowShare(Word(10)) | Tag(1, 2)) == 0x4a && 0x40 | HighShare(Word(10)) == 0x41
  {
    SmallWords();
  }

  lemma OutputOfFiftyFour(b12: bv8, b13: bv8)
    requires OutputLaid(54, b12, b13)
    ensures b12 == 0x4a && b13 == 0x41
  {
    hide Closed, LowShare, HighShare, Tag, Word;
    BytesOfFiftyFour();
    assert 54 == Pattern(10, 1, 2);
    assert Matches(10, 54);
    var x: nat, y: nat, scale: nat :| x < 512 && y <= 1 && scale in {1, 2, 4, 8} && 54 == Pattern(x, y, scale)
      && (forall k :: 0 <= k < x ==> !Matches(k, 54))
      && b12 == Closed(LowShare(Word(x)) | Tag(y, scale)) && b13 == 0x40 | HighShare(Word(x));
    PatternOfFiftyFour(x, y, scale);
  }

  lemma TenMegahertzFields()
    ensures ReferenceLow(2) == 0x01 && ReferenceHigh(2) | VcoLow(45) == 0xa0 && VcoHigh(45) == 0x04
    ensures (ResistorBits(16000) | CurrentBytes(2500).0) | OutputTop(54) == 0x9a
    ensures CurrentBytes(2500).1 == 0x84 && CurrentBytes(2500).2 == 0x01
  {
    SmallWords();
  }

  /** The bytes of the setting for 10 MHz. */
  lemma TenMegahertzBytes(p: seq<bv8>)
    requires |p| == WORD_BYTES && Laid(p, Setting(2, 45, 54, 16000, 2500))
    ensures p == TEN_MEGAHERTZ_WORD
  {
    hide OutputLaid, ReferenceLow, ReferenceHigh, VcoLow, VcoHigh, ResistorBits, CurrentBytes, OutputTop, ResultCode;
    TenMegahertzFields();
    OutputOfFiftyFour(p[12], p[13]);
  }

  /** The default word is the encoding of its setting. */
  lemma DefaultBytes(p: seq<bv8>)
    requires |p| == WORD_BYTES && Laid(p, Setting(75, 1843, 32, 64000, 625))
    ensures p == DEFAULT_WORD
  {
    SmallWords();
  }

  lemma TenMegahertzAchieved(ppm: nat)
    ensures Achievable(10_000_000, ppm)
  {
    TenMegahertzFits();
    WiderToleranceFitsMore(10_000_000, TEN_MEGAHERTZ, ppm);
  }

  lemma TenMegahertzSetting(s: Solution)
    requires IsFirst(10_000_000, s)
    ensures SettingOf(s) == Setting(2, 45, 54, 16000, 2500)
  {
    TenMegahertz();
    FirstIsUnique(10_000_000, s, TEN_MEGAHERTZ);
    hide IsFirst;
    assert RESISTORS[2] == 16000 && CURRENTS[15] == 2500;
  }

  lemma SearchedIsAchievable(desired: nat, ppm: nat, s: Solution)
    requires Supported(desired) && IsFirst(desired, s) && s.ppm <= ppm
    ensures Achievable(desired, ppm)
  {
    WiderToleranceFitsMore(desired, s, ppm);
    hide Admissible;
  }

  lemma NotSearchedIsNotAchievable(desired: nat, ppm: nat)
    requires !Supported(desired) || forall k :: 0 <= k <= ppm ==> NoneWithPpm(desired, k)
    ensures !Achievable(desired, ppm)
  {
    FailureIsComplete(desired, ppm);
    hide NoneWithPpm, Admissible;
  }

  /** Encodes the solution for the caller. */
  method EncodeSolution(s: Solution, bits: array<bv8>)
    requires bits.Length == WORD_BYTES && InRange(s)
    modifies bits
    ensures Laid(bits[..], SettingOf(s)) && Decode(bits[..]) == SettingOf(s) && Template(bits[..])
  {
    SolutionsEncode(s);
    hide Laid, Decode, Template, ResultCode, Encoded, InRange, SettingOf;
    var words := new bv8[WORD_BYTES];
    var code := EncodeWord(SettingOf(s), words);
    forall k | 0 <= k < WORD_BYTES {
      bits[k] := words[k];
    }
    assert bits[..] == words[..];
  }

  /** Fails, leaving the caller's bytes alone, exactly when the frequency is not achievable. Otherwise the word is that
  of the first solution of the search, and decodes to it. For 10 MHz it is the documented one. */
  method CalculateClockBits(desired: nat, ppm: nat, bits: array<bv8>) returns (status: nat, ghost s: Solution)
    requires bits.Length == WORD_BYTES
    modifies bits
    ensures status == if Achievable(desired, ppm) then 0 else 1
    ensures status == 0 ==> s.ppm <= ppm && IsFirst(desired, s)
    ensures status == 0 ==> Laid(bits[..], SettingOf(s))
    ensures status == 0 ==> Decode(bits[..]) == SettingOf(s) && Template(bits[..])
    ensures status != 0 ==> bits[..] == old(bits[..])
    ensures desired == 10_000_000 ==> status == 0 && bits[..] == TEN_MEGAHERTZ_WORD
  {
    hide Laid, Decode, Template, Achievable, NoneWithPpm;
    var code, found := Search(desired, ppm);
    s := found;
    if code == 0 {
      SearchedIsAchievable(desired, ppm, found);
      EncodeSolution(found, bits);
      if desired == 10_000_000 {
        TenMegahertzSetting(found);
        TenMegahertzBytes(bits[..]);
      }
      return 0, s;
    }
    NotSearchedIsNotAchievable(desired, ppm);
    if desired == 10_000_000 {
      TenMegahertzAchieved(ppm);
    }
    return 1, s;
  }

  /** The chip's output with these dividers is within the tolerance, and its VCO within its limits. */
  predicate RunsAt(d: Setting, desired: nat, ppm: nat) {
    WithinPpm(desired, ppm, d.r, d.od, d.v) && VcoRule(d.r, d.od, d.v)
  }

  function LatchedSetting(c: ClockSerial.Chip): Setting
    requires ClockSerial.ValidChip(c)
  {
    Decode(ClockSerial.RegisterBytes(c.latched))
  }

  lemma CrystalBitIsSeparate(b: bv8)
    ensures (b | 0x04) & 0x80 == b & 0x80
  {
  }

  /** Selecting the crystal changes none of the five values. */
  lemma CrystalKeepsSetting(p: seq<bv8>)
    requires |p| == WORD_BYTES
    ensures Decode(ClockSerial.SelectCrystal(p)) == Decode(p)
  {
    CrystalBitIsSeparate(p[15]);
    assert CurrentGain(p[15] | 0x04, p[16]) == CurrentGain(p[15], p[16]);
  }

  /** Whatever word the driver is given, the chip ends up with its setting, whatever it was doing before. */
  lemma ChipTakesSetting(p: seq<bv8>, fcr: ClockSerial.Register, channel: nat, c: ClockSerial.Chip)
    requires |p| == WORD_BYTES && ClockSerial.ValidChip(c)
    ensures var q := ClockSerial.SelectCrystal(p);
            var words := ClockSerial.RegisterWords(ClockSerial.SentBits(q), ClockSerial.SignalsOf(fcr, channel));
            LatchedSetting(ClockSerial.WriteAll(c, words, channel)) == Decode(p)
  {
    ClockSerial.ChipLatchesWord(c, ClockSerial.SelectCrystal(p), fcr, channel);
    CrystalKeepsSetting(p);
  }

  /** The whole pipeline: a zero status means that the chip, once the words are written, runs within the requested
  tolerance of the desired frequency. */
  method SetClockFrequency(desired: nat, ppm: nat, fcr: ClockSerial.Register, channel: nat, memory: bool,
                           chip: ClockSerial.Chip) returns (status: nat, chip': ClockSerial.Chip)
    requires ClockSerial.ValidChip(chip)
    ensures ClockSerial.ValidChip(chip')
    ensures status == 0 <==> Achievable(desired, ppm)
    ensures status == 0 && memory ==> RunsAt(LatchedSetting(chip'), desired, ppm)
    ensures !memory ==> chip' == chip
  {
    var bits := new bv8[WORD_BYTES];
    ghost var s;
    status, s := CalculateClockBits(desired, ppm, bits);
    ghost var p := bits[..];
    var words := ClockSerial.SetClockBits(bits, fcr, channel, memory);
    chip' := ClockSerial.WriteAll(chip, words, channel);
    ChipTakesSetting(p, fcr, channel, chip);
    if status == 0 {
      WiderToleranceFitsMore(desired, s, ppm);
    }
  }

  /** The frequency of a setting is exactly this many Hz. */
  predicate Frequency(d: Setting, hz: nat) {
    INPUT_HZ * d.v == hz * (d.r * d.od)
  }

  lemma SmallNumbers()
    ensures Nat(10) == 10 && Nat(26) == 26 && Nat(37) == 37 && Nat(67) == 67 && Nat(1835) == 1835
  {
    SmallWords();
    NatOfWord(10);
    NatOfWord(26);
    NatOfWord(37);
    NatOfWord(67);
    NatOfWord(1835);
  }

  lemma DocumentedFields()
    ensures VcoField(0xa0, 0x04) == 37 && LongOutputField(0x4a, 0x41) == 10
    ensures VcoField(0x61, 0xe5) == 1835 && LongReferenceField(0x0f, 0x61) == 67 && ShortOutputField(0x16) == 26
  {
  }

  lemma DocumentedDividers()
    ensures DecodeReference(0x01, 0xa0) == 2 && DecodeVco(0xa0, 0x04) == 45
    ensures DecodeOutput(0x9a, 0x4a, 0x41) == 54
    ensures DecodeReference(0x0f, 0x61) == 75 && DecodeVco(0x61, 0xe5) == 1843
    ensures DecodeOutput(0x18, 0x16, 0x40) == 32
  {
    SmallNumbers();
    DocumentedFields();
  }

  lemma DocumentedFilters()
    ensures DecodeResistor(0x9a) == 16000 && DecodeCurrent(0x9a, 0x84, 0x01) == 2500
    ensures DecodeResistor(0x18) == 64000 && DecodeCurrent(0x18, 0x04, 0x00) == 625
  {
  }

  /** The documented word is exactly 10 MHz, and its loop filter meets the rule. */
  lemma DocumentedWord()
    ensures Decode(TEN_MEGAHERTZ_WORD) == Setting(2, 45, 54, 16000, 2500)
    ensures Frequency(Decode(TEN_MEGAHERTZ_WORD), 10_000_000) && FilterRule(2, 45, 16000, 2500)
  {
    hide DecodeReference, DecodeVco, DecodeOutput, DecodeResistor, DecodeCurrent, FilterRule;
    DocumentedDividers();
    DocumentedFilters();
    FilterBounds(2, 45, 16000, 2500);
  }

  /** The word the driver starts with, commented as 18.432 MHz, is 18.430 MHz. */
  lemma DefaultWord()
    ensures Decode(DEFAULT_WORD) == Setting(75, 1843, 32, 64000, 625)
    ensures Frequency(Decode(DEFAULT_WORD), 18_430_000)
  {
    hide DecodeReference, DecodeVco, DecodeOutput, DecodeResistor, DecodeCurrent;
    DocumentedDividers();
    DocumentedFilters();
  }
}
