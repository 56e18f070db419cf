/** Machine words and the natural numbers they stand for.

The clock search computes with numbers, the program-word encoder with C integers whose bits it
picks apart. `Word` and `Nat` convert between the two through binary digits, so that no proof has to
mix integer and bit-vector reasoning. Every number that crosses the boundary is below 2^16. */
module Words {

  const WORD_LIMIT: nat := 0x1_0000

  /** Shifts one binary digit into the low end of a word. */
  function Double(x: bv16, bit: bool): bv16 {
    (x << 1) | (if bit then 1 else 0)
  }

  function Half(w: bv16): (h: bv16)
    ensures w != 0 ==> h < w
  {
    w >> 1
  }

  predicate Odd(w: bv16) {
    w & 1 == 1
  }

  /** The word with the binary digits of n. */
  function Word(n: nat): bv16 {
    if n == 0 then 0 else Double(Word(n / 2), n % 2 == 1)
  }

  /** The number a word stands for. */
  function Nat(w: bv16): nat
    decreases w
  {
    if w == 0 then 0 else 2 * Nat(Half(w)) + (if Odd(w) then 1 else 0)
  }

  lemma HalfDouble(x: bv16, bit: bool)
    requires x < 0x8000
    ensures Half(Double(x, bit)) == x && Odd(Double(x, bit)) == bit
    ensures Double(x, bit) == 0 <==> x == 0 && !bit
  {
  }

  /** Words with n's high digit clear stay below the half: one binary digit of headroom per doubling. */
  lemma {:induction false} WordBound(n: nat)
    ensures n < 0x8000 ==> Word(n) < 0x8000
    ensures n < 0x4000 ==> Word(n) < 0x4000
    ensures n < 0x2000 ==> Word(n) < 0x2000
    ensures n < 0x1000 ==> Word(n) < 0x1000
    ensures n < 0x800 ==> Word(n) < 0x800
    ensures n < 0x400 ==> Word(n) < 0x400
    ensures n < 0x200 ==> Word(n) < 0x200
    ensures n < 0x100 ==> Word(n) < 0x100
    ensures n < 0x80 ==> Word(n) < 0x80
    ensures n < 0x40 ==> Word(n) < 0x40
    ensures n < 0x20 ==> Word(n) < 0x20
    ensures n < 0x10 ==> Word(n) < 0x10
    ensures n < 8 ==> Word(n) < 8
    ensures n < 4 ==> Word(n) < 4
    ensures n < 2 ==> Word(n) < 2
    decreases n
  {
    if n != 0 {
      WordBound(n / 2);
    }
  }

  lemma Headroom(n: nat)
    requires n < 0x8000
    ensures Word(n) < 0x8000
  {
    WordBound(n);
  }

  /** A number survives the trip through a word. */
  lemma {:induction false} NatOfWord(n: nat)
    requires n < WORD_LIMIT
    ensures Nat(Word(n)) == n
  {
    if n != 0 {
      Headroom(n / 2);
      NatOfWord(n / 2);
      HalfDouble(Word(n / 2), n % 2 == 1);
    }
  }

  /** k binary digits, all ones. */
  function Ones(k: nat): nat {
    if k == 0 then 0 else 2 * Ones(k - 1) + 1
  }

  lemma DoubleNothing()
    ensures Double(0, false) == 0
  {
  }

  lemma WordOfDouble(n: nat, bit: bool)
    ensures Word(2 * n + if bit then 1 else 0) == Double(Word(n), bit)
  {
    DoubleNothing();
    var m := 2 * n + if bit then 1 else 0;
    assert m / 2 == n && (m % 2 == 1 <==> bit);
    hide Double;
  }

  function Complement(w: bv16, mask: bv16): bv16 {
    w ^ mask
  }

  lemma ComplementNothing()
    ensures Complement(0, 0) == 0
  {
  }

  lemma ComplementOne(x: bv16, mask: bv16)
    ensures Double(Complement(x, mask), false) == Complement(Double(x, true), Double(mask, true))
  {
  }

  lemma ComplementZero(x: bv16, mask: bv16)
    ensures Double(Complement(x, mask), true) == Complement(Double(x, false), Double(mask, true))
  {
  }

  /** Counting down from all ones is taking the complement. */
  lemma {:induction false} CountedDown(n: nat, k: nat)
    requires n <= Ones(k)
    ensures Word(Ones(k) - n) == Complement(Word(n), Word(Ones(k)))
  {
    hide Double, Complement;
    if k == 0 {
      ComplementNothing();
    } else {
      var m, bit, ones := n / 2, n % 2 == 1, Ones(k - 1);
      assert Ones(k) == 2 * ones + 1;
      hide Ones, Word;
      CountedDown(m, k - 1);
      WordOfDouble(m, bit);
      WordOfDouble(ones, true);
      WordOfDouble(ones - m, !bit);
      if bit {
        ComplementOne(Word(m), Word(ones));
      } else {
        ComplementZero(Word(m), Word(ones));
      }
    }
  }
}
