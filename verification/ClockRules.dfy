/** What the search accepts, in the quantities the source computes with (lib/raw/calculate-clock-bits.c:193-196, 218-252
and 259-396), and a search worked out by hand. */
module ClockRules {
  import opened ClockWord
  import opened ClockSearch

  // The source's quantities, as real numbers.

  function DetectorHz(r: nat): real
    requires r > 0
  {
    24_000_000.0 / r as real
  }

  function VcoHz(r: nat, v: nat): real
    requires r > 0
  {
    24_000_000.0 * (v as real / r as real)
  }

  function OutputHz(r: nat, od: nat, v: nat): real
    requires r > 0 && od > 0
  {
    24_000_000.0 * (v as real / (r as real * od as real))
  }

  function Bandwidth(rs: real, icp: real, v: nat): real
    requires v > 0
  {
    rs * icp * 310_000_000.0 / (2.0 * 3.14159 * v as real)
  }

  /** In tenths, which the source rounds up even when they are whole. */
  function RoundedRatio(r: nat, v: nat, rs: real, icp: real): real
    requires r > 0 && v > 0 && Bandwidth(rs, icp, v) != 0.0
  {
    ((DetectorHz(r) / Bandwidth(rs, icp, v) * 10.0).Floor + 1) as real / 10.0
  }

  function DampingSquared(v: nat, rs: real, icp: real): real
    requires v > 0
  {
    (rs / 2.0) * (rs / 2.0) * (icp * 0.093 / v as real)
  }

  // Dividing.

  lemma QuotientAtMost(a: real, b: real, c: real)
    requires b > 0.0
    ensures a / b <= c <==> a <= c * b
  {
  }

  lemma QuotientAtLeast(a: real, b: real, c: real)
    requires b > 0.0
    ensures c <= a / b <==> c * b <= a
  {
  }

  lemma PositiveProduct(a: real, b: real)
    requires a > 0.0 && b > 0.0
    ensures a * b > 0.0
  {
  }

  lemma QuotientFloor(a: nat, b: nat)
    requires b > 0
    ensures (a as real / b as real).Floor == a / b
  {
    var q := a / b;
    assert q * b <= a < (q + 1) * b;
    QuotientAtLeast(a as real, b as real, q as real);
    assert (q as real) * (b as real) == (q * b) as real;
    assert ((q + 1) as real) * (b as real) == ((q + 1) * b) as real;
    QuotientAtLeast(a as real, b as real, (q + 1) as real);
  }

  lemma ProductOfQuotient(a: real, b: real, c: real)
    requires b != 0.0
    ensures a * (c / b) == a * c / b
  {
  }

  lemma QuotientOfQuotients(a: real, b: real, c: real, d: real)
    requires b != 0.0 && c != 0.0 && d != 0.0
    ensures c / d != 0.0 && (a / b) / (c / d) == (a * d) / (b * c)
  {
    var x, y := a / b, c / d;
    assert x * b == a && y * d == c;
    var z := x / y;
    assert z * y == x;
    assert z * (b * c) == z * (b * (y * d)) == (z * y) * (b * d) == x * (b * d) == a * d;
  }

  // Rule by rule.

  lemma ReferenceMeans(r: nat)
    requires r > 0
    ensures ReferenceRule(r) <==> 20_000.0 <= DetectorHz(r) <= 100_000_000.0
  {
    QuotientAtLeast(24_000_000.0, r as real, 20_000.0);
    QuotientAtMost(24_000_000.0, r as real, 100_000_000.0);
  }

  lemma VcoMeans(r: nat, od: nat, v: nat)
    requires r > 0
    ensures VcoRule(r, od, v) <==>
            90_000_000.0 <= VcoHz(r, v) <= if od == 2 then 540_000_000.0
                                           else if od == 3 then 720_000_000.0
                                           else if od >= 38 && od <= 1029 then 570_000_000.0
                                           else 730_000_000.0
  {
    ProductOfQuotient(24_000_000.0, r as real, v as real);
    QuotientAtLeast(24_000_000.0 * v as real, r as real, 90_000_000.0);
    QuotientAtMost(24_000_000.0 * v as real, r as real, VcoLimit(od) as real);
  }

  /** The deviation is at most so many millionths of the desired frequency. */
  predicate Deviates(desired: nat, ppm: nat, hz: real) {
    var allowed := ppm as real * desired as real / 1_000_000.0;
    -allowed <= hz - desired as real <= allowed
  }

  lemma QuotientWithin(x: real, n: real, d: real, p: real)
    requires n > 0.0
    ensures d - p <= x / n <= d + p <==> d * n - p * n <= x <= d * n + p * n
  {
    QuotientAtMost(x, n, d + p);
    QuotientAtLeast(x, n, d - p);
    Spread(d, p, n);
  }

  /** The two tests of the search, in millionths. */
  lemma WithinBounds(target: nat, output: nat, slack: nat, t: real, q: real)
    requires t == target as real && q * 1_000_000.0 == slack as real
    ensures MILLION * target - MILLION * output <= slack && MILLION * output - MILLION * target <= slack
            <==> t - q <= output as real <= t + q
  {
  }

  lemma WithinProducts(desired: nat, ppm: nat, r: nat, od: nat, v: nat)
    ensures var n, d, p := r as real * od as real, desired as real, ppm as real * desired as real / 1_000_000.0;
            WithinPpm(desired, ppm, r, od, v) <==> d * n - p * n <= (24_000_000 * v) as real <= d * n + p * n
  {
    var n, d, p := r as real * od as real, desired as real, ppm as real * desired as real / 1_000_000.0;
    ProductsAsReal(desired, ppm, r, od);
    var target := desired * (r * od);
    WithinBounds(target, 24_000_000 * v, ppm * target, d * n, p * n);
  }

  lemma OutputQuotient(r: nat, od: nat, v: nat)
    requires r > 0 && od > 0
    ensures r as real * od as real > 0.0
    ensures OutputHz(r, od, v) == (24_000_000 * v) as real / (r as real * od as real)
  {
    PositiveProduct(r as real, od as real);
    ProductOfQuotient(24_000_000.0, r as real * od as real, v as real);
  }

  lemma WithinMeans(desired: nat, ppm: nat, r: nat, od: nat, v: nat)
    requires r > 0 && od > 0
    ensures WithinPpm(desired, ppm, r, od, v) <==> Deviates(desired, ppm, OutputHz(r, od, v))
  {
    hide WithinPpm, OutputHz;
    OutputQuotient(r, od, v);
    QuotientWithin((24_000_000 * v) as real, r as real * od as real, desired as real,
                   ppm as real * desired as real / 1_000_000.0);
    WithinProducts(desired, ppm, r, od, v);
  }

  lemma ProductsAsReal(desired: nat, ppm: nat, r: nat, od: nat)
    ensures (desired * (r * od)) as real == desired as real * (r as real * od as real)
    ensures (ppm * (desired * (r * od))) as real
            == ppm as real * desired as real / 1_000_000.0 * (r as real * od as real) * 1_000_000.0
  {
    var n := r as real * od as real;
    assert (r * od) as real == n;
    assert (desired * (r * od)) as real == desired as real * n;
    assert (ppm * (desired * (r * od))) as real == ppm as real * (desired as real * n);
    assert ppm as real * (desired as real * n) == ppm as real * desired as real * n;
  }

  lemma Spread(d: real, p: real, n: real)
    ensures (d + p) * n == d * n + p * n && (d - p) * n == d * n - p * n
  {
  }

  lemma ScaledQuotient(a: real, b: real, k: real)
    requires b != 0.0 && k != 0.0
    ensures (k * a) / (k * b) == a / b
  {
    var q := a / b;
    assert q * b == a;
    assert q * (k * b) == k * (q * b) == k * a;
  }

  /** Resistors in ohms, currents in amperes. */
  function Ohms(i: nat): real
    requires i < 4
  {
    [64_000.0, 52_000.0, 16_000.0, 4_000.0][i]
  }

  function Amperes(j: nat): real
    requires j < 20
  {
    [0.00000125, 0.0000025, 0.00000375, 0.000005, 0.00000625, 0.0000075, 0.00000875, 0.00001, 0.00001125, 0.0000125,
     0.000015, 0.0000175, 0.00001875, 0.00002, 0.0000225, 0.000025, 0.00002625, 0.00003, 0.000035, 0.00004][j]
  }

  lemma TablesInUnits(i: nat, j: nat)
    requires i < 4 && j < 20
    ensures Ohms(i) == RESISTORS[i] as real > 0.0 && Amperes(j) == CURRENTS[j] as real / 100_000_000.0 > 0.0
  {
  }

  lemma BandwidthQuotient(rs: nat, icp: nat, v: nat)
    requires v > 0
    ensures 6.28318 * v as real != 0.0
    ensures Bandwidth(rs as real, icp as real / 100_000_000.0, v)
            == (rs * icp) as real * 3.1 / (6.28318 * v as real)
  {
    assert (rs * icp) as real == rs as real * icp as real;
    assert rs as real * (icp as real / 100_000_000.0) * 310_000_000.0 == rs as real * icp as real * 3.1;
  }

  lemma WholeProducts(r: nat, rs: nat, icp: nat)
    requires r > 0 && rs > 0 && icp > 0
    ensures 31 * r * rs * icp > 0 && (rs * icp) as real * 3.1 > 0.0 && r as real * ((rs * icp) as real * 3.1) > 0.0
    ensures 10.0 * (r as real * ((rs * icp) as real * 3.1)) == (31 * r * rs * icp) as real
  {
    assert 31 * r * rs * icp == 31 * (r * (rs * icp));
    assert rs * icp > 0;
    PositiveProduct(r as real, (rs * icp) as real * 3.1);
    assert (r * (rs * icp)) as real == r as real * (rs * icp) as real;
  }

  /** Ten times the ratio as a quotient of whole numbers. */
  lemma RatioQuotient(r: nat, v: nat, rs: nat, icp: nat)
    requires r > 0 && v > 0 && rs > 0 && icp > 0
    ensures 31 * r * rs * icp > 0
    ensures var b := Bandwidth(rs as real, icp as real / 100_000_000.0, v);
            && b != 0.0
            && DetectorHz(r) / b * 10.0 == (15_079_632_000 * v) as real / (31 * r * rs * icp) as real
  {
    hide Bandwidth;
    var c, d := (rs * icp) as real * 3.1, 6.28318 * v as real;
    BandwidthQuotient(rs, icp, v);
    WholeProducts(r, rs, icp);
    QuotientOfQuotients(24_000_000.0, r as real, c, d);
    TenthsOfQuotient(24_000_000.0 * d, r as real * c);
    assert 10.0 * (24_000_000.0 * d * 10.0) == (15_079_632_000 * v) as real;
  }

  lemma TenthsOfQuotient(n: real, m: real)
    requires m != 0.0
    ensures n / m * 10.0 == (10.0 * (n * 10.0)) / (10.0 * m)
  {
    ProductOfQuotient(10.0, m, n);
    ScaledQuotient(n * 10.0, m, 10.0);
  }

  lemma RatioMeans(r: nat, v: nat, i: nat, j: nat)
    requires r > 0 && v > 0 && i < 4 && j < 20
    ensures Bandwidth(Ohms(i), Amperes(j), v) != 0.0
    ensures 70 <= RatioTenths(r, v, RESISTORS[i], CURRENTS[j]) <= 300
            <==> 7.0 <= RoundedRatio(r, v, Ohms(i), Amperes(j)) <= 30.0
  {
    TablesInUnits(i, j);
    var rs, icp := RESISTORS[i], CURRENTS[j];
    assert rs > 0 && icp > 0;
    RatioQuotient(r, v, rs, icp);
    QuotientFloor(15_079_632_000 * v, 31 * r * rs * icp);
    hide Bandwidth, DetectorHz;
  }

  lemma DampingMeans(v: nat, i: nat, j: nat)
    requires v > 0 && i < 4 && j < 20
    ensures var rs, icp := RESISTORS[i], CURRENTS[j];
            16_000_000_000 * v <= 93 * (rs * rs * icp) <= 1_600_000_000_000 * v
            <==> 0.2 * 0.2 <= DampingSquared(v, Ohms(i), Amperes(j)) <= 2.0 * 2.0
  {
    TablesInUnits(i, j);
    DampingQuotient(v, RESISTORS[i], CURRENTS[j]);
    hide DampingSquared, Ohms, Amperes;
  }

  lemma DampingQuotient(v: nat, rs: nat, icp: nat)
    requires v > 0
    ensures var d := DampingSquared(v, rs as real, icp as real / 100_000_000.0);
            16_000_000_000 * v <= 93 * (rs * rs * icp) <= 1_600_000_000_000 * v <==> 0.2 * 0.2 <= d <= 2.0 * 2.0
  {
    var k, a := rs as real / 2.0 * (rs as real / 2.0), icp as real / 100_000_000.0 * 0.093;
    assert k == rs as real * rs as real / 4.0;
    assert (rs * rs) as real == rs as real * rs as real;
    assert (rs * rs * icp) as real == (rs * rs) as real * icp as real;
    assert k * a == (rs * rs) as real * icp as real * 0.093 / 400_000_000.0;
    ProductOfQuotient(k, v as real, a);
    QuotientAtLeast(k * a, v as real, 0.04);
    QuotientAtMost(k * a, v as real, 4.0);
  }

  /** A place of the search, and what the source tests there. */
  predicate Place(s: Solution) {
    && 1 <= s.r <= 1200 && 12 <= s.v <= 2055 && s.i < 4 && s.j < 20
    && (2 <= s.od <= 1030 || (s.od <= 2060 && s.od % 2 == 0) || (s.od <= 4120 && s.od % 4 == 0)
        || (s.od <= 8232 && s.od % 8 == 0))
    && 2 <= s.od
  }

  predicate Accepted(desired: nat, s: Solution)
    requires Place(s) && Bandwidth(Ohms(s.i), Amperes(s.j), s.v) != 0.0
  {
    && 20_000.0 <= DetectorHz(s.r) <= 100_000_000.0
    && 90_000_000.0 <= VcoHz(s.r, s.v) <= (if s.od == 2 then 540_000_000.0
                                           else if s.od == 3 then 720_000_000.0
                                           else if s.od >= 38 && s.od <= 1029 then 570_000_000.0
                                           else 730_000_000.0)
    && Deviates(desired, s.ppm, OutputHz(s.r, s.od, s.v))
    && 7.0 <= RoundedRatio(s.r, s.v, Ohms(s.i), Amperes(s.j)) <= 30.0
    && 0.2 * 0.2 <= DampingSquared(s.v, Ohms(s.i), Amperes(s.j)) <= 2.0 * 2.0
  }

  lemma GridIs(od: nat)
    ensures OnGrid(od) <==>
            2 <= od && (od <= 1030 || (od <= 2060 && od % 2 == 0) || (od <= 4120 && od % 4 == 0)
                        || (od <= 8232 && od % 8 == 0))
  {
    if od % 8 == 0 {
      assert od % 4 == 0 && od % 2 == 0;
    } else if od % 4 == 0 {
      assert od % 2 == 0;
    }
  }

  lemma PlaceIsInRange(s: Solution)
    ensures InRange(s) <==> Place(s)
  {
    hide OnGrid;
    GridIs(s.od);
  }

  /** The integer tests of the search decide exactly as the source's formulas do over the real numbers. */
  lemma AdmissibleMeans(desired: nat, s: Solution)
    requires InRange(s)
    ensures Place(s) && Bandwidth(Ohms(s.i), Amperes(s.j), s.v) != 0.0
    ensures Admissible(desired, s) <==> Accepted(desired, s)
  {
    PlaceIsInRange(s);
    ReferenceMeans(s.r);
    VcoMeans(s.r, s.od, s.v);
    WithinMeans(desired, s.ppm, s.r, s.od, s.v);
    RatioMeans(s.r, s.v, s.i, s.j);
    DampingMeans(s.v, s.i, s.j);
    hide ReferenceRule, VcoRule, WithinPpm, RatioTenths, DetectorHz, VcoHz, OutputHz, Deviates, RoundedRatio,
         DampingSquared, Bandwidth, Ohms, Amperes;
  }

  // A search worked out by hand: 10 MHz.

  /** The filter rule in whole numbers. The last factor of the ratio's bounds is the bandwidth's, 310 MHz in units of
  10 nA over 1000 kHz and 2 * 3.14159. */
  lemma FilterBounds(r: nat, v: nat, rs: nat, icp: nat)
    requires 0 < r && 0 < rs && 0 < icp
    ensures FilterRule(r, v, rs, icp) <==>
            && 69 * 310_000 * (r * rs * icp) <= 10 * (24_000_000 * 2 * 314_159 * v)
            && 24_000_000 * 2 * 314_159 * v < 30 * 310_000 * (r * rs * icp)
            && 16_000_000_000 * v <= 93 * (rs * rs * icp) <= 1_600_000_000_000 * v
  {
    var p := r * rs * icp;
    assert p > 0 && 31 * r * rs * icp == 31 * p;
    RatioBounds(v, p);
  }

  lemma RatioBounds(v: nat, p: nat)
    requires p > 0
    ensures 70 <= 15_079_632_000 * v / (31 * p) + 1 <= 300 <==>
            && 69 * 310_000 * p <= 10 * (24_000_000 * 2 * 314_159 * v)
            && 24_000_000 * 2 * 314_159 * v < 30 * 310_000 * p
  {
    WholeAtLeast(15_079_632_000 * v, 31 * p, 69);
    WholeAtLeast(15_079_632_000 * v, 31 * p, 300);
  }

  lemma WholeAtLeast(a: nat, b: nat, n: nat)
    requires b > 0
    ensures n <= a / b <==> n * b <= a
  {
    var q := a / b;
    assert q * b <= a < (q + 1) * b;
    if n <= q {
      assert n * b <= q * b;
    } else {
      assert (q + 1) * b <= n * b;
    }
  }

  const TEN_MEGAHERTZ: Solution := Solution(0, 2, 54, 45, 2, 15)

  lemma TenMegahertzFits()
    ensures InRange(TEN_MEGAHERTZ) && Admissible(10_000_000, TEN_MEGAHERTZ)
  {
    assert RESISTORS[2] == 16000 && CURRENTS[15] == 2500;
    FilterBounds(2, 45, 16000, 2500);
  }

  /** Without a tolerance, 12 VCO cycles make 5 output cycles. */
  lemma ExactRatio(r: nat, od: nat, v: nat)
    requires WithinPpm(10_000_000, 0, r, od, v)
    ensures 5 * (r * od) == 12 * v
  {
  }

  /** With the detector at 24 MHz, the VCO's limits leave only two settings. */
  lemma TwoWithOne(od: nat, v: nat)
    requires 12 <= v && WithinPpm(10_000_000, 0, 1, od, v) && VcoRule(1, od, v)
    ensures v == 15 || v == 20
  {
    ExactRatio(1, od, v);
    assert v <= 30;
    assert v % 5 == 0 && od % 12 == 0;
  }

  /** The loop filter fits neither: the ratio wants more current than the damping allows. */
  lemma NoFilterFor(v: nat, rs: nat, icp: nat)
    requires v == 15 || v == 20
    requires IsResistor(rs) && 0 < icp <= 4000
    ensures !FilterRule(1, v, rs, icp)
  {
    FilterBounds(1, v, rs, icp);
    hide FilterRule;
    assert 1 * rs * icp == rs * icp && rs * rs * icp == rs * (rs * icp);
  }

  lemma NothingWithOne(t: Solution)
    requires InRange(t) && t.ppm == 0 && t.r == 1
    ensures !Admissible(10_000_000, t)
  {
    TablesListTheValues();
    if WithinPpm(10_000_000, 0, 1, t.od, t.v) && VcoRule(1, t.od, t.v) {
      TwoWithOne(t.od, t.v);
      NoFilterFor(t.v, RESISTORS[t.i], CURRENTS[t.j]);
    }
  }

  /** With 12 MHz, a higher output divider needs a VCO beyond its limit. */
  lemma NothingAbove(od: nat, v: nat)
    requires od > 54 && WithinPpm(10_000_000, 0, 2, od, v)
    ensures !VcoRule(2, od, v)
  {
    ExactRatio(2, od, v);
    assert v >= 50;
  }

  lemma NoEarlierFilter(i: nat, j: nat)
    requires (i < 2 && j < 20) || (i == 2 && j < 15)
    ensures !FilterRule(2, 45, RESISTORS[i], CURRENTS[j])
  {
    FilterBounds(2, 45, RESISTORS[i], CURRENTS[j]);
    hide FilterRule;
  }

  /** For 10 MHz the search ends with the dividers 2, 54 and 45, 16 kilohms and 25 microamperes. */
  lemma TenMegahertz()
    ensures IsFirst(10_000_000, TEN_MEGAHERTZ)
  {
    TenMegahertzFits();
    forall t: Solution | InRange(t) && Before(t, TEN_MEGAHERTZ) ensures !Admissible(10_000_000, t) {
      if t.r == 1 {
        NothingWithOne(t);
      } else if t.od > 54 {
        if WithinPpm(10_000_000, 0, 2, t.od, t.v) {
          NothingAbove(t.od, t.v);
        }
      } else if WithinPpm(10_000_000, 0, 2, 54, t.v) {
        ExactRatio(2, 54, t.v);
        NoEarlierFilter(t.i, t.j);
      }
    }
  }
}
