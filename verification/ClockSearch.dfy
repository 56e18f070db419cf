/** The divider search (lib/raw/calculate-clock-bits.c:138-433), in exact arithmetic: frequencies are compared
after multiplying out the divisions, and the damping factor after squaring it. */
module ClockSearch {
  import opened ClockWord

  const INPUT_HZ: nat := 24_000_000
  const MILLION: nat := 1_000_000
  const MAX_R: nat := 1200
  const MIN_V: nat := 12
  const MAX_V: nat := 2055

  /** A place in the search: the tolerance, the three dividers, and indices into the two filter tables. */
  datatype Solution = Solution(ppm: nat, r: nat, od: nat, v: nat, i: nat, j: nat)

  // What the search accepts.

  /** The phase detector runs between 20 kHz and 100 MHz. */
  predicate ReferenceRule(r: nat) {
    20_000 * r <= INPUT_HZ <= 100_000_000 * r
  }

  /** The highest VCO frequency for an output divider, in Hz. */
  function VcoLimit(od: nat): nat {
    if od == 2 then 540_000_000
    else if od == 3 then 720_000_000
    else if 38 <= od <= 1029 then 570_000_000
    else 730_000_000
  }

  predicate VcoRule(r: nat, od: nat, v: nat) {
    90_000_000 * r <= INPUT_HZ * v <= VcoLimit(od) * r
  }

  /** The chip's output is INPUT_HZ * v / (r * od); it is within ppm millionths of the desired frequency. */
  predicate WithinPpm(desired: nat, ppm: nat, r: nat, od: nat, v: nat) {
    var target, output := desired * (r * od), INPUT_HZ * v;
    && MILLION * target - MILLION * output <= ppm * target
    && MILLION * output - MILLION * target <= ppm * target
  }

  /** Ten times the ratio of detector frequency to loop bandwidth, made an integer by the source's rounding,
  which adds one to the integer part even when nothing is cut off. The factor is 10 * 2 * 3.14159 * 24 MHz over
  310 MHz, in units of 10 nA. */
  function RatioTenths(r: nat, v: nat, rs: nat, icp: nat): nat
    requires 0 < r && 0 < rs && 0 < icp
  {
    15_079_632_000 * v / (31 * r * rs * icp) + 1
  }

  /** Ratio between 7 and 30, and damping factor rs/2 * sqrt(0.093 * icp / v) between 0.2 and 2, squared. */
  predicate FilterRule(r: nat, v: nat, rs: nat, icp: nat)
    requires 0 < r && 0 < rs && 0 < icp
  {
    && 70 <= RatioTenths(r, v, rs, icp) <= 300
    && 16_000_000_000 * v <= 93 * (rs * rs * icp) <= 1_600_000_000_000 * v
  }

  predicate InRange(s: Solution) {
    1 <= s.r <= MAX_R && OnGrid(s.od) && MIN_V <= s.v <= MAX_V && s.i < 4 && s.j < 20
  }

  predicate Admissible(desired: nat, s: Solution)
    requires InRange(s)
  {
    && ReferenceRule(s.r)
    && VcoRule(s.r, s.od, s.v)
    && WithinPpm(desired, s.ppm, s.r, s.od, s.v)
    && FilterRule(s.r, s.v, RESISTORS[s.i], CURRENTS[s.j])
  }

  // The order of the search.

  /** Strictly earlier: less tolerance, then a smaller r, a greater od, a smaller v, and earlier table entries. */
  predicate Before(s: Solution, t: Solution) {
    || s.ppm < t.ppm
    || (s.ppm == t.ppm && (
          || s.r < t.r
          || (s.r == t.r && (
                || s.od > t.od
                || (s.od == t.od && (
                      || s.v < t.v
                      || (s.v == t.v && (s.i < t.i || (s.i == t.i && s.j < t.j)))))))))
  }

  ghost predicate NoneWithFilter(desired: nat, ppm: nat, r: nat, od: nat, v: nat) {
    forall s: Solution | InRange(s) && s.ppm == ppm && s.r == r && s.od == od && s.v == v :: !Admissible(desired, s)
  }

  ghost predicate NoneWithOutput(desired: nat, ppm: nat, r: nat, od: nat) {
    forall v :: MIN_V <= v <= MAX_V ==> NoneWithFilter(desired, ppm, r, od, v)
  }

  ghost predicate NoneWithReference(desired: nat, ppm: nat, r: nat) {
    forall od: nat :: OnGrid(od) ==> NoneWithOutput(desired, ppm, r, od)
  }

  /** No admissible candidate at this tolerance. */
  ghost predicate NoneWithPpm(desired: nat, ppm: nat) {
    forall r :: 1 <= r <= MAX_R ==> NoneWithReference(desired, ppm, r)
  }

  /** The candidate is admissible and nothing earlier in the search order is. */
  ghost predicate IsFirst(desired: nat, s: Solution) {
    && InRange(s) && Admissible(desired, s)
    && forall t: Solution | InRange(t) && Before(t, s) :: !Admissible(desired, t)
  }

  // The same, level by level: nothing earlier at each depth of the loop nest.

  ghost predicate FirstFilter(s: Solution)
    requires InRange(s)
  {
    forall i, j | 0 <= i < 4 && 0 <= j < 20 && (i < s.i || (i == s.i && j < s.j)) ::
      !FilterRule(s.r, s.v, RESISTORS[i], CURRENTS[j])
  }

  ghost predicate FirstVco(desired: nat, s: Solution)
    requires InRange(s)
  {
    FirstFilter(s) && forall v :: MIN_V <= v < s.v ==> NoneWithFilter(desired, s.ppm, s.r, s.od, v)
  }

  ghost predicate FirstOutput(desired: nat, s: Solution)
    requires InRange(s)
  {
    FirstVco(desired, s) && forall od: nat :: OnGrid(od) && od > s.od ==> NoneWithOutput(desired, s.ppm, s.r, od)
  }

  ghost predicate FirstReference(desired: nat, s: Solution)
    requires InRange(s)
  {
    FirstOutput(desired, s) && forall r :: 1 <= r < s.r ==> NoneWithReference(desired, s.ppm, r)
  }

  lemma NoneWithFilterExcludes(desired: nat, t: Solution)
    requires InRange(t) && NoneWithFilter(desired, t.ppm, t.r, t.od, t.v)
    ensures !Admissible(desired, t)
  {
  }

  lemma NoneWithOutputExcludes(desired: nat, t: Solution)
    requires InRange(t) && NoneWithOutput(desired, t.ppm, t.r, t.od)
    ensures !Admissible(desired, t)
  {
    NoneWithFilterExcludes(desired, t);
  }

  lemma NoneWithReferenceExcludes(desired: nat, t: Solution)
    requires InRange(t) && NoneWithReference(desired, t.ppm, t.r)
    ensures !Admissible(desired, t)
  {
    NoneWithOutputExcludes(desired, t);
  }

  lemma NoneWithPpmExcludes(desired: nat, t: Solution)
    requires InRange(t) && NoneWithPpm(desired, t.ppm)
    ensures !Admissible(desired, t)
  {
    NoneWithReferenceExcludes(desired, t);
  }

  /** First at every depth is first in the order. */
  lemma FirstAtEveryDepth(desired: nat, s: Solution)
    requires InRange(s) && Admissible(desired, s) && FirstReference(desired, s)
    requires forall ppm :: 0 <= ppm < s.ppm ==> NoneWithPpm(desired, ppm)
    ensures IsFirst(desired, s)
  {
    forall t: Solution | InRange(t) && Before(t, s) ensures !Admissible(desired, t) {
      if t.ppm < s.ppm {
        NoneWithPpmExcludes(desired, t);
      } else if t.r < s.r {
        NoneWithReferenceExcludes(desired, t);
      } else if t.od > s.od {
        NoneWithOutputExcludes(desired, t);
      } else if t.v < s.v {
        NoneWithFilterExcludes(desired, t);
      }
    }
  }

  // The start of the VCO loop.

  /** Where the source starts v: the quotient cut off toward zero, clamped; a negative one wraps to a large unsigned. */
  function VcoStart(desired: nat, ppm: nat, r: nat, od: nat): (v: nat)
    ensures MIN_V <= v <= MAX_V
  {
    var shortfall := (MILLION - ppm) * (desired * (r * od));
    var start := if shortfall >= 0 then shortfall / (MILLION * INPUT_HZ) else -((-shortfall) / (MILLION * INPUT_HZ));
    if 0 <= start < MIN_V then MIN_V
    else if start < 0 || start > MAX_V then MAX_V
    else start
  }

  /** Starting there skips no v within tolerance, as long as the tolerance is at most 100%. */
  lemma PruningLosesNothing(desired: nat, ppm: nat, r: nat, od: nat, v: nat)
    requires ppm <= MILLION && MIN_V <= v < VcoStart(desired, ppm, r, od)
    ensures !WithinPpm(desired, ppm, r, od, v)
  {
    var target := desired * (r * od);
    var shortfall := (MILLION - ppm) * target;
    assert shortfall == MILLION * target - ppm * target;
    var q := shortfall / (MILLION * INPUT_HZ);
    assert v < q;
    assert q * (MILLION * INPUT_HZ) <= shortfall;
    assert (v + 1) * (MILLION * INPUT_HZ) <= q * (MILLION * INPUT_HZ);
  }

  /** The next output divider of the grid. */
  function NextOutput(od: nat): nat
    requires od > 1
  {
    if od <= 1030 then od - 1
    else if od <= 2060 then od - 2
    else if od <= 4120 then od - 4
    else od - 8
  }

  /** Stepping down skips no divider of the grid. */
  lemma StepsCoverGrid(od: nat, skipped: nat)
    requires OnGrid(od) && NextOutput(od) < skipped < od
    ensures !OnGrid(skipped)
  {
    if od <= 2060 {
    } else if od <= 4120 {
    } else {
    }
  }

  lemma StepsStayOnGrid(od: nat)
    requires OnGrid(od)
    ensures NextOutput(od) < od && (NextOutput(od) > 1 ==> OnGrid(NextOutput(od)))
  {
  }

  /** At 100% one candidate fits every frequency: the VCO at 96 MHz over the largest output divider. */
  lemma SomethingFits(desired: nat)
    requires 15_000 <= desired
    ensures !NoneWithPpm(desired, MILLION)
  {
    var s := Solution(MILLION, 10, 8232, 40, 3, 13);
    assert RESISTORS[3] == 4000 && CURRENTS[13] == 2000;
    assert RatioTenths(10, 40, 4000, 2000) == 244;
    assert WithinPpm(desired, MILLION, 10, 8232, 40);
    assert Admissible(desired, s);
    assert !NoneWithFilter(desired, MILLION, 10, 8232, 40);
    assert !NoneWithOutput(desired, MILLION, 10, 8232);
    assert !NoneWithReference(desired, MILLION, 10);
  }

  // The search itself, one method per level of the loop nest, from the inside out.

  /** The two table loops: the first filter that fits these dividers. */
  method SearchFilter(desired: nat, ppm: nat, r: nat, od: nat, v: nat) returns (found: bool, s: Solution)
    requires 1 <= r <= MAX_R && OnGrid(od) && MIN_V <= v <= MAX_V
    requires ReferenceRule(r) && VcoRule(r, od, v) && WithinPpm(desired, ppm, r, od, v)
    ensures found ==> InRange(s) && s.ppm == ppm && s.r == r && s.od == od && s.v == v
    ensures found ==> Admissible(desired, s) && FirstFilter(s)
    ensures !found ==> NoneWithFilter(desired, ppm, r, od, v)
  {
    TablesListTheValues();
    for i := 0 to 4
      invariant forall k, j :: 0 <= k < i && 0 <= j < 20 ==> !FilterRule(r, v, RESISTORS[k], CURRENTS[j])
    {
      for j := 0 to 20
        invariant forall m :: 0 <= m < j ==> !FilterRule(r, v, RESISTORS[i], CURRENTS[m])
      {
        if !FilterRule(r, v, RESISTORS[i], CURRENTS[j]) {
          continue;
        }
        return true, Solution(ppm, r, od, v, i, j);
      }
    }
    return false, Solution(ppm, r, od, v, 0, 0);
  }

  /** The VCO loop. */
  method SearchVco(desired: nat, ppm: nat, r: nat, od: nat) returns (found: bool, s: Solution)
    requires ppm <= MILLION && 1 <= r <= MAX_R && OnGrid(od) && ReferenceRule(r)
    ensures found ==> InRange(s) && s.ppm == ppm && s.r == r && s.od == od
    ensures found ==> Admissible(desired, s) && FirstVco(desired, s)
    ensures !found ==> NoneWithOutput(desired, ppm, r, od)
  {
    var start := VcoStart(desired, ppm, r, od);
    forall v | MIN_V <= v < start ensures NoneWithFilter(desired, ppm, r, od, v) {
      PruningLosesNothing(desired, ppm, r, od, v);
    }
    for v := start to MAX_V + 1
      invariant forall w :: MIN_V <= w < v ==> NoneWithFilter(desired, ppm, r, od, w)
    {
      if !VcoRule(r, od, v) {
        continue;
      }
      if !WithinPpm(desired, ppm, r, od, v) {
        continue;
      }
      found, s := SearchFilter(desired, ppm, r, od, v);
      if found {
        return;
      }
    }
    return false, Solution(ppm, r, od, MIN_V, 0, 0);
  }

  /** The output divider loop, downward in uneven steps. */
  method SearchOutput(desired: nat, ppm: nat, r: nat) returns (found: bool, s: Solution)
    requires ppm <= MILLION && 1 <= r <= MAX_R && ReferenceRule(r)
    ensures found ==> InRange(s) && s.ppm == ppm && s.r == r
    ensures found ==> Admissible(desired, s) && FirstOutput(desired, s)
    ensures !found ==> NoneWithReference(desired, ppm, r)
  {
    var od := 8232;
    while od > 1
      invariant od > 1 ==> OnGrid(od)
      invariant forall k: nat :: OnGrid(k) && k > od ==> NoneWithOutput(desired, ppm, r, k)
      decreases od
    {
      found, s := SearchVco(desired, ppm, r, od);
      if found {
        return;
      }
      forall k: nat | OnGrid(k) && k > NextOutput(od) ensures NoneWithOutput(desired, ppm, r, k) {
        if k < od {
          StepsCoverGrid(od, k);
        }
      }
      StepsStayOnGrid(od);
      od := NextOutput(od);
    }
    return false, Solution(ppm, r, 2, MIN_V, 0, 0);
  }

  /** The reference divider loop. */
  method SearchReference(desired: nat, ppm: nat) returns (found: bool, s: Solution)
    requires ppm <= MILLION
    ensures found ==> InRange(s) && s.ppm == ppm && Admissible(desired, s) && FirstReference(desired, s)
    ensures !found ==> NoneWithPpm(desired, ppm)
  {
    for r := 1 to MAX_R + 1
      invariant forall k :: 1 <= k < r ==> NoneWithReference(desired, ppm, k)
    {
      if !ReferenceRule(r) {
        continue;
      }
      found, s := SearchOutput(desired, ppm, r);
      if found {
        return;
      }
    }
    return false, Solution(ppm, 1, 2, MIN_V, 0, 0);
  }

  predicate Supported(desired: nat) {
    15_000 <= desired <= 270_000_000
  }

  /** The whole search: the tolerance grows by one until something fits or the requested tolerance is exceeded. */
  method Search(desired: nat, requestedPpm: nat) returns (code: nat, s: Solution)
    ensures code in {0, 1, 2}
    ensures code == 1 <==> !Supported(desired)
    ensures code == 0 ==> s.ppm <= requestedPpm && IsFirst(desired, s)
    ensures code == 2 ==> forall ppm :: 0 <= ppm <= requestedPpm ==> NoneWithPpm(desired, ppm)
  {
    s := Solution(0, 1, 2, MIN_V, 0, 0);
    if desired < 15_000 || desired > 270_000_000 {
      return 1, s;
    }
    var ppm := 0;
    while true
      invariant ppm <= requestedPpm && ppm <= MILLION
      invariant forall k :: 0 <= k < ppm ==> NoneWithPpm(desired, k)
      decreases requestedPpm - ppm
    {
      var found;
      found, s := SearchReference(desired, ppm);
      if found {
        FirstAtEveryDepth(desired, s);
        return 0, s;
      }
      if ppm == MILLION {
        SomethingFits(desired);
      }
      ppm := ppm + 1;
      if ppm > requestedPpm {
        return 2, s;
      }
    }
  }

  // What the result means.

  lemma WiderToleranceFitsMore(desired: nat, s: Solution, ppm: nat)
    requires InRange(s) && Admissible(desired, s) && s.ppm <= ppm
    ensures Admissible(desired, s.(ppm := ppm))
  {
    WiderTolerance(desired, s.ppm, ppm, s.r, s.od, s.v);
  }

  lemma WiderTolerance(desired: nat, small: nat, large: nat, r: nat, od: nat, v: nat)
    requires small <= large && WithinPpm(desired, small, r, od, v)
    ensures WithinPpm(desired, large, r, od, v)
  {
    MulMonotone(small, large, desired * (r * od));
  }

  lemma MulMonotone(a: nat, b: nat, c: nat)
    requires a <= b
    ensures a * c <= b * c
  {
  }

  /** The search fails exactly when no candidate of the grid is within the requested tolerance. */
  lemma FailureIsComplete(desired: nat, requestedPpm: nat)
    ensures (forall ppm :: 0 <= ppm <= requestedPpm ==> NoneWithPpm(desired, ppm))
       <==> forall s: Solution | InRange(s) && s.ppm == requestedPpm :: !Admissible(desired, s)
  {
    if forall ppm :: 0 <= ppm <= requestedPpm ==> NoneWithPpm(desired, ppm) {
      forall s: Solution | InRange(s) && s.ppm == requestedPpm ensures !Admissible(desired, s) {
        NoneWithPpmExcludes(desired, s);
      }
    }
    if forall s: Solution | InRange(s) && s.ppm == requestedPpm :: !Admissible(desired, s) {
      forall ppm | 0 <= ppm <= requestedPpm ensures NoneWithPpm(desired, ppm) {
        forall s: Solution | InRange(s) && s.ppm == ppm ensures !Admissible(desired, s) {
          if Admissible(desired, s) {
            WiderToleranceFitsMore(desired, s, requestedPpm);
            assert false;
          }
        }
      }
    }
  }

  /** The first solution beats every other candidate in the lexicographic order, so there is only one. */
  lemma FirstIsLeast(desired: nat, s: Solution, t: Solution)
    requires IsFirst(desired, s) && InRange(t) && Admissible(desired, t)
    ensures s == t || Before(s, t)
  {
    assert !Before(t, s);
  }

  lemma FirstIsUnique(desired: nat, s: Solution, t: Solution)
    requires IsFirst(desired, s) && IsFirst(desired, t)
    ensures s == t
  {
    FirstIsLeast(desired, s, t);
    FirstIsLeast(desired, t, s);
  }

  /** With a tolerance of 100% or more every supported frequency is found. */
  lemma HundredPercentSuffices(desired: nat, requestedPpm: nat)
    requires Supported(desired) && MILLION <= requestedPpm
    ensures !forall ppm :: 0 <= ppm <= requestedPpm ==> NoneWithPpm(desired, ppm)
  {
    SomethingFits(desired);
  }
}
