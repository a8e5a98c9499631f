// Amounts in floating point: the client funds the rounded float sum of the
// milestones, the backend releases each milestone rounded on its own.

module Rounding {
  import opened Sums

  /** One unit of the token is this many stroops. */
  const SCALE := 10_000_000.0

  const LIMIT := 2251799813685248  // 2^51

  function Abs(x: real): real {
    if x < 0.0 then -x else x
  }

  /**
   * Any rounding with a relative error of at most 2^-53, as the round-to-nearest ones of
   * IEEE 754-2019, section 4.3.1, have at zero and well inside the normal range.
   */
  ghost predicate Rounds(fl: real -> real) {
    forall x :: x == 0.0 || 0.00000001 <= x <= 10000000000000000.0 ==>
      Abs(fl(x) - x) * 9007199254740992.0 <= x
  }

  /** The exact values rounded here: nothing, or from one stroop to the largest total. */
  predicate InRange(exact: real) {
    exact == 0.0 || 0.0000001 <= exact <= 4000000000000000.0
  }

  /** `Math.round`. */
  function Round(x: real): int {
    (x + 0.5).Floor
  }

  /** The decimal with this many stroops. */
  function Decimal(stroops: int): real {
    stroops as real / SCALE
  }

  /** The float read from it. */
  function Parse(fl: real -> real, stroops: int): real {
    fl(Decimal(stroops))
  }

  function ToStroops(fl: real -> real, x: real): int {
    Round(fl(x * SCALE))
  }

  /** What the backend asks the chain to release for one milestone. */
  function ReleaseStroops(fl: real -> real, stroops: int): int {
    ToStroops(fl, Parse(fl, stroops))
  }

  /** The float sum of the milestones, added up from zero. */
  function FloatSum(fl: real -> real, amounts: seq<int>): real {
    if amounts == [] then 0.0
    else fl(FloatSum(fl, amounts[..|amounts| - 1]) + Parse(fl, amounts[|amounts| - 1]))
  }

  /** What the funding transaction locks. */
  function FundStroops(fl: real -> real, amounts: seq<int>): int {
    ToStroops(fl, FloatSum(fl, amounts))
  }

  /** `x` is `exact` up to a relative error of `units` times 2^-53. */
  predicate Near(x: real, exact: real, units: real) {
    Abs(x - exact) * 9007199254740992.0 <= units * exact
  }

  lemma Scaled(a: real, b: real, c: real)
    requires a <= b && c >= 0.0
    ensures a * c <= b * c
  {
  }

  lemma Distribute(a: real, b: real, c: real)
    ensures (a + b) * c == a * c + b * c
    ensures c * (a + b) == c * a + c * b
  {
  }

  lemma NearQuarter(x: real, exact: real, units: real)
    requires exact >= 0.0 && Near(x, exact, units) && units <= 2251799813685248.0
    ensures 0.75 * exact <= x <= 1.25 * exact
  {
    Scaled(units, 2251799813685248.0, exact);
  }

  lemma AddError(y: real, x: real, exact: real, error: real)
    requires Abs(x - exact) * 9007199254740992.0 <= error
    requires x <= 1.25 * exact
    requires Abs(y - x) * 9007199254740992.0 <= x
    ensures Abs(y - exact) * 9007199254740992.0 <= error + 1.25 * exact
  {
  }

  lemma Grow(y: real, exact: real, units: real, error: real)
    requires error == units * exact
    requires Abs(y - exact) * 9007199254740992.0 <= error + 1.25 * exact
    ensures Near(y, exact, units + 1.25)
  {
    Distribute(units, 1.25, exact);
  }

  lemma RoundsAt(fl: real -> real, x: real)
    requires Rounds(fl) && (x == 0.0 || 0.00000001 <= x <= 10000000000000000.0)
    ensures Abs(fl(x) - x) * 9007199254740992.0 <= x
  {
  }

  /** One more rounding of something near; the extra quarter pays for the second-order terms. */
  lemma RoundOnce(fl: real -> real, x: real, exact: real, units: real)
    requires Rounds(fl) && InRange(exact) && Near(x, exact, units) && units <= 2251799813685248.0
    ensures Near(fl(x), exact, units + 1.25)
  {
    NearQuarter(x, exact, units);
    RoundsAt(fl, x);
    AddError(fl(x), x, exact, units * exact);
    Grow(fl(x), exact, units, units * exact);
  }

  lemma ParseNear(fl: real -> real, stroops: nat)
    requires Rounds(fl) && stroops < LIMIT
    ensures Near(Parse(fl, stroops), Decimal(stroops), 1.25)
  {
    DecimalFacts(stroops, 0);
    RoundOnce(fl, Decimal(stroops), Decimal(stroops), 0.0);
  }

  lemma DecimalFacts(a: nat, b: nat)
    requires a + b < LIMIT
    ensures InRange(Decimal(a)) && InRange(a as real) && Decimal(a) >= 0.0
    ensures Decimal(a) * SCALE == a as real
    ensures Decimal(a) + Decimal(b) == Decimal(a + b)
  {
  }

  lemma NearScaled(x: real, exact: real, units: real)
    requires Near(x, exact, units)
    ensures Near(x * SCALE, exact * SCALE, units)
  {
    assert units * (exact * SCALE) == units * exact * SCALE;
  }

  lemma NearSum(x: real, xe: real, y: real, ye: real, units: real)
    requires Near(x, xe, units) && Near(y, ye, units)
    ensures Near(x + y, xe + ye, units)
  {
    Distribute(xe, ye, units);
  }

  lemma NearWeaken(x: real, exact: real, tight: real, loose: real)
    requires tight <= loose && exact >= 0.0 && Near(x, exact, tight)
    ensures Near(x, exact, loose)
  {
    Scaled(tight, loose, exact);
  }

  ghost predicate AllPositive(amounts: seq<int>) {
    forall i :: 0 <= i < |amounts| ==> 0 < amounts[i]
  }

  lemma {:induction false} SumAtLeastLength(amounts: seq<int>)
    requires AllPositive(amounts)
    ensures |amounts| <= Sum(amounts)
  {
    if amounts != [] {
      SumAtLeastLength(amounts[..|amounts| - 1]);
    }
  }

  /** One step of the float sum. */
  lemma AddNear(fl: real -> real, x: real, xe: real, y: real, ye: real, units: real)
    requires Rounds(fl) && InRange(xe + ye) && xe >= 0.0 && ye >= 0.0 && 1.25 <= units <= 2251799813685248.0
    requires Near(x, xe, units) && Near(y, ye, 1.25)
    ensures Near(fl(x + y), xe + ye, units + 1.25)
  {
    NearWeaken(y, ye, 1.25, units);
    NearSum(x, xe, y, ye, units);
    RoundOnce(fl, x + y, xe + ye, units);
  }

  /** The error budget of `k` roundings. */
  function Units(k: nat): real {
    k as real * 1.25
  }

  lemma UnitsStep(k: nat)
    ensures Units(k + 1) == Units(k) + 1.25 >= 1.25
  {
  }

  lemma NearZero(units: real)
    ensures Near(0.0, Decimal(0), units)
  {
  }

  lemma {:induction false} SumNear(fl: real -> real, amounts: seq<int>)
    requires Rounds(fl) && AllPositive(amounts)
    requires Units(|amounts|) <= 2251799813685248.0 && Sum(amounts) < LIMIT
    ensures 0 <= Sum(amounts)
    ensures Near(FloatSum(fl, amounts), Decimal(Sum(amounts)), Units(|amounts| + 1))
  {
    hide Near, Decimal, Units, Parse, InRange;
    UnitsStep(0);
    UnitsStep(|amounts|);
    if amounts == [] {
      NearZero(Units(1));
    } else {
      var (front, last) := (amounts[..|amounts| - 1], amounts[|amounts| - 1]);
      UnitsStep(|front|);
      SumAtLeastLength(front);
      SumNear(fl, front);
      ParseNear(fl, last);
      DecimalFacts(Sum(front), last);
      DecimalFacts(last, 0);
      DecimalFacts(Sum(amounts), 0);
      AddNear(fl, FloatSum(fl, front), Decimal(Sum(front)), Parse(fl, last), Decimal(last), Units(|amounts|));
    }
  }

  /** The error of `units` on a whole number of stroops. */
  function Slack(units: real, s: nat): real {
    units * s as real
  }

  lemma WithinHalf(x: real, s: nat, units: real)
    requires Near(x, s as real, units) && Slack(units, s) < 4503599627370496.0
    ensures Round(x) == s
  {
    assert Abs(x - s as real) < 0.5;
  }

  /** Scaling something near to stroops and rounding it finds the whole number. */
  lemma StroopsExact(fl: real -> real, x: real, s: nat, k: nat)
    requires Rounds(fl) && s < LIMIT && Units(k) <= 2251799813685248.0 && Near(x, Decimal(s), Units(k))
    requires Slack(Units(k + 1), s) < 4503599627370496.0
    ensures ToStroops(fl, x) == s
  {
    hide Near, Decimal, Units, Slack, InRange;
    UnitsStep(k);
    NearScaled(x, Decimal(s), Units(k));
    DecimalFacts(s, 0);
    RoundOnce(fl, x * SCALE, s as real, Units(k));
    WithinHalf(fl(x * SCALE), s, Units(k + 1));
  }

  /** A milestone's own rounding is exact below 2^50 stroops. */
  lemma ReleaseExact(fl: real -> real, stroops: nat)
    requires Rounds(fl) && 2 * stroops < LIMIT
    ensures ReleaseStroops(fl, stroops) == stroops
  {
    ParseNear(fl, stroops);
    StroopsExact(fl, Parse(fl, stroops), stroops, 1);
  }

  /** The roundings of a sum of `k` terms worth `s` in all stay below half a stroop. */
  lemma FewUnits(k: nat, s: nat)
    requires (k + 1) * s < LIMIT && 0 < k <= s
    ensures Units(k + 1) <= 2251799813685248.0
    ensures Slack(Units(k + 2), s) < 4503599627370496.0
  {
    ProductAtLeast(k + 1, 2, s);
    if k > 1 {
      ProductAtLeast(s, 2, k + 1);
    }
    RealProduct(k, s);
  }

  lemma ProductAtLeast(a: nat, least: nat, b: nat)
    requires least <= a
    ensures least * b <= a * b
  {
  }

  lemma RealProduct(k: nat, s: nat)
    ensures Slack(Units(k + 2), s) == ((k + 1) * s) as real * 1.25 + s as real * 1.25
  {
    assert ((k + 1) * s) as real == (k as real + 1.0) * s as real;
  }

  /**
   * Double rounding: for milestones worth S stroops with (n + 1) * S < 2^51, what
   * the client funds is exactly the sum of what the backend releases one by one.
   */
  lemma FundingCoversReleases(fl: real -> real, amounts: seq<int>)
    requires Rounds(fl) && AllPositive(amounts)
    requires (|amounts| + 1) * Sum(amounts) < LIMIT
    ensures FundStroops(fl, amounts) == Sum(amounts)
    ensures forall i :: 0 <= i < |amounts| ==> ReleaseStroops(fl, amounts[i]) == amounts[i]
  {
    hide Near, Decimal, Units, Slack, InRange;
    if amounts == [] {
      RoundsAt(fl, 0.0);
    } else {
      SumAtLeastLength(amounts);
      FewUnits(|amounts|, Sum(amounts));
      UnitsStep(|amounts|);
      SumNear(fl, amounts);
      StroopsExact(fl, FloatSum(fl, amounts), Sum(amounts), |amounts| + 1);
      forall i | 0 <= i < |amounts|
        ensures ReleaseStroops(fl, amounts[i]) == amounts[i]
      {
        SumBounds(amounts, i);
        ProductAtLeast(|amounts| + 1, 2, Sum(amounts));
        ReleaseExact(fl, amounts[i]);
      }
    }
  }

  lemma {:induction false} SumBounds(amounts: seq<int>, i: nat)
    requires AllPositive(amounts) && i < |amounts|
    ensures amounts[i] <= Sum(amounts)
  {
    var front := amounts[..|amounts| - 1];
    SumAtLeastLength(front);
    if i < |front| {
      SumBounds(front, i);
    }
  }

  // ---- the bound cannot simply be dropped ----

  /** A rounding that always errs upwards, by as much as it may. */
  function Upward(x: real): real {
    x + x / 9007199254740992.0
  }

  const FAR := 1_600_000_000_000_000  // 160 million units: twice this is beyond 2^51

  /** One milestone beyond the bound: it is released to the stroop, and funded with one stroop too many. */
  lemma FundingOvershoots()
    ensures Rounds(Upward)
    ensures ReleaseStroops(Upward, FAR) == FAR
    ensures FundStroops(Upward, [FAR]) == FAR + 1
  {
    var once := Upward(160000000.0);
    assert Parse(Upward, FAR) == once;
    assert FloatSum(Upward, [FAR]) == Upward(0.0 + once) by { assert FloatSum(Upward, []) == 0.0; }
  }
}
