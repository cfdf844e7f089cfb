/**
  The graduated tariff of section 48 EEG: each kilowatt-peak earns the rate of the tier its
  position falls into, and a plant earns the average over its size. Rounding is left out.
 */
module TierTariff {
  import opened Wrappers
  import opened Reals

  /** Up to `upToKwp` the rate is `ctKwh`; the last tier also covers everything above. */
  datatype Tier = Tier(upToKwp: real, ctKwh: real)

  /** What a width of positions earns at one rate. */
  function Area(width: real, rate: real): real { width * rate }

  /** Tiers in ascending order from `from` on. */
  ghost predicate Ascending(tiers: seq<Tier>, from: real) {
    && tiers != []
    && (forall i :: 0 <= i < |tiers| ==> from <= tiers[i].upToKwp)
    && (forall i, j :: 0 <= i < j < |tiers| ==> tiers[i].upToKwp <= tiers[j].upToKwp)
  }

  /** The rate at position `x`: that of the first tier reaching to it. */
  function Rate(tiers: seq<Tier>, x: real): real
    requires tiers != []
  {
    if |tiers| == 1 || x <= tiers[0].upToKwp then tiers[0].ctKwh else Rate(tiers[1..], x)
  }

  /** The specification: what the positions from `from` to `k` earn together. */
  function Earned(tiers: seq<Tier>, from: real, k: real): real
    requires tiers != []
  {
    if |tiers| == 1 || k <= tiers[0].upToKwp then Area(k - from, tiers[0].ctKwh)
    else Area(tiers[0].upToKwp - from, tiers[0].ctKwh) + Earned(tiers[1..], tiers[0].upToKwp, k)
  }

  method WeightedSum(tiers: seq<Tier>, kwp: real) returns (sum: real)
    requires Ascending(tiers, 0.0) && kwp > 0.0
    ensures sum == Earned(tiers, 0.0, kwp)
  {
    hide Area;
    sum := 0.0;
    var prevUpTo := 0.0;
    var i := 0;
    while i < |tiers|
      invariant 0 <= i <= |tiers| && (i == 0 ==> prevUpTo == 0.0) && (i > 0 ==> prevUpTo == tiers[i - 1].upToKwp)
      invariant 0.0 <= prevUpTo < kwp
      invariant i < |tiers| ==> sum + Earned(tiers[i..], prevUpTo, kwp) == Earned(tiers, 0.0, kwp)
      invariant i == |tiers| ==> sum + Area(kwp - prevUpTo, tiers[i - 1].ctKwh) == Earned(tiers, 0.0, kwp)
    {
      var tier := tiers[i];
      var share := Max(0.0, Min(kwp, tier.upToKwp) - prevUpTo);
      assert share == Min(kwp, tier.upToKwp) - prevUpTo;
      if i + 1 < |tiers| {
        assert tiers[i..][1..] == tiers[i + 1..];
      } else {
        AreaSplits(tier.ctKwh, prevUpTo, Min(kwp, tier.upToKwp), kwp);
      }
      sum := sum + Area(share, tier.ctKwh);
      if kwp <= tier.upToKwp { return; }
      prevUpTo := tier.upToKwp;
      i := i + 1;
    }
    if kwp > prevUpTo {
      sum := sum + Area(kwp - prevUpTo, tiers[|tiers| - 1].ctKwh);
    }
  }

  lemma AreaSplits(rate: real, a: real, b: real, c: real)
    ensures Area(c - a, rate) == Area(b - a, rate) + Area(c - b, rate) && Area(0.0, rate) == 0.0
  {
  }

  /** Without tiers for the month, or without a size, there is no value. */
  method SelectApplicableValueCtKwh(tiers: seq<Tier>, kwp: real) returns (average: Option<real>)
    requires tiers == [] || Ascending(tiers, 0.0)
    ensures average.None? <==> tiers == [] || kwp <= 0.0
    ensures average.Some? ==> Area(kwp, average.value) == Earned(tiers, 0.0, kwp)
  {
    if |tiers| == 0 { return None; }
    if kwp <= 0.0 { return None; }
    var sum := WeightedSum(tiers, kwp);
    average := Some(sum / kwp);
  }

  // ---- The sum is the integral of the rate -------------------------------------------------

  /**
    Between two neighbouring tier bounds the sum grows with the rate there. Together with a sum
    of zero at the start this is what makes it the integral of the rate.
   */
  lemma {:induction false} GrowsWithTheRate(tiers: seq<Tier>, from: real, a: real, b: real)
    requires Ascending(tiers, from) && from <= a <= b
    requires forall t :: t in tiers ==> !(a < t.upToKwp < b)
    ensures Earned(tiers, from, b) - Earned(tiers, from, a) == Area(b - a, Rate(tiers, b))
    ensures Earned(tiers, from, from) == 0.0
  {
    hide Area;
    assert tiers[0] in tiers;
    var top, rate := tiers[0].upToKwp, tiers[0].ctKwh;
    AreaSplits(rate, from, from, from);
    if |tiers| == 1 || b <= top {
      AreaSplits(rate, from, a, b);
    } else {
      assert a >= top;
      GrowsWithTheRate(tiers[1..], top, a, b);
      if a == top { AreaSplits(rate, from, top, a); }
    }
  }

  /** The average lies between the smallest and the largest rate. */
  lemma {:induction false} SumWithinRates(tiers: seq<Tier>, from: real, k: real, lo: real, hi: real)
    requires Ascending(tiers, from) && from <= k
    requires forall t :: t in tiers ==> lo <= t.ctKwh <= hi
    ensures Area(k - from, lo) <= Earned(tiers, from, k) <= Area(k - from, hi)
  {
    hide Area;
    assert tiers[0] in tiers;
    var top, rate := tiers[0].upToKwp, tiers[0].ctKwh;
    if |tiers| == 1 || k <= top {
      Scaled(k - from, lo, rate);
      Scaled(k - from, rate, hi);
    } else {
      SumWithinRates(tiers[1..], top, k, lo, hi);
      Scaled(top - from, lo, rate);
      Scaled(top - from, rate, hi);
      AreaSplits(lo, from, top, k);
      AreaSplits(hi, from, top, k);
    }
  }

  lemma Scaled(x: real, y: real, z: real)
    requires x >= 0.0 && y <= z
    ensures Area(x, y) <= Area(x, z) && Area(x, 0.0) == 0.0
  {
  }

  lemma AverageWithinRates(tiers: seq<Tier>, kwp: real, average: real, lo: real, hi: real)
    requires Ascending(tiers, 0.0) && kwp > 0.0 && Area(kwp, average) == Earned(tiers, 0.0, kwp)
    requires forall t :: t in tiers ==> lo <= t.ctKwh <= hi
    ensures lo <= average <= hi
  {
    hide Area;
    SumWithinRates(tiers, 0.0, kwp, lo, hi);
    if average < lo { Strictly(kwp, average, lo); }
    if average > hi { Strictly(kwp, hi, average); }
  }

  lemma Strictly(x: real, y: real, z: real)
    requires x > 0.0 && y < z
    ensures Area(x, y) < Area(x, z)
  {
  }

  // ---- Falling rates -----------------------------------------------------------------------

  ghost predicate Falling(tiers: seq<Tier>) {
    forall i, j :: 0 <= i < j < |tiers| ==> tiers[i].ctKwh >= tiers[j].ctKwh
  }

  lemma {:induction false} RateAmong(tiers: seq<Tier>, x: real)
    requires tiers != []
    ensures exists i :: 0 <= i < |tiers| && tiers[i].ctKwh == Rate(tiers, x)
  {
    if |tiers| > 1 && x > tiers[0].upToKwp {
      RateAmong(tiers[1..], x);
      var i :| 0 <= i < |tiers[1..]| && tiers[1..][i].ctKwh == Rate(tiers[1..], x);
      assert tiers[i + 1].ctKwh == Rate(tiers, x);
    } else {
      assert tiers[0].ctKwh == Rate(tiers, x);
    }
  }

  /** With falling rates, what is below `a` earns at least the rate at `a`, what is above at most that. */
  lemma {:induction false} RateSeparates(tiers: seq<Tier>, from: real, a: real, b: real)
    requires Ascending(tiers, from) && Falling(tiers) && from <= a <= b
    ensures Earned(tiers, from, a) >= Area(a - from, Rate(tiers, a))
    ensures Earned(tiers, from, b) - Earned(tiers, from, a) <= Area(b - a, Rate(tiers, a))
  {
    hide Area;
    var top, rate := tiers[0].upToKwp, tiers[0].ctKwh;
    if |tiers| == 1 || b <= top {
      AreaSplits(rate, from, a, b);
    } else if a <= top {
      RateSeparates(tiers[1..], top, top, b);
      RateAmong(tiers[1..], top);
      SumWithinTop(tiers, from, b);
      AreaSplits(rate, from, top, b);
      AreaSplits(rate, from, a, b);
    } else {
      RateSeparates(tiers[1..], top, a, b);
      RateAmong(tiers[1..], a);
      Scaled(top - from, Rate(tiers, a), rate);
      AreaSplits(Rate(tiers, a), from, top, a);
    }
  }

  /** With falling rates nothing earns more than the first rate. */
  lemma SumWithinTop(tiers: seq<Tier>, from: real, k: real)
    requires Ascending(tiers, from) && Falling(tiers) && |tiers| > 1 && k > tiers[0].upToKwp
    ensures Earned(tiers, from, k) <= Area(k - from, tiers[0].ctKwh)
  {
    hide Area;
    var top, rate := tiers[0].upToKwp, tiers[0].ctKwh;
    AtMostFirst(tiers[1..], top, k, rate);
    AreaSplits(rate, from, top, k);
  }

  lemma {:induction false} AtMostFirst(tiers: seq<Tier>, from: real, k: real, hi: real)
    requires Ascending(tiers, from) && from <= k && forall i :: 0 <= i < |tiers| ==> tiers[i].ctKwh <= hi
    ensures Earned(tiers, from, k) <= Area(k - from, hi)
  {
    hide Area;
    var top, rate := tiers[0].upToKwp, tiers[0].ctKwh;
    if |tiers| == 1 || k <= top {
      Scaled(k - from, rate, hi);
    } else {
      AtMostFirst(tiers[1..], top, k, hi);
      Scaled(top - from, rate, hi);
      AreaSplits(hi, from, top, k);
    }
  }

  /** For falling rates a larger plant never has the higher average. */
  lemma LargerPlantNoHigherAverage(tiers: seq<Tier>, a: real, b: real, averageA: real, averageB: real)
    requires Ascending(tiers, 0.0) && Falling(tiers) && 0.0 < a <= b
    requires Area(a, averageA) == Earned(tiers, 0.0, a) && Area(b, averageB) == Earned(tiers, 0.0, b)
    ensures averageB <= averageA
  {
    hide Area;
    RateSeparates(tiers, 0.0, a, b);
    var r := Rate(tiers, a);
    if averageA < r { Strictly(a, averageA, r); }
    Scaled(b - a, r, averageA);
    AreaSplits(averageA, 0.0, a, b);
    assert Area(b, averageB) <= Area(b, averageA);
    if averageB > averageA { Strictly(b, averageA, averageB); }
  }

  lemma {:induction false} AtLeastZero(tiers: seq<Tier>, from: real, k: real)
    requires Ascending(tiers, from) && from <= k && forall t :: t in tiers ==> t.ctKwh >= 0.0
    ensures Earned(tiers, from, k) >= 0.0
  {
    hide Area;
    assert tiers[0] in tiers;
    var top, rate := tiers[0].upToKwp, tiers[0].ctKwh;
    if |tiers| == 1 || k <= top {
      Scaled(k - from, 0.0, rate);
    } else {
      AtLeastZero(tiers[1..], top, k);
      Scaled(top - from, 0.0, rate);
    }
  }

  /** For nonnegative rates a larger plant never earns less in total. */
  lemma {:induction false} LargerPlantNoLowerSum(tiers: seq<Tier>, from: real, a: real, b: real)
    requires Ascending(tiers, from) && from <= a <= b && forall t :: t in tiers ==> t.ctKwh >= 0.0
    ensures Earned(tiers, from, a) <= Earned(tiers, from, b)
  {
    hide Area;
    assert tiers[0] in tiers;
    var top, rate := tiers[0].upToKwp, tiers[0].ctKwh;
    if |tiers| == 1 || b <= top {
      Scaled(b - a, 0.0, rate);
      AreaSplits(rate, from, a, b);
    } else if a <= top {
      AtLeastZero(tiers[1..], top, b);
      Scaled(top - a, 0.0, rate);
      AreaSplits(rate, from, a, top);
    } else {
      LargerPlantNoLowerSum(tiers[1..], top, a, b);
    }
  }
}
