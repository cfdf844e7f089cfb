/**
  What a choice of placements is worth: its energy, its gain in the objective, and its revenue. The
  objective counts revenue in whole hundredths of a cent, so the two may differ by the rounding.
 */
module MilpValue {
  import opened Wrappers
  import opened Reals
  import Integers
  import opened Sorting
  import opened MilpModel
  import opened MilpConstraints
  import opened MilpPlan
  import opened MilpSelections
  import opened MilpCap
  import opened MilpAssembly

  // ---- Energy and gain, seen from the plan -------------------------------------------------

  ghost function Sum(sel: seq<Placement>, f: Placement -> int): int {
    if sel == [] then 0 else f(sel[0]) + Sum(sel[1..], f)
  }

  /** Energy units of a placement, if it ends by the cutoff. */
  function Spending(cutoff: Option<int>): Placement -> int {
    (p: Placement) => if Finished(p, cutoff) then Units(p.block.energyKwh) else 0
  }

  ghost function UnitsBy(sel: seq<Placement>, cutoff: Option<int>): int { Sum(sel, Spending(cutoff)) }

  /** Units of energy, a tenth of a watt-hour each, of the blocks whose slots all begin by the cutoff. */
  ghost function SpentBy(sel: seq<Placement>, cutoff: Option<int>): int {
    if sel == [] then 0
    else
      var p := sel[0];
      SpentBy(sel[1..], cutoff)
      + if cutoff.Some? && exists ts :: ts in p.timestamps && ts > cutoff.value then 0
        else Rounded(10000.0 * p.block.energyKwh)
  }

  lemma {:induction false} SpentIsUnits(sel: seq<Placement>, cutoff: Option<int>)
    ensures SpentBy(sel, cutoff) == UnitsBy(sel, cutoff)
  {
    if sel != [] { SpentIsUnits(sel[1..], cutoff); }
  }

  lemma {:induction false} SumAppend(a: seq<Placement>, b: seq<Placement>, f: Placement -> int)
    ensures Sum(a + b, f) == Sum(a, f) + Sum(b, f)
  {
    if a == [] {
      assert a + b == b;
    } else {
      assert (a + b)[1..] == a[1..] + b;
      SumAppend(a[1..], b, f);
    }
  }

  lemma {:induction false} InsertSum(p: Placement, s: seq<Placement>, f: Placement -> int)
    ensures Sum(Insert(p, s, FirstTs), f) == f(p) + Sum(s, f)
  {
    if s != [] && FirstTs(p) > FirstTs(s[0]) {
      InsertSum(p, s[1..], f);
      assert Insert(p, s, FirstTs)[1..] == Insert(p, s[1..], FirstTs);
    } else {
      assert ([p] + s)[1..] == s;
    }
  }

  lemma {:induction false} SortSum(s: seq<Placement>, f: Placement -> int)
    ensures Sum(StableSort(s, FirstTs), f) == Sum(s, f)
  {
    if s != [] {
      SortSum(s[1..], f);
      InsertSum(s[0], StableSort(s[1..], FirstTs), f);
    }
  }

  lemma ChosenStep(ps: seq<Placement>, x: seq<bool>, f: Placement -> int)
    requires |x| == |ps| > 0
    ensures var n := |ps| - 1; Sum(Chosen(ps, x), f) == Sum(Chosen(ps[..n], x[..n]), f) + if x[n] then f(ps[n]) else 0
  {
    var n := |ps| - 1;
    SumAppend(Chosen(ps[..n], x[..n]), if x[n] then [ps[n]] else [], f);
  }

  lemma {:induction false} ChosenUnits(ps: seq<Placement>, x: seq<bool>, cutoff: Option<int>)
    requires |x| == |ps|
    ensures UnitsBy(Chosen(ps, x), cutoff) == Weight(FinishedBy(cutoff), ps, x)
  {
    if ps != [] {
      ChosenUnits(ps[..|ps| - 1], x[..|ps| - 1], cutoff);
      ChosenStep(ps, x, Spending(cutoff));
    }
  }

  lemma {:induction false} ChosenGain(ps: seq<Placement>, x: seq<bool>)
    requires |x| == |ps|
    ensures Sum(Chosen(ps, x), Gain) == ObjectiveValue(Objective(ps), x)
  {
    if ps != [] {
      ChosenGain(ps[..|ps| - 1], x[..|ps| - 1]);
      ChosenStep(ps, x, Gain);
      ObjectivePrefix(ps);
      hide Chosen, Objective, Sum;
    }
  }

  lemma ObjectivePrefix(ps: seq<Placement>)
    requires ps != []
    ensures var n := |ps| - 1; Objective(ps)[..n] == Objective(ps[..n]) && Objective(ps)[n] == Gain(ps[n])
  {
    hide Objective, Gain;
  }

  /** The plan's blocks spend and gain what the selection does. */
  lemma PlanCounts(ps: seq<Placement>, x: seq<bool>, sel: seq<Placement>, cutoff: Option<int>)
    requires |x| == |ps| && sel == StableSort(Chosen(ps, x), FirstTs)
    ensures UnitsBy(sel, cutoff) == Weight(FinishedBy(cutoff), ps, x)
    ensures Sum(sel, Gain) == ObjectiveValue(Objective(ps), x)
  {
    SortSum(Chosen(ps, x), Spending(cutoff));
    SortSum(Chosen(ps, x), Gain);
    ChosenUnits(ps, x, cutoff);
    ChosenGain(ps, x);
  }

  // ---- No choice gains more ------------------------------------------------------------------

  lemma {:induction false} WeightWith(g: Group, ps: seq<Placement>, x: seq<bool>, i: nat)
    requires |x| == |ps| && i < |ps| && !x[i]
    ensures Weight(g, ps, x[i := true]) == Weight(g, ps, x) + if In(g, ps[i]) then Coef(g, ps[i]) else 0
  {
    var n := |ps| - 1;
    if i < n {
      assert x[i := true][..n] == x[..n][i := true];
      WeightWith(g, ps[..n], x[..n], i);
    } else {
      assert x[i := true][..n] == x[..n];
    }
  }

  lemma {:induction false} ObjectiveWith(objective: seq<int>, x: seq<bool>, i: nat)
    requires |x| == |objective| && i < |x| && !x[i]
    ensures ObjectiveValue(objective, x[i := true]) == ObjectiveValue(objective, x) + objective[i]
  {
    var n := |x| - 1;
    if i < n {
      assert x[i := true][..n] == x[..n][i := true];
      ObjectiveWith(objective[..n], x[..n], i);
    } else {
      assert x[i := true][..n] == x[..n];
    }
  }

  /** The selection has the energy and the gain of the list. */
  ghost predicate CountsLike(ps: seq<Placement>, y: seq<bool>, qs: seq<Placement>) {
    && |y| == |ps|
    && ObjectiveValue(Objective(ps), y) == Sum(qs, Gain)
    && forall cutoff :: Weight(FinishedBy(cutoff), ps, y) == UnitsBy(qs, cutoff)
  }

  ghost predicate SelectsFrom(ps: seq<Placement>, y: seq<bool>, qs: seq<Placement>) {
    |y| == |ps| && NoSharedSlot(ps, y) && forall i :: 0 <= i < |ps| && y[i] ==> ps[i] in qs
  }

  /** Any list of pairwise disjoint placements is a selection of the same energy and gain. */
  lemma {:induction false} ListIsSelection(ps: seq<Placement>, qs: seq<Placement>) returns (y: seq<bool>)
    requires PairwiseDisjoint(qs) && forall q :: q in qs ==> q in ps && q.slotIndices != []
    ensures SelectsFrom(ps, y, qs) && CountsLike(ps, y, qs)
  {
    if qs == [] {
      y := Only(|ps|, |ps|);
      NothingCounts(ps);
    } else {
      var q, rest := qs[0], qs[1..];
      assert qs == [q] + rest;
      assert q in qs && forall r :: r in rest ==> r in qs;
      FirstDisjoint(q, rest);
      var z := ListIsSelection(ps, rest);
      var i :| 0 <= i < |ps| && ps[i] == q;
      NotDisjointFromItself(q);
      y := z[i := true];
      OneMoreSelected(ps, z, rest, i);
      OneMoreCounted(ps, z, rest, i);
    }
  }

  lemma FirstDisjoint(q: Placement, rest: seq<Placement>)
    requires PairwiseDisjoint([q] + rest)
    ensures PairwiseDisjoint(rest) && forall r :: r in rest ==> Disjoint(q, r)
  {
    var all := [q] + rest;
    assert all[0] == q && forall j :: 0 <= j < |rest| ==> all[j + 1] == rest[j];
    forall r | r in rest ensures Disjoint(q, r) {
      var j :| 0 <= j < |rest| && rest[j] == r;
      assert Disjoint(all[0], all[j + 1]);
    }
  }

  lemma OneMoreSelected(ps: seq<Placement>, z: seq<bool>, rest: seq<Placement>, i: nat)
    requires SelectsFrom(ps, z, rest) && i < |ps| && !z[i] && forall r :: r in rest ==> Disjoint(ps[i], r)
    ensures SelectsFrom(ps, z[i := true], [ps[i]] + rest)
  {
    var y := z[i := true];
    forall a, b, s | 0 <= a < b < |ps| && y[a] && y[b] && s in ps[a].slotIndices ensures s !in ps[b].slotIndices {
      assert a != i ==> ps[a] in rest;
      assert b != i ==> ps[b] in rest;
    }
  }

  lemma OneMoreCounted(ps: seq<Placement>, z: seq<bool>, rest: seq<Placement>, i: nat)
    requires CountsLike(ps, z, rest) && i < |ps| && !z[i]
    ensures CountsLike(ps, z[i := true], [ps[i]] + rest)
  {
    var y := z[i := true];
    assert ([ps[i]] + rest)[1..] == rest;
    ObjectiveWith(Objective(ps), z, i);
    forall cutoff ensures Weight(FinishedBy(cutoff), ps, y) == UnitsBy([ps[i]] + rest, cutoff) {
      WeightWith(FinishedBy(cutoff), ps, z, i);
    }
  }

  lemma NothingCounts(ps: seq<Placement>)
    ensures CountsLike(ps, Only(|ps|, |ps|), []) && SelectsFrom(ps, Only(|ps|, |ps|), [])
  {
    NothingSelected(Objective(ps), Only(|ps|, |ps|));
    forall cutoff
      ensures Weight(FinishedBy(cutoff), ps, Only(|ps|, |ps|)) == 0
    {
      WeightOfOnly(FinishedBy(cutoff), ps, |ps|);
    }
  }

  lemma NotDisjointFromItself(q: Placement)
    requires q.slotIndices != []
    ensures !Disjoint(q, q)
  {
    assert q.slotIndices[0] in q.slotIndices;
  }

  lemma {:induction false} NothingSelected(objective: seq<int>, x: seq<bool>)
    requires |objective| == |x| && forall i :: 0 <= i < |x| ==> !x[i]
    ensures ObjectiveValue(objective, x) == 0
  {
    if x != [] { NothingSelected(objective[..|x| - 1], x[..|x| - 1]); }
  }

  /** The placements of `qs` together keep within the budgets. */
  ghost predicate KeepsLimits(qs: seq<Placement>, l: Limits) {
    && (forall t :: t in l.budgets ==> UnitsBy(qs, Some(t)) <= Integers.Max(0, Units(l.budgets[t])))
    && (OneBudget(l) ==> UnitsBy(qs, None) <= Units(l.availableKwh.value))
  }

  /** Some other choice: placements that exist, no slot twice, within the budgets. */
  ghost predicate Alternative(qs: seq<Placement>, ps: seq<Placement>, l: Limits) {
    (forall q :: q in qs ==> q in ps) && PairwiseDisjoint(qs) && KeepsLimits(qs, l)
  }

  /** No alternative gains more than the plan's blocks. */
  ghost predicate Unbeaten(blocks: seq<Placement>, ps: seq<Placement>, l: Limits) {
    forall qs :: Alternative(qs, ps, l) ==> Sum(qs, Gain) <= Sum(blocks, Gain)
  }

  /** Where the repetition limit is redundant, the plan made of an optimal answer is unbeaten. */
  lemma OptimalPlanIsUnbeaten(ps: seq<Placement>, blocks: seq<Block>, l: Limits, lp: Lp, x: seq<bool>,
                              sel: seq<Placement>)
    requires ValidLimits(l) && ValidBlocks(blocks) && Models(lp, ps, blocks, l) && CapIsRedundant(ps, blocks, l)
    requires Optimal(lp, x) && sel == StableSort(Chosen(ps, x), FirstTs) && forall p :: p in ps ==> p.slotIndices != []
    ensures Unbeaten(sel, ps, l)
  {
    hide Chosen, StableSort, Optimal, CapIsRedundant, Models;
    forall qs | Alternative(qs, ps, l) ensures Sum(qs, Gain) <= Sum(sel, Gain) {
      var y := ListIsSelection(ps, qs);
      KeepingIsWithin(ps, l, qs, y);
      OptimumBeatsSelections(ps, blocks, l, lp, x, y);
      PlanCounts(ps, x, sel, None);
    }
  }

  lemma KeepingIsWithin(ps: seq<Placement>, l: Limits, qs: seq<Placement>, y: seq<bool>)
    requires ValidLimits(l) && |y| == |ps| && KeepsLimits(qs, l)
    requires CountsLike(ps, y, qs)
    ensures WithinLimits(ps, l, y)
  {
    hide Weight, UnitsBy;
    forall k | 0 <= k < |l.times| && Live(ps, l.times, l.budgets, k)
      ensures WithinBudgetAt(ps, l.times, l.budgets, y, k)
    {
      assert l.times[k] in l.budgets;
      assert Weight(FinishedBy(Some(l.times[k])), ps, y) == UnitsBy(qs, Some(l.times[k]));
    }
    assert Weight(FinishedBy(None), ps, y) == UnitsBy(qs, None);
  }

  // ---- From gain to revenue ------------------------------------------------------------------

  lemma SumTail(sel: seq<Placement>, f: Placement -> int)
    requires sel != []
    ensures var n := |sel| - 1; Sum(sel, f) == Sum(sel[..n], f) + f(sel[n])
  {
    var n := |sel| - 1;
    assert sel == sel[..n] + [sel[n]];
    SumAppend(sel[..n], [sel[n]], f);
  }

  /** Rounding moves each placement by at most half a hundredth of a cent. */
  lemma {:induction false} RevenueNearGain(sel: seq<Placement>)
    ensures -0.005 * |sel| as real <= TotalRevenue(sel) - Sum(sel, Gain) as real / 100.0 <= 0.005 * |sel| as real
  {
    if sel != [] {
      RevenueNearGain(sel[..|sel| - 1]);
      SumTail(sel, Gain);
    }
  }

  /** `n` times `c`. */
  function Times(c: real, n: int): real { c * n as real }

  lemma TimesFacts(c: real, m: int, n: int)
    ensures Times(c, m + n) == Times(c, m) + Times(c, n) && Times(c, 0) == 0.0 && Times(c, 1) == c
    ensures c > 0.0 && m >= n ==> Times(c, m) >= Times(c, n)
  {
    assert (m + n) as real == m as real + n as real;
    if c > 0.0 && m >= n { assert c * (m as real - n as real) >= 0.0; }
  }

  /** Revenue is `c` cents for each unit of the objective. */
  ghost predicate Proportional(ps: seq<Placement>, c: real) {
    forall p :: p in ps ==> p.revenueCt == Times(c, Gain(p))
  }

  lemma {:induction false} RevenueIsGain(sel: seq<Placement>, c: real)
    requires Proportional(sel, c)
    ensures TotalRevenue(sel) == Times(c, Sum(sel, Gain))
  {
    TimesFacts(c, 0, 0);
    if sel != [] {
      var init, last := sel[..|sel| - 1], sel[|sel| - 1];
      assert last in sel && forall p :: p in init ==> p in sel;
      assert sel == init + [last];
      OneMoreEarns(init, last);
      TimesFacts(c, Sum(init, Gain), Gain(last));
      hide Gain, Times, TotalRevenue, Sum;
      RevenueIsGain(init, c);
    }
  }

  /** The objective ranks all lists of these placements as their revenue does. */
  ghost predicate RanksAsRevenue(ps: seq<Placement>) {
    forall a, b :: Among(a, ps) && Among(b, ps) && Sum(a, Gain) >= Sum(b, Gain) ==> TotalRevenue(a) >= TotalRevenue(b)
  }

  ghost predicate Among(a: seq<Placement>, ps: seq<Placement>) { forall p :: p in a ==> p in ps }

  function Copies(p: Placement, n: nat): (r: seq<Placement>)
    ensures |r| == n && forall q :: q in r ==> q == p
  {
    if n == 0 then [] else Copies(p, n - 1) + [p]
  }

  lemma {:induction false} CopiesCount(p: Placement, n: nat)
    ensures Sum(Copies(p, n), Gain) == n * Gain(p)
    ensures TotalRevenue(Copies(p, n)) == Times(p.revenueCt, n)
  {
    TimesFacts(p.revenueCt, n - 1, 1);
    hide Gain, Times;
    if n > 0 {
      CopiesCount(p, n - 1);
      OneMoreEarns(Copies(p, n - 1), p);
      hide Sum, TotalRevenue;
      OneMoreTime(n, Gain(p));
    }
  }

  lemma OneMoreTime(n: int, g: int)
    ensures n * g == (n - 1) * g + g
  {
  }

  /** Ranked alike, equal objectives mean equal revenues: of p repeated q's gain times and the other way round. */
  lemma EqualGainEqualRevenue(ps: seq<Placement>, p: Placement, q: Placement)
    requires RanksAsRevenue(ps) && p in ps && q in ps && Gain(p) >= 0 && Gain(q) >= 0
    ensures Times(p.revenueCt, Gain(q)) == Times(q.revenueCt, Gain(p))
  {
    hide Gain, Sum, TotalRevenue, Copies, Times;
    var a, b := Copies(p, Gain(q)), Copies(q, Gain(p));
    CopiesCount(p, Gain(q));
    CopiesCount(q, Gain(p));
    SameProduct(Gain(p), Gain(q));
    RankedEqually(ps, a, b);
  }

  lemma SameProduct(m: int, n: int)
    ensures m * n == n * m
  {
  }

  lemma RankedEqually(ps: seq<Placement>, a: seq<Placement>, b: seq<Placement>)
    requires RanksAsRevenue(ps) && (forall p :: p in a ==> p in ps) && (forall p :: p in b ==> p in ps)
    requires Sum(a, Gain) == Sum(b, Gain)
    ensures TotalRevenue(a) == TotalRevenue(b)
  {
    hide Gain, Sum, TotalRevenue;
    assert Among(a, ps) && Among(b, ps);
  }

  /** A profitable placement counts in an objective that ranks by revenue. */
  lemma ProfitCounts(ps: seq<Placement>, p: Placement)
    requires RanksAsRevenue(ps) && p in ps && p.revenueCt > 0.0
    ensures Gain(p) > 0
  {
    CopiesCount(p, 1);
    CopiesCount(p, 0);
    TimesFacts(p.revenueCt, 0, 1);
    hide Sum, TotalRevenue, Copies, Gain, Times;
    assert Among(Copies(p, 0), ps) && Among(Copies(p, 1), ps);
  }

  lemma ProportionOf(x: real, g: int, r: real, h: int)
    requires g > 0 && Times(r, g) == Times(x, h)
    ensures r == Times(x / g as real, h)
  {
    var d, c := g as real, x / g as real;
    assert c * d == x;
    assert r * d == (c * d) * h as real;
    assert r * d == (c * h as real) * d;
  }

  /**
    Exactly when the rounded objective ranks choices as revenue does: when revenues are in
    proportion to their rounded units.
   */
  lemma RanksAsRevenueIffProportional(ps: seq<Placement>)
    requires forall p :: p in ps ==> p.revenueCt > 0.0
    ensures RanksAsRevenue(ps) <==> exists c: real :: c > 0.0 && Proportional(ps, c)
  {
    if RanksAsRevenue(ps) {
      var c := RankedIsProportional(ps);
    }
    forall c: real | c > 0.0 && Proportional(ps, c) ensures RanksAsRevenue(ps) { ProportionalIsRanked(ps, c); }
  }

  lemma RankedIsProportional(ps: seq<Placement>) returns (c: real)
    requires RanksAsRevenue(ps) && forall p :: p in ps ==> p.revenueCt > 0.0
    ensures c > 0.0 && Proportional(ps, c)
  {
    if ps == [] { return 1.0; }
    var p := ps[0];
    assert p in ps;
    ProfitCounts(ps, p);
    c := p.revenueCt / Gain(p) as real;
    hide Gain, RanksAsRevenue, Times;
    forall q | q in ps ensures q.revenueCt == Times(c, Gain(q)) {
      ProfitCounts(ps, q);
      EqualGainEqualRevenue(ps, q, p);
      ProportionOf(p.revenueCt, Gain(p), q.revenueCt, Gain(q));
    }
  }

  lemma ProportionalIsRanked(ps: seq<Placement>, c: real)
    requires c > 0.0 && Proportional(ps, c)
    ensures RanksAsRevenue(ps)
  {
    hide Sum, TotalRevenue, Times, Gain;
    forall a, b | Among(a, ps) && Among(b, ps) && Sum(a, Gain) >= Sum(b, Gain)
      ensures TotalRevenue(a) >= TotalRevenue(b)
    {
      RevenueIsGain(a, c);
      RevenueIsGain(b, c);
      TimesFacts(c, Sum(a, Gain), Sum(b, Gain));
    }
  }

  /** The placements with revenue. */
  function Profitable(qs: seq<Placement>): (r: seq<Placement>)
    ensures |r| <= |qs| && forall q :: q in r ==> q in qs && q.revenueCt > 0.0
  {
    if qs == [] then []
    else
      var n := |qs| - 1;
      Profitable(qs[..n]) + if qs[n].revenueCt > 0.0 then [qs[n]] else []
  }

  lemma {:induction false} ProfitableEarnsMore(qs: seq<Placement>)
    ensures TotalRevenue(qs) <= TotalRevenue(Profitable(qs))
    ensures Sum(qs, Gain) <= Sum(Profitable(qs), Gain)
  {
    if qs != [] {
      var n := |qs| - 1;
      var before, q := qs[..n], qs[n];
      assert qs == before + [q];
      assert Profitable(qs) == Profitable(before) + if q.revenueCt > 0.0 then [q] else [];
      ProfitableEarnsMore(before);
      OneMoreEarns(before, q);
      OneMoreEarns(Profitable(before), q);
      NoGainWithoutRevenue(q);
      hide Gain, Sum, TotalRevenue, Profitable;
      assert q.revenueCt <= 0.0 ==> Profitable(qs) == Profitable(before);
    }
  }

  lemma OneMoreEarns(sel: seq<Placement>, p: Placement)
    ensures TotalRevenue(sel + [p]) == TotalRevenue(sel) + p.revenueCt
            && Sum(sel + [p], Gain) == Sum(sel, Gain) + Gain(p)
  {
    assert (sel + [p])[..|sel|] == sel;
    SumTail(sel + [p], Gain);
  }

  lemma NoGainWithoutRevenue(p: Placement)
    ensures p.revenueCt <= 0.0 ==> Gain(p) <= 0
  {
  }

  lemma {:induction false} ProfitableSpendsLess(qs: seq<Placement>, cutoff: Option<int>)
    requires NonnegativeUnits(qs)
    ensures UnitsBy(Profitable(qs), cutoff) <= UnitsBy(qs, cutoff)
  {
    if qs != [] {
      var n := |qs| - 1;
      assert qs[n] in qs && forall q :: q in qs[..n] ==> q in qs;
      ProfitableSpendsLess(qs[..n], cutoff);
      SumTail(qs, Spending(cutoff));
      SumAppend(Profitable(qs[..n]), if qs[n].revenueCt > 0.0 then [qs[n]] else [], Spending(cutoff));
    }
  }

  lemma {:induction false} ProfitableDisjoint(qs: seq<Placement>)
    requires PairwiseDisjoint(qs)
    ensures PairwiseDisjoint(Profitable(qs))
  {
    if qs != [] {
      var n := |qs| - 1;
      ProfitableDisjoint(qs[..n]);
      forall q | q in Profitable(qs[..n]) ensures Disjoint(q, qs[n]) {
        var i :| 0 <= i < n && qs[..n][i] == q;
        assert Disjoint(qs[i], qs[n]);
      }
    }
  }

  /** Dropping what earns nothing leaves an alternative among the profitable placements, worth no less. */
  lemma ProfitableIsAlternative(qs: seq<Placement>, ps: seq<Placement>, l: Limits)
    requires PairwiseDisjoint(qs) && KeepsLimits(qs, l) && NonnegativeUnits(qs)
    requires forall q :: q in qs && q.revenueCt > 0.0 ==> q in ps
    ensures Alternative(Profitable(qs), ps, l)
    ensures TotalRevenue(qs) <= TotalRevenue(Profitable(qs)) && Sum(qs, Gain) <= Sum(Profitable(qs), Gain)
  {
    hide UnitsBy, TotalRevenue;
    ProfitableEarnsMore(qs);
    ProfitableDisjoint(qs);
    forall t | t in l.budgets
      ensures UnitsBy(Profitable(qs), Some(t)) <= Integers.Max(0, Units(l.budgets[t]))
    {
      ProfitableSpendsLess(qs, Some(t));
    }
    ProfitableSpendsLess(qs, None);
  }

  /** What another choice could earn more than an unbeaten one is at most the rounding of both. */
  lemma UnbeatenEarnsNearlyMost(sel: seq<Placement>, ps: seq<Placement>, l: Limits, qs: seq<Placement>)
    requires Unbeaten(sel, ps, l) && PairwiseDisjoint(qs) && KeepsLimits(qs, l) && NonnegativeUnits(qs)
    requires forall q :: q in qs && q.revenueCt > 0.0 ==> q in ps
    ensures Sum(qs, Gain) <= Sum(sel, Gain)
    ensures TotalRevenue(qs) <= TotalRevenue(sel) + 0.005 * (|qs| + |sel|) as real
  {
    var kept := Profitable(qs);
    ProfitableIsAlternative(qs, ps, l);
    RevenueNearGain(kept);
    RevenueNearGain(sel);
    hide Profitable, TotalRevenue, Sum, Alternative;
    assert Sum(kept, Gain) <= Sum(sel, Gain);
  }

  /** Where the objective ranks as revenue does, no choice earns more than an unbeaten one. */
  lemma RankedUnbeatenEarnsMost(sel: seq<Placement>, ps: seq<Placement>, l: Limits, qs: seq<Placement>)
    requires Unbeaten(sel, ps, l) && PairwiseDisjoint(qs) && KeepsLimits(qs, l) && NonnegativeUnits(qs)
    requires forall q :: q in qs && q.revenueCt > 0.0 ==> q in ps
    requires RanksAsRevenue(ps) && Among(sel, ps)
    ensures TotalRevenue(qs) <= TotalRevenue(sel)
  {
    var kept := Profitable(qs);
    ProfitableIsAlternative(qs, ps, l);
    assert Among(kept, ps);
    hide Profitable, TotalRevenue, Sum, KeepsLimits, PairwiseDisjoint, Among;
    assert Sum(sel, Gain) >= Sum(kept, Gain);
  }
}
