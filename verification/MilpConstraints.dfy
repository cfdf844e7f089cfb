/**
  Building the constraints, and what the emitted ones mean for every 0/1 vector, although
  constraints with one term or equal to the one before are left out.
 */
module MilpConstraints {
  import opened Wrappers
  import opened MilpModel

  ghost predicate Satisfies(cs: seq<Constraint>, x: seq<bool>) {
    forall c :: c in cs ==> Scoped(c.terms, |x|) && Value(c.terms, x) <= c.bound
  }

  lemma SatisfiesSplits(cs: seq<Constraint>, ds: seq<Constraint>, x: seq<bool>)
    ensures Satisfies(cs + ds, x) <==> Satisfies(cs, x) && Satisfies(ds, x)
  {
    assert forall c :: c in cs + ds <==> c in cs || c in ds;
  }

  /** One more constraint over a group limits the group's weight. */
  lemma SatisfiesGroup(cs: seq<Constraint>, g: Group, bound: int, ps: seq<Placement>, x: seq<bool>)
    requires |x| == |ps|
    ensures Satisfies(cs + [Constraint(Terms(g, ps), bound)], x) <==> Satisfies(cs, x) && Weight(g, ps, x) <= bound
  {
    var c := Constraint(Terms(g, ps), bound);
    SatisfiesSplits(cs, [c], x);
    TermsWeigh(g, ps, x);
    assert Satisfies([c], x) <==> Value(c.terms, x) <= c.bound by { assert c in [c]; }
  }

  // ---- No slot twice ---------------------------------------------------------------------

  ghost predicate DistinctSlots(p: Placement) {
    forall i, j :: 0 <= i < j < |p.slotIndices| ==> p.slotIndices[i] != p.slotIndices[j]
  }

  /** No two selected placements use the same slot. */
  ghost predicate NoSharedSlot(ps: seq<Placement>, x: seq<bool>)
    requires |x| == |ps|
  {
    forall i, j, s :: 0 <= i < j < |ps| && x[i] && x[j] && s in ps[i].slotIndices ==> s !in ps[j].slotIndices
  }

  function Listed(coverage: map<nat, seq<Term>>, s: nat): seq<Term> {
    if s in coverage then coverage[s] else []
  }

  lemma AppendTerm(g: Group, ps: seq<Placement>, k: nat)
    requires k < |ps|
    ensures Terms(g, ps[..k + 1]) == Terms(g, ps[..k]) + if In(g, ps[k]) then [Term(Coef(g, ps[k]), k)] else []
  {
    assert ps[..k + 1][..k] == ps[..k];
  }

  method SlotCoverage(ps: seq<Placement>) returns (coverage: map<nat, seq<Term>>)
    requires forall p :: p in ps ==> DistinctSlots(p)
    ensures forall s: nat :: Listed(coverage, s) == Terms(Covering(s), ps)
  {
    coverage := map[];
    var k := 0;
    while k < |ps|
      invariant 0 <= k <= |ps|
      invariant forall s: nat :: Listed(coverage, s) == Terms(Covering(s), ps[..k])
    {
      coverage := AddCoverage(coverage, ps, k);
      k := k + 1;
    }
    assert ps[..k] == ps;
  }

  method AddCoverage(before: map<nat, seq<Term>>, ps: seq<Placement>, k: nat) returns (coverage: map<nat, seq<Term>>)
    requires k < |ps| && DistinctSlots(ps[k])
    requires forall s: nat :: Listed(before, s) == Terms(Covering(s), ps[..k])
    ensures forall s: nat :: Listed(coverage, s) == Terms(Covering(s), ps[..k + 1])
  {
    hide Terms, Listed, Added;
    coverage := before;
    var slots := ps[k].slotIndices;
    NothingAdded(before, k);
    var i := 0;
    while i < |slots|
      invariant 0 <= i <= |slots| && Added(before, coverage, slots[..i], k)
    {
      var s := slots[i];
      AddOne(before, coverage, slots[..i], s, k);
      assert slots[..i + 1] == slots[..i] + [s];
      coverage := coverage[s := Listed(coverage, s) + [Term(1, k)]];
      i := i + 1;
    }
    assert slots[..i] == slots;
    forall s: nat
      ensures Listed(coverage, s) == Terms(Covering(s), ps[..k + 1])
    {
      AddedTerms(before, coverage, ps, k, s);
    }
  }

  /** The term of placement `k` has been listed under the slots, once each. */
  ghost predicate Added(before: map<nat, seq<Term>>, coverage: map<nat, seq<Term>>, slots: seq<nat>, k: nat) {
    forall s: nat :: Listed(coverage, s) == Listed(before, s) + if s in slots then [Term(1, k)] else []
  }

  lemma NothingAdded(before: map<nat, seq<Term>>, k: nat)
    ensures Added(before, before, [], k)
  {
  }

  lemma AddOne(before: map<nat, seq<Term>>, coverage: map<nat, seq<Term>>, slots: seq<nat>, s: nat, k: nat)
    requires Added(before, coverage, slots, k) && s !in slots
    ensures Added(before, coverage[s := Listed(coverage, s) + [Term(1, k)]], slots + [s], k)
  {
    assert Listed(coverage, s) == Listed(before, s);
  }

  lemma AddedTerms(before: map<nat, seq<Term>>, coverage: map<nat, seq<Term>>, ps: seq<Placement>, k: nat, s: nat)
    requires k < |ps| && Added(before, coverage, ps[k].slotIndices, k)
             && Listed(before, s) == Terms(Covering(s), ps[..k])
    ensures Listed(coverage, s) == Terms(Covering(s), ps[..k + 1])
  {
    AppendTerm(Covering(s), ps, k);
    hide Terms;
  }

  method OverlapConstraints(ps: seq<Placement>, slotCount: nat) returns (cs: seq<Constraint>)
    requires forall p :: p in ps ==> DistinctSlots(p) && forall s :: s in p.slotIndices ==> s < slotCount
    ensures forall x: seq<bool> :: |x| == |ps| ==> (Satisfies(cs, x) <==> NoSharedSlot(ps, x))
  {
    var coverage := SlotCoverage(ps);
    cs := [];
    var s := 0;
    while s < slotCount
      invariant 0 <= s <= slotCount
      invariant forall x: seq<bool> :: |x| == |ps| ==> (Satisfies(cs, x) <==> UsedOnce(ps, x, s))
    {
      hide NoSharedSlot;
      var terms := Listed(coverage, s);
      ghost var before := cs;
      if |terms| > 1 {
        cs := cs + [Constraint(terms, 1)];
      }
      forall x: seq<bool> | |x| == |ps|
        ensures Satisfies(cs, x) <==> UsedOnce(ps, x, s + 1)
      {
        SatisfiesGroup(before, Covering(s), 1, ps, x);
        WeightAtMostCount(Covering(s), ps, x);
        UsedOnceNext(ps, x, s);
        hide Satisfies, Weight, UsedOnce, Terms;
      }
      s := s + 1;
    }
    forall x: seq<bool> | |x| == |ps| ensures Satisfies(cs, x) <==> NoSharedSlot(ps, x) {
      WeightsMeanNoSharedSlot(ps, slotCount, x);
    }
  }

  /** Each of the first `slotCount` slots is used at most once. */
  ghost predicate UsedOnce(ps: seq<Placement>, x: seq<bool>, slotCount: nat)
    requires |x| == |ps|
  {
    forall s :: 0 <= s < slotCount ==> Weight(Covering(s), ps, x) <= 1
  }

  lemma UsedOnceNext(ps: seq<Placement>, x: seq<bool>, s: nat)
    requires |x| == |ps|
    ensures UsedOnce(ps, x, s + 1) <==> UsedOnce(ps, x, s) && Weight(Covering(s), ps, x) <= 1
  {
  }

  lemma WeightsMeanNoSharedSlot(ps: seq<Placement>, slotCount: nat, x: seq<bool>)
    requires forall p :: p in ps ==> forall s :: s in p.slotIndices ==> s < slotCount
    requires |x| == |ps|
    ensures UsedOnce(ps, x, slotCount) <==> NoSharedSlot(ps, x)
  {
    forall s | 0 <= s < slotCount
      ensures Weight(Covering(s), ps, x) <= 1
              <==> forall i, j :: 0 <= i < j < |ps| && x[i] && x[j] ==>
                     !(s in ps[i].slotIndices && s in ps[j].slotIndices)
    {
      AtMostOne(Covering(s), ps, x);
      assert forall i :: 0 <= i < |ps| ==> (In(Covering(s), ps[i]) <==> s in ps[i].slotIndices);
    }
    forall i, s | 0 <= i < |ps| && s in ps[i].slotIndices ensures s < slotCount {
      assert ps[i] in ps;
    }
    if forall s :: 0 <= s < slotCount ==> Weight(Covering(s), ps, x) <= 1 {
      forall i, j, s | 0 <= i < j < |ps| && x[i] && x[j] && s in ps[i].slotIndices ensures s !in ps[j].slotIndices {
        assert Weight(Covering(s), ps, x) <= 1;
      }
    }
  }

  // ---- The energy budget -----------------------------------------------------------------

  /** Budgets by time, times ascending. */
  ghost predicate Ascending(times: seq<int>, budgets: map<int, real>) {
    && (forall k :: 0 <= k < |times| ==> times[k] in budgets)
    && (forall i, j :: 0 <= i < j < |times| ==> times[i] <= times[j])
  }

  function By(t: int): Group { FinishedBy(Some(t)) }

  // The code's tests compare terms; what they come down to are facts about placements.

  ghost predicate SomeFinished(ps: seq<Placement>, t: int) { exists p :: p in ps && Finished(p, Some(t)) }

  ghost predicate NoneFinishesBetween(ps: seq<Placement>, t: int, u: int) {
    forall p :: p in ps && Finished(p, Some(u)) ==> Finished(p, Some(t))
  }

  lemma {:induction false} TermsOfFinished(ps: seq<Placement>, t: int)
    ensures Terms(By(t), ps) == [] <==> !SomeFinished(ps, t)
  {
    if ps != [] {
      var n := |ps| - 1;
      TermsOfFinished(ps[..n], t);
      assert ps == ps[..n] + [ps[n]];
      if Finished(ps[n], Some(t)) { assert ps[n] in ps; }
    }
  }

  /** Later cutoffs admit no fewer placements; if no more, the very same. */
  lemma {:induction false} SameCountSameTerms(ps: seq<Placement>, t: int, u: int)
    requires t <= u
    ensures |Terms(By(t), ps)| <= |Terms(By(u), ps)|
    ensures |Terms(By(t), ps)| == |Terms(By(u), ps)| <==> NoneFinishesBetween(ps, t, u)
    ensures NoneFinishesBetween(ps, t, u) ==> Terms(By(t), ps) == Terms(By(u), ps)
  {
    if ps != [] {
      var n := |ps| - 1;
      SameCountSameTerms(ps[..n], t, u);
      assert forall p :: p in ps <==> p in ps[..n] || p == ps[n];
      assert Finished(ps[n], Some(t)) ==> Finished(ps[n], Some(u));
    }
  }

  /** The code's test: the constraint at `k` has as many terms as the one before, and the same rounded budget. */
  predicate LooksSame(ps: seq<Placement>, times: seq<int>, budgets: map<int, real>, k: nat)
    requires Ascending(times, budgets) && 0 < k < |times|
  {
    && |Terms(By(times[k - 1]), ps)| == |Terms(By(times[k]), ps)|
    && Units(budgets[times[k - 1]]) == Units(budgets[times[k]])
  }

  predicate Emitted(ps: seq<Placement>, times: seq<int>, budgets: map<int, real>, k: nat)
    requires Ascending(times, budgets) && k < |times|
  {
    budgets[times[k]] > 0.0 && Terms(By(times[k]), ps) != [] && !(k > 0 && LooksSame(ps, times, budgets, k))
  }

  /** The emitted constraints of the first `n` times. */
  function EnergyRows(ps: seq<Placement>, times: seq<int>, budgets: map<int, real>, n: nat): seq<Constraint>
    requires Ascending(times, budgets) && n <= |times|
  {
    if n == 0 then []
    else
      EnergyRows(ps, times, budgets, n - 1)
      + if Emitted(ps, times, budgets, n - 1)
        then [Constraint(Terms(By(times[n - 1]), ps), Units(budgets[times[n - 1]]))] else []
  }

  method EnergyConstraints(ps: seq<Placement>, times: seq<int>, budgets: map<int, real>) returns (cs: seq<Constraint>)
    requires Ascending(times, budgets)
    ensures cs == EnergyRows(ps, times, budgets, |times|)
    ensures forall x: seq<bool> :: |x| == |ps| ==>
              (Satisfies(cs, x) <==> WithinLiveBudgets(ps, times, budgets, x, |times|))
  {
    cs := [];
    var k := 0;
    while k < |times|
      invariant 0 <= k <= |times| && cs == EnergyRows(ps, times, budgets, k)
    {
      var budgetAtTime := budgets[times[k]];
      var eligible := Terms(By(times[k]), ps);
      if budgetAtTime > 0.0 && |eligible| > 0 {
        if !(k > 0 && LooksSame(ps, times, budgets, k)) {
          cs := cs + [Constraint(eligible, Units(budgetAtTime))];
        }
      }
      k := k + 1;
    }
    forall x: seq<bool> | |x| == |ps| ensures Satisfies(cs, x) <==> WithinLiveBudgets(ps, times, budgets, x, |times|) {
      RowsMeanLiveBudgets(ps, times, budgets, x, |times|);
    }
  }

  /**
    The budget at time `k` is in force: it is positive, some placement is finished by then, and if
    it repeats the time before (no placement finishes in between, same units), that one is in force.
   */
  ghost predicate Live(ps: seq<Placement>, times: seq<int>, budgets: map<int, real>, k: nat)
    requires Ascending(times, budgets) && k < |times|
  {
    && budgets[times[k]] > 0.0
    && SomeFinished(ps, times[k])
    && (k > 0 && Repeats(ps, times, budgets, k) ==> Live(ps, times, budgets, k - 1))
  }

  ghost predicate Repeats(ps: seq<Placement>, times: seq<int>, budgets: map<int, real>, k: nat)
    requires Ascending(times, budgets) && 0 < k < |times|
  {
    NoneFinishesBetween(ps, times[k - 1], times[k]) && Units(budgets[times[k - 1]]) == Units(budgets[times[k]])
  }

  ghost predicate WithinBudgetAt(ps: seq<Placement>, times: seq<int>, budgets: map<int, real>, x: seq<bool>, k: nat)
    requires Ascending(times, budgets) && k < |times| && |x| == |ps|
  {
    Weight(By(times[k]), ps, x) <= Units(budgets[times[k]])
  }

  ghost predicate WithinLiveBudgets(ps: seq<Placement>, times: seq<int>, budgets: map<int, real>, x: seq<bool>, n: nat)
    requires Ascending(times, budgets) && n <= |times| && |x| == |ps|
  {
    forall k :: 0 <= k < n && Live(ps, times, budgets, k) ==> WithinBudgetAt(ps, times, budgets, x, k)
  }

  /** What a constraint left out for looking the same would say, the one before says. */
  lemma SkippedIsImplied(ps: seq<Placement>, times: seq<int>, budgets: map<int, real>, x: seq<bool>, k: nat)
    requires Ascending(times, budgets) && 0 < k < |times| && |x| == |ps|
    ensures LooksSame(ps, times, budgets, k) <==> Repeats(ps, times, budgets, k)
    ensures LooksSame(ps, times, budgets, k)
            ==> (WithinBudgetAt(ps, times, budgets, x, k) <==> WithinBudgetAt(ps, times, budgets, x, k - 1))
  {
    SameCountSameTerms(ps, times[k - 1], times[k]);
    TermsWeigh(By(times[k - 1]), ps, x);
    TermsWeigh(By(times[k]), ps, x);
  }

  /** The emitted constraint, or the lack of one, accounts for time `k`. */
  lemma LimitStep(ps: seq<Placement>, times: seq<int>, budgets: map<int, real>, x: seq<bool>, k: nat)
    requires Ascending(times, budgets) && k < |times| && |x| == |ps|
    ensures WithinLiveBudgets(ps, times, budgets, x, k + 1)
            <==> WithinLiveBudgets(ps, times, budgets, x, k)
                 && (Emitted(ps, times, budgets, k) ==> WithinBudgetAt(ps, times, budgets, x, k))
  {
    assert WithinLiveBudgets(ps, times, budgets, x, k + 1)
           <==> WithinLiveBudgets(ps, times, budgets, x, k)
                && (Live(ps, times, budgets, k) ==> WithinBudgetAt(ps, times, budgets, x, k));
    TermsOfFinished(ps, times[k]);
    if k > 0 { SkippedIsImplied(ps, times, budgets, x, k); }
    hide WithinBudgetAt, Repeats, LooksSame, SomeFinished, Terms;
  }

  /** The emitted constraints hold of a 0/1 vector if and only if it keeps every budget in force. */
  lemma {:induction false} RowsMeanLiveBudgets(ps: seq<Placement>, times: seq<int>, budgets: map<int, real>,
                                               x: seq<bool>, n: nat)
    requires Ascending(times, budgets) && n <= |times| && |x| == |ps|
    ensures Satisfies(EnergyRows(ps, times, budgets, n), x) <==> WithinLiveBudgets(ps, times, budgets, x, n)
  {
    if n > 0 {
      RowsMeanLiveBudgets(ps, times, budgets, x, n - 1);
      RowStep(ps, times, budgets, x, n);
      LimitStep(ps, times, budgets, x, n - 1);
      hide Satisfies, WithinLiveBudgets, Emitted, EnergyRows, WithinBudgetAt;
    }
  }

  lemma RowStep(ps: seq<Placement>, times: seq<int>, budgets: map<int, real>, x: seq<bool>, n: nat)
    requires Ascending(times, budgets) && 0 < n <= |times| && |x| == |ps|
    ensures Satisfies(EnergyRows(ps, times, budgets, n), x)
            <==> Satisfies(EnergyRows(ps, times, budgets, n - 1), x)
                 && (Emitted(ps, times, budgets, n - 1) ==> WithinBudgetAt(ps, times, budgets, x, n - 1))
  {
    var before := EnergyRows(ps, times, budgets, n - 1);
    SatisfiesGroup(before, By(times[n - 1]), Units(budgets[times[n - 1]]), ps, x);
    assert before + [] == before;
    hide Satisfies, Emitted, Terms, Weight, Units;
  }

  /** A budget of at least one unit is always in force, whatever was skipped. */
  lemma {:induction false} WholeUnitsAreLive(ps: seq<Placement>, times: seq<int>, budgets: map<int, real>, k: nat)
    requires Ascending(times, budgets) && k < |times|
    requires Units(budgets[times[k]]) >= 1 && SomeFinished(ps, times[k])
    ensures Live(ps, times, budgets, k)
  {
    if k > 0 && Repeats(ps, times, budgets, k) {
      WholeUnitsAreLive(ps, times, budgets, k - 1);
    }
  }

  /** No finished placement, nothing to limit. */
  lemma {:induction false} NothingFinished(g: Group, ps: seq<Placement>, x: seq<bool>)
    requires |x| == |ps| && Terms(g, ps) == []
    ensures Weight(g, ps, x) == 0
  {
    if ps != [] { NothingFinished(g, ps[..|ps| - 1], x[..|ps| - 1]); }
  }

  /** Every vector the constraints admit keeps the budget wherever it is at least one unit. */
  lemma BudgetKept(ps: seq<Placement>, times: seq<int>, budgets: map<int, real>, x: seq<bool>, k: nat)
    requires Ascending(times, budgets) && k < |times| && |x| == |ps|
    requires WithinLiveBudgets(ps, times, budgets, x, |times|)
    requires Units(budgets[times[k]]) >= 1
    ensures WithinBudgetAt(ps, times, budgets, x, k)
  {
    if SomeFinished(ps, times[k]) {
      WholeUnitsAreLive(ps, times, budgets, k);
    } else {
      TermsOfFinished(ps, times[k]);
      NothingFinished(By(times[k]), ps, x);
    }
  }

  // ---- From units back to energy ---------------------------------------------------------

  /** Energy in kWh of the selected members of a group. */
  ghost function GroupEnergy(g: Group, ps: seq<Placement>, x: seq<bool>): real
    requires |x| == |ps|
  {
    if ps == [] then 0.0
    else
      var n := |ps| - 1;
      GroupEnergy(g, ps[..n], x[..n]) + if x[n] && In(g, ps[n]) then ps[n].block.energyKwh else 0.0
  }

  ghost function Selected(x: seq<bool>): nat {
    if x == [] then 0 else Selected(x[..|x| - 1]) + if x[|x| - 1] then 1 else 0
  }

  /** Rounding moves each placement's energy by at most half a unit. */
  lemma {:induction false} EnergyNearWeight(g: Group, ps: seq<Placement>, x: seq<bool>)
    requires |x| == |ps| && g.FinishedBy?
    ensures -0.5 * Selected(x) as real <= GroupEnergy(g, ps, x) * 10000.0 - Weight(g, ps, x) as real
            <= 0.5 * Selected(x) as real
  {
    if ps != [] {
      var n := |ps| - 1;
      EnergyNearWeight(g, ps[..n], x[..n]);
    }
  }

  ghost predicate WholeUnits(kwh: real) {
    Units(kwh) as real == kwh * 10000.0
  }

  lemma {:induction false} EnergyIsWeight(g: Group, ps: seq<Placement>, x: seq<bool>)
    requires |x| == |ps| && g.FinishedBy? && forall p :: p in ps ==> WholeUnits(p.block.energyKwh)
    ensures GroupEnergy(g, ps, x) * 10000.0 == Weight(g, ps, x) as real
  {
    if ps != [] {
      var n := |ps| - 1;
      assert ps[n] in ps;
      EnergyIsWeight(g, ps[..n], x[..n]);
    }
  }

  /** The budget in kWh is kept up to half a unit per selected placement and half a unit of its own. */
  lemma BudgetKeptInKwh(ps: seq<Placement>, times: seq<int>, budgets: map<int, real>, x: seq<bool>, k: nat)
    requires Ascending(times, budgets) && k < |times| && |x| == |ps|
    requires WithinBudgetAt(ps, times, budgets, x, k)
    ensures GroupEnergy(By(times[k]), ps, x) <= budgets[times[k]] + (Selected(x) as real + 1.0) * 0.00005
  {
    EnergyNearWeight(By(times[k]), ps, x);
  }
}
