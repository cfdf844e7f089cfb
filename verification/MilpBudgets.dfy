/**
  When the emitted constraints keep a budget. Budgets of zero or less emit none, and a constraint
  is skipped if it looks like the one before, emitted or not; so a budget below one unit may not
  be kept. Here is for every budget exactly when it is.
 */
module MilpBudgets {
  import opened Wrappers
  import opened Integers
  import opened MilpModel
  import opened MilpConstraints
  import opened MilpPlan
  import opened MilpSelections

  /** The placement alone exceeds some budget in force. */
  ghost predicate TooLarge(p: Placement, ps: seq<Placement>, times: seq<int>, budgets: map<int, real>)
    requires Ascending(times, budgets)
  {
    exists m :: 0 <= m < |times| && Live(ps, times, budgets, m) && Exceeds(p, times[m], budgets[times[m]])
  }

  ghost predicate Exceeds(p: Placement, t: int, budget: real) {
    Finished(p, Some(t)) && Units(p.block.energyKwh) > Units(budget)
  }

  /**
    Budget `k` binds: it is at least one unit, or it is in force, or no placement that spends
    anything by its time can be selected at all.
   */
  ghost predicate Binds(ps: seq<Placement>, times: seq<int>, budgets: map<int, real>, k: nat)
    requires Ascending(times, budgets) && k < |times|
  {
    || Units(budgets[times[k]]) >= 1
    || Live(ps, times, budgets, k)
    || forall p :: p in ps && Finished(p, Some(times[k])) && Units(p.block.energyKwh) >= 1 ==>
          TooLarge(p, ps, times, budgets)
  }

  /** A selected placement weighs on its group. */
  lemma SelectedWeighs(g: Group, ps: seq<Placement>, x: seq<bool>, i: nat)
    requires |x| == |ps| && i < |ps| && x[i] && NonnegativeUnits(ps) && In(g, ps[i])
    ensures Weight(g, ps, x) >= Coef(g, ps[i])
  {
    PartWeighsLess(g, ps, Only(|ps|, i), x);
    WeightOfOnly(g, ps, i);
  }

  lemma {:induction false} SomethingWeighs(ps: seq<Placement>, x: seq<bool>, t: int) returns (i: nat)
    requires |x| == |ps| && Weight(By(t), ps, x) > 0
    ensures i < |ps| && x[i] && Finished(ps[i], Some(t)) && Units(ps[i].block.energyKwh) >= 1
  {
    var n := |ps| - 1;
    if x[n] && Finished(ps[n], Some(t)) && Units(ps[n].block.energyKwh) >= 1 {
      i := n;
    } else {
      i := SomethingWeighs(ps[..n], x[..n], t);
    }
  }

  /** What can be spent by time `k`; a negative budget leaves nothing to spend. */
  function Spendable(times: seq<int>, budgets: map<int, real>, k: nat): int
    requires Ascending(times, budgets) && k < |times|
  {
    Max(0, Units(budgets[times[k]]))
  }

  lemma BindingBudgetIsKept(ps: seq<Placement>, times: seq<int>, budgets: map<int, real>, x: seq<bool>, k: nat)
    requires Ascending(times, budgets) && k < |times| && |x| == |ps| && NonnegativeUnits(ps)
    requires Binds(ps, times, budgets, k) && WithinLiveBudgets(ps, times, budgets, x, |times|)
    ensures Weight(By(times[k]), ps, x) <= Spendable(times, budgets, k)
  {
    if Units(budgets[times[k]]) >= 1 {
      BudgetKept(ps, times, budgets, x, k);
    } else if !Live(ps, times, budgets, k) && Weight(By(times[k]), ps, x) > 0 {
      var i := SomethingWeighs(ps, x, times[k]);
      var p := ps[i];
      assert p in ps && TooLarge(p, ps, times, budgets);
      var m :| 0 <= m < |times| && Live(ps, times, budgets, m) && Exceeds(p, times[m], budgets[times[m]]);
      SelectedWeighs(By(times[m]), ps, x, i);
    }
  }

  /** A budget that does not bind is broken by a single placement that all constraints admit. */
  lemma LooseBudgetIsBroken(ps: seq<Placement>, times: seq<int>, budgets: map<int, real>, k: nat) returns (i: nat)
    requires Ascending(times, budgets) && k < |times| && NonnegativeUnits(ps) && !Binds(ps, times, budgets, k)
    ensures i < |ps| && WithinLiveBudgets(ps, times, budgets, Only(|ps|, i), |times|)
    ensures Weight(By(times[k]), ps, Only(|ps|, i)) > Spendable(times, budgets, k)
  {
    var p :| p in ps && Finished(p, Some(times[k])) && Units(p.block.energyKwh) >= 1
      && !TooLarge(p, ps, times, budgets);
    i :| 0 <= i < |ps| && ps[i] == p;
    WeightOfOnly(By(times[k]), ps, i);
    forall m | 0 <= m < |times| && Live(ps, times, budgets, m)
      ensures WithinBudgetAt(ps, times, budgets, Only(|ps|, i), m)
    {
      WeightOfOnly(By(times[m]), ps, i);
      assert !Exceeds(p, times[m], budgets[times[m]]);
    }
  }

  /** Selecting nothing keeps within every budget in force. */
  lemma NothingIsWithin(ps: seq<Placement>, times: seq<int>, budgets: map<int, real>)
    requires Ascending(times, budgets)
    ensures WithinLiveBudgets(ps, times, budgets, Only(|ps|, |ps|), |times|)
    ensures forall k :: 0 <= k < |times| ==> Weight(By(times[k]), ps, Only(|ps|, |ps|)) == 0
  {
    forall k | 0 <= k < |times| ensures Weight(By(times[k]), ps, Only(|ps|, |ps|)) == 0 {
      WeightOfOnly(By(times[k]), ps, |ps|);
    }
  }

  /** The emitted constraints keep budget `k`: no vector they admit spends more. */
  ghost predicate RowsKeep(ps: seq<Placement>, times: seq<int>, budgets: map<int, real>, k: nat)
    requires Ascending(times, budgets) && k < |times|
  {
    forall x: seq<bool> :: |x| == |ps| && Satisfies(EnergyRows(ps, times, budgets, |times|), x) ==>
          WithinBudgetAt(ps, times, budgets, x, k)
  }

  /** Exactly when the emitted energy constraints keep a budget, whatever its size and sign. */
  lemma RowsKeepIffBinding(ps: seq<Placement>, times: seq<int>, budgets: map<int, real>, k: nat)
    requires Ascending(times, budgets) && k < |times| && NonnegativeUnits(ps)
    ensures RowsKeep(ps, times, budgets, k) <==> Units(budgets[times[k]]) >= 0 && Binds(ps, times, budgets, k)
  {
    hide Live, Binds, WithinLiveBudgets;
    if Units(budgets[times[k]]) >= 0 && Binds(ps, times, budgets, k) {
      forall x: seq<bool> | |x| == |ps| && Satisfies(EnergyRows(ps, times, budgets, |times|), x)
        ensures WithinBudgetAt(ps, times, budgets, x, k)
      {
        RowsMeanLiveBudgets(ps, times, budgets, x, |times|);
        BindingBudgetIsKept(ps, times, budgets, x, k);
      }
    } else if !Binds(ps, times, budgets, k) {
      var i := LooseBudgetIsBroken(ps, times, budgets, k);
      RowsMeanLiveBudgets(ps, times, budgets, Only(|ps|, i), |times|);
    } else {
      NothingIsWithin(ps, times, budgets);
      RowsMeanLiveBudgets(ps, times, budgets, Only(|ps|, |ps|), |times|);
    }
  }

  // ---- With all the other constraints ------------------------------------------------------

  /** No selection the whole model admits spends more by time `k` than there is, nothing if the budget is negative. */
  ghost predicate ModelKeeps(ps: seq<Placement>, blocks: seq<Block>, l: Limits, k: nat)
    requires ValidLimits(l) && ValidBlocks(blocks) && k < |l.times|
  {
    forall x: seq<bool> :: |x| == |ps| && Admissible(ps, blocks, l, x) ==>
          Weight(By(l.times[k]), ps, x) <= Spendable(l.times, l.budgets, k)
  }

  /** The other constraints do not help: the whole model keeps a budget exactly when it binds. */
  lemma ModelKeepsIffBinding(ps: seq<Placement>, blocks: seq<Block>, l: Limits, k: nat)
    requires ValidLimits(l) && ValidBlocks(blocks) && k < |l.times| && NonnegativeUnits(ps)
    ensures ModelKeeps(ps, blocks, l, k) <==> Binds(ps, l.times, l.budgets, k)
  {
    hide Live, Binds, WithinLiveBudgets, RepetitionCap;
    if Binds(ps, l.times, l.budgets, k) {
      forall x: seq<bool> | |x| == |ps| && Admissible(ps, blocks, l, x)
        ensures Weight(By(l.times[k]), ps, x) <= Spendable(l.times, l.budgets, k)
      {
        BindingBudgetIsKept(ps, l.times, l.budgets, x, k);
      }
    } else {
      var i := LooseBudgetIsBroken(ps, l.times, l.budgets, k);
      var x := Only(|ps|, i);
      forall b | b in blocks ensures Weight(OfStage(b.stageIdx), ps, x) <= RepetitionCap(l, blocks) {
        WeightOfOnly(OfStage(b.stageIdx), ps, i);
      }
      assert Admissible(ps, blocks, l, x);
    }
  }

  // ---- Concrete budgets --------------------------------------------------------------------

  function Discharge(finished: int): Placement { FourKwAt(Slot(finished, 5.0), 0) }

  /** With one slot to discharge in, this is the one placement there is. */
  lemma DischargeIsReal(t: int, d: int)
    ensures ValidBlock(FOUR_KW, SLOT_DURATION_HOURS)
    ensures forall p :: ValidPlacement(p, [Slot(t, 5.0)], map[t := 0], [FOUR_KW], d) <==> p == Discharge(t)
  {
    FourKwIsValid();
    FourKwPlaced([Slot(t, 5.0)], map[t := 0], 0, [FOUR_KW], d);
    assert FOUR_KW.expanded != [];
    forall p | ValidPlacement(p, [Slot(t, 5.0)], map[t := 0], [FOUR_KW], d) ensures p == Discharge(t) {
      assert p.block == FOUR_KW && p.first == 0;
    }
  }

  lemma OneDischarge(t: int)
    ensures Units(1.0) == 10000 && NonnegativeUnits([Discharge(t)])
    ensures forall u :: SomeFinished([Discharge(t)], u) <==> t <= u
    ensures forall u, v :: NoneFinishesBetween([Discharge(t)], u, v) <==> (t <= v ==> t <= u)
  {
    var p := Discharge(t);
    assert Units(1.0) == 10000;
    assert p.timestamps == [t] && t in p.timestamps;
    assert forall u :: Finished(p, Some(u)) <==> t <= u;
    assert p in [p];
  }

  /** A budget of zero alone emits no constraint: the discharge is admitted although nothing may be spent. */
  lemma ZeroBudgetDoesNotLimit()
    ensures EnergyRows([Discharge(900)], [900], map[900 := 0.0], 1) == []
    ensures !RowsKeep([Discharge(900)], [900], map[900 := 0.0], 0)
  {
    var p, budgets := Discharge(900), map[900 := 0.0];
    OneDischarge(900);
    assert Units(0.0) == 0;
    assert !Live([p], [900], budgets, 0);
    assert p in [p] && !TooLarge(p, [p], [900], budgets);
    RowsKeepIffBinding([p], [900], budgets, 0);
  }

  /** A positive budget that rounds to no unit does limit, unless it repeats a zero budget: then it is skipped too. */
  lemma TinyBudgetLimitsUnlessSkipped()
    ensures RowsKeep([Discharge(900)], [900], map[900 := 0.00003], 0)
    ensures !RowsKeep([Discharge(900)], [900, 1800], map[900 := 0.0, 1800 := 0.00003], 1)
  {
    var p, tiny, two := Discharge(900), map[900 := 0.00003], map[900 := 0.0, 1800 := 0.00003];
    assert Units(0.0) == 0 && Units(0.00003) == 0;
    OneDischarge(900);
    assert Live([p], [900], tiny, 0);
    RowsKeepIffBinding([p], [900], tiny, 0);
    OneDischarge(900);
    assert !Live([p], [900, 1800], two, 0);
    assert !Live([p], [900, 1800], two, 1);
    assert p in [p] && !TooLarge(p, [p], [900, 1800], two);
    RowsKeepIffBinding([p], [900, 1800], two, 1);
  }

  /** A zero budget is kept where a later budget in force already rules the discharge out. */
  lemma LaterBudgetCanBind()
    ensures RowsKeep([Discharge(900)], [900, 1800], map[900 := 0.0, 1800 := 0.5], 0)
  {
    var p, times, budgets := Discharge(900), [900, 1800], map[900 := 0.0, 1800 := 0.5];
    assert Units(0.0) == 0 && Units(0.5) == 5000;
    OneDischarge(900);
    assert Live([p], times, budgets, 1);
    assert Finished(p, Some(1800)) && Exceeds(p, times[1], budgets[times[1]]);
    assert TooLarge(p, [p], times, budgets);
    RowsKeepIffBinding([p], times, budgets, 0);
  }
}
