/**
  The repetition limit of a stage. It comes from the largest budget and the largest block energy,
  and is meant to follow from the budgets. Here is exactly when it does, and what an optimal
  answer of the solver is worth then.
 */
module MilpCap {
  import opened Wrappers
  import opened Reals
  import opened MilpModel
  import opened MilpConstraints
  import opened MilpPlan
  import opened MilpSelections

  /** Placements stem from the blocks, and each stage has one block. */
  ghost predicate FromBlocks(ps: seq<Placement>, blocks: seq<Block>) {
    && (forall p :: p in ps ==> p.block in blocks)
    && (forall b, c :: b in blocks && c in blocks && b.stageIdx == c.stageIdx ==> b == c)
  }

  /** `y` selects `n` placements of block `b`, no two of which share a slot. */
  ghost predicate DisjointOfBlock(ps: seq<Placement>, b: Block, n: int, y: seq<bool>) {
    && |y| == |ps| && NoSharedSlot(ps, y) && Selected(y) == n
    && forall i :: 0 <= i < |ps| && y[i] ==> ps[i].block == b
  }

  /** The repetition limit rules out no selection that keeps to slots and budgets. */
  ghost predicate CapIsRedundant(ps: seq<Placement>, blocks: seq<Block>, l: Limits)
    requires ValidLimits(l) && ValidBlocks(blocks)
  {
    forall x: seq<bool> :: |x| == |ps| && NoSharedSlot(ps, x) && WithinLimits(ps, l, x) ==> Admissible(ps, blocks, l, x)
  }

  // ---- Selections of one block -------------------------------------------------------------

  lemma {:induction false} SelectedOfBlock(ps: seq<Placement>, b: Block, y: seq<bool>)
    requires |y| == |ps| && forall i :: 0 <= i < |ps| && y[i] ==> ps[i].block == b
    ensures Weight(OfStage(b.stageIdx), ps, y) == Selected(y)
    ensures Weight(FinishedBy(None), ps, y) == Selected(y) * Units(b.energyKwh)
  {
    if ps != [] {
      var n := |ps| - 1;
      SelectedOfBlock(ps[..n], b, y[..n]);
      assert (Selected(y[..n]) + 1) * Units(b.energyKwh) == Selected(y[..n]) * Units(b.energyKwh) + Units(b.energyKwh);
    }
  }

  /** The first `n` selected placements of a stage. */
  ghost function FirstOfStage(ps: seq<Placement>, x: seq<bool>, stage: nat, n: nat): (y: seq<bool>)
    requires |x| == |ps|
    ensures |y| == |ps| && forall i :: 0 <= i < |ps| && y[i] ==> x[i] && ps[i].block.stageIdx == stage
  {
    if ps == [] then []
    else
      var m := |ps| - 1;
      var before := FirstOfStage(ps[..m], x[..m], stage, n);
      before + [x[m] && ps[m].block.stageIdx == stage && Selected(before) < n]
  }

  lemma {:induction false} FirstOfStageCounts(ps: seq<Placement>, x: seq<bool>, stage: nat, n: nat)
    requires |x| == |ps|
    ensures var w := Weight(OfStage(stage), ps, x);
            Selected(FirstOfStage(ps, x, stage, n)) == if w < n then w else n
  {
    if ps != [] {
      var m := |ps| - 1;
      FirstOfStageCounts(ps[..m], x[..m], stage, n);
      var y, before := FirstOfStage(ps, x, stage, n), FirstOfStage(ps[..m], x[..m], stage, n);
      assert y[..m] == before;
    }
  }

  lemma PartKeepsTo(ps: seq<Placement>, l: Limits, x: seq<bool>, y: seq<bool>)
    requires ValidLimits(l) && |x| == |ps| && PartOf(x, y) && NonnegativeUnits(ps)
    requires NoSharedSlot(ps, y) && WithinLimits(ps, l, y)
    ensures NoSharedSlot(ps, x) && WithinLimits(ps, l, x)
  {
    PartWeighsLess(FinishedBy(None), ps, x, y);
    forall k | 0 <= k < |l.times| && Live(ps, l.times, l.budgets, k) && WithinBudgetAt(ps, l.times, l.budgets, y, k)
      ensures WithinBudgetAt(ps, l.times, l.budgets, x, k)
    {
      PartWeighsLess(By(l.times[k]), ps, x, y);
    }
  }

  // ---- What the limit is -------------------------------------------------------------------

  /** `x` is the largest of the numbers. */
  ghost predicate Largest(x: real, xs: seq<real>) { x in xs && forall y :: y in xs ==> y <= x }

  lemma {:induction false} MaxIsLargest(xs: seq<real>)
    requires xs != []
    ensures Largest(MaxOf(xs), xs)
  {
    assert xs == [xs[0]] + xs[1..];
    if |xs| > 1 { MaxIsLargest(xs[1..]); }
  }

  /** The sizes of the blocks; one without energy counts as 1 kWh. */
  ghost function Sizes(blocks: seq<Block>): seq<real> {
    seq(|blocks|, i requires 0 <= i < |blocks| => if blocks[i].energyKwh == 0.0 then 1.0 else blocks[i].energyKwh)
  }

  lemma {:induction false} EnergiesAreSizes(blocks: seq<Block>)
    ensures BlockEnergies(blocks) == Sizes(blocks)
  {
    if blocks != [] {
      EnergiesAreSizes(blocks[1..]);
      assert forall i :: 0 < i < |blocks| ==> BlockEnergies(blocks)[i] == BlockEnergies(blocks[1..])[i - 1];
    }
  }

  /** The limit is the least number of runs of the largest block that use up the largest budget, but at least one. */
  lemma CapUsesUpTheBudget(l: Limits, blocks: seq<Block>, size: real, budget: real, n: nat)
    requires ValidLimits(l) && ValidBlocks(blocks) && Largest(size, Sizes(blocks)) && n >= 1
    requires if l.times != [] then Largest(budget, BudgetsInOrder(l))
             else l.availableKwh == Some(budget) && budget > 0.0
    ensures RepetitionCap(l, blocks) <= n <==> budget <= n as real * size
  {
    EnergiesAreSizes(blocks);
    MaxIsLargest(BlockEnergies(blocks));
    LargestEnergyPositive(blocks);
    assert MaxOf(BlockEnergies(blocks)) == size;
    if l.times != [] {
      MaxIsLargest(BudgetsInOrder(l));
      assert MaxOf(BudgetsInOrder(l)) == budget;
    }
    LeastAbove(budget, size, n);
  }

  lemma LeastAbove(x: real, y: real, n: nat)
    requires y > 0.0
    ensures Ceil(x / y) <= n <==> x <= n as real * y
  {
    var q := x / y;
    assert x == q * y;
    assert Ceil(q) <= n <==> q <= n as real;
    if q <= n as real { assert q * y <= n as real * y; } else { assert q * y > n as real * y; }
  }

  /** Without any budget it is twenty. */
  lemma CapWithoutBudget(l: Limits, blocks: seq<Block>)
    requires ValidLimits(l) && ValidBlocks(blocks) && l.times == []
    requires l.availableKwh.None? || l.availableKwh.value <= 0.0
    ensures RepetitionCap(l, blocks) == 20
  {
  }

  // ---- Exactly when the limit is redundant -------------------------------------------------

  /** `y` selects one placement more of block `b` than the limit allows, no two of which share a slot. */
  ghost predicate OneTooMany(ps: seq<Placement>, blocks: seq<Block>, l: Limits, b: Block, y: seq<bool>)
    requires ValidLimits(l) && ValidBlocks(blocks)
  {
    b in blocks && DisjointOfBlock(ps, b, RepetitionCap(l, blocks) + 1, y)
  }

  /** And these placements by themselves are within the budgets. */
  ghost predicate Overflow(ps: seq<Placement>, blocks: seq<Block>, l: Limits, b: Block, y: seq<bool>)
    requires ValidLimits(l) && ValidBlocks(blocks)
  {
    OneTooMany(ps, blocks, l, b, y) && WithinLimits(ps, l, y)
  }

  lemma OverflowIsForbidden(ps: seq<Placement>, blocks: seq<Block>, l: Limits, b: Block, y: seq<bool>)
    requires ValidLimits(l) && ValidBlocks(blocks) && Overflow(ps, blocks, l, b, y)
    ensures !Admissible(ps, blocks, l, y) && !CapIsRedundant(ps, blocks, l)
  {
    SelectedOfBlock(ps, b, y);
    hide RepetitionCap, WithinLimits;
    assert Weight(OfStage(b.stageIdx), ps, y) > RepetitionCap(l, blocks);
  }

  lemma ForbiddenContainsOverflow(ps: seq<Placement>, blocks: seq<Block>, l: Limits, x: seq<bool>)
    returns (b: Block, y: seq<bool>)
    requires ValidLimits(l) && ValidBlocks(blocks) && FromBlocks(ps, blocks) && NonnegativeUnits(ps)
    requires |x| == |ps| && NoSharedSlot(ps, x) && WithinLimits(ps, l, x) && !Admissible(ps, blocks, l, x)
    ensures Overflow(ps, blocks, l, b, y)
  {
    var cap := RepetitionCap(l, blocks);
    b :| b in blocks && Weight(OfStage(b.stageIdx), ps, x) > cap;
    y := FirstOfStage(ps, x, b.stageIdx, cap + 1);
    FirstOfStageCounts(ps, x, b.stageIdx, cap + 1);
    forall i | 0 <= i < |ps| && y[i] ensures ps[i].block == b { assert ps[i] in ps; }
    hide RepetitionCap, WithinLimits;
    PartKeepsTo(ps, l, y, x);
  }

  /** For budgets of any kind: the limit is redundant if and only if no block overflows it on its own. */
  lemma CapIsRedundantIff(ps: seq<Placement>, blocks: seq<Block>, l: Limits)
    requires ValidLimits(l) && ValidBlocks(blocks) && FromBlocks(ps, blocks) && NonnegativeUnits(ps)
    ensures CapIsRedundant(ps, blocks, l) <==> !exists b, y :: Overflow(ps, blocks, l, b, y)
  {
    if !CapIsRedundant(ps, blocks, l) {
      var x: seq<bool> :| |x| == |ps| && NoSharedSlot(ps, x) && WithinLimits(ps, l, x) && !Admissible(ps, blocks, l, x);
      var b, y := ForbiddenContainsOverflow(ps, blocks, l, x);
    }
    forall b, y | Overflow(ps, blocks, l, b, y) ensures !CapIsRedundant(ps, blocks, l) {
      OverflowIsForbidden(ps, blocks, l, b, y);
    }
  }

  /** Energy of one block more than the limit allows. */
  function OverflowUnits(l: Limits, blocks: seq<Block>, b: Block): int
    requires ValidLimits(l) && ValidBlocks(blocks)
  {
    (RepetitionCap(l, blocks) + 1) * Units(b.energyKwh)
  }

  /**
    With one budget for all: the limit is redundant if and only if no block that could be paid for
    once more than the limit allows has that many disjoint placements.
   */
  lemma OneBudgetCapIsRedundantIff(ps: seq<Placement>, blocks: seq<Block>, l: Limits)
    requires ValidLimits(l) && ValidBlocks(blocks) && FromBlocks(ps, blocks) && NonnegativeUnits(ps) && OneBudget(l)
    ensures CapIsRedundant(ps, blocks, l)
            <==> forall b, y :: OneTooMany(ps, blocks, l, b, y) ==>
                   OverflowUnits(l, blocks, b) > Units(l.availableKwh.value)
  {
    CapIsRedundantIff(ps, blocks, l);
    forall b, y | OneTooMany(ps, blocks, l, b, y)
      ensures Overflow(ps, blocks, l, b, y) <==> OverflowUnits(l, blocks, b) <= Units(l.availableKwh.value)
    {
      SelectedOfBlock(ps, b, y);
    }
  }

  // ---- The largest block is never restricted -----------------------------------------------

  lemma CountBelowCap(count: int, energy: real, budget: real)
    requires energy > 0.0 && WholeUnits(energy) && WholeUnits(budget)
    requires Units(energy) * count <= Units(budget) && count >= 0
    ensures count <= Ceil(budget / energy)
  {
    assert Units(energy) as real * count as real <= Units(budget) as real;
    assert energy * 10000.0 * count as real <= budget * 10000.0;
    assert energy * count as real <= budget;
    assert count as real <= budget / energy;
  }

  /** In whole units a block of the largest energy cannot be paid for more often than the limit allows. */
  lemma LargestBlockStaysBelow(blocks: seq<Block>, l: Limits, b: Block)
    requires ValidLimits(l) && ValidBlocks(blocks) && OneBudget(l)
    requires b.energyKwh > 0.0 && b.energyKwh == MaxOf(BlockEnergies(blocks))
    requires WholeUnits(b.energyKwh) && WholeUnits(l.availableKwh.value)
    ensures OverflowUnits(l, blocks, b) > Units(l.availableKwh.value)
  {
    if OverflowUnits(l, blocks, b) <= Units(l.availableKwh.value) {
      CountBelowCap(RepetitionCap(l, blocks) + 1, b.energyKwh, l.availableKwh.value);
    }
  }

  /** So the limit restricts only smaller blocks: if all are of the same size, none. */
  lemma EqualBlocksAreFree(ps: seq<Placement>, blocks: seq<Block>, l: Limits)
    requires ValidLimits(l) && ValidBlocks(blocks) && FromBlocks(ps, blocks) && NonnegativeUnits(ps) && OneBudget(l)
    requires forall b :: b in blocks ==>
              b.energyKwh > 0.0 && b.energyKwh == MaxOf(BlockEnergies(blocks)) && WholeUnits(b.energyKwh)
    requires WholeUnits(l.availableKwh.value)
    ensures CapIsRedundant(ps, blocks, l)
  {
    forall b | b in blocks ensures OverflowUnits(l, blocks, b) > Units(l.availableKwh.value) {
      LargestBlockStaysBelow(blocks, l, b);
    }
    OneBudgetCapIsRedundantIff(ps, blocks, l);
  }

  // ---- Optimality --------------------------------------------------------------------------

  ghost function ObjectiveValue(objective: seq<int>, x: seq<bool>): int
    requires |objective| == |x|
  {
    if x == [] then 0
    else
      var n := |x| - 1;
      ObjectiveValue(objective[..n], x[..n]) + if x[n] then objective[n] else 0
  }

  /** The solver's promise: a feasible vector that no feasible vector beats. */
  ghost predicate Optimal(lp: Lp, x: seq<bool>) {
    && Feasible(lp, x) && |lp.objective| == lp.vars
    && forall y :: Feasible(lp, y) ==> ObjectiveValue(lp.objective, y) <= ObjectiveValue(lp.objective, x)
  }

  /** `lp` is the model of these placements and limits. */
  ghost predicate Models(lp: Lp, ps: seq<Placement>, blocks: seq<Block>, l: Limits)
    requires ValidLimits(l) && ValidBlocks(blocks)
  {
    && lp.vars == |ps| && lp.objective == Objective(ps)
    && forall x: seq<bool> :: |x| == |ps| ==> (Feasible(lp, x) <==> Admissible(ps, blocks, l, x))
  }

  /** Where the limit is redundant, an optimal answer is at least as good as every selection within the budgets. */
  lemma OptimumBeatsSelections(ps: seq<Placement>, blocks: seq<Block>, l: Limits, lp: Lp, x: seq<bool>, y: seq<bool>)
    requires ValidLimits(l) && ValidBlocks(blocks) && Models(lp, ps, blocks, l)
    requires CapIsRedundant(ps, blocks, l) && Optimal(lp, x)
    requires |y| == |ps| && NoSharedSlot(ps, y) && WithinLimits(ps, l, y)
    ensures |x| == |ps| && ObjectiveValue(Objective(ps), y) <= ObjectiveValue(Objective(ps), x)
  {
  }

  // ---- One stage ---------------------------------------------------------------------------

  ghost predicate OneStage(ps: seq<Placement>, block: Block) {
    forall p :: p in ps ==> p.block == block
  }

  /** With one stage and one budget in whole units the repetition limit is redundant. */
  lemma OneStageCapIsRedundant(ps: seq<Placement>, block: Block, available: real)
    requires OneStage(ps, block) && available > 0.0
    requires block.energyKwh > 0.0 && WholeUnits(block.energyKwh) && WholeUnits(available)
    ensures CapIsRedundant(ps, [block], Limits([], map[], Some(available)))
  {
    assert BlockEnergies([block]) == [block.energyKwh];
    EqualBlocksAreFree(ps, [block], Limits([], map[], Some(available)));
  }

  /** Then the model admits exactly the selections that use no slot twice and stay within the budget. */
  lemma OneStageModelIsExact(ps: seq<Placement>, block: Block, available: real, x: seq<bool>)
    requires |x| == |ps| && OneStage(ps, block) && available > 0.0
    requires block.energyKwh > 0.0 && WholeUnits(block.energyKwh) && WholeUnits(available)
    ensures Admissible(ps, [block], Limits([], map[], Some(available)), x)
            <==> NoSharedSlot(ps, x) && GroupEnergy(FinishedBy(None), ps, x) <= available
  {
    OneStageCapIsRedundant(ps, block, available);
    EnergyIsWeight(FinishedBy(None), ps, x);
  }

  /** So an optimal answer of the solver is at least as good as every plan within the budget. */
  lemma OptimumBeatsEveryPlan(ps: seq<Placement>, block: Block, available: real, lp: Lp, x: seq<bool>, y: seq<bool>)
    requires OneStage(ps, block) && available > 0.0
    requires block.energyKwh > 0.0 && WholeUnits(block.energyKwh) && WholeUnits(available)
    requires Models(lp, ps, [block], Limits([], map[], Some(available))) && Optimal(lp, x)
    requires |y| == |ps| && NoSharedSlot(ps, y) && GroupEnergy(FinishedBy(None), ps, y) <= available
    ensures ObjectiveValue(Objective(ps), y) <= ObjectiveValue(Objective(ps), x)
  {
    var l := Limits([], map[], Some(available));
    OneStageCapIsRedundant(ps, block, available);
    OneStageModelIsExact(ps, block, available, y);
    OptimumBeatsSelections(ps, [block], l, lp, x, y);
  }

  // ---- Two stages --------------------------------------------------------------------------

  lemma LargerOfTwo(small: Block, large: Block)
    requires 0.0 < small.energyKwh < large.energyKwh
    ensures MaxOf(BlockEnergies([small, large])) == large.energyKwh
  {
    assert [small, large][1..] == [large] && [large][1..] == [];
    assert BlockEnergies([small, large]) == [small.energyKwh, large.energyKwh];
    assert [small.energyKwh, large.energyKwh][1..] == [large.energyKwh];
  }

  /** Five slots at 8 kW. */
  const EIGHT_KW := Block([Entry(-8000.0, 5)], [-8000.0, -8000.0, -8000.0, -8000.0, -8000.0], 10.0, 1)

  lemma EightKwIsValid()
    ensures ValidBlock(EIGHT_KW, SLOT_DURATION_HOURS)
  {
    var w := -8000.0;
    assert Repeat(w, 2) == [w, w] && Repeat(w, 4) == [w, w, w, w];
    assert EIGHT_KW.chain[1..] == [];
    assert ExpandChainSlots(EIGHT_KW.chain) == EIGHT_KW.expanded;
    assert [w, w, w, w, w][1..] == [w, w, w, w] && [w, w, w, w][1..] == [w, w, w] && [w, w, w][1..] == [w, w];
    assert [w, w][1..] == [w] && [w][1..] == [];
    assert EnergyKwh([], SLOT_DURATION_HOURS) == 0.0;
    assert EnergyKwh([w, w], SLOT_DURATION_HOURS) == 4.0;
    assert EnergyKwh([w, w, w, w], SLOT_DURATION_HOURS) == 8.0;
  }

  const TWO_SLOTS := [Slot(0, 1.0), Slot(900, 1.0)]

  /** The small block's runs in two slots, for which the large one is too long: all placements there are. */
  lemma TwoRunsAreReal()
    ensures forall p :: p in [FourKwAt(TWO_SLOTS[0], 0), FourKwAt(TWO_SLOTS[1], 1)]
                        <==> ValidPlacement(p, TWO_SLOTS, map[0 := 0, 900 := 1], [FOUR_KW, EIGHT_KW], 900)
  {
    var index, blocks := map[0 := 0, 900 := 1], [FOUR_KW, EIGHT_KW];
    assert |FOUR_KW.expanded| == 1 && |EIGHT_KW.expanded| == 5;
    FourKwPlaced(TWO_SLOTS, index, 0, blocks, 900);
    FourKwPlaced(TWO_SLOTS, index, 1, blocks, 900);
    forall p | ValidPlacement(p, TWO_SLOTS, index, blocks, 900)
      ensures p in [FourKwAt(TWO_SLOTS[0], 0), FourKwAt(TWO_SLOTS[1], 1)]
    {
      assert p.block == FOUR_KW && (p.first == 0 || p.first == 1);
    }
  }

  /** With a small and a large block the limit does forbid: the budget pays for ten small runs, the limit is one. */
  lemma RepetitionCapCanForbid()
    ensures ValidBlock(FOUR_KW, SLOT_DURATION_HOURS) && ValidBlock(EIGHT_KW, SLOT_DURATION_HOURS)
    ensures var ps := [FourKwAt(TWO_SLOTS[0], 0), FourKwAt(TWO_SLOTS[1], 1)];
            && (forall p :: p in ps <==> ValidPlacement(p, TWO_SLOTS, map[0 := 0, 900 := 1], [FOUR_KW, EIGHT_KW], 900))
            && !CapIsRedundant(ps, [FOUR_KW, EIGHT_KW], Limits([], map[], Some(10.0)))
  {
    FourKwIsValid();
    EightKwIsValid();
    TwoRunsAreReal();
    TwoRunsAreForbidden();
  }

  lemma TwoRunsAreForbidden()
    ensures var ps := [FourKwAt(TWO_SLOTS[0], 0), FourKwAt(TWO_SLOTS[1], 1)];
            !CapIsRedundant(ps, [FOUR_KW, EIGHT_KW], Limits([], map[], Some(10.0)))
  {
    var ps, blocks, y := [FourKwAt(TWO_SLOTS[0], 0), FourKwAt(TWO_SLOTS[1], 1)], [FOUR_KW, EIGHT_KW], [true, true];
    var l := Limits([], map[], Some(10.0));
    assert Units(1.0) == 10000 && Units(10.0) == 100000;
    assert y[..1] == [true] && [true][..0] == [];
    assert Selected([true]) == 1;
    LargerOfTwo(FOUR_KW, EIGHT_KW);
    assert RepetitionCap(l, blocks) == 1;
    hide RepetitionCap;
    assert FOUR_KW in blocks;
    assert OneTooMany(ps, blocks, l, FOUR_KW, y);
    assert OverflowUnits(l, blocks, FOUR_KW) == 20000;
    OneBudgetCapIsRedundantIff(ps, blocks, l);
  }
}
