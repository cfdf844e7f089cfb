/**
  From the slots to the plan: its order, its energy, and how much another choice could earn more.
 */
module MilpChoice {
  import opened Wrappers
  import opened Reals
  import opened Sorting
  import opened MilpModel
  import opened MilpConstraints
  import opened MilpPlan
  import opened MilpSelections
  import opened MilpBudgets
  import opened MilpCap
  import opened MilpAssembly
  import opened MilpValue
  import opened MilpPayment

  // ---- The whole choice ------------------------------------------------------------------

  function BlocksOf(chains: seq<seq<Entry>>, slotHours: real): (r: seq<Block>)
    ensures forall b :: b in r ==> ValidBlock(b, slotHours) && b.stageIdx < |chains|
  {
    if chains == [] then []
    else
      var n := |chains| - 1;
      var expanded := ExpandChainSlots(chains[n]);
      BlocksOf(chains[..n], slotHours)
      + if expanded == [] then [] else [Block(chains[n], expanded, EnergyKwh(expanded, slotHours), n)]
  }

  lemma {:induction false} EnergyNonnegative(expanded: seq<real>, slotHours: real)
    requires slotHours >= 0.0
    ensures EnergyKwh(expanded, slotHours) >= 0.0
  {
    if expanded != [] {
      EnergyNonnegative(expanded[1..], slotHours);
      assert Abs(expanded[0]) / 1000.0 * slotHours >= 0.0;
    }
  }

  function Same(t: int): int { t }

  /** The last entry for a time counts. */
  function BudgetMap(entries: seq<(int, real)>): map<int, real> {
    if entries == [] then map[]
    else BudgetMap(entries[..|entries| - 1])[entries[|entries| - 1].0 := entries[|entries| - 1].1]
  }

  /** Every stage whose chain takes a slot has its block, and no other block is built. */
  lemma {:induction false} EveryStageHasItsBlock(chains: seq<seq<Entry>>, slotHours: real, b: Block)
    ensures b in BlocksOf(chains, slotHours)
            <==> b.stageIdx < |chains| && b.chain == chains[b.stageIdx] && b.expanded == ExpandChainSlots(b.chain) != []
                 && b.energyKwh == Discharged(b.expanded, slotHours)
  {
    EnergyIsDischarged(b.expanded, slotHours);
    hide Discharged, EnergyKwh, ExpandChainSlots;
    if chains != [] {
      EveryStageHasItsBlock(chains[..|chains| - 1], slotHours, b);
    }
  }

  /** A time's budget is that of its last entry. */
  lemma {:induction false} LastEntryCounts(entries: seq<(int, real)>, i: nat)
    requires i < |entries| && forall j :: i < j < |entries| ==> entries[j].0 != entries[i].0
    ensures entries[i].0 in BudgetMap(entries) && BudgetMap(entries)[entries[i].0] == entries[i].1
  {
    var n := |entries| - 1;
    if i < n { LastEntryCounts(entries[..n], i); }
  }

  /** The keys in order of first appearance. */
  function Keys(entries: seq<(int, real)>): (r: seq<int>)
    ensures forall t :: t in r <==> t in BudgetMap(entries)
  {
    if entries == [] then []
    else
      var n := |entries| - 1;
      var before := Keys(entries[..n]);
      if entries[n].0 in before then before else before + [entries[n].0]
  }

  function LimitsOf(entries: seq<(int, real)>, availableKwh: Option<real>): (l: Limits)
    ensures ValidLimits(l)
  {
    SameElements(Keys(entries), Same);
    var times := StableSort(Keys(entries), Same);
    assert forall i :: 0 <= i < |times| ==> times[i] in times;
    assert forall i, j :: 0 <= i < j < |times| ==> Same(times[i]) <= Same(times[j]);
    Limits(times, BudgetMap(entries), availableKwh)
  }

  method BuildSlotIndex(slots: seq<Slot>) returns (m: map<int, nat>)
    ensures SlotIndex(m, slots)
  {
    m := map[];
    var i := 0;
    while i < |slots|
      invariant 0 <= i <= |slots|
      invariant forall j :: 0 <= j < i ==> slots[j].ts in m
      invariant forall t :: t in m ==> m[t] < |slots| && slots[m[t]].ts == t
    {
      m := m[slots[i].ts := i];
      i := i + 1;
    }
  }

  /** Disjoint placements, sorted by their start, come one after the other. */
  lemma SortedDisjointInOrder(sel: seq<Placement>, slots: seq<Slot>, slotIndex: map<int, nat>, blocks: seq<Block>,
                              d: int)
    requires SortedBy(slots, SlotTs) && SlotIndex(slotIndex, slots) && d > 0
    requires SortedBy(sel, FirstTs) && PairwiseDisjoint(sel)
    requires forall p :: p in sel ==> ValidPlacement(p, slots, slotIndex, blocks, d)
    ensures InOrder(sel) && forall p :: p in sel ==> InTime(p, slots)
  {
    hide ValidPlacement, SlotIndex;
    forall p | p in sel ensures InTime(p, slots) {
      PlacementInTime(p, slots, slotIndex, blocks, d);
    }
    forall i, j | 0 <= i < j < |sel|
      ensures sel[i].timestamps != [] && sel[j].timestamps != []
              && sel[i].timestamps[|sel[i].timestamps| - 1] < sel[j].timestamps[0]
    {
      FollowsInOrder(sel[i], sel[j], slots, slotIndex, blocks, d);
    }
    forall p | p in sel ensures p.timestamps != [] {
      assert InTime(p, slots);
    }
    forall i | 0 <= i < |sel| ensures InTime(sel[i], slots) {
      assert sel[i] in sel;
    }
  }

  lemma FollowsInOrder(p: Placement, q: Placement, slots: seq<Slot>, slotIndex: map<int, nat>, blocks: seq<Block>,
                       d: int)
    requires SortedBy(slots, SlotTs) && SlotIndex(slotIndex, slots) && d > 0
    requires ValidPlacement(p, slots, slotIndex, blocks, d) && ValidPlacement(q, slots, slotIndex, blocks, d)
    requires Disjoint(p, q) && FirstTs(p) <= FirstTs(q)
    ensures p.timestamps != [] && q.timestamps != [] && p.timestamps[|p.timestamps| - 1] < q.timestamps[0]
  {
    PlacementInTime(p, slots, slotIndex, blocks, d);
    PlacementInTime(q, slots, slotIndex, blocks, d);
    PlacementsConsistent(p, q, slots, slotIndex, blocks, d);
    hide ValidPlacement, SlotIndex;
    DisjointPlacementsFollow(p, q, slots);
  }

  /** What the returned plan promises, for the budgets `l`. */
  ghost predicate GoodPlan(plan: Plan, slots: seq<Slot>, l: Limits) {
    && StrictlyIncreasing(plan.timestamps)
    && ExpandChainSlots(plan.chain) == AllPowers(plan.blocks)
    && |plan.timestamps| == |ExpandChainSlots(plan.chain)|
    && plan.totalRevenueCt == TotalRevenue(plan.blocks) && IsPeak(plan.peakDischargeW, AllPowers(plan.blocks))
    && (forall t :: t in plan.timestamps ==> exists i :: 0 <= i < |slots| && slots[i].ts == t)
    && PaidBySlot(plan, slots)
    && Affordable(plan.blocks, l)
  }

  /** Each budget of at least one unit is kept, and the budget for all if it is the one that counts. */
  ghost predicate Affordable(sel: seq<Placement>, l: Limits) {
    && (forall t :: t in l.budgets && Rounded(10000.0 * l.budgets[t]) >= 1 ==>
          SpentBy(sel, Some(t)) <= Rounded(10000.0 * l.budgets[t]))
    && (OneBudget(l) ==> SpentBy(sel, None) <= Rounded(10000.0 * l.availableKwh.value))
  }

  lemma WithinLimitsIsAffordable(ps: seq<Placement>, x: seq<bool>, sel: seq<Placement>, l: Limits)
    requires |x| == |ps| && ValidLimits(l) && WithinLimits(ps, l, x) && sel == StableSort(Chosen(ps, x), FirstTs)
    ensures Affordable(sel, l)
  {
    hide StableSort, Chosen, UnitsBy, SpentBy;
    forall t | t in l.budgets && Units(l.budgets[t]) >= 1 ensures SpentBy(sel, Some(t)) <= Units(l.budgets[t]) {
      SpentIsUnits(sel, Some(t));
      PlanCounts(ps, x, sel, Some(t));
      var k :| 0 <= k < |l.times| && l.times[k] == t;
      BudgetKept(ps, l.times, l.budgets, x, k);
    }
    SpentIsUnits(sel, None);
    PlanCounts(ps, x, sel, None);
  }

  /** By each time the plan spends no more than there is, exactly where the budget binds. */
  ghost predicate BindingBudgetsKept(sel: seq<Placement>, ps: seq<Placement>, l: Limits)
    requires ValidLimits(l)
  {
    forall k :: 0 <= k < |l.times| && Binds(ps, l.times, l.budgets, k) ==>
          UnitsBy(sel, Some(l.times[k])) <= Spendable(l.times, l.budgets, k)
  }

  lemma PlanKeepsBindingBudgets(ps: seq<Placement>, x: seq<bool>, sel: seq<Placement>, l: Limits)
    requires |x| == |ps| && ValidLimits(l) && WithinLimits(ps, l, x) && sel == StableSort(Chosen(ps, x), FirstTs)
    requires NonnegativeUnits(ps)
    ensures BindingBudgetsKept(sel, ps, l)
  {
    hide StableSort, Chosen, UnitsBy, Binds;
    forall k | 0 <= k < |l.times| && Binds(ps, l.times, l.budgets, k)
      ensures UnitsBy(sel, Some(l.times[k])) <= Spendable(l.times, l.budgets, k)
    {
      PlanCounts(ps, x, sel, Some(l.times[k]));
      BindingBudgetIsKept(ps, l.times, l.budgets, x, k);
    }
  }

  lemma {:induction false} TimestampsFromSlots(sel: seq<Placement>, slots: seq<Slot>)
    requires forall p :: p in sel ==> InTime(p, slots)
    ensures forall t :: t in AllTimestamps(sel) ==> exists i :: 0 <= i < |slots| && slots[i].ts == t
  {
    if sel != [] {
      var n := |sel| - 1;
      assert sel[n] in sel;
      TimestampsFromSlots(sel[..n], slots);
    }
  }

  /** An admissible selection of valid placements makes a good plan. */
  lemma AdmissibleMakesGoodPlan(ps: seq<Placement>, x: seq<bool>, plan: Plan, slots: seq<Slot>,
                                slotIndex: map<int, nat>, blocks: seq<Block>, slotHours: real, l: Limits, d: int)
    requires SortedBy(slots, SlotTs) && SlotIndex(slotIndex, slots) && d > 0
    requires forall b :: b in blocks ==> ValidBlock(b, slotHours)
    requires forall p :: p in ps ==> ValidPlacement(p, slots, slotIndex, blocks, d)
    requires |x| == |ps| && ValidLimits(l) && NoSharedSlot(ps, x) && WithinLimits(ps, l, x)
    requires plan.blocks == StableSort(Chosen(ps, x), FirstTs)
    requires plan.timestamps == AllTimestamps(plan.blocks) && plan.chain == AllEntries(plan.blocks)
    requires plan.totalRevenueCt == TotalRevenue(plan.blocks) && IsPeak(plan.peakDischargeW, AllPowers(plan.blocks))
    ensures GoodPlan(plan, slots, l)
  {
    WithinLimitsIsAffordable(ps, x, plan.blocks, l);
    ChosenIsInOrder(ps, x, plan.blocks, slots, slotIndex, blocks, d);
    hide StableSort, Chosen, ValidPlacement, SlotIndex, Affordable, IsPeak, TotalRevenue, PaidBySlot;
    InOrderIncreases(plan.blocks);
    TimestampsFromSlots(plan.blocks, slots);
    ExpansionsMatch(plan.blocks, slots, blocks, slotHours);
    ChosenIsPaid(ps, x, plan, slots, slotIndex, blocks, d);
  }

  /** The plan made of chosen placements is paid slot by slot. */
  lemma ChosenIsPaid(ps: seq<Placement>, x: seq<bool>, plan: Plan, slots: seq<Slot>, slotIndex: map<int, nat>,
                     blocks: seq<Block>, d: int)
    requires forall p :: p in ps ==> ValidPlacement(p, slots, slotIndex, blocks, d)
    requires |x| == |ps| && plan.blocks == StableSort(Chosen(ps, x), FirstTs)
    requires plan.timestamps == AllTimestamps(plan.blocks) && plan.totalRevenueCt == TotalRevenue(plan.blocks)
    requires ExpandChainSlots(plan.chain) == AllPowers(plan.blocks)
    ensures PaidBySlot(plan, slots)
  {
    SameElements(Chosen(ps, x), FirstTs);
    forall p | p in plan.blocks ensures Placeable(p, slots, slotIndex, blocks, d) {
      assert p in Chosen(ps, x);
      assert p in ps;
    }
    hide StableSort, Chosen, Placeable, Earnings, SlotsAt, TotalRevenue, AllPowers, AllTimestamps, ExpandChainSlots;
    var paid := SelectionPaid(plan.blocks, slots, slotIndex, blocks, d);
    SlotsAtLength(paid, plan.timestamps, slots);
    assert PaidIn(plan, slots, paid);
  }

  lemma SlotsAtLength(paid: seq<Slot>, timestamps: seq<int>, slots: seq<Slot>)
    requires SlotsAt(paid, timestamps, slots)
    ensures |paid| == |timestamps|
  {
  }

  lemma ExpansionsMatch(sel: seq<Placement>, slots: seq<Slot>, blocks: seq<Block>, slotHours: real)
    requires forall b :: b in blocks ==> ValidBlock(b, slotHours)
    requires forall p :: p in sel ==> p.block in blocks && InTime(p, slots)
    ensures ExpandChainSlots(AllEntries(sel)) == AllPowers(sel) && |AllTimestamps(sel)| == |AllPowers(sel)|
  {
    forall p | p in sel
      ensures p.block.expanded == ExpandChainSlots(p.block.chain) && |p.timestamps| == |p.block.expanded|
    {
      assert ValidBlock(p.block, slotHours) && InTime(p, slots);
    }
    ChainFollowsTimestamps(sel);
  }

  /** The chosen placements, sorted, come one after the other. */
  lemma ChosenIsInOrder(ps: seq<Placement>, x: seq<bool>, sel: seq<Placement>, slots: seq<Slot>,
                        slotIndex: map<int, nat>, blocks: seq<Block>, d: int)
    requires SortedBy(slots, SlotTs) && SlotIndex(slotIndex, slots) && d > 0
    requires forall p :: p in ps ==> ValidPlacement(p, slots, slotIndex, blocks, d)
    requires |x| == |ps| && NoSharedSlot(ps, x) && sel == StableSort(Chosen(ps, x), FirstTs)
    ensures InOrder(sel) && forall p :: p in sel ==> p in ps && p.block in blocks && InTime(p, slots)
  {
    hide ValidPlacement, SlotIndex, NoSharedSlot;
    SameElements(Chosen(ps, x), FirstTs);
    ChosenDisjoint(ps, x);
    SortDisjoint(Chosen(ps, x));
    forall p | p in sel ensures p in ps && p.block in blocks {
      assert p in Chosen(ps, x);
      BlockOfPlacement(p, slots, slotIndex, blocks, d);
    }
    hide StableSort, Chosen;
    SortedDisjointInOrder(sel, slots, slotIndex, blocks, d);
  }

  lemma BlockOfPlacement(p: Placement, slots: seq<Slot>, slotIndex: map<int, nat>, blocks: seq<Block>, d: int)
    requires ValidPlacement(p, slots, slotIndex, blocks, d)
    ensures p.block in blocks && p.slotIndices != []
  {
  }

  lemma {:induction false} StagesDiffer(chains: seq<seq<Entry>>, slotHours: real)
    ensures var blocks := BlocksOf(chains, slotHours);
            forall b, c :: b in blocks && c in blocks && b.stageIdx == c.stageIdx ==> b == c
  {
    if chains != [] { StagesDiffer(chains[..|chains| - 1], slotHours); }
  }

  /** What is placed comes from the blocks, one for each stage, and has no negative energy. */
  lemma PlacedFromBlocks(ps: seq<Placement>, slots: seq<Slot>, slotIndex: map<int, nat>, chains: seq<seq<Entry>>,
                         slotHours: real, d: int)
    requires slotHours >= 0.0
    requires forall p :: p in ps ==> ValidPlacement(p, slots, slotIndex, BlocksOf(chains, slotHours), d)
    ensures FromBlocks(ps, BlocksOf(chains, slotHours)) && NonnegativeUnits(ps)
    ensures forall p :: p in ps ==> p.slotIndices != []
  {
    var blocks := BlocksOf(chains, slotHours);
    StagesDiffer(chains, slotHours);
    forall p | p in ps ensures p.block in blocks && p.slotIndices != [] && Units(p.block.energyKwh) >= 0 {
      BlockOfPlacement(p, slots, slotIndex, blocks, d);
      EnergyNonnegative(p.block.expanded, slotHours);
    }
  }

  /**
    `solve` stands for the solver: if it answers, the answer satisfies the constraints. The
    ghost results name the placements and the model that were handed to it.
   */
  method PickMilpPlan(slots: seq<Slot>, chains: seq<seq<Entry>>, slotHours: real, d: int,
                      perSlotBudgets: seq<(int, real)>, availableKwh: Option<real>, solve: Lp -> Option<seq<bool>>)
    returns (plan: Plan, ghost slotIndex: map<int, nat>, ghost placements: seq<Placement>, ghost lp: Lp)
    requires d > 0 && slotHours >= 0.0
    requires forall m: Lp :: solve(m).Some? ==> Feasible(m, solve(m).value)
    ensures GoodPlan(plan, slots, LimitsOf(perSlotBudgets, availableKwh))
    ensures BindingBudgetsKept(plan.blocks, placements, LimitsOf(perSlotBudgets, availableKwh))
    ensures forall p :: p in placements
                        <==> ValidPlacement(p, StableSort(slots, SlotTs), slotIndex, BlocksOf(chains, slotHours), d)
    ensures SlotIndex(slotIndex, StableSort(slots, SlotTs))
    ensures FromBlocks(placements, BlocksOf(chains, slotHours)) && NonnegativeUnits(placements)
    ensures placements != [] ==>
              && ValidBlocks(BlocksOf(chains, slotHours))
              && Models(lp, placements, BlocksOf(chains, slotHours), LimitsOf(perSlotBudgets, availableKwh))
              && plan.blocks == StableSort(ChosenBy(placements, solve(lp)), FirstTs)
    ensures placements != [] && solve(lp).Some? && Optimal(lp, solve(lp).value)
            && CapIsRedundant(placements, BlocksOf(chains, slotHours), LimitsOf(perSlotBudgets, availableKwh))
            ==> Unbeaten(plan.blocks, placements, LimitsOf(perSlotBudgets, availableKwh))
    ensures Unbeaten(plan.blocks, placements, LimitsOf(perSlotBudgets, availableKwh))
            ==> EarnsNearlyMost(plan, StableSort(slots, SlotTs), slotIndex, BlocksOf(chains, slotHours), d,
                                LimitsOf(perSlotBudgets, availableKwh))
    ensures placements == [] ==> Unbeaten(plan.blocks, placements, LimitsOf(perSlotBudgets, availableKwh))
    ensures placements == [] || solve(lp).None? ==> plan == EMPTY_PLAN
    ensures forall p :: p in plan.blocks ==> RunsSlotBySlot(p, slotHours, d)
  {
    hide GoodPlan, BindingBudgetsKept, Unbeaten, Models, Optimal, CapIsRedundant, FromBlocks, NonnegativeUnits,
         ValidPlacement;
    hide StableSort, BlocksOf, LimitsOf, SlotIndex, Chosen, Feasible, Admissible, EarnsNearlyMost, RunsSlotBySlot;
    plan := EMPTY_PLAN;
    placements, lp := [], Lp(0, [], []);
    var ordered := StableSort(slots, SlotTs);
    var blocks := BlocksOf(chains, slotHours);
    var limits := LimitsOf(perSlotBudgets, availableKwh);
    var index := BuildSlotIndex(ordered);
    slotIndex := index;
    EmptyPlanIsGood(slots, limits);
    NothingIsUnbeaten(limits);
    if |ordered| == 0 || |blocks| == 0 {
      NothingToPlace(ordered, index, blocks, d);
      UnbeatenPlanEarnsNearlyMost(EMPTY_PLAN, [], slots, ordered, index, chains, slotHours, limits, d);
      NoPlacements(blocks, limits, chains, slotHours);
      return;
    }
    var ps := EnumeratePlacements(ordered, index, blocks, d);
    placements := ps;
    PlacedFromBlocks(ps, ordered, index, chains, slotHours, d);
    EmptyPlanKeepsBudgets(ps, limits);
    UnbeatenPlanEarnsNearlyMost(EMPTY_PLAN, ps, slots, ordered, index, chains, slotHours, limits, d);
    if |ps| == 0 { return; }
    var model := ModelFor(ps, ordered, index, blocks, slotHours, limits, d);
    lp := model;
    var answer := solve(model);
    if answer.None? { return; }
    AnswerFits(ps, blocks, limits, lp, answer.value);
    plan := AssemblePlan(ps, answer.value);
    AnswerIsGood(ps, answer.value, plan, slots, ordered, index, blocks, slotHours, limits, d, lp);
    UnbeatenPlanEarnsNearlyMost(plan, ps, slots, ordered, index, chains, slotHours, limits, d);
    BlocksRunSlotBySlot(ps, answer.value, plan.blocks, ordered, index, blocks, slotHours, d);
  }

  /** A placed block holds each power of its chain for a slot, one slot length apart, and spends just that energy. */
  ghost predicate RunsSlotBySlot(p: Placement, slotHours: real, d: int) {
    && |p.timestamps| == |ExpandChainSlots(p.block.chain)|
    && (forall i :: 0 < i < |p.timestamps| ==> p.timestamps[i] == p.timestamps[i - 1] + d)
    && p.block.energyKwh == Discharged(ExpandChainSlots(p.block.chain), slotHours)
  }

  lemma BlocksRunSlotBySlot(ps: seq<Placement>, x: seq<bool>, sel: seq<Placement>, slots: seq<Slot>,
                            slotIndex: map<int, nat>, blocks: seq<Block>, slotHours: real, d: int)
    requires forall b :: b in blocks ==> ValidBlock(b, slotHours)
    requires forall p :: p in ps ==> ValidPlacement(p, slots, slotIndex, blocks, d)
    requires |x| == |ps| && sel == StableSort(Chosen(ps, x), FirstTs)
    ensures forall p :: p in sel ==> RunsSlotBySlot(p, slotHours, d)
  {
    SameElements(Chosen(ps, x), FirstTs);
    forall p | p in sel ensures RunsSlotBySlot(p, slotHours, d) {
      assert p in Chosen(ps, x);
      assert p in ps;
      PlacementSpaced(p, slots, slotIndex, blocks, d);
      EnergyIsDischarged(p.block.expanded, slotHours);
    }
  }

  lemma HasElement(qs: seq<Placement>)
    ensures qs == [] || exists q :: q in qs
  {
    if qs != [] { assert qs[0] in qs; }
  }

  lemma NothingIsUnbeaten(l: Limits)
    ensures Unbeaten([], [], l)
  {
    forall qs | Alternative(qs, [], l) ensures Sum(qs, Gain) <= Sum([], Gain) {
      HasElement(qs);
    }
  }

  // ---- Against every other choice ----------------------------------------------------------

  /** Runs of the blocks in consecutive slots, whatever they earn, no slot twice, within the budgets. */
  ghost predicate Choice(qs: seq<Placement>, slots: seq<Slot>, slotIndex: map<int, nat>, blocks: seq<Block>, d: int,
                         l: Limits) {
    && (forall q :: q in qs ==> Placeable(q, slots, slotIndex, blocks, d))
    && PairwiseDisjoint(qs) && KeepsLimits(qs, l)
  }

  /** No choice gains more than the plan, and none earns more than the rounding of both allows. */
  ghost predicate EarnsNearlyMost(plan: Plan, slots: seq<Slot>, slotIndex: map<int, nat>, blocks: seq<Block>, d: int,
                                  l: Limits) {
    forall qs :: Choice(qs, slots, slotIndex, blocks, d, l) ==>
      && Sum(qs, Gain) <= Sum(plan.blocks, Gain)
      && TotalRevenue(qs) <= plan.totalRevenueCt + 0.005 * (|qs| + |plan.blocks|) as real
  }

  lemma UnbeatenPlanEarnsNearlyMost(plan: Plan, ps: seq<Placement>, slots: seq<Slot>, ordered: seq<Slot>,
                                    slotIndex: map<int, nat>,
                                    chains: seq<seq<Entry>>, slotHours: real, l: Limits, d: int)
    requires GoodPlan(plan, slots, l) && slotHours >= 0.0
    requires forall p :: ValidPlacement(p, ordered, slotIndex, BlocksOf(chains, slotHours), d) ==> p in ps
    ensures Unbeaten(plan.blocks, ps, l)
            ==> EarnsNearlyMost(plan, ordered, slotIndex, BlocksOf(chains, slotHours), d, l)
  {
    var blocks := BlocksOf(chains, slotHours);
    if Unbeaten(plan.blocks, ps, l) {
      forall qs | Choice(qs, ordered, slotIndex, blocks, d, l)
        ensures Sum(qs, Gain) <= Sum(plan.blocks, Gain)
        ensures TotalRevenue(qs) <= plan.totalRevenueCt + 0.005 * (|qs| + |plan.blocks|) as real
      {
        ChoiceIsOrdinary(qs, ordered, slotIndex, chains, slotHours, d, l);
        hide Placeable, BlocksOf, Unbeaten, KeepsLimits, PairwiseDisjoint, Sum, TotalRevenue;
        UnbeatenEarnsNearlyMost(plan.blocks, ps, l, qs);
      }
    }
  }

  lemma ChoiceIsOrdinary(qs: seq<Placement>, slots: seq<Slot>, slotIndex: map<int, nat>, chains: seq<seq<Entry>>,
                         slotHours: real, d: int, l: Limits)
    requires slotHours >= 0.0 && Choice(qs, slots, slotIndex, BlocksOf(chains, slotHours), d, l)
    ensures NonnegativeUnits(qs)
    ensures forall q :: q in qs && q.revenueCt > 0.0 ==>
              ValidPlacement(q, slots, slotIndex, BlocksOf(chains, slotHours), d)
  {
    forall q | q in qs ensures Units(q.block.energyKwh) >= 0 {
      assert q.block in BlocksOf(chains, slotHours);
      EnergyNonnegative(q.block.expanded, slotHours);
    }
  }

  lemma AnswerFits(ps: seq<Placement>, blocks: seq<Block>, l: Limits, lp: Lp, x: seq<bool>)
    requires ValidLimits(l) && ValidBlocks(blocks) && Models(lp, ps, blocks, l) && Feasible(lp, x)
    ensures |x| == |ps| && Admissible(ps, blocks, l, x)
  {
  }

  lemma NothingToPlace(slots: seq<Slot>, slotIndex: map<int, nat>, blocks: seq<Block>, d: int)
    requires slots == [] || blocks == []
    ensures forall p :: !ValidPlacement(p, slots, slotIndex, blocks, d)
  {
  }

  lemma EmptyPlanKeepsBudgets(ps: seq<Placement>, l: Limits)
    requires ValidLimits(l)
    ensures BindingBudgetsKept([], ps, l)
  {
  }

  lemma NoPlacements(blocks: seq<Block>, l: Limits, chains: seq<seq<Entry>>, slotHours: real)
    requires ValidLimits(l) && blocks == BlocksOf(chains, slotHours)
    ensures FromBlocks([], blocks) && NonnegativeUnits([]) && BindingBudgetsKept([], [], l)
  {
    StagesDiffer(chains, slotHours);
  }

  lemma EmptyPlanIsGood(slots: seq<Slot>, l: Limits)
    ensures GoodPlan(EMPTY_PLAN, slots, l)
  {
    assert forall t :: t in l.budgets && Units(l.budgets[t]) >= 1 ==> UnitsBy([], Some(t)) == 0;
    assert PaidIn(EMPTY_PLAN, slots, []);
    if OneBudget(l) { assert l.availableKwh.value * 10000.0 + 0.5 >= 0.0; }
  }

  /** All that the solver's answer gives the plan. */
  lemma AnswerIsGood(ps: seq<Placement>, x: seq<bool>, plan: Plan, slots: seq<Slot>, ordered: seq<Slot>,
                     slotIndex: map<int, nat>, blocks: seq<Block>, slotHours: real, l: Limits, d: int, lp: Lp)
    requires ordered == StableSort(slots, SlotTs) && SlotIndex(slotIndex, ordered) && d > 0
    requires forall b :: b in blocks ==> ValidBlock(b, slotHours)
    requires forall p :: p in ps ==> ValidPlacement(p, ordered, slotIndex, blocks, d)
    requires ValidLimits(l) && ValidBlocks(blocks) && Models(lp, ps, blocks, l) && Feasible(lp, x)
    requires NonnegativeUnits(ps) && forall p :: p in ps ==> p.slotIndices != []
    requires |x| == |ps| && plan.blocks == StableSort(Chosen(ps, x), FirstTs)
    requires plan.timestamps == AllTimestamps(plan.blocks) && plan.chain == AllEntries(plan.blocks)
    requires plan.totalRevenueCt == TotalRevenue(plan.blocks) && IsPeak(plan.peakDischargeW, AllPowers(plan.blocks))
    ensures GoodPlan(plan, slots, l) && BindingBudgetsKept(plan.blocks, ps, l)
    ensures Optimal(lp, x) && CapIsRedundant(ps, blocks, l) ==> Unbeaten(plan.blocks, ps, l)
  {
    assert Admissible(ps, blocks, l, x);
    hide StableSort, Chosen, ValidPlacement, SlotIndex, WithinLimits, NoSharedSlot, Models, Optimal, CapIsRedundant,
         Unbeaten, GoodPlan;
    AdmissibleMakesGoodPlan(ps, x, plan, ordered, slotIndex, blocks, slotHours, l, d);
    SlotsOfSorted(plan, slots, l);
    PlanKeepsBindingBudgets(ps, x, plan.blocks, l);
    if Optimal(lp, x) && CapIsRedundant(ps, blocks, l) {
      OptimalPlanIsUnbeaten(ps, blocks, l, lp, x, plan.blocks);
    }
  }

  lemma {:induction false} UnitsOfOneBlock(qs: seq<Placement>, block: Block)
    requires OneStage(qs, block)
    ensures UnitsBy(qs, None) == |qs| * Units(block.energyKwh)
  {
    if qs != [] {
      assert qs[0] in qs && forall q :: q in qs[1..] ==> q in qs;
      UnitsOfOneBlock(qs[1..], block);
      assert |qs| * Units(block.energyKwh) == (|qs| - 1) * Units(block.energyKwh) + Units(block.energyKwh);
    }
  }

  /**
    One stage, one budget in whole units, an optimal solver: any runs of the block that share no
    slot and are within the budget in kWh together gain no more than the returned plan, counted in
    the objective, and earn no more than the rounding of both allows.
   */
  lemma OneStagePlanIsBest(ps: seq<Placement>, block: Block, available: real, lp: Lp, x: seq<bool>, sel: seq<Placement>,
                           qs: seq<Placement>)
    requires OneStage(ps, block) && available > 0.0
    requires block.energyKwh > 0.0 && WholeUnits(block.energyKwh) && WholeUnits(available)
    requires Models(lp, ps, [block], LimitsOf([], Some(available))) && Optimal(lp, x)
    requires sel == StableSort(Chosen(ps, x), FirstTs) && forall p :: p in ps ==> p.slotIndices != []
    requires PairwiseDisjoint(qs) && OneStage(qs, block) && |qs| as real * block.energyKwh <= available
    requires forall q :: q in qs && q.revenueCt > 0.0 ==> q in ps
    ensures Sum(qs, Gain) <= Sum(sel, Gain)
    ensures TotalRevenue(qs) <= TotalRevenue(sel) + 0.005 * (|qs| + |sel|) as real
  {
    hide StableSort, Chosen, LimitsOf, Models, Optimal, KeepsLimits, Unbeaten, CapIsRedundant, Sum, TotalRevenue,
         PairwiseDisjoint;
    LimitsOfOneBudget(available);
    OneStageCapIsRedundant(ps, block, available);
    RunsKeepLimits(block, available, qs);
    OptimalPlanIsUnbeaten(ps, [block], LimitsOf([], Some(available)), lp, x, sel);
    UnbeatenEarnsNearlyMost(sel, ps, LimitsOf([], Some(available)), qs);
  }

  lemma LimitsOfOneBudget(available: real)
    ensures LimitsOf([], Some(available)) == Limits([], map[], Some(available))
  {
  }

  lemma RunsKeepLimits(block: Block, available: real, qs: seq<Placement>)
    requires OneStage(qs, block) && WholeUnits(block.energyKwh) && WholeUnits(available) && block.energyKwh > 0.0
    requires |qs| as real * block.energyKwh <= available
    ensures KeepsLimits(qs, Limits([], map[], Some(available))) && NonnegativeUnits(qs)
  {
    UnitsOfOneBlock(qs, block);
    RunsWithinBudget(|qs|, block.energyKwh, available);
    hide UnitsBy;
  }

  lemma RunsWithinBudget(runs: nat, energyKwh: real, available: real)
    requires WholeUnits(energyKwh) && WholeUnits(available) && runs as real * energyKwh <= available
    ensures runs * Units(energyKwh) <= Units(available)
  {
    assert (runs * Units(energyKwh)) as real == runs as real * Units(energyKwh) as real;
    assert runs as real * (energyKwh * 10000.0) == (runs as real * energyKwh) * 10000.0;
  }

  // ---- What rounding can cost ----------------------------------------------------------------

  const PRICES := [Slot(0, 0.0051), Slot(900, 0.0051), Slot(1800, 0.0149)]
  const PRICE_INDEX := map[0 := 0, 900 := 1, 1800 := 2]
  const RUNS := [FourKwAt(PRICES[0], 0), FourKwAt(PRICES[1], 1), FourKwAt(PRICES[2], 2)]

  lemma RunsAreReal()
    ensures ValidBlock(FOUR_KW, SLOT_DURATION_HOURS)
    ensures forall p :: p in RUNS <==> ValidPlacement(p, PRICES, PRICE_INDEX, [FOUR_KW], 900)
  {
    FourKwIsValid();
    assert |FOUR_KW.expanded| == 1;
    FourKwPlaced(PRICES, PRICE_INDEX, 0, [FOUR_KW], 900);
    FourKwPlaced(PRICES, PRICE_INDEX, 1, [FOUR_KW], 900);
    FourKwPlaced(PRICES, PRICE_INDEX, 2, [FOUR_KW], 900);
    forall p | ValidPlacement(p, PRICES, PRICE_INDEX, [FOUR_KW], 900) ensures p in RUNS {
      assert p.block == FOUR_KW && (p.first == 0 || p.first == 1 || p.first == 2);
    }
  }

  /** Each of the three runs counts as one in the objective. */
  lemma {:induction false} RunsGainAlike(ps: seq<Placement>, x: seq<bool>)
    requires |x| == |ps| && forall p :: p in ps ==> Gain(p) == 1
    ensures ObjectiveValue(Objective(ps), x) == Selected(x)
  {
    if ps != [] {
      var n := |ps| - 1;
      assert ps[n] in ps && forall p :: p in ps[..n] ==> p in ps;
      RunsGainAlike(ps[..n], x[..n]);
      ObjectivePrefix(ps);
      hide Objective, Gain;
    }
  }

  /**
    Two runs worth 0.0051 cents each are an optimal answer, although one of them and the run worth
    0.0149 would earn more: all three count as one hundredth of a cent.
   */
  lemma RoundingCanCost(lp: Lp)
    requires ValidBlocks([FOUR_KW]) && Models(lp, RUNS, [FOUR_KW], Limits([], map[], Some(2.0)))
    ensures Optimal(lp, [true, true, false])
    ensures Alternative([RUNS[0], RUNS[2]], RUNS, Limits([], map[], Some(2.0)))
    ensures TotalRevenue(Chosen(RUNS, [true, true, false])) == 0.0102 && TotalRevenue([RUNS[0], RUNS[2]]) == 0.02
  {
    FourKwIsValid();
    TwoRunsAreOptimal(lp);
    FirstTwoChosen(RUNS[0], RUNS[1], RUNS[2]);
    RevenueOfTwo(RUNS[0], RUNS[1]);
    RevenueOfTwo(RUNS[0], RUNS[2]);
    assert RUNS == [RUNS[0], RUNS[1], RUNS[2]];
    hide Chosen, TotalRevenue, Optimal, Models, KeepsLimits;
    RunsKeepLimits(FOUR_KW, 2.0, [RUNS[0], RUNS[2]]);
  }

  lemma FirstTwoChosen(p: Placement, q: Placement, r: Placement)
    ensures Chosen([p, q, r], [true, true, false]) == [p, q]
  {
    assert [p, q, r][..2] == [p, q] && [p, q][..1] == [p] && [p][..0] == [];
    assert [true, true, false][..2] == [true, true] && [true, true][..1] == [true] && [true][..0] == [];
    assert Chosen([p], [true]) == [p] && Chosen([p, q], [true, true]) == [p, q];
  }

  lemma RevenueOfTwo(p: Placement, q: Placement)
    ensures TotalRevenue([p, q]) == p.revenueCt + q.revenueCt
  {
    assert [p, q][..1] == [p] && [p][..0] == [];
    assert TotalRevenue([p]) == p.revenueCt;
  }

  lemma TwoRunsAreOptimal(lp: Lp)
    requires ValidBlocks([FOUR_KW]) && Models(lp, RUNS, [FOUR_KW], Limits([], map[], Some(2.0)))
    ensures Optimal(lp, [true, true, false])
  {
    var l, x := Limits([], map[], Some(2.0)), [true, true, false];
    FourKwIsValid();
    assert Units(2.0) == 20000;
    TwoOfThree();
    RunsCount(x);
    OneStageCapIsRedundant(RUNS, FOUR_KW, 2.0);
    hide Selected, ObjectiveValue, Objective, Weight;
    assert NoSharedSlot(RUNS, x) && WithinLimits(RUNS, l, x);
    forall y | Feasible(lp, y) ensures ObjectiveValue(lp.objective, y) <= ObjectiveValue(lp.objective, x) {
      RunsCount(y);
      assert WithinLimits(RUNS, l, y);
    }
  }

  lemma TwoOfThree()
    ensures Selected([true, true, false]) == 2
  {
    var x := [true, true, false];
    assert x[..2] == [true, true] && [true, true][..1] == [true] && [true][..0] == [];
    assert Selected([true]) == 1 && Selected([true, true]) == 2;
  }

  lemma RunsCount(y: seq<bool>)
    requires |y| == |RUNS|
    ensures ObjectiveValue(Objective(RUNS), y) == Selected(y)
    ensures Weight(FinishedBy(None), RUNS, y) == Selected(y) * 10000
  {
    FourKwIsValid();
    forall p | p in RUNS ensures Gain(p) == 1 && p.block == FOUR_KW {}
    RunsGainAlike(RUNS, y);
    SelectedOfBlock(RUNS, FOUR_KW, y);
  }

  method ModelFor(ps: seq<Placement>, ordered: seq<Slot>, ghost index: map<int, nat>, blocks: seq<Block>,
                  ghost slotHours: real, limits: Limits, ghost d: int)
    returns (model: Lp)
    requires ValidLimits(limits) && SlotIndex(index, ordered) && d > 0 && slotHours >= 0.0
    requires blocks != [] && forall b :: b in blocks ==> ValidBlock(b, slotHours)
    requires forall p :: p in ps ==> ValidPlacement(p, ordered, index, blocks, d)
    ensures ValidBlocks(blocks) && Models(model, ps, blocks, limits)
  {
    forall b | b in blocks ensures b.energyKwh >= 0.0 { EnergyNonnegative(b.expanded, slotHours); }
    forall p | p in ps ensures DistinctSlots(p) && forall s :: s in p.slotIndices ==> s < |ordered| {
      PlacementInTime(p, ordered, index, blocks, d);
    }
    model := BuildModel(ps, blocks, |ordered|, limits);
  }

  lemma SlotsOfSorted(plan: Plan, slots: seq<Slot>, l: Limits)
    requires GoodPlan(plan, StableSort(slots, SlotTs), l)
    ensures GoodPlan(plan, slots, l)
  {
    var ordered := StableSort(slots, SlotTs);
    SameElements(slots, SlotTs);
    PaidInSorted(plan, slots);
    forall t | t in plan.timestamps ensures exists i :: 0 <= i < |slots| && slots[i].ts == t {
      var i :| 0 <= i < |ordered| && ordered[i].ts == t;
      assert ordered[i] in slots;
    }
  }
}
