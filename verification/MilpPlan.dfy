/**
  Choosing the discharge plan: enumerate the placements of every block, build the model, ask the
  solver, and put the selected placements together.
 */
module MilpPlan {
  import opened Wrappers
  import opened Reals
  import opened Sorting
  import opened MilpModel
  import opened MilpConstraints

  const DEFAULT_REPETITIONS := 20

  // ---- Segments and placements -----------------------------------------------------------

  /** The slots lo..hi, one slot length apart. */
  datatype Segment = Segment(lo: nat, hi: nat)

  /** Slot `k` starts one slot length after the slot before it. */
  ghost predicate Follows(slots: seq<Slot>, k: nat, d: int)
    requires 0 < k < |slots|
  {
    slots[k].ts - slots[k - 1].ts == d
  }

  ghost predicate Contiguous(slots: seq<Slot>, lo: nat, hi: nat, d: int)
    requires hi <= |slots|
  {
    forall k :: lo < k < hi ==> Follows(slots, k, d)
  }

  /** A maximal contiguous run of the first `n` slots. */
  ghost predicate MaximalRun(s: Segment, slots: seq<Slot>, d: int, n: nat)
    requires n <= |slots|
  {
    && s.lo < s.hi <= n
    && Contiguous(slots, s.lo, s.hi, d)
    && (s.lo == 0 || !Follows(slots, s.lo, d))
    && (s.hi == n || !Follows(slots, s.hi, d))
  }

  /** The maximal runs of the first `n` slots; every slot is in one. */
  ghost predicate Segmentation(segs: seq<Segment>, slots: seq<Slot>, d: int, n: nat)
    requires n <= |slots|
  {
    && (forall s :: s in segs ==> MaximalRun(s, slots, d, n))
    && (forall k :: 0 <= k < n ==> InSome(segs, k))
  }

  ghost predicate InSome(segs: seq<Segment>, k: nat) {
    exists s :: s in segs && s.lo <= k < s.hi
  }

  /** One more slot extends the last segment or opens a new one. */
  lemma SegmentationStep(init: seq<Segment>, last: Segment, slots: seq<Slot>, d: int, n: nat)
    requires 0 < n < |slots| && Segmentation(init + [last], slots, d, n) && last.hi == n
    requires forall s :: s in init ==> s.hi < n
    ensures Follows(slots, n, d) ==> Segmentation(init + [Segment(last.lo, n + 1)], slots, d, n + 1)
    ensures !Follows(slots, n, d) ==> Segmentation(init + [last] + [Segment(n, n + 1)], slots, d, n + 1)
  {
    var segs := init + [last];
    assert last in segs && forall s :: s in init ==> s in segs;
    var next := if Follows(slots, n, d) then init + [Segment(last.lo, n + 1)] else segs + [Segment(n, n + 1)];
    forall k | 0 <= k < n + 1 ensures InSome(next, k) {
      if k < n {
        assert InSome(segs, k);
        var s :| s in segs && s.lo <= k < s.hi;
        assert s in next || Segment(last.lo, n + 1) in next;
      } else {
        assert next[|next| - 1] in next;
      }
    }
  }

  method SplitIntoContiguousSegments(slots: seq<Slot>, d: int) returns (segs: seq<Segment>)
    ensures Segmentation(segs, slots, d, |slots|)
  {
    if |slots| == 0 { return []; }
    segs := [Segment(0, 1)];
    assert Segmentation(segs, slots, d, 1) by { assert segs[0] in segs; }
    var i := 1;
    while i < |slots|
      invariant 1 <= i <= |slots|
      invariant segs != [] && segs[|segs| - 1].hi == i && forall s :: s in segs[..|segs| - 1] ==> s.hi < i
      invariant Segmentation(segs, slots, d, i)
    {
      var last := |segs| - 1;
      ghost var init := segs[..last];
      assert segs == init + [segs[last]];
      SegmentationStep(init, segs[last], slots, d, i);
      if slots[i].ts - slots[i - 1].ts == d {
        segs := segs[last := Segment(segs[last].lo, i + 1)];
        assert segs == init + [Segment(segs[last].lo, i + 1)];
      } else {
        segs := segs + [Segment(i, i + 1)];
      }
      i := i + 1;
    }
  }

  /** A contiguous window lies in one segment. */
  lemma WindowInSegment(segs: seq<Segment>, slots: seq<Slot>, d: int, lo: nat, hi: nat) returns (s: Segment)
    requires Segmentation(segs, slots, d, |slots|) && lo < hi <= |slots| && Contiguous(slots, lo, hi, d)
    ensures s in segs && s.lo <= lo && hi <= s.hi
  {
    assert InSome(segs, lo);
    s :| s in segs && s.lo <= lo < s.hi;
  }

  function Timestamps(slots: seq<Slot>): (r: seq<int>)
    ensures |r| == |slots|
    ensures forall i :: 0 <= i < |slots| ==> r[i] == slots[i].ts
  {
    if slots == [] then [] else [slots[0].ts] + Timestamps(slots[1..])
  }

  function IndexOf(slotIndex: map<int, nat>, ts: int): nat {
    if ts in slotIndex then slotIndex[ts] else 0
  }

  function Indices(slotIndex: map<int, nat>, timestamps: seq<int>): (r: seq<nat>)
    ensures |r| == |timestamps|
    ensures forall i :: 0 <= i < |r| ==> r[i] == IndexOf(slotIndex, timestamps[i])
  {
    if timestamps == [] then [] else [IndexOf(slotIndex, timestamps[0])] + Indices(slotIndex, timestamps[1..])
  }

  /** Each timestamp maps to a slot with that timestamp (the last one, if there are several). */
  ghost predicate SlotIndex(m: map<int, nat>, slots: seq<Slot>) {
    && (forall i :: 0 <= i < |slots| ==> slots[i].ts in m)
    && (forall t :: t in m ==> m[t] < |slots| && slots[m[t]].ts == t)
  }

  function RevenueCt(slots: seq<Slot>, expanded: seq<real>): real
    requires |slots| == |expanded|
  {
    if slots == [] then 0.0
    else Abs(expanded[0]) / 1000.0 * SLOT_DURATION_HOURS * slots[0].ctKwh + RevenueCt(slots[1..], expanded[1..])
  }

  function Place(slots: seq<Slot>, slotIndex: map<int, nat>, block: Block, first: nat): Placement
    requires first + |block.expanded| <= |slots|
  {
    var window := slots[first..first + |block.expanded|];
    var timestamps := Timestamps(window);
    Placement(block, first, timestamps, Indices(slotIndex, timestamps), RevenueCt(window, block.expanded))
  }

  ghost predicate ValidBlock(b: Block, slotHours: real) {
    b.expanded == ExpandChainSlots(b.chain) && b.expanded != [] && b.energyKwh == EnergyKwh(b.expanded, slotHours)
  }

  /** One of the blocks in contiguous slots. */
  ghost predicate Placeable(p: Placement, slots: seq<Slot>, slotIndex: map<int, nat>, blocks: seq<Block>, d: int) {
    && p.block in blocks && p.block.expanded != []
    && p.first + |p.block.expanded| <= |slots|
    && p == Place(slots, slotIndex, p.block, p.first)
    && Contiguous(slots, p.first, p.first + |p.block.expanded|, d)
  }

  /** A profitable placement of one of the blocks. */
  ghost predicate ValidPlacement(p: Placement, slots: seq<Slot>, slotIndex: map<int, nat>, blocks: seq<Block>, d: int) {
    Placeable(p, slots, slotIndex, blocks, d) && p.revenueCt > 0.0
  }

  /** Placements of one block in one segment. */
  method PlaceInSegment(slots: seq<Slot>, slotIndex: map<int, nat>, block: Block, segment: Segment)
    returns (ps: seq<Placement>)
    requires segment.hi <= |slots|
    ensures forall p :: p in ps <==>
              && p.block == block && segment.lo <= p.first && p.first + |block.expanded| <= segment.hi
              && p == Place(slots, slotIndex, block, p.first) && p.revenueCt > 0.0
  {
    ps := [];
    var i := segment.lo;
    while i + |block.expanded| <= segment.hi
      invariant segment.lo <= i
      invariant forall p :: p in ps <==>
                  && p.block == block && segment.lo <= p.first < i && p.first + |block.expanded| <= segment.hi
                  && p == Place(slots, slotIndex, block, p.first) && p.revenueCt > 0.0
      decreases segment.hi - i
    {
      var p := Place(slots, slotIndex, block, i);
      if p.revenueCt > 0.0 {
        ps := ps + [p];
      }
      i := i + 1;
    }
  }

  method EnumeratePlacements(slots: seq<Slot>, slotIndex: map<int, nat>, blocks: seq<Block>, d: int)
    returns (ps: seq<Placement>)
    requires forall b :: b in blocks ==> b.expanded != []
    ensures forall p :: p in ps <==> ValidPlacement(p, slots, slotIndex, blocks, d)
  {
    var segs := SplitIntoContiguousSegments(slots, d);
    ps := [];
    var b := 0;
    while b < |blocks|
      invariant 0 <= b <= |blocks|
      invariant forall p :: p in ps <==> ValidPlacement(p, slots, slotIndex, blocks[..b], d)
    {
      ghost var before := ps;
      var block := blocks[b];
      var s := 0;
      while s < |segs|
        invariant 0 <= s <= |segs|
        invariant forall p :: p in ps <==>
                    (p in before || (ValidPlacement(p, slots, slotIndex, [block], d) && InSegments(p, segs[..s])))
      {
        assert segs[s] in segs;
        var more := PlaceInSegment(slots, slotIndex, block, segs[s]);
        forall p ensures p in more <==> ValidPlacement(p, slots, slotIndex, [block], d) && InSegment(p, segs[s]) {}
        assert segs[..s + 1] == segs[..s] + [segs[s]];
        ps := ps + more;
        s := s + 1;
      }
      assert segs[..s] == segs;
      forall p | ValidPlacement(p, slots, slotIndex, [block], d) ensures InSegments(p, segs) {
        var seg := WindowInSegment(segs, slots, d, p.first, p.first + |p.block.expanded|);
        assert InSegment(p, seg);
      }
      assert blocks[..b + 1] == blocks[..b] + [block];
      b := b + 1;
    }
    assert blocks[..b] == blocks;
  }

  ghost predicate InSegment(p: Placement, s: Segment) {
    s.lo <= p.first && p.first + |p.block.expanded| <= s.hi
  }

  ghost predicate InSegments(p: Placement, segs: seq<Segment>) {
    exists s :: s in segs && InSegment(p, s)
  }

  // ---- Placements in time ----------------------------------------------------------------

  /** Each slot index stands for the slot's time, one after the other from the first slot on. */
  ghost predicate StandsFor(p: Placement, slots: seq<Slot>) {
    && |p.timestamps| == |p.slotIndices| == |p.block.expanded|
    && p.first + |p.timestamps| <= |slots|
    && (forall i :: 0 <= i < |p.timestamps| ==> p.timestamps[i] == slots[p.first + i].ts)
    && (forall i :: 0 <= i < |p.timestamps| ==>
          p.slotIndices[i] < |slots| && slots[p.slotIndices[i]].ts == p.timestamps[i])
  }

  ghost predicate InTime(p: Placement, slots: seq<Slot>) {
    && StandsFor(p, slots) && p.timestamps != []
    && (forall i, j :: 0 <= i < j < |p.timestamps| ==> p.timestamps[i] < p.timestamps[j])
  }

  lemma PlaceStandsFor(slots: seq<Slot>, slotIndex: map<int, nat>, block: Block, first: nat)
    requires first + |block.expanded| <= |slots| && SlotIndex(slotIndex, slots)
    ensures StandsFor(Place(slots, slotIndex, block, first), slots)
  {
    hide RevenueCt;
    var p := Place(slots, slotIndex, block, first);
    forall i | 0 <= i < |p.timestamps|
      ensures p.timestamps[i] == slots[first + i].ts
      ensures p.slotIndices[i] < |slots| && slots[p.slotIndices[i]].ts == p.timestamps[i]
    {
      SlotOfWindow(slots, first, |block.expanded|, i);
      assert slots[first + i].ts in slotIndex;
    }
  }

  lemma SlotOfWindow(slots: seq<Slot>, first: nat, count: nat, i: nat)
    requires first + count <= |slots| && i < count
    ensures slots[first..first + count][i] == slots[first + i]
  {
  }

  lemma PlacementInTime(p: Placement, slots: seq<Slot>, slotIndex: map<int, nat>, blocks: seq<Block>, d: int)
    requires ValidPlacement(p, slots, slotIndex, blocks, d) && SlotIndex(slotIndex, slots) && d > 0
    ensures InTime(p, slots) && DistinctSlots(p)
  {
    PlaceStandsFor(slots, slotIndex, p.block, p.first);
    Rising(slots, p.first, p.first + |p.block.expanded|, d);
    hide Place, Contiguous, SlotIndex;
    TimesRise(p, slots);
    InTimeDistinct(p, slots);
  }

  ghost predicate Rises(slots: seq<Slot>, lo: nat, hi: nat)
    requires hi <= |slots|
  {
    forall i, j :: lo <= i < j < hi ==> slots[i].ts < slots[j].ts
  }

  lemma TimesRise(p: Placement, slots: seq<Slot>)
    requires StandsFor(p, slots) && Rises(slots, p.first, p.first + |p.timestamps|)
    ensures forall i, j :: 0 <= i < j < |p.timestamps| ==> p.timestamps[i] < p.timestamps[j]
  {
    forall i, j | 0 <= i < j < |p.timestamps| ensures p.timestamps[i] < p.timestamps[j] {
      assert slots[p.first + i].ts < slots[p.first + j].ts;
    }
  }

  lemma InTimeDistinct(p: Placement, slots: seq<Slot>)
    requires InTime(p, slots)
    ensures DistinctSlots(p)
  {
    forall i, j | 0 <= i < j < |p.slotIndices| ensures p.slotIndices[i] != p.slotIndices[j] {
      assert p.timestamps[i] < p.timestamps[j];
    }
  }

  lemma {:induction false} Rising(slots: seq<Slot>, lo: nat, hi: nat, d: int)
    requires lo <= hi <= |slots| && Contiguous(slots, lo, hi, d) && d > 0
    ensures Rises(slots, lo, hi)
    decreases hi - lo
  {
    if lo < hi {
      Rising(slots, lo, hi - 1, d);
      if lo < hi - 1 {
        assert Follows(slots, hi - 1, d);
      }
    }
  }

  ghost predicate Disjoint(p: Placement, q: Placement) {
    forall s :: s in p.slotIndices ==> s !in q.slotIndices
  }

  /** The same time is the same slot index, for placements over one slot index. */
  ghost predicate Consistent(p: Placement, q: Placement) {
    && |p.timestamps| == |p.slotIndices| && |q.timestamps| == |q.slotIndices|
    && forall i, j :: 0 <= i < |p.timestamps| && 0 <= j < |q.timestamps| ==>
         (p.timestamps[i] == q.timestamps[j] ==> p.slotIndices[i] == q.slotIndices[j])
  }

  lemma PlacementsConsistent(p: Placement, q: Placement, slots: seq<Slot>, slotIndex: map<int, nat>, blocks: seq<Block>,
                             d: int)
    requires ValidPlacement(p, slots, slotIndex, blocks, d) && ValidPlacement(q, slots, slotIndex, blocks, d)
    ensures Consistent(p, q)
  {
  }

  /** Of two placements without a common slot, the one that starts first also ends before the other starts. */
  lemma DisjointPlacementsFollow(p: Placement, q: Placement, slots: seq<Slot>)
    requires SortedBy(slots, SlotTs) && InTime(p, slots) && InTime(q, slots) && Consistent(p, q)
    requires Disjoint(p, q) && p.timestamps[0] <= q.timestamps[0]
    ensures p.timestamps[|p.timestamps| - 1] < q.timestamps[0]
  {
    var n := |p.timestamps|;
    var t := q.timestamps[0];
    if p.timestamps[n - 1] >= t {
      // the start of `q` is one of the timestamps of `p`
      var i := StartInside(p, q, slots);
      CommonSlot(p, i, q);
    }
  }

  lemma CommonSlot(p: Placement, i: nat, q: Placement)
    requires i < |p.timestamps| == |p.slotIndices| && 0 < |q.timestamps| == |q.slotIndices|
    requires Consistent(p, q) && p.timestamps[i] == q.timestamps[0]
    ensures !Disjoint(p, q)
  {
    assert p.slotIndices[i] in p.slotIndices && q.slotIndices[0] in q.slotIndices;
  }

  lemma StartInside(p: Placement, q: Placement, slots: seq<Slot>) returns (i: nat)
    requires SortedBy(slots, SlotTs) && InTime(p, slots) && InTime(q, slots)
    requires p.timestamps[0] <= q.timestamps[0] <= p.timestamps[|p.timestamps| - 1]
    ensures i < |p.timestamps| && p.timestamps[i] == q.timestamps[0]
  {
    var n, j := |p.timestamps|, q.first;
    assert SlotTs(slots[j]) == q.timestamps[0];
    if j < p.first {
      assert SlotTs(slots[j]) <= SlotTs(slots[p.first]);
      i := 0;
    } else if j >= p.first + n {
      assert SlotTs(slots[p.first + n - 1]) <= SlotTs(slots[j]);
      i := n - 1;
    } else {
      i := j - p.first;
    }
  }

  // ---- A concrete block ------------------------------------------------------------------

  /** One slot at 4 kW. */
  const FOUR_KW := Block([Entry(-4000.0, 1)], [-4000.0], 1.0, 0)

  lemma FourKwIsValid()
    ensures ValidBlock(FOUR_KW, SLOT_DURATION_HOURS) && Units(FOUR_KW.energyKwh) == 10000
  {
    assert Repeat(-4000.0, 1) == [-4000.0];
    assert FOUR_KW.chain[1..] == [] && FOUR_KW.expanded[1..] == [];
    assert ExpandChainSlots(FOUR_KW.chain) == [-4000.0];
    assert EnergyKwh([], SLOT_DURATION_HOURS) == 0.0;
  }

  /** It earns the price of the slot it is placed in, in cents. */
  function FourKwAt(slot: Slot, i: nat): Placement { Placement(FOUR_KW, i, [slot.ts], [i], slot.ctKwh) }

  lemma FourKwPlaced(slots: seq<Slot>, slotIndex: map<int, nat>, i: nat, blocks: seq<Block>, d: int)
    requires i < |slots| && FOUR_KW in blocks && IndexOf(slotIndex, slots[i].ts) == i
    ensures Place(slots, slotIndex, FOUR_KW, i) == FourKwAt(slots[i], i)
    ensures Placeable(FourKwAt(slots[i], i), slots, slotIndex, blocks, d)
  {
    var window := slots[i..i + 1];
    assert window == [slots[i]] && window[1..] == [] && FOUR_KW.expanded[1..] == [];
    assert RevenueCt(window, FOUR_KW.expanded) == slots[i].ctKwh;
    assert Timestamps(window) == [slots[i].ts];
  }

  // ---- The whole model -------------------------------------------------------------------

  /** What limits the energy: budgets by time if there are any, else one amount for all. */
  datatype Limits = Limits(times: seq<int>, budgets: map<int, real>, availableKwh: Option<real>)

  ghost predicate ValidLimits(l: Limits) {
    Ascending(l.times, l.budgets) && forall t :: t in l.budgets <==> t in l.times
  }

  /** One positive amount limits all placements together. */
  ghost predicate OneBudget(l: Limits) {
    l.times == [] && l.availableKwh.Some? && l.availableKwh.value > 0.0
  }

  function MaxOf(xs: seq<real>): real
    requires xs != []
  {
    if |xs| == 1 then xs[0]
    else
      var m := MaxOf(xs[1..]);
      if xs[0] >= m then xs[0] else m
  }

  function BlockEnergies(blocks: seq<Block>): (r: seq<real>)
    ensures |r| == |blocks|
  {
    if blocks == [] then []
    else [if blocks[0].energyKwh == 0.0 then 1.0 else blocks[0].energyKwh] + BlockEnergies(blocks[1..])
  }

  lemma {:induction false} LargestEnergyPositive(blocks: seq<Block>)
    requires blocks != [] && forall b :: b in blocks ==> b.energyKwh >= 0.0
    ensures MaxOf(BlockEnergies(blocks)) > 0.0
  {
    assert blocks[0] in blocks;
    if |blocks| > 1 {
      LargestEnergyPositive(blocks[1..]);
      assert BlockEnergies(blocks)[1..] == BlockEnergies(blocks[1..]);
    } else {
      assert blocks[1..] == [];
    }
  }

  function BudgetsInOrder(l: Limits): (r: seq<real>)
    requires ValidLimits(l)
    ensures |r| == |l.times|
  {
    seq(|l.times|, i requires 0 <= i < |l.times| && ValidLimits(l) => l.budgets[l.times[i]])
  }

  /** The largest budget, if there is one. */
  function MaxBudget(l: Limits): Option<real>
    requires ValidLimits(l)
  {
    if l.times != [] then Some(MaxOf(BudgetsInOrder(l)))
    else if l.availableKwh.Some? && l.availableKwh.value > 0.0 then l.availableKwh
    else None
  }

  ghost predicate ValidBlocks(blocks: seq<Block>) {
    blocks != [] && forall b :: b in blocks ==> b.energyKwh >= 0.0
  }

  function RepetitionCap(l: Limits, blocks: seq<Block>): (cap: int)
    requires ValidLimits(l) && ValidBlocks(blocks)
    ensures cap >= 1
  {
    match MaxBudget(l)
    case None => DEFAULT_REPETITIONS
    case Some(b) =>
      LargestEnergyPositive(blocks);
      var cap := Ceil(b / MaxOf(BlockEnergies(blocks)));
      if cap >= 1 then cap else 1
  }

  ghost predicate WithinLimits(ps: seq<Placement>, l: Limits, x: seq<bool>)
    requires ValidLimits(l) && |x| == |ps|
  {
    if l.times != [] then WithinLiveBudgets(ps, l.times, l.budgets, x, |l.times|)
    else OneBudget(l) ==> Weight(FinishedBy(None), ps, x) <= Units(l.availableKwh.value)
  }

  ghost predicate WithinRepetitions(ps: seq<Placement>, blocks: seq<Block>, cap: int, x: seq<bool>)
    requires |x| == |ps|
  {
    forall b :: b in blocks ==> Weight(OfStage(b.stageIdx), ps, x) <= cap
  }

  method RepetitionConstraints(ps: seq<Placement>, blocks: seq<Block>, cap: int) returns (cs: seq<Constraint>)
    requires cap >= 1
    ensures forall x: seq<bool> :: |x| == |ps| ==> (Satisfies(cs, x) <==> WithinRepetitions(ps, blocks, cap, x))
  {
    cs := [];
    var i := 0;
    while i < |blocks|
      invariant 0 <= i <= |blocks|
      invariant forall x: seq<bool> :: |x| == |ps| ==>
                (Satisfies(cs, x) <==> WithinRepetitions(ps, blocks[..i], cap, x))
    {
      var g := OfStage(blocks[i].stageIdx);
      ghost var before := cs;
      if |Terms(g, ps)| > 1 {
        cs := cs + [Constraint(Terms(g, ps), cap)];
      }
      forall x: seq<bool> | |x| == |ps| ensures Satisfies(cs, x) <==> WithinRepetitions(ps, blocks[..i + 1], cap, x) {
        SatisfiesGroup(before, g, cap, ps, x);
        WeightAtMostCount(g, ps, x);
        assert forall b :: b in blocks[..i + 1] <==> b in blocks[..i] || b == blocks[i];
      }
      i := i + 1;
    }
    assert blocks[..i] == blocks;
  }

  /** What the objective counts for a placement. */
  function Gain(p: Placement): int { Rounded(p.revenueCt * 100.0) }

  function Objective(ps: seq<Placement>): (r: seq<int>)
    ensures |r| == |ps|
    ensures forall i :: 0 <= i < |r| ==> r[i] == Gain(ps[i])
  {
    if ps == [] then [] else [Gain(ps[0])] + Objective(ps[1..])
  }

  /** What the emitted constraints ask of a selection. */
  ghost predicate Admissible(ps: seq<Placement>, blocks: seq<Block>, l: Limits, x: seq<bool>)
    requires ValidLimits(l) && |x| == |ps| && ValidBlocks(blocks)
  {
    NoSharedSlot(ps, x) && WithinLimits(ps, l, x) && WithinRepetitions(ps, blocks, RepetitionCap(l, blocks), x)
  }

  method BuildModel(ps: seq<Placement>, blocks: seq<Block>, slotCount: nat, l: Limits) returns (lp: Lp)
    requires ValidLimits(l) && ValidBlocks(blocks)
    requires forall p :: p in ps ==> DistinctSlots(p) && forall s :: s in p.slotIndices ==> s < slotCount
    ensures lp.vars == |ps| && lp.objective == Objective(ps)
    ensures forall x: seq<bool> :: |x| == |ps| ==> (Feasible(lp, x) <==> Admissible(ps, blocks, l, x))
  {
    var overlap := OverlapConstraints(ps, slotCount);
    var energy := LimitConstraints(ps, l);
    var repetition := RepetitionConstraints(ps, blocks, RepetitionCap(l, blocks));
    lp := Lp(|ps|, Objective(ps), overlap + energy + repetition);
    forall x: seq<bool> | |x| == |ps| ensures Feasible(lp, x) <==> Admissible(ps, blocks, l, x) {
      SatisfiesSplits(overlap + energy, repetition, x);
      SatisfiesSplits(overlap, energy, x);
      assert Feasible(lp, x) <==> Satisfies(lp.constraints, x);
    }
  }

  method LimitConstraints(ps: seq<Placement>, l: Limits) returns (cs: seq<Constraint>)
    requires ValidLimits(l)
    ensures forall x: seq<bool> :: |x| == |ps| ==> (Satisfies(cs, x) <==> WithinLimits(ps, l, x))
  {
    if |l.times| > 0 {
      cs := EnergyConstraints(ps, l.times, l.budgets);
    } else if l.availableKwh.Some? && l.availableKwh.value > 0.0 {
      var bound := Units(l.availableKwh.value);
      cs := [Constraint(Terms(FinishedBy(None), ps), bound)];
      forall x: seq<bool> | |x| == |ps| ensures Satisfies(cs, x) <==> WithinLimits(ps, l, x) {
        SatisfiesGroup([], FinishedBy(None), bound, ps, x);
        assert [] + cs == cs;
      }
    } else {
      cs := [];
    }
  }
}
