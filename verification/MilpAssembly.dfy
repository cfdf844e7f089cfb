/**
  Putting the plan together: the chosen placements in order of time, and what is gathered of them.
 */
module MilpAssembly {
  import opened Wrappers
  import opened Reals
  import opened Sorting
  import opened MilpModel
  import opened MilpConstraints
  import opened MilpPlan

  // ---- Putting the plan together ---------------------------------------------------------

  function Chosen(ps: seq<Placement>, x: seq<bool>): (r: seq<Placement>)
    requires |x| == |ps|
    ensures forall p :: p in r ==> exists i :: 0 <= i < |ps| && ps[i] == p && x[i]
  {
    if ps == [] then []
    else
      var n := |ps| - 1;
      Chosen(ps[..n], x[..n]) + if x[n] then [ps[n]] else []
  }

  /** No answer chooses nothing. */
  function ChosenBy(ps: seq<Placement>, answer: Option<seq<bool>>): seq<Placement> {
    if answer.Some? && |answer.value| == |ps| then Chosen(ps, answer.value) else []
  }

  function FirstTs(p: Placement): int {
    if p.timestamps == [] then 0 else p.timestamps[0]
  }

  function AllTimestamps(sel: seq<Placement>): seq<int> {
    if sel == [] then [] else AllTimestamps(sel[..|sel| - 1]) + sel[|sel| - 1].timestamps
  }

  function AllEntries(sel: seq<Placement>): seq<Entry> {
    if sel == [] then [] else AllEntries(sel[..|sel| - 1]) + sel[|sel| - 1].block.chain
  }

  function AllPowers(sel: seq<Placement>): seq<real> {
    if sel == [] then [] else AllPowers(sel[..|sel| - 1]) + sel[|sel| - 1].block.expanded
  }

  function TotalRevenue(sel: seq<Placement>): real {
    if sel == [] then 0.0 else TotalRevenue(sel[..|sel| - 1]) + sel[|sel| - 1].revenueCt
  }

  datatype Plan = Plan(timestamps: seq<int>, totalRevenueCt: real, chain: seq<Entry>, peakDischargeW: real,
                       blocks: seq<Placement>)

  const EMPTY_PLAN := Plan([], 0.0, [], 0.0, [])

  /** The peak is the largest absolute power among those given, zero if there is none. */
  ghost predicate IsPeak(peak: real, powers: seq<real>) {
    && (forall w :: w in powers ==> Abs(w) <= peak)
    && (peak == 0.0 || exists w :: w in powers && Abs(w) == peak)
  }

  method PeakOf(start: real, powers: seq<real>, ghost before: seq<real>) returns (peak: real)
    requires IsPeak(start, before) && start >= 0.0
    ensures IsPeak(peak, before + powers) && peak >= 0.0
  {
    peak := start;
    var i := 0;
    while i < |powers|
      invariant 0 <= i <= |powers| && peak >= 0.0
      invariant IsPeak(peak, before + powers[..i])
    {
      assert before + powers[..i + 1] == before + powers[..i] + [powers[i]];
      assert powers[i] in before + powers[..i + 1];
      assert forall w :: w in before + powers[..i + 1] <==> w in before + powers[..i] || w == powers[i];
      if Abs(powers[i]) > peak {
        peak := Abs(powers[i]);
      }
      i := i + 1;
    }
    assert powers[..i] == powers;
  }

  method AssemblePlan(ps: seq<Placement>, x: seq<bool>) returns (plan: Plan)
    requires |x| == |ps|
    ensures plan.blocks == StableSort(Chosen(ps, x), FirstTs)
    ensures plan.timestamps == AllTimestamps(plan.blocks) && plan.chain == AllEntries(plan.blocks)
    ensures plan.totalRevenueCt == TotalRevenue(plan.blocks)
    ensures IsPeak(plan.peakDischargeW, AllPowers(plan.blocks))
  {
    var selected := StableSort(Chosen(ps, x), FirstTs);
    plan := Gather(selected);
  }

  method Gather(selected: seq<Placement>) returns (plan: Plan)
    ensures plan.blocks == selected
    ensures plan.timestamps == AllTimestamps(selected) && plan.chain == AllEntries(selected)
    ensures plan.totalRevenueCt == TotalRevenue(selected)
    ensures IsPeak(plan.peakDischargeW, AllPowers(selected))
  {
    var allTimestamps, combinedChain, totalRevenueCt, peak := [], [], 0.0, 0.0;
    var i := 0;
    while i < |selected|
      invariant 0 <= i <= |selected| && peak >= 0.0
      invariant allTimestamps == AllTimestamps(selected[..i]) && combinedChain == AllEntries(selected[..i])
      invariant totalRevenueCt == TotalRevenue(selected[..i])
      invariant IsPeak(peak, AllPowers(selected[..i]))
    {
      var p := selected[i];
      assert selected[..i + 1][..i] == selected[..i];
      allTimestamps := allTimestamps + p.timestamps;
      combinedChain := combinedChain + p.block.chain;
      totalRevenueCt := totalRevenueCt + p.revenueCt;
      peak := PeakOf(peak, p.block.expanded, AllPowers(selected[..i]));
      i := i + 1;
    }
    assert selected[..i] == selected;
    plan := Plan(allTimestamps, totalRevenueCt, combinedChain, peak, selected);
  }

  // ---- Order and alignment ---------------------------------------------------------------

  ghost predicate PairwiseDisjoint(sel: seq<Placement>) {
    forall i, j :: 0 <= i < j < |sel| ==> Disjoint(sel[i], sel[j])
  }

  lemma {:induction false} InsertDisjoint(p: Placement, s: seq<Placement>)
    requires PairwiseDisjoint(s) && forall q :: q in s ==> Disjoint(p, q)
    ensures PairwiseDisjoint(Insert(p, s, FirstTs))
  {
    if s != [] && FirstTs(p) > FirstTs(s[0]) {
      InsertDisjoint(p, s[1..]);
      forall q | q in Insert(p, s[1..], FirstTs) ensures Disjoint(s[0], q) {
        assert q == p ==> Disjoint(p, s[0]);
      }
    }
  }

  lemma {:induction false} SortDisjoint(s: seq<Placement>)
    requires PairwiseDisjoint(s)
    ensures PairwiseDisjoint(StableSort(s, FirstTs))
  {
    if s != [] {
      SortDisjoint(s[1..]);
      SameElements(s[1..], FirstTs);
      InsertDisjoint(s[0], StableSort(s[1..], FirstTs));
    }
  }

  lemma {:induction false} ChosenDisjoint(ps: seq<Placement>, x: seq<bool>)
    requires |x| == |ps| && NoSharedSlot(ps, x)
    ensures PairwiseDisjoint(Chosen(ps, x))
  {
    if ps != [] {
      var n := |ps| - 1;
      ChosenDisjoint(ps[..n], x[..n]);
      if x[n] {
        forall q | q in Chosen(ps[..n], x[..n]) ensures Disjoint(q, ps[n]) {
          var i :| 0 <= i < n && ps[..n][i] == q && x[..n][i];
          assert ps[i] == q && x[i];
        }
      }
    }
  }

  /** One after the other in time, each internally rising. */
  ghost predicate InOrder(sel: seq<Placement>) {
    && (forall p :: p in sel ==> p.timestamps != [])
    && (forall i, a, b :: 0 <= i < |sel| && 0 <= a < b < |sel[i].timestamps| ==>
          sel[i].timestamps[a] < sel[i].timestamps[b])
    && (forall i, j :: 0 <= i < j < |sel| ==> sel[i].timestamps != [] && sel[j].timestamps != []
                                              && sel[i].timestamps[|sel[i].timestamps| - 1] < sel[j].timestamps[0])
  }

  ghost predicate StrictlyIncreasing(ts: seq<int>) {
    forall i, j :: 0 <= i < j < |ts| ==> ts[i] < ts[j]
  }

  lemma {:induction false} InOrderIncreases(sel: seq<Placement>)
    requires InOrder(sel)
    ensures StrictlyIncreasing(AllTimestamps(sel))
    ensures sel != [] ==> AllTimestamps(sel) != []
                          && AllTimestamps(sel)[|AllTimestamps(sel)| - 1]
                            == sel[|sel| - 1].timestamps[|sel[|sel| - 1].timestamps| - 1]
  {
    if sel != [] {
      var n := |sel| - 1;
      assert sel[n] in sel;
      InOrderIncreases(sel[..n]);
      assert sel[n] == sel[|sel| - 1] && n > 0 ==> sel[n - 1] == sel[..n][n - 1];
      IncreasingAppend(AllTimestamps(sel[..n]), sel[n].timestamps);
    }
  }

  lemma IncreasingAppend(a: seq<int>, b: seq<int>)
    requires StrictlyIncreasing(a) && StrictlyIncreasing(b) && b != []
    requires a != [] ==> a[|a| - 1] < b[0]
    ensures StrictlyIncreasing(a + b) && (a + b)[|a + b| - 1] == b[|b| - 1]
  {
    var c := a + b;
    forall i, j | 0 <= i < j < |c| ensures c[i] < c[j] {
      if i < |a| && j >= |a| { assert a[i] <= a[|a| - 1] && b[0] <= b[j - |a|]; }
    }
  }

  lemma {:induction false} RepeatExpands(chain: seq<Entry>, more: seq<Entry>)
    ensures ExpandChainSlots(chain + more) == ExpandChainSlots(chain) + ExpandChainSlots(more)
  {
    if chain == [] {
      assert chain + more == more;
    } else {
      RepeatExpands(chain[1..], more);
      hide Repeat;
      Regroup(Repeat(chain[0].powerW, chain[0].slots), ExpandChainSlots(chain[1..]), ExpandChainSlots(more));
      assert (chain + more)[1..] == chain[1..] + more;
    }
  }

  /** The combined chain expands to the powers of the placements, one for each timestamp. */
  lemma {:induction false} ChainFollowsTimestamps(sel: seq<Placement>)
    requires forall p :: p in sel ==>
              p.block.expanded == ExpandChainSlots(p.block.chain) && |p.timestamps| == |p.block.expanded|
    ensures ExpandChainSlots(AllEntries(sel)) == AllPowers(sel)
    ensures |AllTimestamps(sel)| == |AllPowers(sel)|
  {
    if sel != [] {
      var n := |sel| - 1;
      assert sel[n] in sel;
      ChainFollowsTimestamps(sel[..n]);
      RepeatExpands(AllEntries(sel[..n]), sel[n].block.chain);
    }
  }
}
