/**
  What a plan is paid and what it discharges, slot by slot: each power of the expanded chain at the
  price of the slot it falls into.
 */
module MilpPayment {
  import opened Wrappers
  import opened Reals
  import opened Sorting
  import opened MilpModel
  import opened MilpPlan
  import opened MilpAssembly

  /** A power in watts for a quarter of an hour at the price of a slot, in cents. */
  ghost function Pay(powerW: real, slot: Slot): real { Abs(powerW) / 1000.0 * 0.25 * slot.ctKwh }

  /** Each power for its own slot. */
  ghost function Earnings(powers: seq<real>, paid: seq<Slot>): real
    requires |powers| == |paid|
  {
    if powers == [] then 0.0
    else
      var n := |powers| - 1;
      Earnings(powers[..n], paid[..n]) + Pay(powers[n], paid[n])
  }

  /** Each power for the length of a slot, in kWh. */
  ghost function Discharged(powers: seq<real>, slotHours: real): real {
    if powers == [] then 0.0
    else
      var n := |powers| - 1;
      Discharged(powers[..n], slotHours) + Abs(powers[n]) / 1000.0 * slotHours
  }

  ghost function SlotsOf(chain: seq<Entry>): nat {
    if chain == [] then 0 else SlotsOf(chain[..|chain| - 1]) + chain[|chain| - 1].slots
  }

  /** Each entry holds its power for its number of slots, after those of the entries before it. */
  lemma {:induction false} EntryHoldsItsPower(chain: seq<Entry>, i: nat, k: nat)
    requires i < |chain| && k < chain[i].slots
    ensures |ExpandChainSlots(chain)| == SlotsOf(chain)
    ensures SlotsOf(chain[..i]) + k < SlotsOf(chain)
    ensures ExpandChainSlots(chain)[SlotsOf(chain[..i]) + k] == chain[i].powerW
  {
    var n := |chain| - 1;
    ExpansionTail(chain);
    ExpansionLength(chain[..n]);
    RepeatIsConstant(chain[n].powerW, chain[n].slots);
    hide ExpandChainSlots;
    if i < n {
      EntryHoldsItsPower(chain[..n], i, k);
      assert chain[..n][..i] == chain[..i];
    }
  }

  lemma {:induction false} ExpansionTail(chain: seq<Entry>)
    requires chain != []
    ensures var n := |chain| - 1;
            ExpandChainSlots(chain) == ExpandChainSlots(chain[..n]) + Repeat(chain[n].powerW, chain[n].slots)
  {
    var n := |chain| - 1;
    if n > 0 {
      var rest := chain[1..];
      ExpansionTail(rest);
      assert rest[..n - 1] == chain[..n][1..] && rest[n - 1] == chain[n];
      Regroup(Repeat(chain[0].powerW, chain[0].slots), ExpandChainSlots(rest[..n - 1]),
              Repeat(chain[n].powerW, chain[n].slots));
    }
  }

  lemma {:induction false} ExpansionLength(chain: seq<Entry>)
    ensures |ExpandChainSlots(chain)| == SlotsOf(chain)
  {
    if chain != [] {
      ExpansionTail(chain);
      ExpansionLength(chain[..|chain| - 1]);
    }
  }

  lemma {:induction false} RepeatIsConstant(powerW: real, slots: nat)
    ensures forall k :: 0 <= k < slots ==> Repeat(powerW, slots)[k] == powerW
  {
    if slots > 0 { RepeatIsConstant(powerW, slots - 1); }
  }

  /** `paid` are slots at these times, one for each. */
  ghost predicate SlotsAt(paid: seq<Slot>, timestamps: seq<int>, slots: seq<Slot>) {
    && |paid| == |timestamps|
    && forall i :: 0 <= i < |paid| ==> paid[i] in slots && paid[i].ts == timestamps[i]
  }

  /** The plan's revenue is what its powers earn in the slots of its timestamps. */
  ghost predicate PaidBySlot(plan: Plan, slots: seq<Slot>) {
    exists paid: seq<Slot> :: PaidIn(plan, slots, paid)
  }

  ghost predicate PaidIn(plan: Plan, slots: seq<Slot>, paid: seq<Slot>) {
    && SlotsAt(paid, plan.timestamps, slots) && |ExpandChainSlots(plan.chain)| == |paid|
    && plan.totalRevenueCt == Earnings(ExpandChainSlots(plan.chain), paid)
  }

  /** One more slot with its power adds exactly their own product. */
  lemma {:induction false} OneMoreSlotEarns(slots: seq<Slot>, expanded: seq<real>, slot: Slot, powerW: real)
    requires |slots| == |expanded|
    ensures RevenueCt(slots + [slot], expanded + [powerW])
            == RevenueCt(slots, expanded) + Pay(powerW, slot)
  {
    if slots == [] {
      assert slots + [slot] == [slot] && expanded + [powerW] == [powerW];
      assert [slot][1..] == [] && [powerW][1..] == [];
      assert RevenueCt([], []) == 0.0;
    } else {
      assert (slots + [slot])[1..] == slots[1..] + [slot] && (expanded + [powerW])[1..] == expanded[1..] + [powerW];
      OneMoreSlotEarns(slots[1..], expanded[1..], slot, powerW);
    }
  }

  lemma {:induction false} RevenueIsEarnings(slots: seq<Slot>, expanded: seq<real>)
    requires |slots| == |expanded|
    ensures RevenueCt(slots, expanded) == Earnings(expanded, slots)
  {
    hide Pay;
    if slots != [] {
      var n := |slots| - 1;
      RevenueIsEarnings(slots[..n], expanded[..n]);
      OneMoreSlotEarns(slots[..n], expanded[..n], slots[n], expanded[n]);
      assert slots == slots[..n] + [slots[n]] && expanded == expanded[..n] + [expanded[n]];
      hide RevenueCt;
    }
  }

  lemma {:induction false} OneMoreSlotDischarges(expanded: seq<real>, powerW: real, slotHours: real)
    ensures EnergyKwh(expanded + [powerW], slotHours)
            == EnergyKwh(expanded, slotHours) + Abs(powerW) / 1000.0 * slotHours
  {
    if expanded == [] {
      assert expanded + [powerW] == [powerW] && [powerW][1..] == [];
      assert EnergyKwh([], slotHours) == 0.0;
    } else {
      assert (expanded + [powerW])[1..] == expanded[1..] + [powerW];
      OneMoreSlotDischarges(expanded[1..], powerW, slotHours);
    }
  }

  /** A block's energy is what its powers discharge. */
  lemma {:induction false} EnergyIsDischarged(expanded: seq<real>, slotHours: real)
    ensures EnergyKwh(expanded, slotHours) == Discharged(expanded, slotHours)
  {
    if expanded != [] {
      var n := |expanded| - 1;
      EnergyIsDischarged(expanded[..n], slotHours);
      OneMoreSlotDischarges(expanded[..n], expanded[n], slotHours);
      assert expanded == expanded[..n] + [expanded[n]];
      hide EnergyKwh;
    }
  }

  lemma {:induction false} EarningsAppend(a: seq<real>, b: seq<real>, s: seq<Slot>, t: seq<Slot>)
    requires |a| == |s| && |b| == |t|
    ensures Earnings(a + b, s + t) == Earnings(a, s) + Earnings(b, t)
  {
    if b == [] {
      assert a + b == a && s + t == s;
    } else {
      var n := |b| - 1;
      EarningsAppend(a, b[..n], s, t[..n]);
      assert (a + b)[..|a + b| - 1] == a + b[..n] && (s + t)[..|s + t| - 1] == s + t[..n];
    }
  }

  lemma SlotsSpaced(slots: seq<Slot>, lo: nat, hi: nat, d: int)
    requires hi <= |slots| && Contiguous(slots, lo, hi, d)
    ensures forall k :: lo < k < hi ==> slots[k].ts == slots[k - 1].ts + d
  {
    forall k | lo < k < hi ensures slots[k].ts == slots[k - 1].ts + d { assert Follows(slots, k, d); }
  }

  lemma PlacementTimes(p: Placement, slots: seq<Slot>, slotIndex: map<int, nat>, blocks: seq<Block>, d: int)
    requires Placeable(p, slots, slotIndex, blocks, d)
    ensures |p.timestamps| == |p.block.expanded|
    ensures forall i :: 0 <= i < |p.timestamps| ==> p.timestamps[i] == slots[p.first + i].ts
  {
    var window := slots[p.first..p.first + |p.block.expanded|];
    assert p.timestamps == Timestamps(window);
    hide Place, RevenueCt, Contiguous, Placeable;
    assert forall i :: 0 <= i < |window| ==> window[i] == slots[p.first + i];
  }

  lemma WindowAt(p: Placement, slots: seq<Slot>)
    requires p.first + |p.timestamps| <= |slots|
    requires forall i :: 0 <= i < |p.timestamps| ==> p.timestamps[i] == slots[p.first + i].ts
    ensures SlotsAt(slots[p.first..p.first + |p.timestamps|], p.timestamps, slots)
  {
    var window := slots[p.first..p.first + |p.timestamps|];
    assert forall i :: 0 <= i < |window| ==> window[i] == slots[p.first + i];
  }

  lemma PlacementRevenue(p: Placement, slots: seq<Slot>, slotIndex: map<int, nat>, blocks: seq<Block>, d: int)
    requires Placeable(p, slots, slotIndex, blocks, d)
    ensures p.revenueCt == RevenueCt(slots[p.first..p.first + |p.block.expanded|], p.block.expanded)
  {
    hide RevenueCt, Contiguous;
  }

  /** A placement is paid in its own slots. */
  lemma PlacementPaid(p: Placement, slots: seq<Slot>, slotIndex: map<int, nat>, blocks: seq<Block>, d: int)
    requires Placeable(p, slots, slotIndex, blocks, d)
    ensures var window := slots[p.first..p.first + |p.block.expanded|];
            SlotsAt(window, p.timestamps, slots) && p.revenueCt == Earnings(p.block.expanded, window)
  {
    PlacementTimes(p, slots, slotIndex, blocks, d);
    PlacementRevenue(p, slots, slotIndex, blocks, d);
    WindowAt(p, slots);
    hide Place, RevenueCt, Earnings, Contiguous, SlotsAt;
    RevenueIsEarnings(slots[p.first..p.first + |p.block.expanded|], p.block.expanded);
  }

  /** Its timestamps follow each other at the slot length. */
  lemma PlacementSpaced(p: Placement, slots: seq<Slot>, slotIndex: map<int, nat>, blocks: seq<Block>, d: int)
    requires Placeable(p, slots, slotIndex, blocks, d)
    ensures |p.timestamps| == |p.block.expanded|
    ensures forall i :: 0 < i < |p.timestamps| ==> p.timestamps[i] == p.timestamps[i - 1] + d
  {
    var n := |p.block.expanded|;
    SlotsSpaced(slots, p.first, p.first + n, d);
    PlacementTimes(p, slots, slotIndex, blocks, d);
    hide Place, RevenueCt, Contiguous, Placeable;
    forall i | 0 < i < n ensures p.timestamps[i] == p.timestamps[i - 1] + d {
      assert p.timestamps[i] == slots[p.first + i].ts && p.timestamps[i - 1] == slots[p.first + i - 1].ts;
    }
  }

  lemma {:induction false} SelectionPaid(sel: seq<Placement>, slots: seq<Slot>, slotIndex: map<int, nat>,
                                         blocks: seq<Block>, d: int) returns (paid: seq<Slot>)
    requires forall p :: p in sel ==> Placeable(p, slots, slotIndex, blocks, d)
    ensures SlotsAt(paid, AllTimestamps(sel), slots) && |AllPowers(sel)| == |paid|
    ensures TotalRevenue(sel) == Earnings(AllPowers(sel), paid)
  {
    if sel == [] {
      paid := [];
    } else {
      var n := |sel| - 1;
      var p := sel[n];
      assert p in sel && forall q :: q in sel[..n] ==> q in sel;
      hide Placeable;
      var before := SelectionPaid(sel[..n], slots, slotIndex, blocks, d);
      PlacementPaid(p, slots, slotIndex, blocks, d);
      var window := slots[p.first..p.first + |p.block.expanded|];
      EarningsAppend(AllPowers(sel[..n]), p.block.expanded, before, window);
      SlotsAtAppend(before, AllTimestamps(sel[..n]), window, p.timestamps, slots);
      paid := before + window;
      hide Earnings;
    }
  }

  lemma SlotsAtAppend(a: seq<Slot>, s: seq<int>, b: seq<Slot>, t: seq<int>, slots: seq<Slot>)
    requires SlotsAt(a, s, slots) && SlotsAt(b, t, slots)
    ensures SlotsAt(a + b, s + t, slots)
  {
  }

  /** Sorting the slots does not matter for what is paid. */
  lemma PaidInSorted(plan: Plan, slots: seq<Slot>)
    requires PaidBySlot(plan, StableSort(slots, SlotTs))
    ensures PaidBySlot(plan, slots)
  {
    var paid: seq<Slot> :| PaidIn(plan, StableSort(slots, SlotTs), paid);
    SameElements(slots, SlotTs);
    hide Earnings, StableSort;
    assert PaidIn(plan, slots, paid);
  }
}
