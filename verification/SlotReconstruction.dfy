/**
  One slot bucket: the values imported for a 15-minute slot, and how the six core values
  (load, solar, import, export, battery charge, battery discharge) are completed.
 */
module SlotReconstruction {
  import opened Wrappers
  import opened Allocation
  import opened EnergyFlows

  type Values = map<Field, real>

  function StoredFlows(v: Values): Flows {
    Flows(Given(v, SolarDirectUse), Given(v, SolarToBattery), Given(v, SolarToGrid),
          Given(v, GridDirectUse), Given(v, GridToBattery),
          Given(v, BatteryDirectUse), Given(v, BatteryToGrid))
  }

  function SlotAnchors(v: Values): Anchors {
    Anchors(Positive(Given(v, VrmSolarYield)), Positive(Given(v, VrmSiteConsumption)),
            Positive(Given(v, VrmGridImportRef)), Positive(Given(v, VrmGridExportRef)))
  }

  predicate Anchored(a: Anchors) {
    a.pv > 0.0 || a.load > 0.0 || a.gridImport > 0.0 || a.gridExport > 0.0
  }

  function WithFlows(v: Values, r: Flows): Values {
    v[SolarDirectUse := r.solarDirect][SolarToBattery := r.solarToBattery][SolarToGrid := r.solarToGrid]
     [GridDirectUse := r.gridDirect][GridToBattery := r.gridToBattery]
     [BatteryDirectUse := r.batteryDirect][BatteryToGrid := r.batteryToGrid]
  }

  function WithAnchors(v: Values, r: Flows, a: Anchors): Values {
    v[LoadPower := if a.load > 0.0 then a.load else r.ToLoad()]
     [GridImport := a.gridImport][GridExport := a.gridExport][PvTotal := a.pv]
     [BatteryCharge := r.ToCharge()][BatteryDischarge := r.Battery()]
  }

  function DirectUseFieldsPresent(v: Values): nat {
    (if SolarDirectUse in v then 1 else 0) + (if GridDirectUse in v then 1 else 0)
      + (if BatteryDirectUse in v then 1 else 0)
  }

  /** A missing core value is taken from the flows, if they say something positive. */
  function Fill(v: Values, f: Field, x: real): Values {
    if f !in v && x > 0.0 then v[f := x] else v
  }

  function FilledFromFlows(v: Values, r: Flows, directUse: nat): Values {
    var v1 := if directUse >= 2 then Fill(v, LoadPower, r.ToLoad()) else v;
    var v2 := Fill(v1, GridImport, r.Grid());
    var v3 := Fill(v2, GridExport, r.ToExport());
    var v4 := Fill(v3, BatteryCharge, r.ToCharge());
    var v5 := Fill(v4, BatteryDischarge, r.Battery());
    var v6 := Fill(v5, PvTotal, r.Solar());
    if directUse >= 2 then v6[SelfConsumption := r.ToLoad()] else v6
  }

  /** The value of one core field that the other five imply, if all five are there. */
  function DeriveMissingField(v: Values, field: Field): Option<real> {
    match field
    case LoadPower =>
      if PvTotal in v && BatteryDischarge in v && GridImport in v && GridExport in v && BatteryCharge in v
      then Some(v[PvTotal] + v[BatteryDischarge] + v[GridImport] - v[GridExport] - v[BatteryCharge]) else None
    case PvTotal =>
      if LoadPower in v && BatteryDischarge in v && GridImport in v && GridExport in v && BatteryCharge in v
      then Some(v[LoadPower] - v[BatteryDischarge] - v[GridImport] + v[GridExport] + v[BatteryCharge]) else None
    case GridImport =>
      if LoadPower in v && PvTotal in v && BatteryDischarge in v && GridExport in v && BatteryCharge in v
      then Some(v[LoadPower] - v[PvTotal] - v[BatteryDischarge] + v[GridExport] + v[BatteryCharge]) else None
    case GridExport =>
      if PvTotal in v && BatteryDischarge in v && GridImport in v && BatteryCharge in v && LoadPower in v
      then Some(v[PvTotal] + v[BatteryDischarge] + v[GridImport] - v[BatteryCharge] - v[LoadPower]) else None
    case BatteryCharge =>
      if PvTotal in v && BatteryDischarge in v && GridImport in v && GridExport in v && LoadPower in v
      then Some(v[PvTotal] + v[BatteryDischarge] + v[GridImport] - v[GridExport] - v[LoadPower]) else None
    case BatteryDischarge =>
      if LoadPower in v && PvTotal in v && GridImport in v && GridExport in v && BatteryCharge in v
      then Some(v[LoadPower] - v[PvTotal] - v[GridImport] + v[GridExport] + v[BatteryCharge]) else None
    case _ => None
  }

  ghost function Missing(v: Values): set<Field> {
    set f | f in CORE && f !in v
  }

  /** Load, export and charge on one side, solar, import and discharge on the other. */
  ghost function Imbalance(v: Values): real {
    Given(v, LoadPower) + Given(v, GridExport) + Given(v, BatteryCharge)
    - Given(v, PvTotal) - Given(v, GridImport) - Given(v, BatteryDischarge)
  }

  /** `w` is `v`, but for the one core value that was missing and now makes the slot balance. */
  ghost predicate Completes(v: Values, w: Values) {
    exists f :: Missing(v) == {f} && w == v[f := Given(w, f)] && Imbalance(w) == 0.0
  }

  /** `w` is `v` with its one missing core value derived, or `v` itself when none or several are missing. */
  ghost predicate Settles(v: Values, w: Values) {
    if |Missing(v)| == 1 then Completes(v, w) && Missing(w) == {} else w == v
  }

  /** The flows a slot is completed from: the imported ones, re-fitted if there are anchors. */
  function SlotFlows(v: Values, eps: real): Flows {
    if Anchored(SlotAnchors(v)) then FittedFlows(StoredFlows(v), SlotAnchors(v), eps) else StoredFlows(v)
  }

  // What a slot ends up with, field by field.

  /** The flow that reaches no battery and no grid, and how many of its three parts were imported. */
  ghost function DirectUse(v: Values): real {
    Given(v, SolarDirectUse) + Given(v, GridDirectUse) + Given(v, BatteryDirectUse)
  }

  ghost predicate SeveralDirectUses(v: Values) {
    || (SolarDirectUse in v && GridDirectUse in v)
    || (SolarDirectUse in v && BatteryDirectUse in v)
    || (GridDirectUse in v && BatteryDirectUse in v)
  }

  /** A missing core value becomes the sum of its flows; else it can only be the last, derived from the balance. */
  ghost predicate TakenFromFlows(v: Values, w: Values, f: Field, sum: real, known: bool) {
    f !in v ==>
      if known && sum > 0.0 then f in w && w[f] == sum
      else f in w ==> Missing(w) == {} && Imbalance(w) == 0.0
  }

  /** Without reference readings: each missing value comes from its own flows, or from the balance. */
  ghost predicate CompletedFromFlows(v: Values, w: Values) {
    && TakenFromFlows(v, w, LoadPower, DirectUse(v), SeveralDirectUses(v))
    && TakenFromFlows(v, w, GridImport, Given(v, GridDirectUse) + Given(v, GridToBattery), true)
    && TakenFromFlows(v, w, GridExport, Given(v, SolarToGrid) + Given(v, BatteryToGrid), true)
    && TakenFromFlows(v, w, BatteryCharge, Given(v, SolarToBattery) + Given(v, GridToBattery), true)
    && TakenFromFlows(v, w, BatteryDischarge, Given(v, BatteryDirectUse) + Given(v, BatteryToGrid), true)
    && TakenFromFlows(v, w, PvTotal, Given(v, SolarDirectUse) + Given(v, SolarToBattery) + Given(v, SolarToGrid), true)
    && (if SeveralDirectUses(v) then SelfConsumption in w && w[SelfConsumption] == DirectUse(v)
        else (SelfConsumption in w <==> SelfConsumption in v) && Given(w, SelfConsumption) == Given(v, SelfConsumption))
    && (forall f :: f in v && f != SelfConsumption ==> f in w && w[f] == v[f])
  }

  ghost predicate HasReference(v: Values) {
    || Given(v, VrmSolarYield) > 0.0 || Given(v, VrmSiteConsumption) > 0.0
    || Given(v, VrmGridImportRef) > 0.0 || Given(v, VrmGridExportRef) > 0.0
  }

  /** With reference readings: meters read those, the battery reads its flows, and the flows add up to the meters. */
  ghost predicate ReadOffReference(v: Values, w: Values, eps: real) {
    && (forall f :: f in CORE ==> f in w) && SelfConsumption in w
    && Given(w, PvTotal) == Positive(Given(v, VrmSolarYield))
    && Given(w, LoadPower) == Positive(Given(v, VrmSiteConsumption))
    && Given(w, GridImport) == Positive(Given(v, VrmGridImportRef))
    && Given(w, GridExport) == Positive(Given(v, VrmGridExportRef))
    && Given(w, BatteryCharge) == Given(w, SolarToBattery) + Given(w, GridToBattery)
    && Given(w, BatteryDischarge) == Given(w, BatteryDirectUse) + Given(w, BatteryToGrid)
    && Given(w, SelfConsumption) == DirectUse(w)
    && Near(Given(w, SolarDirectUse) + Given(w, SolarToBattery) + Given(w, SolarToGrid), Given(w, PvTotal), 3.0 * eps)
    && Near(DirectUse(w), Given(w, LoadPower), 5.0 * eps)
    && Near(Given(w, GridImport) - Given(w, GridDirectUse) - Given(w, GridToBattery),
            Given(w, GridExport) - Given(w, SolarToGrid) - Given(w, BatteryToGrid), 6.0 * eps)
  }

  /** The values, completed from flows `r`, before the last missing one is derived. */
  function Prepared(v: Values, r: Flows): Values {
    var a := SlotAnchors(v);
    if Anchored(a)
    then FilledFromFlows(WithAnchors(WithFlows(v, r), r, a), r, 3)
    else FilledFromFlows(v, r, DirectUseFieldsPresent(v))
  }

  lemma DerivesExactlyTheLast(v: Values, f: Field)
    requires f in Missing(v)
    ensures DeriveMissingField(v, f).Some? <==> Missing(v) == {f}
    ensures DeriveMissingField(v, f).Some? ==> Completes(v, v[f := DeriveMissingField(v, f).value])
  {
    assert forall g :: g in CORE
                       <==> g in {LoadPower, PvTotal, GridImport, GridExport, BatteryCharge, BatteryDischarge};
    if Missing(v) == {f} {
      forall g | g in CORE && g != f ensures g in v {
        assert g !in Missing(v);
      }
      var w := v[f := DeriveMissingField(v, f).value];
      assert w == v[f := Given(w, f)];
    } else {
      var g :| g in Missing(v) && g != f;
    }
  }

  lemma OnlyElement<T>(s: set<T>, x: T)
    requires x in s && |s| == 1
    ensures s == {x}
  {
    assert |s - {x}| == 0;
  }

  class SlotBucket {
    var values: Values

    constructor (v: Values)
      ensures values == v
    {
      values := v;
    }

    /** Repeats over the core fields until no more can be derived. */
    method DeriveMissing()
      modifies this
      ensures Settles(old(values), values)
    {
      var changed := true;
      while changed
        invariant values == old(values) || (Completes(old(values), values) && Missing(values) == {})
        invariant !changed ==> forall f :: f in Missing(values) ==> DeriveMissingField(values, f).None?
        decreases |Missing(values)|, changed
      {
        changed := false;
        var i := 0;
        ghost var start := values;
        while i < |CORE|
          invariant 0 <= i <= |CORE|
          invariant values == old(values) || (Completes(old(values), values) && Missing(values) == {})
          invariant changed ==> |Missing(values)| < |Missing(start)|
          invariant !changed ==> values == start
          invariant !changed ==> forall j :: 0 <= j < i && CORE[j] in Missing(values) ==>
                    DeriveMissingField(values, CORE[j]).None?
        {
          var field := CORE[i];
          if field !in values {
            var derived := DeriveMissingField(values, field);
            if derived.Some? {
              DerivesExactlyTheLast(values, field);
              values := values[field := derived.value];
              assert Missing(values) == {};
              changed := true;
            }
          }
          i := i + 1;
        }
      }
      if |Missing(values)| == 1 {
        var f :| f in Missing(values);
        assert Missing(values) == {f} by { OnlyElement(Missing(values), f); }
        DerivesExactlyTheLast(values, f);
      }
      if values != old(values) {
        assert |Missing(old(values))| == 1;
      }
    }

    method FillFromFlows(r: Flows, directUse: nat)
      modifies this
      ensures values == FilledFromFlows(old(values), r, directUse)
    {
      if directUse >= 2 { FillField(LoadPower, r.ToLoad()); }
      FillField(GridImport, r.Grid());
      FillField(GridExport, r.ToExport());
      FillField(BatteryCharge, r.ToCharge());
      FillField(BatteryDischarge, r.Battery());
      FillField(PvTotal, r.Solar());
      if directUse >= 2 { values := values[SelfConsumption := r.ToLoad()]; }
    }

    method FillField(f: Field, x: real)
      modifies this
      ensures values == Fill(old(values), f, x)
    {
      if f !in values {
        if x > 0.0 { values := values[f := x]; }
      }
    }

    method WriteFittedFlows(r: Flows)
      modifies this
      ensures values == WithFlows(old(values), r)
    {
      values := values[SolarDirectUse := r.solarDirect][SolarToBattery := r.solarToBattery];
      values := values[SolarToGrid := r.solarToGrid];
      values := values[GridDirectUse := r.gridDirect][GridToBattery := r.gridToBattery];
      values := values[BatteryDirectUse := r.batteryDirect][BatteryToGrid := r.batteryToGrid];
    }

    method WriteAnchors(r: Flows, a: Anchors)
      modifies this
      ensures values == WithAnchors(old(values), r, a)
    {
      values := values[LoadPower := if a.load > 0.0 then a.load else r.ToLoad()];
      values := values[GridImport := a.gridImport][GridExport := a.gridExport][PvTotal := a.pv];
      values := values[BatteryCharge := r.ToCharge()][BatteryDischarge := r.Battery()];
    }

    method CompleteFromFlows(eps: real)
      modifies this
      ensures values == Prepared(old(values), SlotFlows(old(values), eps))
    {
      var anchors := SlotAnchors(values);
      var hasVrmAnchors := Anchored(anchors);
      var flowValues := FitFlows(anchors, hasVrmAnchors, eps);
      PrepareValues(flowValues, anchors, hasVrmAnchors);
    }

    method FitFlows(anchors: Anchors, hasVrmAnchors: bool, eps: real) returns (r: Flows)
      requires anchors == SlotAnchors(values) && hasVrmAnchors == Anchored(anchors)
      ensures r == SlotFlows(values, eps)
    {
      r := StoredFlows(values);
      if hasVrmAnchors {
        r := NormalizeFlowValuesToVrmAnchors(r, anchors, eps);
      }
    }

    method PrepareValues(flowValues: Flows, anchors: Anchors, hasVrmAnchors: bool)
      requires anchors == SlotAnchors(values) && hasVrmAnchors == Anchored(anchors)
      modifies this
      ensures values == Prepared(old(values), flowValues)
    {
      if hasVrmAnchors {
        WriteFittedFlows(flowValues);
      }
      var directUse := DirectUseFieldsPresent(values);
      if hasVrmAnchors {
        WriteAnchors(flowValues, anchors);
      }
      FillFromFlows(flowValues, directUse);
    }

    method ReconstructSlotBucket(eps: real) returns (incomplete: bool)
      modifies this
      ensures var v := old(values);
              Settles(Prepared(v, SlotFlows(v, eps)), values)
      ensures incomplete <==> Missing(values) != {}
      ensures !HasReference(old(values)) ==> CompletedFromFlows(old(values), values)
      ensures HasReference(old(values)) && eps >= 0.0 ==> ReadOffReference(old(values), values, eps)
    {
      ghost var v := values;
      CompleteFromFlows(eps);
      DeriveMissing();
      incomplete := IsIncomplete();
      UnanchoredLaw(v, values, eps);
      if eps >= 0.0 { AnchoredLaw(v, values, eps); }
    }

    method IsIncomplete() returns (incomplete: bool)
      ensures incomplete <==> Missing(values) != {}
    {
      incomplete := false;
      var i := 0;
      while i < |CORE|
        invariant 0 <= i <= |CORE|
        invariant incomplete <==> exists j :: 0 <= j < i && CORE[j] !in values
      {
        if CORE[i] !in values { incomplete := true; }
        i := i + 1;
      }
      if incomplete {
        var j :| 0 <= j < |CORE| && CORE[j] !in values;
        assert CORE[j] in Missing(values);
      }
    }
  }

  /** Filling never changes a value that is there. */
  ghost predicate Keeps(v: Values, w: Values) {
    forall f :: f in v && f != SelfConsumption ==> f in w && w[f] == v[f]
  }

  lemma FillingKeeps(v: Values, r: Flows, directUse: nat)
    ensures Keeps(v, FilledFromFlows(v, r, directUse))
  {
    var v1 := if directUse >= 2 then Fill(v, LoadPower, r.ToLoad()) else v;
    var v2 := Fill(v1, GridImport, r.Grid());
    var v3 := Fill(v2, GridExport, r.ToExport());
    assert Keeps(v, v3) by { assert Keeps(v, v1) && Keeps(v1, v2) && Keeps(v2, v3); }
    var v4 := Fill(v3, BatteryCharge, r.ToCharge());
    var v5 := Fill(v4, BatteryDischarge, r.Battery());
    var v6 := Fill(v5, PvTotal, r.Solar());
    assert Keeps(v3, v6) by { assert Keeps(v3, v4) && Keeps(v4, v5) && Keeps(v5, v6); }
  }

  /** The core values are the anchors, with the battery read off the flows. */
  ghost predicate MeterValues(p: Values, r: Flows, a: Anchors) {
    && Missing(p) == {}
    && Given(p, LoadPower) == (if a.load > 0.0 then a.load else r.ToLoad())
    && Given(p, PvTotal) == a.pv && Given(p, GridImport) == a.gridImport && Given(p, GridExport) == a.gridExport
    && Given(p, BatteryCharge) == r.ToCharge() && Given(p, BatteryDischarge) == r.Battery()
  }

  lemma AnchoredPreparation(v: Values, r: Flows)
    requires Anchored(SlotAnchors(v))
    ensures MeterValues(Prepared(v, r), r, SlotAnchors(v)) && StoredFlows(Prepared(v, r)) == r
  {
    var a := SlotAnchors(v);
    var p := WithAnchors(WithFlows(v, r), r, a);
    AnchorsWritten(v, r, a);
    FillingKeeps(p, r, 3);
    hide WithAnchors, WithFlows, FilledFromFlows, Keeps, MeterValues, StoredFlows, FlowsThere;
    FillingKeepsMeters(p, FilledFromFlows(p, r, 3), r, a);
  }

  ghost predicate FlowsThere(v: Values) {
    && SolarDirectUse in v && SolarToBattery in v && SolarToGrid in v && GridDirectUse in v && GridToBattery in v
    && BatteryDirectUse in v && BatteryToGrid in v
  }

  lemma AnchorsWritten(v: Values, r: Flows, a: Anchors)
    ensures var p := WithAnchors(WithFlows(v, r), r, a); MeterValues(p, r, a) && StoredFlows(p) == r && FlowsThere(p)
  {
    var p := WithAnchors(WithFlows(v, r), r, a);
    assert forall f :: f in CORE ==> f in p;
  }

  lemma FillingKeepsMeters(p: Values, w: Values, r: Flows, a: Anchors)
    requires Keeps(p, w) && MeterValues(p, r, a) && StoredFlows(p) == r && FlowsThere(p)
    ensures MeterValues(w, r, a) && StoredFlows(w) == r
  {
    forall f | f in CORE ensures f in p && f != SelfConsumption { assert f !in Missing(p); }
  }

  lemma MeterValuesBalance(w: Values, r: Flows, a: Anchors, eps: real)
    requires MeterValues(w, r, a) && Fits(r, a, eps) && eps >= 0.0 && a.load >= 0.0
    ensures Given(w, LoadPower) == a.load
    ensures Given(w, BatteryCharge) == 0.0 || Given(w, BatteryDischarge) == 0.0
    ensures Near(Imbalance(w), 0.0, 4.0 * eps)
  {
    assert ImpliedCharge(a) == 0.0 || ImpliedDischarge(a) == 0.0;
  }

  /**
    An anchored slot comes out complete. Its meter values are the anchors, solar and battery
    flows fit them, it balances up to a few cutoffs (exactly for an exact cutoff), and the
    battery does not charge and discharge at once.
   */
  lemma AnchoredSlotBalances(v: Values, w: Values, eps: real)
    requires eps >= 0.0 && Anchored(SlotAnchors(v)) && Settles(Prepared(v, SlotFlows(v, eps)), w)
    ensures MeterValues(w, StoredFlows(w), SlotAnchors(v)) && Given(w, LoadPower) == SlotAnchors(v).load
    ensures Fits(StoredFlows(w), SlotAnchors(v), eps)
    ensures Given(w, BatteryCharge) == 0.0 || Given(w, BatteryDischarge) == 0.0
    ensures Near(Imbalance(w), 0.0, 4.0 * eps)
  {
    var a := SlotAnchors(v);
    var r := SlotFlows(v, eps);
    FittedFlowsFit(StoredFlows(v), a, eps);
    AnchoredPreparation(v, r);
    MeterValuesBalance(w, r, a, eps);
  }

  /**
    Without anchors nothing that was imported is changed; the slot is incomplete exactly when
    two or more core values are missing after the fill, and a derived value makes it balance.
   */
  lemma UnanchoredSlotSettles(v: Values, p: Values, w: Values)
    requires !Anchored(SlotAnchors(v)) && p == Prepared(v, StoredFlows(v)) && Settles(p, w)
    ensures Keeps(v, w)
    ensures Missing(w) != {} <==> |Missing(p)| >= 2
    ensures |Missing(p)| == 1 ==> Imbalance(w) == 0.0
  {
    assert Keeps(v, p) by { FillingKeeps(v, StoredFlows(v), DirectUseFieldsPresent(v)); }
    SettlingKeeps(p, w);
    KeepsTransitive(v, p, w);
  }

  lemma KeepsTransitive(u: Values, v: Values, w: Values)
    requires Keeps(u, v) && Keeps(v, w)
    ensures Keeps(u, w)
  {
  }

  lemma SettlingKeeps(p: Values, w: Values)
    requires Settles(p, w)
    ensures Keeps(p, w)
    ensures Missing(w) != {} <==> |Missing(p)| >= 2
    ensures |Missing(p)| == 1 ==> Imbalance(w) == 0.0
  {
    if |Missing(p)| == 1 {
      var f :| Missing(p) == {f} && w == p[f := Given(w, f)] && Imbalance(w) == 0.0;
      assert f in Missing(p);
    } else if |Missing(p)| == 0 {
      assert Missing(p) == {};
    }
  }

  // ---- Field by field ----------------------------------------------------------------------

  /** What the flows add up to for a core value. */
  function OwnFlow(r: Flows, f: Field): real {
    match f
    case LoadPower => r.ToLoad()
    case GridImport => r.Grid()
    case GridExport => r.ToExport()
    case BatteryCharge => r.ToCharge()
    case BatteryDischarge => r.Battery()
    case PvTotal => r.Solar()
    case _ => 0.0
  }

  ghost predicate Filled(v: Values, p: Values, f: Field, x: real, known: bool) {
    f !in v ==> (f in p <==> known && x > 0.0) && (f in p ==> p[f] == x)
  }

  lemma FieldIsFilled(v: Values, r: Flows, directUse: nat, f: Field)
    requires f in CORE
    ensures Filled(v, FilledFromFlows(v, r, directUse), f, OwnFlow(r, f), f == LoadPower ==> directUse >= 2)
  {
  }

  lemma SelfConsumptionFilled(v: Values, r: Flows, directUse: nat)
    ensures var p := FilledFromFlows(v, r, directUse);
            if directUse >= 2 then SelfConsumption in p && p[SelfConsumption] == r.ToLoad()
            else (SelfConsumption in p <==> SelfConsumption in v)
                 && Given(p, SelfConsumption) == Given(v, SelfConsumption)
  {
  }

  /** Settling adds at most the one missing core value, and then the slot balances. */
  lemma SettledField(p: Values, w: Values, f: Field)
    requires Settles(p, w)
    ensures f in p ==> f in w && w[f] == p[f]
    ensures f !in p && f in w ==> Missing(w) == {} && Imbalance(w) == 0.0 && f in CORE
  {
    if |Missing(p)| == 1 {
      var g :| Missing(p) == {g} && w == p[g := Given(w, g)] && Imbalance(w) == 0.0;
      assert g in Missing(p);
    }
  }

  lemma FilledAndSettled(v: Values, p: Values, w: Values, f: Field, x: real, known: bool)
    requires Filled(v, p, f, x, known) && Settles(p, w)
    ensures TakenFromFlows(v, w, f, x, known)
  {
    SettledField(p, w, f);
  }

  lemma FieldCompleted(v: Values, w: Values, r: Flows, directUse: nat, f: Field)
    requires f in CORE && Settles(FilledFromFlows(v, r, directUse), w)
    ensures TakenFromFlows(v, w, f, OwnFlow(r, f), f == LoadPower ==> directUse >= 2)
  {
    FieldIsFilled(v, r, directUse, f);
    hide FilledFromFlows, Settles, Filled, TakenFromFlows, OwnFlow;
    FilledAndSettled(v, FilledFromFlows(v, r, directUse), w, f, OwnFlow(r, f), f == LoadPower ==> directUse >= 2);
  }

  lemma UnanchoredLaw(v: Values, w: Values, eps: real)
    requires Settles(Prepared(v, SlotFlows(v, eps)), w)
    ensures !HasReference(v) ==> CompletedFromFlows(v, w)
  {
    hide FilledFromFlows, Settles, Prepared, SlotFlows, TakenFromFlows, StoredFlows, HasReference, SeveralDirectUses;
    hide DirectUse, DirectUseFieldsPresent, Given, Missing, Imbalance;
    if !HasReference(v) {
      var r, n := StoredFlows(v), DirectUseFieldsPresent(v);
      var p := FilledFromFlows(v, r, n);
      UnanchoredPrepared(v, eps);
      CoreFields();
      FieldCompleted(v, w, r, n, LoadPower);
      FieldCompleted(v, w, r, n, PvTotal);
      FieldCompleted(v, w, r, n, GridImport);
      FieldCompleted(v, w, r, n, GridExport);
      FieldCompleted(v, w, r, n, BatteryCharge);
      FieldCompleted(v, w, r, n, BatteryDischarge);
      SelfConsumptionSettled(v, p, w, r, n);
      KeptAndSettled(v, p, w, r, n);
      FlowSums(v);
    }
  }

  lemma UnanchoredPrepared(v: Values, eps: real)
    requires !HasReference(v)
    ensures Prepared(v, SlotFlows(v, eps)) == FilledFromFlows(v, StoredFlows(v), DirectUseFieldsPresent(v))
  {
    hide FilledFromFlows, FittedFlows, StoredFlows, DirectUseFieldsPresent;
  }

  lemma CoreFields()
    ensures LoadPower in CORE && PvTotal in CORE && GridImport in CORE && GridExport in CORE
    ensures BatteryCharge in CORE && BatteryDischarge in CORE && SelfConsumption !in CORE
  {
    assert CORE[0] == LoadPower && CORE[1] == PvTotal && CORE[2] == GridImport;
    assert CORE[3] == GridExport && CORE[4] == BatteryCharge && CORE[5] == BatteryDischarge;
  }

  lemma SelfConsumptionSettled(v: Values, p: Values, w: Values, r: Flows, directUse: nat)
    requires p == FilledFromFlows(v, r, directUse) && Settles(p, w)
    ensures if directUse >= 2 then SelfConsumption in w && w[SelfConsumption] == r.ToLoad()
            else (SelfConsumption in w <==> SelfConsumption in v)
                 && Given(w, SelfConsumption) == Given(v, SelfConsumption)
  {
    SelfConsumptionFilled(v, r, directUse);
    hide FilledFromFlows, Settles;
    SettledField(p, w, SelfConsumption);
    CoreFields();
  }

  lemma KeptAndSettled(v: Values, p: Values, w: Values, r: Flows, directUse: nat)
    requires p == FilledFromFlows(v, r, directUse) && Settles(p, w)
    ensures forall f :: f in v && f != SelfConsumption ==> f in w && w[f] == v[f]
  {
    FillingKeeps(v, r, directUse);
    SettlingKeeps(p, w);
    KeepsTransitive(v, p, w);
  }

  lemma FlowSums(v: Values)
    ensures var r := StoredFlows(v);
            && r.ToLoad() == DirectUse(v) && r.Grid() == Given(v, GridDirectUse) + Given(v, GridToBattery)
            && r.ToExport() == Given(v, SolarToGrid) + Given(v, BatteryToGrid)
            && r.ToCharge() == Given(v, SolarToBattery) + Given(v, GridToBattery)
            && r.Battery() == Given(v, BatteryDirectUse) + Given(v, BatteryToGrid)
            && r.Solar() == Given(v, SolarDirectUse) + Given(v, SolarToBattery) + Given(v, SolarToGrid)
    ensures DirectUseFieldsPresent(v) >= 2 <==> SeveralDirectUses(v)
  {
  }

  lemma AnchoredLaw(v: Values, w: Values, eps: real)
    requires Settles(Prepared(v, SlotFlows(v, eps)), w) && eps >= 0.0
    ensures HasReference(v) ==> ReadOffReference(v, w, eps)
  {
    hide FilledFromFlows, Settles, Prepared, SlotFlows, WithAnchors, WithFlows, StoredFlows, DirectUse, FittedFlows;
    hide Given, Missing, SeveralDirectUses;
    if HasReference(v) {
      var a, r := SlotAnchors(v), SlotFlows(v, eps);
      ReferenceIsAnchor(v);
      AnchoredSlotBalances(v, w, eps);
      AnchoredSelfConsumption(v, r, w);
      AnchoredPreparation(v, r);
      FlowSums(w);
      NothingMissing(w);
    }
  }

  lemma ReferenceIsAnchor(v: Values)
    ensures HasReference(v) <==> Anchored(SlotAnchors(v))
    ensures SlotAnchors(v) == Anchors(Positive(Given(v, VrmSolarYield)), Positive(Given(v, VrmSiteConsumption)),
                                      Positive(Given(v, VrmGridImportRef)), Positive(Given(v, VrmGridExportRef)))
  {
  }

  lemma AnchoredSelfConsumption(v: Values, r: Flows, w: Values)
    requires Anchored(SlotAnchors(v)) && Settles(Prepared(v, r), w)
    ensures SelfConsumption in w && Given(w, SelfConsumption) == DirectUse(w) && StoredFlows(w) == r
  {
    var written := WithAnchors(WithFlows(v, r), r, SlotAnchors(v));
    AnchoredPreparation(v, r);
    SettledWhole(Prepared(v, r), w);
    SelfConsumptionFilled(written, r, 3);
    assert Prepared(v, r) == FilledFromFlows(written, r, 3);
    hide FilledFromFlows, WithAnchors, WithFlows;
    FlowSums(w);
  }

  lemma SettledWhole(p: Values, w: Values)
    requires Settles(p, w) && Missing(p) == {}
    ensures w == p
  {
  }

  lemma NothingMissing(w: Values)
    requires Missing(w) == {}
    ensures forall f :: f in CORE ==> f in w
  {
    forall f | f in CORE ensures f in w { assert f !in Missing(w); }
  }

  /** If all six values come from flows, the slot balances. */
  lemma AllFromFlowsBalance(v: Values, w: Values)
    requires CompletedFromFlows(v, w) && SeveralDirectUses(v) && forall f :: f in CORE ==> f !in v
    requires DirectUse(v) > 0.0
    requires Given(v, GridDirectUse) + Given(v, GridToBattery) > 0.0
    requires Given(v, SolarToGrid) + Given(v, BatteryToGrid) > 0.0
    requires Given(v, SolarToBattery) + Given(v, GridToBattery) > 0.0
    requires Given(v, BatteryDirectUse) + Given(v, BatteryToGrid) > 0.0
    requires Given(v, SolarDirectUse) + Given(v, SolarToBattery) + Given(v, SolarToGrid) > 0.0
    ensures Imbalance(w) == 0.0
  {
    assert forall f :: f in [LoadPower, PvTotal, GridImport, GridExport, BatteryCharge, BatteryDischarge] ==> f in CORE;
    assert LoadPower in CORE && PvTotal in CORE && GridImport in CORE && GridExport in CORE && BatteryCharge in CORE
           && BatteryDischarge in CORE;
  }
}
