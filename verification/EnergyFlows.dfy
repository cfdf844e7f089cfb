/**
  Reconstruction of one 15-minute slot from imported energy flows.

  Seven flows (three from solar, two from the grid, two from the battery) are re-fitted to
  four meter readings, the anchors. Battery charge and discharge are then read off the
  fitted flows. Without anchors, missing meter values are filled in from the flows, and a
  single value still missing is derived from the other five.
 */
module EnergyFlows {
  import opened Reals
  import opened Allocation
  import opened AllocationShares

  datatype Field =
    | LoadPower | PvTotal | GridImport | GridExport | BatteryCharge | BatteryDischarge
    | SolarDirectUse | SolarToBattery | SolarToGrid
    | GridDirectUse | GridToBattery
    | BatteryDirectUse | BatteryToGrid
    | SelfConsumption
    | VrmSolarYield | VrmSiteConsumption | VrmGridImportRef | VrmGridExportRef

  const CORE: seq<Field> := [LoadPower, PvTotal, GridImport, GridExport, BatteryCharge, BatteryDischarge]

  datatype Demand = Load | Export | Charge

  datatype Anchors = Anchors(pv: real, load: real, gridImport: real, gridExport: real)

  datatype Flows = Flows(
    solarDirect: real, solarToBattery: real, solarToGrid: real,
    gridDirect: real, gridToBattery: real,
    batteryDirect: real, batteryToGrid: real)
  {
    function Solar(): real { solarDirect + solarToBattery + solarToGrid }
    function Grid(): real { gridDirect + gridToBattery }
    function Battery(): real { batteryDirect + batteryToGrid }
    function ToLoad(): real { solarDirect + gridDirect + batteryDirect }
    function ToExport(): real { solarToGrid + batteryToGrid }
    function ToCharge(): real { solarToBattery + gridToBattery }
  }

  ghost predicate NonnegativeAnchors(a: Anchors) {
    a.pv >= 0.0 && a.load >= 0.0 && a.gridImport >= 0.0 && a.gridExport >= 0.0
  }

  /** The battery's part, as the meter readings imply it. */
  function ImpliedCharge(a: Anchors): real { Max(0.0, a.pv + a.gridImport - a.load - a.gridExport) }
  function ImpliedDischarge(a: Anchors): real { Max(0.0, a.load + a.gridExport - a.pv - a.gridImport) }

  function OpenDemands(a: Anchors): map<Demand, real> {
    map[Load := a.load, Export := a.gridExport, Charge := ImpliedCharge(a)]
  }

  function SolarCandidates(f: Flows): seq<Candidate<Field, Demand>> {
    [Candidate(SolarDirectUse, Load, f.solarDirect),
     Candidate(SolarToGrid, Export, f.solarToGrid),
     Candidate(SolarToBattery, Charge, f.solarToBattery)]
  }

  function GridCandidates(f: Flows): seq<Candidate<Field, Demand>> {
    [Candidate(GridDirectUse, Load, f.gridDirect),
     Candidate(GridToBattery, Charge, f.gridToBattery)]
  }

  function BatteryCandidates(f: Flows): seq<Candidate<Field, Demand>> {
    [Candidate(BatteryDirectUse, Load, f.batteryDirect),
     Candidate(BatteryToGrid, Export, f.batteryToGrid)]
  }

  function FlowsOf(solar: map<Field, real>, grid: map<Field, real>, battery: map<Field, real>): Flows {
    Flows(Positive(Given(solar, SolarDirectUse)), Positive(Given(solar, SolarToBattery)),
          Positive(Given(solar, SolarToGrid)),
          Positive(Given(grid, GridDirectUse)), Positive(Given(grid, GridToBattery)),
          Positive(Given(battery, BatteryDirectUse)), Positive(Given(battery, BatteryToGrid)))
  }

  function FittedFlows(f: Flows, a: Anchors, eps: real): Flows {
    var solar := Allocate(a.pv, SolarCandidates(f), OpenDemands(a), eps);
    var grid := Allocate(a.gridImport, GridCandidates(f), solar.demands, eps);
    var battery := Allocate(ImpliedDischarge(a), BatteryCandidates(f), grid.demands, eps);
    FlowsOf(solar.alloc, grid.alloc, battery.alloc)
  }

  method NormalizeFlowValuesToVrmAnchors(f: Flows, a: Anchors, eps: real) returns (r: Flows)
    ensures r == FittedFlows(f, a, eps)
  {
    var batteryDischarge := ImpliedDischarge(a);
    var book := new DemandBook(OpenDemands(a));
    var solar := AllocateSourceTotal(a.pv, SolarCandidates(f), book, eps);
    var grid := AllocateSourceTotal(a.gridImport, GridCandidates(f), book, eps);
    var battery := AllocateSourceTotal(batteryDischarge, BatteryCandidates(f), book, eps);
    r := FlowsOf(solar, grid, battery);
  }

  // ---- The fit -----------------------------------------------------------------------

  ghost predicate Near(x: real, y: real, tolerance: real) {
    -tolerance <= x - y <= tolerance
  }

  /** The allocator's law, spelled out for two and three candidates. */
  lemma AllocatorLaw3<F, K>(total: real, x: Candidate<F, K>, y: Candidate<F, K>, z: Candidate<F, K>,
                            demands: map<K, real>, eps: real)
    requires eps >= 0.0 && Distinct([x, y, z])
    ensures var t := Allocate(total, [x, y, z], demands, eps);
            && t.remaining >= 0.0
            && Given(t.alloc, x.field) >= 0.0 && Given(t.alloc, y.field) >= 0.0 && Given(t.alloc, z.field) >= 0.0
            && Given(t.alloc, x.field) + Given(t.alloc, y.field) + Given(t.alloc, z.field) + t.remaining
              == Positive(total)
            && Given(t.alloc, x.field) + Wanted(t.demands, x.demand) == Wanted(demands, x.demand)
            && Given(t.alloc, y.field) + Wanted(t.demands, y.demand) == Wanted(demands, y.demand)
            && Given(t.alloc, z.field) + Wanted(t.demands, z.demand) == Wanted(demands, z.demand)
            && (t.remaining <= eps
                || (Wanted(t.demands, x.demand) <= eps && Wanted(t.demands, y.demand) <= eps
                    && Wanted(t.demands, z.demand) <= eps))
  {
    var cs := [x, y, z];
    AllocatorLaw(total, cs, demands, eps);
    assert x in cs && y in cs && z in cs;
    assert cs[1..] == [y, z] && [y, z][1..] == [z] && [z][1..] == [];
    var alloc := Allocate(total, cs, demands, eps).alloc;
    assert SumGiven([z], alloc) == Given(alloc, z.field);
    assert SumGiven([y, z], alloc) == Given(alloc, y.field) + SumGiven([z], alloc);
  }

  lemma AllocatorLaw2<F, K>(total: real, x: Candidate<F, K>, y: Candidate<F, K>, demands: map<K, real>, eps: real)
    requires eps >= 0.0 && Distinct([x, y])
    ensures var t := Allocate(total, [x, y], demands, eps);
            && t.remaining >= 0.0
            && Given(t.alloc, x.field) >= 0.0 && Given(t.alloc, y.field) >= 0.0
            && Given(t.alloc, x.field) + Given(t.alloc, y.field) + t.remaining == Positive(total)
            && Given(t.alloc, x.field) + Wanted(t.demands, x.demand) == Wanted(demands, x.demand)
            && Given(t.alloc, y.field) + Wanted(t.demands, y.demand) == Wanted(demands, y.demand)
            && (t.remaining <= eps || (Wanted(t.demands, x.demand) <= eps && Wanted(t.demands, y.demand) <= eps))
  {
    var cs := [x, y];
    AllocatorLaw(total, cs, demands, eps);
    assert x in cs && y in cs;
    assert cs[1..] == [y] && [y][1..] == [];
    var alloc := Allocate(total, cs, demands, eps).alloc;
    assert SumGiven([y], alloc) == Given(alloc, y.field);
  }

  // What the allocator's law says of each of the three stages, in numbers: what goes to load
  // (l), export (e) and charge (c), what the source keeps (x), and the demands before (pl, pe,
  // pc) and after (dl, de, dc). A stage ends when x, or all it could serve, is within a cutoff.

  ghost predicate SolarNumbers(a: Anchors, eps: real, l: real, e: real, c: real, x: real, dl: real, de: real,
                               dc: real) {
    && l >= 0.0 && e >= 0.0 && c >= 0.0 && x >= 0.0 && dl >= 0.0 && de >= 0.0 && dc >= 0.0
    && l + e + c + x == a.pv
    && l + dl == a.load && e + de == a.gridExport && c + dc == ImpliedCharge(a)
    && (x <= eps || (dl <= eps && de <= eps && dc <= eps))
  }

  /** A source with two candidates: the grid (load, charge) and the battery (load, export). */
  ghost predicate PairNumbers(total: real, eps: real, l: real, o: real, x: real, pl: real, po: real, dl: real,
                              do: real) {
    && l >= 0.0 && o >= 0.0 && x >= 0.0 && dl >= 0.0 && do >= 0.0
    && l + o + x == total
    && l + dl == pl && o + do == po
    && (x <= eps || (dl <= eps && do <= eps))
  }

  ghost predicate SolarStage(t: State<Field, Demand>, a: Anchors, eps: real) {
    SolarNumbers(a, eps, Given(t.alloc, SolarDirectUse), Given(t.alloc, SolarToGrid), Given(t.alloc, SolarToBattery),
                 t.remaining,
                 Wanted(t.demands, Load), Wanted(t.demands, Export), Wanted(t.demands, Charge))
  }

  ghost predicate GridStage(t: State<Field, Demand>, total: real, d: map<Demand, real>, eps: real) {
    && PairNumbers(total, eps, Given(t.alloc, GridDirectUse), Given(t.alloc, GridToBattery), t.remaining,
                   Wanted(d, Load), Wanted(d, Charge), Wanted(t.demands, Load), Wanted(t.demands, Charge))
    && Wanted(t.demands, Export) == Wanted(d, Export)
  }

  ghost predicate BatteryStage(t: State<Field, Demand>, total: real, d: map<Demand, real>, eps: real) {
    PairNumbers(total, eps, Given(t.alloc, BatteryDirectUse), Given(t.alloc, BatteryToGrid), t.remaining,
                Wanted(d, Load), Wanted(d, Export), Wanted(t.demands, Load), Wanted(t.demands, Export))
  }

  lemma SolarStageHolds(f: Flows, a: Anchors, eps: real)
    requires NonnegativeAnchors(a) && eps >= 0.0
    ensures SolarStage(Allocate(a.pv, SolarCandidates(f), OpenDemands(a), eps), a, eps)
  {
    var cs := SolarCandidates(f);
    AllocatorLaw3(a.pv, cs[0], cs[1], cs[2], OpenDemands(a), eps);
  }

  lemma GridStageHolds(f: Flows, total: real, d: map<Demand, real>, eps: real)
    requires total >= 0.0 && eps >= 0.0
    ensures GridStage(Allocate(total, GridCandidates(f), d, eps), total, d, eps)
  {
    var cs := GridCandidates(f);
    AllocatorLaw2(total, cs[0], cs[1], d, eps);
    RoundsFrame(MAX_ROUNDS, cs, eps, State(Positive(total), Fields(cs), d), Export);
  }

  lemma BatteryStageHolds(f: Flows, total: real, d: map<Demand, real>, eps: real)
    requires total >= 0.0 && eps >= 0.0
    ensures BatteryStage(Allocate(total, BatteryCandidates(f), d, eps), total, d, eps)
  {
    var cs := BatteryCandidates(f);
    AllocatorLaw2(total, cs[0], cs[1], d, eps);
  }

  /** How well a set of flows fits the anchors. */
  ghost predicate Fits(r: Flows, a: Anchors, eps: real) {
    && r.solarDirect >= 0.0 && r.solarToBattery >= 0.0 && r.solarToGrid >= 0.0
    && r.gridDirect >= 0.0 && r.gridToBattery >= 0.0
    && r.batteryDirect >= 0.0 && r.batteryToGrid >= 0.0
    && a.pv - 3.0 * eps <= r.Solar() <= a.pv
    && ImpliedDischarge(a) - 3.0 * eps <= r.Battery() <= ImpliedDischarge(a)
    && a.load - 5.0 * eps <= r.ToLoad() <= a.load
    && ImpliedCharge(a) - 4.0 * eps <= r.ToCharge() <= ImpliedCharge(a)
    && r.Grid() <= a.gridImport
    && r.ToExport() <= a.gridExport
    && Near(a.gridImport - r.Grid(), a.gridExport - r.ToExport(), 6.0 * eps)
  }

  /** The linear core of the fit. */
  lemma NumbersFit(a: Anchors, eps: real, r: Flows, sx: real, gx: real, bx: real,
                   sl: real, se: real, sc: real, gl: real, gc: real, bl: real, be: real)
    requires NonnegativeAnchors(a) && eps >= 0.0
    requires SolarNumbers(a, eps, r.solarDirect, r.solarToGrid, r.solarToBattery, sx, sl, se, sc)
    requires PairNumbers(a.gridImport, eps, r.gridDirect, r.gridToBattery, gx, sl, sc, gl, gc)
    requires PairNumbers(ImpliedDischarge(a), eps, r.batteryDirect, r.batteryToGrid, bx, gl, se, bl, be)
    ensures Fits(r, a, eps)
  {
    assert bl + be + gc == gx + sx + bx;
    assert ImpliedCharge(a) == 0.0 || ImpliedDischarge(a) == 0.0;
    assert sx <= 3.0 * eps;
    assert gx <= eps || bl <= eps;
    assert bx <= 3.0 * eps;
    assert bl <= 5.0 * eps && gc <= 4.0 * eps;
    assert Near(gx, be, 6.0 * eps);
  }

  lemma FlowsUnclamped(solar: map<Field, real>, grid: map<Field, real>, battery: map<Field, real>)
    requires Given(solar, SolarDirectUse) >= 0.0 && Given(solar, SolarToBattery) >= 0.0
             && Given(solar, SolarToGrid) >= 0.0
    requires Given(grid, GridDirectUse) >= 0.0 && Given(grid, GridToBattery) >= 0.0
    requires Given(battery, BatteryDirectUse) >= 0.0 && Given(battery, BatteryToGrid) >= 0.0
    ensures FlowsOf(solar, grid, battery)
            == Flows(Given(solar, SolarDirectUse), Given(solar, SolarToBattery), Given(solar, SolarToGrid),
                     Given(grid, GridDirectUse), Given(grid, GridToBattery),
                     Given(battery, BatteryDirectUse), Given(battery, BatteryToGrid))
  {
  }

  lemma StagesFit(solar: State<Field, Demand>, grid: State<Field, Demand>, battery: State<Field, Demand>, a: Anchors,
                  eps: real)
    requires NonnegativeAnchors(a) && eps >= 0.0
    requires SolarStage(solar, a, eps)
    requires GridStage(grid, a.gridImport, solar.demands, eps)
    requires BatteryStage(battery, ImpliedDischarge(a), grid.demands, eps)
    ensures Fits(FlowsOf(solar.alloc, grid.alloc, battery.alloc), a, eps)
  {
    FlowsUnclamped(solar.alloc, grid.alloc, battery.alloc);
    NumbersFit(a, eps, FlowsOf(solar.alloc, grid.alloc, battery.alloc),
               solar.remaining, grid.remaining, battery.remaining,
               Wanted(solar.demands, Load), Wanted(solar.demands, Export), Wanted(solar.demands, Charge),
               Wanted(grid.demands, Load), Wanted(grid.demands, Charge),
               Wanted(battery.demands, Load), Wanted(battery.demands, Export));
  }

  /**
    The fitted flows place solar and battery output and serve load and charging, each up to
    a few cutoffs; whatever import stays unplaced is matched by export left unserved.
   */
  lemma FittedFlowsFit(f: Flows, a: Anchors, eps: real)
    requires NonnegativeAnchors(a) && eps >= 0.0
    ensures Fits(FittedFlows(f, a, eps), a, eps)
  {
    var solar := Allocate(a.pv, SolarCandidates(f), OpenDemands(a), eps);
    var grid := Allocate(a.gridImport, GridCandidates(f), solar.demands, eps);
    SolarStageHolds(f, a, eps);
    GridStageHolds(f, a.gridImport, solar.demands, eps);
    BatteryStageHolds(f, ImpliedDischarge(a), grid.demands, eps);
    StagesFit(solar, grid, Allocate(ImpliedDischarge(a), BatteryCandidates(f), grid.demands, eps), a, eps);
  }

  /**
    With an exact cutoff: solar and battery output are placed in full, load and charging are
    served in full, unplaced import equals unserved export, energy balances, and the battery
    never charges and discharges in one slot.
   */
  lemma ExactFit(f: Flows, a: Anchors)
    requires NonnegativeAnchors(a)
    ensures var r := FittedFlows(f, a, 0.0);
            && r.Solar() == a.pv && r.Battery() == ImpliedDischarge(a)
            && r.ToLoad() == a.load && r.ToCharge() == ImpliedCharge(a)
            && a.gridImport - r.Grid() == a.gridExport - r.ToExport() >= 0.0
            && a.load + a.gridExport + r.ToCharge() == a.pv + a.gridImport + r.Battery()
            && (r.ToCharge() == 0.0 || r.Battery() == 0.0)
  {
    FittedFlowsFit(f, a, 0.0);
  }

  // ---- Flows that fit already --------------------------------------------------------------

  ghost predicate NonnegativeFlows(f: Flows) {
    && f.solarDirect >= 0.0 && f.solarToBattery >= 0.0 && f.solarToGrid >= 0.0
    && f.gridDirect >= 0.0 && f.gridToBattery >= 0.0 && f.batteryDirect >= 0.0 && f.batteryToGrid >= 0.0
  }

  /** The flows add up to the anchors, at both ends. */
  ghost predicate AddUp(f: Flows, a: Anchors) {
    && f.Solar() == a.pv && f.Grid() == a.gridImport && f.Battery() == ImpliedDischarge(a)
    && f.ToLoad() == a.load && f.ToExport() == a.gridExport && f.ToCharge() == ImpliedCharge(a)
  }

  /** A source in use flows into each demand it finds open; a flow of zero would be weighted by that demand. */
  ghost predicate UsesOpenDemands(f: Flows, a: Anchors) {
    && (a.pv > 0.0 ==>
          && (f.solarDirect == 0.0 ==> a.load == 0.0) && (f.solarToGrid == 0.0 ==> a.gridExport == 0.0)
          && (f.solarToBattery == 0.0 ==> ImpliedCharge(a) == 0.0))
    && (a.gridImport > 0.0 && f.gridDirect == 0.0 ==> f.batteryDirect == 0.0)
  }

  lemma ThreeGiven<F, K>(total: real, x: Candidate<F, K>, y: Candidate<F, K>, z: Candidate<F, K>, demands: map<K, real>)
    requires Distinct([x, y, z]) && total == x.weight + y.weight + z.weight
    requires 0.0 <= x.weight <= Wanted(demands, x.demand) && 0.0 <= y.weight <= Wanted(demands, y.demand)
    requires 0.0 <= z.weight <= Wanted(demands, z.demand)
    requires total > 0.0 ==>
               && (x.weight == 0.0 ==> Wanted(demands, x.demand) == 0.0)
               && (y.weight == 0.0 ==> Wanted(demands, y.demand) == 0.0)
               && (z.weight == 0.0 ==> Wanted(demands, z.demand) == 0.0)
    ensures var t := Allocate(total, [x, y, z], demands, 0.0);
            && Given(t.alloc, x.field) == x.weight && Given(t.alloc, y.field) == y.weight
            && Given(t.alloc, z.field) == z.weight
            && Wanted(t.demands, x.demand) == Wanted(demands, x.demand) - x.weight
            && Wanted(t.demands, y.demand) == Wanted(demands, y.demand) - y.weight
            && Wanted(t.demands, z.demand) == Wanted(demands, z.demand) - z.weight
  {
    var cs := [x, y, z];
    assert cs[1..] == [y, z] && [y, z][1..] == [z] && [z][1..] == [];
    assert TotalWeight([z]) == z.weight;
    assert x in cs && y in cs && z in cs;
    hide Allocate, Given, Wanted;
    FittingWeightsAreGiven(total, cs, demands);
  }

  lemma TwoGiven<F, K>(total: real, x: Candidate<F, K>, y: Candidate<F, K>, demands: map<K, real>)
    requires Distinct([x, y]) && total == x.weight + y.weight
    requires 0.0 <= x.weight <= Wanted(demands, x.demand) && 0.0 <= y.weight <= Wanted(demands, y.demand)
    requires total > 0.0 ==>
               && (x.weight == 0.0 ==> Wanted(demands, x.demand) == 0.0)
               && (y.weight == 0.0 ==> Wanted(demands, y.demand) == 0.0)
    ensures var t := Allocate(total, [x, y], demands, 0.0);
            && Given(t.alloc, x.field) == x.weight && Given(t.alloc, y.field) == y.weight
            && Wanted(t.demands, x.demand) == Wanted(demands, x.demand) - x.weight
            && Wanted(t.demands, y.demand) == Wanted(demands, y.demand) - y.weight
  {
    var cs := [x, y];
    assert cs[1..] == [y] && [y][1..] == [];
    assert TotalWeight([y]) == y.weight;
    assert x in cs && y in cs;
    hide Allocate, Given, Wanted;
    FittingWeightsAreGiven(total, cs, demands);
  }

  ghost predicate SolarKept(solar: State<Field, Demand>, f: Flows, a: Anchors) {
    && Given(solar.alloc, SolarDirectUse) == f.solarDirect && Given(solar.alloc, SolarToGrid) == f.solarToGrid
    && Given(solar.alloc, SolarToBattery) == f.solarToBattery
    && Wanted(solar.demands, Load) == a.load - f.solarDirect
    && Wanted(solar.demands, Export) == a.gridExport - f.solarToGrid
    && Wanted(solar.demands, Charge) == ImpliedCharge(a) - f.solarToBattery
  }

  lemma SolarFlowsAreKept(f: Flows, a: Anchors)
    requires NonnegativeAnchors(a) && NonnegativeFlows(f) && AddUp(f, a) && UsesOpenDemands(f, a)
    ensures SolarKept(Allocate(a.pv, SolarCandidates(f), OpenDemands(a), 0.0), f, a)
  {
    var d := OpenDemands(a);
    hide Allocate, Given;
    assert Wanted(d, Load) == a.load && Wanted(d, Export) == a.gridExport && Wanted(d, Charge) == ImpliedCharge(a);
    hide Wanted;
    var cs := SolarCandidates(f);
    ThreeGiven(a.pv, cs[0], cs[1], cs[2], d);
  }

  ghost predicate GridKept(grid: State<Field, Demand>, f: Flows, a: Anchors) {
    && Given(grid.alloc, GridDirectUse) == f.gridDirect && Given(grid.alloc, GridToBattery) == f.gridToBattery
    && Wanted(grid.demands, Load) == a.load - f.solarDirect - f.gridDirect
    && Wanted(grid.demands, Export) == a.gridExport - f.solarToGrid
  }

  lemma GridFlowsAreKept(f: Flows, a: Anchors, solar: State<Field, Demand>)
    requires NonnegativeAnchors(a) && NonnegativeFlows(f) && AddUp(f, a) && UsesOpenDemands(f, a)
    requires SolarKept(solar, f, a)
    ensures GridKept(Allocate(a.gridImport, GridCandidates(f), solar.demands, 0.0), f, a)
  {
    hide Allocate, Given, Wanted;
    var gs := GridCandidates(f);
    TwoGiven(a.gridImport, gs[0], gs[1], solar.demands);
    ExportUntouched(f, a.gridImport, solar.demands);
  }

  lemma BatteryFlowsAreKept(f: Flows, a: Anchors, grid: State<Field, Demand>)
    requires NonnegativeAnchors(a) && NonnegativeFlows(f) && AddUp(f, a) && GridKept(grid, f, a)
    ensures var battery := Allocate(ImpliedDischarge(a), BatteryCandidates(f), grid.demands, 0.0);
            && Given(battery.alloc, BatteryDirectUse) == f.batteryDirect
            && Given(battery.alloc, BatteryToGrid) == f.batteryToGrid
  {
    hide Allocate, Given, Wanted;
    var bs := BatteryCandidates(f);
    TwoGiven(ImpliedDischarge(a), bs[0], bs[1], grid.demands);
  }

  /** Imported flows that add up to the meter readings already are kept as they are, one by one. */
  lemma FittingFlowsAreKept(f: Flows, a: Anchors)
    requires NonnegativeAnchors(a) && NonnegativeFlows(f) && AddUp(f, a) && UsesOpenDemands(f, a)
    ensures FittedFlows(f, a, 0.0) == f
  {
    hide Allocate, Given, Wanted, AddUp, UsesOpenDemands, OpenDemands;
    hide SolarCandidates, GridCandidates, BatteryCandidates, ImpliedDischarge, ImpliedCharge;
    var solar := Allocate(a.pv, SolarCandidates(f), OpenDemands(a), 0.0);
    var grid := Allocate(a.gridImport, GridCandidates(f), solar.demands, 0.0);
    SolarFlowsAreKept(f, a);
    GridFlowsAreKept(f, a, solar);
    BatteryFlowsAreKept(f, a, grid);
  }

  lemma ExportUntouched(f: Flows, total: real, d: map<Demand, real>)
    ensures Wanted(Allocate(total, GridCandidates(f), d, 0.0).demands, Export) == Wanted(d, Export)
  {
    RoundsFrame(MAX_ROUNDS, GridCandidates(f), 0.0, State(Positive(total), Fields(GridCandidates(f)), d), Export);
  }
}
