/**
  The linear 0/1 model for placing discharge blocks into price slots.

  Every placement is one 0/1 variable. Slots may not be used twice, the energy of the placements
  finished by a time may not exceed the budget at that time, and each stage has a repetition
  limit. The solver is an oracle that answers with a vector satisfying the constraints.
 */
module MilpModel {
  import opened Wrappers
  import opened Reals

  const SLOT_DURATION_HOURS := 0.25

  datatype Slot = Slot(ts: int, ctKwh: real)

  function SlotTs(s: Slot): int { s.ts }

  /** One step of a rule chain: a power held for a number of slots. */
  datatype Entry = Entry(powerW: real, slots: nat)

  function Repeat(powerW: real, slots: nat): (r: seq<real>)
    ensures |r| == slots
  {
    if slots == 0 then [] else [powerW] + Repeat(powerW, slots - 1)
  }

  function ExpandChainSlots(chain: seq<Entry>): seq<real> {
    if chain == [] then [] else Repeat(chain[0].powerW, chain[0].slots) + ExpandChainSlots(chain[1..])
  }

  function EnergyKwh(expanded: seq<real>, slotHours: real): real {
    if expanded == [] then 0.0 else Abs(expanded[0]) / 1000.0 * slotHours + EnergyKwh(expanded[1..], slotHours)
  }

  /** The block of one stage; blocks without slots are not built. */
  datatype Block = Block(chain: seq<Entry>, expanded: seq<real>, energyKwh: real, stageIdx: nat)

  datatype Placement = Placement(block: Block, first: nat, timestamps: seq<int>, slotIndices: seq<nat>, revenueCt: real)

  /** Energy in units of 0.0001 kWh. */
  function Units(kwh: real): int { Rounded(kwh * 10000.0) }

  // ---- Linear constraints ----------------------------------------------------------------

  datatype Term = Term(coef: int, id: nat)
  datatype Constraint = Constraint(terms: seq<Term>, bound: int)
  datatype Lp = Lp(vars: nat, objective: seq<int>, constraints: seq<Constraint>)

  ghost function Value(terms: seq<Term>, x: seq<bool>): int
    requires forall t :: t in terms ==> t.id < |x|
  {
    if terms == [] then 0
    else
      var last := terms[|terms| - 1];
      assert last in terms;
      Value(terms[..|terms| - 1], x) + if x[last.id] then last.coef else 0
  }

  ghost predicate Scoped(terms: seq<Term>, n: nat) {
    forall t :: t in terms ==> t.id < n
  }

  ghost predicate Feasible(lp: Lp, x: seq<bool>) {
    && |x| == lp.vars
    && forall c :: c in lp.constraints ==> Scoped(c.terms, |x|) && Value(c.terms, x) <= c.bound
  }

  /** The groups of placements that constraints speak of. */
  datatype Group = Covering(slot: nat) | FinishedBy(cutoff: Option<int>) | OfStage(stage: nat)

  predicate Finished(p: Placement, cutoff: Option<int>) {
    cutoff.None? || forall ts :: ts in p.timestamps ==> ts <= cutoff.value
  }

  predicate In(g: Group, p: Placement) {
    match g
    case Covering(slot) => slot in p.slotIndices
    case FinishedBy(cutoff) => Finished(p, cutoff)
    case OfStage(stage) => p.block.stageIdx == stage
  }

  function Coef(g: Group, p: Placement): int {
    if g.FinishedBy? then Units(p.block.energyKwh) else 1
  }

  /** The terms of a group, in placement order. */
  function Terms(g: Group, ps: seq<Placement>): (r: seq<Term>)
    ensures Scoped(r, |ps|)
    ensures |r| <= |ps|
  {
    if ps == [] then []
    else
      var n := |ps| - 1;
      Terms(g, ps[..n]) + if In(g, ps[n]) then [Term(Coef(g, ps[n]), n)] else []
  }

  /** The group's weight in a selection: the meaning of the terms' value. */
  ghost function Weight(g: Group, ps: seq<Placement>, x: seq<bool>): int
    requires |x| == |ps|
  {
    if ps == [] then 0
    else
      var n := |ps| - 1;
      Weight(g, ps[..n], x[..n]) + if x[n] && In(g, ps[n]) then Coef(g, ps[n]) else 0
  }

  lemma {:induction false} ValuePrefix(terms: seq<Term>, x: seq<bool>, n: nat)
    requires n <= |x| && Scoped(terms, n)
    ensures Value(terms, x) == Value(terms, x[..n])
  {
    if terms != [] {
      assert terms[|terms| - 1] in terms;
      ValuePrefix(terms[..|terms| - 1], x, n);
    }
  }

  lemma {:induction false} TermsWeigh(g: Group, ps: seq<Placement>, x: seq<bool>)
    requires |x| == |ps|
    ensures Value(Terms(g, ps), x) == Weight(g, ps, x)
  {
    if ps != [] {
      var n := |ps| - 1;
      TermsWeigh(g, ps[..n], x[..n]);
      ValuePrefix(Terms(g, ps[..n]), x, n);
      if In(g, ps[n]) {
        assert Terms(g, ps)[..|Terms(g, ps)| - 1] == Terms(g, ps[..n]);
      } else {
        assert Terms(g, ps) == Terms(g, ps[..n]);
      }
    }
  }

  /** With unit coefficients, a group's weight is at most its number of terms. */
  lemma {:induction false} WeightAtMostCount(g: Group, ps: seq<Placement>, x: seq<bool>)
    requires |x| == |ps| && !g.FinishedBy?
    ensures 0 <= Weight(g, ps, x) <= |Terms(g, ps)|
  {
    if ps != [] {
      WeightAtMostCount(g, ps[..|ps| - 1], x[..|ps| - 1]);
    }
  }

  lemma {:induction false} WeightLow(g: Group, ps: seq<Placement>, x: seq<bool>, i: nat)
    requires |x| == |ps| && !g.FinishedBy? && i < |ps| && x[i] && In(g, ps[i])
    ensures Weight(g, ps, x) >= 1
  {
    var n := |ps| - 1;
    WeightAtMostCount(g, ps[..n], x[..n]);
    if i < n { WeightLow(g, ps[..n], x[..n], i); }
  }

  /** Weight at most one means: no two selected members. */
  lemma {:induction false} AtMostOne(g: Group, ps: seq<Placement>, x: seq<bool>)
    requires |x| == |ps| && !g.FinishedBy?
    ensures Weight(g, ps, x) <= 1
            <==> forall i, j :: 0 <= i < j < |ps| && x[i] && x[j] ==> !(In(g, ps[i]) && In(g, ps[j]))
    ensures Weight(g, ps, x) == 0 <==> forall i :: 0 <= i < |ps| && x[i] ==> !In(g, ps[i])
  {
    if ps != [] {
      var n := |ps| - 1;
      AtMostOne(g, ps[..n], x[..n]);
      WeightAtMostCount(g, ps[..n], x[..n]);
    }
  }
}
