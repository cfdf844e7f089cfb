/** Selections of placements as 0/1 vectors: parts of a selection, and single placements. */
module MilpSelections {
  import opened MilpModel

  /** Energies are sums of absolute powers, so no placement has negative units. */
  ghost predicate NonnegativeUnits(ps: seq<Placement>) {
    forall p :: p in ps ==> Units(p.block.energyKwh) >= 0
  }

  /** Everything `x` selects, `y` selects. */
  ghost predicate PartOf(x: seq<bool>, y: seq<bool>) {
    |x| == |y| && forall i :: 0 <= i < |x| && x[i] ==> y[i]
  }

  lemma {:induction false} PartWeighsLess(g: Group, ps: seq<Placement>, x: seq<bool>, y: seq<bool>)
    requires |x| == |ps| && PartOf(x, y) && NonnegativeUnits(ps)
    ensures 0 <= Weight(g, ps, x) <= Weight(g, ps, y)
  {
    if ps != [] {
      var n := |ps| - 1;
      assert ps[n] in ps && forall p :: p in ps[..n] ==> p in ps;
      PartWeighsLess(g, ps[..n], x[..n], y[..n]);
    }
  }

  /** The selection of placement `i` alone; of nothing, if there is no such placement. */
  function Only(n: nat, i: nat): (x: seq<bool>)
    ensures |x| == n && forall j :: 0 <= j < n ==> (x[j] <==> j == i)
  {
    seq(n, j => j == i)
  }

  lemma {:induction false} WeightOfOnly(g: Group, ps: seq<Placement>, i: nat)
    ensures Weight(g, ps, Only(|ps|, i)) == if i < |ps| && In(g, ps[i]) then Coef(g, ps[i]) else 0
  {
    if ps != [] {
      var n := |ps| - 1;
      assert Only(|ps|, i)[..n] == Only(n, i);
      WeightOfOnly(g, ps[..n], i);
    }
  }
}
