/**
  In what proportion the allocator shares a total: weighted candidates by their weights, candidates
  without a weight by what their demands still want, each capped by its demand.
 */
module AllocationShares {
  import opened Reals
  import opened Allocation

  // ---- In proportion ---------------------------------------------------------------------

  /** What a weight gets at an amount per unit of weight. */
  function Portion(weight: real, level: real): real { weight * level }

  lemma PortionFacts(w: real, x: real, y: real)
    ensures Portion(w, x + y) == Portion(w, x) + Portion(w, y) && Portion(w, 0.0) == 0.0
    ensures w >= 0.0 && x >= 0.0 ==> Portion(w, x) >= 0.0
  {
  }

  lemma ShareIsPortion(w: real, r: real, tw: real, n: nat)
    requires tw > 0.0 && n > 0
    ensures Share(w, r, tw, n) == Portion(w, r / tw)
  {
    var p := r / tw;
    assert p * tw == r;
    assert (w / tw) * tw == w;
    assert r * (w / tw) == p * ((w / tw) * tw);
  }

  /** What a round gives per unit of weight, before demands cap it. */
  ghost function Rate<F, K>(cs: seq<Candidate<F, K>>, eps: real, s: State<F, K>): real {
    var tw := TotalWeight(WeighAll(Active(cs, s.demands, eps), s.demands));
    if tw > 0.0 then s.remaining / tw else 0.0
  }

  /** What all rounds give per unit of weight, to a candidate whose demand never runs out. */
  ghost function Level<F, K>(n: nat, cs: seq<Candidate<F, K>>, eps: real, s: State<F, K>): real {
    if n == 0 || Done(cs, eps, s) then 0.0 else Rate(cs, eps, s) + Level(n - 1, cs, eps, Round(cs, eps, s))
  }

  lemma RoundWeightPositive<F, K>(cs: seq<Candidate<F, K>>, eps: real, s: State<F, K>)
    requires eps >= 0.0 && Active(cs, s.demands, eps) != []
    ensures TotalWeight(WeighAll(Active(cs, s.demands, eps), s.demands)) > 0.0
  {
    var active := Active(cs, s.demands, eps);
    var ws := WeighAll(active, s.demands);
    forall w | w in ws ensures w.weight > 0.0 {
      var i :| 0 <= i < |ws| && w == ws[i];
      assert active[i] in active;
    }
    WeightsPositive(ws);
  }

  /** The quota of an active candidate with a weight is its portion at the round's rate. */
  lemma QuotaIsPortion<F, K>(cs: seq<Candidate<F, K>>, eps: real, s: State<F, K>, j: nat)
    requires eps >= 0.0 && j < |Active(cs, s.demands, eps)| && Active(cs, s.demands, eps)[j].weight > 0.0
    ensures j < |RoundQuotas(cs, eps, s)|
    ensures RoundQuotas(cs, eps, s)[j].weight == Portion(Active(cs, s.demands, eps)[j].weight, Rate(cs, eps, s))
  {
    var active := Active(cs, s.demands, eps);
    var ws := WeighAll(active, s.demands);
    RoundWeightPositive(cs, eps, s);
    ShareIsPortion(active[j].weight, s.remaining, TotalWeight(ws), |ws|);
    assert ws[j] == Weigh(active[j], s.demands);
    hide Active, WeighAll, TotalWeight, Quotas, Share, Portion;
  }

  lemma RateNonnegative<F, K>(cs: seq<Candidate<F, K>>, eps: real, s: State<F, K>)
    requires s.remaining >= 0.0
    ensures Rate(cs, eps, s) >= 0.0
  {
    hide TotalWeight, WeighAll, Active;
  }

  /** A candidate with a weight gains at most its portion, and just that if its demand stays open. */
  ghost predicate GainsPortion<F, K>(c: Candidate<F, K>, eps: real, s: State<F, K>, t: State<F, K>, level: real) {
    && Given(t.alloc, c.field) - Given(s.alloc, c.field) <= Portion(c.weight, level)
    && (Wanted(t.demands, c.demand) > eps
        ==> Given(t.alloc, c.field) - Given(s.alloc, c.field) == Portion(c.weight, level))
  }

  lemma RoundGain<F, K>(cs: seq<Candidate<F, K>>, eps: real, s: State<F, K>, c: Candidate<F, K>)
    requires eps >= 0.0 && Distinct(cs) && !Done(cs, eps, s) && c in cs && c.weight > 0.0
    ensures GainsPortion(c, eps, s, Round(cs, eps, s), Rate(cs, eps, s))
  {
    var p := Distribute(RoundQuotas(cs, eps, s), Pass(s.alloc, s.demands, 0.0));
    RoundEffect(cs, eps, s);
    assert Round(cs, eps, s).alloc == p.alloc && Round(cs, eps, s).demands == p.demands;
    hide Round, RoundQuotas, Distribute, Active, Rate, Distinct, Portion;
    PassGain(cs, eps, s, c);
  }

  lemma PassGain<F, K>(cs: seq<Candidate<F, K>>, eps: real, s: State<F, K>, c: Candidate<F, K>)
    requires eps >= 0.0 && Distinct(cs) && !Done(cs, eps, s) && c in cs && c.weight > 0.0
    ensures var p := Distribute(RoundQuotas(cs, eps, s), Pass(s.alloc, s.demands, 0.0));
            GainsPortion(c, eps, s, State(0.0, p.alloc, p.demands), Rate(cs, eps, s))
  {
    var active, qs := Active(cs, s.demands, eps), RoundQuotas(cs, eps, s);
    var p0 := Pass(s.alloc, s.demands, 0.0);
    QuotaFacts(cs, eps, s);
    ActiveFacts(cs, s.demands, eps);
    RateNonnegative(cs, eps, s);
    PortionFacts(c.weight, Rate(cs, eps, s), 0.0);
    if Wanted(s.demands, c.demand) > eps {
      var j :| 0 <= j < |active| && active[j] == c;
      assert qs[j] in qs;
      MatchesDistinct(active, qs);
      QuotaIsPortion(cs, eps, s, j);
      hide RoundQuotas, Distribute, Active, Rate, Portion, Distinct, TotalWeight, Matches;
      QuotaGains(qs, p0, eps, s, c, j, Rate(cs, eps, s));
    } else {
      hide RoundQuotas, Distribute, Active, Rate, Given, Portion, Distinct, TotalWeight;
      PassAt(cs, qs, eps, p0, c);
    }
  }

  lemma QuotaGains<F, K>(qs: seq<Candidate<F, K>>, p0: Pass<F, K>, eps: real, s: State<F, K>, c: Candidate<F, K>,
                         j: nat, rate: real)
    requires Distinct(qs) && j < |qs| && qs[j].field == c.field && qs[j].demand == c.demand && qs[j].weight >= 0.0
             && eps >= 0.0
    requires p0.alloc == s.alloc && p0.demands == s.demands && qs[j].weight == Portion(c.weight, rate)
    ensures GainsPortion(c, eps, s, State(0.0, Distribute(qs, p0).alloc, Distribute(qs, p0).demands), rate)
  {
    DistributeAt(qs, p0, j);
    hide Distribute, Portion, Given, Distinct;
  }

  lemma MatchesDistinct<F, K>(active: seq<Candidate<F, K>>, qs: seq<Candidate<F, K>>)
    requires Matches(active, qs) && Distinct(active)
    ensures Distinct(qs)
  {
  }

  lemma {:induction false} RoundsGain<F, K>(n: nat, cs: seq<Candidate<F, K>>, eps: real, s: State<F, K>,
                                            c: Candidate<F, K>)
    requires eps >= 0.0 && Distinct(cs) && s.remaining >= 0.0 && c in cs && c.weight > 0.0
    ensures GainsPortion(c, eps, s, Rounds(n, cs, eps, s), Level(n, cs, eps, s))
    decreases n
  {
    hide Round, Active, Rate, Distinct, Given, Wanted, Portion, GainsPortion, Transfers, SumGiven;
    if n > 0 && !Done(cs, eps, s) {
      var r := Round(cs, eps, s);
      RoundEffect(cs, eps, s);
      RoundGain(cs, eps, s, c);
      RoundsGain(n - 1, cs, eps, r, c);
      RoundsEffect(n - 1, cs, eps, r);
      GainsAdd(cs, c, eps, s, r, Rounds(n - 1, cs, eps, r), Rate(cs, eps, s), Level(n - 1, cs, eps, r));
    } else {
      NoGain(c, eps, s);
    }
  }

  lemma GainsAdd<F, K>(cs: seq<Candidate<F, K>>, c: Candidate<F, K>, eps: real, s: State<F, K>, r: State<F, K>,
                       t: State<F, K>, x: real, y: real)
    requires Transfers(cs, r.alloc, r.demands, t.alloc, t.demands) && c in cs
    requires GainsPortion(c, eps, s, r, x) && GainsPortion(c, eps, r, t, y)
    ensures GainsPortion(c, eps, s, t, x + y)
  {
    PortionFacts(c.weight, x, y);
    hide Given, Portion;
  }

  lemma NoGain<F, K>(c: Candidate<F, K>, eps: real, s: State<F, K>)
    ensures GainsPortion(c, eps, s, s, 0.0)
  {
    PortionFacts(c.weight, 0.0, 0.0);
    hide Portion;
  }

  /**
    The allocation is proportional: there is one level per unit of weight that no weighted
    candidate gets more than, and that each gets in full whose demand is not used up.
   */
  lemma AllocationIsProportional<F, K>(total: real, cs: seq<Candidate<F, K>>, demands: map<K, real>, eps: real)
    returns (level: real)
    requires eps >= 0.0 && Distinct(cs)
    ensures var t := Allocate(total, cs, demands, eps);
            forall c :: c in cs && c.weight > 0.0 ==>
              && Given(t.alloc, c.field) <= Portion(c.weight, level)
              && (Wanted(t.demands, c.demand) > eps ==> Given(t.alloc, c.field) == Portion(c.weight, level))
  {
    var s := State(Positive(total), Fields(cs), demands);
    level := Level(MAX_ROUNDS, cs, eps, s);
    NothingGivenYet(cs, cs);
    hide Level, Rounds, Distinct, Wanted, Given, Fields, SumGiven, Portion;
    forall c | c in cs && c.weight > 0.0 ensures GainsPortion(c, eps, s, Rounds(MAX_ROUNDS, cs, eps, s), level) {
      RoundsGain(MAX_ROUNDS, cs, eps, s, c);
    }
  }

  /** Without a cutoff each weighted candidate gets the lesser of its demand and its portion at the level. */
  lemma ExactlyTheLesser<F, K>(total: real, cs: seq<Candidate<F, K>>, demands: map<K, real>) returns (level: real)
    requires Distinct(cs)
    ensures forall c :: c in cs && c.weight > 0.0 ==>
              Given(Allocate(total, cs, demands, 0.0).alloc, c.field)
                == Min(Wanted(demands, c.demand), Portion(c.weight, level))
  {
    level := AllocationIsProportional(total, cs, demands, 0.0);
    AllocationTransfers(total, cs, demands, 0.0);
    hide Allocate, Given, Distinct, Portion;
  }

  lemma AllocationTransfers<F, K>(total: real, cs: seq<Candidate<F, K>>, demands: map<K, real>, eps: real)
    requires eps >= 0.0 && Distinct(cs)
    ensures var t := Allocate(total, cs, demands, eps);
            forall c :: c in cs ==> Given(t.alloc, c.field) + Wanted(t.demands, c.demand) == Wanted(demands, c.demand)
  {
    NothingGivenYet(cs, cs);
    RoundsEffect(MAX_ROUNDS, cs, eps, State(Positive(total), Fields(cs), demands));
    hide Rounds, Distinct, Given, SumGiven;
  }

  /** Two weighted candidates whose demands are not used up get amounts in the ratio of their weights. */
  lemma OpenDemandsShareByWeight<F, K>(total: real, cs: seq<Candidate<F, K>>, demands: map<K, real>, eps: real,
                                       x: Candidate<F, K>, y: Candidate<F, K>)
    requires eps >= 0.0 && Distinct(cs) && x in cs && y in cs && x.weight > 0.0 && y.weight > 0.0
    requires Wanted(Allocate(total, cs, demands, eps).demands, x.demand) > eps
    requires Wanted(Allocate(total, cs, demands, eps).demands, y.demand) > eps
    ensures var t := Allocate(total, cs, demands, eps);
            Given(t.alloc, x.field) * y.weight == Given(t.alloc, y.field) * x.weight
  {
    hide Allocate, Given, Wanted, Distinct;
    var level := AllocationIsProportional(total, cs, demands, eps);
    PortionsInRatio(x.weight, y.weight, level);
  }

  lemma PortionsInRatio(w: real, v: real, level: real)
    ensures Portion(w, level) * v == Portion(v, level) * w
  {
    assert (w * level) * v == (v * level) * w;
  }

  // ---- Candidates without a weight -------------------------------------------------------

  /** Without a weight of its own, an active candidate's quota is its open demand's portion at the round's rate. */
  lemma QuotaOfOpenDemand<F, K>(cs: seq<Candidate<F, K>>, eps: real, s: State<F, K>, j: nat)
    requires eps >= 0.0 && j < |Active(cs, s.demands, eps)| && Active(cs, s.demands, eps)[j].weight <= 0.0
    ensures j < |RoundQuotas(cs, eps, s)|
    ensures RoundQuotas(cs, eps, s)[j].weight
            == Portion(Wanted(s.demands, Active(cs, s.demands, eps)[j].demand), Rate(cs, eps, s))
  {
    var active := Active(cs, s.demands, eps);
    var ws := WeighAll(active, s.demands);
    RoundWeightPositive(cs, eps, s);
    ShareIsPortion(Wanted(s.demands, active[j].demand), s.remaining, TotalWeight(ws), |ws|);
    assert ws[j] == Weigh(active[j], s.demands);
    hide Active, WeighAll, TotalWeight, Quotas, Share, Portion, Wanted;
  }

  /** In a round, an unweighted candidate's quota stands to a weighted one's as its open demand to that weight. */
  lemma OpenDemandStandsForWeight<F, K>(cs: seq<Candidate<F, K>>, eps: real, s: State<F, K>, j: nat, k: nat)
    requires eps >= 0.0 && j < |Active(cs, s.demands, eps)| && k < |Active(cs, s.demands, eps)|
    requires Active(cs, s.demands, eps)[j].weight <= 0.0 < Active(cs, s.demands, eps)[k].weight
    ensures j < |RoundQuotas(cs, eps, s)| && k < |RoundQuotas(cs, eps, s)|
    ensures var active, qs := Active(cs, s.demands, eps), RoundQuotas(cs, eps, s);
            qs[j].weight * active[k].weight == qs[k].weight * Wanted(s.demands, active[j].demand)
  {
    hide Active, RoundQuotas, Rate, Portion, Wanted;
    QuotaOfOpenDemand(cs, eps, s, j);
    QuotaIsPortion(cs, eps, s, k);
    var active := Active(cs, s.demands, eps);
    PortionsInRatio(Wanted(s.demands, active[j].demand), active[k].weight, Rate(cs, eps, s));
  }

  ghost predicate Unweighted<F, K>(cs: seq<Candidate<F, K>>) { forall c :: c in cs ==> c.weight <= 0.0 }

  lemma MinPortion(d: real, rate: real)
    requires d >= 0.0 && rate >= 0.0
    ensures Min(Portion(d, rate), d) == Portion(d, Min(1.0, rate))
    ensures d > 0.0 && rate < 1.0 ==> Portion(d, rate) < d
  {
    if rate <= 1.0 {
      assert d * (1.0 - rate) >= 0.0;
    } else {
      assert d * (rate - 1.0) >= 0.0;
    }
    if d > 0.0 && rate < 1.0 { assert d * (1.0 - rate) > 0.0; }
  }

  /** One round among unweighted candidates gives each the same share of its open demand, and is the last. */
  lemma UnweightedRound<F, K>(cs: seq<Candidate<F, K>>, eps: real, s: State<F, K>, c: Candidate<F, K>)
    requires eps >= 0.0 && Distinct(cs) && Unweighted(cs) && !Done(cs, eps, s) && s.remaining >= 0.0
    requires c in cs && Wanted(s.demands, c.demand) > eps
    ensures var t, level := Round(cs, eps, s), Min(1.0, Rate(cs, eps, s));
            && Given(t.alloc, c.field) - Given(s.alloc, c.field) == Portion(Wanted(s.demands, c.demand), level)
            && Wanted(t.demands, c.demand) == Wanted(s.demands, c.demand) - Portion(Wanted(s.demands, c.demand), level)
  {
    var active, qs := Active(cs, s.demands, eps), RoundQuotas(cs, eps, s);
    var p0 := Pass(s.alloc, s.demands, 0.0);
    RoundEffect(cs, eps, s);
    QuotaFacts(cs, eps, s);
    ActiveFacts(cs, s.demands, eps);
    RateNonnegative(cs, eps, s);
    assert Round(cs, eps, s).alloc == Distribute(qs, p0).alloc;
    assert Round(cs, eps, s).demands == Distribute(qs, p0).demands;
    hide Round, RoundQuotas, Distribute, Active, Rate, Portion, Given, Wanted, TotalWeight;
    var j :| 0 <= j < |active| && active[j] == c;
    assert qs[j] in qs;
    MatchesDistinct(active, qs);
    DistributeAt(qs, p0, j);
    QuotaOfOpenDemand(cs, eps, s, j);
    MinPortion(Wanted(s.demands, c.demand), Rate(cs, eps, s));
  }

  lemma UnweightedRoundIsLast<F, K>(cs: seq<Candidate<F, K>>, eps: real, s: State<F, K>)
    requires eps >= 0.0 && Distinct(cs) && Unweighted(cs) && !Done(cs, eps, s) && s.remaining >= 0.0
    ensures Done(cs, eps, Round(cs, eps, s))
  {
    if Rate(cs, eps, s) < 1.0 {
      UncappedRoundTakesAll(cs, eps, s);
    } else {
      var t := Round(cs, eps, s);
      RoundEffect(cs, eps, s);
      hide Round, Rate, Given, Wanted, Active, Distinct;
      forall c | c in Active(cs, t.demands, eps) ensures false {
        FullRoundUsesUp(cs, eps, s, c);
      }
      HasElement(Active(cs, t.demands, eps));
    }
  }

  lemma HasElement<T>(xs: seq<T>)
    ensures xs == [] || exists x :: x in xs
  {
    if xs != [] { assert xs[0] in xs; }
  }

  lemma FullRoundUsesUp<F, K>(cs: seq<Candidate<F, K>>, eps: real, s: State<F, K>, c: Candidate<F, K>)
    requires eps >= 0.0 && Distinct(cs) && Unweighted(cs) && !Done(cs, eps, s) && s.remaining >= 0.0
    requires Rate(cs, eps, s) >= 1.0 && c in cs
    ensures Wanted(Round(cs, eps, s).demands, c.demand) <= eps
  {
    var t := Round(cs, eps, s);
    RoundEffect(cs, eps, s);
    DemandsFall(cs, s, t, c);
    hide Round, Rate, Given, Wanted, Active, Distinct;
    if Wanted(s.demands, c.demand) > eps {
      UnweightedRound(cs, eps, s, c);
      PortionFacts(Wanted(s.demands, c.demand), 1.0, 0.0);
      WholePortion(Wanted(s.demands, c.demand));
    }
  }

  lemma WholePortion(w: real)
    ensures Portion(w, 1.0) == w
  {
  }

  lemma DemandsFall<F, K>(cs: seq<Candidate<F, K>>, r: State<F, K>, t: State<F, K>, c: Candidate<F, K>)
    requires Transfers(cs, r.alloc, r.demands, t.alloc, t.demands) && c in cs
    ensures Wanted(t.demands, c.demand) <= Wanted(r.demands, c.demand)
  {
    hide Given;
  }

  /** If no quota reaches its demand, the round hands out the whole total. */
  lemma UncappedRoundTakesAll<F, K>(cs: seq<Candidate<F, K>>, eps: real, s: State<F, K>)
    requires eps >= 0.0 && Distinct(cs) && Unweighted(cs) && !Done(cs, eps, s) && s.remaining >= 0.0
    requires Rate(cs, eps, s) < 1.0
    ensures Round(cs, eps, s).remaining == 0.0
  {
    var active, qs := Active(cs, s.demands, eps), RoundQuotas(cs, eps, s);
    var p0 := Pass(s.alloc, s.demands, 0.0);
    RoundTakesMoved(cs, eps, s);
    ActiveFacts(cs, s.demands, eps);
    hide Round, RoundQuotas, Distribute, Active, Rate, Portion, TotalWeight, Distinct, SumAmounts, Wanted, Amount;
    QuotaFacts(cs, eps, s);
    RateNonnegative(cs, eps, s);
    MatchesDistinct(active, qs);
    DistributeMoves(qs, p0);
    AmountsBelowQuotas(qs, s.demands);
    forall q | q in qs ensures Amount(q, s.demands) != Wanted(s.demands, q.demand) {
      var j :| 0 <= j < |qs| && qs[j] == q;
      QuotaBelowDemand(cs, eps, s, j);
    }
  }

  lemma RoundTakesMoved<F, K>(cs: seq<Candidate<F, K>>, eps: real, s: State<F, K>)
    requires eps >= 0.0 && Distinct(cs) && !Done(cs, eps, s)
    ensures Round(cs, eps, s).remaining
            == Max(0.0, s.remaining - Distribute(RoundQuotas(cs, eps, s), Pass(s.alloc, s.demands, 0.0)).moved)
  {
    RoundEffect(cs, eps, s);
    hide RoundQuotas, Distribute, Active, Distinct;
  }

  lemma QuotaBelowDemand<F, K>(cs: seq<Candidate<F, K>>, eps: real, s: State<F, K>, j: nat)
    requires eps >= 0.0 && Unweighted(cs) && !Done(cs, eps, s) && s.remaining >= 0.0 && Rate(cs, eps, s) < 1.0
    requires j < |RoundQuotas(cs, eps, s)|
    ensures var q := RoundQuotas(cs, eps, s)[j]; Amount(q, s.demands) != Wanted(s.demands, q.demand)
  {
    var active := Active(cs, s.demands, eps);
    QuotaFacts(cs, eps, s);
    assert active[j] in active && active[j] in cs;
    hide RoundQuotas, Active, Rate, Portion, Wanted, TotalWeight;
    QuotaOfOpenDemand(cs, eps, s, j);
    RateNonnegative(cs, eps, s);
    MinPortion(Wanted(s.demands, active[j].demand), Rate(cs, eps, s));
  }

  /**
    Candidates none of which has a weight share in proportion to their open demands: each gets the
    same fraction of what its demand wants.
   */
  lemma UnweightedShareByDemand<F, K>(total: real, cs: seq<Candidate<F, K>>, demands: map<K, real>, eps: real)
    returns (level: real)
    requires eps >= 0.0 && Distinct(cs) && Unweighted(cs)
    requires eps == 0.0 || forall c :: c in cs ==> Wanted(demands, c.demand) > eps
    ensures 0.0 <= level <= 1.0
    ensures forall c :: c in cs ==>
              Given(Allocate(total, cs, demands, eps).alloc, c.field) == Portion(Wanted(demands, c.demand), level)
  {
    var s := State(Positive(total), Fields(cs), demands);
    NothingGivenYet(cs, cs);
    if Done(cs, eps, s) {
      level := 0.0;
      assert Allocate(total, cs, demands, eps) == s;
      hide Allocate, Fields, Given;
      forall c | c in cs ensures Given(s.alloc, c.field) == Portion(Wanted(demands, c.demand), 0.0) {
        PortionFacts(Wanted(demands, c.demand), 0.0, 0.0);
      }
    } else {
      level := Min(1.0, Rate(cs, eps, s));
      RateNonnegative(cs, eps, s);
      UnweightedRoundIsLast(cs, eps, s);
      OneRound(cs, eps, s);
      assert Allocate(total, cs, demands, eps) == Round(cs, eps, s);
      hide Allocate, Fields, Given, Round, Rate, Portion, Wanted;
      forall c | c in cs ensures Given(Round(cs, eps, s).alloc, c.field) == Portion(Wanted(demands, c.demand), level) {
        if Wanted(demands, c.demand) > eps {
          UnweightedRound(cs, eps, s, c);
        } else {
          ClosedDemandGetsNothing(cs, eps, s, c);
          PortionFacts(0.0, level, 0.0);
          NoPortion(level);
        }
      }
    }
  }

  lemma NoPortion(level: real)
    ensures Portion(0.0, level) == 0.0
  {
  }

  lemma OneRound<F, K>(cs: seq<Candidate<F, K>>, eps: real, s: State<F, K>)
    requires !Done(cs, eps, s) && Done(cs, eps, Round(cs, eps, s))
    ensures Rounds(MAX_ROUNDS, cs, eps, s) == Round(cs, eps, s)
  {
    hide Round, Done;
  }

  lemma ClosedDemandGetsNothing<F, K>(cs: seq<Candidate<F, K>>, eps: real, s: State<F, K>, c: Candidate<F, K>)
    requires eps >= 0.0 && Distinct(cs) && !Done(cs, eps, s) && c in cs && Wanted(s.demands, c.demand) <= eps
    ensures Given(Round(cs, eps, s).alloc, c.field) == Given(s.alloc, c.field)
  {
    var qs := RoundQuotas(cs, eps, s);
    RoundEffect(cs, eps, s);
    QuotaFacts(cs, eps, s);
    assert Round(cs, eps, s).alloc == Distribute(qs, Pass(s.alloc, s.demands, 0.0)).alloc;
    hide Round, RoundQuotas, Distribute, Given, Active, TotalWeight;
    PassAt(cs, qs, eps, Pass(s.alloc, s.demands, 0.0), c);
  }

  /** So two of them get amounts in the ratio of their demands. */
  lemma UnweightedInRatioOfDemands<F, K>(total: real, cs: seq<Candidate<F, K>>, demands: map<K, real>, eps: real,
                                         x: Candidate<F, K>, y: Candidate<F, K>)
    requires eps >= 0.0 && Distinct(cs) && Unweighted(cs) && x in cs && y in cs
    requires eps == 0.0 || forall c :: c in cs ==> Wanted(demands, c.demand) > eps
    ensures var alloc := Allocate(total, cs, demands, eps).alloc;
            Given(alloc, x.field) * Wanted(demands, y.demand) == Given(alloc, y.field) * Wanted(demands, x.demand)
  {
    hide Allocate, Given, Wanted, Distinct;
    var level := UnweightedShareByDemand(total, cs, demands, eps);
    PortionsInRatio(Wanted(demands, x.demand), Wanted(demands, y.demand), level);
  }

  // ---- Weights that already fit ----------------------------------------------------------

  /** What a sequence of candidates is weighted in all. */
  lemma {:induction false} SumsOfSame<F, K>(cs: seq<Candidate<F, K>>, alloc: map<F, real>)
    requires forall c :: c in cs ==> Given(alloc, c.field) >= c.weight
    ensures SumGiven(cs, alloc) >= TotalWeight(cs)
    ensures SumGiven(cs, alloc) == TotalWeight(cs) ==> forall c :: c in cs ==> Given(alloc, c.field) == c.weight
  {
    if cs != [] {
      assert cs[0] in cs && forall c :: c in cs[1..] ==> c in cs;
      SumsOfSame(cs[1..], alloc);
      assert cs == [cs[0]] + cs[1..];
    }
  }

  /** Strictly less for one candidate and never more for the others is less in all. */
  lemma {:induction false} SumsOfLess<F, K>(cs: seq<Candidate<F, K>>, alloc: map<F, real>)
    requires forall c :: c in cs ==> Given(alloc, c.field) <= c.weight
    ensures SumGiven(cs, alloc) <= TotalWeight(cs)
    ensures (exists c :: c in cs && Given(alloc, c.field) < c.weight) ==> SumGiven(cs, alloc) < TotalWeight(cs)
  {
    if cs != [] {
      assert cs[0] in cs && forall c :: c in cs[1..] ==> c in cs;
      SumsOfLess(cs[1..], alloc);
      assert cs == [cs[0]] + cs[1..];
    }
  }

  /**
    Weights that add up to the total and fit into the demands are given as they are; a candidate
    without a weight must not have an open demand, for that would stand in for its weight.
   */
  lemma FittingWeightsAreGiven<F, K>(total: real, cs: seq<Candidate<F, K>>, demands: map<K, real>)
    requires Distinct(cs) && |cs| <= MAX_ROUNDS && total == TotalWeight(cs)
    requires forall c :: c in cs ==> 0.0 <= c.weight <= Wanted(demands, c.demand)
    requires total > 0.0 ==> forall c :: c in cs && c.weight == 0.0 ==> Wanted(demands, c.demand) == 0.0
    ensures var t := Allocate(total, cs, demands, 0.0);
            forall c :: c in cs ==> Given(t.alloc, c.field) == c.weight
                                    && Wanted(t.demands, c.demand) == Wanted(demands, c.demand) - c.weight
  {
    var t := Allocate(total, cs, demands, 0.0);
    hide Allocate, Given, Wanted, Distinct, Portion, SumGiven, TotalWeight;
    if total <= 0.0 {
      NothingToGive(total, cs, demands);
      return;
    }
    AllocatorLaw(total, cs, demands, 0.0);
    var level := ExactlyTheLesser(total, cs, demands);
    TotalNonnegative(cs);
    forall c | c in cs ensures level >= 1.0 ==> Given(t.alloc, c.field) >= c.weight {
      if level >= 1.0 && c.weight > 0.0 { PortionAtLeast(c.weight, level); }
    }
    forall c | c in cs
      ensures level < 1.0 ==>
                Given(t.alloc, c.field) <= c.weight && (c.weight > 0.0 ==> Given(t.alloc, c.field) < c.weight)
    {
      if level < 1.0 && c.weight > 0.0 { MinPortionBelow(c.weight, level); }
    }
    if level < 1.0 {
      SumsOfLess(cs, t.alloc);
      LessLeavesOpen(cs, t, demands, total);
    } else {
      SumsOfSame(cs, t.alloc);
    }
  }

  lemma {:induction false} TotalNonnegative<F, K>(cs: seq<Candidate<F, K>>)
    requires forall c :: c in cs ==> c.weight >= 0.0
    ensures TotalWeight(cs) >= 0.0
  {
    if cs != [] {
      assert cs[0] in cs && forall c :: c in cs[1..] ==> c in cs;
      TotalNonnegative(cs[1..]);
    }
  }

  /** Without a total nothing is given; weights that add up to nothing are all zero. */
  lemma {:induction false} NothingToGive<F, K>(total: real, cs: seq<Candidate<F, K>>, demands: map<K, real>)
    requires total <= 0.0 && total == TotalWeight(cs) && forall c :: c in cs ==> c.weight >= 0.0
    ensures var t := Allocate(total, cs, demands, 0.0);
            forall c :: c in cs ==> Given(t.alloc, c.field) == 0.0 == c.weight
                                    && Wanted(t.demands, c.demand) == Wanted(demands, c.demand)
  {
    var s := State(Positive(total), Fields(cs), demands);
    NothingGivenYet(cs, cs);
    assert Done(cs, 0.0, s);
    assert Allocate(total, cs, demands, 0.0) == s;
    hide Allocate, Fields, Given, Wanted;
    WeightsOfNothing(cs);
  }

  lemma {:induction false} WeightsOfNothing<F, K>(cs: seq<Candidate<F, K>>)
    requires TotalWeight(cs) <= 0.0 && forall c :: c in cs ==> c.weight >= 0.0
    ensures forall c :: c in cs ==> c.weight == 0.0
  {
    if cs != [] {
      assert cs[0] in cs && forall c :: c in cs[1..] ==> c in cs;
      TotalNonnegative(cs[1..]);
      WeightsOfNothing(cs[1..]);
      assert cs == [cs[0]] + cs[1..];
    }
  }

  lemma PortionAtLeast(w: real, level: real)
    requires w > 0.0 && level >= 1.0
    ensures Portion(w, level) >= w
  {
    assert w * (level - 1.0) >= 0.0;
  }

  lemma MinPortionBelow(w: real, level: real)
    requires w > 0.0 && level < 1.0
    ensures Portion(w, level) < w
  {
    assert w * (1.0 - level) > 0.0;
  }

  /** Less than the total was given, so every demand must be used up: then no weight was positive. */
  lemma LessLeavesOpen<F, K>(cs: seq<Candidate<F, K>>, t: State<F, K>, demands: map<K, real>, total: real)
    requires SumGiven(cs, t.alloc) + t.remaining == total && total == TotalWeight(cs)
    requires t.remaining <= 0.0 || forall c :: c in cs ==> Wanted(t.demands, c.demand) <= 0.0
    requires forall c :: c in cs ==> Given(t.alloc, c.field) + Wanted(t.demands, c.demand) == Wanted(demands, c.demand)
    requires forall c :: c in cs ==> c.weight <= Wanted(demands, c.demand)
    requires forall c :: c in cs ==>
               Given(t.alloc, c.field) <= c.weight && (c.weight > 0.0 ==> Given(t.alloc, c.field) < c.weight)
    requires (exists c :: c in cs && Given(t.alloc, c.field) < c.weight) ==> SumGiven(cs, t.alloc) < TotalWeight(cs)
    ensures forall c :: c in cs ==> c.weight <= 0.0
  {
    hide Given, Wanted, SumGiven, TotalWeight;
  }
}
