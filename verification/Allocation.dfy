/**
  The capped proportional allocator behind the energy-flow reconstruction.

  A source total (watts) is handed out to candidates. Every candidate draws from one
  demand, in proportion to its weight, and never more than that demand still wants.
  Rounds repeat until the total or the demands are used up, six rounds at the most.
  Arithmetic is over `real`; the cutoff 1e-9 is the parameter `eps >= 0`.
 */
module Allocation {
  import opened Reals

  const MAX_ROUNDS := 6

  datatype Candidate<F, K> = Candidate(field: F, demand: K, weight: real)

  /** What one pass over the candidates changes. */
  datatype Pass<F, K> = Pass(alloc: map<F, real>, demands: map<K, real>, moved: real)

  /** The allocator's state between two rounds. */
  datatype State<F, K> = State(remaining: real, alloc: map<F, real>, demands: map<K, real>)

  function Positive(x: real): (r: real)
    ensures r >= 0.0
  {
    if x <= 0.0 then 0.0 else x
  }

  /** A missing key counts as no demand, a negative one too. */
  function Wanted<K>(demands: map<K, real>, k: K): (r: real)
    ensures r >= 0.0
  {
    if k in demands then Positive(demands[k]) else 0.0
  }

  function Given<F>(alloc: map<F, real>, f: F): real {
    if f in alloc then alloc[f] else 0.0
  }

  /** No two candidates share a field or a demand. */
  ghost predicate Distinct<F, K>(cs: seq<Candidate<F, K>>) {
    forall i, j :: 0 <= i < j < |cs| ==> cs[i].field != cs[j].field && cs[i].demand != cs[j].demand
  }

  function Active<F, K>(cs: seq<Candidate<F, K>>, demands: map<K, real>, eps: real): (r: seq<Candidate<F, K>>)
    ensures forall c :: c in r ==> c in cs && Wanted(demands, c.demand) > eps
  {
    if cs == [] then []
    else if Wanted(demands, cs[0].demand) > eps then [cs[0]] + Active(cs[1..], demands, eps)
    else Active(cs[1..], demands, eps)
  }

  /** A candidate without a weight of its own is weighted by what its demand still wants. */
  function Weigh<F, K>(c: Candidate<F, K>, demands: map<K, real>): Candidate<F, K> {
    c.(weight := if Positive(c.weight) > 0.0 then Positive(c.weight) else Wanted(demands, c.demand))
  }

  function WeighAll<F, K>(cs: seq<Candidate<F, K>>, demands: map<K, real>): (r: seq<Candidate<F, K>>)
    ensures |r| == |cs|
    ensures forall i :: 0 <= i < |cs| ==> r[i] == Weigh(cs[i], demands)
  {
    if cs == [] then [] else [Weigh(cs[0], demands)] + WeighAll(cs[1..], demands)
  }

  function TotalWeight<F, K>(ws: seq<Candidate<F, K>>): real {
    if ws == [] then 0.0 else ws[0].weight + TotalWeight(ws[1..])
  }

  /** A candidate's part of the remaining total, before its demand caps it. */
  function Share(weight: real, remaining: real, totalWeight: real, count: nat): real
    requires count > 0
  {
    if totalWeight > 0.0 then remaining * (weight / totalWeight) else remaining / count as real
  }

  /** The weighted candidates with their share in the weight's place. */
  function Quotas<F, K>(ws: seq<Candidate<F, K>>, remaining: real, totalWeight: real,
                        count: nat): (r: seq<Candidate<F, K>>)
    requires count > 0
    ensures |r| == |ws|
    ensures forall i :: 0 <= i < |ws| ==> r[i] == ws[i].(weight := Share(ws[i].weight, remaining, totalWeight, count))
  {
    if ws == [] then []
    else
      var first := ws[0].(weight := Share(ws[0].weight, remaining, totalWeight, count));
      [first] + Quotas(ws[1..], remaining, totalWeight, count)
  }

  function Take<F, K>(w: Candidate<F, K>, amount: real, p: Pass<F, K>): Pass<F, K> {
    Pass(p.alloc[w.field := Given(p.alloc, w.field) + amount],
         p.demands[w.demand := Max(0.0, Wanted(p.demands, w.demand) - amount)],
         p.moved + amount)
  }

  /** One pass: each candidate draws its quota, capped by what its demand wants at that moment. */
  function Distribute<F, K>(qs: seq<Candidate<F, K>>, p: Pass<F, K>): Pass<F, K> {
    if qs == [] then p
    else Distribute(qs[1..], Take(qs[0], Min(qs[0].weight, Wanted(p.demands, qs[0].demand)), p))
  }

  /** The guard against a round that moves nothing. */
  function Fallback<F, K>(ws: seq<Candidate<F, K>>, remaining: real, eps: real, p: Pass<F, K>): Pass<F, K>
    requires ws != []
  {
    if p.moved <= eps then Take(ws[0], Min(remaining, Wanted(p.demands, ws[0].demand)), p) else p
  }

  function RoundQuotas<F, K>(cs: seq<Candidate<F, K>>, eps: real, s: State<F, K>): seq<Candidate<F, K>>
    requires Active(cs, s.demands, eps) != []
  {
    var ws := WeighAll(Active(cs, s.demands, eps), s.demands);
    Quotas(ws, s.remaining, TotalWeight(ws), |ws|)
  }

  function Round<F, K>(cs: seq<Candidate<F, K>>, eps: real, s: State<F, K>): State<F, K>
    requires Active(cs, s.demands, eps) != []
  {
    var qs := RoundQuotas(cs, eps, s);
    var p := Fallback(qs, s.remaining, eps, Distribute(qs, Pass(s.alloc, s.demands, 0.0)));
    State(Max(0.0, s.remaining - p.moved), p.alloc, p.demands)
  }

  predicate Done<F, K>(cs: seq<Candidate<F, K>>, eps: real, s: State<F, K>) {
    s.remaining <= eps || Active(cs, s.demands, eps) == []
  }

  function Rounds<F, K>(n: nat, cs: seq<Candidate<F, K>>, eps: real, s: State<F, K>): State<F, K> {
    if n == 0 || Done(cs, eps, s) then s else Rounds(n - 1, cs, eps, Round(cs, eps, s))
  }

  function Fields<F(==), K(==)>(cs: seq<Candidate<F, K>>): map<F, real> {
    map c | c in cs :: c.field := 0.0
  }

  /** The whole allocation, as a function of the total and the demands before it. */
  function Allocate<F(==), K(==)>(total: real, cs: seq<Candidate<F, K>>, demands: map<K, real>,
                                  eps: real): State<F, K> {
    Rounds(MAX_ROUNDS, cs, eps, State(Positive(total), Fields(cs), demands))
  }

  /** The demands one slot still has open; three source totals draw from it in turn. */
  class DemandBook<K(==)> {
    var remaining: map<K, real>

    constructor (demands: map<K, real>)
      ensures remaining == demands
    {
      remaining := demands;
    }
  }

  /** The inner loop: one pass over the weighted candidates, then the fallback. */
  method DrawRound<F(==), K(==)>(weighted: seq<Candidate<F, K>>, remaining: real, start: map<F, real>,
                                 book: DemandBook<K>, eps: real)
    returns (allocations: map<F, real>, moved: real)
    requires weighted != []
    modifies book
    ensures var qs := Quotas(weighted, remaining, TotalWeight(weighted), |weighted|);
            Pass(allocations, book.remaining, moved)
            == Fallback(qs, remaining, eps, Distribute(qs, Pass(start, old(book.remaining), 0.0)))
  {
    hide Quotas, TotalWeight, Distribute, Given, Wanted;
    var totalWeight := TotalWeight(weighted);
    allocations, moved := start, 0.0;
    ghost var qs := Quotas(weighted, remaining, totalWeight, |weighted|);
    ghost var pass := Distribute(qs, Pass(start, book.remaining, 0.0));
    var i := 0;
    while i < |weighted|
      invariant 0 <= i <= |weighted|
      invariant pass == Distribute(qs[i..], Pass(allocations, book.remaining, moved))
    {
      var c := weighted[i];
      DrawNext(qs, i, Pass(allocations, book.remaining, moved));
      var amount := Min(Share(c.weight, remaining, totalWeight, |weighted|), Wanted(book.remaining, c.demand));
      allocations := allocations[c.field := Given(allocations, c.field) + amount];
      book.remaining := book.remaining[c.demand := Max(0.0, Wanted(book.remaining, c.demand) - amount)];
      moved := moved + amount;
      i := i + 1;
    }
    DrawnAll(qs, Pass(allocations, book.remaining, moved));
    if moved <= eps {
      var c := weighted[0];
      var amount := Min(remaining, Wanted(book.remaining, c.demand));
      allocations := allocations[c.field := Given(allocations, c.field) + amount];
      book.remaining := book.remaining[c.demand := Max(0.0, Wanted(book.remaining, c.demand) - amount)];
      moved := moved + amount;
    }
  }

  lemma DrawNext<F, K>(qs: seq<Candidate<F, K>>, i: nat, p: Pass<F, K>)
    requires i < |qs|
    ensures Distribute(qs[i..], p)
            == Distribute(qs[i + 1..], Take(qs[i], Min(qs[i].weight, Wanted(p.demands, qs[i].demand)), p))
  {
    assert qs[i..][1..] == qs[i + 1..];
  }

  lemma DrawnAll<F, K>(qs: seq<Candidate<F, K>>, p: Pass<F, K>)
    ensures Distribute(qs[|qs|..], p) == p
  {
  }

  method AllocateSourceTotal<F(==), K(==)>(total: real, cs: seq<Candidate<F, K>>, book: DemandBook<K>, eps: real)
    returns (allocations: map<F, real>)
    modifies book
    ensures allocations == Allocate(total, cs, old(book.remaining), eps).alloc
    ensures book.remaining == Allocate(total, cs, old(book.remaining), eps).demands
  {
    allocations := Fields(cs);
    var remaining := Positive(total);
    ghost var final := Allocate(total, cs, book.remaining, eps);
    var iteration := 0;
    while iteration < MAX_ROUNDS && remaining > eps
      invariant 0 <= iteration <= MAX_ROUNDS
      invariant final == Rounds(MAX_ROUNDS - iteration, cs, eps, State(remaining, allocations, book.remaining))
    {
      var active := Active(cs, book.remaining, eps);
      if |active| == 0 { break; }
      var moved;
      allocations, moved := DrawRound(WeighAll(active, book.remaining), remaining, allocations, book, eps);
      remaining := Max(0.0, remaining - moved);
      iteration := iteration + 1;
    }
  }

  // ---- What the specification delivers -------------------------------------------------

  /** The amount candidate `q` draws in a pass, from the demands at the start of that pass. */
  ghost function Amount<F, K>(q: Candidate<F, K>, demands: map<K, real>): real {
    Min(q.weight, Wanted(demands, q.demand))
  }

  ghost function SumAmounts<F, K>(qs: seq<Candidate<F, K>>, demands: map<K, real>): real {
    if qs == [] then 0.0 else Amount(qs[0], demands) + SumAmounts(qs[1..], demands)
  }

  ghost function SumGiven<F, K>(cs: seq<Candidate<F, K>>, alloc: map<F, real>): real {
    if cs == [] then 0.0 else Given(alloc, cs[0].field) + SumGiven(cs[1..], alloc)
  }

  ghost function SumWanted<F, K>(cs: seq<Candidate<F, K>>, demands: map<K, real>): real {
    if cs == [] then 0.0 else Wanted(demands, cs[0].demand) + SumWanted(cs[1..], demands)
  }

  ghost predicate Nonnegative<F, K>(qs: seq<Candidate<F, K>>) {
    forall q :: q in qs ==> q.weight >= 0.0
  }

  lemma SumAmountsSameDemands<F, K>(qs: seq<Candidate<F, K>>, d: map<K, real>, e: map<K, real>)
    requires forall q :: q in qs ==> Wanted(d, q.demand) == Wanted(e, q.demand)
    ensures SumAmounts(qs, d) == SumAmounts(qs, e)
  {
  }

  lemma {:induction false} DistributeFrame<F, K>(qs: seq<Candidate<F, K>>, p: Pass<F, K>, f: F, k: K)
    ensures (forall q :: q in qs ==> q.field != f) ==> Given(Distribute(qs, p).alloc, f) == Given(p.alloc, f)
    ensures (forall q :: q in qs ==> q.demand != k) ==> Wanted(Distribute(qs, p).demands, k) == Wanted(p.demands, k)
  {
    if qs != [] {
      DistributeFrame(qs[1..], Take(qs[0], Amount(qs[0], p.demands), p), f, k);
      assert qs[0] in qs && forall q :: q in qs[1..] ==> q in qs;
    }
  }

  /** With distinct keys, every candidate draws as if it were alone in the pass. */
  lemma {:induction false} DistributeAt<F, K>(qs: seq<Candidate<F, K>>, p: Pass<F, K>, j: nat)
    requires Distinct(qs) && j < |qs|
    requires qs[j].weight >= 0.0
    ensures Given(Distribute(qs, p).alloc, qs[j].field) == Given(p.alloc, qs[j].field) + Amount(qs[j], p.demands)
    ensures Wanted(Distribute(qs, p).demands, qs[j].demand)
            == Wanted(p.demands, qs[j].demand) - Amount(qs[j], p.demands)
  {
    var p1 := Take(qs[0], Amount(qs[0], p.demands), p);
    if j == 0 {
      assert forall q :: q in qs[1..] ==> q.field != qs[0].field && q.demand != qs[0].demand;
      DistributeFrame(qs[1..], p1, qs[0].field, qs[0].demand);
    } else {
      assert qs[1..][j - 1] == qs[j];
      DistributeAt(qs[1..], p1, j - 1);
    }
  }

  lemma {:induction false} DistributeMoves<F, K>(qs: seq<Candidate<F, K>>, p: Pass<F, K>)
    requires Distinct(qs)
    ensures Distribute(qs, p).moved == p.moved + SumAmounts(qs, p.demands)
  {
    if qs != [] {
      var p1 := Take(qs[0], Amount(qs[0], p.demands), p);
      assert forall q :: q in qs[1..] ==> q.demand != qs[0].demand;
      SumAmountsSameDemands(qs[1..], p.demands, p1.demands);
      DistributeMoves(qs[1..], p1);
    }
  }

  /** A pass moves at most the sum of its quotas; short of that sum, some demand is used up. */
  lemma {:induction false} AmountsBelowQuotas<F, K>(qs: seq<Candidate<F, K>>, demands: map<K, real>)
    requires Nonnegative(qs)
    ensures 0.0 <= SumAmounts(qs, demands) <= TotalWeight(qs)
    ensures forall q :: q in qs ==> 0.0 <= Amount(q, demands) <= SumAmounts(qs, demands)
    ensures SumAmounts(qs, demands) == TotalWeight(qs)
            || exists q :: q in qs && Amount(q, demands) == Wanted(demands, q.demand)
  {
    if qs != [] {
      AmountsBelowQuotas(qs[1..], demands);
      assert forall q :: q in qs ==> q == qs[0] || q in qs[1..];
      assert qs[0] in qs && forall q :: q in qs[1..] ==> q in qs;
    }
  }

  lemma ShareSplits(a: real, b: real, r: real, tw: real)
    requires tw > 0.0
    ensures r * ((a + b) / tw) == r * (a / tw) + r * (b / tw)
  {
    assert (a + b) / tw == a / tw + b / tw;
  }

  lemma {:induction false} QuotasAddUp<F, K>(ws: seq<Candidate<F, K>>, r: real, tw: real, n: nat)
    requires n > 0 && tw > 0.0
    ensures TotalWeight(Quotas(ws, r, tw, n)) == r * (TotalWeight(ws) / tw)
  {
    if ws != [] {
      QuotasAddUp(ws[1..], r, tw, n);
      ShareSplits(ws[0].weight, TotalWeight(ws[1..]), r, tw);
      assert Quotas(ws, r, tw, n)[1..] == Quotas(ws[1..], r, tw, n);
    }
  }

  lemma {:induction false} WeightsPositive<F, K>(ws: seq<Candidate<F, K>>)
    requires ws != [] && forall w :: w in ws ==> w.weight > 0.0
    ensures TotalWeight(ws) > 0.0
  {
    if |ws| > 1 {
      WeightsPositive(ws[1..]);
    }
  }

  // ---- One round -----------------------------------------------------------------------

  lemma {:induction false} ActiveFacts<F, K>(cs: seq<Candidate<F, K>>, demands: map<K, real>, eps: real)
    ensures Distinct(cs) ==> Distinct(Active(cs, demands, eps))
    ensures forall c :: c in cs && Wanted(demands, c.demand) > eps ==> c in Active(cs, demands, eps)
    ensures |Active(cs, demands, eps)| <= |cs|
  {
    if cs != [] {
      var rest := Active(cs[1..], demands, eps);
      ActiveFacts(cs[1..], demands, eps);
      forall c | c in cs ensures c == cs[0] || c in cs[1..] { assert cs == [cs[0]] + cs[1..]; }
      if Distinct(cs) {
        DistinctInFront(cs, rest);
      }
    }
  }

  lemma DistinctInFront<F, K>(cs: seq<Candidate<F, K>>, rest: seq<Candidate<F, K>>)
    requires cs != [] && Distinct(cs) && Distinct(rest) && forall c :: c in rest ==> c in cs[1..]
    ensures Distinct([cs[0]] + rest)
  {
    forall j | 0 <= j < |rest| ensures cs[0].field != rest[j].field && cs[0].demand != rest[j].demand {
      assert rest[j] in cs[1..];
      var i :| 0 <= i < |cs| - 1 && cs[1..][i] == rest[j];
      assert cs[i + 1] == rest[j];
    }
  }

  lemma ShareNonnegative(w: real, r: real, tw: real, n: nat)
    requires n > 0 && w > 0.0 && r >= 0.0 && tw > 0.0
    ensures Share(w, r, tw, n) >= 0.0
  {
    assert w / tw > 0.0;
  }

  lemma WholeShare(r: real, tw: real)
    requires tw > 0.0
    ensures r * (tw / tw) == r
  {
    assert tw / tw == 1.0;
  }

  lemma {:induction false} QuotasNonnegative<F, K>(ws: seq<Candidate<F, K>>, r: real, tw: real, n: nat)
    requires n > 0 && r >= 0.0 && tw > 0.0 && forall w :: w in ws ==> w.weight > 0.0
    ensures Nonnegative(Quotas(ws, r, tw, n))
  {
    if ws != [] {
      assert ws[0] in ws;
      ShareNonnegative(ws[0].weight, r, tw, n);
      QuotasNonnegative(ws[1..], r, tw, n);
    }
  }

  lemma QuotasOfTheirTotal<F, K>(ws: seq<Candidate<F, K>>, r: real)
    requires ws != [] && r >= 0.0 && forall w :: w in ws ==> w.weight > 0.0
    ensures var qs := Quotas(ws, r, TotalWeight(ws), |ws|); Nonnegative(qs) && TotalWeight(qs) == r
  {
    hide Quotas, TotalWeight, Nonnegative, Share;
    WeightsPositive(ws);
    WholeShare(r, TotalWeight(ws));
    QuotasAddUp(ws, r, TotalWeight(ws), |ws|);
    QuotasNonnegative(ws, r, TotalWeight(ws), |ws|);
  }

  /** The same candidates, but for their weights. */
  ghost predicate Matches<F, K>(active: seq<Candidate<F, K>>, qs: seq<Candidate<F, K>>) {
    && |qs| == |active|
    && forall j :: 0 <= j < |qs| ==> qs[j].field == active[j].field && qs[j].demand == active[j].demand
  }

  /** The quotas of a round: nonnegative, one per active candidate, adding up to the remaining total. */
  lemma QuotaFacts<F, K>(cs: seq<Candidate<F, K>>, eps: real, s: State<F, K>)
    requires eps >= 0.0 && s.remaining > eps && Active(cs, s.demands, eps) != []
    ensures Nonnegative(RoundQuotas(cs, eps, s))
    ensures TotalWeight(RoundQuotas(cs, eps, s)) == s.remaining
    ensures Matches(Active(cs, s.demands, eps), RoundQuotas(cs, eps, s))
  {
    var active := Active(cs, s.demands, eps);
    var ws := WeighAll(active, s.demands);
    forall w | w in ws ensures w.weight > 0.0 {
      var i :| 0 <= i < |ws| && w == ws[i];
      assert active[i] in active;
    }
    QuotasOfTheirTotal(ws, s.remaining);
  }

  /** `b` is `a` after the active candidates drew their quotas `qs`. */
  ghost predicate Drawn<F, K>(cs: seq<Candidate<F, K>>, qs: seq<Candidate<F, K>>, eps: real, demands: map<K, real>,
                              a: map<F, real>, b: map<F, real>) {
    var active := Active(cs, demands, eps);
    && Matches(active, qs)
    && (forall j :: 0 <= j < |qs| ==> Given(b, active[j].field) == Given(a, active[j].field) + Amount(qs[j], demands))
    && (forall c :: c in cs && Wanted(demands, c.demand) <= eps ==> Given(b, c.field) == Given(a, c.field))
  }

  lemma {:induction false} SumOfPass<F, K>(cs: seq<Candidate<F, K>>, qs: seq<Candidate<F, K>>, eps: real,
                                           demands: map<K, real>, a: map<F, real>, b: map<F, real>)
    requires Drawn(cs, qs, eps, demands, a, b)
    ensures SumGiven(cs, b) == SumGiven(cs, a) + SumAmounts(qs, demands)
  {
    if cs != [] {
      var active := Active(cs, demands, eps);
      assert cs[0] in cs && forall c :: c in cs[1..] ==> c in cs;
      if Wanted(demands, cs[0].demand) > eps {
        assert active[0] == cs[0];
        assert active[1..] == Active(cs[1..], demands, eps);
        SumOfPass(cs[1..], qs[1..], eps, demands, a, b);
      } else {
        SumOfPass(cs[1..], qs, eps, demands, a, b);
      }
    }
  }

  lemma {:induction false} ActiveShrinks<F, K>(cs: seq<Candidate<F, K>>, d: map<K, real>, e: map<K, real>, eps: real)
    requires forall c :: c in cs ==> Wanted(e, c.demand) <= Wanted(d, c.demand)
    ensures |Active(cs, e, eps)| <= |Active(cs, d, eps)|
    ensures (exists c :: c in cs && Wanted(d, c.demand) > eps >= Wanted(e, c.demand))
            ==> |Active(cs, e, eps)| < |Active(cs, d, eps)|
  {
    if cs != [] {
      ActiveShrinks(cs[1..], d, e, eps);
    }
  }

  /** Candidates only gain, and each gain leaves the demand it came from. */
  ghost predicate Transfers<F, K>(cs: seq<Candidate<F, K>>, a: map<F, real>, d: map<K, real>, b: map<F, real>,
                                  e: map<K, real>) {
    forall c :: c in cs ==> 0.0 <= Given(b, c.field) - Given(a, c.field) == Wanted(d, c.demand) - Wanted(e, c.demand)
  }

  lemma PassAt<F, K>(cs: seq<Candidate<F, K>>, qs: seq<Candidate<F, K>>, eps: real, p0: Pass<F, K>, c: Candidate<F, K>)
    requires eps >= 0.0 && Distinct(cs) && Matches(Active(cs, p0.demands, eps), qs) && Nonnegative(qs) && c in cs
    ensures var p := Distribute(qs, p0);
            0.0 <= Given(p.alloc, c.field) - Given(p0.alloc, c.field)
              == Wanted(p0.demands, c.demand) - Wanted(p.demands, c.demand)
    ensures Wanted(p0.demands, c.demand) <= eps ==> Given(Distribute(qs, p0).alloc, c.field) == Given(p0.alloc, c.field)
  {
    var active := Active(cs, p0.demands, eps);
    ActiveFacts(cs, p0.demands, eps);
    if Wanted(p0.demands, c.demand) > eps {
      var j :| 0 <= j < |active| && active[j] == c;
      assert qs[j] in qs;
      DistributeAt(qs, p0, j);
    } else {
      forall q | q in qs ensures q.field != c.field && q.demand != c.demand {
        var j :| 0 <= j < |qs| && qs[j] == q;
        assert active[j] in active && active[j] in cs && active[j] != c;
      }
      DistributeFrame(qs, p0, c.field, c.demand);
    }
  }

  lemma PassEffect<F, K>(cs: seq<Candidate<F, K>>, qs: seq<Candidate<F, K>>, eps: real, p0: Pass<F, K>)
    requires eps >= 0.0 && Distinct(cs) && Matches(Active(cs, p0.demands, eps), qs) && Nonnegative(qs)
    ensures var p := Distribute(qs, p0);
            && Transfers(cs, p0.alloc, p0.demands, p.alloc, p.demands)
            && Drawn(cs, qs, eps, p0.demands, p0.alloc, p.alloc)
  {
    ActiveFacts(cs, p0.demands, eps);
    forall c | c in cs
      ensures var p := Distribute(qs, p0);
              0.0 <= Given(p.alloc, c.field) - Given(p0.alloc, c.field)
                == Wanted(p0.demands, c.demand) - Wanted(p.demands, c.demand)
      ensures Wanted(p0.demands, c.demand) <= eps
              ==> Given(Distribute(qs, p0).alloc, c.field) == Given(p0.alloc, c.field)
    {
      PassAt(cs, qs, eps, p0, c);
    }
    forall j | 0 <= j < |qs|
      ensures Given(Distribute(qs, p0).alloc, qs[j].field) == Given(p0.alloc, qs[j].field) + Amount(qs[j], p0.demands)
    {
      assert qs[j] in qs;
      DistributeAt(qs, p0, j);
    }
  }

  /** A pass whose quotas add up to `total` moves all of it or uses up a demand, and moves more than the cutoff. */
  lemma PassProgress<F, K>(cs: seq<Candidate<F, K>>, qs: seq<Candidate<F, K>>, eps: real, p0: Pass<F, K>, total: real)
    requires eps >= 0.0 && Distinct(cs) && Matches(Active(cs, p0.demands, eps), qs) && Nonnegative(qs)
    requires p0.moved == 0.0 && qs != [] && TotalWeight(qs) == total > eps
    ensures var p := Distribute(qs, p0);
            && eps < p.moved <= total
            && p.moved == SumAmounts(qs, p0.demands)
            && (p.moved == total || |Active(cs, p.demands, eps)| < |Active(cs, p0.demands, eps)|)
  {
    var p := Distribute(qs, p0);
    var active := Active(cs, p0.demands, eps);
    ActiveFacts(cs, p0.demands, eps);
    PassEffect(cs, qs, eps, p0);
    DistributeMoves(qs, p0);
    AmountsBelowQuotas(qs, p0.demands);
    if p.moved != total {
      var q :| q in qs && Amount(q, p0.demands) == Wanted(p0.demands, q.demand);
      var j :| 0 <= j < |qs| && qs[j] == q;
      assert active[j] in active && active[j] in cs;
      DistributeAt(qs, p0, j);
      ActiveShrinks(cs, p0.demands, p.demands, eps);
    }
  }

  /**
    One round: candidates only gain, each gain leaves the demand it came from, the gains add
    up to what left the total, the fallback is not needed, and a round that does not finish
    the total finishes a demand.
   */
  lemma RoundEffect<F, K>(cs: seq<Candidate<F, K>>, eps: real, s: State<F, K>)
    requires eps >= 0.0 && Distinct(cs) && !Done(cs, eps, s)
    ensures Distribute(RoundQuotas(cs, eps, s), Pass(s.alloc, s.demands, 0.0)).moved > eps
    ensures var t := Round(cs, eps, s);
            && Transfers(cs, s.alloc, s.demands, t.alloc, t.demands)
            && SumGiven(cs, t.alloc) + t.remaining == SumGiven(cs, s.alloc) + s.remaining
            && t.remaining >= 0.0
            && (t.remaining == 0.0 || |Active(cs, t.demands, eps)| < |Active(cs, s.demands, eps)|)
  {
    var qs := RoundQuotas(cs, eps, s);
    var p0 := Pass(s.alloc, s.demands, 0.0);
    QuotaFacts(cs, eps, s);
    PassEffect(cs, qs, eps, p0);
    PassProgress(cs, qs, eps, p0, s.remaining);
    SumOfPass(cs, qs, eps, s.demands, s.alloc, Distribute(qs, p0).alloc);
  }

  // ---- The allocator's law --------------------------------------------------------------

  lemma {:induction false} RoundsEffect<F, K>(n: nat, cs: seq<Candidate<F, K>>, eps: real, s: State<F, K>)
    requires eps >= 0.0 && Distinct(cs) && s.remaining >= 0.0
    ensures var t := Rounds(n, cs, eps, s);
            && t.remaining >= 0.0
            && Transfers(cs, s.alloc, s.demands, t.alloc, t.demands)
            && SumGiven(cs, t.alloc) + t.remaining == SumGiven(cs, s.alloc) + s.remaining
            && (|Active(cs, s.demands, eps)| <= n ==> Done(cs, eps, t))
    decreases n
  {
    hide Round, Distribute, Active, Distinct, SumGiven, Transfers;
    if n > 0 && !Done(cs, eps, s) {
      var r := Round(cs, eps, s);
      RoundEffect(cs, eps, s);
      RoundsEffect(n - 1, cs, eps, r);
      var t := Rounds(n, cs, eps, s);
      TransfersCompose(cs, s, r, t);
    } else {
      NoTransfers(cs, s);
    }
  }

  lemma NoTransfers<F, K>(cs: seq<Candidate<F, K>>, s: State<F, K>)
    ensures Transfers(cs, s.alloc, s.demands, s.alloc, s.demands)
  {
  }

  lemma TransfersCompose<F, K>(cs: seq<Candidate<F, K>>, s: State<F, K>, r: State<F, K>, t: State<F, K>)
    requires Transfers(cs, s.alloc, s.demands, r.alloc, r.demands)
             && Transfers(cs, r.alloc, r.demands, t.alloc, t.demands)
    ensures Transfers(cs, s.alloc, s.demands, t.alloc, t.demands)
  {
    hide Given, Wanted;
  }

  /** Demands that no candidate draws from stay as they are. */
  lemma RoundFrame<F, K>(cs: seq<Candidate<F, K>>, eps: real, s: State<F, K>, k: K)
    requires Active(cs, s.demands, eps) != [] && forall c :: c in cs ==> c.demand != k
    ensures Wanted(Round(cs, eps, s).demands, k) == Wanted(s.demands, k)
  {
    var qs := RoundQuotas(cs, eps, s);
    var active := Active(cs, s.demands, eps);
    forall q | q in qs ensures q.demand != k {
      var j :| 0 <= j < |qs| && qs[j] == q;
      assert active[j] in active && active[j] in cs;
    }
    assert qs[0] in qs;
    DistributeFrame(qs, Pass(s.alloc, s.demands, 0.0), qs[0].field, k);
  }

  lemma {:induction false} RoundsFrame<F, K>(n: nat, cs: seq<Candidate<F, K>>, eps: real, s: State<F, K>, k: K)
    requires forall c :: c in cs ==> c.demand != k
    ensures Wanted(Rounds(n, cs, eps, s).demands, k) == Wanted(s.demands, k)
    decreases n
  {
    hide Round, Distribute;
    if n > 0 && !Done(cs, eps, s) {
      var t := Round(cs, eps, s);
      assert Rounds(n, cs, eps, s) == Rounds(n - 1, cs, eps, t);
      RoundFrame(cs, eps, s, k);
      RoundsFrame(n - 1, cs, eps, t, k);
    }
  }

  lemma {:induction false} NothingGivenYet<F, K>(cs: seq<Candidate<F, K>>, all: seq<Candidate<F, K>>)
    requires forall c :: c in cs ==> c in all
    ensures SumGiven(cs, Fields(all)) == 0.0
    ensures forall c :: c in cs ==> Given(Fields(all), c.field) == 0.0
  {
    if cs != [] {
      assert cs[0] in all;
      NothingGivenYet(cs[1..], all);
    }
  }

  /**
    The law of the allocator, for up to six candidates with distinct keys: nothing is lost or
    made up, no demand is overdrawn, and it stops only when the total or every demand is used
    up to the cutoff, so the round limit never cuts an allocation short.
   */
  lemma AllocatorLaw<F, K>(total: real, cs: seq<Candidate<F, K>>, demands: map<K, real>, eps: real)
    requires eps >= 0.0 && Distinct(cs) && |cs| <= MAX_ROUNDS
    ensures var t := Allocate(total, cs, demands, eps);
            && t.remaining >= 0.0
            && SumGiven(cs, t.alloc) + t.remaining == Positive(total)
            && (forall c :: c in cs ==> Given(t.alloc, c.field) >= 0.0
                                        && Given(t.alloc, c.field) + Wanted(t.demands, c.demand)
                                          == Wanted(demands, c.demand))
            && (t.remaining <= eps || forall c :: c in cs ==> Wanted(t.demands, c.demand) <= eps)
  {
    hide Round;
    NothingGivenYet(cs, cs);
    ActiveFacts(cs, demands, eps);
    RoundsEffect(MAX_ROUNDS, cs, eps, State(Positive(total), Fields(cs), demands));
    ActiveFacts(cs, Allocate(total, cs, demands, eps).demands, eps);
  }

  /** `n` cutoffs. */
  ghost function Slack(n: nat, eps: real): real {
    if n == 0 then 0.0 else eps + Slack(n - 1, eps)
  }

  lemma {:induction false} SumsAgree<F, K>(cs: seq<Candidate<F, K>>, alloc: map<F, real>, before: map<K, real>,
                                           after: map<K, real>, eps: real)
    requires forall c :: c in cs ==> Given(alloc, c.field) + Wanted(after, c.demand) == Wanted(before, c.demand)
    ensures SumGiven(cs, alloc) <= SumWanted(cs, before)
    ensures (forall c :: c in cs ==> Wanted(after, c.demand) <= eps)
            ==> SumGiven(cs, alloc) >= SumWanted(cs, before) - Slack(|cs|, eps)
  {
    if cs != [] {
      SumsAgree(cs[1..], alloc, before, after, eps);
      assert cs[0] in cs;
    }
  }

  lemma SlackNonnegative(n: nat, eps: real)
    requires eps >= 0.0
    ensures Slack(n, eps) >= 0.0 && (n > 0 ==> Slack(n, eps) >= eps)
  {
  }

  /** Delivered is the smaller of supply and demand, short by at most one cutoff per candidate. */
  lemma DeliversTheMinimum<F, K>(total: real, cs: seq<Candidate<F, K>>, demands: map<K, real>, eps: real)
    requires eps >= 0.0 && Distinct(cs) && |cs| <= MAX_ROUNDS
    ensures var given := SumGiven(cs, Allocate(total, cs, demands, eps).alloc);
            var best := Min(Positive(total), SumWanted(cs, demands));
            best - Slack(|cs|, eps) <= given <= best
  {
    var t := Allocate(total, cs, demands, eps);
    AllocatorLaw(total, cs, demands, eps);
    SumsAgree(cs, t.alloc, demands, t.demands, eps);
    SlackNonnegative(|cs|, eps);
  }
}
