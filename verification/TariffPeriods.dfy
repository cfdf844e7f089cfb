/**
  Dated tariff periods and the cache behind the price of a slot. Dates are day numbers; what a
  period makes of the base tariff, and the special windows of a tariff, are left open.
 */
module TariffPeriods {
  import opened Wrappers
  import opened Sorting

  datatype Period = Period(id: string, startDate: int, endDate: int, terms: string)

  function StartDate(p: Period): int { p.startDate }
  function EndDate(p: Period): int { p.endDate }

  predicate Overlaps(p: Period, q: Period) { p.startDate <= q.endDate && q.startDate <= p.endDate }

  predicate Applies(p: Period, day: int) { p.startDate <= day <= p.endDate }

  /** Ascending and without a common day. */
  ghost predicate DisjointPeriods(ps: seq<Period>) {
    && (forall i :: 0 <= i < |ps| ==> ps[i].startDate <= ps[i].endDate)
    && (forall i, j :: 0 <= i < j < |ps| ==> ps[i].endDate < ps[j].startDate)
  }

  /** The periods kept of a sorted list: each that begins after the one kept before it has ended. */
  function Accepted(sorted: seq<Period>): seq<Period> {
    if sorted == [] then []
    else
      var period := sorted[|sorted| - 1];
      var before := Accepted(sorted[..|sorted| - 1]);
      if before != [] && period.startDate <= before[|before| - 1].endDate then before else before + [period]
  }

  /** The sanitiser's last step, over periods that are valid one by one. */
  method AcceptPeriods(periods: seq<Period>) returns (accepted: seq<Period>)
    ensures accepted == Accepted(StableSort(StableSort(periods, EndDate), StartDate))
  {
    var normalized := StableSort(StableSort(periods, EndDate), StartDate);
    accepted := AcceptSorted(normalized);
  }

  method AcceptSorted(normalized: seq<Period>) returns (accepted: seq<Period>)
    ensures accepted == Accepted(normalized)
  {
    accepted := [];
    var i := 0;
    while i < |normalized|
      invariant 0 <= i <= |normalized| && accepted == Accepted(normalized[..i])
    {
      var period := normalized[i];
      assert normalized[..i + 1][..i] == normalized[..i];
      if !(|accepted| > 0 && period.startDate <= accepted[|accepted| - 1].endDate) {
        accepted := accepted + [period];
      }
      i := i + 1;
    }
    assert normalized[..i] == normalized;
  }

  /** The period shares a day with one of the others. */
  ghost predicate Meets(p: Period, others: seq<Period>) {
    exists q :: q in others && Overlaps(p, q)
  }

  lemma AcceptedAreDisjoint(sorted: seq<Period>)
    requires SortedBy(sorted, StartDate) && forall p :: p in sorted ==> p.startDate <= p.endDate
    ensures DisjointPeriods(Accepted(sorted))
    ensures forall p :: p in Accepted(sorted) ==> p in sorted
  {
    AcceptedFromSorted(sorted);
    AcceptedHaveNoCommonDay(sorted);
  }

  lemma {:induction false} AcceptedHaveNoCommonDay(sorted: seq<Period>)
    requires SortedBy(sorted, StartDate) && forall p :: p in sorted ==> p.startDate <= p.endDate
    ensures DisjointPeriods(Accepted(sorted))
  {
    if sorted != [] {
      var init, period := sorted[..|sorted| - 1], sorted[|sorted| - 1];
      InitFacts(sorted);
      hide SortedBy, DisjointPeriods;
      AcceptedHaveNoCommonDay(init);
      var before := Accepted(init);
      if before == [] || before[|before| - 1].endDate < period.startDate { DisjointAppend(before, period); }
    }
  }

  lemma InitFacts(sorted: seq<Period>)
    requires SortedBy(sorted, StartDate) && sorted != [] && forall p :: p in sorted ==> p.startDate <= p.endDate
    ensures var init, period := sorted[..|sorted| - 1], sorted[|sorted| - 1];
            && SortedBy(init, StartDate) && (forall p :: p in init ==> p.startDate <= p.endDate)
            && period.startDate <= period.endDate
  {
    assert sorted[|sorted| - 1] in sorted;
    forall p | p in sorted[..|sorted| - 1] ensures p in sorted {}
  }

  lemma {:induction false} AcceptedFromSorted(sorted: seq<Period>)
    ensures forall p :: p in Accepted(sorted) ==> p in sorted
  {
    if sorted != [] {
      var init, period := sorted[..|sorted| - 1], sorted[|sorted| - 1];
      AcceptedFromSorted(init);
      assert sorted == init + [period];
      forall p | p in Accepted(sorted) ensures p in sorted {
        assert p in Accepted(init) || p == period;
      }
    }
  }

  lemma DisjointAppend(ps: seq<Period>, period: Period)
    requires DisjointPeriods(ps) && period.startDate <= period.endDate
    requires ps != [] ==> ps[|ps| - 1].endDate < period.startDate
    ensures DisjointPeriods(ps + [period])
  {
    var all := ps + [period];
    forall i, j | 0 <= i < j < |all| ensures all[i].endDate < all[j].startDate {
      if j == |ps| && i < |ps| - 1 { assert ps[i].endDate < ps[|ps| - 1].startDate; }
    }
  }

  /** A period is left out only where it shares a day with one that was accepted. */
  lemma {:induction false} LeftOutOnlyForOverlap(sorted: seq<Period>, p: Period)
    requires SortedBy(sorted, StartDate) && forall q :: q in sorted ==> q.startDate <= q.endDate
    requires p in sorted
    ensures p in Accepted(sorted) || Meets(p, Accepted(sorted))
  {
    var init, period := sorted[..|sorted| - 1], sorted[|sorted| - 1];
    assert sorted == init + [period];
    InitFacts(sorted);
    var before := Accepted(init);
    assert forall q :: q in before ==> q in Accepted(sorted);
    hide SortedBy, Overlaps;
    if p in init {
      LeftOutOnlyForOverlap(init, p);
    } else if before != [] && period.startDate <= before[|before| - 1].endDate {
      AcceptedAreDisjoint(init);
      LastMeets(init, period, before);
    }
  }

  lemma LastMeets(init: seq<Period>, period: Period, before: seq<Period>)
    requires SortedBy(init + [period], StartDate) && period.startDate <= period.endDate
    requires before != [] && forall p :: p in before ==> p in init
    requires period.startDate <= before[|before| - 1].endDate
    ensures Meets(period, before)
  {
    var last := before[|before| - 1];
    assert last in before;
    BeginsBefore(init, period, last);
    assert Overlaps(period, last);
  }

  lemma BeginsBefore(init: seq<Period>, period: Period, p: Period)
    requires SortedBy(init + [period], StartDate) && p in init
    ensures p.startDate <= period.startDate
  {
    var i :| 0 <= i < |init| && init[i] == p;
    var all := init + [period];
    assert StartDate(all[i]) <= StartDate(all[|init|]);
  }

  /** The first period that applies on a day. */
  function FindPeriod(ps: seq<Period>, day: int, from: nat): (r: Option<nat>)
    requires from <= |ps|
    ensures r.Some? ==>
              from <= r.value < |ps| && Applies(ps[r.value], day)
              && forall i :: from <= i < r.value ==> !Applies(ps[i], day)
    ensures r.None? ==> forall i :: from <= i < |ps| ==> !Applies(ps[i], day)
    decreases |ps| - from
  {
    if from == |ps| then None else if Applies(ps[from], day) then Some(from) else FindPeriod(ps, day, from + 1)
  }

  /** Of accepted periods at most one applies on a day, so the first is the only one. */
  lemma OnlyPeriodOfTheDay(ps: seq<Period>, day: int, i: nat)
    requires DisjointPeriods(ps) && i < |ps|
    ensures Applies(ps[i], day) <==> FindPeriod(ps, day, 0) == Some(i)
  {
    var r := FindPeriod(ps, day, 0);
    if r.Some? && Applies(ps[i], day) {
      assert !(r.value < i) && !(i < r.value);
    }
  }

  ghost predicate FirstThatApplies(ps: seq<Period>, i: nat, day: Option<int>)
    requires i < |ps|
  {
    day.Some? && Applies(ps[i], day.value) && forall j :: 0 <= j < i ==> !Applies(ps[j], day.value)
  }

  // ---- The cache -------------------------------------------------------------------------

  /** How tariffs come about: the base tariff, the merge with a period, and a tariff's windows. */
  datatype Making<!T, W> = Making(base: T, merge: (T, Period) -> T, windows: T -> W)

  /** The tariff objects that can be in force, told apart by where they come from. */
  datatype Source = Base | OfPeriod(index: nat)

  function SourceOf(ps: seq<Period>, day: Option<int>): Source {
    if day.None? then Base
    else match FindPeriod(ps, day.value, 0) case None => Base case Some(i) => OfPeriod(i)
  }

  function Effective<T, W>(ps: seq<Period>, how: Making<T, W>, source: Source): T {
    if source.OfPeriod? && source.index < |ps| then how.merge(how.base, ps[source.index]) else how.base
  }

  class PricingCache<T, W> {
    const periods: seq<Period>
    const how: Making<T, W>
    var base: Option<T>
    var byPeriod: map<nat, T>
    var windows: map<Source, W>

    constructor (periods: seq<Period>, how: Making<T, W>)
      ensures this.periods == periods && this.how == how && Valid()
    {
      this.periods, this.how := periods, how;
      base, byPeriod, windows := None, map[], map[];
    }

    /** Whatever is stored is what a computation from scratch would give. */
    ghost predicate Valid()
      reads this
    {
      && (base.Some? ==> base.value == how.base)
      && (forall i :: i in byPeriod ==> i < |periods| && byPeriod[i] == Effective(periods, how, OfPeriod(i)))
      && (forall s :: s in windows ==> windows[s] == how.windows(Effective(periods, how, s)))
    }

    method EffectivePricing(day: Option<int>) returns (source: Source, pricing: T)
      requires Valid()
      modifies this
      ensures Valid() && source == SourceOf(periods, day) && pricing == Effective(periods, how, source)
    {
      source := SourceOf(periods, day);
      if source.Base? {
        if base.None? { base := Some(how.base); }
        pricing := base.value;
      } else if source.index in byPeriod {
        pricing := byPeriod[source.index];
      } else {
        pricing := how.merge(how.base, periods[source.index]);
        byPeriod := byPeriod[source.index := pricing];
      }
    }

    method Module3Windows(source: Source, pricing: T) returns (w: W)
      requires Valid() && pricing == Effective(periods, how, source)
      modifies this
      ensures Valid() && w == how.windows(pricing)
    {
      if source in windows {
        w := windows[source];
      } else {
        w := how.windows(pricing);
        windows := windows[source := w];
      }
    }

    /**
      The slot price from the cached parts equals the one computed afresh, however often and in
      whatever order it is asked for: from the base tariff if no period applies, else from the base
      tariff merged with the first period that does.
     */
    method SlotPrice<P>(day: Option<int>, price: (T, W) -> P) returns (p: P)
      requires Valid()
      modifies this
      ensures Valid()
      ensures day.None? || (forall i :: 0 <= i < |periods| ==> !Applies(periods[i], day.value)) ==>
                p == price(how.base, how.windows(how.base))
      ensures forall i :: 0 <= i < |periods| && FirstThatApplies(periods, i, day) ==>
                var tariff := how.merge(how.base, periods[i]); p == price(tariff, how.windows(tariff))
    {
      var source, pricing := EffectivePricing(day);
      var w := Module3Windows(source, pricing);
      p := price(pricing, w);
    }
  }
}
