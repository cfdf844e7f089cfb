/**
  Cutting imported samples into 15-minute slots.

  A sample holds from its timestamp until the next sample or the end of its resolution. Each
  slot it touches receives its share: power samples the watt-seconds, energy samples the part
  of the energy that matches the time in the slot. Times are integers in milliseconds.
 */
module SlotCutting {
  import opened Wrappers
  import opened Integers
  import opened Sorting

  const DAY_SECONDS := 86400
  const HOUR_MS := 3600000

  datatype Sample = Sample(ts: int, value: real)

  function Ts(x: Sample): int { x.ts }

  /** The kind of a series (venus, consumption, kwh, ...) and its code. */
  datatype Series = Series(kind: string, code: string)

  datatype Mode = Power | Energy | Unused

  datatype Aggregate = Aggregate(sampleCount: nat, coverageSeconds: real, weightedValueSeconds: real,
                                 totalEnergyKwh: real)

  const EMPTY := Aggregate(0, 0.0, 0.0, 0.0)

  function VrmAggregateMode(series: Series): Mode {
    if series.kind == "venus" && series.code != "tsT" then Power
    else if series.kind == "consumption" || series.kind == "kwh" then Energy
    else Unused
  }

  /** How the samples of one series are cut. */
  datatype Cut = Cut(slotMs: int, sourceSeconds: nat, rangeEnd: Option<int>)

  /** End of a sample: its resolution, or the next sample on a day of 23 or 25 hours. */
  function SampleSpanEnd(start: int, seconds: nat, next: Option<int>): int {
    var end := start + seconds * 1000;
    if seconds >= DAY_SECONDS && next.Some? && next.value > start && Abs(next.value - end) <= HOUR_MS
    then next.value
    else end
  }

  function NextTs(s: seq<Sample>, i: nat): Option<int> {
    if i + 1 < |s| then Some(s[i + 1].ts) else None
  }

  /** The sample's own end: the next sample or the end of its resolution. */
  function OwnEnd(s: seq<Sample>, i: nat, cut: Cut): int
    requires i < |s|
  {
    var end := SampleSpanEnd(s[i].ts, Max(1, cut.sourceSeconds), NextTs(s, i));
    if i + 1 < |s| then Min(s[i + 1].ts, end) else end
  }

  /** The end of what lands in slots: the own end, cut off at the end of the import range. */
  function KeptEnd(s: seq<Sample>, i: nat, cut: Cut): int
    requires i < |s|
  {
    if cut.rangeEnd.Some? then Min(OwnEnd(s, i, cut), cut.rangeEnd.value) else OwnEnd(s, i, cut)
  }

  /** Length of the part of [a, b) inside [lo, hi). */
  function Overlap(a: int, b: int, lo: int, hi: int): int {
    Max(0, Min(b, hi) - Max(a, lo))
  }

  /** Milliseconds of sample `i` inside slot `k`. */
  function Part(s: seq<Sample>, i: nat, cut: Cut, k: int): int
    requires i < |s|
  {
    Overlap(s[i].ts, KeptEnd(s, i, cut), k * cut.slotMs, (k + 1) * cut.slotMs)
  }

  function Accumulate(a: Aggregate, mode: Mode, value: real, durationMs: int, spanMs: int): Aggregate
    requires durationMs > 0 && spanMs != 0
  {
    var seconds := durationMs as real / 1000.0;
    if mode.Unused? then a
    else if mode.Power? then
      Aggregate(a.sampleCount + 1, a.coverageSeconds + seconds, a.weightedValueSeconds + value * seconds,
                a.totalEnergyKwh)
    else
      Aggregate(a.sampleCount + 1, a.coverageSeconds + seconds, a.weightedValueSeconds,
                a.totalEnergyKwh + value * (durationMs as real / spanMs as real))
  }

  /** Slot `k`'s aggregate once sample `i` is added. */
  function WithPart(before: Option<Aggregate>, mode: Mode, s: seq<Sample>, i: nat, cut: Cut, k: int): Option<Aggregate>
    requires i < |s|
  {
    var part := Part(s, i, cut, k);
    if part > 0
    then Some(Accumulate(before.GetOr(EMPTY), mode, s[i].value, part, OwnEnd(s, i, cut) - s[i].ts))
    else before
  }

  /** Slot `k`'s aggregate after the first `n` samples. */
  function AfterSamples(start: Option<Aggregate>, mode: Mode, s: seq<Sample>, n: nat, cut: Cut,
                        k: int): Option<Aggregate>
    requires n <= |s|
  {
    if n == 0 then start else WithPart(AfterSamples(start, mode, s, n - 1, cut, k), mode, s, n - 1, cut, k)
  }

  lemma SlotsOrdered(a: int, b: int, slotMs: int)
    requires a <= b && slotMs > 0
    ensures a * slotMs <= b * slotMs
  {
  }

  lemma SlotHolds(t: int, slotMs: int)
    requires slotMs > 0
    ensures (t / slotMs) * slotMs <= t < (t / slotMs + 1) * slotMs
    ensures ((t / slotMs + 1) * slotMs) / slotMs == t / slotMs + 1
  {
    InSlot(t, slotMs);
    var q := t / slotMs + 1;
    InSlot(q * slotMs, slotMs);
    OneSlot(q * slotMs, slotMs, q, (q * slotMs) / slotMs);
  }

  lemma InSlot(t: int, slotMs: int)
    requires slotMs > 0
    ensures (t / slotMs) * slotMs <= t < (t / slotMs + 1) * slotMs
  {
    assert t == (t / slotMs) * slotMs + t % slotMs;
  }

  /** An instant lies in one slot only. */
  lemma OneSlot(t: int, slotMs: int, a: int, b: int)
    requires slotMs > 0 && a * slotMs <= t < (a + 1) * slotMs && b * slotMs <= t < (b + 1) * slotMs
    ensures a == b
  {
    if a < b { SlotsOrdered(a + 1, b, slotMs); }
    if b < a { SlotsOrdered(b + 1, a, slotMs); }
  }

  lemma PartBefore(s: seq<Sample>, i: nat, cut: Cut, k: int)
    requires i < |s| && cut.slotMs > 0 && k < s[i].ts / cut.slotMs
    ensures Part(s, i, cut, k) == 0
  {
    SlotHolds(s[i].ts, cut.slotMs);
    SlotsOrdered(k + 1, s[i].ts / cut.slotMs, cut.slotMs);
  }

  lemma PartAfter(s: seq<Sample>, i: nat, cut: Cut, next: int, k: int)
    requires i < |s| && cut.slotMs > 0 && k >= next
    requires KeptEnd(s, i, cut) <= s[i].ts || KeptEnd(s, i, cut) <= next * cut.slotMs
    ensures Part(s, i, cut, k) == 0
  {
    SlotsOrdered(next, k, cut.slotMs);
  }

  class SlotBuckets {
    var aggregates: map<(int, Series), Aggregate>

    constructor ()
      ensures aggregates == map[]
    {
      aggregates := map[];
    }

    function At(k: int, series: Series): Option<Aggregate>
      reads this
    {
      if (k, series) in aggregates then Some(aggregates[(k, series)]) else None
    }

    /** One sample: walks from slot to slot until the sample's kept end. */
    method AddSample(series: Series, s: seq<Sample>, i: nat, cut: Cut)
      requires i < |s| && cut.slotMs > 0
      modifies this
      ensures forall k, other :: other != series ==> At(k, other) == old(At(k, other))
      ensures forall k :: At(k, series) == WithPart(old(At(k, series)), VrmAggregateMode(series), s, i, cut, k)
    {
      var currentMs := s[i].ts;
      var boundedEndMs := KeptEnd(s, i, cut);
      var sampleSpanMs := OwnEnd(s, i, cut) - currentMs;
      var segmentStartMs := currentMs;
      ghost var next := currentMs / cut.slotMs;
      forall k | k < next ensures Part(s, i, cut, k) == 0 { PartBefore(s, i, cut, k); }
      while segmentStartMs < boundedEndMs
        invariant segmentStartMs < boundedEndMs ==> currentMs <= segmentStartMs == Max(currentMs, next * cut.slotMs)
        invariant segmentStartMs < boundedEndMs ==> segmentStartMs / cut.slotMs == next
        invariant segmentStartMs >= boundedEndMs ==> boundedEndMs <= currentMs || boundedEndMs <= next * cut.slotMs
        invariant forall k, other :: other != series ==> At(k, other) == old(At(k, other))
        invariant forall k :: At(k, series) ==
                    if k < next then WithPart(old(At(k, series)), VrmAggregateMode(series), s, i, cut, k)
                    else old(At(k, series))
        decreases boundedEndMs - segmentStartMs
      {
        var slot := segmentStartMs / cut.slotMs;
        var slotEndMs := (slot + 1) * cut.slotMs;
        SlotHolds(segmentStartMs, cut.slotMs);
        var segmentEndMs := Min(slotEndMs, boundedEndMs);
        var duration := segmentEndMs - segmentStartMs;
        assert duration == Part(s, i, cut, slot);
        if duration > 0 {
          var before := if (slot, series) in aggregates then aggregates[(slot, series)] else EMPTY;
          aggregates := aggregates[(slot, series) :=
                                     Accumulate(before, VrmAggregateMode(series), s[i].value, duration, sampleSpanMs)];
        }
        segmentStartMs := segmentEndMs;
        next := slot + 1;
      }
      forall k | k >= next ensures Part(s, i, cut, k) == 0 { PartAfter(s, i, cut, next, k); }
    }

    method AddVrmValuesToSlotBuckets(series: Series, values: seq<Sample>, cut: Cut)
      requires cut.slotMs > 0
      modifies this
      ensures forall k, other :: other != series ==> At(k, other) == old(At(k, other))
      ensures var s := StableSort(values, Ts);
              forall k :: At(k, series) == AfterSamples(old(At(k, series)), VrmAggregateMode(series), s, |s|, cut, k)
    {
      hide WithPart, StableSort;
      var s := StableSort(values, Ts);
      var i := 0;
      while i < |s|
        invariant 0 <= i <= |s|
        invariant forall k, other :: other != series ==> At(k, other) == old(At(k, other))
        invariant forall k :: At(k, series) == AfterSamples(old(At(k, series)), VrmAggregateMode(series), s, i, cut, k)
      {
        AddSample(series, s, i, cut);
        i := i + 1;
      }
    }
  }

  // ---- Conservation --------------------------------------------------------------------

  /** What the slot aggregate adds up for this mode: watt-seconds or energy. */
  function Total(a: Option<Aggregate>, mode: Mode): real {
    match a
    case None => 0.0
    case Some(x) => if mode.Power? then x.weightedValueSeconds else x.totalEnergyKwh
  }

  function Coverage(a: Option<Aggregate>): real {
    a.GetOr(EMPTY).coverageSeconds
  }

  /** Time unit of a sample: a second for power, its own length for energy. */
  function UnitMs(mode: Mode, s: seq<Sample>, i: nat, cut: Cut): int
    requires i < |s|
  {
    if mode.Power? then 1000 else OwnEnd(s, i, cut) - s[i].ts
  }

  /** `ms` milliseconds of sample `i`, as watt-seconds or energy. */
  function Yield(mode: Mode, s: seq<Sample>, i: nat, cut: Cut, ms: int): real
    requires i < |s|
  {
    if ms > 0 && UnitMs(mode, s, i, cut) > 0 && !mode.Unused?
    then s[i].value * (ms as real / UnitMs(mode, s, i, cut) as real)
    else 0.0
  }

  /** Milliseconds of sample `i` before the end of the import range. */
  function KeptMs(s: seq<Sample>, i: nat, cut: Cut): int
    requires i < |s|
  {
    Max(0, KeptEnd(s, i, cut) - s[i].ts)
  }

  /** The independent total: each sample's value times the share of it that is kept. */
  ghost function SampleTotal(mode: Mode, s: seq<Sample>, n: nat, cut: Cut): real
    requires n <= |s|
  {
    if n == 0 then 0.0 else SampleTotal(mode, s, n - 1, cut) + Yield(mode, s, n - 1, cut, KeptMs(s, n - 1, cut))
  }

  /** What the first `n` samples add to slots lo..hi together. */
  ghost function SlotTotal(start: int -> Option<Aggregate>, mode: Mode, s: seq<Sample>, n: nat, cut: Cut, lo: int,
                           hi: int): real
    requires n <= |s| && lo <= hi
    decreases hi - lo
  {
    if lo == hi then 0.0
    else SlotTotal(start, mode, s, n, cut, lo, hi - 1)
         + Total(AfterSamples(start(hi - 1), mode, s, n, cut, hi - 1), mode) - Total(start(hi - 1), mode)
  }

  ghost function PartTotal(s: seq<Sample>, i: nat, cut: Cut, lo: int, hi: int): int
    requires i < |s| && lo <= hi
    decreases hi - lo
  {
    if lo == hi then 0 else PartTotal(s, i, cut, lo, hi - 1) + Part(s, i, cut, hi - 1)
  }

  ghost function YieldTotal(mode: Mode, s: seq<Sample>, i: nat, cut: Cut, lo: int, hi: int): real
    requires i < |s| && lo <= hi
    decreases hi - lo
  {
    if lo == hi then 0.0 else YieldTotal(mode, s, i, cut, lo, hi - 1) + Yield(mode, s, i, cut, Part(s, i, cut, hi - 1))
  }

  lemma UnitPositive(mode: Mode, s: seq<Sample>, i: nat, cut: Cut, k: int)
    requires i < |s| && Part(s, i, cut, k) > 0
    ensures UnitMs(mode, s, i, cut) > 0 && OwnEnd(s, i, cut) > s[i].ts
  {
  }

  /** One sample adds its yield for the part in the slot. */
  lemma PartYields(before: Option<Aggregate>, mode: Mode, s: seq<Sample>, i: nat, cut: Cut, k: int)
    requires i < |s|
    ensures Total(WithPart(before, mode, s, i, cut, k), mode)
            == Total(before, mode) + Yield(mode, s, i, cut, Part(s, i, cut, k))
  {
    hide Part, OwnEnd, KeptEnd;
    if Part(s, i, cut, k) > 0 {
      UnitPositive(mode, s, i, cut, k);
    }
  }

  lemma {:induction false} OneMoreSample(start: int -> Option<Aggregate>, mode: Mode, s: seq<Sample>, n: nat, cut: Cut,
                                         lo: int, hi: int)
    requires n < |s| && lo <= hi
    ensures SlotTotal(start, mode, s, n + 1, cut, lo, hi)
            == SlotTotal(start, mode, s, n, cut, lo, hi) + YieldTotal(mode, s, n, cut, lo, hi)
    decreases hi - lo
  {
    if lo < hi {
      OneMoreSample(start, mode, s, n, cut, lo, hi - 1);
      PartYields(AfterSamples(start(hi - 1), mode, s, n, cut, hi - 1), mode, s, n, cut, hi - 1);
    }
  }

  /** The slots lo..hi together see exactly the part of a sample between their ends. */
  lemma {:induction false} PartsAddUp(s: seq<Sample>, i: nat, cut: Cut, lo: int, hi: int)
    requires i < |s| && lo <= hi && cut.slotMs > 0
    ensures PartTotal(s, i, cut, lo, hi) == Overlap(s[i].ts, KeptEnd(s, i, cut), lo * cut.slotMs, hi * cut.slotMs)
    decreases hi - lo
  {
    if lo < hi {
      PartsAddUp(s, i, cut, lo, hi - 1);
      SlotsOrdered(lo, hi - 1, cut.slotMs);
      assert hi * cut.slotMs == (hi - 1) * cut.slotMs + cut.slotMs;
      assert (hi - 1 + 1) * cut.slotMs == hi * cut.slotMs;
    }
  }

  lemma YieldsAdd(mode: Mode, s: seq<Sample>, i: nat, cut: Cut, x: int, y: int)
    requires i < |s| && x >= 0 && y >= 0
    ensures Yield(mode, s, i, cut, x) + Yield(mode, s, i, cut, y) == Yield(mode, s, i, cut, x + y)
  {
    var u := UnitMs(mode, s, i, cut);
    if u > 0 {
      SharesAdd(s[i].value, x as real, y as real, u as real);
    }
  }

  lemma SharesAdd(v: real, x: real, y: real, u: real)
    requires u > 0.0
    ensures v * (x / u) + v * (y / u) == v * ((x + y) / u)
  {
    var p, q := x / u, y / u;
    assert p * u == x && q * u == y;
    assert (p + q) * u == x + y;
    assert (x + y) / u == p + q;
    assert v * (p + q) == v * p + v * q;
  }

  lemma {:induction false} YieldsAddUp(mode: Mode, s: seq<Sample>, i: nat, cut: Cut, lo: int, hi: int)
    requires i < |s| && lo <= hi
    ensures PartTotal(s, i, cut, lo, hi) >= 0
    ensures YieldTotal(mode, s, i, cut, lo, hi) == Yield(mode, s, i, cut, PartTotal(s, i, cut, lo, hi))
    decreases hi - lo
  {
    if lo < hi {
      YieldsAddUp(mode, s, i, cut, lo, hi - 1);
      YieldsAdd(mode, s, i, cut, PartTotal(s, i, cut, lo, hi - 1), Part(s, i, cut, hi - 1));
    }
  }

  lemma SampleSpreads(mode: Mode, s: seq<Sample>, i: nat, cut: Cut, lo: int, hi: int)
    requires i < |s| && lo <= hi && cut.slotMs > 0
    requires lo * cut.slotMs <= s[i].ts && KeptEnd(s, i, cut) <= hi * cut.slotMs
    ensures YieldTotal(mode, s, i, cut, lo, hi) == Yield(mode, s, i, cut, KeptMs(s, i, cut))
  {
    hide Yield, YieldTotal, PartTotal;
    YieldsAddUp(mode, s, i, cut, lo, hi);
    PartsAddUp(s, i, cut, lo, hi);
  }

  /**
    Conservation: over any range of slots that contains the samples, what the slots gain is the
    sum of the samples' values, each times the share of it that lies before the range end.
   */
  lemma {:induction false} SlotsConserveSamples(start: int -> Option<Aggregate>, mode: Mode, s: seq<Sample>, n: nat,
                                                cut: Cut, lo: int, hi: int)
    requires n <= |s| && lo <= hi && cut.slotMs > 0
    requires forall i :: 0 <= i < n ==> lo * cut.slotMs <= s[i].ts && KeptEnd(s, i, cut) <= hi * cut.slotMs
    ensures SlotTotal(start, mode, s, n, cut, lo, hi) == SampleTotal(mode, s, n, cut)
    decreases n
  {
    hide Yield, KeptMs, YieldTotal, SlotTotal;
    if n == 0 {
      NoSamplesNoGain(start, mode, s, cut, lo, hi);
    } else {
      SlotsConserveSamples(start, mode, s, n - 1, cut, lo, hi);
      OneMoreSample(start, mode, s, n - 1, cut, lo, hi);
      SampleSpreads(mode, s, n - 1, cut, lo, hi);
    }
  }

  lemma {:induction false} NoSamplesNoGain(start: int -> Option<Aggregate>, mode: Mode, s: seq<Sample>, cut: Cut,
                                           lo: int, hi: int)
    requires lo <= hi
    ensures SlotTotal(start, mode, s, 0, cut, lo, hi) == 0.0
    decreases hi - lo
  {
    if lo < hi {
      NoSamplesNoGain(start, mode, s, cut, lo, hi - 1);
    }
  }

  lemma WholeYield(v: real, span: int)
    requires span > 0
    ensures v * (span as real / span as real) == v
  {
    assert span as real / span as real == 1.0;
  }

  /** A sample is kept in full exactly when the import range does not end inside it. */
  lemma FullShareIffUnclipped(s: seq<Sample>, i: nat, cut: Cut)
    requires i < |s| && (i + 1 < |s| ==> s[i].ts < s[i + 1].ts)
    ensures OwnEnd(s, i, cut) > s[i].ts
    ensures Yield(Energy, s, i, cut, OwnEnd(s, i, cut) - s[i].ts) == s[i].value
    ensures KeptMs(s, i, cut) == OwnEnd(s, i, cut) - s[i].ts
            <==> cut.rangeEnd.None? || cut.rangeEnd.value >= OwnEnd(s, i, cut)
  {
    var span := OwnEnd(s, i, cut) - s[i].ts;
    assert span > 0;
    WholeYield(s[i].value, span);
  }

  /** A sample that shares its timestamp with the next one is lost. */
  lemma RepeatedTimestampLosesSample(mode: Mode, s: seq<Sample>, i: nat, cut: Cut)
    requires i + 1 < |s| && s[i].ts == s[i + 1].ts
    ensures Yield(mode, s, i, cut, KeptMs(s, i, cut)) == 0.0
  {
  }

  lemma PartialYield(v: real, ms: int, span: int)
    requires v != 0.0 && 0 < ms < span
    ensures v * (ms as real / span as real) != v
  {
    var share := ms as real / span as real;
    assert share * span as real == ms as real;
    assert share < 1.0;
    assert v * (1.0 - share) != 0.0;
  }

  /** Nothing of the sample can get lost: it ends before the next one begins, and within the import range. */
  predicate Whole(s: seq<Sample>, i: nat, cut: Cut)
    requires i < |s|
  {
    (i + 1 < |s| ==> s[i].ts < s[i + 1].ts) && (cut.rangeEnd.None? || cut.rangeEnd.value >= OwnEnd(s, i, cut))
  }

  /** Exactly when the slots get a sample's energy in full. */
  lemma ValueKeptIffWhole(s: seq<Sample>, i: nat, cut: Cut)
    requires i < |s| && SortedBy(s, Ts)
    ensures Yield(Energy, s, i, cut, KeptMs(s, i, cut)) == s[i].value <==> s[i].value == 0.0 || Whole(s, i, cut)
  {
    var span, ms := OwnEnd(s, i, cut) - s[i].ts, KeptMs(s, i, cut);
    if i + 1 < |s| && s[i].ts >= s[i + 1].ts {
      assert Ts(s[i]) <= Ts(s[i + 1]);
      RepeatedTimestampLosesSample(Energy, s, i, cut);
    } else {
      FullShareIffUnclipped(s, i, cut);
      hide OwnEnd, KeptEnd;
      assert ms <= span;
      if s[i].value != 0.0 && 0 < ms < span { PartialYield(s[i].value, ms, span); }
    }
  }

  ghost function PlainTotal(s: seq<Sample>, n: nat): real
    requires n <= |s|
  {
    if n == 0 then 0.0 else PlainTotal(s, n - 1) + s[n - 1].value
  }

  /** If each sample that carries energy is whole, the slots hold the imported energy in full. */
  lemma {:induction false} UnclippedEnergyIsConserved(s: seq<Sample>, n: nat, cut: Cut)
    requires n <= |s| && SortedBy(s, Ts) && forall i :: 0 <= i < n ==> s[i].value == 0.0 || Whole(s, i, cut)
    ensures SampleTotal(Energy, s, n, cut) == PlainTotal(s, n)
  {
    if n > 0 {
      UnclippedEnergyIsConserved(s, n - 1, cut);
      ValueKeptIffWhole(s, n - 1, cut);
    }
  }

  // ---- Counts and coverage -----------------------------------------------------------------

  /** How many of the first `n` samples reach into slot `k`. */
  ghost function Reaching(s: seq<Sample>, n: nat, cut: Cut, k: int): nat
    requires n <= |s|
  {
    if n == 0 then 0 else Reaching(s, n - 1, cut, k) + if Part(s, n - 1, cut, k) > 0 then 1 else 0
  }

  /** Milliseconds of the first `n` samples in slot `k`. */
  ghost function TimeIn(s: seq<Sample>, n: nat, cut: Cut, k: int): int
    requires n <= |s|
  {
    if n == 0 then 0 else TimeIn(s, n - 1, cut, k) + Part(s, n - 1, cut, k)
  }

  /** A slot counts the samples that reach into it and covers exactly their time; no sample, no entry. */
  lemma {:induction false} CountsAndCovers(start: Option<Aggregate>, mode: Mode, s: seq<Sample>, n: nat, cut: Cut,
                                           k: int)
    requires n <= |s| && !mode.Unused?
    ensures var a := AfterSamples(start, mode, s, n, cut, k);
            && a.GetOr(EMPTY).sampleCount == start.GetOr(EMPTY).sampleCount + Reaching(s, n, cut, k)
            && Coverage(a) == Coverage(start) + TimeIn(s, n, cut, k) as real / 1000.0
            && (a.None? <==> start.None? && Reaching(s, n, cut, k) == 0)
  {
    hide Part, OwnEnd, KeptEnd;
    if n > 0 {
      CountsAndCovers(start, mode, s, n - 1, cut, k);
      PartNonnegative(s, n - 1, cut, k);
    }
  }

  lemma PartNonnegative(s: seq<Sample>, i: nat, cut: Cut, k: int)
    requires i < |s|
    ensures Part(s, i, cut, k) >= 0 && (Part(s, i, cut, k) > 0 ==> OwnEnd(s, i, cut) != s[i].ts)
  {
  }

  /**
    A sample ends after its resolution, of at least a second, or with the next sample if that comes
    first. Daily samples also last to a next sample up to an hour late, on a day of 25 hours.
   */
  lemma SampleEnds(s: seq<Sample>, i: nat, cut: Cut)
    requires i < |s|
    ensures var span := 1000 * if cut.sourceSeconds == 0 then 1 else cut.sourceSeconds;
            var d := OwnEnd(s, i, cut) - s[i].ts;
            if i + 1 == |s| then d == span
            else
              var next := s[i + 1].ts - s[i].ts;
              if next <= span then d == next
              else if span >= 86_400_000 && next <= span + 3_600_000 then d == next
              else d == span
  {
  }

  /** Power readings are averaged over time, consumption and meter energies are added up, the rest is not cut. */
  lemma ModeOfSeries(code: string)
    ensures VrmAggregateMode(Series("consumption", code)) == VrmAggregateMode(Series("kwh", code)) == Energy
    ensures VrmAggregateMode(Series("venus", code)) == if code == "tsT" then Unused else Power
    ensures forall kind :: kind !in {"venus", "consumption", "kwh"} ==> VrmAggregateMode(Series(kind, code)) == Unused
  {
  }

  /** What the first `n` samples add to a slot's coverage stays below the time from slot start to `x`. */
  lemma {:induction false} CoverageBelow(start: Option<Aggregate>, mode: Mode, s: seq<Sample>, n: nat, cut: Cut, k: int,
                                         x: int)
    requires SortedBy(s, Ts) && 0 < n <= |s| && cut.slotMs > 0
    requires x >= s[n - 1].ts && x >= KeptEnd(s, n - 1, cut)
    ensures Coverage(AfterSamples(start, mode, s, n, cut, k)) - Coverage(start)
            <= Max(0, Min(x, (k + 1) * cut.slotMs) - k * cut.slotMs) as real / 1000.0
  {
    var part := Part(s, n - 1, cut, k);
    if n > 1 {
      assert Ts(s[n - 2]) <= Ts(s[n - 1]);
      CoverageBelow(start, mode, s, n - 1, cut, k, s[n - 1].ts);
    }
  }

  /** No series covers a slot for longer than the slot lasts. */
  lemma CoverageWithinSlot(mode: Mode, s: seq<Sample>, n: nat, cut: Cut, k: int)
    requires SortedBy(s, Ts) && n <= |s| && cut.slotMs > 0
    ensures Coverage(AfterSamples(None, mode, s, n, cut, k)) <= cut.slotMs as real / 1000.0
  {
    if n > 0 {
      CoverageBelow(None, mode, s, n, cut, k, Max(s[n - 1].ts, KeptEnd(s, n - 1, cut)));
      assert (k + 1) * cut.slotMs == k * cut.slotMs + cut.slotMs;
    }
  }
}
