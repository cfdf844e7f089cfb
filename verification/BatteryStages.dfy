/**
  Dated battery stages: the capacity of a day is that of the latest stage begun by then; before
  the first stage its capacity holds backwards. Dates are day numbers.
 */
module BatteryStages {
  import opened Wrappers
  import opened Sorting

  datatype Stage = Stage(id: string, startDate: int, capacityWh: real)

  function StartDate(s: Stage): int { s.startDate }

  ghost predicate Increasing(stages: seq<Stage>) {
    forall i, j :: 0 <= i < j < |stages| ==> stages[i].startDate < stages[j].startDate
  }

  // ---- What counts on a day, over stages in any order ------------------------------------

  /** On this day `s` goes before `t`: a begun stage before one yet to come, then the nearer one. */
  predicate Beats(s: Stage, t: Stage, day: int) {
    if s.startDate <= day then t.startDate > day || t.startDate < s.startDate
    else t.startDate > s.startDate
  }

  function Better(s: Stage, t: Stage, day: int): Stage { if Beats(t, s, day) then t else s }

  /** The stage nothing beats, and of several with its date the first. */
  function Best(stages: seq<Stage>, day: int): (s: Stage)
    requires stages != []
    ensures s in stages && forall t :: t in stages ==> !Beats(t, s, day)
  {
    if |stages| == 1 then stages[0]
    else
      assert stages == [stages[0]] + stages[1..];
      Better(stages[0], Best(stages[1..], day), day)
  }

  lemma BetterCommutes(a: Stage, b: Stage, c: Stage, day: int)
    requires a.startDate != b.startDate
    ensures Better(a, Better(b, c, day), day) == Better(b, Better(a, c, day), day)
  {
  }

  lemma {:induction false} BestOfInsert(x: Stage, s: seq<Stage>, day: int)
    ensures Best(Insert(x, s, StartDate), day) == Best([x] + s, day)
  {
    hide Beats, Better;
    assert ([x] + s)[1..] == s;
    if s != [] && x.startDate > s[0].startDate {
      var rest := Insert(x, s[1..], StartDate);
      assert Insert(x, s, StartDate) == [s[0]] + rest;
      assert ([s[0]] + rest)[1..] == rest && ([x] + s[1..])[1..] == s[1..];
      BestOfInsert(x, s[1..], day);
      if |s| > 1 { BetterCommutes(x, s[0], Best(s[1..], day), day); }
      else { BetterOfTwo(x, s[0], day); }
    }
  }

  lemma BetterOfTwo(a: Stage, b: Stage, day: int)
    requires a.startDate != b.startDate
    ensures Better(a, b, day) == Better(b, a, day)
  {
  }

  lemma {:induction false} BestOfSorted(s: seq<Stage>, day: int)
    requires s != []
    ensures Best(StableSort(s, StartDate), day) == Best(s, day)
  {
    if |s| == 1 {
      assert StableSort(s[1..], StartDate) == [];
    } else {
      var rest := StableSort(s[1..], StartDate);
      BestOfSorted(s[1..], day);
      BestOfInsert(s[0], rest, day);
      assert ([s[0]] + rest)[1..] == rest;
    }
  }

  lemma {:induction false} BestOfAppend(s: seq<Stage>, x: Stage, day: int)
    requires s != []
    ensures Best(s + [x], day) == Better(Best(s, day), x, day)
  {
    if |s| == 1 {
      assert (s + [x])[1..] == [x];
    } else {
      BestOfAppend(s[1..], x, day);
      assert (s + [x])[1..] == s[1..] + [x];
    }
  }

  // ---- Sanitising and lookup -------------------------------------------------------------

  /** Keeps the first stage of each date. */
  function Distinct(sorted: seq<Stage>): seq<Stage> {
    if sorted == [] then []
    else
      var init, last := sorted[..|sorted| - 1], sorted[|sorted| - 1];
      var before := Distinct(init);
      if before != [] && before[|before| - 1].startDate == last.startDate then before else before + [last]
  }

  /** The list as it is kept, over stages that are valid one by one. */
  method SanitizeBatteryStages(stages: seq<Stage>) returns (accepted: seq<Stage>)
    ensures accepted == Distinct(StableSort(stages, StartDate))
    ensures Increasing(accepted)
  {
    var normalized := StableSort(stages, StartDate);
    accepted := DropDuplicates(normalized);
    SanitizedIncreases(normalized);
  }

  method DropDuplicates(normalized: seq<Stage>) returns (accepted: seq<Stage>)
    ensures accepted == Distinct(normalized)
  {
    accepted := [];
    var i := 0;
    while i < |normalized|
      invariant 0 <= i <= |normalized| && accepted == Distinct(normalized[..i])
    {
      assert normalized[..i + 1][..i] == normalized[..i];
      if !(|accepted| > 0 && accepted[|accepted| - 1].startDate == normalized[i].startDate) {
        accepted := accepted + [normalized[i]];
      }
      i := i + 1;
    }
    assert normalized[..i] == normalized;
  }

  /** Sanitised stages rise strictly in date, end on the last date, and hold nothing new. */
  lemma {:induction false} SanitizedIncreases(sorted: seq<Stage>)
    requires SortedBy(sorted, StartDate)
    ensures Increasing(Distinct(sorted))
    ensures forall s :: s in Distinct(sorted) ==> s in sorted
    ensures sorted != [] ==> Distinct(sorted) != []
                             && Distinct(sorted)[|Distinct(sorted)| - 1].startDate == sorted[|sorted| - 1].startDate
  {
    if sorted != [] {
      var init, last := sorted[..|sorted| - 1], sorted[|sorted| - 1];
      SanitizedIncreases(init);
      if init != [] { assert StartDate(init[|init| - 1]) <= StartDate(last); }
    }
  }

  lemma {:induction false} BestOfDistinct(sorted: seq<Stage>, day: int)
    requires sorted != [] && SortedBy(sorted, StartDate)
    ensures Distinct(sorted) != [] && Best(Distinct(sorted), day) == Best(sorted, day)
  {
    var init, last := sorted[..|sorted| - 1], sorted[|sorted| - 1];
    SanitizedIncreases(sorted);
    assert sorted == init + [last];
    if init == [] {
      assert sorted == [last];
    } else {
      BestOfDistinct(init, day);
      BestOfAppend(init, last, day);
      var before := Distinct(init);
      if before[|before| - 1].startDate == last.startDate {
        assert !Beats(before[|before| - 1], Best(before, day), day);
      } else {
        BestOfAppend(before, last, day);
      }
    }
  }

  /** Without stages the single configured value counts; a malformed day also falls back to it. */
  method ResolveBatteryCapacityWhForDate(stages: seq<Stage>, localDate: Option<int>, fallbackWh: Option<real>)
    returns (capacity: Option<real>)
    requires Increasing(stages)
    ensures capacity == if stages == [] || localDate.None?
                        then (if fallbackWh.Some? && fallbackWh.value > 0.0 then fallbackWh else None)
                        else Some(Best(stages, localDate.value).capacityWh)
  {
    var fallback := if fallbackWh.Some? && fallbackWh.value > 0.0 then fallbackWh else None;
    if |stages| == 0 { return fallback; }
    if localDate.None? { return fallback; }
    var day := localDate.value;
    if day < stages[0].startDate {
      UnbeatenIsBest(stages, day, 0);
      return Some(stages[0].capacityWh);
    }
    var found := stages[0];
    ghost var at := 0;
    var k := 0;
    while k < |stages|
      invariant 0 <= k <= |stages| && at == (if k == 0 then 0 else k - 1)
      invariant found == stages[at] && found.startDate <= day
    {
      if stages[k].startDate <= day { found, at := stages[k], k; } else { break; }
      k := k + 1;
    }
    UnbeatenIsBest(stages, day, at);
    capacity := Some(found.capacityWh);
  }

  lemma UnbeatenIsBest(stages: seq<Stage>, day: int, i: nat)
    requires Increasing(stages) && i < |stages|
    requires stages[i].startDate <= day || i == 0
    requires i + 1 < |stages| ==> day < stages[i + 1].startDate
    ensures Best(stages, day) == stages[i]
  {
    var k :| 0 <= k < |stages| && stages[k] == Best(stages, day);
    if k > i { assert stages[i + 1].startDate <= stages[k].startDate; }
    assert stages[i] in stages;
    assert !Beats(stages[i], Best(stages, day), day);
  }

  // ---- The law ---------------------------------------------------------------------------

  /** What the sanitised list gives on a day. */
  function InForce(configured: seq<Stage>, day: int): Stage
    requires configured != []
  {
    var kept := Distinct(StableSort(configured, StartDate));
    if kept == [] then configured[0] else Best(kept, day)
  }

  /** Sorting and dropping duplicates never change the answer. */
  lemma SanitizingKeepsTheAnswer(configured: seq<Stage>, day: int)
    requires configured != []
    ensures InForce(configured, day) == Best(configured, day)
  {
    BestOfSorted(configured, day);
    BestOfDistinct(StableSort(configured, StartDate), day);
  }

  /** A configured stage begins within these days. */
  ghost predicate BeginsWithin(configured: seq<Stage>, from: int, to: int) {
    exists t :: t in configured && from <= t.startDate <= to
  }

  /**
    An expansion later than the oldest stage counts from its own date until the next stage's,
    unless a stage of that very date is there already; every other day keeps what it had.
   */
  lemma ExpansionKeepsOtherDays(configured: seq<Stage>, stage: Stage, oldest: Stage, day: int)
    requires oldest in configured && oldest.startDate < stage.startDate
    ensures InForce(configured + [stage], day)
            == if stage.startDate <= day && !BeginsWithin(configured, stage.startDate, day) then stage
               else InForce(configured, day)
  {
    SanitizingKeepsTheAnswer(configured, day);
    SanitizingKeepsTheAnswer(configured + [stage], day);
    BestOfAppend(configured, stage, day);
    var best := Best(configured, day);
    assert !Beats(oldest, best, day);
    if stage.startDate <= day {
      if BeginsWithin(configured, stage.startDate, day) {
        var t :| t in configured && stage.startDate <= t.startDate <= day;
        assert !Beats(t, best, day);
      } else if best.startDate <= day {
        assert best.startDate < stage.startDate;
      }
    }
  }
}
