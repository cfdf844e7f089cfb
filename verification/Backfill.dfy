/**
  Planning of history backfills: which parts of a look-back range still have to be fetched.

  Instants are integers (milliseconds), ranges are half open. The specification of everything
  here is a set of instants: a range stands for the instants in it.
 */
module Backfill {
  import opened Wrappers
  import opened Sorting

  const DAY_MS := 86400000
  const DEFAULT_LOOKBACK_DAYS := 7
  const DEFAULT_CHUNK_DAYS := 1

  datatype Range = Range(start: int, end: int)

  function Start(r: Range): int { r.start }

  predicate Nonempty(r: Range) { r.start < r.end }

  ghost predicate Contains(r: Range, t: int) { r.start <= t < r.end }

  /** Instant `t` lies in one of the ranges. */
  ghost predicate Covers(rs: seq<Range>, t: int) {
    exists r :: r in rs && Contains(r, t)
  }

  /** Sorted, each nonempty, with a real gap between one range and the next. */
  ghost predicate Separated(rs: seq<Range>) {
    && (forall i :: 0 <= i < |rs| ==> Nonempty(rs[i]))
    && (forall i, j :: 0 <= i < j < |rs| ==> rs[i].end < rs[j].start)
  }

  function NonemptyOnly(rs: seq<Range>): (r: seq<Range>)
    ensures forall x :: x in r <==> x in rs && Nonempty(x)
  {
    if rs == [] then [] else (if Nonempty(rs[0]) then [rs[0]] else []) + NonemptyOnly(rs[1..])
  }

  /** Adds one range, whose start is not before the others', to separated ranges. */
  function MergeOne(merged: seq<Range>, range: Range): seq<Range> {
    if merged == [] || range.start > merged[|merged| - 1].end then merged + [range]
    else
      var last := merged[|merged| - 1];
      merged[|merged| - 1 := Range(last.start, if range.end > last.end then range.end else last.end)]
  }

  lemma CoversSplits(rs: seq<Range>, r: Range, t: int)
    ensures Covers(rs + [r], t) <==> Covers(rs, t) || Contains(r, t)
  {
    assert forall x :: x in rs + [r] <==> x in rs || x == r;
  }

  lemma MergeOneCovers(merged: seq<Range>, range: Range, t: int)
    requires merged != [] ==> merged[|merged| - 1].start <= range.start && Nonempty(range)
    ensures Covers(MergeOne(merged, range), t) <==> Covers(merged, t) || Contains(range, t)
  {
    if merged == [] || range.start > merged[|merged| - 1].end {
      CoversSplits(merged, range, t);
    } else {
      var init, last := merged[..|merged| - 1], merged[|merged| - 1];
      var grown := Range(last.start, if range.end > last.end then range.end else last.end);
      assert merged == init + [last] && MergeOne(merged, range) == init + [grown];
      CoversSplits(init, last, t);
      CoversSplits(init, grown, t);
    }
  }

  lemma MergeOneSeparated(merged: seq<Range>, range: Range)
    requires Separated(merged) && Nonempty(range)
    requires merged != [] ==> merged[|merged| - 1].start <= range.start
    ensures Separated(MergeOne(merged, range))
    ensures var r := MergeOne(merged, range); r != [] && r[|r| - 1].start <= range.start
  {
  }

  /** The merged ranges after the first `i` of the sorted ones. */
  ghost predicate MergedUpTo(merged: seq<Range>, normalized: seq<Range>, i: nat) {
    && i <= |normalized|
    && Separated(merged)
    && (i == 0 <==> merged == [])
    && (0 < i < |normalized| ==> merged[|merged| - 1].start <= normalized[i].start)
    && forall t :: Covers(merged, t) <==> Covers(normalized[..i], t)
  }

  lemma NothingMerged(normalized: seq<Range>)
    ensures MergedUpTo([], normalized, 0)
  {
  }

  lemma MergeStep(merged: seq<Range>, normalized: seq<Range>, i: nat)
    requires MergedUpTo(merged, normalized, i) && i < |normalized|
    requires SortedBy(normalized, Start) && Nonempty(normalized[i])
    ensures MergedUpTo(MergeOne(merged, normalized[i]), normalized, i + 1)
  {
    var range := normalized[i];
    MergeOneSeparated(merged, range);
    assert i + 1 < |normalized| ==> Start(range) <= Start(normalized[i + 1]);
    assert normalized[..i + 1] == normalized[..i] + [range];
    forall t ensures Covers(MergeOne(merged, range), t) <==> Covers(normalized[..i + 1], t) {
      MergeOneCovers(merged, range, t);
      CoversSplits(normalized[..i], range, t);
    }
  }

  lemma SortingKeepsCoverage(ranges: seq<Range>, t: int)
    ensures Covers(StableSort(NonemptyOnly(ranges), Start), t) <==> Covers(ranges, t)
  {
    SameElements(NonemptyOnly(ranges), Start);
  }

  method MergeCoverageRanges(ranges: seq<Range>) returns (merged: seq<Range>)
    ensures Separated(merged)
    ensures forall t :: Covers(merged, t) <==> Covers(ranges, t)
  {
    hide Separated, Covers, StableSort;
    var normalized := StableSort(NonemptyOnly(ranges), Start);
    SameElements(NonemptyOnly(ranges), Start);
    merged := [];
    NothingMerged(normalized);
    var i := 0;
    while i < |normalized|
      invariant 0 <= i <= |normalized|
      invariant MergedUpTo(merged, normalized, i)
    {
      var range := normalized[i];
      assert range in normalized;
      MergeStep(merged, normalized, i);
      ghost var next := MergeOne(merged, range);
      if |merged| == 0 || range.start > merged[|merged| - 1].end {
        merged := merged + [range];
      } else {
        var last := merged[|merged| - 1];
        if range.end > last.end { merged := merged[|merged| - 1 := Range(last.start, range.end)]; }
      }
      assert merged == next;
      i := i + 1;
    }
    assert normalized[..i] == normalized;
    forall t ensures Covers(merged, t) <==> Covers(ranges, t) { SortingKeepsCoverage(ranges, t); }
  }

  /** A chunk size below one day (or none) means one day. */
  function StepMs(chunkDays: int): (ms: int)
    ensures ms >= DAY_MS
    ensures ms == 86_400_000 * if chunkDays < 1 then 1 else chunkDays
  {
    (if chunkDays >= 1 then chunkDays else 1) * DAY_MS
  }

  /** The windows of a range: full steps, and a shorter one at the end if need be. */
  function Windows(start: int, end: int, step: int): (ws: seq<Range>)
    requires step > 0
    ensures ws == [] <==> start >= end
    ensures ws != [] ==> ws[0].start == start && ws[|ws| - 1].end == end
    decreases end - start
  {
    if start >= end then []
    else
      var next := if start + step < end then start + step else end;
      [Range(start, next)] + Windows(next, end, step)
  }

  method BuildBackfillWindows(start: int, end: int, chunkDays: int) returns (windows: seq<Range>)
    ensures windows == Windows(start, end, StepMs(chunkDays))
  {
    windows := [];
    var step := StepMs(chunkDays);
    var cursor := start;
    ghost var all := Windows(start, end, step);
    while cursor < end
      invariant windows + Windows(cursor, end, step) == all
      decreases end - cursor
    {
      var next := cursor + step;
      var windowEnd := if next < end then next else end;
      OneWindow(windows, cursor, windowEnd, end, step);
      windows := windows + [Range(cursor, windowEnd)];
      cursor := windowEnd;
    }
  }

  lemma OneWindow(windows: seq<Range>, cursor: int, windowEnd: int, end: int, step: int)
    requires step > 0 && cursor < end && windowEnd == if cursor + step < end then cursor + step else end
    ensures windows + Windows(cursor, end, step)
            == (windows + [Range(cursor, windowEnd)]) + Windows(windowEnd, end, step)
  {
    assert Windows(cursor, end, step) == [Range(cursor, windowEnd)] + Windows(windowEnd, end, step);
  }

  /** Each window is nonempty and inside the range; only the last may be shorter than the step. */
  ghost predicate Tiles(ws: seq<Range>, start: int, end: int, step: int) {
    && (forall i :: 0 <= i < |ws| ==> Nonempty(ws[i]) && start <= ws[i].start && ws[i].end <= end)
    && (forall i :: 0 <= i < |ws| ==>
          ws[i].end - ws[i].start == step || (i == |ws| - 1 && ws[i].end - ws[i].start < step))
    && (forall i, j :: 0 <= i < j < |ws| && j == i + 1 ==> ws[i].end == ws[j].start)
  }

  /** The windows tile the range: they follow each other without gap and hold its instants and no others. */
  lemma {:induction false} WindowsTile(start: int, end: int, step: int)
    requires step > 0
    ensures Tiles(Windows(start, end, step), start, end, step)
    ensures forall t :: Covers(Windows(start, end, step), t) <==> start <= t < end
    decreases end - start
  {
    if start < end {
      var next := if start + step < end then start + step else end;
      var first, rest := Range(start, next), Windows(next, end, step);
      WindowsTile(next, end, step);
      TilesInFront(first, rest, start, next, end, step);
      forall t
        ensures Covers([first] + rest, t) <==> Contains(first, t) || Covers(rest, t)
      {
        CoversInFront(first, rest, t);
      }
      hide Covers, Tiles;
    }
  }

  lemma CoversInFront(first: Range, rest: seq<Range>, t: int)
    ensures Covers([first] + rest, t) <==> Contains(first, t) || Covers(rest, t)
  {
    assert forall x :: x in [first] + rest <==> x == first || x in rest;
  }

  lemma TilesInFront(first: Range, rest: seq<Range>, start: int, next: int, end: int, step: int)
    requires step > 0 && first == Range(start, next) && start < next <= end
    requires next - start == step || (next == end && next - start < step)
    requires Tiles(rest, next, end, step) && (rest == [] <==> next == end) && (rest != [] ==> rest[0].start == next)
    ensures Tiles([first] + rest, start, end, step)
  {
    var ws := [first] + rest;
    assert forall i :: 0 < i < |ws| ==> ws[i] == rest[i - 1];
  }

  predicate RangeIsCovered(window: Range, ranges: seq<Range>) {
    exists r :: r in ranges && r.start <= window.start && r.end >= window.end
  }

  /** In separated ranges, instants that are covered without a break lie in one range. */
  lemma OneRangeCoversTheRun(rs: seq<Range>, k: nat, lo: int, hi: int)
    requires Separated(rs) && k < |rs| && Contains(rs[k], lo) && lo < hi
    requires forall t :: lo <= t < hi ==> Covers(rs, t)
    ensures hi <= rs[k].end
  {
    assert rs[k].end < hi ==> Covers(rs, rs[k].end);
  }

  /** The coverage test is exact: a window counts as covered if and only if each of its instants is. */
  lemma CoveredIffEveryInstantIs(window: Range, rs: seq<Range>)
    requires Separated(rs) && Nonempty(window)
    ensures RangeIsCovered(window, rs) <==> forall t :: Contains(window, t) ==> Covers(rs, t)
  {
    if forall t :: Contains(window, t) ==> Covers(rs, t) {
      assert Contains(window, window.start);
      var r :| r in rs && Contains(r, window.start);
      var k :| 0 <= k < |rs| && rs[k] == r;
      OneRangeCoversTheRun(rs, k, window.start, window.end);
    }
    if RangeIsCovered(window, rs) {
      var r :| r in rs && r.start <= window.start && r.end >= window.end;
      assert forall t :: Contains(window, t) ==> Contains(r, t);
    }
  }

  // ---- The import log and the gap run ------------------------------------------------------

  datatype JobType = HistoryImport | HistoryBackfill | FullBackfill | GapBackfill | PriceBackfill | OtherJob
  datatype Status = Completed | CompletedWithGaps | OtherStatus
  datatype Job = Job(jobType: JobType, status: Status, range: Range, account: string)

  predicate CoverageType(t: JobType) {
    t.HistoryImport? || t.HistoryBackfill? || t.FullBackfill? || t.GapBackfill?
  }

  /** The job counts as coverage for the account; an empty account name matches every job. */
  predicate Counts(j: Job, account: string) {
    CoverageType(j.jobType) && j.status.Completed? && (account == "" || j.account == account)
  }

  /** Ranges of the jobs that count and touch the asked-for range. */
  function JobRanges(jobs: seq<Job>, account: string, asked: Range): (r: seq<Range>)
    ensures forall x :: x in r <==>
              exists j :: j in jobs && Counts(j, account) && j.range == x && x.end > asked.start && x.start < asked.end
  {
    if jobs == [] then []
    else
      var rest := JobRanges(jobs[1..], account, asked);
      var j := jobs[0];
      assert forall k :: k in jobs <==> k == j || k in jobs[1..];
      if Counts(j, account) && j.range.end > asked.start && j.range.start < asked.end then [j.range] + rest else rest
  }

  /** The imports of measured history; prices and other jobs are none. */
  const HISTORY_JOBS := {HistoryImport, HistoryBackfill, FullBackfill, GapBackfill}

  /** Instant `t` lies in some completed import of history for the account, or for any if none is named. */
  ghost predicate Imported(jobs: seq<Job>, account: string, t: int) {
    exists j :: j in jobs && j.jobType in HISTORY_JOBS && j.status == Completed && account in {"", j.account}
                && j.range.start <= t < j.range.end
  }

  function Lookback(now: int, lookbackDays: int): (r: Range)
    ensures r.end == now && r.start < now
    ensures lookbackDays >= 1 ==> r.end - r.start == lookbackDays * 86_400_000
    ensures lookbackDays < 0 ==> r.end - r.start == 86_400_000
    ensures lookbackDays == 0 ==> r.end - r.start == 7 * 86_400_000
  {
    var days := if lookbackDays == 0 then DEFAULT_LOOKBACK_DAYS else lookbackDays;
    Range(now - (if days >= 1 then days else 1) * DAY_MS, now)
  }

  /** The specification of the plan: the windows with an instant that no import covers, in order. */
  ghost function Gaps(ws: seq<Range>, jobs: seq<Job>, account: string): seq<Range> {
    if ws == [] then []
    else
      (if exists t :: Contains(ws[0], t) && !Imported(jobs, account, t) then [ws[0]] else [])
      + Gaps(ws[1..], jobs, account)
  }

  lemma JobRangesCover(jobs: seq<Job>, account: string, asked: Range, t: int)
    requires Contains(asked, t)
    ensures Covers(JobRanges(jobs, account, asked), t) <==> Imported(jobs, account, t)
  {
    if Imported(jobs, account, t) {
      var j :| j in jobs && j.jobType in HISTORY_JOBS && j.status == Completed && account in {"", j.account}
               && j.range.start <= t < j.range.end;
      assert Counts(j, account) && j.range in JobRanges(jobs, account, asked);
    }
  }

  /** `coverage` is the merged form of the job ranges that count and touch the asked-for range. */
  ghost predicate IsCoverage(coverage: seq<Range>, jobs: seq<Job>, account: string, asked: Range) {
    Separated(coverage) && forall t :: Covers(coverage, t) <==> Covers(JobRanges(jobs, account, asked), t)
  }

  /** Merged job ranges decide the plan's question for a window inside the asked-for range. */
  lemma CoverageDecides(window: Range, coverage: seq<Range>, jobs: seq<Job>, account: string, asked: Range)
    requires IsCoverage(coverage, jobs, account, asked)
    requires Nonempty(window) && asked.start <= window.start && window.end <= asked.end
    ensures RangeIsCovered(window, coverage) <==> forall t :: Contains(window, t) ==> Imported(jobs, account, t)
  {
    CoveredIffEveryInstantIs(window, coverage);
    forall t | Contains(window, t) ensures Covers(coverage, t) <==> Imported(jobs, account, t) {
      JobRangesCover(jobs, account, asked, t);
    }
  }

  /** A window is planned if and only if some instant in it is not imported. */
  lemma PlannedIffSomethingMissing(ws: seq<Range>, jobs: seq<Job>, account: string, w: Range)
    ensures w in Gaps(ws, jobs, account) <==> w in ws && exists t :: Contains(w, t) && !Imported(jobs, account, t)
  {
    if ws != [] {
      PlannedIffSomethingMissing(ws[1..], jobs, account, w);
      assert w in ws <==> w == ws[0] || w in ws[1..];
    }
  }

  /** The plan reaches every instant of the look-back that is not imported yet. */
  lemma PlanReachesEveryGap(jobs: seq<Job>, account: string, asked: Range, step: int, t: int)
    requires step > 0 && Contains(asked, t) && !Imported(jobs, account, t)
    ensures Covers(Gaps(Windows(asked.start, asked.end, step), jobs, account), t)
  {
    var ws := Windows(asked.start, asked.end, step);
    WindowsTile(asked.start, asked.end, step);
    assert Covers(ws, t);
    var w :| w in ws && Contains(w, t);
    PlannedIffSomethingMissing(ws, jobs, account, w);
  }

  lemma ImportedAfter(jobs: seq<Job>, j: Job, account: string, t: int)
    ensures Imported(jobs + [j], account, t)
            <==> Imported(jobs, account, t)
                 || (j.jobType in HISTORY_JOBS && j.status == Completed && account in {"", j.account}
                     && Contains(j.range, t))
  {
    assert forall k :: k in jobs + [j] <==> k in jobs || k == j;
  }

  lemma {:induction false} SamePlan(ws: seq<Range>, jobs: seq<Job>, more: seq<Job>, account: string)
    requires forall t :: Imported(jobs, account, t) <==> Imported(more, account, t)
    ensures Gaps(ws, jobs, account) == Gaps(ws, more, account)
  {
    if ws != [] { SamePlan(ws[1..], jobs, more, account); }
  }

  /**
    A second plan for the same moment: nothing is left to do if every window came back with
    data, and the very same windows are planned again if one came back empty.
   */
  lemma SecondPlan(jobs: seq<Job>, account: string, asked: Range, step: int, status: Status)
    requires step > 0 && (status.Completed? || status.CompletedWithGaps?)
    ensures var ws := Windows(asked.start, asked.end, step);
            Gaps(ws, jobs + [Job(GapBackfill, status, asked, account)], account)
            == if status.Completed? then [] else Gaps(ws, jobs, account)
  {
    hide Windows, Imported;
    var ws := Windows(asked.start, asked.end, step);
    var after := jobs + [Job(GapBackfill, status, asked, account)];
    forall t
      ensures Imported(after, account, t) <==> Imported(jobs, account, t) || (status.Completed? && Contains(asked, t))
    {
      ImportedAfter(jobs, Job(GapBackfill, status, asked, account), account, t);
    }
    if status.Completed? {
      WindowsTile(asked.start, asked.end, step);
      var gaps := Gaps(ws, after, account);
      if gaps != [] {
        PlannedIffSomethingMissing(ws, after, account, gaps[0]);
      }
    } else {
      SamePlan(ws, jobs, after, account);
    }
  }

  /** What one fetch of a window came back with. */
  datatype Fetch = Failed | Rows(count: nat)

  datatype Outcome = NothingToDo | FetchFailed | Ran(visited: nat, imported: nat, empty: nat, rows: nat)

  /** All rows that the windows came back with. */
  ghost function RowsIn(windows: seq<Range>, fetch: Range -> Fetch): nat {
    if windows == [] then 0
    else
      var last := |windows| - 1;
      RowsIn(windows[..last], fetch) + if fetch(windows[last]).Rows? then fetch(windows[last]).count else 0
  }

  class ImportStore {
    var jobs: seq<Job>

    constructor ()
      ensures jobs == []
    {
      jobs := [];
    }

    method KeepUncovered(windows: seq<Range>, coverage: seq<Range>, ghost account: string, ghost asked: Range)
      returns (gapWindows: seq<Range>)
      requires IsCoverage(coverage, jobs, account, asked)
      requires forall w :: w in windows ==> Nonempty(w) && asked.start <= w.start && w.end <= asked.end
      ensures gapWindows == Gaps(windows, jobs, account)
    {
      hide IsCoverage, RangeIsCovered, Imported;
      gapWindows := [];
      var i := 0;
      while i < |windows|
        invariant 0 <= i <= |windows|
        invariant gapWindows + Gaps(windows[i..], jobs, account) == Gaps(windows, jobs, account)
      {
        CoverageDecides(windows[i], coverage, jobs, account, asked);
        assert windows[i..][1..] == windows[i + 1..];
        Regroup(gapWindows, [windows[i]], Gaps(windows[i + 1..], jobs, account));
        if !RangeIsCovered(windows[i], coverage) {
          gapWindows := gapWindows + [windows[i]];
        }
        i := i + 1;
      }
    }

    method CollectGapWindows(now: int, lookbackDays: int, chunkDays: int, account: string)
      returns (asked: Range, gapWindows: seq<Range>)
      ensures asked == Lookback(now, lookbackDays)
      ensures gapWindows == Gaps(Windows(asked.start, asked.end, StepMs(chunkDays)), jobs, account)
    {
      asked := Lookback(now, lookbackDays);
      var coverage := MergeCoverageRanges(JobRanges(jobs, account, asked));
      var windows := BuildBackfillWindows(asked.start, asked.end, chunkDays);
      WindowsTile(asked.start, asked.end, StepMs(chunkDays));
      gapWindows := KeepUncovered(windows, coverage, account, asked);
    }

    /** `fetch` stands for the network: what the import of a window comes back with. */
    method RunVrmGapBackfill(now: int, lookbackDays: int, chunkDays: int, account: string, fetch: Range -> Fetch)
      returns (outcome: Outcome)
      modifies this
      ensures var asked := Lookback(now, lookbackDays);
              var gaps := Gaps(Windows(asked.start, asked.end, StepMs(chunkDays)), old(jobs), account);
              && (outcome.NothingToDo? <==> gaps == [])
              && (outcome.FetchFailed? <==> exists w :: w in gaps && fetch(w).Failed?)
              && (outcome.Ran? ==>
                    && outcome.visited == |gaps| == outcome.imported + outcome.empty
                    && outcome.rows == RowsIn(gaps, fetch)
                    && (outcome.empty > 0 <==> exists w :: w in gaps && fetch(w) == Rows(0)))
              && jobs == (if outcome.Ran?
                          then old(jobs) + [Job(GapBackfill,
                                                if outcome.empty > 0 then CompletedWithGaps else Completed,
                                                asked, account)]
                          else old(jobs))
    {
      hide Gaps, Windows;
      var asked, gapWindows := CollectGapWindows(now, lookbackDays, chunkDays, account);
      if |gapWindows| == 0 { return NothingToDo; }
      var imported: nat, rows: nat, empty: nat := 0, 0, 0;
      var i := 0;
      while i < |gapWindows|
        invariant 0 <= i <= |gapWindows|
        invariant jobs == old(jobs)
        invariant forall k :: 0 <= k < i ==> !fetch(gapWindows[k]).Failed?
        invariant imported + empty == i && rows == RowsIn(gapWindows[..i], fetch)
        invariant empty > 0 <==> exists k :: 0 <= k < i && fetch(gapWindows[k]) == Rows(0)
      {
        var fetched := fetch(gapWindows[i]);
        assert gapWindows[..i + 1][..i] == gapWindows[..i];
        if fetched.Failed? { return FetchFailed; }
        if fetched.count > 0 {
          imported, rows := imported + 1, rows + fetched.count;
        } else {
          empty := empty + 1;
        }
        i := i + 1;
      }
      assert gapWindows[..i] == gapWindows;
      jobs := jobs + [Job(GapBackfill, if empty > 0 then CompletedWithGaps else Completed, asked, account)];
      outcome := Ran(|gapWindows|, imported, empty, rows);
    }
  }
}
