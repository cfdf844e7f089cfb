/**
  Grouping the days of a price backfill into windows, one request each. A window is a run of
  consecutive days of limited length. Days are counted as integers.
 */
module DayWindows {
  import opened Sorting

  datatype DayWindow = DayWindow(startDay: int, endDayExclusive: int, days: seq<int>)

  function Day(d: int): int { d }

  ghost predicate Increasing(days: seq<int>) {
    forall i, j :: 0 <= i < j < |days| ==> days[i] < days[j]
  }

  /** Consecutive days, at least one and at most `maxDays`. */
  ghost predicate Run(days: seq<int>, maxDays: int) {
    && days != []
    && (|days| == 1 || |days| <= maxDays)
    && forall i :: 0 <= i < |days| ==> days[i] == days[0] + i
  }

  function Window(days: seq<int>): DayWindow
    requires days != []
  {
    DayWindow(days[0], days[|days| - 1] + 1, days)
  }

  function Flatten(parts: seq<seq<int>>): seq<int> {
    if parts == [] then [] else parts[0] + Flatten(parts[1..])
  }

  ghost function DaysOf(ws: seq<DayWindow>): seq<seq<int>> {
    seq(|ws|, i requires 0 <= i < |ws| => ws[i].days)
  }

  /** Length of the longest run at the front, given that the first `n` days are one. */
  function FrontRun(days: seq<int>, n: nat, maxDays: int): (r: nat)
    requires 1 <= n <= |days|
    ensures n <= r <= |days|
    decreases |days| - n
  {
    if n < |days| && days[n - 1] + 1 == days[n] && n < maxDays then FrontRun(days, n + 1, maxDays) else n
  }

  /** The greedy grouping: always the longest run at the front. */
  function Greedy(days: seq<int>, maxDays: int): seq<DayWindow>
    decreases |days|
  {
    if days == [] then []
    else
      var n := FrontRun(days, 1, maxDays);
      [Window(days[..n])] + Greedy(days[n..], maxDays)
  }

  /** The last `count` of the first `index` days form the open window; `windows` are closed. */
  ghost predicate Grouping(windows: seq<DayWindow>, days: seq<int>, index: nat, count: nat, maxDays: int) {
    && 1 <= count <= index <= |days|
    && FrontRun(days[index - count..], 1, maxDays) == FrontRun(days[index - count..], count, maxDays)
    && windows + Greedy(days[index - count..], maxDays) == Greedy(days, maxDays)
  }

  lemma StartGrouping(days: seq<int>, maxDays: int)
    requires days != []
    ensures Grouping([], days, 1, 1, maxDays)
  {
    assert days[1 - 1..] == days;
    assert [] + Greedy(days, maxDays) == Greedy(days, maxDays);
  }

  lemma ExtendWindow(windows: seq<DayWindow>, days: seq<int>, index: nat, count: nat, maxDays: int)
    requires Grouping(windows, days, index, count, maxDays)
    requires index < |days| && days[index - 1] + 1 == days[index] && count < maxDays
    ensures Grouping(windows, days, index + 1, count + 1, maxDays)
  {
  }

  /** Closing the window at its greedy length takes it off the front of what is still to be grouped. */
  lemma CloseWindow(windows: seq<DayWindow>, days: seq<int>, index: nat, count: nat, maxDays: int)
    requires Grouping(windows, days, index, count, maxDays)
    requires index == |days| || days[index - 1] + 1 != days[index] || count >= maxDays
    ensures index < |days| ==> Grouping(windows + [Window(days[index - count..index])], days, index + 1, 1, maxDays)
    ensures index == |days| ==> windows + [Window(days[index - count..index])] == Greedy(days, maxDays)
  {
    var open := days[index - count..];
    assert open[..count] == days[index - count..index] && open[count..] == days[index..];
    var w, rest := Window(open[..count]), Greedy(days[index..], maxDays);
    assert Greedy(open, maxDays) == [w] + rest;
    assert windows + ([w] + rest) == (windows + [w]) + rest;
    if index == |days| {
      assert rest == [];
    } else {
      assert days[index + 1 - 1..] == days[index..];
    }
  }

  method BuildPriceBackfillDayWindows(days: seq<int>, maxDays: int) returns (windows: seq<DayWindow>)
    ensures windows == Greedy(StableSort(days, Day), maxDays)
  {
    var normalized := StableSort(days, Day);
    if |normalized| == 0 { return []; }
    windows := GroupDays(normalized, maxDays);
  }

  method GroupDays(normalized: seq<int>, maxDays: int) returns (windows: seq<DayWindow>)
    requires normalized != []
    ensures windows == Greedy(normalized, maxDays)
  {
    hide Grouping, Greedy, FrontRun;
    windows := [];
    var startDay, previousDay, count := normalized[0], normalized[0], 1;
    var index := 1;
    StartGrouping(normalized, maxDays);
    while index < |normalized|
      invariant 1 <= count <= index <= |normalized|
      invariant startDay == normalized[index - count] && previousDay == normalized[index - 1]
      invariant Grouping(windows, normalized, index, count, maxDays)
    {
      var day := normalized[index];
      if previousDay + 1 == day && count < maxDays {
        ExtendWindow(windows, normalized, index, count, maxDays);
        previousDay := day;
        count := count + 1;
      } else {
        CloseWindow(windows, normalized, index, count, maxDays);
        var window := DayWindow(startDay, previousDay + 1, normalized[index - count..index]);
        assert window == Window(normalized[index - count..index]);
        windows := windows + [window];
        startDay, previousDay, count := day, day, 1;
      }
      index := index + 1;
    }
    CloseWindow(windows, normalized, index, count, maxDays);
    var window := DayWindow(startDay, previousDay + 1, normalized[|normalized| - count..]);
    assert window == Window(normalized[index - count..index]);
    windows := windows + [window];
  }

  lemma {:induction false} FrontRunIsRun(days: seq<int>, n: nat, maxDays: int)
    requires 1 <= n <= |days| && Run(days[..n], maxDays)
    ensures Run(days[..FrontRun(days, n, maxDays)], maxDays)
    ensures var r := FrontRun(days, n, maxDays);
            forall m :: r < m <= |days| ==> !Run(days[..m], maxDays)
    decreases |days| - n
  {
    if n < |days| && days[n - 1] + 1 == days[n] && n < maxDays {
      assert days[n - 1] == days[..n][n - 1] && days[0] == days[..n][0];
      FrontRunIsRun(days, n + 1, maxDays);
    } else {
      forall m | n < m <= |days| ensures !Run(days[..m], maxDays) {
        assert days[..m][n] == days[n] && days[..m][n - 1] == days[n - 1];
      }
    }
  }

  /** A run of limited length whose half-open range of days holds exactly the days listed in it. */
  ghost predicate GoodWindow(w: DayWindow, maxDays: int) {
    && Run(w.days, maxDays)
    && forall d :: w.startDay <= d < w.endDayExclusive <==> d in w.days
  }

  lemma RunMakesGoodWindow(run: seq<int>, maxDays: int)
    requires Run(run, maxDays)
    ensures GoodWindow(Window(run), maxDays)
  {
    forall d | run[0] <= d < run[|run| - 1] + 1 ensures d in run {
      assert run[d - run[0]] == d;
    }
  }

  /** The windows concatenate to the days, and each is good. */
  lemma {:induction false} GreedyPartitions(days: seq<int>, maxDays: int)
    ensures Flatten(DaysOf(Greedy(days, maxDays))) == days
    ensures forall w :: w in Greedy(days, maxDays) ==> GoodWindow(w, maxDays)
    decreases |days|
  {
    if days != [] {
      var n := FrontRun(days, 1, maxDays);
      FrontRunIsRun(days, 1, maxDays);
      var first, rest := days[..n], days[n..];
      assert days == first + rest;
      RunMakesGoodWindow(first, maxDays);
      hide GoodWindow, Run, FrontRun, Flatten, DaysOf;
      GreedyPartitions(rest, maxDays);
      FlattenInFront(Window(first), Greedy(rest, maxDays));
    }
  }

  lemma FlattenInFront(w: DayWindow, ws: seq<DayWindow>)
    ensures Flatten(DaysOf([w] + ws)) == w.days + Flatten(DaysOf(ws))
  {
    assert DaysOf([w] + ws)[1..] == DaysOf(ws);
  }

  /** The run at the front is at least as long as any run there. */
  lemma FrontRunIsLongest(days: seq<int>, m: nat, maxDays: int)
    requires 1 <= m <= |days| && Run(days[..m], maxDays)
    ensures FrontRun(days, 1, maxDays) >= m
  {
    FrontRunIsRun(days, 1, maxDays);
  }

  lemma RunSuffix(days: seq<int>, n: nat, k: nat, maxDays: int)
    requires k < n <= |days| && Run(days[..n], maxDays)
    ensures Run(days[k..][..n - k], maxDays)
  {
    var part := days[k..][..n - k];
    assert forall i :: 0 <= i < n - k ==> part[i] == days[..n][k + i];
  }

  lemma CutTwice(days: seq<int>, a: nat, b: nat)
    requires a + b <= |days|
    ensures days[a..][b..] == days[a + b..]
  {
  }

  lemma CountFromFront(days: seq<int>, maxDays: int)
    requires days != []
    ensures |Greedy(days, maxDays)| == 1 + |Greedy(days[FrontRun(days, 1, maxDays)..], maxDays)|
  {
  }

  lemma RunCutShort(days: seq<int>, k: nat, maxDays: int)
    requires k < |days| && k < FrontRun(days, 1, maxDays)
    ensures FrontRun(days[k..], 1, maxDays) >= FrontRun(days, 1, maxDays) - k
  {
    var n := FrontRun(days, 1, maxDays);
    FrontRunIsRun(days, 1, maxDays);
    hide Run, FrontRun;
    RunSuffix(days, n, k, maxDays);
    FrontRunIsLongest(days[k..], n - k, maxDays);
  }

  lemma SameTail(days: seq<int>, n: nat, k: nat, m: nat)
    requires n <= k + m <= |days|
    ensures days[k..][m..] == days[n..][k + m - n..]
  {
    CutTwice(days, n, k + m - n);
    CutTwice(days, k, m);
  }

  /** Cut inside the first run: what is left of it joins the days after it. */
  lemma CutInsideRun(days: seq<int>, k: nat, maxDays: int) returns (j: nat)
    requires 0 < k < |days| && k < FrontRun(days, 1, maxDays)
    ensures var tail := days[FrontRun(days, 1, maxDays)..];
            j <= |tail| && |Greedy(days[k..], maxDays)| == 1 + |Greedy(tail[j..], maxDays)|
  {
    hide Greedy, FrontRun;
    var n, m := FrontRun(days, 1, maxDays), FrontRun(days[k..], 1, maxDays);
    RunCutShort(days, k, maxDays);
    CountFromFront(days[k..], maxDays);
    j := k + m - n;
    SameTail(days, n, k, m);
  }

  /** Cutting days off the front never makes the greedy grouping longer. */
  lemma {:induction false} FewerDaysFewerWindows(days: seq<int>, k: nat, maxDays: int)
    requires k <= |days|
    ensures |Greedy(days[k..], maxDays)| <= |Greedy(days, maxDays)|
    decreases |days|
  {
    hide Greedy, FrontRun;
    if k == |days| {
      NoDays(days[k..], maxDays);
    } else if k == 0 {
      assert days[k..] == days;
    } else {
      var n := FrontRun(days, 1, maxDays);
      CountFromFront(days, maxDays);
      if k < n {
        var j := CutInsideRun(days, k, maxDays);
        FewerDaysFewerWindows(days[n..], j, maxDays);
      } else {
        CutTwice(days, n, k - n);
        FewerDaysFewerWindows(days[n..], k - n, maxDays);
      }
    }
  }

  lemma NoDays(days: seq<int>, maxDays: int)
    requires |days| == 0
    ensures |Greedy(days, maxDays)| == 0
  {
  }

  lemma GreedyAfterRun(run: seq<int>, days: seq<int>, maxDays: int)
    requires Run(run, maxDays)
    ensures |Greedy(run + days, maxDays)| <= 1 + |Greedy(days, maxDays)|
  {
    assert run != [];
    hide Greedy, Run, FrontRun;
    var all, p := run + days, |run|;
    var n := FrontRun(all, 1, maxDays);
    FrontOfConcat(run, days);
    FrontRunIsLongest(all, p, maxDays);
    CountFromFront(all, maxDays);
    TailOfConcat(run, days, n);
    FewerDaysFewerWindows(days, n - p, maxDays);
  }

  lemma FrontOfConcat(run: seq<int>, days: seq<int>)
    ensures (run + days)[..|run|] == run
  {
  }

  lemma TailOfConcat(run: seq<int>, days: seq<int>, n: nat)
    requires |run| <= n <= |run| + |days|
    ensures (run + days)[n..] == days[n - |run|..]
  {
  }

  /** No grouping of the days into such runs needs fewer windows. */
  lemma {:induction false} GreedyIsMinimal(parts: seq<seq<int>>, maxDays: int)
    requires forall i :: 0 <= i < |parts| ==> Run(parts[i], maxDays)
    ensures |Greedy(Flatten(parts), maxDays)| <= |parts|
    decreases |parts|
  {
    if parts != [] {
      var days := Flatten(parts);
      GreedyIsMinimal(parts[1..], maxDays);
      hide Run;
      GreedyAfterRun(parts[0], Flatten(parts[1..]), maxDays);
    }
  }
}
