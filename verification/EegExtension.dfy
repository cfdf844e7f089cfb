/**
  Extension of the subsidy period by section 51a, paragraph 2, EEG 2023: negative quarter-hours
  count half, rounded up, and the budget is used up month by month from January on, each month
  taking its statutory number. The extension runs to the end of the last month begun.
 */
module EegExtension {
  const TABLE: seq<nat> := [87, 189, 340, 442, 490, 508, 498, 453, 371, 231, 118, 73]
  const YEAR_TOTAL := 3800

  /** Negative quarter-hours, halved and rounded up. */
  function VollastViertelstunden(negQuarterCount: int): (v: nat)
    ensures negQuarterCount > 0 ==> 2 * v - 1 <= negQuarterCount <= 2 * v
    ensures negQuarterCount <= 0 ==> v == 0
  {
    if negQuarterCount <= 0 then 0 else (negQuarterCount + 1) / 2
  }

  /** The number that month `m` (counted from January of the first year) takes. */
  function Month(m: nat): nat { TABLE[m % 12] }

  /** What the first `m` months take together: plain month-by-month counting. */
  function Through(m: nat): nat {
    if m == 0 then 0 else Through(m - 1) + Month(m - 1)
  }

  /**
    Full months, months the extension runs for, the last month begun (0 is January), and the
    fraction of it as part / whole.
   */
  datatype Extension = Extension(fullMonths: nat, legalMonths: nat, lastMonth: nat, part: nat, whole: nat)

  const NONE := Extension(0, 0, 11, 0, 1)

  lemma {:induction false} ThroughGrows(m: nat, n: nat)
    requires m <= n
    ensures Through(m) + (n - m) <= Through(n)
    decreases n
  {
    hide Through, Month;
    if m < n {
      ThroughGrows(m, n - 1);
      NextMonth(n - 1);
    }
  }

  /** Twelve months take the same, whichever month they start with. */
  lemma {:induction false} AYearLater(m: nat)
    ensures Through(m + 12) == Through(m) + YEAR_TOTAL
  {
    if m == 0 {
      FirstYear();
    } else {
      AYearLater(m - 1);
      assert (m - 1 + 12) % 12 == (m - 1) % 12;
    }
  }

  lemma FirstYear()
    ensures Through(12) == YEAR_TOTAL
  {
    assert Through(1) == 87;
    assert Through(2) == 276;
    assert Through(3) == 616;
    assert Through(4) == 1058;
    assert Through(5) == 1548;
    assert Through(6) == 2056;
    assert Through(7) == 2554;
    assert Through(8) == 3007;
    assert Through(9) == 3378;
    assert Through(10) == 3609;
    assert Through(11) == 3727;
  }

  /** Whole years can be taken off at once. */
  lemma {:induction false} YearsLater(years: nat, m: nat)
    ensures Through(12 * years + m) == years * YEAR_TOTAL + Through(m)
  {
    if years > 0 {
      YearsLater(years - 1, m);
      AYearLater(12 * (years - 1) + m);
      hide Through, Month;
    }
  }

  /**
    The specification: `fullMonths` is the greatest number of months whose sum fits into the
    budget, `legalMonths` the least number whose sum reaches it.
   */
  ghost predicate Extends(budget: nat, e: Extension) {
    && Through(e.fullMonths) <= budget < Through(e.fullMonths + 1)
    && budget <= Through(e.legalMonths)
    && (e.legalMonths > 0 ==> Through(e.legalMonths - 1) < budget)
    && (budget > 0 ==> e.lastMonth == (e.legalMonths + 11) % 12)
    && e.part == budget - Through(e.fullMonths)
    && (e.part > 0 ==> e.whole == Month(e.fullMonths))
  }

  lemma NextMonth(m: nat)
    ensures Through(m + 1) == Through(m) + Month(m) && Month(m) > 0
  {
    assert forall i :: 0 <= i < 12 ==> TABLE[i] > 0;
  }

  /** The budget ends with a month. */
  lemma EndsWithMonth(budget: nat, full: nat)
    requires full > 0 && Through(full) == budget
    ensures Extends(budget, Extension(full, full, (full + 11) % 12, 0, 1))
  {
    NextMonth(full);
    NextMonth(full - 1);
    ThroughGrows(0, full);
  }

  /** The budget ends inside a month, which counts in full for the law. */
  lemma EndsInsideMonth(budget: nat, full: nat)
    requires Through(full) < budget < Through(full) + Month(full)
    ensures Extends(budget, Extension(full, full + 1, full % 12, budget - Through(full), Month(full)))
  {
    NextMonth(full);
    YearBefore(full);
    hide Through, Month;
  }

  lemma YearBefore(m: nat)
    ensures (m + 1 + 11) % 12 == m % 12
  {
  }

  method ExtensionFromVollast(vlvs: int) returns (e: Extension)
    ensures Extends(if vlvs <= 0 then 0 else vlvs, e)
  {
    if vlvs <= 0 {
      NextMonth(0);
      return NONE;
    }
    var remaining: int := vlvs;
    var years := 0;
    if remaining > YEAR_TOTAL {
      years := (remaining - 1) / YEAR_TOTAL;
      remaining := remaining - years * YEAR_TOTAL;
    }
    YearsLater(years, 0);
    e := WithinYear(vlvs, years, remaining);
  }

  lemma InYear(years: nat, full: nat, idx: nat)
    requires idx < 12 && full == 12 * years + idx
    ensures Month(full) == TABLE[idx] && Month(idx) == TABLE[idx] && full % 12 == idx % 12
  {
    assert full % 12 == idx;
  }

  lemma MonthBefore(years: nat, full: nat, idx: nat)
    requires full == 12 * years + idx
    ensures (full + 11) % 12 == (idx + 11) % 12
  {
  }

  /** After `idx` months of the last year, `remaining` of the budget is left. */
  ghost predicate AtMonth(budget: nat, years: nat, left: nat, idx: nat, remaining: int) {
    && idx <= 12 && 0 < remaining == left - Through(idx)
    && Through(12 * years + idx) == budget - remaining
  }

  /** The result when the budget ends with a month, `idx` months into the last year. */
  function AfterFullMonths(fullMonths: nat, idx: nat): Extension {
    Extension(fullMonths, fullMonths, (idx + 11) % 12, 0, 1)
  }

  /** The result when the budget ends inside a month that takes `cap`. */
  function InsideMonth(fullMonths: nat, idx: nat, remaining: nat, cap: nat): Extension {
    Extension(fullMonths, fullMonths + 1, idx % 12, remaining, cap)
  }

  lemma BeforeJanuary(budget: nat, years: nat, left: nat)
    requires 0 < left && Through(12 * years) + left == budget
    ensures AtMonth(budget, years, left, 0, left)
  {
  }

  lemma TakesMonth(budget: nat, years: nat, left: nat, idx: nat, remaining: int)
    requires AtMonth(budget, years, left, idx, remaining) && idx < 12 && remaining >= TABLE[idx]
    ensures remaining > TABLE[idx] ==> AtMonth(budget, years, left, idx + 1, remaining - TABLE[idx])
    ensures remaining == TABLE[idx] ==> Extends(budget, AfterFullMonths(12 * years + idx + 1, idx + 1))
  {
    var full := 12 * years + idx;
    NextMonth(idx);
    NextMonth(full);
    InYear(years, full, idx);
    hide Through, Month, Extends;
    if remaining == TABLE[idx] {
      MonthBefore(years, full + 1, idx + 1);
      EndsWithMonth(budget, full + 1);
    }
  }

  lemma StopsInMonth(budget: nat, years: nat, left: nat, idx: nat, remaining: int)
    requires AtMonth(budget, years, left, idx, remaining) && idx < 12 && remaining < TABLE[idx]
    ensures Extends(budget, InsideMonth(12 * years + idx, idx, remaining, TABLE[idx]))
  {
    hide Through, Month, Extends;
    var full := 12 * years + idx;
    InYear(years, full, idx);
    EndsInsideMonth(budget, full);
  }

  lemma NoThirteenthMonth(budget: nat, years: nat, left: nat, remaining: int)
    requires AtMonth(budget, years, left, 12, remaining)
    ensures left > YEAR_TOTAL
  {
    hide Through, Month;
    FirstYear();
  }

  /** The month loop over what is left after whole years. */
  method WithinYear(budget: nat, years: nat, left: nat) returns (e: Extension)
    requires 0 < left <= YEAR_TOTAL && Through(12 * years) + left == budget
    ensures Extends(budget, e)
  {
    hide Extends, Through, Month, AtMonth, AfterFullMonths, InsideMonth;
    BeforeJanuary(budget, years, left);
    var remaining: int := left;
    var fullMonths := 12 * years;
    var idx := 0;
    while remaining > 0 && idx < 12
      invariant 0 <= idx <= 12 && fullMonths == 12 * years + idx && remaining > 0
      invariant AtMonth(budget, years, left, idx, remaining)
      decreases 12 - idx
    {
      var cap := TABLE[idx];
      if remaining >= cap {
        TakesMonth(budget, years, left, idx, remaining);
        remaining := remaining - cap;
        fullMonths := fullMonths + 1;
        idx := idx + 1;
        if remaining == 0 {
          return AfterFullMonths(fullMonths, idx);
        }
      } else {
        StopsInMonth(budget, years, left, idx, remaining);
        return InsideMonth(fullMonths, idx, remaining, cap);
      }
    }
    // twelve months take a whole year, so the loop has returned before
    NoThirteenthMonth(budget, years, left, remaining);
    assert false;
  }

  /** The number of full months and of legal months is determined by the budget alone. */
  lemma ExtensionIsUnique(budget: nat, e: Extension, f: Extension)
    requires Extends(budget, e) && Extends(budget, f)
    ensures e.fullMonths == f.fullMonths && e.legalMonths == f.legalMonths && e.part == f.part
  {
    hide Through;
    if e.fullMonths < f.fullMonths { ThroughGrows(e.fullMonths + 1, f.fullMonths); }
    if f.fullMonths < e.fullMonths { ThroughGrows(f.fullMonths + 1, e.fullMonths); }
    if e.legalMonths < f.legalMonths { ThroughGrows(e.legalMonths, f.legalMonths - 1); }
    if f.legalMonths < e.legalMonths { ThroughGrows(f.legalMonths, e.legalMonths - 1); }
  }

  /** No smaller number of months reaches the budget, no greater number fits into it. */
  lemma LeastAndGreatest(budget: nat, e: Extension, m: nat)
    requires Extends(budget, e)
    ensures budget <= Through(m) <==> e.legalMonths <= m
    ensures Through(m) <= budget <==> m <= e.fullMonths
  {
    hide Through;
    if m < e.legalMonths { ThroughGrows(m, e.legalMonths - 1); } else { ThroughGrows(e.legalMonths, m); }
    if m <= e.fullMonths { ThroughGrows(m, e.fullMonths); } else { ThroughGrows(e.fullMonths + 1, m); }
  }

  /** More negative quarter-hours never shorten the extension. */
  lemma MoreQuartersNeverShorten(n: int, m: int, e: Extension, f: Extension)
    requires n <= m && Extends(VollastViertelstunden(n), e) && Extends(VollastViertelstunden(m), f)
    ensures e.legalMonths <= f.legalMonths && e.fullMonths <= f.fullMonths
  {
    LeastAndGreatest(VollastViertelstunden(n), e, f.legalMonths);
    LeastAndGreatest(VollastViertelstunden(m), f, e.fullMonths);
  }
}
