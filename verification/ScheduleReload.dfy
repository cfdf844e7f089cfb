/**
  Reloading what was persisted: the marks survive, reloading twice changes nothing more, and
  afterwards the same rules are switched off as without the reload.
 */
module ScheduleReload {
  import opened Wrappers
  import opened Integers
  import opened ScheduleRules

  function Plans(rules: seq<Entry>): seq<Entry> {
    if rules == [] then [] else (if IsPlan(rules[0]) then [rules[0]] else []) + Plans(rules[1..])
  }

  ghost predicate NoPlans(rules: seq<Entry>) { forall e :: e in rules ==> !IsPlan(e) }

  ghost predicate Unmarked(rules: seq<Entry>) { forall e :: e in rules && e.IsRule? ==> !e.rule.wasActive }

  /** Contents of the rules in a list. */
  function Contents(rules: seq<Entry>): seq<Content> {
    if rules == [] then []
    else (if rules[0].IsRule? then [rules[0].rule.content] else []) + Contents(rules[1..])
  }

  // ---- Where the rules go ------------------------------------------------------------------

  lemma {:induction false} NotPlanFacts(rules: seq<Entry>)
    ensures NoPlans(NotPlan(rules)) && forall e :: e in NotPlan(rules) ==> e in rules
  {
    if rules != [] { NotPlanFacts(rules[1..]); }
  }

  lemma {:induction false} MarkKeepsSources(rules: seq<Entry>, active: seq<Content>)
    requires NoPlans(rules)
    ensures NoPlans(Mark(rules, active))
  {
    if rules != [] {
      assert rules[0] in rules;
      if rules[0].IsRule? && rules[0].rule.content in active {
        MarkKeepsSources(rules[1..], Without(active, rules[0].rule.content));
      } else {
        MarkKeepsSources(rules[1..], active);
      }
    }
  }

  lemma {:induction false} PlansAppend(a: seq<Entry>, b: seq<Entry>)
    ensures Plans(a + b) == Plans(a) + Plans(b)
  {
    if a == [] {
      assert a + b == b;
    } else {
      PlansAppend(a[1..], b);
      assert (a + b)[0] == a[0] && (a + b)[1..] == a[1..] + b;
      hide IsPlan;
      Regroup(if IsPlan(a[0]) then [a[0]] else [], Plans(a[1..]), Plans(b));
    }
  }

  lemma {:induction false} NoPlansNone(rules: seq<Entry>)
    requires NoPlans(rules)
    ensures Plans(rules) == []
  {
    if rules != [] { assert rules[0] in rules; NoPlansNone(rules[1..]); }
  }

  lemma {:induction false} InterleaveKeepsPlans(live: seq<Entry>, manual: seq<Entry>, placed: bool)
    requires NoPlans(manual)
    ensures Plans(Interleave(live, manual, placed)) == Plans(live)
  {
    NoPlansNone(manual);
    if live != [] {
      if IsPlan(live[0]) {
        InterleaveKeepsPlans(live[1..], manual, placed);
        assert Interleave(live, manual, placed)[1..] == Interleave(live[1..], manual, placed);
      } else {
        InterleaveKeepsPlans(live[1..], manual, true);
        PlansAppend(if placed then [] else manual, Interleave(live[1..], manual, true));
      }
    }
  }

  /** A reload keeps the plan rules, in order, whatever the configuration holds. */
  lemma MergeKeepsPlans(live: seq<Entry>, config: seq<Entry>)
    ensures Plans(Merge(live, config)) == Plans(live)
  {
    NotPlanFacts(config);
    MarkKeepsSources(NotPlan(config), ActiveContents(live));
    InterleaveKeepsPlans(live, Mark(NotPlan(config), ActiveContents(live)), false);
  }

  /** Every entry is a plan rule or one of the others, once. */
  lemma {:induction false} PartsMakeUp(rules: seq<Entry>)
    ensures multiset(Plans(rules)) + multiset(NotPlan(rules)) == multiset(rules)
    ensures (forall e :: e in Plans(rules) ==> IsPlan(e)) && NoPlans(NotPlan(rules))
  {
    if rules != [] {
      PartsMakeUp(rules[1..]);
      assert rules == [rules[0]] + rules[1..];
    }
  }

  // ---- The marks -----------------------------------------------------------------------------

  lemma {:induction false} ActiveAppend(a: seq<Entry>, b: seq<Entry>)
    ensures ActiveContents(a + b) == ActiveContents(a) + ActiveContents(b)
  {
    hide ActiveContent;
    if a == [] {
      assert a + b == b;
    } else {
      ActiveAppend(a[1..], b);
      assert (a + b)[0] == a[0] && (a + b)[1..] == a[1..] + b;
      Regroup(ActiveContent(a[0]), ActiveContents(a[1..]), ActiveContents(b));
    }
  }

  lemma {:induction false} InterleaveActive(live: seq<Entry>, manual: seq<Entry>, placed: bool)
    ensures ActiveContents(Interleave(live, manual, placed)) == if placed then [] else ActiveContents(manual)
  {
    if live != [] {
      if IsPlan(live[0]) {
        InterleaveActive(live[1..], manual, placed);
        assert Interleave(live, manual, placed)[1..] == Interleave(live[1..], manual, placed);
      } else {
        InterleaveActive(live[1..], manual, true);
        ActiveAppend(if placed then [] else manual, Interleave(live[1..], manual, true));
      }
    }
  }

  lemma MarkHead(rules: seq<Entry>, active: seq<Content>)
    requires rules != [] && !IsPlan(rules[0]) && (rules[0].IsRule? ==> !rules[0].rule.wasActive)
    ensures var e := rules[0];
            if e.IsRule? && e.rule.content in active
            then ActiveContents(Mark(rules, active))
                 == [e.rule.content] + ActiveContents(Mark(rules[1..], Without(active, e.rule.content)))
            else ActiveContents(Mark(rules, active)) == ActiveContents(Mark(rules[1..], active))
  {
    var e := rules[0];
    if e.IsRule? && e.rule.content in active {
      var first, rest := IsRule(e.rule.(wasActive := true)), Mark(rules[1..], Without(active, e.rule.content));
      assert Mark(rules, active) == [first] + rest;
      assert ([first] + rest)[1..] == rest;
    } else {
      var rest := Mark(rules[1..], active);
      assert Mark(rules, active) == [e] + rest;
      assert ([e] + rest)[1..] == rest && ActiveContent(e) == [];
    }
  }

  ghost function Count(s: seq<Content>, c: Content): nat { multiset(s)[c] }

  lemma CountHead(head: Content, rest: seq<Content>, c: Content)
    ensures Count([head] + rest, c) == Count(rest, c) + if c == head then 1 else 0
  {
  }

  lemma CountWithout(cs: seq<Content>, x: Content, c: Content)
    ensures x in cs ==> Count(Without(cs, x), c) == Count(cs, c) - if c == x then 1 else 0
    ensures x !in cs ==> Count(cs, x) == 0
  {
  }

  lemma ContentsHead(rules: seq<Entry>)
    requires rules != []
    ensures Contents(rules)
            == (if rules[0].IsRule? then [rules[0].rule.content] else []) + Contents(rules[1..])
  {
  }

  lemma RestIsManual(rules: seq<Entry>)
    requires NoPlans(rules) && Unmarked(rules) && rules != []
    ensures NoPlans(rules[1..]) && Unmarked(rules[1..]) && !IsPlan(rules[0])
            && (rules[0].IsRule? ==> !rules[0].rule.wasActive)
  {
    assert rules[0] in rules && forall x :: x in rules[1..] ==> x in rules;
  }

  lemma MarkCounts(rules: seq<Entry>, active: seq<Content>, c: Content)
    requires rules != [] && !IsPlan(rules[0]) && (rules[0].IsRule? ==> !rules[0].rule.wasActive)
    ensures var e := rules[0];
            if e.IsRule? && e.rule.content in active
            then Count(ActiveContents(Mark(rules, active)), c)
                 == Count(ActiveContents(Mark(rules[1..], Without(active, e.rule.content))), c)
                    + (if c == e.rule.content then 1 else 0)
            else Count(ActiveContents(Mark(rules, active)), c) == Count(ActiveContents(Mark(rules[1..], active)), c)
  {
    var e := rules[0];
    MarkHead(rules, active);
    hide Mark, ActiveContents, IsPlan, Count;
    if e.IsRule? && e.rule.content in active {
      CountHead(e.rule.content, ActiveContents(Mark(rules[1..], Without(active, e.rule.content))), c);
    }
  }

  lemma ContentsCount(rules: seq<Entry>, c: Content)
    requires rules != []
    ensures Count(Contents(rules), c)
            == Count(Contents(rules[1..]), c) + if rules[0].IsRule? && rules[0].rule.content == c then 1 else 0
  {
    ContentsHead(rules);
    if rules[0].IsRule? { CountHead(rules[0].rule.content, Contents(rules[1..]), c); }
    hide Count, Contents;
    assert [] + Contents(rules[1..]) == Contents(rules[1..]);
  }

  lemma {:induction false} MarksPlaced(rules: seq<Entry>, active: seq<Content>, c: Content)
    requires NoPlans(rules) && Unmarked(rules)
    ensures Count(ActiveContents(Mark(rules, active)), c) == Min(Count(active, c), Count(Contents(rules), c))
  {
    hide Mark, ActiveContents, IsPlan, Count, NoPlans, Unmarked, Contents, Without;
    if rules == [] {
      NothingMarked(rules, active, c);
    } else {
      var e, rest := rules[0], rules[1..];
      RestIsManual(rules);
      MarkCounts(rules, active, c);
      ContentsCount(rules, c);
      if e.IsRule? && e.rule.content in active {
        CountWithout(active, e.rule.content, c);
        MarksPlaced(rest, Without(active, e.rule.content), c);
      } else {
        if e.IsRule? { CountWithout(active, e.rule.content, c); }
        MarksPlaced(rest, active, c);
      }
    }
  }

  lemma NothingMarked(rules: seq<Entry>, active: seq<Content>, c: Content)
    requires rules == []
    ensures Count(ActiveContents(Mark(rules, active)), c) == 0 && Count(Contents(rules), c) == 0
  {
  }

  /**
    A reload gives each content as many marks as it had, as far as there are rules with that
    content in the configuration; a changed rule starts without one.
   */
  lemma MergeKeepsMarks(live: seq<Entry>, config: seq<Entry>, c: Content)
    requires Unmarked(config)
    ensures multiset(ActiveContents(Merge(live, config)))[c]
            == Min(multiset(ActiveContents(live))[c], multiset(Contents(NotPlan(config)))[c])
  {
    NotPlanFacts(config);
    InterleaveActive(live, Mark(NotPlan(config), ActiveContents(live)), false);
    MarksPlaced(NotPlan(config), ActiveContents(live), c);
  }

  lemma {:induction false} SanitizedFacts(live: seq<Entry>)
    ensures Unmarked(Sanitize(live)) && NoPlans(Sanitize(live)) && NotPlan(Sanitize(live)) == Sanitize(live)
    ensures forall e :: e in Sanitize(live) ==> e.IsRule? && e.rule == Stripped(e.rule)
  {
    if live != [] {
      SanitizedFacts(live[1..]);
      var rest := Sanitize(live[1..]);
      if live[0].IsRule? && !IsPlan(live[0]) {
        assert ([IsRule(Stripped(live[0].rule))] + rest)[1..] == rest;
      } else {
        assert [] + rest == rest;
      }
    }
  }

  lemma {:induction false} ActiveAmongContents(live: seq<Entry>, c: Content)
    ensures multiset(ActiveContents(live))[c] <= multiset(Contents(Sanitize(live)))[c]
  {
    if live != [] {
      ActiveAmongContents(live[1..], c);
      var rest := Sanitize(live[1..]);
      if live[0].IsRule? && !IsPlan(live[0]) {
        assert ([IsRule(Stripped(live[0].rule))] + rest)[1..] == rest;
      } else {
        assert [] + rest == rest;
      }
    }
  }

  /** Reloading what was persisted keeps every mark. */
  lemma ReloadKeepsMarks(live: seq<Entry>)
    ensures multiset(ActiveContents(Merge(live, Sanitize(live)))) == multiset(ActiveContents(live))
  {
    SanitizedFacts(live);
    forall c ensures multiset(ActiveContents(Merge(live, Sanitize(live))))[c] == multiset(ActiveContents(live))[c] {
      MergeKeepsMarks(live, Sanitize(live), c);
      ActiveAmongContents(live, c);
    }
  }

  // ---- What the merged list looks like -------------------------------------------------------

  /** Marking changes nothing but marks, and gives them to the first rules with a content. */
  lemma {:induction false} MarkAt(rules: seq<Entry>, active: seq<Content>, i: nat)
    requires i < |rules|
    ensures |Mark(rules, active)| == |rules|
    ensures Mark(rules, active)[i]
            == if rules[i].IsRule?
                  && Count(Contents(rules[..i]), rules[i].rule.content) < Count(active, rules[i].rule.content)
               then IsRule(rules[i].rule.(wasActive := true))
               else rules[i]
  {
    hide Count, Without, Contents, Mark;
    var e, rest := rules[0], rules[1..];
    var left := if e.IsRule? && e.rule.content in active then Without(active, e.rule.content) else active;
    MarkFirst(rules, active);
    if i == 0 {
      NothingBefore(rules);
      if e.IsRule? { CountPositive(active, e.rule.content); }
    } else {
      MarkAt(rest, left, i - 1);
      if rules[i].IsRule? { CountsMoveOn(rules, active, i); }
    }
  }

  lemma MarkFirst(rules: seq<Entry>, active: seq<Content>)
    requires rules != []
    ensures var e := rules[0];
            var given := e.IsRule? && e.rule.content in active;
            var rest := Mark(rules[1..], if given then Without(active, e.rule.content) else active);
            && Mark(rules, active) == [if given then IsRule(e.rule.(wasActive := true)) else e] + rest
            && |rest| == |rules| - 1
  {
    var e := rules[0];
    MarkLength(rules[1..], if e.IsRule? && e.rule.content in active then Without(active, e.rule.content) else active);
  }

  /** Whether there is a mark left for a later rule does not depend on whether the first one is taken out. */
  lemma CountsMoveOn(rules: seq<Entry>, active: seq<Content>, i: nat)
    requires 0 < i < |rules| && rules[i].IsRule?
    ensures var e, c := rules[0], rules[i].rule.content;
            var left := if e.IsRule? && e.rule.content in active then Without(active, e.rule.content) else active;
            Count(Contents(rules[..i]), c) < Count(active, c)
            <==> Count(Contents(rules[1..][..i - 1]), c) < Count(left, c)
  {
    hide Count, Without, Contents;
    var e, c := rules[0], rules[i].rule.content;
    assert rules[..i][1..] == rules[1..][..i - 1] && rules[..i][0] == e;
    ContentsCount(rules[..i], c);
    if e.IsRule? { CountWithout(active, e.rule.content, c); }
  }

  lemma {:induction false} MarkLength(rules: seq<Entry>, active: seq<Content>)
    ensures |Mark(rules, active)| == |rules|
  {
    if rules != [] {
      var e := rules[0];
      MarkLength(rules[1..], if e.IsRule? && e.rule.content in active then Without(active, e.rule.content) else active);
    }
  }

  lemma NothingBefore(rules: seq<Entry>)
    ensures forall c :: Count(Contents(rules[..0]), c) == 0
  {
  }

  lemma CountPositive(cs: seq<Content>, c: Content)
    ensures Count(cs, c) > 0 <==> c in cs
  {
  }

  /**
    A reload puts the configuration's rules, marks given, where the first entry that is no plan rule
    stood, or at the end; of the live list only the plan rules stay, in their order.
   */
  lemma {:induction false} MergeShape(live: seq<Entry>, config: seq<Entry>, k: nat)
    requires k <= |live| && (forall i :: 0 <= i < k ==> IsPlan(live[i])) && (k < |live| ==> !IsPlan(live[k]))
    ensures Merge(live, config) == live[..k] + Mark(NotPlan(config), ActiveContents(live)) + Plans(live[k..])
  {
    Placed(live, Mark(NotPlan(config), ActiveContents(live)), k);
  }

  lemma {:induction false} Placed(live: seq<Entry>, manual: seq<Entry>, k: nat)
    requires k <= |live| && (forall i :: 0 <= i < k ==> IsPlan(live[i])) && (k < |live| ==> !IsPlan(live[k]))
    ensures Interleave(live, manual, false) == live[..k] + manual + Plans(live[k..])
  {
    if k > 0 {
      PlanFirst(live, manual);
      hide Interleave, Plans, IsPlan;
      Placed(live[1..], manual, k - 1);
      assert live[1..][k - 1..] == live[k..] && live[..k] == [live[0]] + live[1..][..k - 1];
      Regroup([live[0]], live[1..][..k - 1], manual);
      Regroup([live[0]], live[1..][..k - 1] + manual, Plans(live[k..]));
    } else {
      PlacedFirst(live, manual);
    }
  }

  lemma PlacedFirst(live: seq<Entry>, manual: seq<Entry>)
    requires live == [] || !IsPlan(live[0])
    ensures Interleave(live, manual, false) == live[..0] + manual + Plans(live[0..])
  {
    assert live[0..] == live && live[..0] + manual == manual;
    if live != [] {
      PlansFollow(live[1..], manual);
      assert [] + Plans(live[1..]) == Plans(live[1..]);
    }
  }

  lemma PlanFirst(live: seq<Entry>, manual: seq<Entry>)
    requires live != [] && IsPlan(live[0])
    ensures Interleave(live, manual, false) == [live[0]] + Interleave(live[1..], manual, false)
  {
  }

  lemma {:induction false} PlansFollow(live: seq<Entry>, manual: seq<Entry>)
    ensures Interleave(live, manual, true) == Plans(live)
  {
    if live != [] { PlansFollow(live[1..], manual); }
  }

  /** What is persisted: the rules made by hand, in order, each without its mark, days and one-time flag. */
  lemma {:induction false} PersistedRules(live: seq<Entry>)
    ensures Contents(Sanitize(live)) == Contents(NotPlan(live))
    ensures forall e :: e in Sanitize(live) <==>
              exists r :: r in live && r.IsRule? && r.rule.content.source != PLAN
                          && e == IsRule(r.rule.(days := None, oneTime := None, wasActive := false))
  {
    if live != [] {
      PersistedRules(live[1..]);
      ContentsInFront(live[0], NotPlan(live[1..]));
      if live[0].IsRule? { ContentsInFront(IsRule(Stripped(live[0].rule)), Sanitize(live[1..])); }
      assert [] + NotPlan(live[1..]) == NotPlan(live[1..]) && [] + Sanitize(live[1..]) == Sanitize(live[1..]);
      assert live == [live[0]] + live[1..];
      assert forall r :: r in live <==> r == live[0] || r in live[1..];
    }
  }

  lemma ContentsInFront(e: Entry, rest: seq<Entry>)
    ensures Contents([e] + rest) == (if e.IsRule? then [e.rule.content] else []) + Contents(rest)
  {
    assert ([e] + rest)[1..] == rest;
  }

  // ---- Reloading twice -----------------------------------------------------------------------

  lemma {:induction false} MarksByCount(rules: seq<Entry>, a: seq<Content>, b: seq<Content>)
    requires multiset(a) == multiset(b)
    ensures Mark(rules, a) == Mark(rules, b)
  {
    if rules != [] {
      assert forall c :: c in a <==> c in multiset(a);
      assert forall c :: c in b <==> c in multiset(b);
      if rules[0].IsRule? && rules[0].rule.content in a {
        MarksByCount(rules[1..], Without(a, rules[0].rule.content), Without(b, rules[0].rule.content));
      } else {
        MarksByCount(rules[1..], a, b);
      }
    }
  }

  lemma {:induction false} SanitizeAppend(a: seq<Entry>, b: seq<Entry>)
    ensures Sanitize(a + b) == Sanitize(a) + Sanitize(b)
  {
    if a == [] {
      assert a + b == b;
    } else {
      SanitizeAppend(a[1..], b);
      assert (a + b)[0] == a[0] && (a + b)[1..] == a[1..] + b;
      hide Sanitized;
      Regroup(Sanitized(a[0]), Sanitize(a[1..]), Sanitize(b));
    }
  }

  lemma {:induction false} InterleaveSanitized(live: seq<Entry>, manual: seq<Entry>, placed: bool)
    ensures Sanitize(Interleave(live, manual, placed)) == if placed then [] else Sanitize(manual)
  {
    if live != [] {
      if IsPlan(live[0]) {
        InterleaveSanitized(live[1..], manual, placed);
        assert Interleave(live, manual, placed)[1..] == Interleave(live[1..], manual, placed);
      } else {
        InterleaveSanitized(live[1..], manual, true);
        SanitizeAppend(if placed then [] else manual, Interleave(live[1..], manual, true));
      }
    }
  }

  lemma {:induction false} MarkedSanitized(rules: seq<Entry>, active: seq<Content>)
    requires NoPlans(rules) && forall e :: e in rules ==> e.IsRule? && e.rule == Stripped(e.rule)
    ensures Sanitize(Mark(rules, active)) == rules
  {
    if rules != [] {
      var e := rules[0];
      assert e in rules && forall x :: x in rules[1..] ==> x in rules;
      hide Mark, Without, Sanitize, Stripped, IsPlan;
      MarkedHead(rules, active);
      assert rules == [e] + rules[1..];
      if e.rule.content in active {
        MarkedSanitized(rules[1..], Without(active, e.rule.content));
      } else {
        MarkedSanitized(rules[1..], active);
      }
    }
  }

  lemma MarkedHead(rules: seq<Entry>, active: seq<Content>)
    requires rules != [] && rules[0].IsRule? && !IsPlan(rules[0]) && rules[0].rule == Stripped(rules[0].rule)
    ensures var e := rules[0];
            var left := if e.rule.content in active then Without(active, e.rule.content) else active;
            Sanitize(Mark(rules, active)) == [e] + Sanitize(Mark(rules[1..], left))
  {
    var e := rules[0];
    var marked := e.rule.content in active;
    var rest := Mark(rules[1..], if marked then Without(active, e.rule.content) else active);
    var first := if marked then IsRule(e.rule.(wasActive := true)) else e;
    assert Mark(rules, active) == [first] + rest;
    assert Sanitized(first) == [e];
    hide Mark, Without, Sanitized;
    assert ([first] + rest)[1..] == rest;
  }

  lemma {:induction false} InterleaveTail(manual: seq<Entry>, plans: seq<Entry>, all: seq<Entry>)
    requires NoPlans(manual) && forall e :: e in plans ==> IsPlan(e)
    ensures Interleave(manual + plans, all, true) == plans
  {
    if manual != [] {
      assert manual[0] in manual && (manual + plans)[1..] == manual[1..] + plans;
      InterleaveTail(manual[1..], plans, all);
    } else {
      assert manual + plans == plans;
      if plans != [] {
        assert plans[0] in plans && plans == [] + plans && [] + plans[1..] == plans[1..];
        InterleaveTail([], plans[1..], all);
      }
    }
  }

  lemma {:induction false} AfterPlacing(live: seq<Entry>, manual: seq<Entry>)
    ensures forall e :: e in Interleave(live, manual, true) ==> IsPlan(e)
  {
    if live != [] { AfterPlacing(live[1..], manual); }
  }

  lemma {:induction false} InterleaveTwice(live: seq<Entry>, manual: seq<Entry>)
    requires NoPlans(manual)
    ensures Interleave(Interleave(live, manual, false), manual, false) == Interleave(live, manual, false)
  {
    if live != [] && IsPlan(live[0]) {
      InterleaveTwice(live[1..], manual);
      assert Interleave(live, manual, false)[1..] == Interleave(live[1..], manual, false);
    } else {
      var rest := if live == [] then [] else Interleave(live[1..], manual, true);
      if live != [] { AfterPlacing(live[1..], manual); }
      assert Interleave(live, manual, false) == manual + rest;
      PlaceFirst(manual, rest);
    }
  }

  /** Manual rules followed by plan rules stay as they are. */
  lemma PlaceFirst(manual: seq<Entry>, plans: seq<Entry>)
    requires NoPlans(manual) && forall e :: e in plans ==> IsPlan(e)
    ensures Interleave(manual + plans, manual, false) == manual + plans
  {
    if manual == [] {
      assert manual + plans == plans;
      NothingToPlace(plans);
    } else {
      assert manual[0] in manual && (manual + plans)[1..] == manual[1..] + plans;
      InterleaveTail(manual[1..], plans, manual);
    }
  }

  lemma {:induction false} NothingToPlace(plans: seq<Entry>)
    requires forall e :: e in plans ==> IsPlan(e)
    ensures Interleave(plans, [], false) == plans
  {
    if plans != [] { assert plans[0] in plans; NothingToPlace(plans[1..]); }
  }

  /** Reloading once more changes nothing. */
  lemma ReloadIsIdempotent(live: seq<Entry>)
    ensures var once := Merge(live, Sanitize(live));
            Merge(once, Sanitize(once)) == once
  {
    var c := Sanitize(live);
    var marked := Mark(c, ActiveContents(live));
    var once := Merge(live, c);
    SanitizedFacts(live);
    assert once == Interleave(live, marked, false);
    MarkedSanitized(c, ActiveContents(live));
    InterleaveSanitized(live, marked, false);
    assert Sanitize(once) == c;
    ReloadKeepsMarks(live);
    MarksByCount(c, ActiveContents(once), ActiveContents(live));
    MarkKeepsSources(c, ActiveContents(live));
    InterleaveTwice(live, marked);
  }

  // ---- Switching off ---------------------------------------------------------------------------

  predicate OverAt(c: Content, nowMin: int, parse: string -> Option<int>) {
    c.enabled != Some(false) && !Matches(c, nowMin, parse)
  }

  function Over(cs: seq<Content>, nowMin: int, parse: string -> Option<int>): multiset<Content> {
    if cs == [] then multiset{}
    else (if OverAt(cs[0], nowMin, parse) then multiset{cs[0]} else multiset{}) + Over(cs[1..], nowMin, parse)
  }

  lemma {:induction false} OverCounts(cs: seq<Content>, nowMin: int, parse: string -> Option<int>, c: Content)
    ensures Over(cs, nowMin, parse)[c] == if OverAt(c, nowMin, parse) then multiset(cs)[c] else 0
  {
    if cs != [] {
      OverCounts(cs[1..], nowMin, parse, c);
      assert cs == [cs[0]] + cs[1..];
    }
  }

  lemma OffHead(e: Entry, rest: seq<Entry>, nowMin: int, parse: string -> Option<int>)
    ensures SwitchedOff([e] + rest, nowMin, parse)
            == (if Expires(e, nowMin, parse) then multiset{e.rule.content} else multiset{})
              + SwitchedOff(rest, nowMin, parse)
  {
    assert ([e] + rest)[1..] == rest;
  }

  lemma OverHead(c: Content, rest: seq<Content>, nowMin: int, parse: string -> Option<int>)
    ensures Over([c] + rest, nowMin, parse)
            == (if OverAt(c, nowMin, parse) then multiset{c} else multiset{}) + Over(rest, nowMin, parse)
  {
    assert ([c] + rest)[1..] == rest;
  }

  lemma PartsHead(rules: seq<Entry>)
    requires rules != []
    ensures var e, rest := rules[0], rules[1..];
            && Plans(rules) == (if IsPlan(e) then [e] + Plans(rest) else Plans(rest))
            && ActiveContents(rules) == (if e.IsRule? && !IsPlan(e) && e.rule.wasActive
                                         then [e.rule.content] + ActiveContents(rest)
                                         else ActiveContents(rest))
  {
  }

  lemma {:induction false} OffByParts(rules: seq<Entry>, nowMin: int, parse: string -> Option<int>)
    ensures SwitchedOff(rules, nowMin, parse)
            == SwitchedOff(Plans(rules), nowMin, parse) + Over(ActiveContents(rules), nowMin, parse)
  {
    if rules != [] {
      var e, rest := rules[0], rules[1..];
      OffByParts(rest, nowMin, parse);
      assert rules == [e] + rest;
      OffHead(e, rest, nowMin, parse);
      PartsHead(rules);
      hide SwitchedOff, Over, Matches, Plans, ActiveContents;
      if IsPlan(e) {
        OffHead(e, Plans(rest), nowMin, parse);
      } else if e.IsRule? && e.rule.wasActive {
        OverHead(e.rule.content, ActiveContents(rest), nowMin, parse);
      }
    }
  }

  /**
    After reloading what was persisted, the next check switches off the same rules as on the
    live list, at every minute of the day.
   */
  lemma ReloadSwitchesOffTheSame(live: seq<Entry>, nowMin: int, parse: string -> Option<int>)
    ensures SwitchedOff(Merge(live, Sanitize(live)), nowMin, parse) == SwitchedOff(live, nowMin, parse)
  {
    var once := Merge(live, Sanitize(live));
    MergeKeepsPlans(live, Sanitize(live));
    ReloadKeepsMarks(live);
    OffByParts(live, nowMin, parse);
    OffByParts(once, nowMin, parse);
    forall c ensures Over(ActiveContents(once), nowMin, parse)[c] == Over(ActiveContents(live), nowMin, parse)[c] {
      OverCounts(ActiveContents(once), nowMin, parse, c);
      OverCounts(ActiveContents(live), nowMin, parse, c);
    }
  }

  /**
    On the clock: a rule matches if it is not switched off and less time has passed since its start
    than lies between its start and its end, over midnight if need be.
   */
  lemma MatchesOnTheClock(c: Content, nowMin: int, parse: string -> Option<int>)
    requires 0 <= nowMin < 1440
    requires parse(c.start).Some? && parse(c.end).Some?
    requires 0 <= parse(c.start).value < 1440 && 0 <= parse(c.end).value < 1440
    ensures var s, e := parse(c.start).value, parse(c.end).value;
            Matches(c, nowMin, parse) <==> c.enabled != Some(false) && (nowMin - s) % 1440 < (e - s) % 1440
  {
    var s, e := parse(c.start).value, parse(c.end).value;
    OnTheClock(nowMin - s);
    OnTheClock(e - s);
  }

  lemma OnTheClock(d: int)
    requires -1440 < d < 1440
    ensures d % 1440 == if d < 0 then d + 1440 else d
  {
  }

  /** A time that cannot be read never matches, so a marked rule with one is switched off at the next check. */
  lemma UnreadableNeverMatches(c: Content, nowMin: int, parse: string -> Option<int>)
    requires parse(c.start).None? || parse(c.end).None?
    ensures !Matches(c, nowMin, parse)
  {
  }

  /** After a check a rule is off if it was, or if it carried the mark outside its window; then the mark is gone. */
  lemma OffIffOver(rules: seq<Entry>, nowMin: int, parse: string -> Option<int>, i: nat)
    requires i < |rules| && rules[i].IsRule?
    ensures var was, after := rules[i].rule, AutoDisable(rules, nowMin, parse);
            && |after| == |rules| && after[i].IsRule?
            && var now := after[i].rule;
            && (now.content.enabled == Some(false) <==>
                  was.content.enabled == Some(false) || (was.wasActive && !Matches(was.content, nowMin, parse)))
            && (now.content.enabled == was.content.enabled ==> now == was)
            && (now.content.enabled != was.content.enabled ==>
                  now == was.(wasActive := false, content := was.content.(enabled := Some(false))))
  {
    AutoDisableFinishes(rules, nowMin, parse);
  }

  /** What is switched off is what the check disables: afterwards nothing is left to switch off. */
  lemma {:induction false} AutoDisableFinishes(rules: seq<Entry>, nowMin: int, parse: string -> Option<int>)
    ensures var after := AutoDisable(rules, nowMin, parse);
            && SwitchedOff(after, nowMin, parse) == multiset{}
            && |after| == |rules|
            && forall i :: 0 <= i < |rules| ==>
                 after[i] == if Expires(rules[i], nowMin, parse) then Disabled(rules[i]) else rules[i]
  {
    if rules != [] {
      AutoDisableFinishes(rules[1..], nowMin, parse);
      assert AutoDisable(rules, nowMin, parse)[1..] == AutoDisable(rules[1..], nowMin, parse);
    }
  }
}
