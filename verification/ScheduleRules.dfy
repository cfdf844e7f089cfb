/**
  Reloading schedule rules: rules made by hand come from the configuration, plan rules stay as
  they are in the running state, and a rule that comes back unchanged keeps its mark of having
  been active, so that it is switched off after its time window.
 */
module ScheduleRules {
  import opened Wrappers

  /** What is compared and stored: everything but private fields, `days` and `oneTime`. */
  datatype Content = Content(source: string, enabled: Option<bool>, start: string, end: string,
                             other: map<string, string>)

  /** A rule with its fields that are not stored (`days`, `oneTime`) or private (the mark and any others). */
  datatype Rule = Rule(content: Content, days: Option<string>, oneTime: Option<string>, wasActive: bool,
                       hidden: map<string, string>)

  /** A list may also hold values that are no rules. */
  datatype Entry = Junk(value: string) | IsRule(rule: Rule)

  const PLAN := "forecast_optimizer"

  predicate IsPlan(e: Entry) { e.IsRule? && e.rule.content.source == PLAN }

  // ---- Matching a time -------------------------------------------------------------------

  /** `parse` reads a time of day as minutes, or fails. */
  predicate Matches(c: Content, nowMin: int, parse: string -> Option<int>) {
    && c.enabled != Some(false)
    && parse(c.start).Some? && parse(c.end).Some?
    && var s, e := parse(c.start).value, parse(c.end).value;
       if s <= e then s <= nowMin < e else nowMin >= s || nowMin < e
  }

  // ---- Persisting and merging ------------------------------------------------------------

  function Stripped(r: Rule): Rule { r.(days := None, oneTime := None, wasActive := false) }

  /** What is written to the configuration: rules made by hand, without runtime marks. */
  function Sanitize(rules: seq<Entry>): seq<Entry> {
    if rules == [] then [] else Sanitized(rules[0]) + Sanitize(rules[1..])
  }

  function Sanitized(e: Entry): seq<Entry> {
    if e.IsRule? && !IsPlan(e) then [IsRule(Stripped(e.rule))] else []
  }

  /** Contents of the rules made by hand that carry the mark. */
  function ActiveContents(rules: seq<Entry>): seq<Content> {
    if rules == [] then [] else ActiveContent(rules[0]) + ActiveContents(rules[1..])
  }

  function ActiveContent(e: Entry): seq<Content> {
    if e.IsRule? && !IsPlan(e) && e.rule.wasActive then [e.rule.content] else []
  }

  /** The list without its first `c`. */
  function Without(cs: seq<Content>, c: Content): (r: seq<Content>)
    requires c in cs
    ensures multiset(r) == multiset(cs) - multiset{c}
    ensures |r| == |cs| - 1
  {
    if cs[0] == c then
      assert cs == [c] + cs[1..];
      cs[1..]
    else
      assert cs == [cs[0]] + cs[1..];
      [cs[0]] + Without(cs[1..], c)
  }

  function NotPlan(rules: seq<Entry>): seq<Entry> {
    if rules == [] then [] else (if IsPlan(rules[0]) then [] else [rules[0]]) + NotPlan(rules[1..])
  }

  /** Gives the marks in `active` to the first rules with the same content, each mark once. */
  function Mark(rules: seq<Entry>, active: seq<Content>): seq<Entry> {
    if rules == [] then []
    else if rules[0].IsRule? && rules[0].rule.content in active
    then [IsRule(rules[0].rule.(wasActive := true))] + Mark(rules[1..], Without(active, rules[0].rule.content))
    else [rules[0]] + Mark(rules[1..], active)
  }

  /** Plan rules of the running state, with `manual` where the first other entry stood. */
  function Interleave(live: seq<Entry>, manual: seq<Entry>, placed: bool): seq<Entry> {
    if live == [] then (if placed then [] else manual)
    else if IsPlan(live[0]) then [live[0]] + Interleave(live[1..], manual, placed)
    else (if placed then [] else manual) + Interleave(live[1..], manual, true)
  }

  function Merge(live: seq<Entry>, config: seq<Entry>): seq<Entry> {
    Interleave(live, Mark(NotPlan(config), ActiveContents(live)), false)
  }

  method MergeLoadedScheduleRules(live: seq<Entry>, config: seq<Entry>) returns (out: seq<Entry>)
    ensures out == Merge(live, config)
  {
    var wasActive := ActiveContents(live);
    var fromConfig := MarkAll(NotPlan(config), wasActive);
    out := Arrange(live, fromConfig);
  }

  method Arrange(live: seq<Entry>, fromConfig: seq<Entry>) returns (out: seq<Entry>)
    ensures out == Interleave(live, fromConfig, false)
  {
    out := [];
    var placed := false;
    var i := 0;
    while i < |live|
      invariant 0 <= i <= |live|
      invariant out + Interleave(live[i..], fromConfig, placed) == Interleave(live, fromConfig, false)
    {
      var r := live[i];
      assert live[i..][1..] == live[i + 1..];
      if IsPlan(r) {
        out := out + [r];
      } else if !placed {
        out := out + fromConfig;
        placed := true;
      }
      i := i + 1;
    }
    if !placed { out := out + fromConfig; }
  }

  method MarkAll(rules: seq<Entry>, active: seq<Content>) returns (out: seq<Entry>)
    ensures out == Mark(rules, active)
  {
    out := [];
    var left := active;
    var i := 0;
    while i < |rules|
      invariant 0 <= i <= |rules|
      invariant |out| == i && out + Mark(rules[i..], left) == Mark(rules, active)
    {
      assert rules[i..][1..] == rules[i + 1..];
      var r := rules[i];
      ghost var before := out;
      if r.IsRule? && r.rule.content in left {
        var marked := IsRule(r.rule.(wasActive := true));
        assert Mark(rules[i..], left) == [marked] + Mark(rules[i + 1..], Without(left, r.rule.content));
        left := Without(left, r.rule.content);
        out := out + [marked];
      } else {
        assert Mark(rules[i..], left) == [r] + Mark(rules[i + 1..], left);
        out := out + [r];
      }
      hide Mark, Without;
      Regroup(before, [out[i]], Mark(rules[i + 1..], left));
      i := i + 1;
    }
  }

  // ---- Switching off after the window ------------------------------------------------------

  predicate Expires(e: Entry, nowMin: int, parse: string -> Option<int>) {
    e.IsRule? && e.rule.wasActive && e.rule.content.enabled != Some(false) && !Matches(e.rule.content, nowMin, parse)
  }

  function Disabled(e: Entry): Entry
    requires e.IsRule?
  {
    IsRule(e.rule.(wasActive := false, content := e.rule.content.(enabled := Some(false))))
  }

  function AutoDisable(rules: seq<Entry>, nowMin: int, parse: string -> Option<int>): seq<Entry> {
    if rules == [] then [] else [Checked(rules[0], nowMin, parse)] + AutoDisable(rules[1..], nowMin, parse)
  }

  function Checked(e: Entry, nowMin: int, parse: string -> Option<int>): Entry {
    if Expires(e, nowMin, parse) then Disabled(e) else e
  }

  method AutoDisableExpiredScheduleRules(rules: seq<Entry>, nowMin: int, parse: string -> Option<int>)
    returns (changed: bool, next: seq<Entry>)
    ensures next == AutoDisable(rules, nowMin, parse)
    ensures changed <==> exists e :: e in rules && Expires(e, nowMin, parse)
  {
    changed, next := false, [];
    var i := 0;
    while i < |rules|
      invariant 0 <= i <= |rules|
      invariant |next| == i && next + AutoDisable(rules[i..], nowMin, parse) == AutoDisable(rules, nowMin, parse)
      invariant changed <==> exists k :: 0 <= k < i && Expires(rules[k], nowMin, parse)
    {
      assert rules[i..][1..] == rules[i + 1..];
      Regroup(next, [Checked(rules[i], nowMin, parse)], AutoDisable(rules[i + 1..], nowMin, parse));
      if Expires(rules[i], nowMin, parse) {
        changed := true;
        next := next + [Disabled(rules[i])];
      } else {
        next := next + [rules[i]];
      }
      hide AutoDisable, Expires, Disabled;
      i := i + 1;
    }
  }

  /** The contents that one check switches off. */
  function SwitchedOff(rules: seq<Entry>, nowMin: int, parse: string -> Option<int>): multiset<Content> {
    if rules == [] then multiset{}
    else (if Expires(rules[0], nowMin, parse) then multiset{rules[0].rule.content} else multiset{})
         + SwitchedOff(rules[1..], nowMin, parse)
  }
}
