/**
  The limit controller over whole runs: it behaves like a lease of three fields, the commanded
  percentage, the time until which it holds and the last watchdog write, and never lets more feed
  in than commanded.
 */
module LuoxRuns {
  import opened Wrappers
  import opened Words
  import opened LuoxControl

  // ---- The invariant ---------------------------------------------------------------------

  ghost predicate Invariant(s: State, cfg: Config) {
    && 0 <= s.luox.setpointPct <= 100
    && !(s.ctrl.forcedOff && s.ctrl.dvLimitPct.Some?)
    && (s.luox.setpointPct < 100 <==> s.ctrl.forcedOff || s.ctrl.dvLimitPct.Some?)
    && (s.luox.setpointPct == 0 ==> s.ctrl.forcedOff)
    && (s.ctrl.dvLimitPct.Some? ==>
          && s.ctrl.dvLimitPct.value == s.luox.setpointPct
          && CanLimit(cfg)
          && s.device == Some(Share(s.luox.setpointPct, cfg.referencePowerW)))
  }

  /** The most that may feed in, in watts; none means no bound. */
  function Cap(s: State): Option<int> {
    if s.ctrl.forcedOff then Some(0) else s.device
  }

  lemma ShareNonnegative(pct: int, referencePowerW: int)
    requires pct >= 0 && referencePowerW >= 0
    ensures Share(pct, referencePowerW) >= 0
  {
    assert pct * referencePowerW >= 0;
  }

  /** A hundred times the limit is within fifty of percentage times power: it is the nearest whole number. */
  ghost predicate NearestShare(w: int, pct: int, referencePowerW: int) {
    pct * referencePowerW - 50 < 100 * w <= pct * referencePowerW + 50
  }

  lemma ShareIsNearest(pct: int, referencePowerW: int)
    ensures NearestShare(Share(pct, referencePowerW), pct, referencePowerW)
  {
    var x := pct * referencePowerW;
    assert Share(pct, referencePowerW) == (x + 50) / 100;
  }

  /** Below 100 % there is a cap, at most the commanded share; a partial limit is that share to the nearest watt. */
  lemma CapWithinShare(s: State, cfg: Config)
    requires Invariant(s, cfg) && s.luox.setpointPct < 100 && cfg.referencePowerW >= 0
    ensures Cap(s).Some? && Cap(s).value <= Share(s.luox.setpointPct, cfg.referencePowerW)
    ensures 100 * Cap(s).value <= s.luox.setpointPct * cfg.referencePowerW + 50
    ensures s.ctrl.dvLimitPct.Some? ==> NearestShare(Cap(s).value, s.luox.setpointPct, cfg.referencePowerW)
  {
    ShareNonnegative(s.luox.setpointPct, cfg.referencePowerW);
    ShareIsNearest(s.luox.setpointPct, cfg.referencePowerW);
    hide Share;
  }

  // ---- The lease it refines --------------------------------------------------------------

  /** The commanded percentage, until when it holds, and the last watchdog write. */
  datatype Lease = Lease(pct: int, until: int, watchdogAt: Option<int>)

  function LeaseOf(s: State): Lease {
    Lease(s.luox.setpointPct,
          if s.ctrl.forcedOff then s.ctrl.offUntil else if s.ctrl.dvLimitPct.Some? then s.ctrl.dvLimitUntil else 0,
          s.luox.watchdogAt)
  }

  /** Full feed-in needs no lease. */
  function LeaseSet(l: Lease, pct: int, at: int): Lease {
    var base := if l.watchdogAt.Some? && l.watchdogAt.value > 0 then l.watchdogAt.value else at;
    if Clamp(pct) == 100 then l.(pct := 100, until := 0) else l.(pct := Clamp(pct), until := base + WATCHDOG_MS)
  }

  function LeaseWatchdog(l: Lease, now: int): Lease {
    l.(watchdogAt := Some(now), until := if l.pct < 100 then now + WATCHDOG_MS else l.until)
  }

  function LeaseExpire(l: Lease, now: int): Lease {
    if l.pct < 100 && now > l.until then l.(pct := 100, until := 0) else l
  }

  /** When the limiter is asked for a partial limit and fails, the lease counts from then. */
  function SetAt(cfg: Config, pct: int, now: int, w: Written): int {
    if w.Failed? && 0 < Clamp(pct) < 100 && CanLimit(cfg) then w.at else now
  }

  lemma SetRefines(s: State, cfg: Config, pct: int, now: int, w: Written)
    requires Invariant(s, cfg)
    ensures Invariant(SetPct(s, cfg, pct, now, w), cfg)
    ensures LeaseOf(SetPct(s, cfg, pct, now, w)) == LeaseSet(LeaseOf(s), pct, SetAt(cfg, pct, now, w))
  {
  }

  lemma WatchdogRefines(s: State, cfg: Config, now: int)
    requires Invariant(s, cfg)
    ensures Invariant(Refresh(s, now), cfg)
    ensures LeaseOf(Refresh(s, now)) == LeaseWatchdog(LeaseOf(s), now)
  {
  }

  /** The first check after the deadline restores full feed-in; up to the deadline a check changes nothing. */
  lemma ExpireRefines(s: State, cfg: Config, now: int, w: Written)
    requires Invariant(s, cfg)
    ensures Invariant(Expire(s, cfg, now, w), cfg)
    ensures LeaseOf(Expire(s, cfg, now, w)) == LeaseExpire(LeaseOf(s), now)
    ensures s.luox.setpointPct < 100 && now > LeaseOf(s).until
            ==> var t := Expire(s, cfg, now, w);
                t.luox.setpointPct == 100 && !t.ctrl.forcedOff && t.ctrl.dvLimitPct.None?
    ensures now <= LeaseOf(s).until || s.luox.setpointPct == 100 ==> Expire(s, cfg, now, w) == s
  {
  }

  function LeaseChange(l: Lease, cfg: Config, change: Change, now: int, w: Written): Lease {
    match change
    case Rejected => l
    case Accepted(setpoint, watchdog) =>
      var m := if watchdog.Some? then LeaseWatchdog(l, now) else l;
      if setpoint.Some? then LeaseSet(m, setpoint.value, SetAt(cfg, setpoint.value, now, w)) else m
  }

  lemma ChangeRefines(s: State, cfg: Config, change: Change, now: int, w: Written)
    requires Invariant(s, cfg)
    ensures Invariant(ApplyChange(s, cfg, change, now, w), cfg)
    ensures LeaseOf(ApplyChange(s, cfg, change, now, w)) == LeaseChange(LeaseOf(s), cfg, change, now, w)
  {
    match change
    case Rejected =>
    case Accepted(setpoint, watchdog) =>
      var t := s;
      if watchdog.Some? {
        var u := s.(luox := s.luox.(watchdog := watchdog.value));
        WatchdogRefines(u, cfg, now);
        t := Refresh(u, now);
      }
      if setpoint.Some? { SetRefines(t, cfg, setpoint.value, now, w); }
  }

  // ---- Runs ------------------------------------------------------------------------------

  /** A request first checks the lease, then writes; a tick only checks. */
  datatype Event =
    | Write(addr: int, values: seq<Word>, now: int, expiring: Written, setting: Written)
    | Tick(now: int, expiring: Written)

  function Step(s: State, cfg: Config, e: Event): State {
    match e
    case Tick(now, expiring) => Expire(s, cfg, now, expiring)
    case Write(addr, values, now, expiring, setting) =>
      var t := Expire(s, cfg, now, expiring);
      ApplyChange(t, cfg, ChangeOf(t.luox, addr, values), now, setting)
  }

  function Run(s: State, cfg: Config, events: seq<Event>): State {
    if events == [] then s else Step(Run(s, cfg, events[..|events| - 1]), cfg, events[|events| - 1])
  }

  /** The same run of the lease, which has no device and no block: of a limiter's failure it only takes the time. */
  function LeaseStep(l: Lease, cfg: Config, e: Event): Lease {
    match e
    case Tick(now, _) => LeaseExpire(l, now)
    case Write(addr, values, now, _, setting) =>
      var m := LeaseExpire(l, now);
      var setpoint := Given(addr, values, SETPOINT);
      var touched := Given(addr, values, WATCHDOG).Some? || Given(addr, values, WATCHDOG + 1).Some?;
      if setpoint.Some? && setpoint.value > 100 then m
      else
        var n := if touched then LeaseWatchdog(m, now) else m;
        if setpoint.Some? then LeaseSet(n, setpoint.value, SetAt(cfg, setpoint.value, now, setting)) else n
  }

  function LeaseRun(l: Lease, cfg: Config, events: seq<Event>): Lease {
    if events == [] then l else LeaseStep(LeaseRun(l, cfg, events[..|events| - 1]), cfg, events[|events| - 1])
  }

  lemma StepRefines(s: State, cfg: Config, e: Event)
    requires Invariant(s, cfg)
    ensures Invariant(Step(s, cfg, e), cfg)
    ensures LeaseOf(Step(s, cfg, e)) == LeaseStep(LeaseOf(s), cfg, e)
  {
    match e
    case Tick(now, expiring) => ExpireRefines(s, cfg, now, expiring);
    case Write(addr, values, now, expiring, setting) =>
      ExpireRefines(s, cfg, now, expiring);
      var t := Expire(s, cfg, now, expiring);
      ChangeRefines(t, cfg, ChangeOf(t.luox, addr, values), now, setting);
  }

  /** Every run follows the lease: same percentage, same deadline. */
  lemma {:induction false} RunRefinesLease(cfg: Config, events: seq<Event>)
    ensures Invariant(Run(START, cfg, events), cfg)
    ensures LeaseOf(Run(START, cfg, events)) == LeaseRun(Lease(100, 0, None), cfg, events)
  {
    if events != [] {
      var before := events[..|events| - 1];
      RunRefinesLease(cfg, before);
      StepRefines(Run(START, cfg, before), cfg, events[|events| - 1]);
    }
  }

  /**
    In every run, feed-in is capped at the share the lease commands, an active partial limit is
    the last setpoint, and it never coexists with forced-off.
   */
  lemma RunNeverExceedsTheCommand(cfg: Config, events: seq<Event>)
    requires cfg.referencePowerW >= 0
    ensures var s := Run(START, cfg, events);
            var commanded := LeaseRun(Lease(100, 0, None), cfg, events).pct;
            && 0 <= commanded <= 100 && s.luox.setpointPct == commanded
            && (commanded < 100 ==> Cap(s).Some? && 100 * Cap(s).value <= commanded * cfg.referencePowerW + 50)
            && (commanded == 0 ==> Cap(s) == Some(0))
            && (s.ctrl.dvLimitPct.Some? ==>
                  && s.ctrl.dvLimitPct.value == commanded && !s.ctrl.forcedOff
                  && s.device.Some? && NearestShare(s.device.value, commanded, cfg.referencePowerW))
  {
    RunRefinesLease(cfg, events);
    var s := Run(START, cfg, events);
    if s.luox.setpointPct < 100 { CapWithinShare(s, cfg); }
  }

  // ---- Full feed-in is really free ---------------------------------------------------------

  /** Every write to the limiter succeeds. */
  ghost predicate NoFailure(e: Event) { e.expiring.Done? && (e.Write? ==> e.setting.Done?) }

  /** The limiter holds a limit just while a partial limit is in force. */
  ghost predicate LimiterFollows(s: State) { s.ctrl.dvLimitPct.None? ==> s.device.None? }

  lemma StepFollows(s: State, cfg: Config, e: Event)
    requires Invariant(s, cfg) && LimiterFollows(s) && NoFailure(e)
    ensures LimiterFollows(Step(s, cfg, e))
  {
  }

  lemma {:induction false} RunFollows(cfg: Config, events: seq<Event>)
    requires forall e :: e in events ==> NoFailure(e)
    ensures LimiterFollows(Run(START, cfg, events))
  {
    if events != [] {
      var before, last := events[..|events| - 1], events[|events| - 1];
      assert last in events && forall e :: e in before ==> e in events;
      RunFollows(cfg, before);
      RunRefinesLease(cfg, before);
      StepFollows(Run(START, cfg, before), cfg, last);
    }
  }

  /** If no write to the limiter fails, a run leaves feed-in uncapped if and only if the command is 100 %. */
  lemma FullFeedInIsUncapped(cfg: Config, events: seq<Event>)
    requires forall e :: e in events ==> NoFailure(e)
    ensures Cap(Run(START, cfg, events)).None? <==> LeaseRun(Lease(100, 0, None), cfg, events).pct == 100
  {
    RunFollows(cfg, events);
    RunRefinesLease(cfg, events);
  }

  /** A setpoint becomes a limit if and only if it is partial and a limiter takes it; any other below 100 % blocks. */
  lemma LimitIfPossible(s: State, cfg: Config, pct: int, now: int, w: Written)
    requires Invariant(s, cfg) && 0 <= pct <= 100
    ensures var c := SetPct(s, cfg, pct, now, w).ctrl;
            && (c.dvLimitPct.Some? <==> 0 < pct < 100 && cfg.referencePowerW > 0 && cfg.limiterEnabled && w.Done?)
            && (c.forcedOff <==> pct < 100 && c.dvLimitPct.None?)
  {
  }

  /** A write with an invalid setpoint changes nothing but what the lease check would have changed anyway. */
  lemma RejectedWriteChangesNothing(s: State, cfg: Config, addr: int, values: seq<Word>, now: int, expiring: Written,
                                    setting: Written)
    requires addr <= SETPOINT < addr + |values|
    ensures values[SETPOINT - addr] > 100
            ==> Step(s, cfg, Write(addr, values, now, expiring, setting)) == Step(s, cfg, Tick(now, expiring))
  {
  }

  /**
    How long a setpoint below 100 % lasts: up to the lease length after the last watchdog write,
    however long ago that was; only without any watchdog write does it count from the setting, or
    from the failure of the limiter that made it a block.
   */
  lemma SetpointLasts(s: State, cfg: Config, pct: int, now: int, later: int, w: Written, expiring: Written)
    requires Invariant(s, cfg) && 0 <= pct < 100
    ensures Expire(SetPct(s, cfg, pct, now, w), cfg, later, expiring).luox.setpointPct == pct
            <==> later <= (if s.luox.watchdogAt.Some? && s.luox.watchdogAt.value > 0 then s.luox.watchdogAt.value
                           else SetAt(cfg, pct, now, w)) + 900_000
  {
    SetRefines(s, cfg, pct, now, w);
    ExpireRefines(SetPct(s, cfg, pct, now, w), cfg, later, expiring);
  }

  /** So a setpoint after a silent watchdog is given up at once, at the very time it was set. */
  lemma StaleWatchdogDropsSetpoint(cfg: Config)
    ensures var silent := Run(START, cfg, [Write(WATCHDOG, [1], 1000, Done, Done)]);
            var now := 1000 + WATCHDOG_MS + 1;
            && SetPct(silent, cfg, 0, now, Done).luox.setpointPct == 0
            && Expire(SetPct(silent, cfg, 0, now, Done), cfg, now, Done).luox.setpointPct == 100
  {
    var events := [Write(WATCHDOG, [1], 1000, Done, Done)];
    assert events[..0] == [];
    RunRefinesLease(cfg, events);
  }
}
