/**
  The limit controller for the LUOX direct-marketer interface.

  A setpoint of 0..100 % of the reference power is turned into full feed-in, no feed-in
  (forced off) or a limit on the limiter device. It holds for a lease that watchdog writes
  extend. Times are integers in milliseconds. Every write to the limiter is finished, well or
  badly, before the next command.
 */
module LuoxControl {
  import opened Wrappers
  import opened Words

  const WATCHDOG_MS := 15 * 60 * 1000
  const SETPOINT := 2
  const WATCHDOG := 3

  /** The fixed configuration: reference power and whether the limiter is set up. */
  datatype Config = Config(referencePowerW: int, limiterEnabled: bool)

  datatype Ctrl = Ctrl(forcedOff: bool, offUntil: int, dvLimitPct: Option<int>, dvLimitUntil: int)

  datatype Luox = Luox(setpointPct: int, watchdog: (Word, Word), watchdogAt: Option<int>)

  /** `device` is the limit the limiter holds, in watts; none means no limit. */
  datatype State = State(ctrl: Ctrl, luox: Luox, device: Option<int>)

  const START := State(Ctrl(false, 0, None, 0), Luox(100, (0, 0), None), None)

  /** How a write to the limiter ends. A failed one is noticed at `at` and may leave any limit behind. */
  datatype Written = Done | Failed(left: Option<int>, at: int)

  function Share(pct: int, referencePowerW: int): int { (pct * referencePowerW + 50) / 100 }

  function LeaseUntil(l: Luox, now: int): int {
    (if l.watchdogAt.Some? && l.watchdogAt.value > 0 then l.watchdogAt.value else now) + WATCHDOG_MS
  }

  function ForceOff(s: State, until: int): State { s.(ctrl := s.ctrl.(forcedOff := true, offUntil := until)) }

  function ClearOff(s: State): State { s.(ctrl := s.ctrl.(forcedOff := false, offUntil := 0)) }

  function ClearIfOff(s: State): State { if s.ctrl.forcedOff then ClearOff(s) else s }

  function Refresh(s: State, now: int): State {
    var luox := s.luox.(watchdogAt := Some(now));
    var until := LeaseUntil(luox, now);
    var c := s.ctrl;
    s.(luox := luox, ctrl := c.(offUntil := if c.forcedOff then until else c.offUntil,
                                dvLimitUntil := if c.dvLimitPct.Some? then until else c.dvLimitUntil))
  }

  function Release(s: State, w: Written): State {
    if s.ctrl.dvLimitPct.None? then s
    else s.(ctrl := s.ctrl.(dvLimitPct := None, dvLimitUntil := 0), device := if w.Done? then None else w.left)
  }

  function Clamp(pct: int): (p: int)
    ensures 0 <= p <= 100
  {
    if pct < 0 then 0 else if pct > 100 then 100 else pct
  }

  predicate CanLimit(cfg: Config) { cfg.referencePowerW > 0 && cfg.limiterEnabled }

  function SetPct(s0: State, cfg: Config, pct: int, now: int, w: Written): State {
    var p := Clamp(pct);
    var s := s0.(luox := s0.luox.(setpointPct := p));
    if p >= 100 then ClearIfOff(Release(s, w))
    else if p <= 0 then ForceOff(Release(s, w), LeaseUntil(s.luox, now))
    else if !CanLimit(cfg) then ForceOff(s, LeaseUntil(s.luox, now))
    else
      var on := ClearIfOff(s);
      match w
      case Done =>
        on.(ctrl := on.ctrl.(dvLimitPct := Some(p), dvLimitUntil := LeaseUntil(s.luox, now)),
            device := Some(Share(p, cfg.referencePowerW)))
      case Failed(left, at) =>
        ForceOff(on.(ctrl := on.ctrl.(dvLimitPct := None, dvLimitUntil := 0), device := left), LeaseUntil(s.luox, at))
  }

  /** The lease check: first the forced-off lease, then the limit's. */
  function Expire(s: State, cfg: Config, now: int, w: Written): State {
    var t := if s.ctrl.forcedOff && now > s.ctrl.offUntil
             then ClearOff(s).(luox := s.luox.(setpointPct := 100)) else s;
    if t.ctrl.dvLimitPct.Some? && now > t.ctrl.dvLimitUntil then SetPct(t, cfg, 100, now, w) else t
  }

  // ---- Register writes -------------------------------------------------------------------

  datatype Change = Rejected | Accepted(setpointPct: Option<int>, watchdog: Option<(Word, Word)>)

  /** The value a write of `values` at `addr` gives register `reg`, if it covers it. */
  function Given(addr: int, values: seq<Word>, reg: int): Option<Word> {
    if addr <= reg < addr + |values| then Some(values[reg - addr]) else None
  }

  /** The specification of a register write: nothing of it applies unless all of it is valid. */
  function ChangeOf(l: Luox, addr: int, values: seq<Word>): Change {
    var p := Given(addr, values, SETPOINT);
    var lo, hi := Given(addr, values, WATCHDOG), Given(addr, values, WATCHDOG + 1);
    if p.Some? && p.value > 100 then Rejected
    else Accepted(p, if lo.Some? || hi.Some? then Some((lo.GetOr(l.watchdog.0), hi.GetOr(l.watchdog.1))) else None)
  }

  method LuoxApplyWrite(l: Luox, addr: int, values: seq<Word>) returns (change: Change)
    ensures change == ChangeOf(l, addr, values)
  {
    var setpoint: Option<int> := None;
    var wd := l.watchdog;
    var touched := false;
    var i := 0;
    while i < |values|
      invariant 0 <= i <= |values|
      invariant setpoint == Given(addr, values[..i], SETPOINT) && (setpoint.Some? ==> setpoint.value <= 100)
      invariant touched <==> Given(addr, values[..i], WATCHDOG).Some? || Given(addr, values[..i], WATCHDOG + 1).Some?
      invariant wd == (Given(addr, values[..i], WATCHDOG).GetOr(l.watchdog.0),
                       Given(addr, values[..i], WATCHDOG + 1).GetOr(l.watchdog.1))
    {
      var a := addr + i;
      var v := values[i];
      if a == SETPOINT {
        if v > 100 {
          assert Given(addr, values, SETPOINT) == Some(v);
          return Rejected;
        }
        setpoint := Some(v);
      } else if a == WATCHDOG || a == WATCHDOG + 1 {
        wd := if a == WATCHDOG then (v, wd.1) else (wd.0, v);
        touched := true;
      }
      i := i + 1;
    }
    assert values[..i] == values;
    change := Accepted(setpoint, if touched then Some(wd) else None);
  }

  /** An accepted write: the watchdog first, so that it extends the lease before the setpoint acts. */
  function ApplyChange(s: State, cfg: Config, change: Change, now: int, w: Written): State {
    match change
    case Rejected => s
    case Accepted(setpoint, watchdog) =>
      var t := if watchdog.Some? then Refresh(s.(luox := s.luox.(watchdog := watchdog.value)), now) else s;
      if setpoint.Some? then SetPct(t, cfg, setpoint.value, now, w) else t
  }

  class DvLimitController {
    const cfg: Config
    var state: State

    constructor (cfg: Config)
      ensures this.cfg == cfg && state == START
    {
      this.cfg := cfg;
      state := START;
    }

    method SetForcedOff(until: int)
      modifies this
      ensures state == ForceOff(old(state), until)
    {
      state := state.(ctrl := state.ctrl.(forcedOff := true, offUntil := until));
    }

    method ClearForcedOff()
      modifies this
      ensures state == ClearOff(old(state))
    {
      state := state.(ctrl := state.ctrl.(forcedOff := false, offUntil := 0));
    }

    method WatchdogRefresh(now: int)
      modifies this
      ensures state == Refresh(old(state), now)
    {
      state := state.(luox := state.luox.(watchdogAt := Some(now)));
      var until := LeaseUntil(state.luox, now);
      if state.ctrl.forcedOff { state := state.(ctrl := state.ctrl.(offUntil := until)); }
      if state.ctrl.dvLimitPct.Some? { state := state.(ctrl := state.ctrl.(dvLimitUntil := until)); }
    }

    method ReleaseLimit(w: Written)
      modifies this
      ensures state == Release(old(state), w)
    {
      if state.ctrl.dvLimitPct.None? { return; }
      state := state.(ctrl := state.ctrl.(dvLimitPct := None, dvLimitUntil := 0));
      state := state.(device := if w.Done? then None else w.left);
    }

    method SetDvLimitPct(pct: int, now: int, w: Written)
      modifies this
      ensures state == SetPct(old(state), cfg, pct, now, w)
    {
      var p := Clamp(pct);
      state := state.(luox := state.luox.(setpointPct := p));
      if p >= 100 {
        ReleaseLimit(w);
        if state.ctrl.forcedOff { ClearForcedOff(); }
        return;
      }
      if p <= 0 {
        ReleaseLimit(w);
        SetForcedOff(LeaseUntil(state.luox, now));
        return;
      }
      if !CanLimit(cfg) {
        SetForcedOff(LeaseUntil(state.luox, now));
        return;
      }
      var limitW := Share(p, cfg.referencePowerW);
      if state.ctrl.forcedOff { ClearForcedOff(); }
      state := state.(ctrl := state.ctrl.(dvLimitPct := Some(p), dvLimitUntil := LeaseUntil(state.luox, now)));
      if w.Done? {
        state := state.(device := Some(limitW));
      } else {
        state := state.(ctrl := state.ctrl.(dvLimitPct := None, dvLimitUntil := 0), device := w.left);
        SetForcedOff(LeaseUntil(state.luox, w.at));
      }
    }

    method ExpireIfNeeded(now: int, w: Written)
      modifies this
      ensures state == Expire(old(state), cfg, now, w)
    {
      if state.ctrl.forcedOff && now > state.ctrl.offUntil {
        ClearForcedOff();
        state := state.(luox := state.luox.(setpointPct := 100));
      }
      if state.ctrl.dvLimitPct.Some? && now > state.ctrl.dvLimitUntil {
        SetDvLimitPct(100, now, w);
      }
    }

    method WriteRegisters(addr: int, values: seq<Word>, now: int, w: Written) returns (accepted: bool)
      modifies this
      ensures accepted <==> ChangeOf(old(state).luox, addr, values).Accepted?
      ensures state == ApplyChange(old(state), cfg, ChangeOf(old(state).luox, addr, values), now, w)
    {
      var change := LuoxApplyWrite(state.luox, addr, values);
      if change.Rejected? { return false; }
      if change.watchdog.Some? {
        state := state.(luox := state.luox.(watchdog := change.watchdog.value));
        WatchdogRefresh(now);
      }
      if change.setpointPct.Some? {
        state := state.(luox := state.luox.(setpointPct := change.setpointPct.value));
        SetDvLimitPct(change.setpointPct.value, now, w);
      }
      accepted := true;
    }
  }
}
