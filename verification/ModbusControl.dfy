/**
  What a session of requests does to feed-in and to the registers. In the Plexlog profile feed-in
  is a block with a deadline; in the LUOX profile a session is a run of the limit's lease.
 */
module ModbusControl {
  import opened Wrappers
  import opened Words
  import opened ModbusFraming
  import opened LuoxControl
  import opened LuoxRuns
  import opened ModbusServer
  import opened ModbusSession

  datatype Writing = Writing(addr: Word, values: seq<Word>)

  /** The words a frame writes; none if it is unreadable, malformed or no write. */
  function WrittenBy(frame: seq<Byte>): Option<Writing> {
    if !Readable(frame) then None
    else
      match Parse(frame, WordAt(frame, 4), frame[7])
      case WriteOne(addr, value) => Some(Writing(addr, [value]))
      case WriteMany(addr, values) => Some(Writing(addr, values))
      case _ => None
  }

  // ---- Plexlog: which frames switch ----------------------------------------------------------

  datatype Switch = Block | Free

  /** Blocked by 0, 0 at address 0 or 1 at address 3; freed by 0xffff twice or 0xff twice, or by 0. */
  function SwitchOf(frame: seq<Byte>): Option<Switch> {
    match WrittenBy(frame)
    case None => None
    case Some(w) =>
      if w.addr == 0 && |w.values| >= 2 then
        var first := w.values[..2];
        if first == [0, 0] then Some(Block)
        else if first == [0xffff, 0xffff] || first == [0xff, 0xff] then Some(Free)
        else None
      else if w.addr == 3 && |w.values| >= 1 && w.values[0] <= 1 then
        Some(if w.values[0] == 1 then Block else Free)
      else None
  }

  /** The deadline of the block, or none if feed-in is free. */
  function BlockOf(s: State): Option<int> { if s.ctrl.forcedOff then Some(s.ctrl.offUntil) else None }

  /** A readable frame first ends a block whose deadline has passed; then it switches, or leaves the block alone. */
  function BlockAfter(block: Option<int>, leaseMs: int, now: int, frame: seq<Byte>): Option<int> {
    if !Readable(frame) then block
    else
      match SwitchOf(frame)
      case Some(Block) => Some(now + leaseMs)
      case Some(Free) => None
      case None => if block.Some? && now > block.value then None else block
  }

  function BlockRun(block: Option<int>, leaseMs: int, moment: nat -> Moment, k: nat,
                    frames: seq<seq<Byte>>): Option<int>
    decreases |frames|
  {
    if frames == [] then block
    else BlockRun(BlockAfter(block, leaseMs, moment(k).now, frames[0]), leaseMs, moment, k + 1, frames[1..])
  }

  lemma PlexlogWriteSwitches(s: Server, cfg: Settings, frame: seq<Byte>, now: int)
    requires WrittenBy(frame).Some?
    ensures var w := WrittenBy(frame).value;
            BlockOf(PlexlogWrite(s, cfg, w.addr, w.values, now).control)
            == match SwitchOf(frame)
               case Some(Block) => Some(now + cfg.offLeaseMs)
               case Some(Free) => None
               case None => BlockOf(s.control)
  {
    hide SetRegs, Parse, Readable;
    var values := WrittenBy(frame).value.values;
    if |values| >= 2 { assert values[..2] == [values[0], values[1]]; }
  }

  /** One frame in the Plexlog profile acts on the block as `BlockAfter` says, and on nothing else of the control. */
  lemma FrameSwitches(s: Server, cfg: Settings, m: Moment, frame: seq<Byte>)
    requires Valid(s) && cfg.profile.Plexlog? && OnOrOff(s.control)
    ensures var t := ProcessFrame(s, cfg, m, frame).server.control;
            OnOrOff(t) && BlockOf(t) == BlockAfter(BlockOf(s.control), cfg.offLeaseMs, m.now, frame)
  {
    PlexlogRequestsKeepControl(s, cfg, m, frame);
    hide RegsResponse, ReadRegs, Exception, WriteAck, SetRegs, Parse, SwitchOf, PlexlogWrite;
    if WrittenBy(frame).Some? {
      PlexlogWriteSwitches(Expired(s, cfg, m), cfg, frame, m.now);
    }
  }

  lemma {:induction false} SessionFollowsBlock(s: Server, cfg: Settings, moment: nat -> Moment, k: nat,
                                               frames: seq<seq<Byte>>)
    requires Valid(s) && cfg.profile.Plexlog? && OnOrOff(s.control)
    ensures BlockOf(Serve(s, cfg, moment, k, frames).server.control)
            == BlockRun(BlockOf(s.control), cfg.offLeaseMs, moment, k, frames)
    decreases |frames|
  {
    hide ProcessFrame, OnOrOff, BlockAfter, BlockOf;
    if frames != [] {
      ProcessKeepsValid(s, cfg, moment(k), frames[0]);
      FrameSwitches(s, cfg, moment(k), frames[0]);
      SessionFollowsBlock(ProcessFrame(s, cfg, moment(k), frames[0]).server, cfg, moment, k + 1, frames[1..]);
    }
  }

  // ---- Plexlog: when feed-in is blocked --------------------------------------------------------

  /** From frame `i` on nothing switches, and no check finds the deadline passed. */
  ghost predicate Holds(until: int, moment: nat -> Moment, k: nat, frames: seq<seq<Byte>>, i: nat) {
    forall j :: i <= j < |frames| && Readable(frames[j]) ==> SwitchOf(frames[j]).None? && moment(k + j).now <= until
  }

  ghost predicate BlocksFrom(leaseMs: int, moment: nat -> Moment, k: nat, frames: seq<seq<Byte>>, i: nat)
    requires i < |frames|
  {
    SwitchOf(frames[i]) == Some(Block) && Holds(moment(k + i).now + leaseMs, moment, k, frames, i + 1)
  }

  /** The block was there before and holds through, or a frame sets it and it holds from there. */
  ghost predicate Blocked(block: Option<int>, leaseMs: int, moment: nat -> Moment, k: nat, frames: seq<seq<Byte>>) {
    || (block.Some? && Holds(block.value, moment, k, frames, 0))
    || exists i :: 0 <= i < |frames| && BlocksFrom(leaseMs, moment, k, frames, i)
  }

  lemma HoldsInRest(until: int, moment: nat -> Moment, k: nat, frames: seq<seq<Byte>>, i: nat)
    requires frames != []
    ensures Holds(until, moment, k, frames, i + 1) <==> Holds(until, moment, k + 1, frames[1..], i)
  {
    hide SwitchOf, Readable;
    var rest := frames[1..];
    if Holds(until, moment, k + 1, rest, i) {
      forall j | i + 1 <= j < |frames| && Readable(frames[j])
        ensures SwitchOf(frames[j]).None? && moment(k + j).now <= until
      {
        assert rest[j - 1] == frames[j] && k + 1 + (j - 1) == k + j;
      }
    }
    if Holds(until, moment, k, frames, i + 1) {
      forall j | i <= j < |rest| && Readable(rest[j])
        ensures SwitchOf(rest[j]).None? && moment(k + 1 + j).now <= until
      {
        assert rest[j] == frames[j + 1] && k + (j + 1) == k + 1 + j;
      }
    }
  }

  lemma BlocksInRest(leaseMs: int, moment: nat -> Moment, k: nat, frames: seq<seq<Byte>>, i: nat)
    requires i + 1 < |frames|
    ensures BlocksFrom(leaseMs, moment, k, frames, i + 1) <==> BlocksFrom(leaseMs, moment, k + 1, frames[1..], i)
  {
    hide SwitchOf, Holds;
    assert k + 1 + i == k + (i + 1) && frames[1..][i] == frames[i + 1];
    HoldsInRest(moment(k + 1 + i).now + leaseMs, moment, k, frames, i + 1);
  }

  lemma SwitchingIsReadable(frame: seq<Byte>)
    ensures SwitchOf(frame).Some? ==> Readable(frame)
  {
  }

  lemma BlockedInRest(block: Option<int>, leaseMs: int, moment: nat -> Moment, k: nat, frames: seq<seq<Byte>>)
    requires frames != []
    ensures Blocked(block, leaseMs, moment, k, frames)
            <==> Blocked(BlockAfter(block, leaseMs, moment(k).now, frames[0]), leaseMs, moment, k + 1, frames[1..])
  {
    hide Readable, SwitchOf;
    var rest, next := frames[1..], k + 1;
    SwitchingIsReadable(frames[0]);
    FirstFrameDecides(block, leaseMs, moment, k, frames);
    hide Holds, BlockAfter;
    if i :| 0 <= i < |frames| && BlocksFrom(leaseMs, moment, k, frames, i) {
      if i > 0 {
        BlocksInRest(leaseMs, moment, k, frames, i - 1);
        assert BlocksFrom(leaseMs, moment, next, rest, i - 1);
      }
    }
    if i :| 0 <= i < |rest| && BlocksFrom(leaseMs, moment, next, rest, i) {
      BlocksInRest(leaseMs, moment, k, frames, i);
      assert BlocksFrom(leaseMs, moment, k, frames, i + 1);
    }
  }

  /** The old block holds through, or the first frame blocks and holds, just if the block after it holds. */
  lemma FirstFrameDecides(block: Option<int>, leaseMs: int, moment: nat -> Moment, k: nat, frames: seq<seq<Byte>>)
    requires frames != []
    ensures var next := BlockAfter(block, leaseMs, moment(k).now, frames[0]);
            (block.Some? && Holds(block.value, moment, k, frames, 0)) || BlocksFrom(leaseMs, moment, k, frames, 0)
            <==> next.Some? && Holds(next.value, moment, k + 1, frames[1..], 0)
  {
    hide Readable, SwitchOf;
    SwitchingIsReadable(frames[0]);
    var next := BlockAfter(block, leaseMs, moment(k).now, frames[0]);
    if next.Some? { HoldsInRest(next.value, moment, k, frames, 0); }
    if block.Some? { HoldsInRest(block.value, moment, k, frames, 0); }
    HoldsInRest(moment(k).now + leaseMs, moment, k, frames, 0);
    assert k + 0 == k;
    if block.Some? {
      assert Holds(block.value, moment, k, frames, 0) <==>
        Holds(block.value, moment, k, frames, 1)
        && (Readable(frames[0]) ==> SwitchOf(frames[0]).None? && moment(k + 0).now <= block.value);
    }
  }

  lemma {:induction false} BlockRunMeans(block: Option<int>, leaseMs: int, moment: nat -> Moment, k: nat,
                                         frames: seq<seq<Byte>>)
    ensures BlockRun(block, leaseMs, moment, k, frames).Some? <==> Blocked(block, leaseMs, moment, k, frames)
    decreases |frames|
  {
    if frames != [] {
      hide Blocked, BlockAfter;
      BlockedInRest(block, leaseMs, moment, k, frames);
      BlockRunMeans(BlockAfter(block, leaseMs, moment(k).now, frames[0]), leaseMs, moment, k + 1, frames[1..]);
    }
  }

  /**
    In the Plexlog profile feed-in is blocked after a session if and only if the last switching frame
    blocked it, or it was blocked before and no frame switched, and no readable frame since then came
    after the deadline: the lease counted from the blocking frame.
   */
  lemma BlockedIffLastSwitchBlocks(s: Server, cfg: Settings, moment: nat -> Moment, k: nat, frames: seq<seq<Byte>>)
    requires Valid(s) && cfg.profile.Plexlog? && OnOrOff(s.control)
    ensures var before := if s.control.ctrl.forcedOff then Some(s.control.ctrl.offUntil) else None;
            Serve(s, cfg, moment, k, frames).server.control.ctrl.forcedOff
            <==> Blocked(before, cfg.offLeaseMs, moment, k, frames)
  {
    SessionFollowsBlock(s, cfg, moment, k, frames);
    BlockRunMeans(BlockOf(s.control), cfg.offLeaseMs, moment, k, frames);
  }

  // ---- Plexlog: the registers ------------------------------------------------------------------

  ghost predicate Covers(frame: seq<Byte>, a: nat) {
    var w := WrittenBy(frame);
    w.Some? && w.value.addr <= a < w.value.addr + |w.value.values|
  }

  ghost function WordFor(frame: seq<Byte>, a: nat): Word
    requires Covers(frame, a)
  {
    WrittenBy(frame).value.values[a - WrittenBy(frame).value.addr]
  }

  ghost predicate LastToCover(frames: seq<seq<Byte>>, i: nat, a: nat)
    requires i < |frames|
  {
    Covers(frames[i], a) && forall j :: i < j < |frames| ==> !Covers(frames[j], a)
  }

  lemma FrameSetsRegister(s: Server, cfg: Settings, m: Moment, frame: seq<Byte>, a: nat)
    requires Valid(s) && cfg.profile.Plexlog?
    ensures GetReg(ProcessFrame(s, cfg, m, frame).server.regs, a)
            == if Covers(frame, a) then WordFor(frame, a) else GetReg(s.regs, a)
  {
    hide RegsResponse, ReadRegs, Exception, WriteAck, Parse, WriteSignal, SetRegs, Expire, GetReg;
    ExpiredValid(s, cfg, m);
    if WrittenBy(frame).Some? {
      SetThenGet(s.regs, WrittenBy(frame).value.addr, WrittenBy(frame).value.values, a);
    }
  }

  /** After a session each register holds the word of the last frame that wrote it, or what it held before. */
  lemma {:induction false} RegisterHoldsLastWord(s: Server, cfg: Settings, moment: nat -> Moment, k: nat,
                                                 frames: seq<seq<Byte>>, a: nat)
    requires Valid(s) && cfg.profile.Plexlog?
    ensures var r := GetReg(Serve(s, cfg, moment, k, frames).server.regs, a);
            && ((forall i :: 0 <= i < |frames| ==> !Covers(frames[i], a)) ==> r == GetReg(s.regs, a))
            && (forall i :: 0 <= i < |frames| && LastToCover(frames, i, a) ==> r == WordFor(frames[i], a))
    decreases |frames|
  {
    hide ProcessFrame, Covers, WordFor, GetReg;
    if frames != [] {
      var next, rest := ProcessFrame(s, cfg, moment(k), frames[0]).server, frames[1..];
      ProcessKeepsValid(s, cfg, moment(k), frames[0]);
      FrameSetsRegister(s, cfg, moment(k), frames[0], a);
      RegisterHoldsLastWord(next, cfg, moment, k + 1, rest, a);
      assert forall i :: 1 <= i < |frames| ==> frames[i] == rest[i - 1];
      assert forall i :: 0 <= i < |rest| ==> rest[i] == frames[i + 1];
      var r := GetReg(Serve(s, cfg, moment, k, frames).server.regs, a);
      forall i | 0 <= i < |frames| && LastToCover(frames, i, a) ensures r == WordFor(frames[i], a) {
        if i > 0 {
          assert LastToCover(rest, i - 1, a);
        }
      }
    }
  }

  // ---- LUOX: a session is a run of the lease ---------------------------------------------------

  /** A readable frame is a write or, if it writes nothing, only a check of the lease. */
  function EventOf(frame: seq<Byte>, m: Moment): LuoxRuns.Event {
    match WrittenBy(frame)
    case Some(w) => Write(w.addr, w.values, m.now, m.expiring, m.setting)
    case None => Tick(m.now, m.expiring)
  }

  function SessionLease(l: Lease, cfg: Config, moment: nat -> Moment, k: nat, frames: seq<seq<Byte>>): Lease
    decreases |frames|
  {
    if frames == [] then l
    else
      var next := if Readable(frames[0]) then LeaseStep(l, cfg, EventOf(frames[0], moment(k))) else l;
      SessionLease(next, cfg, moment, k + 1, frames[1..])
  }

  lemma FrameActsOnLease(s: Server, cfg: Settings, m: Moment, frame: seq<Byte>)
    requires Valid(s) && cfg.profile.LuoxProfile? && Invariant(s.control, cfg.luox)
    ensures var t := ProcessFrame(s, cfg, m, frame).server.control;
            && Invariant(t, cfg.luox)
            && LeaseOf(t) == if Readable(frame) then LeaseStep(LeaseOf(s.control), cfg.luox, EventOf(frame, m))
                             else LeaseOf(s.control)
  {
    LuoxRequestsKeepControl(s, cfg, m, frame);
    hide RegsResponse, ReadRegs, Exception, WriteAck, Parse, Expire, ApplyChange, ChangeOf;
    hide LeaseOf, LeaseStep, Invariant;
    if Readable(frame) {
      StepRefines(s.control, cfg.luox, EventOf(frame, m));
      ExpiredValid(s, cfg, m);
      assert ProcessFrame(s, cfg, m, frame).server.control == Step(s.control, cfg.luox, EventOf(frame, m));
    }
  }

  /**
    In the LUOX profile a session moves the setpoint, its deadline and the watchdog as the lease says,
    and never lets more feed in than the lease commands.
   */
  lemma {:induction false} SessionFollowsLease(s: Server, cfg: Settings, moment: nat -> Moment, k: nat,
                                               frames: seq<seq<Byte>>)
    requires Valid(s) && cfg.profile.LuoxProfile? && Invariant(s.control, cfg.luox)
    ensures var t := Serve(s, cfg, moment, k, frames).server.control;
            && Invariant(t, cfg.luox)
            && LeaseOf(t) == SessionLease(LeaseOf(s.control), cfg.luox, moment, k, frames)
            && (t.luox.setpointPct < 100 && cfg.luox.referencePowerW >= 0 ==>
                  Cap(t).Some? && 100 * Cap(t).value <= t.luox.setpointPct * cfg.luox.referencePowerW + 50)
    decreases |frames|
  {
    hide ProcessFrame, Invariant, LeaseOf, LeaseStep, Cap;
    if frames != [] {
      ProcessKeepsValid(s, cfg, moment(k), frames[0]);
      FrameActsOnLease(s, cfg, moment(k), frames[0]);
      SessionFollowsLease(ProcessFrame(s, cfg, moment(k), frames[0]).server, cfg, moment, k + 1, frames[1..]);
    } else if s.control.luox.setpointPct < 100 && cfg.luox.referencePowerW >= 0 {
      CapWithinShare(s.control, cfg.luox);
    }
  }
}
