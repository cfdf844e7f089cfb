/**
  What the Modbus server promises: well-framed answers that belong to their requests, writes
  that apply whole or not at all and can be read back, and a session whose answers the other
  side can cut apart again.
 */
module ModbusSession {
  import opened Wrappers
  import opened Words
  import opened ModbusFraming
  import opened LuoxControl
  import opened LuoxRegisters
  import opened LuoxRuns
  import opened ModbusServer

  // ---- Answers ---------------------------------------------------------------------------

  /** A single-register write that is accepted is echoed from the request's own bytes. */
  ghost predicate Echoed(s: Server, cfg: Settings, m: Moment, frame: seq<Byte>) {
    && Readable(frame) && Parse(frame, WordAt(frame, 4), frame[7]).WriteOne?
    && var r := Parse(frame, WordAt(frame, 4), frame[7]);
       cfg.profile.LuoxProfile? ==> ChangeOf(Expired(s, cfg, m).control.luox, r.addr, [r.value]).Accepted?
  }

  lemma MbapFacts(h: Header, length: Word, fc: Byte, body: seq<Byte>)
    ensures var b := Mbap(h, length, fc) + body;
            && |b| == 8 + |body| && Total(b) == 6 + length
            && WordAt(b, 0) == h.tid && b[6] == h.unit && b[7] == fc
  {
  }

  /** The answer carries the request's transaction, unit and function code (or its error form). */
  ghost predicate Answers(frame: seq<Byte>, r: seq<Byte>)
    requires |frame| >= 8
  {
    && |r| >= 9 && WordAt(r, 0) == WordAt(frame, 0) && r[6] == frame[6]
    && (r[7] == frame[7] || r[7] == ErrorCode(frame[7]))
  }

  /** An answer's header states its length, except when an echoed request states more than six bytes. */
  lemma AnswersAreWellFramed(s: Server, cfg: Settings, m: Moment, frame: seq<Byte>)
    requires Valid(s)
    ensures var r := ProcessFrame(s, cfg, m, frame).response;
            && (r.Some? <==> Readable(frame))
            && (r.Some? ==> Answers(frame, r.value))
            && (r.Some? ==> (WellFramed(r.value) <==> !(Echoed(s, cfg, m, frame) && WordAt(frame, 4) != 6)))
  {
    if Readable(frame) {
      ExpiredValid(s, cfg, m);
      var t := Expired(s, cfg, m);
      var h := HeaderOf(frame);
      MbapFacts(h, 3, ErrorCode(h.fc), [1]);
      MbapFacts(h, 3, ErrorCode(h.fc), [3]);
      match Parse(frame, WordAt(frame, 4), h.fc)
      case Unsupported =>
      case Broken =>
      case Read(addr, qty) =>
        if 1 <= qty <= 125 { ReadAnswerFacts(h, ReadRegs(t, cfg, h.fc, addr, qty)); }
      case WriteOne(addr, value) => EchoFacts(frame);
      case WriteMany(addr, values) => AckFacts(h, addr, |values|);
    }
  }

  lemma ReadAnswerFacts(h: Header, regs: seq<Word>)
    requires 1 <= |regs| <= 125
    ensures var r := RegsResponse(h, regs);
            |r| >= 9 && WellFramed(r) && WordAt(r, 0) == h.tid && r[6] == h.unit && r[7] == h.fc
  {
    MbapFacts(h, 3 + 2 * |regs|, h.fc, [2 * |regs|] + RegisterBytes(regs));
    assert RegsResponse(h, regs) == Mbap(h, 3 + 2 * |regs|, h.fc) + ([2 * |regs|] + RegisterBytes(regs));
  }

  lemma AckFacts(h: Header, addr: Word, qty: Word)
    ensures var r := WriteAck(h, addr, qty);
            |r| >= 9 && WellFramed(r) && WordAt(r, 0) == h.tid && r[6] == h.unit && r[7] == h.fc
  {
    MbapFacts(h, 6, h.fc, WordBytes(addr) + WordBytes(qty));
    assert WriteAck(h, addr, qty) == Mbap(h, 6, h.fc) + (WordBytes(addr) + WordBytes(qty));
  }

  lemma EchoFacts(frame: seq<Byte>)
    requires |frame| >= 12
    ensures var r := frame[..12];
            && WordAt(r, 0) == WordAt(frame, 0) && r[6] == frame[6] && r[7] == frame[7]
            && (WellFramed(r) <==> WordAt(frame, 4) == 6)
  {
  }

  // ---- Writes ----------------------------------------------------------------------------

  /** An exception means that, beyond the lease check, nothing changed. */
  lemma ExceptionChangesNothing(s: Server, cfg: Settings, m: Moment, frame: seq<Byte>)
    requires Valid(s) && Readable(frame) && frame[7] < 128
    ensures var a := ProcessFrame(s, cfg, m, frame);
            a.response.value[7] == frame[7] + 128 ==> a.server == Expired(s, cfg, m)
  {
    var h := HeaderOf(frame);
    match Parse(frame, WordAt(frame, 4), h.fc)
    case WriteOne(addr, value) => EchoFacts(frame);
    case WriteMany(addr, values) => AckFacts(h, addr, |values|);
    case _ =>
  }

  /** After a write, each register in its range reads as written and all others as before. */
  lemma {:induction false} SetThenGet(regs: map<nat, Word>, addr: nat, values: seq<Word>, a: nat)
    ensures GetReg(SetRegs(regs, addr, values), a)
            == if addr <= a < addr + |values| then values[a - addr] else GetReg(regs, a)
    decreases |values|
  {
    if values != [] { SetThenGet(regs[addr := values[0]], addr + 1, values[1..], a); }
  }

  /** Plexlog: reading back what was written gives what was written. */
  lemma PlexlogReadsBack(s: Server, cfg: Settings, addr: Word, values: seq<Word>, now: int)
    requires Valid(PlexlogWrite(s, cfg, addr, values, now)) && cfg.profile.Plexlog?
    ensures ReadRegs(PlexlogWrite(s, cfg, addr, values, now), cfg, 3, addr, |values|) == values
  {
    forall i | 0 <= i < |values| ensures GetReg(SetRegs(s.regs, addr, values), addr + i) == values[i] {
      SetThenGet(s.regs, addr, values, addr + i);
    }
  }

  /** LUOX: after an accepted write the setpoint and watchdog registers read as written, the rest as before. */
  lemma LuoxReadsBack(s: State, cfg: Config, addr: nat, values: seq<Word>, now: int, w: Written, a: nat)
    requires Invariant(s, cfg) && ChangeOf(s.luox, addr, values).Accepted?
    ensures var t := ApplyChange(s, cfg, ChangeOf(s.luox, addr, values), now, w);
            && 0 <= t.luox.setpointPct <= 100
            && Register(HoldingRegisters(t.luox), a)
               == if SETPOINT <= a <= WATCHDOG + 1 && addr <= a < addr + |values| then values[a - addr]
                  else Register(HoldingRegisters(s.luox), a)
  {
    ChangeRefines(s, cfg, ChangeOf(s.luox, addr, values), now, w);
  }

  /** In the Plexlog profile feed-in is full or blocked, never limited, and there is a lease only for the block. */
  ghost predicate OnOrOff(s: State) {
    && s.luox.setpointPct == 100 && s.ctrl.dvLimitPct.None? && s.device.None?
    && (!s.ctrl.forcedOff ==> s.ctrl.offUntil == 0)
  }

  ghost predicate ControlInvariant(s: State, cfg: Settings) {
    if cfg.profile.LuoxProfile? then Invariant(s, cfg.luox) else OnOrOff(s)
  }

  /** Every request leaves the feed-in control in a state its profile allows. */
  lemma RequestsKeepControl(s: Server, cfg: Settings, m: Moment, frame: seq<Byte>)
    requires Valid(s) && ControlInvariant(s.control, cfg)
    ensures ControlInvariant(ProcessFrame(s, cfg, m, frame).server.control, cfg)
  {
    if cfg.profile.LuoxProfile? {
      LuoxRequestsKeepControl(s, cfg, m, frame);
    } else {
      PlexlogRequestsKeepControl(s, cfg, m, frame);
    }
  }

  lemma PlexlogRequestsKeepControl(s: Server, cfg: Settings, m: Moment, frame: seq<Byte>)
    requires Valid(s) && cfg.profile.Plexlog? && OnOrOff(s.control)
    ensures OnOrOff(ProcessFrame(s, cfg, m, frame).server.control)
  {
    hide RegsResponse, ReadRegs, Exception, WriteAck, SetRegs;
    if Readable(frame) {
      var t := Expired(s, cfg, m);
      assert OnOrOff(t.control);
      match Parse(frame, WordAt(frame, 4), frame[7])
      case WriteOne(addr, value) => assert OnOrOff(PlexlogWrite(t, cfg, addr, [value], m.now).control);
      case WriteMany(addr, values) => assert OnOrOff(PlexlogWrite(t, cfg, addr, values, m.now).control);
      case _ =>
    }
  }

  lemma LuoxRequestsKeepControl(s: Server, cfg: Settings, m: Moment, frame: seq<Byte>)
    requires Valid(s) && cfg.profile.LuoxProfile? && Invariant(s.control, cfg.luox)
    ensures Invariant(ProcessFrame(s, cfg, m, frame).server.control, cfg.luox)
  {
    if Readable(frame) {
      ExpiredValid(s, cfg, m);
      ExpireRefines(s.control, cfg.luox, m.now, m.expiring);
      var t := Expired(s, cfg, m);
      match Parse(frame, WordAt(frame, 4), frame[7])
      case WriteOne(addr, value) =>
        ChangeRefines(t.control, cfg.luox, ChangeOf(t.control.luox, addr, [value]), m.now, m.setting);
      case WriteMany(addr, values) =>
        ChangeRefines(t.control, cfg.luox, ChangeOf(t.control.luox, addr, values), m.now, m.setting);
      case _ =>
    }
  }

  // ---- A session -------------------------------------------------------------------------

  lemma ProcessKeepsValid(s: Server, cfg: Settings, m: Moment, frame: seq<Byte>)
    requires Valid(s)
    ensures Valid(ProcessFrame(s, cfg, m, frame).server)
  {
    hide ReadRegs, RegsResponse, Exception, Expire, ApplyWrite;
    ExpiredValid(s, cfg, m);
    if Readable(frame) {
      var t, h := Expired(s, cfg, m), HeaderOf(frame);
      match Parse(frame, WordAt(frame, 4), h.fc)
      case WriteOne(addr, value) => WriteKeepsValid(t, cfg, m, h, addr, [value], frame[..12]);
      case WriteMany(addr, values) => WriteKeepsValid(t, cfg, m, h, addr, values, WriteAck(h, addr, |values|));
      case _ =>
    }
  }

  lemma WriteKeepsValid(s: Server, cfg: Settings, m: Moment, h: Header, addr: Word, values: seq<Word>,
                        accepted: seq<Byte>)
    requires Valid(s)
    ensures Valid(ApplyWrite(s, cfg, m, h, addr, values, accepted).server)
  {
  }

  datatype Served = Served(server: Server, responses: seq<seq<Byte>>)

  /** Frame `k` of the session is handled at `moment(k)`. */
  function Serve(s: Server, cfg: Settings, moment: nat -> Moment, k: nat, frames: seq<seq<Byte>>): (r: Served)
    requires Valid(s)
    ensures Valid(r.server)
    decreases |frames|
  {
    if frames == [] then Served(s, [])
    else
      ProcessKeepsValid(s, cfg, moment(k), frames[0]);
      var a := ProcessFrame(s, cfg, moment(k), frames[0]);
      var rest := Serve(a.server, cfg, moment, k + 1, frames[1..]);
      Served(rest.server, (if a.response.Some? then [a.response.value] else []) + rest.responses)
  }

  /** One connection: its receive buffer, the shared server and what was sent back. */
  class ModbusConnection {
    const cfg: Settings
    var buffer: seq<Byte>
    var server: Server
    var handled: nat
    var written: seq<Byte>

    constructor (cfg: Settings, server: Server)
      ensures this.cfg == cfg && buffer == [] && this.server == server && handled == 0 && written == []
    {
      this.cfg := cfg;
      buffer, this.server, handled, written := [], server, 0, [];
    }

    method OnData(chunk: seq<Byte>, moment: nat -> Moment)
      requires ModbusServer.Valid(server)
      modifies this
      ensures ModbusServer.Valid(server)
      ensures var split := Frames(old(buffer) + chunk);
              var served := Serve(old(server), cfg, moment, old(handled), split.frames);
              && buffer == split.rest && server == served.server
              && handled == old(handled) + |split.frames|
              && written == old(written) + Concat(served.responses)
    {
      hide Frames, Serve, ProcessFrame, Concat;
      buffer := buffer + chunk;
      ghost var split := Frames(buffer);
      ghost var served := Serve(server, cfg, moment, handled, split.frames);
      while |buffer| >= 7
        invariant ModbusServer.Valid(server)
        invariant split.rest == Frames(buffer).rest
        invariant handled + |Frames(buffer).frames| == old(handled) + |split.frames|
        invariant served.server == Serve(server, cfg, moment, handled, Frames(buffer).frames).server
        invariant old(written) + Concat(served.responses)
                  == written + Concat(Serve(server, cfg, moment, handled, Frames(buffer).frames).responses)
        decreases |buffer|
      {
        var total := 6 + WordAt(buffer, 4);
        if |buffer| < total { break; }
        var frame := buffer[..total];
        TakeFrame(buffer);
        ServeOne(server, cfg, moment, handled, frame, Frames(buffer[total..]).frames, written);
        buffer := buffer[total..];
        var a := ProcessFrame(server, cfg, moment(handled), frame);
        if a.response.Some? { written := written + a.response.value; }
        server := a.server;
        handled := handled + 1;
      }
      TakeFrame(buffer);
      ServeNone(server, cfg, moment, handled);
    }
  }

  lemma TakeFrame(b: seq<Byte>)
    ensures HasFrame(b) ==> var s := Frames(b[Total(b)..]); Frames(b) == Split([b[..Total(b)]] + s.frames, s.rest)
    ensures !HasFrame(b) ==> Frames(b) == Split([], b)
  {
  }

  lemma ServeNone(s: Server, cfg: Settings, moment: nat -> Moment, k: nat)
    requires Valid(s)
    ensures Serve(s, cfg, moment, k, []) == Served(s, []) && Concat([]) == []
  {
  }

  lemma ServeOne(s: Server, cfg: Settings, moment: nat -> Moment, k: nat, frame: seq<Byte>, more: seq<seq<Byte>>,
                 written: seq<Byte>)
    requires Valid(s)
    ensures var a := ProcessFrame(s, cfg, moment(k), frame);
            var all := Serve(s, cfg, moment, k, [frame] + more);
            && Valid(a.server)
            && all.server == Serve(a.server, cfg, moment, k + 1, more).server
            && written + Concat(all.responses)
               == (if a.response.Some? then written + a.response.value else written)
                  + Concat(Serve(a.server, cfg, moment, k + 1, more).responses)
  {
    ProcessKeepsValid(s, cfg, moment(k), frame);
    var a := ProcessFrame(s, cfg, moment(k), frame);
    var rest := Serve(a.server, cfg, moment, k + 1, more);
    assert ([frame] + more)[1..] == more;
    if a.response.Some? {
      assert ([a.response.value] + rest.responses)[1..] == rest.responses;
      assert Concat([a.response.value] + rest.responses) == a.response.value + Concat(rest.responses);
    } else {
      assert [] + rest.responses == rest.responses;
    }
  }

  /** No echoed request of the session states a length other than six. */
  ghost predicate PlainEchoes(s: Server, cfg: Settings, moment: nat -> Moment, k: nat, frames: seq<seq<Byte>>)
    requires Valid(s)
    decreases |frames|
  {
    frames != [] ==>
      && (Echoed(s, cfg, moment(k), frames[0]) ==> WordAt(frames[0], 4) == 6)
      && Valid(ProcessFrame(s, cfg, moment(k), frames[0]).server)
      && PlainEchoes(ProcessFrame(s, cfg, moment(k), frames[0]).server, cfg, moment, k + 1, frames[1..])
  }

  lemma {:induction false} AnswersFramedIffPlain(s: Server, cfg: Settings, moment: nat -> Moment, k: nat,
                                                 frames: seq<seq<Byte>>)
    requires Valid(s)
    ensures var responses := Serve(s, cfg, moment, k, frames).responses;
            && (forall r :: r in responses ==> |r| >= 9)
            && ((forall r :: r in responses ==> WellFramed(r)) <==> PlainEchoes(s, cfg, moment, k, frames))
    decreases |frames|
  {
    if frames != [] {
      var a := ProcessFrame(s, cfg, moment(k), frames[0]);
      ProcessKeepsValid(s, cfg, moment(k), frames[0]);
      AnswersAreWellFramed(s, cfg, moment(k), frames[0]);
      AnswersFramedIffPlain(a.server, cfg, moment, k + 1, frames[1..]);
      hide ProcessFrame, WellFramed;
      var rest := Serve(a.server, cfg, moment, k + 1, frames[1..]).responses;
      var all := Serve(s, cfg, moment, k, frames).responses;
      assert all == (if a.response.Some? then [a.response.value] else []) + rest;
      assert forall r :: r in all <==> r in rest || (a.response.Some? && r == a.response.value);
    }
  }

  /**
    The answers of a session, joined into one stream, are cut apart again into exactly those answers
    if and only if no echoed request stated a length other than six.
   */
  lemma SessionAnswersSplitBack(s: Server, cfg: Settings, moment: nat -> Moment, k: nat, frames: seq<seq<Byte>>)
    requires Valid(s)
    ensures var responses := Serve(s, cfg, moment, k, frames).responses;
            && (Frames(Concat(responses)) == Split(responses, []) <==> PlainEchoes(s, cfg, moment, k, frames))
            && (PlainEchoes(s, cfg, moment, k, frames) ==> forall r :: r in responses ==> WellFramed(r))
  {
    AnswersFramedIffPlain(s, cfg, moment, k, frames);
    SplitsBackIffWellFramed(Serve(s, cfg, moment, k, frames).responses);
  }

  /** A request that states seven bytes is answered by an echo that states seven but has six. */
  lemma LongRequestIsMisechoed(s: Server, cfg: Settings, m: Moment)
    requires Valid(s) && cfg.profile.Plexlog?
    ensures var frame: seq<Byte> := [0, 1, 0, 0, 0, 7, 1, 6, 0, 5, 0, 9, 0];
            && ProcessFrame(s, cfg, m, frame).response == Some(frame[..12])
            && !WellFramed(frame[..12])
  {
  }

  // ---- Whole sessions ----------------------------------------------------------------------

  /** Whatever the frames of a session are, the feed-in control stays in a state its profile allows. */
  lemma {:induction false} SessionKeepsControl(s: Server, cfg: Settings, moment: nat -> Moment, k: nat,
                                               frames: seq<seq<Byte>>)
    requires Valid(s) && ControlInvariant(s.control, cfg)
    ensures ControlInvariant(Serve(s, cfg, moment, k, frames).server.control, cfg)
    decreases |frames|
  {
    if frames != [] {
      ProcessKeepsValid(s, cfg, moment(k), frames[0]);
      RequestsKeepControl(s, cfg, moment(k), frames[0]);
      SessionKeepsControl(ProcessFrame(s, cfg, moment(k), frames[0]).server, cfg, moment, k + 1, frames[1..]);
    }
  }

  /** Serving frames in two parts is serving them at once. */
  lemma {:induction false} ServeInParts(s: Server, cfg: Settings, moment: nat -> Moment, k: nat,
                                        first: seq<seq<Byte>>, second: seq<seq<Byte>>)
    requires Valid(s)
    ensures var a := Serve(s, cfg, moment, k, first);
            var b := Serve(a.server, cfg, moment, k + |first|, second);
            Serve(s, cfg, moment, k, first + second) == Served(b.server, a.responses + b.responses)
    decreases |first|
  {
    hide ProcessFrame, Valid;
    if first == [] {
      assert first + second == second;
    } else {
      ProcessKeepsValid(s, cfg, moment(k), first[0]);
      var next := ProcessFrame(s, cfg, moment(k), first[0]);
      assert (first + second)[0] == first[0] && (first + second)[1..] == first[1..] + second;
      ServeInParts(next.server, cfg, moment, k + 1, first[1..], second);
      var a := Serve(next.server, cfg, moment, k + 1, first[1..]);
      var b := Serve(a.server, cfg, moment, k + |first|, second);
      Regroup(if next.response.Some? then [next.response.value] else [], a.responses, b.responses);
    }
  }

  /** The server and what was answered after receiving some chunks, and the bytes left over. */
  datatype Received = Received(served: Served, rest: seq<Byte>)

  /** Chunk by chunk, as a connection handles its data; `k` frames were handled before. */
  function Receive(s: Server, cfg: Settings, moment: nat -> Moment, k: nat, buffer: seq<Byte>,
                   chunks: seq<seq<Byte>>): Received
    requires Valid(s)
    decreases |chunks|
  {
    if chunks == [] then Received(Served(s, []), buffer)
    else
      var split := Frames(buffer + chunks[0]);
      var first := Serve(s, cfg, moment, k, split.frames);
      var later := Receive(first.server, cfg, moment, k + |split.frames|, split.rest, chunks[1..]);
      Received(Served(later.served.server, first.responses + later.served.responses), later.rest)
  }

  /** However the stream is chunked, the server ends in the same state, having given the same answers. */
  lemma {:induction false} ChunkingDoesNotMatterToServer(s: Server, cfg: Settings, moment: nat -> Moment, k: nat,
                                                         buffer: seq<Byte>, chunks: seq<seq<Byte>>)
    requires Valid(s) && Frames(buffer) == Split([], buffer)
    ensures var all := Frames(buffer + Concat(chunks));
            Receive(s, cfg, moment, k, buffer, chunks) == Received(Serve(s, cfg, moment, k, all.frames), all.rest)
    decreases |chunks|
  {
    hide ProcessFrame, Frames, Valid, Serve;
    if chunks == [] {
      assert buffer + Concat(chunks) == buffer;
      ServeNone(s, cfg, moment, k);
    } else {
      var here, later := buffer + chunks[0], Concat(chunks[1..]);
      var split := Frames(here);
      var more := Frames(split.rest + later);
      RestHasNoFrame(here);
      FramesExtend(here, later);
      Regroup(buffer, chunks[0], later);
      assert Concat(chunks) == chunks[0] + later;
      hide Concat;
      ChunkingDoesNotMatterToServer(Serve(s, cfg, moment, k, split.frames).server, cfg, moment, k + |split.frames|,
                                    split.rest, chunks[1..]);
      ServeInParts(s, cfg, moment, k, split.frames, more.frames);
    }
  }
}
