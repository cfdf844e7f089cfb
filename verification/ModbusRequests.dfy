/**
  What requests say and what reads are answered with: requests come out of the server's reading as
  they went in, and the words of an answer are the registers asked for.
 */
module ModbusRequests {
  import opened Wrappers
  import opened Reals
  import opened Words
  import opened ModbusFraming
  import opened LuoxControl
  import opened LuoxRegisters
  import opened ModbusServer
  import opened ModbusSession

  // ---- Requests as a client writes them ------------------------------------------------------

  /** Reading (function 3 or 4) and writing one register (function 6) have the same layout. */
  function TwoWordRequest(h: Header, addr: Word, word: Word): seq<Byte> {
    WordBytes(h.tid) + [0, 0, 0, 6, h.unit, h.fc] + WordBytes(addr) + WordBytes(word)
  }

  /** What stands before the values when several registers are written (function 16). */
  function ManyFront(tid: Word, unit: Byte, addr: Word, n: nat): (r: seq<Byte>)
    requires n <= 127
    ensures |r| == 13
  {
    WordBytes(tid) + [0, 0] + WordBytes(7 + 2 * n) + [unit, 16] + WordBytes(addr) + WordBytes(n) + [2 * n]
  }

  function WriteManyRequest(tid: Word, unit: Byte, addr: Word, values: seq<Word>): seq<Byte>
    requires |values| <= 127
  {
    ManyFront(tid, unit, addr, |values|) + RegisterBytes(values)
  }

  lemma WordComesBack(w: Word, front: seq<Byte>, back: seq<Byte>)
    ensures WordAt(front + WordBytes(w) + back, |front|) == w
  {
  }

  /** The words written as bytes, high byte first, are read back in their order. */
  lemma {:induction false} RegistersComeBack(front: seq<Byte>, regs: seq<Word>)
    ensures WordsAt(front + RegisterBytes(regs), |front|, |regs|) == regs
    decreases |regs|
  {
    if regs != [] {
      var first, rest := WordBytes(regs[0]), RegisterBytes(regs[1..]);
      Regroup(front, first, rest);
      RegistersComeBack(front + first, regs[1..]);
      WordComesBack(regs[0], front, rest);
    }
  }

  /** Requests for reading and for writing one register are read as they were written. */
  lemma TwoWordRequestsParse(h: Header, addr: Word, word: Word)
    ensures var f := TwoWordRequest(h, addr, word);
            && Readable(f) && WellFramed(f) && HeaderOf(f) == h
            && (h.fc == 3 || h.fc == 4 ==> Parse(f, 6, h.fc) == Read(addr, word))
            && (h.fc == 6 ==> Parse(f, 6, h.fc) == WriteOne(addr, word))
  {
    var f := TwoWordRequest(h, addr, word);
    assert f == [h.tid / 256, h.tid % 256, 0, 0, 0, 6, h.unit, h.fc, addr / 256, addr % 256, word / 256, word % 256];
  }

  lemma FrontIsRead(tid: Word, unit: Byte, addr: Word, n: nat, rest: seq<Byte>)
    requires n <= 127
    ensures var f := ManyFront(tid, unit, addr, n) + rest;
            && WordAt(f, 0) == tid && WordAt(f, 2) == 0 && WordAt(f, 4) == 7 + 2 * n && f[6] == unit && f[7] == 16
            && WordAt(f, 8) == addr && WordAt(f, 10) == n && f[12] == 2 * n
  {
    var len := 7 + 2 * n;
    assert ManyFront(tid, unit, addr, n)
           == [tid / 256, tid % 256, 0, 0, len / 256, len % 256, unit, 16, addr / 256, addr % 256, n / 256, n % 256,
               2 * n];
    hide ManyFront;
  }

  /** Requests for writing several registers are read as they were written. */
  lemma WriteManyRequestsParse(tid: Word, unit: Byte, addr: Word, values: seq<Word>)
    requires |values| <= 127
    ensures var f := WriteManyRequest(tid, unit, addr, values);
            && Readable(f) && WellFramed(f) && HeaderOf(f) == Header(tid, unit, 16)
            && Parse(f, WordAt(f, 4), 16) == WriteMany(addr, values)
  {
    FrontIsRead(tid, unit, addr, |values|, RegisterBytes(values));
    RegistersComeBack(ManyFront(tid, unit, addr, |values|), values);
    hide WriteManyRequest, ManyFront, RegisterBytes, WordsAt, WordAt;
  }

  // ---- Answers to reads ----------------------------------------------------------------------

  /** The answer to a read states its byte count, and its words are the registers. */
  lemma AnswerHoldsRegisters(h: Header, regs: seq<Word>)
    requires |regs| <= 125
    ensures var r := RegsResponse(h, regs);
            |r| == 9 + 2 * |regs| && r[8] == 2 * |regs| && WordsAt(r, 9, |regs|) == regs
  {
    RegistersComeBack(Mbap(h, 3 + 2 * |regs|, h.fc) + [2 * |regs|], regs);
  }

  /** The register a read means: an input register for function 4, else one of the profile's own. */
  function RegisterRead(s: Server, cfg: Settings, fc: Byte, a: nat): Word
    requires Valid(s)
  {
    if fc == 4 then Register(InputRegisters(s.feedInW, s.pvW, cfg.luox.referencePowerW), a)
    else if cfg.profile.LuoxProfile? then Register(HoldingRegisters(s.control.luox), a)
    else if a in s.regs then s.regs[a] else 0
  }

  lemma RegistersAreRead(s: Server, cfg: Settings, fc: Byte, addr: nat, qty: nat, k: nat)
    requires Valid(s) && k < qty
    ensures ReadRegs(s, cfg, fc, addr, qty)[k] == RegisterRead(s, cfg, fc, addr + k)
  {
  }

  /**
    A read of 1 to 125 registers is answered with exactly those registers, and changes nothing beyond
    the lease check. Function 4 reads the input registers; function 3 the profile's own.
   */
  lemma ReadIsAnswered(s: Server, cfg: Settings, m: Moment, h: Header, addr: Word, qty: Word)
    requires Valid(s) && (h.fc == 3 || h.fc == 4)
    ensures var t := Expired(s, cfg, m);
            var a := ProcessFrame(s, cfg, m, TwoWordRequest(h, addr, qty));
            && Valid(t) && a.server == t && a.response.Some?
            && (1 <= qty <= 125 ==>
                  && |a.response.value| == 9 + 2 * qty && a.response.value[7] == h.fc
                  && a.response.value[8] == 2 * qty
                  && forall k :: 0 <= k < qty ==>
                       WordAt(a.response.value, 9 + 2 * k) == RegisterRead(t, cfg, h.fc, addr + k))
            && (!(1 <= qty <= 125) ==> |a.response.value| == 9 && a.response.value[7..] == [h.fc + 128, 3])
  {
    var t := Expired(s, cfg, m);
    ExpiredValid(s, cfg, m);
    TwoWordRequestsParse(h, addr, qty);
    if 1 <= qty <= 125 {
      var regs := ReadRegs(t, cfg, h.fc, addr, qty);
      AnswerHoldsRegisters(h, regs);
      ReadAnswerFacts(h, regs);
      hide RegsResponse, Parse, ReadRegs, TwoWordRequest, WordAt, Register;
      var r := RegsResponse(h, regs);
      assert ProcessFrame(s, cfg, m, TwoWordRequest(h, addr, qty)) == Answer(t, Some(r));
      forall k | 0 <= k < qty ensures WordAt(r, 9 + 2 * k) == RegisterRead(t, cfg, h.fc, addr + k) {
        assert WordsAt(r, 9, qty)[k] == WordAt(r, 9 + 2 * k);
        RegistersAreRead(t, cfg, h.fc, addr, qty, k);
      }
    }
  }

  // ---- Answers to writes, and exceptions -----------------------------------------------------

  /** An accepted write of one register is answered by the request itself. */
  lemma WriteOneIsEchoed(s: Server, cfg: Settings, m: Moment, tid: Word, unit: Byte, addr: Word, value: Word)
    requires Valid(s)
    requires cfg.profile.LuoxProfile? ==> addr != SETPOINT || value <= 100
    ensures var f := TwoWordRequest(Header(tid, unit, 6), addr, value);
            ProcessFrame(s, cfg, m, f).response == Some(f)
  {
    var h := Header(tid, unit, 6);
    var f := TwoWordRequest(h, addr, value);
    TwoWordRequestsParse(h, addr, value);
    ExpiredValid(s, cfg, m);
    assert f[..12] == f;
    hide TwoWordRequest, Parse, PlexlogWrite, ApplyChange, Expired, Mbap;
  }

  /** An accepted write of several registers is answered with its address and their number. */
  lemma WriteManyIsAcknowledged(s: Server, cfg: Settings, m: Moment, tid: Word, unit: Byte, addr: Word,
                                values: seq<Word>)
    requires Valid(s) && |values| <= 127
    requires cfg.profile.LuoxProfile? && addr <= SETPOINT < addr + |values| ==> values[SETPOINT - addr] <= 100
    ensures ProcessFrame(s, cfg, m, WriteManyRequest(tid, unit, addr, values)).response
            == Some(TwoWordRequest(Header(tid, unit, 16), addr, |values|))
  {
    WriteManyRequestsParse(tid, unit, addr, values);
    ExpiredValid(s, cfg, m);
    AckIsShort(Header(tid, unit, 16), addr, |values|);
    AcceptedUnlessTooHigh(Expired(s, cfg, m).control.luox, addr, values);
    hide WriteManyRequest, TwoWordRequest, Parse, PlexlogWrite, ApplyChange, Expired, WriteAck, Readable, WordAt;
    hide RegsResponse, ReadRegs, Exception, ChangeOf;
  }

  lemma AcceptedUnlessTooHigh(l: Luox, addr: Word, values: seq<Word>)
    ensures ChangeOf(l, addr, values).Rejected? <==>
            addr <= SETPOINT < addr + |values| && values[SETPOINT - addr] > 100
  {
  }

  lemma AckIsShort(h: Header, addr: Word, qty: Word)
    ensures WriteAck(h, addr, qty) == TwoWordRequest(h, addr, qty)
  {
  }

  /** The frame breaks the layout of its function, or reads no register or too many. */
  predicate Malformed(frame: seq<Byte>)
    requires Readable(frame)
  {
    var len, fc := WordAt(frame, 4), frame[7];
    if fc == 3 || fc == 4 then len < 6 || !(1 <= WordAt(frame, 10) <= 125)
    else if fc == 6 then len < 6
    else len < 7 || frame[12] as int != 2 * WordAt(frame, 10) as int || 7 + frame[12] as int > len as int
  }

  /**
    A readable frame is refused with exception 1 if its function is not supported, and with 3 if and
    only if it is malformed or, in the LUOX profile, sets the setpoint above 100.
   */
  lemma ExceptionsTellWhy(s: Server, cfg: Settings, m: Moment, frame: seq<Byte>)
    requires Valid(s) && Readable(frame) && frame[7] < 128
    ensures var r := ProcessFrame(s, cfg, m, frame).response.value;
            if frame[7] !in {3, 4, 6, 16} then r[7] == frame[7] + 128 && r[8] == 1
            else
              && (r[7] == frame[7] + 128 <==>
                  Malformed(frame) || (cfg.profile.LuoxProfile? && SetsTooHigh(frame)))
              && (r[7] == frame[7] + 128 ==> r[8] == 3)
  {
    ExpiredValid(s, cfg, m);
    var h := HeaderOf(frame);
    match Parse(frame, WordAt(frame, 4), h.fc)
    case WriteOne(addr, value) => EchoFacts(frame);
    case WriteMany(addr, values) => AckFacts(h, addr, |values|);
    case _ =>
  }

  predicate SetsTooHigh(frame: seq<Byte>)
    requires Readable(frame)
  {
    match Parse(frame, WordAt(frame, 4), frame[7])
    case WriteOne(addr, value) => addr == SETPOINT && value > 100
    case WriteMany(addr, values) => addr <= SETPOINT < addr + |values| && values[SETPOINT - addr] > 100
    case _ => false
  }

  // ---- The input registers -------------------------------------------------------------------

  /**
    What the input registers mean: feed-in in watts with its sign in 0 and 1 and production in 2 and
    3, low word first; the grid operator's full share in 4; the reference power in 5 and 6.
   */
  lemma InputRegistersDecode(feedInW: real, pvW: real, referencePowerW: int)
    ensures var r := InputRegisters(feedInW, pvW, referencePowerW);
            && Signed(r[0] as int + 0x10000 * r[1] as int) == ClampTo(Rounded(feedInW), -0x8000_0000, 0x7fff_ffff)
            && r[2] as int + 0x10000 * r[3] as int == ClampTo(Rounded(pvW), 0, 0xffff_ffff)
            && r[4] == 100
            && r[5] as int + 0x10000 * r[6] as int == ClampTo(referencePowerW, 0, 0xffff_ffff)
  {
    I32RoundTrip(feedInW);
    var pv := if pvW >= 0.0 then pvW else 0.0;
    U32RoundTrip(pv);
    U32RoundTrip(referencePowerW as real);
    hide U32Words, I32Words;
    var r := InputRegisters(feedInW, pvW, referencePowerW);
    assert r[..2] == I32Words(feedInW) && r[2..4] == U32Words(pv) && r[5..] == U32Words(referencePowerW as real);
  }
}
