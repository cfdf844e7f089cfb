/**
  Answering one Modbus TCP frame, for both register profiles (sections 6.3, 6.4, 6.6, 6.12 and 7
  of the MODBUS Application Protocol Specification V1.1b3).
 */
module ModbusServer {
  import opened Wrappers
  import opened Words
  import opened ModbusFraming
  import opened LuoxControl
  import opened LuoxRegisters

  datatype Profile = Plexlog | LuoxProfile

  datatype Settings = Settings(profile: Profile, luox: Config, offLeaseMs: int)

  /** The shared Plexlog registers, the limit control and the meter readings. */
  datatype Server = Server(regs: map<nat, Word>, control: State, feedInW: real, pvW: real)

  /** The moment of a request, and how limiter writes it causes will end. */
  datatype Moment = Moment(now: int, expiring: Written, setting: Written)

  datatype Answer = Answer(server: Server, response: Option<seq<Byte>>)

  datatype Header = Header(tid: Word, unit: Byte, fc: Byte)

  // ---- Responses -------------------------------------------------------------------------

  function Mbap(h: Header, length: Word, fc: Byte): seq<Byte> {
    WordBytes(h.tid) + [0, 0] + WordBytes(length) + [h.unit, fc]
  }

  function ErrorCode(fc: Byte): Byte { if fc < 128 then fc + 128 else fc }

  function Exception(h: Header, code: Byte): seq<Byte> { Mbap(h, 3, ErrorCode(h.fc)) + [code] }

  function RegisterBytes(regs: seq<Word>): (r: seq<Byte>)
    ensures |r| == 2 * |regs|
  {
    if regs == [] then [] else WordBytes(regs[0]) + RegisterBytes(regs[1..])
  }

  function RegsResponse(h: Header, regs: seq<Word>): seq<Byte>
    requires |regs| <= 125
  {
    Mbap(h, 3 + 2 * |regs|, h.fc) + [2 * |regs|] + RegisterBytes(regs)
  }

  function WriteAck(h: Header, addr: Word, qty: Word): seq<Byte> {
    Mbap(h, 6, h.fc) + WordBytes(addr) + WordBytes(qty)
  }

  // ---- Requests --------------------------------------------------------------------------

  datatype Request =
    | Broken
    | Read(addr: Word, qty: Word)
    | WriteOne(addr: Word, value: Word)
    | WriteMany(addr: Word, values: seq<Word>)
    | Unsupported

  function WordsAt(b: seq<Byte>, i: nat, n: nat): (r: seq<Word>)
    requires i + 2 * n <= |b|
    ensures |r| == n
    ensures forall k :: 0 <= k < n ==> r[k] == WordAt(b, i + 2 * k)
    decreases n
  {
    if n == 0 then [] else [WordAt(b, i)] + WordsAt(b, i + 2, n - 1)
  }

  /** Reads a frame whose header states `len` bytes; it never looks past them. */
  function Parse(frame: seq<Byte>, len: nat, fc: Byte): Request
    requires len >= 2 && |frame| >= 6 + len
  {
    if fc == 3 || fc == 4 then
      if len < 6 then Broken else Read(WordAt(frame, 8), WordAt(frame, 10))
    else if fc == 6 then
      if len < 6 then Broken else WriteOne(WordAt(frame, 8), WordAt(frame, 10))
    else if fc == 16 then
      if len < 7 then Broken
      else
        var qty: int, bc: int := WordAt(frame, 10), frame[12];
        if bc != qty * 2 || 13 + bc > 6 + len then Broken else WriteMany(WordAt(frame, 8), WordsAt(frame, 13, qty))
    else Unsupported
  }

  // ---- The Plexlog profile ---------------------------------------------------------------

  function SetRegs(regs: map<nat, Word>, addr: nat, values: seq<Word>): map<nat, Word>
    decreases |values|
  {
    if values == [] then regs else SetRegs(regs[addr := values[0]], addr + 1, values[1..])
  }

  function GetReg(regs: map<nat, Word>, a: nat): Word { if a in regs then regs[a] else 0 }

  function GetRegs(regs: map<nat, Word>, addr: nat, qty: nat): (r: seq<Word>)
    ensures |r| == qty
    ensures forall i :: 0 <= i < qty ==> r[i] == GetReg(regs, addr + i)
    decreases qty
  {
    if qty == 0 then [] else [GetReg(regs, addr)] + GetRegs(regs, addr + 1, qty - 1)
  }

  /** Register 0/1 and 3 switch feed-in off and on. */
  function WriteSignal(s: State, addr: nat, values: seq<Word>, until: int): State {
    if addr == 0 && |values| >= 2 && values[0] == 0 && values[1] == 0 then ForceOff(s, until)
    else if addr == 0 && |values| >= 2 && values[0] == 0xffff && values[1] == 0xffff then ClearOff(s)
    else if addr == 0 && |values| >= 2 && values[0] == 0x00ff && values[1] == 0x00ff then ClearOff(s)
    else if addr == 3 && |values| >= 1 && values[0] == 1 then ForceOff(s, until)
    else if addr == 3 && |values| >= 1 && values[0] == 0 then ClearOff(s)
    else s
  }

  function PlexlogWrite(s: Server, cfg: Settings, addr: nat, values: seq<Word>, now: int): Server {
    s.(regs := SetRegs(s.regs, addr, values), control := WriteSignal(s.control, addr, values, now + cfg.offLeaseMs))
  }

  // ---- One frame -------------------------------------------------------------------------

  ghost predicate Valid(s: Server) { 0 <= s.control.luox.setpointPct <= 100 }

  /** The registers a read answers with: input registers for function 4, else the profile's own. */
  function ReadRegs(s: Server, cfg: Settings, fc: Byte, addr: nat, qty: nat): (r: seq<Word>)
    requires Valid(s)
    ensures |r| == qty
  {
    if fc == 4 then ReadWindow(InputRegisters(s.feedInW, s.pvW, cfg.luox.referencePowerW), addr, qty)
    else if cfg.profile.LuoxProfile? then ReadWindow(HoldingRegisters(s.control.luox), addr, qty)
    else GetRegs(s.regs, addr, qty)
  }

  /** A write of either kind; an echo or an acknowledgement answers it if it is accepted. */
  function ApplyWrite(s: Server, cfg: Settings, m: Moment, h: Header, addr: Word, values: seq<Word>,
                      accepted: seq<Byte>): Answer
    requires Valid(s)
  {
    if cfg.profile.LuoxProfile? then
      var change := ChangeOf(s.control.luox, addr, values);
      if change.Rejected? then Answer(s, Some(Exception(h, 3)))
      else Answer(s.(control := ApplyChange(s.control, cfg.luox, change, m.now, m.setting)), Some(accepted))
    else Answer(PlexlogWrite(s, cfg, addr, values, m.now), Some(accepted))
  }

  predicate Readable(frame: seq<Byte>) {
    |frame| >= 8 && WordAt(frame, 2) == 0 && WordAt(frame, 4) >= 2 && |frame| >= Total(frame)
  }

  function HeaderOf(frame: seq<Byte>): Header
    requires |frame| >= 8
  {
    Header(WordAt(frame, 0), frame[6], frame[7])
  }

  function Expired(s: Server, cfg: Settings, m: Moment): Server {
    s.(control := Expire(s.control, cfg.luox, m.now, m.expiring))
  }

  lemma ExpiredValid(s: Server, cfg: Settings, m: Moment)
    requires Valid(s)
    ensures Valid(Expired(s, cfg, m))
  {
  }

  /** What one frame does and is answered with, for any bytes whatever. */
  function ProcessFrame(s0: Server, cfg: Settings, m: Moment, frame: seq<Byte>): Answer
    requires Valid(s0)
  {
    if !Readable(frame) then Answer(s0, None)
    else
      ExpiredValid(s0, cfg, m);
      var s := Expired(s0, cfg, m);
      var h := HeaderOf(frame);
      match Parse(frame, WordAt(frame, 4), h.fc)
      case Unsupported => Answer(s, Some(Exception(h, 1)))
      case Broken => Answer(s, Some(Exception(h, 3)))
      case Read(addr, qty) =>
        if qty < 1 || qty > 125 then Answer(s, Some(Exception(h, 3)))
        else Answer(s, Some(RegsResponse(h, ReadRegs(s, cfg, h.fc, addr, qty))))
      case WriteOne(addr, value) => ApplyWrite(s, cfg, m, h, addr, [value], frame[..12])
      case WriteMany(addr, values) => ApplyWrite(s, cfg, m, h, addr, values, WriteAck(h, addr, |values|))
  }
}
