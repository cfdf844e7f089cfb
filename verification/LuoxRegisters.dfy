/**
  The register tables of the LUOX interface: 32-bit values as two words, low word first, and
  the window of registers a read answers with.
 */
module LuoxRegisters {
  import opened Reals
  import opened Words
  import opened LuoxControl

  function ClampTo(n: int, lo: int, hi: int): (r: int)
    requires lo <= hi
    ensures lo <= r <= hi
  {
    if n < lo then lo else if n > hi then hi else n
  }

  /** Two's complement: negative values wrap to the upper half of 32 bits. */
  function I32Words(value: real): (r: seq<Word>)
    ensures |r| == 2
  {
    var x := ClampTo(Rounded(value), -0x8000_0000, 0x7fff_ffff) % 0x1_0000_0000;
    [x % 0x10000, x / 0x10000]
  }

  function U32Words(value: real): (r: seq<Word>)
    ensures |r| == 2
  {
    var n := ClampTo(Rounded(value), 0, 0xffff_ffff);
    [n % 0x10000, n / 0x10000]
  }

  function WordsToU32(lo: Word, hi: Word): int {
    var h: int, l: int := hi, lo;
    h * 0x10000 + l
  }

  /** The signed reading of 32 bits. */
  function Signed(x: int): int { if x >= 0x8000_0000 then x - 0x1_0000_0000 else x }

  lemma U32RoundTrip(value: real)
    ensures WordsToU32(U32Words(value)[0], U32Words(value)[1]) == ClampTo(Rounded(value), 0, 0xffff_ffff)
  {
  }

  /** Positive feed-in and negative supply both come back, clamped to 32 bits. */
  lemma I32RoundTrip(value: real)
    ensures Signed(WordsToU32(I32Words(value)[0], I32Words(value)[1]))
            == ClampTo(Rounded(value), -0x8000_0000, 0x7fff_ffff)
  {
    var n := ClampTo(Rounded(value), -0x8000_0000, 0x7fff_ffff);
    if n < 0 {
      assert n % 0x1_0000_0000 == n + 0x1_0000_0000;
    } else {
      assert n % 0x1_0000_0000 == n;
    }
  }

  /** Feed-in at the grid point, production, the grid operator's share, the reference power. */
  function InputRegisters(feedInW: real, pvW: real, referencePowerW: int): (r: seq<Word>)
    ensures |r| == 7
  {
    I32Words(feedInW) + U32Words(if pvW >= 0.0 then pvW else 0.0) + [100] + U32Words(referencePowerW as real)
  }

  function HoldingRegisters(l: Luox): (r: seq<Word>)
    requires 0 <= l.setpointPct <= 100
    ensures |r| == 5
  {
    [0, 0, l.setpointPct, l.watchdog.0, l.watchdog.1]
  }

  /** Addresses beyond the table read as zero. */
  function Register(registers: seq<Word>, a: nat): Word {
    if a < |registers| then registers[a] else 0
  }

  function ReadWindow(registers: seq<Word>, addr: nat, qty: nat): (r: seq<Word>)
    ensures |r| == qty
    ensures forall i :: 0 <= i < qty ==> r[i] == Register(registers, addr + i)
    decreases qty
  {
    if qty == 0 then [] else [Register(registers, addr)] + ReadWindow(registers, addr + 1, qty - 1)
  }
}
