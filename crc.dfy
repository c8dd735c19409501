/**
 * The packet checksum: a bitwise CRC-16 over reflected polynomial 0xA001,
 * initial value 0xFFFF, no final XOR -- the CRC-16/MODBUS parameters
 * (section 6.2.2 of the MODBUS over Serial Line Specification and
 * Implementation Guide V1.02).  The register never leaves 16 bits, so it
 * is a bv16.
 */
module Crc {
  import opened Bytes

  const POLY: bv16 := 0xA001
  const INIT: bv16 := 0xFFFF

  /** One round of the inner loop: shift right, folding in the polynomial when the bit shifted out was 1. */
  function Shift(crc: bv16): bv16 {
    if crc & 1 == 1 then (crc >> 1) ^ POLY else crc >> 1
  }

  /** `n` rounds of Shift. */
  function Rounds(crc: bv16, n: nat): bv16
    decreases n
  {
    if n == 0 then crc else Rounds(Shift(crc), n - 1)
  }

  /** What one input byte does to the register: XOR it in, then eight rounds. */
  function Step(crc: bv16, b: byte): bv16 {
    Rounds(crc ^ (b as bv16), 8)
  }

  /** The register after feeding `data`, first byte first, into a register holding `crc`. */
  function Register(crc: bv16, data: seq<byte>): bv16
    decreases |data|, 1
  {
    if data == [] then crc else Feed(crc, data[0], data[1..])
  }

  /** The register after feeding `b`, then `rest`. */
  function Feed(crc: bv16, b: byte, rest: seq<byte>): bv16
    decreases |rest| + 1, 0
  {
    Register(Step(crc, b), rest)
  }

  /** The checksum of `data`, as the integer the gateways compare with the packet's field. */
  function Crc16(data: seq<byte>): (r: int)
    ensures 0 <= r <= 0xFFFF
    ensures data == [] ==> r == 0xFFFF
  {
    Register(INIT, data) as int
  }

  /** The register is a left fold: appending a byte is one more Step. */
  lemma {:induction false} RegisterSnoc(crc: bv16, a: seq<byte>, b: byte)
    ensures Register(crc, a + [b]) == Step(Register(crc, a), b)
    decreases |a|
  {
    if a == [] {
      assert a + [b] == [b];
      assert Register(crc, [b]) == Feed(crc, b, []);
    } else {
      assert (a + [b])[0] == a[0] && (a + [b])[1..] == a[1..] + [b];
      RegisterSnoc(Step(crc, a[0]), a[1..], b);
      assert Register(crc, a) == Feed(crc, a[0], a[1..]);
    }
  }

  /** Crc16 of a longer input is one Step applied to Crc16 of its prefix. */
  lemma Crc16Snoc(a: seq<byte>, b: byte)
    ensures Crc16(a + [b]) == Step(Crc16(a) as bv16, b) as int
  {
    RegisterSnoc(INIT, a, b);
  }

  /** Feeding `a + t` is feeding `a`, then `t`. */
  lemma {:induction false} RegisterAppend(crc: bv16, a: seq<byte>, t: seq<byte>)
    ensures Register(crc, a + t) == Register(Register(crc, a), t)
    decreases |a|
  {
    if a == [] {
      assert a + t == t;
    } else {
      assert (a + t)[0] == a[0] && (a + t)[1..] == a[1..] + t;
      RegisterAppend(Step(crc, a[0]), a[1..], t);
      assert Register(crc, a + t) == Feed(crc, a[0], (a + t)[1..]);
      assert Register(crc, a) == Feed(crc, a[0], a[1..]);
    }
  }

  /** One round loses no information: the bit shifted out decides bit 15 of the result, since bit 15 of POLY is set. */
  lemma ShiftInjective(x: bv16, y: bv16)
    ensures Shift(x) == Shift(y) ==> x == y
  {
  }

  lemma {:induction false} RoundsInjective(x: bv16, y: bv16, n: nat)
    ensures Rounds(x, n) == Rounds(y, n) ==> x == y
    decreases n
  {
    if n > 0 {
      RoundsInjective(Shift(x), Shift(y), n - 1);
      ShiftInjective(x, y);
    }
  }

  /** Two Steps agree only when the registers XORed with the bytes agree. */
  lemma StepInjective(c1: bv16, b1: byte, c2: bv16, b2: byte)
    ensures Step(c1, b1) == Step(c2, b2) ==> c1 ^ (b1 as bv16) == c2 ^ (b2 as bv16)
  {
    RoundsInjective(c1 ^ (b1 as bv16), c2 ^ (b2 as bv16), 8);
  }

  /** Registers that differ before `t` still differ after it. */
  lemma {:induction false} RegisterInjective(c1: bv16, c2: bv16, t: seq<byte>)
    ensures Register(c1, t) == Register(c2, t) ==> c1 == c2
    decreases |t|
  {
    if t != [] {
      assert Register(c1, t) == Feed(c1, t[0], t[1..]);
      assert Register(c2, t) == Feed(c2, t[0], t[1..]);
      RegisterInjective(Step(c1, t[0]), Step(c2, t[0]), t[1..]);
      StepInjective(c1, t[0], c2, t[0]);
    }
  }

  lemma RegisterAsInt(x: bv16)
    ensures (x as int) as bv16 == x
  {
  }

  /** Feeding `a`, then one byte, then `t` ends in different registers for different bytes. */
  lemma RegisterDetectsChange(crc: bv16, a: seq<byte>, b1: byte, b2: byte, t: seq<byte>)
    requires b1 != b2
    ensures Register(crc, a + [b1] + t) != Register(crc, a + [b2] + t)
  {
    var r := Register(crc, a);
    RegisterSnoc(crc, a, b1);
    RegisterSnoc(crc, a, b2);
    RegisterAppend(crc, a + [b1], t);
    RegisterAppend(crc, a + [b2], t);
    Bytes.ByteAsBv16Injective(b1, b2);
    StepInjective(r, b1, r, b2);
    RegisterInjective(Step(r, b1), Step(r, b2), t);
  }

  /** The checksum detects every change of a single byte, wherever it sits. */
  lemma SingleByteChangeDetected(a: seq<byte>, b1: byte, b2: byte, t: seq<byte>)
    requires b1 != b2
    ensures Crc16(a + [b1] + t) != Crc16(a + [b2] + t)
  {
    RegisterDetectsChange(INIT, a, b1, b2, t);
    RegisterAsInt(Register(INIT, a + [b1] + t));
    RegisterAsInt(Register(INIT, a + [b2] + t));
  }

  /** Step, given the register after the XOR and after the eight rounds. */
  lemma StepOf(crc: bv16, b: byte, mixed: bv16, n: bv16)
    requires crc ^ (b as bv16) == mixed && Rounds(mixed, 8) == n
    ensures Step(crc, b) == n
  {
  }

  /** Feeding `data` through a register that steps through `regs` ends in the last of them. */
  lemma {:induction false} RegisterTrace(regs: seq<bv16>, data: seq<byte>)
    requires |regs| == |data| + 1
    requires forall i :: 0 <= i < |data| ==> Step(regs[i], data[i]) == regs[i + 1]
    ensures Register(regs[0], data) == regs[|data|]
    decreases |data|
  {
    if data != [] {
      RegisterTrace(regs[1..], data[1..]);
      assert Register(regs[0], data) == Feed(regs[0], data[0], data[1..]);
    }
  }

  /** The standard check input: ASCII "123456789". */
  const CHECK_INPUT: seq<byte> := [0x31, 0x32, 0x33, 0x34, 0x35, 0x36, 0x37, 0x38, 0x39]

  /** The register before and after each byte of CHECK_INPUT. */
  const CHECK_TRACE: seq<bv16> := [0xFFFF, 0x947E, 0xF595, 0x7A75, 0x30BA, 0xA471, 0x32E4, 0x9D73, 0x37DD, 0x4B37]

  // One lemma per byte of CHECK_INPUT, each its own small proof.

  lemma CheckStep0()
    ensures Step(CHECK_TRACE[0], CHECK_INPUT[0]) == CHECK_TRACE[1]
  {
    StepOf(CHECK_TRACE[0], CHECK_INPUT[0], 0xFFCE, CHECK_TRACE[1]);
  }

  lemma CheckStep1()
    ensures Step(CHECK_TRACE[1], CHECK_INPUT[1]) == CHECK_TRACE[2]
  {
    StepOf(CHECK_TRACE[1], CHECK_INPUT[1], 0x944C, CHECK_TRACE[2]);
  }

  lemma CheckStep2()
    ensures Step(CHECK_TRACE[2], CHECK_INPUT[2]) == CHECK_TRACE[3]
  {
    StepOf(CHECK_TRACE[2], CHECK_INPUT[2], 0xF5A6, CHECK_TRACE[3]);
  }

  lemma CheckStep3()
    ensures Step(CHECK_TRACE[3], CHECK_INPUT[3]) == CHECK_TRACE[4]
  {
    StepOf(CHECK_TRACE[3], CHECK_INPUT[3], 0x7A41, CHECK_TRACE[4]);
  }

  lemma CheckStep4()
    ensures Step(CHECK_TRACE[4], CHECK_INPUT[4]) == CHECK_TRACE[5]
  {
    StepOf(CHECK_TRACE[4], CHECK_INPUT[4], 0x308F, CHECK_TRACE[5]);
  }

  lemma CheckStep5()
    ensures Step(CHECK_TRACE[5], CHECK_INPUT[5]) == CHECK_TRACE[6]
  {
    StepOf(CHECK_TRACE[5], CHECK_INPUT[5], 0xA447, CHECK_TRACE[6]);
  }

  lemma CheckStep6()
    ensures Step(CHECK_TRACE[6], CHECK_INPUT[6]) == CHECK_TRACE[7]
  {
    StepOf(CHECK_TRACE[6], CHECK_INPUT[6], 0x32D3, CHECK_TRACE[7]);
  }

  lemma CheckStep7()
    ensures Step(CHECK_TRACE[7], CHECK_INPUT[7]) == CHECK_TRACE[8]
  {
    StepOf(CHECK_TRACE[7], CHECK_INPUT[7], 0x9D4B, CHECK_TRACE[8]);
  }

  lemma CheckStep8()
    ensures Step(CHECK_TRACE[8], CHECK_INPUT[8]) == CHECK_TRACE[9]
  {
    StepOf(CHECK_TRACE[8], CHECK_INPUT[8], 0x37E4, CHECK_TRACE[9]);
  }

  /** The CRC-16/MODBUS check value: the checksum of CHECK_INPUT is 0x4B37. */
  lemma CheckValue()
    ensures Crc16(CHECK_INPUT) == 0x4B37
  {
    forall i | 0 <= i < |CHECK_INPUT|
      ensures Step(CHECK_TRACE[i], CHECK_INPUT[i]) == CHECK_TRACE[i + 1]
    {
      if i == 0 { CheckStep0();
      } else if i == 1 { CheckStep1();
      } else if i == 2 { CheckStep2();
      } else if i == 3 { CheckStep3();
      } else if i == 4 { CheckStep4();
      } else if i == 5 { CheckStep5();
      } else if i == 6 { CheckStep6();
      } else if i == 7 { CheckStep7();
      } else { CheckStep8(); }
    }
    RegisterTrace(CHECK_TRACE, CHECK_INPUT);
  }

  /** `crc16`'s nested loop: the register updated in place, byte by byte, round by round. */
  method ComputeCrc16(data: seq<byte>) returns (crc: int)
    ensures crc == Crc16(data)
  {
    var reg: bv16 := INIT;
    for i := 0 to |data|
      invariant Register(reg, data[i..]) == Register(INIT, data)
    {
      ghost var before := reg;
      reg := reg ^ (data[i] as bv16);
      ghost var mixed := reg;
      for k := 0 to 8
        invariant Rounds(reg, 8 - k) == Rounds(mixed, 8)
      {
        reg := if reg & 1 == 1 then (reg >> 1) ^ POLY else reg >> 1;
      }
      assert reg == Step(before, data[i]);
      assert data[i..][1..] == data[i + 1..];
    }
    crc := reg as int;
  }
}
