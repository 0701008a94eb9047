/** The numbers, registers and instructions of the 6502 emulator. */
module Opcodes {
  type I8 = x: int | -128 <= x < 128
  type U8 = x: int | 0 <= x < 0x100
  type U16 = x: int | 0 <= x < 0x1_0000

  /* Conversions keep the low bits, in two's complement. */

  function ToI8(x: int): I8 {
    (x + 128) % 256 - 128
  }

  function ToU8(x: int): U8 {
    x % 0x100
  }

  function ToU16(x: int): U16 {
    x % 0x1_0000
  }

  lemma Unsigned(b: I8)
    ensures ToU8(b) == if b < 0 then b + 0x100 else b
  {
  }

  /** A high byte shifted up, with a low byte or-ed in that was extended with its sign. */
  function OrWord(hi: I8, lo: I8): int {
    if lo < 0 then lo else hi * 256 + lo
  }

  /* The flags of the status register, and the bit that a carry ends up in. */
  const CARRY := 0x01
  const ZERO := 0x02
  const IRQ_DISABLE := 0x04
  const DECIMAL_MODE := 0x08
  const OVERFLOW := 0x40
  const NEGATIVE := 0x80
  const NINTH := 0x100

  /** One bit of a number; a shift to the right rounds down. */
  function Bit(x: int, weight: int): int
    requires weight > 0
  {
    x / weight % 2
  }

  function WithBit(x: I8, weight: int, v: int): I8
    requires weight > 0
  {
    ToI8(x + (v % 2 - Bit(x, weight)) * weight)
  }

  function Truth(b: bool): int {
    if b then 1 else 0
  }

  function HighNibble(x: int): int {
    x / 16 % 16 * 16
  }

  datatype Gate = AndGate | OrGate | XorGate

  function Gated(g: Gate, a: int, b: int, bits: nat): int
    decreases bits
  {
    if bits == 0 then 0
    else
      var bit := match g
        case AndGate => Truth(a % 2 == 1 && b % 2 == 1)
        case OrGate => Truth(a % 2 == 1 || b % 2 == 1)
        case XorGate => Truth(a % 2 != b % 2);
      bit + 2 * Gated(g, a / 2, b / 2, bits - 1)
  }

  function Bitwise(g: Gate, a: I8, b: I8): I8 {
    ToI8(Gated(g, a, b, 8))
  }

  datatype Op =
    | Ora | And | Eor | Adc | Sbc | Cmp | Cpx | Cpy | Lda | Ldx | Ldy | BitTest
    | Asl | Lsr | Rol | Ror | Dec | Inc
    | AslA | LsrA | RolA | RorA | Clc | Cld | Cli | Clv | Sec | Sed | Sei
    | Dex | Dey | Inx | Iny | Tax | Tay | Tsx | Txa | Tya | Txs | Nop
    | Sta | Stx | Sty
    | Bcc | Bcs | Beq | Bmi | Bne | Bpl | Bvc | Bvs
    | Jmp | Jsr | Brk | Rti | Rts | Pha | Php | Pla | Plp
    | Unknown

  datatype Mode =
    | NoOperand | Implied | Immediate | Absolute | AbsoluteX | AbsoluteY | Indirect | IndirectX | IndirectY
    | Relative | ZeroPage | ZeroPageX | ZeroPageY

  datatype Instruction = Instruction(op: Op, mode: Mode)

  datatype Regs = Regs(a: I8, x: I8, y: I8, sr: I8) {
    function Flag(weight: int): int
      requires weight > 0
    {
      Bit(sr, weight)
    }

    function With(weight: int, v: int): Regs
      requires weight > 0
    {
      this.(sr := WithBit(sr, weight, v))
    }

    function Signed(value: int): Regs {
      With(NEGATIVE, Truth(value < 0)).With(ZERO, Truth(value == 0))
    }
  }

  /** What an instruction that reads its operand makes of the registers. */
  function Combine(op: Op, r: Regs, v: I8): Regs {
    match op
    case Ora => var a := Bitwise(OrGate, r.a, v); r.(a := a).Signed(a)
    case And => var a := Bitwise(AndGate, r.a, v); r.(a := a).Signed(a)
    case Eor => var a := Bitwise(XorGate, r.a, v); r.(a := a).Signed(a)
    case Adc => if r.Flag(DECIMAL_MODE) == 0 then AddBinary(r, v) else AddDecimal(r, v)
    case Sbc => if r.Flag(DECIMAL_MODE) == 0 then SubtractBinary(r, v) else SubtractDecimal(r, v)
    case Cmp => Compare(r, r.a, v)
    case Cpx => Compare(r, r.x, v)
    case Cpy => Compare(r, r.y, v)
    case Lda => r.(a := v).Signed(v)
    case Ldx => r.(x := v).Signed(v)
    case Ldy => r.(y := v).Signed(v)
    case BitTest => r.With(OVERFLOW, Bit(v, 0x40)).With(NEGATIVE, Truth(v < 0)).With(ZERO,
      Truth(Bitwise(AndGate, v, r.a) == 0))
    case _ => r
  }

  function Compare(r: Regs, register: I8, v: I8): Regs {
    r.With(CARRY, 1 - Bit(register - v, NINTH)).Signed(register - v)
  }

  function AddBinary(r: Regs, v: I8): Regs {
    var value := r.a + v + r.Flag(CARRY);
    var a := ToI8(value);
    var overflow := Truth(Bit(r.a, 0x80) != Bit(a, 0x80) && Bit(r.a, 0x80) == Bit(v, 0x80));
    r.(a := a).With(OVERFLOW, overflow).With(CARRY, Bit(value, NINTH)).Signed(value)
  }

  function AddDecimal(r: Regs, v: I8): Regs {
    var s := r.With(ZERO, Truth((r.a + v + r.Flag(CARRY)) % 0x100 == 0));
    var low := r.a % 16 + v % 16 + r.Flag(CARRY);
    var a := ToI8(if low < 0x0A then low else low + 6);
    var high := HighNibble(r.a) + HighNibble(v) + HighNibble(low);
    var overflow := Truth(Bit(r.a, 0x80) != Bit(high, 0x80) && Bit(r.a, 0x80) == Bit(v, 0x80));
    var sum := a % 16 + (if high < 0xA0 then high else high + 0x60);
    s.(a := ToI8(sum)).With(NEGATIVE, Truth(high < 0)).With(OVERFLOW, overflow).With(CARRY, Truth(sum > 0x100))
  }

  function SubtractBinary(r: Regs, v: I8): Regs {
    var value := r.a - v - (1 - r.Flag(CARRY));
    var a := ToI8(value);
    var overflow := Truth(Bit(r.a, 0x80) != Bit(v, 0x80) && Bit(r.a, 0x80) != Bit(a, 0x80));
    r.(a := a).With(OVERFLOW, overflow).With(CARRY, 1 - Bit(value, NINTH)).Signed(value)
  }

  function SubtractDecimal(r: Regs, v: I8): Regs {
    var low := r.a % 16 - v % 16 - (1 - r.Flag(CARRY));
    var a := ToI8(if Bit(low, 0x10) == 0 then low else low - 6);
    var high := HighNibble(r.a) - HighNibble(v) - Bit(a, 0x10) * 16;
    var value := r.a - v - (1 - r.Flag(CARRY));
    r.(a := ToI8(a % 16 + (if Bit(high, 0x100) == 0 then high else high - 0x60))).With(CARRY,
      1 - Bit(value, NINTH)).Signed(value)
  }

  /** What an instruction that changes its operand in memory makes of the registers and of the byte. */
  function Modify(op: Op, r: Regs, v: I8): (Regs, I8) {
    match op
    case Asl => var w := ToI8(2 * v); (r.With(CARRY, Truth(v < 0)).Signed(w), w)
    case Lsr => var w := v / 2; (r.With(CARRY, v % 2).Signed(w), w)
    case Rol => var w := ToI8(2 * (v % 0x100) + r.Flag(CARRY)); (r.With(CARRY, Truth(v < 0)).Signed(w), w)
    case Ror => var w := ToI8(v % 0x100 / 2 + 0x80 * r.Flag(CARRY)); (r.With(CARRY, v % 2).Signed(w), w)
    case Dec => var w := ToI8(v - 1); (r.Signed(w), w)
    case Inc => var w := ToI8(v + 1); (r.Signed(w), w)
    case _ => (r, v)
  }

  /** What an instruction without a memory operand makes of the registers. */
  function Transform(op: Op, r: Regs, sp: U8): Regs {
    match op
    case AslA => var w := ToU8(2 * r.a); r.With(CARRY, Bit(w, NINTH)).Signed(w)  // the accumulator stays as it is
    case LsrA => var w := r.a / 2; r.(a := w).With(CARRY, r.a % 2).Signed(w)
    case RolA => var t := 2 * r.a + r.Flag(CARRY); r.(a := ToI8(t)).With(CARRY, Bit(t, NINTH)).Signed(ToI8(t))
    case RorA => var t := if r.a < 0 then r.a
      else r.a + r.Flag(CARRY) * 0x100; r.(a := ToI8(t / 2)).With(CARRY, r.a % 2).Signed(ToI8(t / 2))
    case Clc => r.With(CARRY, 0)
    case Cld => r.With(DECIMAL_MODE, 0)
    case Cli => r.With(IRQ_DISABLE, 0)
    case Clv => r.With(OVERFLOW, 0)
    case Sec => r.With(CARRY, 1)
    case Sed => r.With(DECIMAL_MODE, 1)
    case Sei => r.With(IRQ_DISABLE, 1)
    case Dex => var w := ToI8(r.x - 1); r.(x := w).Signed(w)
    case Dey => var w := ToI8(r.y - 1); r.(y := w).Signed(w)
    case Inx => var w := ToI8(r.x + 1); r.(x := w).Signed(w)
    case Iny => var w := ToI8(r.y + 1); r.(y := w).Signed(w)
    case Tax => r.(x := r.a).Signed(r.a)
    case Tay => r.(x := r.a).Signed(r.a)  // as the source has it
    case Tsx => var w := ToI8(sp); r.(x := w).Signed(w)
    case Txa => r.(a := r.x).Signed(r.x)
    case Tya => r.(a := r.y).Signed(r.y)
    case _ => r
  }

  predicate Taken(op: Op, r: Regs) {
    match op
    case Bcc => r.Flag(CARRY) == 0
    case Bcs => r.Flag(CARRY) != 0
    case Beq => r.Flag(ZERO) == 1
    case Bne => r.Flag(ZERO) == 0
    case Bmi => r.Flag(NEGATIVE) == 1
    case Bpl => r.Flag(NEGATIVE) == 0
    case Bvc => r.Flag(OVERFLOW) == 0
    case _ => r.Flag(OVERFLOW) != 0
  }

  /** The instructions of the 256 opcodes; those that the chip does not know hang. */
  function Decode(ir: U8): Instruction {
    match ir
    case 0x00 => Instruction(Brk, Implied)
    case 0x01 => Instruction(Ora, IndirectX)
    case 0x05 => Instruction(Ora, ZeroPage)
    case 0x06 => Instruction(Asl, ZeroPage)
    case 0x08 => Instruction(Php, Implied)
    case 0x09 => Instruction(Ora, Immediate)
    case 0x0A => Instruction(AslA, NoOperand)
    case 0x0D => Instruction(Ora, Absolute)
    case 0x0E => Instruction(Asl, Absolute)
    case 0x10 => Instruction(Bpl, Relative)
    case 0x11 => Instruction(Ora, IndirectY)
    case 0x15 => Instruction(Ora, ZeroPageX)
    case 0x16 => Instruction(Asl, ZeroPageX)
    case 0x18 => Instruction(Clc, Implied)
    case 0x19 => Instruction(Ora, AbsoluteY)
    case 0x1D => Instruction(Ora, AbsoluteX)
    case 0x1E => Instruction(Asl, AbsoluteX)
    case 0x20 => Instruction(Jsr, Absolute)
    case 0x21 => Instruction(And, IndirectX)
    case 0x24 => Instruction(BitTest, ZeroPage)
    case 0x25 => Instruction(And, ZeroPage)
    case 0x26 => Instruction(Rol, ZeroPage)
    case 0x28 => Instruction(Plp, Implied)
    case 0x29 => Instruction(And, Immediate)
    case 0x2A => Instruction(RolA, NoOperand)
    case 0x2C => Instruction(BitTest, Absolute)
    case 0x2D => Instruction(And, Absolute)
    case 0x2E => Instruction(Rol, Absolute)
    case 0x30 => Instruction(Bmi, Relative)
    case 0x31 => Instruction(And, IndirectY)
    case 0x35 => Instruction(And, ZeroPageX)
    case 0x36 => Instruction(Rol, ZeroPageX)
    case 0x38 => Instruction(Sec, Implied)
    case 0x39 => Instruction(And, AbsoluteY)
    case 0x3D => Instruction(And, AbsoluteX)
    case 0x3E => Instruction(Rol, AbsoluteX)
    case 0x40 => Instruction(Rti, Implied)
    case 0x41 => Instruction(Eor, IndirectX)
    case 0x45 => Instruction(Eor, ZeroPage)
    case 0x46 => Instruction(Lsr, ZeroPage)
    case 0x48 => Instruction(Pha, Implied)
    case 0x49 => Instruction(Eor, Immediate)
    case 0x4A => Instruction(LsrA, NoOperand)
    case 0x4C => Instruction(Jmp, Absolute)
    case 0x4D => Instruction(Eor, Absolute)
    case 0x4E => Instruction(Lsr, Absolute)
    case 0x50 => Instruction(Bvc, Relative)
    case 0x51 => Instruction(Eor, IndirectY)
    case 0x55 => Instruction(Eor, ZeroPageX)
    case 0x56 => Instruction(Lsr, ZeroPageX)
    case 0x58 => Instruction(Cli, Implied)
    case 0x59 => Instruction(Eor, AbsoluteY)
    case 0x5D => Instruction(Eor, AbsoluteX)
    case 0x5E => Instruction(Lsr, AbsoluteX)
    case 0x60 => Instruction(Rts, Implied)
    case 0x61 => Instruction(Adc, IndirectX)
    case 0x65 => Instruction(Adc, ZeroPage)
    case 0x66 => Instruction(Ror, ZeroPage)
    case 0x68 => Instruction(Pla, Implied)
    case 0x69 => Instruction(Adc, Immediate)
    case 0x6A => Instruction(RorA, NoOperand)
    case 0x6C => Instruction(Jmp, Indirect)
    case 0x6D => Instruction(Adc, Absolute)
    case 0x6E => Instruction(Ror, Absolute)
    case 0x70 => Instruction(Bvs, Relative)
    case 0x71 => Instruction(Adc, IndirectY)
    case 0x75 => Instruction(Adc, ZeroPageX)
    case 0x76 => Instruction(Ror, ZeroPageX)
    case 0x78 => Instruction(Sei, Implied)
    case 0x79 => Instruction(Adc, AbsoluteY)
    case 0x7D => Instruction(Adc, AbsoluteX)
    case 0x7E => Instruction(Ror, AbsoluteX)
    case 0x81 => Instruction(Sta, IndirectX)
    case 0x84 => Instruction(Sty, ZeroPage)
    case 0x85 => Instruction(Sta, ZeroPage)
    case 0x86 => Instruction(Stx, ZeroPage)
    case 0x88 => Instruction(Dey, Implied)
    case 0x8A => Instruction(Txa, Implied)
    case 0x8C => Instruction(Sty, Absolute)
    case 0x8D => Instruction(Sta, Absolute)
    case 0x8E => Instruction(Stx, Absolute)
    case 0x90 => Instruction(Bcc, Relative)
    case 0x91 => Instruction(Sta, IndirectX)
    case 0x94 => Instruction(Sty, ZeroPageX)
    case 0x95 => Instruction(Sta, ZeroPageX)
    case 0x96 => Instruction(Stx, ZeroPageY)
    case 0x98 => Instruction(Tya, Implied)
    case 0x99 => Instruction(Sta, AbsoluteY)
    case 0x9A => Instruction(Txs, Implied)
    case 0x9D => Instruction(Sta, AbsoluteX)
    case 0xA0 => Instruction(Ldy, Immediate)
    case 0xA1 => Instruction(Lda, IndirectX)
    case 0xA2 => Instruction(Ldx, Immediate)
    case 0xA4 => Instruction(Ldy, ZeroPage)
    case 0xA5 => Instruction(Lda, ZeroPage)
    case 0xA6 => Instruction(Ldx, ZeroPage)
    case 0xA8 => Instruction(Tay, Implied)
    case 0xA9 => Instruction(Lda, Immediate)
    case 0xAA => Instruction(Tax, Implied)
    case 0xAC => Instruction(Ldy, Absolute)
    case 0xAD => Instruction(Lda, Absolute)
    case 0xAE => Instruction(Ldx, Absolute)
    case 0xB0 => Instruction(Bcs, Relative)
    case 0xB1 => Instruction(Lda, IndirectY)
    case 0xB4 => Instruction(Ldy, ZeroPageX)
    case 0xB5 => Instruction(Lda, ZeroPageX)
    case 0xB6 => Instruction(Ldx, ZeroPageY)
    case 0xB8 => Instruction(Clv, Implied)
    case 0xB9 => Instruction(Lda, AbsoluteY)
    case 0xBA => Instruction(Tsx, Implied)
    case 0xBC => Instruction(Ldy, AbsoluteX)
    case 0xBD => Instruction(Lda, AbsoluteX)
    case 0xBE => Instruction(Ldx, AbsoluteY)
    case 0xC0 => Instruction(Cpy, Immediate)
    case 0xC1 => Instruction(Cmp, IndirectX)
    case 0xC4 => Instruction(Cpy, ZeroPage)
    case 0xC5 => Instruction(Cmp, ZeroPage)
    case 0xC6 => Instruction(Dec, ZeroPage)
    case 0xC8 => Instruction(Iny, Implied)
    case 0xC9 => Instruction(Cmp, Immediate)
    case 0xCA => Instruction(Dex, Implied)
    case 0xCC => Instruction(Cpy, Absolute)
    case 0xCD => Instruction(Cmp, Absolute)
    case 0xCE => Instruction(Dec, Absolute)
    case 0xD0 => Instruction(Bne, Relative)
    case 0xD1 => Instruction(Cmp, IndirectY)
    case 0xD5 => Instruction(Cmp, ZeroPageX)
    case 0xD6 => Instruction(Dec, ZeroPageX)
    case 0xD8 => Instruction(Cld, Implied)
    case 0xD9 => Instruction(Cmp, AbsoluteY)
    case 0xDD => Instruction(Cmp, AbsoluteX)
    case 0xDE => Instruction(Dec, AbsoluteX)
    case 0xE0 => Instruction(Cpx, Immediate)
    case 0xE1 => Instruction(Sbc, IndirectX)
    case 0xE4 => Instruction(Cpx, ZeroPage)
    case 0xE5 => Instruction(Sbc, ZeroPage)
    case 0xE6 => Instruction(Inc, ZeroPage)
    case 0xE8 => Instruction(Inx, Implied)
    case 0xE9 => Instruction(Sbc, Immediate)
    case 0xEA => Instruction(Nop, Implied)
    case 0xEC => Instruction(Cpx, Absolute)
    case 0xED => Instruction(Sbc, Absolute)
    case 0xEE => Instruction(Inc, Absolute)
    case 0xF0 => Instruction(Beq, Relative)
    case 0xF1 => Instruction(Sbc, IndirectY)
    case 0xF5 => Instruction(Sbc, ZeroPageX)
    case 0xF6 => Instruction(Inc, ZeroPageX)
    case 0xF8 => Instruction(Sed, Implied)
    case 0xF9 => Instruction(Sbc, AbsoluteY)
    case 0xFD => Instruction(Sbc, AbsoluteX)
    case 0xFE => Instruction(Inc, AbsoluteX)
    case _ => Instruction(Unknown, NoOperand)
  }
}
