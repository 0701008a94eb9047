/** How far the emulator's arithmetic is that of the 6502, which works on unsigned bytes. */
module Arithmetic {
  import opened Opcodes

  lemma CarryIsSet(r: Regs, v: int)
    ensures r.With(CARRY, v).Flag(CARRY) == v % 2
  {
  }

  lemma CarryIsKept(x: I8, w: int, v: int)
    requires w == ZERO || w == OVERFLOW || w == NEGATIVE
    ensures Bit(WithBit(x, w, v), CARRY) == Bit(x, CARRY)
  {
  }

  lemma SignedKeepsCarry(r: Regs, value: int)
    ensures r.Signed(value).Flag(CARRY) == r.Flag(CARRY)
  {
    hide Bit, WithBit;
    CarryIsKept(r.sr, NEGATIVE, Truth(value < 0));
    CarryIsKept(r.With(NEGATIVE, Truth(value < 0)).sr, ZERO, Truth(value == 0));
  }

  lemma FlagIsBit(r: Regs)
    ensures r.Flag(CARRY) == 0 || r.Flag(CARRY) == 1
  {
  }

  lemma SameByte(x: int)
    ensures ToU8(ToI8(x)) == ToU8(x)
  {
  }

  /** The byte that the 6502 puts back. */
  function Shifted(op: Op, u: U8, carry: int): int {
    match op
    case Asl => 2 * u as int % 0x100
    case Lsr => u / 2
    case Rol => (2 * u as int + carry) % 0x100
    case Ror => u / 2 + 0x80 * carry
    case Dec => (u as int + 0xFF) % 0x100
    case _ => (u as int + 1) % 0x100
  }

  /** The byte is right for all instructions and values but a shift to the right of one with a sign. */
  lemma ModifyIsRight(op: Op, r: Regs, v: I8)
    requires op in {Asl, Lsr, Rol, Ror, Dec, Inc}
    ensures ToU8(Modify(op, r, v).1) == Shifted(op, ToU8(v), r.Flag(CARRY)) <==> !(op == Lsr && v < 0)
  {
    hide ToU8, ToI8, Shifted, Regs.With, Regs.Signed, Regs.Flag;
    FlagIsBit(r);
    ByteIsRight(v, r.Flag(CARRY));
    RotationIsRight(v, r.Flag(CARRY));
  }

  lemma ByteIsRight(v: I8, carry: int)
    requires carry == 0 || carry == 1
    ensures ToU8(ToI8(2 * v as int)) == Shifted(Asl, ToU8(v), carry)
    ensures ToU8(v / 2) == Shifted(Lsr, ToU8(v), carry) <==> v >= 0
    ensures ToU8(ToI8(v as int - 1)) == Shifted(Dec, ToU8(v), carry)
    ensures ToU8(ToI8(v as int + 1)) == Shifted(Inc, ToU8(v), carry)
  {
    hide ToI8, ToU8;
    SameByte(2 * v as int);
    SameByte(v as int - 1);
    SameByte(v as int + 1);
    Unsigned(v);
    Unsigned(v / 2);
    Congruent(2 * v as int, 2 * ToU8(v) as int);
    Congruent(v as int - 1, ToU8(v) as int + 0xFF);
    Congruent(v as int + 1, ToU8(v) as int + 1);
  }

  lemma RotationIsRight(v: I8, carry: int)
    requires carry == 0 || carry == 1
    ensures ToU8(ToI8(2 * (v as int % 0x100) + carry)) == Shifted(Rol, ToU8(v), carry)
    ensures ToU8(ToI8(v as int % 0x100 / 2 + 0x80 * carry)) == Shifted(Ror, ToU8(v), carry)
  {
    hide ToI8, ToU8;
    SameByte(2 * (v as int % 0x100) + carry);
    SameByte(v as int % 0x100 / 2 + 0x80 * carry);
    IsRemainder(v);
    Plain(ToU8(v) as int / 2 + 0x80 * carry);
    Congruent(2 * ToU8(v) as int + carry, 2 * ToU8(v) as int + carry);
  }

  lemma Congruent(x: int, y: int)
    requires x - y == 0 || x - y == -0x100 || x - y == -0x200
    ensures ToU8(x) == y % 0x100
  {
  }

  lemma IsRemainder(v: I8)
    ensures v as int % 0x100 == ToU8(v)
  {
  }

  lemma Plain(x: int)
    requires 0 <= x < 0x100
    ensures ToU8(x) == x
  {
  }

  /** Binary addition has the right accumulator always, and the right carry exactly when both signs are the same. */
  lemma AddBinaryIsRight(r: Regs, v: I8)
    ensures ToU8(AddBinary(r, v).a) == (ToU8(r.a) as int + ToU8(v) + r.Flag(CARRY)) % 0x100
    ensures AddBinary(r, v).Flag(CARRY) == Truth(ToU8(r.a) as int + ToU8(v) + r.Flag(CARRY) >= 0x100) <==>
      (r.a < 0 <==> v < 0)
  {
    var value := r.a as int + v + r.Flag(CARRY);
    SumCarry(r, v, value);
    SumByte(r, v, value);
    hide Regs.Flag, ToI8, ToU8, Regs.With, Regs.Signed, Bit, AddBinary;
    FlagIsBit(r);
    Unsigned(r.a);
    Unsigned(v);
    SameByte(value);
    Congruent(value, ToU8(r.a) as int + ToU8(v) + r.Flag(CARRY));
    NinthBit(value);
  }

  lemma SumByte(r: Regs, v: I8, value: int)
    requires value == r.a as int + v + r.Flag(CARRY)
    ensures AddBinary(r, v).a == ToI8(value)
  {
    hide ToI8, Regs.Flag, Bit, WithBit;
  }

  lemma SumCarry(r: Regs, v: I8, value: int)
    requires value == r.a as int + v + r.Flag(CARRY)
    ensures AddBinary(r, v).Flag(CARRY) == Bit(value, NINTH)
  {
    hide Regs.Flag, Regs.With, Regs.Signed, Bit;
    var a := ToI8(value);
    var overflow := Truth(Bit(r.a, 0x80) != Bit(a, 0x80) && Bit(r.a, 0x80) == Bit(v, 0x80));
    var s := r.(a := a).With(OVERFLOW, overflow).With(CARRY, Bit(value, NINTH));
    CarryIsSet(r.(a := a).With(OVERFLOW, overflow), Bit(value, NINTH));
    SignedKeepsCarry(s, value);
    BitIsBit(value);
  }

  lemma BitIsBit(value: int)
    ensures Bit(value, NINTH) % 2 == Bit(value, NINTH)
  {
  }

  lemma NinthBit(value: int)
    ensures -0x100 <= value < 0x100 ==> Bit(value, NINTH) == Truth(value < 0)
  {
  }

  /** Comparing has the right carry, that of a register not below the value, exactly when both signs are the same. */
  lemma CompareIsRight(r: Regs, register: I8, v: I8)
    ensures Compare(r, register, v).Flag(CARRY) == Truth(ToU8(register) >= ToU8(v)) <==> (register < 0 <==> v < 0)
  {
    hide Regs.Flag, Regs.With, Regs.Signed, Bit;
    CarryIsSet(r, 1 - Bit(register as int - v, NINTH));
    SignedKeepsCarry(r.With(CARRY, 1 - Bit(register as int - v, NINTH)), register as int - v);
    NinthBit(register as int - v);
    Unsigned(register);
    Unsigned(v);
  }

  /** Binary subtraction likewise: the carry is set when nothing is borrowed. */
  lemma SubtractBinaryIsRight(r: Regs, v: I8)
    ensures ToU8(SubtractBinary(r, v).a) == (ToU8(r.a) as int - ToU8(v) - (1 - r.Flag(CARRY))) % 0x100
    ensures SubtractBinary(r, v).Flag(CARRY) == Truth(ToU8(r.a) as int - ToU8(v) - (1 - r.Flag(CARRY)) >= 0) <==>
      (r.a < 0 <==> v < 0)
  {
    var value := r.a as int - v - (1 - r.Flag(CARRY));
    DifferenceCarry(r, v, value);
    DifferenceByte(r, v, value);
    hide Regs.Flag, ToI8, ToU8, Regs.With, Regs.Signed, Bit, SubtractBinary;
    FlagIsBit(r);
    Unsigned(r.a);
    Unsigned(v);
    SameByte(value);
    CongruentBelow(value, ToU8(r.a) as int - ToU8(v) - (1 - r.Flag(CARRY)));
    NinthBit(value);
  }

  lemma CongruentBelow(x: int, y: int)
    requires x - y == 0 || x - y == -0x100 || x - y == 0x100
    ensures ToU8(x) == y % 0x100
  {
  }

  lemma DifferenceByte(r: Regs, v: I8, value: int)
    requires value == r.a as int - v - (1 - r.Flag(CARRY))
    ensures SubtractBinary(r, v).a == ToI8(value)
  {
    hide ToI8, Regs.Flag, Bit, WithBit;
  }

  lemma DifferenceCarry(r: Regs, v: I8, value: int)
    requires value == r.a as int - v - (1 - r.Flag(CARRY))
    ensures SubtractBinary(r, v).Flag(CARRY) == 1 - Bit(value, NINTH)
  {
    hide Regs.Flag, Regs.With, Regs.Signed, Bit;
    var a := ToI8(value);
    var overflow := Truth(Bit(r.a, 0x80) != Bit(v, 0x80) && Bit(r.a, 0x80) != Bit(a, 0x80));
    var s := r.(a := a).With(OVERFLOW, overflow);
    CarryIsSet(s, 1 - Bit(value, NINTH));
    SignedKeepsCarry(s.With(CARRY, 1 - Bit(value, NINTH)), value);
    NotBit(value);
  }

  lemma NotBit(value: int)
    ensures (1 - Bit(value, NINTH)) % 2 == 1 - Bit(value, NINTH)
  {
  }

  /* Instructions that the emulator gets wrong, and when that does not show. */

  /** TAY writes X. That is right exactly when both index registers hold the accumulator's value already. */
  lemma TransferIsRight(r: Regs, sp: U8)
    ensures Transform(Tay, r, sp) == r.(y := r.a).Signed(r.a) <==> r.x == r.a && r.y == r.a
  {
    hide WithBit;
    assert Transform(Tay, r, sp).y == r.y && Transform(Tay, r, sp).x == r.a;
    assert r.(y := r.a).Signed(r.a).y == r.a && r.(y := r.a).Signed(r.a).x == r.x;
    if r.x == r.a && r.y == r.a {
      assert r.(x := r.a) == r == r.(y := r.a);
    }
  }

  /**
   ASL A leaves the accumulator as it is and clears the carry and the sign. The accumulator is right
   for 0 only, the carry for values without sign, and the sign where bit 6 is clear.
   */
  lemma ShiftAccumulatorIsRight(r: Regs, sp: U8)
    ensures var r', u := Transform(AslA, r, sp), 2 * ToU8(r.a) as int % 0x100;
      && (ToU8(r'.a) == u <==> r.a == 0) && (r'.Flag(CARRY) == Truth(ToU8(r.a) >= 0x80) <==> r.a >= 0)
      && (r'.Flag(NEGATIVE) == Truth(u >= 0x80) <==> Bit(r.a, 0x40) == 0)
      && r'.Flag(ZERO) == Truth(u == 0)
  {
    var w := ToU8(2 * r.a as int);
    Doubled(r.a);
    NinthBit(w);
    hide Bit, WithBit, ToU8;
    var s := r.With(CARRY, Bit(w, NINTH));
    CarryIsSet(r, Bit(w, NINTH));
    SignedKeepsCarry(s, w);
    SignedFlags(s, w);
  }

  lemma Doubled(v: I8)
    ensures ToU8(2 * v as int) == 2 * ToU8(v) as int % 0x100
    ensures 2 * ToU8(v) as int % 0x100 == ToU8(v) <==> v == 0
    ensures ToU8(v) >= 0x80 <==> v < 0
    ensures 2 * ToU8(v) as int % 0x100 >= 0x80 <==> Bit(v, 0x40) != 0
    ensures ToU8(v) == 0 <==> v == 0
  {
    Unsigned(v);
    Congruent(2 * v as int, 2 * ToU8(v) as int);
    var q := v / 0x40;
    assert -2 <= q <= 1;
    assert Bit(v, 0x40) == if q == -1 || q == 1 then 1 else 0;
    hide ToU8, Bit;
    var u: int := ToU8(v);
    assert u == 0x40 * (if v < 0 then q + 4 else q) + v % 0x40;
    DoubledIs(u, if u < 0x80 then 2 * u else 2 * u - 0x100);
  }

  lemma DoubledIs(u: int, d: int)
    requires 0 <= u < 0x100 && 0 <= d < 0x100 && (d == 2 * u || d == 2 * u - 0x100)
    ensures 2 * u % 0x100 == d
  {
  }

  /** The sign and zero flags after a result. */
  lemma SignedFlags(r: Regs, value: int)
    ensures r.Signed(value).Flag(NEGATIVE) == Truth(value < 0) && r.Signed(value).Flag(ZERO) == Truth(value == 0)
    ensures r.Signed(value).a == r.a
  {
    hide Bit, WithBit;
    FlagsSet(r.sr, Truth(value < 0));
    FlagsSet(r.With(NEGATIVE, Truth(value < 0)).sr, Truth(value == 0));
    FlagsKept(r.With(NEGATIVE, Truth(value < 0)).sr, Truth(value == 0));
  }

  lemma FlagsSet(x: I8, v: int)
    requires v == 0 || v == 1
    ensures Bit(WithBit(x, NEGATIVE, v), NEGATIVE) == v
    ensures Bit(WithBit(x, ZERO, v), ZERO) == v
    ensures Bit(WithBit(x, OVERFLOW, v), OVERFLOW) == v
  {
    SignBit(x, v);
    BitSix(x, v);
    BitOne(x, v);
  }

  lemma FlagsKept(x: I8, v: int)
    requires v == 0 || v == 1
    ensures Bit(WithBit(x, ZERO, v), NEGATIVE) == Bit(x, NEGATIVE)
    ensures Bit(WithBit(x, ZERO, v), OVERFLOW) == Bit(x, OVERFLOW)
    ensures Bit(WithBit(x, NEGATIVE, v), OVERFLOW) == Bit(x, OVERFLOW)
  {
    SignBit(x, v);
    BitOne(x, v);
  }

  lemma SignBit(x: I8, v: int)
    requires v == 0 || v == 1
    ensures Bit(x, NEGATIVE) == Truth(x < 0)
    ensures Bit(WithBit(x, NEGATIVE, v), NEGATIVE) == v
    ensures Bit(WithBit(x, NEGATIVE, v), OVERFLOW) == Bit(x, OVERFLOW)
  {
    SignIs(x);
    SignPut(x, v);
    hide WithBit;
    var y: I8 := WithBit(x, NEGATIVE, v);
    SignIs(y);
    SameUpper(x, y);
  }

  lemma SignIs(x: I8)
    ensures Bit(x, NEGATIVE) == Truth(x < 0)
  {
    assert x / 0x80 == if x < 0 then -1 else 0;
  }

  lemma SignPut(x: I8, v: int)
    requires v == 0 || v == 1
    ensures WithBit(x, NEGATIVE, v) == if v == 1 && x >= 0 then x - 0x80 else if v == 0 && x < 0 then x + 0x80 else x
  {
    SignIs(x);
    hide Bit;
    var d := (v - Bit(x, NEGATIVE)) * 0x80;
    assert d == 0 || d == 0x80 || d == -0x80;
    Bytes(x as int + d, if d == 0x80 then x - 0x80 else if d == 0 then x else x + 0x80);
  }

  lemma Bytes(x: int, y: int)
    requires -0x80 <= y < 0x80 && (x == y || x == y + 0x100 || x == y - 0x100)
    ensures ToI8(x) == y
  {
  }

  lemma SameUpper(x: I8, y: I8)
    requires x == y || x == y + 0x80 || x == y - 0x80
    ensures Bit(x, OVERFLOW) == Bit(y, OVERFLOW)
  {
    var q := x / 0x40;
    UpperOf(y, if x == y then q else if x == y + 0x80 then q - 2 else q + 2, x % 0x40);
  }

  lemma BitSix(x: I8, v: int)
    requires v == 0 || v == 1
    ensures Bit(WithBit(x, OVERFLOW, v), OVERFLOW) == v
  {
    var q := x / 0x40;
    assert -2 <= q <= 1;
    assert Bit(x, OVERFLOW) == if q == -1 || q == 1 then 1 else 0;
    var b := Bit(x, OVERFLOW);
    hide Bit;
    Bytes(x as int + (v - b) * 0x40, x + (v - b) * 0x40);
    var y := WithBit(x, OVERFLOW, v);
    assert y == x + (v - b) * 0x40;
    SixOf(y, q + v - b, x % 0x40, v);
  }

  lemma SixOf(y: I8, q: int, r: int, v: int)
    requires y == 0x40 * q + r && 0 <= r < 0x40 && q % 2 == v
    ensures Bit(y, OVERFLOW) == v
  {
    UpperOf(y, q, r);
  }

  lemma BitOne(x: I8, v: int)
    requires v == 0 || v == 1
    ensures Bit(WithBit(x, ZERO, v), ZERO) == v
    ensures Bit(WithBit(x, ZERO, v), NEGATIVE) == Bit(x, NEGATIVE)
    ensures Bit(WithBit(x, ZERO, v), OVERFLOW) == Bit(x, OVERFLOW)
  {
    var k, m := x / 4, x % 4;
    var n := m % 2 + 2 * v;
    ZeroPut(x, k, m, v);
    hide WithBit;
    BitsOf(k, m);
    BitsOf(k, n);
    assert n / 2 == v;
  }

  lemma ZeroPut(x: I8, k: int, m: int, v: int)
    requires x == 4 * k + m && 0 <= m < 4 && (v == 0 || v == 1)
    ensures WithBit(x, ZERO, v) == 4 * k + (m % 2 + 2 * v)
  {
    BitsOf(k, m);
    hide Bit;
    assert m == m % 2 + 2 * (m / 2);
    Bytes(x as int + (v - Bit(x, ZERO)) * 2, 4 * k + m % 2 + 2 * v);
  }

  lemma BitsOf(k: int, m: int)
    requires 0 <= m < 4
    ensures Bit(4 * k + m, ZERO) == m / 2
    ensures Bit(4 * k + m, NEGATIVE) == k / 0x20 % 2 && Bit(4 * k + m, OVERFLOW) == k / 0x10 % 2
  {
    InBlock(k, m);
  }

  /** The upper bits do not depend on the lower two. */
  lemma InBlock(k: int, m: int)
    requires 0 <= m < 4
    ensures (4 * k + m) / 2 % 2 == m / 2
    ensures (4 * k + m) / 0x80 == k / 0x20 && (4 * k + m) / 0x40 == k / 0x10
  {
    HalfOf(4 * k + m, 2 * k + m / 2, m % 2);
    SignOf(4 * k + m, k / 0x20, 4 * (k % 0x20) + m);
    UpperOf(4 * k + m, k / 0x10, 4 * (k % 0x10) + m);
  }

  lemma HalfOf(x: int, q: int, r: int)
    requires x == 2 * q + r && 0 <= r < 2
    ensures x / 2 == q
  {
  }

  lemma SignOf(x: int, q: int, r: int)
    requires x == 0x80 * q + r && 0 <= r < 0x80
    ensures x / 0x80 == q
  {
  }

  lemma UpperOf(x: int, q: int, r: int)
    requires x == 0x40 * q + r && 0 <= r < 0x40
    ensures x / 0x40 == q
  {
  }

  /**
   BIT tests the byte after the instruction, `u`, in place of the one at its operand, `v`. That is
   right exactly when both have the same bits 7 and 6 and both have or have not a bit in common with
   the accumulator.
   */
  lemma BitTestIsRight(r: Regs, u: I8, v: I8)
    ensures Combine(BitTest, r, u) == Combine(BitTest, r, v) <==>
      (u < 0 <==> v < 0) && Bit(u, 0x40) == Bit(v, 0x40) &&
      (Bitwise(AndGate, u, r.a) == 0 <==> Bitwise(AndGate, v, r.a) == 0)
  {
    BitTestFlags(r, u);
    BitTestFlags(r, v);
    hide Bit, Bitwise, Regs.With, Regs.Flag;
  }

  lemma BitTestFlags(r: Regs, v: I8)
    ensures var r' := Combine(BitTest, r, v);
      && r'.Flag(OVERFLOW) == Bit(v, 0x40) && r'.Flag(NEGATIVE) == Truth(v < 0)
      && r'.Flag(ZERO) == Truth(Bitwise(AndGate, v, r.a) == 0)
  {
    var z := Truth(Bitwise(AndGate, v, r.a) == 0);
    OneBit(v);
    hide Bit, WithBit, Bitwise;
    var s := r.With(OVERFLOW, Bit(v, 0x40));
    FlagsSet(r.sr, Bit(v, 0x40));
    FlagsSet(s.sr, Truth(v < 0));
    FlagsKept(s.sr, Truth(v < 0));
    var t := s.With(NEGATIVE, Truth(v < 0));
    FlagsSet(t.sr, z);
    FlagsKept(t.sr, z);
  }

  lemma OneBit(v: int)
    ensures Bit(v, 0x40) == 0 || Bit(v, 0x40) == 1
  {
  }

  /**
   JSR jumps to the word after the instruction, its low byte extended with its sign. It lands at its
   operand exactly when that word is the operand, with a high byte that is one more when the low byte
   has a sign.
   */
  lemma SubroutineIsRight(low: I8, high: I8, target: U16)
    ensures ToU16(high as int * 0x100 + low) == target <==>
      ToU8(low) == target % 0x100 && ToU8(high) == if low >= 0 then target / 0x100 else (target / 0x100 + 1) % 0x100
  {
    Unsigned(low);
    Unsigned(high);
    hide ToU8;
    var h: int := if low >= 0 then ToU8(high) else if ToU8(high) == 0 then 0xFF else ToU8(high) - 1;
    Wrapped(high as int * 0x100 + low, h * 0x100 + ToU8(low));
    SameBytes(h, ToU8(low), target / 0x100, target % 0x100);
  }

  lemma Wrapped(x: int, y: int)
    requires 0 <= y < 0x1_0000 && (x == y || x == y - 0x1_0000)
    ensures ToU16(x) == y
  {
  }

  lemma SameBytes(a: int, b: int, c: int, d: int)
    requires 0 <= b < 0x100 && 0 <= d < 0x100
    ensures a * 0x100 + b == c * 0x100 + d <==> a == c && b == d
  {
  }
}
