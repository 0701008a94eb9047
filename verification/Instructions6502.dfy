/**
 What the instructions do to registers and flags, bit by bit and flag by flag, and which opcode is
 which instruction.
 */
module Instructions {
  import opened Opcodes
  import opened Arithmetic

  /* Bits. */

  function Pow2(n: nat): (p: nat)
    ensures p > 0
  {
    if n == 0 then 1 else 2 * Pow2(n - 1)
  }

  /** Bit k of a number in two's complement. */
  function BitAt(x: int, k: nat): int
    decreases k
  {
    if k == 0 then x % 2 else BitAt(x / 2, k - 1)
  }

  lemma {:induction false} BitAtRange(x: int, k: nat)
    ensures BitAt(x, k) == 0 || BitAt(x, k) == 1
    decreases k
  {
    if k > 0 {
      BitAtRange(x / 2, k - 1);
    }
  }

  lemma DivTwice(x: int, p: int)
    requires p > 0
    ensures x / (2 * p) == x / 2 / p
  {
    var q := x / 2 / p;
    var r := 2 * (x / 2 % p) + x % 2;
    assert x / 2 == p * q + x / 2 % p;
    assert x == 2 * p * q + r by {
      assert 2 * (p * q) == 2 * p * q;
    }
    Quotient(x, 2 * p, q, r);
  }

  lemma Quotient(x: int, d: int, q: int, r: int)
    requires d > 0 && x == d * q + r && 0 <= r < d
    ensures x / d == q
  {
    var e := q - x / d;
    assert d * e == d * q - d * (x / d) == x % d - r;
    NoMultiple(d, e);
  }

  lemma NoMultiple(d: int, e: int)
    requires d > 0 && -d < d * e < d
    ensures e == 0
  {
    TimesSign(d, e - 1);
    TimesSign(d, -e - 1);
    assert d * (e - 1) == d * e - d && d * (-e - 1) == -(d * e) - d;
  }

  lemma TimesSign(d: int, f: int)
    requires d > 0
    ensures f >= 0 ==> d * f >= 0
  {
  }

  lemma {:induction false} BitIsBitAt(x: int, k: nat)
    ensures Bit(x, Pow2(k)) == BitAt(x, k)
    decreases k
  {
    if k > 0 {
      BitIsBitAt(x / 2, k - 1);
      DivTwice(x, Pow2(k - 1));
    }
  }

  /** Changing a number by a multiple of a power of two leaves the bits below alone. */
  lemma {:induction false} LowBitsStay(x: int, y: int, m: int, n: nat, k: nat)
    requires x == y + m * Pow2(n) && k < n
    ensures BitAt(x, k) == BitAt(y, k)
    decreases k
  {
    var p := Pow2(n - 1);
    assert m * Pow2(n) == 2 * (m * p);
    assert x / 2 == y / 2 + m * p && x % 2 == y % 2;
    if k > 0 {
      LowBitsStay(x / 2, y / 2, m, n - 1, k - 1);
    }
  }

  lemma ByteBits(x: int, k: nat)
    requires k < 8
    ensures BitAt(ToI8(x), k) == BitAt(x, k)
  {
    var m := (ToI8(x) as int - x) / 0x100;
    assert ToI8(x) as int == x + m * 0x100;
    assert Pow2(8) == 0x100;
    LowBitsStay(ToI8(x), x, m, 8, k);
  }

  /** Putting one bit leaves all others alone. */
  lemma {:induction false} BitPut(x: int, k: nat, v: int, j: nat)
    requires v == 0 || v == 1
    ensures BitAt(x + (v - BitAt(x, k)) * Pow2(k), j) == if j == k then v else BitAt(x, j)
    decreases k
  {
    var d := v - BitAt(x, k);
    var y := x + d * Pow2(k);
    if k == 0 {
      assert y / 2 == x / 2 && y % 2 == v;
    } else {
      assert d * Pow2(k) == 2 * (d * Pow2(k - 1));
      Halves(x, d * Pow2(k - 1));
      if j > 0 {
        BitPut(x / 2, k - 1, v, j - 1);
      }
    }
  }

  lemma Halves(x: int, m: int)
    ensures (x + 2 * m) / 2 == x / 2 + m && (x + 2 * m) % 2 == x % 2
  {
  }

  /** A flag that is put has its value, and all other flags are as before. */
  lemma FlagPut(x: I8, k: nat, v: int, j: nat)
    requires k < 8 && j < 8 && (v == 0 || v == 1)
    ensures BitAt(WithBit(x, Pow2(k), v), j) == if j == k then v else BitAt(x, j)
  {
    hide WithBit, ToI8, Pow2, BitAt;
    PutIs(x, k, v);
    BitPut(x, k, v, j);
    ByteBits(x as int + (v - BitAt(x, k)) * Pow2(k), j);
  }

  lemma PutIs(x: I8, k: nat, v: int)
    requires v == 0 || v == 1
    ensures WithBit(x, Pow2(k), v) == ToI8(x as int + (v - BitAt(x, k)) * Pow2(k))
  {
    hide ToI8, Bit, Pow2, BitAt;
    BitIsBitAt(x, k);
  }

  function GateOf(g: Gate, a: int, b: int): int {
    match g
    case AndGate => if a == 1 && b == 1 then 1 else 0
    case OrGate => if a == 1 || b == 1 then 1 else 0
    case XorGate => if a != b then 1 else 0
  }

  lemma {:induction false} GatedBit(g: Gate, a: int, b: int, bits: nat, k: nat)
    requires k < bits
    ensures BitAt(Gated(g, a, b, bits), k) == GateOf(g, BitAt(a, k), BitAt(b, k))
    decreases bits
  {
    var rest := Gated(g, a / 2, b / 2, bits - 1);
    assert Gated(g, a, b, bits) % 2 == GateOf(g, a % 2, b % 2) && Gated(g, a, b, bits) / 2 == rest;
    if k > 0 {
      GatedBit(g, a / 2, b / 2, bits - 1, k - 1);
    }
  }

  lemma BitwiseBit(g: Gate, a: I8, b: I8, k: nat)
    requires k < 8
    ensures BitAt(Bitwise(g, a, b), k) == GateOf(g, BitAt(a, k), BitAt(b, k))
  {
    GatedBit(g, a, b, 8, k);
    ByteBits(Gated(g, a, b, 8), k);
  }

  /* Flags. The status register has carry, zero, interrupt, decimal, break, unused, overflow and sign. */

  const C: nat := 0
  const Z: nat := 1
  const I: nat := 2
  const D: nat := 3
  const V: nat := 6
  const N: nat := 7

  /** The flags named have these values, and all other bits of the status register are as they were. */
  ghost predicate Flags(r: Regs, r': Regs, flags: map<nat, int>) {
    forall k: nat :: k < 8 ==> BitAt(r'.sr, k) == if k in flags then flags[k] else BitAt(r.sr, k)
  }

  predicate SameRegisters(r: Regs, r': Regs) {
    r'.a == r.a && r'.x == r.x && r'.y == r.y
  }

  lemma Weights()
    ensures Pow2(C) == CARRY && Pow2(Z) == ZERO && Pow2(I) == IRQ_DISABLE && Pow2(D) == DECIMAL_MODE
    ensures Pow2(V) == OVERFLOW && Pow2(N) == NEGATIVE
  {
    assert Pow2(4) == 0x10;
  }

  lemma PutSets(r: Regs, k: nat, v: int)
    requires k < 8 && (v == 0 || v == 1)
    ensures Flags(r, r.With(Pow2(k), v), map[k := v]) && SameRegisters(r, r.With(Pow2(k), v))
  {
    forall j: nat | j < 8 ensures BitAt(r.With(Pow2(k), v).sr, j) == if j == k then v else BitAt(r.sr, j) {
      FlagPut(r.sr, k, v, j);
    }
  }

  lemma FlagsThen(r: Regs, s: Regs, t: Regs, m: map<nat, int>, n: map<nat, int>)
    requires Flags(r, s, m) && Flags(s, t, n)
    ensures Flags(r, t, m + n)
  {
  }

  /** The sign and zero flags are set by a value, and no other. */
  lemma SignedSets(r: Regs, value: int)
    ensures Flags(r, r.Signed(value), map[N := Truth(value < 0), Z := Truth(value == 0)])
    ensures SameRegisters(r, r.Signed(value))
  {
    Weights();
    hide Flags, Pow2, WithBit;
    var s := r.With(NEGATIVE, Truth(value < 0));
    PutSets(r, N, Truth(value < 0));
    PutSets(s, Z, Truth(value == 0));
    FlagsThen(r, s, r.Signed(value), map[N := Truth(value < 0)], map[Z := Truth(value == 0)]);
    assert map[N := Truth(value < 0)] + map[Z := Truth(value == 0)] ==
      map[N := Truth(value < 0), Z := Truth(value == 0)];
  }

  /** What is read of a flag by its weight is its bit. */
  lemma FlagIsBitAt(r: Regs)
    ensures r.Flag(CARRY) == BitAt(r.sr, C) && r.Flag(ZERO) == BitAt(r.sr, Z)
    ensures r.Flag(DECIMAL_MODE) == BitAt(r.sr, D) && r.Flag(OVERFLOW) == BitAt(r.sr, V)
    ensures r.Flag(NEGATIVE) == BitAt(r.sr, N) == Truth(r.sr < 0)
  {
    Weights();
    hide BitAt, Pow2;
    BitIsBitAt(r.sr, C);
    BitIsBitAt(r.sr, Z);
    BitIsBitAt(r.sr, D);
    BitIsBitAt(r.sr, V);
    BitIsBitAt(r.sr, N);
    SignIs(r.sr);
  }

  /** The flags of a result. */
  function SignOf(value: int): map<nat, int> {
    map[N := if value < 0 then 1 else 0, Z := if value == 0 then 1 else 0]
  }

  /* Instructions that read a byte. */

  /** AND, ORA and EOR work bit by bit on the accumulator, whose sign and zero flags are set. */
  lemma LogicIsRight(r: Regs, v: I8, k: nat)
    requires k < 8
    ensures BitAt(Combine(And, r, v).a, k) == 1 <==> BitAt(r.a, k) == 1 && BitAt(v, k) == 1
    ensures BitAt(Combine(Ora, r, v).a, k) == 1 <==> BitAt(r.a, k) == 1 || BitAt(v, k) == 1
    ensures BitAt(Combine(Eor, r, v).a, k) == 1 <==> BitAt(r.a, k) != BitAt(v, k)
    ensures forall op :: op in {And, Ora, Eor} ==> var r' := Combine(op, r, v);
      r'.x == r.x && r'.y == r.y && Flags(r, r', SignOf(r'.a))
  {
    hide Flags, Regs.Signed, Bitwise, BitAt;
    BitwiseBit(AndGate, r.a, v, k);
    BitwiseBit(OrGate, r.a, v, k);
    BitwiseBit(XorGate, r.a, v, k);
    BitAtRange(r.a, k);
    BitAtRange(v, k);
    SetsAccumulator(r, Bitwise(AndGate, r.a, v));
    SetsAccumulator(r, Bitwise(OrGate, r.a, v));
    SetsAccumulator(r, Bitwise(XorGate, r.a, v));
  }

  lemma SetsAccumulator(r: Regs, a: I8)
    ensures Flags(r, r.(a := a).Signed(a), SignOf(a)) && r.(a := a).Signed(a).a == a
    ensures r.(a := a).Signed(a).x == r.x && r.(a := a).Signed(a).y == r.y
  {
    SignedSets(r.(a := a), a);
  }

  /** A load puts the byte into its register and sets the sign and zero flags by it. */
  lemma LoadsAreRight(r: Regs, v: I8)
    ensures var l := Combine(Lda, r, v); l.a == v && l.x == r.x && l.y == r.y && Flags(r, l, SignOf(v))
    ensures var l := Combine(Ldx, r, v); l.a == r.a && l.x == v && l.y == r.y && Flags(r, l, SignOf(v))
    ensures var l := Combine(Ldy, r, v); l.a == r.a && l.x == r.x && l.y == v && Flags(r, l, SignOf(v))
  {
    SignedSets(r.(a := v), v);
    SignedSets(r.(x := v), v);
    SignedSets(r.(y := v), v);
  }

  /** What a comparison of a register does: no register changes, and three flags are set by the difference. */
  ghost predicate Compared(r: Regs, r': Regs, register: I8, v: I8) {
    SameRegisters(r, r') &&
      Flags(r, r', map[C := if register - v < 0 then 0 else 1] + SignOf(register - v))
  }

  lemma ComparesAreRight(r: Regs, v: I8)
    ensures Compared(r, Combine(Cmp, r, v), r.a, v)
    ensures Compared(r, Combine(Cpx, r, v), r.x, v)
    ensures Compared(r, Combine(Cpy, r, v), r.y, v)
  {
    hide Regs.With, Regs.Signed, Compared, Bit;
    CompareSets(r, r.a, v);
    CompareSets(r, r.x, v);
    CompareSets(r, r.y, v);
  }

  lemma CompareSets(r: Regs, register: I8, v: I8)
    ensures Compared(r, Compare(r, register, v), register, v)
  {
    var value := register as int - v;
    NinthBit(value);
    Weights();
    hide Flags, Pow2, WithBit, Bit, Regs.Signed;
    var carry := 1 - Bit(value, NINTH);
    PutSets(r, C, carry);
    SignedSets(r.With(CARRY, carry), value);
    FlagsThen(r, r.With(CARRY, carry), Compare(r, register, v), map[C := carry], SignOf(value));
  }

  /**
   Binary addition: besides the accumulator and the carry, the overflow flag is set exactly when the
   sum of the signed bytes is out of range, and the sign and zero flags are those of that sum.
   */
  lemma AddFlags(r: Regs, v: I8)
    ensures var value := r.a as int + v + BitAt(r.sr, C);
      var r' := AddBinary(r, v);
      && r'.x == r.x && r'.y == r.y && r'.a == ToI8(value)
      && Flags(r, r', map[V := Truth(!(-0x80 <= value < 0x80)), C := Truth(value < 0)] + SignOf(value))
  {
    var value := r.a as int + v + r.Flag(CARRY);
    FlagIsBitAt(r);
    FlagIsBit(r);
    NinthBit(value);
    SignIs(r.a);
    SignIs(v);
    SignIs(ToI8(value));
    ByteOf(value);
    hide Bit, ToI8, Flags, Regs.With, Regs.Signed, BitAt;
    ArithmeticSets(r, ToI8(value), Truth(!(-0x80 <= value < 0x80)), Truth(value < 0), value);
  }

  /** A sum or difference of two bytes and a carry as a byte. */
  lemma ByteOf(value: int)
    requires -0x180 <= value < 0x180
    ensures ToI8(value) == if value < -0x80 then value + 0x100 else if value < 0x80 then value else value - 0x100
  {
  }

  lemma ArithmeticSets(r: Regs, a: I8, overflow: int, carry: int, value: int)
    requires overflow in {0, 1} && carry in {0, 1}
    ensures var r' := r.(a := a).With(OVERFLOW, overflow).With(CARRY, carry).Signed(value);
      r'.x == r.x && r'.y == r.y && r'.a == a && Flags(r, r', map[V := overflow, C := carry] + SignOf(value))
  {
    Weights();
    hide Flags, Pow2, WithBit, Regs.Signed;
    var s := r.(a := a);
    var t := s.With(OVERFLOW, overflow);
    var u := t.With(CARRY, carry);
    PutSets(s, V, overflow);
    PutSets(t, C, carry);
    SignedSets(u, value);
    FlagsThen(s, t, u, map[V := overflow], map[C := carry]);
    FlagsThen(s, u, u.Signed(value), map[V := overflow] + map[C := carry], SignOf(value));
    assert map[V := overflow] + map[C := carry] == map[V := overflow, C := carry];
    SameStatus(r, s, u.Signed(value), map[V := overflow, C := carry] + SignOf(value));
  }

  lemma SameStatus(r: Regs, s: Regs, t: Regs, m: map<nat, int>)
    requires r.sr == s.sr && Flags(s, t, m)
    ensures Flags(r, t, m)
  {
  }

  /** Binary subtraction likewise. */
  lemma SubtractFlags(r: Regs, v: I8)
    ensures var value := r.a as int - v - (1 - BitAt(r.sr, C));
      var r' := SubtractBinary(r, v);
      && r'.x == r.x && r'.y == r.y && r'.a == ToI8(value)
      && Flags(r, r', map[V := Truth(!(-0x80 <= value < 0x80)), C := Truth(value >= 0)] + SignOf(value))
  {
    var value := r.a as int - v - (1 - r.Flag(CARRY));
    FlagIsBitAt(r);
    FlagIsBit(r);
    NinthBit(value);
    DifferenceOverflows(r.a, v, value);
    hide Bit, ToI8, Flags, Regs.With, Regs.Signed, BitAt, Regs.Flag;
    ArithmeticSets(r, ToI8(value), Truth(!(-0x80 <= value < 0x80)), Truth(value >= 0), value);
  }

  lemma DifferenceOverflows(a: I8, v: I8, value: int)
    requires a as int - v - 1 <= value <= a as int - v
    ensures Truth(Bit(a, 0x80) != Bit(v, 0x80) && Bit(a, 0x80) != Bit(ToI8(value), 0x80)) ==
      Truth(!(-0x80 <= value < 0x80))
  {
    SignIs(a);
    SignIs(v);
    SignIs(ToI8(value));
    ByteOf(value);
    hide Bit, ToI8;
  }

  /** What the sign and zero flags are worth when a sum or difference, and not its byte, has set them. */
  ghost predicate SignsHelp(r: Regs, value: int) {
    && (BitAt(r.sr, N) == Truth(ToI8(value) < 0) <==> -0x80 <= value < 0x80)
    && (BitAt(r.sr, Z) == Truth(ToI8(value) == 0) <==> value != -0x100)
  }

  /**
   After binary additions, subtractions and comparisons the sign flag is that of the byte exactly when
   there is no overflow, and the zero flag unless the result is -0x100.
   */
  lemma SignFlagsAreRight(r: Regs, v: I8, register: I8)
    ensures SignsHelp(AddBinary(r, v), r.a as int + v + BitAt(r.sr, C))
    ensures SignsHelp(SubtractBinary(r, v), r.a as int - v - (1 - BitAt(r.sr, C)))
    ensures SignsHelp(Compare(r, register, v), register as int - v)
  {
    hide AddBinary, SubtractBinary, Compare, BitAt, SignsHelp, SignOf, Flags;
    AddFlags(r, v);
    SubtractFlags(r, v);
    CompareSets(r, register, v);
    BitAtRange(r.sr, C);
    var sum, difference := r.a as int + v + BitAt(r.sr, C), r.a as int - v - (1 - BitAt(r.sr, C));
    SignsOf(r, AddBinary(r, v), map[V := Truth(!(-0x80 <= sum < 0x80)), C := Truth(sum < 0)], sum);
    SignsOf(r, SubtractBinary(r, v), map[V := Truth(!(-0x80 <= difference < 0x80)), C := Truth(difference >= 0)],
      difference);
    SignsOf(r, Compare(r, register, v), map[C := if register - v < 0 then 0 else 1], register as int - v);
  }

  lemma SignsOf(r: Regs, r': Regs, flags: map<nat, int>, value: int)
    requires Flags(r, r', flags + SignOf(value)) && -0x100 <= value < 0x100
    ensures SignsHelp(r', value)
  {
    ByteOf(value);
    hide BitAt, ToI8;
    assert BitAt(r'.sr, N) == Truth(value < 0);
    assert BitAt(r'.sr, Z) == Truth(value == 0);
  }

  /** ADC and SBC are binary or decimal as the decimal flag says. */
  lemma ModeDecides(r: Regs, v: I8)
    ensures Combine(Adc, r, v) == if BitAt(r.sr, D) == 0 then AddBinary(r, v) else AddDecimal(r, v)
    ensures Combine(Sbc, r, v) == if BitAt(r.sr, D) == 0 then SubtractBinary(r, v) else SubtractDecimal(r, v)
  {
    FlagIsBitAt(r);
  }

  /* Decimal mode. */

  predicate IsDecimal(b: I8) {
    ToU8(b) / 16 <= 9 && ToU8(b) % 16 <= 9
  }

  /** The number that two decimal digits stand for. */
  function DecimalOf(b: I8): int {
    ToU8(b) / 16 * 10 + ToU8(b) % 16
  }

  /**
   Decimal addition forgets the carry of the low digits when they add up to 10 to 15. So the
   accumulator is right exactly when they do not, and then the carry is right unless the sum is 100.
   */
  lemma DecimalAddIsRight(r: Regs, v: I8)
    requires IsDecimal(r.a) && IsDecimal(v)
    ensures var sum, low := DecimalOf(r.a) + DecimalOf(v) + BitAt(r.sr, C),
                            ToU8(r.a) as int % 16 + ToU8(v) as int % 16 + BitAt(r.sr, C);
      var r' := AddDecimal(r, v);
      && (IsDecimal(r'.a) && DecimalOf(r'.a) == sum % 100 <==> !(10 <= low < 16))
      && (!(10 <= low < 16) ==> (r'.Flag(CARRY) == Truth(sum >= 100) <==> sum != 100))
  {
    FlagIsBitAt(r);
    FlagIsBit(r);
    var c := r.Flag(CARRY);
    hide Regs.Flag, BitAt;
    Digits(r.a);
    Digits(v);
    var h1, l1, h2, l2 := ToU8(r.a) as int / 16, ToU8(r.a) as int % 16, ToU8(v) as int / 16, ToU8(v) as int % 16;
    AddDecimalIs(r, v, h1, l1, h2, l2, c);
    hide AddDecimal, IsDecimal, DecimalOf, ToU8, ToI8;
    AddDigits(h1, l1, h2, l2, c);
  }

  lemma Digits(b: I8)
    ensures ToU8(b) as int % 16 == b as int % 16 && HighNibble(b) == ToU8(b) as int / 16 * 16
    ensures 0 <= ToU8(b) as int / 16 < 16
  {
  }

  /** What the decimal adder makes of four digits and a carry. */
  function DigitSum(h1: int, l1: int, h2: int, l2: int, c: int): int {
    var low := l1 + l2 + c;
    var high := h1 * 16 + h2 * 16 + if low < 16 then 0 else 16;
    (if low < 10 then low else (low + 6) % 16) + (if high < 0xA0 then high else high + 0x60)
  }

  lemma AddDecimalIs(r: Regs, v: I8, h1: int, l1: int, h2: int, l2: int, c: int)
    requires c == r.Flag(CARRY) && c in {0, 1} && l1 == r.a as int % 16 && l2 == v as int % 16
    requires HighNibble(r.a) == h1 * 16 && HighNibble(v) == h2 * 16 && l1 <= 9 && l2 <= 9
    ensures AddDecimal(r, v).a == ToI8(DigitSum(h1, l1, h2, l2, c))
    ensures AddDecimal(r, v).Flag(CARRY) == Truth(DigitSum(h1, l1, h2, l2, c) > 0x100)
  {
    hide HighNibble, ToI8, Bit, WithBit, Regs.Flag;
    var low := l1 + l2 + c;
    LowSum(low);
    var s := r.With(ZERO, Truth((r.a as int + v + c) % 0x100 == 0));
    var a := ToI8(if low < 0x0A then low else low + 6);
    var high := HighNibble(r.a) + HighNibble(v) + HighNibble(low);
    var sum := a as int % 16 + (if high < 0xA0 then high else high + 0x60);
    assert sum == DigitSum(h1, l1, h2, l2, c);
    var overflow := Truth(Bit(r.a, 0x80) != Bit(high, 0x80) && Bit(r.a, 0x80) == Bit(v, 0x80));
    var t := s.(a := ToI8(sum)).With(NEGATIVE, Truth(high < 0)).With(OVERFLOW, overflow);
    CarryIsSet(t, Truth(sum > 0x100));
    assert AddDecimal(r, v) == t.With(CARRY, Truth(sum > 0x100));
  }

  lemma LowSum(low: int)
    requires 0 <= low < 20
    ensures HighNibble(low) == if low < 16 then 0 else 16
    ensures ToI8(if low < 0x0A then low else low + 6) == if low < 10 then low else low + 6
  {
  }

  lemma AddDigits(h1: int, l1: int, h2: int, l2: int, c: int)
    requires 0 <= h1 <= 9 && 0 <= l1 <= 9 && 0 <= h2 <= 9 && 0 <= l2 <= 9 && c in {0, 1}
    ensures var sum, low, d := h1 * 10 + l1 + h2 * 10 + l2 + c, l1 + l2 + c, DigitSum(h1, l1, h2, l2, c);
      && (IsDecimal(ToI8(d)) && DecimalOf(ToI8(d)) == sum % 100 <==> !(10 <= low < 16))
      && (!(10 <= low < 16) ==> (Truth(d > 0x100) == Truth(sum >= 100) <==> sum != 100))
  {
    var sum, low, d := h1 * 10 + l1 + h2 * 10 + l2 + c, l1 + l2 + c, DigitSum(h1, l1, h2, l2, c);
    var digit := if low < 10 then low else low - 10;
    assert low >= 10 ==> (low + 6) % 16 == digit;
    var tens := h1 + h2 + if low < 16 then 0 else 1;
    assert d == digit + if tens < 10 then tens * 16 else tens * 16 + 0x60;
    var top := if tens < 10 then tens else tens - 10;
    TwoDigits(d, top, digit);
    Hundreds(sum, if tens < 10 then top else top + 10, digit, low);
  }

  /** The digits of a byte. */
  lemma TwoDigits(d: int, top: int, digit: int)
    requires 0 <= top <= 9 && 0 <= digit <= 9 && (d == top * 16 + digit || d == top * 16 + digit + 0x100)
    ensures IsDecimal(ToI8(d)) && DecimalOf(ToI8(d)) == top * 10 + digit
  {
    SameByte(d);
    assert ToU8(d) == top * 16 + digit;
    assert (top * 16 + digit) / 16 == top;
  }

  lemma Hundreds(sum: int, tens: int, digit: int, low: int)
    requires 0 <= tens <= 19 && 0 <= digit <= 9 && digit == (if low < 10 then low else low - 10)
    requires sum == (if 10 <= low < 16 then tens + 1 else tens) * 10 + digit
    ensures (if tens < 10 then tens else tens - 10) * 10 + digit == sum % 100 <==> !(10 <= low < 16)
  {
    var t := if 10 <= low < 16 then tens + 1 else tens;
    assert sum % 100 == (if t < 10 then t else if t < 20 then t - 10 else t - 20) * 10 + digit;
  }

  /**
   Decimal subtraction has the right digits always, and the right carry exactly when both bytes
   have the same sign.
   */
  lemma DecimalSubtractIsRight(r: Regs, v: I8)
    requires IsDecimal(r.a) && IsDecimal(v)
    ensures var difference := DecimalOf(r.a) - DecimalOf(v) - (1 - BitAt(r.sr, C));
      var r' := SubtractDecimal(r, v);
      && IsDecimal(r'.a) && DecimalOf(r'.a) == difference % 100
      && (r'.Flag(CARRY) == Truth(difference >= 0) <==> (r.a < 0 <==> v < 0))
  {
    FlagIsBitAt(r);
    FlagIsBit(r);
    var b := 1 - r.Flag(CARRY);
    hide Regs.Flag, BitAt;
    Digits(r.a);
    Digits(v);
    var h1, l1, h2, l2 := ToU8(r.a) as int / 16, ToU8(r.a) as int % 16, ToU8(v) as int / 16, ToU8(v) as int % 16;
    SubtractDecimalIs(r, v, h1, l1, h2, l2, b);
    BorrowIsRight(r.a, v, b);
    hide SubtractDecimal, IsDecimal, DecimalOf, ToU8, ToI8;
    SubtractDigits(h1, l1, h2, l2, b);
  }

  function DigitDifference(h1: int, l1: int, h2: int, l2: int, b: int): int {
    var low := l1 - l2 - b;
    var high := h1 * 16 - h2 * 16 - if low >= 0 then 0 else 16;
    (if low >= 0 then low else low + 10) + (if high >= 0 then high else high - 0x60)
  }

  lemma SubtractDecimalIs(r: Regs, v: I8, h1: int, l1: int, h2: int, l2: int, b: int)
    requires b == 1 - r.Flag(CARRY) && b in {0, 1} && l1 == r.a as int % 16 && l2 == v as int % 16
    requires HighNibble(r.a) == h1 * 16 && HighNibble(v) == h2 * 16
    requires 0 <= l1 <= 9 && 0 <= l2 <= 9 && 0 <= h1 <= 9 && 0 <= h2 <= 9
    ensures SubtractDecimal(r, v).a == ToI8(DigitDifference(h1, l1, h2, l2, b))
    ensures SubtractDecimal(r, v).Flag(CARRY) == Truth(r.a as int - v - b >= 0)
  {
    hide HighNibble, ToI8, Bit, WithBit, Regs.Flag;
    var low := l1 - l2 - b;
    LowDifference(low);
    var a := ToI8(if Bit(low, 0x10) == 0 then low else low - 6);
    var high := HighNibble(r.a) - HighNibble(v) - Bit(a, 0x10) * 16;
    NinthBit(high);
    var value := r.a as int - v - b;
    NinthBit(value);
    var d := a as int % 16 + (if Bit(high, 0x100) == 0 then high else high - 0x60);
    assert d == DigitDifference(h1, l1, h2, l2, b);
    var s := r.(a := ToI8(d));
    CarryIsSet(s, 1 - Bit(value, NINTH));
    SignedKeepsCarry(s.With(CARRY, 1 - Bit(value, NINTH)), value);
    KeepsAccumulator(s, 1 - Bit(value, NINTH), value);
    assert SubtractDecimal(r, v) == s.With(CARRY, 1 - Bit(value, NINTH)).Signed(value);
  }

  lemma KeepsAccumulator(r: Regs, carry: int, value: int)
    ensures r.With(CARRY, carry).Signed(value).a == r.a
  {
  }

  lemma LowDifference(low: int)
    requires -10 <= low < 10
    ensures var a := ToI8(if Bit(low, 0x10) == 0 then low else low - 6);
      a as int % 16 == (if low >= 0 then low else low + 10) && Bit(a, 0x10) == Truth(low < 0)
  {
    BorrowBit(low);
    BorrowBit(if low >= 0 then low else low - 6);
  }

  lemma BorrowBit(x: int)
    requires -16 <= x < 16
    ensures Bit(x, 0x10) == Truth(x < 0)
  {
  }

  lemma SubtractDigits(h1: int, l1: int, h2: int, l2: int, b: int)
    requires 0 <= h1 <= 9 && 0 <= l1 <= 9 && 0 <= h2 <= 9 && 0 <= l2 <= 9 && b in {0, 1}
    ensures var difference, d := h1 * 10 + l1 - (h2 * 10 + l2) - b, DigitDifference(h1, l1, h2, l2, b);
      IsDecimal(ToI8(d)) && DecimalOf(ToI8(d)) == difference % 100
  {
    var low := l1 - l2 - b;
    var digit := if low >= 0 then low else low + 10;
    var tens := h1 - h2 - if low >= 0 then 0 else 1;
    var top := if tens >= 0 then tens else tens + 10;
    var d := DigitDifference(h1, l1, h2, l2, b);
    assert d == digit + if tens >= 0 then tens * 16 else tens * 16 - 0x60;
    TwoDigitsBelow(d, top, digit);
    Wrapped(tens, digit);
    hide DigitDifference, IsDecimal, DecimalOf;
    assert h1 * 10 + l1 - (h2 * 10 + l2) - b == tens * 10 + digit;
  }

  lemma Wrapped(tens: int, digit: int)
    requires -10 <= tens <= 9 && 0 <= digit <= 9
    ensures (tens * 10 + digit) % 100 == (if tens >= 0 then tens else tens + 10) * 10 + digit
  {
  }

  lemma TwoDigitsBelow(d: int, top: int, digit: int)
    requires 0 <= top <= 9 && 0 <= digit <= 9 && (d == top * 16 + digit || d == top * 16 + digit - 0x100)
    ensures IsDecimal(ToI8(d)) && DecimalOf(ToI8(d)) == top * 10 + digit
  {
    SameByte(d);
    assert ToU8(d) == top * 16 + digit;
    assert (top * 16 + digit) / 16 == top;
  }

  /** The signed difference tells the order of the numbers exactly when both bytes have the same sign. */
  lemma BorrowIsRight(a: I8, v: I8, b: int)
    requires IsDecimal(a) && IsDecimal(v) && b in {0, 1}
    ensures Truth(a as int - v - b >= 0) == Truth(DecimalOf(a) - DecimalOf(v) - b >= 0) <==> (a < 0 <==> v < 0)
  {
    Unsigned(a);
    Unsigned(v);
    var h1, l1, h2, l2 := ToU8(a) as int / 16, ToU8(a) as int % 16, ToU8(v) as int / 16, ToU8(v) as int % 16;
    assert ToU8(a) == 16 * h1 + l1 && ToU8(v) == 16 * h2 + l2;
    assert h1 > h2 || h1 < h2 || h1 == h2;
  }

  /* Instructions that change a byte or a register. */

  /** The registers are these, the flags named have these values, and the others are as they were. */
  ghost predicate Became(r: Regs, r': Regs, a: I8, x: I8, y: I8, flags: map<nat, int>) {
    r'.a == a && r'.x == x && r'.y == y && Flags(r, r', flags)
  }

  /**
   The byte is put back shifted, rotated or counted; the bit that falls out is the carry, and the sign
   and zero flags are those of the new byte. No register changes.
   */
  lemma ModifyFlags(op: Op, r: Regs, v: I8)
    requires op in {Asl, Rol, Lsr, Ror, Dec, Inc}
    ensures var (r', w) := Modify(op, r, v);
      Became(r, r', r.a, r.x, r.y,
        if op in {Dec, Inc} then SignOf(w) else map[C := BitAt(v, if op in {Asl, Rol} then 7 else 0)] + SignOf(w))
  {
    var w := Modify(op, r, v).1;
    TopBit(v);
    LowBit(v);
    hide BitAt, Flags, Regs.With, Regs.Signed, ToI8, Regs.Flag;
    if op in {Dec, Inc} {
      SignedSets(r, w);
    } else {
      CarrySets(r, BitAt(v, if op in {Asl, Rol} then 7 else 0), w);
    }
  }

  lemma LowBit(v: int)
    ensures BitAt(v, 0) == v % 2 && v % 2 in {0, 1}
  {
  }

  lemma TopBit(v: I8)
    ensures BitAt(v, 7) == Truth(v < 0)
  {
    Weights();
    hide BitAt, Pow2;
    BitIsBitAt(v, N);
    SignIs(v);
  }

  lemma CarrySets(r: Regs, carry: int, value: int)
    requires carry in {0, 1}
    ensures var r' := r.With(CARRY, carry).Signed(value);
      SameRegisters(r, r') && Flags(r, r', map[C := carry] + SignOf(value))
  {
    Weights();
    hide Flags, Pow2, WithBit, Regs.Signed;
    PutSets(r, C, carry);
    SignedSets(r.With(CARRY, carry), value);
    FlagsThen(r, r.With(CARRY, carry), r.With(CARRY, carry).Signed(value), map[C := carry], SignOf(value));
  }

  /** Counting an index register up or down sets the sign and zero flags. */
  lemma CountsAreRight(r: Regs, sp: U8)
    ensures var t := Transform(Inx, r, sp);
      ToU8(t.x) == (ToU8(r.x) as int + 1) % 0x100 && Became(r, t, r.a, t.x, r.y, SignOf(t.x))
    ensures var t := Transform(Dex, r, sp);
      ToU8(t.x) == (ToU8(r.x) as int + 0xFF) % 0x100 && Became(r, t, r.a, t.x, r.y, SignOf(t.x))
    ensures var t := Transform(Iny, r, sp);
      ToU8(t.y) == (ToU8(r.y) as int + 1) % 0x100 && Became(r, t, r.a, r.x, t.y, SignOf(t.y))
    ensures var t := Transform(Dey, r, sp);
      ToU8(t.y) == (ToU8(r.y) as int + 0xFF) % 0x100 && Became(r, t, r.a, r.x, t.y, SignOf(t.y))
  {
    Counted(r.x);
    Counted(r.y);
    hide Became, Regs.Signed, ToI8, ToU8;
    SetsX(r, ToI8(r.x as int + 1));
    SetsX(r, ToI8(r.x as int - 1));
    SetsY(r, ToI8(r.y as int + 1));
    SetsY(r, ToI8(r.y as int - 1));
  }

  /** Moving one register to another sets the sign and zero flags; TAY is apart (`TransferIsRight`). */
  lemma TransfersAreRight(r: Regs, sp: U8)
    ensures Became(r, Transform(Tax, r, sp), r.a, r.a, r.y, SignOf(r.a))
    ensures Became(r, Transform(Txa, r, sp), r.x, r.x, r.y, SignOf(r.x))
    ensures Became(r, Transform(Tya, r, sp), r.y, r.x, r.y, SignOf(r.y))
    ensures Transform(Nop, r, sp) == r
  {
    hide Became, Regs.Signed;
    SetsX(r, r.a);
    SetsA(r, r.x);
    SetsA(r, r.y);
  }

  lemma StackPointerMoves(r: Regs, sp: U8)
    ensures var t := Transform(Tsx, r, sp); ToU8(t.x) == sp && Became(r, t, r.a, t.x, r.y, SignOf(t.x))
  {
    hide Became, Regs.Signed;
    SetsX(r, ToI8(sp));
  }

  lemma Counted(v: I8)
    ensures ToU8(ToI8(v as int + 1)) == (ToU8(v) as int + 1) % 0x100
    ensures ToU8(ToI8(v as int - 1)) == (ToU8(v) as int + 0xFF) % 0x100
  {
    ByteIsRight(v, 0);
  }

  lemma SetsA(r: Regs, v: I8)
    ensures var t := r.(a := v).Signed(v); t.a == v && Became(r, t, v, r.x, r.y, SignOf(v))
  {
    SignedSets(r.(a := v), v);
  }

  lemma SetsX(r: Regs, v: I8)
    ensures var t := r.(x := v).Signed(v); t.x == v && Became(r, t, r.a, v, r.y, SignOf(v))
  {
    SignedSets(r.(x := v), v);
  }

  lemma SetsY(r: Regs, v: I8)
    ensures var t := r.(y := v).Signed(v); t.y == v && Became(r, t, r.a, r.x, v, SignOf(v))
  {
    SignedSets(r.(y := v), v);
  }

  /** The instructions that set or clear one flag. */
  lemma FlagsAreSet(r: Regs, sp: U8)
    ensures forall op :: op in {Clc, Sec, Cli, Sei, Cld, Sed, Clv} ==> SameRegisters(r, Transform(op, r, sp))
    ensures Flags(r, Transform(Clc, r, sp), map[C := 0]) && Flags(r, Transform(Sec, r, sp), map[C := 1])
    ensures Flags(r, Transform(Cli, r, sp), map[I := 0]) && Flags(r, Transform(Sei, r, sp), map[I := 1])
    ensures Flags(r, Transform(Cld, r, sp), map[D := 0]) && Flags(r, Transform(Sed, r, sp), map[D := 1])
    ensures Flags(r, Transform(Clv, r, sp), map[V := 0])
  {
    Weights();
    hide Flags, Pow2, WithBit;
    PutSets(r, C, 0);
    PutSets(r, C, 1);
    PutSets(r, I, 0);
    PutSets(r, I, 1);
    PutSets(r, D, 0);
    PutSets(r, D, 1);
    PutSets(r, V, 0);
  }

  /**
   The accumulator shifted and rotated: ROL A always as on the 6502, LSR A only without a sign, and
   ROR A only without a sign or with the carry set, for it keeps a sign that is there.
   */
  lemma AccumulatorTurns(r: Regs, sp: U8)
    ensures var u, c := ToU8(r.a) as int, BitAt(r.sr, C);
      && ToU8(Transform(RolA, r, sp).a) == (2 * u + c) % 0x100
      && (ToU8(Transform(LsrA, r, sp).a) == u / 2 <==> r.a >= 0)
      && (ToU8(Transform(RorA, r, sp).a) == u / 2 + 0x80 * c <==> r.a >= 0 || c == 1)
  {
    FlagIsBitAt(r);
    FlagIsBit(r);
    TurnedBytes(r.a, r.Flag(CARRY));
    Turned(r, sp);
    hide BitAt, ToI8, ToU8, Bit, Regs.Flag, Transform;
  }

  lemma Turned(r: Regs, sp: U8)
    ensures Transform(RolA, r, sp).a == ToI8(2 * r.a as int + r.Flag(CARRY)) && Transform(LsrA, r, sp).a == r.a / 2
    ensures Transform(RorA, r, sp).a == ToI8((if r.a < 0 then r.a as int else r.a + r.Flag(CARRY) * 0x100) / 2)
  {
    hide ToI8, Bit, WithBit, Regs.Flag;
  }

  /** The bit that falls out is the carry, and the sign and zero flags are those of the accumulator. */
  lemma TurnFlags(op: Op, r: Regs, sp: U8)
    requires op in {RolA, LsrA, RorA}
    ensures var t := Transform(op, r, sp);
      Became(r, t, t.a, r.x, r.y, map[C := BitAt(r.a, if op == RolA then 7 else 0)] + SignOf(t.a))
  {
    FlagIsBit(r);
    NinthBit(2 * r.a as int + r.Flag(CARRY));
    TopBit(r.a);
    LowBit(r.a);
    hide BitAt, Became, Regs.Signed, ToI8, Bit, Regs.Flag, WithBit;
    TurnSets(r, Transform(op, r, sp).a, BitAt(r.a, if op == RolA then 7 else 0));
  }

  lemma TurnSets(r: Regs, a: I8, carry: int)
    requires carry in {0, 1}
    ensures var t := r.(a := a).With(CARRY, carry).Signed(a);
      t.a == a && Became(r, t, a, r.x, r.y, map[C := carry] + SignOf(a))
  {
    CarrySets(r.(a := a), carry, a);
  }

  lemma TurnedBytes(a: I8, c: int)
    requires c in {0, 1}
    ensures var u, t := ToU8(a) as int, if a < 0 then a else a + c * 0x100;
      && ToU8(ToI8(2 * a as int + c)) == (2 * u + c) % 0x100 && Bit(2 * a as int + c, NINTH) == Truth(a < 0)
      && (ToU8(a / 2) == u / 2 <==> a >= 0)
      && (ToU8(ToI8(t / 2)) == u / 2 + 0x80 * c <==> a >= 0 || c == 1)
  {
    var t := if a < 0 then a as int else a + c * 0x100;
    Unsigned(a);
    Unsigned(a / 2);
    SameByte(2 * a as int + c);
    SameByte(t / 2);
    NinthBit(2 * a as int + c);
    Congruent(2 * a as int + c, 2 * ToU8(a) as int + c);
    TurnedRight(a, c, t);
  }

  lemma TurnedRight(a: I8, c: int, t: int)
    requires c in {0, 1} && t == if a < 0 then a as int else a + c * 0x100
    ensures ToU8(t / 2) == (if a < 0 then (a as int + 0x100) / 2 + 0x80 else a as int / 2 + 0x80 * c)
  {
  }

  /** The flag that a branch tests, and the value that it branches on. */
  function TestOf(op: Op): (nat, int) {
    match op
    case Bcc => (C, 0)
    case Bcs => (C, 1)
    case Bne => (Z, 0)
    case Beq => (Z, 1)
    case Bvc => (V, 0)
    case Bvs => (V, 1)
    case Bpl => (N, 0)
    case _ => (N, 1)
  }

  lemma BranchesTest(op: Op, r: Regs)
    requires op in {Bcc, Bcs, Bne, Beq, Bvc, Bvs, Bpl, Bmi}
    ensures Taken(op, r) <==> BitAt(r.sr, TestOf(op).0) == TestOf(op).1
  {
    BitAtRange(r.sr, TestOf(op).0);
    FlagIsBitAt(r);
    hide BitAt, Regs.Flag;
  }

  /* Which opcode is which instruction. An opcode is made of a row, a column and a block: aaabbbcc. */

  const READERS: seq<Op> := [Ora, And, Eor, Adc, Sta, Lda, Cmp, Sbc]
  const READ_MODES: seq<Mode> :=
    [IndirectX, ZeroPage, Immediate, Absolute, IndirectY, ZeroPageX, AbsoluteY, AbsoluteX]
  const CHANGERS: seq<Op> := [Asl, Rol, Lsr, Ror, Stx, Ldx, Dec, Inc]

  /** Block 1: the instructions of the accumulator, in eight modes each; 0x89 is none, and 0x91 has the mode of 0x81. */
  lemma AccumulatorBlock(row: nat, column: nat)
    requires row < 8 && column < 8
    ensures Decode(32 * row + 4 * column + 1) == AccumulatorEntry(row, column)
  {
    hide Decode;
    FirstColumn(row);
    SecondColumn(row);
    ThirdColumn(row);
    FourthColumn(row);
    FifthColumn(row);
    SixthColumn(row);
    SeventhColumn(row);
    LastColumn(row);
  }

  function AccumulatorEntry(row: nat, column: nat): Instruction
    requires row < 8 && column < 8
  {
    if row == 4 && column == 2 then Instruction(Unknown, NoOperand)
    else if row == 4 && column == 4 then Instruction(Sta, IndirectX)
    else Instruction(READERS[row], READ_MODES[column])
  }

  lemma FirstColumn(row: nat)
    requires row < 8
    ensures Decode(32 * row + 1) == AccumulatorEntry(row, 0)
  {
  }

  lemma SecondColumn(row: nat)
    requires row < 8
    ensures Decode(32 * row + 5) == AccumulatorEntry(row, 1)
  {
  }

  lemma ThirdColumn(row: nat)
    requires row < 8
    ensures Decode(32 * row + 9) == AccumulatorEntry(row, 2)
  {
  }

  lemma FourthColumn(row: nat)
    requires row < 8
    ensures Decode(32 * row + 13) == AccumulatorEntry(row, 3)
  {
  }

  lemma FifthColumn(row: nat)
    requires row < 8
    ensures Decode(32 * row + 17) == AccumulatorEntry(row, 4)
  {
  }

  lemma SixthColumn(row: nat)
    requires row < 8
    ensures Decode(32 * row + 21) == AccumulatorEntry(row, 5)
  {
  }

  lemma SeventhColumn(row: nat)
    requires row < 8
    ensures Decode(32 * row + 25) == AccumulatorEntry(row, 6)
  {
  }

  lemma LastColumn(row: nat)
    requires row < 8
    ensures Decode(32 * row + 29) == AccumulatorEntry(row, 7)
  {
  }

  /** Block 2, the columns of memory: X is the index, but Y for the instructions of X; there is no 0x9E. */
  lemma MemoryBlock(row: nat)
    requires row < 8
    ensures Decode(32 * row + 6) == Instruction(CHANGERS[row], ZeroPage)
    ensures Decode(32 * row + 14) == Instruction(CHANGERS[row], Absolute)
    ensures Decode(32 * row + 22) == Instruction(CHANGERS[row], if row in {4, 5} then ZeroPageY else ZeroPageX)
    ensures Decode(32 * row + 30) ==
      if row == 4 then Instruction(Unknown, NoOperand)
      else Instruction(CHANGERS[row], if row == 5 then AbsoluteY else AbsoluteX)
  {
    hide Decode;
    ZeroPageColumn(row);
    AbsoluteColumn(row);
    IndexedZeroColumn(row);
    IndexedColumn(row);
  }

  lemma ZeroPageColumn(row: nat)
    requires row < 8
    ensures Decode(32 * row + 6) == Instruction(CHANGERS[row], ZeroPage)
  {
  }

  lemma AbsoluteColumn(row: nat)
    requires row < 8
    ensures Decode(32 * row + 14) == Instruction(CHANGERS[row], Absolute)
  {
  }

  lemma IndexedZeroColumn(row: nat)
    requires row < 8
    ensures Decode(32 * row + 22) == Instruction(CHANGERS[row], if row in {4, 5} then ZeroPageY else ZeroPageX)
  {
  }

  lemma IndexedColumn(row: nat)
    requires row < 8
    ensures Decode(32 * row + 30) ==
      if row == 4 then Instruction(Unknown, NoOperand)
      else Instruction(CHANGERS[row], if row == 5 then AbsoluteY else AbsoluteX)
  {
  }

  const TURNERS: seq<Op> := [AslA, RolA, LsrA, RorA, Txa, Tax, Dex, Nop]
  const BRANCHES: seq<Op> := [Bpl, Bmi, Bvc, Bvs, Bcc, Bcs, Bne, Beq]
  const PLAIN: seq<Op> := [Php, Plp, Pha, Pla, Dey, Tay, Iny, Inx]
  const SETTERS: seq<Op> := [Clc, Sec, Cli, Sei, Tya, Clv, Cld, Sed]

  /** The columns without a memory operand, and the branches. */
  lemma RegisterColumns(row: nat)
    requires row < 8
    ensures Decode(32 * row + 10) == Instruction(TURNERS[row], if row < 4 then NoOperand else Implied)
    ensures Decode(32 * row + 16) == Instruction(BRANCHES[row], Relative)
    ensures Decode(32 * row + 8) == Instruction(PLAIN[row], Implied)
    ensures Decode(32 * row + 24) == Instruction(SETTERS[row], Implied)
  {
    hide Decode;
    TurnColumn(row);
    BranchColumn(row);
    PlainColumn(row);
    SetterColumn(row);
  }

  lemma TurnColumn(row: nat)
    requires row < 8
    ensures Decode(32 * row + 10) == Instruction(TURNERS[row], if row < 4 then NoOperand else Implied)
  {
  }

  lemma BranchColumn(row: nat)
    requires row < 8
    ensures Decode(32 * row + 16) == Instruction(BRANCHES[row], Relative)
  {
  }

  lemma PlainColumn(row: nat)
    requires row < 8
    ensures Decode(32 * row + 8) == Instruction(PLAIN[row], Implied)
  {
  }

  lemma SetterColumn(row: nat)
    requires row < 8
    ensures Decode(32 * row + 24) == Instruction(SETTERS[row], Implied)
  {
  }

  /** The index registers, BIT, jumps, calls and returns. */
  lemma OtherEntries()
    ensures Decode(0x84) == Instruction(Sty, ZeroPage) && Decode(0x8C) == Instruction(Sty, Absolute)
    ensures Decode(0x94) == Instruction(Sty, ZeroPageX) && Decode(0xA2) == Instruction(Ldx, Immediate)
    ensures Decode(0xA0) == Instruction(Ldy, Immediate) && Decode(0xA4) == Instruction(Ldy, ZeroPage)
    ensures Decode(0xAC) == Instruction(Ldy, Absolute)
    ensures Decode(0xB4) == Instruction(Ldy, ZeroPageX) && Decode(0xBC) == Instruction(Ldy, AbsoluteX)
    ensures Decode(0xC0) == Instruction(Cpy, Immediate) && Decode(0xC4) == Instruction(Cpy, ZeroPage)
    ensures Decode(0xE0) == Instruction(Cpx, Immediate) && Decode(0xE4) == Instruction(Cpx, ZeroPage)
    ensures Decode(0xCC) == Instruction(Cpy, Absolute) && Decode(0xEC) == Instruction(Cpx, Absolute)
    ensures Decode(0x9A) == Instruction(Txs, Implied) && Decode(0xBA) == Instruction(Tsx, Implied)
    ensures Decode(0x24) == Instruction(BitTest, ZeroPage) && Decode(0x2C) == Instruction(BitTest, Absolute)
    ensures Decode(0x4C) == Instruction(Jmp, Absolute) && Decode(0x6C) == Instruction(Jmp, Indirect)
    ensures Decode(0x20) == Instruction(Jsr, Absolute) && Decode(0x00) == Instruction(Brk, Implied)
    ensures Decode(0x40) == Instruction(Rti, Implied) && Decode(0x60) == Instruction(Rts, Implied)
  {
    hide Decode;
    StoreYEntries();
    LoadYEntries();
    LoadIndexedYEntries();
    CompareYEntries();
    CompareXEntries();
    CompareAbsoluteEntries();
    StackPointerEntries();
    JumpEntries();
    CallEntries();
  }

  lemma StoreYEntries()
    ensures Decode(0x84) == Instruction(Sty, ZeroPage) && Decode(0x8C) == Instruction(Sty, Absolute)
    ensures Decode(0x94) == Instruction(Sty, ZeroPageX) && Decode(0xA2) == Instruction(Ldx, Immediate)
  {
  }

  lemma LoadYEntries()
    ensures Decode(0xA0) == Instruction(Ldy, Immediate) && Decode(0xA4) == Instruction(Ldy, ZeroPage)
    ensures Decode(0xAC) == Instruction(Ldy, Absolute)
  {
  }

  lemma LoadIndexedYEntries()
    ensures Decode(0xB4) == Instruction(Ldy, ZeroPageX) && Decode(0xBC) == Instruction(Ldy, AbsoluteX)
  {
  }

  lemma CompareYEntries()
    ensures Decode(0xC0) == Instruction(Cpy, Immediate) && Decode(0xC4) == Instruction(Cpy, ZeroPage)
  {
  }

  lemma CompareXEntries()
    ensures Decode(0xE0) == Instruction(Cpx, Immediate) && Decode(0xE4) == Instruction(Cpx, ZeroPage)
  {
  }

  lemma CompareAbsoluteEntries()
    ensures Decode(0xCC) == Instruction(Cpy, Absolute) && Decode(0xEC) == Instruction(Cpx, Absolute)
  {
  }

  lemma StackPointerEntries()
    ensures Decode(0x9A) == Instruction(Txs, Implied) && Decode(0xBA) == Instruction(Tsx, Implied)
  {
  }

  lemma JumpEntries()
    ensures Decode(0x24) == Instruction(BitTest, ZeroPage) && Decode(0x2C) == Instruction(BitTest, Absolute)
    ensures Decode(0x4C) == Instruction(Jmp, Absolute) && Decode(0x6C) == Instruction(Jmp, Indirect)
  {
  }

  lemma CallEntries()
    ensures Decode(0x20) == Instruction(Jsr, Absolute) && Decode(0x00) == Instruction(Brk, Implied)
    ensures Decode(0x40) == Instruction(Rti, Implied) && Decode(0x60) == Instruction(Rts, Implied)
  {
  }
}
