/** The 6502 emulator: memory, stack, operands, execution and the reset sequence. */
module Chips {
  import opened Opcodes

  datatype Status = Ok | Invalid | Hang | Startup | Segfault

  const RESET := 1
  const RUN := 2
  const HANG := 3
  const RESET_VECTOR := 0xFFFC

  type Memory = seq<I8>

  /** The two memories differ at most in some cells. */
  ghost predicate SameBut(m: Memory, n: Memory, cells: set<int>) {
    |m| == |n| && forall i :: 0 <= i < |m| && i !in cells ==> m[i] == n[i]
  }

  /** Some cells of the stack page, from that of a stack pointer downwards, and around. */
  function StackCells(sp: U8, n: nat): set<int> {
    if n == 0 then {} else StackCells(sp, n - 1) + {CellBelow(sp, n - 1)}
  }

  function CellBelow(sp: U8, k: int): nat {
    0x100 + ToU8(sp as int - k)
  }

  lemma {:induction false} StackCellsBound(sp: U8, n: nat)
    ensures |StackCells(sp, n)| <= n && forall c :: c in StackCells(sp, n) ==> 0x100 <= c < 0x200
  {
    if n > 0 {
      StackCellsBound(sp, n - 1);
    }
  }

  /** How many bytes an instruction pushes. */
  function Pushes(op: Op): nat {
    match op
    case Pha => 1
    case Php => 1
    case Jsr => 2
    case Brk => 3
    case _ => 0
  }

  /** The instructions that store, or change a byte of memory. */
  predicate StoresOperand(op: Op) {
    op in {Sta, Stx, Sty, Asl, Lsr, Rol, Ror, Dec, Inc}
  }

  /** How many bytes follow an opcode. */
  function Length(mode: Mode): nat {
    match mode
    case NoOperand => 0
    case Implied => 0
    case Absolute => 2
    case AbsoluteX => 2
    case AbsoluteY => 2
    case Indirect => 2
    case _ => 1
  }

  /** What a read yields: nothing outside of memory. */
  function ValueAt(m: Memory, i: int): I8 {
    if 0 <= i < |m| then m[i] else 0
  }

  function Stored(op: Op, r: Regs): I8 {
    match op
    case Sta => r.a
    case Stx => r.x
    case _ => r.y
  }

  /** Each store keeps its register: the load from there fetches it back, whatever else happened. */
  lemma LoadUndoesStore(r: Regs, s: Regs)
    ensures Combine(Lda, s, Stored(Sta, r)).a == r.a
    ensures Combine(Ldx, s, Stored(Stx, r)).x == r.x
    ensures Combine(Ldy, s, Stored(Sty, r)).y == r.y
  {
    hide WithBit, ToI8;
  }

  /** The registers and the byte after an instruction that changes its operand. */
  function Modified(op: Op, r: Regs, m: Memory, operand: int): (Regs, I8) {
    var (regs, v) := Modify(op, r, ValueAt(m, operand));
    (regs, if 0 <= operand < |m| then v else 0)
  }

  predicate IsData(op: Op) {
    op in {Sta, Stx, Sty, Asl, Lsr, Rol, Ror, Dec, Inc, Ora, And, Eor, Adc, Sbc, Cmp, Cpx, Cpy, Lda, Ldx, Ldy, BitTest,
           AslA, LsrA, RolA, RorA, Clc, Cld, Cli, Clv, Sec, Sed, Sei, Dex, Dey, Inx, Iny, Tax, Tay, Tsx, Txa, Tya, Nop}
  }

  /** The registers and the operand's byte after an instruction that works on them. */
  predicate DataDone(op: Op, operand: int, pc: U16, sp: U8, r: Regs, m: Memory, r': Regs, m': Memory) {
    if op in {Sta, Stx, Sty} then r' == r && (0 <= operand < |m'| ==> m'[operand] == Stored(op, r))
    else if StoresOperand(op) then (r', ValueAt(m', operand)) == Modified(op, r, m, operand)
    else if op in {Ora, And, Eor, Adc, Sbc, Cmp, Cpx, Cpy, Lda, Ldx, Ldy, BitTest} then
      r' == Combine(op, r, ValueAt(m, if op == BitTest then pc else operand))
    else r' == Transform(op, r, sp)
  }

  /** The stack pointer and the registers after a push or a pull. */
  predicate StackDone(op: Op, sp: U8, r: Regs, m: Memory, sp': U8, r': Regs) {
    match op
    case Pla => sp' == ToU8(sp as int + 1) &&
      r' == r.(a := ValueAt(m, 0x100 + sp' as int)).Signed(ValueAt(m, 0x100 + sp' as int))
    case Plp => sp' == ToU8(sp as int + 1) && r' == r.(sr := ValueAt(m, 0x100 + sp' as int))
    case Pha => sp' == ToU8(sp as int - 1) && r' == r && HoldsAt(m, 0x100 + sp as int, r.a)
    case _ => sp' == ToU8(sp as int - 1) && r' == r && HoldsAt(m, 0x100 + sp as int, r.sr)
  }

  /** The program counter, the stack pointer and the registers after a call or a return. */
  predicate CallDone(op: Op, pc: U16, sp: U8, r: Regs, before: Memory, m: Memory, pc': U16, sp': U8, r': Regs) {
    match op
    case Jsr =>
      var next := ToU16(pc as int + 1);
      && sp' == ToU8(sp as int - 2) && r' == r && PcPushed(m, sp, next)
      && pc' == ToU16(ValueAt(m, next) as int * 0x100 + ValueAt(before, pc))
    case Brk =>
      && sp' == ToU8(sp as int - 3) && r' == r.With(IRQ_DISABLE, 1)
      && PcPushed(m, sp, pc) && HoldsAt(m, CellBelow(sp, 2), r.sr) && pc' == ToU16(ValueAt(m, 0xFFFE))
    case Rti =>
      && sp' == ToU8(sp as int + 3) && r' == r.(sr := ValueAt(m, 0x100 + ToU8(sp as int + 1)))
      && pc' == PcPulled(m, ToU8(sp as int + 1))
    case _ => sp' == ToU8(sp as int + 2) && r' == r && pc' == PcPulled(m, sp)
  }

  /** The program counter, the stack pointer and the registers after any other instruction. */
  predicate FlowDone(op: Op, operand: int, pc: U16, sp: U8, r: Regs, before: Memory, m: Memory,
                     pc': U16, sp': U8, r': Regs) {
    if op in {Jsr, Brk, Rti, Rts} then CallDone(op, pc, sp, r, before, m, pc', sp', r')
    else if op in {Pla, Plp, Pha, Php} then pc' == pc && StackDone(op, sp, r, m, sp', r')
    else if op == Txs then pc' == pc && sp' == ToU8(r.x) && r' == r
    else if op == Unknown then pc' == pc && sp' == sp && r' == r
    else sp' == sp && r' == r && pc' == if op == Jmp || Taken(op, r) then ToU16(operand) else pc
  }

  predicate HoldsAt(m: Memory, i: nat, v: I8) {
    i < |m| ==> m[i] == v
  }

  /** A program counter was pushed, its high byte first. */
  predicate PcPushed(m: Memory, sp: U8, pc: U16) {
    HoldsAt(m, CellBelow(sp, 0), ToI8(pc / 0x100)) && HoldsAt(m, CellBelow(sp, 1), ToI8(pc % 0x100))
  }

  /** The program counter that is pulled, its low byte first and extended with its sign. */
  function PcPulled(m: Memory, sp: U8): U16 {
    ToU16(OrWord(ValueAt(m, 0x100 + ToU8(sp as int + 2)), ValueAt(m, 0x100 + ToU8(sp as int + 1))))
  }

  lemma KindOf(op: Op)
    ensures IsData(op) ==> Pushes(op) == 0 && forall sp :: StackCells(sp, 0) == {}
    ensures !IsData(op) ==> !StoresOperand(op)
  {
  }

  function StageOf(state: I8): int {
    state / 16 % 16
  }

  /** `NEXT_STAGE`. */
  function NextStage(state: I8): I8 {
    ToI8((StageOf(state) + 1) * 16 + state % 16)
  }

  class Chip {
    const mem: array<I8>
    var ab: U16
    var pc: U16
    var sp: U8
    var ir: U8
    var r: Regs
    var state: I8
    var cycles: int
    var operand: int

    /** A chip whose memory is given; the registers that `init` leaves alone start as any. */
    constructor (mem: array<I8>)
      ensures this.mem == mem && pc == 0 && sp == 0xFF && r == Regs(0, 0, 0, 0) && state == RESET
    {
      this.mem := mem;
      ab, ir := *, *;
      pc, sp, r, state, cycles, operand := 0, 0xFF, Regs(0, 0, 0, 0), RESET, 0, 0;
    }

    method MemRead(index: int) returns (v: I8, status: Status)
      ensures if 0 <= index < mem.Length then status == Ok && v == mem[index] else status == Segfault && v == 0
    {
      if index >= mem.Length || index < 0 {
        return 0, Segfault;
      }
      return mem[index], Ok;
    }

    method MemReadWord(index: int) returns (v: int, status: Status)
      ensures if 0 <= index && index + 1 < mem.Length then status == Ok && v == OrWord(mem[index + 1], mem[index])
        else status == Segfault && v == 0
    {
      var lo, hi;
      lo, status := MemRead(index);
      if status != Ok {
        return 0, status;
      }
      hi, status := MemRead(index + 1);
      if status != Ok {
        return 0, status;
      }
      return OrWord(hi, lo), Ok;
    }

    method ReadMem(index: int) returns (v: I8, status: Status)
      modifies this`cycles, this`ab
      ensures if 0 <= index < mem.Length then status == Ok && v == mem[index] else status == Segfault && v == 0
    {
      cycles := (cycles + 1) % 0x1_0000_0000;
      ab := ToU16(index);
      v, status := MemRead(index);
    }

    method WriteMem(index: int, v: I8) returns (status: Status)
      modifies this`cycles, this`ab, mem
      ensures if 0 <= index < mem.Length then status == Ok && mem[..] == old(mem[..])[index := v]
        else status == Segfault && mem[..] == old(mem[..])
    {
      cycles := (cycles + 1) % 0x1_0000_0000;
      ab := ToU16(index);
      if index >= mem.Length || index < 0 {
        return Segfault;
      }
      mem[index] := v;
      return Ok;
    }

    method ReadPc() returns (v: I8, status: Status)
      modifies this`cycles, this`ab
      ensures if pc < mem.Length then status == Ok && v == mem[pc] else status == Segfault && v == 0
    {
      v, status := ReadMem(pc);
    }

    /** Reads the byte at the program counter and moves on. */
    method NextByte() returns (v: I8, status: Status)
      modifies this`cycles, this`ab, this`pc
      ensures if old(pc) < mem.Length then status == Ok && v == mem[old(pc)] else status == Segfault && v == 0
      ensures pc == ToU16(old(pc) + 1)
    {
      v, status := ReadPc();
      pc := ToU16(pc + 1);
    }

    /* The stack. */

    method PushStack(v: I8) returns (status: Status)
      modifies this`cycles, this`ab, this`sp, mem
      ensures sp == ToU8(old(sp) - 1)
      ensures if 0x100 + old(sp) < mem.Length then status == Ok && mem[..] == old(mem[..])[0x100 + old(sp) := v]
        else status == Segfault && mem[..] == old(mem[..])
    {
      status := WriteMem(sp + 0x100, v);
      sp := ToU8(sp - 1);
    }

    method PopStack() returns (v: I8, status: Status)
      modifies this`cycles, this`ab, this`sp
      ensures sp == ToU8(old(sp) + 1)
      ensures if 0x100 + sp < mem.Length then status == Ok && v == mem[0x100 + sp] else status == Segfault && v == 0
    {
      sp := ToU8(sp + 1);
      v, status := ReadMem(sp + 0x100);
    }

    method PushPc() returns (status: Status)
      modifies this`cycles, this`ab, this`sp, mem
      ensures sp == ToU8(old(sp) - 2) && SameBut(old(mem[..]), mem[..], StackCells(old(sp), 2))
      ensures PcPushed(mem[..], old(sp), pc)
    {
      hide StackCells, SameBut, ToU8, ToI8;
      Around(sp, -1, -1);
      CellsApart(sp);
      OneCell(mem[..], sp, ToI8(pc / 0x100));
      status := PushStack(ToI8(pc / 0x100));
      OneCell(mem[..], sp, ToI8(pc % 0x100));
      ghost var between := mem[..];
      status := PushStack(ToI8(pc % 0x100));
      MoreCells(old(mem[..]), between, mem[..], old(sp), 1);
    }

    method PopPc() returns (status: Status)
      modifies this`cycles, this`ab, this`sp, this`pc
      ensures sp == ToU8(old(sp) + 2) && pc == PcPulled(mem[..], old(sp))
    {
      var lo: I8, hi: I8;
      lo, status := PopStack();
      hi, status := PopStack();
      pc := ToU16(OrWord(hi, lo));
    }

    /* The operand of an instruction. */

    /** The operand is the address of the 6502's addressing mode exactly when `ComesOut` holds. */
    method LoadOperand(mode: Mode) returns (status: Status)
      modifies this`cycles, this`ab, this`pc, this`operand
      ensures pc == ToU16(old(pc) + Length(mode))
      ensures Readable(mode, mem[..], old(pc), r) ==>
        (operand == Effective(mode, mem[..], old(pc), r) <==> ComesOut(mode, mem[..], old(pc), r))
    {
      hide ToU8, WordAt, ZeroPageWord, OrWord;
      NextAddress(pc, mem.Length);
      NextTwice(pc);
      status := Invalid;
      match mode
      case NoOperand =>
      case Implied =>
        var skipped, s := ReadPc();
        status := s;
      case Immediate =>
        operand := pc;
        pc := ToU16(pc + 1);
      case Absolute =>
        AbsoluteRight(mem[..], pc);
        cycles := (cycles + 2) % 0x1_0000_0000;
        operand, status := MemReadWord(pc);
        pc := ToU16(pc + 2);
      case AbsoluteX => status := LoadIndexed(r.x);
      case AbsoluteY => status := LoadIndexed(r.y);
      case Indirect => status := LoadIndirect();
      case IndirectX => status := LoadIndirectX();
      case IndirectY => status := LoadIndirectY();
      case Relative =>
        var offset: int;
        offset, status := NextByte();
        operand := ToU16(pc + offset);
      case ZeroPage =>
        operand, status := NextByte();
        Unsigned(operand);
      case ZeroPageX => status := LoadZeroPage(r.x);
      case ZeroPageY => status := LoadZeroPage(r.y);
    }

    /** The sum wraps inside the zero page, so the sign of the base does no harm. */
    method LoadZeroPage(index: I8) returns (status: Status)
      modifies this`cycles, this`ab, this`pc, this`operand
      ensures pc == ToU16(old(pc) + 1)
      ensures old(pc) < mem.Length ==> operand == ToU8(ToU8(mem[old(pc)]) as int + ToU8(index))
    {
      hide ToU8;
      var ptr: int;
      ptr, status := NextByte();
      operand := ToU8(ptr + index);
      ByteSum(ptr, index);
    }

    /** The further read of a page crossing needs a sum of 0x100, which two signed bytes do not reach. */
    method LoadIndexed(index: I8) returns (status: Status)
      modifies this`cycles, this`ab, this`pc, this`operand
      ensures pc == ToU16(old(pc) + 2)
      ensures old(pc) + 2 < mem.Length <= 0x1_0000 ==>
        (operand == ToU16(WordAt(mem[..], old(pc)) + ToU8(index)) <==> mem[old(pc)] >= 0 && index >= 0)
    {
      hide ToU8;
      NextAddress(pc, mem.Length);
      NextTwice(pc);
      var low: int, high: int;
      low, status := NextByte();
      high, status := NextByte();
      operand := ToU16(high * 0x100 + (low + index));
      IndexedRight(low, high, index);
    }

    /** A pointer with a sign is below memory, where nothing is read. */
    method LoadIndirect() returns (status: Status)
      modifies this`cycles, this`ab, this`pc, this`operand
      ensures pc == ToU16(old(pc) + 2)
      ensures old(pc) + 2 < mem.Length <= 0x1_0000 && WordAt(mem[..], old(pc)) + 1 < mem.Length ==>
        (operand == WordAt(mem[..], WordAt(mem[..], old(pc))) <==> IndirectComesOut(mem[..], old(pc)))
    {
      hide ToU8, ToU16, OrWord;
      NextAddress(pc, mem.Length);
      NextTwice(pc);
      var low: int, high: int;
      low, status := NextByte();
      high, status := NextByte();
      WordRight(low, high);
      PointerWord(low, high);
      var a := OrWord(high, low);
      low, status := ReadMem(a);
      high, status := ReadMem(a + 1);
      operand := ToU16(high * 0x100 + low);
      PlainRight(low, high);
      if old(pc) + 2 < mem.Length <= 0x1_0000 && WordAt(mem[..], old(pc)) + 1 < mem.Length {
        PlainOther(mem[WordAt(mem[..], old(pc))], mem[WordAt(mem[..], old(pc)) + 1], high);
      }
    }

    method LoadIndirectX() returns (status: Status)
      modifies this`cycles, this`ab, this`pc, this`operand
      ensures pc == ToU16(old(pc) + 1)
      ensures old(pc) + 2 < mem.Length <= 0x1_0000 && mem.Length >= 0x100 ==>
        var p := ToU8(ToU8(mem[old(pc)]) + ToU8(r.x));
        operand == ZeroPageWord(mem[..], p) <==> mem[p] >= 0
    {
      hide ToU8, ToU16;
      var ptr: int, low: int, high: int;
      ptr, status := NextByte();
      ByteSum(ptr, r.x);
      var p: int := ToU8(ptr + r.x);
      low, status := ReadMem(p);
      high, status := ReadMem(ToU8(p + 1));
      operand := ToU16(high * 0x100 + low);
      PlainRight(low, high);
    }

    /** Here too the sum stays below the further read. The low byte at a pointer with a sign is not read. */
    method LoadIndirectY() returns (status: Status)
      modifies this`cycles, this`ab, this`pc, this`operand
      ensures pc == ToU16(old(pc) + 1)
      ensures old(pc) + 2 < mem.Length <= 0x1_0000 && mem.Length >= 0x100 ==>
        (operand == ToU16(ZeroPageWord(mem[..], ToU8(mem[old(pc)])) + ToU8(r.y)) <==>
        IndirectYComesOut(mem[..], old(pc), r.y))
    {
      hide ToU8, ToU16;
      var ptr: int, low: int, high: int;
      ptr, status := NextByte();
      low, status := ReadMem(ptr);
      high, status := ReadMem(ToU8(ptr + 1));
      operand := ToU16(high * 0x100 + (low + r.y));
      IndexedRight(low, high, r.y);
      if old(pc) + 2 < mem.Length <= 0x1_0000 && mem.Length >= 0x100 {
        Unsigned(mem[old(pc)]);
        NextPointer(mem[old(pc)]);
        IndexedOther(mem[ToU8(mem[old(pc)])], high, r.y);
      }
    }

    /* Execution. */

    method ExecRead(op: Op) returns (status: Status)
      modifies this`cycles, this`ab, this`r
      ensures r == Combine(op, old(r), ValueAt(mem[..], if op == BitTest then pc else operand))
    {
      var v;
      if op == BitTest {
        v, status := ReadPc();
      } else {
        v, status := ReadMem(operand);
      }
      r := Combine(op, r, v);
    }

    method ExecModify(op: Op) returns (status: Status)
      modifies this`cycles, this`ab, this`r, mem
      ensures SameBut(old(mem[..]), mem[..], {operand})
      ensures (r, ValueAt(mem[..], operand)) == Modified(op, old(r), old(mem[..]), operand)
    {
      hide Modify;
      var v;
      v, status := ReadMem(operand);
      if op != Dec && op != Inc {
        status := WriteMem(operand, v);
      }
      var (regs, w) := Modify(op, r, v);
      r := regs;
      status := WriteMem(operand, w);
    }

    method ExecStore(op: Op) returns (status: Status)
      modifies this`cycles, this`ab, mem
      ensures SameBut(old(mem[..]), mem[..], {operand})
      ensures 0 <= operand < mem.Length ==> mem[operand] == Stored(op, r)
    {
      status := WriteMem(operand, Stored(op, r));
    }

    method ExecBranch(op: Op, status0: Status) returns (status: Status)
      modifies this`cycles, this`ab, this`pc
      ensures pc == if Taken(op, r) then ToU16(operand) else old(pc)
    {
      status := status0;
      if Taken(op, r) {
        var skipped;
        skipped, status := ReadPc();
        if pc / 0x100 != operand / 0x100 {
          skipped, status := ReadMem(pc / 0x100 * 0x100 + operand % 0x100);
        }
        pc := ToU16(operand);
      }
    }

    method ExecBrk() returns (status: Status)
      modifies this`cycles, this`ab, this`sp, this`pc, this`r, mem
      ensures SameBut(old(mem[..]), mem[..], StackCells(old(sp), 3))
      ensures sp == ToU8(old(sp) - 3) && r == old(r).With(IRQ_DISABLE, 1)
      ensures PcPushed(mem[..], old(sp), old(pc)) && HoldsAt(mem[..], CellBelow(old(sp), 2), old(r.sr)) &&
        pc == ToU16(ValueAt(mem[..], 0xFFFE))
    {
      hide StackCells, SameBut, ToU8, Regs.With;
      Around(sp, -2, -1);
      CellsApart(sp);
      var v, skipped;
      skipped, status := ReadPc();
      status := PushPc();
      ghost var between := mem[..];
      OneCell(between, sp, r.sr);
      status := PushStack(r.sr);
      MoreCells(old(mem[..]), between, mem[..], old(sp), 2);
      r := r.With(IRQ_DISABLE, 1);
      v, status := ReadMem(0xFFFE);
      pc := ToU16(v);
    }

    method ExecJsr() returns (status: Status)
      modifies this`cycles, this`ab, this`sp, this`pc, mem
      ensures SameBut(old(mem[..]), mem[..], StackCells(old(sp), 2))
      ensures sp == ToU8(old(sp) - 2) && PcPushed(mem[..], old(sp), ToU16(old(pc) + 1))
      ensures pc == ToU16(ValueAt(mem[..], ToU16(old(pc) + 1)) as int * 0x100 + ValueAt(old(mem[..]), old(pc)))
    {
      hide PcPushed, SameBut, StackCells;
      var lo: int, hi: int, skipped;
      lo, status := NextByte();
      skipped, status := ReadMem(sp + 0x100);
      status := PushPc();
      hi, status := ReadPc();
      pc := ToU16(hi * 0x100 + lo);
    }

    method ExecPla() returns (status: Status)
      modifies this`cycles, this`ab, this`sp, this`r
      ensures sp == ToU8(old(sp) + 1) &&
        r == old(r).(a := ValueAt(mem[..], 0x100 + sp)).Signed(ValueAt(mem[..], 0x100 + sp))
    {
      hide ToU8, Regs.Signed;
      var v, skipped;
      skipped, status := ReadMem(sp + 0x100);
      v, status := PopStack();
      r := r.(a := v).Signed(v);
    }

    method ExecPlp() returns (status: Status)
      modifies this`cycles, this`ab, this`sp, this`r
      ensures sp == ToU8(old(sp) + 1) && r == old(r).(sr := ValueAt(mem[..], 0x100 + sp))
    {
      hide ToU8;
      var v, skipped;
      skipped, status := ReadMem(sp + 0x100);
      v, status := PopStack();
      r := r.(sr := v);
    }

    method ExecRti() returns (status: Status)
      modifies this`cycles, this`ab, this`sp, this`pc, this`r
      ensures sp == ToU8(old(sp) + 3) && r == old(r).(sr := ValueAt(mem[..], 0x100 + ToU8(old(sp) + 1)))
      ensures pc == PcPulled(mem[..], ToU8(old(sp) + 1))
    {
      hide ToU8;
      Around(sp, 1, 2);
      var skipped;
      skipped, status := ReadMem(sp + 0x100);
      status := ExecPlp();
      status := PopPc();
    }

    method ExecRts() returns (status: Status)
      modifies this`cycles, this`ab, this`sp, this`pc
      ensures sp == ToU8(old(sp) + 2) && pc == PcPulled(mem[..], old(sp))
    {
      hide ToU8, ToU16, OrWord;
      var skipped;
      skipped, status := ReadMem(sp + 0x100);
      status := PopPc();
      skipped, status := ReadPc();
    }

    /** An instruction that works on registers and its operand. */
    method ExecData(op: Op, status0: Status) returns (status: Status)
      requires IsData(op)
      modifies this`cycles, this`ab, this`r, mem
      ensures SameBut(old(mem[..]), mem[..], if StoresOperand(op) then {operand} else {})
      ensures DataDone(op, operand, pc, sp, old(r), old(mem[..]), r, mem[..])
    {
      hide Combine, Modify, Transform, SameBut;
      status := status0;
      Unchanged(mem[..], {});
      match op
      case Sta | Stx | Sty => status := ExecStore(op);
      case Asl | Lsr | Rol | Ror | Dec | Inc => status := ExecModify(op);
      case Ora | And | Eor | Adc | Sbc | Cmp | Cpx | Cpy | Lda | Ldx | Ldy | BitTest => status := ExecRead(op);
      case AslA | LsrA | RolA | RorA | Clc | Cld | Cli | Clv | Sec | Sed | Sei | Dex | Dey | Inx | Iny
         | Tax | Tay | Tsx | Txa | Tya | Nop => r := Transform(op, r, sp);
    }

    /** An instruction that moves data to or from the stack, or its pointer. */
    method ExecStack(op: Op) returns (status: Status)
      requires op in {Pha, Php, Pla, Plp}
      modifies this`cycles, this`ab, this`sp, this`r, mem
      ensures SameBut(old(mem[..]), mem[..], StackCells(old(sp), Pushes(op)))
      ensures StackDone(op, old(sp), old(r), mem[..], sp, r)
    {
      hide SameBut, StackCells, ToU8, ToU16, OrWord, Taken, PcPushed, PcPulled, Regs.With, Regs.Signed;
      Unchanged(mem[..], StackCells(sp, 0));
      match op
      case Pla => status := ExecPla();
      case Plp => status := ExecPlp();
      case Pha => OneCell(mem[..], sp, r.a); status := PushStack(r.a);
      case Php => OneCell(mem[..], sp, r.sr); status := PushStack(r.sr);
    }

    /** A call of a subroutine or a return. */
    method ExecCall(op: Op) returns (status: Status)
      requires op in {Jsr, Brk, Rti, Rts}
      modifies this`cycles, this`ab, this`sp, this`pc, this`r, mem
      ensures SameBut(old(mem[..]), mem[..], StackCells(old(sp), Pushes(op)))
      ensures CallDone(op, old(pc), old(sp), old(r), old(mem[..]), mem[..], pc, sp, r)
    {
      hide SameBut, StackCells, ToU16, ToU8, Regs.With, PcPushed, PcPulled;
      Unchanged(mem[..], StackCells(sp, 0));
      match op
      case Jsr => status := ExecJsr();
      case Brk => status := ExecBrk();
      case Rti => status := ExecRti();
      case Rts => status := ExecRts();
    }

    /** An instruction that moves the program counter or the stack. */
    method ExecFlow(op: Op, status0: Status) returns (status: Status)
      requires !IsData(op)
      modifies this`cycles, this`ab, this`sp, this`pc, this`r, mem
      ensures SameBut(old(mem[..]), mem[..], StackCells(old(sp), Pushes(op)))
      ensures FlowDone(op, operand, old(pc), old(sp), old(r), old(mem[..]), mem[..], pc, sp, r)
    {
      hide Taken, SameBut, StackCells, ToU16, ToU8, StackDone, CallDone;
      status := status0;
      Unchanged(mem[..], StackCells(sp, 0));
      match op
      case Jmp => pc := ToU16(operand);
      case Jsr | Brk | Rti | Rts => status := ExecCall(op);
      case Pla | Plp | Pha | Php => status := ExecStack(op);
      case Txs => sp := ToU8(r.x);
      case Unknown => status := Hang;
      case Bcc | Bcs | Beq | Bmi | Bne | Bpl | Bvc | Bvs => status := ExecBranch(op, status);
    }

    /**
     One instruction, whatever the opcode: the registers, the stack pointer, the program counter and
     the byte of a store are as specified, memory changes nowhere else but where the instruction
     pushes, and the state of the chip stays what it is.
     */
    method Exec() returns (status: Status)
      modifies this`cycles, this`ab, this`sp, this`pc, this`operand, this`r, mem
      ensures var (op, here) := (Decode(ir).op, ToU16(old(pc) + Length(Decode(ir).mode)));
        && SameBut(old(mem[..]), mem[..], if StoresOperand(op) then {operand} else StackCells(old(sp), Pushes(op)))
        && (IsData(op) ==>
          pc == here && sp == old(sp) && DataDone(op, operand, here, sp, old(r), old(mem[..]), r, mem[..]))
        && (!IsData(op) ==> FlowDone(op, operand, here, old(sp), old(r), old(mem[..]), mem[..], pc, sp, r))
    {
      hide Decode, SameBut, DataDone, FlowDone, ToU16;
      var op, mode := Decode(ir).op, Decode(ir).mode;
      KindOf(op);
      status := LoadOperand(mode);
      if IsData(op) {
        status := ExecData(op, status);
      } else {
        status := ExecFlow(op, status);
      }
    }

    method Fetch() returns (status: Status)
      modifies this`cycles, this`ab, this`pc, this`ir
      ensures status == Ok <==> old(pc) < mem.Length
      ensures status == Ok ==> ir == ToU8(mem[old(pc)]) && pc == ToU16(old(pc) + 1)
    {
      var opcode;
      opcode, status := ReadPc();
      if status != Ok {
        return status;
      }
      ir := ToU8(opcode);
      pc := ToU16(pc + 1);
    }

    /** One stage of the reset sequence. */
    method StartupStage() returns (status: Status)
      modifies this`cycles, this`ab, this`pc, this`ir, this`r, this`state
      ensures StageOf(old(state)) < 8 ==> status == Startup && state == NextStage(old(state))
      ensures StageOf(old(state)) == 8 ==> status == Ok && state == RUN
      ensures StageOf(old(state)) > 8 ==> status == Hang && state == HANG
      ensures StageOf(old(state)) == 7 ==> pc == ToU16(ByteAt(mem[..], RESET_VECTOR))
      ensures StageOf(old(state)) == 8 ==> pc == OrHigh(old(pc), ByteAt(mem[..], RESET_VECTOR + 1))
      ensures ResetTo(StageOf(old(state)), old(r), r)
    {
      hide NextStage, OrHigh, ToI8, ToU16, ByteAt;
      ByteIsRead(mem[..], RESET_VECTOR);
      ByteIsRead(mem[..], RESET_VECTOR + 1);
      var stage := StageOf(state);
      if stage <= 6 {
        var skipped, ok := ReadMem(if stage <= 2 then pc else if stage == 3 then 0xFFFF else 0x01FB - stage);
        if stage == 2 || stage >= 4 {
          pc := 0x00FF;
        }
        r := r.(a := -86, sr := 0x02);
        ir := 0x00;
        state := NextStage(state);
        return Startup;
      } else if stage == 7 {
        var low, ok := ReadMem(RESET_VECTOR);
        pc := ToU16(low);
        state := NextStage(state);
        return Startup;
      } else if stage == 8 {
        var high, ok := ReadMem(RESET_VECTOR + 1);
        pc := OrHigh(pc, high);
        state := RUN;
        return Ok;
      } else {
        state := HANG;
        return Hang;
      }
    }

    /**
     One step: a stage of the reset sequence, an instruction, or nothing. The cells are those that
     it may have changed: none but what a store points to, or what an instruction pushes to.
     */
    method Step() returns (status: Status, ghost cells: set<int>)
      modifies this, mem
      ensures SameBut(old(mem[..]), mem[..], cells) && MayChange(old(mem[..]), old(pc), old(sp), cells)
      ensures old(state) % 16 != RUN ==> mem[..] == old(mem[..])
      ensures old(state) % 16 == RESET ==> Advances(old(mem[..]), old(state), old(pc), status, state, pc)
      ensures old(state) % 16 == RESET ==> sp == old(sp) && ResetTo(StageOf(old(state)), old(r), r)
      ensures old(state) % 16 != RESET ==> state == old(state)
    {
      hide Decode, SameBut, MayChange, StageOf, NextStage, OrHigh, ByteAt, StackCells;
      cells := {};
      Unchanged(mem[..], {});
      MayChangeNothing(mem[..], pc, sp);
      if state % 16 == RESET {
        status := StartupStage();
      } else if state % 16 == RUN {
        status := Fetch();
        if status == Ok {
          ghost var op := Decode(ir).op;
          status := Exec();
          cells := if StoresOperand(op) then {operand} else StackCells(old(sp), Pushes(op));
          MayChangeThis(old(mem[..]), old(pc), old(sp), operand);
        }
      } else {
        status := if state % 16 == HANG then Hang else Invalid;
      }
    }

    /**
     A run of any length from a chip that was just initialised: nine stages of reset, and from then
     on it runs, whatever is in memory; it changes at most three bytes with every step.
     */
    method Run(ghost done: nat, steps: nat) returns (ghost cells: set<int>)
      requires state == Phase(done)
      modifies this, mem
      ensures state == Phase(done + steps) && state % 16 != HANG
      ensures SameBut(old(mem[..]), mem[..], cells) && |cells| <= 3 * steps
      ensures done + steps <= 9 ==> mem[..] == old(mem[..])
      ensures done == 0 < steps <= 9 ==> sp == old(sp) && ResetTo(0, old(r), r)
    {
      hide SameBut, MayChange, StageOf, NextStage, OrHigh, ByteAt;
      cells := {};
      Unchanged(mem[..], {});
      PhaseKind(done);
      for i := 0 to steps
        invariant state == Phase(done + i) && SameBut(old(mem[..]), mem[..], cells) && |cells| <= 3 * i
        invariant done + i <= 9 ==> mem[..] == old(mem[..])
        invariant done == 0 && i <= 9 ==> sp == old(sp) && if i == 0 then r == old(r) else ResetTo(0, old(r), r)
      {
        PhaseKind(done + i);
        ghost var between, before, here := mem[..], pc, sp;
        var status;
        ghost var more;
        status, more := Step();
        FewCells(between, before, here, more);
        SameTwice(old(mem[..]), between, mem[..], cells, more);
        UnionSize(cells, more);
        cells := cells + more;
      }
      PhaseKind(done + steps);
    }

    /** The reset sequence ends at the reset vector, read with the sign of its low byte. */
    method Boot()
      requires state == RESET
      modifies this, mem
      ensures state == RUN && mem[..] == old(mem[..])
      ensures pc == OrHigh(ToU16(ByteAt(mem[..], 0xFFFC)), ByteAt(mem[..], 0xFFFD))
      ensures 0xFFFD < mem.Length ==>
        (pc == WordAt(mem[..], 0xFFFC) <==> mem[0xFFFC] >= 0 || mem[0xFFFD] == -1)
      ensures sp == old(sp) && r == Regs(-86, old(r.x), old(r.y), 0x02)
    {
      hide SameBut, OrHigh, MayChange, StageOf, NextStage, Phase, ToU16, ToU8, ByteAt, WordAt;
      EntryOf(mem[..]);
      PhaseKind(0);
      ghost var cells := Run(0, 7);
      PhaseKind(7);
      PhaseKind(8);
      var status;
      status, cells := Step();
      status, cells := Step();
    }

    /** A pushed program counter comes back exactly when its low byte is below 0x80, or its high byte is 0xFF. */
    method PushPopPc()
      requires mem.Length >= 0x200
      modifies this, mem
      ensures sp == old(sp) && (pc == old(pc) <==> ComesBack(old(pc)))
    {
      hide ToU8, PcPushed, PcPulled;
      PcReturns(pc);
      var status := PushPc();
      PulledIsPushed(mem[..], old(sp), pc);
      status := PopPc();
    }

    /**
     JSR and RTS give the stack back, but never lead to where the program counter was, behind the
     operand of JSR, where the next instruction is: JSR pushes the address of the byte after that, to
     which RTS returns exactly when it comes back from the stack.
     */
    method CallAndReturn()
      requires mem.Length >= 0x200
      modifies this, mem
      ensures sp == old(sp) && r == old(r) && pc != old(pc)
      ensures pc == ToU16(old(pc) + 1) <==> ComesBack(ToU16(old(pc) + 1))
    {
      hide ToU8, ToU16, PcPushed, PcPulled, ComesBack;
      ReturnIsOff(pc);
      var status := ExecJsr();
      PulledIsPushed(mem[..], old(sp), ToU16(old(pc) + 1));
      status := ExecRts();
    }

    /** BRK and RTI give all registers back, and the program counter exactly when it comes back from the stack. */
    method InterruptAndReturn()
      requires mem.Length >= 0x200
      modifies this, mem
      ensures sp == old(sp) && r == old(r) && (pc == old(pc) <==> ComesBack(old(pc)))
    {
      hide ToU8, ToU16, PcPushed, PcPulled, WithBit;
      PcReturns(pc);
      Around(sp, -3, 1);
      Around(sp, -2, 2);
      Around(sp, -3, 3);
      var status := ExecBrk();
      PulledIsPushed(mem[..], old(sp), old(pc));
      status := ExecRti();
    }

    /** Any pushes and pops within the 256 bytes of the page work as a stack, wherever the pointer starts. */
    method RunStack(ops: seq<StackOp>, ghost depth: nat) returns (popped: seq<I8>)
      requires mem.Length >= 0x200 && Fits(ops, depth)
      modifies this, mem
      ensures popped == Popped(ops, old(View(mem[..], sp, depth)))
      ensures View(mem[..], sp, DepthAfter(ops, depth)) == StackAfter(ops, old(View(mem[..], sp, depth)))
    {
      hide View;
      popped := [];
      ghost var d, start := depth, View(mem[..], sp, depth);
      assert ops[0..] == ops;
      for i := 0 to |ops|
        invariant Fits(ops[i..], d) && DepthAfter(ops[i..], d) == DepthAfter(ops, depth)
        invariant popped + Popped(ops[i..], View(mem[..], sp, d)) == Popped(ops, start)
        invariant StackAfter(ops[i..], View(mem[..], sp, d)) == StackAfter(ops, start)
      {
        assert ops[i..][1..] == ops[i + 1..];
        match ops[i]
        case Push(v) => {
          PushView(mem[..], sp, v, d);
          var status := PushStack(v);
          d := d + 1;
        }
        case Pop => {
          PopView(mem[..], sp, d);
          var v, status := PopStack();
          popped := popped + [v];
          d := d - 1;
        }
      }
    }
  }

  /* The addresses of the addressing modes, as words of unsigned bytes. */

  function WordAt(m: Memory, i: nat): (w: int)
    requires i + 1 < |m|
    ensures 0 <= w < 0x1_0000
  {
    ToU8(m[i + 1]) * 0x100 + ToU8(m[i])
  }

  function ZeroPageWord(m: Memory, p: U8): int
    requires |m| >= 0x100
  {
    ToU8(m[ToU8(p as int + 1)]) * 0x100 + ToU8(m[p])
  }

  /** All the bytes that make an operand are in memory. */
  predicate Readable(mode: Mode, m: Memory, pc: U16, r: Regs) {
    pc as int + 2 < |m| <= 0x1_0000 && |m| >= 0x100 &&
    match mode
    case NoOperand => false
    case Implied => false
    case Indirect => WordAt(m, pc) + 1 < |m|
    case _ => true
  }

  /** The effective address of the 6502; the high byte of an indirect jump is read from the next address. */
  function Effective(mode: Mode, m: Memory, pc: U16, r: Regs): int
    requires Readable(mode, m, pc, r)
  {
    match mode
    case Immediate => pc
    case Absolute => WordAt(m, pc)
    case AbsoluteX => ToU16(WordAt(m, pc) + ToU8(r.x))
    case AbsoluteY => ToU16(WordAt(m, pc) + ToU8(r.y))
    case Indirect => WordAt(m, WordAt(m, pc))
    case IndirectX => ZeroPageWord(m, ToU8(ToU8(m[pc]) as int + ToU8(r.x)))
    case IndirectY => ToU16(ZeroPageWord(m, ToU8(m[pc])) + ToU8(r.y))
    case Relative => ToU16(pc as int + 1 + m[pc])
    case ZeroPage => ToU8(m[pc])
    case ZeroPageX => ToU8(ToU8(m[pc]) as int + ToU8(r.x))
    case ZeroPageY => ToU8(ToU8(m[pc]) as int + ToU8(r.y))
    case _ => 0
  }

  /**
   None of the bytes that the emulator extends with their sign when it should not has one; where a
   pointer has one, the byte that is not read happens to be 0.
   */
  predicate ComesOut(mode: Mode, m: Memory, pc: U16, r: Regs)
    requires Readable(mode, m, pc, r)
  {
    match mode
    case Absolute => m[pc] >= 0 && m[pc + 1] >= 0
    case AbsoluteX => m[pc] >= 0 && r.x >= 0
    case AbsoluteY => m[pc] >= 0 && r.y >= 0
    case Indirect => IndirectComesOut(m, pc)
    case IndirectX => m[ToU8(ToU8(m[pc]) as int + ToU8(r.x))] >= 0
    case IndirectY => IndirectYComesOut(m, pc, r.y)
    case ZeroPage => m[pc] >= 0
    case _ => true
  }

  predicate IndirectComesOut(m: Memory, pc: U16)
    requires pc as int + 2 < |m| && WordAt(m, pc) + 1 < |m|
  {
    if m[pc] >= 0 && m[pc + 1] >= 0 then m[WordAt(m, pc)] >= 0
    else m[WordAt(m, pc)] == 0 && m[WordAt(m, pc) + 1] == if m[pc] == -1 then m[0] else 0
  }

  predicate IndirectYComesOut(m: Memory, pc: U16, index: I8)
    requires pc as int + 2 < |m| && |m| >= 0x100
  {
    index >= 0 && if m[pc] >= 0 then m[ToU8(m[pc])] >= 0 else m[ToU8(m[pc])] == 0
  }

  /** The pointer that the emulator makes of two bytes. */
  lemma PointerWord(low: I8, high: I8)
    ensures low < 0 ==> OrWord(high, low) == low
    ensures low >= 0 && high < 0 ==> OrWord(high, low) < -1
  {
  }

  /** What comes out when the low byte is read as 0. */
  lemma PlainOther(low: I8, high: I8, high': I8)
    ensures ToU16(high' as int * 0x100) == ToU8(high) * 0x100 + ToU8(low) <==> low == 0 && high == high'
  {
    hide ToU8;
    Unsigned(low);
    Unsigned(high);
    Unsigned(high');
  }

  lemma IndexedOther(low: I8, high: I8, index: I8)
    ensures ToU16(high as int * 0x100 + index) == ToU16(ToU8(high) * 0x100 + ToU8(low) + ToU8(index)) <==>
      low == 0 && index >= 0
  {
    hide ToU8;
    Unsigned(low);
    Unsigned(high);
    Unsigned(index);
  }

  lemma NextPointer(p: I8)
    ensures ToU8(p as int + 1) == ToU8(ToU8(p) as int + 1)
  {
    ByteSum(p, 1);
  }

  lemma NextTwice(pc: U16)
    ensures ToU16(ToU16(pc as int + 1) as int + 1) == ToU16(pc as int + 2) && ToU16(pc) == pc
  {
  }

  lemma NextAddress(pc: U16, size: nat)
    ensures pc as int + 2 < size && pc as int + 1 < 0x1_0000 ==> ToU16(pc as int + 1) == pc as int + 1
  {
  }

  lemma AbsoluteRight(m: Memory, pc: U16)
    ensures pc as int + 1 < |m| ==>
      (OrWord(m[pc as int + 1], m[pc]) == WordAt(m, pc) <==> m[pc] >= 0 && m[pc as int + 1] >= 0)
  {
    if pc as int + 1 < |m| {
      WordRight(m[pc], m[pc as int + 1]);
    }
  }

  lemma WordRight(low: I8, high: I8)
    ensures OrWord(high, low) == ToU8(high) * 0x100 + ToU8(low) <==> low >= 0 && high >= 0
  {
    hide ToU8;
    Unsigned(low);
    Unsigned(high);
  }

  lemma PlainRight(low: I8, high: I8)
    ensures ToU16(high * 0x100 as int + low) == ToU8(high) * 0x100 + ToU8(low) <==> low >= 0
  {
    hide ToU8;
    Unsigned(low);
    Unsigned(high);
  }

  lemma IndexedRight(low: I8, high: I8, index: I8)
    ensures low >= 0 && index >= 0 <==>
      ToU16(high * 0x100 as int + (low as int + index)) == ToU16(ToU8(high) * 0x100 + ToU8(low) + ToU8(index))
  {
    hide ToU8;
    Unsigned(low);
    Unsigned(high);
    Unsigned(index);
  }

  lemma ByteSum(a: I8, b: I8)
    ensures ToU8(a as int + b) == ToU8(ToU8(a) as int + ToU8(b))
  {
    assert ToU8(a) == if a < 0 then a + 0x100 else a;
    assert ToU8(b) == if b < 0 then b + 0x100 else b;
  }

  datatype StackOp = Push(v: I8) | Pop

  predicate Fits(ops: seq<StackOp>, depth: int)
    decreases |ops|
  {
    0 <= depth <= 0x100 && (ops == [] || Fits(ops[1..], if ops[0].Push? then depth + 1 else depth - 1))
  }

  function DepthAfter(ops: seq<StackOp>, depth: int): (d: int)
    decreases |ops|
    ensures Fits(ops, depth) ==> 0 <= d <= 0x100
  {
    if ops == [] then depth else DepthAfter(ops[1..], if ops[0].Push? then depth + 1 else depth - 1)
  }

  /** What a stack of values yields to some pushes and pops. */
  function Popped(ops: seq<StackOp>, stack: seq<I8>): seq<I8>
    requires Fits(ops, |stack|)
    decreases |ops|
  {
    if ops == [] then []
    else match ops[0]
      case Push(v) => Popped(ops[1..], [v] + stack)
      case Pop => assert Fits(ops[1..], |stack| - 1); [stack[0]] + Popped(ops[1..], stack[1..])
  }

  function StackAfter(ops: seq<StackOp>, stack: seq<I8>): seq<I8>
    requires Fits(ops, |stack|)
    decreases |ops|
  {
    if ops == [] then stack
    else match ops[0]
      case Push(v) => StackAfter(ops[1..], [v] + stack)
      case Pop => assert Fits(ops[1..], |stack| - 1); StackAfter(ops[1..], stack[1..])
  }

  /** The bytes last pushed, the last one first. */
  function View(m: Memory, sp: U8, depth: int): (s: seq<I8>)
    requires |m| >= 0x200 && 0 <= depth <= 0x100
    ensures |s| == depth
  {
    seq(depth, k requires 0 <= k < depth => m[0x100 + ToU8(sp as int + 1 + k)])
  }

  lemma PushView(m: Memory, sp: U8, v: I8, depth: int)
    requires |m| >= 0x200 && 0 <= depth < 0x100
    ensures View(m[0x100 + sp := v], ToU8(sp as int - 1), depth + 1) == [v] + View(m, sp, depth)
  {
    var n := View(m[0x100 + sp := v], ToU8(sp as int - 1), depth + 1);
    forall k | 0 <= k <= depth ensures n[k] == ([v] + View(m, sp, depth))[k] {
      assert ToU8(ToU8(sp as int - 1) as int + 1 + k) == ToU8(sp as int + k);
      assert k > 0 ==> ToU8(sp as int + k) != sp;
    }
  }

  lemma PopView(m: Memory, sp: U8, depth: int)
    requires |m| >= 0x200 && 0 < depth <= 0x100
    ensures View(m, sp, depth)[0] == m[0x100 + ToU8(sp as int + 1)]
    ensures View(m, ToU8(sp as int + 1), depth - 1) == View(m, sp, depth)[1..]
  {
    forall k | 0 <= k < depth - 1 ensures View(m, ToU8(sp as int + 1), depth - 1)[k] == View(m, sp, depth)[1..][k] {
      assert ToU8(ToU8(sp as int + 1) as int + 1 + k) == ToU8(sp as int + 1 + (k + 1));
    }
  }

  lemma PulledIsPushed(m: Memory, sp: U8, pc: U16)
    requires |m| >= 0x200 && PcPushed(m, sp, pc)
    ensures PcPulled(m, ToU8(sp as int - 2)) == ToU16(OrWord(ToI8(pc / 0x100), ToI8(pc % 0x100)))
    ensures ToU8(ToU8(sp as int - 2) as int + 2) == sp
  {
    hide OrWord, ToI8, ToU16;
    assert ToU8(ToU8(sp as int - 2) as int + 1) == ToU8(sp as int - 1);
  }

  lemma PcReturns(pc: U16)
    ensures ToU16(OrWord(ToI8(pc / 0x100), ToI8(pc % 0x100))) == pc <==> ComesBack(pc)
  {
    var high: int, low: int := pc / 0x100, pc % 0x100;
    ByteBack(high);
    ByteBack(low);
    if low < 0x80 {
      assert ToU16(ToI8(high) * 0x100 + low) == pc;
    } else {
      assert ToU16(ToI8(low)) == 0xFF00 + low;
    }
  }

  /** The program counters that come back from the stack: without a sign in the low byte, or with the top page. */
  predicate ComesBack(pc: U16) {
    pc % 0x100 < 0x80 || pc / 0x100 == 0xFF
  }

  lemma ReturnIsOff(pc: U16)
    ensures var next := ToU16(pc as int + 1); var back := ToU16(OrWord(ToI8(next / 0x100), ToI8(next % 0x100)));
      back != pc && (back == next <==> ComesBack(next))
  {
    var next := ToU16(pc as int + 1);
    PcReturns(next);
    ByteBack(next % 0x100);
    if !ComesBack(next) {
      assert ToU16(ToI8(next % 0x100)) == 0xFF00 + next % 0x100;
    }
  }

  /** BRK jumps to the word of its vector exactly when the high byte there is the sign of the low byte. */
  lemma InterruptIsRight(m: Memory)
    requires |m| >= 0x1_0000
    ensures ToU16(ValueAt(m, 0xFFFE)) == WordAt(m, 0xFFFE) <==> m[0xFFFF] == if m[0xFFFE] < 0 then -1 else 0
  {
    Unsigned(m[0xFFFE]);
    Unsigned(m[0xFFFF]);
  }

  lemma ByteBack(b: int)
    requires 0 <= b < 0x100
    ensures ToI8(b) == if b < 0x80 then b else b - 0x100
  {
  }

  function ByteAt(m: Memory, i: nat): I8 {
    if i < |m| then m[i] else 0
  }

  lemma ByteIsRead(m: Memory, i: nat)
    ensures ByteAt(m, i) == if i < |m| then m[i] else 0
  {
  }

  /** A high byte or-ed into a word. */
  function OrHigh(pc: U16, high: I8): U16 {
    ToU16(Gated(OrGate, pc / 0x100, ToU8(high), 8) * 0x100 + pc % 0x100)
  }

  lemma {:induction false} OrZero(b: nat, n: nat, m: nat)
    requires b < m && m == Power(n)
    ensures Gated(OrGate, 0, b, n) == b
  {
    if n > 0 {
      OrZero(b / 2, n - 1, m / 2);
    }
  }

  lemma {:induction false} OrOnes(b: nat, n: nat, m: nat)
    requires m == Power(n)
    ensures m >= 1 && Gated(OrGate, m - 1, b, n) == m - 1
  {
    if n > 0 {
      OrOnes(b / 2, n - 1, m / 2);
      assert (m - 1) / 2 == m / 2 - 1;
    }
  }

  function Power(n: nat): nat {
    if n == 0 then 1 else 2 * Power(n - 1)
  }

  lemma OrHighCases(pc: U16, high: I8)
    ensures pc / 0x100 == 0 ==> OrHigh(pc, high) == ToU8(high) * 0x100 + pc
    ensures pc / 0x100 == 0xFF ==> OrHigh(pc, high) == pc
  {
    hide Gated;
    assert Power(8) == 256 by {
      assert Power(4) == 16;
    }
    OrZero(ToU8(high), 8, 256);
    OrOnes(ToU8(high), 8, 256);
  }

  /**
   The chip starts at the word of the reset vector exactly when its low byte is below 0x80 or its
   high byte is 0xFF.
   */
  lemma EntryIsVector(low: I8, high: I8)
    ensures OrHigh(ToU16(low), high) == ToU8(high) * 0x100 + ToU8(low) <==> low >= 0 || ToU8(high) == 0xFF
  {
    hide OrHigh;
    OrHighCases(ToU16(low), high);
    if low >= 0 {
      assert ToU16(low) == low && ToU8(low) == low;
    } else {
      assert ToU16(low) == 0xFF00 + ToU8(low);
    }
  }

  lemma EntryOf(m: Memory)
    ensures 0xFFFD < |m| ==>
      (OrHigh(ToU16(ByteAt(m, 0xFFFC)), ByteAt(m, 0xFFFD)) == WordAt(m, 0xFFFC) <==> m[0xFFFC] >= 0 || m[0xFFFD] == -1)
  {
    hide OrHigh;
    EntryIsVector(ByteAt(m, 0xFFFC), ByteAt(m, 0xFFFD));
  }

  /** The state of a chip that has made some steps since it was initialised. */
  function Phase(steps: nat): I8 {
    if steps < 9 then ToI8(16 * steps + RESET) else RUN
  }

  lemma PhaseKind(steps: nat)
    ensures if steps < 9 then Phase(steps) % 16 == RESET && StageOf(Phase(steps)) == steps else Phase(steps) == RUN
    ensures steps < 8 ==> NextStage(Phase(steps)) == Phase(steps + 1)
    ensures Phase(steps) % 16 != HANG && Phase(0) == RESET
  {
  }

  /** What a stage of the reset sequence makes of the state and the program counter. */
  ghost predicate Advances(m: Memory, state: I8, pc: U16, status: Status, state': I8, pc': U16) {
    && (StageOf(state) < 8 ==> status == Startup && state' == NextStage(state))
    && (StageOf(state) == 8 ==> status == Ok && state' == RUN)
    && (StageOf(state) > 8 ==> status == Hang && state' == HANG)
    && (StageOf(state) == 7 ==> pc' == ToU16(ByteAt(m, RESET_VECTOR)))
    && (StageOf(state) == 8 ==> pc' == OrHigh(pc, ByteAt(m, RESET_VECTOR + 1)))
  }

  /** A stage sets the accumulator to 0xAA and the status to 0x02; the last two stages leave them. */
  predicate ResetTo(stage: int, r: Regs, r': Regs) {
    r' == if stage <= 6 then Regs(-86, r.x, r.y, 0x02) else r
  }

  /** The cells that the instruction at the program counter may change. */
  ghost predicate MayChange(m: Memory, pc: U16, sp: U8, cells: set<int>) {
    cells == {} || (pc < |m| &&
      var op := Decode(ToU8(m[pc])).op;
      if StoresOperand(op) then |cells| <= 1 else cells == StackCells(sp, Pushes(op)))
  }

  lemma MayChangeNothing(m: Memory, pc: U16, sp: U8)
    ensures MayChange(m, pc, sp, {})
  {
  }

  lemma MayChangeThis(m: Memory, pc: U16, sp: U8, operand: int)
    requires pc < |m|
    ensures var op := Decode(ToU8(m[pc])).op;
      MayChange(m, pc, sp, if StoresOperand(op) then {operand} else StackCells(sp, Pushes(op)))
  {
    hide Decode;
  }

  lemma FewCells(m: Memory, pc: U16, sp: U8, cells: set<int>)
    requires MayChange(m, pc, sp, cells)
    ensures |cells| <= 3 && (|cells| > 1 ==> forall c :: c in cells ==> 0x100 <= c < 0x200)
  {
    hide Decode;
    if pc < |m| {
      StackCellsBound(sp, Pushes(Decode(ToU8(m[pc])).op));
    }
  }

  lemma SameTwice(m: Memory, n: Memory, o: Memory, c: set<int>, d: set<int>)
    requires SameBut(m, n, c) && SameBut(n, o, d)
    ensures SameBut(m, o, c + d)
  {
  }

  lemma UnionSize(c: set<int>, d: set<int>)
    ensures |c + d| <= |c| + |d|
  {
    assert c + d == c + (d - c);
  }

  lemma Unchanged(m: Memory, cells: set<int>)
    ensures SameBut(m, m, cells)
  {
  }

  lemma OneCell(m: Memory, sp: U8, v: I8)
    ensures SameBut(m, m, StackCells(sp, 1))
    ensures 0x100 + sp < |m| ==> SameBut(m, m[0x100 + sp := v], StackCells(sp, 1))
  {
    assert CellBelow(sp, 0) == 0x100 + sp;
  }

  /** One push after others. */
  lemma MoreCells(m: Memory, n: Memory, o: Memory, sp: U8, k: nat)
    requires SameBut(m, n, StackCells(sp, k)) && SameBut(n, o, StackCells(ToU8(sp as int - k), 1))
    ensures SameBut(m, o, StackCells(sp, k + 1))
  {
    assert StackCells(ToU8(sp as int - k), 1) == {CellBelow(sp, k)} by {
      assert StackCells(ToU8(sp as int - k), 0) == {};
    }
  }

  lemma Around(sp: U8, i: int, j: int)
    ensures ToU8(ToU8(sp as int + i) as int + j) == ToU8(sp as int + (i + j))
  {
  }

  lemma CellsApart(sp: U8)
    ensures CellBelow(sp, 0) == 0x100 + sp && CellBelow(sp, 0) != CellBelow(sp, 1)
    ensures CellBelow(sp, 2) != CellBelow(sp, 0) && CellBelow(sp, 2) != CellBelow(sp, 1)
  {
  }
}
