/** The source language: the Dis word moves, word arithmetic, word branches and jumps, as the interpreter
    executes them. */
module Dis {
  import opened Arm64

  /** An operand: a displacement from the frame or module pointer, an immediate, or a displacement from a
      pointer stored in the frame or module data.  A branch destination is an immediate that holds an
      instruction. */
  datatype Operand =
    | FP(ind: int)
    | MP(ind: int)
    | Imm(imm: int)
    | IndFP(f: nat, s: nat)
    | IndMP(f: nat, s: nat)
    | Target(ins: nat)
    | BadMode

  datatype Middle = NoMiddle | ImmMiddle(reg: nat) | FPMiddle(reg: nat) | MPMiddle(reg: nat)

  datatype Rel = EQW | NEW | LTW | LEW | GTW | GEW

  datatype Op = MovW | Arith(op: AluOp) | Branch(rel: Rel) | Jmp

  datatype Inst = Inst(op: Op, src: Operand, mid: Middle, dst: Operand)

  predicate IsWord(a: Operand) {
    match a
    case FP(ind) => -0x8000_0000 <= ind < 0x8000_0000
    case MP(ind) => -0x8000_0000 <= ind < 0x8000_0000
    case IndFP(f, s) => f < TWO16 && s < TWO16
    case IndMP(f, s) => f < TWO16 && s < TWO16
    case _ => false
  }

  predicate IsSource(a: Operand) {
    IsWord(a) || (a.Imm? && -0x8000_0000 <= a.imm < 0x8000_0000)
  }

  predicate IsMiddle(m: Middle) { m.NoMiddle? || m.reg < TWO16 }

  /** What the loader lets through for an instruction of a program of n instructions. */
  predicate Loadable(i: Inst, n: nat) {
    match i.op
    case MovW => IsSource(i.src) && IsWord(i.dst)
    case Arith(_) => IsSource(i.src) && IsMiddle(i.mid) && IsWord(i.dst)
    case Branch(_) => IsSource(i.src) && IsMiddle(i.mid) && !i.mid.NoMiddle? && i.dst.Target? && i.dst.ins < n
    case Jmp => i.dst.Target? && i.dst.ins < n
  }

  type Program = p: seq<Inst> | forall k :: 0 <= k < |p| ==> Loadable(p[k], |p|) witness []

  datatype DState = DState(fp: u64, mp: u64, mem: Mem, pc: nat)

  function Address(a: Operand, d: DState): u64 {
    match a
    case FP(ind) => Wrap(d.fp + ind)
    case MP(ind) => Wrap(d.mp + ind)
    case IndFP(f, s) => Wrap(Load64(d.mem, Wrap(d.fp + f)) + s)
    case IndMP(f, s) => Wrap(Load64(d.mem, Wrap(d.mp + f)) + s)
    case _ => 0
  }

  function Value(a: Operand, d: DState): u32 {
    if a.Imm? then a.imm % TWO32 else Load32(d.mem, Address(a, d))
  }

  /** The 16-bit middle immediate is signed. */
  function Short(reg: nat): int { if reg % TWO16 < 0x8000 then reg % TWO16 else reg % TWO16 - TWO16 }

  function MiddleValue(i: Inst, d: DState): u32 {
    match i.mid
    case NoMiddle => Load32(d.mem, Address(i.dst, d))
    case ImmMiddle(reg) => Short(reg) % TWO32
    case FPMiddle(reg) => Load32(d.mem, Wrap(d.fp + reg))
    case MPMiddle(reg) => Load32(d.mem, Wrap(d.mp + reg))
  }

  predicate Compare(r: Rel, a: u32, b: u32) {
    match r
    case EQW => a == b
    case NEW => a != b
    case LTW => Signed(a) < Signed(b)
    case LEW => Signed(a) <= Signed(b)
    case GTW => Signed(a) > Signed(b)
    case GEW => Signed(a) >= Signed(b)
  }

  /** One instruction of the interpreter. */
  function Execute(i: Inst, n: nat, d: DState): DState
    requires Loadable(i, n)
  {
    match i.op
    case MovW => d.(mem := Store32(d.mem, Address(i.dst, d), Value(i.src, d)), pc := d.pc + 1)
    case Arith(op) =>
      d.(mem := Store32(d.mem, Address(i.dst, d), Alu(op, MiddleValue(i, d), Value(i.src, d))), pc := d.pc + 1)
    case Branch(rel) => d.(pc := if Compare(rel, Value(i.src, d), MiddleValue(i, d)) then i.dst.ins else d.pc + 1)
    case Jmp => d.(pc := i.dst.ins)
  }

  /** Only a destination at or before the instruction itself is a backward branch. */
  predicate Backward(i: Inst, k: nat) {
    (i.op.Branch? || i.op.Jmp?) && i.dst.Target? && i.dst.ins <= k
  }

  // ----- what an instruction touches

  const REGSIZE := 112

  /** The n bytes at a lie outside the virtual machine's register structure at r. */
  predicate Apart(r: u64, a: int, n: nat) { a + n <= r || r + REGSIZE <= a }

  predicate OperandApart(r: u64, a: Operand, d: DState) {
    match a
    case IndFP(f, s) => Apart(r, Wrap(d.fp + f), 8) && Apart(r, Address(a, d), 4)
    case IndMP(f, s) => Apart(r, Wrap(d.mp + f), 8) && Apart(r, Address(a, d), 4)
    case FP(_) => Apart(r, Address(a, d), 4)
    case MP(_) => Apart(r, Address(a, d), 4)
    case _ => true
  }

  predicate MiddleApart(r: u64, m: Middle, d: DState) {
    match m
    case FPMiddle(reg) => Apart(r, Wrap(d.fp + reg), 4)
    case MPMiddle(reg) => Apart(r, Wrap(d.mp + reg), 4)
    case _ => true
  }

  /** The instruction stays off the virtual machine's own registers. */
  predicate Polite(r: u64, i: Inst, d: DState) {
    OperandApart(r, i.src, d) && MiddleApart(r, i.mid, d) && OperandApart(r, i.dst, d)
  }
}
