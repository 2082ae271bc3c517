/**
  The target machine: the A64 instructions the code generator uses for the word subset, over 64-bit
  registers, the condition flags and byte-addressed memory.
 */
module Arm64 {
  import opened Basics

  const TWO16 := 0x1_0000
  const TWO32 := 0x1_0000_0000
  const TWO64 := 0x1_0000_0000_0000_0000

  type u32 = w: int | 0 <= w < 0x1_0000_0000
  type u64 = w: int | 0 <= w < 0x1_0000_0000_0000_0000

  // ----- memory

  type Mem = int -> byte

  /** An address or register value modulo 2^64. */
  function Wrap(a: int): u64
    decreases if a < 0 then TWO64 - a else a
  {
    if a < 0 then Wrap(a + TWO64) else if a < TWO64 then a else Wrap(a - TWO64)
  }

  lemma {:induction false} WrapIsModulo(a: int)
    ensures Wrap(a) == a % TWO64
    decreases if a < 0 then TWO64 - a else a
  {
    if a < 0 {
      WrapIsModulo(a + TWO64);
    } else if a >= TWO64 {
      WrapIsModulo(a - TWO64);
    }
  }

  /** The address of instruction pc. */
  function Link(base: u64, pc: int): u64 { Wrap(base + 4 * pc) }

  function Low(v: u64): u32 { v % TWO32 }

  function Signed(w: u32): int { if w < 0x8000_0000 then w else w - TWO32 }

  function LittleEndian(b: seq<byte>): nat
    decreases |b|
  {
    if b == [] then 0 else b[0] + 256 * LittleEndian(b[1..])
  }

  function ToBytes(w: nat, n: nat): (b: seq<byte>)
    ensures |b| == n
  {
    if n == 0 then [] else [w % 256] + ToBytes(w / 256, n - 1)
  }

  function Bytes(m: Mem, a: int, n: nat): (b: seq<byte>)
    ensures |b| == n && forall i :: 0 <= i < n ==> b[i] == m(a + i)
  {
    seq(n, i => m(a + i))
  }

  lemma {:induction false} LittleEndianBound(b: seq<byte>)
    ensures LittleEndian(b) < Pow256(|b|)
    decreases |b|
  {
    if b != [] {
      LittleEndianBound(b[1..]);
    }
  }

  function Pow256(n: nat): nat { if n == 0 then 1 else 256 * Pow256(n - 1) }

  lemma Powers()
    ensures Pow256(4) == TWO32 && Pow256(8) == TWO64
  {
    assert Pow256(4) == TWO32;
  }

  function Load32(m: Mem, a: int): u32 {
    LittleEndianBound(Bytes(m, a, 4));
    Powers();
    LittleEndian(Bytes(m, a, 4))
  }

  function Load64(m: Mem, a: int): u64 {
    LittleEndianBound(Bytes(m, a, 8));
    Powers();
    LittleEndian(Bytes(m, a, 8))
  }

  function Overlay(m: Mem, a: int, b: seq<byte>): Mem {
    x => if a <= x < a + |b| then b[x - a] else m(x)
  }

  function Store32(m: Mem, a: int, w: u32): Mem { Overlay(m, a, ToBytes(w, 4)) }

  function Store64(m: Mem, a: int, v: u64): Mem { Overlay(m, a, ToBytes(v, 8)) }

  lemma {:induction false} FromBytes(w: nat, n: nat)
    requires w < Pow256(n)
    ensures LittleEndian(ToBytes(w, n)) == w
    decreases n
  {
    if n > 0 {
      FromBytes(w / 256, n - 1);
      assert ToBytes(w, n)[1..] == ToBytes(w / 256, n - 1);
    }
  }

  lemma BytesStored(m: Mem, a: int, b: seq<byte>)
    ensures Bytes(Overlay(m, a, b), a, |b|) == b
  {
    forall i | 0 <= i < |b| ensures Bytes(Overlay(m, a, b), a, |b|)[i] == b[i] {
      assert Overlay(m, a, b)(a + i) == b[a + i - a];
    }
  }

  lemma LoadStored32(m: Mem, a: int, w: u32)
    ensures Load32(Store32(m, a, w), a) == w
  {
    BytesStored(m, a, ToBytes(w, 4));
    Powers();
    FromBytes(w, 4);
  }

  lemma LoadStored64(m: Mem, a: int, v: u64)
    ensures Load64(Store64(m, a, v), a) == v
  {
    BytesStored(m, a, ToBytes(v, 8));
    Powers();
    FromBytes(v, 8);
  }

  lemma LoadOther(m: Mem, a: int, b: seq<byte>, c: int, n: nat)
    requires c + n <= a || a + |b| <= c
    ensures Bytes(Overlay(m, a, b), c, n) == Bytes(m, c, n)
  {
  }

  // ----- instructions

  datatype AluOp = Add | Sub | And | Or | Xor | Mul

  function Alu(op: AluOp, a: u32, b: u32): u32 {
    match op
    case Add => (a + b) % TWO32
    case Sub => (a - b) % TWO32
    case Mul => (a * b) % TWO32
    case And => AndW(a, b)
    case Or => OrW(a, b)
    case Xor => XorW(a, b)
  }

  function AndW(a: u32, b: u32): u32 { ((a as bv32) & (b as bv32)) as int }

  function OrW(a: u32, b: u32): u32 { ((a as bv32) | (b as bv32)) as int }

  function XorW(a: u32, b: u32): u32 { ((a as bv32) ^ (b as bv32)) as int }

  datatype Width = W | X

  datatype Instr =
    | MovZ(rd: nat, imm: nat, sh: nat)
    | MovK(rd: nat, imm: nat, sh: nat)
    | AddI(rd: nat, rn: nat, imm: nat)
    | SubI(rd: nat, rn: nat, imm: nat)
    | SubsIW(rd: nat, rn: nat, imm: nat)
    | AddX(rd: nat, rn: nat, rm: nat)
    | AluW(op: AluOp, rd: nat, rn: nat, rm: nat)
    | CmpW(rn: nat, rm: nat)
    | Ldr(w: Width, rt: nat, rn: nat, off: int)     // scaled unsigned offset
    | Str(w: Width, rt: nat, rn: nat, off: int)
    | Ldur(w: Width, rt: nat, rn: nat, off: int)    // 9-bit signed offset
    | Stur(w: Width, rt: nat, rn: nat, off: int)
    | LdrR(w: Width, rt: nat, rn: nat, rm: nat)     // register offset
    | StrR(w: Width, rt: nat, rn: nat, rm: nat)
    | SavePair(t1: nat, t2: nat, slot: nat)         // stp to the C stack frame
    | RestorePair(t1: nat, t2: nat, slot: nat)      // ldp from the C stack frame
    | B(rel: int)                                   // branch offsets count instructions
    | BCond(cc: nat, rel: int)
    | BL(rel: int)
    | RET(rn: nat)

  /** The operand fields of the encodings are wide enough. */
  predicate Encodable(i: Instr) {
    match i
    case MovZ(_, imm, sh) => imm < TWO16 && sh in {0, 16, 32, 48}
    case MovK(_, imm, sh) => imm < TWO16 && sh in {0, 16, 32, 48}
    case AddI(_, _, imm) => 0 <= imm < 4096
    case SubI(_, _, imm) => 0 <= imm < 4096
    case SubsIW(_, _, imm) => imm < 4096
    case Ldr(w, _, _, off) => Scaled(w, off)
    case Str(w, _, _, off) => Scaled(w, off)
    case Ldur(_, _, _, off) => -256 <= off < 256
    case Stur(_, _, _, off) => -256 <= off < 256
    case B(rel) => -0x200_0000 <= rel < 0x200_0000
    case BL(rel) => -0x200_0000 <= rel < 0x200_0000
    case BCond(_, rel) => -0x4_0000 <= rel < 0x4_0000
    case _ => true
  }

  predicate Scaled(w: Width, off: int) {
    match w
    case W => 0 <= off && off % 4 == 0 && off / 4 < 4096
    case X => 0 <= off && off % 8 == 0 && off / 8 < 4096
  }

  // ----- condition codes

  const EQ := 0
  const NE := 1
  const GE := 10
  const LT := 11
  const GT := 12
  const LE := 13
  const AL := 14

  /** cc ^ 1 */
  function Invert(cc: nat): nat { if cc % 2 == 0 then cc + 1 else cc - 1 }

  datatype Flags = Flags(n: bool, z: bool, v: bool)

  predicate Holds(cc: nat, f: Flags) {
    if cc == EQ then f.z
    else if cc == NE then !f.z
    else if cc == GE then f.n == f.v
    else if cc == LT then f.n != f.v
    else if cc == GT then !f.z && f.n == f.v
    else if cc == LE then f.z || f.n != f.v
    else true
  }

  /** The flags of the 32-bit subtraction a - b. */
  function SubFlags(a: u32, b: u32): Flags {
    var r: u32 := (a - b) % TWO32;
    Flags(Signed(r) < 0, r == 0, Signed(a) - Signed(b) != Signed(r))
  }

  /** After a compare the condition codes order the operands as signed words. */
  lemma CompareMeans(a: u32, b: u32)
    ensures Holds(EQ, SubFlags(a, b)) <==> a == b
    ensures Holds(NE, SubFlags(a, b)) <==> a != b
    ensures Holds(LT, SubFlags(a, b)) <==> Signed(a) < Signed(b)
    ensures Holds(LE, SubFlags(a, b)) <==> Signed(a) <= Signed(b)
    ensures Holds(GT, SubFlags(a, b)) <==> Signed(a) > Signed(b)
    ensures Holds(GE, SubFlags(a, b)) <==> Signed(a) >= Signed(b)
  {
    var r: u32 := (a - b) % TWO32;
    assert r == if a < b then a - b + TWO32 else a - b;
  }

  // ----- execution

  const ZR := 31

  type Regs = x: seq<u64> | |x| == 32 witness seq(32, _ => 0)
  type Frame = x: seq<u64> | |x| == 4 witness [0, 0, 0, 0]

  datatype State = State(x: Regs, flags: Flags, mem: Mem, pc: int, frame: Frame)

  function Reg(s: State, r: nat): u64 { if r < ZR then s.x[r] else 0 }

  function Set(s: State, r: nat, v: u64): State {
    if r < ZR then s.(x := s.x[r := v], pc := s.pc + 1) else s.(pc := s.pc + 1)
  }

  function Load(w: Width, m: Mem, a: int): u64 {
    match w
    case W => Load32(m, a)
    case X => Load64(m, a)
  }

  function Store(w: Width, m: Mem, a: int, v: u64): Mem {
    match w
    case W => Store32(m, a, Low(v))
    case X => Store64(m, a, v)
  }

  function Pow(sh: nat): nat {
    if sh == 0 then 1 else if sh == 16 then TWO16 else if sh == 32 then TWO32 else 0x1_0000_0000_0000
  }

  /** `base` is the address of the first instruction. */
  function Step(base: u64, i: Instr, s: State): State {
    match i
    case MovZ(rd, imm, sh) => Set(s, rd, Wrap(imm * Pow(sh)))
    case MovK(rd, imm, sh) =>
      var v := Reg(s, rd);
      Set(s, rd, Wrap(v - (v / Pow(sh) % TWO16) * Pow(sh) + imm * Pow(sh)))
    case AddI(rd, rn, imm) => Set(s, rd, Wrap(Reg(s, rn) + imm))
    case SubI(rd, rn, imm) => Set(s, rd, Wrap(Reg(s, rn) - imm))
    case SubsIW(rd, rn, imm) =>
      Set(s, rd, (Low(Reg(s, rn)) - imm) % TWO32).(flags := SubFlags(Low(Reg(s, rn)), imm % TWO32))
    case AddX(rd, rn, rm) => Set(s, rd, Wrap(Reg(s, rn) + Reg(s, rm)))
    case AluW(op, rd, rn, rm) => Set(s, rd, Alu(op, Low(Reg(s, rn)), Low(Reg(s, rm))))
    case CmpW(rn, rm) => s.(flags := SubFlags(Low(Reg(s, rn)), Low(Reg(s, rm))), pc := s.pc + 1)
    case Ldr(w, rt, rn, off) => Set(s, rt, Load(w, s.mem, Wrap(Reg(s, rn) + off)))
    case Ldur(w, rt, rn, off) => Set(s, rt, Load(w, s.mem, Wrap(Reg(s, rn) + off)))
    case LdrR(w, rt, rn, rm) => Set(s, rt, Load(w, s.mem, Wrap(Reg(s, rn) + Reg(s, rm))))
    case Str(w, rt, rn, off) => s.(mem := Store(w, s.mem, Wrap(Reg(s, rn) + off), Reg(s, rt)), pc := s.pc + 1)
    case Stur(w, rt, rn, off) => s.(mem := Store(w, s.mem, Wrap(Reg(s, rn) + off), Reg(s, rt)), pc := s.pc + 1)
    case StrR(w, rt, rn, rm) =>
      s.(mem := Store(w, s.mem, Wrap(Reg(s, rn) + Reg(s, rm)), Reg(s, rt)), pc := s.pc + 1)
    case SavePair(t1, t2, slot) =>
      if slot <= 2 then s.(frame := s.frame[slot := Reg(s, t1)][slot + 1 := Reg(s, t2)], pc := s.pc + 1)
      else s.(pc := s.pc + 1)
    case RestorePair(t1, t2, slot) =>
      if slot <= 2 then Set(Set(s, t1, s.frame[slot]), t2, s.frame[slot + 1]).(pc := s.pc + 1)
      else s.(pc := s.pc + 1)
    case B(rel) => s.(pc := s.pc + rel)
    case BCond(cc, rel) => s.(pc := if Holds(cc, s.flags) then s.pc + rel else s.pc + 1)
    case BL(rel) => Set(s, 30, Link(base, s.pc + 1)).(pc := s.pc + rel)
    case RET(rn) => s.(pc := -1)     // out of the code, to the address in rn
  }

  /** The states a machine passes through while it is inside the code. */
  ghost predicate Walk(base: u64, code: seq<Instr>, ss: seq<State>) {
    |ss| > 0 && forall k {:trigger ss[k + 1]} :: 0 <= k < |ss| - 1 ==>
      0 <= ss[k].pc < |code| && ss[k + 1] == Step(base, code[ss[k].pc], ss[k])
  }

  /** Running the code from s passes through t. */
  ghost predicate Reaches(base: u64, code: seq<Instr>, s: State, t: State) {
    exists ss: seq<State> {:trigger Walk(base, code, ss)} :: Walk(base, code, ss) && ss[0] == s && ss[|ss| - 1] == t
  }

  lemma ReachesSelf(base: u64, code: seq<Instr>, s: State)
    ensures Reaches(base, code, s, s)
  {
    assert Walk(base, code, [s]);
  }

  lemma ReachesStep(base: u64, code: seq<Instr>, s: State)
    requires 0 <= s.pc < |code|
    ensures Reaches(base, code, s, Step(base, code[s.pc], s))
  {
    var ss := [s, Step(base, code[s.pc], s)];
    forall k {:trigger ss[k]} | 0 <= k < |ss| - 1
      ensures 0 <= ss[k].pc < |code| && ss[k + 1] == Step(base, code[ss[k].pc], ss[k])
    {
      assert k == 0;
    }
    assert Walk(base, code, ss);
  }

  lemma ReachesOn(base: u64, code: seq<Instr>, s: State, t: State, u: State)
    requires Reaches(base, code, s, t) && Reaches(base, code, t, u)
    ensures Reaches(base, code, s, u)
  {
    var sa: seq<State> :| Walk(base, code, sa) && sa[0] == s && sa[|sa| - 1] == t;
    var sb: seq<State> :| Walk(base, code, sb) && sb[0] == t && sb[|sb| - 1] == u;
    var ss := sa + sb[1..];
    forall k {:trigger ss[k]} | 0 <= k < |ss| - 1
      ensures 0 <= ss[k].pc < |code| && ss[k + 1] == Step(base, code[ss[k].pc], ss[k])
    {
      if k < |sa| - 1 {
        assert ss[k] == sa[k] && ss[k + 1] == sa[k + 1];
      } else {
        var j := k - (|sa| - 1);
        assert ss[k] == sb[j] && ss[k + 1] == sb[j + 1];
      }
    }
    assert Walk(base, code, ss);
  }

  predicate Straight(i: Instr) { !i.B? && !i.BCond? && !i.BL? && !i.RET? }

  ghost predicate Trace(c: seq<Instr>, ss: seq<State>)
    requires |ss| == |c| + 1
  {
    forall k {:trigger c[k]} :: 0 <= k < |c| ==> Straight(c[k]) && ss[k + 1] == Step(0, c[k], ss[k])
  }

  /** Running the straight-line code c from s ends in t. */
  ghost predicate Exec(c: seq<Instr>, s: State, t: State) {
    exists ss: seq<State> {:trigger Trace(c, ss)} ::
      |ss| == |c| + 1 && ss[0] == s && ss[|c|] == t && Trace(c, ss)
  }

  lemma ExecNone(s: State)
    ensures Exec([], s, s)
  {
    assert Trace([], [s]);
  }

  lemma ExecOne(i: Instr, s: State)
    requires Straight(i)
    ensures Exec([i], s, Step(0, i, s))
  {
    assert Trace([i], [s, Step(0, i, s)]);
  }

  lemma ExecAppend(a: seq<Instr>, b: seq<Instr>, s: State, t: State, u: State)
    requires Exec(a, s, t) && Exec(b, t, u)
    ensures Exec(a + b, s, u)
  {
    var sa: seq<State> :| |sa| == |a| + 1 && sa[0] == s && sa[|a|] == t && Trace(a, sa);
    var sb: seq<State> :| |sb| == |b| + 1 && sb[0] == t && sb[|b|] == u && Trace(b, sb);
    var ss := sa + sb[1..];
    var c := a + b;
    forall k {:trigger c[k]} | 0 <= k < |c| ensures Straight(c[k]) && ss[k + 1] == Step(0, c[k], ss[k]) {
      if k < |a| { assert c[k] == a[k]; } else { assert c[k] == b[k - |a|]; }
    }
    assert Trace(c, ss);
  }

  predicate CodeAt(code: seq<Instr>, pos: int, c: seq<Instr>) {
    0 <= pos && pos + |c| <= |code| && code[pos..pos + |c|] == c
  }

  lemma CodeAtSplit(code: seq<Instr>, pos: int, a: seq<Instr>, b: seq<Instr>)
    requires CodeAt(code, pos, a + b)
    ensures CodeAt(code, pos, a) && CodeAt(code, pos + |a|, b)
  {
    var c := code[pos..pos + |a + b|];
    assert code[pos..pos + |a|] == c[..|a|] == a;
    assert code[pos + |a|..pos + |a| + |b|] == c[|a|..] == b;
  }

  lemma StepStraight(base: u64, i: Instr, s: State)
    requires Straight(i)
    ensures Step(base, i, s) == Step(0, i, s) && Step(0, i, s).pc == s.pc + 1
  {
  }

  /** The machine runs straight-line code where it finds it. */
  lemma ReachesExec(base: u64, code: seq<Instr>, c: seq<Instr>, s: State, t: State)
    requires Exec(c, s, t) && CodeAt(code, s.pc, c)
    ensures Reaches(base, code, s, t) && t.pc == s.pc + |c|
  {
    var ss: seq<State> :| |ss| == |c| + 1 && ss[0] == s && ss[|c|] == t && Trace(c, ss);
    TraceWalks(base, code, c, ss, |c|);
    assert ss[..|c| + 1] == ss;
  }

  lemma {:induction false} TraceWalks(base: u64, code: seq<Instr>, c: seq<Instr>, ss: seq<State>, n: nat)
    requires |ss| == |c| + 1 && Trace(c, ss) && CodeAt(code, ss[0].pc, c) && n <= |c|
    ensures Walk(base, code, ss[..n + 1]) && ss[n].pc == ss[0].pc + n
    decreases n
  {
    if n > 0 {
      TraceWalks(base, code, c, ss, n - 1);
      var w, s := ss[..n + 1], ss[n - 1];
      assert code[s.pc] == code[ss[0].pc..ss[0].pc + |c|][n - 1] == c[n - 1];
      StepStraight(base, c[n - 1], s);
      assert ss[n] == Step(0, c[n - 1], s);
      forall k {:trigger w[k]} | 0 <= k < |w| - 1
        ensures 0 <= w[k].pc < |code| && w[k + 1] == Step(base, code[w[k].pc], w[k])
      {
        if k < n - 1 {
          assert w[k] == ss[..n][k] && w[k + 1] == ss[..n][k + 1];
        } else {
          assert w[k] == s && w[k + 1] == ss[n - 1 + 1];
        }
      }
      assert Walk(base, code, w);
    }
  }
}
