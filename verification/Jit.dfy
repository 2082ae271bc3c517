/** The code generator: each Dis instruction becomes a run of A64 instructions. */
module Jit {
  import opened Basics
  import opened Arm64
  import opened Dis

  const RA0 := 0
  const RA1 := 1
  const RCON := 4
  const RTA := 5
  const RIP := 16
  const RREG := 19
  const RFP := 20
  const RMP := 21
  const RLR2 := 24
  const RLINK := 30

  // byte offsets in the virtual machine's register structure
  const O_PC := 0
  const O_MP := 8
  const O_FP := 16
  const O_IC := 56
  const O_XPC := 64
  const O_ST := 100
  const O_DT := 104

  datatype MemOp = Lea | Ldw | Stw | Ldp | Stp

  /** A full 64-bit constant, always four instructions. */
  function Con(o: u64, r: nat): (c: seq<Instr>)
    ensures |c| == 4
  {
    [MovZ(r, o % TWO16, 0), MovK(r, o / TWO16 % TWO16, 16),
     MovK(r, o / TWO32 % TWO16, 32), MovK(r, o / 0x1_0000_0000_0000 % TWO16, 48)]
  }

  function EmitMem(mi: MemOp, disp: int, rm: nat, r: nat): seq<Instr> {
    match mi
    case Lea =>
      if disp == 0 then (if rm != r then [AddI(r, rm, 0)] else [])
      else if 0 < disp < 4096 then [AddI(r, rm, disp)]
      else if disp < 0 && -disp < 4096 then [SubI(r, rm, -disp)]
      else Con(Wrap(disp), RCON) + [AddX(r, rm, RCON)]
    case Ldw => EmitLoad(W, disp, rm, r)
    case Stw => EmitStore(W, disp, rm, r)
    case Ldp => EmitLoad(X, disp, rm, r)
    case Stp => EmitStore(X, disp, rm, r)
  }

  function EmitLoad(w: Width, disp: int, rm: nat, r: nat): seq<Instr> {
    if Scaled(w, disp) then [Ldr(w, r, rm, disp)]
    else if -256 <= disp < 256 then [Ldur(w, r, rm, disp)]
    else Con(Wrap(disp), RCON) + [LdrR(w, r, rm, RCON)]
  }

  function EmitStore(w: Width, disp: int, rm: nat, r: nat): seq<Instr> {
    if Scaled(w, disp) then [Str(w, r, rm, disp)]
    else if -256 <= disp < 256 then [Stur(w, r, rm, disp)]
    else Con(Wrap(disp), RCON) + [StrR(w, r, rm, RCON)]
  }

  /** Performs `mi` on an operand.  An immediate whose address is wanted is first put in the slot li. */
  function Opx(a: Operand, mi: MemOp, r: nat, li: nat): seq<Instr> {
    match a
    case FP(ind) => EmitMem(mi, ind, RFP, r)
    case MP(ind) => EmitMem(mi, ind, RMP, r)
    case Imm(imm) =>
      Con(Wrap(imm), r) + if mi == Lea then EmitMem(Stw, li, RREG, r) + EmitMem(Lea, li, RREG, r) else []
    case IndFP(f, s) => Indirect(RFP, f, s, mi, r)
    case IndMP(f, s) => Indirect(RMP, f, s, mi, r)
    case Target(_) => []
    case BadMode => []
  }

  function Indirect(ir: nat, f: nat, s: nat, mi: MemOp, r: nat): seq<Instr> {
    var rta := if mi == Lea then r else RTA;
    EmitMem(Ldp, f, ir, rta) + EmitMem(mi, s, rta, r)
  }

  function Mid(i: Inst, mi: MemOp, r: nat): seq<Instr> {
    match i.mid
    case NoMiddle => Opx(i.dst, mi, r, O_DT)
    case ImmMiddle(reg) => Con(Wrap(Short(reg)), r)
    case FPMiddle(reg) => EmitMem(mi, reg, RFP, r)
    case MPMiddle(reg) => EmitMem(mi, reg, RMP, r)
  }

  function CondCode(rel: Rel): nat {
    match rel
    case EQW => EQ
    case NEW => NE
    case LTW => LT
    case LEW => LE
    case GTW => GT
    case GEW => GE
  }

  /** Counts down and, at zero, calls the macro at relq. */
  function SchedCheck(i: Inst, k: nat, relq: int, pos: int): seq<Instr> {
    if !Backward(i, k) then []
    else
      EmitMem(Ldw, O_IC, RREG, RA0) + [SubsIW(RA0, RA0, 1)] + EmitMem(Stw, O_IC, RREG, RA0) +
      [BCond(Invert(LE), 2), BL(relq - (pos + 4))]
  }

  function Bradis(cc: nat, target: int, pos: int): seq<Instr> {
    [if cc == AL then B(target - pos) else BCond(cc, target - pos)]
  }

  function CompareCode(i: Inst): seq<Instr> {
    Opx(i.src, Ldw, RA0, O_ST) + Mid(i, Ldw, RA1) + [CmpW(RA0, RA1)]
  }

  function ArithCode(i: Inst, op: AluOp): seq<Instr> {
    Mid(i, Ldw, RA1) + Opx(i.src, Ldw, RA0, O_ST) + [AluW(op, RA0, RA1, RA0)] + Opx(i.dst, Stw, RA0, O_DT)
  }

  /** The code of instruction k, emitted at pos.  `patch` says where the code of each instruction is, as
      far as the pass knows. */
  function Comp(i: Inst, k: nat, patch: seq<int>, relq: int, pos: int): seq<Instr> {
    match i.op
    case MovW => Opx(i.src, Ldw, RA0, O_ST) + Opx(i.dst, Stw, RA0, O_DT)
    case Arith(op) => ArithCode(i, op)
    case Branch(rel) =>
      var pre := SchedCheck(i, k, relq, pos) + CompareCode(i);
      pre + Bradis(CondCode(rel), Dest(i, patch), pos + |pre|)
    case Jmp =>
      var pre := SchedCheck(i, k, relq, pos);
      pre + Bradis(AL, Dest(i, patch), pos + |pre|)
  }

  function Dest(i: Inst, patch: seq<int>): int {
    if i.dst.Target? && i.dst.ins < |patch| then patch[i.dst.ins] else 0
  }

  /** The macro that gives the processor back: frame and resume address go to the virtual machine's
      registers, the registers comvec saved come back, and control returns to the scheduler. */
  function RelQ(): seq<Instr> {
    EmitMem(Stp, O_FP, RREG, RFP) + EmitMem(Stp, O_PC, RREG, RLINK) +
    EmitMem(Ldp, O_XPC, RREG, RLINK) + [RestorePair(RMP, RLR2, 2), RestorePair(RREG, RFP, 0), RET(RLINK)]
  }

  /** The module entry stub: saves the caller's registers, loads the virtual machine's, and ends with the
      resume address in RIP, to which it branches. */
  function Preamble(r: u64): seq<Instr> {
    [SavePair(RREG, RFP, 0), SavePair(RMP, RLR2, 2)] + Con(r, RREG) +
    EmitMem(Stp, O_XPC, RREG, RLINK) + EmitMem(Ldp, O_FP, RREG, RFP) +
    EmitMem(Ldp, O_MP, RREG, RMP) + EmitMem(Ldp, O_PC, RREG, RIP)
  }

  // ----- both passes agree on lengths

  lemma SameLength(i: Inst, k: nat, patch: seq<int>, relq: int, pos: int, patch': seq<int>, relq': int, pos': int)
    ensures |Comp(i, k, patch, relq, pos)| == |Comp(i, k, patch', relq', pos')|
  {
  }

  /** How long the code of each of the first n instructions is. */
  function Lengths(prog: seq<Inst>, n: nat): (t: seq<nat>)
    requires n <= |prog|
    ensures |t| == n
  {
    if n == 0 then [] else Lengths(prog, n - 1) + [|Comp(prog[n - 1], n - 1, [], 0, 0)|]
  }

  lemma {:induction false} LengthsAt(prog: seq<Inst>, n: nat, k: nat)
    requires k < n <= |prog|
    ensures Lengths(prog, n)[k] == |Comp(prog[k], k, [], 0, 0)|
    decreases n
  {
    if k < n - 1 {
      LengthsAt(prog, n - 1, k);
    }
  }

  function Sum(t: seq<nat>, k: nat): nat
    requires k <= |t|
  {
    if k == 0 then 0 else Sum(t, k - 1) + t[k - 1]
  }

  /** Where the code of instruction k starts. */
  function Offset(prog: seq<Inst>, k: nat): nat
    requires k <= |prog|
  {
    Sum(Lengths(prog, |prog|), k)
  }

  function Patch(prog: seq<Inst>): (p: seq<int>)
    ensures |p| == |prog| && forall k {:trigger p[k]} :: 0 <= k < |prog| ==> p[k] == Offset(prog, k)
  {
    seq(|prog|, k requires 0 <= k < |prog| => Offset(prog, k))
  }

  /** The code of instruction k in the finished module. */
  function Final(prog: seq<Inst>, k: nat): seq<Instr>
    requires k < |prog|
  {
    Comp(prog[k], k, Patch(prog), Offset(prog, |prog|), Offset(prog, k))
  }

  /** The codes of the first n instructions, piece by piece. */
  function Pieces(prog: seq<Inst>, n: nat): (p: seq<seq<Instr>>)
    requires n <= |prog|
    ensures |p| == n
  {
    if n == 0 then [] else Pieces(prog, n - 1) + [Final(prog, n - 1)]
  }

  lemma {:induction false} PiecesAt(prog: seq<Inst>, n: nat, k: nat)
    requires k < n <= |prog|
    ensures Pieces(prog, n)[k] == Final(prog, k)
    decreases n
  {
    if k < n - 1 {
      PiecesAt(prog, n - 1, k);
    }
  }

  function Concat(p: seq<seq<Instr>>, k: nat): seq<Instr>
    requires k <= |p|
  {
    if k == 0 then [] else Concat(p, k - 1) + p[k - 1]
  }

  function Code(prog: seq<Inst>): seq<Instr> { Concat(Pieces(prog, |prog|), |prog|) + RelQ() }

  lemma FinalLength(prog: seq<Inst>, k: nat)
    requires k < |prog|
    ensures |Pieces(prog, |prog|)[k]| == Lengths(prog, |prog|)[k]
  {
    PiecesAt(prog, |prog|, k);
    LengthsAt(prog, |prog|, k);
    SameLength(prog[k], k, Patch(prog), Offset(prog, |prog|), Offset(prog, k), [], 0, 0);
  }

  lemma {:induction false} ConcatLength(p: seq<seq<Instr>>, t: seq<nat>, k: nat)
    requires k <= |p| == |t| && forall i {:trigger p[i]} :: 0 <= i < |p| ==> |p[i]| == t[i]
    ensures |Concat(p, k)| == Sum(t, k)
    decreases k
  {
    if k > 0 {
      ConcatLength(p, t, k - 1);
    }
  }

  lemma PrefixLength(prog: seq<Inst>, k: nat)
    requires k <= |prog|
    ensures |Concat(Pieces(prog, |prog|), k)| == Offset(prog, k)
  {
    var p, t := Pieces(prog, |prog|), Lengths(prog, |prog|);
    forall i {:trigger p[i]} | 0 <= i < |p| ensures |p[i]| == t[i] {
      FinalLength(prog, i);
    }
    ConcatLength(p, t, k);
  }

  /** Emits instruction k to the scratch buffer, for its length. */
  method Scratch(prog: seq<Inst>, k: nat, patch: seq<int>) returns (n: nat)
    requires k < |prog|
    ensures Offset(prog, k + 1) == Offset(prog, k) + n
  {
    var tmp := Comp(prog[k], k, patch, 0, 0);
    SameLength(prog[k], k, patch, 0, 0, [], 0, 0);
    LengthsAt(prog, |prog|, k);
    n := |tmp|;
  }

  /** Pass 0 only measures, with whatever the patch table holds. */
  method Measure(prog: seq<Inst>, patch: array<int>) returns (n: nat)
    requires patch.Length == |prog|
    modifies patch
    ensures n == Offset(prog, |prog|) && patch[..] == Patch(prog)
  {
    n := 0;
    var i := 0;
    assert patch[..0] == Patch(prog)[..0];
    while i < |prog|
      invariant i <= |prog| && n == Offset(prog, i) && patch[..i] == Patch(prog)[..i]
    {
      var len := Scratch(prog, i, patch[..]);
      ghost var done := patch[..i];
      patch[i] := n;
      assert patch[..i + 1] == done + [n] == Patch(prog)[..i + 1];
      n := n + len;
      i := i + 1;
    }
  }

  /** Emits instruction k behind the code so far. */
  method EmitOne(prog: seq<Inst>, k: nat, patch: seq<int>, n: nat, code: seq<Instr>) returns (r: seq<Instr>)
    requires k < |prog| && patch == Patch(prog) && n == Offset(prog, |prog|) && |code| == Offset(prog, k)
    ensures r == code + Pieces(prog, |prog|)[k]
  {
    PiecesAt(prog, |prog|, k);
    r := code + Comp(prog[k], k, patch, n, |code|);
  }

  /** Pass 1 emits, and checks that it agrees with pass 0. */
  method Emit(prog: seq<Inst>, patch: seq<int>, n: nat) returns (phaseError: bool, code: seq<Instr>)
    requires patch == Patch(prog) && n == Offset(prog, |prog|)
    ensures !phaseError && code == Code(prog)
  {
    code := [];
    var i := 0;
    while i < |prog|
      invariant i <= |prog| && code == Concat(Pieces(prog, |prog|), i)
    {
      PrefixLength(prog, i);
      if patch[i] != |code| {
        return true, code;
      }
      code := EmitOne(prog, i, patch, n, code);
      i := i + 1;
    }
    PrefixLength(prog, |prog|);
    if n != |code| {
      return true, code;
    }
    return false, code + RelQ();
  }

  /** Compiles a module in two passes. */
  method Compile(prog: seq<Inst>) returns (phaseError: bool, code: seq<Instr>, patch: seq<int>)
    ensures !phaseError && code == Code(prog) && patch == Patch(prog)
  {
    var p := new int[|prog|];
    var n := Measure(prog, p);
    patch := p[..];
    phaseError, code := Emit(prog, patch, n);
  }

  // ----- operand fields are wide enough

  predicate AllEncodable(c: seq<Instr>) { forall k {:trigger c[k]} :: 0 <= k < |c| ==> Encodable(c[k]) }

  lemma EncodableAppend(a: seq<Instr>, b: seq<Instr>)
    requires AllEncodable(a) && AllEncodable(b)
    ensures AllEncodable(a + b)
  {
    forall k {:trigger (a + b)[k]} | 0 <= k < |a + b| ensures Encodable((a + b)[k]) {
      if k < |a| { assert Encodable(a[k]); } else { assert Encodable(b[k - |a|]); }
    }
  }

  lemma ConEncodable(o: u64, r: nat)
    ensures AllEncodable(Con(o, r))
  {
  }

  lemma EmitMemEncodable(mi: MemOp, disp: int, rm: nat, r: nat)
    ensures AllEncodable(EmitMem(mi, disp, rm, r))
  {
    ConEncodable(Wrap(disp), RCON);
    EncodableAppend(Con(Wrap(disp), RCON), [AddX(r, rm, RCON)]);
    EncodableAppend(Con(Wrap(disp), RCON), [LdrR(W, r, rm, RCON)]);
    EncodableAppend(Con(Wrap(disp), RCON), [LdrR(X, r, rm, RCON)]);
    EncodableAppend(Con(Wrap(disp), RCON), [StrR(W, r, rm, RCON)]);
    EncodableAppend(Con(Wrap(disp), RCON), [StrR(X, r, rm, RCON)]);
  }

  lemma OpxEncodable(a: Operand, mi: MemOp, r: nat, li: nat)
    ensures AllEncodable(Opx(a, mi, r, li))
  {
    match a
    case FP(ind) => EmitMemEncodable(mi, ind, RFP, r);
    case MP(ind) => EmitMemEncodable(mi, ind, RMP, r);
    case Imm(imm) =>
      ConEncodable(Wrap(imm), r);
      EmitMemEncodable(Stw, li, RREG, r);
      EmitMemEncodable(Lea, li, RREG, r);
      EncodableAppend(EmitMem(Stw, li, RREG, r), EmitMem(Lea, li, RREG, r));
      EncodableAppend(Con(Wrap(imm), r), EmitMem(Stw, li, RREG, r) + EmitMem(Lea, li, RREG, r));
      EncodableAppend(Con(Wrap(imm), r), []);
    case IndFP(f, s) => IndirectEncodable(RFP, f, s, mi, r);
    case IndMP(f, s) => IndirectEncodable(RMP, f, s, mi, r);
    case Target(_) =>
    case BadMode =>
  }

  lemma IndirectEncodable(ir: nat, f: nat, s: nat, mi: MemOp, r: nat)
    ensures AllEncodable(Indirect(ir, f, s, mi, r))
  {
    var rta := if mi == Lea then r else RTA;
    EmitMemEncodable(Ldp, f, ir, rta);
    EmitMemEncodable(mi, s, rta, r);
    EncodableAppend(EmitMem(Ldp, f, ir, rta), EmitMem(mi, s, rta, r));
  }

  lemma MidEncodable(i: Inst, mi: MemOp, r: nat)
    ensures AllEncodable(Mid(i, mi, r))
  {
    match i.mid
    case NoMiddle => OpxEncodable(i.dst, mi, r, O_DT);
    case ImmMiddle(reg) => ConEncodable(Wrap(Short(reg)), r);
    case FPMiddle(reg) => EmitMemEncodable(mi, reg, RFP, r);
    case MPMiddle(reg) => EmitMemEncodable(mi, reg, RMP, r);
  }

  lemma SchedEncodable(i: Inst, k: nat, relq: int, pos: int)
    requires 0 <= pos <= 0x4_0000 && 0 <= relq <= 0x4_0000
    ensures AllEncodable(SchedCheck(i, k, relq, pos))
  {
    var l, t := EmitMem(Ldw, O_IC, RREG, RA0), EmitMem(Stw, O_IC, RREG, RA0);
    EmitMemEncodable(Ldw, O_IC, RREG, RA0);
    EmitMemEncodable(Stw, O_IC, RREG, RA0);
    EncodableAppend(l, [SubsIW(RA0, RA0, 1)]);
    EncodableAppend(l + [SubsIW(RA0, RA0, 1)], t);
    EncodableAppend(l + [SubsIW(RA0, RA0, 1)] + t, [BCond(Invert(LE), 2), BL(relq - (pos + 4))]);
  }

  /** In a module under 1 MiB every operand field is wide enough for what goes into it. */
  lemma CompEncodable(i: Inst, k: nat, patch: seq<int>, relq: int, pos: int)
    requires 0 <= pos && pos + |Comp(i, k, patch, relq, pos)| <= 0x4_0000 && 0 <= relq <= 0x4_0000
    requires forall t :: 0 <= t < |patch| ==> 0 <= patch[t] <= 0x4_0000
    ensures AllEncodable(Comp(i, k, patch, relq, pos))
  {
    OpxEncodable(i.src, Ldw, RA0, O_ST);
    OpxEncodable(i.dst, Stw, RA0, O_DT);
    MidEncodable(i, Ldw, RA1);
    SchedEncodable(i, k, relq, pos);
    var src, dst, mid := Opx(i.src, Ldw, RA0, O_ST), Opx(i.dst, Stw, RA0, O_DT), Mid(i, Ldw, RA1);
    match i.op
    case MovW => EncodableAppend(src, dst);
    case Arith(op) =>
      EncodableAppend(mid, src);
      EncodableAppend(mid + src, [AluW(op, RA0, RA1, RA0)]);
      EncodableAppend(mid + src + [AluW(op, RA0, RA1, RA0)], dst);
    case Branch(rel) =>
      var sched := SchedCheck(i, k, relq, pos);
      EncodableAppend(src, mid);
      EncodableAppend(src + mid, [CmpW(RA0, RA1)]);
      EncodableAppend(sched, CompareCode(i));
      EncodableAppend(sched + CompareCode(i), Bradis(CondCode(rel), Dest(i, patch), pos + |sched + CompareCode(i)|));
    case Jmp =>
      var sched := SchedCheck(i, k, relq, pos);
      EncodableAppend(sched, Bradis(AL, Dest(i, patch), pos + |sched|));
  }

  lemma {:induction false} SumGrows(t: seq<nat>, i: nat, j: nat)
    requires i <= j <= |t|
    ensures Sum(t, i) <= Sum(t, j)
    decreases j
  {
    if i < j {
      SumGrows(t, i, j - 1);
    }
  }

  lemma RelQEncodable()
    ensures AllEncodable(RelQ())
  {
    var a, b, c := EmitMem(Stp, O_FP, RREG, RFP), EmitMem(Stp, O_PC, RREG, RLINK), EmitMem(Ldp, O_XPC, RREG, RLINK);
    EmitMemEncodable(Stp, O_FP, RREG, RFP);
    EmitMemEncodable(Stp, O_PC, RREG, RLINK);
    EmitMemEncodable(Ldp, O_XPC, RREG, RLINK);
    EncodableAppend(a, b);
    EncodableAppend(a + b, c);
    var rest := [RestorePair(RMP, RLR2, 2), RestorePair(RREG, RFP, 0), RET(RLINK)];
    EncodableAppend(a + b + c, rest);
    assert RelQ() == a + b + c + rest;
  }

  lemma {:induction false} ConcatEncodable(prog: seq<Inst>, n: nat)
    requires n <= |prog| && Offset(prog, |prog|) <= 0x4_0000
    ensures AllEncodable(Concat(Pieces(prog, |prog|), n))
    decreases n
  {
    if n > 0 {
      var k := n - 1;
      PiecesAt(prog, |prog|, k);
      FinalLength(prog, k);
      var lens := Lengths(prog, |prog|);
      SumGrows(lens, n, |prog|);
      forall t | 0 <= t < |prog| ensures 0 <= Patch(prog)[t] <= 0x4_0000 { SumGrows(lens, t, |prog|); }
      CompEncodable(prog[k], k, Patch(prog), Offset(prog, |prog|), Offset(prog, k));
      ConcatEncodable(prog, k);
      EncodableAppend(Concat(Pieces(prog, |prog|), k), Final(prog, k));
    }
  }

  /** Every operand field of a whole module under 1 MiB is wide enough. */
  lemma CodeEncodable(prog: seq<Inst>)
    requires |Code(prog)| <= 0x4_0000
    ensures AllEncodable(Code(prog))
  {
    PrefixLength(prog, |prog|);
    ConcatEncodable(prog, |prog|);
    RelQEncodable();
    EncodableAppend(Concat(Pieces(prog, |prog|), |prog|), RelQ());
  }
}
