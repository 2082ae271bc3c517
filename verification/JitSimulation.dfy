/** Compiled code does what the interpreter does. */
module JitSimulation {
  import opened Arm64
  import opened Dis
  import opened DisEffects
  import opened Jit
  import opened JitOperands

  // ----- the two memories agree outside the virtual machine's registers

  ghost predicate Agree(r: u64, m1: Mem, m2: Mem) {
    forall x {:trigger m1(x)} {:trigger m2(x)} :: x < r || r + REGSIZE <= x ==> m1(x) == m2(x)
  }

  lemma AgreeLoad(r: u64, m1: Mem, m2: Mem, a: int)
    requires Agree(r, m1, m2)
    ensures Apart(r, a, 4) ==> Load32(m1, a) == Load32(m2, a)
    ensures Apart(r, a, 8) ==> Load64(m1, a) == Load64(m2, a)
  {
    assert Apart(r, a, 4) ==> Bytes(m1, a, 4) == Bytes(m2, a, 4);
    assert Apart(r, a, 8) ==> Bytes(m1, a, 8) == Bytes(m2, a, 8);
  }

  lemma AgreeStore(r: u64, m1: Mem, m2: Mem, a: int, w: u32)
    requires Agree(r, m1, m2)
    ensures Agree(r, Store32(m1, a, w), Store32(m2, a, w))
  {
  }

  lemma AgreeInside(r: u64, m1: Mem, m2: Mem, o: nat, v: u64)
    requires Agree(r, m1, m2)
    ensures o + 4 <= REGSIZE ==> Agree(r, m1, Store32(m2, r + o, Low(v)))
    ensures o + 8 <= REGSIZE ==> Agree(r, m1, Store64(m2, r + o, v))
  {
  }

  lemma ValuesAgree(r: u64, i: Inst, d: DState, m: Mem)
    requires Agree(r, d.mem, m) && Polite(r, i, d)
    ensures var v := d.(mem := m);
      (IsSource(i.src) ==> Value(i.src, v) == Value(i.src, d)) && Address(i.dst, v) == Address(i.dst, d) &&
      (!i.mid.NoMiddle? || IsWord(i.dst) ==> MiddleValue(i, v) == MiddleValue(i, d))
  {
    OperandAgrees(r, i.src, d, m);
    OperandAgrees(r, i.dst, d, m);
    match i.mid
    case NoMiddle =>
    case ImmMiddle(_) =>
    case FPMiddle(reg) => AgreeLoad(r, d.mem, m, Wrap(d.fp + reg));
    case MPMiddle(reg) => AgreeLoad(r, d.mem, m, Wrap(d.mp + reg));
  }

  lemma OperandAgrees(r: u64, a: Operand, d: DState, m: Mem)
    requires Agree(r, d.mem, m) && OperandApart(r, a, d)
    ensures var v := d.(mem := m);
      Address(a, v) == Address(a, d) &&
      (a.FP? || a.MP? || a.IndFP? || a.IndMP? || a.Imm? ==> Value(a, v) == Value(a, d))
    ensures a.FP? || a.MP? || a.IndFP? || a.IndMP? ==> Load32(m, Address(a, d)) == Load32(d.mem, Address(a, d))
  {
    match a
    case FP(_) => AgreeLoad(r, d.mem, m, Address(a, d));
    case MP(_) => AgreeLoad(r, d.mem, m, Address(a, d));
    case IndFP(f, _) =>
      AgreeLoad(r, d.mem, m, Wrap(d.fp + f));
      AgreeLoad(r, d.mem, m, Address(a, d));
    case IndMP(f, _) =>
      AgreeLoad(r, d.mem, m, Wrap(d.mp + f));
      AgreeLoad(r, d.mem, m, Address(a, d));
    case _ =>
  }

  // ----- the simulation relation

  function Counter(r: u64, m: Mem): int { Signed(Load32(m, r + O_IC)) }

  /** Registers, memory and the saved module pointer of the machine are those of the interpreter. */
  ghost predicate Related(r: u64, d: DState, s: State) {
    r + REGSIZE <= TWO64 && s.x[RREG] == r && s.x[RFP] == d.fp && s.x[RMP] == d.mp &&
    Agree(r, d.mem, s.mem) && Load64(s.mem, r + O_MP) == d.mp
  }

  /** Code that loads registers keeps the relation. */
  lemma LoadKeeps(r: u64, d: DState, s: State, t: State, q: nat, v: u64)
    requires Related(r, d, s) && Loaded(s, t, q, v) && Free(q)
    ensures Related(r, d, t) && t.frame == s.frame && t.mem == s.mem
  {
  }

  lemma StoreKeeps(r: u64, d: DState, s: State, t: State, a: u64, w: u32)
    requires Related(r, d, s) && Stored(s, t, Store32(s.mem, a, w)) && Apart(r, a, 4)
    ensures Related(r, d.(mem := Store32(d.mem, a, w)), t) && t.frame == s.frame
    ensures Counter(r, t.mem) == Counter(r, s.mem)
  {
    AgreeStore(r, d.mem, s.mem, a, w);
    LoadOther(s.mem, a, ToBytes(w, 4), r + O_MP, 8);
    LoadOther(s.mem, a, ToBytes(w, 4), r + O_IC, 4);
  }

  /** After straight code for one instruction. */
  ghost predicate Became(r: u64, s: State, d: DState, t: State) {
    Related(r, d, t) && t.frame == s.frame && Counter(r, t.mem) == Counter(r, s.mem)
  }

  /** Outside the virtual machine's registers only the word at the destination differs: it is the source, or the
      result of the operation. */
  ghost predicate Shows(r: u64, i: Inst, d: DState, m: Mem, m1: Mem) {
    var x := Place(i.dst, d);
    (forall y {:trigger m1(y)} :: Apart(r, y, 1) && !(x <= y < x + 4) ==> m1(y) == m(y)) &&
    (i.op.MovW? ==> Word(m1, x) == Source(i, d)) &&
    (i.op.Arith? ==> Makes(i.op.op, MiddleOf(i, d), Source(i, d), Word(m1, x)))
  }

  /** What a word instruction has done is seen in the machine's memory. */
  lemma ShowsWord(r: u64, i: Inst, n: nat, d: DState, s: State, t: State)
    requires Loadable(i, n) && (i.op.MovW? || i.op.Arith?) && Polite(r, i, d)
    requires Related(r, d, s) && Related(r, Execute(i, n, d), t)
    ensures Shows(r, i, d, s.mem, t.mem)
  {
    var e := Execute(i, n, d);
    ExecuteMeans(i, n, d);
    AddressIs(i.dst, d);
    AgreeLoad(r, e.mem, t.mem, Address(i.dst, d));
    LoadsWord(e.mem, Address(i.dst, d));
    LoadsWord(t.mem, Address(i.dst, d));
    forall y {:trigger t.mem(y)} | Apart(r, y, 1) && !(Place(i.dst, d) <= y < Place(i.dst, d) + 4)
      ensures t.mem(y) == s.mem(y)
    {
      assert e.mem(y) == t.mem(y) && d.mem(y) == s.mem(y);
    }
  }

  lemma MovSimulates(r: u64, i: Inst, n: nat, d: DState, s: State) returns (t: State)
    requires Loadable(i, n) && i.op.MovW? && Polite(r, i, d) && Related(r, d, s)
    ensures Exec(Opx(i.src, Ldw, RA0, O_ST) + Opx(i.dst, Stw, RA0, O_DT), s, t)
    ensures Became(r, s, Execute(i, n, d), t)
    ensures Shows(r, i, d, s.mem, t.mem)
  {
    ValuesAgree(r, i, d, s.mem);
    var s1, w := OpxLoads(i.src, RA0, O_ST, d.(mem := s.mem), s);
    LoadKeeps(r, d, s, s1, RA0, w);
    t := DestinationStores(r, i, d, s1, Value(i.src, d));
    ExecAppend(Opx(i.src, Ldw, RA0, O_ST), Opx(i.dst, Stw, RA0, O_DT), s, s1, t);
    RelatedPc(r, d.(mem := Store32(d.mem, Address(i.dst, d), Value(i.src, d))), t, d.pc + 1);
    ShowsWord(r, i, n, d, s, t);
  }

  /** The middle operand in RA1 and the source in RA0. */
  lemma BothLoad(r: u64, i: Inst, d: DState, s: State, midFirst: bool) returns (t: State, a: u64, b: u64)
    requires IsSource(i.src) && IsMiddle(i.mid) && (i.mid.NoMiddle? ==> IsWord(i.dst))
    requires Polite(r, i, d) && Related(r, d, s)
    ensures Exec(if midFirst then Mid(i, Ldw, RA1) + Opx(i.src, Ldw, RA0, O_ST)
                 else Opx(i.src, Ldw, RA0, O_ST) + Mid(i, Ldw, RA1), s, t)
    ensures Related(r, d, t) && t.frame == s.frame && t.mem == s.mem
    ensures t.x[RA0] == a && t.x[RA1] == b && Low(a) == Value(i.src, d) && Low(b) == MiddleValue(i, d)
  {
    var v := d.(mem := s.mem);
    ValuesAgree(r, i, d, s.mem);
    if midFirst {
      var s1;
      s1, b := MidLoads(i, v, s);
      LoadKeeps(r, d, s, s1, RA1, b);
      t, a := OpxLoads(i.src, RA0, O_ST, v, s1);
      LoadKeeps(r, d, s1, t, RA0, a);
      ExecAppend(Mid(i, Ldw, RA1), Opx(i.src, Ldw, RA0, O_ST), s, s1, t);
      assert t.x[RA1] == s1.x[RA1];
    } else {
      var s1;
      s1, a := OpxLoads(i.src, RA0, O_ST, v, s);
      LoadKeeps(r, d, s, s1, RA0, a);
      t, b := MidLoads(i, v, s1);
      LoadKeeps(r, d, s1, t, RA1, b);
      ExecAppend(Opx(i.src, Ldw, RA0, O_ST), Mid(i, Ldw, RA1), s, s1, t);
      assert t.x[RA0] == s1.x[RA0];
    }
  }

  lemma AluSimulates(r: u64, op: AluOp, d: DState, s: State) returns (t: State)
    requires Related(r, d, s)
    ensures Exec([AluW(op, RA0, RA1, RA0)], s, t) && Related(r, d, t) && t.frame == s.frame && t.mem == s.mem
    ensures t.x[RA0] == Alu(op, Low(s.x[RA1]), Low(s.x[RA0]))
  {
    ExecOne(AluW(op, RA0, RA1, RA0), s);
    t := Step(0, AluW(op, RA0, RA1, RA0), s);
  }

  lemma ArithComputes(r: u64, i: Inst, n: nat, d: DState, s: State) returns (t: State)
    requires Loadable(i, n) && i.op.Arith? && Polite(r, i, d) && Related(r, d, s)
    ensures Exec(Mid(i, Ldw, RA1) + Opx(i.src, Ldw, RA0, O_ST) + [AluW(i.op.op, RA0, RA1, RA0)], s, t)
    ensures Related(r, d, t) && t.frame == s.frame && t.mem == s.mem
    ensures t.x[RA0] == Alu(i.op.op, MiddleValue(i, d), Value(i.src, d))
  {
    var s1, a, b := BothLoad(r, i, d, s, true);
    t := AluSimulates(r, i.op.op, d, s1);
    ExecAppend(Mid(i, Ldw, RA1) + Opx(i.src, Ldw, RA0, O_ST), [AluW(i.op.op, RA0, RA1, RA0)], s, s1, t);
  }

  lemma DestinationStores(r: u64, i: Inst, d: DState, s: State, w: u32) returns (t: State)
    requires IsWord(i.dst) && Polite(r, i, d) && Related(r, d, s) && Low(s.x[RA0]) == w
    ensures Exec(Opx(i.dst, Stw, RA0, O_DT), s, t)
    ensures Became(r, s, d.(mem := Store32(d.mem, Address(i.dst, d), w)), t)
  {
    ValuesAgree(r, i, d, s.mem);
    t := OpxStores(i.dst, O_DT, d.(mem := s.mem), s);
    StoreKeeps(r, d, s, t, Address(i.dst, d), w);
  }

  /** The relation does not look at the program counter. */
  lemma RelatedPc(r: u64, d: DState, s: State, pc: nat)
    requires Related(r, d, s)
    ensures Related(r, d.(pc := pc), s)
  {
  }

  lemma ArithRuns(r: u64, i: Inst, n: nat, d: DState, s: State) returns (t: State)
    requires Loadable(i, n) && i.op.Arith? && Polite(r, i, d) && Related(r, d, s)
    ensures Exec(ArithCode(i, i.op.op), s, t) && Became(r, s, Execute(i, n, d), t)
  {
    var w := Alu(i.op.op, MiddleValue(i, d), Value(i.src, d));
    var s1 := ArithComputes(r, i, n, d, s);
    t := DestinationStores(r, i, d, s1, w);
    ExecAppend(Mid(i, Ldw, RA1) + Opx(i.src, Ldw, RA0, O_ST) + [AluW(i.op.op, RA0, RA1, RA0)],
               Opx(i.dst, Stw, RA0, O_DT), s, s1, t);
    RelatedPc(r, d.(mem := Store32(d.mem, Address(i.dst, d), w)), t, d.pc + 1);
  }

  /** The code of word arithmetic does what the interpreter does, and leaves middle + source, middle - source and
      so on at the destination. */
  lemma ArithSimulates(r: u64, i: Inst, n: nat, d: DState, s: State) returns (t: State)
    requires Loadable(i, n) && i.op.Arith? && Polite(r, i, d) && Related(r, d, s)
    ensures Exec(ArithCode(i, i.op.op), s, t) && Became(r, s, Execute(i, n, d), t)
    ensures Shows(r, i, d, s.mem, t.mem)
  {
    t := ArithRuns(r, i, n, d, s);
    ShowsWord(r, i, n, d, s, t);
  }

  lemma ConditionMeans(rel: Rel, a: u32, b: u32)
    ensures Arm64.Holds(CondCode(rel), SubFlags(a, b)) <==> Compare(rel, a, b)
  {
    CompareMeans(a, b);
  }

  lemma CmpSimulates(r: u64, d: DState, s: State) returns (t: State)
    requires Related(r, d, s)
    ensures Exec([CmpW(RA0, RA1)], s, t) && Related(r, d, t) && t.frame == s.frame && t.mem == s.mem
    ensures t.flags == SubFlags(Low(s.x[RA0]), Low(s.x[RA1]))
  {
    ExecOne(CmpW(RA0, RA1), s);
    t := Step(0, CmpW(RA0, RA1), s);
  }

  lemma CompareSimulates(r: u64, i: Inst, n: nat, d: DState, s: State) returns (t: State)
    requires Loadable(i, n) && i.op.Branch? && Polite(r, i, d) && Related(r, d, s)
    ensures Exec(CompareCode(i), s, t) && Became(r, s, d, t)
    ensures Arm64.Holds(CondCode(i.op.rel), t.flags) <==> Compare(i.op.rel, Value(i.src, d), MiddleValue(i, d))
    ensures Arm64.Holds(CondCode(i.op.rel), t.flags) <==>
            Relates(i.op.rel, AsInt(Source(i, d)), AsInt(MiddleOf(i, d)))
  {
    ValueIs(i, d);
    MiddleIs(i, d);
    CompareIs(i.op.rel, Value(i.src, d), MiddleValue(i, d));
    var s1, a, b := BothLoad(r, i, d, s, false);
    t := CmpSimulates(r, d, s1);
    ExecAppend(Opx(i.src, Ldw, RA0, O_ST) + Mid(i, Ldw, RA1), [CmpW(RA0, RA1)], s, s1, t);
    ConditionMeans(i.op.rel, Low(a), Low(b));
  }

  // ----- the reschedule check

  lemma CounterLoads(r: u64, d: DState, s: State) returns (t: State)
    requires Related(r, d, s)
    ensures Exec(EmitMem(Ldw, O_IC, RREG, RA0), s, t) && Related(r, d, t) && t.frame == s.frame && t.mem == s.mem
    ensures Low(t.x[RA0]) == Load32(s.mem, r + O_IC)
  {
    t := LoadLoads(W, O_IC, RREG, RA0, s);
    LoadKeeps(r, d, s, t, RA0, Load32(s.mem, r + O_IC));
  }

  lemma CounterDrops(r: u64, d: DState, s: State) returns (t: State)
    requires Related(r, d, s)
    ensures Exec([SubsIW(RA0, RA0, 1)], s, t) && Related(r, d, t) && t.frame == s.frame && t.mem == s.mem
    ensures Low(t.x[RA0]) == (Low(s.x[RA0]) - 1) % TWO32 && t.flags == SubFlags(Low(s.x[RA0]), 1)
  {
    ExecOne(SubsIW(RA0, RA0, 1), s);
    t := Step(0, SubsIW(RA0, RA0, 1), s);
  }

  lemma CounterStores(r: u64, d: DState, s: State) returns (t: State)
    requires Related(r, d, s)
    ensures Exec(EmitMem(Stw, O_IC, RREG, RA0), s, t) && Related(r, d, t) && t.frame == s.frame && t.flags == s.flags
    ensures Load32(t.mem, r + O_IC) == Low(s.x[RA0])
  {
    t := StoreStores(W, O_IC, RREG, RA0, s);
    var w := Low(s.x[RA0]);
    AgreeInside(r, d.mem, s.mem, O_IC, s.x[RA0]);
    LoadStored32(s.mem, r + O_IC, w);
    LoadOther(s.mem, r + O_IC, ToBytes(w, 4), r + O_MP, 8);
  }

  lemma AboveOne(w: u32)
    ensures Arm64.Holds(Invert(LE), SubFlags(w, 1)) <==> Signed(w) > 1
  {
    CompareMeans(w, 1);
  }

  function CountDown(): seq<Instr> {
    EmitMem(Ldw, O_IC, RREG, RA0) + [SubsIW(RA0, RA0, 1)] + EmitMem(Stw, O_IC, RREG, RA0)
  }

  /** The counter goes down by one, and the flags say whether it was above one. */
  lemma CountsDown(r: u64, d: DState, s: State) returns (t: State)
    requires Related(r, d, s)
    ensures Exec(CountDown(), s, t) && Related(r, d, t) && t.frame == s.frame
    ensures Load32(t.mem, r + O_IC) == (Load32(s.mem, r + O_IC) - 1) % TWO32
    ensures Arm64.Holds(Invert(LE), t.flags) <==> Counter(r, s.mem) > 1
  {
    var s1 := CounterLoads(r, d, s);
    var s2 := CounterDrops(r, d, s1);
    t := CounterStores(r, d, s2);
    var c1, c2, c3 := EmitMem(Ldw, O_IC, RREG, RA0), [SubsIW(RA0, RA0, 1)], EmitMem(Stw, O_IC, RREG, RA0);
    ExecAppend(c1, c2, s, s1, s2);
    ExecAppend(c1 + c2, c3, s, s2, t);
    AboveOne(Load32(s.mem, r + O_IC));
  }

  lemma SignedDrop(w: u32)
    requires Signed(w) > 1
    ensures Signed((w - 1) % TWO32) == Signed(w) - 1
  {
  }

  lemma StepKeeps(r: u64, d: DState, s: State, base: u64, i: Instr)
    requires Related(r, d, s) && (i.B? || i.BCond? || i.BL?)
    ensures Related(r, d, Step(base, i, s)) && Step(base, i, s).frame == s.frame && Step(base, i, s).mem == s.mem
    ensures i.BL? ==> Step(base, i, s).x[RLINK] == Link(base, s.pc + 1) && Step(base, i, s).pc == s.pc + i.rel
  {
  }

  lemma CodeAtOne(code: seq<Instr>, pos: int, i: Instr)
    requires CodeAt(code, pos, [i])
    ensures 0 <= pos < |code| && code[pos] == i
  {
    assert code[pos..pos + 1][0] == [i][0];
  }

  function CheckTail(relq: int, pos: int): seq<Instr> { [BCond(Invert(LE), 2), BL(relq - (pos + 4))] }

  /** The check up to its conditional branch. */
  lemma CheckStarts(r: u64, base: u64, code: seq<Instr>, d: DState, s: State, relq: int) returns (t: State)
    requires Related(r, d, s) && CodeAt(code, s.pc, CountDown() + CheckTail(relq, s.pc))
    ensures Reaches(base, code, s, t) && Related(r, d, t) && t.frame == s.frame
    ensures t.pc == if Counter(r, s.mem) > 1 then s.pc + 5 else s.pc + 4
    ensures Load32(t.mem, r + O_IC) == (Load32(s.mem, r + O_IC) - 1) % TWO32
    ensures 0 <= s.pc + 4 < |code| && code[s.pc + 4] == BL(relq - (s.pc + 4))
  {
    CodeAtSplit(code, s.pc, CountDown(), CheckTail(relq, s.pc));
    var s1 := CountsDown(r, d, s);
    ReachesExec(base, code, CountDown(), s, s1);
    CodeAtSplit(code, s.pc + 3, [BCond(Invert(LE), 2)], [BL(relq - (s.pc + 4))]);
    CodeAtOne(code, s.pc + 3, BCond(Invert(LE), 2));
    CodeAtOne(code, s.pc + 4, BL(relq - (s.pc + 4)));
    ReachesStep(base, code, s1);
    StepKeeps(r, d, s1, base, BCond(Invert(LE), 2));
    t := Step(base, BCond(Invert(LE), 2), s1);
    ReachesOn(base, code, s, s1, t);
  }

  /** With the counter above one a backward branch falls through the check. */
  lemma CheckPasses(r: u64, base: u64, code: seq<Instr>, d: DState, s: State, relq: int) returns (t: State)
    requires Related(r, d, s) && CodeAt(code, s.pc, CountDown() + CheckTail(relq, s.pc))
    requires Counter(r, s.mem) > 1
    ensures Reaches(base, code, s, t) && t.pc == s.pc + 5 && Related(r, d, t) && t.frame == s.frame
    ensures Counter(r, t.mem) == Counter(r, s.mem) - 1
  {
    t := CheckStarts(r, base, code, d, s, relq);
    SignedDrop(Load32(s.mem, r + O_IC));
  }

  /** With the counter at one or below it ends in the macro, the address behind the check in RLINK. */
  lemma CheckYields(r: u64, base: u64, code: seq<Instr>, d: DState, s: State, relq: int) returns (t: State)
    requires Related(r, d, s) && CodeAt(code, s.pc, CountDown() + CheckTail(relq, s.pc))
    requires Counter(r, s.mem) <= 1
    ensures Reaches(base, code, s, t) && t.pc == relq && Related(r, d, t) && t.frame == s.frame
    ensures t.x[RLINK] == Link(base, s.pc + 5)
  {
    var s1 := CheckStarts(r, base, code, d, s, relq);
    var i := BL(relq - (s.pc + 4));
    ReachesStep(base, code, s1);
    StepKeeps(r, d, s1, base, i);
    t := Step(base, i, s1);
    ReachesOn(base, code, s, s1, t);
    assert s1.pc + 1 == s.pc + 5;
  }
}
