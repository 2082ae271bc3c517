/** What the emitted pieces do when they run straight through. */
module JitOperands {
  import opened Arm64
  import opened Dis
  import opened Jit

  /** t is s after code that put v in register r, using at most the two scratch registers besides. */
  ghost predicate Loaded(s: State, t: State, r: nat, v: u64) {
    r < ZR && t.x[r] == v && t.mem == s.mem && t.flags == s.flags && t.frame == s.frame && Spares(s, t, r)
  }

  ghost predicate Spares(s: State, t: State, r: nat) {
    forall i {:trigger t.x[i]} :: 0 <= i < ZR && i != r && i != RCON && i != RTA ==> t.x[i] == s.x[i]
  }

  /** t is s after code that left m in memory. */
  ghost predicate Stored(s: State, t: State, m: Mem) {
    t.mem == m && t.flags == s.flags && t.frame == s.frame && Spares(s, t, RCON)
  }

  // ----- constants

  lemma InsertHigh(o: u64, p: nat)
    requires p == TWO16 || p == TWO32 || p == 0x1_0000_0000_0000
    ensures var v := o % p; v / p % TWO16 == 0 && v + (o / p % TWO16) * p == o % (p * TWO16) < TWO64
  {
    var v, h := o % p, o / p % TWO16;
    assert v / p == 0;
    if p == TWO16 {
      assert v + h * p == o % TWO32;
    } else if p == TWO32 {
      assert v + h * p == o % 0x1_0000_0000_0000;
    } else {
      assert v + h * p == o % TWO64;
    }
  }

  lemma ConStep(o: u64, r: nat, s: State, sh: nat) returns (t: State)
    requires r < ZR && (sh == 16 || sh == 32 || sh == 48) && s.x[r] == o % Pow(sh)
    ensures t == s.(x := s.x[r := o % (Pow(sh) * TWO16)], pc := s.pc + 1)
    ensures Exec([MovK(r, o / Pow(sh) % TWO16, sh)], s, t)
  {
    InsertHigh(o, Pow(sh));
    ExecOne(MovK(r, o / Pow(sh) % TWO16, sh), s);
    t := Step(0, MovK(r, o / Pow(sh) % TWO16, sh), s);
  }

  lemma ConLoads(o: u64, r: nat, s: State) returns (t: State)
    requires r < ZR
    ensures Exec(Con(o, r), s, t) && t == s.(x := s.x[r := o], pc := s.pc + 4)
  {
    var i0, i1 := MovZ(r, o % TWO16, 0), MovK(r, o / TWO16 % TWO16, 16);
    var i2, i3 := MovK(r, o / TWO32 % TWO16, 32), MovK(r, o / 0x1_0000_0000_0000 % TWO16, 48);
    ExecOne(i0, s);
    var s1 := Step(0, i0, s);
    var s2 := ConStep(o, r, s1, 16);
    var s3 := ConStep(o, r, s2, 32);
    t := ConStep(o, r, s3, 48);
    ExecAppend([i0], [i1], s, s1, s2);
    ExecAppend([i0] + [i1], [i2], s, s2, s3);
    ExecAppend([i0] + [i1] + [i2], [i3], s, s3, t);
    assert Con(o, r) == [i0] + [i1] + [i2] + [i3];
    assert t.x == s.x[r := o];
  }

  lemma WrapWrap(a: u64, b: int)
    ensures Wrap(a + Wrap(b)) == Wrap(a + b)
  {
    var k := b / TWO64;
    WrapIsModulo(b);
    assert b == k * TWO64 + Wrap(b);
    WrapShift(a + Wrap(b), k);
  }

  lemma {:induction false} WrapShift(a: int, k: int)
    ensures Wrap(a + k * TWO64) == Wrap(a)
    decreases if k < 0 then -k else k
  {
    if k > 0 {
      WrapShift(a, k - 1);
      WrapIsModulo(a + (k - 1) * TWO64);
      WrapIsModulo(a + k * TWO64);
      assert a + k * TWO64 == (a + (k - 1) * TWO64) + TWO64;
    } else if k < 0 {
      WrapShift(a, k + 1);
      WrapIsModulo(a + (k + 1) * TWO64);
      WrapIsModulo(a + k * TWO64);
      assert a + k * TWO64 == (a + (k + 1) * TWO64) - TWO64;
    }
  }

  /** Code that first builds the displacement in RCON. */
  lemma ConThen(disp: int, i: Instr, s: State) returns (t: State)
    requires Straight(i)
    ensures var s1 := s.(x := s.x[RCON := Wrap(disp)], pc := s.pc + 4);
      t == Step(0, i, s1) && Exec(Con(Wrap(disp), RCON) + [i], s, t)
  {
    var s1 := ConLoads(Wrap(disp), RCON, s);
    ExecOne(i, s1);
    t := Step(0, i, s1);
    ExecAppend(Con(Wrap(disp), RCON), [i], s, s1, t);
  }

  // ----- loads and stores at a displacement

  lemma DirectLoad(i: Instr, a: u64, s: State) returns (t: State)
    requires (i.Ldr? || i.Ldur?) && i.rt < ZR && i.rn < ZR && a == Wrap(s.x[i.rn] + i.off)
    ensures Exec([i], s, t) && Loaded(s, t, i.rt, Load(i.w, s.mem, a))
  {
    ExecOne(i, s);
    t := Step(0, i, s);
  }

  lemma IndexedLoad(w: Width, disp: int, rm: nat, r: nat, s: State) returns (t: State)
    requires r < ZR && rm < ZR && rm != RCON
    ensures Exec(Con(Wrap(disp), RCON) + [LdrR(w, r, rm, RCON)], s, t)
    ensures Loaded(s, t, r, Load(w, s.mem, Wrap(s.x[rm] + disp)))
  {
    t := ConThen(disp, LdrR(w, r, rm, RCON), s);
    WrapWrap(s.x[rm], disp);
  }

  lemma LoadLoads(w: Width, disp: int, rm: nat, r: nat, s: State) returns (t: State)
    requires r < ZR && rm < ZR && rm != RCON
    ensures Exec(EmitLoad(w, disp, rm, r), s, t)
    ensures Loaded(s, t, r, Load(w, s.mem, Wrap(s.x[rm] + disp)))
  {
    if Scaled(w, disp) {
      t := DirectLoad(Ldr(w, r, rm, disp), Wrap(s.x[rm] + disp), s);
    } else if -256 <= disp < 256 {
      t := DirectLoad(Ldur(w, r, rm, disp), Wrap(s.x[rm] + disp), s);
    } else {
      t := IndexedLoad(w, disp, rm, r, s);
    }
  }

  lemma StoreStores(w: Width, disp: int, rm: nat, r: nat, s: State) returns (t: State)
    requires r < ZR && rm < ZR && rm != RCON && r != RCON
    ensures Exec(EmitStore(w, disp, rm, r), s, t)
    ensures Stored(s, t, Store(w, s.mem, Wrap(s.x[rm] + disp), s.x[r]))
  {
    if Scaled(w, disp) {
      ExecOne(Str(w, r, rm, disp), s);
      t := Step(0, Str(w, r, rm, disp), s);
    } else if -256 <= disp < 256 {
      ExecOne(Stur(w, r, rm, disp), s);
      t := Step(0, Stur(w, r, rm, disp), s);
    } else {
      t := ConThen(disp, StrR(w, r, rm, RCON), s);
      WrapWrap(s.x[rm], disp);
    }
  }

  // ----- operands

  /** The machine holds what the interpreter holds. */
  ghost predicate Mirrors(d: DState, s: State) {
    s.x[RFP] == d.fp && s.x[RMP] == d.mp && s.mem == d.mem
  }

  /** Registers an operand may be loaded into. */
  predicate Free(r: nat) { r < ZR && r != RCON && r != RTA && r != RFP && r != RMP && r != RREG }

  lemma IndirectLoads(ir: nat, f: nat, o: nat, r: nat, s: State) returns (t: State)
    requires (ir == RFP || ir == RMP) && Free(r)
    ensures Exec(Indirect(ir, f, o, Ldw, r), s, t)
    ensures Loaded(s, t, r, Load32(s.mem, Wrap(Load64(s.mem, Wrap(s.x[ir] + f)) + o)))
  {
    var s1 := LoadLoads(X, f, ir, RTA, s);
    t := LoadLoads(W, o, RTA, r, s1);
    ExecAppend(EmitLoad(X, f, ir, RTA), EmitLoad(W, o, RTA, r), s, s1, t);
  }

  lemma IndirectStores(ir: nat, f: nat, o: nat, s: State) returns (t: State)
    requires ir == RFP || ir == RMP
    ensures Exec(Indirect(ir, f, o, Stw, RA0), s, t)
    ensures Stored(s, t, Store32(s.mem, Wrap(Load64(s.mem, Wrap(s.x[ir] + f)) + o), Low(s.x[RA0])))
  {
    var s1 := LoadLoads(X, f, ir, RTA, s);
    t := StoreStores(W, o, RTA, RA0, s1);
    assert s1.x[RA0] == s.x[RA0];
    ExecAppend(EmitLoad(X, f, ir, RTA), EmitStore(W, o, RTA, RA0), s, s1, t);
  }

  lemma LowWrap(a: int)
    ensures Low(Wrap(a)) == a % TWO32
  {
    var k := a / TWO64;
    WrapIsModulo(a);
    assert a == k * TWO64 + Wrap(a);
    LowShift(Wrap(a), k);
  }

  lemma {:induction false} LowShift(a: int, k: int)
    ensures (a + k * TWO64) % TWO32 == a % TWO32
    decreases if k < 0 then -k else k
  {
    if k > 0 {
      LowShift(a, k - 1);
      assert a + k * TWO64 == (a + (k - 1) * TWO64) + TWO64;
    } else if k < 0 {
      LowShift(a, k + 1);
      assert a + k * TWO64 == (a + (k + 1) * TWO64) - TWO64;
    }
  }

  lemma ImmLoads(imm: int, r: nat, s: State) returns (t: State, v: u64)
    requires Free(r)
    ensures Exec(Con(Wrap(imm), r), s, t) && Loaded(s, t, r, v) && Low(v) == imm % TWO32
  {
    t := ConLoads(Wrap(imm), r, s);
    v := Wrap(imm);
    LowWrap(imm);
  }

  lemma LowWord(w: u32)
    ensures Low(w) == w
  {
  }

  lemma WordLoads(disp: int, rm: nat, r: nat, s: State) returns (t: State, v: u64)
    requires Free(r) && (rm == RFP || rm == RMP)
    ensures Exec(EmitMem(Ldw, disp, rm, r), s, t) && Loaded(s, t, r, v)
    ensures Low(v) == v == Load32(s.mem, Wrap(s.x[rm] + disp))
  {
    v := Load32(s.mem, Wrap(s.x[rm] + disp));
    LowWord(v);
    t := LoadLoads(W, disp, rm, r, s);
  }

  lemma IndirectWordLoads(ir: nat, f: nat, o: nat, r: nat, s: State) returns (t: State, v: u64)
    requires Free(r) && (ir == RFP || ir == RMP)
    ensures Exec(Indirect(ir, f, o, Ldw, r), s, t) && Loaded(s, t, r, v)
    ensures Low(v) == v == Load32(s.mem, Wrap(Load64(s.mem, Wrap(s.x[ir] + f)) + o))
  {
    v := Load32(s.mem, Wrap(Load64(s.mem, Wrap(s.x[ir] + f)) + o));
    t := IndirectLoads(ir, f, o, r, s);
  }

  /** The low half of what a source operand loads is the operand's value. */
  lemma OpxLoads(a: Operand, r: nat, li: nat, d: DState, s: State) returns (t: State, v: u64)
    requires IsSource(a) && Free(r) && Mirrors(d, s)
    ensures Exec(Opx(a, Ldw, r, li), s, t) && Loaded(s, t, r, v) && Low(v) == Value(a, d)
  {
    match a
    case FP(ind) => t, v := WordLoads(ind, RFP, r, s);
    case MP(ind) => t, v := WordLoads(ind, RMP, r, s);
    case Imm(imm) =>
      assert Con(Wrap(imm), r) + [] == Con(Wrap(imm), r);
      t, v := ImmLoads(imm, r, s);
    case IndFP(f, o) => t, v := IndirectWordLoads(RFP, f, o, r, s);
    case IndMP(f, o) => t, v := IndirectWordLoads(RMP, f, o, r, s);
  }

  /** A word store through a destination operand. */
  lemma OpxStores(a: Operand, li: nat, d: DState, s: State) returns (t: State)
    requires IsWord(a) && Mirrors(d, s)
    ensures Exec(Opx(a, Stw, RA0, li), s, t) && Stored(s, t, Store32(d.mem, Address(a, d), Low(s.x[RA0])))
  {
    match a
    case FP(ind) => t := StoreStores(W, ind, RFP, RA0, s);
    case MP(ind) => t := StoreStores(W, ind, RMP, RA0, s);
    case IndFP(f, o) => t := IndirectStores(RFP, f, o, s);
    case IndMP(f, o) => t := IndirectStores(RMP, f, o, s);
  }

  lemma MidLoads(i: Inst, d: DState, s: State) returns (t: State, v: u64)
    requires IsMiddle(i.mid) && (i.mid.NoMiddle? ==> IsWord(i.dst)) && Mirrors(d, s)
    ensures Exec(Mid(i, Ldw, RA1), s, t) && Loaded(s, t, RA1, v) && Low(v) == MiddleValue(i, d)
  {
    match i.mid
    case NoMiddle => t, v := OpxLoads(i.dst, RA1, O_DT, d, s);
    case ImmMiddle(reg) => t, v := ImmLoads(Short(reg), RA1, s);
    case FPMiddle(reg) => t, v := WordLoads(reg, RFP, RA1, s);
    case MPMiddle(reg) => t, v := WordLoads(reg, RMP, RA1, s);
  }
}
