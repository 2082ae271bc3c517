/** What each Dis instruction does, in plain numbers: bytes of memory, sums and differences modulo 2^32 and signed
    comparisons.  The interpreter is proved to do this, and the theorems about compiled code are stated with it. */
module DisEffects {
  import opened Arm64
  import opened Basics
  import opened Dis

  /** The little-endian numbers at x. */
  function Word(m: Mem, x: int): int { m(x) + 0x100 * m(x + 1) + 0x1_0000 * m(x + 2) + 0x100_0000 * m(x + 3) }

  function Pointer(m: Mem, x: int): int { Word(m, x) + TWO32 * Word(m, x + 4) }

  /** Where an operand lies. */
  function Place(a: Operand, d: DState): int {
    match a
    case FP(ind) => (d.fp + ind) % TWO64
    case MP(ind) => (d.mp + ind) % TWO64
    case IndFP(f, s) => (Pointer(d.mem, (d.fp + f) % TWO64) + s) % TWO64
    case IndMP(f, s) => (Pointer(d.mem, (d.mp + f) % TWO64) + s) % TWO64
    case _ => 0
  }

  function Source(i: Inst, d: DState): int { if i.src.Imm? then i.src.imm % TWO32 else Word(d.mem, Place(i.src, d)) }

  /** The middle operand: the destination where there is none, and an immediate is a signed 16-bit number. */
  function MiddleOf(i: Inst, d: DState): int {
    match i.mid
    case NoMiddle => Word(d.mem, Place(i.dst, d))
    case ImmMiddle(reg) => ((reg + 0x8000) % TWO16 - 0x8000) % TWO32
    case FPMiddle(reg) => Word(d.mem, (d.fp + reg) % TWO64)
    case MPMiddle(reg) => Word(d.mem, (d.mp + reg) % TWO64)
  }

  /** Bit by bit. */
  ghost predicate IsAnd(a: u32, b: u32, w: u32) { w == ((a as bv32) & (b as bv32)) as int }

  ghost predicate IsOr(a: u32, b: u32, w: u32) { w == ((a as bv32) | (b as bv32)) as int }

  ghost predicate IsXor(a: u32, b: u32, w: u32) { w == ((a as bv32) ^ (b as bv32)) as int }

  /** w is what the operation makes of the middle operand and the source. */
  ghost predicate Makes(op: AluOp, mid: u32, src: u32, w: u32) {
    match op
    case Add => w == (mid + src) % TWO32
    case Sub => w == (mid - src) % TWO32
    case Mul => w == (mid * src) % TWO32
    case And => IsAnd(mid, src, w)
    case Or => IsOr(mid, src, w)
    case Xor => IsXor(mid, src, w)
  }

  /** A word as the C program sees it. */
  function AsInt(w: int): int { (w + 0x8000_0000) % TWO32 - 0x8000_0000 }

  predicate Relates(rel: Rel, src: int, mid: int) {
    match rel
    case EQW => src == mid
    case NEW => src != mid
    case LTW => src < mid
    case LEW => src <= mid
    case GTW => src > mid
    case GEW => src >= mid
  }

  /** Only the word at x differs. */
  ghost predicate SameBut(m: Mem, m1: Mem, x: int) {
    forall y {:trigger m1(y)} :: !(x <= y < x + 4) ==> m1(y) == m(y)
  }

  ghost predicate Same(m: Mem, m1: Mem) { forall y {:trigger m1(y)} :: m1(y) == m(y) }

  /** The instruction takes d to e. */
  ghost predicate Effect(i: Inst, d: DState, e: DState) {
    e.fp == d.fp && e.mp == d.mp &&
    match i.op
    case MovW =>
      SameBut(d.mem, e.mem, Place(i.dst, d)) && Word(e.mem, Place(i.dst, d)) == Source(i, d) && e.pc == d.pc + 1
    case Arith(op) =>
      SameBut(d.mem, e.mem, Place(i.dst, d)) && e.pc == d.pc + 1 &&
      Makes(op, MiddleOf(i, d), Source(i, d), Word(e.mem, Place(i.dst, d)))
    case Branch(rel) =>
      Same(d.mem, e.mem) && i.dst.Target? &&
      e.pc == if Relates(rel, AsInt(Source(i, d)), AsInt(MiddleOf(i, d))) then i.dst.ins else d.pc + 1
    case Jmp => Same(d.mem, e.mem) && i.dst.Target? && e.pc == i.dst.ins
  }

  // ----- the interpreter does that

  lemma LoadsWord(m: Mem, x: int)
    ensures Load32(m, x) == Word(m, x)
  {
    var b := Bytes(m, x, 4);
    LittleFirst(b);
    LittleFirst(b[1..]);
    LittleFirst(b[2..]);
    LittleFirst(b[3..]);
    assert b[1..][1..] == b[2..] && b[2..][1..] == b[3..] && b[3..][1..] == [];
  }

  lemma LittleFirst(b: seq<byte>)
    requires b != []
    ensures LittleEndian(b) == b[0] + 256 * LittleEndian(b[1..])
  {
  }

  lemma {:induction false} LittleSplit(b: seq<byte>, n: nat)
    requires n <= |b|
    ensures LittleEndian(b) == LittleEndian(b[..n]) + Pow256(n) * LittleEndian(b[n..])
    decreases n
  {
    if n == 0 {
      assert b[0..] == b;
    } else {
      LittleSplit(b[1..], n - 1);
      assert b[..n][1..] == b[1..][..n - 1] && b[1..][n - 1..] == b[n..];
      Distribute(b[0], LittleEndian(b[1..][..n - 1]), Pow256(n - 1), LittleEndian(b[n..]));
    }
  }

  lemma Distribute(a: int, x: int, p: int, y: int)
    ensures a + 256 * (x + p * y) == (a + 256 * x) + (256 * p) * y
  {
  }

  lemma LoadsPointer(m: Mem, x: int)
    ensures Load64(m, x) == Pointer(m, x)
  {
    var b := Bytes(m, x, 8);
    LittleSplit(b, 4);
    assert b[..4] == Bytes(m, x, 4) && b[4..] == Bytes(m, x + 4, 4);
    Powers();
    LoadsWord(m, x);
    LoadsWord(m, x + 4);
  }

  lemma IndirectIs(m: Mem, b: u64, f: nat, s: nat)
    ensures Wrap(Load64(m, Wrap(b + f)) + s) == (Pointer(m, (b + f) % TWO64) + s) % TWO64
  {
    WrapIsModulo(b + f);
    LoadsPointer(m, Wrap(b + f));
    WrapIsModulo(Load64(m, Wrap(b + f)) + s);
  }

  lemma AddressIs(a: Operand, d: DState)
    ensures Address(a, d) == Place(a, d)
  {
    match a
    case FP(ind) => WrapIsModulo(d.fp + ind);
    case MP(ind) => WrapIsModulo(d.mp + ind);
    case IndFP(f, s) => IndirectIs(d.mem, d.fp, f, s);
    case IndMP(f, s) => IndirectIs(d.mem, d.mp, f, s);
    case _ =>
  }

  lemma ValueIs(i: Inst, d: DState)
    ensures Value(i.src, d) == Source(i, d)
  {
    AddressIs(i.src, d);
    LoadsWord(d.mem, Address(i.src, d));
  }

  lemma MiddleIs(i: Inst, d: DState)
    ensures MiddleValue(i, d) == MiddleOf(i, d)
  {
    match i.mid
    case NoMiddle =>
      AddressIs(i.dst, d);
      LoadsWord(d.mem, Address(i.dst, d));
    case ImmMiddle(reg) => ShortIs(reg);
    case FPMiddle(reg) =>
      WrapIsModulo(d.fp + reg);
      LoadsWord(d.mem, Wrap(d.fp + reg));
    case MPMiddle(reg) =>
      WrapIsModulo(d.mp + reg);
      LoadsWord(d.mem, Wrap(d.mp + reg));
  }

  lemma ShortIs(reg: nat)
    ensures Short(reg) == (reg + 0x8000) % TWO16 - 0x8000
  {
  }

  lemma AndIs(a: u32, b: u32)
    ensures IsAnd(a, b, AndW(a, b))
  {
  }

  lemma OrIs(a: u32, b: u32)
    ensures IsOr(a, b, OrW(a, b))
  {
  }

  lemma XorIs(a: u32, b: u32)
    ensures IsXor(a, b, XorW(a, b))
  {
  }

  lemma AluMakes(op: AluOp, mid: u32, src: u32)
    ensures Makes(op, mid, src, Alu(op, mid, src))
  {
    match op
    case And => AndIs(mid, src);
    case Or => OrIs(mid, src);
    case Xor => XorIs(mid, src);
    case _ =>
  }

  lemma StoreWrites(m: Mem, x: int, w: u32)
    ensures SameBut(m, Store32(m, x, w), x) && Word(Store32(m, x, w), x) == w
  {
    LoadStored32(m, x, w);
    LoadsWord(Store32(m, x, w), x);
  }

  lemma CompareIs(rel: Rel, a: u32, b: u32)
    ensures Compare(rel, a, b) <==> Relates(rel, AsInt(a), AsInt(b))
  {
    assert Signed(a) == AsInt(a) && Signed(b) == AsInt(b);
  }

  lemma ArithMeans(i: Inst, n: nat, d: DState)
    requires Loadable(i, n) && i.op.Arith?
    ensures Effect(i, d, Execute(i, n, d))
  {
    var w := Alu(i.op.op, MiddleValue(i, d), Value(i.src, d));
    AddressIs(i.dst, d);
    ValueIs(i, d);
    MiddleIs(i, d);
    StoreWrites(d.mem, Address(i.dst, d), w);
    AluMakes(i.op.op, MiddleValue(i, d), Value(i.src, d));
  }

  lemma BranchMeans(i: Inst, n: nat, d: DState)
    requires Loadable(i, n) && i.op.Branch?
    ensures Effect(i, d, Execute(i, n, d))
  {
    ValueIs(i, d);
    MiddleIs(i, d);
    CompareIs(i.op.rel, Value(i.src, d), MiddleValue(i, d));
  }

  /** Every instruction of the interpreter has the effect stated. */
  lemma ExecuteMeans(i: Inst, n: nat, d: DState)
    requires Loadable(i, n)
    ensures Effect(i, d, Execute(i, n, d))
  {
    match i.op
    case MovW =>
      AddressIs(i.dst, d);
      ValueIs(i, d);
      StoreWrites(d.mem, Address(i.dst, d), Value(i.src, d));
    case Arith(_) => ArithMeans(i, n, d);
    case Branch(_) => BranchMeans(i, n, d);
    case Jmp =>
  }

  /** And no other: what has it agrees with what the interpreter does. */
  lemma EffectDetermines(i: Inst, n: nat, d: DState, e: DState)
    requires Loadable(i, n) && Effect(i, d, e)
    ensures var f := Execute(i, n, d); e.fp == f.fp && e.mp == f.mp && e.pc == f.pc && Same(f.mem, e.mem)
  {
    ExecuteMeans(i, n, d);
    if i.op.MovW? {
      WordDetermines(d.mem, e.mem, Execute(i, n, d).mem, Place(i.dst, d));
    } else if i.op.Arith? {
      MakesOne(i.op.op, MiddleOf(i, d), Source(i, d), Word(e.mem, Place(i.dst, d)),
               Word(Execute(i, n, d).mem, Place(i.dst, d)));
      WordDetermines(d.mem, e.mem, Execute(i, n, d).mem, Place(i.dst, d));
    }
  }

  lemma MakesOne(op: AluOp, mid: u32, src: u32, v: u32, w: u32)
    requires Makes(op, mid, src, v) && Makes(op, mid, src, w)
    ensures v == w
  {
  }

  lemma WordDetermines(m: Mem, m1: Mem, m2: Mem, x: int)
    requires SameBut(m, m1, x) && SameBut(m, m2, x) && Word(m1, x) == Word(m2, x)
    ensures Same(m2, m1)
  {
    assert m1(x) == Word(m1, x) % 0x100 && m2(x) == Word(m2, x) % 0x100;
    assert m1(x) == m2(x) && m1(x + 1) == m2(x + 1) && m1(x + 2) == m2(x + 2) && m1(x + 3) == m2(x + 3);
    forall y {:trigger m1(y)} ensures m1(y) == m2(y) {
      if x <= y < x + 4 {
        assert y == x || y == x + 1 || y == x + 2 || y == x + 3;
      } else {
        assert m1(y) == m(y) && m2(y) == m(y);
      }
    }
  }
}
