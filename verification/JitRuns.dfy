/** Whole runs of compiled modules. */
module JitRuns {
  import opened Arm64
  import opened Dis
  import opened Jit
  import opened JitOperands
  import opened JitSimulation

  // ----- where the code is

  lemma AppendHas(a: seq<Instr>, b: seq<Instr>, o: int, c: seq<Instr>)
    requires CodeAt(a, o, c)
    ensures CodeAt(a + b, o, c)
  {
    assert (a + b)[o..o + |c|] == a[o..o + |c|];
  }

  lemma AppendedAt(a: seq<Instr>, b: seq<Instr>)
    ensures CodeAt(a + b, |a|, b)
  {
    assert (a + b)[|a|..|a| + |b|] == b;
  }

  lemma {:induction false} ConcatHas(p: seq<seq<Instr>>, k: nat, n: nat)
    requires k < n <= |p|
    ensures CodeAt(Concat(p, n), |Concat(p, k)|, p[k])
    ensures |Concat(p, k + 1)| == |Concat(p, k)| + |p[k]|
    decreases n
  {
    if k == n - 1 {
      AppendedAt(Concat(p, k), p[k]);
    } else {
      ConcatHas(p, k, n - 1);
      AppendHas(Concat(p, n - 1), p[n - 1], |Concat(p, k)|, p[k]);
    }
  }

  /** The code of instruction k stands at its patch entry. */
  lemma CodeHas(prog: seq<Inst>, k: nat)
    requires k < |prog|
    ensures CodeAt(Code(prog), Offset(prog, k), Pieces(prog, |prog|)[k])
    ensures Offset(prog, k + 1) == Offset(prog, k) + |Pieces(prog, |prog|)[k]|
  {
    var p := Pieces(prog, |prog|);
    ConcatHas(p, k, |prog|);
    PrefixLength(prog, k);
    PrefixLength(prog, k + 1);
    AppendHas(Concat(p, |prog|), RelQ(), Offset(prog, k), p[k]);
  }

  /** The macro stands behind everything. */
  lemma MacroAt(prog: seq<Inst>)
    ensures CodeAt(Code(prog), Offset(prog, |prog|), RelQ())
  {
    PrefixLength(prog, |prog|);
    AppendedAt(Concat(Pieces(prog, |prog|), |prog|), RelQ());
  }

  // ----- one instruction

  /** The machine is about to do instruction d.pc, `skip` instructions into its code. */
  ghost predicate AtInst(prog: Program, r: u64, d: DState, s: State, skip: nat) {
    d.pc < |prog| && Related(r, d, s) && s.pc == Offset(prog, d.pc) + skip && Polite(r, prog[d.pc], d)
  }

  /** t is where the machine has done instruction d.pc: the effect of the instruction is there, the
      machine is at the code of its successor, and the reschedule counter is ic. */
  ghost predicate Landed(prog: Program, r: u64, d: DState, frame: Frame, ic: int, t: State)
    requires d.pc < |prog|
  {
    var d1 := Execute(prog[d.pc], |prog|, d);
    d1.pc <= |prog| && Related(r, d1, t) && t.pc == Offset(prog, d1.pc) && t.frame == frame && Counter(r, t.mem) == ic
  }

  lemma StraightLands(prog: Program, base: u64, r: u64, d: DState, s: State, t: State)
    requires AtInst(prog, r, d, s, 0) && Exec(Pieces(prog, |prog|)[d.pc], s, t)
    requires Became(r, s, Execute(prog[d.pc], |prog|, d), t) && Execute(prog[d.pc], |prog|, d).pc == d.pc + 1
    ensures Reaches(base, Code(prog), s, t) && Landed(prog, r, d, s.frame, Counter(r, s.mem), t)
  {
    CodeHas(prog, d.pc);
    ReachesExec(base, Code(prog), Pieces(prog, |prog|)[d.pc], s, t);
  }

  lemma StraightSimulates(prog: Program, base: u64, r: u64, d: DState, s: State) returns (t: State)
    requires AtInst(prog, r, d, s, 0) && (prog[d.pc].op.MovW? || prog[d.pc].op.Arith?)
    ensures Reaches(base, Code(prog), s, t) && Landed(prog, r, d, s.frame, Counter(r, s.mem), t)
  {
    PiecesAt(prog, |prog|, d.pc);
    if prog[d.pc].op.MovW? {
      t := MovSimulates(r, prog[d.pc], |prog|, d, s);
    } else {
      t := ArithSimulates(r, prog[d.pc], |prog|, d, s);
    }
    StraightLands(prog, base, r, d, s, t);
  }

  function CheckLength(prog: Program, k: nat): nat
    requires k < |prog|
  {
    if Backward(prog[k], k) then 5 else 0
  }

  /** The branch that ends the code of a branch or jump, which stands at p. */
  function Leap(prog: Program, k: nat, p: int): Instr
    requires k < |prog| && (prog[k].op.Branch? || prog[k].op.Jmp?)
  {
    var rel := Offset(prog, prog[k].dst.ins) - p;
    match prog[k].op
    case Branch(r) => BCond(CondCode(r), rel)
    case Jmp => B(rel)
  }

  lemma Regroup(a: seq<Instr>, b: seq<Instr>, c: seq<Instr>)
    ensures (a + b) + c == a + (b + c) && |a + b| == |a| + |b|
  {
  }

  /** The code of a branch or jump: the check, the compare of a branch, the leap. */
  lemma PieceSplits(prog: Program, k: nat) returns (pre: seq<Instr>, mid: seq<Instr>)
    requires k < |prog| && (prog[k].op.Branch? || prog[k].op.Jmp?)
    ensures |pre| == CheckLength(prog, k)
    ensures Backward(prog[k], k) ==> pre == CountDown() + CheckTail(Offset(prog, |prog|), Offset(prog, k))
    ensures if prog[k].op.Branch? then mid == CompareCode(prog[k]) else mid == []
    ensures Pieces(prog, |prog|)[k] == pre + (mid + [Leap(prog, k, Offset(prog, k) + |pre| + |mid|)])
  {
    PiecesAt(prog, |prog|, k);
    pre := SchedCheck(prog[k], k, Offset(prog, |prog|), Offset(prog, k));
    if prog[k].op.Branch? {
      mid := BranchSplits(prog, k, pre);
    } else {
      mid := JmpSplits(prog, k, pre);
    }
  }

  lemma BranchSplits(prog: Program, k: nat, pre: seq<Instr>) returns (mid: seq<Instr>)
    requires k < |prog| && prog[k].op.Branch? && pre == SchedCheck(prog[k], k, Offset(prog, |prog|), Offset(prog, k))
    ensures mid == CompareCode(prog[k])
    ensures Final(prog, k) == pre + (mid + [Leap(prog, k, Offset(prog, k) + |pre| + |mid|)])
  {
    mid := CompareCode(prog[k]);
    Regroup(pre, mid, [Leap(prog, k, Offset(prog, k) + |pre| + |mid|)]);
  }

  lemma JmpSplits(prog: Program, k: nat, pre: seq<Instr>) returns (mid: seq<Instr>)
    requires k < |prog| && prog[k].op.Jmp? && pre == SchedCheck(prog[k], k, Offset(prog, |prog|), Offset(prog, k))
    ensures mid == []
    ensures Final(prog, k) == pre + (mid + [Leap(prog, k, Offset(prog, k) + |pre| + |mid|)])
  {
    mid := [];
    Regroup(pre, mid, [Leap(prog, k, Offset(prog, k) + |pre| + |mid|)]);
  }

  /** Where the pieces of a branch or jump stand. */
  lemma LeapAt(prog: Program, k: nat, p: int) returns (pre: seq<Instr>, mid: seq<Instr>)
    requires k < |prog| && (prog[k].op.Branch? || prog[k].op.Jmp?) && p == Offset(prog, k) + CheckLength(prog, k)
    ensures if prog[k].op.Branch? then mid == CompareCode(prog[k]) else mid == []
    ensures Backward(prog[k], k) ==> pre == CountDown() + CheckTail(Offset(prog, |prog|), Offset(prog, k))
    ensures CodeAt(Code(prog), Offset(prog, k), pre)
    ensures CodeAt(Code(prog), p, mid + [Leap(prog, k, p + |mid|)])
    ensures Offset(prog, k + 1) == p + |mid| + 1
  {
    CodeHas(prog, k);
    pre, mid := PieceSplits(prog, k);
    var o := Offset(prog, k);
    assert o + |pre| == p;
    var rest := mid + [Leap(prog, k, p + |mid|)];
    CodeAtSplit(Code(prog), o, pre, rest);
  }

  lemma CodeThenBranch(base: u64, code: seq<Instr>, r: u64, d: DState, c: seq<Instr>, b: Instr, s: State, s1: State)
    returns (t: State)
    requires Exec(c, s, s1) && CodeAt(code, s.pc, c + [b]) && Related(r, d, s1) && (b.B? || b.BCond?)
    ensures Reaches(base, code, s, t) && Related(r, d, t) && t.frame == s1.frame && t.mem == s1.mem
    ensures s1.pc == s.pc + |c| && t.pc == s1.pc + if b.B? || Arm64.Holds(b.cc, s1.flags) then b.rel else 1
  {
    CodeAtSplit(code, s.pc, c, [b]);
    ReachesExec(base, code, c, s, s1);
    CodeAtOne(code, s1.pc, b);
    ReachesStep(base, code, s1);
    StepKeeps(r, d, s1, base, b);
    t := Step(base, b, s1);
    ReachesOn(base, code, s, s1, t);
  }

  lemma MiddleSimulates(prog: Program, r: u64, d: DState, s: State, mid: seq<Instr>) returns (t: State)
    requires d.pc < |prog| && Related(r, d, s) && Polite(r, prog[d.pc], d)
    requires prog[d.pc].op.Branch? || prog[d.pc].op.Jmp?
    requires if prog[d.pc].op.Branch? then mid == CompareCode(prog[d.pc]) else mid == []
    ensures Exec(mid, s, t) && Became(r, s, d, t)
    ensures var b := Leap(prog, d.pc, 0); var e := Execute(prog[d.pc], |prog|, d);
      e == d.(pc := if b.B? || Arm64.Holds(b.cc, t.flags) then prog[d.pc].dst.ins else d.pc + 1)
  {
    if prog[d.pc].op.Branch? {
      t := CompareSimulates(r, prog[d.pc], |prog|, d, s);
    } else {
      t := s;
      ExecNone(s);
    }
  }

  lemma MiddleLands(prog: Program, r: u64, d: DState, s: State, s1: State, b: Instr, t: State)
    requires d.pc < |prog| && (prog[d.pc].op.Branch? || prog[d.pc].op.Jmp?)
    requires b == Leap(prog, d.pc, s1.pc) && Related(r, d, t) && t.frame == s.frame
    requires Offset(prog, d.pc + 1) == s1.pc + 1
    requires var taken := b.B? || Arm64.Holds(b.cc, s1.flags);
      t.pc == s1.pc + (if taken then b.rel else 1) &&
      Execute(prog[d.pc], |prog|, d) == d.(pc := if taken then prog[d.pc].dst.ins else d.pc + 1)
    ensures Landed(prog, r, d, s.frame, Counter(r, t.mem), t)
  {
    RelatedPc(r, d, t, Execute(prog[d.pc], |prog|, d).pc);
  }

  lemma MiddleRuns(prog: Program, r: u64, d: DState, s: State) returns (mid: seq<Instr>, t: State)
    requires d.pc < |prog| && AtInst(prog, r, d, s, CheckLength(prog, d.pc))
    requires prog[d.pc].op.Branch? || prog[d.pc].op.Jmp?
    ensures Exec(mid, s, t) && Became(r, s, d, t)
    ensures CodeAt(Code(prog), s.pc, mid + [Leap(prog, d.pc, s.pc + |mid|)])
    ensures Offset(prog, d.pc + 1) == s.pc + |mid| + 1
    ensures var b := Leap(prog, d.pc, s.pc + |mid|); var e := Execute(prog[d.pc], |prog|, d);
      e == d.(pc := if b.B? || Arm64.Holds(b.cc, t.flags) then prog[d.pc].dst.ins else d.pc + 1)
  {
    var pre;
    pre, mid := LeapAt(prog, d.pc, s.pc);
    t := MiddleSimulates(prog, r, d, s, mid);
  }

  /** Behind the check, where the machine also resumes, a branch or jump does its instruction. */
  lemma Resumes(prog: Program, base: u64, r: u64, d: DState, s: State) returns (t: State)
    requires d.pc < |prog| && AtInst(prog, r, d, s, CheckLength(prog, d.pc))
    requires prog[d.pc].op.Branch? || prog[d.pc].op.Jmp?
    ensures Reaches(base, Code(prog), s, t) && Landed(prog, r, d, s.frame, Counter(r, s.mem), t)
  {
    var mid, s1 := MiddleRuns(prog, r, d, s);
    var b := Leap(prog, d.pc, s.pc + |mid|);
    t := CodeThenBranch(base, Code(prog), r, d, mid, b, s, s1);
    MiddleLands(prog, r, d, s, s1, b, t);
  }

  lemma BackwardSimulates(prog: Program, base: u64, r: u64, d: DState, s: State) returns (t: State)
    requires AtInst(prog, r, d, s, 0) && Backward(prog[d.pc], d.pc) && Counter(r, s.mem) > 1
    ensures Reaches(base, Code(prog), s, t) && Landed(prog, r, d, s.frame, Counter(r, s.mem) - 1, t)
  {
    var pre, mid := LeapAt(prog, d.pc, s.pc + 5);
    var s1 := CheckPasses(r, base, Code(prog), d, s, Offset(prog, |prog|));
    t := Resumes(prog, base, r, d, s1);
    ReachesOn(base, Code(prog), s, s1, t);
  }

  /** From the code of an instruction the machine lands at the code of its successor, with the effect of
      the instruction; a backward branch has counted down.  A backward branch with the counter at one or
      below is the other case. */
  lemma Simulates(prog: Program, base: u64, r: u64, d: DState, s: State) returns (t: State)
    requires AtInst(prog, r, d, s, 0)
    requires Backward(prog[d.pc], d.pc) ==> Counter(r, s.mem) > 1
    ensures Reaches(base, Code(prog), s, t)
    ensures Landed(prog, r, d, s.frame, Counter(r, s.mem) - if Backward(prog[d.pc], d.pc) then 1 else 0, t)
  {
    var i := prog[d.pc];
    if i.op.MovW? || i.op.Arith? {
      t := StraightSimulates(prog, base, r, d, s);
    } else if Backward(i, d.pc) {
      t := BackwardSimulates(prog, base, r, d, s);
    } else {
      t := Resumes(prog, base, r, d, s);
    }
  }
}
