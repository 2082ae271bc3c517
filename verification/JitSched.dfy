/** Compiled code and the scheduler: giving the processor back, resuming, and whole runs. */
module JitSched {
  import opened Arm64
  import opened Dis
  import opened DisEffects
  import opened Jit
  import opened JitOperands
  import opened JitSimulation
  import opened JitRuns

  // ----- the macro

  /** Storing register q in field o of the virtual machine's registers leaves field `keep` alone. */
  lemma FieldStores(r: u64, d: DState, s: State, o: nat, q: nat, keep: nat) returns (t: State)
    requires Related(r, d, s) && o + 8 <= REGSIZE && (o + 8 <= O_MP || O_MP + 8 <= o) && q < ZR && q != RCON
    requires keep + 8 <= o || o + 8 <= keep
    ensures Exec(EmitMem(Stp, o, RREG, q), s, t) && Related(r, d, t) && t.frame == s.frame && Spares(s, t, RCON)
    ensures Load64(t.mem, r + o) == s.x[q] && Load64(t.mem, r + keep) == Load64(s.mem, r + keep)
  {
    t := StoreStores(X, o, RREG, q, s);
    AgreeInside(r, d.mem, s.mem, o, s.x[q]);
    LoadStored64(s.mem, r + o, s.x[q]);
    LoadOther(s.mem, r + o, ToBytes(s.x[q], 8), r + keep, 8);
    LoadOther(s.mem, r + o, ToBytes(s.x[q], 8), r + O_MP, 8);
  }

  /** The machine has left the code for the address it was entered from: the virtual machine's registers hold
      what is needed to go on at native instruction p, and the caller's registers are back. */
  ghost predicate Parked(base: u64, r: u64, d: DState, p: nat, frame: Frame, t: State) {
    t.pc == -1 && r + REGSIZE <= TWO64 && Agree(r, d.mem, t.mem) &&
    Load64(t.mem, r + O_FP) == d.fp && Load64(t.mem, r + O_MP) == d.mp && Load64(t.mem, r + O_PC) == Link(base, p) &&
    t.x[RREG] == frame[0] && t.x[RFP] == frame[1] && t.x[RMP] == frame[2] && t.x[RLR2] == frame[3] &&
    t.x[RLINK] == Load64(t.mem, r + O_XPC)
  }

  function Exit(): seq<Instr> { [RestorePair(RMP, RLR2, 2), RestorePair(RREG, RFP, 0)] }

  lemma Exits(s: State) returns (t: State)
    ensures Exec(Exit(), s, t) && t.mem == s.mem
    ensures t.x[RREG] == s.frame[0] && t.x[RFP] == s.frame[1] && t.x[RMP] == s.frame[2] && t.x[RLR2] == s.frame[3]
    ensures t.x[RLINK] == s.x[RLINK]
  {
    var i, j := RestorePair(RMP, RLR2, 2), RestorePair(RREG, RFP, 0);
    ExecOne(i, s);
    var s1 := Step(0, i, s);
    ExecOne(j, s1);
    t := Step(0, j, s1);
    ExecAppend([i], [j], s, s1, t);
    assert Exit() == [i] + [j];
  }

  lemma MacroSaves(base: u64, r: u64, d: DState, p: nat, s: State) returns (t: State)
    requires Related(r, d, s) && s.x[RLINK] == Link(base, p)
    ensures Exec(EmitMem(Stp, O_FP, RREG, RFP) + EmitMem(Stp, O_PC, RREG, RLINK), s, t)
    ensures Related(r, d, t) && t.frame == s.frame
    ensures Load64(t.mem, r + O_FP) == d.fp && Load64(t.mem, r + O_PC) == Link(base, p)
  {
    var s1 := FieldStores(r, d, s, O_FP, RFP, O_PC);
    assert s1.x[RLINK] == s.x[RLINK];
    t := FieldStores(r, d, s1, O_PC, RLINK, O_FP);
    ExecAppend(EmitMem(Stp, O_FP, RREG, RFP), EmitMem(Stp, O_PC, RREG, RLINK), s, s1, t);
  }

  lemma MacroParks(base: u64, r: u64, d: DState, p: nat, s: State) returns (t: State)
    requires Related(r, d, s) && s.x[RLINK] == Link(base, p)
    ensures Exec(EmitMem(Stp, O_FP, RREG, RFP) + EmitMem(Stp, O_PC, RREG, RLINK) + EmitMem(Ldp, O_XPC, RREG, RLINK) +
            Exit(), s, t)
    ensures Parked(base, r, d, p, s.frame, t.(pc := -1))
  {
    var c1, c2 := EmitMem(Stp, O_FP, RREG, RFP) + EmitMem(Stp, O_PC, RREG, RLINK), EmitMem(Ldp, O_XPC, RREG, RLINK);
    var s1 := MacroSaves(base, r, d, p, s);
    var s2 := LoadLoads(X, O_XPC, RREG, RLINK, s1);
    ExecAppend(c1, c2, s, s1, s2);
    t := Exits(s2);
    ExecAppend(c1 + c2, Exit(), s, s2, t);
  }

  lemma Leaves(base: u64, code: seq<Instr>, c: seq<Instr>, s: State, t: State) returns (u: State)
    requires Exec(c, s, t) && CodeAt(code, s.pc, c + [RET(RLINK)])
    ensures Reaches(base, code, s, u) && u == t.(pc := -1)
  {
    CodeAtSplit(code, s.pc, c, [RET(RLINK)]);
    ReachesExec(base, code, c, s, t);
    CodeAtOne(code, t.pc, RET(RLINK));
    ReachesStep(base, code, t);
    u := Step(base, RET(RLINK), t);
    ReachesOn(base, code, s, t, u);
  }

  lemma MacroIs()
    ensures RelQ() == EmitMem(Stp, O_FP, RREG, RFP) + EmitMem(Stp, O_PC, RREG, RLINK) +
      EmitMem(Ldp, O_XPC, RREG, RLINK) + Exit() + [RET(RLINK)]
  {
  }

  lemma MacroRuns(prog: Program, base: u64, r: u64, d: DState, p: nat, s: State) returns (t: State)
    requires Related(r, d, s) && s.x[RLINK] == Link(base, p) && s.pc == Offset(prog, |prog|)
    ensures Reaches(base, Code(prog), s, t) && Parked(base, r, d, p, s.frame, t)
  {
    MacroAt(prog);
    MacroIs();
    var s1 := MacroParks(base, r, d, p, s);
    t := Leaves(base, Code(prog),
                EmitMem(Stp, O_FP, RREG, RFP) + EmitMem(Stp, O_PC, RREG, RLINK) + EmitMem(Ldp, O_XPC, RREG, RLINK) +
                    Exit(), s, s1);
  }

  /** A backward branch with the counter at one or below gives the processor back before it does
      anything, to go on behind its check. */
  lemma Yields(prog: Program, base: u64, r: u64, d: DState, s: State) returns (t: State)
    requires AtInst(prog, r, d, s, 0) && Backward(prog[d.pc], d.pc) && Counter(r, s.mem) <= 1
    ensures Reaches(base, Code(prog), s, t) && Parked(base, r, d, Offset(prog, d.pc) + 5, s.frame, t)
  {
    var pre, mid := LeapAt(prog, d.pc, s.pc + 5);
    var s1 := CheckYields(r, base, Code(prog), d, s, Offset(prog, |prog|));
    t := MacroRuns(prog, base, r, d, s.pc + 5, s1);
    ReachesOn(base, Code(prog), s, s1, t);
  }

  // ----- resuming

  /** The native instruction a resume address names. */
  function PcOf(base: u64, a: u64): int { if a >= base then (a - base) / 4 else -1 }

  /** A turn: the quantum, and the machine as the scheduler enters the stub with it but for memory: registers,
      flags and frame are the scheduler's own. */
  datatype Turn = Turn(quantum: u32, caller: State)

  /** What the stub is entered with once the machine has left in s. */
  function Entry(r: u64, turn: Turn, s: State): State {
    turn.caller.(mem := Store32(s.mem, r + O_IC, turn.quantum))
  }

  /** The scheduler gives the machine that left in s that turn and calls the entry stub; the stub leaves the machine
      in t. */
  ghost predicate Dispatched(base: u64, r: u64, turn: Turn, s: State, t: State) {
    exists u: State {:trigger Exec(Preamble(r), Entry(r, turn, s), u)} ::
      Exec(Preamble(r), Entry(r, turn, s), u) && t == u.(pc := PcOf(base, u.x[RIP]))
  }

  lemma LoadField(r: u64, s: State, o: nat, q: nat) returns (t: State)
    requires s.x[RREG] == r && r + REGSIZE <= TWO64 && o + 8 <= REGSIZE && q < ZR && q != RREG
    ensures Exec(EmitMem(Ldp, o, RREG, q), s, t) && Loaded(s, t, q, Load64(s.mem, r + o))
  {
    t := LoadLoads(X, o, RREG, q, s);
  }

  function Save(): seq<Instr> { [SavePair(RREG, RFP, 0), SavePair(RMP, RLR2, 2)] }

  lemma Saves(c: State) returns (t: State)
    ensures Exec(Save(), c, t) && t.mem == c.mem
    ensures t.frame[0] == c.x[RREG] && t.frame[1] == c.x[RFP] && t.frame[2] == c.x[RMP] && t.frame[3] == c.x[RLR2]
    ensures t.x[RLINK] == c.x[RLINK]
  {
    var i, j := SavePair(RREG, RFP, 0), SavePair(RMP, RLR2, 2);
    ExecOne(i, c);
    var s1 := Step(0, i, c);
    ExecOne(j, s1);
    t := Step(0, j, s1);
    ExecAppend([i], [j], c, s1, t);
    assert Save() == [i] + [j];
  }

  lemma StubStart(r: u64, c: State) returns (t: State)
    ensures Exec(Save() + Con(r, RREG), c, t) && t.mem == c.mem && t.x[RREG] == r
    ensures t.frame[0] == c.x[RREG] && t.frame[1] == c.x[RFP] && t.frame[2] == c.x[RMP] && t.frame[3] == c.x[RLR2]
    ensures t.x[RLINK] == c.x[RLINK]
  {
    var s1 := Saves(c);
    t := ConLoads(r, RREG, s1);
    ExecAppend(Save(), Con(r, RREG), c, s1, t);
  }

  lemma StubLoads(r: u64, s: State) returns (t: State)
    requires s.x[RREG] == r && r + REGSIZE <= TWO64
    ensures Exec(EmitMem(Ldp, O_FP, RREG, RFP) + EmitMem(Ldp, O_MP, RREG, RMP) + EmitMem(Ldp, O_PC, RREG, RIP), s, t)
    ensures t.mem == s.mem && t.frame == s.frame && t.x[RREG] == r
    ensures t.x[RFP] == Load64(s.mem, r + O_FP) && t.x[RMP] == Load64(s.mem, r + O_MP) &&
            t.x[RIP] == Load64(s.mem, r + O_PC)
  {
    var s1 := LoadField(r, s, O_FP, RFP);
    var s2 := LoadField(r, s1, O_MP, RMP);
    t := LoadField(r, s2, O_PC, RIP);
    assert s2.x[RFP] == s1.x[RFP] && t.x[RFP] == s2.x[RFP] && t.x[RMP] == s2.x[RMP];
    var c1, c2, c3 := EmitMem(Ldp, O_FP, RREG, RFP), EmitMem(Ldp, O_MP, RREG, RMP), EmitMem(Ldp, O_PC, RREG, RIP);
    ExecAppend(c1, c2, s, s1, s2);
    ExecAppend(c1 + c2, c3, s, s2, t);
  }

  /** What the quantum store and the stub's own store leave of a parked machine. */
  lemma ParkedFields(base: u64, r: u64, d: DState, p: nat, frame: Frame, s: State, q: u32, link: u64)
    requires Parked(base, r, d, p, frame, s)
    ensures var m := Store64(Store32(s.mem, r + O_IC, q), r + O_XPC, link);
      Agree(r, d.mem, m) && Load64(m, r + O_FP) == d.fp && Load64(m, r + O_MP) == d.mp &&
      Load64(m, r + O_PC) == Link(base, p) && Load32(m, r + O_IC) == q && Load64(m, r + O_XPC) == link
  {
    var m1 := Store32(s.mem, r + O_IC, q);
    AgreeInside(r, d.mem, s.mem, O_IC, q);
    LowWord(q);
    AgreeInside(r, d.mem, m1, O_XPC, link);
    LoadStored32(s.mem, r + O_IC, q);
    LoadOther(m1, r + O_XPC, ToBytes(link, 8), r + O_IC, 4);
    LoadStored64(m1, r + O_XPC, link);
    FieldKept(s.mem, r, q, link, O_FP);
    FieldKept(s.mem, r, q, link, O_MP);
    FieldKept(s.mem, r, q, link, O_PC);
  }

  lemma FieldKept(m: Mem, r: u64, q: u32, link: u64, o: nat)
    requires o + 8 <= O_IC
    ensures Load64(Store64(Store32(m, r + O_IC, q), r + O_XPC, link), r + o) == Load64(m, r + o)
  {
    LoadOther(m, r + O_IC, ToBytes(q, 4), r + o, 8);
    LoadOther(Store32(m, r + O_IC, q), r + O_XPC, ToBytes(link, 8), r + o, 8);
  }

  lemma LinkReturns(base: u64, p: nat)
    requires base + 4 * p < TWO64
    ensures PcOf(base, Link(base, p)) == p
  {
    assert Link(base, p) == base + 4 * p;
  }

  lemma StubIs(r: u64)
    ensures Preamble(r) == (Save() + Con(r, RREG)) + EmitMem(Stp, O_XPC, RREG, RLINK) +
      (EmitMem(Ldp, O_FP, RREG, RFP) + EmitMem(Ldp, O_MP, RREG, RMP) + EmitMem(Ldp, O_PC, RREG, RIP))
  {
  }

  /** A parked machine that is dispatched with any turn goes on where it left, with the same frame and
      module pointers, on the same memory; the dispatcher's registers are saved. */
  lemma Resumed(base: u64, r: u64, d: DState, p: nat, frame: Frame, s: State, turn: Turn) returns (t: State)
    requires Parked(base, r, d, p, frame, s) && base + 4 * p < TWO64
    ensures Load64(t.mem, r + O_XPC) == turn.caller.x[RLINK]
    ensures Dispatched(base, r, turn, s, t) && Related(r, d, t) && t.pc == p
    ensures Counter(r, t.mem) == Signed(turn.quantum)
    ensures var x := turn.caller.x;
      t.frame[0] == x[RREG] && t.frame[1] == x[RFP] && t.frame[2] == x[RMP] && t.frame[3] == x[RLR2]
  {
    var c := Entry(r, turn, s);
    var s1 := StubStart(r, c);
    var s2 := StoreStores(X, O_XPC, RREG, RLINK, s1);
    ParkedFields(base, r, d, p, frame, s, turn.quantum, s1.x[RLINK]);
    var u := StubLoads(r, s2);
    var c1, c2 := Save() + Con(r, RREG), EmitMem(Stp, O_XPC, RREG, RLINK);
    var c3 := EmitMem(Ldp, O_FP, RREG, RFP) + EmitMem(Ldp, O_MP, RREG, RMP) + EmitMem(Ldp, O_PC, RREG, RIP);
    ExecAppend(c1, c2, c, s1, s2);
    ExecAppend(c1 + c2, c3, c, s2, u);
    StubIs(r);
    LinkReturns(base, p);
    t := u.(pc := PcOf(base, u.x[RIP]));
    assert Exec(Preamble(r), c, u);
  }

  // ----- whole runs

  /** The instruction at m of that run has its effect, and stays off the virtual machine's registers. */
  ghost predicate Follows(prog: Program, r: u64, ds: seq<DState>, m: nat)
    requires m + 1 < |ds|
  {
    var d := ds[m];
    d.pc < |prog| && Polite(r, prog[d.pc], d) && Effect(prog[d.pc], d, ds[m + 1])
  }

  /** A run of the program. */
  ghost predicate Run(prog: Program, r: u64, ds: seq<DState>) {
    forall m: nat {:trigger Follows(prog, r, ds, m)} :: m + 1 < |ds| ==> Follows(prog, r, ds, m)
  }

  /** The interpreter's runs are such runs. */
  lemma InterpreterRuns(prog: Program, r: u64, ds: seq<DState>)
    requires forall m: nat {:trigger ds[m]} :: m + 1 < |ds| ==>
               ds[m].pc < |prog| && Polite(r, prog[ds[m].pc], ds[m]) &&
               ds[m + 1] == Execute(prog[ds[m].pc], |prog|, ds[m])
    ensures Run(prog, r, ds)
  {
    forall m: nat {:trigger Follows(prog, r, ds, m)} | m + 1 < |ds| ensures Follows(prog, r, ds, m) {
      ExecuteMeans(prog[ds[m].pc], |prog|, ds[m]);
    }
  }

  /** From s the machine passes through t, giving the processor back and being dispatched again with the
      turns number i up to j. */
  ghost predicate Travels(base: u64, code: seq<Instr>, r: u64, turns: nat -> Turn, i: nat, j: nat, s: State, t: State)
    decreases j - i
  {
    if i >= j then i == j && Reaches(base, code, s, t)
    else exists a: State, b: State {:trigger Dispatched(base, r, turns(i), a, b)} ::
        Reaches(base, code, s, a) && a.pc == -1 && Dispatched(base, r, turns(i), a, b) &&
        Travels(base, code, r, turns, i + 1, j, b, t)
  }

  lemma {:induction false} TravelsOn(base: u64, code: seq<Instr>, r: u64, turns: nat -> Turn, i: nat, j: nat, k: nat,
                                     s: State, t: State, u: State)
    requires Travels(base, code, r, turns, i, j, s, t) && Travels(base, code, r, turns, j, k, t, u)
    ensures Travels(base, code, r, turns, i, k, s, u)
    decreases j - i
  {
    if i >= j {
      if j < k {
        var a: State, b: State :| Reaches(base, code, t, a) && a.pc == -1 && Dispatched(base, r, turns(j), a, b) &&
          Travels(base, code, r, turns, j + 1, k, b, u);
        ReachesOn(base, code, s, t, a);
      } else {
        ReachesOn(base, code, s, t, u);
      }
    } else {
      var a: State, b: State :| Reaches(base, code, s, a) && a.pc == -1 && Dispatched(base, r, turns(i), a, b) &&
        Travels(base, code, r, turns, i + 1, j, b, t);
      TravelsOn(base, code, r, turns, i + 1, j, k, b, t, u);
    }
  }

  /** The machine is where it does instruction d.pc next. */
  ghost predicate Ahead(prog: Program, r: u64, d: DState, s: State) {
    d.pc <= |prog| && Related(r, d, s) && s.pc == Offset(prog, d.pc)
  }

  /** What has the effect of the instruction is as good as what the interpreter makes. */
  lemma EffectAhead(prog: Program, r: u64, d: DState, e: DState, s: State)
    requires d.pc < |prog| && Effect(prog[d.pc], d, e) && Ahead(prog, r, Execute(prog[d.pc], |prog|, d), s)
    ensures Ahead(prog, r, e, s)
  {
    EffectDetermines(prog[d.pc], |prog|, d, e);
  }

  /** One instruction, with a trip to the scheduler when the check asks for it. */
  lemma TravelsOne(prog: Program, base: u64, r: u64, turns: nat -> Turn, i: nat, d: DState, e: DState, s: State)
    returns (j: nat, t: State)
    requires Ahead(prog, r, d, s) && d.pc < |prog| && Polite(r, prog[d.pc], d) && base + 4 * |Code(prog)| < TWO64
    requires Effect(prog[d.pc], d, e)
    ensures i <= j && Travels(base, Code(prog), r, turns, i, j, s, t) && Ahead(prog, r, e, t)
  {
    if Backward(prog[d.pc], d.pc) && Counter(r, s.mem) <= 1 {
      j := i + 1;
      var a := Yields(prog, base, r, d, s);
      CheckInside(prog, d.pc);
      var p := Offset(prog, d.pc) + 5;
      var b := Resumed(base, r, d, p, s.frame, a, turns(i));
      t := Resumes(prog, base, r, d, b);
      assert Travels(base, Code(prog), r, turns, i + 1, j, b, t);
    } else {
      j := i;
      t := Simulates(prog, base, r, d, s);
    }
    EffectAhead(prog, r, d, e, t);
  }

  lemma CheckInside(prog: Program, k: nat)
    requires k < |prog| && Backward(prog[k], k)
    ensures Offset(prog, k) + 5 < |Code(prog)|
  {
    var pre, mid := LeapAt(prog, k, Offset(prog, k) + 5);
  }

  /** Compiler correctness.  Whatever quanta the scheduler deals out, and whatever registers it enters with, the
      compiled module does every run of the program, each instruction with its effect: after any number k of Dis
      instructions the machine can be found at the code of the next one, with the run's registers and memory. */
  lemma {:induction false} CompiledRuns(prog: Program, base: u64, r: u64, turns: nat -> Turn, i: nat,
                                        ds: seq<DState>, s: State, k: nat) returns (j: nat, t: State)
    requires Run(prog, r, ds) && k < |ds| && Ahead(prog, r, ds[0], s) && base + 4 * |Code(prog)| < TWO64
    ensures i <= j && Travels(base, Code(prog), r, turns, i, j, s, t)
    ensures Ahead(prog, r, ds[k], t)
    decreases k
  {
    if k == 0 {
      ReachesSelf(base, Code(prog), s);
      j, t := i, s;
    } else {
      var m, s1 := CompiledRuns(prog, base, r, turns, i, ds, s, k - 1);
      assert Follows(prog, r, ds, k - 1);
      j, t := TravelsOne(prog, base, r, turns, m, ds[k - 1], ds[k], s1);
      TravelsOn(base, Code(prog), r, turns, i, m, j, s, s1, t);
    }
  }

  // ----- the processor comes back

  /** At m of that run the counter is positive, and `left` instructions follow, the most that can be done before
      it runs out. */
  ghost predicate Due(prog: Program, r: u64, ds: seq<DState>, m: nat, s: State, left: nat) {
    Run(prog, r, ds) && m + left < |ds| && Ahead(prog, r, ds[m], s) && Counter(r, s.mem) > 0 &&
    left == Counter(r, s.mem) * |prog| - ds[m].pc + 1
  }

  /** The machine stands parked in front of e's instruction, a jump back. */
  ghost predicate GaveBack(prog: Program, base: u64, r: u64, e: DState, frame: Frame, t: State) {
    e.pc < |prog| && Backward(prog[e.pc], e.pc) && Parked(base, r, e, Offset(prog, e.pc) + 5, frame, t)
  }

  /** With the counter at ic > 0 the machine gives the processor back after at most ic * |prog| Dis
      instructions, all of which have been done. */
  lemma {:induction false} ReturnsInTime(prog: Program, base: u64, r: u64, ds: seq<DState>, m: nat, s: State, left: nat)
    returns (k: nat, t: State)
    requires Due(prog, r, ds, m, s, left)
    ensures m <= k < m + left && Reaches(base, Code(prog), s, t)
    ensures GaveBack(prog, base, r, ds[k], s.frame, t)
    decreases left
  {
    DuePolite(prog, r, ds, m, s, left);
    if Backward(prog[ds[m].pc], ds[m].pc) && Counter(r, s.mem) <= 1 {
      k := m;
      t := Yields(prog, base, r, ds[m], s);
    } else {
      var s1, left1 := StillDue(prog, base, r, ds, m, s, left);
      k, t := ReturnsInTime(prog, base, r, ds, m + 1, s1, left1);
      ReachesOn(base, Code(prog), s, s1, t);
    }
  }

  lemma DuePolite(prog: Program, r: u64, ds: seq<DState>, m: nat, s: State, left: nat)
    requires Due(prog, r, ds, m, s, left)
    ensures left > 0 && Follows(prog, r, ds, m)
  {
    LeftPositive(Counter(r, s.mem), |prog|, ds[m].pc);
    assert Follows(prog, r, ds, m);
  }

  /** What is left to do drops with every instruction. */
  lemma StillDue(prog: Program, base: u64, r: u64, ds: seq<DState>, m: nat, s: State, left: nat)
    returns (s1: State, left1: nat)
    requires Due(prog, r, ds, m, s, left) && left > 0 && Follows(prog, r, ds, m)
    requires !(Backward(prog[ds[m].pc], ds[m].pc) && Counter(r, s.mem) <= 1)
    ensures Due(prog, r, ds, m + 1, s1, left1) && left1 < left
    ensures Reaches(base, Code(prog), s, s1) && s1.frame == s.frame
  {
    s1 := StepsAhead(prog, base, r, ds[m], ds[m + 1], s);
    left1 := LeftDrops(Counter(r, s.mem), Counter(r, s1.mem), |prog|, ds[m].pc, ds[m + 1].pc, left);
  }

  /** One instruction without a trip to the scheduler counts down or moves forward. */
  lemma StepsAhead(prog: Program, base: u64, r: u64, d: DState, e: DState, s: State) returns (t: State)
    requires Ahead(prog, r, d, s) && d.pc < |prog| && Polite(r, prog[d.pc], d) && Effect(prog[d.pc], d, e)
    requires Counter(r, s.mem) > (if Backward(prog[d.pc], d.pc) then 1 else 0)
    ensures Reaches(base, Code(prog), s, t) && Ahead(prog, r, e, t) && t.frame == s.frame
    ensures var ic, ic1 := Counter(r, s.mem), Counter(r, t.mem);
            ic1 > 0 && ((ic1 == ic && d.pc < e.pc) || ic1 == ic - 1)
  {
    t := Simulates(prog, base, r, d, s);
    EffectDetermines(prog[d.pc], |prog|, d, e);
    EffectAhead(prog, r, d, e, t);
  }

  lemma LeftPositive(ic: int, n: nat, pc: nat)
    requires ic > 0 && pc <= n
    ensures ic * n - pc >= 0
  {
    assert ic * n >= 1 * n;
  }

  lemma LeftDrops(ic: int, ic1: int, n: nat, pc: nat, pc1: nat, left: nat) returns (left1: nat)
    requires ic1 > 0 && pc < n && pc1 <= n && left == ic * n - pc + 1
    requires (ic1 == ic && pc < pc1) || (ic1 == ic - 1)
    ensures left1 == ic1 * n - pc1 + 1 && left1 < left
  {
    LeftPositive(ic1, n, pc1);
    left1 := ic1 * n - pc1 + 1;
    if ic1 == ic - 1 {
      assert ic * n == ic1 * n + n;
    }
  }
}
