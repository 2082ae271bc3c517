/**
  The jump tables of a module under the two-pass compiler: marking a table by negating its count in the
  first pass, relocating its destinations in the second, and undoing the marks when compilation fails.

  Memory is the module's data as words.  A case table is a count, entries of three or six words whose third
  or fifth word is the destination, and a default destination.  A goto table is destinations alone, with the
  count in the word before them.
 */
module CaseTables {
  /** ICASE; ICASEL and ICASEC, which lay their tables out alike. */
  datatype Kind = Narrow | Wide

  /** `at` is the word index of the table's count, for a goto of its first destination. */
  datatype Inst = Case(kind: Kind, at: nat) | Goto(at: nat) | Other

  function Lead(k: Kind): nat { if k == Narrow then 1 else 2 }

  function Stride(k: Kind): nat { if k == Narrow then 3 else 6 }

  function DstAt(k: Kind): nat { if k == Narrow then 2 else 4 }

  /** Where entry i begins, or the default destination if there are i entries. */
  function Entry(k: Kind, at: nat, i: nat): nat { if i == 0 then at + Lead(k) else Entry(k, at, i - 1) + Stride(k) }

  /** w is the destination of one of the first n entries. */
  predicate IsDst(k: Kind, at: nat, n: nat, w: int) {
    n > 0 && (IsDst(k, at, n - 1, w) || w == Entry(k, at, n - 1) + DstAt(k))
  }

  lemma {:induction false} DstInside(k: Kind, at: nat, n: nat, w: int)
    requires IsDst(k, at, n, w)
    ensures at < w < Entry(k, at, n)
  {
    if IsDst(k, at, n - 1, w) { DstInside(k, at, n - 1, w); } else { EntryAfter(k, at, n - 1); }
  }

  lemma {:induction false} EntryAfter(k: Kind, at: nat, n: nat)
    ensures at < Entry(k, at, n)
  {
    if n > 0 { EntryAfter(k, at, n - 1); }
  }

  lemma {:induction false} EntryGrows(k: Kind, at: nat, i: nat, n: nat)
    requires i < n
    ensures Entry(k, at, i) + Stride(k) <= Entry(k, at, n)
  {
    if i < n - 1 { EntryGrows(k, at, i, n - 1); }
  }

  /** The count in a table, read from memory m; 0 outside it. */
  function CountAt(m: seq<int>, i: Inst): int {
    match i
    case Case(_, at) => if at < |m| then m[at] else 0
    case Goto(at) => if 0 < at <= |m| then m[at - 1] else 0
    case Other => 0
  }

  function Size(m: seq<int>, i: Inst): nat { if CountAt(m, i) < 0 then 0 else CountAt(m, i) }

  /** The words of a table, from Lo up to Hi. */
  function Lo(i: Inst): int { match i case Case(_, at) => at case Goto(at) => at - 1 case Other => 0 }

  function Hi(m: seq<int>, i: Inst): int {
    match i
    case Case(k, at) => Entry(k, at, Size(m, i)) + 1
    case Goto(at) => at + Size(m, i)
    case Other => 0
  }

  /** w is a destination of the table i has in memory m. */
  predicate IsSlot(m: seq<int>, i: Inst, w: int) {
    match i
    case Case(k, at) => IsSlotOf(k, at, Size(m, i), w)
    case Goto(at) => at <= w < at + Size(m, i)
    case Other => false
  }

  /** IsSlot of a case whose count is n. */
  predicate IsSlotOf(k: Kind, at: nat, n: nat, w: int) { IsDst(k, at, n, w) || w == Entry(k, at, n) }

  /** The word the compiler marks a case with. */
  predicate IsCount(i: Inst, w: int) { i.Case? && w == i.at }

  lemma SlotInside(m: seq<int>, i: Inst, w: int)
    requires IsSlot(m, i, w)
    ensures Lo(i) < w < Hi(m, i)
  {
    if i.Case? {
      EntryAfter(i.kind, i.at, Size(m, i));
      if IsDst(i.kind, i.at, Size(m, i), w) { DstInside(i.kind, i.at, Size(m, i), w); }
    }
  }

  // ----- what the loader builds

  /** The table lies in memory, its count is not negative, and its destinations are Dis pcs. */
  ghost predicate Loaded(m: seq<int>, i: Inst, pcs: nat) {
    i.Other? || (0 <= Lo(i) && Hi(m, i) <= |m| && CountAt(m, i) >= 0 &&
                 forall w {:trigger m[w]} :: 0 <= w < |m| && IsSlot(m, i, w) ==> 0 <= m[w] < pcs)
  }

  /** Two instructions use one table or two that do not overlap. */
  predicate Apart(m: seq<int>, i: Inst, j: Inst) {
    i.Other? || j.Other? || i == j || Hi(m, i) <= Lo(j) || Hi(m, j) <= Lo(i)
  }

  ghost predicate Good(m: seq<int>, prog: seq<Inst>, pcs: nat) {
    (forall i {:trigger prog[i]} :: 0 <= i < |prog| ==> Loaded(m, prog[i], pcs)) &&
    forall i, j {:trigger prog[i], prog[j]} :: 0 <= i < |prog| && 0 <= j < |prog| ==> Apart(m, prog[i], prog[j])
  }

  // ----- the words the first k instructions are about

  predicate Counts(prog: seq<Inst>, k: nat, w: int)
    requires k <= |prog|
  {
    k > 0 && (Counts(prog, k - 1, w) || IsCount(prog[k - 1], w))
  }

  predicate Slots(m: seq<int>, prog: seq<Inst>, k: nat, w: int)
    requires k <= |prog|
  {
    k > 0 && (Slots(m, prog, k - 1, w) || IsSlot(m, prog[k - 1], w))
  }

  predicate Gotos(prog: seq<Inst>, k: nat, w: int)
    requires k <= |prog|
  {
    k > 0 && (Gotos(prog, k - 1, w) || (prog[k - 1].Goto? && w == prog[k - 1].at - 1))
  }

  // ----- memory after part of a pass

  /** The address the code of Dis pc v has; 0 for what is no pc. */
  function Addr(reloc: seq<int>, v: int): int { if 0 <= v < |reloc| then reloc[v] else 0 }

  /** The word of every case's count is in memory. */
  ghost predicate Present(m: seq<int>, prog: seq<Inst>) {
    forall i {:trigger prog[i]} :: 0 <= i < |prog| && prog[i].Case? ==> prog[i].at < |m|
  }

  /** m is m0 with the counts of the first k instructions' cases marked: a count not negative becomes -count-1. */
  ghost predicate Marked(m0: seq<int>, m: seq<int>, prog: seq<Inst>, k: nat) {
    k <= |prog| && |m| == |m0| &&
    forall w {:trigger m[w]} :: 0 <= w < |m| ==> m[w] == if Counts(prog, k, w) && m0[w] >= 0 then -m0[w] - 1 else m0[w]
  }

  /** m is m0 with the marks of the first k instructions' cases undone. */
  ghost predicate Undone(m0: seq<int>, m: seq<int>, prog: seq<Inst>, k: nat) {
    k <= |prog| && |m| == |m0| &&
    forall w {:trigger m[w]} :: 0 <= w < |m| ==> m[w] == if Counts(prog, k, w) && m0[w] < 0 then -m0[w] - 1 else m0[w]
  }

  /** m is m0 with the first k instructions' tables done and the other cases still marked. */
  ghost predicate Relocated(m0: seq<int>, m: seq<int>, prog: seq<Inst>, k: nat, reloc: seq<int>) {
    k <= |prog| && |m| == |m0| &&
    forall w {:trigger m[w]} :: 0 <= w < |m| ==> WordIs(m0[w], m[w], m0, prog, k, reloc, w)
  }

  /** The word at w was a and is b when the first k instructions' tables are done. */
  ghost predicate WordIs(a: int, b: int, m0: seq<int>, prog: seq<Inst>, k: nat, reloc: seq<int>, w: int)
    requires k <= |prog|
  {
    if Slots(m0, prog, k, w) then 0 <= a < |reloc| && b == reloc[a]
    else b == if Gotos(prog, k, w) then 0
              else if Counts(prog, |prog|, w) && !Counts(prog, k, w) then -a - 1
              else a
  }

  // ----- where a table stands among the others

  lemma {:induction false} CountsOf(prog: seq<Inst>, k: nat, w: int)
    requires k <= |prog|
    ensures Counts(prog, k, w) <==> exists i {:trigger prog[i]} :: 0 <= i < k && IsCount(prog[i], w)
  {
    if k > 0 { CountsOf(prog, k - 1, w); }
  }

  lemma {:induction false} SlotsOf(m: seq<int>, prog: seq<Inst>, k: nat, w: int)
    requires k <= |prog|
    ensures Slots(m, prog, k, w) <==> exists i {:trigger prog[i]} :: 0 <= i < k && IsSlot(m, prog[i], w)
  {
    if k > 0 { SlotsOf(m, prog, k - 1, w); }
  }

  lemma {:induction false} GotosOf(prog: seq<Inst>, k: nat, w: int)
    requires k <= |prog|
    ensures Gotos(prog, k, w) <==> exists i {:trigger prog[i]} :: 0 <= i < k && prog[i].Goto? && w == prog[i].at - 1
  {
    if k > 0 { GotosOf(prog, k - 1, w); }
  }

  predicate Seen(prog: seq<Inst>, k: nat)
    requires k < |prog|
  {
    exists i :: 0 <= i < k && prog[i] == prog[k]
  }

  /** The words of a table not met before belong to no earlier one. */
  lemma Fresh(m: seq<int>, prog: seq<Inst>, pcs: nat, k: nat, w: int)
    requires Good(m, prog, pcs) && k < |prog| && !Seen(prog, k) && !prog[k].Other? && Lo(prog[k]) <= w < Hi(m, prog[k])
    ensures !Slots(m, prog, k, w) && !Counts(prog, k, w) && !Gotos(prog, k, w)
  {
    SlotsOf(m, prog, k, w);
    CountsOf(prog, k, w);
    GotosOf(prog, k, w);
    forall i | 0 <= i < k
      ensures !IsSlot(m, prog[i], w) && !IsCount(prog[i], w) && !(prog[i].Goto? && w == prog[i].at - 1) {
      assert Apart(m, prog[i], prog[k]);
      if IsSlot(m, prog[i], w) { SlotInside(m, prog[i], w); }
      if prog[i].Case? { EntryAfter(prog[i].kind, prog[i].at, Size(m, prog[i])); }
    }
  }

  /** A table met before adds nothing. */
  lemma Again(m: seq<int>, prog: seq<Inst>, k: nat, w: int)
    requires k < |prog| && Seen(prog, k)
    ensures Slots(m, prog, k + 1, w) == Slots(m, prog, k, w)
    ensures Counts(prog, k + 1, w) == Counts(prog, k, w) && Gotos(prog, k + 1, w) == Gotos(prog, k, w)
  {
    SlotsOf(m, prog, k, w);
    CountsOf(prog, k, w);
    GotosOf(prog, k, w);
  }

  /** A word of one table is no other table's, of a different sort. */
  lemma Whole(m: seq<int>, prog: seq<Inst>, pcs: nat, k: nat, w: int)
    requires Good(m, prog, pcs) && k < |prog| && prog[k].Case? && w == prog[k].at
    ensures !Slots(m, prog, |prog|, w) && !Gotos(prog, |prog|, w) && Counts(prog, |prog|, w)
  {
    var n := |prog|;
    SlotsOf(m, prog, n, w);
    CountsOf(prog, n, w);
    GotosOf(prog, n, w);
    EntryAfter(prog[k].kind, prog[k].at, Size(m, prog[k]));
    forall i | 0 <= i < n ensures !IsSlot(m, prog[i], w) && !(prog[i].Goto? && w == prog[i].at - 1) {
      assert Apart(m, prog[i], prog[k]);
      if IsSlot(m, prog[i], w) { SlotInside(m, prog[i], w); }
    }
  }

  lemma {:induction false} EntryIs(k: Kind, at: nat, n: nat)
    ensures Entry(k, at, n) == at + Lead(k) + if k == Narrow then 3 * n else 6 * n
  {
    if n > 0 { EntryIs(k, at, n - 1); }
  }

  /** What a table not met before holds when the second pass comes to it: its count marked, the rest as loaded. */
  lemma StillMarked(m0: seq<int>, m: seq<int>, prog: seq<Inst>, k: nat, reloc: seq<int>, w: int)
    requires Good(m0, prog, |reloc|) && k < |prog| && !Seen(prog, k) && !prog[k].Other? &&
             Relocated(m0, m, prog, k, reloc)
    requires Lo(prog[k]) <= w < Hi(m0, prog[k])
    ensures 0 <= w < |m| && m[w] == if IsCount(prog[k], w) then -m0[w] - 1 else m0[w]
  {
    var i := prog[k];
    assert Loaded(m0, i, |reloc|);
    Fresh(m0, prog, |reloc|, k, w);
    CountsOf(prog, |prog|, w);
    forall j | 0 <= j < |prog| && prog[j] != i ensures !IsCount(prog[j], w) {
      assert Apart(m0, prog[j], prog[k]);
      if prog[j].Case? { EntryAfter(prog[j].kind, prog[j].at, Size(m0, prog[j])); }
    }
  }

  /** A case met before has its count back. */
  lemma StillDone(m0: seq<int>, m: seq<int>, prog: seq<Inst>, k: nat, reloc: seq<int>)
    requires Good(m0, prog, |reloc|) && k < |prog| && Seen(prog, k) && prog[k].Case? && Relocated(m0, m, prog, k, reloc)
    ensures prog[k].at < |m| && m[prog[k].at] == m0[prog[k].at] >= 0
  {
    var w := prog[k].at;
    assert Loaded(m0, prog[k], |reloc|);
    EntryAfter(prog[k].kind, w, Size(m0, prog[k]));
    Whole(m0, prog, |reloc|, k, w);
    SlotsOf(m0, prog, k, w);
    SlotsOf(m0, prog, |prog|, w);
    GotosOf(prog, k, w);
    GotosOf(prog, |prog|, w);
    Again(m0, prog, k, w);
  }

  /** A goto table met before has no count left. */
  lemma StillEmpty(m0: seq<int>, m: seq<int>, prog: seq<Inst>, k: nat, reloc: seq<int>)
    requires Good(m0, prog, |reloc|) && k < |prog| && Seen(prog, k) && prog[k].Goto? && Relocated(m0, m, prog, k, reloc)
    ensures 0 < prog[k].at <= |m| && m[prog[k].at - 1] == 0
  {
    var w := prog[k].at - 1;
    assert Loaded(m0, prog[k], |reloc|);
    SlotsOf(m0, prog, k, w);
    forall j | 0 <= j < k ensures !IsSlot(m0, prog[j], w) {
      assert Apart(m0, prog[j], prog[k]);
      if IsSlot(m0, prog[j], w) { SlotInside(m0, prog[j], w); }
    }
    Again(m0, prog, k, w);
  }

  /** Instruction k leaves memory alone when its table was met before. */
  lemma RelocatedAgain(m0: seq<int>, m: seq<int>, prog: seq<Inst>, k: nat, reloc: seq<int>)
    requires k < |prog| && Seen(prog, k) && Relocated(m0, m, prog, k, reloc)
    ensures Relocated(m0, m, prog, k + 1, reloc)
  {
    forall w {:trigger m[w]} | 0 <= w < |m| ensures WordIs(m0[w], m[w], m0, prog, k + 1, reloc, w) {
      Again(m0, prog, k, w);
    }
  }

  /** One word, when instruction k does its table: a slot moves, a case's count comes back, a goto's becomes 0. */
  ghost predicate DoneAt(m0: seq<int>, a: int, b: int, i: Inst, w: int, reloc: seq<int>)
    requires 0 <= w < |m0|
  {
    b == if IsSlot(m0, i, w) then Addr(reloc, m0[w])
         else if i.Goto? && w == i.at - 1 then 0
         else if IsCount(i, w) then m0[w] else a
  }

  lemma RelocatedFresh(m0: seq<int>, m: seq<int>, n: seq<int>, prog: seq<Inst>, k: nat, reloc: seq<int>)
    requires Good(m0, prog, |reloc|) && k < |prog| && !Seen(prog, k) && Relocated(m0, m, prog, k, reloc) && |n| == |m|
    requires forall w {:trigger n[w]} :: 0 <= w < |m| ==> DoneAt(m0, m[w], n[w], prog[k], w, reloc)
    ensures Relocated(m0, n, prog, k + 1, reloc)
  {
    var i := prog[k];
    assert Loaded(m0, i, |reloc|);
    forall w | 0 <= w < |n|
      ensures if Slots(m0, prog, k + 1, w) then 0 <= m0[w] < |reloc| && n[w] == reloc[m0[w]]
              else n[w] == if Gotos(prog, k + 1, w) then 0
                           else if Counts(prog, |prog|, w) && !Counts(prog, k + 1, w) then -m0[w] - 1 else m0[w] {
      FreshWord(m0, m[w], n[w], prog, k, reloc, w);
      assert m[w] == m[w];
    }
  }

  lemma FreshWord(m0: seq<int>, a: int, b: int, prog: seq<Inst>, k: nat, reloc: seq<int>, w: int)
    requires Good(m0, prog, |reloc|) && k < |prog| && !Seen(prog, k) && 0 <= w < |m0|
    requires DoneAt(m0, a, b, prog[k], w, reloc)
    requires if Slots(m0, prog, k, w) then 0 <= m0[w] < |reloc| && a == reloc[m0[w]]
             else a == if Gotos(prog, k, w) then 0
                       else if Counts(prog, |prog|, w) && !Counts(prog, k, w) then -m0[w] - 1 else m0[w]
    ensures if Slots(m0, prog, k + 1, w) then 0 <= m0[w] < |reloc| && b == reloc[m0[w]]
            else b == if Gotos(prog, k + 1, w) then 0
                      else if Counts(prog, |prog|, w) && !Counts(prog, k + 1, w) then -m0[w] - 1 else m0[w]
  {
    var i := prog[k];
    assert Loaded(m0, i, |reloc|);
    if !i.Other? && Lo(i) <= w < Hi(m0, i) {
      Fresh(m0, prog, |reloc|, k, w);
      assert m0[w] == m0[w];
    } else {
      if IsSlot(m0, i, w) { SlotInside(m0, i, w); }
      if i.Case? { EntryAfter(i.kind, i.at, Size(m0, i)); }
    }
  }

  lemma {:induction false} SomeDst(k: Kind, at: nat, j: nat, n: nat)
    requires j < n
    ensures IsDst(k, at, n, Entry(k, at, j) + DstAt(k))
  {
    if j < n - 1 { SomeDst(k, at, j, n - 1); }
  }

  lemma SlotPast(k: Kind, at: nat, n: nat)
    ensures !IsSlotOf(k, at, n, at)
  {
    EntryAfter(k, at, n);
    if IsDst(k, at, n, at) { DstInside(k, at, n, at); }
  }

  lemma GoodPresent(m: seq<int>, prog: seq<Inst>)
    requires Good(m, prog, |prog|)
    ensures Present(m, prog)
    ensures forall i {:trigger prog[i]} :: 0 <= i < |prog| && prog[i].Goto? ==> 0 < prog[i].at <= |m|
  {
    forall i | 0 <= i < |prog| && prog[i].Case? ensures prog[i].at < |m| {
      assert Loaded(m, prog[i], |prog|);
      EntryAfter(prog[i].kind, prog[i].at, Size(m, prog[i]));
    }
    forall i | 0 <= i < |prog| && prog[i].Goto? ensures 0 < prog[i].at <= |m| { assert Loaded(m, prog[i], |prog|); }
  }

  /** Before the second pass nothing is relocated and every case is marked. */
  lemma MarkedStarts(m0: seq<int>, m: seq<int>, prog: seq<Inst>, reloc: seq<int>)
    requires Good(m0, prog, |reloc|) && Marked(m0, m, prog, |prog|)
    ensures Relocated(m0, m, prog, 0, reloc)
  {
    forall w {:trigger m[w]} | 0 <= w < |m| ensures m[w] == if Counts(prog, |prog|, w) then -m0[w] - 1 else m0[w] {
      CountsOf(prog, |prog|, w);
      if Counts(prog, |prog|, w) {
        var i :| 0 <= i < |prog| && IsCount(prog[i], w);
        assert Loaded(m0, prog[i], |reloc|);
      }
    }
  }

  /** What ComCase finds in a table not met before. */
  lemma CaseReady(m0: seq<int>, m: seq<int>, prog: seq<Inst>, k: nat, reloc: seq<int>)
    requires Good(m0, prog, |reloc|) && k < |prog| && !Seen(prog, k) && prog[k].Case? &&
             Relocated(m0, m, prog, k, reloc)
    ensures prog[k].at < |m| && m[prog[k].at] == -m0[prog[k].at] - 1 < 0 && -m[prog[k].at] - 1 == Size(m0, prog[k])
    ensures Entry(prog[k].kind, prog[k].at, Size(m0, prog[k])) < |m|
    ensures forall w {:trigger m[w]} :: 0 <= w < |m| && IsSlot(m0, prog[k], w) ==> m[w] == m0[w] && 0 <= m[w] < |reloc|
  {
    var i := prog[k];
    assert Loaded(m0, i, |reloc|);
    EntryAfter(i.kind, i.at, Size(m0, i));
    StillMarked(m0, m, prog, k, reloc, i.at);
    forall w | 0 <= w < |m| && IsSlot(m0, i, w) ensures m[w] == m0[w] && 0 <= m[w] < |reloc| {
      SlotInside(m0, i, w);
      StillMarked(m0, m, prog, k, reloc, w);
    }
  }

  /** What ComGoto finds in a table not met before. */
  lemma GotoReady(m0: seq<int>, m: seq<int>, prog: seq<Inst>, k: nat, reloc: seq<int>)
    requires Good(m0, prog, |reloc|) && k < |prog| && !Seen(prog, k) && prog[k].Goto? &&
             Relocated(m0, m, prog, k, reloc)
    ensures 0 < prog[k].at && prog[k].at + Size(m0, prog[k]) <= |m| && m[prog[k].at - 1] == Size(m0, prog[k])
    ensures forall w {:trigger m[w]} :: 0 <= w < |m| && IsSlot(m0, prog[k], w) ==> m[w] == m0[w] && 0 <= m[w] < |reloc|
  {
    var i := prog[k];
    assert Loaded(m0, i, |reloc|);
    StillMarked(m0, m, prog, k, reloc, i.at - 1);
    forall w | 0 <= w < |m| && IsSlot(m0, i, w) ensures m[w] == m0[w] && 0 <= m[w] < |reloc| {
      StillMarked(m0, m, prog, k, reloc, w);
    }
  }

  // ----- undoing

  /** Marking and undoing give the tables back exactly when no count was negative to begin with. */
  lemma UndoneIff(m0: seq<int>, m: seq<int>, n: seq<int>, prog: seq<Inst>)
    requires Marked(m0, m, prog, |prog|) && Undone(m, n, prog, |prog|) && Present(m0, prog)
    ensures n == m0 <==> forall i {:trigger prog[i]} :: 0 <= i < |prog| && prog[i].Case? ==> CountAt(m0, prog[i]) >= 0
  {
    if n == m0 {
      forall i | 0 <= i < |prog| && prog[i].Case? ensures CountAt(m0, prog[i]) >= 0 {
        var w := prog[i].at;
        CountsOf(prog, |prog|, w);
        assert IsCount(prog[i], w);
        assert n[w] == m0[w] && m[w] == m[w];
      }
    }
    if forall i {:trigger prog[i]} :: 0 <= i < |prog| && prog[i].Case? ==> CountAt(m0, prog[i]) >= 0 {
      forall w | 0 <= w < |m0| ensures n[w] == m0[w] {
        CountsOf(prog, |prog|, w);
        assert m[w] == m[w];
      }
    }
  }

  /** A case whose count is -1 comes back from a failed compilation with the count 0. */
  lemma NegativeCountLost()
    ensures Marked([-1, 7], [-1, 7], [Case(Narrow, 0)], 1) && Undone([-1, 7], [0, 7], [Case(Narrow, 0)], 1)
  {
    assert Counts([Case(Narrow, 0)], 1, 0) && !Counts([Case(Narrow, 0)], 1, 1);
  }

  lemma MarksUndone(m0: seq<int>, m: seq<int>, n: seq<int>, prog: seq<Inst>)
    requires Good(m0, prog, |prog|) && Marked(m0, m, prog, |prog|) && Undone(m, n, prog, |prog|)
    ensures n == m0
  {
    GoodPresent(m0, prog);
    forall i | 0 <= i < |prog| && prog[i].Case? ensures CountAt(m0, prog[i]) >= 0 {
      assert Loaded(m0, prog[i], |prog|);
    }
    UndoneIff(m0, m, n, prog);
  }

  lemma UnmarkedStays(m0: seq<int>, n: seq<int>, prog: seq<Inst>)
    requires Good(m0, prog, |prog|) && Undone(m0, n, prog, |prog|)
    ensures n == m0
  {
    forall w | 0 <= w < |m0| ensures n[w] == m0[w] {
      CountsOf(prog, |prog|, w);
      if Counts(prog, |prog|, w) {
        var i :| 0 <= i < |prog| && IsCount(prog[i], w);
        assert Loaded(m0, prog[i], |prog|);
      }
    }
  }

  /** What the interpreter reads: every case's table with its count and with each destination the code's address. */
  lemma TableDone(m0: seq<int>, m: seq<int>, prog: seq<Inst>, k: nat, reloc: seq<int>, w: int)
    requires Good(m0, prog, |reloc|) && k < |prog| && Relocated(m0, m, prog, |prog|, reloc)
    ensures prog[k].Case? ==> CountAt(m, prog[k]) == CountAt(m0, prog[k])
    ensures prog[k].Goto? ==> CountAt(m, prog[k]) == 0
    ensures 0 <= w < |m| && IsSlot(m0, prog[k], w) ==> 0 <= m0[w] < |reloc| && m[w] == reloc[m0[w]]
  {
    var i := prog[k];
    var n := |prog|;
    assert Loaded(m0, i, |reloc|);
    SlotsOf(m0, prog, n, w);
    if i.Case? {
      EntryAfter(i.kind, i.at, Size(m0, i));
      Whole(m0, prog, |reloc|, k, i.at);
    } else if i.Goto? {
      var c := i.at - 1;
      GotosOf(prog, n, c);
      SlotsOf(m0, prog, n, c);
      forall j | 0 <= j < n ensures !IsSlot(m0, prog[j], c) {
        assert Apart(m0, prog[j], prog[k]);
        if IsSlot(m0, prog[j], c) { SlotInside(m0, prog[j], c); }
      }
    }
  }

  lemma {:induction false} DstOf(k: Kind, at: nat, n: nat, i: nat)
    requires i < n
    ensures IsDst(k, at, n, if k == Narrow then at + 3 + 3 * i else at + 6 + 6 * i)
  {
    EntryIs(k, at, n - 1);
    if i < n - 1 { DstOf(k, at, n - 1, i); }
  }

  /** The word at w was a Dis pc and is its code's address. */
  predicate Became(m0: seq<int>, m: seq<int>, reloc: seq<int>, w: nat) {
    w < |m0| && w < |m| && 0 <= m0[w] < |reloc| && m[w] == reloc[m0[w]]
  }

  /** Destination i of the table at `at`: the third word of a triple, the fifth of a six, or word i of a goto. */
  predicate NarrowDst(m0: seq<int>, m: seq<int>, reloc: seq<int>, at: nat, i: nat) {
    Became(m0, m, reloc, at + 3 + 3 * i)
  }

  predicate WideDst(m0: seq<int>, m: seq<int>, reloc: seq<int>, at: nat, i: nat) {
    Became(m0, m, reloc, at + 6 + 6 * i)
  }

  predicate GotoDst(m0: seq<int>, m: seq<int>, reloc: seq<int>, at: nat, i: nat) { Became(m0, m, reloc, at + i) }

  /** The same in words: for a case of count n the third word of each of n triples, or the fifth of each of n sixes,
      and the word behind the last of them; for a goto of count n the n words there. */
  lemma TableWords(m0: seq<int>, m: seq<int>, prog: seq<Inst>, k: nat, reloc: seq<int>, n: nat)
    requires Good(m0, prog, |reloc|) && k < |prog| && Relocated(m0, m, prog, |prog|, reloc) && !prog[k].Other?
    requires n == CountAt(m0, prog[k])
    ensures match prog[k]
      case Case(Narrow, at) =>
        at < |m| && m[at] == n && Became(m0, m, reloc, at + 1 + 3 * n) &&
        forall i: nat {:trigger NarrowDst(m0, m, reloc, at, i)} :: i < n ==> NarrowDst(m0, m, reloc, at, i)
      case Case(Wide, at) =>
        at < |m| && m[at] == n && Became(m0, m, reloc, at + 2 + 6 * n) &&
        forall i: nat {:trigger WideDst(m0, m, reloc, at, i)} :: i < n ==> WideDst(m0, m, reloc, at, i)
      case Goto(at) =>
        0 < at <= |m| && m[at - 1] == 0 &&
        forall i: nat {:trigger GotoDst(m0, m, reloc, at, i)} :: i < n ==> GotoDst(m0, m, reloc, at, i)
      case Other => true
  {
    match prog[k]
    case Case(Narrow, at) =>
      EntryIs(Narrow, at, n);
      SlotBecomes(m0, m, prog, k, reloc, at + 1 + 3 * n);
      forall i: nat {:trigger NarrowDst(m0, m, reloc, at, i)} | i < n
        ensures NarrowDst(m0, m, reloc, at, i)
      {
        DstOf(Narrow, at, n, i);
        SlotBecomes(m0, m, prog, k, reloc, at + 3 + 3 * i);
      }
    case Case(Wide, at) =>
      EntryIs(Wide, at, n);
      SlotBecomes(m0, m, prog, k, reloc, at + 2 + 6 * n);
      forall i: nat {:trigger WideDst(m0, m, reloc, at, i)} | i < n
        ensures WideDst(m0, m, reloc, at, i)
      {
        DstOf(Wide, at, n, i);
        SlotBecomes(m0, m, prog, k, reloc, at + 6 + 6 * i);
      }
    case Goto(at) =>
      TableDone(m0, m, prog, k, reloc, at);
      forall i: nat {:trigger GotoDst(m0, m, reloc, at, i)} | i < n ensures GotoDst(m0, m, reloc, at, i) {
        SlotBecomes(m0, m, prog, k, reloc, at + i);
      }
    case Other =>
  }

  lemma SlotBecomes(m0: seq<int>, m: seq<int>, prog: seq<Inst>, k: nat, reloc: seq<int>, w: nat)
    requires Good(m0, prog, |reloc|) && k < |prog| && Relocated(m0, m, prog, |prog|, reloc) && IsSlot(m0, prog[k], w)
    ensures Became(m0, m, reloc, w) && CountAt(m0, prog[k]) >= 0
    ensures prog[k].Case? ==> prog[k].at < |m| && m[prog[k].at] == CountAt(m0, prog[k])
  {
    SlotInside(m0, prog[k], w);
    assert Loaded(m0, prog[k], |reloc|);
    TableDone(m0, m, prog, k, reloc, w);
  }

  /** Every word outside the tables is left alone. */
  lemma NothingElse(m0: seq<int>, m: seq<int>, prog: seq<Inst>, reloc: seq<int>, w: int)
    requires Relocated(m0, m, prog, |prog|, reloc) && 0 <= w < |m|
    requires forall i {:trigger prog[i]} :: 0 <= i < |prog| ==>
               !IsSlot(m0, prog[i], w) && !(prog[i].Goto? && w == prog[i].at - 1)
    ensures m[w] == m0[w]
  {
    SlotsOf(m0, prog, |prog|, w);
    GotosOf(prog, |prog|, w);
  }

  // ----- the compiler

  class Compiler {
    /** The module's data. */
    const mp: array<int>
    /** For each Dis pc the native address of its code, as narrow as a word of the tables. */
    const reloc: seq<int>

    constructor (data: array<int>, addrs: seq<int>)
      ensures mp == data && reloc == addrs
    {
      mp := data;
      reloc := addrs;
    }

    /** Moves the n destinations of a case's entries and its default destination. */
    method Entries(kind: Kind, at: nat, n: nat)
      requires Entry(kind, at, n) < mp.Length
      requires forall w {:trigger mp[w]} :: 0 <= w < mp.Length && IsSlotOf(kind, at, n, w) ==> 0 <= mp[w] < |reloc|
      modifies mp
      ensures forall w {:trigger mp[w]} :: 0 <= w < mp.Length ==>
                mp[w] == if IsSlotOf(kind, at, n, w) then Addr(reloc, old(mp[w])) else old(mp[w])
    {
      ghost var j := 0;
      var t := at + Lead(kind);
      EntryIs(kind, at, n);
      var e := t + if kind == Narrow then 3 * n else 6 * n;
      while t < e
        invariant 0 <= j <= n && t == Entry(kind, at, j) && e == Entry(kind, at, n)
        invariant forall w {:trigger mp[w]} :: 0 <= w < mp.Length ==>
                    mp[w] == if IsDst(kind, at, j, w) then Addr(reloc, old(mp[w])) else old(mp[w])
        decreases e - t
      {
        if j == n { assert false; }
        EntryGrows(kind, at, j, n);
        var d := t + DstAt(kind);
        if IsDst(kind, at, j, d) { DstInside(kind, at, j, d); }
        SomeDst(kind, at, j, n);
        mp[d] := reloc[mp[d]];
        t := t + Stride(kind);
        j := j + 1;
      }
      if j < n { EntryGrows(kind, at, j, n); }
      if IsDst(kind, at, n, t) { DstInside(kind, at, n, t); }
      mp[t] := reloc[mp[t]];
    }

    /** ICASE, ICASEL and ICASEC. */
    method ComCase(pass: nat, kind: Kind, at: nat)
      requires at < mp.Length
      requires pass > 0 && mp[at] < 0 ==>
                 Entry(kind, at, -mp[at] - 1) < mp.Length &&
                 forall w {:trigger mp[w]} :: 0 <= w < mp.Length && IsSlotOf(kind, at, -mp[at] - 1, w) ==>
                     0 <= mp[w] < |reloc|
      modifies mp
      ensures pass == 0 ==> forall w {:trigger mp[w]} :: 0 <= w < mp.Length ==>
                mp[w] == if w == at && old(mp[w]) >= 0 then -old(mp[w]) - 1 else old(mp[w])
      ensures pass > 0 && old(mp[at]) >= 0 ==> forall w {:trigger mp[w]} :: 0 <= w < mp.Length ==> mp[w] == old(mp[w])
      ensures pass > 0 && old(mp[at]) < 0 ==> forall w {:trigger mp[w]} :: 0 <= w < mp.Length ==>
                mp[w] == if w == at then -old(mp[w]) - 1
                         else if IsSlotOf(kind, at, -old(mp[at]) - 1, w) then reloc[old(mp[w])] else old(mp[w])
    {
      var l := mp[at];
      if pass == 0 {
        if l >= 0 { mp[at] := -l - 1; }
        return;
      }
      if l >= 0 { return; }
      SlotPast(kind, at, -l - 1);
      mp[at] := -l - 1;
      Entries(kind, at, mp[at]);
    }

    /** IGOTO. */
    method ComGoto(pass: nat, at: nat)
      requires 0 < at <= mp.Length
      requires pass > 0 && mp[at - 1] > 0 ==>
                 at + mp[at - 1] <= mp.Length && forall w {:trigger mp[w]} :: at <= w < at + mp[at - 1] ==>
                     0 <= mp[w] < |reloc|
      modifies mp
      ensures forall w {:trigger mp[w]} :: 0 <= w < mp.Length ==>
                mp[w] == if pass == 0 then old(mp[w]) else if w == at - 1 then 0
                         else if at <= w < at + old(mp[at - 1]) then reloc[old(mp[w])] else old(mp[w])
    {
      if pass == 0 { return; }
      var t, e := at, at + mp[at - 1];
      mp[at - 1] := 0;
      while t < e
        invariant at <= t && (t <= e || t == at)
        invariant forall w {:trigger mp[w]} :: 0 <= w < mp.Length ==>
                    mp[w] == if w == at - 1 then 0 else if at <= w < t then reloc[old(mp[w])] else old(mp[w])
      {
        mp[t] := reloc[mp[t]];
        t := t + 1;
      }
    }

    /** The first pass over the module: every case's count is marked, once. */
    method First(prog: seq<Inst>)
      requires Present(mp[..], prog)
      requires forall i {:trigger prog[i]} :: 0 <= i < |prog| && prog[i].Goto? ==> 0 < prog[i].at <= mp.Length
      modifies mp
      ensures Marked(old(mp[..]), mp[..], prog, |prog|)
    {
      ghost var m0 := mp[..];
      var k := 0;
      while k < |prog|
        invariant k <= |prog| && Marked(m0, mp[..], prog, k)
      {
        match prog[k] {
          case Case(kind, at) => ComCase(0, kind, at);
          case Goto(at) => ComGoto(0, at);
          case Other =>
        }
        k := k + 1;
      }
    }

    /** Instruction k in the second pass. */
    method Comp(prog: seq<Inst>, k: nat, ghost m0: seq<int>)
      requires Good(m0, prog, |reloc|) && k < |prog| && Relocated(m0, mp[..], prog, k, reloc)
      modifies mp
      ensures Relocated(m0, mp[..], prog, k + 1, reloc)
    {
      ghost var m := mp[..];
      match prog[k] {
        case Case(kind, at) =>
          if Seen(prog, k) { StillDone(m0, m, prog, k, reloc); } else { CaseReady(m0, m, prog, k, reloc); }
          ComCase(1, kind, at);
        case Goto(at) =>
          if Seen(prog, k) { StillEmpty(m0, m, prog, k, reloc); } else { GotoReady(m0, m, prog, k, reloc); }
          ComGoto(1, at);
        case Other =>
      }
      if Seen(prog, k) {
        assert mp[..] == m;
        RelocatedAgain(m0, m, prog, k, reloc);
      } else {
        RelocatedFresh(m0, m, mp[..], prog, k, reloc);
      }
    }

    /** The second pass: every count is back and every destination moved, once, however many instructions share it. */
    method Second(prog: seq<Inst>, ghost m0: seq<int>)
      requires Good(m0, prog, |reloc|) && Marked(m0, mp[..], prog, |prog|)
      modifies mp
      ensures Relocated(m0, mp[..], prog, |prog|, reloc)
    {
      MarkedStarts(m0, mp[..], prog, reloc);
      var k := 0;
      while k < |prog|
        invariant k <= |prog| && Relocated(m0, mp[..], prog, k, reloc)
      {
        Comp(prog, k, m0);
        k := k + 1;
      }
    }

    /** Undoes the marks. */
    method Uncase(prog: seq<Inst>)
      requires Present(mp[..], prog)
      modifies mp
      ensures Undone(old(mp[..]), mp[..], prog, |prog|)
    {
      ghost var m0 := mp[..];
      var k := 0;
      while k < |prog|
        invariant k <= |prog| && Undone(m0, mp[..], prog, k)
      {
        if prog[k].Case? {
          var at := prog[k].at;
          if mp[at] < 0 { mp[at] := -mp[at] - 1; }
        }
        k := k + 1;
      }
    }

    /** compile, with the two ways it can fail: no room for its own tables, and no room for the code. */
    method Compile(prog: seq<Inst>, noTables: bool, noArena: bool) returns (ok: bool)
      requires |reloc| == |prog| && Good(mp[..], prog, |prog|)
      modifies mp
      ensures ok == (!noTables && !noArena)
      ensures ok ==> Relocated(old(mp[..]), mp[..], prog, |prog|, reloc)
      ensures !ok ==> mp[..] == old(mp[..])
    {
      ghost var m0 := mp[..];
      GoodPresent(m0, prog);
      if !noTables {
        First(prog);
        if !noArena {
          Second(prog, m0);
          return true;
        }
      }
      ghost var m := mp[..];
      Uncase(prog);
      if noTables { UnmarkedStays(m0, mp[..], prog); } else { MarksUndone(m0, m, mp[..], prog); }
      ok := false;
    }
  }
}
