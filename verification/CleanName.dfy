/**
  cleanname: rewriting a path in place so that it has no empty, "." or needless ".." element.

  The specification is a stack machine over the elements of the path.  The program keeps no stack: the part of
  the array it has written is the stack's text, and it finds the element to pop by scanning back for a slash.
 */
module CleanName {
  predicate NulFree(s: string) { forall i {:trigger s[i]} :: 0 <= i < |s| ==> s[i] != '\0' }

  // ----- the elements of a path

  /** The end of the element that starts at p: the next slash or the end of s. */
  function End(s: string, p: nat): (e: nat)
    requires p <= |s|
    ensures p <= e <= |s| && (e < |s| ==> s[e] == '/')
    decreases |s| - p
  {
    if p == |s| || s[p] == '/' then p else End(s, p + 1)
  }

  lemma {:induction false} EndPlain(s: string, p: nat, i: nat)
    requires p <= i < |s| && i < End(s, p)
    ensures s[i] != '/'
    decreases |s| - p
  {
    if p < i { EndPlain(s, p + 1, i); }
  }

  /** The end found from within an element is the element's end. */
  lemma {:induction false} EndFrom(s: string, p: nat, i: nat)
    requires p <= i <= |s| && i <= End(s, p)
    ensures End(s, i) == End(s, p)
    decreases |s| - p
  {
    if p < i { EndFrom(s, p + 1, i); }
  }

  /** The elements of s from p on, without the empty ones. */
  function Elements(s: string, p: nat): seq<string>
    requires p <= |s|
    decreases |s| - p
  {
    if p == |s| then []
    else if s[p] == '/' then Elements(s, p + 1)
    else assert End(s, p) > p; [s[p..End(s, p)]] + Elements(s, End(s, p))
  }

  // ----- the stack machine

  /** The elements kept; the first `ups` are "..", which nothing pops; whether the whole path was once erased. */
  datatype State = State(stack: seq<string>, ups: nat, erased: bool)

  function Pop(stack: seq<string>): seq<string>
    requires |stack| > 0
  {
    stack[..|stack| - 1]
  }

  /** What element e does; `first` says that it starts the path. */
  function Step(rooted: bool, t: State, e: string, first: bool): State {
    if e == "." then t.(erased := t.erased || first)
    else if e == ".." then
      var u := if |t.stack| > t.ups then t.(stack := Pop(t.stack))
               else if rooted then t
               else t.(stack := t.stack + [".."], ups := |t.stack| + 1);
      u.(erased := u.erased || (!rooted && u.stack == []))
    else t.(stack := t.stack + [e])
  }

  function Fold(rooted: bool, t: State, es: seq<string>, first: bool): State
    decreases |es|
  {
    if es == [] then t else Fold(rooted, Step(rooted, t, es[0], first), es[1..], false)
  }

  // ----- the text of a stack

  function Join(stack: seq<string>): string {
    if stack == [] then "" else if |stack| == 1 then stack[0] else Join(Pop(stack)) + "/" + stack[|stack| - 1]
  }

  function Root(rooted: bool): string { if rooted then "/" else "" }

  function Text(rooted: bool, stack: seq<string>): string { Root(rooted) + Join(stack) }

  /** The name a state stands for.  An empty one is "."; one that did not start with '#' is not made to. */
  function Render(rooted: bool, t: State): string {
    var x := Text(rooted, t.stack);
    if x == "" then "." else if t.erased && x[0] == '#' then "./" + x else x
  }

  predicate Rooted(s: string) { |s| > 0 && s[0] == '/' }

  function Start(s: string): (p: nat)
    ensures p <= |s|
  {
    if Rooted(s) then 1 else 0
  }

  function Outcome(s: string): State { Fold(Rooted(s), State([], 0, false), Elements(s, Start(s)), !Rooted(s)) }

  function Clean(s: string): string { Render(Rooted(s), Outcome(s)) }

  // ----- states that arise

  predicate Plain(e: string) { e != "" && forall i {:trigger e[i]} :: 0 <= i < |e| ==> e[i] != '/' && e[i] != '\0' }

  /** Leading ".."s, none under a root, then elements that are neither "." nor "..". */
  predicate Normal(rooted: bool, t: State) {
    t.ups <= |t.stack| && (rooted ==> t.ups == 0) &&
    (forall i {:trigger t.stack[i]} :: 0 <= i < |t.stack| ==> Plain(t.stack[i]) && t.stack[i] != ".") &&
    forall i {:trigger t.stack[i]} :: 0 <= i < |t.stack| ==> (t.stack[i] == ".." <==> i < t.ups)
  }

  lemma StepNormal(rooted: bool, t: State, e: string, first: bool)
    requires Normal(rooted, t) && Plain(e)
    ensures Normal(rooted, Step(rooted, t, e, first))
  {
    var u := Step(rooted, t, e, first);
    forall i | 0 <= i < |u.stack|
      ensures Plain(u.stack[i]) && u.stack[i] != "." && (u.stack[i] == ".." <==> i < u.ups) {
      if i < |t.stack| { assert u.stack[i] == t.stack[i]; }
    }
  }

  lemma {:induction false} FoldNormal(rooted: bool, t: State, es: seq<string>, first: bool)
    requires Normal(rooted, t) && forall i {:trigger es[i]} :: 0 <= i < |es| ==> Plain(es[i])
    ensures Normal(rooted, Fold(rooted, t, es, first))
    decreases |es|
  {
    if es != [] {
      StepNormal(rooted, t, es[0], first);
      FoldNormal(rooted, Step(rooted, t, es[0], first), es[1..], false);
    }
  }

  lemma ElementPlain(s: string, p: nat)
    requires NulFree(s) && p < |s| && s[p] != '/'
    ensures p < End(s, p) && Plain(s[p..End(s, p)])
  {
    var e := s[p..End(s, p)];
    forall i | 0 <= i < |e| ensures e[i] != '/' && e[i] != '\0' {
      EndPlain(s, p, p + i);
      assert s[p + i] != '\0';
    }
  }

  lemma {:induction false} ElementsPlain(s: string, p: nat)
    requires NulFree(s) && p <= |s|
    ensures forall i {:trigger Elements(s, p)[i]} :: 0 <= i < |Elements(s, p)| ==> Plain(Elements(s, p)[i])
    decreases |s| - p
  {
    if p == |s| {
    } else if s[p] == '/' {
      ElementsPlain(s, p + 1);
    } else {
      ElementPlain(s, p);
      ElementsPlain(s, End(s, p));
    }
  }

  lemma OutcomeNormal(s: string)
    requires NulFree(s)
    ensures Normal(Rooted(s), Outcome(s))
  {
    ElementsPlain(s, Start(s));
    FoldNormal(Rooted(s), State([], 0, false), Elements(s, Start(s)), !Rooted(s));
  }

  // ----- cleaning twice

  lemma {:induction false} JoinCons(a: string, rest: seq<string>)
    requires rest != []
    ensures Join([a] + rest) == a + "/" + Join(rest)
  {
    var x := [a] + rest;
    assert Pop(x) == [a] + Pop(rest);
    if |rest| == 1 {
      assert Pop(rest) == [];
    } else {
      JoinCons(a, Pop(rest));
      assert Join(x) == (a + "/" + Join(Pop(rest))) + "/" + rest[|rest| - 1];
    }
  }

  lemma {:induction false} EndIs(s: string, p: nat, e: nat)
    requires p <= e <= |s| && (e < |s| ==> s[e] == '/') && forall i {:trigger s[i]} :: p <= i < e ==> s[i] != '/'
    ensures End(s, p) == e
    decreases e - p
  {
    if p < e { EndIs(s, p + 1, e); }
  }

  /** A plain element at p that a slash or the end follows is the first element from p. */
  lemma FirstElement(s: string, p: nat, a: string)
    requires Plain(a) && p + |a| <= |s| && s[p..p + |a|] == a && (p + |a| < |s| ==> s[p + |a|] == '/')
    ensures Elements(s, p) == [a] + Elements(s, p + |a|)
  {
    var e := p + |a|;
    forall i {:trigger s[i]} | p <= i < e ensures s[i] != '/' { assert s[i] == s[p..e][i - p]; }
    EndIs(s, p, e);
  }

  /** The elements of a stack's text are the stack. */
  lemma {:induction false} ElementsOfText(s: string, p: nat, stack: seq<string>)
    requires p <= |s| && s[p..] == Join(stack)
    requires forall i {:trigger stack[i]} :: 0 <= i < |stack| ==> Plain(stack[i])
    ensures Elements(s, p) == stack
    decreases |stack|
  {
    if stack != [] {
      var a, rest := stack[0], stack[1..];
      assert stack == [a] + rest;
      var t := s[p..];
      if rest == [] {
        assert t == a;
        FirstElement(s, p, a);
        assert Elements(s, p + |a|) == [];
      } else {
        JoinCons(a, rest);
        assert t == a + "/" + Join(rest);
        assert t[..|a|] == a && t[|a|] == '/' && t[|a| + 1..] == Join(rest);
        FirstElement(s, p, a);
        ElementsOfText(s, p + |a| + 1, rest);
      }
    }
  }

  /** Folding the rest of a normal stack onto its first i elements gives the stack. */
  lemma {:induction false} FoldStack(rooted: bool, t: State, i: nat, first: bool)
    requires Normal(rooted, t) && i <= |t.stack|
    ensures Fold(rooted, State(t.stack[..i], if i < t.ups then i else t.ups, t.erased), t.stack[i..], first) == t
    decreases |t.stack| - i
  {
    if i == |t.stack| {
      assert t.stack[..i] == t.stack;
    } else {
      var e := t.stack[i];
      var u := State(t.stack[..i], if i < t.ups then i else t.ups, t.erased);
      assert u.stack + [e] == t.stack[..i + 1];
      assert Step(rooted, u, e, first) == State(t.stack[..i + 1], if i + 1 < t.ups then i + 1 else t.ups, t.erased);
      assert t.stack[i..][1..] == t.stack[i + 1..];
      FoldStack(rooted, t, i + 1, false);
    }
  }

  lemma {:induction false} JoinNonempty(stack: seq<string>)
    requires stack != [] && Plain(stack[0])
    ensures Join(stack) != "" && Join(stack)[0] == stack[0][0]
  {
    if |stack| > 1 { JoinNonempty(Pop(stack)); }
  }

  /** Whether a name starts with an element "." that keeps it from being empty or from starting with '#'. */
  predicate Guarded(rooted: bool, t: State) {
    var x := Text(rooted, t.stack);
    x == "" || (t.erased && x[0] == '#')
  }

  lemma GuardedElements(t: State)
    requires Normal(false, t)
    ensures Elements("./" + Join(t.stack), 0) == ["."] + t.stack && Elements(".", 0) == ["."]
  {
    var r := "./" + Join(t.stack);
    EndIs(r, 0, 1);
    assert r[0..1] == ".";
    assert r[2..] == Join(t.stack);
    ElementsOfText(r, 2, t.stack);
    assert Elements(r, 1) == t.stack;
    EndIs(".", 0, 1);
    assert "."[0..1] == ".";
    assert Elements(".", 1) == [];
  }

  /** The elements of the name a state stands for are those of its stack. */
  lemma RenderElements(rooted: bool, t: State)
    requires Normal(rooted, t)
    ensures var r := Render(rooted, t);
            Rooted(r) == rooted &&
            Elements(r, Start(r)) == (if Guarded(rooted, t) then ["."] else []) + t.stack
  {
    var x := Text(rooted, t.stack);
    var r := Render(rooted, t);
    if t.stack != [] { JoinNonempty(t.stack); }
    if Guarded(rooted, t) {
      assert x == Join(t.stack);
      GuardedElements(t);
    } else {
      assert r == x;
      assert r[Start(r)..] == Join(t.stack);
      ElementsOfText(r, Start(r), t.stack);
    }
  }

  /** Cleaning is idempotent. */
  lemma CleanTwice(s: string)
    requires NulFree(s)
    ensures Clean(Clean(s)) == Clean(s)
  {
    OutcomeNormal(s);
    var rooted, t := Rooted(s), Outcome(s);
    var r := Render(rooted, t);
    RenderElements(rooted, t);
    assert t.stack[..0] == [] && t.stack[0..] == t.stack;
    if Guarded(rooted, t) {
      var es := ["."] + t.stack;
      assert es[1..] == t.stack;
      var u := Step(false, State([], 0, false), ".", true);
      FoldStack(false, t.(erased := true), 0, false);
      assert Outcome(r) == t.(erased := true);
    } else {
      assert [] + t.stack == t.stack;
      FoldStack(rooted, t.(erased := false), 0, !rooted);
      assert Outcome(r) == t.(erased := false);
    }
  }

  // ----- device names

  /** How far down an element leads. */
  function Down(e: string): int { if e == "." then 0 else if e == ".." then -1 else 1 }

  /** From n levels down, these elements never lead back out. */
  predicate Inside(n: int, es: seq<string>)
    decreases |es|
  {
    n > 0 && (es == [] || Inside(n + Down(es[0]), es[1..]))
  }

  /** The name starts with the name of a device, and goes on inside it. */
  predicate DevicePath(s: string) { s != "" && s[0] == '#' && Inside(1, Elements(s, 0)[1..]) }

  /** Once erased a path stays so; until then its first element is at the bottom of the stack, and it is erased
      exactly when the elements lead out of that one. */
  lemma {:induction false} FoldBottom(t: State, es: seq<string>, a: string)
    requires t.ups == 0 && t.stack != [] && t.stack[0] == a && !t.erased
    ensures var u := Fold(false, t, es, false);
      (u.erased <==> !Inside(|t.stack|, es)) && (!u.erased ==> u.stack != [] && u.stack[0] == a)
    decreases |es|
  {
    if es != [] {
      var v := Step(false, t, es[0], false);
      if v.erased { FoldErased(v, es[1..]); } else { FoldBottom(v, es[1..], a); }
    }
  }

  lemma {:induction false} FoldErased(t: State, es: seq<string>)
    requires t.erased && t.ups <= |t.stack|
    ensures Fold(false, t, es, false).erased
    decreases |es|
  {
    if es != [] { FoldErased(Step(false, t, es[0], false), es[1..]); }
  }

  /** A path that begins with ".." is erased later, or keeps it. */
  lemma {:induction false} FoldUps(t: State, es: seq<string>)
    requires t.ups <= |t.stack| && (t.erased || (t.ups > 0 && t.stack[0] == ".."))
    ensures var u := Fold(false, t, es, false); u.erased || (u.stack != [] && u.stack[0] == "..")
    decreases |es|
  {
    if es != [] { FoldUps(Step(false, t, es[0], false), es[1..]); }
  }

  /** Whether the path was once erased, and what is at the bottom of the stack if not. */
  lemma Bottom(s: string)
    requires NulFree(s) && s != "" && !Rooted(s)
    ensures Elements(s, 0) != [] && Plain(Elements(s, 0)[0]) && Elements(s, 0)[0][0] == s[0]
    ensures !Outcome(s).erased ==> Outcome(s).stack != [] && Outcome(s).stack[0] == Elements(s, 0)[0]
    ensures s[0] == '#' ==> (Outcome(s).erased <==> !Inside(1, Elements(s, 0)[1..]))
  {
    ElementPlain(s, 0);
    var es := Elements(s, 0);
    assert es[0] == s[0..End(s, 0)] && es[1..] == Elements(s, End(s, 0));
    var t := Step(false, State([], 0, false), es[0], true);
    assert Outcome(s) == Fold(false, t, es[1..], false);
    if es[0] == "." {
      FoldErased(t, es[1..]);
    } else if es[0] == ".." {
      FoldUps(t, es[1..]);
    } else {
      FoldBottom(t, es[1..], es[0]);
    }
  }

  /** The cleaned name starts with '#', naming a device, exactly if the name did and stays inside the device. */
  lemma NoNewDevice(s: string)
    requires NulFree(s)
    ensures Clean(s) != "" && (Clean(s)[0] == '#' <==> DevicePath(s))
  {
    OutcomeNormal(s);
    var t := Outcome(s);
    if t.stack != [] { JoinNonempty(t.stack); }
    if s != "" && !Rooted(s) { Bottom(s); }
  }

  /** It starts with "./" exactly if it is relative, its first element starts with '#', and it is not to name a
      device. */
  lemma GuardedIff(s: string)
    requires NulFree(s)
    ensures |Clean(s)| >= 2 && Clean(s)[..2] == "./" <==>
            !Rooted(s) && !DevicePath(s) && Join(Outcome(s).stack) != "" && Join(Outcome(s).stack)[0] == '#'
  {
    OutcomeNormal(s);
    var t := Outcome(s);
    var x := Text(Rooted(s), t.stack);
    if t.stack != [] { JoinNonempty(t.stack); }
    if s != "" && !Rooted(s) { Bottom(s); }
    assert ("./" + x)[..2] == "./";
    if Clean(s) == x && !Rooted(s) && |x| >= 2 { DotFirst(t); }
    if Clean(s) == x && Rooted(s) { assert x[0] == '/'; }
  }

  /** The text of a stack does not start with the element ".". */
  lemma DotFirst(t: State)
    requires Normal(false, t) && |Join(t.stack)| >= 2
    ensures Join(t.stack)[..2] != "./"
  {
    var x := Join(t.stack);
    assert x[0..] == x;
    ElementsOfText(x, 0, t.stack);
    if x[..2] == "./" { DotElement(x); }
  }

  lemma DotElement(x: string)
    requires |x| >= 2 && x[..2] == "./"
    ensures Elements(x, 0) != [] && Elements(x, 0)[0] == "."
  {
    assert x[0] == x[..2][0] && x[1] == x[..2][1];
    EndIs(x, 0, 1);
    assert x[0..1] == ".";
  }

  // ----- where a path leads

  /** One element walked from directory d, which is given by the names on the way to it from the root. */
  function Go(d: seq<string>, e: string): seq<string> {
    if e == "." then d else if e == ".." then (if d == [] then d else Pop(d)) else d + [e]
  }

  function Walk(d: seq<string>, es: seq<string>): seq<string> {
    if es == [] then d else Go(Walk(d, Pop(es)), es[|es| - 1])
  }

  lemma {:induction false} WalkAppend(d: seq<string>, es: seq<string>, fs: seq<string>)
    ensures Walk(d, es + fs) == Walk(Walk(d, es), fs)
    decreases |fs|
  {
    if fs == [] {
      assert es + fs == es;
    } else {
      assert Pop(es + fs) == es + Pop(fs);
      WalkAppend(d, es, Pop(fs));
    }
  }

  /** The stack leads where the elements seen lead. */
  lemma WalkStep(rooted: bool, t: State, e: string, first: bool, d: seq<string>)
    requires Normal(rooted, t) && (rooted ==> d == [])
    ensures Walk(d, Step(rooted, t, e, first).stack) == Go(Walk(d, t.stack), e)
  {
    if e == ".." && |t.stack| > t.ups {
      var top := t.stack[|t.stack| - 1];
      assert top != "." && top != "..";
    } else if e == "." || (e == ".." && rooted) {
    } else {
      assert Pop(t.stack + [e]) == t.stack;
    }
  }

  lemma {:induction false} WalkFold(rooted: bool, t: State, es: seq<string>, first: bool, d: seq<string>)
    requires Normal(rooted, t) && (rooted ==> d == [])
    requires forall i {:trigger es[i]} :: 0 <= i < |es| ==> Plain(es[i])
    ensures Walk(d, Fold(rooted, t, es, first).stack) == Walk(Walk(d, t.stack), es)
    decreases |es|
  {
    if es != [] {
      var e := es[0];
      StepNormal(rooted, t, e, first);
      WalkStep(rooted, t, e, first, d);
      WalkFold(rooted, Step(rooted, t, e, first), es[1..], false, d);
      var w := Walk(d, t.stack);
      assert es == [e] + es[1..];
      WalkAppend(w, [e], es[1..]);
      assert Pop([e]) == [];
      assert Walk(w, [e]) == Go(Walk(w, []), e);
    }
  }

  /** A name and its cleaned form lead to the same place from every directory, when no element is a link. */
  lemma SamePlace(s: string, d: seq<string>)
    requires NulFree(s)
    ensures Rooted(Clean(s)) == Rooted(s)
    ensures var from := if Rooted(s) then [] else d;
            Walk(from, Elements(Clean(s), Start(Clean(s)))) == Walk(from, Elements(s, Start(s)))
  {
    OutcomeNormal(s);
    ElementsPlain(s, Start(s));
    var rooted, t := Rooted(s), Outcome(s);
    var from := if rooted then [] else d;
    WalkFold(rooted, State([], 0, false), Elements(s, Start(s)), !rooted, from);
    RenderElements(rooted, t);
    if Guarded(rooted, t) {
      WalkAppend(from, ["."], t.stack);
      assert Pop(["."]) == [];
      assert Walk(from, ["."]) == Go(Walk(from, []), ".");
    } else {
      assert [] + t.stack == t.stack;
    }
  }

  // ----- what is written stays behind what is read

  predicate AtElement(s: string, p: nat) { p < |s| && s[p] != '/' }

  /** The text written when p is next to be read leaves room for what the next step may write. */
  predicate Fits(s: string, p: nat, rooted: bool, t: State) {
    var l := |Text(rooted, t.stack)|;
    var gap := if AtElement(s, p) then 1 else 0;
    l <= p <= |s| && (l == |Root(rooted)| || l + gap <= p) &&
        (t.erased ==> if l == 0 then 1 + gap <= p else l + 2 + gap <= p)
  }

  lemma TextPush(rooted: bool, stack: seq<string>, e: string)
    ensures Text(rooted, stack + [e]) == Text(rooted, stack) + (if stack == [] then e else "/" + e)
  {
    assert Pop(stack + [e]) == stack;
  }

  lemma TextPop(rooted: bool, stack: seq<string>)
    requires stack != []
    ensures Text(rooted, stack) == Text(rooted, Pop(stack)) + (if |stack| == 1 then "" else "/") + stack[|stack| - 1]
  {
    assert stack == Pop(stack) + [stack[|stack| - 1]];
    TextPush(rooted, Pop(stack), stack[|stack| - 1]);
  }

  lemma TextEmpty(rooted: bool, t: State)
    requires Normal(rooted, t)
    ensures |Text(rooted, t.stack)| == |Root(rooted)| <==> t.stack == []
  {
    if t.stack != [] { JoinNonempty(t.stack); }
  }

  lemma StepFits(s: string, p: nat, rooted: bool, t: State)
    requires NulFree(s) && AtElement(s, p) && Normal(rooted, t) && Fits(s, p, rooted, t) && (rooted ==> p > 0)
    ensures Fits(s, End(s, p), rooted, Step(rooted, t, s[p..End(s, p)], p == 0))
  {
    var e := s[p..End(s, p)];
    ElementPlain(s, p);
    TextEmpty(rooted, t);
    var u := Step(rooted, t, e, p == 0);
    StepNormal(rooted, t, e, p == 0);
    TextEmpty(rooted, u);
    if e == ".." && |t.stack| > t.ups {
      TextPop(rooted, t.stack);
    } else if e == "." || (e == ".." && rooted) {
    } else {
      TextPush(rooted, t.stack, e);
    }
  }

  lemma {:induction false} FoldFits(s: string, p: nat, rooted: bool, t: State)
    requires NulFree(s) && Normal(rooted, t) && Fits(s, p, rooted, t) && rooted == Rooted(s) && (rooted ==> p > 0)
    ensures Fits(s, |s|, rooted, Fold(rooted, t, Elements(s, p), p == 0))
    decreases |s| - p
  {
    if p < |s| {
      if s[p] == '/' {
        assert Fits(s, p + 1, rooted, t);
        FoldFits(s, p + 1, rooted, t);
      } else {
        var e := s[p..End(s, p)];
        ElementPlain(s, p);
        StepFits(s, p, rooted, t);
        StepNormal(rooted, t, e, p == 0);
        assert Elements(s, p)[1..] == Elements(s, End(s, p));
        FoldFits(s, End(s, p), rooted, Step(rooted, t, e, p == 0));
      }
    }
  }

  /** A cleaned name is no longer than the name, except that the empty name becomes ".". */
  lemma CleanShorter(s: string)
    requires NulFree(s)
    ensures |Clean(s)| <= |s| <==> s != ""
  {
    var rooted := Rooted(s);
    FoldFits(s, Start(s), rooted, State([], 0, false));
    OutcomeNormal(s);
  }

  // ----- the program

  /** name holds the string s, ended by a NUL. */
  predicate Holds(name: array<char>, s: string)
    reads name
  {
    |s| < name.Length && name[|s|] == '\0' && Starts(name, s)
  }

  predicate Starts(name: array<char>, s: string)
    reads name
  {
    |s| <= name.Length && forall i {:trigger name[i]} :: 0 <= i < |s| ==> name[i] == s[i]
  }

  predicate Sep(c: char) { c == '/' || c == '\0' }

  /** From p on name still has what it had, which is the rest of s. */
  ghost predicate Unread(name: array<char>, was: seq<char>, s: string, p: nat)
    reads name
  {
    |s| < |was| == name.Length && was[|s|] == '\0' &&
    (forall i {:trigger name[i]} :: p <= i < name.Length ==> name[i] == was[i]) &&
    forall i {:trigger was[i]} :: 0 <= i < |s| ==> was[i] == s[i]
  }

  /** Backs q up over the last element written, to the end of the one before. */
  method Backtrack(name: array<char>, q: nat, dotdot: nat, ghost rooted: bool, ghost t: State) returns (r: nat)
    requires Normal(rooted, t) && |t.stack| > t.ups && dotdot == |Text(rooted, t.stack[..t.ups])|
    requires q == |Text(rooted, t.stack)| && Starts(name, Text(rooted, t.stack))
    ensures r == |Text(rooted, Pop(t.stack))| && Starts(name, Text(rooted, Pop(t.stack)))
  {
    ghost var x, y, e := Text(rooted, t.stack), Text(rooted, Pop(t.stack)), t.stack[|t.stack| - 1];
    TextPop(rooted, t.stack);
    TextPrefix(rooted, Pop(t.stack), t.ups);
    assert Plain(e);
    ghost var sep := if |t.stack| == 1 then "" else "/";
    assert x == y + sep + e;
    assert t.stack[..t.ups] == Pop(t.stack)[..t.ups];
    assert sep == "/" ==> x[|y|] == '/';
    r := q - 1;
    while r > dotdot && name[r] != '/'
      invariant |y| <= r < q
    {
      assert name[r] == x[r];
      r := r - 1;
    }
    assert name[r] == x[r];
    if r >= |y| + |sep| {
      assert x[r] == e[r - |y| - |sep|];
    }
    forall i | 0 <= i < |y| ensures name[i] == y[i] { assert name[i] == x[i]; }
  }

  lemma {:induction false} TextPrefix(rooted: bool, stack: seq<string>, n: nat)
    requires n <= |stack|
    ensures |Text(rooted, stack[..n])| <= |Text(rooted, stack)|
    ensures n < |stack| ==> |Text(rooted, stack[..n])| < |Text(rooted, stack)| || stack[|stack| - 1] == ""
    decreases |stack|
  {
    if n == |stack| {
      assert stack[..n] == stack;
    } else {
      TextPop(rooted, stack);
      assert Pop(stack)[..n] == stack[..n];
      TextPrefix(rooted, Pop(stack), n);
    }
  }

  /** Copies the element at p, and the character that ends it, to q. */
  method CopyElement(name: array<char>, p0: nat, q0: nat, ghost was: seq<char>, ghost s: string)
      returns (p: nat, q: nat)
    requires q0 <= p0 && NulFree(s) && AtElement(s, p0) && Unread(name, was, s, p0)
    modifies name
    ensures p == End(s, p0) && q == q0 + p - p0 && Unread(name, was, s, p)
    ensures forall i {:trigger name[i]} :: 0 <= i < q ==> name[i] == if i < q0 then old(name[i]) else s[p0 + i - q0]
  {
    p, q := p0, q0;
    name[q] := name[p];
    while name[q] != '/' && name[q] != '\0'
      invariant p0 <= p <= End(s, p0) && q == q0 + p - p0 && name[q] == was[p] && p <= |s|
      invariant q < p ==> Unread(name, was, s, p)
      invariant q == p ==> Unread(name, was, s, q)
      invariant forall i {:trigger name[i]} :: 0 <= i < q ==> name[i] == if i < q0 then old(name[i]) else s[p0 + i - q0]
      decreases |s| - p
    {
      EndFrom(s, p0, p);
      p, q := p + 1, q + 1;
      name[q] := name[p];
    }
    EndFrom(s, p0, p);
    if p < |s| { assert was[p] == s[p] && s[p] != '\0'; }
  }

  /** Moves the string of length n up by two. */
  method MoveUp(name: array<char>, n: nat)
    requires n + 2 < name.Length
    modifies name
    ensures forall i {:trigger name[i]} :: 2 <= i < name.Length ==> name[i] == old(name[if i < n + 3 then i - 2 else i])
  {
    forall i | 0 <= i <= n { name[i + 2] := name[i]; }
  }

  /** The array while p is next to be read: the text of the stack written, the rest of s unread. */
  ghost predicate Written(name: array<char>, was: seq<char>, s: string, p: nat, q: int, dotdot: int, rooted: bool,
      t: State)
    reads name
  {
    t.ups <= |t.stack| && Unread(name, was, s, p) && Starts(name, Text(rooted, t.stack)) &&
    q == |Text(rooted, t.stack)| && dotdot == |Text(rooted, t.stack[..t.ups])|
  }

  predicate Sound(s: string, p: int, rooted: bool, t: State) {
    NulFree(s) && rooted == Rooted(s) && 0 <= p <= |s| && (rooted ==> p > 0) && Normal(rooted, t) &&
        Fits(s, p, rooted, t) &&
    Fold(rooted, t, Elements(s, p), p == 0) == Outcome(s)
  }

  /** The element at p takes a sound state to a sound state. */
  lemma StepSound(s: string, p: nat, rooted: bool, t: State)
    requires Sound(s, p, rooted, t) && AtElement(s, p)
    ensures p < End(s, p) && Sound(s, End(s, p), rooted, Step(rooted, t, s[p..End(s, p)], p == 0))
  {
    var e := s[p..End(s, p)];
    ElementPlain(s, p);
    StepFits(s, p, rooted, t);
    StepNormal(rooted, t, e, p == 0);
    assert Elements(s, p)[1..] == Elements(s, End(s, p));
  }

  /** The test for "." and for "..". */
  lemma Kinds(name: array<char>, was: seq<char>, s: string, p: nat)
    requires NulFree(s) && AtElement(s, p) && Unread(name, was, s, p)
    ensures p + 1 < name.Length && (name[p + 1] == '.' ==> p + 2 < name.Length)
    ensures (name[p] == '.' && Sep(name[p + 1])) <==> s[p..End(s, p)] == "."
    ensures (name[p] == '.' && name[p + 1] == '.' && Sep(name[p + 2])) <==> s[p..End(s, p)] == ".."
    ensures name[p] == '.' && Sep(name[p + 1]) ==> End(s, p) == p + 1
    ensures name[p] == '.' && name[p + 1] == '.' && Sep(name[p + 2]) ==> End(s, p) == p + 2
  {
    var e := s[p..End(s, p)];
    ElementPlain(s, p);
    assert name[p] == was[p] == s[p] == e[0];
    assert p + 1 < |s| ==> name[p + 1] == s[p + 1] && s[p + 1] != '\0';
    assert p + 2 < |s| ==> name[p + 2] == s[p + 2] && s[p + 2] != '\0';
    assert |e| > 1 ==> e[1] == s[p + 1];
    assert |e| > 2 ==> e[2] == s[p + 2];
    if |e| > 1 { EndPlain(s, p, p + 1); }
    if |e| > 2 { EndPlain(s, p, p + 2); }
  }

  /** q is past dotdot exactly when there is something to pop. */
  lemma CanPop(rooted: bool, t: State)
    requires Normal(rooted, t)
    ensures |Text(rooted, t.stack)| > |Text(rooted, t.stack[..t.ups])| <==> |t.stack| > t.ups
  {
    TextPrefix(rooted, t.stack, t.ups);
    if |t.stack| == t.ups { assert t.stack[..t.ups] == t.stack; } else { assert Plain(t.stack[|t.stack| - 1]); }
  }

  /** What ".." does to the stack and to its text. */
  lemma DotDotText(rooted: bool, t: State, first: bool)
    requires Normal(rooted, t)
    ensures var u := Step(rooted, t, "..", first);
            var x, y := Text(rooted, t.stack), Text(rooted, u.stack);
            u.ups <= |u.stack| && (y == "" <==> !rooted && u.stack == []) && (u.erased <==> t.erased || y == "") &&
            if |t.stack| > t.ups then
              u.stack == Pop(t.stack) && |Text(rooted, u.stack[..u.ups])| == |Text(rooted, t.stack[..t.ups])|
            else if rooted then y == x && u.stack == t.stack && u.ups == t.ups
            else y == x + (if x == "" then ".." else "/..") && u.stack[..u.ups] == u.stack
  {
    var u := Step(rooted, t, "..", first);
    StepNormal(rooted, t, "..", first);
    TextEmpty(rooted, u);
    TextEmpty(rooted, t);
    if |t.stack| > t.ups {
      assert u.stack[..u.ups] == t.stack[..t.ups];
    } else if !rooted {
      TextPush(rooted, t.stack, "..");
    }
  }

  /** Writes a ".." past which nothing backtracks. */
  method PutDots(name: array<char>, q0: nat, ghost x: string) returns (q: nat)
    requires q0 == |x| && Starts(name, x) && q0 + 3 <= name.Length
    modifies name
    ensures q == |x| + (if x == "" then 2 else 3) && Starts(name, x + (if x == "" then ".." else "/.."))
    ensures forall i {:trigger name[i]} :: q <= i < name.Length ==> name[i] == old(name[i])
  {
    q := q0;
    if q != 0 {
      name[q] := '/';
      q := q + 1;
    }
    name[q] := '.';
    name[q + 1] := '.';
    q := q + 2;
  }

  /** The element "..", which ends at p. */
  method DotDot(name: array<char>, ghost was: seq<char>, ghost s: string, p: nat, q0: nat, dotdot0: nat, rooted: bool,
      ghost t: State)
      returns (q: nat, dotdot: nat)
    requires p >= 2 && Sound(s, p - 2, rooted, t) && AtElement(s, p - 2) &&
             Written(name, was, s, p - 2, q0, dotdot0, rooted, t)
    requires p <= |s|
    modifies name
    ensures Written(name, was, s, p, q, dotdot, rooted, Step(rooted, t, "..", p == 2))
    ensures Step(rooted, t, "..", p == 2).erased <==> t.erased || q == 0
  {
    q, dotdot := q0, dotdot0;
    CanPop(rooted, t);
    DotDotText(rooted, t, p == 2);
    ghost var x := Text(rooted, t.stack);
    assert |x| + 1 <= p || x == "";
    if q > dotdot {
      q := Backtrack(name, q, dotdot, rooted, t);
    } else if !rooted {
      q := PutDots(name, q, x);
      dotdot := q;
    }
  }

  /** What goes between the text x and another element. */
  function Glue(rooted: bool, x: string): string { if |x| == |Root(rooted)| then "" else "/" }

  /** Writes the slash before an element that is not the first. */
  method PutSlash(name: array<char>, q0: nat, rooted: bool, ghost x: string) returns (q: nat)
    requires q0 == |x| && Starts(name, x) && q0 < name.Length
    modifies name
    ensures q == |x| + |Glue(rooted, x)| && Starts(name, x + Glue(rooted, x))
    ensures forall i {:trigger name[i]} :: q <= i < name.Length ==> name[i] == old(name[i])
  {
    q := q0;
    if q != (if rooted then 1 else 0) {
      name[q] := '/';
      q := q + 1;
    }
  }

  /** A real element, from p0. */
  method Real(name: array<char>, ghost was: seq<char>, ghost s: string, p0: nat, q0: nat, rooted: bool, ghost x: string)
      returns (p: nat, q: nat)
    requires NulFree(s) && AtElement(s, p0) && Unread(name, was, s, p0)
    requires q0 == |x| && Starts(name, x) && q0 + |Glue(rooted, x)| <= p0
    modifies name
    ensures p == End(s, p0) && Unread(name, was, s, p)
    ensures var y := x + Glue(rooted, x) + s[p0..p]; q == |y| && Starts(name, y)
  {
    ghost var z := x + Glue(rooted, x);
    q := PutSlash(name, q0, rooted, x);
    p, q := CopyElement(name, p0, q, was, s);
    forall i | 0 <= i < |z| ensures name[i] == z[i] { assert i < q0 + |Glue(rooted, x)|; }
  }

  /** What a real element does to the stack and to its text, and the room there is for it. */
  lemma RealText(s: string, p: nat, rooted: bool, t: State, e: string)
    requires Sound(s, p, rooted, t) && AtElement(s, p)
    ensures var x, u := Text(rooted, t.stack), t.(stack := t.stack + [e]);
            Text(rooted, u.stack) == x + Glue(rooted, x) + e && u.ups <= |u.stack| && |x| + |Glue(rooted, x)| <= p &&
            u.stack[..u.ups] == t.stack[..u.ups]
  {
    TextEmpty(rooted, t);
    TextPush(rooted, t.stack, e);
  }

  /** One element. */
  method Element(name: array<char>, ghost was: seq<char>, ghost s: string, p0: nat, q0: nat, dotdot0: nat,
      erased0: bool, rooted: bool, ghost t: State)
      returns (p: nat, q: nat, dotdot: nat, erased: bool)
    requires Sound(s, p0, rooted, t) && AtElement(s, p0) && Written(name, was, s, p0, q0, dotdot0, rooted, t) &&
             erased0 == t.erased
    modifies name
    ensures p == End(s, p0)
    ensures var u := Step(rooted, t, s[p0..p], p0 == 0);
            Written(name, was, s, p, q, dotdot, rooted, u) && erased == u.erased
  {
    p, q, dotdot, erased := p0, q0, dotdot0, erased0;
    Kinds(name, was, s, p);
    ghost var e := s[p..End(s, p)];
    ghost var x := Text(rooted, t.stack);
    if name[p] == '.' && Sep(name[p + 1]) {
      if p == 0 { erased := true; }
      p := p + 1;
    } else if name[p] == '.' && name[p + 1] == '.' && Sep(name[p + 2]) {
      p := p + 2;
      q, dotdot := DotDot(name, was, s, p, q, dotdot, rooted, t);
      if q == 0 { erased := true; }
    } else {
      RealText(s, p, rooted, t, e);
      p, q := Real(name, was, s, p, q, rooted, x);
    }
  }

  /** The loop: from the start of the path to the end of it. */
  method Rewrite(name: array<char>, rooted: bool, ghost s: string) returns (q: nat, erased: bool)
    requires NulFree(s) && Holds(name, s) && rooted == Rooted(s)
    modifies name
    ensures q == |Text(rooted, Outcome(s).stack)| && erased == Outcome(s).erased
    ensures Starts(name, Text(rooted, Outcome(s).stack))
    ensures forall i {:trigger name[i]} :: |s| <= i < name.Length ==> name[i] == old(name[i])
  {
    ghost var was := name[..];
    var p := if rooted then 1 else 0;
    ghost var t := State([], 0, false);
    var dotdot := p;
    q, erased := p, false;
    assert t.stack[..t.ups] == [];
    while name[p] != '\0'
      invariant Sound(s, p, rooted, t) && Written(name, was, s, p, q, dotdot, rooted, t) && erased == t.erased
      decreases |s| - p
    {
      assert p < |s| && name[p] == s[p];
      if name[p] == '/' {
        p := p + 1;
      } else {
        StepSound(s, p, rooted, t);
        ghost var u := Step(rooted, t, s[p..End(s, p)], p == 0);
        p, q, dotdot, erased := Element(name, was, s, p, q, dotdot, erased, rooted, t);
        t := u;
      }
    }
  }

  /** cleanname.  It may write two characters even for the empty name. */
  method CleanName(name: array<char>, ghost s: string)
    requires NulFree(s) && Holds(name, s) && name.Length >= 2
    modifies name
    ensures Holds(name, Clean(s))
    ensures forall i {:trigger name[i]} :: 2 <= i < name.Length && |s| < i ==> name[i] == old(name[i])
  {
    var rooted := name[0] == '/';
    FoldFits(s, Start(s), Rooted(s), State([], 0, false));
    assert s != "" ==> name[0] == s[0];
    var q, erased := Rewrite(name, rooted, s);
    ghost var x := Text(rooted, Outcome(s).stack);
    if q == 0 {
      name[q] := '.';
      q := q + 1;
    }
    name[q] := '\0';
    if erased && name[0] == '#' {
      MoveUp(name, q);
      name[0] := '.';
      name[1] := '/';
    }
  }
}
