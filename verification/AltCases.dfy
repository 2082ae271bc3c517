/** What an alt tells its program: the case taken, the default case, the error. */
module AltCases {
  import opened Basics
  import opened ChannelQueues
  import opened Alts
  import opened AltRuns

  // ----- case numbers

  /** Case number n of an alt with that many send entries is this way: a send entry, a receive entry, or element
      `index` of a receive entry that is an array. */
  predicate Names(a: Alt, x: Cand) {
    match x.side
    case Sends => x.n < |a.sends| && x.index == None && a.sends[x.n] == Some(x.c)
    case Receives =>
      |a.sends| <= x.n < |a.sends| + |a.recvs| &&
      match a.recvs[x.n - |a.sends|]
      case One(c) => x.index == None && c == Some(x.c)
      case Many(cs) => x.index.Some? && x.index.value < |cs| && cs[x.index.value] == Some(x.c)
  }

  lemma {:induction false} SendCases(cs: seq<Option<Cid>>, x: Cand)
    ensures x in SendCands(cs) <==> x.side == Sends && x.n < |cs| && x.index == None && cs[x.n] == Some(x.c)
    decreases |cs|
  {
    if cs != [] {
      var n := |cs| - 1;
      SendCases(cs[..n], x);
      if cs[n].Some? { InSnoc(SendCands(cs[..n]), Cand(Sends, n, None, cs[n].value), x); }
    }
  }

  lemma InSnoc(xs: seq<Cand>, y: Cand, x: Cand)
    ensures x in xs + [y] <==> x in xs || x == y
  {
  }

  lemma InBoth(xs: seq<Cand>, ys: seq<Cand>, x: Cand)
    ensures x in xs + ys <==> x in xs || x in ys
  {
  }

  lemma {:induction false} ArrayCases(cs: seq<Option<Cid>>, n: nat, x: Cand)
    ensures x in ArrayCands(cs, n) <==>
            x.side == Receives && x.n == n && x.index.Some? && x.index.value < |cs| && cs[x.index.value] == Some(x.c)
    decreases |cs|
  {
    if cs != [] {
      var i := |cs| - 1;
      ArrayCases(cs[..i], n, x);
      if cs[i].Some? { InSnoc(ArrayCands(cs[..i], n), Cand(Receives, n, Some(i), cs[i].value), x); }
    }
  }

  /** A way over this receive entry, which is case n. */
  predicate Over(e: Entry, n: nat, x: Cand) {
    x.side == Receives && x.n == n &&
    match e
    case One(c) => x.index == None && c == Some(x.c)
    case Many(cs) => x.index.Some? && x.index.value < |cs| && cs[x.index.value] == Some(x.c)
  }

  lemma EntryCases(e: Entry, n: nat, x: Cand)
    ensures x in EntryCands(e, n) <==> Over(e, n, x)
  {
    match e
    case One(None) =>
    case One(Some(c)) => assert EntryCands(e, n) == [Cand(Receives, n, None, c)];
    case Many(cs) => ArrayCases(cs, n, x);
  }

  predicate OverOne(es: seq<Entry>, base: nat, x: Cand) {
    base <= x.n < base + |es| && Over(es[x.n - base], x.n, x)
  }

  lemma OverMore(es: seq<Entry>, base: nat, x: Cand, k: nat)
    requires |es| == k + 1
    ensures OverOne(es, base, x) <==> OverOne(es[..k], base, x) || Over(es[k], base + k, x)
  {
    if base <= x.n < base + k { assert es[..k][x.n - base] == es[x.n - base]; }
  }

  lemma RecvMore(es: seq<Entry>, base: nat, x: Cand, k: nat, xs: seq<Cand>, ys: seq<Cand>)
    requires |es| == k + 1 && (x in xs <==> OverOne(es[..k], base, x)) && (x in ys <==> Over(es[k], base + k, x))
    ensures x in xs + ys <==> OverOne(es, base, x)
  {
    InBoth(xs, ys, x);
    OverMore(es, base, x, k);
  }

  lemma {:induction false} RecvCases(es: seq<Entry>, base: nat, x: Cand)
    ensures x in RecvCands(es, base) <==> OverOne(es, base, x)
    decreases |es|
  {
    if es != [] {
      var k := |es| - 1;
      RecvCases(es[..k], base, x);
      EntryCases(es[k], base + k, x);
      RecvMore(es, base, x, k, RecvCands(es[..k], base), EntryCands(es[k], base + k));
    }
  }

  /** The ways of an alt are exactly its entries that are no nil, each under its own number. */
  lemma CasesNumbered(a: Alt, x: Cand)
    ensures x in All(a) <==> Names(a, x)
  {
    SendCases(a.sends, x);
    RecvCases(a.recvs, |a.sends|, x);
  }

  /** The case told where nothing is ready is none of the ways': it is their number, and theirs are below it. */
  lemma MissedMeans(w: World, p: Pid, a: Alt, rand: nat)
    requires Fault1(w.chans, a, p) == None && Count1(w.chans, a, p) == 0
    ensures Xecalt(w, p, a, false, rand).0.Missed?
    ensures var n := Xecalt(w, p, a, false, rand).0.n;
      n == |a.sends| + |a.recvs| && forall x {:trigger x in All(a)} :: x in All(a) ==> x.n < n
  {
    forall x {:trigger x in All(a)} | x in All(a) ensures x.n < |a.sends| + |a.recvs| { CasesNumbered(a, x); }
  }

  /** Ways of different entries have different numbers, and those of one array different places in it. */
  lemma CasesDiffer(a: Alt, x: Cand, y: Cand)
    requires x in All(a) && y in All(a) && x.n == y.n && x.index == y.index
    ensures x == y
  {
    CasesNumbered(a, x);
    CasesNumbered(a, y);
  }

  /** The case an alt takes is one of its entries, under its number, and it is told that number. */
  lemma TookMeans(w: World, p: Pid, a: Alt, block: bool, rand: nat)
    requires Good(w) && StateOf(w, p) == Running && Xecalt(w, p, a, block, rand).0.Took?
    ensures var x := Xecalt(w, p, a, block, rand).0.x; x in All(a) && Names(a, x)
    ensures Fault1(w.chans, a, p) == None && Count1(w.chans, a, p) > 0
    ensures Picked(Pass1(w.chans, a, p), All(a), rand % Count1(w.chans, a, p), Xecalt(w, p, a, block, rand).0.x)
  {
    var x, v := TakenCrashes(w, p, a, block, rand);
    CasesNumbered(a, x);
    NthPicked(Pass1(w.chans, a, p), All(a), rand % Count1(w.chans, a, p));
  }

  lemma {:induction false} NthIs(s: seq<Chan>, cs: seq<Cand>, k: nat)
    requires k < |cs| && ReadyWay(s, cs[k])
    ensures CountReady(s, cs[..k]) < CountReady(s, cs) && Nth(s, cs, CountReady(s, cs[..k])) == Some(cs[k])
    decreases |cs|
  {
    var rest := cs[..|cs| - 1];
    NthPicked(s, rest, CountReady(s, cs[..k]));
    if k < |cs| - 1 {
      assert rest[..k] == cs[..k];
      NthIs(s, rest, k);
    }
  }

  /** Each ready way of an alt that lists no channel on both sides is taken for some random number. */
  lemma AnyWay(w: World, p: Pid, a: Alt, k: nat) returns (rand: nat)
    requires Good(w) && StateOf(w, p) == Running && Apart(a) && Fault1(w.chans, a, p) == None
    requires k < |All(a)| && ReadyWay(Pass1(w.chans, a, p), All(a)[k])
    ensures Taken(w, p, a, rand) == Some(All(a)[k])
  {
    rand := CountReady(Pass1(w.chans, a, p), All(a)[..k]);
    CountsApart(w, p, a);
    TakesAt(w, p, a, k, rand);
  }

  lemma TakesAt(w: World, p: Pid, a: Alt, k: nat, rand: nat)
    requires Fault1(w.chans, a, p) == None && Count1(w.chans, a, p) == CountReady(Pass1(w.chans, a, p), All(a))
    requires k < |All(a)| && ReadyWay(Pass1(w.chans, a, p), All(a)[k])
    requires rand == CountReady(Pass1(w.chans, a, p), All(a)[..k])
    ensures Taken(w, p, a, rand) == Some(All(a)[k])
  {
    NthIs(Pass1(w.chans, a, p), All(a), k);
    Small(rand, Count1(w.chans, a, p));
  }

  lemma Small(r: nat, n: nat)
    requires r < n
    ensures r % n == r
  {
  }

  lemma CountsApart(w: World, p: Pid, a: Alt)
    requires Good(w) && StateOf(w, p) == Running && Apart(a) && Fault1(w.chans, a, p) == None
    ensures Count1(w.chans, a, p) == CountReady(Pass1(w.chans, a, p), All(a))
  {
    EchoIffBothSides(w, a, p);
    forall i {:trigger Cands(a, Receives)[i]} | 0 <= i < |Cands(a, Receives)|
      ensures Listed(Cands(a, Sends), Cands(a, Receives)[i].c, Sends) == 0
    {
      var c := Cands(a, Receives)[i].c;
      ListedOn(a, c, Sends);
      ListedOn(a, c, Receives);
      ListedAt(Cands(a, Receives), i);
      assert Listed(All(a), c, Sends) == 0 || Listed(All(a), c, Receives) == 0;
    }
  }

  // ----- errors

  /** Send entry i names a channel on which the alt itself is the first to receive. */
  predicate ToItself(s: seq<Chan>, a: Alt, i: nat) {
    i < |a.sends| && a.sends[i].Some? && a.sends[i].value < |s| && !Held(s[a.sends[i].value].recv) &&
    Listed(Cands(a, Receives), a.sends[i].value, Receives) > 0
  }

  lemma {:induction false} RecvFaultMeans(es: seq<Entry>)
    ensures RecvFault(es) == if One(None) in es then Some(NilRef) else None
  {
    if es != [] { RecvFaultMeans(es[..|es| - 1]); }
  }

  /** What is wrong with a send entry. */
  function Wrong(s: seq<Chan>, c: Option<Cid>, p: Pid): Option<Error> {
    if c == None then Some(NilRef) else if c.value < |s| && Own(s[c.value], p) then Some(SelfAlt) else None
  }

  lemma {:induction false} SendFaultMeans(s: seq<Chan>, cs: seq<Option<Cid>>, p: Pid, first: Option<Error>, i: nat)
    requires i <= |cs| && forall j {:trigger cs[j]} :: i <= j < |cs| ==> Wrong(s, cs[j], p) == None
    requires i > 0 ==> Wrong(s, cs[i - 1], p) != None
    ensures SendFault(s, cs, p, first) == if i == 0 then first else Wrong(s, cs[i - 1], p)
  {
    if |cs| > i { SendFaultMeans(s, cs[..|cs| - 1], p, first, i); }
  }

  lemma OwnMarked(s: seq<Chan>, a: Alt, p: Pid, i: nat)
    requires Sound(s) && Absent(s, p) && i < |a.sends| && a.sends[i].Some? && a.sends[i].value < |s|
    ensures Own(MarkAll(s, Cands(a, Receives), p)[a.sends[i].value], p) <==> ToItself(s, a, i)
  {
    var c := a.sends[i].value;
    var t := MarkAll(s, Cands(a, Receives), p);
    Pass1Sound(s, a, p);
    ListedOn(a, c, Receives);
    Marked(s, Cands(a, Receives), p, c, Receives);
    MarksListed(s, Cands(a, Receives), p, c, Receives);
    assert p !in Progs(Line(s[c], Receives));
    FirstIs(s[c].recv, t[c].recv, p, Listed(Cands(a, Receives), c, Receives));
  }

  lemma FirstIs(q: Queue, r: Queue, p: Pid, n: nat)
    requires Well(q) && Well(r) && p !in Progs(q) && Grew(Progs(q), Progs(r), p, n)
    ensures Held(r) && r[0] == Some(p) <==> !Held(q) && n > 0
  {
    HeldSome(q);
    HeldSome(r);
    AgainAll(p, n);
    if Held(q) { assert Progs(r)[0] == Progs(q)[0] && Progs(q)[0] in Progs(q); }
  }

  /** One past the last wrong send entry. */
  lemma {:induction false} LastWrong(t: seq<Chan>, cs: seq<Option<Cid>>, p: Pid) returns (i: nat)
    ensures i <= |cs| && (forall j {:trigger cs[j]} :: i <= j < |cs| ==> Wrong(t, cs[j], p) == None)
    ensures i > 0 ==> Wrong(t, cs[i - 1], p) != None
  {
    if cs == [] || Wrong(t, cs[|cs| - 1], p) != None {
      i := |cs|;
    } else {
      i := LastWrong(t, cs[..|cs| - 1], p);
    }
  }

  /** The send entry is no nil, and the alt is not the first to receive on it. */
  predicate Right(s: seq<Chan>, a: Alt, i: nat) { i < |a.sends| && a.sends[i].Some? && !ToItself(s, a, i) }

  /** An alt of a running program fails exactly if an entry is nil or sends to the alt itself.  Of several wrong send
      entries the last one is told; a wrong receive entry is told only if no send entry is wrong. */
  lemma ErrorMeans(w: World, p: Pid, a: Alt)
    requires Good(w) && StateOf(w, p) == Running
    ensures Fault1(w.chans, a, p) == None <==>
            One(None) !in a.recvs &&
            forall i {:trigger Right(w.chans, a, i)} :: 0 <= i < |a.sends| ==> Right(w.chans, a, i)
    ensures Fault1(w.chans, a, p) == Some(SelfAlt) <==>
            exists i {:trigger ToItself(w.chans, a, i)} :: 0 <= i < |a.sends| && ToItself(w.chans, a, i) &&
              forall j {:trigger Right(w.chans, a, j)} :: i < j < |a.sends| ==> Right(w.chans, a, j)
  {
    var s := w.chans;
    var t := MarkAll(s, Cands(a, Receives), p);
    RunningAbsent(w, p);
    forall i {:trigger Right(s, a, i)} | 0 <= i < |a.sends|
      ensures Right(s, a, i) <==> Wrong(t, a.sends[i], p) == None
      ensures ToItself(s, a, i) <==> Wrong(t, a.sends[i], p) == Some(SelfAlt)
    {
      WrongIs(s, a, p, i);
    }
    var i := LastWrong(t, a.sends, p);
    SendFaultMeans(t, a.sends, p, RecvFault(a.recvs), i);
    RecvFaultMeans(a.recvs);
    if i > 0 {
      assert Right(s, a, i - 1) <==> Wrong(t, a.sends[i - 1], p) == None;
      assert Wrong(t, a.sends[i - 1], p) == Some(SelfAlt) <==> ToItself(s, a, i - 1);
    }
    forall k {:trigger ToItself(s, a, k)} | 0 <= k < |a.sends| && ToItself(s, a, k) &&
        forall j {:trigger Right(s, a, j)} :: k < j < |a.sends| ==> Right(s, a, j)
      ensures k == i - 1
    {
      IsLast(s, a, p, t, i, k);
    }
    if i > 0 && ToItself(s, a, i - 1) {
      forall j {:trigger Right(s, a, j)} | i - 1 < j < |a.sends| ensures Right(s, a, j) {
        assert Wrong(t, a.sends[j], p) == None;
      }
    }
  }

  lemma IsLast(s: seq<Chan>, a: Alt, p: Pid, t: seq<Chan>, i: nat, k: nat)
    requires Sound(s) && Absent(s, p) && t == MarkAll(s, Cands(a, Receives), p) && i <= |a.sends|
    requires forall j {:trigger a.sends[j]} :: i <= j < |a.sends| ==> Wrong(t, a.sends[j], p) == None
    requires i > 0 ==> Wrong(t, a.sends[i - 1], p) != None
    requires k < |a.sends| && ToItself(s, a, k)
    requires forall j {:trigger Right(s, a, j)} :: k < j < |a.sends| ==> Right(s, a, j)
    ensures k == i - 1
  {
    WrongIs(s, a, p, k);
    if i > 0 { WrongIs(s, a, p, i - 1); }
  }

  lemma WrongIs(s: seq<Chan>, a: Alt, p: Pid, i: nat)
    requires Sound(s) && Absent(s, p) && i < |a.sends|
    ensures var t := MarkAll(s, Cands(a, Receives), p);
      (Right(s, a, i) <==> Wrong(t, a.sends[i], p) == None) &&
      (ToItself(s, a, i) <==> Wrong(t, a.sends[i], p) == Some(SelfAlt))
  {
    if a.sends[i].Some? && a.sends[i].value < |s| { OwnMarked(s, a, p, i); }
  }
}
