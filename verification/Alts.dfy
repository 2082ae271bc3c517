/**
  Alternatives over channels: the three passes of an alt, as functions of the channels.

  The first pass marks the prog on every channel of the alt and counts the ready ones, the second takes
  the which-th ready one, the third takes the marks off again.  A nil channel is None.
 */
module Alts {
  import opened Basics
  import opened ChannelQueues

  type Cid = nat

  datatype Side = Sends | Receives

  /** `cap` is the length of the buffer, None without one. */
  datatype Chan = Chan(send: Queue, recv: Queue, size: nat, cap: Option<nat>)

  /** A receive entry names one channel, or an array of them. */
  datatype Entry = One(c: Option<Cid>) | Many(cs: seq<Option<Cid>>)

  datatype Alt = Alt(sends: seq<Option<Cid>>, recvs: seq<Entry>)

  /** A way an alt can go: its case number, and the index within an array of channels. */
  datatype Cand = Cand(side: Side, n: nat, index: Option<nat>, c: Cid)

  datatype Error = NilRef | SelfAlt

  predicate CanGet(h: Chan) { h.size > 0 }

  predicate CanPut(h: Chan) { h.cap.Some? && h.size < h.cap.value }

  function Line(h: Chan, side: Side): Queue { if side == Sends then h.send else h.recv }

  function SetLine(h: Chan, side: Side, q: Queue): Chan { if side == Sends then h.(send := q) else h.(recv := q) }

  predicate Ready(h: Chan, side: Side) {
    if side == Sends then Held(h.recv) || CanPut(h) else Held(h.send) || CanGet(h)
  }

  // ----- the ways, in the order every pass visits them

  function SendCands(cs: seq<Option<Cid>>): seq<Cand> {
    if cs == [] then []
    else
      var n := |cs| - 1;
      if cs[n].None? then SendCands(cs[..n]) else SendCands(cs[..n]) + [Cand(Sends, n, None, cs[n].value)]
  }

  /** The channels of an array that is receive case n. */
  function ArrayCands(cs: seq<Option<Cid>>, n: nat): seq<Cand> {
    if cs == [] then []
    else
      var i := |cs| - 1;
      if cs[i].None? then ArrayCands(cs[..i], n) else ArrayCands(cs[..i], n) + [Cand(Receives, n, Some(i), cs[i].value)]
  }

  function EntryCands(e: Entry, n: nat): seq<Cand> {
    match e
    case One(None) => []
    case One(Some(c)) => [Cand(Receives, n, None, c)]
    case Many(cs) => ArrayCands(cs, n)
  }

  function RecvCands(es: seq<Entry>, base: nat): seq<Cand> {
    if es == [] then [] else RecvCands(es[..|es| - 1], base) + EntryCands(es[|es| - 1], base + |es| - 1)
  }

  function Cands(a: Alt, side: Side): seq<Cand> {
    if side == Sends then SendCands(a.sends) else RecvCands(a.recvs, |a.sends|)
  }

  function All(a: Alt): seq<Cand> { Cands(a, Sends) + Cands(a, Receives) }

  /** A way over a channel that exists and is ready. */
  predicate ReadyWay(s: seq<Chan>, x: Cand) { x.c < |s| && Ready(s[x.c], x.side) }

  // ----- pass 1

  /** A channel that does not exist is passed over, here and below; the code requires that all do. */
  function Mark(s: seq<Chan>, x: Cand, p: Pid): (r: seq<Chan>)
    ensures |r| == |s|
  {
    if x.c < |s| then s[x.c := SetLine(s[x.c], x.side, Add(Line(s[x.c], x.side), p))] else s
  }

  /** A send channel whose first receiver is p itself: the alt would talk to itself. */
  predicate Own(h: Chan, p: Pid) { Held(h.recv) && h.recv[0] == Some(p) }

  predicate Skips(s: seq<Chan>, x: Cand, p: Pid) { x.side == Sends && x.c < |s| && Own(s[x.c], p) }

  function MarkAll(s: seq<Chan>, cs: seq<Cand>, p: Pid): (r: seq<Chan>)
    ensures |r| == |s|
  {
    if cs == [] then s
    else
      var x := cs[|cs| - 1];
      var t := MarkAll(s, cs[..|cs| - 1], p);
      if Skips(t, x, p) then t else Mark(t, x, p)
  }

  function CountReady(s: seq<Chan>, cs: seq<Cand>): nat
  {
    if cs == [] then 0
    else
      var x := cs[|cs| - 1];
      CountReady(s, cs[..|cs| - 1]) + if ReadyWay(s, x) then 1 else 0
  }

  /** The count as pass 1 makes it, marking as it goes. */
  function CountMarking(s: seq<Chan>, cs: seq<Cand>, p: Pid): nat
  {
    if cs == [] then 0
    else
      var x := cs[|cs| - 1];
      var t := MarkAll(s, cs[..|cs| - 1], p);
      CountMarking(s, cs[..|cs| - 1], p) +
      if ReadyWay(t, x) && !Skips(t, x, p) then 1 else 0
  }

  /** The error of the receive entries, then of the send entries on top of it: the last one stands. */
  function RecvFault(es: seq<Entry>): Option<Error> {
    if es == [] then None
    else if es[|es| - 1] == One(None) then Some(NilRef)
    else RecvFault(es[..|es| - 1])
  }

  function SendFault(s: seq<Chan>, cs: seq<Option<Cid>>, p: Pid, first: Option<Error>): Option<Error> {
    if cs == [] then first
    else
      var c := cs[|cs| - 1];
      if c.None? then Some(NilRef)
      else if c.value < |s| && Own(s[c.value], p) then Some(SelfAlt)
      else SendFault(s, cs[..|cs| - 1], p, first)
  }

  // ----- pass 3

  /** Taking p off one queue; None if the queue's pointer is nil, which the code follows. */
  function Unmark(s: seq<Chan>, x: Cand, p: Pid): (r: Option<seq<Chan>>)
    ensures r.Some? ==> |r.value| == |s|
  {
    if x.c >= |s| then Some(s)
    else
      var q := Line(s[x.c], x.side);
      if q == [] then None
      else if Held(q) then Some(s[x.c := SetLine(s[x.c], x.side, DelP(q, p))])
      else Some(s)
  }

  function UnmarkAll(s: seq<Chan>, cs: seq<Cand>, p: Pid): (r: Option<seq<Chan>>)
    ensures r.Some? ==> |r.value| == |s|
  {
    if cs == [] then Some(s)
    else
      match UnmarkAll(s, cs[..|cs| - 1], p)
      case None => None
      case Some(t) => Unmark(t, cs[|cs| - 1], p)
  }

  /** The first way over channel c: the case the alt is told it took. */
  function Chosen(cs: seq<Cand>, c: Cid): Option<Cand> {
    if cs == [] then None
    else
      var r := Chosen(cs[..|cs| - 1], c);
      if r.Some? then r else if cs[|cs| - 1].c == c then Some(cs[|cs| - 1]) else None
  }

  // ----- pass 2

  /** x is the ready way that has `which` ready ways before it. */
  ghost predicate Picked(s: seq<Chan>, cs: seq<Cand>, which: nat, x: Cand)
  {
    exists k {:trigger cs[k]} :: 0 <= k < |cs| && cs[k] == x && ReadyWay(s, x) && CountReady(s, cs[..k]) == which
  }

  // ----- how often a channel is listed

  function Listed(cs: seq<Cand>, c: Cid, side: Side): nat {
    if cs == [] then 0
    else Listed(cs[..|cs| - 1], c, side) + if cs[|cs| - 1].c == c && cs[|cs| - 1].side == side then 1 else 0
  }

  predicate Sound(s: seq<Chan>) { forall c :: 0 <= c < |s| ==> Well(s[c].send) && Well(s[c].recv) }

  // ----- snoc and append

  lemma Snoc(s: seq<Chan>, cs: seq<Cand>, x: Cand, p: Pid)
    ensures var t := MarkAll(s, cs, p);
      MarkAll(s, cs + [x], p) == (if Skips(t, x, p) then t else Mark(t, x, p)) &&
      CountMarking(s, cs + [x], p) == CountMarking(s, cs, p) +
        if ReadyWay(t, x) && !Skips(t, x, p) then 1 else 0
    ensures CountReady(s, cs + [x]) == CountReady(s, cs) + if ReadyWay(s, x) then 1 else 0
    ensures UnmarkAll(s, cs + [x], p) ==
      match UnmarkAll(s, cs, p) { case None => None case Some(t) => Unmark(t, x, p) }
  {
    assert (cs + [x])[..|cs|] == cs;
  }

  lemma ChosenSnoc(cs: seq<Cand>, x: Cand, c: Cid)
    ensures Chosen(cs + [x], c) == if Chosen(cs, c).Some? then Chosen(cs, c) else if x.c == c then Some(x) else None
  {
    assert (cs + [x])[..|cs|] == cs;
  }

  lemma {:induction false} ListedAppend(a: seq<Cand>, b: seq<Cand>, c: Cid, side: Side)
    ensures Listed(a + b, c, side) == Listed(a, c, side) + Listed(b, c, side)
  {
    if b == [] {
      assert a + b == a;
    } else {
      assert (a + b)[..|a + b| - 1] == a + b[..|b| - 1];
      ListedAppend(a, b[..|b| - 1], c, side);
    }
  }

  lemma {:induction false} CountAppend(s: seq<Chan>, a: seq<Cand>, b: seq<Cand>)
    ensures CountReady(s, a + b) == CountReady(s, a) + CountReady(s, b)
  {
    if b == [] {
      assert a + b == a;
    } else {
      assert (a + b)[..|a + b| - 1] == a + b[..|b| - 1];
      CountAppend(s, a, b[..|b| - 1]);
    }
  }

  // ----- what the marks do to the queues

  function Again(p: Pid, n: nat): seq<Pid> { if n == 0 then [] else Again(p, n - 1) + [p] }

  /** b is a with p put at the end m times. */
  predicate Grew(a: seq<Pid>, b: seq<Pid>, p: Pid, m: nat) { b == a + Again(p, m) }

  lemma GrewMore(a: seq<Pid>, b: seq<Pid>, p: Pid, m: nat)
    requires Grew(a, b, p, m)
    ensures Grew(a, b + [p], p, m + 1)
  {
    assert (a + Again(p, m)) + [p] == a + (Again(p, m) + [p]);
  }

  /** How many marks pass 1 leaves on one side of channel c: one for each listing it does not skip. */
  function Marks(s: seq<Chan>, cs: seq<Cand>, p: Pid, c: Cid, side: Side): nat
  {
    if cs == [] then 0
    else
      var x := cs[|cs| - 1];
      Marks(s, cs[..|cs| - 1], p, c, side) +
      if x.c == c && x.side == side && !Skips(MarkAll(s, cs[..|cs| - 1], p), x, p) then 1 else 0
  }

  lemma MarkSound(s: seq<Chan>, x: Cand, p: Pid)
    requires Sound(s)
    ensures Sound(Mark(s, x, p))
  {
    if x.c < |s| { Added(Line(s[x.c], x.side), p); }
  }

  lemma {:induction false} MarkAllSound(s: seq<Chan>, cs: seq<Cand>, p: Pid)
    requires Sound(s)
    ensures Sound(MarkAll(s, cs, p))
  {
    if cs != [] {
      MarkAllSound(s, cs[..|cs| - 1], p);
      MarkSound(MarkAll(s, cs[..|cs| - 1], p), cs[|cs| - 1], p);
    }
  }

  lemma MarkLine(s: seq<Chan>, x: Cand, p: Pid, c: Cid, side: Side)
    requires Sound(s) && c < |s|
    ensures var h := Mark(s, x, p)[c];
      h.size == s[c].size && h.cap == s[c].cap &&
      if x.c == c && x.side == side then Progs(Line(h, side)) == Progs(Line(s[c], side)) + [p]
      else Line(h, side) == Line(s[c], side)
  {
    if x.c < |s| { Added(Line(s[x.c], x.side), p); }
  }

  /** Marks change nothing but the queues, and no queue they do not mark. */
  lemma {:induction false} MarkedOnly(s: seq<Chan>, cs: seq<Cand>, p: Pid, c: Cid, side: Side)
    requires Sound(s) && c < |s|
    ensures MarkAll(s, cs, p)[c].size == s[c].size && MarkAll(s, cs, p)[c].cap == s[c].cap
    ensures Marks(s, cs, p, c, side) == 0 ==> Line(MarkAll(s, cs, p)[c], side) == Line(s[c], side)
  {
    if cs != [] {
      MarkedOnly(s, cs[..|cs| - 1], p, c, side);
      MarkAllSound(s, cs[..|cs| - 1], p);
      MarkLine(MarkAll(s, cs[..|cs| - 1], p), cs[|cs| - 1], p, c, side);
    }
  }

  /** Every mark puts p once at the end of the queue. */
  lemma {:induction false} Marked(s: seq<Chan>, cs: seq<Cand>, p: Pid, c: Cid, side: Side)
    requires Sound(s) && c < |s|
    ensures Grew(Progs(Line(s[c], side)), Progs(Line(MarkAll(s, cs, p)[c], side)), p, Marks(s, cs, p, c, side))
  {
    if cs != [] {
      var rest := cs[..|cs| - 1];
      var t := MarkAll(s, rest, p);
      Marked(s, rest, p, c, side);
      MarkAllSound(s, rest, p);
      MarkLine(t, cs[|cs| - 1], p, c, side);
      GrewMore(Progs(Line(s[c], side)), Progs(Line(t[c], side)), p, Marks(s, rest, p, c, side));
    }
  }

  // ----- what the ways are

  lemma {:induction false} SendSide(cs: seq<Option<Cid>>)
    ensures OneSide(SendCands(cs), Sends)
  {
    if cs != [] { SendSide(cs[..|cs| - 1]); }
  }

  lemma {:induction false} ArraySide(cs: seq<Option<Cid>>, n: nat)
    ensures OneSide(ArrayCands(cs, n), Receives)
  {
    if cs != [] { ArraySide(cs[..|cs| - 1], n); }
  }

  lemma {:induction false} RecvSide(es: seq<Entry>, base: nat)
    ensures OneSide(RecvCands(es, base), Receives)
  {
    if es != [] {
      RecvSide(es[..|es| - 1], base);
      if es[|es| - 1].Many? { ArraySide(es[|es| - 1].cs, base + |es| - 1); }
    }
  }

  /** All the ways are on one side. */
  predicate OneSide(cs: seq<Cand>, side: Side) { forall i {:trigger cs[i]} :: 0 <= i < |cs| ==> cs[i].side == side }

  lemma {:induction false} OtherSide(cs: seq<Cand>, side: Side, c: Cid, other: Side)
    requires OneSide(cs, side) && side != other
    ensures Listed(cs, c, other) == 0
  {
    if cs != [] { OtherSide(cs[..|cs| - 1], side, c, other); }
  }

  lemma {:induction false} MarksListed(s: seq<Chan>, cs: seq<Cand>, p: Pid, c: Cid, side: Side)
    ensures Marks(s, cs, p, c, side) <= Listed(cs, c, side)
    ensures side == Receives ==> Marks(s, cs, p, c, side) == Listed(cs, c, side)
  {
    if cs != [] { MarksListed(s, cs[..|cs| - 1], p, c, side); }
  }

  // ----- the two counts

  /** No send channel of the ways has p first in line to receive. */
  predicate NotOwn(s: seq<Chan>, cs: seq<Cand>, p: Pid)
  {
    forall i {:trigger cs[i]} :: 0 <= i < |cs| && cs[i].c < |s| ==> !Own(s[cs[i].c], p)
  }

  lemma {:induction false} CountSame(s: seq<Chan>, t: seq<Chan>, cs: seq<Cand>)
    requires |s| == |t|
    requires forall i {:trigger cs[i]} :: 0 <= i < |cs| ==> ReadyWay(s, cs[i]) == ReadyWay(t, cs[i])
    ensures CountReady(s, cs) == CountReady(t, cs)
  {
    if cs != [] { CountSame(s, t, cs[..|cs| - 1]); }
  }

  lemma {:induction false} CountMore(s: seq<Chan>, t: seq<Chan>, cs: seq<Cand>)
    requires |s| == |t|
    requires forall i {:trigger cs[i]} :: 0 <= i < |cs| ==> ReadyWay(s, cs[i]) ==> ReadyWay(t, cs[i])
    ensures CountReady(s, cs) <= CountReady(t, cs)
    ensures CountReady(s, cs) == CountReady(t, cs) <==>
      forall i {:trigger cs[i]} :: 0 <= i < |cs| ==> ReadyWay(t, cs[i]) ==> ReadyWay(s, cs[i])
  {
    if cs != [] {
      var rest := cs[..|cs| - 1];
      CountMore(s, t, rest);
      assert forall i :: 0 <= i < |rest| ==> rest[i] == cs[i];
    }
  }

  /** Marks on one side leave the other side's readiness of that channel alone. */
  lemma SameReady(s: seq<Chan>, cs: seq<Cand>, p: Pid, c: Cid, side: Side)
    requires Sound(s) && OneSide(cs, side) && c < |s|
    ensures Ready(MarkAll(s, cs, p)[c], side) == Ready(s[c], side)
    ensures side == Sends ==> MarkAll(s, cs, p)[c].recv == s[c].recv
  {
    var other := if side == Sends then Receives else Sends;
    OtherSide(cs, side, c, other);
    MarksListed(s, cs, p, c, other);
    MarkedOnly(s, cs, p, c, other);
  }

  /** On one side, the count made while marking is the count made before or after. */
  lemma {:induction false} CountsWhileMarking(s: seq<Chan>, cs: seq<Cand>, p: Pid, side: Side)
    requires Sound(s) && OneSide(cs, side) && (side == Sends ==> NotOwn(s, cs, p))
    ensures CountMarking(s, cs, p) == CountReady(s, cs)
  {
    if cs != [] {
      var rest := cs[..|cs| - 1];
      assert forall i :: 0 <= i < |rest| ==> rest[i] == cs[i];
      CountsWhileMarking(s, rest, p, side);
      if cs[|cs| - 1].c < |s| { SameReady(s, rest, p, cs[|cs| - 1].c, side); }
    }
  }

  lemma {:induction false} AllMarked(s: seq<Chan>, cs: seq<Cand>, p: Pid, c: Cid)
    requires Sound(s) && OneSide(cs, Sends) && NotOwn(s, cs, p)
    ensures Marks(s, cs, p, c, Sends) == Listed(cs, c, Sends)
  {
    if cs != [] {
      var rest := cs[..|cs| - 1];
      assert forall i :: 0 <= i < |rest| ==> rest[i] == cs[i];
      AllMarked(s, rest, p, c);
      if cs[|cs| - 1].c < |s| { SameReady(s, rest, p, cs[|cs| - 1].c, Sends); }
    }
  }

  lemma {:induction false} FaultFree(s: seq<Chan>, cs: seq<Option<Cid>>, p: Pid, first: Option<Error>)
    ensures SendFault(s, cs, p, first) == None ==> first == None && NotOwn(s, SendCands(cs), p)
  {
    if cs != [] {
      var n := |cs| - 1;
      assert cs[n].Some? ==>
               SendCands(cs)[..|SendCands(cs)| - 1] == SendCands(cs[..n]) &&
               SendCands(cs)[|SendCands(cs)| - 1].c == cs[n].value;
      assert forall i {:trigger SendCands(cs[..n])[i]} :: 0 <= i < |SendCands(cs[..n])| ==>
             SendCands(cs)[i] == SendCands(cs[..n])[i];
      FaultFree(s, cs[..n], p, first);
    }
  }

  /** The channels after pass 1: receive ways first, then send ways. */
  function Pass1(s: seq<Chan>, a: Alt, p: Pid): (t: seq<Chan>)
    ensures |t| == |s|
  {
    MarkAll(MarkAll(s, Cands(a, Receives), p), Cands(a, Sends), p)
  }

  function Count1(s: seq<Chan>, a: Alt, p: Pid): nat
  {
    CountMarking(s, Cands(a, Receives), p) + CountMarking(MarkAll(s, Cands(a, Receives), p), Cands(a, Sends), p)
  }

  function Fault1(s: seq<Chan>, a: Alt, p: Pid): Option<Error>
  {
    SendFault(MarkAll(s, Cands(a, Receives), p), a.sends, p, RecvFault(a.recvs))
  }

  /** Every receive way that is also a send channel was ready before the alt began. */
  predicate NoEcho(s: seq<Chan>, a: Alt)
  {
    forall i {:trigger Cands(a, Receives)[i]} :: 0 <= i < |Cands(a, Receives)| ==>
      var x := Cands(a, Receives)[i];
      x.c < |s| && Listed(Cands(a, Sends), x.c, Sends) > 0 ==> Ready(s[x.c], Receives)
  }

  /** After a first pass without error, a receive way is ready if it was, or if the alt also sends on it. */
  lemma ReadyAfter(s: seq<Chan>, a: Alt, p: Pid, c: Cid)
    requires Sound(s) && Fault1(s, a, p) == None && c < |s|
    ensures Ready(Pass1(s, a, p)[c], Receives) <==> Ready(s[c], Receives) || Listed(Cands(a, Sends), c, Sends) > 0
    ensures Ready(Pass1(s, a, p)[c], Sends) <==> Ready(MarkAll(s, Cands(a, Receives), p)[c], Sends)
  {
    var t := MarkAll(s, Cands(a, Receives), p);
    SendSide(a.sends);
    RecvSide(a.recvs, |a.sends|);
    MarkAllSound(s, Cands(a, Receives), p);
    FaultFree(t, a.sends, p, RecvFault(a.recvs));
    SameReady(s, Cands(a, Receives), p, c, Receives);
    SameReady(t, Cands(a, Sends), p, c, Sends);
    AllMarked(t, Cands(a, Sends), p, c);
    MarkedOnly(t, Cands(a, Sends), p, c, Sends);
    Marked(t, Cands(a, Sends), p, c, Sends);
    MarkAllSound(t, Cands(a, Sends), p);
    HeldSome(t[c].send);
    HeldSome(Pass1(s, a, p)[c].send);
  }

  /** The count of pass 1 is the number of ways pass 2 would take exactly when no receive way has become
      ready by the alt's own sends. */
  lemma CountsAgree(s: seq<Chan>, a: Alt, p: Pid)
    requires Sound(s) && Fault1(s, a, p) == None
    ensures Count1(s, a, p) <= CountReady(Pass1(s, a, p), All(a))
    ensures Count1(s, a, p) == CountReady(Pass1(s, a, p), All(a)) <==> NoEcho(s, a)
  {
    var rs, ss := Cands(a, Receives), Cands(a, Sends);
    var t := MarkAll(s, rs, p);
    var u := Pass1(s, a, p);
    SendSide(a.sends);
    RecvSide(a.recvs, |a.sends|);
    MarkAllSound(s, rs, p);
    FaultFree(t, a.sends, p, RecvFault(a.recvs));
    CountsWhileMarking(s, rs, p, Receives);
    CountsWhileMarking(t, ss, p, Sends);
    forall i | 0 <= i < |ss| ensures ReadyWay(t, ss[i]) == ReadyWay(u, ss[i]) {
      if ss[i].c < |s| { ReadyAfter(s, a, p, ss[i].c); }
    }
    CountSame(t, u, ss);
    forall i | 0 <= i < |rs|
      ensures rs[i].c < |s| ==> (ReadyWay(u, rs[i]) <==> ReadyWay(s, rs[i]) || Listed(ss, rs[i].c, Sends) > 0) {
      if rs[i].c < |s| { ReadyAfter(s, a, p, rs[i].c); }
    }
    CountMore(s, u, rs);
    CountAppend(u, ss, rs);
  }

  // ----- pass 3

  /** A queue from which p has been taken. */
  function Gone(q: Queue, p: Pid): Queue { if Held(q) then DelP(q, p) else q }

  lemma {:induction false} OtherNone(q: Queue, p: Pid)
    requires forall i :: 0 <= i < |q| ==> q[i] != Some(p)
    ensures Other(q, p) == q
  {
    if q != [] { OtherNone(q[..|q| - 1], p); assert q == q[..|q| - 1] + [q[|q| - 1]]; }
  }

  lemma {:induction false} OtherFree(q: Queue, p: Pid)
    ensures forall i :: 0 <= i < |Other(q, p)| ==> Other(q, p)[i] != Some(p)
  {
    if q != [] { OtherFree(q[..|q| - 1], p); }
  }

  /** Taking p off twice is taking it off once, unless the list broke. */
  lemma GoneTwice(q: Queue, p: Pid)
    requires Well(q)
    ensures Gone(q, p) == [] <==> AllHis(q, p)
    ensures Gone(q, p) != [] ==> Gone(Gone(q, p), p) == Gone(q, p) && Well(Gone(q, p))
    ensures Progs(Gone(q, p)) == Without(Progs(q), p)
  {
    Dropped(q, p);
    HeldSome(q);
    OtherFree(q, p);
    if Held(q) && |q| > 1 { OtherNone(Other(q, p), p); }
    if !Held(q) { assert Progs(q) == []; }
  }

  /** A channel listed twice on one side, with only p on that queue, twice or more. */
  ghost predicate Breaks(s: seq<Chan>, cs: seq<Cand>, p: Pid) {
    exists c: Cid, side {:trigger Listed(cs, c, side)} :: c < |s| && Listed(cs, c, side) >= 2 &&
        AllHis(Line(s[c], side), p)
  }

  lemma UnmarkLine(s: seq<Chan>, x: Cand, p: Pid, c: Cid, side: Side)
    requires c < |s| && Unmark(s, x, p).Some?
    ensures var h := Unmark(s, x, p).value[c];
      h.size == s[c].size && h.cap == s[c].cap &&
      Line(h, side) == if x.c == c && x.side == side then Gone(Line(s[c], side), p) else Line(s[c], side)
    ensures x.c == c && x.side == side ==> Line(s[c], side) != []
  {
  }

  /** Pass 3 takes p off every queue of the alt, and touches nothing else. */
  lemma {:induction false} Unmarked(s: seq<Chan>, cs: seq<Cand>, p: Pid, c: Cid, side: Side)
    requires Sound(s) && c < |s| && UnmarkAll(s, cs, p).Some?
    ensures var h := UnmarkAll(s, cs, p).value[c];
      h.size == s[c].size && h.cap == s[c].cap &&
      Line(h, side) == if Listed(cs, c, side) == 0 then Line(s[c], side) else Gone(Line(s[c], side), p)
  {
    if cs != [] {
      Unmarked(s, cs[..|cs| - 1], p, c, side);
      UnmarkLine(UnmarkAll(s, cs[..|cs| - 1], p).value, cs[|cs| - 1], p, c, side);
      GoneTwice(Line(s[c], side), p);
    }
  }

  /** Pass 3 follows a nil pointer exactly when a channel listed twice on one side has nobody else waiting there. */
  lemma {:induction false} Crashes(s: seq<Chan>, cs: seq<Cand>, p: Pid)
    requires Sound(s)
    ensures UnmarkAll(s, cs, p) == None <==> Breaks(s, cs, p)
  {
    if cs != [] {
      var rest := cs[..|cs| - 1];
      var x := cs[|cs| - 1];
      Crashes(s, rest, p);
      assert forall c, side :: Listed(cs, c, side) == Listed(rest, c, side) + if x.c == c &&
             x.side == side then 1 else 0;
      if UnmarkAll(s, rest, p).Some? {
        if x.c < |s| {
          Unmarked(s, rest, p, x.c, x.side);
          GoneTwice(Line(s[x.c], x.side), p);
        }
        assert Listed(cs, x.c, x.side) >= 1;
      }
    }
  }
}
