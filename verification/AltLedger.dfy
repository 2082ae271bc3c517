/** No message is lost or made up: on every run what has been received from a channel, and what its buffer holds, is
    what has been sent. */
module AltLedger {
  import opened Basics
  import opened ChannelQueues
  import opened Alts
  import opened AltRuns

  /** A communication done in one step: the side of the program that moves, and whether it met a partner, who has done
      the other side. */
  datatype Deal = Deal(c: Cid, side: Side, met: bool)

  function DealOf(w: World, o: Op): Option<Deal>
    requires Enabled(w, o) && Step(w, o).Some?
  {
    match o
    case Talk(p, c, side) =>
      if Held(Line(w.chans[c], Opposite(side))) then Some(Deal(c, side, true))
      else if StateOf(Step(w, o).value, p) == Running then Some(Deal(c, side, false))
      else None
    case TryAlt(p, a, block, rand) =>
      match Xecalt(w, p, a, block, rand).0
      case Took(x) => if x.c < |w.chans| then Some(Deal(x.c, x.side, Partner(w, p, a, x).Some?)) else None
      case _ => None
  }

  /** How many sends, or receives, on channel c that is. */
  function Done(d: Option<Deal>, c: Cid, side: Side): nat {
    if d == None || d.value.c != c then 0 else if d.value.side == side || d.value.met then 1 else 0
  }

  /** No buffer holds more than it can, and what is none holds nothing. */
  predicate Fit(h: Chan) { if h.cap == None then h.size == 0 else h.size <= h.cap.value }

  /** Channel c after a step of which d is the deal. */
  ghost predicate Counted(h: Chan, g: Chan, d: Option<Deal>, c: Cid) {
    g.cap == h.cap && g.size == h.size + Done(d, c, Sends) - Done(d, c, Receives) && (Fit(h) ==> Fit(g))
  }

  lemma TalkCounts(w: World, o: Op, c: Cid)
    requires Good(w) && Enabled(w, o) && o.Talk? && Step(w, o).Some? && c < |w.chans|
    ensures Counted(w.chans[c], Step(w, o).value.chans[c], DealOf(w, o), c)
  {
    var v := Step(w, o).value;
    if Held(Line(w.chans[o.c], Opposite(o.side))) {
      WakeLeaves(w, o.c, Opposite(o.side));
      assert Line(v.chans[c], Sends) == v.chans[c].send;
    }
  }

  lemma AltCounts(w: World, o: Op, c: Cid)
    requires Good(w) && Enabled(w, o) && o.TryAlt? && Step(w, o).Some? && c < |w.chans|
    ensures Counted(w.chans[c], Step(w, o).value.chans[c], DealOf(w, o), c)
  {
    var p, a := o.p, o.a;
    if Fault1(w.chans, a, p) == None && Count1(w.chans, a, p) > 0 {
      TookCounts(w, p, a, o.block, o.rand, c);
    } else {
      RunningAbsent(w, p);
      Restored(w.chans, a, p);
      Pass1Line(w.chans, a, p, c, Sends);
    }
  }

  lemma TookCounts(w: World, p: Pid, a: Alt, block: bool, rand: nat, c: Cid)
    requires Good(w) && StateOf(w, p) == Running && c < |w.chans| && Xecalt(w, p, a, block, rand).1.Some?
    requires Fault1(w.chans, a, p) == None && Count1(w.chans, a, p) > 0
    ensures Counted(w.chans[c], Xecalt(w, p, a, block, rand).1.value.chans[c], DealOf(w, TryAlt(p, a, block, rand)), c)
  {
    var x, v := TakenCrashes(w, p, a, block, rand);
    MetBack(w, p, a, x, v.value, c, Sends);
    if Partner(w, p, a, x) == None { BufferUsed(w, p, a, x); }
  }

  /** With no partner the buffer has room, or something in it. */
  lemma BufferUsed(w: World, p: Pid, a: Alt, x: Cand)
    requires Meets(w, p, a, x) && Partner(w, p, a, x) == None
    ensures if x.side == Sends then CanPut(w.chans[x.c]) else CanGet(w.chans[x.c])
  {
    MetFirst(w, p, a, x);
    ChoseLine(w, p, a, x.c, Sends);
  }

  lemma StepLedger(w: World, o: Op, c: Cid)
    requires Good(w) && Enabled(w, o) && Step(w, o).Some? && c < |w.chans|
    ensures c < |Step(w, o).value.chans| && Counted(w.chans[c], Step(w, o).value.chans[c], DealOf(w, o), c)
  {
    if o.Talk? { TalkCounts(w, o, c); } else { AltCounts(w, o, c); }
  }

  /** A run whose steps follow no nil pointer, from a good world. */
  ghost predicate GoodRun(ws: seq<World>, os: seq<Op>) { IsRun(ws, os) && Good(ws[0]) }

  /** The sends, or receives, done on channel c in the first n steps. */
  function Total(ws: seq<World>, os: seq<Op>, n: nat, c: Cid, side: Side): nat
    requires n <= |os| && IsRun(ws, os)
  {
    if n == 0 then 0 else Total(ws, os, n - 1, c, side) + Done(DealOf(ws[n - 1], os[n - 1]), c, side)
  }

  /** On every run the buffer holds what has been sent and not yet received, and never more than it can; without a
      buffer as much has been received as sent. */
  lemma {:induction false} RunLedger(ws: seq<World>, os: seq<Op>, n: nat, c: Cid)
    requires GoodRun(ws, os) && n <= |os| && c < |ws[0].chans| && ws[0].chans[c].size == 0
    ensures c < |ws[n].chans| && ws[n].chans[c].cap == ws[0].chans[c].cap
    ensures ws[n].chans[c].size == Total(ws, os, n, c, Sends) - Total(ws, os, n, c, Receives)
    ensures Fit(ws[n].chans[c])
  {
    if n > 0 {
      RunLedger(ws, os, n - 1, c);
      RunsKeep(ws, os, n - 1);
      StepLedger(ws[n - 1], os[n - 1], c);
    }
  }
}
