/**
  The code of the channel queues and of alt, over a table of channels it updates in place.

  Each method is proved to do what its function on values says; `ok` is false when the code follows a nil
  pointer, after which nothing is promised.
 */
module AltCode {
  import opened Basics
  import opened ChannelQueues
  import opened Alts
  import opened AltRuns

  lemma {:induction false} MarkAppend(s: seq<Chan>, xs: seq<Cand>, ys: seq<Cand>, p: Pid)
    ensures MarkAll(s, xs + ys, p) == MarkAll(MarkAll(s, xs, p), ys, p)
    ensures CountMarking(s, xs + ys, p) == CountMarking(s, xs, p) + CountMarking(MarkAll(s, xs, p), ys, p)
  {
    if ys == [] {
      assert xs + ys == xs;
    } else {
      assert (xs + ys)[..|xs + ys| - 1] == xs + ys[..|ys| - 1];
      MarkAppend(s, xs, ys[..|ys| - 1], p);
    }
  }

  function Then(s: Option<seq<Chan>>, cs: seq<Cand>, p: Pid): Option<seq<Chan>>
  {
    if s.None? then None else UnmarkAll(s.value, cs, p)
  }

  lemma {:induction false} UnmarkAppend(s: seq<Chan>, xs: seq<Cand>, ys: seq<Cand>, p: Pid)
    ensures UnmarkAll(s, xs + ys, p) == Then(UnmarkAll(s, xs, p), ys, p)
  {
    if ys == [] {
      assert xs + ys == xs;
    } else {
      assert (xs + ys)[..|xs + ys| - 1] == xs + ys[..|ys| - 1];
      UnmarkAppend(s, xs, ys[..|ys| - 1], p);
    }
  }

  lemma {:induction false} ChosenAppend(xs: seq<Cand>, ys: seq<Cand>, c: Cid)
    ensures Chosen(xs + ys, c) == if Chosen(xs, c).Some? then Chosen(xs, c) else Chosen(ys, c)
  {
    if ys == [] {
      assert xs + ys == xs;
    } else {
      assert (xs + ys)[..|xs + ys| - 1] == xs + ys[..|ys| - 1];
      ChosenAppend(xs, ys[..|ys| - 1], c);
    }
  }

  // ----- the first k entries give the first ways

  lemma {:induction false} ArrayPrefix(cs: seq<Option<Cid>>, k: nat, n: nat)
    requires k <= |cs|
    ensures ArrayCands(cs[..k], n) <= ArrayCands(cs, n)
    decreases |cs|
  {
    if k < |cs| {
      assert cs[..|cs| - 1][..k] == cs[..k];
      ArrayPrefix(cs[..|cs| - 1], k, n);
    } else {
      assert cs[..k] == cs;
    }
  }

  lemma {:induction false} SendPrefix(cs: seq<Option<Cid>>, k: nat)
    requires k <= |cs|
    ensures SendCands(cs[..k]) <= SendCands(cs)
    decreases |cs|
  {
    if k < |cs| {
      assert cs[..|cs| - 1][..k] == cs[..k];
      SendPrefix(cs[..|cs| - 1], k);
    } else {
      assert cs[..k] == cs;
    }
  }

  lemma {:induction false} RecvPrefix(es: seq<Entry>, k: nat, base: nat)
    requires k <= |es|
    ensures RecvCands(es[..k], base) <= RecvCands(es, base)
    decreases |es|
  {
    if k < |es| {
      assert es[..|es| - 1][..k] == es[..k];
      RecvPrefix(es[..|es| - 1], k, base);
    } else {
      assert es[..k] == es;
    }
  }

  lemma ArrayNext(cs: seq<Option<Cid>>, k: nat, n: nat)
    requires k < |cs|
    ensures ArrayCands(cs[..k + 1], n) ==
      if cs[k].None? then ArrayCands(cs[..k], n) else ArrayCands(cs[..k], n) + [Cand(Receives, n, Some(k), cs[k].value)]
  {
    assert cs[..k + 1][..k] == cs[..k];
  }

  lemma SendNext(cs: seq<Option<Cid>>, k: nat)
    requires k < |cs|
    ensures SendCands(cs[..k + 1]) ==
      if cs[k].None? then SendCands(cs[..k]) else SendCands(cs[..k]) + [Cand(Sends, k, None, cs[k].value)]
  {
    assert cs[..k + 1][..k] == cs[..k];
  }

  lemma RecvNext(es: seq<Entry>, k: nat, base: nat)
    requires k < |es|
    ensures RecvCands(es[..k + 1], base) == RecvCands(es[..k], base) + EntryCands(es[k], base + k)
  {
    assert es[..k + 1][..k] == es[..k];
  }

  lemma RecvFaultNext(es: seq<Entry>, k: nat)
    requires k < |es|
    ensures RecvFault(es[..k + 1]) == if es[k] == One(None) then Some(NilRef) else RecvFault(es[..k])
  {
    assert es[..k + 1][..k] == es[..k];
  }

  /** Marks on the send side do not change who is first to receive. */
  lemma SendFaultNext(s: seq<Chan>, cs: seq<Option<Cid>>, k: nat, p: Pid, first: Option<Error>)
    requires Sound(s) && k < |cs|
    ensures SendFault(s, cs[..k + 1], p, first) ==
      if cs[k].None? then Some(NilRef)
      else if cs[k].value < |s| && Own(MarkAll(s, SendCands(cs[..k]), p)[cs[k].value], p) then Some(SelfAlt)
      else SendFault(s, cs[..k], p, first)
  {
    assert cs[..k + 1][..k] == cs[..k];
    SendSide(cs[..k]);
    if cs[k].Some? && cs[k].value < |s| { SameReady(s, SendCands(cs[..k]), p, cs[k].value, Sends); }
  }

  // ----- the channels an alt names

  predicate RealOne(c: Option<Cid>, n: nat) { c.Some? ==> c.value < n }

  predicate Real(cs: seq<Option<Cid>>, n: nat) {
    forall k {:trigger RealOne(cs[k], n)} :: 0 <= k < |cs| ==> RealOne(cs[k], n)
  }

  predicate RealEntry(e: Entry, n: nat) { if e.One? then RealOne(e.c, n) else Real(e.cs, n) }

  predicate RealEntries(es: seq<Entry>, n: nat) {
    forall k {:trigger RealEntry(es[k], n)} :: 0 <= k < |es| ==> RealEntry(es[k], n)
  }

  /** Every channel of the alt exists. */
  predicate RealAlt(a: Alt, n: nat) { Real(a.sends, n) && RealEntries(a.recvs, n) }

  /** So do those of every parked alt. */
  predicate ParkedReal(w: World) { forall r :: r in w.progs && w.progs[r].InAlt? ==> RealAlt(w.progs[r].a, |w.chans|) }

  class Scheduler {
    var chans: seq<Chan>
    var progs: map<Pid, PState>
    var picks: map<Pid, Cand>

    ghost function Now(): World
      reads this
    {
      World(chans, progs, picks)
    }

    method CqAdd(c: Cid, side: Side, p: Pid)
      requires c < |chans| && Line(chans[c], side) != []
      modifies this`chans
      ensures chans == old(chans)[c := SetLine(old(chans)[c], side, Add(Line(old(chans)[c], side), p))]
    {
      var q := Line(chans[c], side);
      if q[0].None? {
        q := [Some(p)] + q[1..];
      } else {
        var k := 0;
        while k < |q|
          invariant k <= |q|
        {
          k := k + 1;
        }
        assert q[..k] == q;
        q := q[..k] + [Some(p)];
      }
      chans := chans[c := SetLine(chans[c], side, q)];
    }

    method CqDel(c: Cid, side: Side)
      requires c < |chans| && Line(chans[c], side) != []
      modifies this`chans
      ensures chans == Popped(old(chans), c, side)
    {
      var q := Line(chans[c], side);
      chans := chans[c := SetLine(chans[c], side, if |q| == 1 then EMPTY else q[1..])];
    }

    method CqDelP(c: Cid, side: Side, p: Pid)
      requires c < |chans| && Line(chans[c], side) != []
      modifies this`chans
      ensures chans == old(chans)[c := SetLine(old(chans)[c], side, DelP(Line(old(chans)[c], side), p))]
    {
      var q := Line(chans[c], side);
      if |q| == 1 {
        if q[0] == Some(p) { q := EMPTY; }
      } else {
        ghost var all := q;
        ghost var n := 0;
        var k := 0;
        while k < |q|
          invariant k <= |q| && n + (|q| - k) == |all|
          invariant q[k..] == all[n..]
          invariant q[..k] == Other(all[..n], p)
          decreases |q| - k
        {
          assert all[..n + 1][..n] == all[..n] && q[k] == all[n];
          if q[k] == Some(p) {
            q := q[..k] + q[k + 1..];
          } else {
            k := k + 1;
          }
          n := n + 1;
        }
        assert all[..n] == all && q[..k] == q;
      }
      chans := chans[c := SetLine(chans[c], side, q)];
    }

    /** A receive channel of pass 1: count it if ready, and mark it. */
    method MarkRecv(c: Cid, p: Pid, ghost x: Cand) returns (rdy: nat)
      requires Sound(chans) && c < |chans| && x.c == c && x.side == Receives
      modifies this`chans
      ensures chans == Mark(old(chans), x, p) && rdy == if Ready(old(chans)[c], Receives) then 1 else 0
    {
      rdy := 0;
      if Held(chans[c].send) || CanGet(chans[c]) { rdy := 1; }
      CqAdd(c, Receives, p);
    }

    /** The next receive channel of pass 1, after the ways `cs`. */
    method MarkOneMore(c: Cid, p: Pid, ghost x: Cand, ghost s: seq<Chan>, ghost cs: seq<Cand>, nrdy: nat)
        returns (nrdy': nat)
      requires Sound(s) && Counted(s, cs, p, chans, nrdy) && x.c == c && x.side == Receives && c < |s|
      modifies this`chans
      ensures Counted(s, cs + [x], p, chans, nrdy')
    {
      Snoc(s, cs, x, p);
      MarkAllSound(s, cs, p);
      var rdy := MarkRecv(c, p, x);
      nrdy' := nrdy + rdy;
    }

    /** Pass 1 on an array of channels that is receive case n. */
    method AltMark(cs: seq<Option<Cid>>, ghost n: nat, p: Pid) returns (nrdy: nat)
      requires Sound(chans) && Real(cs, |chans|)
      modifies this`chans
      ensures Counted(old(chans), ArrayCands(cs, n), p, chans, nrdy)
    {
      nrdy := 0;
      var k := 0;
      assert cs[..0] == [];
      while k < |cs|
        invariant k <= |cs|
        invariant Counted(old(chans), ArrayCands(cs[..k], n), p, chans, nrdy)
      {
        ArrayNext(cs, k, n);
        assert RealOne(cs[k], |old(chans)|);
        if cs[k].Some? {
          nrdy := MarkOneMore(cs[k].value, p, Cand(Receives, n, Some(k), cs[k].value), old(chans),
              ArrayCands(cs[..k], n), nrdy);
        }
        k := k + 1;
      }
      assert cs[..k] == cs;
    }

    /** Receive case n of pass 1. */
    method MarkEntry(e: Entry, ghost n: nat, p: Pid) returns (nrdy: nat)
      requires Sound(chans) && RealEntry(e, |chans|)
      modifies this`chans
      ensures Counted(old(chans), EntryCands(e, n), p, chans, nrdy)
    {
      nrdy := 0;
      match e
      case One(None) =>
      case One(Some(c)) =>
        assert EntryCands(e, n) == [] + [Cand(Receives, n, None, c)];
        assert EntryCands(e, n)[0].c == c;
        Snoc(chans, [], Cand(Receives, n, None, c), p);
        nrdy := MarkRecv(c, p, Cand(Receives, n, None, c));
      case Many(cs) =>
        nrdy := AltMark(cs, n, p);
    }

    /** The next receive case of pass 1, after the ways `xs`. */
    method MarkCase(e: Entry, ghost n: nat, p: Pid, ghost s: seq<Chan>, ghost xs: seq<Cand>, ghost zs: seq<Cand>,
        nrdy: nat)
      returns (nrdy': nat)
      requires RealEntry(e, |s|) && zs == xs + EntryCands(e, n) && Sound(s) && Counted(s, xs, p, chans, nrdy)
      modifies this`chans
      ensures Counted(s, zs, p, chans, nrdy')
    {
      MarkAllSound(s, xs, p);
      ghost var t := chans;
      var r := MarkEntry(e, n, p);
      nrdy' := nrdy + r;
      CountedMore(s, xs, EntryCands(e, n), zs, p, t, nrdy, chans, r);
    }

    /** Receive entry k of pass 1. */
    method MarkNext(es: seq<Entry>, k: nat, ghost base: nat, p: Pid, ghost s: seq<Chan>, nrdy: nat) returns (nrdy': nat)
      requires k < |es| && Sound(s) && Counted(s, RecvCands(es[..k], base), p, chans, nrdy) && RealEntry(es[k], |s|)
      modifies this`chans
      ensures Counted(s, RecvCands(es[..k + 1], base), p, chans, nrdy')
    {
      RecvNext(es, k, base);
      nrdy' := MarkCase(es[k], base + k, p, s, RecvCands(es[..k], base), RecvCands(es[..k + 1], base), nrdy);
    }

    /** The receive entries' part of pass 1. */
    method MarkRecvs(a: Alt, p: Pid) returns (nrdy: nat, e: Option<Error>)
      requires Sound(chans) && RealEntries(a.recvs, |chans|)
      modifies this`chans
      ensures Counted(old(chans), Cands(a, Receives), p, chans, nrdy) && e == RecvFault(a.recvs)
    {
      nrdy, e := 0, None;
      var k := 0;
      assert a.recvs[..0] == [];
      while k < |a.recvs|
        invariant k <= |a.recvs|
        invariant Counted(old(chans), RecvCands(a.recvs[..k], |a.sends|), p, chans, nrdy)
        invariant e == RecvFault(a.recvs[..k])
      {
        RecvFaultNext(a.recvs, k);
        if a.recvs[k] == One(None) { e := Some(NilRef); }
        assert RealEntry(a.recvs[k], |old(chans)|);
        nrdy := MarkNext(a.recvs, k, |a.sends|, p, old(chans), nrdy);
        k := k + 1;
      }
      assert a.recvs[..k] == a.recvs;
    }

    /** A send channel of pass 1: unless it is p's own, count it if ready, and mark it. */
    method MarkSend(c: Cid, p: Pid, ghost x: Cand) returns (rdy: nat, own: bool)
      requires Sound(chans) && c < |chans| && x.c == c && x.side == Sends
      modifies this`chans
      ensures own == Own(old(chans)[c], p)
      ensures chans == if own then old(chans) else Mark(old(chans), x, p)
      ensures rdy == if Ready(old(chans)[c], Sends) && !own then 1 else 0
    {
      rdy, own := 0, false;
      if Held(chans[c].recv) || CanPut(chans[c]) {
        if Own(chans[c], p) { return 0, true; }
        rdy := 1;
      }
      CqAdd(c, Sends, p);
    }

    /** The next send channel of pass 1, after the ways `cs`. */
    method SendOneMore(c: Cid, p: Pid, ghost x: Cand, ghost s: seq<Chan>, ghost cs: seq<Cand>, nrdy: nat)
        returns (nrdy': nat, own: bool)
      requires Sound(s) && Counted(s, cs, p, chans, nrdy) && x.c == c && x.side == Sends && c < |s|
      modifies this`chans
      ensures Counted(s, cs + [x], p, chans, nrdy') && own == Own(MarkAll(s, cs, p)[c], p)
    {
      Snoc(s, cs, x, p);
      MarkAllSound(s, cs, p);
      var rdy;
      rdy, own := MarkSend(c, p, x);
      nrdy' := nrdy + rdy;
    }

    /** Send entry k of pass 1. */
    method SendNextEntry(cs: seq<Option<Cid>>, k: nat, p: Pid, ghost s: seq<Chan>, ghost first: Option<Error>,
        nrdy: nat, e: Option<Error>)
      returns (nrdy': nat, e': Option<Error>)
      requires k < |cs| && Sound(s) && RealOne(cs[k], |s|)
      requires Counted(s, SendCands(cs[..k]), p, chans, nrdy) && e == SendFault(s, cs[..k], p, first)
      modifies this`chans
      ensures Counted(s, SendCands(cs[..k + 1]), p, chans, nrdy') && e' == SendFault(s, cs[..k + 1], p, first)
    {
      SendNext(cs, k);
      SendFaultNext(s, cs, k, p, first);
      nrdy', e' := nrdy, e;
      if cs[k].None? {
        e' := Some(NilRef);
      } else {
        var own;
        nrdy', own := SendOneMore(cs[k].value, p, Cand(Sends, k, None, cs[k].value), s, SendCands(cs[..k]), nrdy);
        if own { e' := Some(SelfAlt); }
      }
    }

    /** The send entries' part of pass 1. */
    method MarkSends(cs: seq<Option<Cid>>, p: Pid, first: Option<Error>) returns (nrdy: nat, e: Option<Error>)
      requires Sound(chans) && Real(cs, |chans|)
      modifies this`chans
      ensures Counted(old(chans), SendCands(cs), p, chans, nrdy) && e == SendFault(old(chans), cs, p, first)
    {
      nrdy, e := 0, first;
      var k := 0;
      assert cs[..0] == [];
      while k < |cs|
        invariant k <= |cs|
        invariant Counted(old(chans), SendCands(cs[..k]), p, chans, nrdy) &&
                  e == SendFault(old(chans), cs[..k], p, first)
      {
        assert RealOne(cs[k], |old(chans)|);
        nrdy, e := SendNextEntry(cs, k, p, old(chans), first, nrdy, e);
        k := k + 1;
      }
      assert cs[..k] == cs;
    }

    /** Pass 1: mark every channel of the alt and count the ready ones. */
    method AltRdy(a: Alt, p: Pid) returns (nrdy: nat, e: Option<Error>, ok: bool)
      requires Sound(chans) && RealAlt(a, |chans|)
      modifies this
      ensures e == Fault1(old(chans), a, p) && progs == old(progs)
      ensures e == None ==>
                ok && picks == old(picks) && chans == Pass1(old(chans), a, p) && nrdy == Count1(old(chans), a, p)
      ensures e.Some? ==> Undone(Pass1(old(chans), a, p), a, p, chans, old(picks), picks, None, ok)
    {
      nrdy, e := MarkRecvs(a, p);
      MarkAllSound(old(chans), Cands(a, Receives), p);
      var n;
      n, e := MarkSends(a.sends, p, e);
      nrdy := nrdy + n;
      ok := true;
      if e.Some? { ok := AltDone(a, p, None, None); }
    }

    /** Pass 3 on one queue, and the case told if its channel is the selected one. */
    method Unmark1(p: Pid, x: Cand, sr: Option<Side>, sel: Option<Cid>) returns (sel': Option<Cid>, ok: bool)
      requires x.c < |chans|
      modifies this`chans, this`picks
      ensures match Unmark(old(chans), x, p) case None => !ok case Some(t) => ok && chans == t
      ensures ok ==> if sr == Some(x.side) && sel == Some(x.c) then sel' == None && picks == old(picks)[p := x]
        else sel' == sel && picks == old(picks)
    {
      sel' := sel;
      if Line(chans[x.c], x.side) == [] { return sel', false; }
      if Held(Line(chans[x.c], x.side)) { CqDelP(x.c, x.side, p); }
      if sr == Some(x.side) && sel == Some(x.c) {
        picks := picks[p := x];
        sel' := None;
      }
      return sel', true;
    }

    /** Pass 3 on an array of channels that is receive case n. */
    method AltUnmark(cs: seq<Option<Cid>>, n: nat, p: Pid, sr: Option<Side>, sel: Option<Cid>)
        returns (sel': Option<Cid>, ok: bool)
      requires Real(cs, |chans|)
      modifies this`chans, this`picks
      ensures Told(old(chans), ArrayCands(cs, n), Receives, p, sr, sel, chans, old(picks), picks, sel', ok)
    {
      sel', ok := sel, true;
      var k := 0;
      assert cs[..0] == [];
      while k < |cs| && ok
        invariant k <= |cs|
        invariant Told(old(chans), ArrayCands(cs[..k], n), Receives, p, sr, sel, chans, old(picks), picks, sel', ok)
        decreases |cs| - k
      {
        ArrayNext(cs, k, n);
        assert RealOne(cs[k], |old(chans)|);
        if cs[k].Some? {
          var x := Cand(Receives, n, Some(k), cs[k].value);
          TellNext(old(chans), ArrayCands(cs[..k], n), x, p, sr, sel, chans, old(picks), picks, sel');
          sel', ok := Unmark1(p, x, sr, sel');
        }
        k := k + 1;
      }
      ArrayPrefix(cs, k, n);
      if ok { assert cs[..k] == cs; } else { PrefixCrash(old(chans), ArrayCands(cs[..k], n), ArrayCands(cs, n), p); }
    }

    /** Pass 3 on receive case n. */
    method UnmarkEntry(e: Entry, n: nat, p: Pid, sr: Option<Side>, sel: Option<Cid>)
        returns (sel': Option<Cid>, ok: bool)
      requires RealEntry(e, |chans|)
      modifies this`chans, this`picks
      ensures Told(old(chans), EntryCands(e, n), Receives, p, sr, sel, chans, old(picks), picks, sel', ok)
    {
      sel', ok := sel, true;
      match e
      case One(None) =>
      case One(Some(c)) =>
        var x := Cand(Receives, n, None, c);
        assert EntryCands(e, n) == [] + [x];
        assert EntryCands(e, n)[0].c == c;
        TellNext(chans, [], x, p, sr, sel, chans, picks, picks, sel);
        sel', ok := Unmark1(p, x, sr, sel);
      case Many(cs) =>
        sel', ok := AltUnmark(cs, n, p, sr, sel);
    }

    /** Pass 3 on the send entries. */
    method UnmarkSends(cs: seq<Option<Cid>>, p: Pid, sr: Option<Side>, sel: Option<Cid>)
        returns (sel': Option<Cid>, ok: bool)
      requires Real(cs, |chans|)
      modifies this`chans, this`picks
      ensures Told(old(chans), SendCands(cs), Sends, p, sr, sel, chans, old(picks), picks, sel', ok)
    {
      sel', ok := sel, true;
      var k := 0;
      assert cs[..0] == [];
      while k < |cs| && ok
        invariant k <= |cs|
        invariant Told(old(chans), SendCands(cs[..k]), Sends, p, sr, sel, chans, old(picks), picks, sel', ok)
        decreases |cs| - k
      {
        SendNext(cs, k);
        assert RealOne(cs[k], |old(chans)|);
        if cs[k].Some? {
          var x := Cand(Sends, k, None, cs[k].value);
          TellNext(old(chans), SendCands(cs[..k]), x, p, sr, sel, chans, old(picks), picks, sel');
          sel', ok := Unmark1(p, x, sr, sel');
        }
        k := k + 1;
      }
      SendPrefix(cs, k);
      if ok { assert cs[..k] == cs; } else { PrefixCrash(old(chans), SendCands(cs[..k]), SendCands(cs), p); }
    }

    /** The next receive case of pass 3, after the ways `xs`. */
    method UnmarkNext(e: Entry, n: nat, p: Pid, sr: Option<Side>, sel: Option<Cid>, ghost s: seq<Chan>,
        ghost was: map<Pid, Cand>, ghost xs: seq<Cand>, ghost zs: seq<Cand>, ghost first: Option<Cid>)
        returns (sel': Option<Cid>, ok: bool)
      requires RealEntry(e, |chans|) && zs == xs + EntryCands(e, n)
      requires Told(s, xs, Receives, p, sr, first, chans, was, picks, sel, true)
      modifies this`chans, this`picks
      ensures Told(s, zs, Receives, p, sr, first, chans, was, picks, sel', ok)
    {
      ghost var t, m := chans, picks;
      sel', ok := UnmarkEntry(e, n, p, sr, sel);
      TellMore(s, xs, EntryCands(e, n), zs, Receives, p, sr, first, t, was, m, sel, chans, picks, sel', ok);
    }

    /** Pass 3 on the receive entries. */
    method UnmarkRecvs(es: seq<Entry>, base: nat, p: Pid, sr: Option<Side>, sel: Option<Cid>)
        returns (sel': Option<Cid>, ok: bool)
      requires RealEntries(es, |chans|)
      modifies this`chans, this`picks
      ensures Told(old(chans), RecvCands(es, base), Receives, p, sr, sel, chans, old(picks), picks, sel', ok)
    {
      sel', ok := sel, true;
      var k := 0;
      assert es[..0] == [];
      while k < |es| && ok
        invariant k <= |es|
        invariant Told(old(chans), RecvCands(es[..k], base), Receives, p, sr, sel, chans, old(picks), picks, sel', ok)
        decreases |es| - k
      {
        RecvNext(es, k, base);
        assert RealEntry(es[k], |old(chans)|);
        sel', ok := UnmarkNext(es[k], base + k, p, sr, sel', old(chans), old(picks), RecvCands(es[..k], base),
            RecvCands(es[..k + 1], base), sel);
        k := k + 1;
      }
      RecvPrefix(es, k, base);
      if ok {
        assert es[..k] == es;
      } else {
        PrefixCrash(old(chans), RecvCands(es[..k], base), RecvCands(es, base), p);
      }
    }

    /** Pass 3: take the marks off, and tell p its case if it was chosen on channel sel, side sr. */
    method AltDone(a: Alt, p: Pid, sel: Option<Cid>, sr: Option<Side>) returns (ok: bool)
      requires RealAlt(a, |chans|)
      modifies this`chans, this`picks
      ensures Undone(old(chans), a, p, chans, old(picks), picks,
                     if sr.Some? && sel.Some? then Chosen(Cands(a, sr.value), sel.value) else None, ok)
    {
      var left;
      UnmarkAppend(chans, Cands(a, Sends), Cands(a, Receives), p);
      left, ok := UnmarkSends(a.sends, p, sr, sel);
      if ok { left, ok := UnmarkRecvs(a.recvs, |a.sends|, p, sr, left); }
    }

    /** p sends on channel c: to the first receiver, into the buffer, or not until someone comes. */
    method Isend(p: Pid, c: Cid) returns (ok: bool)
      requires Sound(chans) && c < |chans| && ParkedReal(Now())
      modifies this
      ensures match Comm(old(Now()), p, c, Sends) case None => !ok case Some(v) => ok && Now() == v
    {
      if !Held(chans[c].recv) {
        if CanPut(chans[c]) {
          chans := chans[c := chans[c].(size := chans[c].size + 1)];
        } else {
          progs := progs[p := OnSend(c)];
          CqAdd(c, Sends, p);
        }
        return true;
      }
      ok := WakeFirst(c, Receives);
    }

    /** p receives on channel c: from the first sender, from the buffer, or not until someone comes. */
    method Irecv(p: Pid, c: Cid) returns (ok: bool)
      requires Sound(chans) && c < |chans| && ParkedReal(Now())
      modifies this
      ensures match Comm(old(Now()), p, c, Receives) case None => !ok case Some(v) => ok && Now() == v
    {
      if !Held(chans[c].send) {
        if CanGet(chans[c]) {
          chans := chans[c := chans[c].(size := chans[c].size - 1)];
        } else {
          progs := progs[p := OnRecv(c)];
          CqAdd(c, Receives, p);
        }
        return true;
      }
      ok := WakeFirst(c, Sends);
    }

    /** The first of a queue comes off it, and out of its alt if it is in one. */
    method WakeFirst(c: Cid, side: Side) returns (ok: bool)
      requires c < |chans| && Held(Line(chans[c], side)) && ParkedReal(Now())
      modifies this
      ensures match Wake(old(Now()), c, side) case None => !ok case Some(v) => ok && Now() == v
    {
      var r := Line(chans[c], side)[0].value;
      CqDel(c, side);
      ok := true;
      if r in progs && progs[r].InAlt? { ok := AltDone(progs[r].a, r, Some(c), Some(side)); }
      progs := progs[r := Running];
    }

    /** Pass 2: take the which-th ready way, tell p its case, and communicate on it. */
    method AltComm(a: Alt, p: Pid, which: nat) returns (x: Option<Cand>, ok: bool)
      requires Sound(chans) && ParkedReal(Now()) && RealAlt(a, |chans|)
      modifies this
      ensures x == Nth(old(chans), All(a), which)
      ensures x == None ==> ok && Now() == old(Now())
      ensures x.Some? ==> x.value.c < |old(chans)|
      ensures x.Some? ==>
        match Comm(old(Now()).(picks := old(picks)[p := x.value]), p, x.value.c, x.value.side)
        case None => !ok
        case Some(v) => ok && Now() == v
    {
      var n, m;
      x, n := FindSend(a.sends, which);
      if x == None {
        x, m := FindRecv(a.recvs, |a.sends|, n);
        FoundMore(chans, Cands(a, Sends), Cands(a, Receives), All(a), which, n, m, x);
      } else {
        NthPrefix(chans, Cands(a, Sends), All(a), which);
      }
      ok := true;
      if x.Some? {
        NthPicked(chans, All(a), which);
        picks := picks[p := x.value];
        if x.value.side == Sends { ok := Isend(p, x.value.c); } else { ok := Irecv(p, x.value.c); }
      }
    }

    /** The next channel of pass 2, after the ways `cs`. */
    method TryOne(x: Cand, ghost cs: seq<Cand>, ghost which: nat, left: nat) returns (y: Option<Cand>, left': nat)
      requires x.c < |chans| && Short(chans, cs, which, left)
      ensures Found(chans, cs + [x], which, left', y)
    {
      ShortNext(chans, cs, x, which, left);
      y, left' := None, left;
      if Ready(chans[x.c], x.side) {
        if left == 0 { y := Some(x); } else { left' := left - 1; }
      }
    }

    /** The which-th ready send entry, or how many were short. */
    method FindSend(cs: seq<Option<Cid>>, which: nat) returns (x: Option<Cand>, left: nat)
      requires Real(cs, |chans|)
      ensures Found(chans, SendCands(cs), which, left, x)
    {
      x, left := None, which;
      var k := 0;
      assert cs[..0] == [];
      while k < |cs| && x == None
        invariant k <= |cs| && Found(chans, SendCands(cs[..k]), which, left, x)
        decreases |cs| - k
      {
        SendNext(cs, k);
        assert RealOne(cs[k], |chans|);
        if cs[k].Some? { x, left := TryOne(Cand(Sends, k, None, cs[k].value), SendCands(cs[..k]), which, left); }
        k := k + 1;
      }
      SendPrefix(cs, k);
      if k == |cs| { assert cs[..k] == cs; }
      FoundPrefix(chans, SendCands(cs[..k]), SendCands(cs), which, left, x);
    }

    /** The which-th ready channel of an array that is receive case n, or how many were short. */
    method FindArray(cs: seq<Option<Cid>>, n: nat, which: nat) returns (x: Option<Cand>, left: nat)
      requires Real(cs, |chans|)
      ensures Found(chans, ArrayCands(cs, n), which, left, x)
    {
      x, left := None, which;
      var k := 0;
      assert cs[..0] == [];
      while k < |cs| && x == None
        invariant k <= |cs| && Found(chans, ArrayCands(cs[..k], n), which, left, x)
        decreases |cs| - k
      {
        ArrayNext(cs, k, n);
        assert RealOne(cs[k], |chans|);
        if cs[k].Some? {
          x, left := TryOne(Cand(Receives, n, Some(k), cs[k].value), ArrayCands(cs[..k], n), which, left);
        }
        k := k + 1;
      }
      ArrayPrefix(cs, k, n);
      if k == |cs| { assert cs[..k] == cs; }
      FoundPrefix(chans, ArrayCands(cs[..k], n), ArrayCands(cs, n), which, left, x);
    }

    method FindEntry(e: Entry, n: nat, which: nat) returns (x: Option<Cand>, left: nat)
      requires RealEntry(e, |chans|)
      ensures Found(chans, EntryCands(e, n), which, left, x)
    {
      x, left := None, which;
      match e
      case One(None) =>
      case One(Some(c)) =>
        assert EntryCands(e, n) == [] + [Cand(Receives, n, None, c)];
        x, left := TryOne(Cand(Receives, n, None, c), [], which, left);
      case Many(cs) =>
        x, left := FindArray(cs, n, which);
    }

    /** The next receive case of pass 2, after the ways `xs`. */
    method FindNext(e: Entry, n: nat, ghost xs: seq<Cand>, ghost zs: seq<Cand>, ghost which: nat, left: nat)
        returns (x: Option<Cand>, left': nat)
      requires RealEntry(e, |chans|) && zs == xs + EntryCands(e, n) && Short(chans, xs, which, left)
      ensures Found(chans, zs, which, left', x)
    {
      x, left' := FindEntry(e, n, left);
      FoundMore(chans, xs, EntryCands(e, n), zs, which, left, left', x);
    }

    /** Receive entry k of pass 2. */
    method FindAt(es: seq<Entry>, k: nat, base: nat, ghost which: nat, left: nat) returns (x: Option<Cand>, left': nat)
      requires k < |es| && RealEntry(es[k], |chans|) && Short(chans, RecvCands(es[..k], base), which, left)
      ensures Found(chans, RecvCands(es[..k + 1], base), which, left', x)
    {
      RecvNext(es, k, base);
      ghost var xs, zs := RecvCands(es[..k], base), RecvCands(es[..k + 1], base);
      x, left' := FindNext(es[k], base + k, xs, zs, which, left);
    }

    method FindRecv(es: seq<Entry>, base: nat, which: nat) returns (x: Option<Cand>, left: nat)
      requires RealEntries(es, |chans|)
      ensures Found(chans, RecvCands(es, base), which, left, x)
    {
      x, left := None, which;
      var k := 0;
      assert es[..0] == [];
      while k < |es| && x == None
        invariant k <= |es| && Found(chans, RecvCands(es[..k], base), which, left, x)
        decreases |es| - k
      {
        assert RealEntry(es[k], |chans|);
        x, left := FindAt(es, k, base, which, left);
        k := k + 1;
      }
      FoundAll(chans, es, k, base, which, left, x);
    }

    /** An alt by running prog p. */
    method Xecalt(p: Pid, a: Alt, block: bool, rand: nat) returns (out: Outcome, ok: bool)
      requires Sound(chans) && ParkedReal(Now()) && RealAlt(a, |chans|)
      modifies this
      ensures var r := AltRuns.Xecalt(old(Now()), p, a, block, rand);
        match r.1 case None => !ok case Some(v) => ok && out == r.0 && Now() == v
    {
      var nrdy, e;
      nrdy, e, ok := AltRdy(a, p);
      if e.Some? { return Failed(e.value), ok; }
      if nrdy == 0 {
        if block {
          progs := progs[p := InAlt(a)];
          return Parked, true;
        }
        out := Missed(|a.sends| + |a.recvs|);
        ok := AltDone(a, p, None, None);
        return;
      }
      var x;
      MarkAllSound(old(chans), Cands(a, Receives), p);
      MarkAllSound(MarkAll(old(chans), Cands(a, Receives), p), Cands(a, Sends), p);
      x, ok := AltComm(a, p, rand % nrdy);
      out := if x.Some? then Took(x.value) else Lost;
      if ok { ok := AltDone(a, p, None, None); }
    }
  }

  lemma FoundAll(s: seq<Chan>, es: seq<Entry>, k: nat, base: nat, which: nat, left: nat, x: Option<Cand>)
    requires k <= |es| && Found(s, RecvCands(es[..k], base), which, left, x) && (x == None ==> k == |es|)
    ensures Found(s, RecvCands(es, base), which, left, x)
  {
    RecvPrefix(es, k, base);
    if k == |es| { assert es[..k] == es; }
    FoundPrefix(s, RecvCands(es[..k], base), RecvCands(es, base), which, left, x);
  }

  /** What pass 1 has done after the ways `cs`: they are marked, and the ready ones counted. */
  ghost predicate Counted(s: seq<Chan>, cs: seq<Cand>, p: Pid, t: seq<Chan>, n: nat)
  {
    t == MarkAll(s, cs, p) && n == CountMarking(s, cs, p)
  }

  lemma CountedMore(s: seq<Chan>, xs: seq<Cand>, ys: seq<Cand>, zs: seq<Cand>, p: Pid, t: seq<Chan>, m: nat,
      u: seq<Chan>, n: nat)
    requires Counted(s, xs, p, t, m) && Counted(t, ys, p, u, n) && zs == xs + ys
    ensures Counted(s, zs, p, u, m + n)
  {
    MarkAppend(s, xs, ys, p);
  }

  /** What pass 3 has done after the ways `cs`, all on one side: the marks are off, and the first way over the
      selected channel has been told. */
  ghost predicate Told(s: seq<Chan>, cs: seq<Cand>, side: Side, p: Pid, sr: Option<Side>, sel: Option<Cid>,
                       t: seq<Chan>, was: map<Pid, Cand>, picks: map<Pid, Cand>, left: Option<Cid>, ok: bool)
  {
    match UnmarkAll(s, cs, p)
    case None => !ok
    case Some(u) =>
      ok && t == u &&
      var x := if sr == Some(side) && sel.Some? then Chosen(cs, sel.value) else None;
      picks == Tell(was, p, x) && left == if x.Some? then None else sel
  }

  lemma TellNext(s: seq<Chan>, cs: seq<Cand>, x: Cand, p: Pid, sr: Option<Side>, sel: Option<Cid>,
                 t: seq<Chan>, was: map<Pid, Cand>, picks: map<Pid, Cand>, left: Option<Cid>)
    requires Told(s, cs, x.side, p, sr, sel, t, was, picks, left, true)
    ensures |t| == |s|
    ensures match Unmark(t, x, p)
      case None => UnmarkAll(s, cs + [x], p) == None
      case Some(u) =>
        var hit := sr == Some(x.side) && left == Some(x.c);
        Told(s, cs + [x], x.side, p, sr, sel, u, was, if hit then picks[p := x] else picks,
             if hit then None else left, true)
  {
    Snoc(s, cs, x, p);
    if sel.Some? { ChosenSnoc(cs, x, sel.value); }
  }

  lemma TellMore(s: seq<Chan>, xs: seq<Cand>, ys: seq<Cand>, zs: seq<Cand>, side: Side, p: Pid, sr: Option<Side>,
      sel: Option<Cid>, t: seq<Chan>, was: map<Pid, Cand>, mid: map<Pid, Cand>, between: Option<Cid>,
      u: seq<Chan>, picks: map<Pid, Cand>, left: Option<Cid>, ok: bool)
    requires zs == xs + ys && Told(s, xs, side, p, sr, sel, t, was, mid, between, true)
    requires Told(t, ys, side, p, sr, between, u, mid, picks, left, ok)
    ensures Told(s, zs, side, p, sr, sel, u, was, picks, left, ok)
  {
    UnmarkAppend(s, xs, ys, p);
    if sel.Some? { ChosenAppend(xs, ys, sel.value); }
  }

  /** The which-th ready way is not among these: `left` more are to be passed over. */
  ghost predicate Short(s: seq<Chan>, cs: seq<Cand>, which: nat, left: int) {
    Nth(s, cs, which) == None && left == which - CountReady(s, cs)
  }

  /** The which-th ready way is x, or not among these. */
  ghost predicate Found(s: seq<Chan>, cs: seq<Cand>, which: nat, left: int, x: Option<Cand>) {
    if x.Some? then Nth(s, cs, which) == x else Short(s, cs, which, left)
  }

  lemma FoundMore(s: seq<Chan>, xs: seq<Cand>, ys: seq<Cand>, zs: seq<Cand>, which: nat, n: nat, left: int,
      x: Option<Cand>)
    requires zs == xs + ys && Short(s, xs, which, n) && Found(s, ys, n, left, x)
    ensures Found(s, zs, which, left, x)
  {
    NthAppend(s, xs, ys, which);
    CountAppend(s, xs, ys);
  }

  /** A way found among the first is found among all. */
  lemma FoundPrefix(s: seq<Chan>, xs: seq<Cand>, ys: seq<Cand>, which: nat, left: int, x: Option<Cand>)
    requires xs <= ys && Found(s, xs, which, left, x) && (x == None ==> xs == ys)
    ensures Found(s, ys, which, left, x)
  {
    if x.Some? { NthPrefix(s, xs, ys, which); }
  }

  lemma ShortNext(s: seq<Chan>, cs: seq<Cand>, x: Cand, which: nat, left: nat)
    requires Short(s, cs, which, left)
    ensures if !ReadyWay(s, x) then Short(s, cs + [x], which, left)
      else if left > 0 then Short(s, cs + [x], which, left - 1)
      else Nth(s, cs + [x], which) == Some(x)
  {
    assert (cs + [x])[..|cs|] == cs;
  }

  lemma {:induction false} NthAppend(s: seq<Chan>, xs: seq<Cand>, ys: seq<Cand>, which: nat)
    ensures Nth(s, xs + ys, which) ==
      if Nth(s, xs, which).Some? then Nth(s, xs, which)
      else if which < CountReady(s, xs) then None
      else Nth(s, ys, which - CountReady(s, xs))
  {
    NthPicked(s, xs, which);
    if ys == [] {
      assert xs + ys == xs;
    } else {
      assert (xs + ys)[..|xs + ys| - 1] == xs + ys[..|ys| - 1];
      NthAppend(s, xs, ys[..|ys| - 1], which);
      CountAppend(s, xs, ys[..|ys| - 1]);
    }
  }

  lemma NthPrefix(s: seq<Chan>, xs: seq<Cand>, ys: seq<Cand>, which: nat)
    requires xs <= ys && Nth(s, xs, which).Some?
    ensures Nth(s, ys, which) == Nth(s, xs, which)
  {
    assert ys == xs + ys[|xs|..];
    NthAppend(s, xs, ys[|xs|..], which);
  }

  /** What the whole of pass 3 does. */
  ghost predicate Undone(s: seq<Chan>, a: Alt, p: Pid, t: seq<Chan>, was: map<Pid, Cand>, picks: map<Pid, Cand>,
                         x: Option<Cand>, ok: bool)
  {
    match UnmarkAll(s, All(a), p)
    case None => !ok
    case Some(u) => ok && t == u && picks == Tell(was, p, x)
  }

  /** Once a nil pointer is followed there is no way back. */
  lemma PrefixCrash(s: seq<Chan>, xs: seq<Cand>, ys: seq<Cand>, p: Pid)
    requires xs <= ys && UnmarkAll(s, xs, p) == None
    ensures UnmarkAll(s, ys, p) == None
  {
    assert ys == xs + ys[|xs|..];
    UnmarkAppend(s, xs, ys[|xs|..], p);
  }
}
