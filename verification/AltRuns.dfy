/**
  Sends, receives and alternatives as steps of many progs over shared channels.

  A step may wake a partner: the first prog on the other side's queue.  If that prog waits in an alt, its
  marks come off every queue and it is told which case it took.  None is the step that follows a nil
  pointer.  What is moved between the progs is not modelled, only how many items a buffer holds.
 */
module AltRuns {
  import opened Basics
  import opened ChannelQueues
  import opened Alts

  datatype PState = Running | OnSend(c: Cid) | OnRecv(c: Cid) | InAlt(a: Alt)

  /** A prog not in `progs` runs; `picks` holds the case each prog was last told. */
  datatype World = World(chans: seq<Chan>, progs: map<Pid, PState>, picks: map<Pid, Cand>)

  function StateOf(w: World, p: Pid): PState { if p in w.progs then w.progs[p] else Running }

  function Opposite(side: Side): Side { if side == Sends then Receives else Sends }

  function Popped(s: seq<Chan>, c: Cid, side: Side): seq<Chan>
    requires c < |s|
  {
    s[c := SetLine(s[c], side, Del(Line(s[c], side)))]
  }

  function Tell(picks: map<Pid, Cand>, r: Pid, x: Option<Cand>): map<Pid, Cand> {
    if x.Some? then picks[r := x.value] else picks
  }

  /** The first of the queue is woken: out of its alt, if it is in one. */
  function Wake(w: World, c: Cid, side: Side): (v: Option<World>)
    requires c < |w.chans| && Held(Line(w.chans[c], side))
    ensures v.Some? ==> |v.value.chans| == |w.chans|
  {
    var r := Line(w.chans[c], side)[0].value;
    var s := Popped(w.chans, c, side);
    if StateOf(w, r).InAlt? then
      var b := StateOf(w, r).a;
      match UnmarkAll(s, All(b), r)
      case None => None
      case Some(t) => Some(World(t, w.progs[r := Running], Tell(w.picks, r, Chosen(Cands(b, side), c))))
    else Some(World(s, w.progs[r := Running], w.picks))
  }

  /** Prog p sends or receives on channel c. */
  function Comm(w: World, p: Pid, c: Cid, side: Side): (v: Option<World>)
    requires c < |w.chans|
    ensures v.Some? ==> |v.value.chans| == |w.chans|
  {
    var h := w.chans[c];
    if Held(Line(h, Opposite(side))) then Wake(w, c, Opposite(side))
    else if side == Sends && CanPut(h) then Some(w.(chans := w.chans[c := h.(size := h.size + 1)]))
    else if side == Receives && CanGet(h) then Some(w.(chans := w.chans[c := h.(size := h.size - 1)]))
    else Some(w.(chans := w.chans[c := SetLine(h, side, Add(Line(h, side), p))],
                 progs := w.progs[p := if side == Sends then OnSend(c) else OnRecv(c)]))
  }

  /** The ready way with `which` ready ways before it. */
  function Nth(s: seq<Chan>, cs: seq<Cand>, which: nat): Option<Cand>
  {
    if cs == [] then None
    else
      var rest := cs[..|cs| - 1];
      var x := cs[|cs| - 1];
      if Nth(s, rest, which).Some? then Nth(s, rest, which)
      else if ReadyWay(s, x) && CountReady(s, rest) == which then Some(x)
      else None
  }

  /** Every index below the number of ready ways takes one, the one with that many before it. */
  lemma {:induction false} NthPicked(s: seq<Chan>, cs: seq<Cand>, which: nat)
    ensures Nth(s, cs, which).Some? <==> which < CountReady(s, cs)
    ensures Nth(s, cs, which).Some? ==> Picked(s, cs, which, Nth(s, cs, which).value)
  {
    if cs != [] {
      var rest := cs[..|cs| - 1];
      NthPicked(s, rest, which);
      if Nth(s, rest, which).Some? {
        var k :| 0 <= k < |rest| && rest[k] == Nth(s, rest, which).value && ReadyWay(s, rest[k]) &&
            CountReady(s, rest[..k]) == which;
        assert cs[k] == rest[k] && cs[..k] == rest[..k];
      } else if Nth(s, cs, which).Some? {
        assert cs[|cs| - 1] == Nth(s, cs, which).value;
      }
    }
  }

  datatype Outcome = Parked | Took(x: Cand) | Missed(n: nat) | Failed(e: Error) | Crashed | Lost

  function Unpark(w: World, s: seq<Chan>, a: Alt, p: Pid): Option<World>
  {
    match UnmarkAll(s, All(a), p) { case None => None case Some(t) => Some(w.(chans := t)) }
  }

  /** An alt by running prog p; `rand` is the random number that picks among the ready ways. */
  function Xecalt(w: World, p: Pid, a: Alt, block: bool, rand: nat): (r: (Outcome, Option<World>))
  {
    var s := Pass1(w.chans, a, p);
    var n := Count1(w.chans, a, p);
    if Fault1(w.chans, a, p).Some? then (Failed(Fault1(w.chans, a, p).value), Unpark(w, s, a, p))
    else if n == 0 then
      if block then (Parked, Some(w.(chans := s, progs := w.progs[p := InAlt(a)])))
      else (Missed(|a.sends| + |a.recvs|), Unpark(w, s, a, p))
    else
      match Nth(s, All(a), rand % n)
      case None => (Lost, Unpark(w, s, a, p))
      case Some(x) =>
        NthPicked(s, All(a), rand % n);
        match Comm(w.(chans := s, picks := w.picks[p := x]), p, x.c, x.side)
        case None => (Crashed, None)
        case Some(v) => (Took(x), Unpark(v, v.chans, a, p))
  }

  // ----- the invariant of every run

  /** How often a prog in this state stands on a queue of channel c. */
  function Due(st: PState, c: Cid, side: Side): nat {
    match st
    case Running => 0
    case OnSend(d) => if d == c && side == Sends then 1 else 0
    case OnRecv(d) => if d == c && side == Receives then 1 else 0
    case InAlt(a) => Listed(All(a), c, side)
  }

  /** Each prog stands on exactly the queues its state says, as often as its alt lists them. */
  ghost predicate Standing(w: World) {
    forall c: Cid, side, r: Pid {:trigger Times(Progs(Line(w.chans[c], side)), r)} :: c < |w.chans| ==>
      Times(Progs(Line(w.chans[c], side)), r) == Due(StateOf(w, r), c, side)
  }

  /** No partner is missed: while someone waits to receive, nobody waits to send and nothing is buffered, and
      while someone waits to send the buffer is full. */
  ghost predicate NoneMissed(s: seq<Chan>) {
    forall c {:trigger s[c]} :: 0 <= c < |s| ==>
      (Held(s[c].recv) ==> !Held(s[c].send) && !CanGet(s[c])) && (Held(s[c].send) ==> !CanPut(s[c]))
  }

  ghost predicate Good(w: World) { Sound(w.chans) && Standing(w) && NoneMissed(w.chans) }

  // ----- queues as who waits

  /** Everyone on the queue is r; nobody is on it, if r is nobody. */
  ghost predicate Only(q: Queue, r: Option<Pid>) {
    forall i {:trigger Progs(q)[i]} :: 0 <= i < |Progs(q)| ==> r == Some(Progs(q)[i])
  }

  lemma {:induction false} WithoutNone(s: seq<Pid>, r: Pid)
    ensures Without(s, r) == [] <==> forall i {:trigger s[i]} :: 0 <= i < |s| ==> s[i] == r
  {
    if s != [] { WithoutNone(s[..|s| - 1], r); }
  }

  lemma {:induction false} TimesAll(s: seq<Pid>, r: Pid)
    requires forall i {:trigger s[i]} :: 0 <= i < |s| ==> s[i] == r
    ensures Times(s, r) == |s|
  {
    if s != [] { TimesAll(s[..|s| - 1], r); }
  }

  lemma {:induction false} WithoutTail(s: seq<Pid>, r: Pid)
    requires s != [] && s[0] == r
    ensures Without(s[1..], r) == Without(s, r)
  {
    if |s| == 1 {
      assert s[..0] == [] && s[1..] == [];
    } else {
      WithoutTail(s[..|s| - 1], r);
      assert s[..|s| - 1][1..] == s[1..][..|s| - 2];
    }
  }

  lemma {:induction false} WithoutAgain(z: seq<Pid>, p: Pid, k: nat, r: Pid)
    requires p !in z
    ensures r == p ==> Without(z + Again(p, k), r) == z
    ensures r != p ==> Without(z + Again(p, k), r) == Without(z, r) + Again(p, k)
  {
    if k == 0 {
      assert z + [] == z && Without(z, r) + [] == Without(z, r);
      WithoutSame(z, p);
    } else {
      WithoutAgain(z, p, k - 1, r);
      assert z + Again(p, k) == (z + Again(p, k - 1)) + [p];
      WithoutSnoc(z + Again(p, k - 1), p, r);
      assert Without(z, r) + Again(p, k) == (Without(z, r) + Again(p, k - 1)) + [p];
    }
  }

  lemma {:induction false} TimesAgain(z: seq<Pid>, p: Pid, k: nat, r: Pid)
    ensures Times(z + Again(p, k), r) == Times(z, r) + if r == p then k else 0
  {
    if k == 0 {
      assert z + [] == z;
    } else {
      TimesAgain(z, p, k - 1, r);
      assert z + Again(p, k) == (z + Again(p, k - 1)) + [p];
      TimesSnoc(z + Again(p, k - 1), p, r);
    }
  }

  lemma {:induction false} AgainAll(p: Pid, n: nat)
    ensures |Again(p, n)| == n && forall i :: 0 <= i < n ==> Again(p, n)[i] == p
  {
    if n > 0 { AgainAll(p, n - 1); }
  }

  lemma WellUnique(q: Queue, r: Queue)
    requires Well(q) && Well(r) && Progs(q) == Progs(r)
    ensures q == r
  {
    HeldSome(q);
    HeldSome(r);
    if q != EMPTY { ProgsAll(q); }
    if r != EMPTY { ProgsAll(r); }
  }

  /** A queue breaks for r when r alone stands on it, twice or more. */
  lemma AllHisOnly(q: Queue, r: Pid)
    requires Well(q)
    ensures AllHis(q, r) <==> Only(q, Some(r)) && Times(Progs(q), r) >= 2
  {
    HeldSome(q);
    if q == EMPTY {
      assert Progs(q) == [] by { assert q[..0] == []; }
    } else {
      ProgsAll(q);
      if Only(q, Some(r)) { TimesAll(Progs(q), r); }
      if AllHis(q, r) { assert Only(q, Some(r)); }
    }
  }

  /** A queue is all p's when nobody else is on it and p is twice or more. */
  lemma HisAlone(z: seq<Pid>, q: Queue, p: Pid, k: nat)
    requires Well(q) && p !in z && Progs(q) == z + Again(p, k)
    ensures AllHis(q, p) <==> k >= 2 && z == []
  {
    AllHisOnly(q, p);
    AgainAll(p, k);
    TimesAgain(z, p, k, p);
    TimesNone(z, p);
    if z != [] {
      assert Progs(q)[0] == z[0] != p;
    } else {
      assert Progs(q) == Again(p, k);
    }
  }

  lemma OnlyMarked(z: seq<Pid>, q: Queue, s: Queue, p: Pid, k: nat, r: Pid)
    requires Progs(q) == z && Progs(s) == z + Again(p, k) && r != p
    ensures Only(s, Some(r)) <==> Only(q, Some(r)) && k == 0
  {
    AgainAll(p, k);
    if k > 0 {
      assert Progs(s)[|z|] == p;
    } else {
      assert z + [] == z;
    }
  }

  // ----- waking a partner

  /** What a wakeup does to a queue: the first is popped from its own, and in an alt it leaves the others. */
  lemma WokenLine(w: World, c: Cid, side: Side, d: Cid, other: Side)
    requires Sound(w.chans) && c < |w.chans| && d < |w.chans| && Held(Line(w.chans[c], side))
    requires Wake(w, c, side).Some?
    ensures var h := Wake(w, c, side).value.chans[d]; var s := Popped(w.chans, c, side);
      var r := Line(w.chans[c], side)[0].value;
      h.size == w.chans[d].size && h.cap == w.chans[d].cap &&
      Line(h, other) == if Due(StateOf(w, r), d, other) == 0 || !StateOf(w, r).InAlt? then Line(s[d], other)
                        else Gone(Line(s[d], other), r)
  {
    var s := Popped(w.chans, c, side);
    var r := Line(w.chans[c], side)[0].value;
    PoppedSound(w.chans, c, side);
    if StateOf(w, r).InAlt? {
      var b := StateOf(w, r).a;
      Unmarked(s, All(b), r, d, other);
    }
  }

  lemma PoppedSound(s: seq<Chan>, c: Cid, side: Side)
    requires Sound(s) && c < |s| && Held(Line(s[c], side))
    ensures Sound(Popped(s, c, side))
  {
    Removed(Line(s[c], side));
  }

  /** Popping takes the first off one queue. */
  lemma PoppedLine(s: seq<Chan>, c: Cid, side: Side, d: Cid, other: Side, r: Pid)
    requires Sound(s) && c < |s| && d < |s| && Held(Line(s[c], side))
    ensures var q := Line(Popped(s, c, side)[d], other);
      if d == c && other == side then Progs(q) == Progs(Line(s[c], side))[1..] && Progs(Line(s[c], side)) != [] &&
        Progs(Line(s[c], side))[0] == Line(s[c], side)[0].value
      else q == Line(s[d], other)
    ensures Times(Progs(Line(Popped(s, c, side)[d], other)), r) ==
      Times(Progs(Line(s[d], other)), r) - if d == c && other == side && r == Line(s[c], side)[0].value then 1 else 0
  {
    Removed(Line(s[c], side));
    HeldSome(Line(s[c], side));
    TimesTail(Progs(Line(s[c], side)), r);
  }

  /** The first of a queue stands there, so its state says so. */
  lemma FirstStands(w: World, c: Cid, side: Side)
    requires Sound(w.chans) && Standing(w) && c < |w.chans| && Held(Line(w.chans[c], side))
    ensures Due(StateOf(w, Line(w.chans[c], side)[0].value), c, side) > 0
  {
    var r := Line(w.chans[c], side)[0].value;
    HeldSome(Line(w.chans[c], side));
    TimesTail(Progs(Line(w.chans[c], side)), r);
    assert Times(Progs(Line(w.chans[c], side)), r) == Due(StateOf(w, r), c, side);
  }

  /** A prog that waits outside an alt stands on one queue. */
  lemma DueAlone(st: PState, c: Cid, side: Side, d: Cid, other: Side)
    requires !st.InAlt? && Due(st, c, side) > 0
    ensures Due(st, d, other) == if d == c && other == side then 1 else 0
  {
  }

  /** The partner at the head of that queue is in an alt that lists another queue twice, or this one three
      times, on which it stands alone. */
  ghost predicate WakeFatal(w: World, c: Cid, side: Side)
    requires c < |w.chans| && Held(Line(w.chans[c], side))
  {
    var r := Line(w.chans[c], side)[0].value;
    StateOf(w, r).InAlt? &&
    exists d: Cid, other {:trigger Listed(All(StateOf(w, r).a), d, other)} ::
      d < |w.chans| && Only(Line(w.chans[d], other), Some(r)) &&
      Listed(All(StateOf(w, r).a), d, other) >= if d == c && other == side then 3 else 2
  }

  /** A wakeup follows a nil pointer exactly then. */
  lemma WakeCrashes(w: World, c: Cid, side: Side)
    requires Sound(w.chans) && Standing(w) && c < |w.chans| && Held(Line(w.chans[c], side))
    ensures Wake(w, c, side) == None <==> WakeFatal(w, c, side)
  {
    var s := Popped(w.chans, c, side);
    var r := Line(w.chans[c], side)[0].value;
    PoppedSound(w.chans, c, side);
    if StateOf(w, r).InAlt? {
      var b := StateOf(w, r).a;
      Crashes(s, All(b), r);
      forall d: Cid, other {:trigger Listed(All(b), d, other)} | d < |s|
        ensures Listed(All(b), d, other) >= 2 && AllHis(Line(s[d], other), r) <==>
                Only(Line(w.chans[d], other), Some(r)) &&
                Listed(All(b), d, other) >= if d == c && other == side then 3 else 2 {
        BreaksPopped(w, c, side, d, other);
      }
    }
  }

  lemma BreaksPopped(w: World, c: Cid, side: Side, d: Cid, other: Side)
    requires Sound(w.chans) && Standing(w) && c < |w.chans| && d < |w.chans| && Held(Line(w.chans[c], side))
    ensures var r := Line(w.chans[c], side)[0].value; var n := Due(StateOf(w, r), d, other);
      n >= 2 && AllHis(Line(Popped(w.chans, c, side)[d], other), r) <==>
      Only(Line(w.chans[d], other), Some(r)) && n >= if d == c && other == side then 3 else 2
  {
    var r := Line(w.chans[c], side)[0].value;
    var q, line := Line(Popped(w.chans, c, side)[d], other), Line(w.chans[d], other);
    PoppedSound(w.chans, c, side);
    SoundLines(Popped(w.chans, c, side));
    PoppedLine(w.chans, c, side, d, other, r);
    AllHisOnly(q, r);
    assert Times(Progs(line), r) == Due(StateOf(w, r), d, other);
    if d == c && other == side { OnlyTail(line, q, r); }
  }

  lemma OnlyTail(line: Queue, q: Queue, r: Pid)
    requires Progs(line) != [] && Progs(line)[0] == r && Progs(q) == Progs(line)[1..]
    ensures Only(q, Some(r)) <==> Only(line, Some(r))
  {
    var s := Progs(line);
    if Only(q, Some(r)) {
      forall i | 0 <= i < |s| ensures s[i] == r { if i > 0 { assert s[i] == Progs(q)[i - 1]; } }
    }
    if Only(line, Some(r)) {
      forall i | 0 <= i < |Progs(q)| ensures Progs(q)[i] == r { assert Progs(q)[i] == s[i + 1]; }
    }
  }

  /** A wakeup takes the partner off every queue, and touches nothing else. */
  lemma WokenProgs(w: World, c: Cid, side: Side, d: Cid, other: Side)
    requires Sound(w.chans) && Standing(w) && c < |w.chans| && d < |w.chans| && Held(Line(w.chans[c], side))
    requires Wake(w, c, side).Some?
    ensures var r := Line(w.chans[c], side)[0].value; var h := Wake(w, c, side).value.chans[d];
      Well(Line(h, other)) && Progs(Line(h, other)) == Without(Progs(Line(w.chans[d], other)), r) &&
      h.size == w.chans[d].size && h.cap == w.chans[d].cap
  {
    var r := Line(w.chans[c], side)[0].value;
    var q, line := Line(Popped(w.chans, c, side)[d], other), Line(w.chans[d], other);
    WokenLine(w, c, side, d, other);
    PoppedSound(w.chans, c, side);
    PoppedLine(w.chans, c, side, d, other, r);
    FirstStands(w, c, side);
    assert Times(Progs(line), r) == Due(StateOf(w, r), d, other);
    PoppedWithout(w.chans, c, side, d, other);
    if !StateOf(w, r).InAlt? { DueAlone(StateOf(w, r), c, side, d, other); }
    if StateOf(w, r).InAlt? && Due(StateOf(w, r), d, other) != 0 {
      NotAllHis(w, c, side, d, other);
      GoneTwice(q, r);
    } else {
      TimesNone(Progs(q), r);
      WithoutSame(Progs(q), r);
    }
  }

  lemma PoppedWithout(s: seq<Chan>, c: Cid, side: Side, d: Cid, other: Side)
    requires Sound(s) && c < |s| && d < |s| && Held(Line(s[c], side))
    ensures var r := Line(s[c], side)[0].value;
      Without(Progs(Line(Popped(s, c, side)[d], other)), r) == Without(Progs(Line(s[d], other)), r)
  {
    var r := Line(s[c], side)[0].value;
    PoppedLine(s, c, side, d, other, r);
    if d == c && other == side { WithoutTail(Progs(Line(s[c], side)), r); }
  }

  lemma NotAllHis(w: World, c: Cid, side: Side, d: Cid, other: Side)
    requires Sound(w.chans) && Standing(w) && c < |w.chans| && d < |w.chans| && Held(Line(w.chans[c], side))
    requires Wake(w, c, side).Some? && StateOf(w, Line(w.chans[c], side)[0].value).InAlt?
    ensures !AllHis(Line(Popped(w.chans, c, side)[d], other), Line(w.chans[c], side)[0].value)
  {
    var s := Popped(w.chans, c, side);
    var r := Line(w.chans[c], side)[0].value;
    PoppedSound(w.chans, c, side);
    Crashes(s, All(StateOf(w, r).a), r);
    AllHisOnly(Line(s[d], other), r);
    PoppedLine(w.chans, c, side, d, other, r);
    assert Times(Progs(Line(w.chans[d], other)), r) == Due(StateOf(w, r), d, other);
    assert Listed(All(StateOf(w, r).a), d, other) == Due(StateOf(w, r), d, other);
  }

  /** From w, prog r has left every queue and runs; nothing else has changed but what progs were told. */
  ghost predicate Leaves(w: World, v: World, r: Pid) {
    |v.chans| == |w.chans| && Sound(v.chans) &&
    (forall q {:trigger StateOf(v, q)} :: StateOf(v, q) == if q == r then Running else StateOf(w, q)) &&
    forall d: Cid, other {:trigger Line(v.chans[d], other)} :: d < |v.chans| ==>
      Progs(Line(v.chans[d], other)) == Without(Progs(Line(w.chans[d], other)), r) &&
      v.chans[d].size == w.chans[d].size && v.chans[d].cap == w.chans[d].cap
  }

  lemma LeavesGood(w: World, v: World, r: Pid)
    requires Good(w) && Leaves(w, v, r)
    ensures Good(v)
  {
    forall d: Cid, other, q: Pid | d < |v.chans|
      ensures Times(Progs(Line(v.chans[d], other)), q) == Due(StateOf(v, q), d, other) {
      assert Progs(Line(v.chans[d], other)) == Without(Progs(Line(w.chans[d], other)), r);
      TimesWithout(Progs(Line(w.chans[d], other)), r, q);
      assert Times(Progs(Line(w.chans[d], other)), q) == Due(StateOf(w, q), d, other);
    }
    forall d | 0 <= d < |v.chans|
      ensures (Held(v.chans[d].recv) ==> !Held(v.chans[d].send) && !CanGet(v.chans[d])) &&
              (Held(v.chans[d].send) ==> !CanPut(v.chans[d])) {
      ShrunkHeld(w, v, r, d, Sends);
      ShrunkHeld(w, v, r, d, Receives);
      assert w.chans[d] == w.chans[d];
    }
  }

  lemma ShrunkHeld(w: World, v: World, r: Pid, d: Cid, other: Side)
    requires Sound(w.chans) && Leaves(w, v, r) && d < |w.chans|
    ensures Held(Line(v.chans[d], other)) ==> Held(Line(w.chans[d], other))
    ensures v.chans[d].size == w.chans[d].size && v.chans[d].cap == w.chans[d].cap
  {
    assert Progs(Line(v.chans[d], other)) == Without(Progs(Line(w.chans[d], other)), r);
    HeldSome(Line(v.chans[d], other));
    HeldSome(Line(w.chans[d], other));
  }

  lemma WakeLeaves(w: World, c: Cid, side: Side)
    requires Sound(w.chans) && Standing(w) && c < |w.chans| && Held(Line(w.chans[c], side)) && Wake(w, c, side).Some?
    ensures Leaves(w, Wake(w, c, side).value, Line(w.chans[c], side)[0].value)
  {
    var v := Wake(w, c, side).value;
    forall d: Cid, other {:trigger Line(v.chans[d], other)} | d < |v.chans|
      ensures Well(Line(v.chans[d], other)) &&
              Progs(Line(v.chans[d], other)) ==
              Without(Progs(Line(w.chans[d], other)), Line(w.chans[c], side)[0].value) &&
              v.chans[d].size == w.chans[d].size && v.chans[d].cap == w.chans[d].cap {
      WokenProgs(w, c, side, d, other);
    }
    SoundLines(v.chans);
  }

  lemma SoundLines(s: seq<Chan>)
    ensures Sound(s) <==> forall d: Cid, other {:trigger Line(s[d], other)} :: d < |s| ==> Well(Line(s[d], other))
  {
    if forall d: Cid, other {:trigger Line(s[d], other)} :: d < |s| ==> Well(Line(s[d], other)) {
      forall d | 0 <= d < |s| ensures Well(s[d].send) && Well(s[d].recv) {
        assert Well(Line(s[d], Sends)) && Well(Line(s[d], Receives));
      }
    }
  }

  /** A wakeup that follows no nil pointer keeps the invariant. */
  lemma WakeKeeps(w: World, c: Cid, side: Side)
    requires Good(w) && c < |w.chans| && Held(Line(w.chans[c], side))
    ensures Wake(w, c, side) == None <==> WakeFatal(w, c, side)
    ensures Wake(w, c, side).Some? ==> Good(Wake(w, c, side).value)
  {
    WakeCrashes(w, c, side);
    if Wake(w, c, side).Some? {
      WakeLeaves(w, c, side);
      LeavesGood(w, Wake(w, c, side).value, Line(w.chans[c], side)[0].value);
    }
  }

  /** A send or receive keeps the invariant, and follows a nil pointer only by waking a partner. */
  lemma CommKeeps(w: World, p: Pid, c: Cid, side: Side)
    requires Good(w) && StateOf(w, p) == Running && c < |w.chans|
    ensures Comm(w, p, c, side) == None <==>
            Held(Line(w.chans[c], Opposite(side))) && WakeFatal(w, c, Opposite(side))
    ensures Comm(w, p, c, side).Some? ==> Good(Comm(w, p, c, side).value)
  {
    var h := w.chans[c];
    if Held(Line(h, Opposite(side))) {
      WakeKeeps(w, c, Opposite(side));
    } else if (side == Sends && CanPut(h)) || (side == Receives && CanGet(h)) {
      var v := Comm(w, p, c, side).value;
      forall d: Cid, other | d < |v.chans| ensures Line(v.chans[d], other) == Line(w.chans[d], other) {}
      assert Standing(v) by {
        forall d: Cid, other, r: Pid | d < |v.chans|
            ensures Times(Progs(Line(v.chans[d], other)), r) == Due(StateOf(v, r), d, other) {
          assert Times(Progs(Line(w.chans[d], other)), r) == Due(StateOf(w, r), d, other);
        }
      }
    } else {
      BlockKeeps(w, p, c, side);
    }
  }

  lemma BlockKeeps(w: World, p: Pid, c: Cid, side: Side)
    requires Good(w) && StateOf(w, p) == Running && c < |w.chans| && !Held(Line(w.chans[c], Opposite(side)))
    requires if side == Sends then !CanPut(w.chans[c]) else !CanGet(w.chans[c])
    ensures Good(Comm(w, p, c, side).value)
  {
    var v := Comm(w, p, c, side).value;
    BlockSound(w.chans, p, c, side);
    BlockStands(w, v, p, c, side);
  }

  lemma BlockSound(s: seq<Chan>, p: Pid, c: Cid, side: Side)
    requires Sound(s) && NoneMissed(s) && c < |s| && !Held(Line(s[c], Opposite(side)))
    requires if side == Sends then !CanPut(s[c]) else !CanGet(s[c])
    ensures var t := s[c := SetLine(s[c], side, Add(Line(s[c], side), p))]; Sound(t) && NoneMissed(t)
  {
    Added(Line(s[c], side), p);
  }

  lemma BlockStands(w: World, v: World, p: Pid, c: Cid, side: Side)
    requires Standing(w) && StateOf(w, p) == Running && c < |w.chans| && Well(Line(w.chans[c], side))
    requires v == w.(chans := w.chans[c := SetLine(w.chans[c], side, Add(Line(w.chans[c], side), p))],
                     progs := w.progs[p := if side == Sends then OnSend(c) else OnRecv(c)])
    ensures Standing(v)
  {
    forall d: Cid, other, r: Pid | d < |v.chans|
      ensures Times(Progs(Line(v.chans[d], other)), r) == Due(StateOf(v, r), d, other) {
      assert Times(Progs(Line(w.chans[d], other)), r) == Due(StateOf(w, r), d, other);
      JoinedTimes(w.chans, v.chans, p, c, side, d, other, r);
      BlockDue(w, v, p, c, side, d, other, r);
    }
  }

  lemma BlockDue(w: World, v: World, p: Pid, c: Cid, side: Side, d: Cid, other: Side, r: Pid)
    requires StateOf(w, p) == Running && v.progs == w.progs[p := if side == Sends then OnSend(c) else OnRecv(c)]
    ensures Due(StateOf(v, r), d, other) ==
            Due(StateOf(w, r), d, other) + if d == c && other == side && r == p then 1 else 0
  {
    assert StateOf(v, r) == if r != p then StateOf(w, r) else if side == Sends then OnSend(c) else OnRecv(c);
  }

  lemma JoinedTimes(s: seq<Chan>, t: seq<Chan>, p: Pid, c: Cid, side: Side, d: Cid, other: Side, r: Pid)
    requires c < |s| && d < |s| && Well(Line(s[c], side)) && t == s[c := SetLine(s[c], side, Add(Line(s[c], side), p))]
    ensures Times(Progs(Line(t[d], other)), r) ==
      Times(Progs(Line(s[d], other)), r) + if d == c && other == side && r == p then 1 else 0
  {
    if d == c && other == side {
      assert Line(t[d], other) == Add(Line(s[c], side), p);
      Added(Line(s[c], side), p);
      TimesSnoc(Progs(Line(s[c], side)), p, r);
    } else {
      assert Line(t[d], other) == Line(s[d], other);
    }
  }

  lemma {:induction false} ChosenFound(cs: seq<Cand>, c: Cid, side: Side)
    requires OneSide(cs, side)
    ensures Chosen(cs, c).Some? <==> Listed(cs, c, side) > 0
    ensures Chosen(cs, c).Some? ==> Chosen(cs, c).value.c == c && Chosen(cs, c).value in cs
  {
    if cs != [] { ChosenFound(cs[..|cs| - 1], c, side); }
  }

  lemma ListedOn(a: Alt, c: Cid, side: Side)
    ensures Listed(All(a), c, side) == Listed(Cands(a, side), c, side)
    ensures OneSide(Cands(a, side), side)
  {
    SendSide(a.sends);
    RecvSide(a.recvs, |a.sends|);
    ListedAppend(Cands(a, Sends), Cands(a, Receives), c, side);
    OtherSide(Cands(a, Opposite(side)), Opposite(side), c, side);
  }

  /** A partner woken out of an alt is told a case of its alt on the very channel and side, and is on no
      queue any more. */
  lemma PartnerTold(w: World, c: Cid, side: Side)
    requires Good(w) && c < |w.chans| && Held(Line(w.chans[c], side))
    requires StateOf(w, Line(w.chans[c], side)[0].value).InAlt?
    ensures Wake(w, c, side).Some? <==> !WakeFatal(w, c, side)
    ensures Wake(w, c, side).Some? ==>
      var v := Wake(w, c, side).value; var r := Line(w.chans[c], side)[0].value;
      StateOf(v, r) == Running && r in v.picks && v.picks[r] in Cands(StateOf(w, r).a, side) && v.picks[r].c == c &&
      v.picks[r].side == side &&
      forall d: Cid, other {:trigger Line(v.chans[d], other)} :: d < |v.chans| ==> r !in Progs(Line(v.chans[d], other))
  {
    var r := Line(w.chans[c], side)[0].value;
    var b := StateOf(w, r).a;
    WakeKeeps(w, c, side);
    if Wake(w, c, side).Some? {
      var v := Wake(w, c, side).value;
      FirstStands(w, c, side);
      ListedOn(b, c, side);
      ChosenFound(Cands(b, side), c, side);
      forall d: Cid, other | d < |v.chans| ensures r !in Progs(Line(v.chans[d], other)) {
        assert Times(Progs(Line(v.chans[d], other)), r) == Due(StateOf(v, r), d, other);
        TimesNone(Progs(Line(v.chans[d], other)), r);
      }
    }
  }

  // ----- the marks of pass 1, and their removal

  ghost predicate Absent(s: seq<Chan>, p: Pid) {
    forall c: Cid, side {:trigger Line(s[c], side)} :: c < |s| ==> p !in Progs(Line(s[c], side))
  }

  lemma RunningAbsent(w: World, p: Pid)
    requires Standing(w) && StateOf(w, p) == Running
    ensures Absent(w.chans, p)
  {
    forall c: Cid, side | c < |w.chans| ensures p !in Progs(Line(w.chans[c], side)) {
      assert Times(Progs(Line(w.chans[c], side)), p) == Due(StateOf(w, p), c, side);
      TimesNone(Progs(Line(w.chans[c], side)), p);
    }
  }

  /** How many marks pass 1 leaves on one side of channel c. */
  function Made(s: seq<Chan>, a: Alt, p: Pid, c: Cid, side: Side): nat {
    Marks(s, Cands(a, Receives), p, c, side) + Marks(MarkAll(s, Cands(a, Receives), p), Cands(a, Sends), p, c, side)
  }

  /** No more than listed; without an error, as many. */
  lemma MadeListed(s: seq<Chan>, a: Alt, p: Pid, c: Cid, side: Side)
    requires Sound(s)
    ensures Made(s, a, p, c, side) <= Listed(All(a), c, side)
    ensures Fault1(s, a, p) == None ==> Made(s, a, p, c, side) == Listed(All(a), c, side)
  {
    var rs, ss := Cands(a, Receives), Cands(a, Sends);
    var t := MarkAll(s, rs, p);
    ListedOn(a, c, side);
    ListedOn(a, c, Opposite(side));
    MarkAllSound(s, rs, p);
    OtherSide(rs, Receives, c, Sends);
    OtherSide(ss, Sends, c, Receives);
    MarksListed(s, rs, p, c, side);
    MarksListed(t, ss, p, c, side);
    FaultFree(t, a.sends, p, RecvFault(a.recvs));
    if Fault1(s, a, p) == None { AllMarked(t, ss, p, c); }
  }

  /** After pass 1 each queue has p at its end, as often as the pass has marked it. */
  lemma Pass1Line(s: seq<Chan>, a: Alt, p: Pid, c: Cid, side: Side)
    requires Sound(s) && c < |s|
    ensures Sound(Pass1(s, a, p))
    ensures var h := Pass1(s, a, p)[c];
      h.size == s[c].size && h.cap == s[c].cap &&
      Progs(Line(h, side)) == Progs(Line(s[c], side)) + Again(p, Made(s, a, p, c, side))
  {
    var rs, ss := Cands(a, Receives), Cands(a, Sends);
    var t := MarkAll(s, rs, p);
    Pass1Sound(s, a, p);
    MarkedOnly(s, rs, p, c, side);
    MarkedOnly(t, ss, p, c, side);
    Pass1Progs(s, t, a, p, c, side);
  }

  lemma Pass1Sound(s: seq<Chan>, a: Alt, p: Pid)
    requires Sound(s)
    ensures Sound(MarkAll(s, Cands(a, Receives), p)) && Sound(Pass1(s, a, p))
  {
    MarkAllSound(s, Cands(a, Receives), p);
    MarkAllSound(MarkAll(s, Cands(a, Receives), p), Cands(a, Sends), p);
  }

  lemma Pass1Progs(s: seq<Chan>, t: seq<Chan>, a: Alt, p: Pid, c: Cid, side: Side)
    requires Sound(s) && c < |s| && t == MarkAll(s, Cands(a, Receives), p) && Sound(t)
    ensures Progs(Line(Pass1(s, a, p)[c], side)) == Progs(Line(s[c], side)) + Again(p, Made(s, a, p, c, side))
  {
    var u := MarkAll(t, Cands(a, Sends), p);
    Marked(s, Cands(a, Receives), p, c, side);
    Marked(t, Cands(a, Sends), p, c, side);
    GrewTwice(Progs(Line(s[c], side)), Progs(Line(t[c], side)), Progs(Line(u[c], side)), p,
              Marks(s, Cands(a, Receives), p, c, side), Marks(t, Cands(a, Sends), p, c, side), Made(s, a, p, c, side));
    assert u == Pass1(s, a, p);
  }

  lemma GrewTwice(x: seq<Pid>, y: seq<Pid>, z: seq<Pid>, p: Pid, m: nat, n: nat, k: nat)
    requires Grew(x, y, p, m) && Grew(y, z, p, n) && k == m + n
    ensures z == x + Again(p, k)
  {
    AgainPlus(p, m, n);
    assert (x + Again(p, m)) + Again(p, n) == x + (Again(p, m) + Again(p, n));
  }

  lemma {:induction false} AgainPlus(p: Pid, m: nat, n: nat)
    ensures Again(p, m) + Again(p, n) == Again(p, m + n)
    decreases n
  {
    if n == 0 {
      assert Again(p, m) + [] == Again(p, m);
    } else {
      AgainPlus(p, m, n - 1);
      assert Again(p, m) + (Again(p, n - 1) + [p]) == (Again(p, m) + Again(p, n - 1)) + [p];
    }
  }

  /** Taking the marks off a queue that has p at its end leaves the others. */
  lemma OffAgain(t: seq<Chan>, a: Alt, p: Pid, d: Cid, other: Side, z: seq<Pid>, k: nat)
    requires Sound(t) && d < |t| && UnmarkAll(t, All(a), p).Some?
    requires Progs(Line(t[d], other)) == z + Again(p, k) && p !in z && k <= Listed(All(a), d, other)
    ensures var h := UnmarkAll(t, All(a), p).value[d];
      Well(Line(h, other)) && Progs(Line(h, other)) == z && h.size == t[d].size && h.cap == t[d].cap
  {
    Unmarked(t, All(a), p, d, other);
    Crashes(t, All(a), p);
    SoundLines(t);
    HisAlone(z, Line(t[d], other), p, k);
    GoneTwice(Line(t[d], other), p);
    WithoutAgain(z, p, k, p);
    if k == 0 { assert z + [] == z; }
  }

  /** A channel that pass 1 has marked twice on a side where nobody waited. */
  ghost predicate TwiceQuiet(s: seq<Chan>, a: Alt, p: Pid) {
    exists c: Cid, side {:trigger Made(s, a, p, c, side)} :: c < |s| && Made(s, a, p, c, side) >= 2 &&
      !Held(Line(s[c], side))
  }

  /** Pass 3 right after pass 1, with an error or without, follows a nil pointer exactly then; without an error,
      when a channel nobody waits on is listed twice on that side. */
  lemma CrashesFromStart(s: seq<Chan>, a: Alt, p: Pid)
    requires Sound(s) && Absent(s, p)
    ensures UnmarkAll(Pass1(s, a, p), All(a), p) == None <==> TwiceQuiet(s, a, p)
    ensures Fault1(s, a, p) == None ==> (TwiceQuiet(s, a, p) <==>
      exists c: Cid, side {:trigger Listed(All(a), c, side)} ::
        c < |s| && Listed(All(a), c, side) >= 2 && !Held(Line(s[c], side)))
  {
    var t := Pass1(s, a, p);
    MarkAllSound(s, Cands(a, Receives), p);
    MarkAllSound(MarkAll(s, Cands(a, Receives), p), Cands(a, Sends), p);
    Crashes(t, All(a), p);
    if Breaks(t, All(a), p) {
      var c: Cid, side :| c < |s| && Listed(All(a), c, side) >= 2 && AllHis(Line(t[c], side), p);
      AllHisFromStart(s, a, p, c, side);
      MadeListed(s, a, p, c, side);
    }
    forall c: Cid, side {:trigger Made(s, a, p, c, side)} | c < |s| && Made(s, a, p, c, side) >= 2 &&
        !Held(Line(s[c], side))
      ensures Listed(All(a), c, side) >= 2 && AllHis(Line(t[c], side), p) {
      AllHisFromStart(s, a, p, c, side);
      MadeListed(s, a, p, c, side);
    }
    forall c: Cid, side {:trigger Listed(All(a), c, side)} | Fault1(s, a, p) == None
      ensures Made(s, a, p, c, side) == Listed(All(a), c, side) {
      MadeListed(s, a, p, c, side);
    }
  }

  lemma AllHisFromStart(s: seq<Chan>, a: Alt, p: Pid, c: Cid, side: Side)
    requires Sound(s) && Absent(s, p) && c < |s|
    ensures AllHis(Line(Pass1(s, a, p)[c], side), p) <==> Made(s, a, p, c, side) >= 2 && !Held(Line(s[c], side))
  {
    var q := Line(s[c], side);
    Pass1Line(s, a, p, c, side);
    SoundLines(s);
    SoundLines(Pass1(s, a, p));
    HeldSome(q);
    assert p !in Progs(q);
    HisAlone(Progs(q), Line(Pass1(s, a, p)[c], side), p, Made(s, a, p, c, side));
  }

  /** An alt that fails or finds nothing leaves the channels exactly as they were, unless it follows a nil pointer. */
  lemma Restored(s: seq<Chan>, a: Alt, p: Pid)
    requires Sound(s) && Absent(s, p)
    ensures UnmarkAll(Pass1(s, a, p), All(a), p) == if TwiceQuiet(s, a, p) then None else Some(s)
  {
    var t := Pass1(s, a, p);
    CrashesFromStart(s, a, p);
    if UnmarkAll(t, All(a), p).Some? {
      var u := UnmarkAll(t, All(a), p).value;
      forall c | 0 <= c < |s| ensures u[c] == s[c] {
        RestoredLine(s, a, p, c, Sends);
        RestoredLine(s, a, p, c, Receives);
      }
      assert u == s;
    }
  }

  lemma RestoredLine(s: seq<Chan>, a: Alt, p: Pid, c: Cid, side: Side)
    requires Sound(s) && Absent(s, p) && c < |s| && UnmarkAll(Pass1(s, a, p), All(a), p).Some?
    ensures var u := UnmarkAll(Pass1(s, a, p), All(a), p).value;
      Line(u[c], side) == Line(s[c], side) && u[c].size == s[c].size && u[c].cap == s[c].cap
  {
    Pass1Line(s, a, p, c, side);
    MadeListed(s, a, p, c, side);
    SoundLines(s);
    assert p !in Progs(Line(s[c], side));
    OffAgain(Pass1(s, a, p), a, p, c, side, Progs(Line(s[c], side)), Made(s, a, p, c, side));
    WellUnique(Line(UnmarkAll(Pass1(s, a, p), All(a), p).value[c], side), Line(s[c], side));
  }

  // ----- an alt that finds a ready way

  /** The way an alt takes. */
  function Taken(w: World, p: Pid, a: Alt, rand: nat): Option<Cand> {
    if Fault1(w.chans, a, p) == None && Count1(w.chans, a, p) > 0 then
      Nth(Pass1(w.chans, a, p), All(a), rand % Count1(w.chans, a, p))
    else None
  }

  /** There is one whenever pass 1 has counted one, and it is ready once the alt has made its marks. */
  lemma WayTaken(w: World, p: Pid, a: Alt, rand: nat) returns (x: Cand)
    requires Sound(w.chans) && Fault1(w.chans, a, p) == None && Count1(w.chans, a, p) > 0
    ensures Taken(w, p, a, rand) == Some(x) && x in All(a) && ReadyWay(Pass1(w.chans, a, p), x)
    ensures Listed(All(a), x.c, x.side) > 0
  {
    CountsAgree(w.chans, a, p);
    var t, which := Pass1(w.chans, a, p), rand % Count1(w.chans, a, p);
    NthPicked(t, All(a), which);
    x := Nth(t, All(a), which).value;
    var k :| 0 <= k < |All(a)| && All(a)[k] == x && ReadyWay(t, x) && CountReady(t, All(a)[..k]) == which;
    ListedAt(All(a), k);
  }

  lemma {:induction false} ListedAt(cs: seq<Cand>, i: nat)
    requires i < |cs|
    ensures Listed(cs, cs[i].c, cs[i].side) > 0
    decreases |cs|
  {
    if i < |cs| - 1 { ListedAt(cs[..|cs| - 1], i); }
  }

  /** Whom p meets on way x: the first who waits there, p's own mark if only that is there, or only the buffer. */
  function Partner(w: World, p: Pid, a: Alt, x: Cand): Option<Pid>
    requires x.c < |w.chans|
  {
    var q := Line(w.chans[x.c], Opposite(x.side));
    if Held(q) then q[0] else if Listed(All(a), x.c, Opposite(x.side)) > 0 then Some(p) else None
  }

  /** Who stays on a queue once the partner has left. */
  function Stayed(q: Queue, p: Pid, r: Option<Pid>): seq<Pid> {
    if r.Some? && r.value != p then Without(Progs(q), r.value) else Progs(q)
  }

  /** How many of p's marks are left on a queue then: one fewer where p has met itself. */
  function Left(p: Pid, a: Alt, x: Cand, r: Option<Pid>, d: Cid, other: Side): int {
    Listed(All(a), d, other) - if r == Some(p) && d == x.c && other == Opposite(x.side) then 1 else 0
  }

  /** The world once pass 1 has marked and p knows its way. */
  function Chose(w: World, p: Pid, a: Alt, x: Cand): World {
    w.(chans := Pass1(w.chans, a, p), picks := w.picks[p := x])
  }

  ghost predicate Meets(w: World, p: Pid, a: Alt, x: Cand) {
    Good(w) && StateOf(w, p) == Running && Fault1(w.chans, a, p) == None && x.c < |w.chans| &&
    ReadyWay(Pass1(w.chans, a, p), x)
  }

  /** The partner's alt would break a queue on which p has no mark. */
  ghost predicate PartnerBreaks(w: World, p: Pid, a: Alt, x: Cand)
    requires x.c < |w.chans|
  {
    var r := Partner(w, p, a, x);
    r.Some? && StateOf(w, r.value).InAlt? &&
    exists d: Cid, other {:trigger Listed(All(StateOf(w, r.value).a), d, other)} ::
      d < |w.chans| && Listed(All(a), d, other) == 0 && Only(Line(w.chans[d], other), r) &&
      Listed(All(StateOf(w, r.value).a), d, other) >= if d == x.c && other == Opposite(x.side) then 3 else 2
  }

  /** The alt has two marks left on a queue on which nobody but the partner waits. */
  ghost predicate SelfBreaks(w: World, p: Pid, a: Alt, x: Cand)
    requires x.c < |w.chans|
  {
    var r := Partner(w, p, a, x);
    exists d: Cid, other {:trigger Left(p, a, x, r, d, other)} ::
      d < |w.chans| && Left(p, a, x, r, d, other) >= 2 && Only(Line(w.chans[d], other), r)
  }

  /** The marks seen as p's own alt: every prog stands where its state says. */
  lemma ChoseStands(w: World, p: Pid, a: Alt) returns (u: World)
    requires Sound(w.chans) && Standing(w) && StateOf(w, p) == Running && Fault1(w.chans, a, p) == None
    ensures u == w.(chans := Pass1(w.chans, a, p), progs := w.progs[p := InAlt(a)])
    ensures Sound(u.chans) && Standing(u)
  {
    u := w.(chans := Pass1(w.chans, a, p), progs := w.progs[p := InAlt(a)]);
    Pass1Sound(w.chans, a, p);
    forall c: Cid, side, r: Pid | c < |u.chans| ensures Times(Progs(Line(u.chans[c], side)), r) ==
        Due(StateOf(u, r), c, side) {
      ChoseTimes(w, p, a, c, side, r);
      assert StateOf(u, r) == if r == p then InAlt(a) else StateOf(w, r);
    }
  }

  lemma ChoseTimes(w: World, p: Pid, a: Alt, c: Cid, side: Side, r: Pid)
    requires Sound(w.chans) && Standing(w) && StateOf(w, p) == Running && Fault1(w.chans, a, p) == None
    requires c < |w.chans|
    ensures Times(Progs(Line(Pass1(w.chans, a, p)[c], side)), r) ==
            if r == p then Listed(All(a), c, side) else Due(StateOf(w, r), c, side)
  {
    assert Times(Progs(Line(w.chans[c], side)), r) == Due(StateOf(w, r), c, side);
    Pass1Line(w.chans, a, p, c, side);
    MadeListed(w.chans, a, p, c, side);
    TimesAgain(Progs(Line(w.chans[c], side)), p, Listed(All(a), c, side), r);
  }

  /** What pass 1 leaves on a queue, without an error. */
  lemma ChoseLine(w: World, p: Pid, a: Alt, d: Cid, other: Side)
    requires Sound(w.chans) && d < |w.chans| && Fault1(w.chans, a, p) == None
    ensures var h := Pass1(w.chans, a, p)[d];
      h.size == w.chans[d].size && h.cap == w.chans[d].cap && Well(Line(h, other)) && Well(Line(w.chans[d], other)) &&
      Progs(Line(h, other)) == Progs(Line(w.chans[d], other)) + Again(p, Listed(All(a), d, other))
  {
    Pass1Line(w.chans, a, p, d, other);
    MadeListed(w.chans, a, p, d, other);
    SoundLines(w.chans);
    SoundLines(Pass1(w.chans, a, p));
  }

  /** The head of the partner's queue, with the marks. */
  lemma MetFirst(w: World, p: Pid, a: Alt, x: Cand)
    requires Meets(w, p, a, x)
    ensures var r := Partner(w, p, a, x); var q := Line(Pass1(w.chans, a, p)[x.c], Opposite(x.side));
      (Held(q) <==> r.Some?) && (r.Some? ==> q[0] == r) &&
      (r == Some(p) ==> !Held(Line(w.chans[x.c], Opposite(x.side))) && Listed(All(a), x.c, Opposite(x.side)) > 0)
  {
    var opp := Opposite(x.side);
    var k := Listed(All(a), x.c, opp);
    ChoseLine(w, p, a, x.c, opp);
    RunningAbsent(w, p);
    HeldSome(Line(w.chans[x.c], opp));
    HeldSome(Line(Pass1(w.chans, a, p)[x.c], opp));
    AgainAll(p, k);
    assert p !in Progs(Line(w.chans[x.c], opp));
  }

  /** Waking a partner other than p, while p is marked: when it follows a nil pointer, and what it leaves. */
  lemma MeetsOther(w: World, p: Pid, a: Alt, x: Cand)
    requires Meets(w, p, a, x) && Partner(w, p, a, x).Some? && Partner(w, p, a, x) != Some(p)
    ensures var v := Comm(Chose(w, p, a, x), p, x.c, x.side);
      (v == None <==> PartnerBreaks(w, p, a, x)) && (v.Some? ==> Met(w, p, a, x, v.value))
  {
    var u := ChoseStands(w, p, a);
    MetFirst(w, p, a, x);
    WakeCrashes(u, x.c, Opposite(x.side));
    FatalMarked(w, p, a, x, u);
    OtherComm(w, p, a, x, u);
    if Wake(u, x.c, Opposite(x.side)).Some? {
      WakeLeaves(u, x.c, Opposite(x.side));
      var v := Comm(Chose(w, p, a, x), p, x.c, x.side).value;
      forall d: Cid, other {:trigger MetLine(w, p, a, x, v, d, other)} | d < |v.chans|
        ensures MetLine(w, p, a, x, v, d, other) {
        OtherLine(w, p, a, x, u, v, d, other);
      }
    }
  }

  /** p's state does not matter to its partner. */
  lemma OtherComm(w: World, p: Pid, a: Alt, x: Cand, u: World)
    requires Meets(w, p, a, x) && Partner(w, p, a, x).Some? && Partner(w, p, a, x) != Some(p)
    requires u == w.(chans := Pass1(w.chans, a, p), progs := w.progs[p := InAlt(a)])
    requires Held(Line(u.chans[x.c], Opposite(x.side))) &&
             Line(u.chans[x.c], Opposite(x.side))[0] == Partner(w, p, a, x)
    ensures var t, v := Wake(u, x.c, Opposite(x.side)), Comm(Chose(w, p, a, x), p, x.c, x.side);
      if t == None then v == None
      else v == Some(World(t.value.chans, w.progs[Partner(w, p, a, x).value := Running], ToldBy(w, p, a, x)))
  {
    var r := Partner(w, p, a, x).value;
    assert StateOf(u, r) == StateOf(w, r) == StateOf(Chose(w, p, a, x), r);
  }

  lemma OtherLine(w: World, p: Pid, a: Alt, x: Cand, u: World, v: World, d: Cid, other: Side)
    requires Meets(w, p, a, x) && Partner(w, p, a, x).Some? && Partner(w, p, a, x) != Some(p)
    requires u.chans == Pass1(w.chans, a, p) && d < |w.chans| && |v.chans| == |w.chans|
    requires Progs(Line(v.chans[d], other)) == Without(Progs(Line(u.chans[d], other)), Partner(w, p, a, x).value)
    requires v.chans[d].size == u.chans[d].size && v.chans[d].cap == u.chans[d].cap
    ensures MetLine(w, p, a, x, v, d, other)
  {
    var r := Partner(w, p, a, x).value;
    var z, k := Progs(Line(w.chans[d], other)), Listed(All(a), d, other);
    ChoseLine(w, p, a, d, other);
    RunningAbsent(w, p);
    assert p !in Progs(Line(w.chans[d], other));
    WithoutAgain(z, p, k, r);
    LineMet(w, p, a, x, v, d, other, Without(z, r), k);
  }

  lemma LineMet(w: World, p: Pid, a: Alt, x: Cand, v: World, d: Cid, other: Side, z: seq<Pid>, k: nat)
    requires x.c < |w.chans| && d < |w.chans| && |v.chans| == |w.chans|
    requires z == Stayed(Line(w.chans[d], other), p, Partner(w, p, a, x))
    requires Progs(Line(v.chans[d], other)) == z + Again(p, k) && k == Left(p, a, x, Partner(w, p, a, x), d, other)
    requires v.chans[d].cap == w.chans[d].cap && v.chans[d].size == SizeAfter(w, p, a, x, d)
    ensures MetLine(w, p, a, x, v, d, other)
  {
  }

  /** A queue after the meeting: who stayed, and p's marks. */
  ghost predicate MetLine(w: World, p: Pid, a: Alt, x: Cand, v: World, d: Cid, other: Side)
    requires x.c < |w.chans| && d < |w.chans| && |v.chans| == |w.chans|
  {
    var r := Partner(w, p, a, x);
    Left(p, a, x, r, d, other) >= 0 &&
    Progs(Line(v.chans[d], other)) ==
      Stayed(Line(w.chans[d], other), p, r) + Again(p, Left(p, a, x, r, d, other)) &&
    v.chans[d].cap == w.chans[d].cap && v.chans[d].size == SizeAfter(w, p, a, x, d)
  }

  function SizeAfter(w: World, p: Pid, a: Alt, x: Cand, d: Cid): int
    requires x.c < |w.chans| && d < |w.chans|
  {
    w.chans[d].size + if d != x.c || Partner(w, p, a, x).Some? then 0 else if x.side == Sends then 1 else -1
  }

  ghost predicate Met(w: World, p: Pid, a: Alt, x: Cand, v: World)
    requires x.c < |w.chans|
  {
    var r := Partner(w, p, a, x);
    |v.chans| == |w.chans| && Sound(v.chans) && v.progs == (if r.Some? then w.progs[r.value := Running] else w.progs) &&
    (forall d: Cid, other {:trigger MetLine(w, p, a, x, v, d, other)} :: d < |v.chans| ==>
      MetLine(w, p, a, x, v, d, other)) &&
    v.picks == ToldBy(w, p, a, x)
  }

  /** What p and its partner are told. */
  function ToldBy(w: World, p: Pid, a: Alt, x: Cand): map<Pid, Cand>
    requires x.c < |w.chans|
  {
    var r := Partner(w, p, a, x);
    var picks := w.picks[p := x];
    if r.Some? && r.value != p && StateOf(w, r.value).InAlt? then
      Tell(picks, r.value, Chosen(Cands(StateOf(w, r.value).a, Opposite(x.side)), x.c))
    else picks
  }

  lemma FatalMarked(w: World, p: Pid, a: Alt, x: Cand, u: World)
    requires Meets(w, p, a, x) && Partner(w, p, a, x).Some? && Partner(w, p, a, x) != Some(p)
    requires u == w.(chans := Pass1(w.chans, a, p), progs := w.progs[p := InAlt(a)])
    requires Held(Line(u.chans[x.c], Opposite(x.side))) &&
             Line(u.chans[x.c], Opposite(x.side))[0] == Partner(w, p, a, x)
    ensures WakeFatal(u, x.c, Opposite(x.side)) <==> PartnerBreaks(w, p, a, x)
  {
    var r := Partner(w, p, a, x).value;
    assert StateOf(u, r) == StateOf(w, r);
    forall d: Cid, other | d < |w.chans|
      ensures Only(Line(u.chans[d], other), Some(r)) <==>
              Listed(All(a), d, other) == 0 && Only(Line(w.chans[d], other), Some(r)) {
      ChoseLine(w, p, a, d, other);
      OnlyMarked(Progs(Line(w.chans[d], other)), Line(w.chans[d], other), Line(u.chans[d], other), p,
                 Listed(All(a), d, other), r);
    }
  }

  /** p meets its own mark: it is taken for a prog that waits to send, and popped. */
  lemma MeetsSelf(w: World, p: Pid, a: Alt, x: Cand)
    requires Meets(w, p, a, x) && Partner(w, p, a, x) == Some(p)
    ensures var v := Comm(Chose(w, p, a, x), p, x.c, x.side);
      v.Some? && Met(w, p, a, x, v.value) && !PartnerBreaks(w, p, a, x)
  {
    var v := SelfComm(w, p, a, x);
    MetFirst(w, p, a, x);
    Pass1Sound(w.chans, a, p);
    PoppedSound(Pass1(w.chans, a, p), x.c, Opposite(x.side));
    assert v.picks == ToldBy(w, p, a, x);
    forall d: Cid, other {:trigger MetLine(w, p, a, x, v, d, other)} | d < |v.chans|
      ensures MetLine(w, p, a, x, v, d, other) {
      SelfLine(w, p, a, x, v, d, other);
    }
  }

  lemma SelfComm(w: World, p: Pid, a: Alt, x: Cand) returns (v: World)
    requires Meets(w, p, a, x) && Partner(w, p, a, x) == Some(p)
    ensures v == World(Popped(Pass1(w.chans, a, p), x.c, Opposite(x.side)), w.progs[p := Running], w.picks[p := x])
    ensures Comm(Chose(w, p, a, x), p, x.c, x.side) == Some(v)
  {
    MetFirst(w, p, a, x);
    v := World(Popped(Pass1(w.chans, a, p), x.c, Opposite(x.side)), w.progs[p := Running], w.picks[p := x]);
    assert StateOf(Chose(w, p, a, x), p) == Running;
  }

  lemma SelfLine(w: World, p: Pid, a: Alt, x: Cand, v: World, d: Cid, other: Side)
    requires Meets(w, p, a, x) && Partner(w, p, a, x) == Some(p) && d < |w.chans|
    requires v.chans == Popped(Pass1(w.chans, a, p), x.c, Opposite(x.side))
    ensures MetLine(w, p, a, x, v, d, other)
  {
    PoppedSize(Pass1(w.chans, a, p), x.c, Opposite(x.side), d);
    ChoseLine(w, p, a, d, other);
    if d == x.c && other == Opposite(x.side) {
      SelfMetHere(w, p, a, x, v);
    } else {
      SelfThere(w, p, a, x, d, other);
      LineMet(w, p, a, x, v, d, other, Progs(Line(w.chans[d], other)), Listed(All(a), d, other));
    }
  }

  lemma SelfMetHere(w: World, p: Pid, a: Alt, x: Cand, v: World)
    requires Meets(w, p, a, x) && Partner(w, p, a, x) == Some(p)
    requires v.chans == Popped(Pass1(w.chans, a, p), x.c, Opposite(x.side))
    requires v.chans[x.c].cap == w.chans[x.c].cap && v.chans[x.c].size == SizeAfter(w, p, a, x, x.c)
    ensures MetLine(w, p, a, x, v, x.c, Opposite(x.side))
  {
    var opp := Opposite(x.side);
    SelfHere(w, p, a, x);
    LineMet(w, p, a, x, v, x.c, opp, Progs(Line(w.chans[x.c], opp)), Listed(All(a), x.c, opp) - 1);
  }

  lemma SelfHere(w: World, p: Pid, a: Alt, x: Cand)
    requires Meets(w, p, a, x) && Partner(w, p, a, x) == Some(p)
    ensures var opp := Opposite(x.side); var n := Listed(All(a), x.c, opp);
      n > 0 && Progs(Line(Popped(Pass1(w.chans, a, p), x.c, opp)[x.c], opp)) ==
               Progs(Line(w.chans[x.c], opp)) + Again(p, n - 1)
  {
    var s, opp := Pass1(w.chans, a, p), Opposite(x.side);
    ChoseLine(w, p, a, x.c, opp);
    MetFirst(w, p, a, x);
    Pass1Sound(w.chans, a, p);
    PoppedLine(s, x.c, opp, x.c, opp, p);
    SelfQueue(Line(w.chans[x.c], opp), Line(s[x.c], opp), Line(Popped(s, x.c, opp)[x.c], opp), p,
              Listed(All(a), x.c, opp));
  }

  lemma SelfThere(w: World, p: Pid, a: Alt, x: Cand, d: Cid, other: Side)
    requires Meets(w, p, a, x) && d < |w.chans| && !(d == x.c && other == Opposite(x.side))
    ensures Progs(Line(Popped(Pass1(w.chans, a, p), x.c, Opposite(x.side))[d], other)) ==
            Progs(Line(w.chans[d], other)) + Again(p, Listed(All(a), d, other))
  {
    ChoseLine(w, p, a, d, other);
    assert Line(Popped(Pass1(w.chans, a, p), x.c, Opposite(x.side))[d], other) == Line(Pass1(w.chans, a, p)[d], other);
  }

  lemma SelfQueue(q: Queue, m: Queue, o: Queue, p: Pid, n: nat)
    requires Well(q) && !Held(q) && n > 0 && Progs(m) == Progs(q) + Again(p, n)
    requires Progs(m) != [] && Progs(o) == Progs(m)[1..]
    ensures Progs(o) == Progs(q) + Again(p, n - 1)
  {
    HeldSome(q);
    TailOf(Progs(q), p, n);
  }

  lemma PoppedSize(s: seq<Chan>, c: Cid, side: Side, d: Cid)
    requires c < |s| && d < |s|
    ensures Popped(s, c, side)[d].size == s[d].size && Popped(s, c, side)[d].cap == s[d].cap
  {
  }

  lemma TailOf(z: seq<Pid>, p: Pid, k: nat)
    requires z == [] && k > 0
    ensures z + Again(p, k) != [] && (z + Again(p, k))[1..] == z + Again(p, k - 1)
  {
    TailAgain(p, k);
    assert z + Again(p, k) == Again(p, k) && z + Again(p, k - 1) == Again(p, k - 1);
  }

  lemma {:induction false} TailAgain(p: Pid, k: nat)
    requires k > 0
    ensures Again(p, k) != [] && Again(p, k)[1..] == Again(p, k - 1)
  {
    if k > 1 {
      TailAgain(p, k - 1);
      assert (Again(p, k - 1) + [p])[1..] == Again(p, k - 1)[1..] + [p];
    }
  }

  /** p meets nobody: there is room, or something, in the buffer. */
  lemma MeetsNobody(w: World, p: Pid, a: Alt, x: Cand)
    requires Meets(w, p, a, x) && Partner(w, p, a, x) == None
    ensures var v := Comm(Chose(w, p, a, x), p, x.c, x.side);
      v.Some? && Met(w, p, a, x, v.value) && !PartnerBreaks(w, p, a, x)
  {
    var v := NobodyComm(w, p, a, x);
    Pass1Sound(w.chans, a, p);
    forall d: Cid, other {:trigger MetLine(w, p, a, x, v, d, other)} | d < |v.chans|
      ensures MetLine(w, p, a, x, v, d, other) {
      ChoseLine(w, p, a, d, other);
      assert Line(v.chans[d], other) == Line(Pass1(w.chans, a, p)[d], other);
      LineMet(w, p, a, x, v, d, other, Progs(Line(w.chans[d], other)), Listed(All(a), d, other));
    }
  }

  lemma NobodyComm(w: World, p: Pid, a: Alt, x: Cand) returns (v: World)
    requires Meets(w, p, a, x) && Partner(w, p, a, x) == None
    ensures Comm(Chose(w, p, a, x), p, x.c, x.side) == Some(v) && v.progs == w.progs && v.picks == w.picks[p := x]
    ensures var s := Pass1(w.chans, a, p); var n := s[x.c].size + if x.side == Sends then 1 else -1;
      n >= 0 && v.chans == s[x.c := s[x.c].(size := n)]
  {
    MetFirst(w, p, a, x);
    v := Comm(Chose(w, p, a, x), p, x.c, x.side).value;
  }

  lemma MeetsAny(w: World, p: Pid, a: Alt, x: Cand)
    requires Meets(w, p, a, x)
    ensures var v := Comm(Chose(w, p, a, x), p, x.c, x.side);
      (v == None <==> PartnerBreaks(w, p, a, x)) && (v.Some? ==> Met(w, p, a, x, v.value))
  {
    if Partner(w, p, a, x) == None {
      MeetsNobody(w, p, a, x);
    } else if Partner(w, p, a, x) == Some(p) {
      MeetsSelf(w, p, a, x);
    } else {
      MeetsOther(w, p, a, x);
    }
  }

  /** p is on none of the queues but by its marks. */
  lemma StayedWithout(w: World, p: Pid, r: Option<Pid>, d: Cid, other: Side)
    requires Standing(w) && StateOf(w, p) == Running && d < |w.chans|
    ensures p !in Stayed(Line(w.chans[d], other), p, r)
    ensures Stayed(Line(w.chans[d], other), p, r) == [] <==> Only(Line(w.chans[d], other), r)
  {
    var s := Progs(Line(w.chans[d], other));
    RunningAbsent(w, p);
    assert p !in Progs(Line(w.chans[d], other));
    if r.Some? && r.value != p {
      TimesWithout(s, r.value, p);
      TimesNone(s, p);
      TimesNone(Without(s, r.value), p);
      WithoutNone(s, r.value);
    } else if s != [] {
      assert s[0] in s && r != Some(s[0]);
    }
  }

  /** Taking p's marks off after the meeting. */
  lemma MetOff(w: World, p: Pid, a: Alt, x: Cand, v: World)
    requires Meets(w, p, a, x) && Met(w, p, a, x, v)
    ensures UnmarkAll(v.chans, All(a), p) == None <==> SelfBreaks(w, p, a, x)
  {
    var r := Partner(w, p, a, x);
    Crashes(v.chans, All(a), p);
    forall d: Cid, other {:trigger Listed(All(a), d, other)} | d < |w.chans|
      ensures Listed(All(a), d, other) >= 2 && AllHis(Line(v.chans[d], other), p) <==>
              Left(p, a, x, r, d, other) >= 2 && Only(Line(w.chans[d], other), r) {
      MetAllHis(w, p, a, x, v, d, other);
    }
    if UnmarkAll(v.chans, All(a), p) == None {
      var d: Cid, other :| d < |w.chans| && Listed(All(a), d, other) >= 2 && AllHis(Line(v.chans[d], other), p);
      assert Left(p, a, x, r, d, other) >= 2;
    }
    if SelfBreaks(w, p, a, x) {
      var d: Cid, other :| d < |w.chans| && Left(p, a, x, r, d, other) >= 2 && Only(Line(w.chans[d], other), r);
      assert Listed(All(a), d, other) >= 2;
    }
  }

  lemma MetAllHis(w: World, p: Pid, a: Alt, x: Cand, v: World, d: Cid, other: Side)
    requires Meets(w, p, a, x) && Met(w, p, a, x, v) && d < |w.chans|
    ensures var r := Partner(w, p, a, x);
      Listed(All(a), d, other) >= 2 && AllHis(Line(v.chans[d], other), p) <==>
      Left(p, a, x, r, d, other) >= 2 && Only(Line(w.chans[d], other), r)
  {
    var r := Partner(w, p, a, x);
    StayedWithout(w, p, r, d, other);
    SoundLines(v.chans);
    assert MetLine(w, p, a, x, v, d, other);
    HisAlone(Stayed(Line(w.chans[d], other), p, r), Line(v.chans[d], other), p, Left(p, a, x, r, d, other));
  }

  /** When the marks come off, every queue is what the partner has left. */
  lemma MetBack(w: World, p: Pid, a: Alt, x: Cand, v: World, d: Cid, other: Side)
    requires Meets(w, p, a, x) && Met(w, p, a, x, v) && d < |w.chans| && UnmarkAll(v.chans, All(a), p).Some?
    ensures var h := UnmarkAll(v.chans, All(a), p).value[d];
      Well(Line(h, other)) && Progs(Line(h, other)) == Stayed(Line(w.chans[d], other), p, Partner(w, p, a, x)) &&
      h.size == SizeAfter(w, p, a, x, d) && h.cap == w.chans[d].cap
  {
    var r := Partner(w, p, a, x);
    StayedWithout(w, p, r, d, other);
    assert MetLine(w, p, a, x, v, d, other);
    OffAgain(v.chans, a, p, d, other, Stayed(Line(w.chans[d], other), p, r), Left(p, a, x, r, d, other));
  }

  /** An alt with a ready way follows a nil pointer exactly when it, or its partner's alt, breaks a queue. */
  lemma TakenCrashes(w: World, p: Pid, a: Alt, block: bool, rand: nat) returns (x: Cand, v: Option<World>)
    requires Good(w) && StateOf(w, p) == Running
    requires Fault1(w.chans, a, p) == None && Count1(w.chans, a, p) > 0
    ensures Taken(w, p, a, rand) == Some(x) && x in All(a) && Meets(w, p, a, x)
    ensures v == Comm(Chose(w, p, a, x), p, x.c, x.side) && (v.Some? ==> Met(w, p, a, x, v.value))
    ensures v == None <==> PartnerBreaks(w, p, a, x)
    ensures Xecalt(w, p, a, block, rand) ==
            if v == None then (Crashed, None) else (Took(x), Unpark(v.value, v.value.chans, a, p))
    ensures Xecalt(w, p, a, block, rand).1 == None <==> PartnerBreaks(w, p, a, x) || SelfBreaks(w, p, a, x)
  {
    x := WayTaken(w, p, a, rand);
    MeetsAny(w, p, a, x);
    v := Comm(Chose(w, p, a, x), p, x.c, x.side);
    if v.Some? { MetOff(w, p, a, x, v.value); }
  }

  /** When an alt would follow a nil pointer: with an error or nothing ready, where it has marked a quiet queue
      twice; never when it parks; with a ready way, where it or its partner's alt breaks a queue. */
  ghost predicate Fatal(w: World, p: Pid, a: Alt, block: bool, rand: nat) {
    if Fault1(w.chans, a, p).Some? then TwiceQuiet(w.chans, a, p)
    else if Count1(w.chans, a, p) == 0 then !block && TwiceQuiet(w.chans, a, p)
    else
      match Taken(w, p, a, rand)
      case None => false
      case Some(x) => x.c < |w.chans| && (PartnerBreaks(w, p, a, x) || SelfBreaks(w, p, a, x))
  }

  /** For every alt, in every state of every run. */
  lemma XecaltCrashes(w: World, p: Pid, a: Alt, block: bool, rand: nat)
    requires Good(w) && StateOf(w, p) == Running
    ensures Xecalt(w, p, a, block, rand).1 == None <==> Fatal(w, p, a, block, rand)
    ensures Xecalt(w, p, a, block, rand).0 != Lost
  {
    RunningAbsent(w, p);
    Restored(w.chans, a, p);
    if Fault1(w.chans, a, p) == None && Count1(w.chans, a, p) > 0 {
      var x, v := TakenCrashes(w, p, a, block, rand);
    }
  }

  /** An alt that has taken a way and followed no nil pointer keeps the invariant: its partner has left every
      queue, and p has left none of its marks. */
  lemma TakenKeeps(w: World, p: Pid, a: Alt, block: bool, rand: nat)
    requires Good(w) && StateOf(w, p) == Running
    requires Fault1(w.chans, a, p) == None && Count1(w.chans, a, p) > 0 && Xecalt(w, p, a, block, rand).1.Some?
    ensures Good(Xecalt(w, p, a, block, rand).1.value)
  {
    var x, v := TakenCrashes(w, p, a, block, rand);
    var y := Xecalt(w, p, a, block, rand).1.value;
    var r := Partner(w, p, a, x);
    if r == None {
      BufferComm(w, p, a, x, v.value, y);
      var w0 := w.(picks := w.picks[p := x]);
      Retold(w, w0);
      CommKeeps(w0, p, x.c, x.side);
    } else {
      forall d: Cid, other {:trigger Line(y.chans[d], other)} | d < |y.chans|
        ensures Well(Line(y.chans[d], other)) &&
                Progs(Line(y.chans[d], other)) == Without(Progs(Line(w.chans[d], other)), r.value) &&
                y.chans[d].size == w.chans[d].size && y.chans[d].cap == w.chans[d].cap {
        MetBack(w, p, a, x, v.value, d, other);
        RunningAbsent(w, p);
        assert p !in Progs(Line(w.chans[d], other));
        WithoutSame(Progs(Line(w.chans[d], other)), p);
      }
      SoundLines(y.chans);
      LeavesGood(w, y, r.value);
    }
  }

  lemma BufferComm(w: World, p: Pid, a: Alt, x: Cand, v: World, y: World)
    requires Meets(w, p, a, x) && Met(w, p, a, x, v) && Unpark(v, v.chans, a, p) == Some(y)
    requires Partner(w, p, a, x) == None
    ensures Comm(w.(picks := w.picks[p := x]), p, x.c, x.side) == Some(y)
  {
    var z := PlainComm(w, p, a, x);
    forall d | 0 <= d < |y.chans| ensures y.chans[d] == z.chans[d] {
      PlainLine(w, p, a, x, v, y, z, d, Sends);
      PlainLine(w, p, a, x, v, y, z, d, Receives);
    }
    assert y.chans == z.chans;
    assert y.progs == v.progs == z.progs;
    assert y.picks == v.picks == z.picks;
  }

  lemma PlainComm(w: World, p: Pid, a: Alt, x: Cand) returns (z: World)
    requires Meets(w, p, a, x) && Partner(w, p, a, x) == None
    ensures Comm(w.(picks := w.picks[p := x]), p, x.c, x.side) == Some(z)
    ensures z.progs == w.progs && z.picks == w.picks[p := x] && |z.chans| == |w.chans|
    ensures SizeAfter(w, p, a, x, x.c) >= 0
    ensures z.chans == w.chans[x.c := w.chans[x.c].(size := SizeAfter(w, p, a, x, x.c))]
  {
    MetFirst(w, p, a, x);
    ChoseLine(w, p, a, x.c, x.side);
    z := Comm(w.(picks := w.picks[p := x]), p, x.c, x.side).value;
  }

  lemma PlainLine(w: World, p: Pid, a: Alt, x: Cand, v: World, y: World, z: World, d: Cid, other: Side)
    requires Meets(w, p, a, x) && Met(w, p, a, x, v) && Unpark(v, v.chans, a, p) == Some(y) && d < |w.chans|
    requires Partner(w, p, a, x) == None && SizeAfter(w, p, a, x, x.c) >= 0
    requires z.chans == w.chans[x.c := w.chans[x.c].(size := SizeAfter(w, p, a, x, x.c))]
    ensures Line(y.chans[d], other) == Line(z.chans[d], other)
    ensures y.chans[d].size == z.chans[d].size && y.chans[d].cap == z.chans[d].cap
  {
    SoundLines(w.chans);
    assert Line(z.chans[d], other) == Line(w.chans[d], other);
    SameLine(w, p, a, x, v, y, z, d, other);
  }

  lemma SameLine(w: World, p: Pid, a: Alt, x: Cand, v: World, y: World, z: World, d: Cid, other: Side)
    requires Meets(w, p, a, x) && Met(w, p, a, x, v) && Unpark(v, v.chans, a, p) == Some(y) && d < |w.chans|
    requires |z.chans| == |w.chans| && Well(Line(z.chans[d], other))
    requires Progs(Line(z.chans[d], other)) == Stayed(Line(w.chans[d], other), p, Partner(w, p, a, x))
    requires z.chans[d].size == SizeAfter(w, p, a, x, d) && z.chans[d].cap == w.chans[d].cap
    ensures Line(y.chans[d], other) == Line(z.chans[d], other)
    ensures y.chans[d].size == z.chans[d].size && y.chans[d].cap == z.chans[d].cap
  {
    MetBack(w, p, a, x, v, d, other);
    WellUnique(Line(y.chans[d], other), Line(z.chans[d], other));
  }

  /** No channel on both sides. */
  ghost predicate Apart(a: Alt) {
    forall c: Cid {:trigger Listed(All(a), c, Sends)} {:trigger Listed(All(a), c, Receives)} ::
      Listed(All(a), c, Sends) == 0 || Listed(All(a), c, Receives) == 0
  }

  /** An alt that finds a way ready, and sends and receives on different channels, is the plain send or receive
      on that way, which was ready before: same channels, same progs, and p is told the way's case. */
  lemma AltIsComm(w: World, p: Pid, a: Alt, block: bool, rand: nat) returns (x: Cand)
    requires Good(w) && StateOf(w, p) == Running && Apart(a)
    requires Fault1(w.chans, a, p) == None && Count1(w.chans, a, p) > 0
    ensures Taken(w, p, a, rand) == Some(x) && x in All(a) && ReadyWay(w.chans, x)
    ensures var z := Comm(w.(picks := w.picks[p := x]), p, x.c, x.side); var y := Xecalt(w, p, a, block, rand);
      !Fatal(w, p, a, block, rand) && z.Some? ==> y == (Took(x), z)
  {
    var v;
    x, v := TakenCrashes(w, p, a, block, rand);
    XecaltCrashes(w, p, a, block, rand);
    var y, z := Xecalt(w, p, a, block, rand), Comm(w.(picks := w.picks[p := x]), p, x.c, x.side);
    ApartWay(w, p, a, x);
    if y.1.Some? && z.Some? {
      if Partner(w, p, a, x) == None {
        BufferComm(w, p, a, x, v.value, y.1.value);
      } else {
        PartnerComm(w, p, a, x, v.value, y.1.value);
      }
    }
  }

  lemma ApartWay(w: World, p: Pid, a: Alt, x: Cand)
    requires Meets(w, p, a, x) && Apart(a) && x in All(a)
    ensures ReadyWay(w.chans, x) && Partner(w, p, a, x) != Some(p)
  {
    var k :| 0 <= k < |All(a)| && All(a)[k] == x;
    ListedAt(All(a), k);
    assert Listed(All(a), x.c, Opposite(x.side)) == 0 by { assert Listed(All(a), x.c, x.side) > 0; }
    MetFirst(w, p, a, x);
    ChoseLine(w, p, a, x.c, x.side);
    RunningAbsent(w, p);
    HeldSome(Line(w.chans[x.c], Opposite(x.side)));
    assert p !in Progs(Line(w.chans[x.c], Opposite(x.side)));
  }

  lemma PartnerComm(w: World, p: Pid, a: Alt, x: Cand, v: World, y: World)
    requires Meets(w, p, a, x) && Met(w, p, a, x, v) && Unpark(v, v.chans, a, p) == Some(y)
    requires Partner(w, p, a, x).Some? && Partner(w, p, a, x) != Some(p)
    requires Comm(w.(picks := w.picks[p := x]), p, x.c, x.side).Some?
    ensures Comm(w.(picks := w.picks[p := x]), p, x.c, x.side) == Some(y)
  {
    var w0 := w.(picks := w.picks[p := x]);
    var z := Comm(w0, p, x.c, x.side).value;
    Retold(w, w0);
    WakeLeaves(w0, x.c, Opposite(x.side));
    SoundLines(z.chans);
    forall d | 0 <= d < |y.chans| ensures y.chans[d] == z.chans[d] {
      SameLine(w, p, a, x, v, y, z, d, Sends);
      SameLine(w, p, a, x, v, y, z, d, Receives);
    }
    assert y.chans == z.chans;
    assert y.progs == v.progs == z.progs;
    assert y.picks == v.picks == z.picks;
  }

  lemma Retold(w: World, v: World)
    requires Good(w) && v == w.(picks := v.picks)
    ensures Good(v)
  {
    forall c: Cid, side, r: Pid | c < |w.chans| ensures Times(Progs(Line(v.chans[c], side)), r) ==
        Due(StateOf(v, r), c, side) {
      assert Times(Progs(Line(w.chans[c], side)), r) == Due(StateOf(w, r), c, side);
    }
  }

  // ----- whole runs

  /** Parking keeps the invariant: nothing was ready, so nobody is missed. */
  lemma ParkKeeps(w: World, p: Pid, a: Alt, rand: nat)
    requires Good(w) && StateOf(w, p) == Running
    requires Fault1(w.chans, a, p) == None && Count1(w.chans, a, p) == 0
    ensures Xecalt(w, p, a, true, rand).0 == Parked && Good(Xecalt(w, p, a, true, rand).1.value)
  {
    var v := ChoseStands(w, p, a);
    assert v == Xecalt(w, p, a, true, rand).1.value;
    forall c | 0 <= c < |v.chans|
      ensures (Held(v.chans[c].recv) ==> !Held(v.chans[c].send) && !CanGet(v.chans[c])) &&
              (Held(v.chans[c].send) ==> !CanPut(v.chans[c])) {
      NotMissed(w, p, a, c);
    }
  }

  lemma {:induction false} NoneReady(s: seq<Chan>, cs: seq<Cand>, c: Cid, side: Side)
    requires CountReady(s, cs) == 0 && c < |s| && Listed(cs, c, side) > 0
    ensures !Ready(s[c], side)
  {
    if Listed(cs[..|cs| - 1], c, side) > 0 { NoneReady(s, cs[..|cs| - 1], c, side); }
  }

  /** An alt with nothing ready has marked no channel on which someone could be met. */
  lemma QuietSide(w: World, p: Pid, a: Alt, c: Cid, side: Side)
    requires Sound(w.chans) && c < |w.chans| && Fault1(w.chans, a, p) == None && Count1(w.chans, a, p) == 0
    requires Listed(All(a), c, side) > 0
    ensures !Ready(w.chans[c], side) && (side == Sends ==> Listed(All(a), c, Receives) == 0)
  {
    var rs, ss := Cands(a, Receives), Cands(a, Sends);
    var t := MarkAll(w.chans, rs, p);
    ListedOn(a, c, Sends);
    ListedOn(a, c, Receives);
    MarkAllSound(w.chans, rs, p);
    FaultFree(t, a.sends, p, RecvFault(a.recvs));
    CountsWhileMarking(w.chans, rs, p, Receives);
    CountsWhileMarking(t, ss, p, Sends);
    if side == Receives {
      NoneReady(w.chans, rs, c, Receives);
    } else {
      NoneReady(t, ss, c, Sends);
      Marked(w.chans, rs, p, c, Receives);
      MarkedOnly(w.chans, rs, p, c, Receives);
      MarksListed(w.chans, rs, p, c, Receives);
      AgainAll(p, Marks(w.chans, rs, p, c, Receives));
      SoundLines(w.chans);
      SoundLines(t);
      HeldSome(Line(w.chans[c], Receives));
      HeldSome(Line(t[c], Receives));
    }
  }

  lemma NotMissed(w: World, p: Pid, a: Alt, c: Cid)
    requires Good(w) && StateOf(w, p) == Running && c < |w.chans|
    requires Fault1(w.chans, a, p) == None && Count1(w.chans, a, p) == 0
    ensures var h := Pass1(w.chans, a, p)[c];
      (Held(h.recv) ==> !Held(h.send) && !CanGet(h)) && (Held(h.send) ==> !CanPut(h))
  {
    ChoseHeld(w, p, a, c, Sends);
    ChoseHeld(w, p, a, c, Receives);
    assert w.chans[c] == w.chans[c];
    if Listed(All(a), c, Sends) > 0 { QuietSide(w, p, a, c, Sends); }
    if Listed(All(a), c, Receives) > 0 { QuietSide(w, p, a, c, Receives); }
  }

  lemma ChoseHeld(w: World, p: Pid, a: Alt, c: Cid, side: Side)
    requires Sound(w.chans) && c < |w.chans| && Fault1(w.chans, a, p) == None
    ensures var h := Pass1(w.chans, a, p)[c];
      h.size == w.chans[c].size && h.cap == w.chans[c].cap &&
      (Held(Line(h, side)) <==> Held(Line(w.chans[c], side)) || Listed(All(a), c, side) > 0)
  {
    ChoseLine(w, p, a, c, side);
    HeldSome(Line(w.chans[c], side));
    HeldSome(Line(Pass1(w.chans, a, p)[c], side));
    AgainAll(p, Listed(All(a), c, side));
  }

  datatype Op = Talk(p: Pid, c: Cid, side: Side) | TryAlt(p: Pid, a: Alt, block: bool, rand: nat)

  /** The prog runs, and its channel exists. */
  ghost predicate Enabled(w: World, o: Op) { StateOf(w, o.p) == Running && (o.Talk? ==> o.c < |w.chans|) }

  function Step(w: World, o: Op): Option<World>
    requires o.Talk? ==> o.c < |w.chans|
  {
    match o
    case Talk(p, c, side) => Comm(w, p, c, side)
    case TryAlt(p, a, block, rand) => Xecalt(w, p, a, block, rand).1
  }

  /** What makes a step follow a nil pointer. */
  ghost predicate StepFatal(w: World, o: Op)
    requires o.Talk? ==> o.c < |w.chans|
  {
    match o
    case Talk(p, c, side) => Held(Line(w.chans[c], Opposite(side))) && WakeFatal(w, c, Opposite(side))
    case TryAlt(p, a, block, rand) => Fatal(w, p, a, block, rand)
  }

  /** Every step either follows a nil pointer, exactly when that condition says, or keeps the invariant. */
  lemma StepKeeps(w: World, o: Op)
    requires Good(w) && Enabled(w, o)
    ensures Step(w, o) == None <==> StepFatal(w, o)
    ensures Step(w, o).Some? ==> Good(Step(w, o).value)
  {
    match o
    case Talk(p, c, side) => CommKeeps(w, p, c, side);
    case TryAlt(p, a, block, rand) =>
      XecaltCrashes(w, p, a, block, rand);
      RunningAbsent(w, p);
      Restored(w.chans, a, p);
      if Fault1(w.chans, a, p) == None {
        if Count1(w.chans, a, p) > 0 {
          if Xecalt(w, p, a, block, rand).1.Some? { TakenKeeps(w, p, a, block, rand); }
        } else if block {
          ParkKeeps(w, p, a, rand);
        }
      }
  }

  ghost predicate IsRun(ws: seq<World>, os: seq<Op>) {
    |ws| == |os| + 1 &&
    forall i {:trigger os[i]} :: 0 <= i < |os| ==> Enabled(ws[i], os[i]) && Step(ws[i], os[i]) == Some(ws[i + 1])
  }

  /** In every state of every run each prog stands on exactly the queues its state says, and no partner is missed. */
  lemma {:induction false} RunsKeep(ws: seq<World>, os: seq<Op>, i: nat)
    requires IsRun(ws, os) && Good(ws[0]) && i < |ws|
    ensures Good(ws[i])
  {
    if i > 0 {
      RunsKeep(ws, os, i - 1);
      StepKeeps(ws[i - 1], os[i - 1]);
    }
  }

  /** Any number of unused channels and running progs start a run. */
  lemma Fresh(caps: seq<Option<nat>>)
    ensures Good(World(seq(|caps|, i requires 0 <= i < |caps| => Chan(EMPTY, EMPTY, 0, caps[i])), map[], map[]))
  {
    assert Progs(EMPTY) == [] by { assert EMPTY[..0] == []; }
  }

  // ----- while no alt lists a channel twice on one side

  ghost predicate Once(a: Alt) {
    forall c: Cid, side {:trigger Listed(All(a), c, side)} :: Listed(All(a), c, side) <= 1
  }

  ghost predicate ParkedOnce(w: World) {
    forall r {:trigger w.progs[r]} :: r in w.progs && w.progs[r].InAlt? ==> Once(w.progs[r].a)
  }

  /** No step follows a nil pointer. */
  lemma OnceNever(w: World, o: Op)
    requires Good(w) && ParkedOnce(w) && Enabled(w, o) && (o.TryAlt? ==> Once(o.a))
    ensures Step(w, o).Some? && Good(Step(w, o).value) && ParkedOnce(Step(w, o).value)
  {
    StepKeeps(w, o);
    match o
    case Talk(p, c, side) => OnceComm(w, p, c, side);
    case TryAlt(p, a, block, rand) =>
      OnceFatal(w, p, a, block, rand);
      OnceAlt(w, p, a, block, rand);
  }

  lemma OnceComm(w: World, p: Pid, c: Cid, side: Side)
    requires ParkedOnce(w) && c < |w.chans|
    ensures Held(Line(w.chans[c], Opposite(side))) ==> !WakeFatal(w, c, Opposite(side))
    ensures Comm(w, p, c, side).Some? ==> ParkedOnce(Comm(w, p, c, side).value)
  {
    if Held(Line(w.chans[c], Opposite(side))) { OnceState(w, Line(w.chans[c], Opposite(side))[0].value); }
    if Comm(w, p, c, side).Some? { OnceMore(w, Comm(w, p, c, side).value); }
  }

  lemma OnceState(w: World, r: Pid)
    requires ParkedOnce(w)
    ensures StateOf(w, r).InAlt? ==> Once(StateOf(w, r).a)
  {
    if r in w.progs { assert w.progs[r] == StateOf(w, r); }
  }

  lemma OnceMore(w: World, v: World)
    requires ParkedOnce(w)
    requires forall r {:trigger v.progs[r]} :: r in v.progs && v.progs[r].InAlt? ==>
               r in w.progs && v.progs[r] == w.progs[r]
    ensures ParkedOnce(v)
  {
  }

  lemma OnceFatal(w: World, p: Pid, a: Alt, block: bool, rand: nat)
    requires Good(w) && ParkedOnce(w) && StateOf(w, p) == Running && Once(a)
    ensures !Fatal(w, p, a, block, rand)
  {
    if Fault1(w.chans, a, p) == None && Count1(w.chans, a, p) > 0 {
      var x, v := TakenCrashes(w, p, a, block, rand);
      OnceBreaks(w, p, a, x);
    } else {
      OnceQuiet(w.chans, a, p);
    }
  }

  lemma OnceQuiet(s: seq<Chan>, a: Alt, p: Pid)
    requires Sound(s) && Once(a)
    ensures !TwiceQuiet(s, a, p)
  {
    forall c: Cid, side {:trigger Made(s, a, p, c, side)} | c < |s| ensures Made(s, a, p, c, side) <= 1 {
      MadeListed(s, a, p, c, side);
      assert Listed(All(a), c, side) <= 1;
    }
  }

  lemma OnceAlt(w: World, p: Pid, a: Alt, block: bool, rand: nat)
    requires Good(w) && ParkedOnce(w) && StateOf(w, p) == Running && Once(a)
    requires Xecalt(w, p, a, block, rand).1.Some?
    ensures ParkedOnce(Xecalt(w, p, a, block, rand).1.value)
  {
    var y := Xecalt(w, p, a, block, rand).1.value;
    if Fault1(w.chans, a, p) == None && Count1(w.chans, a, p) > 0 {
      var x, v := TakenCrashes(w, p, a, block, rand);
      assert y.progs == v.value.progs;
      OnceMore(w, y);
    } else if Fault1(w.chans, a, p) == None && block {
      assert y.progs == w.progs[p := InAlt(a)];
    } else {
      assert y.progs == w.progs;
      OnceMore(w, y);
    }
  }

  lemma OnceBreaks(w: World, p: Pid, a: Alt, x: Cand)
    requires ParkedOnce(w) && Once(a) && x.c < |w.chans|
    ensures !PartnerBreaks(w, p, a, x) && !SelfBreaks(w, p, a, x)
  {
    var r := Partner(w, p, a, x);
    forall d: Cid, other {:trigger Left(p, a, x, r, d, other)} | d < |w.chans| ensures Left(p, a, x, r, d, other) <= 1 {
      assert Listed(All(a), d, other) <= 1;
    }
  }

  // ----- alts that send and receive on one channel

  /** In a reachable state the count of a fault-free alt is right exactly when it does not send and receive on
      one channel: there, another receiver waits, and the alt's own mark makes its receive look ready. */
  lemma EchoIffBothSides(w: World, a: Alt, p: Pid)
    requires Good(w) && StateOf(w, p) == Running && Fault1(w.chans, a, p) == None
    ensures Count1(w.chans, a, p) == CountReady(Pass1(w.chans, a, p), All(a)) <==>
      forall i {:trigger Cands(a, Receives)[i]} :: 0 <= i < |Cands(a, Receives)| ==>
        Cands(a, Receives)[i].c < |w.chans| ==> Listed(Cands(a, Sends), Cands(a, Receives)[i].c, Sends) == 0
  {
    CountsAgree(w.chans, a, p);
    var rs := Cands(a, Receives);
    forall i | 0 <= i < |rs| && rs[i].c < |w.chans| && Listed(Cands(a, Sends), rs[i].c, Sends) > 0
      ensures !Ready(w.chans[rs[i].c], Receives) {
      OthersWait(w, a, p, i);
    }
  }

  lemma OthersWait(w: World, a: Alt, p: Pid, i: nat)
    requires Good(w) && StateOf(w, p) == Running && Fault1(w.chans, a, p) == None
    requires i < |Cands(a, Receives)| && Cands(a, Receives)[i].c < |w.chans| &&
             Listed(Cands(a, Sends), Cands(a, Receives)[i].c, Sends) > 0
    ensures Held(w.chans[Cands(a, Receives)[i].c].recv) && !Ready(w.chans[Cands(a, Receives)[i].c], Receives)
  {
    var rs := Cands(a, Receives);
    var c := rs[i].c;
    var t := MarkAll(w.chans, rs, p);
    var q := w.chans[c].recv;
    ListedOn(a, c, Receives);
    ListedOn(a, c, Sends);
    ListedAt(rs, i);
    MarksListed(w.chans, rs, p, c, Receives);
    Marked(w.chans, rs, p, c, Receives);
    MarkAllSound(w.chans, rs, p);
    FaultFree(t, a.sends, p, RecvFault(a.recvs));
    SomeListed(Cands(a, Sends), c, Sends);
    assert !Own(t[c], p);
    HeldSome(q);
    HeldSome(t[c].recv);
    AgainAll(p, Marks(w.chans, rs, p, c, Receives));
    assert Line(w.chans[c], Receives) == q && Line(t[c], Receives) == t[c].recv;
    assert w.chans[c] == w.chans[c];
  }

  lemma {:induction false} SomeListed(cs: seq<Cand>, c: Cid, side: Side)
    requires Listed(cs, c, side) > 0
    ensures exists i :: 0 <= i < |cs| && cs[i].c == c && cs[i].side == side
  {
    if Listed(cs[..|cs| - 1], c, side) > 0 {
      SomeListed(cs[..|cs| - 1], c, side);
      var i :| 0 <= i < |cs| - 1 && cs[..|cs| - 1][i].c == c && cs[..|cs| - 1][i].side == side;
      assert cs[i].c == c && cs[i].side == side;
    } else {
      assert cs[|cs| - 1].c == c && cs[|cs| - 1].side == side;
    }
  }

  // Prog 7 waits to receive on channel 0 and prog 9 to send on channel 1, while prog 1 would send on 0 or
  // receive on either.

  const ECHO_CHANS := [Chan(EMPTY, [Some(7)], 0, None), Chan([Some(9)], EMPTY, 0, None)]
  const ECHO_ALT := Alt([Some(0)], [One(Some(0)), One(Some(1))])
  const ECHO_0 := Cand(Sends, 0, None, 0)
  const ECHO_1 := Cand(Receives, 1, None, 0)
  const ECHO_2 := Cand(Receives, 2, None, 1)

  /** They have got there by a receive and a send. */
  lemma EchoGood()
    ensures Good(World(ECHO_CHANS, map[7 := OnRecv(0), 9 := OnSend(1)], map[]))
  {
    var w := World(ECHO_CHANS, map[7 := OnRecv(0), 9 := OnSend(1)], map[]);
    OneOn(7);
    OneOn(9);
    assert Progs(EMPTY) == [] by { assert EMPTY[..0] == []; }
    forall c: Cid, side, r: Pid {:trigger Times(Progs(Line(w.chans[c], side)), r)} | c < |w.chans|
      ensures Times(Progs(Line(w.chans[c], side)), r) == Due(StateOf(w, r), c, side) {
      assert c == 0 || c == 1;
    }
  }

  lemma OneOn(p: Pid)
    ensures Well([Some(p)]) && Progs([Some(p)]) == [p]
    ensures forall r: Pid {:trigger Times([p], r)} :: Times([p], r) == if r == p then 1 else 0
  {
    assert [Some(p)][..0] == [];
    assert [p][..0] == [];
  }

  lemma EchoWays()
    ensures Cands(ECHO_ALT, Sends) == [ECHO_0] && Cands(ECHO_ALT, Receives) == [ECHO_1, ECHO_2]
    ensures All(ECHO_ALT) == [ECHO_0, ECHO_1, ECHO_2] && RecvFault(ECHO_ALT.recvs) == None
  {
    var es := ECHO_ALT.recvs;
    assert ECHO_ALT.sends[..0] == [] && es[..1] == [One(Some(0))] && es[..1][..0] == [];
    assert RecvCands(es[..1], 1) == [ECHO_1];
    assert RecvFault(es[..1]) == None;
  }

  lemma EchoMarks() returns (t: seq<Chan>)
    ensures MarkAll(ECHO_CHANS, [ECHO_1, ECHO_2], 1) == t && CountMarking(ECHO_CHANS, [ECHO_1, ECHO_2], 1) == 1
    ensures t == [Chan(EMPTY, [Some(7), Some(1)], 0, None), Chan([Some(9)], [Some(1)], 0, None)]
  {
    var s := ECHO_CHANS;
    t := [Chan(EMPTY, [Some(7), Some(1)], 0, None), Chan([Some(9)], [Some(1)], 0, None)];
    assert [] + [ECHO_1] == [ECHO_1] && [ECHO_1] + [ECHO_2] == [ECHO_1, ECHO_2];
    Snoc(s, [], ECHO_1, 1);
    assert MarkAll(s, [], 1) == s && CountMarking(s, [], 1) == 0;
    assert Add([Some(7)], 1) == [Some(7), Some(1)] && Add(EMPTY, 1) == [Some(1)];
    assert Mark(s, ECHO_1, 1) == [Chan(EMPTY, [Some(7), Some(1)], 0, None), s[1]];
    Snoc(s, [ECHO_1], ECHO_2, 1);
  }

  lemma EchoSend(t: seq<Chan>) returns (u: seq<Chan>)
    requires t == [Chan(EMPTY, [Some(7), Some(1)], 0, None), Chan([Some(9)], [Some(1)], 0, None)]
    ensures MarkAll(t, [ECHO_0], 1) == u && CountMarking(t, [ECHO_0], 1) == 1
    ensures u == [Chan([Some(1)], [Some(7), Some(1)], 0, None), Chan([Some(9)], [Some(1)], 0, None)]
  {
    assert [] + [ECHO_0] == [ECHO_0];
    Snoc(t, [], ECHO_0, 1);
    assert MarkAll(t, [], 1) == t && CountMarking(t, [], 1) == 0 && Add(EMPTY, 1) == [Some(1)];
    u := [Chan([Some(1)], [Some(7), Some(1)], 0, None), t[1]];
  }

  /** The second way of an alt that counted two ready ones can be its own send: the first is the send to prog
      7, the real second, the receive from prog 9, comes third. */
  lemma TalksToItself()
    ensures Fault1(ECHO_CHANS, ECHO_ALT, 1) == None && Count1(ECHO_CHANS, ECHO_ALT, 1) == 2
    ensures Nth(Pass1(ECHO_CHANS, ECHO_ALT, 1), All(ECHO_ALT), 1) == Some(ECHO_1)
    ensures Pass1(ECHO_CHANS, ECHO_ALT, 1)[0].send == [Some(1)]
  {
    EchoWays();
    var t := EchoMarks();
    var u := EchoSend(t);
    var cs := ECHO_ALT.sends;
    assert cs[..0] == [] && SendFault(t, cs[..0], 1, None) == None && !Own(t[0], 1);
    assert SendFault(t, cs, 1, None) == None;
    EchoNth(u);
  }

  lemma EchoNth(u: seq<Chan>)
    requires u == [Chan([Some(1)], [Some(7), Some(1)], 0, None), Chan([Some(9)], [Some(1)], 0, None)]
    ensures Nth(u, [ECHO_0, ECHO_1, ECHO_2], 1) == Some(ECHO_1)
  {
    assert [ECHO_0, ECHO_1, ECHO_2][..2] == [ECHO_0, ECHO_1] && [ECHO_0, ECHO_1][..1] == [ECHO_0] &&
           [ECHO_0][..0] == [];
    assert CountReady(u, []) == 0 && CountReady(u, [ECHO_0]) == 1;
    assert Nth(u, [ECHO_0], 1) == None;
    assert Nth(u, [ECHO_0, ECHO_1], 1) == Some(ECHO_1);
  }

  const TWICE_CHANS := [Chan(EMPTY, EMPTY, 0, None)]
  const TWICE_ALT := Alt([], [One(Some(0)), One(Some(0))])

  lemma TwiceWays()
    ensures Cands(TWICE_ALT, Sends) == [] && RecvFault(TWICE_ALT.recvs) == None
    ensures All(TWICE_ALT) == Cands(TWICE_ALT, Receives) == [Cand(Receives, 0, None, 0), Cand(Receives, 1, None, 0)]
  {
    var es := TWICE_ALT.recvs;
    var x, y := Cand(Receives, 0, None, 0), Cand(Receives, 1, None, 0);
    assert es[..1] == [es[0]] && [es[0]][..0] == [];
    assert EntryCands(es[0], 0) == [x] && EntryCands(es[1], 1) == [y];
    assert RecvFault([es[0]]) == None;
    assert RecvCands([es[0]], 0) == [x];
    assert [x] + [y] == [x, y];
  }

  lemma TwiceListed()
    ensures Listed(All(TWICE_ALT), 0, Receives) == 2
  {
    TwiceWays();
    var x, y := Cand(Receives, 0, None, 0), Cand(Receives, 1, None, 0);
    assert [x, y][..1] == [x] && [x][..0] == [];
    assert Listed([x], 0, Receives) == 1;
  }

  lemma TwiceCount()
    ensures Count1(TWICE_CHANS, TWICE_ALT, 1) == 0 && Fault1(TWICE_CHANS, TWICE_ALT, 1) == None
  {
    TwiceWays();
    var x, y := Cand(Receives, 0, None, 0), Cand(Receives, 1, None, 0);
    assert [x, y][..1] == [x] && [x][..0] == [];
    assert !ReadyWay(TWICE_CHANS, x) && !ReadyWay(TWICE_CHANS, y);
    assert CountReady(TWICE_CHANS, [x]) == 0;
    assert CountReady(TWICE_CHANS, [x, y]) == 0;
    CountsWhileMarking(TWICE_CHANS, [x, y], 1, Receives);
  }

  lemma TwiceGood()
    ensures Good(World(TWICE_CHANS, map[], map[])) && Absent(TWICE_CHANS, 1)
  {
    assert Progs(EMPTY) == [] by { assert EMPTY[..0] == []; }
  }

  /** Listing one quiet channel twice is enough for an alt that does not block; one that blocks parks. */
  lemma TwiceCrashes()
    ensures Fault1(TWICE_CHANS, TWICE_ALT, 1) == None
    ensures UnmarkAll(Pass1(TWICE_CHANS, TWICE_ALT, 1), All(TWICE_ALT), 1) == None
    ensures var w := World(TWICE_CHANS, map[], map[]);
      Good(w) && Xecalt(w, 1, TWICE_ALT, false, 0).1 == None && Xecalt(w, 1, TWICE_ALT, true, 0).0 == Parked
  {
    TwiceGood();
    TwiceCount();
    TwiceListed();
    CrashesFromStart(TWICE_CHANS, TWICE_ALT, 1);
  }

  // Prog 2 waits in an alt to send on channel 1 or receive on channel 0, while prog 1 would receive on channel 0,
  // on channel 0 again, or on channel 1.

  const PAIR_CHANS := [Chan(EMPTY, [Some(2)], 0, None), Chan([Some(2)], EMPTY, 0, None)]
  const PAIR_OTHER := Alt([Some(1)], [One(Some(0))])
  const PAIR_ALT := Alt([], [One(Some(0)), One(Some(0)), One(Some(1))])
  const PAIR_0 := Cand(Receives, 0, None, 0)
  const PAIR_1 := Cand(Receives, 1, None, 0)
  const PAIR_2 := Cand(Receives, 2, None, 1)

  lemma PairWays()
    ensures All(PAIR_ALT) == Cands(PAIR_ALT, Receives) == [PAIR_0, PAIR_1, PAIR_2] && Cands(PAIR_ALT, Sends) == []
    ensures RecvFault(PAIR_ALT.recvs) == None
  {
    var es := PAIR_ALT.recvs;
    assert es[..2] == [es[0], es[1]] && [es[0], es[1]][..1] == [es[0]] && [es[0]][..0] == [];
    assert EntryCands(es[0], 0) == [PAIR_0] && EntryCands(es[1], 1) == [PAIR_1] && EntryCands(es[2], 2) == [PAIR_2];
    assert RecvCands([es[0]], 0) == [PAIR_0];
    assert RecvCands([es[0], es[1]], 0) == [PAIR_0] + [PAIR_1];
    assert RecvFault([es[0]]) == None;
    assert RecvFault([es[0], es[1]]) == None;
    assert [PAIR_0] + [PAIR_1] + [PAIR_2] == [PAIR_0, PAIR_1, PAIR_2];
  }

  lemma PairTwice(c: Cid, side: Side)
    ensures Listed(All(PAIR_ALT), c, side) == if side == Sends then 0 else if c == 0 then 2 else if c == 1 then 1 else 0
  {
    PairWays();
    var xs := [PAIR_0, PAIR_1, PAIR_2];
    assert xs[..2] == [PAIR_0, PAIR_1] && [PAIR_0, PAIR_1][..1] == [PAIR_0] && [PAIR_0][..0] == [];
    assert Listed([PAIR_0], c, side) == if side == Receives && c == 0 then 1 else 0;
    assert Listed([PAIR_0, PAIR_1], c, side) == if side == Receives && c == 0 then 2 else 0;
  }

  lemma PairListed(c: Cid, side: Side)
    ensures Listed(All(PAIR_OTHER), c, side) ==
            if (c == 1 && side == Sends) || (c == 0 && side == Receives) then 1 else 0
  {
    var x, y := Cand(Sends, 0, None, 1), Cand(Receives, 1, None, 0);
    PairOtherWays(x, y);
    assert [x, y][..1] == [x] && [x][..0] == [];
    assert Listed([x], c, side) == if c == 1 && side == Sends then 1 else 0;
  }

  lemma PairOtherWays(x: Cand, y: Cand)
    requires x == Cand(Sends, 0, None, 1) && y == Cand(Receives, 1, None, 0)
    ensures All(PAIR_OTHER) == [x, y]
  {
    assert PAIR_OTHER.sends[..0] == [] && PAIR_OTHER.recvs[..0] == [];
    assert SendCands(PAIR_OTHER.sends) == [x];
    assert RecvCands(PAIR_OTHER.recvs, 1) == [y];
  }

  lemma PairGood()
    ensures Good(World(PAIR_CHANS, map[2 := InAlt(PAIR_OTHER)], map[]))
  {
    var w := World(PAIR_CHANS, map[2 := InAlt(PAIR_OTHER)], map[]);
    OneOn(2);
    assert Progs(EMPTY) == [] by { assert EMPTY[..0] == []; }
    forall c: Cid, side, r: Pid {:trigger Times(Progs(Line(w.chans[c], side)), r)} | c < |w.chans|
      ensures Times(Progs(Line(w.chans[c], side)), r) == Due(StateOf(w, r), c, side) {
      PairListed(c, side);
      assert c == 0 || c == 1;
    }
  }

  /** The partner on channel 1 leaves channel 0 as it is woken, and prog 1 alone is left there, twice: a channel
      somebody waits on is enough, too. */
  lemma PartnerLeaves()
    ensures var w := World(PAIR_CHANS, map[2 := InAlt(PAIR_OTHER)], map[]); var r := Xecalt(w, 1, PAIR_ALT, true, 0);
      Good(w) && Held(Line(w.chans[0], Receives)) && r.0.Took? && r.1 == None
  {
    var w := World(PAIR_CHANS, map[2 := InAlt(PAIR_OTHER)], map[]);
    PairGood();
    PairFault();
    PairCount();
    var x, v := TakenCrashes(w, 1, PAIR_ALT, true, 0);
    PairTaken(w, x);
    PairBreaks(w, x);
    assert Xecalt(w, 1, PAIR_ALT, true, 0).0 == Took(x);
  }

  lemma PairFault()
    ensures Fault1(PAIR_CHANS, PAIR_ALT, 1) == None
  {
    PairWays();
  }

  lemma PairBreaks(w: World, x: Cand)
    requires w == World(PAIR_CHANS, map[2 := InAlt(PAIR_OTHER)], map[]) && x == PAIR_2
    ensures SelfBreaks(w, 1, PAIR_ALT, x) && !PartnerBreaks(w, 1, PAIR_ALT, x)
  {
    OneOn(2);
    PairTwice(0, Receives);
    var r := Partner(w, 1, PAIR_ALT, x);
    assert r == Some(2) && Left(1, PAIR_ALT, x, r, 0, Receives) == 2 && Only(Line(w.chans[0], Receives), r);
    PairNoBreak(w, x);
  }

  lemma PairCount()
    ensures Count1(PAIR_CHANS, PAIR_ALT, 1) == 1
  {
    PairWays();
    var xs := [PAIR_0, PAIR_1, PAIR_2];
    assert xs[..2] == [PAIR_0, PAIR_1] && [PAIR_0, PAIR_1][..1] == [PAIR_0] && [PAIR_0][..0] == [];
    assert !ReadyWay(PAIR_CHANS, PAIR_0) && !ReadyWay(PAIR_CHANS, PAIR_1) && ReadyWay(PAIR_CHANS, PAIR_2);
    assert CountReady(PAIR_CHANS, [PAIR_0]) == 0;
    assert CountReady(PAIR_CHANS, [PAIR_0, PAIR_1]) == 0;
    assert CountReady(PAIR_CHANS, xs) == 1;
    CountsWhileMarking(PAIR_CHANS, xs, 1, Receives);
  }

  lemma PairTaken(w: World, x: Cand)
    requires w == World(PAIR_CHANS, map[2 := InAlt(PAIR_OTHER)], map[])
    requires x in All(PAIR_ALT) && Meets(w, 1, PAIR_ALT, x)
    ensures x == PAIR_2
  {
    PairWays();
    forall c: Cid ensures Listed(All(PAIR_ALT), c, Sends) == 0 { PairTwice(c, Sends); }
    assert Apart(PAIR_ALT);
    ApartWay(w, 1, PAIR_ALT, x);
  }

  lemma PairNoBreak(w: World, x: Cand)
    requires w == World(PAIR_CHANS, map[2 := InAlt(PAIR_OTHER)], map[]) && x == PAIR_2
    ensures !PartnerBreaks(w, 1, PAIR_ALT, x)
  {
    assert StateOf(w, 2) == InAlt(PAIR_OTHER);
    forall c: Cid, side ensures Listed(All(PAIR_OTHER), c, side) <= 1 { PairListed(c, side); }
  }
}
