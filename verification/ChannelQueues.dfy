/**
  The queues of progs on a channel.

  A queue is a list of nodes.  It has at least one: when nobody waits, the one node holds no prog.  The
  empty sequence stands for a nil list pointer, which no operation can follow.
 */
module ChannelQueues {
  import opened Basics

  type Pid = nat

  type Queue = seq<Option<Pid>>

  const EMPTY: Queue := [None]

  predicate Well(q: Queue) { q == EMPTY || (q != [] && forall i :: 0 <= i < |q| ==> q[i].Some?) }

  /** Who waits, first come first. */
  function Progs(q: Queue): seq<Pid> {
    if q == [] then []
    else if q[|q| - 1].Some? then Progs(q[..|q| - 1]) + [q[|q| - 1].value]
    else Progs(q[..|q| - 1])
  }

  /** Someone waits: the first node holds a prog. */
  predicate Held(q: Queue) { q != [] && q[0].Some? }

  // ----- the three operations, on the nodes

  function Add(q: Queue, p: Pid): Queue { if q != [] && q[0].None? then [Some(p)] + q[1..] else q + [Some(p)] }

  function Del(q: Queue): Queue { if |q| <= 1 then EMPTY else q[1..] }

  function Other(q: Queue, p: Pid): Queue {
    if q == [] then []
    else if q[|q| - 1] == Some(p) then Other(q[..|q| - 1], p)
    else Other(q[..|q| - 1], p) + [q[|q| - 1]]
  }

  function DelP(q: Queue, p: Pid): Queue { if |q| == 1 then if q[0] == Some(p) then EMPTY else q else Other(q, p) }

  // ----- and what they mean for who waits

  function Without(s: seq<Pid>, p: Pid): seq<Pid> {
    if s == [] then []
    else if s[|s| - 1] == p then Without(s[..|s| - 1], p)
    else Without(s[..|s| - 1], p) + [s[|s| - 1]]
  }

  lemma {:induction false} WithoutSame(s: seq<Pid>, p: Pid)
    requires p !in s
    ensures Without(s, p) == s
  {
    if s != [] {
      WithoutSame(s[..|s| - 1], p);
      assert s == s[..|s| - 1] + [s[|s| - 1]];
    }
  }

  lemma {:induction false} ProgsAll(q: Queue)
    requires forall i :: 0 <= i < |q| ==> q[i].Some?
    ensures |Progs(q)| == |q| && forall i :: 0 <= i < |q| ==> Progs(q)[i] == q[i].value
  {
    if q != [] { ProgsAll(q[..|q| - 1]); }
  }

  /** A well formed queue is empty exactly when its first node holds no prog. */
  lemma HeldSome(q: Queue)
    requires Well(q)
    ensures Held(q) <==> Progs(q) != []
    ensures Held(q) ==> Progs(q)[0] == q[0].value && |Progs(q)| == |q|
  {
    if q == EMPTY { assert q[..0] == []; } else { ProgsAll(q); }
  }

  lemma Added(q: Queue, p: Pid)
    requires Well(q)
    ensures Well(Add(q, p)) && Progs(Add(q, p)) == Progs(q) + [p]
  {
    if q == EMPTY {
      assert Add(q, p) == [Some(p)] && [Some(p)][..0] == [] && q[..0] == [];
    } else {
      assert (q + [Some(p)])[..|q|] == q;
    }
  }

  lemma Removed(q: Queue)
    requires Well(q) && Held(q)
    ensures Well(Del(q)) && Progs(Del(q)) == Progs(q)[1..]
  {
    ProgsAll(q);
    if |q| > 1 { ProgsAll(q[1..]); } else { assert Progs(EMPTY) == [] by { assert EMPTY[..0] == []; } }
  }

  lemma ProgsSnoc(q: Queue, x: Option<Pid>)
    ensures Progs(q + [x]) == if x.Some? then Progs(q) + [x.value] else Progs(q)
  {
    assert (q + [x])[..|q|] == q;
  }

  lemma WithoutSnoc(s: seq<Pid>, x: Pid, p: Pid)
    ensures Without(s + [x], p) == if x == p then Without(s, p) else Without(s, p) + [x]
  {
    assert (s + [x])[..|s|] == s;
  }

  lemma TimesSnoc(s: seq<Pid>, x: Pid, p: Pid)
    ensures Times(s + [x], p) == Times(s, p) + if x == p then 1 else 0
  {
    assert (s + [x])[..|s|] == s;
  }

  lemma {:induction false} OtherProgs(q: Queue, p: Pid)
    requires forall i :: 0 <= i < |q| ==> q[i].Some?
    ensures Progs(Other(q, p)) == Without(Progs(q), p)
  {
    if q != [] {
      var rest := q[..|q| - 1];
      var l := q[|q| - 1];
      OtherProgs(rest, p);
      assert q == rest + [l];
      ProgsSnoc(rest, l);
      ProgsSnoc(Other(rest, p), l);
      WithoutSnoc(Progs(rest), l.value, p);
    }
  }

  lemma {:induction false} OtherNodes(q: Queue, p: Pid)
    requires forall i :: 0 <= i < |q| ==> q[i].Some?
    ensures forall i :: 0 <= i < |Other(q, p)| ==> Other(q, p)[i].Some?
    ensures Other(q, p) == [] <==> forall i :: 0 <= i < |q| ==> q[i] == Some(p)
  {
    if q != [] { OtherNodes(q[..|q| - 1], p); }
  }

  /** The one case in which taking a prog off breaks the list: two nodes or more, all of them that prog's. */
  predicate AllHis(q: Queue, p: Pid) { |q| >= 2 && forall i :: 0 <= i < |q| ==> q[i] == Some(p) }

  /** cqdelp leaves the others in their order, and leaves a list unless every node was p's. */
  lemma Dropped(q: Queue, p: Pid)
    requires Well(q)
    ensures Progs(DelP(q, p)) == Without(Progs(q), p)
    ensures AllHis(q, p) <==> DelP(q, p) == []
    ensures !AllHis(q, p) <==> Well(DelP(q, p))
  {
    if |q| == 1 {
      assert q[..0] == [] && EMPTY[..0] == [];
      assert Progs(EMPTY) == [];
      if q[0].Some? { assert Progs(q) == [] + [q[0].value]; }
    } else {
      OtherProgs(q, p);
      OtherNodes(q, p);
    }
  }

  // ----- how many times a prog waits

  function Times(s: seq<Pid>, p: Pid): nat {
    if s == [] then 0 else Times(s[..|s| - 1], p) + if s[|s| - 1] == p then 1 else 0
  }

  lemma {:induction false} TimesNone(s: seq<Pid>, p: Pid)
    ensures Times(s, p) == 0 <==> p !in s
  {
    if s != [] {
      TimesNone(s[..|s| - 1], p);
      assert s == s[..|s| - 1] + [s[|s| - 1]];
    }
  }

  lemma {:induction false} TimesWithout(s: seq<Pid>, p: Pid, q: Pid)
    ensures Times(Without(s, p), q) == if p == q then 0 else Times(s, q)
  {
    if s != [] {
      TimesWithout(s[..|s| - 1], p, q);
      TimesSnoc(Without(s[..|s| - 1], p), s[|s| - 1], q);
    }
  }

  lemma {:induction false} TimesTail(s: seq<Pid>, q: Pid)
    requires s != []
    ensures Times(s, q) == Times(s[1..], q) + if s[0] == q then 1 else 0
  {
    if |s| == 1 {
      assert s[..0] == [] && s[1..] == [];
    } else {
      TimesTail(s[..|s| - 1], q);
      assert s[..|s| - 1][1..] == s[1..][..|s| - 2];
    }
  }
}
