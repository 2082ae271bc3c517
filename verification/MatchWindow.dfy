/** The match search: a ring of nodes filed on hash chains, and the walk along one chain. */
module MatchWindow {
  import opened Basics
  import opened Codes
  import opened HashChains

  // ----- matches

  /** How many of the `lim` bytes from p on equal those from x on. */
  function MatchLen(data: seq<byte>, x: nat, p: nat, lim: nat): (r: nat)
    requires x <= p && p + lim <= |data|
    ensures r <= lim && data[x..x + r] == data[p..p + r]
    ensures r < lim ==> data[x + r] != data[p + r]
    decreases lim
  {
    if lim == 0 || data[x] != data[p] then 0
    else
      var r := MatchLen(data, x + 1, p + 1, lim - 1);
      assert data[x..x + 1 + r] == [data[x]] + data[x + 1..x + 1 + r];
      assert data[p..p + 1 + r] == [data[p]] + data[p + 1..p + 1 + r];
      1 + r
  }

  lemma MatchStops(data: seq<byte>, x: nat, p: nat, lim: nat, i: nat)
    requires x <= p && p + lim <= |data| && i < lim
    requires data[x + i] != data[p + i]
    ensures MatchLen(data, x, p, lim) <= i
  {
    var m := MatchLen(data, x, p, lim);
    var a, b := data[x..x + m], data[p..p + m];
    assert forall j {:trigger a[j]} :: 0 <= j < m ==> a[j] == data[x + j] && b[j] == data[p + j];
  }

  function Oldest(n: nat): nat { if n <= NMEM then 0 else n - NMEM }

  function Slot(x: nat): nat { NHASH + x % NMEM }

  lemma SlotsDistinct(x: nat, y: nat)
    requires x < y < x + NMEM
    ensures Slot(x) != Slot(y)
  {
  }

  ghost predicate Slotted(nd: seq<nat>) {
    forall x {:trigger nd[x]} :: 0 <= x < |nd| ==> nd[x] == Slot(x)
  }

  lemma SlotIsFree(nd: seq<nat>)
    requires Slotted(nd)
    ensures Free(nd, Oldest(|nd| + 1), Slot(|nd|))
    ensures |nd| >= NMEM ==> nd[|nd| - NMEM] == Slot(|nd|)
  {
    forall x | Oldest(|nd| + 1) <= x < |nd| ensures nd[x] != Slot(|nd|) {
      SlotsDistinct(x, |nd|);
    }
  }

  /** The whole window: links, the positions nodes stand for, and the nodes not used yet. */
  ghost predicate Windowed(nx: seq<int>, pv: seq<int>, st: seq<int>, base: nat, hk: seq<nat>, nd: seq<nat>) {
    Linked(nx, pv, hk, nd, Oldest(|hk|)) && Slotted(nd) && Stands(st, base, nd) && Unused(pv, |nd|)
  }

  ghost predicate Stands(st: seq<int>, base: nat, nd: seq<nat>) {
    |st| == SIZE &&
    forall x {:trigger nd[x]} :: Oldest(|nd|) <= x < |nd| ==> nd[x] < SIZE && st[nd[x]] == base + x
  }

  ghost predicate Unused(pv: seq<int>, n: nat) {
    |pv| == SIZE && forall c {:trigger pv[c]} :: NHASH + n <= c < SIZE ==> pv[c] == -1
  }

  function Cut(nx: seq<int>, pv: seq<int>, cp: nat): seq<int>
    requires cp < |pv| && -1 <= pv[cp] < |nx|
  {
    if pv[cp] == -1 then nx else nx[pv[cp] := -1]
  }

  lemma CutKeeps(nx: seq<int>, pv: seq<int>, st: seq<int>, base: nat, hk: seq<nat>, nd: seq<nat>)
    requires Windowed(nx, pv, st, base, hk, nd)
    ensures -1 <= pv[Slot(|hk|)] < SIZE
    ensures Linked(Cut(nx, pv, Slot(|hk|)), pv, hk, nd, Oldest(|hk| + 1))
  {
    if |hk| >= NMEM { CutFull(nx, pv, hk, nd); } else { SlotSmall(|hk|); }
  }

  lemma SlotSmall(n: nat)
    requires n < NMEM
    ensures Slot(n) == NHASH + n
  {
  }

  lemma CutFull(nx: seq<int>, pv: seq<int>, hk: seq<nat>, nd: seq<nat>)
    requires Linked(nx, pv, hk, nd, Oldest(|hk|)) && Slotted(nd) && |hk| >= NMEM
    ensures 0 <= pv[Slot(|hk|)] < SIZE
    ensures Linked(nx[pv[Slot(|hk|)] := -1], pv, hk, nd, Oldest(|hk| + 1))
  {
    SlotIsFree(nd);
    Evict(nx, pv, hk, nd, |hk| - NMEM);
  }

  lemma StandsPush(st: seq<int>, base: nat, nd: seq<nat>)
    requires Stands(st, base, nd) && Slotted(nd)
    ensures Slotted(nd + [Slot(|nd|)]) && Stands(st[Slot(|nd|) := base + |nd|], base, nd + [Slot(|nd|)])
  {
    SlotIsFree(nd);
  }

  lemma UnusedPush(nx: seq<int>, pv: seq<int>, n: nat, h: nat)
    requires Unused(pv, n) && |nx| == SIZE && h < NHASH
    requires -1 <= nx[h] < SIZE && (nx[h] == -1 || nx[h] < NHASH + n)
    ensures Unused(PushPrev(nx, pv, Slot(n), h), n + 1)
  {
  }

  lemma FileKeeps(nx: seq<int>, pv: seq<int>, st: seq<int>, base: nat, hk: seq<nat>, nd: seq<nat>, h: nat)
    requires Windowed(nx, pv, st, base, hk, nd) && h < NHASH
    ensures -1 <= pv[Slot(|hk|)] < SIZE
    ensures var cp := Slot(|hk|); var n1 := Cut(nx, pv, cp);
      -1 <= n1[h] < SIZE &&
      Windowed(PushNext(n1, cp, h), PushPrev(n1, pv, cp, h), st[cp := base + |hk|], base, hk + [h], nd + [cp])
  {
    CutKeeps(nx, pv, st, base, hk, nd);
    SlotIsFree(nd);
    var cp := Slot(|hk|);
    var n1 := Cut(nx, pv, cp);
    Push(n1, pv, hk, nd, Oldest(|hk| + 1), h, cp);
    StandsPush(st, base, nd);
    var y := Older(hk, Oldest(|hk| + 1), |hk|, h);
    assert n1[h] == Ref(nd, y);
    UnusedPush(n1, pv, |nd|, h);
  }

  lemma SlotNext(n: nat)
    ensures Slot(n + 1) == if Slot(n) + 1 == SIZE then NHASH else Slot(n) + 1
  {
  }

  /** The node of a position in the window leads to its position and to the next older one of its list. */
  lemma Follow(nx: seq<int>, pv: seq<int>, st: seq<int>, base: nat, hk: seq<nat>, nd: seq<nat>, y: nat)
    requires Windowed(nx, pv, st, base, hk, nd) && Oldest(|hk|) <= y < |hk|
    ensures nd[y] < SIZE && st[nd[y]] == base + y
    ensures nx[nd[y]] == Ref(nd, Older(hk, Oldest(|hk|), y, hk[y]))
  {
  }

  /** The positions of [lo, x) filed under k, newest first, as places in the data. */
  ghost function Chain(base: nat, hk: seq<nat>, lo: nat, x: nat, k: nat): seq<nat>
    requires lo <= x <= |hk|
    decreases x
  {
    var y := Older(hk, lo, x, k);
    if y == -1 then [] else [base + y] + Chain(base, hk, lo, y, k)
  }

  lemma {:induction false} ChainMembers(base: nat, hk: seq<nat>, lo: nat, x: nat, k: nat, y: nat)
    requires lo <= x <= |hk|
    ensures y in Chain(base, hk, lo, x, k) <==> base + lo <= y < base + x && hk[y - base] == k
    decreases x
  {
    var o := Older(hk, lo, x, k);
    if o != -1 {
      ChainMembers(base, hk, lo, o, k, y);
    }
  }

  lemma ChainIsWindow(base: nat, hk: seq<nat>, k: nat)
    ensures var ps := Chain(base, hk, Oldest(|hk|), |hk|, k);
      (forall y :: y in ps ==> base + Oldest(|hk|) <= y < base + |hk|) &&
      forall x {:trigger hk[x]} :: Oldest(|hk|) <= x < |hk| && hk[x] == k ==> base + x in ps
  {
    var ps := Chain(base, hk, Oldest(|hk|), |hk|, k);
    forall y | y in ps ensures base + Oldest(|hk|) <= y < base + |hk| {
      ChainMembers(base, hk, Oldest(|hk|), |hk|, k, y);
    }
    forall x {:trigger hk[x]} | Oldest(|hk|) <= x < |hk| && hk[x] == k ensures base + x in ps {
      ChainMembers(base, hk, Oldest(|hk|), |hk|, k, base + x);
    }
  }

  /** Following `next` from node hp visits the places ps and then ends. */
  ghost predicate Path(nx: seq<int>, st: seq<int>, hp: int, ps: seq<nat>)
    decreases |ps|
  {
    if ps == [] then hp == -1
    else 0 <= hp < |nx| && hp < |st| && st[hp] == ps[0] && Path(nx, st, nx[hp], ps[1..])
  }

  lemma {:induction false} ChainIsPath(nx: seq<int>, pv: seq<int>, st: seq<int>, base: nat, hk: seq<nat>, nd: seq<nat>,
                                       x: nat, k: nat)
    requires Windowed(nx, pv, st, base, hk, nd) && Oldest(|hk|) <= x <= |hk|
    ensures Path(nx, st, Ref(nd, Older(hk, Oldest(|hk|), x, k)), Chain(base, hk, Oldest(|hk|), x, k))
    decreases x
  {
    var y := Older(hk, Oldest(|hk|), x, k);
    if y != -1 {
      Follow(nx, pv, st, base, hk, nd, y);
      ChainIsPath(nx, pv, st, base, hk, nd, y, k);
    }
  }

  /** No window position filed under k matches more than r bytes of what comes next. */
  ghost predicate ChainBest(data: seq<byte>, base: nat, hk: seq<nat>, k: nat, p: nat, lim: nat, r: nat)
    requires base + |hk| <= p && p + lim <= |data|
  {
    forall x {:trigger hk[x]} :: Oldest(|hk|) <= x < |hk| && hk[x] == k ==> MatchLen(data, base + x, p, lim) <= r
  }

  lemma ChainCovers(data: seq<byte>, base: nat, hk: seq<nat>, k: nat, ps: seq<nat>, p: nat, lim: nat, r: nat)
    requires base + |hk| <= p && p + lim <= |data| && ps == Chain(base, hk, Oldest(|hk|), |hk|, k)
    requires forall y :: y in ps ==> y < p && MatchLen(data, y, p, lim) <= r
    ensures ChainBest(data, base, hk, k, p, lim, r)
  {
    ChainIsWindow(base, hk, k);
  }

  class Window {
    const data: seq<byte>
    const next: array<int>
    const prev: array<int>
    const str: array<int>     // the position a ring node stands for
    var cp: nat               // next node to fall out of the window
    ghost var base: nat       // start of the block
    ghost var hk: seq<nat>
    ghost var nd: seq<nat>

    constructor (data: seq<byte>)
      ensures this.data == data && fresh(next) && fresh(prev) && fresh(str)
      ensures next.Length == prev.Length == str.Length == SIZE && next != prev && next != str && prev != str
    {
      this.data := data;
      next := new int[SIZE];
      prev := new int[SIZE];
      str := new int[SIZE];
      cp, base, hk, nd := NHASH, 0, [], [];
    }

    ghost predicate Shape()
      reads this
    {
      next.Length == prev.Length == str.Length == SIZE && next != prev && next != str && prev != str
    }

    ghost predicate Valid()
      reads this, next, prev, str
    {
      Shape() && Windowed(next[..], prev[..], str[..], base, hk, nd) && cp == Slot(|hk|)
    }

    /** Empties the window at the start of a block. */
    method Reset(line: nat)
      requires Shape()
      modifies this, next, prev
      ensures Valid() && base == line && hk == []
    {
      for i := 0 to SIZE
        invariant forall c :: 0 <= c < i ==> next[c] == -1 && prev[c] == -1
      {
        next[i], prev[i] := -1, -1;
      }
      cp, base, hk, nd := NHASH, line, [], [];
    }

    method Relink(h: nat, p: nat)
      requires Shape() && h < NHASH && cp < SIZE && -1 <= prev[cp] < SIZE
      requires -1 <= Cut(next[..], prev[..], cp)[h] < SIZE
      modifies next, prev, str
      ensures next[..] == old(PushNext(Cut(next[..], prev[..], cp), cp, h))
      ensures prev[..] == old(PushPrev(Cut(next[..], prev[..], cp), prev[..], cp, h))
      ensures str[..] == old(str[..][cp := p])
    {
      if prev[cp] != -1 {
        next[prev[cp]] := -1;
      }
      assert next[..] == old(Cut(next[..], prev[..], cp));
      next[cp] := next[h];
      prev[cp] := h;
      if next[cp] != -1 {
        prev[next[cp]] := cp;
      }
      next[h] := cp;
      str[cp] := p;
    }

    /** Files position p, the next one, under hash value h, dropping the oldest position when the ring
        is full. */
    method File(h: nat, p: nat)
      requires Valid() && h < NHASH && p == base + |hk|
      modifies this`cp, this`hk, this`nd, next, prev, str
      ensures Valid() && hk == old(hk) + [h]
    {
      FileKeeps(next[..], prev[..], str[..], base, hk, nd, h);
      ghost var n1 := Cut(next[..], prev[..], cp);
      ghost var n2, p2, s2 := PushNext(n1, cp, h), PushPrev(n1, prev[..], cp, h), str[..][cp := p];
      Relink(h, p);
      SlotNext(|hk|);
      hk, nd := hk + [h], nd + [cp];
      assert next[..] == n2 && prev[..] == p2 && str[..] == s2;
      cp := cp + 1;
      if cp == SIZE {
        cp := NHASH;
      }
    }

    /** The length of the match between x and p when it is longer than `runlen`.  The first comparison
        runs backwards over the length already known, so a hopeless candidate fails early. */
    method Extend(x: nat, p: nat, runlen: nat, lim: nat) returns (n: nat)
      requires x < p && runlen < lim && p + lim <= |data|
      ensures n <= lim
      ensures n > runlen ==> n == MatchLen(data, x, p, lim)
      ensures n <= runlen ==> MatchLen(data, x, p, lim) <= runlen
    {
      ghost var m := MatchLen(data, x, p, lim);
      var s: int := runlen;
      while s >= 0
        invariant -1 <= s <= runlen
        invariant forall i :: s < i <= runlen ==> data[x..][i] == data[p..][i]
      {
        if data[p + s] != data[x + s] {
          MatchStops(data, x, p, lim, s);
          return 0;
        }
        assert data[p..][s] == data[p + s] && data[x..][s] == data[x + s];
        s := s - 1;
      }
      n := runlen + 1;
      while n < lim
        invariant runlen < n <= lim && n <= m
      {
        if data[p + n] != data[x + n] {
          MatchStops(data, x, p, lim, n);
          return;
        }
        n := n + 1;
      }
    }

    /** Takes candidate x when it beats the best match so far. */
    method Better(x: nat, p: nat, lim: nat, runlen: nat, q: nat) returns (r: nat, q': nat)
      requires x < p && runlen <= lim && p + lim <= |data|
      ensures runlen <= r <= lim && MatchLen(data, x, p, lim) <= r
      ensures r == runlen ==> q' == q
      ensures r > runlen ==> q' == x && r == MatchLen(data, x, p, lim)
    {
      r, q' := runlen, q;
      if runlen < lim {
        var n := Extend(x, p, runlen, lim);
        if n > runlen {
          r, q' := n, x;
        }
      }
    }

    /** Walks a chain for the longest string equal to what stands at p. */
    method Walk(first: int, ghost ps: seq<nat>, p: nat, lim: nat) returns (runlen: nat, q: nat)
      requires Shape() && Path(next[..], str[..], first, ps)
      requires p + lim <= |data| && lim <= NRUN && forall y :: y in ps ==> y < p
      ensures runlen <= lim
      ensures runlen > 0 ==> q in ps && q < p && MatchLen(data, q, p, lim) == runlen
      ensures forall y :: y in ps ==> y < p && MatchLen(data, y, p, lim) <= runlen
    {
      runlen, q := 0, 0;
      var hp := first;
      ghost var rest := ps;
      while hp != -1
        invariant Path(next[..], str[..], hp, rest) && runlen <= lim
        invariant forall y :: y in rest ==> y in ps
        invariant runlen > 0 ==> q in ps && q < p && MatchLen(data, q, p, lim) == runlen
        invariant forall y :: y in ps ==> y in rest || (y < p && MatchLen(data, y, p, lim) <= runlen)
        decreases |rest|
      {
        assert str[hp] == rest[0] && rest[0] in ps;
        runlen, q := Better(str[hp], p, lim, runlen, q);
        if runlen == NRUN {
          break;
        }
        assert forall y :: y in rest ==> y == rest[0] || y in rest[1..];
        rest := rest[1..];
        hp := next[hp];
      }
    }

    /** The longest string of the chain of h, newest first, that equals what stands at p. */
    method Search(h: nat, p: nat, lim: nat) returns (runlen: nat, q: nat)
      requires Valid() && h < NHASH && p == base + |hk| && p + lim <= |data| && lim <= NRUN
      ensures runlen <= lim
      ensures runlen > 0 ==> base + Oldest(|hk|) <= q < p && MatchLen(data, q, p, lim) == runlen
      ensures ChainBest(data, base, hk, h, p, lim, runlen)
    {
      ghost var ps := Chain(base, hk, Oldest(|hk|), |hk|, h);
      ChainIsPath(next[..], prev[..], str[..], base, hk, nd, |hk|, h);
      ChainIsWindow(base, hk, h);
      assert next[h] == next[..][h];
      runlen, q := Walk(next[h], ps, p, lim);
      ChainCovers(data, base, hk, h, ps, p, lim, runlen);
    }
  }
}
