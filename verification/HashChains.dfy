/**
  The window of past strings: a ring of NMEM nodes, each on the doubly linked list of its hash value.

  Positions are counted from the start of the block.  hk[x] is the hash value position x was filed
  under, nd[x] the node that was used for it, and `lo` the oldest position still in the window.
 */
module HashChains {
  import opened Codes

  const NHASH := 512
  const SIZE := NHASH + NMEM   // list heads first, then the ring

  // ----- the lists, by position

  /** The newest position of [lo, x) filed under k, or -1. */
  function Older(hk: seq<nat>, lo: nat, x: nat, k: nat): (r: int)
    requires lo <= x <= |hk|
    ensures r == -1 || (lo <= r < x && hk[r] == k)
    ensures forall y :: r < y < x && lo <= y ==> hk[y] != k
    decreases x
  {
    if x == lo then -1 else if hk[x - 1] == k then x - 1 else Older(hk, lo, x - 1, k)
  }

  /** The oldest position of [x, |hk|) filed under k, or -1. */
  function Newer(hk: seq<nat>, x: nat, k: nat): (r: int)
    requires x <= |hk|
    ensures r == -1 || (x <= r < |hk| && hk[r] == k)
    ensures forall y :: x <= y < |hk| && (r == -1 || y < r) ==> hk[y] != k
    decreases |hk| - x
  {
    if x == |hk| then -1 else if hk[x] == k then x else Newer(hk, x + 1, k)
  }

  function Ref(nd: seq<nat>, y: int): int
    requires -1 <= y < |nd|
  {
    if y == -1 then -1 else nd[y]
  }

  /** What a node's back link names: the next newer node of its list, or the list head. */
  function Back(hk: seq<nat>, nd: seq<nat>, x: nat): int
    requires x < |hk| == |nd|
  {
    var z := Newer(hk, x + 1, hk[x]);
    if z == -1 then hk[x] else nd[z]
  }

  // ----- the links agree with the lists

  ghost predicate Filed(hk: seq<nat>, nd: seq<nat>, lo: nat) {
    |hk| == |nd| && lo <= |hk| &&
    (forall x :: 0 <= x < |hk| ==> hk[x] < NHASH) &&
    (forall x :: 0 <= x < |nd| ==> NHASH <= nd[x] < SIZE) &&
    forall x, y :: lo <= x < y < |nd| ==> nd[x] != nd[y]
  }

  ghost predicate Heads(nx: seq<int>, hk: seq<nat>, nd: seq<nat>, lo: nat)
    requires lo <= |hk| == |nd| && |nx| == SIZE
  {
    forall k {:trigger nx[k]} :: 0 <= k < NHASH ==> nx[k] == Ref(nd, Older(hk, lo, |hk|, k))
  }

  ghost predicate Nexts(nx: seq<int>, hk: seq<nat>, nd: seq<nat>, lo: nat)
    requires Filed(hk, nd, lo) && |nx| == SIZE
  {
    forall x {:trigger nx[nd[x]]} :: lo <= x < |hk| ==> nx[nd[x]] == Ref(nd, Older(hk, lo, x, hk[x]))
  }

  ghost predicate Prevs(pv: seq<int>, hk: seq<nat>, nd: seq<nat>, lo: nat)
    requires Filed(hk, nd, lo) && |pv| == SIZE
  {
    forall x {:trigger pv[nd[x]]} :: lo <= x < |hk| ==> pv[nd[x]] == Back(hk, nd, x)
  }

  ghost predicate Linked(nx: seq<int>, pv: seq<int>, hk: seq<nat>, nd: seq<nat>, lo: nat) {
    Filed(hk, nd, lo) && |nx| == |pv| == SIZE &&
    Heads(nx, hk, nd, lo) && Nexts(nx, hk, nd, lo) && Prevs(pv, hk, nd, lo)
  }

  // ----- dropping the oldest position

  lemma OlderDrop(hk: seq<nat>, lo: nat, x: nat, k: nat)
    requires lo < x <= |hk|
    ensures Older(hk, lo + 1, x, k) == if Older(hk, lo, x, k) == lo then -1 else Older(hk, lo, x, k)
  {
  }

  /** A position whose older neighbour is `lo` is the newer neighbour of `lo`. */
  lemma OldestIsTail(hk: seq<nat>, lo: nat, x: nat, k: nat)
    requires lo < x <= |hk| && Older(hk, lo, x, k) == lo
    ensures x == |hk| ==> Newer(hk, lo + 1, hk[lo]) == -1
    ensures x < |hk| && k == hk[x] ==> Newer(hk, lo + 1, hk[lo]) == x
  {
  }

  lemma TailIsOldest(hk: seq<nat>, lo: nat, x: nat)
    requires lo < |hk|
    ensures Newer(hk, lo + 1, hk[lo]) == -1 ==> Older(hk, lo, |hk|, hk[lo]) == lo
    ensures Newer(hk, lo + 1, hk[lo]) == x ==> Older(hk, lo, x, hk[x]) == lo
  {
  }

  lemma EvictHead(nx: seq<int>, pv: seq<int>, hk: seq<nat>, nd: seq<nat>, lo: nat, k: nat)
    requires Linked(nx, pv, hk, nd, lo) && lo < |hk| && k < NHASH
    ensures 0 <= Back(hk, nd, lo) < SIZE
    ensures nx[Back(hk, nd, lo) := -1][k] == Ref(nd, Older(hk, lo + 1, |hk|, k))
  {
    OlderDrop(hk, lo, |hk|, k);
    TailIsOldest(hk, lo, 0);
    if Older(hk, lo, |hk|, k) == lo {
      OldestIsTail(hk, lo, |hk|, k);
    }
  }

  lemma EvictNext(nx: seq<int>, pv: seq<int>, hk: seq<nat>, nd: seq<nat>, lo: nat, x: nat)
    requires Linked(nx, pv, hk, nd, lo) && lo < x < |hk|
    ensures 0 <= Back(hk, nd, lo) < SIZE
    ensures nx[Back(hk, nd, lo) := -1][nd[x]] == Ref(nd, Older(hk, lo + 1, x, hk[x]))
  {
    OlderDrop(hk, lo, x, hk[x]);
    TailIsOldest(hk, lo, x);
    if Older(hk, lo, x, hk[x]) == lo {
      OldestIsTail(hk, lo, x, hk[x]);
    }
  }

  /** Unlinking the evicted node truncates exactly its own list, of which it is the tail. */
  lemma Evict(nx: seq<int>, pv: seq<int>, hk: seq<nat>, nd: seq<nat>, lo: nat)
    requires Linked(nx, pv, hk, nd, lo) && lo < |hk|
    ensures 0 <= pv[nd[lo]] < SIZE
    ensures Linked(nx[pv[nd[lo]] := -1], pv, hk, nd, lo + 1)
  {
    var n2 := nx[pv[nd[lo]] := -1];
    forall k | 0 <= k < NHASH ensures n2[k] == Ref(nd, Older(hk, lo + 1, |hk|, k)) {
      EvictHead(nx, pv, hk, nd, lo, k);
    }
    forall x | lo + 1 <= x < |hk| ensures n2[nd[x]] == Ref(nd, Older(hk, lo + 1, x, hk[x])) {
      EvictNext(nx, pv, hk, nd, lo, x);
    }
  }

  // ----- filing a new position

  lemma OlderPush(hk: seq<nat>, lo: nat, x: nat, k: nat, h: nat)
    requires lo <= x <= |hk|
    ensures Older(hk + [h], lo, x, k) == Older(hk, lo, x, k)
  {
  }

  lemma {:induction false} NewerPush(hk: seq<nat>, x: nat, k: nat, h: nat)
    requires x <= |hk|
    ensures Newer(hk + [h], x, k) == if Newer(hk, x, k) == -1 && h == k then |hk| else Newer(hk, x, k)
    decreases |hk| - x
  {
    if x < |hk| {
      NewerPush(hk, x + 1, k, h);
    }
  }

  function PushNext(nx: seq<int>, cp: nat, h: nat): seq<int>
    requires |nx| == SIZE && cp < SIZE && h < NHASH
  {
    nx[cp := nx[h]][h := cp]
  }

  function PushPrev(nx: seq<int>, pv: seq<int>, cp: nat, h: nat): seq<int>
    requires |nx| == |pv| == SIZE && cp < SIZE && h < NHASH && -1 <= nx[h] < SIZE
  {
    if nx[h] == -1 then pv[cp := h] else pv[cp := h][nx[h] := cp]
  }

  /** `cp` is a ring node no position of the window uses. */
  ghost predicate Free(nd: seq<nat>, lo: nat, cp: nat) {
    NHASH <= cp < SIZE && forall x :: lo <= x < |nd| ==> nd[x] != cp
  }

  lemma PushHeadItem(nx: seq<int>, pv: seq<int>, hk: seq<nat>, nd: seq<nat>, lo: nat, h: nat, cp: nat, k: nat)
    requires Linked(nx, pv, hk, nd, lo) && h < NHASH && Free(nd, lo, cp) && k < NHASH
    ensures PushNext(nx, cp, h)[k] == Ref(nd + [cp], Older(hk + [h], lo, |hk| + 1, k))
  {
    OlderPush(hk, lo, |hk|, k, h);
  }

  lemma PushNextItem(nx: seq<int>, pv: seq<int>, hk: seq<nat>, nd: seq<nat>, lo: nat, h: nat, cp: nat, x: nat)
    requires Linked(nx, pv, hk, nd, lo) && h < NHASH && Free(nd, lo, cp) && lo <= x <= |hk|
    ensures PushNext(nx, cp, h)[(nd + [cp])[x]] == Ref(nd + [cp], Older(hk + [h], lo, x, (hk + [h])[x]))
  {
    OlderPush(hk, lo, x, (hk + [h])[x], h);
  }

  lemma PushPrevItem(nx: seq<int>, pv: seq<int>, hk: seq<nat>, nd: seq<nat>, lo: nat, h: nat, cp: nat, x: nat)
    requires Linked(nx, pv, hk, nd, lo) && h < NHASH && Free(nd, lo, cp) && lo <= x <= |hk|
    ensures -1 <= nx[h] < SIZE
    ensures PushPrev(nx, pv, cp, h)[(nd + [cp])[x]] == Back(hk + [h], nd + [cp], x)
  {
    var y := Older(hk, lo, |hk|, h);
    assert nx[h] == Ref(nd, y);
    if x < |hk| {
      NewerPush(hk, x + 1, hk[x], h);
      assert pv[nd[x]] == Back(hk, nd, x);
      NewestOfList(hk, lo, x, h);
    }
  }

  /** Only the newest position of list h has no newer neighbour there. */
  lemma NewestOfList(hk: seq<nat>, lo: nat, x: nat, h: nat)
    requires lo <= x < |hk|
    ensures (hk[x] == h && Newer(hk, x + 1, h) == -1) <==> Older(hk, lo, |hk|, h) == x
  {
  }

  lemma Push(nx: seq<int>, pv: seq<int>, hk: seq<nat>, nd: seq<nat>, lo: nat, h: nat, cp: nat)
    requires Linked(nx, pv, hk, nd, lo) && h < NHASH && Free(nd, lo, cp)
    ensures -1 <= nx[h] < SIZE
    ensures Linked(PushNext(nx, cp, h), PushPrev(nx, pv, cp, h), hk + [h], nd + [cp], lo)
  {
    var hk2, nd2 := hk + [h], nd + [cp];
    PushPrevItem(nx, pv, hk, nd, lo, h, cp, |hk|);
    assert Filed(hk2, nd2, lo);
    var n2, p2 := PushNext(nx, cp, h), PushPrev(nx, pv, cp, h);
    forall k | 0 <= k < NHASH ensures n2[k] == Ref(nd2, Older(hk2, lo, |hk2|, k)) {
      PushHeadItem(nx, pv, hk, nd, lo, h, cp, k);
    }
    forall x | lo <= x < |hk2| ensures n2[nd2[x]] == Ref(nd2, Older(hk2, lo, x, hk2[x])) {
      PushNextItem(nx, pv, hk, nd, lo, h, cp, x);
    }
    forall x | lo <= x < |hk2| ensures p2[nd2[x]] == Back(hk2, nd2, x) {
      PushPrevItem(nx, pv, hk, nd, lo, h, cp, x);
    }
  }
}
