/**
  qsort: quicksort with partitioning from both ends, over an array of any type and any comparator.

  The comparator is given the number of the call besides the two elements, so that it may answer as it likes, the
  same question differently each time.  Only the order of the result needs it to be an order.
 */
module Qsort {
  /** The comparator answers alike each time, and x <= y is a total preorder. */
  ghost predicate Orders<T(!new)>(cmp: (nat, T, T) -> int) {
    (forall k, x, y {:trigger cmp(k, x, y)} :: cmp(k, x, y) == cmp(0, x, y)) &&
    (forall x, y {:trigger Le(cmp, x, y)} :: cmp(0, x, y) < 0 <==> !Le(cmp, y, x)) &&
    forall x, y, z {:trigger Le(cmp, x, y), Le(cmp, y, z)} :: Le(cmp, x, y) && Le(cmp, y, z) ==> Le(cmp, x, z)
  }

  predicate Le<T(!new)>(cmp: (nat, T, T) -> int, x: T, y: T) { cmp(0, x, y) <= 0 }

  /** p is no less than one of x and y and no more than the other. */
  predicate Median<T(!new)>(cmp: (nat, T, T) -> int, p: T, x: T, y: T) {
    (Le(cmp, x, p) && Le(cmp, p, y)) || (Le(cmp, y, p) && Le(cmp, p, x))
  }

  ghost function Values<T>(s: seq<T>, lo: nat, hi: nat): set<T>
    requires hi <= |s|
  {
    set k {:trigger s[k]} | lo <= k < hi :: s[k]
  }

  /** t is a rearrangement of s within lo up to hi. */
  ghost predicate Rearranged<T>(s: seq<T>, t: seq<T>, lo: nat, hi: nat) {
    hi <= |s| == |t| && multiset(t) == multiset(s) &&
    (forall k {:trigger t[k]} :: 0 <= k < |t| && !(lo <= k < hi) ==> t[k] == s[k]) &&
    forall k {:trigger t[k]} :: lo <= k < hi ==> t[k] in Values(s, lo, hi)
  }

  lemma RearrangedSelf<T>(s: seq<T>, lo: nat, hi: nat)
    requires hi <= |s|
    ensures Rearranged(s, s, lo, hi)
  {
  }

  lemma SwapRearranges<T>(s: seq<T>, t: seq<T>, u: seq<T>, lo: nat, hi: nat, i: nat, j: nat)
    requires lo <= i < hi && lo <= j < hi && Rearranged(s, t, lo, hi) && |u| == |t| && multiset(u) == multiset(t)
    requires u[i] == t[j] && u[j] == t[i] && forall k {:trigger u[k]} :: 0 <= k < |u| && k != i && k != j ==>
             u[k] == t[k]
    ensures Rearranged(s, u, lo, hi)
  {
    forall k | lo <= k < hi ensures u[k] in Values(s, lo, hi) {
      assert t[k] in Values(s, lo, hi) && t[i] in Values(s, lo, hi) && t[j] in Values(s, lo, hi);
    }
  }

  lemma RearrangedTwice<T>(s: seq<T>, t: seq<T>, u: seq<T>, lo: nat, hi: nat, c: nat, d: nat)
    requires lo <= c && d <= hi && Rearranged(s, t, lo, hi) && Rearranged(t, u, c, d)
    ensures Rearranged(s, u, lo, hi)
  {
    forall k | lo <= k < hi ensures u[k] in Values(s, lo, hi) {
      if c <= k < d {
        var m :| c <= m < d && t[m] == u[k];
        assert t[m] in Values(s, lo, hi);
      } else {
        assert u[k] == t[k];
      }
    }
  }

  /** Of two elements of lo up to hi the first is no more than the second, unless both lie in one of two stretches. */
  ghost predicate Placed<T(!new)>(cmp: (nat, T, T) -> int, s: seq<T>, lo: nat, hi: nat, c: int, p: int, q: int, d: int)
    requires hi <= |s|
  {
    forall x, y {:trigger s[x], s[y]} :: lo <= x < y < hi && !(c <= x && y < p) && !(q <= x && y < d) ==>
        Le(cmp, s[x], s[y])
  }

  predicate Sorted<T(!new)>(cmp: (nat, T, T) -> int, s: seq<T>, lo: nat, hi: nat)
    requires hi <= |s|
  {
    forall x, y {:trigger s[x], s[y]} :: lo <= x < y < hi ==> Le(cmp, s[x], s[y])
  }

  /** Where the value t has at k was in s. */
  lemma Source<T>(s: seq<T>, t: seq<T>, e: nat, f: nat, k: int) returns (m: int)
    requires Rearranged(s, t, e, f) && 0 <= k < |t|
    ensures 0 <= m < |s| && s[m] == t[k] && if e <= k < f then e <= m < f else m == k
  {
    m := k;
    if e <= k < f {
      assert t[k] in Values(s, e, f);
      m :| e <= m < f && s[m] == t[k];
    }
  }

  /** Rearranging one of the stretches leaves the rest placed. */
  lemma StaysPlaced<T(!new)>(cmp: (nat, T, T) -> int, s: seq<T>, t: seq<T>, lo: nat, hi: nat, c: int, p: int, q: int,
      d: int, e: nat, f: nat)
    requires hi <= |s| && lo <= c <= p <= q && p <= hi && d <= hi && Placed(cmp, s, lo, hi, c, p, q, d)
    requires ((e == c && f == p) || (e == q && f == d)) && Rearranged(s, t, e, f)
    ensures Placed(cmp, t, lo, hi, c, p, q, d)
  {
    forall x, y {:trigger t[x], t[y]} | lo <= x < y < hi && !(c <= x && y < p) && !(q <= x && y < d)
      ensures Le(cmp, t[x], t[y]) {
      var m := Source(s, t, e, f, x);
      var n := Source(s, t, e, f, y);
      assert lo <= m < n < hi;
    }
  }

  class Sorter<T(!new)> {
    const a: array<T>
    const cmp: (nat, T, T) -> int
    var calls: nat

    constructor (data: array<T>, comparator: (nat, T, T) -> int)
      ensures a == data && cmp == comparator
    {
      a := data;
      cmp := comparator;
      calls := 0;
    }

    method Compare(x: T, y: T) returns (c: int)
      modifies this
      ensures exists k: nat {:trigger cmp(k, x, y)} :: c == cmp(k, x, y)
    {
      c := cmp(calls, x, y);
      calls := calls + 1;
    }

    method Swap(i: nat, j: nat)
      requires i < a.Length && j < a.Length
      modifies a
      ensures a[i] == old(a[j]) && a[j] == old(a[i])
      ensures forall k {:trigger a[k]} :: 0 <= k < a.Length && k != i && k != j ==> a[k] == old(a[k])
      ensures forall was, lo: nat, hi: nat {:trigger Rearranged(was, a[..], lo, hi)} ::
                lo <= i < hi && lo <= j < hi && Rearranged(was, old(a[..]), lo, hi) ==> Rearranged(was, a[..], lo, hi)
    {
      ghost var t := a[..];
      a[i], a[j] := a[j], a[i];
      forall was, lo: nat, hi: nat | lo <= i < hi && lo <= j < hi && Rearranged(was, t, lo, hi)
        ensures Rearranged(was, a[..], lo, hi) {
        SwapRearranges(was, t, a[..], lo, hi, i, j);
      }
    }

    /** The choice of the element to partition about, from three samples. */
    method Pivot(lo: nat, n: nat) returns (p: nat)
      requires n > 10 && lo + n <= a.Length
      modifies this
      ensures lo <= p < lo + n
      ensures var i, j, k := lo + n / 6, lo + 3 * (n / 6), lo + 5 * (n / 6);
              (p == i || p == j || p == k) &&
              (Orders(cmp) ==> Median(cmp, a[p], a[if p == i then j else i], a[if p == k then j else k]))
    {
      var s := n / 6;
      var i, j, k := lo + s, lo + s + (s + s), lo + s + (s + s) + (s + s);
      var ij := Compare(a[i], a[j]);
      if ij < 0 {
        var ik := Compare(a[i], a[k]);
        if ik < 0 {
          var jk := Compare(a[j], a[k]);
          return if jk < 0 then j else k;
        }
        return i;
      }
      var jk := Compare(a[j], a[k]);
      if jk < 0 {
        var ik := Compare(a[i], a[k]);
        return if ik < 0 then i else k;
      }
      return j;
    }

    ghost predicate Below(lo: int, hi: int, v: T)
      requires 0 <= lo && hi <= a.Length
      reads a
    {
      forall k {:trigger a[k]} :: lo <= k < hi ==> Le(cmp, a[k], v)
    }

    ghost predicate Above(lo: int, hi: int, v: T)
      requires 0 <= lo && hi <= a.Length
      reads a
    {
      forall k {:trigger a[k]} :: lo <= k < hi ==> Le(cmp, v, a[k])
    }

    /** Partitions the n > 1 elements at lo about the first: what is left of it is no more, what is right no less. */
    method Partition(lo: nat, n: nat) returns (p: nat)
      requires n > 1 && lo + n <= a.Length
      modifies this, a
      ensures lo <= p < lo + n && Rearranged(old(a[..]), a[..], lo, lo + n)
      ensures Orders(cmp) ==> Below(lo, p, a[p]) && Above(p, lo + n, a[p])
    {
      ghost var was := a[..];
      var i, pn := lo, lo + n;
      var j := pn;
      while true
        invariant lo <= i <= j <= pn && i < pn && (i == lo ==> j == pn) && Rearranged(was, a[..], lo, pn)
        invariant Orders(cmp) ==> Below(lo, i + 1, a[lo]) && Above(j, pn, a[lo])
        decreases j
      {
        i, j := Scan(lo, pn, i, j);
        if j < i { break; }
        Swap(i, j);
      }
      Swap(lo, j);
      p := j;
    }

    /** Moves i up past what is less than the first element and j down past what is greater. */
    method Scan(lo: nat, pn: nat, i0: nat, j0: nat) returns (i: nat, j: nat)
      requires lo <= i0 <= j0 <= pn <= a.Length && i0 < pn && (i0 == lo ==> j0 == pn)
      modifies this
      ensures i0 < i <= pn && lo <= j < j0
      ensures j >= i ==> i < pn
      ensures Orders(cmp) ==> Below(i0 + 1, i, a[lo]) && Above(j + 1, j0, a[lo])
      ensures Orders(cmp) ==> (i < pn ==> Le(cmp, a[lo], a[i])) && Le(cmp, a[j], a[lo])
    {
      i, j := i0 + 1, j0 - 1;
      while i < pn
        invariant i0 < i <= pn
        invariant Orders(cmp) ==> Below(i0 + 1, i, a[lo])
      {
        var c := Compare(a[i], a[lo]);
        if c >= 0 { break; }
        i := i + 1;
      }
      while j > lo
        invariant lo <= j < j0
        invariant Orders(cmp) ==> Above(j + 1, j0, a[lo])
      {
        var c := Compare(a[j], a[lo]);
        if c <= 0 { break; }
        j := j - 1;
      }
    }

    lemma AboutPlaced(c: nat, p: nat, d: nat)
      requires Orders(cmp) && c <= p < d <= a.Length && Below(c, p, a[p]) && Above(p, d, a[p])
      ensures Placed(cmp, a[..], c, d, c, p, p + 1, d)
    {
      forall x, y {:trigger a[..][x], a[..][y]} | c <= x < y < d && !(c <= x && y < p) && !(p + 1 <= x && y < d)
        ensures Le(cmp, a[..][x], a[..][y]) {
        assert Le(cmp, a[x], a[p]) && Le(cmp, a[p], a[y]);
      }
    }

    /** Chooses, and partitions: two stretches are left to sort. */
    method Split(c: nat, m: nat) returns (p: nat)
      requires m > 1 && c + m <= a.Length
      modifies this, a
      ensures c <= p < c + m && Rearranged(old(a[..]), a[..], c, c + m)
      ensures Orders(cmp) ==> Placed(cmp, a[..], c, c + m, c, p, p + 1, c + m)
    {
      ghost var s := a[..];
      p := c + m / 2;
      if m > 10 { p := Pivot(c, m); }
      RearrangedSelf(s, c, c + m);
      Swap(c, p);
      ghost var t := a[..];
      p := Partition(c, m);
      RearrangedTwice(s, t, a[..], c, c + m, c, c + m);
      if Orders(cmp) { AboutPlaced(c, p, c + m); }
    }

    /** The state of the loop of Qsorts: c up to d is left to sort. */
    ghost predicate Left(was: seq<T>, lo: nat, hi: nat, c: int, d: int)
      reads a
    {
      lo <= c && d <= hi && Rearranged(was, a[..], lo, hi) && (Orders(cmp) ==> Placed(cmp, a[..], lo, hi, c, d, hi, hi))
    }

    method Qsorts(lo: nat, n: nat)
      requires lo + n <= a.Length
      modifies this, a
      ensures Rearranged(old(a[..]), a[..], lo, lo + n)
      ensures Orders(cmp) ==> Sorted(cmp, a[..], lo, lo + n)
      decreases n, 1
    {
      ghost var was, hi := a[..], lo + n;
      var c, m := lo, n;
      while m > 1
        invariant Left(was, lo, hi, c, c + m)
        decreases m
      {
        c, m := Round(was, lo, hi, c, m);
      }
    }

    /** One round of the loop: the stretch is split and one side of it is sorted. */
    method Round(ghost was: seq<T>, ghost lo: nat, ghost hi: nat, c0: nat, m0: nat) returns (c: nat, m: nat)
      requires m0 > 1 && c0 + m0 <= a.Length && Left(was, lo, hi, c0, c0 + m0)
      modifies this, a
      ensures m < m0 && Left(was, lo, hi, c, c + m)
      decreases m0, 0
    {
      ghost var d, s := c0 + m0, a[..];
      var p := Split(c0, m0);
      ghost var t := a[..];
      RearrangedTwice(was, s, t, lo, hi, c0, d);
      if Orders(cmp) { SplitPlaced(s, t, lo, hi, c0, p, d); }
      var j := p - c0;
      c, m := c0, m0 - j - 1;
      if j >= m {
        Qsorts(c, j);
        SidePlaced(was, t, a[..], lo, hi, c, p, d, c, p);
        c := c + j + 1;
      } else {
        Qsorts(c + j + 1, m);
        SidePlaced(was, t, a[..], lo, hi, c, p, d, p + 1, d);
        m := j;
      }
    }

    lemma SplitPlaced(s: seq<T>, t: seq<T>, lo: nat, hi: nat, c: nat, p: nat, d: nat)
      requires lo <= c <= p < d <= hi <= |s| && Rearranged(s, t, c, d)
      requires Placed(cmp, s, lo, hi, c, d, hi, hi) && Placed(cmp, t, c, d, c, p, p + 1, d)
      ensures Placed(cmp, t, lo, hi, c, p, p + 1, d)
    {
      StaysPlaced(cmp, s, t, lo, hi, c, d, hi, hi, c, d);
    }

    lemma SidePlaced(was: seq<T>, t: seq<T>, u: seq<T>, lo: nat, hi: nat, c: nat, p: nat, d: nat, e: nat, f: nat)
      requires lo <= c <= p < d <= hi && Rearranged(was, t, lo, hi)
      requires ((e == c && f == p) || (e == p + 1 && f == d)) && Rearranged(t, u, e, f)
      requires Orders(cmp) ==> Placed(cmp, t, lo, hi, c, p, p + 1, d) && Sorted(cmp, u, e, f)
      ensures Rearranged(was, u, lo, hi)
      ensures Orders(cmp) ==>
                if e == c && f == p then Placed(cmp, u, lo, hi, p + 1, d, hi, hi)
                    else Placed(cmp, u, lo, hi, c, p, hi, hi)
    {
      RearrangedTwice(was, t, u, lo, hi, e, f);
      if Orders(cmp) { StaysPlaced(cmp, t, u, lo, hi, c, p, p + 1, d, e, f); }
    }

    /** qsort, whatever the comparator: the array is permuted, and sorted if the comparator orders its elements. */
    method Qsort()
      modifies this, a
      ensures multiset(a[..]) == multiset(old(a[..]))
      ensures Orders(cmp) ==> Sorted(cmp, a[..], 0, a.Length)
    {
      Qsorts(0, a.Length);
    }
  }
}
