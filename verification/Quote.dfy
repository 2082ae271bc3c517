/**
  Shell-style quoting: how much of a string fits a buffer once quoted, and writing it.
 */
module Quote {
  import opened Basics
  import opened Runes

  const APOSTROPHE: rune := 39

  /** A rune of the input, the bytes it takes and where it starts. */
  datatype Item = Item(c: rune, w: nat, at: nat)

  datatype Quoteinfo = Quoteinfo(quoted: bool, nrunesin: nat, nbytesin: nat, nrunesout: nat, nbytesout: nat)

  /** The first m bytes of s are the items. */
  ghost predicate Reads(s: seq<byte>, items: seq<Item>, m: nat) {
    m <= |s| && m == EndOf(items) &&
    forall i {:trigger items[i]} :: 0 <= i < |items| ==>
      items[i].at < |s| && Decode(s, items[i].at) == (items[i].c, items[i].w) && items[i].at == EndOf(items[..i])
  }

  function EndOf(items: seq<Item>): nat {
    if items == [] then 0 else items[|items| - 1].at + items[|items| - 1].w
  }

  function Front(items: seq<Item>): seq<Item>
    requires items != []
  {
    items[..|items| - 1]
  }

  function Doubled(c: rune): nat { if c == APOSTROPHE then 1 else 0 }

  /** The bytes the items take between quotes, as predicted. */
  function Cost(items: seq<Item>): nat {
    if items == [] then 0 else Cost(Front(items)) + items[|items| - 1].w + Doubled(items[|items| - 1].c)
  }

  /** The runes the items become between quotes. */
  function Count(items: seq<Item>): nat {
    if items == [] then 0 else Count(Front(items)) + 1 + Doubled(items[|items| - 1].c)
  }

  /** The bytes that are written for the items, with apostrophes doubled or not. */
  function Out(items: seq<Item>, double: bool): seq<byte> {
    if items == [] then []
    else var c := items[|items| - 1].c;
         Out(Front(items), double) + Written(c, double)
  }

  /** The items that are bad bytes. */
  function Bad(s: seq<byte>, items: seq<Item>): nat {
    if items == [] then 0
    else var i := items[|items| - 1]; Bad(s, Front(items)) + if i.at < |s| && BadAt(s, i.at) then 1 else 0
  }

  /** A rune that calls for quotes. */
  predicate Needs(doquote: rune -> bool, c: rune) { c <= 32 || c == APOSTROPHE || doquote(c) }

  ghost predicate SomeNeeds(doquote: rune -> bool, items: seq<Item>) {
    exists i {:trigger items[i]} :: 0 <= i < |items| && Needs(doquote, items[i].c)
  }

  lemma ReadsMore(s: seq<byte>, items: seq<Item>, m: nat)
    requires Reads(s, items, m) && m < |s|
    ensures var (c, w) := Decode(s, m); Reads(s, items + [Item(c, w, m)], m + w) && w > 0
  {
    DecodeInside(s, m);
    var more := items + [Item(Decode(s, m).0, Decode(s, m).1, m)];
    forall i | 0 <= i < |more|
      ensures more[i].at < |s| && Decode(s, more[i].at) == (more[i].c, more[i].w) && more[i].at == EndOf(more[..i]) {
      assert more[..i] == items[..i];
      if i < |items| { assert more[i] == items[i]; } else { assert items[..i] == items; }
    }
  }

  lemma CostMore(items: seq<Item>, i: Item)
    ensures Cost(items + [i]) == Cost(items) + i.w + Doubled(i.c)
    ensures Count(items + [i]) == Count(items) + 1 + Doubled(i.c)
  {
    assert Front(items + [i]) == items;
  }

  /** _quotesetup for a string, into bytes.  What it accepts fits nout once quoted, and the next rune would not. */
  method QuoteSetup(s: seq<byte>, nout: nat, doquote: rune -> bool, sharp: bool)
      returns (q: Quoteinfo, ghost items: seq<Item>)
    requires forall i {:trigger s[i]} :: 0 <= i < |s| ==> s[i] != 0
    ensures q.nbytesin <= |s| && q.nbytesout <= nout && (s == [] && nout >= 2 ==> q.quoted)
    ensures Reads(s, items, q.nbytesin) && q.nrunesin == |items|
    ensures q.nbytesout == Cost(items) + (if q.quoted then 2 else 0) <= nout
    ensures q.nrunesout == Count(items) + (if q.quoted then 2 else 0)
    ensures SomeNeeds(doquote, items) || ((sharp || s == []) && nout >= 2) ==> q.quoted
    ensures q.quoted ==> sharp || s == [] || SomeNeeds(doquote, items) ||
                         (q.nbytesin < |s| && Needs(doquote, Decode(s, q.nbytesin).0))
    ensures q.nbytesin < |s| ==>
              var (c, w) := Decode(s, q.nbytesin);
              Cost(items) + w + Doubled(c) + (if q.quoted || sharp || Needs(doquote, c) then 2 else 0) > nout
  {
    q := Quoteinfo(false, 0, 0, 0, 0);
    items := [];
    if sharp || s == [] {
      if nout < 2 {
        if s != [] { DecodeInside(s, 0); }
        return;
      }
      q := q.(quoted := true, nbytesout := 2, nrunesout := 2);
    }
    var z := s + [0];
    while true
      invariant Reads(s, items, q.nbytesin) && q.nrunesin == |items|
      invariant q.nbytesout == Cost(items) + (if q.quoted then 2 else 0) <= nout
      invariant q.nrunesout == Count(items) + (if q.quoted then 2 else 0)
      invariant SomeNeeds(doquote, items) || sharp || s == [] ==> q.quoted
      invariant q.quoted ==> sharp || s == [] || SomeNeeds(doquote, items)
      decreases |s| - q.nbytesin
    {
      var m := q.nbytesin;
      var c, w := CharToRune(z, m);
      SameDecode(s, m);
      if c == 0 {
        NoNul(s, m);
        break;
      }
      AtEnd(s, m);
      ReadsMore(s, items, m);
      ghost var item := Item(c, w, m);
      CostMore(items, item);
      if q.nbytesout + w > nout { break; }
      if c <= 32 || c == APOSTROPHE || doquote(c) {
        if !q.quoted {
          if 1 + q.nbytesout + w + 1 > nout { break; }
          q := q.(nrunesout := q.nrunesout + 2, nbytesout := q.nbytesout + 2, quoted := true);
        }
        if c == APOSTROPHE {
          if 1 + q.nbytesout + w > nout { break; }
          q := q.(nbytesout := q.nbytesout + 1, nrunesout := q.nrunesout + 1);
        }
      }
      MoreNeeds(doquote, items, item);
      items := items + [item];
      q := q.(nbytesin := m + w, nrunesin := q.nrunesin + 1, nbytesout := q.nbytesout + w,
               nrunesout := q.nrunesout + 1);
    }
  }

  lemma MoreNeeds(doquote: rune -> bool, items: seq<Item>, i: Item)
    ensures SomeNeeds(doquote, items + [i]) <==> SomeNeeds(doquote, items) || Needs(doquote, i.c)
  {
    var more := items + [i];
    assert more[|items|] == i;
    assert forall k {:trigger items[k]} :: 0 <= k < |items| ==> more[k] == items[k];
  }

  /** The NUL after a string changes nothing. */
  lemma SameDecode(s: seq<byte>, p: nat)
    requires p <= |s|
    ensures Decode(s + [0], p) == Decode(s, p)
  {
  }

  lemma NoNul(s: seq<byte>, p: nat)
    requires p <= |s| && Decode(s, p).0 == 0 && forall i {:trigger s[i]} :: 0 <= i < |s| ==> s[i] != 0
    ensures p == |s|
  {
  }

  lemma AtEnd(s: seq<byte>, p: nat)
    requires p <= |s| && Decode(s, p).0 != 0
    ensures p < |s|
  {
  }

  // ----- writing

  /** Item i is written: the bytes left up to me are enough for fullrune. */
  predicate Passes(s: seq<byte>, me: nat, i: Item) {
    i.at < |s| && i.at < me <= |s| && (s[i.at] < 0x80 || me - i.at >= 4 || FullRune(s[..me], i.at))
  }

  /** The first of the items, from k on, that is not written, or their number. */
  function Stop(s: seq<byte>, me: nat, items: seq<Item>, k: nat): (e: nat)
    requires k <= |items|
    ensures k <= e <= |items|
    decreases |items| - k
  {
    if k < |items| && Passes(s, me, items[k]) then Stop(s, me, items, k + 1) else k
  }

  class Fmt {
    /** All the bytes written, and how many there is room for unless the buffer can be flushed. */
    var to: seq<byte>
    const stop: nat
    const flush: bool

    ghost predicate Room(n: nat)
      reads this
    {
      flush || |to| + n <= stop
    }

    method PutRune(r: rune) returns (ok: bool)
      modifies this
      ensures ok == old(Room(|Encode(r)|))
      ensures to == if ok then old(to) + Encode(r) else old(to)
    {
      var str := new byte[4];
      var n := RuneToChar(str, r);
      if |to| + 4 > stop && |to| + n > stop && !flush { return false; }
      to := to + str[..n];
      ok := true;
    }

    method PutItem(r: rune, double: bool) returns (ok: bool)
      modifies this
      ensures ok == old(Room(|Written(r, double)|))
      ensures ok ==> to == old(to) + Written(r, double)
    {
      ok := PutRune(r);
      if ok && double && r == APOSTROPHE {
        ok := PutRune(r);
      }
    }

    /** The loop of qstrfmt, which doubles apostrophes, and of _fmtcpy, which does not. */
    method Runes(s: seq<byte>, me: nat, nrunes: nat, double: bool, ghost items: seq<Item>) returns (ok: bool)
      requires Reads(s, items, me) && nrunes == |items| && Room(0)
      modifies this
      ensures var x := After(old(to), items, Stop(s, me, items, 0), double);
              ok == (flush || |x| <= stop) && (ok ==> to == x)
    {
      var m, nc := 0, nrunes;
      ghost var k, e, base := 0, Stop(s, me, items, 0), to;
      ok := true;
      assert items[..0] == [];
      while nc > 0
        invariant 0 <= k <= e <= |items| && nc == |items| - k && m == EndOf(items[..k])
        invariant Stop(s, me, items, k) == e
        invariant Room(0) && to == After(base, items, k, double)
      {
        ghost var item := items[k];
        ItemAt(s, items, me, k);
        var go, r, w := NextRune(s, me, m, item);
        if !go { break; }
        OneMore(base, items, k, e, double);
        ok := PutItem(r, double);
        if !ok { return; }
        m, nc, k := m + w, nc - 1, k + 1;
      }
    }

    /** qstrfmt. */
    method QStrFmt(s: seq<byte>, q: Quoteinfo, ghost items: seq<Item>) returns (ok: bool)
      requires Reads(s, items, q.nbytesin) && q.nrunesin == |items| && Room(0)
      modifies this
      ensures var x := After(old(to) + [APOSTROPHE], items, Stop(s, q.nbytesin, items, 0), true) + [APOSTROPHE];
              ok == (flush || |x| <= stop) && (ok ==> to == x)
    {
      ok := PutRune(APOSTROPHE);
      if ok { ok := Runes(s, q.nbytesin, q.nrunesin, true, items); }
      if ok { ok := PutRune(APOSTROPHE); }
    }

    /** quotestrfmt of a string that no NUL is in, without padding. */
    method Quotestrfmt(s: seq<byte>, doquote: rune -> bool, sharp: bool)
        returns (ok: bool, q: Quoteinfo, ghost items: seq<Item>)
      requires Room(0) && forall i {:trigger s[i]} :: 0 <= i < |s| ==> s[i] != 0
      modifies this
      ensures Reads(s, items, q.nbytesin) && q.nbytesout <= old(Limit())
      ensures var x := Printed(old(to), s, items, q); ok == (flush || |x| <= stop) && (ok ==> to == x)
      ensures ValidFrom(s, 0) ==> ok && |to| == |old(to)| + q.nbytesout
      ensures ValidFrom(s, 0) && |Form(s, doquote, sharp)| <= old(Limit()) ==> to == old(to) + Form(s, doquote, sharp)
    {
      var outlen := if flush then 0x7FFFFFFF else stop - |to|;
      q, items := QuoteSetup(s, outlen, doquote, sharp);
      ghost var base := to;
      if q.quoted {
        ok := QStrFmt(s, q, items);
      } else {
        ok := Runes(s, q.nbytesin, q.nrunesin, false, items);
      }
      if ValidFrom(s, 0) {
        PrintedValid(base, s, items, q, doquote);
        if |Form(s, doquote, sharp)| <= outlen { AllFits(base, s, items, q, doquote, sharp, outlen); }
      }
    }

    ghost function Limit(): nat
      requires Room(0)
      reads this
    {
      if flush then 0x7FFFFFFF else stop - |to|
    }
  }

  /** base with the first k items written after it. */
  function After(base: seq<byte>, items: seq<Item>, k: nat, double: bool): seq<byte>
    requires k <= |items|
  {
    base + Out(items[..k], double)
  }

  lemma OneMore(base: seq<byte>, items: seq<Item>, k: nat, e: nat, double: bool)
    requires k < |items| && e <= |items|
    ensures After(base, items, k + 1, double) == After(base, items, k, double) + Written(items[k].c, double)
    ensures k < e ==> |After(base, items, k + 1, double)| <= |After(base, items, e, double)|
  {
    OutMore(items, k, double);
    if k < e { OutGrows(items, k + 1, e, double); }
  }

  /** What is written for a rune. */
  function Written(c: rune, double: bool): seq<byte> { Encode(c) + if double && c == APOSTROPHE then Encode(c) else [] }

  /** Decodes the rune at m unless it may go on past me. */
  method NextRune(s: seq<byte>, me: nat, m: nat, ghost item: Item) returns (go: bool, r: rune, w: nat)
    requires m == item.at < me <= |s| && Decode(s, m) == (item.c, item.w)
    ensures go == Passes(s, me, item) && (go ==> r == item.c && w == item.w)
  {
    go, r, w := true, s[m], 1;
    if r >= 0x80 {
      var full := me - m >= 4;
      if !full { full := FullRuneOf(s[..me], m); }
      if !full { return false, r, w; }
      SameDecode(s, m);
      r, w := CharToRune(s + [0], m);
    }
  }

  lemma ItemAt(s: seq<byte>, items: seq<Item>, m: nat, k: nat)
    requires Reads(s, items, m) && k < |items|
    ensures var i := items[k]; i.at == EndOf(items[..k]) < |s| && i.at + i.w == EndOf(items[..k + 1]) <= m
    ensures var i := items[k];
            Decode(s, i.at) == (i.c, i.w) && i.w > 0 && (s[i.at] < 0x80 ==> i.c == s[i.at] && i.w == 1)
  {
    DecodeInside(s, items[k].at);
    assert items[..k + 1][k] == items[k];
    EndsGrow(s, items, m, k + 1);
  }

  lemma {:induction false} EndsGrow(s: seq<byte>, items: seq<Item>, m: nat, k: nat)
    requires Reads(s, items, m) && k <= |items|
    ensures EndOf(items[..k]) <= m
    decreases |items| - k
  {
    if k == |items| {
      assert items[..k] == items;
    } else {
      EndsGrow(s, items, m, k + 1);
      assert items[..k + 1][k] == items[k];
    }
  }

  lemma OutMore(items: seq<Item>, k: nat, double: bool)
    requires k < |items|
    ensures var c := items[k].c;
            Out(items[..k + 1], double) == Out(items[..k], double) + Written(c, double)
  {
    assert Front(items[..k + 1]) == items[..k];
  }

  lemma {:induction false} OutGrows(items: seq<Item>, k: nat, e: nat, double: bool)
    requires k <= e <= |items|
    ensures |Out(items[..k], double)| <= |Out(items[..e], double)|
    decreases e - k
  {
    if k < e {
      OutMore(items, k, double);
      OutGrows(items, k + 1, e, double);
    }
  }

  // ----- the quoted form of a string

  /** The predicted size of the runes from p on, without quotes around them. */
  function TotalFrom(s: seq<byte>, p: nat): nat
    requires p <= |s|
    decreases |s| - p
  {
    if p == |s| then 0
    else DecodeInside(s, p); var (c, w) := Decode(s, p); w + Doubled(c) + TotalFrom(s, p + w)
  }

  predicate NeedsFrom(s: seq<byte>, p: nat, doquote: rune -> bool)
    requires p <= |s|
    decreases |s| - p
  {
    p < |s| && (DecodeInside(s, p); var (c, w) := Decode(s, p); Needs(doquote, c) || NeedsFrom(s, p + w, doquote))
  }

  /** One step of what is said of the runes from p on. */
  lemma FromStep(s: seq<byte>, p: nat, c: rune, w: nat, doquote: rune -> bool)
    requires p < |s| && Decode(s, p) == (c, w)
    ensures p + w <= |s| && w > 0 && TotalFrom(s, p) == w + Doubled(c) + TotalFrom(s, p + w)
    ensures NeedsFrom(s, p, doquote) <==> Needs(doquote, c) || NeedsFrom(s, p + w, doquote)
    ensures BadFrom(s, p) == (if BadAt(s, p) then 1 else 0) + BadFrom(s, p + w)
  {
    DecodeInside(s, p);
  }

  /** The items and the rest of s make up the whole. */
  lemma {:induction false} WholeTotal(s: seq<byte>, items: seq<Item>, m: nat)
    requires Reads(s, items, m)
    ensures Cost(items) + TotalFrom(s, m) == TotalFrom(s, 0) && Bad(s, items) + BadFrom(s, m) == BadFrom(s, 0)
    decreases |items|
  {
    if items != [] {
      var last := items[|items| - 1];
      ReadsFront(s, items, m);
      WholeTotal(s, Front(items), last.at);
      FromStep(s, last.at, last.c, last.w, _ => false);
    }
  }

  lemma {:induction false} WholeNeeds(s: seq<byte>, items: seq<Item>, m: nat, doquote: rune -> bool)
    requires Reads(s, items, m)
    ensures SomeNeeds(doquote, items) || NeedsFrom(s, m, doquote) <==> NeedsFrom(s, 0, doquote)
    decreases |items|
  {
    if items != [] {
      var last := items[|items| - 1];
      ReadsFront(s, items, m);
      WholeNeeds(s, Front(items), last.at, doquote);
      MoreNeeds(doquote, Front(items), last);
      assert Front(items) + [last] == items;
      FromStep(s, last.at, last.c, last.w, doquote);
    }
  }

  lemma ReadsFront(s: seq<byte>, items: seq<Item>, m: nat)
    requires Reads(s, items, m) && items != []
    ensures Reads(s, Front(items), items[|items| - 1].at)
  {
    var front := Front(items);
    forall i | 0 <= i < |front|
      ensures front[i].at < |s| && Decode(s, front[i].at) == (front[i].c, front[i].w) &&
              front[i].at == EndOf(front[..i]) {
      assert front[i] == items[i] && front[..i] == items[..i];
    }
  }

  /** What is written is longer than predicted by two for each bad byte. */
  lemma {:induction false} OutSize(s: seq<byte>, items: seq<Item>, m: nat)
    requires Reads(s, items, m)
    ensures |Out(items, true)| == Cost(items) + 2 * Bad(s, items)
    decreases |items|
  {
    if items != [] {
      var last := items[|items| - 1];
      ReadsFront(s, items, m);
      OutSize(s, Front(items), last.at);
      var c, q, bad := DecodeStep(s, last.at);
    }
  }

  /** Without a bad byte nothing stops the output. */
  lemma {:induction false} NoStop(s: seq<byte>, items: seq<Item>, m: nat, k: nat)
    requires Reads(s, items, m) && Bad(s, items) == 0 && k <= |items|
    ensures Stop(s, m, items, k) == |items|
    decreases |items| - k
  {
    if k < |items| {
      ItemAt(s, items, m, k);
      NoneBad(s, items, m, k);
      FullWhenWhole(s, items[k].at, m);
      NoStop(s, items, m, k + 1);
    }
  }

  lemma {:induction false} NoneBad(s: seq<byte>, items: seq<Item>, m: nat, k: nat)
    requires Reads(s, items, m) && Bad(s, items) == 0 && k < |items|
    ensures !BadAt(s, items[k].at)
    decreases |items|
  {
    if k < |items| - 1 {
      ReadsFront(s, items, m);
      NoneBad(s, Front(items), items[|items| - 1].at, k);
      assert Front(items)[k] == items[k];
    }
  }

  /** fullrune is content with what holds a whole sequence. */
  lemma FullWhenWhole(s: seq<byte>, p: nat, m: nat)
    requires p < |s| && !BadAt(s, p) && p + Decode(s, p).1 <= m <= |s|
    ensures FullRune(s[..m], p)
  {
  }

  // ----- valid strings

  /** s with its apostrophes doubled. */
  function Double(s: seq<byte>): seq<byte> {
    if s == [] then []
    else var b := s[|s| - 1]; Double(s[..|s| - 1]) + if b == APOSTROPHE then [b, b] else [b]
  }

  /** What a string is quoted as. */
  function Form(s: seq<byte>, doquote: rune -> bool, sharp: bool): seq<byte> {
    if sharp || s == [] || NeedsFrom(s, 0, doquote) then [APOSTROPHE] + Double(s) + [APOSTROPHE] else s
  }

  lemma {:induction false} NeedsRunes(s: seq<byte>, p: nat, doquote: rune -> bool)
    requires p <= |s|
    ensures NeedsFrom(s, p, doquote) <==>
            exists i {:trigger DecodeFrom(s, p)[i]} :: 0 <= i < |DecodeFrom(s, p)| &&
              Needs(doquote, DecodeFrom(s, p)[i])
    decreases |s| - p
  {
    if p < |s| {
      DecodeInside(s, p);
      var c, q := Decode(s, p).0, p + Decode(s, p).1;
      NeedsRunes(s, q, doquote);
      var rs := DecodeFrom(s, p);
      assert rs[0] == c && rs[1..] == DecodeFrom(s, q);
      if NeedsFrom(s, q, doquote) {
        var i :| 0 <= i < |rs[1..]| && Needs(doquote, rs[1..][i]);
        assert rs[i + 1] == rs[1..][i];
      }
      if i :| 0 < i < |rs| && Needs(doquote, rs[i]) { assert rs[1..][i - 1] == rs[i]; }
    }
  }

  /** A string is printed as it is exactly if it is not empty, no quotes are asked for, and it has no blank or control
      character, no quote, and nothing the caller wants quoted; otherwise between quotes, its own doubled. */
  lemma FormIff(s: seq<byte>, doquote: rune -> bool, sharp: bool)
    ensures var bare := s != [] && !sharp && forall i {:trigger DecodeFrom(s, 0)[i]} :: 0 <= i < |DecodeFrom(s, 0)| ==>
              var c := DecodeFrom(s, 0)[i]; c > 32 && c != 39 && !doquote(c);
            Form(s, doquote, sharp) == if bare then s else [39] + Double(s) + [39]
  {
    NeedsRunes(s, 0, doquote);
  }

  /** What is written after base for the items accepted. */
  function Printed(base: seq<byte>, s: seq<byte>, items: seq<Item>, q: Quoteinfo): seq<byte> {
    var e := Stop(s, q.nbytesin, items, 0);
    if q.quoted then After(base + [APOSTROPHE], items, e, true) + [APOSTROPHE] else After(base, items, e, false)
  }

  lemma {:induction false} DoubleAppend(s: seq<byte>, t: seq<byte>)
    ensures Double(s + t) == Double(s) + Double(t)
    decreases |t|
  {
    if t == [] {
      assert s + t == s;
    } else {
      var front := t[..|t| - 1];
      assert (s + t)[..|s + t| - 1] == s + front;
      DoubleAppend(s, front);
    }
  }

  predicate Apart(s: seq<byte>) { forall i {:trigger s[i]} :: 0 <= i < |s| ==> s[i] != APOSTROPHE }

  lemma {:induction false} DoubleApart(s: seq<byte>)
    requires Apart(s)
    ensures Double(s) == s
  {
    if s != [] {
      assert s == s[..|s| - 1] + [s[|s| - 1]];
      DoubleApart(s[..|s| - 1]);
    }
  }

  lemma DoubleRune(c: rune)
    ensures Double(Encode(c)) == Written(c, true)
  {
    var e := Encode(c);
    if c == APOSTROPHE {
      assert e[..0] == [];
    } else {
      DoubleApart(e);
    }
  }

  lemma BytesMore(s: seq<byte>, p: nat, q: nat, c: rune)
    requires p <= q <= |s| && Encode(c) == s[p..q]
    ensures Double(s[..q]) == Double(s[..p]) + Written(c, true) && s[..q] == s[..p] + Written(c, false)
  {
    assert s[..q] == s[..p] + s[p..q];
    DoubleAppend(s[..p], s[p..q]);
    DoubleRune(c);
  }

  /** The items of a valid string are written as its bytes, apostrophes doubled or not. */
  lemma {:induction false} OutBytes(s: seq<byte>, items: seq<Item>, m: nat)
    requires Reads(s, items, m) && Bad(s, items) == 0
    ensures Out(items, true) == Double(s[..m]) && Out(items, false) == s[..m]
    decreases |items|
  {
    if items == [] {
      assert s[..m] == [];
    } else {
      var last := items[|items| - 1];
      ReadsFront(s, items, m);
      OutBytes(s, Front(items), last.at);
      var c, q, bad := DecodeStep(s, last.at);
      BytesMore(s, last.at, m, c);
    }
  }

  /** All the items of a string. */
  lemma {:induction false} AllItems(s: seq<byte>, some: seq<Item>, m: nat) returns (items: seq<Item>)
    requires Reads(s, some, m)
    ensures Reads(s, items, |s|)
    decreases |s| - m
  {
    if m == |s| { return some; }
    ReadsMore(s, some, m);
    items := AllItems(s, some + [Item(Decode(s, m).0, Decode(s, m).1, m)], m + Decode(s, m).1);
  }

  lemma TotalIs(s: seq<byte>)
    requires ValidFrom(s, 0)
    ensures TotalFrom(s, 0) == |Double(s)|
  {
    ValidIff(s, 0);
    var items := AllItems(s, [], 0);
    WholeTotal(s, items, |s|);
    OutSize(s, items, |s|);
    OutBytes(s, items, |s|);
    assert s[..|s|] == s;
  }

  lemma EncodePlain(c: rune)
    requires c > 32 && c != APOSTROPHE
    ensures var e := Encode(c); forall i {:trigger e[i]} :: 0 <= i < |e| ==> e[i] > 32 && e[i] != APOSTROPHE
  {
  }

  /** A valid string that needs no quotes holds neither blanks nor apostrophes. */
  lemma {:induction false} PlainFrom(s: seq<byte>, p: nat, doquote: rune -> bool)
    requires p <= |s| && ValidFrom(s, p) && !NeedsFrom(s, p, doquote)
    ensures forall i {:trigger s[i]} :: p <= i < |s| ==> s[i] > 32 && s[i] != APOSTROPHE
    decreases |s| - p
  {
    if p < |s| {
      var c, q, bad := DecodeStep(s, p);
      FromStep(s, p, c, q - p, doquote);
      PlainFrom(s, q, doquote);
      EncodePlain(c);
      var e := Encode(c);
      forall i {:trigger s[i]} | p <= i < q ensures s[i] > 32 && s[i] != APOSTROPHE { assert s[i] == e[i - p]; }
    }
  }

  lemma PrintedValid(base: seq<byte>, s: seq<byte>, items: seq<Item>, q: Quoteinfo, doquote: rune -> bool)
    requires Reads(s, items, q.nbytesin) && ValidFrom(s, 0)
    requires q.nbytesout == Cost(items) + (if q.quoted then 2 else 0) && (SomeNeeds(doquote, items) ==> q.quoted)
    ensures |Printed(base, s, items, q)| == |base| + q.nbytesout
    ensures Printed(base, s, items, q) ==
            base + if q.quoted then [APOSTROPHE] + Double(s[..q.nbytesin]) + [APOSTROPHE] else s[..q.nbytesin]
  {
    ValidIff(s, 0);
    WholeTotal(s, items, q.nbytesin);
    NoStop(s, items, q.nbytesin, 0);
    assert items[..|items|] == items;
    if q.quoted {
      OutBytes(s, items, q.nbytesin);
      OutSize(s, items, q.nbytesin);
      var d := Double(s[..q.nbytesin]);
      assert base + [APOSTROPHE] + d + [APOSTROPHE] == base + ([APOSTROPHE] + d + [APOSTROPHE]);
    } else {
      OutBytes(s, items, q.nbytesin);
      UnquotedSize(s, items, q.nbytesin);
    }
  }

  lemma {:induction false} UnquotedSize(s: seq<byte>, items: seq<Item>, m: nat)
    requires Reads(s, items, m) && forall i {:trigger items[i]} :: 0 <= i < |items| ==> items[i].c != APOSTROPHE
    ensures Cost(items) == m
    decreases |items|
  {
    if items != [] {
      ReadsFront(s, items, m);
      assert forall i {:trigger Front(items)[i]} :: 0 <= i < |items| - 1 ==> Front(items)[i] == items[i];
      UnquotedSize(s, Front(items), items[|items| - 1].at);
    }
  }

  lemma NextFits(s: seq<byte>, m: nat, doquote: rune -> bool)
    requires m <= |s|
    ensures m < |s| ==> var (c, w) := Decode(s, m);
                        w + Doubled(c) <= TotalFrom(s, m) && (Needs(doquote, c) ==> NeedsFrom(s, m, doquote))
    ensures m == |s| ==> TotalFrom(s, m) == 0 && !NeedsFrom(s, m, doquote)
  {
    if m < |s| { FromStep(s, m, Decode(s, m).0, Decode(s, m).1, doquote); }
  }

  /** If the quoted form fits, all of it is written. */
  lemma AllFits(base: seq<byte>, s: seq<byte>, items: seq<Item>, q: Quoteinfo, doquote: rune -> bool, sharp: bool,
      nout: nat)
    requires ValidFrom(s, 0) && |Form(s, doquote, sharp)| <= nout && Reads(s, items, q.nbytesin)
    requires q.nbytesout == Cost(items) + (if q.quoted then 2 else 0)
    requires SomeNeeds(doquote, items) || ((sharp || s == []) && nout >= 2) ==> q.quoted
    requires q.quoted ==> sharp || s == [] || SomeNeeds(doquote, items) ||
                          (q.nbytesin < |s| && Needs(doquote, Decode(s, q.nbytesin).0))
    requires q.nbytesin < |s| ==>
               var (c, w) := Decode(s, q.nbytesin);
               Cost(items) + w + Doubled(c) + (if q.quoted || sharp || Needs(doquote, c) then 2 else 0) > nout
    ensures Printed(base, s, items, q) == base + Form(s, doquote, sharp)
  {
    var m := q.nbytesin;
    TotalIs(s);
    WholeTotal(s, items, m);
    WholeNeeds(s, items, m, doquote);
    if !NeedsFrom(s, 0, doquote) {
      PlainFrom(s, 0, doquote);
      DoubleApart(s);
    }
    NextFits(s, m, doquote);
    PrintedValid(base, s, items, q, doquote);
    assert s[..m] == s;
  }

  // ----- other strings

  lemma {:induction false} ReadsPrefix(s: seq<byte>, items: seq<Item>, m: nat, e: nat)
    requires Reads(s, items, m) && e <= |items|
    ensures Reads(s, items[..e], EndOf(items[..e]))
    decreases |items|
  {
    if e == |items| {
      assert items[..e] == items;
    } else {
      ReadsFront(s, items, m);
      ReadsPrefix(s, Front(items), items[|items| - 1].at, e);
      assert Front(items)[..e] == items[..e];
    }
  }

  /** Without apostrophes there is nothing to double. */
  lemma {:induction false} OutPlain(items: seq<Item>)
    requires forall i {:trigger items[i]} :: 0 <= i < |items| ==> items[i].c != APOSTROPHE
    ensures Out(items, false) == Out(items, true)
    decreases |items|
  {
    if items != [] {
      assert forall i {:trigger Front(items)[i]} :: 0 <= i < |items| - 1 ==> Front(items)[i] == items[i];
      OutPlain(Front(items));
    }
  }

  /**
    The size of what is written for a string, valid or not, quoted or not: two more than predicted for each bad byte
    written, and less by what a last sequence that fullrune finds wanting cuts off.
   */
  lemma PrintedSize(base: seq<byte>, s: seq<byte>, items: seq<Item>, q: Quoteinfo, doquote: rune -> bool)
    requires Reads(s, items, q.nbytesin) && (SomeNeeds(doquote, items) ==> q.quoted)
    requires q.nbytesout == Cost(items) + if q.quoted then 2 else 0
    ensures var some := items[..Stop(s, q.nbytesin, items, 0)];
            |Printed(base, s, items, q)| + Cost(items) == |base| + q.nbytesout + 2 * Bad(s, some) + Cost(some) &&
            (|Printed(base, s, items, q)| == |base| + q.nbytesout <==> 2 * Bad(s, some) + Cost(some) == Cost(items))
  {
    var e := Stop(s, q.nbytesin, items, 0);
    ReadsPrefix(s, items, q.nbytesin, e);
    OutSize(s, items[..e], EndOf(items[..e]));
    if !q.quoted {
      forall i {:trigger items[i]} | 0 <= i < |items| ensures items[i].c != APOSTROPHE {
        assert !Needs(doquote, items[i].c);
      }
      OutPlain(items[..e]);
    }
  }

  /** A bad byte well before the end makes the output longer than predicted. */
  lemma LongerThanPredicted()
    ensures var s, items := [32, 0x80, 97, 97, 97],
              [Item(32, 1, 0), Item(RUNEERROR, 1, 1), Item(97, 1, 2), Item(97, 1, 3), Item(97, 1, 4)];
            var q := Quoteinfo(true, 5, 5, Count(items) + 2, Cost(items) + 2);
            Reads(s, items, |s|) && |Printed([], s, items, q)| == q.nbytesout + 2
  {
    var s: seq<byte>, items := [32, 0x80, 97, 97, 97],
              [Item(32, 1, 0), Item(RUNEERROR, 1, 1), Item(97, 1, 2), Item(97, 1, 3), Item(97, 1, 4)];
    assert items[..0] == [] && items[..1][0] == items[0] && items[..2][1] == items[1] && items[..3][2] == items[2];
    assert items[..4][3] == items[3];
    assert Stop(s, 5, items, 5) == 5 && Stop(s, 5, items, 4) == 5 && Stop(s, 5, items, 3) == 5;
    assert Stop(s, 5, items, 2) == 5 && Stop(s, 5, items, 1) == 5;
    assert Front(items) == items[..4] && Front(items[..4]) == items[..3] && Front(items[..3]) == items[..2];
    assert Front(items[..2]) == items[..1] && Front(items[..1]) == [];
    assert Bad(s, items[..1]) == 0 && Bad(s, items[..2]) == 1 && Bad(s, items[..3]) == 1 && Bad(s, items[..4]) == 1;
    assert items[..5] == items;
    PrintedSize([], s, items, Quoteinfo(true, 5, 5, Count(items) + 2, Cost(items) + 2), _ => false);
  }

  /** Also where no quotes are printed. */
  lemma LongerUnquoted()
    ensures var s, items := [0x80, 97, 97, 97],
              [Item(RUNEERROR, 1, 0), Item(97, 1, 1), Item(97, 1, 2), Item(97, 1, 3)];
            var q := Quoteinfo(false, 4, 4, Count(items), Cost(items));
            Reads(s, items, |s|) && |Printed([], s, items, q)| == q.nbytesout + 2
  {
    var s: seq<byte>, items := [0x80, 97, 97, 97],
              [Item(RUNEERROR, 1, 0), Item(97, 1, 1), Item(97, 1, 2), Item(97, 1, 3)];
    assert items[..0] == [] && items[..1][0] == items[0] && items[..2][1] == items[1] && items[..3][2] == items[2];
    assert Stop(s, 4, items, 4) == 4 && Stop(s, 4, items, 3) == 4 && Stop(s, 4, items, 2) == 4;
    assert Stop(s, 4, items, 1) == 4;
    assert Front(items) == items[..3] && Front(items[..3]) == items[..2] && Front(items[..2]) == items[..1];
    assert Front(items[..1]) == [];
    assert Bad(s, items[..1]) == 1 && Bad(s, items[..2]) == 1 && Bad(s, items[..3]) == 1;
    assert items[..4] == items;
    PrintedSize([], s, items, Quoteinfo(false, 4, 4, Count(items), Cost(items)), _ => false);
  }

  /** A sequence broken off at the end is not written at all. */
  lemma ShorterThanPredicted()
    ensures var s, items := [32, 0xE2], [Item(32, 1, 0), Item(RUNEERROR, 1, 1)];
            var q := Quoteinfo(true, 2, 2, Count(items) + 2, Cost(items) + 2);
            Reads(s, items, |s|) && |Printed([], s, items, q)| == q.nbytesout - 1
  {
    var s: seq<byte>, items := [32, 0xE2], [Item(32, 1, 0), Item(RUNEERROR, 1, 1)];
    assert items[..0] == [] && items[..1][0] == items[0];
    assert s[..2] == s;
    assert Stop(s, 2, items, 1) == 1;
    assert Front(items) == items[..1] && Front(items[..1]) == [];
    assert Cost(items[..1]) == 1 && Cost(items) == 2 && Bad(s, items[..1]) == 0;
    PrintedSize([], s, items, Quoteinfo(true, 2, 2, Count(items) + 2, Cost(items) + 2), _ => false);
  }
}
