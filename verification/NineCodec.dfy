/**
  The 9P2000 size function, encoder and decoder, over a buffer written and read through a moving pointer.
 */
module NineCodec {
  import opened Basics
  import opened NineFields
  import opened NineP

  /** A string the caller may leave out. */
  type Str = Option<bytes>

  function OrEmpty(s: Str): bytes { if s.Some? then s.value else [] }

  function OrEmptyAll(ss: seq<Str>): (r: seq<bytes>)
    ensures |r| == |ss|
  {
    if ss == [] then [] else OrEmptyAll(ss[..|ss| - 1]) + [OrEmpty(ss[|ss| - 1])]
  }

  /** A message as the wire carries it: a string left out is empty. */
  function Plain(f: Fcall<Str>): Fcall<bytes> {
    match f
    case Tversion(m, v) => Tversion(m, OrEmpty(v))
    case Rversion(m, v) => Rversion(m, OrEmpty(v))
    case Tauth(a, u, n) => Tauth(a, OrEmpty(u), OrEmpty(n))
    case Tattach(i, a, u, n) => Tattach(i, a, OrEmpty(u), OrEmpty(n))
    case Rerror(e) => Rerror(OrEmpty(e))
    case Twalk(i, n, w) => Twalk(i, n, OrEmptyAll(w))
    case Tcreate(i, n, p, m) => Tcreate(i, OrEmpty(n), p, m)
    case Rauth(q) => Rauth(q)
    case Rattach(q) => Rattach(q)
    case Tflush(o) => Tflush(o)
    case Rflush => Rflush
    case Rwalk(q) => Rwalk(q)
    case Topen(i, m) => Topen(i, m)
    case Ropen(q, u) => Ropen(q, u)
    case Rcreate(q, u) => Rcreate(q, u)
    case Tread(i, o, c) => Tread(i, o, c)
    case Rread(d) => Rread(d)
    case Twrite(i, o, d) => Twrite(i, o, d)
    case Rwrite(c) => Rwrite(c)
    case Tclunk(i) => Tclunk(i)
    case Rclunk => Rclunk
    case Tremove(i) => Tremove(i)
    case Rremove => Rremove
    case Tstat(i) => Tstat(i)
    case Rstat(s) => Rstat(s)
    case Twstat(i, s) => Twstat(i, s)
    case Rwstat => Rwstat
    case Other(t) => Other(t)
  }

  // ----- how much room

  method StringSz(s: Str) returns (n: nat)
    ensures n == Length(Text(OrEmpty(s)))
  {
    n := if s.None? then 2 else 2 + |s.value|;
  }

  method WnamesSz(ws: seq<Str>) returns (n: nat)
    ensures n == TextsLength(OrEmptyAll(ws))
  {
    n := 0;
    var i := 0;
    assert ws[..0] == [];
    while i < |ws|
      invariant i <= |ws| && n == TextsLength(OrEmptyAll(ws[..i]))
    {
      assert ws[..i + 1][..i] == ws[..i];
      TextsSnoc(OrEmptyAll(ws[..i]), OrEmpty(ws[i]));
      var k := StringSz(ws[i]);
      n := n + k;
      i := i + 1;
    }
    assert ws[..i] == ws;
  }

  lemma {:induction false} TextsSnoc(ss: seq<bytes>, t: bytes)
    ensures TextsLength(ss + [t]) == TextsLength(ss) + 2 + |t|
    ensures WireTexts(ss + [t]) == WireTexts(ss) + WireText(t)
  {
    if ss == [] {
      assert [] + [t] == [t] && [t][1..] == [];
    } else {
      assert (ss + [t])[1..] == ss[1..] + [t];
      TextsSnoc(ss[1..], t);
    }
  }

  predicate HasTexts(f: Fcall<Str>) {
    f.Tversion? || f.Rversion? || f.Tauth? || f.Tattach? || f.Twalk? || f.Tcreate? || f.Rerror?
  }

  /** The size of the message, 0 for no message. */
  method SizeS2M(f: Fcall<Str>) returns (n: nat)
    ensures n == if f.Other? then 0 else 7 + |WireAll(Fields(Plain(f)))|
  {
    if f.Other? {
      n := 0;
    } else if HasTexts(f) {
      n := SizeTexts(f);
    } else if IsReply(f) {
      n := SizeReply(f);
    } else {
      n := SizeOthers(f);
    }
  }

  /** The size of a message with strings. */
  method SizeTexts(f: Fcall<Str>) returns (n: nat)
    requires HasTexts(f)
    ensures n == 7 + |WireAll(Fields(Plain(f)))|
  {
    n := 7;
    match f {
    case Tversion(_, v) =>
      n := n + 4;
      var k := StringSz(v);
      n := n + k;
    case Rversion(_, v) =>
      n := n + 4;
      var k := StringSz(v);
      n := n + k;
    case Tauth(_, u, a) =>
      n := n + 4;
      var k := StringSz(u);
      n := n + k;
      k := StringSz(a);
      n := n + k;
    case Tattach(_, _, u, a) =>
      n := n + 4;
      n := n + 4;
      var k := StringSz(u);
      n := n + k;
      k := StringSz(a);
      n := n + k;
    case Twalk(_, _, w) =>
      n := n + 4;
      n := n + 4;
      n := n + 2;
      var k := WnamesSz(w);
      n := n + k;
    case Tcreate(_, name, _, _) =>
      n := n + 4;
      var k := StringSz(name);
      n := n + k;
      n := n + 4;
      n := n + 1;
    case Rerror(e) =>
      var k := StringSz(e);
      n := n + k;
    }
    SizeSmall(Fields(Plain(f)));
  }

  /** The size of another message. */
  method SizeOthers(f: Fcall<Str>) returns (n: nat)
    requires !HasTexts(f) && !IsReply(f) && !f.Other?
    ensures n == 7 + |WireAll(Fields(Plain(f)))|
  {
    n := 7;
    match f {
    case Rflush =>
    case Rwalk(q) =>
      n := n + 2;
      n := n + |q| * 13;
    case Topen(_, _) =>
      n := n + 4;
      n := n + 1;
    case Tread(_, _, _) =>
      n := n + 4;
      n := n + 8;
      n := n + 4;
    case Rread(d) =>
      n := n + 4;
      n := n + |d|;
    case Twrite(_, _, d) =>
      n := n + 4;
      n := n + 8;
      n := n + 4;
      n := n + |d|;
    case Tclunk(_) =>
      n := n + 4;
    case Rclunk =>
    case Tremove(_) =>
      n := n + 4;
    case Rremove =>
    case Tstat(_) =>
      n := n + 4;
    case Rstat(s) =>
      n := n + 2;
      n := n + |s|;
    case Twstat(_, s) =>
      n := n + 4;
      n := n + 2;
      n := n + |s|;
    case Rwstat =>
    }
    SizeSmall(Fields(Plain(f)));
  }

  /** A message that carries no more than a qid and a number. */
  predicate IsReply(f: Fcall<Str>) { f.Rauth? || f.Rattach? || f.Ropen? || f.Rcreate? || f.Tflush? || f.Rwrite? }

  method SizeReply(f: Fcall<Str>) returns (n: nat)
    requires IsReply(f)
    ensures n == 7 + |WireAll(Fields(Plain(f)))|
  {
    n := 7;
    match f {
    case Tflush(_) =>
      n := n + 2;
    case Rauth(_) =>
      n := n + 13;
    case Rattach(_) =>
      n := n + 13;
    case Ropen(_, _) =>
      n := n + 13;
      n := n + 4;
    case Rcreate(_, _) =>
      n := n + 13;
      n := n + 4;
    case Rwrite(_) =>
      n := n + 4;
    }
    SizeSmall(Fields(Plain(f)));
  }

  function Sum(fs: seq<Field>): nat { if fs == [] then 0 else Length(fs[0]) + Sum(fs[1..]) }

  lemma {:induction false} LongAll(fs: seq<Field>)
    ensures |WireAll(fs)| == Sum(fs)
  {
    if fs != [] {
      Long(fs[0]);
      LongAll(fs[1..]);
    }
  }

  function NthLength(fs: seq<Field>, i: nat): nat { if i < |fs| then Length(fs[i]) else 0 }

  lemma SumSmall(fs: seq<Field>)
    requires |fs| <= 4
    ensures Sum(fs) == NthLength(fs, 0) + NthLength(fs, 1) + NthLength(fs, 2) + NthLength(fs, 3)
  {
    if |fs| > 1 { assert fs[1..][0] == fs[1] && fs[1..][1..] == fs[2..]; }
    if |fs| > 2 { assert fs[2..][0] == fs[2] && fs[2..][1..] == fs[3..]; }
    if |fs| > 3 { assert fs[3..][0] == fs[3] && fs[3..][1..] == []; }
  }

  lemma SizeSmall(fs: seq<Field>)
    requires |fs| <= 4
    ensures |WireAll(fs)| == NthLength(fs, 0) + NthLength(fs, 1) + NthLength(fs, 2) + NthLength(fs, 3)
  {
    LongAll(fs);
    SumSmall(fs);
  }

  // ----- the encoder

  lemma {:induction false} WireSnoc(fs: seq<Field>, f: Field)
    ensures WireAll(fs + [f]) == WireAll(fs) + Wire(f)
  {
    if fs == [] {
      assert [] + [f] == [f] && [f][1..] == [];
    } else {
      assert (fs + [f])[1..] == fs[1..] + [f];
      WireSnoc(fs[1..], f);
    }
  }

  lemma {:induction false} WireAppend(fs: seq<Field>, gs: seq<Field>)
    ensures WireAll(fs + gs) == WireAll(fs) + WireAll(gs)
  {
    if fs == [] {
      assert [] + gs == gs;
    } else {
      assert (fs + gs)[1..] == fs[1..] + gs;
      WireAppend(fs[1..], gs);
    }
  }

  lemma Assoc(a: bytes, b: bytes, c: bytes)
    ensures (a + b) + c == a + (b + c)
  {
  }

  /** A buffer written from its start through a moving pointer. */
  class Writer {
    const buf: array<byte>
    var p: nat
    ghost const orig: bytes
    ghost const plan: seq<Field>
    ghost var out: bytes

    ghost predicate Valid()
      reads this, buf
    {
      |orig| == buf.Length && p == |out| <= buf.Length && buf[..] == out + orig[p..]
    }

    /** `plan` is what is going to be written. */
    constructor (buf: array<byte>, ghost plan: seq<Field>)
      requires |WireAll(plan)| <= buf.Length
      ensures Did(0) && this.buf == buf && orig == buf[..] && this.plan == plan
    {
      this.buf, p, orig, out, this.plan := buf, 0, buf[..], [], plan;
    }

    /** The first k fields of the plan have been written, and all of them fit. */
    ghost predicate Did(k: nat)
      reads this, buf
    {
      Valid() && k <= |plan| && out == WireAll(plan[..k]) && |WireAll(plan)| <= buf.Length
    }

    method PByte(b: byte)
      requires Valid() && p < buf.Length
      modifies this, buf
      ensures Valid() && out == old(out) + [b]
    {
      buf[p] := b;
      p := p + 1;
      out := out + [b];
    }

    /** PBIT8, PBIT16, PBIT32 and PBIT64. */
    method PNum(n: nat, v: nat)
      requires Valid() && p + n <= buf.Length
      modifies this, buf
      ensures Valid() && out == old(out) + Le(n, v)
    {
      var k, x := 0, v;
      while k < n
        invariant k <= n && Valid() && p == old(p) + k
        invariant out + Le(n - k, x) == old(out) + Le(n, v)
      {
        LowHigh(x);
        assert Le(n - k, x) == [Low(x)] + Le(n - k - 1, High(x));
        assert out + ([Low(x)] + Le(n - k - 1, High(x))) == (out + [Low(x)]) + Le(n - k - 1, High(x));
        PByte((x % 256) as byte);
        x := x / 256;
        k := k + 1;
      }
    }

    method PBytes(d: bytes)
      requires Valid() && p + |d| <= buf.Length
      modifies this, buf
      ensures Valid() && out == old(out) + d
    {
      var k := 0;
      while k < |d|
        invariant k <= |d| && Valid() && out == old(out) + d[..k]
      {
        PByte(d[k]);
        k := k + 1;
      }
      assert d[..k] == d;
    }

    method PString(s: Str)
      requires Valid() && p + Length(Text(OrEmpty(s))) <= buf.Length
      modifies this, buf
      ensures Valid() && out == old(out) + WireText(OrEmpty(s))
    {
      if s.None? {
        PNum(2, 0);
        assert WireText([]) == Le(2, 0);
        return;
      }
      PNum(2, |s.value|);
      PBytes(s.value);
      Assoc(old(out), Le(2, |s.value|), s.value);
    }

    method PQid(q: Qid)
      requires Valid() && p + 13 <= buf.Length
      modifies this, buf
      ensures Valid() && out == old(out) + WireQid(q)
    {
      PNum(1, q.kind);
      PNum(4, q.vers);
      PNum(8, q.path);
      Assoc(old(out), Le(1, q.kind), Le(4, q.vers));
      Assoc(old(out), Le(1, q.kind) + Le(4, q.vers), Le(8, q.path));
    }

    method PNameNext(ws: seq<Str>, i: nat, ghost base: bytes)
      requires Valid() && i < |ws| && out == base + WireTexts(OrEmptyAll(ws[..i]))
      requires |base| + |WireTexts(OrEmptyAll(ws))| <= buf.Length
      modifies this, buf
      ensures Valid() && out == base + WireTexts(OrEmptyAll(ws[..i + 1]))
    {
      NamesNext(ws, i, base);
      PString(ws[i]);
    }

    method PTexts(ws: seq<Str>)
      requires Valid() && p + |WireTexts(OrEmptyAll(ws))| <= buf.Length
      modifies this, buf
      ensures Valid() && out == old(out) + WireTexts(OrEmptyAll(ws))
    {
      ghost var base := out;
      var i := 0;
      assert ws[..0] == [];
      while i < |ws|
        invariant i <= |ws| && Valid() && out == base + WireTexts(OrEmptyAll(ws[..i]))
      {
        PNameNext(ws, i, base);
        i := i + 1;
      }
      assert ws[..i] == ws;
    }

    method PQidNext(qs: seq<Qid>, i: nat, ghost base: bytes)
      requires Valid() && i < |qs| && out == base + WireQids(qs[..i]) && |base| + |WireQids(qs)| <= buf.Length
      modifies this, buf
      ensures Valid() && out == base + WireQids(qs[..i + 1])
    {
      QidsNext(qs, i, base);
      PQid(qs[i]);
    }

    method PQidList(qs: seq<Qid>)
      requires Valid() && p + |WireQids(qs)| <= buf.Length
      modifies this, buf
      ensures Valid() && out == old(out) + WireQids(qs)
    {
      ghost var base := out;
      var i := 0;
      assert qs[..0] == [];
      while i < |qs|
        invariant i <= |qs| && Valid() && out == base + WireQids(qs[..i])
      {
        PQidNext(qs, i, base);
        i := i + 1;
      }
      assert qs[..i] == qs;
    }

    method WNum(n: nat, v: nat, ghost k: nat)
      requires Did(k) && k < |plan| && plan[k] == Num(n, v)
      modifies this, buf
      ensures Did(k + 1)
    {
      Planned(plan, k);
      PNum(n, v);
    }

    method WText(s: Str, ghost k: nat)
      requires Did(k) && k < |plan| && plan[k] == Text(OrEmpty(s))
      modifies this, buf
      ensures Did(k + 1)
    {
      Planned(plan, k);
      PString(s);
    }

    method WQid(q: Qid, ghost k: nat)
      requires Did(k) && k < |plan| && plan[k] == Id(q)
      modifies this, buf
      ensures Did(k + 1)
    {
      Planned(plan, k);
      PQid(q);
    }

    /** A count and as many names; false if there are too many. */
    method WNames(ws: seq<Str>, ghost k: nat) returns (ok: bool)
      requires Did(k) && k < |plan| && plan[k] == Names(OrEmptyAll(ws))
      modifies this, buf
      ensures Valid() && ok == (|ws| <= MAXWELEM) && (ok ==> Did(k + 1))
    {
      Planned(plan, k);
      PNum(2, |ws|);
      if |ws| > MAXWELEM { return false; }
      TextsLong(OrEmptyAll(ws));
      PTexts(ws);
      Assoc(old(out), Le(2, |ws|), WireTexts(OrEmptyAll(ws)));
      ok := true;
    }

    /** A count and as many qids; false if there are too many. */
    method WQids(qs: seq<Qid>, ghost k: nat) returns (ok: bool)
      requires Did(k) && k < |plan| && plan[k] == Ids(qs)
      modifies this, buf
      ensures Valid() && ok == (|qs| <= MAXWELEM) && (ok ==> Did(k + 1))
    {
      Planned(plan, k);
      PNum(2, |qs|);
      if |qs| > MAXWELEM { return false; }
      QidsLong(qs);
      PQidList(qs);
      Assoc(old(out), Le(2, |qs|), WireQids(qs));
      ok := true;
    }

    /** A count of n bytes and the data counted. */
    method WData(n: nat, d: bytes, ghost k: nat)
      requires Did(k) && k < |plan| && plan[k] == Data(n, d)
      modifies this, buf
      ensures Did(k + 1)
    {
      Planned(plan, k);
      PNum(n, |d|);
      PBytes(d);
      Assoc(old(out), Le(n, |d|), d);
    }
  }

  /** Field k goes where the fields before it end, and fits where all of them fit. */
  lemma Planned(fs: seq<Field>, k: nat)
    requires k < |fs|
    ensures WireAll(fs[..k + 1]) == WireAll(fs[..k]) + Wire(fs[k])
    ensures |WireAll(fs[..k])| + Length(fs[k]) <= |WireAll(fs)|
  {
    assert fs[..k + 1] == fs[..k] + [fs[k]] && fs == fs[..k + 1] + fs[k + 1..];
    WireSnoc(fs[..k], fs[k]);
    WireAppend(fs[..k + 1], fs[k + 1..]);
    Long(fs[k]);
  }

  lemma {:induction false} QidsSnoc(qs: seq<Qid>, q: Qid)
    ensures WireQids(qs + [q]) == WireQids(qs) + WireQid(q)
  {
    if qs == [] {
      assert [] + [q] == [q] && [q][1..] == [];
    } else {
      assert (qs + [q])[1..] == qs[1..] + [q];
      QidsSnoc(qs[1..], q);
    }
  }

  /** Name i goes where the names before it end, and fits where all of them fit. */
  lemma NamesNext(ws: seq<Str>, i: nat, base: bytes)
    requires i < |ws|
    ensures |WireTexts(OrEmptyAll(ws[..i]))| + Length(Text(OrEmpty(ws[i]))) <= |WireTexts(OrEmptyAll(ws))|
    ensures base + WireTexts(OrEmptyAll(ws[..i + 1])) == base + WireTexts(OrEmptyAll(ws[..i])) +
            WireText(OrEmpty(ws[i]))
  {
    TextsSnoc(OrEmptyAll(ws[..i]), OrEmpty(ws[i]));
    assert ws[..i + 1][..i] == ws[..i];
    NamesRoom(ws, i);
  }

  lemma {:induction false} NamesRoom(ws: seq<Str>, i: nat)
    requires i < |ws|
    ensures |WireTexts(OrEmptyAll(ws[..i]))| + Length(Text(OrEmpty(ws[i]))) <= |WireTexts(OrEmptyAll(ws))|
    decreases |ws| - i
  {
    TextsSnoc(OrEmptyAll(ws[..i]), OrEmpty(ws[i]));
    assert ws[..i + 1][..i] == ws[..i];
    if i + 1 < |ws| { NamesRoom(ws, i + 1); } else { assert ws[..i + 1] == ws; }
  }

  lemma QidsNext(qs: seq<Qid>, i: nat, base: bytes)
    requires i < |qs|
    ensures |WireQids(qs[..i])| + 13 <= |WireQids(qs)|
    ensures base + WireQids(qs[..i + 1]) == base + WireQids(qs[..i]) + WireQid(qs[i])
  {
    QidsLong(qs);
    QidsLong(qs[..i]);
    QidsSnoc(qs[..i], qs[i]);
    assert qs[..i + 1] == qs[..i] + [qs[i]];
  }

  function Heads(size: nat, kind: nat, tag: nat): seq<Field> { [Num(4, size), Num(1, kind), Num(2, tag)] }

  lemma MessageIs(size: nat, tag: nat, f: Fcall<bytes>)
    requires size == 7 + |WireAll(Fields(f))|
    ensures WireAll(Heads(size, TypeOf(f), tag) + Fields(f)) == Message(tag, f)
  {
    WireAppend(Heads(size, TypeOf(f), tag), Fields(f));
    WireThree(Num(4, size), Num(1, TypeOf(f)), Num(2, tag));
  }

  lemma WireThree(x: Field, y: Field, z: Field)
    ensures WireAll([x, y, z]) == Wire(x) + Wire(y) + Wire(z)
  {
    WireSnoc([], x);
    WireSnoc([x], y);
    WireSnoc([x, y], z);
    assert [] + [x] == [x] && [x] + [y] == [x, y] && [x, y] + [z] == [x, y, z];
  }

  /** The plan is three fields and then fs, of which there are at most four. */
  predicate Follows(plan: seq<Field>, fs: seq<Field>) {
    |plan| == 3 + |fs| && (|fs| > 0 ==> plan[3] == fs[0]) && (|fs| > 1 ==> plan[4] == fs[1]) &&
    (|fs| > 2 ==> plan[5] == fs[2]) && (|fs| > 3 ==> plan[6] == fs[3])
  }

  predicate TooMany(f: Fcall<Str>) { (f.Twalk? && |f.wname| > MAXWELEM) || (f.Rwalk? && |f.wqid| > MAXWELEM) }

  /** The fields of a message after its head; false if there are more names or qids than a message may carry. */
  method PutFields(w: Writer, f: Fcall<Str>) returns (ok: bool)
    requires w.Did(3) && Follows(w.plan, Fields(Plain(f)))
    modifies w, w.buf
    ensures ok == !TooMany(f) && if ok then w.Did(|w.plan|) else w.Valid()
  {
    if f.Twalk? || f.Tcreate? || f.Tattach? {
      ok := PutPaths(w, f);
    } else if HasTexts(f) {
      PutTexts(w, f);
      ok := true;
    } else {
      ok := PutOthers(w, f);
    }
  }

  method PutTexts(w: Writer, f: Fcall<Str>)
    requires w.Did(3) && Follows(w.plan, Fields(Plain(f)))
    requires f.Tversion? || f.Rversion? || f.Tauth? || f.Rerror?
    modifies w, w.buf
    ensures w.Did(|w.plan|)
  {
    match f {
    case Tversion(m, v) =>
      w.WNum(4, m, 3);
      w.WText(v, 4);
    case Rversion(m, v) =>
      w.WNum(4, m, 3);
      w.WText(v, 4);
    case Tauth(a, u, n) =>
      w.WNum(4, a, 3);
      w.WText(u, 4);
      w.WText(n, 5);
    case Rerror(e) =>
      w.WText(e, 3);
    }
  }

  method PutPaths(w: Writer, f: Fcall<Str>) returns (ok: bool)
    requires w.Did(3) && Follows(w.plan, Fields(Plain(f)))
    requires f.Twalk? || f.Tcreate? || f.Tattach?
    modifies w, w.buf
    ensures ok == !TooMany(f) && if ok then w.Did(|w.plan|) else w.Valid()
  {
    ok := true;
    match f {
    case Tattach(i, a, u, n) =>
      w.WNum(4, i, 3);
      w.WNum(4, a, 4);
      w.WText(u, 5);
      w.WText(n, 6);
    case Twalk(i, n, names) =>
      w.WNum(4, i, 3);
      w.WNum(4, n, 4);
      ok := w.WNames(names, 5);
    case Tcreate(i, n, q, m) =>
      w.WNum(4, i, 3);
      w.WText(n, 4);
      w.WNum(4, q, 5);
      w.WNum(1, m, 6);
    }
  }

  /** The fields of a message without strings. */
  method PutOthers(w: Writer, f: Fcall<Str>) returns (ok: bool)
    requires w.Did(3) && Follows(w.plan, Fields(Plain(f))) && !HasTexts(f)
    modifies w, w.buf
    ensures ok == !TooMany(f) && if ok then w.Did(|w.plan|) else w.Valid()
  {
    ok := true;
    if f.Rwalk? {
      ok := w.WQids(f.wqid, 3);
    } else if IsReply(f) {
      PutReply(w, f);
    } else {
      PutFid(w, f);
    }
  }

  /** The fields of a message that carries no more than a qid and a number. */
  method PutReply(w: Writer, f: Fcall<Str>)
    requires w.Did(3) && Follows(w.plan, Fields(Plain(f)))
    requires IsReply(f)
    modifies w, w.buf
    ensures w.Did(|w.plan|)
  {
    match f {
    case Rauth(q) =>
      w.WQid(q, 3);
    case Rattach(q) =>
      w.WQid(q, 3);
    case Ropen(q, u) =>
      w.WQid(q, 3);
      w.WNum(4, u, 4);
    case Rcreate(q, u) =>
      w.WQid(q, 3);
      w.WNum(4, u, 4);
    case Tflush(o) =>
      w.WNum(2, o, 3);
    case Rwrite(c) =>
      w.WNum(4, c, 3);
    }
  }

  /** The fields of a message about a fid, of one that carries data and of one without fields. */
  method PutFid(w: Writer, f: Fcall<Str>)
    requires w.Did(3) && Follows(w.plan, Fields(Plain(f))) && !HasTexts(f) && !f.Rwalk? && !IsReply(f)
    modifies w, w.buf
    ensures w.Did(|w.plan|)
  {
    match f {
    case Topen(i, m) =>
      w.WNum(4, i, 3);
      w.WNum(1, m, 4);
    case Tread(i, o, c) =>
      w.WNum(4, i, 3);
      w.WNum(8, o, 4);
      w.WNum(4, c, 5);
    case Twrite(i, o, d) =>
      w.WNum(4, i, 3);
      w.WNum(8, o, 4);
      w.WData(4, d, 5);
    case Tclunk(i) =>
      w.WNum(4, i, 3);
    case Tremove(i) =>
      w.WNum(4, i, 3);
    case Tstat(i) =>
      w.WNum(4, i, 3);
    case Twstat(i, s) =>
      w.WNum(4, i, 3);
      w.WData(2, s, 4);
    case Rread(d) =>
      w.WData(4, d, 3);
    case Rstat(s) =>
      w.WData(2, s, 3);
    case _ =>
    }
  }

  /** Write the message into the buffer: its size, or 0 if there is no such message, it does not fit, or it has
      too many names or qids. */
  method ConvS2M(tag: nat, f: Fcall<Str>, buf: array<byte>) returns (r: nat)
    modifies buf
    ensures var m := Message(tag, Plain(f));
      if f.Other? || |m| > buf.Length then r == 0 && buf[..] == old(buf[..])
      else if TooMany(f) then r == 0
      else r == |m| && buf[..] == m + old(buf[..])[|m|..]
  {
    var size := SizeS2M(f);
    if size == 0 || size > buf.Length { return 0; }
    MessageIs(size, tag, Plain(f));
    SameType(f);
    var w := new Writer(buf, Heads(size, TypeOf(f), tag) + Fields(Plain(f)));
    w.WNum(4, size, 0);
    w.WNum(1, TypeOf(f), 1);
    w.WNum(2, tag, 2);
    var ok := PutFields(w, f);
    if !ok { return 0; }
    assert w.plan[..|w.plan|] == w.plan;
    if size != w.p { assert false; }
    r := size;
  }

  lemma SameType(f: Fcall<Str>)
    ensures TypeOf(Plain(f)) == TypeOf(f) && Plain(f).Other? == f.Other?
  {
  }
}
