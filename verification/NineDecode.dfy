/**
  The 9P2000 decoder, in place: a string is moved down over its count to make room for a terminating zero, so
  the message comes back as pointers into the buffer it was read from.
 */
module NineDecode {
  import opened Basics
  import opened NineFields
  import opened NineP
  import opened NineCodec

  /** A string in the buffer, from `at` on; a zero byte follows it. */
  datatype Span = Span(at: nat, len: nat)

  function Get(b: bytes, x: Span): bytes { if x.at + x.len <= |b| then b[x.at..x.at + x.len] else [] }

  function GetAll(b: bytes, xs: seq<Span>): (r: seq<bytes>)
    ensures |r| == |xs|
  {
    if xs == [] then [] else GetAll(b, xs[..|xs| - 1]) + [Get(b, xs[|xs| - 1])]
  }

  function Resolve(f: Fcall<Span>, b: bytes): Fcall<bytes> {
    match f
    case Tversion(m, v) => Tversion(m, Get(b, v))
    case Rversion(m, v) => Rversion(m, Get(b, v))
    case Tauth(a, u, n) => Tauth(a, Get(b, u), Get(b, n))
    case Tattach(i, a, u, n) => Tattach(i, a, Get(b, u), Get(b, n))
    case Rerror(e) => Rerror(Get(b, e))
    case Twalk(i, n, w) => Twalk(i, n, GetAll(b, w))
    case Tcreate(i, n, p, m) => Tcreate(i, Get(b, n), p, m)
    case Rauth(q) => Rauth(q)
    case Rattach(q) => Rattach(q)
    case Tflush(o) => Tflush(o)
    case Rflush => Rflush
    case Rwalk(q) => Rwalk(q)
    case Topen(i, m) => Topen(i, m)
    case Ropen(q, u) => Ropen(q, u)
    case Rcreate(q, u) => Rcreate(q, u)
    case Tread(i, o, c) => Tread(i, o, c)
    case Rread(d) => Rread(d)
    case Twrite(i, o, d) => Twrite(i, o, d)
    case Rwrite(c) => Rwrite(c)
    case Tclunk(i) => Tclunk(i)
    case Rclunk => Rclunk
    case Tremove(i) => Tremove(i)
    case Rremove => Rremove
    case Tstat(i) => Tstat(i)
    case Rstat(s) => Rstat(s)
    case Twstat(i, s) => Twstat(i, s)
    case Rwstat => Rwstat
    case Other(t) => Other(t)
  }

  function Glue(done: seq<Field>, rest: Option<seq<Field>>): Option<seq<Field>> {
    if rest.None? then None else Some(done + rest.value)
  }

  /** A buffer read through a moving pointer; `ok` is false once a read has gone past the end. */
  class Reader {
    const buf: array<byte>
    var p: nat
    var ok: bool
    ghost const s: bytes
    ghost const base: nat
    ghost const shape: seq<Kind>

    /** What has not been read is as it came. */
    ghost predicate Valid()
      reads this, buf
    {
      |s| == buf.Length && p <= buf.Length && buf[p..] == s[p..]
    }

    /** The fields read are `done`: reading the whole shape comes to reading the rest from here. */
    ghost predicate Now(done: seq<Field>)
      reads this, buf
    {
      Valid() && |done| <= |shape| &&
      if ok then
        p == base + Sum(done) && ReadAll(shape, s, base) == Glue(done, ReadAll(shape[|done|..], s, p))
      else ReadAll(shape, s, base) == None
    }

    constructor (buf: array<byte>, base: nat, ghost shape: seq<Kind>)
      requires buf.Length >= base
      ensures Now([]) && this.buf == buf && s == buf[..] && this.base == base && this.shape == shape && ok && p == base
    {
      this.buf, p, ok, s, this.base, this.shape := buf, base, true, buf[..], base, shape;
      new;
      assert shape[0..] == shape;
      if ReadAll(shape, s, base).Some? { assert [] + ReadAll(shape, s, base).value == ReadAll(shape, s, base).value; }
    }

    /** GBIT8, GBIT16, GBIT32 and GBIT64, n bytes of them. */
    method GNum(n: nat) returns (v: nat)
      requires Valid() && ok
      modifies this
      ensures Valid() && ok == ReadNum(s, old(p), n).Some?
      ensures ok ==> ReadNum(s, old(p), n) == Some(v) && p == old(p) + n
      ensures !ok ==> p == old(p)
    {
      v := 0;
      if p + n > buf.Length {
        ok := false;
        return;
      }
      var k := n;
      while k > 0
        invariant 0 <= k <= n && Valid() && ok && p == old(p) && v == FromLe(s[p + k..p + n])
      {
        k := k - 1;
        assert buf[p + k] == buf[p..][k] == s[p..][k];
        assert s[p + k..p + n][0] == s[p + k] && s[p + k..p + n][1..] == s[p + k + 1..p + n];
        v := buf[p + k] as nat + 256 * v;
      }
      p := p + n;
      assert buf[p..] == buf[old(p)..][n..] && s[p..] == s[old(p)..][n..];
    }

    /** gstring: the string is moved down onto the second byte of its count. */
    method GString() returns (x: Span)
      requires Valid() && ok
      modifies this, buf
      ensures Valid() && ok == ReadText(s, old(p)).Some?
      ensures ok ==> ReadText(s, old(p)) == Some(Get(buf[..], x)) && p == old(p) + 2 + x.len
      ensures ok ==> x.at == old(p) + 1 && x.at + x.len < buf.Length && buf[x.at + x.len] == 0
      ensures !ok ==> p == old(p)
      ensures buf[..old(p)] == old(buf[..])[..old(p)]
    {
      x := Span(0, 0);
      if p + 2 > buf.Length {
        ok := false;
        return;
      }
      assert buf[p] == buf[p..][0] == s[p] && buf[p + 1] == buf[p..][1] == s[p + 1];
      var n := buf[p] as nat + 256 * buf[p + 1] as nat;
      CountOf(s, p);
      if p + 2 + n > buf.Length {
        ok := false;
        return;
      }
      ghost var was := buf[..];
      ShiftDown(p + 1, n);
      Shifted(was, buf[..], s, p, n);
      x := Span(p + 1, n);
      p := p + 2 + n;
    }

    /** Moves n bytes down to `at` and ends them with a zero. */
    method ShiftDown(at: nat, n: nat)
      requires at + n < buf.Length
      modifies buf
      ensures Moved(old(buf[..]), buf[..], at, n)
    {
      ghost var was := buf[..];
      var k := 0;
      while k < n
        invariant k <= n && forall i {:trigger buf[i]} :: 0 <= i < buf.Length ==>
                  buf[i] == was[if at <= i < at + k then i + 1 else i]
      {
        buf[at + k] := buf[at + k + 1];
        k := k + 1;
      }
      buf[at + n] := 0;
    }

    /** A string, as a field. */
    method GText() returns (x: Span)
      requires Valid() && ok
      modifies this, buf
      ensures Valid() && Read(KText, s, old(p)) == if ok then Some(Text(Get(buf[..], x))) else None
      ensures Stays(old(buf[..]), buf[..], old(p))
      ensures ok ==> p == old(p) + Length(Text(Get(buf[..], x))) && Ends(buf[..], x, p)
    {
      x := GString();
    }

    /** One field more, read from position q, or there is none. */
    lemma Step(done: seq<Field>, q: nat, f: Field)
      requires Valid() && |done| < |shape| && q == base + Sum(done)
      requires ReadAll(shape, s, base) == Glue(done, ReadAll(shape[|done|..], s, q))
      requires Read(shape[|done|], s, q) == (if ok then Some(f) else None) && (ok ==> p == q + Length(f))
      ensures Now(done + [f])
    {
      if ok { ReadNext(shape, s, base, done, q, f); } else { ReadFails(shape, s, base, done, q); }
    }

    method RNum(n: nat, ghost done: seq<Field>) returns (v: nat)
      requires Now(done) && |done| < |shape| && shape[|done|] == KNum(n)
      modifies this
      ensures Now(done + [Num(n, v)]) && ok == (old(ok) && old(p) + n <= buf.Length)
    {
      v := 0;
      if ok {
        v := GNum(n);
        Step(done, old(p), Num(n, v));
      }
    }

    method RText(ghost done: seq<Field>) returns (x: Span)
      requires Now(done) && |done| < |shape| && shape[|done|] == KText
      modifies this, buf
      ensures Now(done + [Text(Get(buf[..], x))]) && Stays(old(buf[..]), buf[..], old(p))
      ensures ok ==> old(ok) && Ends(buf[..], x, p)
    {
      x := Span(0, 0);
      if ok {
        x := GText();
        Step(done, old(p), Text(Get(buf[..], x)));
      }
    }

    method RQid(ghost done: seq<Field>) returns (q: Qid)
      requires Now(done) && |done| < |shape| && shape[|done|] == KId
      modifies this
      ensures Now(done + [Id(q)]) && ok == (old(ok) && old(p) + 13 <= buf.Length)
    {
      q := Qid(0, 0, 0);
      if ok {
        q := GQid();
        Step(done, old(p), Id(q));
      }
    }

    method GQid() returns (q: Qid)
      requires Valid() && ok
      modifies this
      ensures Valid() && ok == ReadQid(s, old(p)).Some?
      ensures ok ==> ReadQid(s, old(p)) == Some(q) && p == old(p) + 13
    {
      q := Qid(0, 0, 0);
      if p + 13 > buf.Length {
        ok := false;
        return;
      }
      var kind := GNum(1);
      var vers := GNum(4);
      var path := GNum(8);
      q := Qid(kind, vers, path);
    }

    /** Some of n strings that started at `base` have been read. */
    ghost predicate Texting(base: nat, n: nat, xs: seq<Span>)
      reads this, buf
    {
      Valid() && base <= p &&
      if ok then
        |xs| <= n && EndAll(buf[..], xs, p) && p == base + TextsLength(GetAll(buf[..], xs)) &&
        ReadTexts(s, base, n) == GlueTexts(GetAll(buf[..], xs), ReadTexts(s, p, n - |xs|))
      else ReadTexts(s, base, n) == None
    }

    method GTextNext(ghost base: nat, ghost n: nat, xs: seq<Span>) returns (xs': seq<Span>)
      requires Texting(base, n, xs) && ok && |xs| < n
      modifies this, buf
      ensures Texting(base, n, xs') && (ok ==> |xs'| == |xs| + 1) && Stays(old(buf[..]), buf[..], old(p))
    {
      ghost var was, q := buf[..], p;
      var x := GString();
      xs' := xs + [x];
      if ok {
        TextStep(was, buf[..], s, base, n, xs, x, q, p);
      } else {
        TextFails(s, q, n - |xs|);
      }
    }

    /** n strings, one after the other. */
    method GTexts(n: nat) returns (xs: seq<Span>)
      requires Valid() && ok
      modifies this, buf
      ensures Valid() && ok == ReadTexts(s, old(p), n).Some? && Stays(old(buf[..]), buf[..], old(p))
      ensures ok ==> ReadTexts(s, old(p), n) == Some(GetAll(buf[..], xs)) && EndAll(buf[..], xs, p)
      ensures ok ==> p == old(p) + TextsLength(GetAll(buf[..], xs))
    {
      xs := [];
      var i := 0;
      GlueNothing(ReadTexts(s, p, n));
      while i < n && ok
        invariant i <= n && (ok ==> |xs| == i) && Texting(old(p), n, xs) && Stays(old(buf[..]), buf[..], old(p))
        decreases n - i
      {
        ghost var was, q := buf[..], p;
        xs := GTextNext(old(p), n, xs);
        StaysOn(old(buf[..]), was, buf[..], old(p), q);
        i := i + 1;
      }
      if ok { GlueTextsNone(GetAll(buf[..], xs)); }
    }

    /** A count and as many strings, if there are not too many. */
    method GNames() returns (xs: seq<Span>)
      requires Valid() && ok
      modifies this, buf
      ensures Valid() && Stays(old(buf[..]), buf[..], old(p))
      ensures Read(KNames, s, old(p)) == if ok then Some(Names(GetAll(buf[..], xs))) else None
      ensures ok ==> p == old(p) + Length(Names(GetAll(buf[..], xs))) && EndAll(buf[..], xs, p)
    {
      xs := [];
      var n := GNum(2);
      if ok {
        if n > MAXWELEM {
          ok := false;
        } else {
          ghost var b, q := buf[..], p;
          xs := GTexts(n);
          StaysOn(old(buf[..]), b, buf[..], old(p), q);
        }
      }
    }

    method RNames(ghost done: seq<Field>) returns (xs: seq<Span>)
      requires Now(done) && |done| < |shape| && shape[|done|] == KNames
      modifies this, buf
      ensures Now(done + [Names(GetAll(buf[..], xs))]) && Stays(old(buf[..]), buf[..], old(p))
      ensures ok ==> EndAll(buf[..], xs, p)
    {
      xs := [];
      if ok {
        xs := GNames();
        Step(done, old(p), Names(GetAll(buf[..], xs)));
      }
    }

    /** n qids, one after the other. */
    method GQids(n: nat) returns (qs: seq<Qid>)
      requires Valid() && ok
      modifies this
      ensures Valid() && ok == ReadQids(s, old(p), n).Some?
      ensures ok ==> ReadQids(s, old(p), n) == Some(qs) && p == old(p) + 13 * |qs|
    {
      qs := [];
      var i := 0;
      QidsNothing(ReadQids(s, p, n));
      while i < n && ok
        invariant i <= n && Valid()
        invariant ok ==> |qs| == i && p == old(p) + 13 * |qs|
        invariant if ok then ReadQids(s, old(p), n) == GlueQids(qs, ReadQids(s, p, n - i))
                  else ReadQids(s, old(p), n) == None
        decreases n - i
      {
        ghost var q0 := p;
        var q := GQid();
        if ok {
          QidNext(s, old(p), n, qs, q0, q);
          qs := qs + [q];
        }
        i := i + 1;
      }
      if ok { assert qs + [] == qs; }
    }

    /** A count and as many qids, if there are not too many. */
    method GIds() returns (qs: seq<Qid>)
      requires Valid() && ok
      modifies this
      ensures Valid() && Read(KIds, s, old(p)) == if ok then Some(Ids(qs)) else None
      ensures ok ==> p == old(p) + Length(Ids(qs))
    {
      qs := [];
      var n := GNum(2);
      if ok {
        if n > MAXWELEM { ok := false; } else { qs := GQids(n); }
      }
    }

    method RQids(ghost done: seq<Field>) returns (qs: seq<Qid>)
      requires Now(done) && |done| < |shape| && shape[|done|] == KIds
      modifies this
      ensures Now(done + [Ids(qs)])
    {
      qs := [];
      if ok {
        qs := GIds();
        Step(done, old(p), Ids(qs));
      }
    }

    /** n bytes, left where they are. */
    method GBytes(n: nat) returns (d: bytes)
      requires Valid() && ok
      modifies this
      ensures Valid() && Slice(s, old(p), n) == if ok then Some(d) else None
      ensures ok ==> p == old(p) + n && d == buf[old(p)..p]
      ensures !ok ==> p == old(p)
    {
      d := [];
      if p + n > buf.Length {
        ok := false;
        return;
      }
      d := buf[p..p + n];
      assert d == buf[p..][..n] == s[p..][..n] == s[p..p + n];
      p := p + n;
      assert buf[p..] == buf[p - n..][n..] && s[p..] == s[p - n..][n..];
    }

    /** A count of w bytes and the data counted, left where it is. */
    method GData(w: nat) returns (d: bytes)
      requires Valid() && ok
      modifies this
      ensures Valid() && Read(KData(w), s, old(p)) == if ok then Some(Data(w, d)) else None
      ensures ok ==> p == old(p) + Length(Data(w, d))
    {
      d := [];
      var n := GNum(w);
      if ok { d := GBytes(n); }
    }

    method RData(w: nat, ghost done: seq<Field>) returns (d: bytes)
      requires Now(done) && |done| < |shape| && shape[|done|] == KData(w)
      modifies this
      ensures Now(done + [Data(w, d)])
    {
      d := [];
      if ok {
        d := GData(w);
        Step(done, old(p), Data(w, d));
      }
    }
  }

  /** c is b with the n bytes above `at` moved down and a zero put after them. */
  predicate Moved(b: bytes, c: bytes, at: nat, n: nat) {
    at + n < |b| == |c| &&
    forall i {:trigger c[i]} :: 0 <= i < |c| ==> c[i] == if at <= i < at + n then b[i + 1] else if i == at + n then 0
        else b[i]
  }

  /** The string moved is the one that was there, and what follows it is as it came. */
  lemma Shifted(b: bytes, c: bytes, s: bytes, p: nat, n: nat)
    requires Moved(b, c, p + 1, n) && |s| == |b| && b[p..] == s[p..]
    ensures c[p + 1..p + 1 + n] == s[p + 2..p + 2 + n] && c[p + 2 + n..] == s[p + 2 + n..] && c[p + 1 + n] == 0
    ensures c[..p] == b[..p]
  {
    forall i {:trigger b[i]} | p <= i < |b| ensures b[i] == s[i] { assert b[p..][i - p] == s[p..][i - p]; }
  }

  predicate EndAll(b: bytes, xs: seq<Span>, p: nat) { forall i :: 0 <= i < |xs| ==> Ends(b, xs[i], p) }

  lemma {:induction false} GetAllStays(b: bytes, c: bytes, xs: seq<Span>, p: nat)
    requires Stays(b, c, p) && EndAll(b, xs, p)
    ensures GetAll(b, xs) == GetAll(c, xs)
  {
    if xs != [] {
      var x := xs[|xs| - 1];
      GetAllStays(b, c, xs[..|xs| - 1], p);
      assert Ends(b, x, p);
      assert b[x.at..x.at + x.len] == b[..p][x.at..x.at + x.len] && c[x.at..x.at + x.len] == c[..p][x.at..x.at + x.len];
    }
  }

  lemma GetAllSnoc(b: bytes, xs: seq<Span>, x: Span)
    ensures GetAll(b, xs + [x]) == GetAll(b, xs) + [Get(b, x)]
  {
    assert (xs + [x])[..|xs|] == xs;
  }

  lemma EndAllMore(b: bytes, c: bytes, xs: seq<Span>, p: nat, x: Span, q: nat)
    requires Stays(b, c, p) && EndAll(b, xs, p) && p <= q && Ends(c, x, q)
    ensures EndAll(c, xs + [x], q)
  {
    forall i | 0 <= i < |xs| ensures Ends(c, xs[i], q) {
      assert Ends(b, xs[i], p);
      var k := xs[i].at + xs[i].len;
      assert b[k] == b[..p][k] && c[k] == c[..p][k];
    }
  }

  function GlueTexts(ts: seq<bytes>, rest: Option<seq<bytes>>): Option<seq<bytes>> {
    if rest.None? then None else Some(ts + rest.value)
  }

  function GlueQids(qs: seq<Qid>, rest: Option<seq<Qid>>): Option<seq<Qid>> {
    if rest.None? then None else Some(qs + rest.value)
  }

  lemma GlueTextsNone(ts: seq<bytes>)
    ensures GlueTexts(ts, Some([])) == Some(ts)
  {
    assert ts + [] == ts;
  }

  lemma GlueNothing(r: Option<seq<bytes>>)
    ensures GlueTexts([], r) == r
  {
    if r.Some? { assert [] + r.value == r.value; }
  }

  lemma QidsNothing(r: Option<seq<Qid>>)
    ensures GlueQids([], r) == r
  {
    if r.Some? { assert [] + r.value == r.value; }
  }

  lemma StaysOn(a: bytes, b: bytes, c: bytes, n: nat, m: nat)
    requires Stays(a, b, n) && Stays(b, c, m) && n <= m
    ensures Stays(a, c, n)
  {
    assert b[..n] == b[..m][..n] && c[..n] == c[..m][..n];
  }

  /** One string more. */
  lemma TextNext(s: bytes, base: nat, n: nat, ts: seq<bytes>, p: nat, t: bytes)
    requires |ts| < n && ReadTexts(s, base, n) == GlueTexts(ts, ReadTexts(s, p, n - |ts|)) && ReadText(s, p) == Some(t)
    ensures ReadTexts(s, base, n) == GlueTexts(ts + [t], ReadTexts(s, p + 2 + |t|, n - |ts + [t]|))
    ensures TextsLength(ts + [t]) == TextsLength(ts) + 2 + |t|
  {
    TextsSnoc(ts, t);
    var rest := ReadTexts(s, p + 2 + |t|, n - |ts| - 1);
    if rest.Some? { assert ts + ([t] + rest.value) == (ts + [t]) + rest.value; }
  }

  lemma TextStep(b: bytes, c: bytes, s: bytes, base: nat, n: nat, xs: seq<Span>, x: Span, p: nat, q: nat)
    requires Stays(b, c, p) && EndAll(b, xs, p) && |xs| < n && p == base + TextsLength(GetAll(b, xs))
    requires ReadTexts(s, base, n) == GlueTexts(GetAll(b, xs), ReadTexts(s, p, n - |xs|))
    requires ReadText(s, p) == Some(Get(c, x)) && |Get(c, x)| == x.len && q == p + 2 + x.len && Ends(c, x, q)
    ensures EndAll(c, xs + [x], q) && q == base + TextsLength(GetAll(c, xs + [x]))
    ensures ReadTexts(s, base, n) == GlueTexts(GetAll(c, xs + [x]), ReadTexts(s, q, n - |xs + [x]|))
  {
    GetAllStays(b, c, xs, p);
    TextNext(s, base, n, GetAll(c, xs), p, Get(c, x));
    GetAllSnoc(c, xs, x);
    EndAllMore(b, c, xs, p, x, q);
  }

  lemma TextFails(s: bytes, p: nat, n: nat)
    requires n > 0 && ReadText(s, p) == None
    ensures ReadTexts(s, p, n) == None
  {
  }

  lemma QidNext(s: bytes, base: nat, n: nat, qs: seq<Qid>, p: nat, q: Qid)
    requires |qs| < n && ReadQids(s, base, n) == GlueQids(qs, ReadQids(s, p, n - |qs|)) && ReadQid(s, p) == Some(q)
    ensures ReadQids(s, base, n) == GlueQids(qs + [q], ReadQids(s, p + 13, n - |qs + [q]|))
  {
    var rest := ReadQids(s, p + 13, n - |qs| - 1);
    if rest.Some? { assert qs + ([q] + rest.value) == (qs + [q]) + rest.value; }
  }

  /** The bytes before position n are the same. */
  predicate Stays(b: bytes, c: bytes, n: nat) { |b| == |c| && n <= |b| && b[..n] == c[..n] }

  /** The string ends, with its zero, before position p. */
  predicate Ends(b: bytes, x: Span, p: nat) { x.at + x.len < p <= |b| && b[x.at + x.len] == 0 }

  /** Reading the next field of the shape. */
  lemma ReadNext(shape: seq<Kind>, s: bytes, base: nat, done: seq<Field>, p: nat, f: Field)
    requires |done| < |shape| && Read(shape[|done|], s, p) == Some(f)
    requires ReadAll(shape, s, base) == Glue(done, ReadAll(shape[|done|..], s, p))
    ensures ReadAll(shape, s, base) == Glue(done + [f], ReadAll(shape[|done + [f]|..], s, p + Length(f)))
    ensures Sum(done + [f]) == Sum(done) + Length(f)
  {
    var ks := shape[|done|..];
    assert ks[1..] == shape[|done + [f]|..];
    SumSnoc(done, f);
    ReadHead(ks, s, p, f);
    GlueTwice(done, f, ReadAll(ks[1..], s, p + Length(f)));
  }

  lemma ReadFails(shape: seq<Kind>, s: bytes, base: nat, done: seq<Field>, p: nat)
    requires |done| < |shape| && Read(shape[|done|], s, p) == None
    requires ReadAll(shape, s, base) == Glue(done, ReadAll(shape[|done|..], s, p))
    ensures ReadAll(shape, s, base) == None
  {
  }

  lemma ReadHead(ks: seq<Kind>, s: bytes, p: nat, f: Field)
    requires ks != [] && Read(ks[0], s, p) == Some(f)
    ensures ReadAll(ks, s, p) == Glue([f], ReadAll(ks[1..], s, p + Length(f)))
  {
  }

  lemma GlueTwice(done: seq<Field>, f: Field, rest: Option<seq<Field>>)
    ensures Glue(done, Glue([f], rest)) == Glue(done + [f], rest)
  {
    if rest.Some? { assert done + ([f] + rest.value) == (done + [f]) + rest.value; }
  }

  lemma {:induction false} SumSnoc(fs: seq<Field>, f: Field)
    ensures Sum(fs + [f]) == Sum(fs) + Length(f)
  {
    if fs == [] {
      assert [] + [f] == [f] && [f][1..] == [];
    } else {
      assert (fs + [f])[1..] == fs[1..] + [f];
      SumSnoc(fs[1..], f);
    }
  }

  lemma GetStays(b: bytes, c: bytes, x: Span, p: nat)
    requires Stays(b, c, p) && Ends(b, x, p)
    ensures Get(b, x) == Get(c, x) && Ends(c, x, p)
  {
    assert b[x.at..x.at + x.len] == b[..p][x.at..x.at + x.len] && c[x.at..x.at + x.len] == c[..p][x.at..x.at + x.len];
    assert b[x.at + x.len] == b[..p][x.at + x.len] && c[x.at + x.len] == c[..p][x.at + x.len];
  }

  /** Every string of the message ends with its zero inside the buffer. */
  predicate Ended(f: Fcall<Span>, b: bytes) {
    match f
    case Tversion(_, v) => Ends(b, v, |b|)
    case Rversion(_, v) => Ends(b, v, |b|)
    case Tauth(_, u, n) => Ends(b, u, |b|) && Ends(b, n, |b|)
    case Tattach(_, _, u, n) => Ends(b, u, |b|) && Ends(b, n, |b|)
    case Rerror(e) => Ends(b, e, |b|)
    case Twalk(_, _, w) => EndAll(b, w, |b|)
    case Tcreate(_, n, _, _) => Ends(b, n, |b|)
    case _ => true
  }

  /** Two strings one after the other: the first stays while the second is moved. */
  method RTwoTexts(r: Reader, ghost done: seq<Field>) returns (x: Span, y: Span)
    requires r.Now(done) && |done| + 1 < |r.shape| && r.shape[|done|] == KText && r.shape[|done| + 1] == KText
    modifies r, r.buf
    ensures r.Now(done + [Text(Get(r.buf[..], x))] + [Text(Get(r.buf[..], y))])
    ensures r.ok ==> Ends(r.buf[..], x, r.buf.Length) && Ends(r.buf[..], y, r.buf.Length)
  {
    x := r.RText(done);
    ghost var b, p, ok := r.buf[..], r.p, r.ok;
    y := r.RText(done + [Text(Get(b, x))]);
    if ok { GetStays(b, r.buf[..], x, p); }
  }

  /** What has been read, f, is all of a message of type `kind`, or there is none. */
  ghost predicate Got(r: Reader, kind: nat, f: Fcall<Span>)
    reads r, r.buf
  {
    if r.ok then
      var fs := Fields(Resolve(f, r.buf[..]));
      r.Now(fs) && |fs| == |r.shape| && TypeOf(f) == kind && !f.Other? && Ended(f, r.buf[..])
    else ReadAll(r.shape, r.s, r.base) == None
  }

  /** The fields of a message of type `kind`. */
  method GetFields(r: Reader, kind: nat) returns (f: Fcall<Span>)
    requires r.Now([]) && Shape(kind) == Some(r.shape)
    modifies r, r.buf
    ensures Got(r, kind, f)
  {
    if kind in {100, 101, 102, 104, 107} {
      f := GetTexts(r, kind);
    } else if kind in {110, 111, 112, 113, 115} {
      f := GetWalks(r, kind);
    } else if kind == 114 {
      f := GetCreate(r);
    } else if kind in {116, 117, 118, 125, 126} {
      f := GetData(r, kind);
    } else {
      f := GetOthers(r, kind);
    }
  }

  /** Versions, authentication, attaching and errors. */
  method GetTexts(r: Reader, kind: nat) returns (f: Fcall<Span>)
    requires r.Now([]) && Shape(kind) == Some(r.shape) && kind in {100, 101, 102, 104, 107}
    modifies r, r.buf
    ensures Got(r, kind, f)
  {
    if kind == 100 || kind == 101 {
      var m := r.RNum(4, []);
      var v := r.RText([] + [Num(4, m)]);
      f := if kind == 100 then Tversion(m, v) else Rversion(m, v);
      assert [] + [Num(4, m)] + [Text(Get(r.buf[..], v))] == Fields(Resolve(f, r.buf[..]));
    } else if kind == 107 {
      var e := r.RText([]);
      f := Rerror(e);
      assert [] + [Text(Get(r.buf[..], e))] == Fields(Resolve(f, r.buf[..]));
    } else {
      f := GetUsers(r, kind);
    }
  }

  /** What carries the names of a user and a tree. */
  method GetUsers(r: Reader, kind: nat) returns (f: Fcall<Span>)
    requires r.Now([]) && Shape(kind) == Some(r.shape) && (kind == 102 || kind == 104)
    modifies r, r.buf
    ensures Got(r, kind, f)
  {
    if kind == 102 {
      var a := r.RNum(4, []);
      var u, n := RTwoTexts(r, [] + [Num(4, a)]);
      f := Tauth(a, u, n);
      assert [] + [Num(4, a)] + [Text(Get(r.buf[..], u))] + [Text(Get(r.buf[..], n))] == Fields(Resolve(f, r.buf[..]));
    } else {
      var i := r.RNum(4, []);
      var a := r.RNum(4, [] + [Num(4, i)]);
      ghost var done := [] + [Num(4, i)] + [Num(4, a)];
      var u, n := RTwoTexts(r, done);
      f := Tattach(i, a, u, n);
      assert done + [Text(Get(r.buf[..], u))] + [Text(Get(r.buf[..], n))] == Fields(Resolve(f, r.buf[..]));
    }
  }

  /** Walking, opening and what a create answers. */
  method GetWalks(r: Reader, kind: nat) returns (f: Fcall<Span>)
    requires r.Now([]) && Shape(kind) == Some(r.shape) && kind in {110, 111, 112, 113, 115}
    modifies r, r.buf
    ensures Got(r, kind, f)
  {
    f := Rflush;
    if kind == 110 {
      var i := r.RNum(4, []);
      var n := r.RNum(4, [] + [Num(4, i)]);
      var w := r.RNames([] + [Num(4, i)] + [Num(4, n)]);
      f := Twalk(i, n, w);
      assert [] + [Num(4, i)] + [Num(4, n)] + [Names(GetAll(r.buf[..], w))] == Fields(Resolve(f, r.buf[..]));
    } else if kind == 111 {
      var q := r.RQids([]);
      f := Rwalk(q);
      assert [] + [Ids(q)] == Fields(Resolve(f, r.buf[..]));
    } else if kind == 112 {
      var i := r.RNum(4, []);
      var m := r.RNum(1, [] + [Num(4, i)]);
      f := Topen(i, m);
      assert [] + [Num(4, i)] + [Num(1, m)] == Fields(Resolve(f, r.buf[..]));
    } else {
      var q := r.RQid([]);
      var u := r.RNum(4, [] + [Id(q)]);
      f := if kind == 113 then Ropen(q, u) else Rcreate(q, u);
      assert [] + [Id(q)] + [Num(4, u)] == Fields(Resolve(f, r.buf[..]));
    }
  }

  method GetCreate(r: Reader) returns (f: Fcall<Span>)
    requires r.Now([]) && Shape(114) == Some(r.shape)
    modifies r, r.buf
    ensures Got(r, 114, f)
  {
    var i := r.RNum(4, []);
    var n := r.RText([] + [Num(4, i)]);
    ghost var done := [] + [Num(4, i)] + [Text(Get(r.buf[..], n))];
    var q := r.RNum(4, done);
    var m := r.RNum(1, done + [Num(4, q)]);
    f := Tcreate(i, n, q, m);
    assert done + [Num(4, q)] + [Num(1, m)] == Fields(Resolve(f, r.buf[..]));
  }

  /** Reading, writing and what carries a directory entry. */
  method GetData(r: Reader, kind: nat) returns (f: Fcall<Span>)
    requires r.Now([]) && Shape(kind) == Some(r.shape) && kind in {116, 117, 118, 125, 126}
    modifies r, r.buf
    ensures Got(r, kind, f)
  {
    if kind == 117 {
      var d := r.RData(4, []);
      f := Rread(d);
      assert [] + [Data(4, d)] == Fields(Resolve(f, r.buf[..]));
    } else if kind == 125 {
      var d := r.RData(2, []);
      f := Rstat(d);
      assert [] + [Data(2, d)] == Fields(Resolve(f, r.buf[..]));
    } else if kind == 126 {
      var i := r.RNum(4, []);
      var d := r.RData(2, [] + [Num(4, i)]);
      f := Twstat(i, d);
      assert [] + [Num(4, i)] + [Data(2, d)] == Fields(Resolve(f, r.buf[..]));
    } else {
      f := GetIO(r, kind);
    }
  }

  method GetIO(r: Reader, kind: nat) returns (f: Fcall<Span>)
    requires r.Now([]) && Shape(kind) == Some(r.shape) && (kind == 116 || kind == 118)
    modifies r, r.buf
    ensures Got(r, kind, f)
  {
    var i := r.RNum(4, []);
    var o := r.RNum(8, [] + [Num(4, i)]);
    ghost var done := [] + [Num(4, i)] + [Num(8, o)];
    if kind == 116 {
      var c := r.RNum(4, done);
      f := Tread(i, o, c);
      assert done + [Num(4, c)] == Fields(Resolve(f, r.buf[..]));
    } else {
      var d := r.RData(4, done);
      f := Twrite(i, o, d);
      assert done + [Data(4, d)] == Fields(Resolve(f, r.buf[..]));
    }
  }

  /** The rest of the message types: one field or none. */
  method GetOthers(r: Reader, kind: nat) returns (f: Fcall<Span>)
    requires r.Now([]) && Shape(kind) == Some(r.shape) &&
             kind in {103, 105, 108, 109, 119, 120, 121, 122, 123, 124, 127}
    modifies r, r.buf
    ensures Got(r, kind, f)
  {
    if kind == 103 || kind == 105 {
      var q := r.RQid([]);
      f := if kind == 103 then Rauth(q) else Rattach(q);
      assert [] + [Id(q)] == Fields(Resolve(f, r.buf[..]));
    } else if kind == 108 {
      var o := r.RNum(2, []);
      f := Tflush(o);
      assert [] + [Num(2, o)] == Fields(Resolve(f, r.buf[..]));
    } else if kind == 119 || kind == 120 || kind == 122 || kind == 124 {
      var v := r.RNum(4, []);
      f := if kind == 119 then Rwrite(v) else if kind == 120 then Tclunk(v) else if kind == 122 then Tremove(v)
          else Tstat(v);
      assert [] + [Num(4, v)] == Fields(Resolve(f, r.buf[..]));
    } else {
      f := if kind == 109 then Rflush else if kind == 121 then Rclunk else if kind == 123 then Rremove else Rwstat;
    }
  }

  /** Read the message at the start of the buffer: its size, or 0 if there is none. */
  method ConvM2S(buf: array<byte>) returns (r: nat, tag: nat, f: Fcall<Span>)
    modifies buf
    ensures match Parse(old(buf[..]))
      case None => r == 0
      case Some(m) =>
        r == 7 + |WireAll(m.fields)| <= buf.Length && tag == m.tag && TypeOf(f) == m.kind && !f.Other? &&
        Fields(Resolve(f, buf[..])) == m.fields && Ended(f, buf[..]) && buf[r..] == old(buf[..])[r..]
  {
    r, tag, f := 0, 0, Rflush;
    if buf.Length < 7 { return; }
    ghost var s := buf[..];
    var head := new Reader(buf, 0, []);
    var size := head.GNum(4);
    var kind := head.GNum(1);
    tag := head.GNum(2);
    assert s[0..4] == s[..4];
    if size < 7 || Shape(kind) == None { return; }
    var body := new Reader(buf, 7, Shape(kind).value);
    f := GetFields(body, kind);
    if !body.ok { return; }
    ghost var fs := Fields(Resolve(f, buf[..]));
    assert body.shape[|fs|..] == [];
    assert fs + [] == fs;
    LongAll(fs);
    if size == body.p { r := size; }
  }

  lemma CountOf(s: bytes, p: nat)
    requires p + 2 <= |s|
    ensures ReadNum(s, p, 2) == Some(s[p] as nat + 256 * s[p + 1] as nat)
  {
    assert s[p..p + 2] == [s[p], s[p + 1]] && [s[p], s[p + 1]][1..] == [s[p + 1]] && [s[p + 1]][1..] == [];
    assert FromLe([s[p + 1]]) == s[p + 1] as nat;
  }

  // ----- round trips

  /** The string a C caller sees at position p: the bytes before the first zero. */
  function CString(b: bytes, p: nat): bytes
    decreases |b| - p
  {
    if p >= |b| || b[p] == 0 then [] else [b[p]] + CString(b, p + 1)
  }

  /** A string read is the one the caller sees exactly when it has no zero inside. */
  lemma {:induction false} SeenWhole(b: bytes, x: Span)
    requires Ends(b, x, |b|)
    ensures CString(b, x.at) == Get(b, x) <==> 0 !in Get(b, x)
    ensures 0 !in Get(b, x) ==> CString(b, x.at) == Get(b, x)
    decreases x.len
  {
    if x.len > 0 {
      var y := Span(x.at + 1, x.len - 1);
      assert Get(b, x) == [b[x.at]] + Get(b, y);
      SeenWhole(b, y);
      if b[x.at] != 0 && CString(b, x.at) == Get(b, x) {
        assert CString(b, x.at)[1..] == CString(b, y.at) && Get(b, x)[1..] == Get(b, y);
      }
    }
  }

  /** Decoding what the encoder wrote, whatever follows it, gives the message back. */
  lemma RoundTrip(tag: nat, f: Fcall<Str>, rest: bytes)
    requires WellFormed(tag, Plain(f))
    ensures Parse(Message(tag, Plain(f)) + rest) == Some(Parsed(TypeOf(f), tag, Fields(Plain(f))))
  {
    var s := Message(tag, Plain(f)) + rest;
    assert s[0..|Message(tag, Plain(f))|] == Message(tag, Plain(f));
    SameType(f);
    ParsesExactly(s, tag, Plain(f));
  }

  /** Encode into a buffer, then decode it in place: every field comes back, strings left out as empty ones. */
  method EncodeDecode(tag: nat, f: Fcall<Str>, buf: array<byte>) returns (g: Fcall<Span>)
    requires WellFormed(tag, Plain(f)) && |Message(tag, Plain(f))| <= buf.Length
    modifies buf
    ensures Resolve(g, buf[..]) == Plain(f) && Ended(g, buf[..])
    ensures buf[|Message(tag, Plain(f))|..] == old(buf[..])[|Message(tag, Plain(f))|..]
  {
    ghost var m := Message(tag, Plain(f));
    FewEnough(f);
    var n := ConvS2M(tag, f, buf);
    ghost var s := buf[..];
    assert s == m + s[|m|..];
    RoundTrip(tag, f, s[|m|..]);
    var n', tag';
    n', tag', g := ConvM2S(buf);
    SameType(f);
    ResolveType(g, buf[..]);
    FieldsDetermine(Resolve(g, buf[..]), Plain(f));
    assert n' == n;
    assert s[|m|..] == old(buf[..])[|m|..];
  }

  lemma ResolveType(g: Fcall<Span>, b: bytes)
    ensures TypeOf(Resolve(g, b)) == TypeOf(g) && Resolve(g, b).Other? == g.Other?
  {
  }

  lemma FewEnough(f: Fcall<Str>)
    requires AllFit(Fields(Plain(f)))
    ensures f.Twalk? ==> |f.wname| <= MAXWELEM
    ensures f.Rwalk? ==> |f.wqid| <= MAXWELEM
  {
    var fs := Fields(Plain(f));
    if f.Twalk? { assert AllFit(fs[1..]) && AllFit(fs[1..][1..]) && fs[1..][1..] == [Names(OrEmptyAll(f.wname))]; }
  }
}
