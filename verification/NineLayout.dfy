/** Where the fields of messages and directory entries stand, byte by byte. */
module NineLayout {
  import opened Basics
  import opened NineFields
  import opened NineP
  import opened NineStat

  // ----- what stands at p

  /** v, little-endian in n bytes. */
  predicate N(m: bytes, p: nat, n: nat, v: nat) {
    p + n <= |m| &&
    (n == 1 ==> v == m[p] as nat) &&
    (n == 2 ==> v == m[p] as nat + 0x100 * m[p + 1] as nat) &&
    (n == 4 ==> v == Four(m, p)) &&
    (n == 8 ==> v == Four(m, p) + 0x1_0000_0000 * Four(m, p + 4))
  }

  function Four(m: bytes, p: nat): nat
    requires p + 4 <= |m|
  {
    m[p] as nat + 0x100 * m[p + 1] as nat + 0x1_0000 * m[p + 2] as nat + 0x100_0000 * m[p + 3] as nat
  }

  /** d, its length before it in n bytes. */
  predicate D(m: bytes, p: nat, n: nat, d: bytes) { N(m, p, n, |d|) && At(m, p + n, d) }

  predicate S(m: bytes, p: nat, s: bytes) { D(m, p, 2, s) }

  /** Type, version and path. */
  predicate Q(m: bytes, p: nat, q: Qid) { N(m, p, 1, q.kind) && N(m, p + 1, 4, q.vers) && N(m, p + 5, 8, q.path) }

  predicate Ss(m: bytes, p: nat, ss: seq<bytes>)
    decreases |ss|
  {
    ss == [] || (S(m, p, ss[0]) && Ss(m, p + 2 + |ss[0]|, ss[1..]))
  }

  predicate Qs(m: bytes, p: nat, qs: seq<Qid>)
    decreases |qs|
  {
    qs == [] || (Q(m, p, qs[0]) && Qs(m, p + 13, qs[1..]))
  }

  predicate F(m: bytes, p: nat, f: Field) {
    match f
    case Num(w, v) => N(m, p, w, v)
    case Text(s) => S(m, p, s)
    case Id(q) => Q(m, p, q)
    case Names(ss) => N(m, p, 2, |ss|) && Ss(m, p + 2, ss)
    case Ids(qs) => N(m, p, 2, |qs|) && Qs(m, p + 2, qs)
    case Data(w, d) => D(m, p, w, d)
  }

  lemma LeFirst(b: bytes)
    requires b != []
    ensures FromLe(b) == b[0] as nat + 256 * FromLe(b[1..])
  {
  }

  lemma FourFrom(m: bytes, p: nat)
    requires p + 4 <= |m|
    ensures FromLe(m[p..p + 4]) == Four(m, p)
  {
    var b := m[p..p + 4];
    LeFirst(b);
    LeFirst(b[1..]);
    LeFirst(b[2..]);
    LeFirst(b[3..]);
    assert b[1..][1..] == b[2..] && b[2..][1..] == b[3..] && b[3..][1..] == [];
  }

  lemma {:induction false} LeSplit(b: bytes, n: nat)
    requires n <= |b|
    ensures FromLe(b) == FromLe(b[..n]) + Range(n) * FromLe(b[n..])
    decreases n
  {
    if n == 0 {
      assert b[0..] == b;
    } else {
      LeSplit(b[1..], n - 1);
      assert b[..n][1..] == b[1..][..n - 1] && b[1..][n - 1..] == b[n..];
      Distribute(b[0] as nat, FromLe(b[1..][..n - 1]), Range(n - 1), FromLe(b[n..]));
    }
  }

  lemma Distribute(a: int, x: int, p: int, y: int)
    ensures a + 256 * (x + p * y) == (a + 256 * x) + (256 * p) * y
  {
  }

  lemma NumStands(m: bytes, p: nat, n: nat, v: nat)
    requires v < Range(n) && At(m, p, Le(n, v)) && n in {1, 2, 4, 8}
    ensures N(m, p, n, v)
  {
    NumAt(m, p, n, v);
    var b := m[p..p + n];
    assert FromLe(b) == v;
    if n == 8 {
      LeSplit(b, 4);
      assert b[..4] == m[p..p + 4] && b[4..] == m[p + 4..p + 8];
      FourFrom(m, p);
      FourFrom(m, p + 4);
      assert Range(4) == 0x1_0000_0000;
    } else if n == 4 {
      FourFrom(m, p);
    } else if n == 2 {
      LeFirst(b);
      LeFirst(b[1..]);
      assert b[1..][1..] == [];
    } else {
      LeFirst(b);
      assert b[1..] == [];
    }
  }

  lemma DataStands(m: bytes, p: nat, n: nat, d: bytes)
    requires |d| < Range(n) && At(m, p, Le(n, |d|) + d) && n in {2, 4}
    ensures D(m, p, n, d)
  {
    AtSplit(m, p, Le(n, |d|), d);
    NumStands(m, p, n, |d|);
  }

  lemma QidStands(m: bytes, p: nat, q: Qid)
    requires QidFits(q) && At(m, p, WireQid(q))
    ensures Q(m, p, q)
  {
    AtSplit(m, p, Le(1, q.kind) + Le(4, q.vers), Le(8, q.path));
    AtSplit(m, p, Le(1, q.kind), Le(4, q.vers));
    NumStands(m, p, 1, q.kind);
    NumStands(m, p + 1, 4, q.vers);
    NumStands(m, p + 5, 8, q.path);
  }

  lemma {:induction false} TextsStand(m: bytes, p: nat, ss: seq<bytes>)
    requires TextsFit(ss) && At(m, p, WireTexts(ss))
    ensures Ss(m, p, ss)
    decreases |ss|
  {
    if ss != [] {
      AtSplit(m, p, WireText(ss[0]), WireTexts(ss[1..]));
      DataStands(m, p, 2, ss[0]);
      TextsStand(m, p + 2 + |ss[0]|, ss[1..]);
    }
  }

  lemma {:induction false} QidsStand(m: bytes, p: nat, qs: seq<Qid>)
    requires QidsFit(qs) && At(m, p, WireQids(qs))
    ensures Qs(m, p, qs)
    decreases |qs|
  {
    if qs != [] {
      AtSplit(m, p, WireQid(qs[0]), WireQids(qs[1..]));
      QidStands(m, p, qs[0]);
      QidsStand(m, p + 13, qs[1..]);
    }
  }

  lemma CountStands(m: bytes, p: nat, n: nat, w: bytes)
    requires n <= MAXWELEM && At(m, p, Le(2, n) + w)
    ensures N(m, p, 2, n) && At(m, p + 2, w)
  {
    AtSplit(m, p, Le(2, n), w);
    assert Range(2) == 0x1_0000;
    NumStands(m, p, 2, n);
  }

  /** The widths that numbers and lengths have. */
  predicate Usual(f: Field) {
    (f.Num? ==> f.width in {1, 2, 4, 8}) && (f.Data? ==> f.width in {2, 4})
  }

  lemma FieldStands(m: bytes, p: nat, f: Field)
    requires Fits(f) && Usual(f) && At(m, p, Wire(f))
    ensures F(m, p, f)
  {
    match f
    case Num(w, v) => NumStands(m, p, w, v);
    case Text(s) => DataStands(m, p, 2, s);
    case Id(q) => QidStands(m, p, q);
    case Names(ss) =>
      CountStands(m, p, |ss|, WireTexts(ss));
      TextsStand(m, p + 2, ss);
    case Ids(qs) =>
      CountStands(m, p, |qs|, WireQids(qs));
      QidsStand(m, p + 2, qs);
    case Data(w, d) => DataStands(m, p, w, d);
  }

  /** Fields from p on, one behind the other. */
  predicate Fs(m: bytes, p: nat, fs: seq<Field>)
    decreases |fs|
  {
    fs == [] || (F(m, p, fs[0]) && Fs(m, p + Length(fs[0]), fs[1..]))
  }

  predicate AllUsual(fs: seq<Field>) { fs == [] || (Usual(fs[0]) && AllUsual(fs[1..])) }

  lemma FirstStands(m: bytes, p: nat, f: Field, rest: bytes)
    requires Fits(f) && Usual(f) && At(m, p, Wire(f) + rest)
    ensures F(m, p, f) && At(m, p + Length(f), rest)
  {
    Long(f);
    AtSplit(m, p, Wire(f), rest);
    FieldStands(m, p, f);
  }

  lemma FsFirst(m: bytes, p: nat, fs: seq<Field>, f: Field, rest: seq<Field>)
    requires fs != [] && f == fs[0] && rest == fs[1..] && F(m, p, f) && Fs(m, p + Length(f), rest)
    ensures Fs(m, p, fs)
  {
  }

  lemma {:induction false} FieldsStand(m: bytes, p: nat, fs: seq<Field>)
    requires AllFit(fs) && At(m, p, WireAll(fs)) && AllUsual(fs)
    ensures Fs(m, p, fs)
    decreases |fs|
  {
    if fs != [] {
      var f, rest := fs[0], fs[1..];
      FirstStands(m, p, f, WireAll(rest));
      FieldsStand(m, p + Length(f), rest);
      FsFirst(m, p, fs, f, rest);
    }
  }

  // ----- messages

  /** The message m is f: its type, and its fields from byte 7 on. */
  predicate Laid(m: bytes, f: Fcall<bytes>) {
    match f
    case Tversion(msize, version) => N(m, 4, 1, 100) && N(m, 7, 4, msize) && S(m, 11, version)
    case Rversion(msize, version) => N(m, 4, 1, 101) && N(m, 7, 4, msize) && S(m, 11, version)
    case Tauth(afid, uname, aname) =>
      N(m, 4, 1, 102) && N(m, 7, 4, afid) && S(m, 11, uname) && S(m, 13 + |uname|, aname)
    case Rauth(aqid) => N(m, 4, 1, 103) && Q(m, 7, aqid)
    case Tattach(fid, afid, uname, aname) =>
      N(m, 4, 1, 104) && N(m, 7, 4, fid) && N(m, 11, 4, afid) && S(m, 15, uname) && S(m, 17 + |uname|, aname)
    case Rattach(qid) => N(m, 4, 1, 105) && Q(m, 7, qid)
    case Rerror(ename) => N(m, 4, 1, 107) && S(m, 7, ename)
    case Tflush(oldtag) => N(m, 4, 1, 108) && N(m, 7, 2, oldtag)
    case Rflush => N(m, 4, 1, 109)
    case Twalk(fid, newfid, wname) =>
      N(m, 4, 1, 110) && N(m, 7, 4, fid) && N(m, 11, 4, newfid) && N(m, 15, 2, |wname|) && Ss(m, 17, wname)
    case Rwalk(wqid) => N(m, 4, 1, 111) && N(m, 7, 2, |wqid|) && Qs(m, 9, wqid)
    case Topen(fid, mode) => N(m, 4, 1, 112) && N(m, 7, 4, fid) && N(m, 11, 1, mode)
    case Ropen(qid, iounit) => N(m, 4, 1, 113) && Q(m, 7, qid) && N(m, 20, 4, iounit)
    case Tcreate(fid, name, perm, mode) =>
      N(m, 4, 1, 114) && N(m, 7, 4, fid) && S(m, 11, name) && N(m, 13 + |name|, 4, perm) && N(m, 17 + |name|, 1, mode)
    case Rcreate(qid, iounit) => N(m, 4, 1, 115) && Q(m, 7, qid) && N(m, 20, 4, iounit)
    case Tread(fid, offset, count) => N(m, 4, 1, 116) && N(m, 7, 4, fid) && N(m, 11, 8, offset) && N(m, 19, 4, count)
    case Rread(data) => N(m, 4, 1, 117) && D(m, 7, 4, data)
    case Twrite(fid, offset, data) => N(m, 4, 1, 118) && N(m, 7, 4, fid) && N(m, 11, 8, offset) && D(m, 19, 4, data)
    case Rwrite(count) => N(m, 4, 1, 119) && N(m, 7, 4, count)
    case Tclunk(fid) => N(m, 4, 1, 120) && N(m, 7, 4, fid)
    case Rclunk => N(m, 4, 1, 121)
    case Tremove(fid) => N(m, 4, 1, 122) && N(m, 7, 4, fid)
    case Rremove => N(m, 4, 1, 123)
    case Tstat(fid) => N(m, 4, 1, 124) && N(m, 7, 4, fid)
    case Rstat(stat) => N(m, 4, 1, 125) && D(m, 7, 2, stat)
    case Twstat(fid, stat) => N(m, 4, 1, 126) && N(m, 7, 4, fid) && D(m, 11, 2, stat)
    case Rwstat => N(m, 4, 1, 127)
    case Other(_) => false
  }

  /** Fields n up to k of a list at p end where `Span` says. */
  function Span(fs: seq<Field>, k: nat): nat
    requires k <= |fs|
  {
    if k == 0 then 0 else Span(fs, k - 1) + Length(fs[k - 1])
  }

  lemma {:induction false} FsAt(m: bytes, p: nat, fs: seq<Field>, k: nat)
    requires Fs(m, p, fs) && k < |fs|
    ensures F(m, p + Span(fs, k), fs[k])
    decreases |fs|
  {
    if k > 0 {
      FsAt(m, p + Length(fs[0]), fs[1..], k - 1);
      SpanFirst(fs, k);
    }
  }

  lemma {:induction false} SpanFirst(fs: seq<Field>, k: nat)
    requires 0 < k <= |fs|
    ensures Span(fs, k) == Length(fs[0]) + Span(fs[1..], k - 1)
  {
    if k > 1 { SpanFirst(fs, k - 1); }
  }

  lemma SpanNext(fs: seq<Field>, k: nat)
    requires k < |fs|
    ensures Span(fs, 0) == 0 && Span(fs, k + 1) == Span(fs, k) + Length(fs[k])
  {
  }

  lemma FourSpans(fs: seq<Field>)
    requires |fs| <= 4
    ensures Span(fs, 0) == 0
    ensures |fs| > 1 ==> Span(fs, 1) == Length(fs[0])
    ensures |fs| > 2 ==> Span(fs, 2) == Length(fs[0]) + Length(fs[1])
    ensures |fs| > 3 ==> Span(fs, 3) == Length(fs[0]) + Length(fs[1]) + Length(fs[2])
  {
    if |fs| > 1 { SpanNext(fs, 0); }
    if |fs| > 2 { SpanNext(fs, 1); }
    if |fs| > 3 { SpanNext(fs, 2); }
  }

  lemma EachStands(m: bytes, fs: seq<Field>)
    requires Fs(m, 7, fs)
    ensures forall k {:trigger Span(fs, k)} :: 0 <= k < |fs| ==> F(m, 7 + Span(fs, k), fs[k])
  {
    forall k {:trigger Span(fs, k)} | 0 <= k < |fs| ensures F(m, 7 + Span(fs, k), fs[k]) { FsAt(m, 7, fs, k); }
  }

  lemma HeadLaid(tag: nat, f: Fcall<bytes>)
    requires WellFormed(tag, f)
    ensures var m := Message(tag, f);
      N(m, 0, 4, |m|) && N(m, 4, 1, TypeOf(f)) && N(m, 5, 2, tag) && At(m, 7, WireAll(Fields(f)))
  {
    var m, fs := Message(tag, f), Fields(f);
    assert m[0..|m|] == m;
    var head := Le(4, 7 + |WireAll(fs)|) + Le(1, TypeOf(f)) + Le(2, tag);
    AtSplit(m, 0, head, WireAll(fs));
    AtSplit(m, 0, Le(4, 7 + |WireAll(fs)|) + Le(1, TypeOf(f)), Le(2, tag));
    AtSplit(m, 0, Le(4, 7 + |WireAll(fs)|), Le(1, TypeOf(f)));
    assert Range(1) == 256;
    NumStands(m, 0, 4, |m|);
    NumStands(m, 4, 1, TypeOf(f));
    NumStands(m, 5, 2, tag);
  }

  lemma {:induction false} UsualEach(fs: seq<Field>)
    requires forall i {:trigger fs[i]} :: 0 <= i < |fs| ==> Usual(fs[i])
    ensures AllUsual(fs)
  {
    if fs != [] { UsualEach(fs[1..]); }
  }

  lemma FieldsUsual(f: Fcall<bytes>)
    ensures AllUsual(Fields(f)) && |Fields(f)| <= 4
  {
    UsualEach(Fields(f));
  }

  /** Size, type and tag, and each field in its place. */
  lemma MessageLaid(tag: nat, f: Fcall<bytes>)
    requires WellFormed(tag, f)
    ensures var m := Message(tag, f); N(m, 0, 4, |m|) && N(m, 5, 2, tag) && Laid(m, f)
  {
    var m := Message(tag, f);
    HeadLaid(tag, f);
    FieldsLaid(m, f);
  }

  lemma FieldsLaid(m: bytes, f: Fcall<bytes>)
    requires !f.Other? && N(m, 4, 1, TypeOf(f)) && AllFit(Fields(f)) && At(m, 7, WireAll(Fields(f)))
    ensures Laid(m, f)
  {
    FieldsUsual(f);
    FieldsStand(m, 7, Fields(f));
    EachStands(m, Fields(f));
    LaidOut(m, f);
  }

  lemma LaidOut(m: bytes, f: Fcall<bytes>)
    requires !f.Other? && N(m, 4, 1, TypeOf(f))
    requires forall k {:trigger Span(Fields(f), k)} :: 0 <= k < |Fields(f)| ==>
               F(m, 7 + Span(Fields(f), k), Fields(f)[k])
    ensures Laid(m, f)
  {
    if TypeOf(f) <= 108 { LaidFirst(m, f); } else if TypeOf(f) <= 114 { LaidNext(m, f); } else { LaidLast(m, f); }
  }

  lemma LaidFirst(m: bytes, f: Fcall<bytes>)
    requires !f.Other? && N(m, 4, 1, TypeOf(f)) && TypeOf(f) <= 108
    requires forall k {:trigger Span(Fields(f), k)} :: 0 <= k < |Fields(f)| ==>
               F(m, 7 + Span(Fields(f), k), Fields(f)[k])
    ensures Laid(m, f)
  {
    FourSpans(Fields(f));
  }

  lemma LaidNext(m: bytes, f: Fcall<bytes>)
    requires !f.Other? && N(m, 4, 1, TypeOf(f)) && 108 < TypeOf(f) <= 114
    requires forall k {:trigger Span(Fields(f), k)} :: 0 <= k < |Fields(f)| ==>
               F(m, 7 + Span(Fields(f), k), Fields(f)[k])
    ensures Laid(m, f)
  {
    FourSpans(Fields(f));
  }

  lemma LaidLast(m: bytes, f: Fcall<bytes>)
    requires !f.Other? && N(m, 4, 1, TypeOf(f)) && TypeOf(f) > 114
    requires forall k {:trigger Span(Fields(f), k)} :: 0 <= k < |Fields(f)| ==>
               F(m, 7 + Span(Fields(f), k), Fields(f)[k])
    ensures Laid(m, f)
  {
    FourSpans(Fields(f));
  }

  // ----- directory entries

  predicate DirLaid(m: bytes, d: Dir<bytes>) {
    var uid := 43 + |d.name|;
    var gid := uid + 2 + |d.uid|;
    var muid := gid + 2 + |d.gid|;
    |m| >= 2 && N(m, 0, 2, |m| - 2) && N(m, 2, 2, d.kind) && N(m, 4, 4, d.dev) && Q(m, 8, d.qid) &&
    N(m, 21, 4, d.mode) && N(m, 25, 4, d.atime) && N(m, 29, 4, d.mtime) && N(m, 33, 8, d.length) &&
    S(m, 41, d.name) && S(m, uid, d.uid) && S(m, gid, d.gid) && S(m, muid, d.muid)
  }

  lemma StatLaid(d: Dir<bytes>)
    requires DirFits(d)
    ensures |Stat(d)| >= 2 && DirLaid(Stat(d), d)
  {
    var m, fs := Stat(d), DirFields(d);
    assert m[0..|m|] == m;
    AtSplit(m, 0, Le(2, |WireAll(fs)|), WireAll(fs));
    NumStands(m, 0, 2, |WireAll(fs)|);
    UsualEach(fs);
    FieldsStand(m, 2, fs);
    NumsStand(m, d, fs);
    TextsIn(m, d, fs);
  }

  lemma NumSpans(d: Dir<bytes>, fs: seq<Field>)
    requires fs == DirFields(d)
    ensures |fs| == 11 && Span(fs, 0) == 0 && Span(fs, 1) == 2 && Span(fs, 2) == 6 && Span(fs, 3) == 19
    ensures Span(fs, 4) == 23 && Span(fs, 5) == 27 && Span(fs, 6) == 31 && Span(fs, 7) == 39
  {
    SpanNext(fs, 0);
    SpanNext(fs, 1);
    SpanNext(fs, 2);
    SpanNext(fs, 3);
    SpanNext(fs, 4);
    SpanNext(fs, 5);
    SpanNext(fs, 6);
  }

  lemma NumsStand(m: bytes, d: Dir<bytes>, fs: seq<Field>)
    requires fs == DirFields(d) && Fs(m, 2, fs)
    ensures N(m, 2, 2, d.kind) && N(m, 4, 4, d.dev) && Q(m, 8, d.qid) && N(m, 21, 4, d.mode)
    ensures N(m, 25, 4, d.atime) && N(m, 29, 4, d.mtime) && N(m, 33, 8, d.length)
  {
    NumSpans(d, fs);
    FsAt(m, 2, fs, 0);
    FsAt(m, 2, fs, 1);
    FsAt(m, 2, fs, 2);
    FsAt(m, 2, fs, 3);
    FsAt(m, 2, fs, 4);
    FsAt(m, 2, fs, 5);
    FsAt(m, 2, fs, 6);
  }

  lemma TextsIn(m: bytes, d: Dir<bytes>, fs: seq<Field>)
    requires fs == DirFields(d) && Fs(m, 2, fs)
    ensures S(m, 41, d.name) && S(m, 43 + |d.name|, d.uid) && S(m, 45 + |d.name| + |d.uid|, d.gid)
    ensures S(m, 47 + |d.name| + |d.uid| + |d.gid|, d.muid)
  {
    NumSpans(d, fs);
    SpanNext(fs, 7);
    SpanNext(fs, 8);
    SpanNext(fs, 9);
    FsAt(m, 2, fs, 7);
    FsAt(m, 2, fs, 8);
    FsAt(m, 2, fs, 9);
    FsAt(m, 2, fs, 10);
  }
}
