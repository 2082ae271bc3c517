/**
  Directory entries on the wire: stat(5) in section 5 of the Plan 9 Programmer's Manual.
 */
module NineStat {
  import opened Basics
  import opened NineFields
  import opened NineCodec
  import opened NineDecode

  datatype Dir<+S> = Dir(kind: nat, dev: nat, qid: Qid, mode: nat, atime: nat, mtime: nat, length: nat,
                         name: S, uid: S, gid: S, muid: S)

  /** The length of an entry whose strings are empty, with its leading count. */
  const STATFIXLEN := 49

  function NumFields<S>(d: Dir<S>): seq<Field> {
    [Num(2, d.kind), Num(4, d.dev), Id(d.qid), Num(4, d.mode), Num(4, d.atime), Num(4, d.mtime), Num(8, d.length)]
  }

  function TextFields(d: Dir<bytes>): seq<Field> { [Text(d.name), Text(d.uid), Text(d.gid), Text(d.muid)] }

  function DirFields(d: Dir<bytes>): seq<Field> { NumFields(d) + TextFields(d) }

  const NUM_KINDS := [KNum(2), KNum(4), KId, KNum(4), KNum(4), KNum(4), KNum(8)]

  const DIR_KINDS := NUM_KINDS + [KText, KText, KText, KText]

  /** The entry: a count that excludes itself, then the fields. */
  function Stat(d: Dir<bytes>): bytes { Le(2, |WireAll(DirFields(d))|) + WireAll(DirFields(d)) }

  predicate DirFits(d: Dir<bytes>) { AllFit(DirFields(d)) && |WireAll(DirFields(d))| < Range(2) }

  function PlainDir(d: Dir<Str>): Dir<bytes> {
    Dir(d.kind, d.dev, d.qid, d.mode, d.atime, d.mtime, d.length, OrEmpty(d.name), OrEmpty(d.uid), OrEmpty(d.gid),
        OrEmpty(d.muid))
  }

  /** The entry at the start of s, the count ignored. */
  function ParseDir(s: bytes): Option<seq<Field>> { if |s| < STATFIXLEN then None else ReadAll(DIR_KINDS, s, 2) }

  lemma DirKinds(d: Dir<bytes>)
    ensures Kinds(DirFields(d)) == DIR_KINDS
  {
    KindsEach(DirFields(d));
  }

  lemma DirLong(d: Dir<bytes>)
    ensures |WireAll(DirFields(d))| == 47 + |d.name| + |d.uid| + |d.gid| + |d.muid|
  {
    LongAll(DirFields(d));
    SumEleven(DirFields(d));
  }

  function SumFrom(fs: seq<Field>, k: nat): nat
    decreases |fs| - k
  {
    if k >= |fs| then 0 else Length(fs[k]) + SumFrom(fs, k + 1)
  }

  lemma {:induction false} SumIsFrom(fs: seq<Field>, k: nat)
    requires k <= |fs|
    ensures Sum(fs[k..]) == SumFrom(fs, k)
    decreases |fs| - k
  {
    if k < |fs| {
      assert fs[k..][1..] == fs[k + 1..];
      SumIsFrom(fs, k + 1);
    }
  }

  lemma SumEleven(fs: seq<Field>)
    requires |fs| == 11
    ensures Sum(fs) == Length(fs[0]) + Length(fs[1]) + Length(fs[2]) + Length(fs[3]) + Length(fs[4]) + Length(fs[5]) +
      Length(fs[6]) + Length(fs[7]) + Length(fs[8]) + Length(fs[9]) + Length(fs[10])
  {
    assert fs[0..] == fs;
    SumIsFrom(fs, 0);
    assert SumFrom(fs, 8) == Length(fs[8]) + Length(fs[9]) + Length(fs[10]) by {
      assert SumFrom(fs, 11) == 0 && SumFrom(fs, 10) == Length(fs[10]) &&
             SumFrom(fs, 9) == Length(fs[9]) + Length(fs[10]);
    }
    assert SumFrom(fs, 4) == Length(fs[4]) + Length(fs[5]) + Length(fs[6]) + Length(fs[7]) + SumFrom(fs, 8) by {
      assert SumFrom(fs, 6) == Length(fs[6]) + Length(fs[7]) + SumFrom(fs, 8);
    }
    assert SumFrom(fs, 2) == Length(fs[2]) + Length(fs[3]) + SumFrom(fs, 4);
  }

  method SizeD2M(d: Dir<Str>) returns (n: nat)
    ensures n == |Stat(PlainDir(d))|
  {
    var sv := [d.name, d.uid, d.gid, d.muid];
    var ns, i := 0, 0;
    while i < 4
      invariant i <= 4 && ns == LengthOf(sv, i)
    {
      if sv[i].Some? { ns := ns + |sv[i].value|; }
      i := i + 1;
    }
    n := STATFIXLEN + ns;
    DirLong(PlainDir(d));
    assert LengthOf(sv, 2) == |OrEmpty(d.name)| + |OrEmpty(d.uid)|;
  }

  function LengthOf(sv: seq<Str>, i: nat): nat
    requires i <= |sv|
  {
    if i == 0 then 0 else LengthOf(sv, i - 1) + |OrEmpty(sv[i - 1])|
  }

  /** Write the entry: its size, 2 if only the count fits, 0 if not even that. */
  method ConvD2M(d: Dir<Str>, buf: array<byte>) returns (r: nat)
    modifies buf
    ensures var m := Stat(PlainDir(d));
      if buf.Length < 2 then r == 0 && buf[..] == old(buf[..])
      else if |m| > buf.Length then r == 2 && buf[..] == Le(2, |m| - 2) + old(buf[..])[2..]
      else r == |m| && buf[..] == m + old(buf[..])[|m|..]
  {
    if buf.Length < 2 { return 0; }
    ghost var p := PlainDir(d);
    var ss := SizeD2M(d);
    DirLong(p);
    if ss > buf.Length {
      PutCount(buf, ss - 2);
      return 2;
    }
    PutStat(buf, ss, d);
    return ss;
  }

  method PutCount(buf: array<byte>, n: nat)
    requires buf.Length >= 2
    modifies buf
    ensures buf[..] == Le(2, n) + old(buf[..])[2..]
  {
    CountAlone(n);
    var c := new Writer(buf, [Num(2, n)]);
    c.WNum(2, n, 0);
    assert c.plan[..1] == c.plan;
  }

  method PutStat(buf: array<byte>, ss: nat, d: Dir<Str>)
    requires ss == |Stat(PlainDir(d))| <= buf.Length
    modifies buf
    ensures buf[..] == Stat(PlainDir(d)) + old(buf[..])[ss..]
  {
    ghost var p := PlainDir(d);
    StatIs(p);
    assert [Num(2, ss - 2)] + DirFields(p) == StatFields(ss - 2, p);
    var w := new Writer(buf, StatFields(ss - 2, p));
    PutNums(w, ss - 2, d);
    PutTexts(w, ss - 2, d);
    assert w.plan[..12] == w.plan;
  }

  /** The fields of an entry with its count n. */
  function StatFields(n: nat, d: Dir<bytes>): seq<Field> {
    [Num(2, n), Num(2, d.kind), Num(4, d.dev), Id(d.qid), Num(4, d.mode), Num(4, d.atime), Num(4, d.mtime),
     Num(8, d.length), Text(d.name), Text(d.uid), Text(d.gid), Text(d.muid)]
  }

  method PutNums(w: Writer, n: nat, d: Dir<Str>)
    requires w.Did(0) && w.plan == StatFields(n, PlainDir(d))
    modifies w, w.buf
    ensures w.Did(8)
  {
    w.WNum(2, n, 0);
    w.WNum(2, d.kind, 1);
    w.WNum(4, d.dev, 2);
    w.WQid(d.qid, 3);
    w.WNum(4, d.mode, 4);
    w.WNum(4, d.atime, 5);
    w.WNum(4, d.mtime, 6);
    w.WNum(8, d.length, 7);
  }

  method PutTexts(w: Writer, ghost n: nat, d: Dir<Str>)
    requires w.Did(8) && w.plan == StatFields(n, PlainDir(d))
    modifies w, w.buf
    ensures w.Did(12)
  {
    w.WText(d.name, 8);
    w.WText(d.uid, 9);
    w.WText(d.gid, 10);
    w.WText(d.muid, 11);
  }

  lemma CountAlone(n: nat)
    ensures WireAll([Num(2, n)]) == Le(2, n)
  {
    WireSnoc([], Num(2, n));
    assert [] + [Num(2, n)] == [Num(2, n)];
  }

  lemma StatIs(d: Dir<bytes>)
    ensures WireAll([Num(2, |WireAll(DirFields(d))|)] + DirFields(d)) == Stat(d)
  {
    WireAppend([Num(2, |WireAll(DirFields(d))|)], DirFields(d));
    CountAlone(|WireAll(DirFields(d))|);
  }

  // ----- checking

  /** Where k strings from position p on end; None if a count is past the end. */
  function Skip(s: bytes, p: nat, k: nat): Option<nat>
    decreases k
  {
    if k == 0 then Some(p)
    else if p + 2 > |s| then None
    else Skip(s, p + 2 + FromLe(s[p..p + 2]), k - 1)
  }

  /** What statcheck accepts: the count is right, and four strings fill the rest exactly. */
  predicate Checked(s: bytes) {
    |s| >= STATFIXLEN && |s| == 2 + FromLe(s[..2]) && Skip(s, STATFIXLEN - 8, 4) == Some(|s|)
  }

  method StatCheck(buf: array<byte>) returns (ok: bool)
    ensures ok == Checked(buf[..])
  {
    ghost var s := buf[..];
    if buf.Length < STATFIXLEN { return false; }
    var size := CountAt(buf, 0);
    assert s[0..2] == s[..2];
    if buf.Length != 2 + size { return false; }
    var p: nat, i := STATFIXLEN - 8, 0;
    while i < 4
      invariant 0 <= i <= 4 && Skip(s, STATFIXLEN - 8, 4) == Skip(s, p, 4 - i)
    {
      if p + 2 > buf.Length { return false; }
      var n := CountAt(buf, p);
      p := p + 2 + n;
      i := i + 1;
    }
    return p == buf.Length;
  }

  method CountAt(buf: array<byte>, p: nat) returns (n: nat)
    requires p + 2 <= buf.Length
    ensures n == FromLe(buf[..][p..p + 2])
  {
    Count2(buf[..], p);
    n := buf[p] as nat + 256 * buf[p + 1] as nat;
  }

  lemma Count2(s: bytes, p: nat)
    requires p + 2 <= |s|
    ensures FromLe(s[p..p + 2]) == s[p] as nat + 256 * s[p + 1] as nat
  {
    CountOf(s, p);
  }

  lemma {:induction false} SkipReads(s: bytes, p: nat, k: nat)
    requires p <= |s|
    ensures Skip(s, p, k) == Some(|s|) <==> ReadTexts(s, p, k).Some? && p + TextsLength(ReadTexts(s, p, k).value) == |s|
    ensures ReadTexts(s, p, k).Some? ==> p + TextsLength(ReadTexts(s, p, k).value) <= |s|
    decreases k
  {
    if k > 0 && p + 2 <= |s| {
      var n := FromLe(s[p..p + 2]);
      if p + 2 + n <= |s| { SkipReads(s, p + 2 + n, k - 1); } else { SkipGrows(s, p + 2 + n, k - 1); }
    }
  }

  lemma {:induction false} SkipGrows(s: bytes, p: nat, k: nat)
    ensures Skip(s, p, k).Some? ==> Skip(s, p, k).value >= p
    decreases k
  {
    if k > 0 && p + 2 <= |s| { SkipGrows(s, p + 2 + FromLe(s[p..p + 2]), k - 1); }
  }

  // ----- what is accepted is what can be written

  /** Kinds whose fields always take the same room. */
  predicate Fixed(ks: seq<Kind>) { ks == [] || ((ks[0].KNum? || ks[0].KId?) && Fixed(ks[1..])) }

  function Width(ks: seq<Kind>): nat {
    if ks == [] then 0 else (if ks[0].KNum? then ks[0].width else 13) + Width(ks[1..])
  }

  lemma {:induction false} FixedReads(ks: seq<Kind>, s: bytes, p: nat)
    requires Fixed(ks) && p + Width(ks) <= |s|
    ensures ReadAll(ks, s, p).Some? && Sum(ReadAll(ks, s, p).value) == Width(ks)
    decreases |ks|
  {
    if ks != [] {
      var f := Read(ks[0], s, p).value;
      FixedReads(ks[1..], s, p + Length(f));
      var rest := ReadAll(ks[1..], s, p + Length(f)).value;
      ReadStep(ks, s, p, ks[0], ks[1..], f, rest);
      assert ([f] + rest)[1..] == rest;
    }
  }

  lemma NumKinds()
    ensures Fixed(NUM_KINDS) && Width(NUM_KINDS) == 39
  {
    assert NUM_KINDS[1..] == [KNum(4), KId, KNum(4), KNum(4), KNum(4), KNum(8)];
    assert NUM_KINDS[1..][1..] == [KId, KNum(4), KNum(4), KNum(4), KNum(8)];
    assert NUM_KINDS[1..][1..][1..] == [KNum(4), KNum(4), KNum(4), KNum(8)];
    assert [KNum(4), KNum(4), KNum(4), KNum(8)][1..] == [KNum(4), KNum(4), KNum(8)];
    assert [KNum(4), KNum(4), KNum(8)][1..] == [KNum(4), KNum(8)] && [KNum(4), KNum(8)][1..] == [KNum(8)] &&
           [KNum(8)][1..] == [];
    assert Width([KNum(8)]) == 8 && Width([KNum(4), KNum(8)]) == 12;
    assert Width([KNum(4), KNum(4), KNum(8)]) == 16 && Width([KNum(4), KNum(4), KNum(4), KNum(8)]) == 20;
    assert Width(NUM_KINDS[1..][1..]) == 33;
    assert Fixed([KNum(8)]) && Fixed([KNum(4), KNum(8)]) && Fixed([KNum(4), KNum(4), KNum(8)]) &&
           Fixed(NUM_KINDS[1..][1..][1..]);
    assert Fixed(NUM_KINDS[1..][1..]);
  }

  function Texts(d: Dir<bytes>): seq<bytes> { [d.name, d.uid, d.gid, d.muid] }

  function AsFields(ts: seq<bytes>): seq<Field> { if ts == [] then [] else [Text(ts[0])] + AsFields(ts[1..]) }

  lemma {:induction false} AsFieldsWire(ts: seq<bytes>)
    ensures WireAll(AsFields(ts)) == WireTexts(ts) && AllFit(AsFields(ts)) == TextsFit(ts)
  {
    if ts != [] {
      assert AsFields(ts)[1..] == AsFields(ts[1..]);
      AsFieldsWire(ts[1..]);
    }
  }

  lemma TwoTexts(x: bytes, y: bytes)
    ensures TextsLength([x, y]) == 4 + |x| + |y| && AsFields([x, y]) == [Text(x), Text(y)]
  {
    assert [x, y][1..] == [y] && [y][1..] == [];
    assert TextsLength([y]) == 2 + |y| && AsFields([y]) == [Text(y)];
  }

  lemma TextsAre(d: Dir<bytes>)
    ensures AsFields(Texts(d)) == TextFields(d)
  {
    var ts: seq<bytes> := Texts(d);
    assert ts[1..] == [d.uid, d.gid, d.muid] && ts[1..][1..] == [d.gid, d.muid] && ts[1..][1..][1..] == [d.muid];
    assert |ts[1..][1..][1..][1..]| == 0;
    TwoTexts(d.gid, d.muid);
  }

  lemma {:induction false} FitAppend(fs: seq<Field>, gs: seq<Field>)
    ensures AllFit(fs + gs) == (AllFit(fs) && AllFit(gs))
  {
    if fs == [] {
      assert [] + gs == gs;
    } else {
      assert (fs + gs)[1..] == fs[1..] + gs;
      FitAppend(fs[1..], gs);
    }
  }

  /** The entry's fields stand at position 2 exactly when its numbers do and its strings are read after them. */
  lemma DirStands(s: bytes, d: Dir<bytes>)
    requires |s| >= STATFIXLEN
    ensures AllFit(DirFields(d)) && At(s, 2, WireAll(DirFields(d))) <==>
      AllFit(NumFields(d)) && At(s, 2, WireAll(NumFields(d))) && ReadTexts(s, STATFIXLEN - 8, 4) == Some(Texts(d))
  {
    WireAppend(NumFields(d), TextFields(d));
    FitAppend(NumFields(d), TextFields(d));
    NumsLong(d);
    AtSplit(s, 2, WireAll(NumFields(d)), WireAll(TextFields(d)));
    TextsAre(d);
    AsFieldsWire(Texts(d));
    TextsAt(s, STATFIXLEN - 8, Texts(d));
  }

  lemma NumsLong(d: Dir<bytes>)
    ensures |WireAll(NumFields(d))| == 39
  {
    WireAppend(NumFields(d), TextFields(d));
    DirLong(d);
    TextsAre(d);
    AsFieldsWire(Texts(d));
    TextsLong(Texts(d));
    TextsSum(d);
  }

  /** Seven numbers always read. */
  lemma NumsStand(s: bytes) returns (d: Dir<bytes>)
    requires |s| >= STATFIXLEN && ReadTexts(s, STATFIXLEN - 8, 4).Some?
    ensures AllFit(NumFields(d)) && At(s, 2, WireAll(NumFields(d))) && Some(Texts(d)) == ReadTexts(s, STATFIXLEN - 8, 4)
  {
    NumKinds();
    FixedReads(NUM_KINDS, s, 2);
    var fs := ReadAll(NUM_KINDS, s, 2).value;
    ReadIsWritten(NUM_KINDS, s, 2);
    var ts := ReadTexts(s, STATFIXLEN - 8, 4).value;
    ReadTextsLength(s, STATFIXLEN - 8, 4);
    d := OfFields(fs, ts);
  }

  lemma OfFields(fs: seq<Field>, ts: seq<bytes>) returns (d: Dir<bytes>)
    requires Kinds(fs) == NUM_KINDS && |ts| == 4
    ensures NumFields(d) == fs && Texts(d) == ts
  {
    KindsEach(fs);
    assert |fs| == 7;
    assert KindOf(fs[0]) == KNum(2) && KindOf(fs[1]) == KNum(4) && KindOf(fs[2]) == KId && KindOf(fs[3]) == KNum(4);
    assert KindOf(fs[4]) == KNum(4) && KindOf(fs[5]) == KNum(4) && KindOf(fs[6]) == KNum(8);
    d := Dir(fs[0].v, fs[1].v, fs[2].q, fs[3].v, fs[4].v, fs[5].v, fs[6].v, ts[0], ts[1], ts[2], ts[3]);
  }

  /** statcheck accepts exactly the buffers that are some entry, whole. */
  lemma ChecksExactly(s: bytes)
    ensures Checked(s) <==> exists d: Dir<bytes> {:trigger Stat(d)} :: DirFits(d) && s == Stat(d)
  {
    if Checked(s) { var d := CheckedIs(s); }
    forall d: Dir<bytes> {:trigger Stat(d)} | DirFits(d) && s == Stat(d) ensures Checked(s) { WrittenChecks(d); }
  }

  lemma CheckedIs(s: bytes) returns (d: Dir<bytes>)
    requires Checked(s)
    ensures DirFits(d) && s == Stat(d)
  {
    SkipReads(s, STATFIXLEN - 8, 4);
    d := NumsStand(s);
    DirStands(s, d);
    DirLong(d);
    TextsSum(d);
    LeFrom(s[..2]);
    assert s == s[..2] + s[2..] && s[2..] == WireAll(DirFields(d));
  }

  lemma TextsSum(d: Dir<bytes>)
    ensures TextsLength(Texts(d)) == 8 + |d.name| + |d.uid| + |d.gid| + |d.muid|
  {
    var ts: seq<bytes> := Texts(d);
    assert ts[1..] == [d.uid, d.gid, d.muid] && ts[1..][1..] == [d.gid, d.muid] && ts[1..][1..][1..] == [d.muid];
    assert |ts[1..][1..][1..][1..]| == 0;
    TwoTexts(d.gid, d.muid);
  }

  lemma WrittenChecks(d: Dir<bytes>)
    requires DirFits(d)
    ensures Checked(Stat(d))
  {
    var s := Stat(d);
    var w := WireAll(DirFields(d));
    DirLong(d);
    FromLeLe(2, |w|);
    assert s[..2] == Le(2, |w|) && s[2..2 + |w|] == w;
    DirStands(s, d);
    TextsSum(d);
    SkipReads(s, STATFIXLEN - 8, 4);
  }

  // ----- reading

  function ResolveDir(d: Dir<Span>, b: bytes): Dir<bytes> {
    Dir(d.kind, d.dev, d.qid, d.mode, d.atime, d.mtime, d.length, Get(b, d.name), Get(b, d.uid), Get(b, d.gid),
        Get(b, d.muid))
  }

  /** Read the entry in the buffer, whatever its count says, and how long it is; 0 if the buffer is too short.
      The strings go to `strs`, one after the other, each with its zero; without `strs` they are not kept. */
  method ConvM2D(buf: array<byte>, strs: array?<byte>) returns (r: nat, d: Dir<Span>)
    requires strs != null ==> strs != buf && strs.Length >= buf.Length
    modifies if strs == null then {} else {strs}
    ensures match ParseDir(buf[..])
      case None => r == 0
      case Some(fs) =>
        r == 2 + |WireAll(fs)| && NumFields(d) <= fs && |fs| == 11 &&
        (strs != null ==> DirFields(ResolveDir(d, strs[..])) == fs && EndAll(strs[..], Spans(d), strs.Length))
  {
    r, d := 0, Dir(0, 0, Qid(0, 0, 0), 0, 0, 0, 0, Span(0, 0), Span(0, 0), Span(0, 0), Span(0, 0));
    if buf.Length < STATFIXLEN { return; }
    var rd := new Reader(buf, 2, DIR_KINDS);
    var n := ReadNums(rd);
    ghost var ns := NumFields(n);
    var sv;
    ghost var ts;
    sv, ts := CopyTexts(rd, strs, ns);
    if !rd.ok { return; }
    d := n.(name := sv[0], uid := sv[1], gid := sv[2], muid := sv[3]);
    assert Spans(d) == sv;
    r := rd.p;
    AllRead(rd, ns, ts);
    if strs != null { Resolved(d, strs[..], sv, ts); }
  }

  /** After eleven fields the entry is read. */
  lemma AllRead(rd: Reader, ns: seq<Field>, ts: seq<bytes>)
    requires rd.ok && rd.base == 2 && |ns| == 7 && |ts| == 4 && rd.shape == DIR_KINDS && rd.Now(ns + AsFields(ts))
    ensures ReadAll(DIR_KINDS, rd.s, 2) == Some(ns + AsFields(ts)) && |AsFields(ts)| == 4
    ensures rd.p == 2 + |WireAll(ns + AsFields(ts))|
  {
    var fs := ns + AsFields(ts);
    AsFieldsLong(ts);
    assert rd.shape[|fs|..] == [] && fs + [] == fs;
    LongAll(fs);
  }

  lemma Resolved(d: Dir<Span>, b: bytes, sv: seq<Span>, ts: seq<bytes>)
    requires |sv| == |ts| == 4 && Spans(d) == sv && GetAll(b, sv) == ts
    ensures TextFields(ResolveDir(d, b)) == AsFields(ts) && NumFields(ResolveDir(d, b)) == NumFields(d)
  {
    FourOf(b, sv);
    assert sv[0] == d.name && sv[1] == d.uid && sv[2] == d.gid && sv[3] == d.muid;
    TextsAre(ResolveDir(d, b));
  }

  function Spans(d: Dir<Span>): seq<Span> { [d.name, d.uid, d.gid, d.muid] }

  lemma FourOf(b: bytes, xs: seq<Span>)
    requires |xs| == 4
    ensures GetAll(b, xs) == [Get(b, xs[0]), Get(b, xs[1]), Get(b, xs[2]), Get(b, xs[3])]
  {
    assert xs[..3][..2] == xs[..2] && xs[..2][..1] == xs[..1] && xs[..1][..0] == [];
    assert GetAll(b, xs[..1]) == [Get(b, xs[0])];
    assert GetAll(b, xs[..2]) == [Get(b, xs[0]), Get(b, xs[1])];
    assert GetAll(b, xs[..3]) == [Get(b, xs[0]), Get(b, xs[1]), Get(b, xs[2])];
  }

  lemma {:induction false} AsFieldsLong(ts: seq<bytes>)
    ensures |AsFields(ts)| == |ts|
  {
    if ts != [] { AsFieldsLong(ts[1..]); }
  }

  lemma {:induction false} AsFieldsSnoc(ts: seq<bytes>, t: bytes)
    ensures AsFields(ts + [t]) == AsFields(ts) + [Text(t)]
  {
    if ts == [] {
      assert [] + [t] == [t] && [t][1..] == [];
    } else {
      assert (ts + [t])[1..] == ts[1..] + [t];
      AsFieldsSnoc(ts[1..], t);
    }
  }

  /** The seven numbers of an entry. */
  method ReadNums(r: Reader) returns (d: Dir<Span>)
    requires r.Now([]) && r.base == 2 && r.shape == DIR_KINDS && r.ok && r.p == 2 && r.buf.Length >= STATFIXLEN
    modifies r
    ensures r.Now(NumFields(d)) && r.ok && r.p == STATFIXLEN - 8
  {
    var kind, dev, qid, mode := ReadFour(r);
    ghost var g4 := FourFields(kind, dev, qid, mode);
    var atime := r.RNum(4, g4);
    ghost var g5 := g4 + [Num(4, atime)];
    Placed(r, g4, Num(4, atime), 25);
    var mtime := r.RNum(4, g5);
    ghost var g6 := g5 + [Num(4, mtime)];
    Placed(r, g5, Num(4, mtime), 29);
    var length := r.RNum(8, g6);
    Placed(r, g6, Num(8, length), 33);
    d := Dir(kind, dev, qid, mode, atime, mtime, length, Span(0, 0), Span(0, 0), Span(0, 0), Span(0, 0));
    assert g6 + [Num(8, length)] == NumFields(d);
  }

  function FourFields(kind: nat, dev: nat, qid: Qid, mode: nat): seq<Field> {
    [Num(2, kind), Num(4, dev), Id(qid), Num(4, mode)]
  }

  /** The first four of them. */
  method ReadFour(r: Reader) returns (kind: nat, dev: nat, qid: Qid, mode: nat)
    requires r.Now([]) && r.base == 2 && r.shape == DIR_KINDS && r.ok && r.p == 2 && r.buf.Length >= STATFIXLEN
    modifies r
    ensures var g := FourFields(kind, dev, qid, mode); r.Now(g) && r.ok && r.p == 25 == r.base + Sum(g)
  {
    ghost var g0: seq<Field> := [];
    kind := r.RNum(2, g0);
    ghost var g1 := g0 + [Num(2, kind)];
    Placed(r, g0, Num(2, kind), 2);
    dev := r.RNum(4, g1);
    ghost var g2 := g1 + [Num(4, dev)];
    Placed(r, g1, Num(4, dev), 4);
    qid := r.RQid(g2);
    ghost var g3 := g2 + [Id(qid)];
    Placed(r, g2, Id(qid), 8);
    mode := r.RNum(4, g3);
    Placed(r, g3, Num(4, mode), 21);
    assert g3 + [Num(4, mode)] == FourFields(kind, dev, qid, mode);
  }

  /** Reading a field from position q leaves the reader behind it. */
  lemma Placed(r: Reader, g: seq<Field>, f: Field, q: nat)
    requires r.ok ==> r.Now(g + [f]) && r.base + Sum(g) == q
    ensures r.ok ==> r.p == q + Length(f) && r.base + Sum(g + [f]) == q + Length(f)
  {
    SumSnoc(g, f);
  }

  /** Four strings, copied one after the other. */
  method CopyTexts(r: Reader, strs: array?<byte>, ghost ns: seq<Field>) returns (sv: seq<Span>, ghost ts: seq<bytes>)
    requires r.Now(ns) && r.shape == DIR_KINDS && |ns| == 7 && r.ok && r.p == STATFIXLEN - 8
    requires strs != null ==> strs != r.buf && strs.Length >= r.buf.Length
    modifies r, if strs == null then {} else {strs}
    ensures r.ok ==> r.Now(ns + AsFields(ts)) && |sv| == |ts| == 4
    ensures r.ok && strs != null ==> GetAll(strs[..], sv) == ts && EndAll(strs[..], sv, strs.Length)
    ensures !r.ok ==> ReadAll(r.shape, r.s, r.base) == None
  {
    sv, ts := [], [];
    var i, at := 0, 0;
    assert ns + AsFields(ts) == ns;
    while i < 4 && r.ok
      invariant 0 <= i <= 4 && Copied(r, strs, ns, i, at, sv, ts)
      decreases 4 - i
    {
      at, sv, ts := CopyNext(r, strs, ns, i, at, sv, ts);
      i := i + 1;
    }
    if r.ok && strs != null { EndAllLater(strs[..], sv, at); }
  }

  ghost predicate Copied(r: Reader, strs: array?<byte>, ns: seq<Field>, i: nat, at: nat, sv: seq<Span>, ts: seq<bytes>)
    reads r, r.buf, if strs == null then {} else {strs}
  {
    r.Valid() &&
    if r.ok then
      |ts| == |sv| == i && r.Now(ns + AsFields(ts)) && r.p == STATFIXLEN - 8 + at + i &&
      (strs != null ==> at <= strs.Length && GetAll(strs[..], sv) == ts && EndAll(strs[..], sv, at))
    else ReadAll(r.shape, r.s, r.base) == None
  }

  lemma EndAllLater(b: bytes, xs: seq<Span>, p: nat)
    requires EndAll(b, xs, p) && p <= |b|
    ensures EndAll(b, xs, |b|)
  {
    forall i | 0 <= i < |xs| ensures Ends(b, xs[i], |b|) { assert Ends(b, xs[i], p); }
  }

  method CopyNext(r: Reader, strs: array?<byte>, ghost ns: seq<Field>, ghost i: nat, at: nat, sv: seq<Span>,
      ghost ts: seq<bytes>)
    returns (at': nat, sv': seq<Span>, ghost ts': seq<bytes>)
    requires Copied(r, strs, ns, i, at, sv, ts) && r.ok && i < 4 && |ns| == 7 && r.shape == DIR_KINDS
    requires strs != null ==> strs != r.buf && strs.Length >= r.buf.Length
    modifies r, if strs == null then {} else {strs}
    ensures Copied(r, strs, ns, i + 1, at', sv', ts')
  {
    AsFieldsLong(ts);
    ghost var b := if strs != null then strs[..] else [];
    var x;
    ghost var t;
    x, t := CopyText(r, strs, at, ns + AsFields(ts));
    at', sv', ts' := at + x.len + 1, sv + [x], ts + [t];
    AsFieldsSnoc(ts, t);
    assert ns + AsFields(ts) + [Text(t)] == ns + AsFields(ts');
    if r.ok && strs != null {
      GetAllStays(b, strs[..], sv, at);
      GetAllSnoc(strs[..], sv, x);
      EndAllMore(b, strs[..], sv, at, x, at');
    }
  }

  /** One string of an entry, copied to `at` in `strs` with a zero after it. */
  method CopyText(r: Reader, strs: array?<byte>, at: nat, ghost done: seq<Field>) returns (x: Span, ghost t: bytes)
    requires r.Now(done) && |done| < |r.shape| && r.shape[|done|] == KText && r.ok
    requires strs != null ==> strs != r.buf && strs.Length >= r.buf.Length && at < r.p
    modifies r, if strs == null then {} else {strs}
    ensures r.Now(done + [Text(t)])
    ensures r.ok ==> x == Span(at, |t|) && r.p == old(r.p) + 2 + |t|
    ensures r.ok && strs != null ==>
      Get(strs[..], x) == t && Ends(strs[..], x, at + |t| + 1) && Stays(old(strs[..]), strs[..], at)
  {
    x := Span(at, 0);
    var d := ReadCounted(r);
    t := d;
    r.Step(done, old(r.p), Text(t));
    if r.ok {
      x := Span(at, |d|);
      if strs != null { MoveText(d, strs, at); }
    }
  }

  /** A count and the bytes counted, left where they are. */
  method ReadCounted(r: Reader) returns (d: bytes)
    requires r.Valid() && r.ok
    modifies r
    ensures r.Valid() && Read(KText, r.s, old(r.p)) == if r.ok then Some(Text(d)) else None
    ensures r.ok ==> r.p == old(r.p) + Length(Text(d)) <= r.buf.Length
  {
    d := [];
    var n := r.GNum(2);
    if r.ok { d := r.GBytes(n); }
  }

  method MoveText(d: bytes, strs: array<byte>, at: nat)
    requires at + |d| < strs.Length
    modifies strs
    ensures strs[at..at + |d|] == d && strs[at + |d|] == 0 && strs[..at] == old(strs[..at])
  {
    var k := 0;
    while k < |d|
      invariant k <= |d| && strs[at..at + k] == d[..k] && strs[..at] == old(strs[..at])
    {
      strs[at + k] := d[k];
      k := k + 1;
    }
    strs[at + |d|] := 0;
  }

  /** What convD2M writes, statcheck accepts and convM2D reads back. */
  method StatRoundTrip(d: Dir<Str>, buf: array<byte>, strs: array<byte>) returns (ok: bool, e: Dir<Span>)
    requires DirFits(PlainDir(d)) && buf.Length == |Stat(PlainDir(d))| && strs != buf && strs.Length >= buf.Length
    modifies buf, strs
    ensures ok && ResolveDir(e, strs[..]) == PlainDir(d) && EndAll(strs[..], Spans(e), strs.Length)
  {
    ghost var p := PlainDir(d);
    var n := ConvD2M(d, buf);
    assert buf[..] == Stat(p);
    WrittenChecks(p);
    ok := StatCheck(buf);
    DirLong(p);
    assert buf[..][2..2 + |WireAll(DirFields(p))|] == WireAll(DirFields(p));
    DirKinds(p);
    AllAt(DIR_KINDS, buf[..], 2, DirFields(p));
    n, e := ConvM2D(buf, strs);
    SameDir(ResolveDir(e, strs[..]), p);
  }

  lemma SameDir(d: Dir<bytes>, e: Dir<bytes>)
    requires DirFields(d) == DirFields(e)
    ensures d == e
  {
    var f, g := DirFields(d), DirFields(e);
    assert f[0] == g[0] && f[1] == g[1] && f[2] == g[2] && f[3] == g[3] && f[4] == g[4] && f[5] == g[5] && f[6] == g[6];
    assert f[7] == g[7] && f[8] == g[8] && f[9] == g[9] && f[10] == g[10];
  }
}
