/**
  The fields of 9P2000 messages, after section 5 of the Plan 9 Programmer's Manual, intro(5): numbers are
  little endian, text and data carry their length.
 */
module NineFields {
  import opened Basics

  type bytes = seq<byte>

  const MAXWELEM := 16

  // ----- numbers

  /** The number of values n bytes can hold. */
  function Range(n: nat): nat { if n == 0 then 1 else 256 * Range(n - 1) }

  function Low(v: nat): (r: byte) { if v < 256 then v as byte else Low(v - 256) }

  function High(v: nat): nat { if v < 256 then 0 else 1 + High(v - 256) }

  lemma {:induction false} LowHigh(v: nat)
    ensures Low(v) as nat + 256 * High(v) == v
    ensures Low(v) as nat == v % 256 && High(v) == v / 256
  {
    if v >= 256 { LowHigh(v - 256); }
  }

  /** The low n bytes of v, lowest first. */
  function Le(n: nat, v: nat): (r: bytes)
    ensures |r| == n
    decreases n, v
  {
    if n == 0 then [] else [Low(v)] + Le(n - 1, High(v))
  }

  function FromLe(s: bytes): nat { if s == [] then 0 else s[0] as nat + 256 * FromLe(s[1..]) }

  lemma {:induction false} LowFrom(b: byte, r: nat)
    ensures Low(b as nat + 256 * r) == b && High(b as nat + 256 * r) == r
  {
    if r > 0 { LowFrom(b, r - 1); }
  }

  lemma {:induction false} LeFrom(s: bytes)
    ensures FromLe(s) < Range(|s|) && Le(|s|, FromLe(s)) == s
  {
    if s != [] {
      LeFrom(s[1..]);
      LowFrom(s[0], FromLe(s[1..]));
    }
  }

  lemma {:induction false} FromLeLe(n: nat, v: nat)
    requires v < Range(n)
    ensures FromLe(Le(n, v)) == v
    decreases n
  {
    if n > 0 {
      LowHigh(v);
      FromLeLe(n - 1, High(v));
    }
  }

  // ----- fields

  datatype Qid = Qid(kind: nat, vers: nat, path: nat)

  datatype Field =
    | Num(width: nat, v: nat)
    | Text(s: bytes)
    | Id(q: Qid)
    | Names(ss: seq<bytes>)
    | Ids(qs: seq<Qid>)
    | Data(width: nat, d: bytes)

  datatype Kind = KNum(width: nat) | KText | KId | KNames | KIds | KData(width: nat)

  function KindOf(f: Field): Kind {
    match f
    case Num(w, _) => KNum(w)
    case Text(_) => KText
    case Id(_) => KId
    case Names(_) => KNames
    case Ids(_) => KIds
    case Data(w, _) => KData(w)
  }

  function WireText(s: bytes): bytes { Le(2, |s|) + s }

  function WireQid(q: Qid): (r: bytes)
    ensures |r| == 13
  {
    Le(1, q.kind) + Le(4, q.vers) + Le(8, q.path)
  }

  function WireTexts(ss: seq<bytes>): bytes { if ss == [] then [] else WireText(ss[0]) + WireTexts(ss[1..]) }

  function WireQids(qs: seq<Qid>): bytes { if qs == [] then [] else WireQid(qs[0]) + WireQids(qs[1..]) }

  function Wire(f: Field): bytes {
    match f
    case Num(w, v) => Le(w, v)
    case Text(s) => WireText(s)
    case Id(q) => WireQid(q)
    case Names(ss) => Le(2, |ss|) + WireTexts(ss)
    case Ids(qs) => Le(2, |qs|) + WireQids(qs)
    case Data(w, d) => Le(w, |d|) + d
  }

  function TextsLength(ss: seq<bytes>): nat { if ss == [] then 0 else 2 + |ss[0]| + TextsLength(ss[1..]) }

  /** How many bytes a field takes. */
  function Length(f: Field): nat {
    match f
    case Num(w, _) => w
    case Text(s) => 2 + |s|
    case Id(_) => 13
    case Names(ss) => 2 + TextsLength(ss)
    case Ids(qs) => 2 + 13 * |qs|
    case Data(w, d) => w + |d|
  }

  lemma {:induction false} TextsLong(ss: seq<bytes>)
    ensures |WireTexts(ss)| == TextsLength(ss)
  {
    if ss != [] { TextsLong(ss[1..]); }
  }

  lemma {:induction false} QidsLong(qs: seq<Qid>)
    ensures |WireQids(qs)| == 13 * |qs|
  {
    if qs != [] { QidsLong(qs[1..]); }
  }

  lemma Long(f: Field)
    ensures |Wire(f)| == Length(f)
  {
    match f
    case Names(ss) => TextsLong(ss);
    case Ids(qs) => QidsLong(qs);
    case _ =>
  }

  function WireAll(fs: seq<Field>): bytes { if fs == [] then [] else Wire(fs[0]) + WireAll(fs[1..]) }

  /** The values the wire form can carry. */
  predicate QidFits(q: Qid) { q.kind < Range(1) && q.vers < Range(4) && q.path < Range(8) }

  predicate TextFits(s: bytes) { |s| < Range(2) }

  predicate TextsFit(ss: seq<bytes>) { ss == [] || (TextFits(ss[0]) && TextsFit(ss[1..])) }

  predicate QidsFit(qs: seq<Qid>) { qs == [] || (QidFits(qs[0]) && QidsFit(qs[1..])) }

  predicate Fits(f: Field) {
    match f
    case Num(w, v) => v < Range(w)
    case Text(s) => TextFits(s)
    case Id(q) => QidFits(q)
    case Names(ss) => |ss| <= MAXWELEM && TextsFit(ss)
    case Ids(qs) => |qs| <= MAXWELEM && QidsFit(qs)
    case Data(w, d) => |d| < Range(w)
  }

  predicate AllFit(fs: seq<Field>) { fs == [] || (Fits(fs[0]) && AllFit(fs[1..])) }

  // ----- reading them back

  /** n bytes from position p of s on. */
  function Slice(s: bytes, p: nat, n: nat): Option<bytes> { if p + n <= |s| then Some(s[p..p + n]) else None }

  function ReadNum(s: bytes, p: nat, n: nat): Option<nat> {
    match Slice(s, p, n) case None => None case Some(b) => Some(FromLe(b))
  }

  function ReadText(s: bytes, p: nat): Option<bytes> {
    match ReadNum(s, p, 2) case None => None case Some(n) => Slice(s, p + 2, n)
  }

  function ReadQid(s: bytes, p: nat): Option<Qid> {
    if p + 13 <= |s| then Some(Qid(FromLe(s[p..p + 1]), FromLe(s[p + 1..p + 5]), FromLe(s[p + 5..p + 13]))) else None
  }

  function ReadTexts(s: bytes, p: nat, n: nat): Option<seq<bytes>>
    decreases n
  {
    if n == 0 then Some([])
    else
      match ReadText(s, p)
      case None => None
      case Some(t) => match ReadTexts(s, p + 2 + |t|, n - 1) case None => None case Some(ts) => Some([t] + ts)
  }

  function ReadQids(s: bytes, p: nat, n: nat): Option<seq<Qid>>
    decreases n
  {
    if n == 0 then Some([])
    else
      match ReadQid(s, p)
      case None => None
      case Some(q) => match ReadQids(s, p + 13, n - 1) case None => None case Some(qs) => Some([q] + qs)
  }

  /** The field of kind k at position p of s. */
  function Read(k: Kind, s: bytes, p: nat): Option<Field> {
    match k
    case KNum(w) => (match ReadNum(s, p, w) case None => None case Some(v) => Some(Num(w, v)))
    case KText => (match ReadText(s, p) case None => None case Some(t) => Some(Text(t)))
    case KId => (match ReadQid(s, p) case None => None case Some(q) => Some(Id(q)))
    case KNames => (
      match ReadNum(s, p, 2)
      case None => None
      case Some(n) =>
        if n > MAXWELEM then None
        else match ReadTexts(s, p + 2, n) case None => None case Some(ts) => Some(Names(ts)))
    case KIds => (
      match ReadNum(s, p, 2)
      case None => None
      case Some(n) =>
        if n > MAXWELEM then None
        else match ReadQids(s, p + 2, n) case None => None case Some(qs) => Some(Ids(qs)))
    case KData(w) =>
      match ReadNum(s, p, w)
      case None => None
      case Some(n) => match Slice(s, p + w, n) case None => None case Some(d) => Some(Data(w, d))
  }

  function ReadAll(ks: seq<Kind>, s: bytes, p: nat): Option<seq<Field>> {
    if ks == [] then Some([])
    else
      match Read(ks[0], s, p)
      case None => None
      case Some(f) =>
        match ReadAll(ks[1..], s, p + Length(f)) case None => None case Some(fs) => Some([f] + fs)
  }

  // ----- reading inverts writing

  /** s has t at position p. */
  predicate At(s: bytes, p: nat, t: bytes) { p + |t| <= |s| && s[p..p + |t|] == t }

  lemma AtSplit(s: bytes, p: nat, a: bytes, b: bytes)
    ensures At(s, p, a + b) <==> At(s, p, a) && At(s, p + |a|, b)
  {
    if At(s, p, a + b) {
      assert s[p..p + |a|] == s[p..p + |a + b|][..|a|] == a;
      assert s[p + |a|..p + |a| + |b|] == s[p..p + |a + b|][|a|..] == b;
    }
    if At(s, p, a) && At(s, p + |a|, b) {
      assert s[p..p + |a + b|] == s[p..p + |a|] + s[p + |a|..p + |a| + |b|];
    }
  }

  lemma NumAt(s: bytes, p: nat, n: nat, v: nat)
    ensures v < Range(n) && At(s, p, Le(n, v)) <==> ReadNum(s, p, n) == Some(v)
  {
    if p + n <= |s| { LeFrom(s[p..p + n]); }
    if v < Range(n) { FromLeLe(n, v); }
  }

  lemma TextAt(s: bytes, p: nat, t: bytes)
    ensures TextFits(t) && At(s, p, WireText(t)) <==> ReadText(s, p) == Some(t)
  {
    AtSplit(s, p, Le(2, |t|), t);
    NumAt(s, p, 2, |t|);
    if ReadNum(s, p, 2).Some? { NumAt(s, p, 2, ReadNum(s, p, 2).value); }
  }

  lemma QidAt(s: bytes, p: nat, q: Qid)
    ensures QidFits(q) && At(s, p, WireQid(q)) <==> ReadQid(s, p) == Some(q)
  {
    AtSplit(s, p, Le(1, q.kind) + Le(4, q.vers), Le(8, q.path));
    AtSplit(s, p, Le(1, q.kind), Le(4, q.vers));
    NumAt(s, p, 1, q.kind);
    NumAt(s, p + 1, 4, q.vers);
    NumAt(s, p + 5, 8, q.path);
  }

  lemma {:induction false} TextsAt(s: bytes, p: nat, ts: seq<bytes>)
    requires p <= |s|
    ensures TextsFit(ts) && At(s, p, WireTexts(ts)) <==> ReadTexts(s, p, |ts|) == Some(ts)
    decreases |ts|
  {
    if ts != [] {
      AtSplit(s, p, WireText(ts[0]), WireTexts(ts[1..]));
      TextAt(s, p, ts[0]);
      if p + |WireText(ts[0])| <= |s| { TextsAt(s, p + |WireText(ts[0])|, ts[1..]); }
      assert ts == [ts[0]] + ts[1..];
    }
  }

  lemma {:induction false} QidsAt(s: bytes, p: nat, qs: seq<Qid>)
    requires p <= |s|
    ensures QidsFit(qs) && At(s, p, WireQids(qs)) <==> ReadQids(s, p, |qs|) == Some(qs)
    decreases |qs|
  {
    if qs != [] {
      AtSplit(s, p, WireQid(qs[0]), WireQids(qs[1..]));
      QidAt(s, p, qs[0]);
      if p + 13 <= |s| { QidsAt(s, p + 13, qs[1..]); }
      assert qs == [qs[0]] + qs[1..];
    }
  }

  lemma {:induction false} ReadTextsLength(s: bytes, p: nat, n: nat)
    ensures ReadTexts(s, p, n).Some? ==> |ReadTexts(s, p, n).value| == n
    decreases n
  {
    if n > 0 && ReadText(s, p).Some? { ReadTextsLength(s, p + 2 + |ReadText(s, p).value|, n - 1); }
  }

  lemma {:induction false} ReadQidsLength(s: bytes, p: nat, n: nat)
    ensures ReadQids(s, p, n).Some? ==> |ReadQids(s, p, n).value| == n
    decreases n
  {
    if n > 0 { ReadQidsLength(s, p + 13, n - 1); }
  }

  lemma NamesAt(s: bytes, p: nat, ts: seq<bytes>)
    ensures Fits(Names(ts)) && At(s, p, Wire(Names(ts))) <==> Read(KNames, s, p) == Some(Names(ts))
  {
    AtSplit(s, p, Le(2, |ts|), WireTexts(ts));
    NumAt(s, p, 2, |ts|);
    if p + 2 <= |s| { TextsAt(s, p + 2, ts); }
    if ReadNum(s, p, 2).Some? {
      NumAt(s, p, 2, ReadNum(s, p, 2).value);
      ReadTextsLength(s, p + 2, ReadNum(s, p, 2).value);
    }
  }

  lemma IdsAt(s: bytes, p: nat, qs: seq<Qid>)
    ensures Fits(Ids(qs)) && At(s, p, Wire(Ids(qs))) <==> Read(KIds, s, p) == Some(Ids(qs))
  {
    AtSplit(s, p, Le(2, |qs|), WireQids(qs));
    NumAt(s, p, 2, |qs|);
    if p + 2 <= |s| { QidsAt(s, p + 2, qs); }
    if ReadNum(s, p, 2).Some? {
      NumAt(s, p, 2, ReadNum(s, p, 2).value);
      ReadQidsLength(s, p + 2, ReadNum(s, p, 2).value);
    }
  }

  lemma DataAt(s: bytes, p: nat, w: nat, d: bytes)
    ensures |d| < Range(w) && At(s, p, Le(w, |d|) + d) <==> Read(KData(w), s, p) == Some(Data(w, d))
  {
    AtSplit(s, p, Le(w, |d|), d);
    NumAt(s, p, w, |d|);
    SliceAt(s, p + w, d);
    DataOf(s, p, w, d);
  }

  lemma DataOf(s: bytes, p: nat, w: nat, d: bytes)
    ensures Read(KData(w), s, p) == Some(Data(w, d)) <==>
              ReadNum(s, p, w) == Some(|d|) && Slice(s, p + w, |d|) == Some(d)
  {
    match ReadNum(s, p, w)
    case None =>
    case Some(n) => if Slice(s, p + w, n) == Some(d) { assert n == |d|; }
  }

  lemma SliceAt(s: bytes, p: nat, d: bytes)
    ensures At(s, p, d) <==> Slice(s, p, |d|) == Some(d)
  {
  }

  /** A field reads back from exactly the places where its wire form stands. */
  lemma FieldAt(k: Kind, s: bytes, p: nat, f: Field)
    ensures KindOf(f) == k && Fits(f) && At(s, p, Wire(f)) <==> Read(k, s, p) == Some(f)
  {
    match f
    case Num(w, v) => NumAt(s, p, w, v);
    case Text(t) => TextAt(s, p, t);
    case Id(q) => QidAt(s, p, q);
    case Names(ts) => NamesAt(s, p, ts);
    case Ids(qs) => IdsAt(s, p, qs);
    case Data(w, d) => DataAt(s, p, w, d);
  }

  function Kinds(fs: seq<Field>): seq<Kind> { if fs == [] then [] else [KindOf(fs[0])] + Kinds(fs[1..]) }

  lemma {:induction false} KindsEach(fs: seq<Field>)
    ensures |Kinds(fs)| == |fs| && forall i :: 0 <= i < |fs| ==> Kinds(fs)[i] == KindOf(fs[i])
  {
    if fs != [] { KindsEach(fs[1..]); }
  }

  /** So do the fields of a message: the wire form determines them, and nothing else reads as them. */
  lemma AllAt(ks: seq<Kind>, s: bytes, p: nat, fs: seq<Field>)
    requires p <= |s|
    ensures Kinds(fs) == ks && AllFit(fs) && At(s, p, WireAll(fs)) <==> ReadAll(ks, s, p) == Some(fs)
  {
    if Kinds(fs) == ks && AllFit(fs) && At(s, p, WireAll(fs)) { WrittenReads(s, p, fs); }
    if ReadAll(ks, s, p).Some? { ReadIsWritten(ks, s, p); }
  }

  lemma AllAtSplit(s: bytes, p: nat, fs: seq<Field>)
    requires fs != []
    ensures At(s, p, WireAll(fs)) <==> At(s, p, Wire(fs[0])) && At(s, p + Length(fs[0]), WireAll(fs[1..]))
  {
    var w, rest := Wire(fs[0]), WireAll(fs[1..]);
    assert |w| == Length(fs[0]) by { Long(fs[0]); }
    AtSplit(s, p, w, rest);
  }

  lemma FirstReads(s: bytes, p: nat, fs: seq<Field>)
    requires fs != [] && Fits(fs[0]) && At(s, p, WireAll(fs))
    ensures Read(KindOf(fs[0]), s, p) == Some(fs[0]) && At(s, p + Length(fs[0]), WireAll(fs[1..]))
  {
    AllAtSplit(s, p, fs);
    FieldAt(KindOf(fs[0]), s, p, fs[0]);
  }

  lemma ReadStep(ks: seq<Kind>, s: bytes, p: nat, k: Kind, rs: seq<Kind>, f: Field, rest: seq<Field>)
    requires ks == [k] + rs && Read(k, s, p) == Some(f) && ReadAll(rs, s, p + Length(f)) == Some(rest)
    ensures ReadAll(ks, s, p) == Some([f] + rest)
  {
    assert ks[1..] == rs;
  }

  lemma KindsOf(f: Field, rest: seq<Field>)
    ensures Kinds([f] + rest) == [KindOf(f)] + Kinds(rest)
  {
    assert ([f] + rest)[1..] == rest;
  }

  lemma {:induction false} WrittenReads(s: bytes, p: nat, fs: seq<Field>)
    requires AllFit(fs) && At(s, p, WireAll(fs))
    ensures ReadAll(Kinds(fs), s, p) == Some(fs)
    decreases |fs|
  {
    if fs != [] {
      var f, rest := fs[0], fs[1..];
      FirstReads(s, p, fs);
      WrittenReads(s, p + Length(f), rest);
      assert fs == [f] + rest;
      KindsOf(f, rest);
      ReadStep(Kinds(fs), s, p, KindOf(f), Kinds(rest), f, rest);
    }
  }

  lemma ReadParts(ks: seq<Kind>, s: bytes, p: nat) returns (f: Field, rest: seq<Field>)
    requires ks != [] && ReadAll(ks, s, p).Some?
    ensures Read(ks[0], s, p) == Some(f) && ReadAll(ks[1..], s, p + Length(f)) == Some(rest)
    ensures ReadAll(ks, s, p) == Some([f] + rest)
  {
    f := Read(ks[0], s, p).value;
    rest := ReadAll(ks[1..], s, p + Length(f)).value;
  }

  lemma {:induction false} ReadIsWritten(ks: seq<Kind>, s: bytes, p: nat)
    requires p <= |s| && ReadAll(ks, s, p).Some?
    ensures var fs := ReadAll(ks, s, p).value; Kinds(fs) == ks && AllFit(fs) && At(s, p, WireAll(fs))
    decreases |ks|
  {
    if ks != [] {
      var f, rest := ReadParts(ks, s, p);
      FieldAt(ks[0], s, p, f);
      Long(f);
      ReadIsWritten(ks[1..], s, p + Length(f));
      var fs := [f] + rest;
      assert fs[1..] == rest;
      AllAtSplit(s, p, fs);
    }
  }
}
