/**
  9P2000 messages: what they are on the wire, and the size function, encoder and in-place decoder.

  The layout of each message is that of intro(5) in section 5 of the Plan 9 Programmer's Manual.
 */
module NineP {
  import opened Basics
  import opened NineFields

  /** A message without its tag; S is the form of its strings. */
  datatype Fcall<+S> =
    | Tversion(msize: nat, version: S)
    | Rversion(msize: nat, version: S)
    | Tauth(afid: nat, uname: S, aname: S)
    | Rauth(aqid: Qid)
    | Tattach(fid: nat, afid: nat, uname: S, aname: S)
    | Rattach(qid: Qid)
    | Rerror(ename: S)
    | Tflush(oldtag: nat)
    | Rflush
    | Twalk(fid: nat, newfid: nat, wname: seq<S>)
    | Rwalk(wqid: seq<Qid>)
    | Topen(fid: nat, mode: nat)
    | Ropen(qid: Qid, iounit: nat)
    | Tcreate(fid: nat, name: S, perm: nat, mode: nat)
    | Rcreate(qid: Qid, iounit: nat)
    | Tread(fid: nat, offset: nat, count: nat)
    | Rread(data: bytes)
    | Twrite(fid: nat, offset: nat, data: bytes)
    | Rwrite(count: nat)
    | Tclunk(fid: nat)
    | Rclunk
    | Tremove(fid: nat)
    | Rremove
    | Tstat(fid: nat)
    | Rstat(stat: bytes)
    | Twstat(fid: nat, stat: bytes)
    | Rwstat
    | Other(kind: nat)

  // ----- the protocol

  function TypeOf<S>(f: Fcall<S>): nat {
    match f
    case Tversion(_, _) => 100
    case Rversion(_, _) => 101
    case Tauth(_, _, _) => 102
    case Rauth(_) => 103
    case Tattach(_, _, _, _) => 104
    case Rattach(_) => 105
    case Rerror(_) => 107
    case Tflush(_) => 108
    case Rflush => 109
    case Twalk(_, _, _) => 110
    case Rwalk(_) => 111
    case Topen(_, _) => 112
    case Ropen(_, _) => 113
    case Tcreate(_, _, _, _) => 114
    case Rcreate(_, _) => 115
    case Tread(_, _, _) => 116
    case Rread(_) => 117
    case Twrite(_, _, _) => 118
    case Rwrite(_) => 119
    case Tclunk(_) => 120
    case Rclunk => 121
    case Tremove(_) => 122
    case Rremove => 123
    case Tstat(_) => 124
    case Rstat(_) => 125
    case Twstat(_, _) => 126
    case Rwstat => 127
    case Other(t) => t
  }

  /** The fields after the tag, in order. */
  function Fields(f: Fcall<bytes>): seq<Field> {
    match f
    case Tversion(m, v) => [Num(4, m), Text(v)]
    case Rversion(m, v) => [Num(4, m), Text(v)]
    case Tauth(a, u, n) => [Num(4, a), Text(u), Text(n)]
    case Rauth(q) => [Id(q)]
    case Tattach(i, a, u, n) => [Num(4, i), Num(4, a), Text(u), Text(n)]
    case Rattach(q) => [Id(q)]
    case Rerror(e) => [Text(e)]
    case Tflush(o) => [Num(2, o)]
    case Twalk(i, n, w) => [Num(4, i), Num(4, n), Names(w)]
    case Rwalk(q) => [Ids(q)]
    case Topen(i, m) => [Num(4, i), Num(1, m)]
    case Ropen(q, u) => [Id(q), Num(4, u)]
    case Tcreate(i, n, p, m) => [Num(4, i), Text(n), Num(4, p), Num(1, m)]
    case Rcreate(q, u) => [Id(q), Num(4, u)]
    case Tread(i, o, c) => [Num(4, i), Num(8, o), Num(4, c)]
    case Rread(d) => [Data(4, d)]
    case Twrite(i, o, d) => [Num(4, i), Num(8, o), Data(4, d)]
    case Rwrite(c) => [Num(4, c)]
    case Tclunk(i) => [Num(4, i)]
    case Tremove(i) => [Num(4, i)]
    case Tstat(i) => [Num(4, i)]
    case Rstat(s) => [Data(2, s)]
    case Twstat(i, s) => [Num(4, i), Data(2, s)]
    case _ => []
  }

  /** The kinds of the fields of a message of type t; None if there is no such message. */
  function Shape(t: nat): Option<seq<Kind>> {
    if t == 100 || t == 101 then Some([KNum(4), KText])
    else if t == 102 then Some([KNum(4), KText, KText])
    else if t == 103 || t == 105 then Some([KId])
    else if t == 104 then Some([KNum(4), KNum(4), KText, KText])
    else if t == 107 then Some([KText])
    else if t == 108 then Some([KNum(2)])
    else if t == 110 then Some([KNum(4), KNum(4), KNames])
    else if t == 111 then Some([KIds])
    else if t == 112 then Some([KNum(4), KNum(1)])
    else if t == 113 || t == 115 then Some([KId, KNum(4)])
    else if t == 114 then Some([KNum(4), KText, KNum(4), KNum(1)])
    else if t == 116 then Some([KNum(4), KNum(8), KNum(4)])
    else if t == 117 then Some([KData(4)])
    else if t == 118 then Some([KNum(4), KNum(8), KData(4)])
    else if t == 119 || t == 120 || t == 122 || t == 124 then Some([KNum(4)])
    else if t == 125 then Some([KData(2)])
    else if t == 126 then Some([KNum(4), KData(2)])
    else if t == 109 || t == 121 || t == 123 || t == 127 then Some([])
    else None
  }

  /** The whole message: size, type, tag, fields. */
  function Message(tag: nat, f: Fcall<bytes>): bytes {
    Le(4, 7 + |WireAll(Fields(f))|) + Le(1, TypeOf(f)) + Le(2, tag) + WireAll(Fields(f))
  }

  /** What the protocol can say: numbers in range, strings under 64 KiB, at most MAXWELEM names or qids, and a
      total below 4 GiB. */
  predicate WellFormed(tag: nat, f: Fcall<bytes>) {
    !f.Other? && AllFit(Fields(f)) && tag < Range(2) && 7 + |WireAll(Fields(f))| < Range(4)
  }

  datatype Parsed = Parsed(kind: nat, tag: nat, fields: seq<Field>)

  /** The message at the start of s. */
  function Parse(s: bytes): Option<Parsed> {
    if |s| < 7 then None
    else
      var kind, tag := FromLe(s[4..5]), FromLe(s[5..7]);
      match Shape(kind)
      case None => None
      case Some(ks) =>
        match ReadAll(ks, s, 7)
        case None => None
        case Some(fs) => if 7 + |WireAll(fs)| == FromLe(s[..4]) then Some(Parsed(kind, tag, fs)) else None
  }

  lemma ShapeOf(f: Fcall<bytes>)
    requires !f.Other?
    ensures Shape(TypeOf(f)) == Some(Kinds(Fields(f)))
  {
    KindsFour(Fields(f));
  }

  lemma KindsFour(fs: seq<Field>)
    requires |fs| <= 4
    ensures Kinds(fs) == if |fs| == 0 then [] else if |fs| == 1 then [KindOf(fs[0])]
                         else if |fs| == 2 then [KindOf(fs[0]), KindOf(fs[1])]
                         else if |fs| == 3 then [KindOf(fs[0]), KindOf(fs[1]), KindOf(fs[2])]
                         else [KindOf(fs[0]), KindOf(fs[1]), KindOf(fs[2]), KindOf(fs[3])]
  {
    KindsEach(fs);
  }

  lemma HeadAt(s: bytes, size: nat, kind: nat, tag: nat)
    ensures size < Range(4) && kind < Range(1) && tag < Range(2) &&
            At(s, 0, Le(4, size) + Le(1, kind) + Le(2, tag)) <==>
      |s| >= 7 && FromLe(s[..4]) == size && FromLe(s[4..5]) == kind && FromLe(s[5..7]) == tag
  {
    AtSplit(s, 0, Le(4, size) + Le(1, kind), Le(2, tag));
    AtSplit(s, 0, Le(4, size), Le(1, kind));
    NumAt(s, 0, 4, size);
    NumAt(s, 4, 1, kind);
    NumAt(s, 5, 2, tag);
  }

  lemma ParsesAs(s: bytes, kind: nat, tag: nat, fs: seq<Field>, w: bytes)
    requires Shape(kind) == Some(Kinds(fs)) && w == WireAll(fs)
    ensures
      (AllFit(fs) && kind < Range(1) && tag < Range(2) && 7 + |w| < Range(4) &&
       At(s, 0, Le(4, 7 + |w|) + Le(1, kind) + Le(2, tag) + w)) <==> Parse(s) == Some(Parsed(kind, tag, fs))
  {
    HeadThen(s, Le(4, 7 + |w|) + Le(1, kind) + Le(2, tag), w);
    HeadAt(s, 7 + |w|, kind, tag);
    if |s| >= 7 {
      AllAt(Kinds(fs), s, 7, fs);
      ParseOf(s, kind, tag, Kinds(fs), fs);
    }
  }

  lemma HeadThen(s: bytes, h: bytes, w: bytes)
    requires |h| == 7
    ensures At(s, 0, h + w) <==> At(s, 0, h) && At(s, 7, w)
  {
    AtSplit(s, 0, h, w);
  }

  /** Reading finds exactly the well formed messages: the bytes of one parse as it, whatever follows, and what
      parses as one starts with its bytes. */
  lemma ParsesExactly(s: bytes, tag: nat, f: Fcall<bytes>)
    requires !f.Other?
    ensures WellFormed(tag, f) && At(s, 0, Message(tag, f)) <==> Parse(s) == Some(Parsed(TypeOf(f), tag, Fields(f)))
  {
    ShapeOf(f);
    ParsesAs(s, TypeOf(f), tag, Fields(f), WireAll(Fields(f)));
  }

  lemma ParseOf(s: bytes, kind: nat, tag: nat, ks: seq<Kind>, fs: seq<Field>)
    requires |s| >= 7 && Shape(kind) == Some(ks)
    ensures Parse(s) == Some(Parsed(kind, tag, fs)) <==>
      FromLe(s[4..5]) == kind && FromLe(s[5..7]) == tag && ReadAll(ks, s, 7) == Some(fs) &&
          7 + |WireAll(fs)| == FromLe(s[..4])
  {
  }

  /** The fields and the type determine the message. */
  lemma FieldsDetermine(f: Fcall<bytes>, g: Fcall<bytes>)
    requires TypeOf(f) == TypeOf(g) && Fields(f) == Fields(g) && !f.Other? && !g.Other?
    ensures f == g
  {
    var fs, gs := Fields(f), Fields(g);
    assert |fs| > 0 ==> fs[0] == gs[0];
    assert |fs| > 1 ==> fs[1] == gs[1];
    assert |fs| > 2 ==> fs[2] == gs[2];
    assert |fs| > 3 ==> fs[3] == gs[3];
  }

  /** No message is the start of another, and no two have the same bytes. */
  lemma NoConfusion(tag: nat, f: Fcall<bytes>, tag': nat, g: Fcall<bytes>)
    requires WellFormed(tag, f) && WellFormed(tag', g) && Message(tag, f) <= Message(tag', g)
    ensures tag == tag' && f == g
  {
    var s := Message(tag', g);
    assert s[..|Message(tag, f)|] == Message(tag, f);
    ParsesExactly(s, tag, f);
    ParsesExactly(s, tag', g);
    FieldsDetermine(f, g);
  }
}
