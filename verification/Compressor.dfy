/** The image compressor: scan lines in, restartable blocks of codes out. */
module Compressor {
  import opened Basics
  import opened Codes
  import opened HashChains
  import opened MatchWindow
  import opened BlockLoader

  // ----- the rolling hash

  function Update(h: bv9, c: byte): bv9 { (h << 3) ^ (c as bv9) }

  /** The hash of the three bytes at x. */
  function Hash3(data: seq<byte>, x: nat): bv9
    requires x + NMATCH <= |data|
  {
    ((data[x] as bv9) << 6) ^ ((data[x + 1] as bv9) << 3) ^ (data[x + 2] as bv9)
  }

  function Key(h: bv9): nat { h as nat }

  lemma ThreeShifts(h: bv9, a: bv9, b: bv9, c: bv9)
    ensures (((((h << 3) ^ a) << 3) ^ b) << 3) ^ c == (a << 6) ^ (b << 3) ^ c
  {
  }

  /** Three updates forget whatever was hashed before them. */
  lemma HashForgets(h: bv9, data: seq<byte>, x: nat)
    requires x + NMATCH <= |data|
    ensures Update(Update(Update(h, data[x]), data[x + 1]), data[x + 2]) == Hash3(data, x)
  {
    ThreeShifts(h, data[x] as bv9, data[x + 1] as bv9, data[x + 2] as bv9);
  }

  lemma RollBits(a: bv9, b: bv9, c: bv9, d: bv9)
    ensures (((a << 6) ^ (b << 3) ^ c) << 3) ^ d == (b << 6) ^ (c << 3) ^ d
  {
  }

  lemma HashRolls(data: seq<byte>, x: nat)
    requires x + NMATCH < |data|
    ensures Update(Hash3(data, x), data[x + NMATCH]) == Hash3(data, x + 1)
  {
    RollBits(data[x] as bv9, data[x + 1] as bv9, data[x + 2] as bv9, data[x + 3] as bv9);
  }

  /** Every filed position with three bytes of image left is under the hash of those bytes. */
  ghost predicate Keyed(data: seq<byte>, n: nat, base: nat, hk: seq<nat>) {
    n + NMATCH <= |data| &&
    forall x {:trigger hk[x]} :: 0 <= x < |hk| && base + x + NMATCH <= n ==> hk[x] == Key(Hash3(data, base + x))
  }

  /** r is the longest match at p, over every window position, whenever one of them is worth coding. */
  ghost predicate Longest(data: seq<byte>, base: nat, from: nat, p: nat, lim: nat, r: nat)
    requires p + lim <= |data|
  {
    forall x {:trigger MatchLen(data, x, p, lim)} :: base + from <= x < p && MatchLen(data, x, p, lim) >= NMATCH ==>
      MatchLen(data, x, p, lim) <= r
  }

  /** The hash chain misses no match of NMATCH bytes or more. */
  lemma ChainIsEnough(data: seq<byte>, n: nat, base: nat, hk: seq<nat>, h: bv9, p: nat, lim: nat, r: nat)
    requires Keyed(data, n, base, hk) && p == base + |hk| && p + lim <= n
    requires p + NMATCH <= n ==> h == Hash3(data, p)
    requires ChainBest(data, base, hk, Key(h), p, lim, r)
    ensures Longest(data, base, Oldest(|hk|), p, lim, r)
  {
    forall x {:trigger MatchLen(data, x, p, lim)}
      | base + Oldest(|hk|) <= x < p && MatchLen(data, x, p, lim) >= NMATCH
      ensures MatchLen(data, x, p, lim) <= r
    {
      SameHash(data, x, p, lim);
      assert hk[x - base] == Key(h);
    }
  }

  lemma SameHash(data: seq<byte>, x: nat, p: nat, lim: nat)
    requires x <= p && p + lim <= |data| && MatchLen(data, x, p, lim) >= NMATCH
    ensures Hash3(data, x) == Hash3(data, p)
  {
    var m := MatchLen(data, x, p, lim);
    var a, b := data[x..x + m], data[p..p + m];
    assert a[0] == data[x] && a[1] == data[x + 1] && a[2] == data[x + 2];
    assert b[0] == data[p] && b[1] == data[p + 1] && b[2] == data[p + 2];
  }

  // ----- what the codes emitted so far stand for

  /** `out` decodes to the image bytes from base up to a, the last of them col bytes into their line. */
  ghost predicate Stands(data: seq<byte>, bpl: nat, base: nat, a: nat, col: nat, out: seq<byte>) {
    base <= a <= |data| && Decode(bpl, Progress([], 0), out) == Some(Progress(data[base..a], col))
  }

  /** No match at p, in the window and within the line that starts at `line`, is longer than r and worth coding. */
  ghost predicate Best(data: seq<byte>, bpl: nat, base: nat, line: int, p: nat, r: nat) {
    var lim := if line + bpl - p < NRUN then line + bpl - p else NRUN;
    base <= p && 0 <= lim && p + lim <= |data| && Longest(data, base, Oldest(p - base), p, lim, r)
  }

  /** Whether r bytes are a fit choice at p, in the line that starts at `line`. */
  type Judge = (int, nat, nat) -> bool

  /** The choices of the greedy coder. */
  ghost function Choice(data: seq<byte>, bpl: nat, base: nat): Judge {
    (line: int, p: nat, r: nat) => Best(data, bpl, base, line, p, r)
  }

  lemma ChoiceIs(data: seq<byte>, bpl: nat, base: nat, line: int, p: nat, r: nat)
    ensures Choice(data, bpl, base)(line, p, r) <==> Best(data, bpl, base, line, p, r)
  {
  }

  /** At none of the bytes from a up to p is there a match worth coding. */
  ghost predicate Plain(ok: Judge, line: int, a: int, p: nat)
    decreases p
  {
    p <= a || p == 0 || (Plain(ok, line, a, p - 1) && ok(line, p - 1, 1))
  }

  lemma PlainMore(data: seq<byte>, bpl: nat, base: nat, line: int, a: int, p: nat)
    requires Plain(Choice(data, bpl, base), line, a, p) && Best(data, bpl, base, line, p, 1)
    ensures Plain(Choice(data, bpl, base), line, a, p + 1)
  {
    ChoiceIs(data, bpl, base, line, p, 1);
  }

  /** The greedy coder's choice throughout: from p on, each copy in `out` is as long as any match there, and no byte
      is literal that has a match worth coding. */
  ghost predicate Greedy(ok: Judge, bpl: nat, line: int, p: nat, out: seq<byte>)
    decreases |out|
  {
    if out == [] then true
    else if out[0] >= 128 then
      var k := LiteralLength(out[0]);
      |out| >= 1 + k && Plain(ok, line, p, p + k) &&
      Greedy(ok, bpl, LineAfter(bpl, line, p + k), p + k, out[1 + k..])
    else
      var k := CopyLength(out[0]);
      |out| >= 2 && ok(line, p, k) &&
      Greedy(ok, bpl, LineAfter(bpl, line, p + k), p + k, out[2..])
  }

  /** Where the line starts once the n bytes at p are coded. */
  function LineAfter(bpl: nat, line: int, p: nat): int { if p == line + bpl then p else line }

  lemma GreedyLiteral(ok: Judge, bpl: nat, line: int, p: nat, out: seq<byte>, k: nat, rest: seq<byte>)
    requires out != [] && out[0] >= 128 && k == LiteralLength(out[0]) && |out| >= 1 + k && rest == out[1 + k..]
    ensures Greedy(ok, bpl, line, p, out) <==>
            Plain(ok, line, p, p + k) &&
            Greedy(ok, bpl, LineAfter(bpl, line, p + k), p + k, rest)
  {
  }

  lemma GreedyCopy(ok: Judge, bpl: nat, line: int, p: nat, out: seq<byte>, k: nat, rest: seq<byte>)
    requires |out| >= 2 && out[0] < 128 && k == CopyLength(out[0]) && rest == out[2..]
    ensures Greedy(ok, bpl, line, p, out) <==>
            ok(line, p, k) && Greedy(ok, bpl, LineAfter(bpl, line, p + k), p + k, rest)
  {
  }

  /** The line and the place that codes lead to. */
  function Leads(bpl: nat, line: int, p: nat, codes: seq<byte>): (int, nat)
    decreases |codes|
  {
    if codes == [] then (line, p)
    else
      var lit := codes[0] >= 128;
      var k, w := if lit then LiteralLength(codes[0]) else CopyLength(codes[0]), if lit then 1 + LiteralLength(codes[0])
                  else 2;
      if |codes| < w then (line, p) else Leads(bpl, LineAfter(bpl, line, p + k), p + k, codes[w..])
  }

  lemma LeadsLiteral(bpl: nat, line: int, p: nat, codes: seq<byte>, k: nat, rest: seq<byte>)
    requires codes != [] && codes[0] >= 128 && k == LiteralLength(codes[0])
    requires |codes| >= 1 + k && rest == codes[1 + k..]
    ensures Leads(bpl, line, p, codes) == Leads(bpl, LineAfter(bpl, line, p + k), p + k, rest)
  {
  }

  lemma LeadsCopy(bpl: nat, line: int, p: nat, codes: seq<byte>, k: nat, rest: seq<byte>)
    requires |codes| >= 2 && codes[0] < 128 && k == CopyLength(codes[0]) && rest == codes[2..]
    ensures Leads(bpl, line, p, codes) == Leads(bpl, LineAfter(bpl, line, p + k), p + k, rest)
  {
  }

  /** Where the decoder is, as line and place. */
  function LineOf(base: nat, at: Progress): int { base + |at.hist| - at.col }

  function PlaceOf(base: nat, at: Progress): nat { base + |at.hist| }

  lemma {:induction false} DecodeLeads(bpl: nat, base: nat, at: Progress, c: seq<byte>)
    requires Decode(bpl, at, c).Some?
    ensures var e := Decode(bpl, at, c).value;
      Leads(bpl, LineOf(base, at), PlaceOf(base, at), c) == (LineOf(base, e), PlaceOf(base, e))
    decreases |c|
  {
    if c == [] {
    } else if c[0] >= 128 {
      var k := LiteralLength(c[0]);
      LeadsLiteral(bpl, LineOf(base, at), PlaceOf(base, at), c, k, c[1 + k..]);
      DecodeLeads(bpl, base, Advance(bpl, at, at.hist + c[1..1 + k], k), c[1 + k..]);
    } else {
      var k := CopyLength(c[0]);
      LeadsCopy(bpl, LineOf(base, at), PlaceOf(base, at), c, k, c[2..]);
      DecodeLeads(bpl, base, Advance(bpl, at, Repeat(at.hist, CopyOffset(c[0], c[1]), k), k), c[2..]);
    }
  }

  /** Putting a literal run, or a copy, in front. */
  lemma LiteralFirst(ok: Judge, bpl: nat, line: int, p: nat, c1: seq<byte>, c2: seq<byte>, k: nat)
    requires c1 != [] && c1[0] >= 128 && k == LiteralLength(c1[0]) && |c1| >= 1 + k
    requires Plain(ok, line, p, p + k)
    requires Greedy(ok, bpl, LineAfter(bpl, line, p + k), p + k, c1[1 + k..] + c2)
    ensures Greedy(ok, bpl, line, p, c1 + c2)
  {
    assert (c1 + c2)[1 + k..] == c1[1 + k..] + c2;
    GreedyLiteral(ok, bpl, line, p, c1 + c2, k, c1[1 + k..] + c2);
  }

  lemma CopyFirst(ok: Judge, bpl: nat, line: int, p: nat, c1: seq<byte>, c2: seq<byte>, k: nat)
    requires |c1| >= 2 && c1[0] < 128 && k == CopyLength(c1[0]) && ok(line, p, k)
    requires Greedy(ok, bpl, LineAfter(bpl, line, p + k), p + k, c1[2..] + c2)
    ensures Greedy(ok, bpl, line, p, c1 + c2)
  {
    assert (c1 + c2)[2..] == c1[2..] + c2;
    GreedyCopy(ok, bpl, line, p, c1 + c2, k, c1[2..] + c2);
  }

  lemma {:induction false} GreedyAppend(ok: Judge, bpl: nat, line: int, p: nat, c1: seq<byte>,
                                        c2: seq<byte>)
    requires Greedy(ok, bpl, line, p, c1)
    requires var (l, q) := Leads(bpl, line, p, c1); Greedy(ok, bpl, l, q, c2)
    ensures Greedy(ok, bpl, line, p, c1 + c2)
    decreases |c1|
  {
    if c1 == [] {
      assert c1 + c2 == c2;
    } else if c1[0] >= 128 {
      var k := LiteralLength(c1[0]);
      var rest := c1[1 + k..];
      GreedyLiteral(ok, bpl, line, p, c1, k, rest);
      LeadsLiteral(bpl, line, p, c1, k, rest);
      GreedyAppend(ok, bpl, LineAfter(bpl, line, p + k), p + k, rest, c2);
      LiteralFirst(ok, bpl, line, p, c1, c2, k);
    } else {
      var k := CopyLength(c1[0]);
      var rest := c1[2..];
      GreedyCopy(ok, bpl, line, p, c1, k, rest);
      LeadsCopy(bpl, line, p, c1, k, rest);
      GreedyAppend(ok, bpl, LineAfter(bpl, line, p + k), p + k, rest, c2);
      CopyFirst(ok, bpl, line, p, c1, c2, k);
    }
  }

  /** That is what `out` stands for, and it is what the greedy coder chooses. */
  ghost predicate Coded(data: seq<byte>, bpl: nat, base: nat, a: nat, col: nat, out: seq<byte>) {
    Stands(data, bpl, base, a, col, out) && Greedy(Choice(data, bpl, base), bpl, base, base, out)
  }

  /** Coded, as a value that methods hand on without looking inside. */
  ghost function Saying(data: seq<byte>, bpl: nat, base: nat): (nat, nat, seq<byte>) -> bool {
    (a: nat, col: nat, out: seq<byte>) => Coded(data, bpl, base, a, col, out)
  }

  lemma SayingIs(data: seq<byte>, bpl: nat, base: nat, a: nat, col: nat, out: seq<byte>)
    ensures Saying(data, bpl, base)(a, col, out) <==> Coded(data, bpl, base, a, col, out)
  {
  }

  function Wrap(bpl: nat, col: nat): nat { if col == bpl then 0 else col }

  lemma CodedLiteral(data: seq<byte>, bpl: nat, base: nat, a: nat, col: nat, out: seq<byte>, p: nat)
    requires Coded(data, bpl, base, a, col, out) && a < p <= |data| && p - a <= NDUMP && col + (p - a) <= bpl
    requires Plain(Choice(data, bpl, base), a - col, a, p)
    ensures Coded(data, bpl, base, p, Wrap(bpl, col + (p - a)), out + ([p - a - 1 + 128] + data[a..p]))
  {
    StandsLiteral(data, bpl, base, a, col, out, p);
    StandsLeads(data, bpl, base, a, col, out);
    OneLiteral(Choice(data, bpl, base), bpl, base, a - col, a, p, out, data[a..p]);
  }

  lemma StandsLeads(data: seq<byte>, bpl: nat, base: nat, a: nat, col: nat, out: seq<byte>)
    requires Stands(data, bpl, base, a, col, out)
    ensures Leads(bpl, base, base, out) == (a - col, a)
  {
    DecodeLeads(bpl, base, Progress([], 0), out);
  }

  lemma OneLiteral(ok: Judge, bpl: nat, base: nat, line: int, a: nat, p: nat, out: seq<byte>, lit: seq<byte>)
    requires Greedy(ok, bpl, base, base, out) && Leads(bpl, base, base, out) == (line, a)
    requires a < p && |lit| == p - a <= NDUMP && Plain(ok, line, a, p)
    ensures Greedy(ok, bpl, base, base, out + ([p - a - 1 + 128] + lit))
  {
    LiteralAlone(ok, bpl, line, a, p - a, lit);
    GreedyAppend(ok, bpl, base, base, out, [p - a - 1 + 128] + lit);
  }

  lemma LiteralAlone(ok: Judge, bpl: nat, line: int, a: nat, k: nat, lit: seq<byte>)
    requires 0 < k <= NDUMP && |lit| == k && Plain(ok, line, a, a + k)
    ensures Greedy(ok, bpl, line, a, [k - 1 + 128] + lit)
  {
    var more := [k - 1 + 128] + lit;
    assert more[1 + k..] == [];
    GreedyLiteral(ok, bpl, line, a, more, k, []);
  }

  /** A code that decodes to the bytes from a up to p goes behind `out`. */
  lemma StandsMore(data: seq<byte>, bpl: nat, base: nat, a: nat, col: nat, out: seq<byte>, code: seq<byte>, p: nat,
                   after: nat)
    requires Stands(data, bpl, base, a, col, out) && a <= p <= |data|
    requires Decode(bpl, Progress(data[base..a], col), code) == Some(Progress(data[base..p], after))
    ensures Stands(data, bpl, base, p, after, out + code)
  {
    DecodeAppend(bpl, Progress([], 0), out, code);
  }

  lemma StandsLiteral(data: seq<byte>, bpl: nat, base: nat, a: nat, col: nat, out: seq<byte>, p: nat)
    requires Stands(data, bpl, base, a, col, out) && a < p <= |data| && p - a <= NDUMP && col + (p - a) <= bpl
    ensures Stands(data, bpl, base, p, Wrap(bpl, col + (p - a)), out + ([p - a - 1 + 128] + data[a..p]))
  {
    var lit := data[a..p];
    DecodeLiteral(bpl, Progress(data[base..a], col), lit);
    assert data[base..a] + lit == data[base..p];
    StandsMore(data, bpl, base, a, col, out, [p - a - 1 + 128] + lit, p, Wrap(bpl, col + (p - a)));
  }

  lemma CodedCopy(data: seq<byte>, bpl: nat, base: nat, p: nat, col: nat, out: seq<byte>, q: nat, r: nat)
    requires Coded(data, bpl, base, p, col, out) && base <= q < p && p - q <= NMEM && p + r <= |data|
    requires NMATCH <= r <= NRUN && data[q..q + r] == data[p..p + r] && col + r <= bpl
    requires Best(data, bpl, base, p - col, p, r)
    ensures (r - NMATCH) * 4 + (p - q - 1) / 256 < 128
    ensures Coded(data, bpl, base, p + r, Wrap(bpl, col + r),
                  out + [(r - NMATCH) * 4 + (p - q - 1) / 256, (p - q - 1) % 256])
  {
    StandsCopy(data, bpl, base, p, col, out, q, r);
    CopyChosen(data, bpl, base, p, col, out, r, (r - NMATCH) * 4 + (p - q - 1) / 256, (p - q - 1) % 256);
  }

  lemma CopyChosen(data: seq<byte>, bpl: nat, base: nat, p: nat, col: nat, out: seq<byte>, r: nat, hi: byte, lo: byte)
    requires Coded(data, bpl, base, p, col, out) && Best(data, bpl, base, p - col, p, r) && r >= NMATCH
    requires (r - NMATCH) * 4 <= hi < (r - NMATCH) * 4 + 4 && hi < 128
    ensures Greedy(Choice(data, bpl, base), bpl, base, base, out + [hi, lo])
  {
    StandsLeads(data, bpl, base, p, col, out);
    ChoiceIs(data, bpl, base, p - col, p, r);
    OneCopy(Choice(data, bpl, base), bpl, base, p - col, p, out, r, hi, lo);
  }

  lemma OneCopy(ok: Judge, bpl: nat, base: nat, line: int, p: nat, out: seq<byte>, r: nat, hi: byte, lo: byte)
    requires Greedy(ok, bpl, base, base, out) && Leads(bpl, base, base, out) == (line, p)
    requires ok(line, p, r) && r >= NMATCH && (r - NMATCH) * 4 <= hi < (r - NMATCH) * 4 + 4 && hi < 128
    ensures Greedy(ok, bpl, base, base, out + [hi, lo])
  {
    assert [hi, lo][2..] == [] && CopyLength(hi) == r;
    GreedyCopy(ok, bpl, line, p, [hi, lo], r, []);
    GreedyAppend(ok, bpl, base, base, out, [hi, lo]);
  }

  lemma StandsCopy(data: seq<byte>, bpl: nat, base: nat, p: nat, col: nat, out: seq<byte>, q: nat, r: nat)
    requires Stands(data, bpl, base, p, col, out) && base <= q < p && p - q <= NMEM && p + r <= |data|
    requires NMATCH <= r <= NRUN && data[q..q + r] == data[p..p + r] && col + r <= bpl
    ensures (r - NMATCH) * 4 + (p - q - 1) / 256 < 128
    ensures Stands(data, bpl, base, p + r, Wrap(bpl, col + r),
                   out + [(r - NMATCH) * 4 + (p - q - 1) / 256, (p - q - 1) % 256])
  {
    var at := Progress(data[base..p], col);
    var code := [(r - NMATCH) * 4 + (p - q - 1) / 256, (p - q - 1) % 256];
    DecodeCopy(bpl, at, r, p - q - 1);
    RepeatMatch(data, base, q, p, r);
    StandsMore(data, bpl, base, p, col, out, code, p + r, Wrap(bpl, col + r));
  }

  /** The bytes a scan line may take: one more than its length for every full literal run, and one for
      the last run. */
  function LineBound(bpl: nat): nat { bpl + bpl / NDUMP + 1 }

  /** What a line that started at lout and is c bytes on may have written. */
  ghost predicate Within(lout: nat, outp: nat, ndump: nat, c: nat) {
    ndump <= c && outp + ndump <= lout + c + (c - ndump) / NDUMP
  }

  lemma WithinLiteral(lout: nat, outp: nat, ndump: nat, c: nat, bpl: nat, room: nat)
    requires Within(lout, outp, ndump, c) && ndump <= NDUMP && c < bpl
    ensures ndump < NDUMP ==> Within(lout, outp, ndump + 1, c + 1)
    ensures ndump == NDUMP ==> Within(lout, outp + NDUMP + 1, 1, c + 1)
    ensures ndump == NDUMP && room - outp < NDUMP + 1 ==> room - lout < LineBound(bpl)
  {
    assert ndump == NDUMP ==> (c + 1 - 1) / NDUMP == (c - NDUMP) / NDUMP + 1;
  }

  lemma WithinCopy(lout: nat, outp: nat, ndump: nat, c: nat, r: nat, bpl: nat, room: nat)
    requires Within(lout, outp, ndump, c) && r >= NMATCH && c + r <= bpl
    ensures var cost := 2 + if ndump == 0 then 0 else ndump + 1;
      Within(lout, outp + cost, 0, c + r) && (room - outp < cost ==> room - lout < LineBound(bpl))
  {
    assert (c - ndump) / NDUMP <= (c + r) / NDUMP <= bpl / NDUMP;
  }

  lemma WithinEnd(lout: nat, outp: nat, ndump: nat, bpl: nat, room: nat)
    requires Within(lout, outp, ndump, bpl)
    ensures outp + ndump + 1 <= lout + LineBound(bpl)
    ensures room - outp < ndump + 1 ==> room - lout < LineBound(bpl)
  {
    assert (bpl - ndump) / NDUMP <= bpl / NDUMP;
  }

  class Output {
    const data: seq<byte>
    const bpl: nat
    const outbuf: array<byte>
    const dumpbuf: array<byte>
    var outp: nat
    var ndump: nat

    constructor (data: seq<byte>, bpl: nat, ncblock: nat)
      ensures fresh(outbuf) && fresh(dumpbuf) && Valid() && outbuf.Length == ncblock
      ensures this.data == data && this.bpl == bpl && outp == 0 && ndump == 0
    {
      this.data, this.bpl := data, bpl;
      outbuf := new byte[ncblock];
      dumpbuf := new byte[NDUMP];
      outp, ndump := 0, 0;
    }

    ghost predicate Valid()
      reads this
    {
      outp <= outbuf.Length && ndump <= NDUMP && dumpbuf.Length == NDUMP && outbuf != dumpbuf
    }

    ghost function Out(): seq<byte>
      requires Valid()
      reads this, outbuf
    {
      outbuf[..outp]
    }

    /** The codes and the pending literals together stand for the image bytes from base up to p, which
        is c bytes into its line. */
    ghost predicate At(base: nat, p: nat, c: nat)
      requires Valid()
      reads this, outbuf, dumpbuf
    {
      ndump <= c <= bpl && base <= p - ndump && p <= |data| && dumpbuf[..ndump] == data[p - ndump..p] &&
      Saying(data, bpl, base)(p - ndump, Wrap(bpl, c - ndump), Out()) &&
      Plain(Choice(data, bpl, base), p - c, p - ndump, p)
    }

    /** Writes the pending literals out as one code. */
    method PutRun()
      requires Valid() && 0 < ndump && outp + 1 + ndump <= outbuf.Length
      modifies this`outp, this`ndump, outbuf
      ensures Valid() && ndump == 0 && outp == old(outp + 1 + ndump)
      ensures Out() == old(Out()) + ([old(ndump) - 1 + 128] + dumpbuf[..old(ndump)])
    {
      ghost var was := Out();
      outbuf[outp] := ndump - 1 + 128;
      outp := outp + 1;
      forall i | 0 <= i < ndump {
        outbuf[outp + i] := dumpbuf[i];
      }
      assert outbuf[outp..outp + ndump] == dumpbuf[..ndump];
      assert outbuf[..outp + ndump] == was + ([ndump - 1 + 128] + dumpbuf[..ndump]);
      outp := outp + ndump;
      ndump := 0;
    }

    /** Writes the pending literals out; fails when they do not fit. */
    method Flush(ghost base: nat, ghost p: nat, ghost c: nat) returns (ok: bool)
      requires Valid() && ndump > 0 && At(base, p, c)
      modifies this`outp, this`ndump, outbuf
      ensures Valid() && old(outp) <= outp && outbuf[..old(outp)] == old(Out())
      ensures ok <==> outbuf.Length - old(outp) >= old(ndump) + 1
      ensures ok ==> ndump == 0 && outp == old(outp) + old(ndump) + 1 && At(base, p, c)
    {
      if outbuf.Length - outp < ndump + 1 {
        return false;
      }
      SayingIs(data, bpl, base, p - ndump, c - ndump, Out());
      CodedLiteral(data, bpl, base, p - ndump, c - ndump, Out(), p);
      PutRun();
      SayingIs(data, bpl, base, p, Wrap(bpl, c), Out());
      assert data[p..p] == dumpbuf[..0];
      assert outbuf[..old(outp)] == Out()[..old(outp)];
      return true;
    }

    /** Puts one byte behind the pending literals. */
    method Store(x: byte)
      requires Valid() && ndump < NDUMP
      modifies this`ndump, dumpbuf
      ensures Valid() && ndump == old(ndump) + 1 && dumpbuf[..ndump] == old(dumpbuf[..ndump]) + [x]
    {
      dumpbuf[ndump] := x;
      ndump := ndump + 1;
    }

    method Append(ghost base: nat, p: nat, ghost c: nat)
      requires Valid() && At(base, p, c) && c < bpl && p < |data| && ndump < NDUMP
      requires Best(data, bpl, base, p - c, p, 1)
      modifies this`ndump, dumpbuf
      ensures Valid() && At(base, p + 1, c + 1) && ndump == old(ndump) + 1
    {
      assert data[p - ndump..p + 1] == data[p - ndump..p] + [data[p]];
      PlainMore(data, bpl, base, p - c, p - ndump, p);
      Store(data[p]);
    }

    /** Adds the byte at p to the pending literals, writing them out first when there is no room. */
    method AddLiteral(ghost base: nat, p: nat, ghost c: nat) returns (ok: bool)
      requires Valid() && At(base, p, c) && c < bpl && p < |data| && Best(data, bpl, base, p - c, p, 1)
      modifies this`outp, this`ndump, outbuf, dumpbuf
      ensures Valid() && old(outp) <= outp && outbuf[..old(outp)] == old(Out())
      ensures ok <==> (old(ndump) == NDUMP ==> outbuf.Length - old(outp) >= NDUMP + 1)
      ensures ok ==> At(base, p + 1, c + 1)
      ensures ok && old(ndump) < NDUMP ==> ndump == old(ndump) + 1 && outp == old(outp)
      ensures ok && old(ndump) == NDUMP ==> ndump == 1 && outp == old(outp) + NDUMP + 1
    {
      ok := true;
      if ndump == NDUMP {
        ok := Flush(base, p, c);
      }
      if ok {
        Append(base, p, c);
      }
    }

    /** Writes a copy code when nothing is pending. */
    method PutTwo(hi: byte, lo: byte)
      requires Valid() && ndump == 0 && outp + 2 <= outbuf.Length
      modifies this`outp, outbuf
      ensures Valid() && outp == old(outp) + 2 && Out() == old(Out()) + [hi, lo]
      ensures outbuf[..old(outp)] == old(Out())
    {
      outbuf[outp] := hi;
      outbuf[outp + 1] := lo;
      outp := outp + 2;
    }

    method PutCopy(ghost base: nat, p: nat, ghost c: nat, q: nat, r: nat)
      requires Valid() && ndump == 0 && At(base, p, c) && c + r <= bpl && p + r <= |data| && outp + 2 <= outbuf.Length
      requires Best(data, bpl, base, p - c, p, r)
      requires base <= q < p && p - q <= NMEM && NMATCH <= r <= NRUN && data[q..q + r] == data[p..p + r]
      modifies this`outp, outbuf
      ensures Valid() && outp == old(outp) + 2 && outbuf[..old(outp)] == old(Out()) && At(base, p + r, c + r)
    {
      var offs := p - q - 1;
      SayingIs(data, bpl, base, p, c, Out());
      CodedCopy(data, bpl, base, p, c, Out(), q, r);
      PutTwo((r - NMATCH) * 4 + offs / 256, offs % 256);
      SayingIs(data, bpl, base, p + r, Wrap(bpl, c + r), Out());
      assert data[p + r..p + r] == dumpbuf[..0];
    }

    /** Writes a copy of the r bytes at q, which equal those at p. */
    method AddCopy(ghost base: nat, p: nat, ghost c: nat, q: nat, r: nat) returns (ok: bool)
      requires Best(data, bpl, base, p - c, p, r)
      requires Valid() && At(base, p, c) && c + r <= bpl && p + r <= |data|
      requires base <= q < p && p - q <= NMEM && NMATCH <= r <= NRUN && data[q..q + r] == data[p..p + r]
      modifies this`outp, this`ndump, outbuf
      ensures Valid() && old(outp) <= outp && outbuf[..old(outp)] == old(Out())
      ensures ok <==> outbuf.Length - old(outp) >= 2 + if old(ndump) == 0 then 0 else old(ndump) + 1
      ensures ok ==> ndump == 0 && At(base, p + r, c + r)
      ensures ok ==> outp == old(outp) + 2 + if old(ndump) == 0 then 0 else old(ndump) + 1
    {
      ok := true;
      if ndump != 0 {
        ok := Flush(base, p, c);
      }
      ok := ok && outbuf.Length - outp >= 2;
      if ok {
        ghost var was := Out();
        PutCopy(base, p, c, q, r);
        assert outbuf[..old(outp)] == was[..old(outp)];
      }
    }

    /** The coder is at p, c bytes into a line whose codes start at lout; nothing before lout has changed. */
    ghost predicate Inside(base: nat, p: nat, c: nat, lout: nat, before: seq<byte>)
      reads this, outbuf, dumpbuf
    {
      Valid() && At(base, p, c) && Within(lout, outp, ndump, c) && lout <= outp && outbuf[..lout] == before
    }

    /** The buffer is too full for some line; what was there before lout still is. */
    ghost predicate Full(lout: nat, before: seq<byte>)
      reads this, outbuf
    {
      Valid() && lout <= outp && outbuf[..lout] == before && outbuf.Length - lout < LineBound(bpl)
    }

    method StartLine(ghost base: nat, ghost line: nat, ghost lout: nat, ghost before: seq<byte>)
      requires Valid() && lout == outp && before == Out() && Saying(data, bpl, base)(line, 0, before)
      modifies this`ndump
      ensures Inside(base, line, 0, lout, before)
    {
      ndump := 0;
      assert data[line..line] == dumpbuf[..0];
    }

    /** Emits one literal byte. */
    method EmitLiteral(ghost base: nat, p: nat, ghost c: nat, ghost lout: nat, ghost before: seq<byte>)
        returns (ok: bool)
      requires Inside(base, p, c, lout, before) && c < bpl && p < |data| && Best(data, bpl, base, p - c, p, 1)
      modifies this`outp, this`ndump, outbuf, dumpbuf
      ensures if ok then Inside(base, p + 1, c + 1, lout, before) else Full(lout, before)
    {
      ghost var was := Out();
      WithinLiteral(lout, outp, ndump, c, bpl, outbuf.Length);
      ok := AddLiteral(base, p, c);
      assert outbuf[..lout] == was[..lout];
    }

    /** Emits a copy of the r bytes at q. */
    method EmitCopy(ghost base: nat, p: nat, ghost c: nat, q: nat, r: nat, ghost lout: nat, ghost before: seq<byte>)
        returns (ok: bool)
      requires Inside(base, p, c, lout, before) && c + r <= bpl && p + r <= |data| && Best(data, bpl, base, p - c, p, r)
      requires base <= q < p && p - q <= NMEM && NMATCH <= r <= NRUN && data[q..q + r] == data[p..p + r]
      modifies this`outp, this`ndump, outbuf
      ensures if ok then Inside(base, p + r, c + r, lout, before) else Full(lout, before)
    {
      ghost var was := Out();
      WithinCopy(lout, outp, ndump, c, r, bpl, outbuf.Length);
      ok := AddCopy(base, p, c, q, r);
      assert outbuf[..lout] == was[..lout];
    }

    /** Emits what was chosen for p, c bytes into the line: one literal byte, or a copy of r bytes. */
    method Emit(ghost base: nat, p: nat, c: nat, q: nat, r: nat, ghost lout: nat, ghost before: seq<byte>)
        returns (ok: bool)
      requires Inside(base, p, c, lout, before) && c + r <= bpl && p + r <= |data| && 0 < r
      requires Best(data, bpl, base, p - c, p, r)
      requires r < NMATCH ==> r == 1
      requires r >= NMATCH ==> base <= q < p && p - q <= NMEM && r <= NRUN && data[q..q + r] == data[p..p + r]
      modifies this`outp, this`ndump, outbuf, dumpbuf
      ensures if ok then Inside(base, p + r, c + r, lout, before) else Full(lout, before)
    {
      if r < NMATCH {
        ok := EmitLiteral(base, p, c, lout, before);
      } else {
        ok := EmitCopy(base, p, c, q, r, lout, before);
      }
    }

    /** A whole line that ends at p has been written, within its bound. */
    ghost predicate Ended(base: nat, p: nat, lout: nat, before: seq<byte>)
      reads this, outbuf
    {
      Valid() && lout <= outp <= lout + LineBound(bpl) && outbuf[..lout] == before &&
      Saying(data, bpl, base)(p, 0, Out())
    }

    /** Ends a line: the pending literals go out. */
    method Finish(ghost base: nat, ghost p: nat, ghost lout: nat, ghost before: seq<byte>) returns (ok: bool)
      requires Inside(base, p, bpl, lout, before)
      modifies this`outp, this`ndump, outbuf
      ensures if ok then Ended(base, p, lout, before) else Full(lout, before)
    {
      WithinEnd(lout, outp, ndump, bpl, outbuf.Length);
      ok := true;
      if ndump != 0 {
        ghost var was := Out();
        ok := Flush(base, p, bpl);
        assert outbuf[..lout] == was[..lout];
      }
    }
  }

  class Encoder {
    const data: seq<byte>    // the image and the bytes behind it in memory
    const n: nat             // length of the image
    const bpl: nat
    const win: Window
    const out: Output
    var h: bv9

    constructor (image: seq<byte>, behind: seq<byte>, bpl: nat, ncblock: nat)
      requires |behind| >= NMATCH
      ensures Shape() && fresh(win) && fresh(win.next) && fresh(win.prev) && fresh(win.str)
      ensures fresh(out) && fresh(out.outbuf) && fresh(out.dumpbuf)
      ensures data == image + behind && n == |image| && this.bpl == bpl && out.outbuf.Length == ncblock
    {
      data, n, this.bpl, h := image + behind, |image|, bpl, 0;
      win := new Window(image + behind);
      out := new Output(image + behind, bpl, ncblock);
    }

    ghost predicate Shape()
      reads this, win, out
    {
      win.Shape() && out.Valid() && win.data == data && out.data == data && out.bpl == bpl && n + NMATCH <= |data|
    }

    /** The window holds everything up to the current position, and h is the hash of what comes next. */
    ghost predicate Ready()
      reads this, win, win.next, win.prev, win.str
    {
      var p := win.base + |win.hk|;
      win.Valid() && win.data == data && n + NMATCH <= |data| &&
      Keyed(data, n, win.base, win.hk) && (p + NMATCH <= n ==> h == Hash3(data, p))
    }

    /** Starts a block at `line`. */
    method Begin(line: nat)
      requires Shape() && line < n
      modifies this, win, win.next, win.prev, out`outp
      ensures Shape() && Ready() && win.base == line && win.hk == [] && out.outp == 0
    {
      win.Reset(line);
      h := 0;
      out.outp := 0;
      HashForgets(h, data, line);
      for i := 0 to NMATCH
        modifies this`h
        invariant i == 0 ==> h == 0
        invariant i == 1 ==> h == Update(0, data[line])
        invariant i == 2 ==> h == Update(Update(0, data[line]), data[line + 1])
        invariant i == 3 ==> h == Hash3(data, line)
      {
        h := Update(h, data[line + i]);
      }
    }

    /** Files one consumed position and rolls the hash. */
    method Consume(p: nat)
      requires Ready() && p == win.base + |win.hk| && p < n
      modifies this`h, win`cp, win`hk, win`nd, win.next, win.prev, win.str
      ensures Ready() && |win.hk| == |old(win.hk)| + 1
    {
      win.File(Key(h), p);
      if n - p > NMATCH {
        HashRolls(data, p);
        h := Update(h, data[p + NMATCH]);
      }
    }

    /** The match chosen at p: the longest in the window, capped at the line end and NRUN. */
    method Choose(p: nat, lim: nat) returns (runlen: nat, q: nat)
      requires Ready() && p == win.base + |win.hk| && p + lim <= n && lim <= NRUN
      ensures runlen <= lim
      ensures runlen > 0 ==> win.base <= q < p && p - q <= NMEM && data[q..q + runlen] == data[p..p + runlen]
      ensures Longest(data, win.base, Oldest(|win.hk|), p, lim, runlen)
    {
      runlen, q := win.Search(Key(h), p, lim);
      ChainIsEnough(data, n, win.base, win.hk, h, p, lim, runlen);
    }

    /** What to code at p, c bytes into the line: one literal byte, or the longest copy. */
    method Pick(p: nat, c: nat) returns (r: nat, q: nat)
      requires Ready() && p == win.base + |win.hk| && c < bpl && p + (bpl - c) <= n
      ensures 0 < r <= bpl - c && (r < NMATCH ==> r == 1)
      ensures r >= NMATCH ==>
        win.base <= q < p && p - q <= NMEM && r <= NRUN && data[q..q + r] == data[p..p + r]
      ensures Best(data, bpl, win.base, p - c, p, r)
    {
      var lim := if bpl - c < NRUN then bpl - c else NRUN;
      r, q := Choose(p, lim);
      if r < NMATCH {
        r := 1;
      }
    }

    /** Files the r positions just coded. */
    method ConsumeRun(p: nat, r: nat)
      requires Ready() && p == win.base + |win.hk| && p + r <= n
      modifies this`h, win`cp, win`hk, win`nd, win.next, win.prev, win.str
      ensures Ready() && p + r == win.base + |win.hk|
    {
      var i := p;
      while i != p + r
        invariant Ready() && i == win.base + |win.hk| && p <= i <= p + r
        decreases p + r - i
      {
        Consume(i);
        i := i + 1;
      }
    }

    ghost predicate Going(p: nat, c: nat, lout: nat, before: seq<byte>)
      reads this, win, win.next, win.prev, win.str, out, out.outbuf, out.dumpbuf
    {
      Ready() && p == win.base + |win.hk| && out.data == data && out.bpl == bpl &&
      out.Inside(win.base, p, c, lout, before)
    }

    /** The r bytes at p are coded, up to column c, and are still to be consumed. */
    ghost predicate Coming(p: nat, r: nat, c: nat, lout: nat, before: seq<byte>)
      reads this, win, win.next, win.prev, win.str, out, out.outbuf, out.dumpbuf
    {
      Ready() && p == win.base + |win.hk| && p + r <= n && out.data == data && out.bpl == bpl &&
      out.Inside(win.base, p + r, c, lout, before)
    }

    /** Emits what was chosen for p. */
    method EmitAt(p: nat, c: nat, q: nat, r: nat, ghost lout: nat, ghost before: seq<byte>) returns (ok: bool)
      requires Going(p, c, lout, before) && c + r <= bpl && p + r <= n && 0 < r
      requires Best(data, bpl, win.base, p - c, p, r)
      requires r < NMATCH ==> r == 1
      requires r >= NMATCH ==> win.base <= q < p && p - q <= NMEM && r <= NRUN && data[q..q + r] == data[p..p + r]
      modifies out`outp, out`ndump, out.outbuf, out.dumpbuf
      ensures Ready() && if ok then out.Inside(win.base, p + r, c + r, lout, before) else out.Full(lout, before)
    {
      ok := out.Emit(win.base, p, c, q, r, lout, before);
    }

    /** Files the r positions just emitted. */
    method ConsumeAt(p: nat, r: nat, ghost q: nat, ghost c: nat, ghost lout: nat, ghost before: seq<byte>)
      requires Coming(p, r, c, lout, before) && q == p + r
      modifies this`h, win`cp, win`hk, win`nd, win.next, win.prev, win.str
      ensures Going(q, c, lout, before)
    {
      ConsumeRun(p, r);
    }

    /** Chooses what to code at p and emits it. */
    method CodeAt(p: nat, c: nat, ghost lout: nat, ghost before: seq<byte>) returns (ok: bool, r: nat)
      requires Going(p, c, lout, before) && c < bpl && p + (bpl - c) <= n
      modifies out`outp, out`ndump, out.outbuf, out.dumpbuf
      ensures 0 < r <= bpl - c
      ensures if ok then Coming(p, r, c + r, lout, before) else out.Full(lout, before)
    {
      var q;
      r, q := Pick(p, c);
      ok := EmitAt(p, c, q, r, lout, before);
    }

    /** Codes and consumes what stands at p. */
    method Step(p: nat, c: nat, ghost lout: nat, ghost before: seq<byte>) returns (ok: bool, p': nat, c': nat)
      requires Going(p, c, lout, before) && c < bpl && p + (bpl - c) <= n
      modifies this`h, win`cp, win`hk, win`nd, win.next, win.prev, win.str
      modifies out`outp, out`ndump, out.outbuf, out.dumpbuf
      ensures c < c' <= bpl && p' - p == c' - c
      ensures ok ==> Going(p', c', lout, before)
      ensures !ok ==> out.Full(lout, before)
    {
      var r;
      ok, r := CodeAt(p, c, lout, before);
      p', c' := p + r, c + r;
      if !ok { return; }
      ConsumeAt(p, r, p', c', lout, before);
    }

    method CodeBytes(line: nat, ghost lout: nat, ghost before: seq<byte>) returns (ok: bool)
      requires Going(line, 0, lout, before) && line + bpl <= n
      modifies this`h, win`cp, win`hk, win`nd, win.next, win.prev, win.str
      modifies out`outp, out`ndump, out.outbuf, out.dumpbuf
      ensures ok ==> Going(line + bpl, bpl, lout, before)
      ensures !ok ==> out.Full(lout, before)
    {
      var p, c := line, 0;
      while c != bpl
        invariant c <= bpl && p == line + c
        invariant Going(p, c, lout, before)
        decreases bpl - c
      {
        ok, p, c := Step(p, c, lout, before);
        if !ok { return; }
      }
      return true;
    }

    /** The coder is at the start of the line at `line`, and the codes of its block so far are `size` bytes. */
    ghost predicate AtLine(base: nat, line: nat, size: nat)
      reads this, win, win.next, win.prev, win.str, out, out.outbuf
    {
      Shape() && Ready() && win.base == base && line == base + |win.hk| && out.outp == size &&
      Saying(data, bpl, base)(line, 0, out.Out())
    }

    /** Codes one scan line; fails when the block buffer fills up first, which needs a buffer with less
        room left than any line can take. */
    method EncodeLine(ghost base: nat, line: nat) returns (ok: bool)
      requires AtLine(base, line, out.outp) && line + bpl <= n
      modifies this`h, win`cp, win`hk, win`nd, win.next, win.prev, win.str
      modifies out`outp, out`ndump, out.outbuf, out.dumpbuf
      ensures if ok then AtLine(base, line + bpl, out.outp) else Shape() && out.Full(old(out.outp), old(out.Out()))
      ensures old(out.outp) <= out.outp <= out.outbuf.Length && out.outbuf[..old(out.outp)] == old(out.Out())
      ensures ok ==> out.outp <= old(out.outp) + LineBound(bpl)
    {
      ghost var lout, before := out.outp, out.Out();
      StartAt(line, lout, before);
      ok := CodeBytes(line, lout, before);
      if ok { ok := FinishAt(line + bpl, lout, before); }
    }

    /** EncodeLine, as its caller uses it. */
    method EncodeNext(ghost base: nat, line: nat, size: nat) returns (ok: bool)
      requires AtLine(base, line, size) && line + bpl <= n
      modifies this`h, win`cp, win`hk, win`nd, win.next, win.prev, win.str
      modifies out`outp, out`ndump, out.outbuf, out.dumpbuf
      ensures Shape() && size <= out.outbuf.Length
      ensures ok ==> AtLine(base, line + bpl, out.outp)
      ensures !ok ==> out.outbuf.Length - size < LineBound(bpl)
      ensures !ok ==> Saying(data, bpl, base)(line, 0, out.outbuf[..size])
    {
      ok := EncodeLine(base, line);
    }

    method StartAt(ghost line: nat, ghost lout: nat, ghost before: seq<byte>)
      requires Shape() && Ready() && line == win.base + |win.hk| && line <= n
      requires lout == out.outp && before == out.Out() && Saying(out.data, out.bpl, win.base)(line, 0, before)
      modifies out`ndump
      ensures Going(line, 0, lout, before)
    {
      out.StartLine(win.base, line, lout, before);
    }

    method FinishAt(ghost p: nat, ghost lout: nat, ghost before: seq<byte>) returns (ok: bool)
      requires Going(p, bpl, lout, before)
      modifies out`outp, out`ndump, out.outbuf
      ensures Ready() && p == win.base + |win.hk|
      ensures if ok then out.Ended(win.base, p, lout, before) else out.Full(lout, before)
    {
      ok := out.Finish(win.base, p, lout, before);
    }

    /** Codes whole lines from row y on until the block buffer is full or the image ends.  The codes are
        the first `size` bytes of the buffer. */
    method EncodeBlock(y: nat, lines: nat) returns (top: nat, size: nat)
      requires Shape() && bpl > 0 && y < lines && n == Area(bpl, lines) && Area(bpl, y) < n
      modifies this, win, win.next, win.prev, win.str
      modifies out`outp, out`ndump, out.outbuf, out.dumpbuf
      ensures Shape() && y <= top <= lines && size <= out.outbuf.Length
      ensures Coded(data, bpl, Area(bpl, y), Area(bpl, top), 0, out.outbuf[..size])
      ensures out.outbuf.Length >= LineBound(bpl) ==> y < top
      ensures top < lines ==> out.outbuf.Length - size < LineBound(bpl)
    {
      var line := AreaOf(bpl, y);
      Begin(line);
      assert data[line..line] == [];
      SayingIs(data, bpl, line, line, 0, out.Out());
      top, size := EncodeLines(y, lines, line);
      SayingIs(data, bpl, line, Area(bpl, top), 0, out.outbuf[..size]);
    }

    /** The lines of a block, from its start. */
    method EncodeLines(y: nat, lines: nat, base: nat) returns (top: nat, size: nat)
      requires bpl > 0 && y < lines && n == Area(bpl, lines) && base == Area(bpl, y) && AtLine(base, base, 0)
      modifies this`h, win`cp, win`hk, win`nd, win.next, win.prev, win.str
      modifies out`outp, out`ndump, out.outbuf, out.dumpbuf
      ensures Shape() && y <= top <= lines && size <= out.outbuf.Length
      ensures Saying(data, bpl, base)(Area(bpl, top), 0, out.outbuf[..size])
      ensures out.outbuf.Length >= LineBound(bpl) ==> y < top
      ensures top < lines ==> out.outbuf.Length - size < LineBound(bpl)
    {
      top, size := y, 0;
      var line := base;
      while top != lines
        invariant y <= top <= lines && line == Area(bpl, top) && AtLine(base, line, size)
        invariant top == y ==> size == 0
        decreases lines - top
      {
        AreaGrows(bpl, top, lines);
        var ok := EncodeNext(base, line, size);
        if !ok { return; }
        line := line + bpl;
        top, size := top + 1, out.outp;
      }
    }
  }

  method AreaOf(bpl: nat, lines: nat) returns (r: nat)
    ensures r == Area(bpl, lines)
  {
    AreaIsProduct(bpl, lines);
    r := bpl * lines;
  }

  // ----- whole images

  lemma {:induction false} AreaOrder(bpl: nat, y: nat, lines: nat)
    requires y <= lines
    ensures Area(bpl, y) <= Area(bpl, lines)
    ensures bpl == 0 ==> Area(bpl, lines) == 0
    ensures bpl > 0 && y < lines ==> Area(bpl, y) < Area(bpl, lines)
    decreases lines
  {
    if y < lines {
      AreaOrder(bpl, y, lines - 1);
    } else if lines > 0 {
      AreaOrder(bpl, y - 1, lines - 1);
    }
  }

  /** A block as written: the first row it does not cover, and its codes. */
  datatype Block = Block(maxy: int, codes: seq<byte>)

  function CompBlockSize(bpl: nat): nat {
    if 2 * bpl < NCBLOCK then NCBLOCK else 2 * bpl
  }

  lemma LineFits(bpl: nat)
    ensures LineBound(bpl) <= CompBlockSize(bpl)
  {
  }

  /** The blocks take the image from row y to row top: headers strictly increase, every block fits its
      buffer, and each decodes on its own to exactly its rows. */
  ghost predicate Restores(blocks: seq<Block>, image: seq<byte>, bpl: nat, miny: int, y: int, top: int)
    decreases |blocks|
  {
    miny <= y <= top &&
    if blocks == [] then y == top
    else
      var b := blocks[0];
      y < b.maxy && |b.codes| <= CompBlockSize(bpl) &&
      Stands(image, bpl, Area(bpl, y - miny), Area(bpl, b.maxy - miny), 0, b.codes) &&
      Restores(blocks[1..], image, bpl, miny, b.maxy, top)
  }

  lemma {:induction false} RestoresAppend(blocks: seq<Block>, b: Block, image: seq<byte>, bpl: nat, miny: int, y: int,
      mid: int)
    requires Restores(blocks, image, bpl, miny, y, mid)
    requires mid < b.maxy && |b.codes| <= CompBlockSize(bpl)
    requires Stands(image, bpl, Area(bpl, mid - miny), Area(bpl, b.maxy - miny), 0, b.codes)
    ensures Restores(blocks + [b], image, bpl, miny, y, b.maxy)
    decreases |blocks|
  {
    if blocks == [] {
      assert (blocks + [b])[1..] == [];
    } else {
      assert (blocks + [b])[1..] == blocks[1..] + [b];
      RestoresAppend(blocks[1..], b, image, bpl, miny, blocks[0].maxy, mid);
    }
  }

  lemma CodedWithout(image: seq<byte>, behind: seq<byte>, bpl: nat, base: nat, a: nat, codes: seq<byte>)
    requires Coded(image + behind, bpl, base, a, 0, codes) && a <= |image|
    ensures Stands(image, bpl, base, a, 0, codes)
  {
    assert (image + behind)[base..a] == image[base..a];
  }

  /** Compresses an image.  Three bytes behind it may be read, whatever they hold.  The error exit for a
      block without a complete line is never taken. */
  method WriteImage(image: seq<byte>, behind: seq<byte>, bpl: nat, miny: int, maxy: int)
    returns (ok: bool, blocks: seq<Block>)
    requires miny <= maxy && |image| == Area(bpl, maxy - miny) && |behind| >= NMATCH
    ensures ok && (|image| > 0 ==> Restores(blocks, image, bpl, miny, miny, maxy)) && (image == [] ==> blocks == [])
  {
    var e := new Encoder(image, behind, bpl, CompBlockSize(bpl));
    LineFits(bpl);
    blocks := [];
    var lines := maxy - miny;
    var y := 0;
    var line := 0;
    AreaOrder(bpl, 0, lines);
    while line != |image|
      invariant fresh(e) && fresh(e.win) && fresh(e.win.next) && fresh(e.win.prev) && fresh(e.win.str)
      invariant fresh(e.out) && fresh(e.out.outbuf) && fresh(e.out.dumpbuf)
      invariant e.Shape() && y <= lines && line == Area(bpl, y) && Restores(blocks, image, bpl, miny, miny, miny + y)
      invariant line == 0 ==> blocks == []
      decreases lines - y
    {
      AreaOrder(bpl, y, lines);
      var top, size := e.EncodeBlock(y, lines);
      AreaOrder(bpl, y, top);
      AreaOrder(bpl, top, lines);
      if size == 0 {
        return false, blocks;
      }
      var codes := e.out.outbuf[..size];
      CodedWithout(image, behind, bpl, line, Area(bpl, top), codes);
      RestoresAppend(blocks, Block(miny + top, codes), image, bpl, miny, miny, miny + y);
      blocks := blocks + [Block(miny + top, codes)];
      y := top;
      line := AreaOf(bpl, y);
    }
    AreaOrder(bpl, y, lines);
    return true, blocks;
  }

  // ----- reading the blocks back

  lemma {:induction false} AreaSplit(bpl: nat, a: nat, b: nat)
    ensures Area(bpl, a + b) == Area(bpl, a) + Area(bpl, b)
    decreases b
  {
    if b > 0 {
      AreaSplit(bpl, a, b - 1);
    }
  }

  /** What the blocks decode to, each on its own, one after the other. */
  function DecodeBlocks(bpl: nat, blocks: seq<Block>): Option<seq<byte>>
    decreases |blocks|
  {
    if blocks == [] then Some([])
    else
      var d := Decode(bpl, Progress([], 0), blocks[0].codes);
      var r := DecodeBlocks(bpl, blocks[1..]);
      if d.Some? && d.value.col == 0 && r.Some? then Some(d.value.hist + r.value) else None
  }

  /** Decoding the blocks one after the other gives the rows back. */
  lemma {:induction false} RoundTrip(blocks: seq<Block>, image: seq<byte>, bpl: nat, miny: int, y: int, top: int)
    requires Restores(blocks, image, bpl, miny, y, top) && Area(bpl, top - miny) <= |image|
    ensures Area(bpl, y - miny) <= Area(bpl, top - miny)
    ensures DecodeBlocks(bpl, blocks) == Some(image[Area(bpl, y - miny)..Area(bpl, top - miny)])
    decreases |blocks|
  {
    AreaOrder(bpl, y - miny, top - miny);
    if blocks != [] {
      var b := blocks[0];
      RoundTrip(blocks[1..], image, bpl, miny, b.maxy, top);
      AreaOrder(bpl, y - miny, b.maxy - miny);
      HeadDecodes(blocks, image, bpl, Area(bpl, y - miny), Area(bpl, b.maxy - miny), Area(bpl, top - miny));
    } else {
      assert image[Area(bpl, y - miny)..Area(bpl, top - miny)] == [];
    }
  }

  lemma HeadDecodes(blocks: seq<Block>, image: seq<byte>, bpl: nat, lo: nat, mid: nat, hi: nat)
    requires lo <= mid <= hi <= |image| && blocks != [] && Stands(image, bpl, lo, mid, 0, blocks[0].codes)
    requires DecodeBlocks(bpl, blocks[1..]) == Some(image[mid..hi])
    ensures DecodeBlocks(bpl, blocks) == Some(image[lo..hi])
  {
    assert image[lo..mid] + image[mid..hi] == image[lo..hi];
  }

  /** The whole image comes back. */
  lemma WholeImage(blocks: seq<Block>, image: seq<byte>, bpl: nat, miny: int, maxy: int)
    requires Restores(blocks, image, bpl, miny, miny, maxy) && Area(bpl, maxy - miny) == |image|
    ensures DecodeBlocks(bpl, blocks) == Some(image)
  {
    RoundTrip(blocks, image, bpl, miny, miny, maxy);
    assert image[0..|image|] == image;
  }

  /** The first block is one the loader uses up exactly, for the rows its header names. */
  lemma BlockLoads(blocks: seq<Block>, image: seq<byte>, bpl: nat, miny: int, y: int, top: int)
    requires Restores(blocks, image, bpl, miny, y, top) && blocks != []
    ensures Complete(blocks[0].codes, bpl, blocks[0].maxy - y)
  {
    AreaSplit(bpl, y - miny, blocks[0].maxy - y);
  }
}
