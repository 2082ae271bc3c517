/** Quoting strings, putting blanks between and tokenising gives the strings back. */
module QuoteTokens {
  import opened Basics
  import opened Runes
  import opened Quote
  import opened Tokenize

  /** Spaces, tabs, carriage returns and newlines. */
  predicate Blank(g: seq<byte>) {
    forall i {:trigger g[i]} :: 0 <= i < |g| ==> g[i] == 32 || g[i] == 9 || g[i] == 13 || g[i] == 10
  }

  /** None of these, and no quote. */
  predicate Solid(x: seq<byte>) {
    forall i {:trigger x[i]} :: 0 <= i < |x| ==>
      x[i] != 32 && x[i] != 9 && x[i] != 13 && x[i] != 10 && x[i] != QUOTE
  }

  predicate Plain(x: seq<byte>) { forall i {:trigger x[i]} :: 0 <= i < |x| ==> x[i] > 32 && x[i] != QUOTE }

  /** What may follow a token. */
  predicate Stops(rest: seq<byte>) { rest == [] || Sep(rest[0]) }

  // ----- words

  /** A piece of a word: bytes that stand for themselves, or bytes between quotes. */
  datatype Piece = Bare(x: seq<byte>) | Quoted(x: seq<byte>)

  /** Pieces make a word if bare ones are not empty and quoted ones do not touch. */
  predicate Word(ps: seq<Piece>)
    decreases |ps|
  {
    ps == [] ||
    ((if ps[0].Bare? then ps[0].x != [] && Solid(ps[0].x) else |ps| == 1 || ps[1].Bare?) && Word(ps[1..]))
  }

  /** How the word is written: quotes inside quotes are doubled. */
  function Text(ps: seq<Piece>): seq<byte> {
    if ps == [] then [] else (if ps[0].Bare? then ps[0].x else [QUOTE] + Double(ps[0].x) + [QUOTE]) + Text(ps[1..])
  }

  /** What it stands for. */
  function Meaning(ps: seq<Piece>): seq<byte> { if ps == [] then [] else ps[0].x + Meaning(ps[1..]) }

  /** f is a word for x. */
  ghost predicate Spells(f: seq<byte>, x: seq<byte>) {
    exists ps: seq<Piece> {:trigger Word(ps)} :: ps != [] && Word(ps) && f == Text(ps) && x == Meaning(ps)
  }

  /** f is x quoted, or x itself if nothing in it calls for quotes. */
  predicate Quotes(f: seq<byte>, x: seq<byte>) { f == [QUOTE] + Double(x) + [QUOTE] || (f == x && x != [] && Plain(x)) }

  lemma FormQuotes(x: seq<byte>, doquote: rune -> bool, sharp: bool)
    requires ValidFrom(x, 0)
    ensures Quotes(Form(x, doquote, sharp), x)
  {
    if !NeedsFrom(x, 0, doquote) { PlainFrom(x, 0, doquote); }
  }

  lemma DoubleOne(b: byte)
    ensures Double([b]) == if b == QUOTE then [b, b] else [b]
  {
    assert [b][..0] == [];
  }

  lemma DoubleCons(b: byte, x: seq<byte>)
    ensures Double([b] + x) == (if b == QUOTE then [b, b] else [b]) + Double(x)
  {
    var one := [b];
    DoubleAppend(one, x);
    DoubleOne(b);
  }

  lemma QuotesSpell(f: seq<byte>, x: seq<byte>)
    requires Quotes(f, x)
    ensures Spells(f, x)
  {
    if f == [QUOTE] + Double(x) + [QUOTE] {
      OnePiece(Quoted(x));
    } else {
      OnePiece(Bare(x));
    }
  }

  lemma OnePiece(p: Piece)
    requires p.Bare? ==> p.x != [] && Solid(p.x)
    ensures Spells(if p.Bare? then p.x else [QUOTE] + Double(p.x) + [QUOTE], p.x)
  {
    var ps := [p];
    assert ps[1..] == [] && Word(ps[1..]) && Text(ps[1..]) == [] && Meaning(ps[1..]) == [];
    assert Word(ps);
    var f := if p.Bare? then p.x else [QUOTE] + Double(p.x) + [QUOTE];
    assert f + [] == f && p.x + [] == p.x;
  }

  /** Bytes between quotes, up to the closing one. */
  lemma {:induction false} TokenQuoted(s: seq<byte>, p: nat, x: seq<byte>, rest: seq<byte>)
    requires p <= |s| && s[p..] == Double(x) + [QUOTE] + rest && (rest == [] || rest[0] != QUOTE)
    ensures |rest| <= |s| &&
            Token(s, p, true) == (x + Token(s, |s| - |rest|, false).0, Token(s, |s| - |rest|, false).1)
    decreases |x|
  {
    var t := s[p..];
    if x == [] {
      assert t[0] == QUOTE && t[1..] == rest;
      assert rest != [] ==> s[p + 1] == t[1] == rest[0];
      assert [] + Token(s, p + 1, false).0 == Token(s, p + 1, false).0;
    } else {
      var b, y := x[0], x[1..];
      assert x == [b] + y;
      DoubleCons(b, y);
      var n := if b == QUOTE then 2 else 1;
      assert t == (if b == QUOTE then [b, b] else [b]) + (Double(y) + [QUOTE] + rest);
      assert s[p + n..] == t[n..] == Double(y) + [QUOTE] + rest;
      assert s[p] == t[0] == b;
      if b == QUOTE { assert s[p + 1] == t[1] == b; }
      TokenQuoted(s, p + n, y, rest);
      var more := Token(s, |s| - |rest|, false).0;
      assert [b] + (y + more) == x + more;
    }
  }

  /** Bytes that stand for themselves. */
  lemma {:induction false} TokenBare(s: seq<byte>, p: nat, x: seq<byte>, rest: seq<byte>)
    requires p <= |s| && s[p..] == x + rest && Solid(x)
    ensures |rest| <= |s| &&
            Token(s, p, false) == (x + Token(s, |s| - |rest|, false).0, Token(s, |s| - |rest|, false).1)
    decreases |x|
  {
    var t := s[p..];
    if x == [] {
      assert t == rest;
      assert [] + Token(s, p, false).0 == Token(s, p, false).0;
    } else {
      assert s[p] == t[0] == x[0];
      assert s[p + 1..] == t[1..] == x[1..] + rest;
      TokenBare(s, p + 1, x[1..], rest);
      var more := Token(s, |s| - |rest|, false).0;
      assert [x[0]] + (x[1..] + more) == x + more;
    }
  }

  /** A word is read piece by piece, however its pieces alternate. */
  lemma {:induction false} TokenWord(s: seq<byte>, p: nat, ps: seq<Piece>, rest: seq<byte>)
    requires p <= |s| && s[p..] == Text(ps) + rest && Word(ps) && Stops(rest)
    ensures |rest| <= |s| && Token(s, p, false) == (Meaning(ps), |s| - |rest|)
    decreases |ps|
  {
    if ps == [] {
      assert s[p..] == rest;
      assert rest != [] ==> s[p] == s[p..][0] == rest[0];
    } else {
      var more := Text(ps[1..]) + rest;
      var q := PieceRead(s, p, ps, rest, more);
      TokenWord(s, q, ps[1..], rest);
    }
  }

  lemma PieceRead(s: seq<byte>, p: nat, ps: seq<Piece>, rest: seq<byte>, more: seq<byte>) returns (q: nat)
    requires p <= |s| && ps != [] && s[p..] == Text(ps) + rest && Word(ps) && Stops(rest)
    requires more == Text(ps[1..]) + rest
    ensures q <= |s| && s[q..] == more && q == |s| - |more|
    ensures Token(s, p, false) == (ps[0].x + Token(s, q, false).0, Token(s, q, false).1)
  {
    TextFirst(ps, rest);
    if ps[0].Bare? {
      q := BareRead(s, p, ps[0].x, more);
    } else {
      NextStops(ps, rest);
      q := QuotedRead(s, p, ps[0].x, more);
    }
  }

  lemma TextFirst(ps: seq<Piece>, rest: seq<byte>)
    requires ps != []
    ensures Text(ps) + rest ==
      (if ps[0].Bare? then ps[0].x else [QUOTE] + Double(ps[0].x) + [QUOTE]) + (Text(ps[1..]) + rest)
  {
  }

  lemma BareRead(s: seq<byte>, p: nat, x: seq<byte>, more: seq<byte>) returns (q: nat)
    requires p <= |s| && s[p..] == x + more && Solid(x)
    ensures q <= |s| && s[q..] == more && q == |s| - |more|
    ensures Token(s, p, false) == (x + Token(s, q, false).0, Token(s, q, false).1)
  {
    TokenBare(s, p, x, more);
    q := p + |x|;
    assert s[q..] == s[p..][|x|..];
  }

  lemma QuotedRead(s: seq<byte>, p: nat, x: seq<byte>, more: seq<byte>) returns (q: nat)
    requires p <= |s| && s[p..] == [QUOTE] + Double(x) + [QUOTE] + more && (more == [] || more[0] != QUOTE)
    ensures q <= |s| && s[q..] == more && q == |s| - |more|
    ensures Token(s, p, false) == (x + Token(s, q, false).0, Token(s, q, false).1)
  {
    var t := s[p..];
    assert s[p] == t[0] == QUOTE;
    assert s[p + 1..] == t[1..] == Double(x) + [QUOTE] + more;
    TokenQuoted(s, p + 1, x, more);
    q := p + |Double(x)| + 2;
    assert s[q..] == t[|Double(x)| + 2..] == more;
  }

  /** What follows the closing quote of a piece is no quote. */
  lemma NextStops(ps: seq<Piece>, rest: seq<byte>)
    requires ps != [] && ps[0].Quoted? && Word(ps) && Stops(rest)
    ensures var more := Text(ps[1..]) + rest; more == [] || more[0] != QUOTE
  {
    if |ps| > 1 {
      var next := ps[1..][0];
      assert next.Bare? && next.x != [] && Solid(next.x) && next.x[0] != QUOTE;
      assert Text(ps[1..])[0] == next.x[0];
    }
  }

  lemma TokenForm(s: seq<byte>, p: nat, f: seq<byte>, x: seq<byte>, rest: seq<byte>)
    requires p <= |s| && s[p..] == f + rest && Spells(f, x) && Stops(rest)
    ensures f != [] && p < |s| && !Sep(s[p]) && Token(s, p, false) == (x, |s| - |rest|)
  {
    var ps: seq<Piece> :| ps != [] && Word(ps) && f == Text(ps) && x == Meaning(ps);
    TokenWord(s, p, ps, rest);
    WordStarts(ps);
    assert s[p] == s[p..][0] == f[0];
  }

  lemma WordStarts(ps: seq<Piece>)
    requires ps != [] && Word(ps)
    ensures Text(ps) != [] && !Sep(Text(ps)[0])
  {
    if ps[0].Bare? {
      assert ps[0].x[0] == Text(ps)[0];
    } else {
      assert Text(ps)[0] == QUOTE;
    }
  }

  lemma {:induction false} SkipGap(s: seq<byte>, p: nat, g: seq<byte>, rest: seq<byte>)
    requires p <= |s| && s[p..] == g + rest && Blank(g) && (rest != [] ==> !Sep(rest[0]))
    ensures Skip(s, p) == |s| - |rest|
    decreases |g|
  {
    var t := s[p..];
    if g == [] {
      assert t == rest;
      assert rest != [] ==> s[p] == t[0] == rest[0];
    } else {
      assert s[p] == t[0] == g[0];
      assert s[p + 1..] == t[1..] == g[1..] + rest;
      SkipGap(s, p + 1, g[1..], rest);
    }
  }

  // ----- lines

  /** The strings with the gaps before, between and after them. */
  function Line(fs: seq<seq<byte>>, gaps: seq<seq<byte>>): seq<byte>
    requires |gaps| == |fs| + 1
  {
    gaps[0] + if fs == [] then [] else fs[0] + Line(fs[1..], gaps[1..])
  }

  /** The gaps are blank, and none between two strings is empty. */
  predicate Gaps(gaps: seq<seq<byte>>) {
    forall i {:trigger gaps[i]} :: 0 <= i < |gaps| ==> Blank(gaps[i]) && (0 < i < |gaps| - 1 ==> gaps[i] != [])
  }

  /** The first string of a line is its first token. */
  lemma FirstOfLine(s: seq<byte>, p: nat, g: seq<byte>, f: seq<byte>, x: seq<byte>, rest: seq<byte>)
    requires p <= |s| && s[p..] == g + (f + rest) && Blank(g) && Spells(f, x) && Stops(rest)
    ensures Skip(s, p) < |s| && Token(s, Skip(s, p), false) == (x, |s| - |rest|) && s[|s| - |rest|..] == rest
  {
    var t, q := s[p..], p + |g|;
    assert s[q..] == t[|g|..] == f + rest;
    TokenForm(s, q, f, x, rest);
    assert f[0] == (f + rest)[0];
    assert s[q] == (f + rest)[0];
    SkipGap(s, p, g, f + rest);
    assert s[q + |f|..] == t[|g|..][|f|..] == rest;
  }

  lemma LineStops(fs: seq<seq<byte>>, gaps: seq<seq<byte>>)
    requires |gaps| == |fs| + 1 && fs != [] && Gaps(gaps)
    ensures Stops(Line(fs[1..], gaps[1..])) && Gaps(gaps[1..]) && Blank(gaps[0])
  {
    var tail := gaps[1..];
    assert forall i {:trigger tail[i]} :: 0 <= i < |tail| ==> tail[i] == gaps[i + 1];
    if fs[1..] != [] { assert gaps[1] != [] && Blank(gaps[1]); }
  }

  lemma TokensCons(s: seq<byte>, p: nat, n: nat, x: seq<byte>, e: nat, more: seq<seq<byte>>)
    requires p <= |s| && n > 0 && Skip(s, p) < |s| && Token(s, Skip(s, p), false) == (x, e) &&
             Tokens(s, e, n - 1) == more
    ensures Tokens(s, p, n) == [x] + more
  {
  }

  ghost predicate AllSpell(fs: seq<seq<byte>>, xs: seq<seq<byte>>) {
    |fs| == |xs| && forall i {:trigger fs[i]} :: 0 <= i < |fs| ==> Spells(fs[i], xs[i])
  }

  lemma TailSpells(fs: seq<seq<byte>>, xs: seq<seq<byte>>)
    requires AllSpell(fs, xs) && fs != []
    ensures AllSpell(fs[1..], xs[1..]) && Spells(fs[0], xs[0])
  {
    var fs', xs' := fs[1..], xs[1..];
    forall i {:trigger fs'[i]} | 0 <= i < |fs'| ensures Spells(fs'[i], xs'[i]) { assert fs'[i] == fs[i + 1]; }
  }

  lemma LineHead(s: seq<byte>, p: nat, fs: seq<seq<byte>>, xs: seq<seq<byte>>, gaps: seq<seq<byte>>) returns (e: nat)
    requires p <= |s| && |gaps| == |fs| + 1 && fs != [] && Gaps(gaps) && s[p..] == Line(fs, gaps) && AllSpell(fs, xs)
    ensures e <= |s| && s[e..] == Line(fs[1..], gaps[1..])
    ensures Skip(s, p) < |s| && Token(s, Skip(s, p), false) == (xs[0], e)
  {
    var rest := Line(fs[1..], gaps[1..]);
    LineStops(fs, gaps);
    TailSpells(fs, xs);
    FirstOfLine(s, p, gaps[0], fs[0], xs[0], rest);
    e := |s| - |rest|;
  }

  lemma NoTokens(s: seq<byte>, p: nat, gaps: seq<seq<byte>>, n: nat)
    requires p <= |s| && |gaps| == 1 && Gaps(gaps) && s[p..] == gaps[0]
    ensures Tokens(s, p, n) == []
  {
    assert s[p..] == gaps[0] + [];
    SkipGap(s, p, gaps[0], []);
  }

  lemma {:induction false} TokensOfLine(s: seq<byte>, p: nat, fs: seq<seq<byte>>, xs: seq<seq<byte>>,
      gaps: seq<seq<byte>>, n: nat)
    requires p <= |s| && |gaps| == |fs| + 1 && |fs| <= n && Gaps(gaps) && s[p..] == Line(fs, gaps) && AllSpell(fs, xs)
    ensures Tokens(s, p, n) == xs
    decreases |fs|
  {
    if fs == [] {
      assert gaps[0] + [] == gaps[0];
      NoTokens(s, p, gaps, n);
    } else {
      var xs' := xs[1..];
      var e := LineHead(s, p, fs, xs, gaps);
      LineStops(fs, gaps);
      TailSpells(fs, xs);
      TokensOfLine(s, e, fs[1..], xs', gaps[1..], n - 1);
      TokensCons(s, p, n, xs[0], e, xs');
      assert xs == [xs[0]] + xs';
    }
  }

  /** Words, each of bare and quoted pieces in any order, with blanks between them: the tokens are what they mean. */
  lemma WordsTokenize(pss: seq<seq<Piece>>, gaps: seq<seq<byte>>, n: nat)
    requires |gaps| == |pss| + 1 && Gaps(gaps) && |pss| <= n
    requires forall i {:trigger pss[i]} :: 0 <= i < |pss| ==> pss[i] != [] && Word(pss[i])
    ensures Tokens(Line(Texts(pss), gaps), 0, n) == Meanings(pss)
  {
    forall i {:trigger Texts(pss)[i]} | 0 <= i < |pss| ensures Spells(Texts(pss)[i], Meanings(pss)[i]) {
      assert Word(pss[i]);
    }
    TokensOfLine(Line(Texts(pss), gaps), 0, Texts(pss), Meanings(pss), gaps, n);
  }

  function Texts(pss: seq<seq<Piece>>): (fs: seq<seq<byte>>)
    ensures |fs| == |pss| && forall i {:trigger fs[i]} :: 0 <= i < |fs| ==> fs[i] == Text(pss[i])
  {
    seq(|pss|, i requires 0 <= i < |pss| => Text(pss[i]))
  }

  function Meanings(pss: seq<seq<Piece>>): (xs: seq<seq<byte>>)
    ensures |xs| == |pss| && forall i {:trigger xs[i]} :: 0 <= i < |xs| ==> xs[i] == Meaning(pss[i])
  {
    seq(|pss|, i requires 0 <= i < |pss| => Meaning(pss[i]))
  }

  function Forms(xs: seq<seq<byte>>, doquote: rune -> bool, sharp: bool): (fs: seq<seq<byte>>)
    ensures |fs| == |xs|
    ensures forall i {:trigger fs[i]} :: 0 <= i < |fs| ==> fs[i] == Form(xs[i], doquote, sharp)
  {
    seq(|xs|, i requires 0 <= i < |xs| => Form(xs[i], doquote, sharp))
  }

  /** Tokenising quoted strings with blanks between them gives the strings. */
  lemma QuoteThenTokenize(xs: seq<seq<byte>>, gaps: seq<seq<byte>>, doquote: rune -> bool, sharp: bool, n: nat)
    requires |gaps| == |xs| + 1 && Gaps(gaps) && |xs| <= n
    requires forall i {:trigger xs[i]} :: 0 <= i < |xs| ==> ValidFrom(xs[i], 0)
    ensures Tokens(Line(Forms(xs, doquote, sharp), gaps), 0, n) == xs
  {
    var fs := Forms(xs, doquote, sharp);
    forall i {:trigger fs[i]} | 0 <= i < |fs| ensures Spells(fs[i], xs[i]) {
      FormQuotes(xs[i], doquote, sharp);
      QuotesSpell(fs[i], xs[i]);
    }
    TokensOfLine(Line(fs, gaps), 0, fs, xs, gaps, n);
  }
}
