/**
  tokenize: splitting a string in place into its blank-separated tokens, with quoting.

  A token is written where it was read, over the quotes that fall away, and ended by a NUL there.
 */
module Tokenize {
  import opened Basics

  const QUOTE: byte := 39

  /** Blank, tab, carriage return and newline. */
  predicate Sep(b: byte) { b == 32 || b == 9 || b == 13 || b == 10 }

  predicate NulFree(s: seq<byte>) { forall i {:trigger s[i]} :: 0 <= i < |s| ==> s[i] != 0 }

  // ----- the tokens of a string

  /** The rest of the token at p, inside quotes or not, and where it ends. */
  function Token(s: seq<byte>, p: nat, quoting: bool): (r: (seq<byte>, nat))
    requires p <= |s|
    ensures p <= r.1 <= |s|
    decreases |s| - p
  {
    if p == |s| || (!quoting && Sep(s[p])) then ([], p)
    else if s[p] != QUOTE then var (t, e) := Token(s, p + 1, quoting); ([s[p]] + t, e)
    else if !quoting then Token(s, p + 1, true)
    else if p + 1 == |s| || s[p + 1] != QUOTE then Token(s, p + 1, false)
    else var (t, e) := Token(s, p + 2, true); ([QUOTE] + t, e)
  }

  function Skip(s: seq<byte>, p: nat): (q: nat)
    requires p <= |s|
    ensures p <= q <= |s|
    decreases |s| - p
  {
    if p == |s| || !Sep(s[p]) then p else Skip(s, p + 1)
  }

  /** The first n tokens from p on. */
  function Tokens(s: seq<byte>, p: nat, n: nat): seq<seq<byte>>
    requires p <= |s|
    decreases n
  {
    var q := Skip(s, p);
    if n == 0 || q == |s| then [] else var (t, e) := Token(s, q, false); [t] + Tokens(s, e, n - 1)
  }

  // ----- the program

  /** From p on buf holds what is left of s. */
  predicate Rest(buf: array<byte>, s: seq<byte>, p: nat)
    reads buf
  {
    |s| < buf.Length && (p <= |s| ==> buf[|s|] == 0) && forall i {:trigger buf[i]} :: p <= i < |s| ==> buf[i] == s[i]
  }

  /** buf holds the string t at p, ended by a NUL. */
  predicate HoldsAt(buf: array<byte>, t: seq<byte>, p: nat)
    reads buf
  {
    p + |t| < buf.Length && buf[p + |t|] == 0 && forall i {:trigger buf[i]} :: p <= i < p + |t| ==> buf[i] == t[i - p]
  }

  /** tok is what the token at p has up to t. */
  ghost predicate ReadSoFar(s: seq<byte>, p: nat, tok: seq<byte>, t: nat, quoting: bool)
    requires p <= |s|
  {
    t <= |s| && Token(s, p, false) == (tok + Token(s, t, quoting).0, Token(s, t, quoting).1)
  }

  lemma ReadOn(s: seq<byte>, p: nat, tok: seq<byte>, t: nat, quoting: bool)
    requires p <= |s| && ReadSoFar(s, p, tok, t, quoting) && t < |s| && (quoting || !Sep(s[t]))
    ensures if s[t] != QUOTE then ReadSoFar(s, p, tok + [s[t]], t + 1, quoting)
            else if !quoting then ReadSoFar(s, p, tok, t + 1, true)
            else if t + 1 == |s| || s[t + 1] != QUOTE then ReadSoFar(s, p, tok, t + 1, false)
            else ReadSoFar(s, p, tok + [QUOTE], t + 2, true)
  {
    if s[t] != QUOTE {
      var r := Token(s, t + 1, quoting).0;
      assert tok + ([s[t]] + r) == (tok + [s[t]]) + r;
    } else if quoting && t + 1 < |s| && s[t + 1] == QUOTE {
      var r := Token(s, t + 2, true).0;
      assert tok + ([QUOTE] + r) == (tok + [QUOTE]) + r;
    }
  }

  method QToken(buf: array<byte>, p: nat, ghost s: seq<byte>) returns (t: nat)
    requires NulFree(s) && p < |s| && !Sep(s[p]) && Rest(buf, s, p)
    modifies buf
    ensures var (tok, e) := Token(s, p, false);
            HoldsAt(buf, tok, p) && p + |tok| <= t <= |s| && e <= t && Skip(s, t) == Skip(s, e) && p < t
    ensures p + |Token(s, p, false).0| < t || t == |s|
    ensures t <= |s| && Rest(buf, s, t)
    ensures forall i {:trigger buf[i]} :: 0 <= i < p || |s| < i < buf.Length ==> buf[i] == old(buf[i])
  {
    ghost var tok := [];
    assert tok + Token(s, p, false).0 == Token(s, p, false).0;
    var o, quoting := p, false;
    t := p;
    while buf[t] != 0 && (quoting || !Sep(buf[t]))
      invariant p <= o <= t <= |s| && o == p + |tok| && Rest(buf, s, t)
      invariant forall i {:trigger buf[i]} :: p <= i < o ==> buf[i] == tok[i - p]
      invariant forall i {:trigger buf[i]} :: o <= i < t ==> buf[i] != 0
      invariant forall i {:trigger buf[i]} :: 0 <= i < p || |s| < i < buf.Length ==> buf[i] == old(buf[i])
      invariant ReadSoFar(s, p, tok, t, quoting)
      decreases |s| - t
    {
      ReadOn(s, p, tok, t, quoting);
      if buf[t] != QUOTE {
        tok := tok + [s[t]];
        buf[o] := buf[t];
        o, t := o + 1, t + 1;
      } else if !quoting {
        quoting := true;
        t := t + 1;
      } else if buf[t + 1] != QUOTE {
        t := t + 1;
        quoting := false;
      } else {
        tok := tok + [QUOTE];
        t := t + 1;
        buf[o] := buf[t];
        o, t := o + 1, t + 1;
      }
    }
    assert tok + [] == tok;
    if buf[o] != 0 {
      buf[o] := 0;
      if t == o { t := t + 1; }
    }
  }

  /** Each of the tokens is in buf at its place. */
  predicate Placed(buf: array<byte>, toks: seq<seq<byte>>, places: seq<nat>)
    reads buf
  {
    |toks| == |places| && forall i {:trigger toks[i]} {:trigger places[i]} :: 0 <= i < |toks| ==>
        HoldsAt(buf, toks[i], places[i])
  }

  /** The NUL of each token comes before p, or p is the end of s. */
  ghost predicate Behind(toks: seq<seq<byte>>, places: seq<nat>, p: nat, n: nat)
    requires |toks| == |places|
  {
    forall i {:trigger toks[i]} {:trigger places[i]} :: 0 <= i < |toks| ==>
      places[i] + |toks[i]| <= n && (places[i] + |toks[i]| < p || p == n)
  }

  method SkipBlanks(buf: array<byte>, p0: nat, ghost s: seq<byte>) returns (p: nat)
    requires NulFree(s) && p0 <= |s| && Rest(buf, s, p0)
    ensures p == Skip(s, p0) && (buf[p] == 0 <==> p == |s|) && (p < |s| ==> !Sep(s[p]))
  {
    p := p0;
    while buf[p] != 0 && Sep(buf[p])
      invariant p0 <= p <= |s| && Skip(s, p) == Skip(s, p0)
      decreases |s| - p
    {
      p := p + 1;
    }
  }

  /** all is the tokens so far and n more, at most, from p on. */
  ghost predicate Left(all: seq<seq<byte>>, toks: seq<seq<byte>>, s: seq<byte>, p: nat, n: nat) {
    p <= |s| && all == toks + Tokens(s, p, n)
  }

  lemma TakeOne(all: seq<seq<byte>>, toks: seq<seq<byte>>, s: seq<byte>, p: nat, n: nat)
    requires Left(all, toks, s, p, n)
    ensures var q := Skip(s, p);
            if n == 0 || q == |s| then all == toks
            else var (tok, e) := Token(s, q, false); Left(all, toks + [tok], s, e, n - 1)
  {
  }

  lemma SkipTokens(all: seq<seq<byte>>, toks: seq<seq<byte>>, s: seq<byte>, p: nat, q: nat, n: nat)
    requires p <= |s| && q <= |s| && Skip(s, p) == Skip(s, q) && Left(all, toks, s, q, n)
    ensures Left(all, toks, s, p, n)
  {
  }

  /** One token, written behind what is to be read, so that the earlier ones stay. */
  method Next(buf: array<byte>, p0: nat, ghost s: seq<byte>, ghost all: seq<seq<byte>>, ghost toks: seq<seq<byte>>,
              ghost places: seq<nat>, ghost n: nat)
      returns (p: nat, ghost toks': seq<seq<byte>>)
    requires NulFree(s) && p0 < |s| && !Sep(s[p0]) && Rest(buf, s, p0) && Left(all, toks, s, p0, n + 1)
    requires Placed(buf, toks, places) && Behind(toks, places, p0, |s|)
    modifies buf
    ensures p0 < p <= |s| && Rest(buf, s, p) && |toks'| == |toks| + 1 && Left(all, toks', s, p, n)
    ensures Placed(buf, toks', places + [p0]) && Behind(toks', places + [p0], p, |s|)
    ensures forall i {:trigger buf[i]} :: |s| < i < buf.Length ==> buf[i] == old(buf[i])
  {
    p := QToken(buf, p0, s);
    ghost var (tok, e) := Token(s, p0, false);
    toks' := toks + [tok];
    TakeOne(all, toks, s, p0, n + 1);
    SkipTokens(all, toks', s, p, e, n);
    forall i | 0 <= i < |toks| ensures HoldsAt(buf, toks[i], places[i]) {
      assert places[i] + |toks[i]| < p0;
    }
  }

  method Tokenize(buf: array<byte>, args: array<nat>, maxargs: nat, ghost s: seq<byte>) returns (nargs: nat)
    requires NulFree(s) && HoldsAt(buf, s, 0) && maxargs <= args.Length
    modifies buf, args
    ensures nargs == |Tokens(s, 0, maxargs)| <= maxargs
    ensures Placed(buf, Tokens(s, 0, maxargs), args[..nargs])
    ensures forall i {:trigger buf[i]} :: |s| < i < buf.Length ==> buf[i] == old(buf[i])
  {
    ghost var all, toks: seq<seq<byte>>, places: seq<nat> := Tokens(s, 0, maxargs), [], [];
    var p: nat := 0;
    nargs := 0;
    while nargs < maxargs
      invariant nargs == |toks| == |places| <= maxargs && p <= |s| && Rest(buf, s, p) &&
                Left(all, toks, s, p, maxargs - nargs)
      invariant forall i {:trigger args[i]} :: 0 <= i < nargs ==> args[i] == places[i]
      invariant Placed(buf, toks, places) && Behind(toks, places, p, |s|)
      invariant forall i {:trigger buf[i]} :: |s| < i < buf.Length ==> buf[i] == old(buf[i])
    {
      ghost var n, p0 := maxargs - nargs, p;
      TakeOne(all, toks, s, p, n);
      p := SkipBlanks(buf, p, s);
      if buf[p] == 0 { break; }
      args[nargs] := p;
      SkipTwice(s, p0);
      SkipTokens(all, toks, s, p, p0, n);
      ghost var q := p;
      p, toks := Next(buf, p, s, all, toks, places, n - 1);
      places := places + [q];
      nargs := nargs + 1;
    }
    TakeOne(all, toks, s, p, maxargs - nargs);
    assert args[..nargs] == places;
  }

  lemma {:induction false} SkipTwice(s: seq<byte>, p: nat)
    requires p <= |s|
    ensures Skip(s, Skip(s, p)) == Skip(s, p)
    decreases |s| - p
  {
    if p < |s| && Sep(s[p]) { SkipTwice(s, p + 1); }
  }
}
