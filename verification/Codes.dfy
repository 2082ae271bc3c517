/**
  The compressed-image code format: what a block of codes means, the decoder that reads it,
  and the in-place complement of its literal bytes.

  A code whose first byte has the top bit set carries up to NDUMP literal bytes.  Any other code
  is two bytes, five bits of length and ten bits of offset, and repeats a previous string.
 */
module Codes {
  import opened Basics

  const NMATCH := 3        // shortest match possible
  const NRUN := NMATCH + 31 // longest match possible
  const NMEM := 1024       // window size
  const NDUMP := 128       // maximum length of a literal run
  const NCBLOCK := 6000    // smallest block buffer

  /** Where a decoder stands: the bytes produced so far in this block, and how many of them belong to
      the scan line being filled. */
  datatype Progress = Progress(hist: seq<byte>, col: nat)

  /** The bytes of `lines` scan lines. */
  function Area(bpl: nat, lines: nat): nat {
    if lines == 0 then 0 else Area(bpl, lines - 1) + bpl
  }

  lemma {:induction false} AreaIsProduct(bpl: nat, lines: nat)
    ensures Area(bpl, lines) == bpl * lines
  {
    if lines > 0 {
      AreaIsProduct(bpl, lines - 1);
      assert bpl * lines == bpl * (lines - 1) + bpl;
    }
  }

  lemma {:induction false} AreaGrows(bpl: nat, y: nat, lines: nat)
    requires y < lines
    ensures Area(bpl, y) + bpl <= Area(bpl, lines)
    decreases lines
  {
    if y < lines - 1 {
      AreaGrows(bpl, y, lines - 1);
    }
  }

  // ----- the meaning of a block

  function LiteralLength(c: int): int { c - 128 + 1 }

  function CopyLength(hi: int): int { hi / 4 + NMATCH }

  function CopyOffset(hi: int, lo: int): int { lo + (hi % 4) * 256 + 1 }

  /** The byte at distance `offs` is appended `cnt` times, each append seeing the one before it. */
  function Repeat(hist: seq<byte>, offs: nat, cnt: nat): (r: seq<byte>)
    requires 1 <= offs <= |hist|
    ensures |r| == |hist| + cnt && hist <= r
    decreases cnt
  {
    if cnt == 0 then hist else Repeat(hist + [hist[|hist| - offs]], offs, cnt - 1)
  }

  function Advance(bpl: nat, at: Progress, hist: seq<byte>, n: nat): Progress {
    Progress(hist, if at.col + n == bpl then 0 else at.col + n)
  }

  /** Decodes `codes` after `at`.  None stands for a truncated code, a copy that reaches before the
      start of the block, or a code that crosses the end of a scan line. */
  function Decode(bpl: nat, at: Progress, codes: seq<byte>): Option<Progress>
    decreases |codes|
  {
    if codes == [] then
      Some(at)
    else if codes[0] >= 128 then
      var k := LiteralLength(codes[0]);
      if |codes| < 1 + k || at.col + k > bpl then None
      else Decode(bpl, Advance(bpl, at, at.hist + codes[1..1 + k], k), codes[1 + k..])
    else if |codes| < 2 then
      None
    else
      var offs := CopyOffset(codes[0], codes[1]);
      var cnt := CopyLength(codes[0]);
      if offs > |at.hist| || at.col + cnt > bpl then None
      else Decode(bpl, Advance(bpl, at, Repeat(at.hist, offs, cnt), cnt), codes[2..])
  }

  lemma {:induction false} DecodeAppend(bpl: nat, at: Progress, c1: seq<byte>, c2: seq<byte>)
    requires Decode(bpl, at, c1).Some?
    ensures Decode(bpl, at, c1 + c2) == Decode(bpl, Decode(bpl, at, c1).value, c2)
    decreases |c1|
  {
    if c1 == [] {
      assert c1 + c2 == c2;
    } else if c1[0] >= 128 {
      var k := LiteralLength(c1[0]);
      assert (c1 + c2)[1..1 + k] == c1[1..1 + k];
      assert (c1 + c2)[1 + k..] == c1[1 + k..] + c2;
      DecodeAppend(bpl, Advance(bpl, at, at.hist + c1[1..1 + k], k), c1[1 + k..], c2);
    } else {
      var offs := CopyOffset(c1[0], c1[1]);
      var cnt := CopyLength(c1[0]);
      assert (c1 + c2)[2..] == c1[2..] + c2;
      DecodeAppend(bpl, Advance(bpl, at, Repeat(at.hist, offs, cnt), cnt), c1[2..], c2);
    }
  }

  /** One literal code decodes to its bytes. */
  lemma DecodeLiteral(bpl: nat, at: Progress, lit: seq<byte>)
    requires 1 <= |lit| <= NDUMP && at.col + |lit| <= bpl
    ensures Decode(bpl, at, [|lit| - 1 + 128] + lit) == Some(Advance(bpl, at, at.hist + lit, |lit|))
  {
    var c := [|lit| - 1 + 128] + lit;
    assert c[1..1 + |lit|] == lit;
    assert c[1 + |lit|..] == [];
  }

  /** The two bytes of a copy code split back into the length and the offset they were made from. */
  lemma DecodeCopy(bpl: nat, at: Progress, runlen: nat, offs: nat)
    requires NMATCH <= runlen <= NRUN && offs < NMEM
    requires offs + 1 <= |at.hist| && at.col + runlen <= bpl
    ensures (runlen - NMATCH) * 4 + offs / 256 < 128
    ensures Decode(bpl, at, [(runlen - NMATCH) * 4 + offs / 256, offs % 256])
         == Some(Advance(bpl, at, Repeat(at.hist, offs + 1, runlen), runlen))
  {
    var c: seq<byte> := [(runlen - NMATCH) * 4 + offs / 256, offs % 256];
    assert c[2..] == [];
  }

  /** Repeating a matching earlier string, overlap included, yields the bytes it was matched against. */
  lemma {:induction false} RepeatMatch(data: seq<byte>, b0: nat, q: nat, p: nat, n: nat)
    requires b0 <= q < p && p + n <= |data|
    requires data[q..q + n] == data[p..p + n]
    ensures Repeat(data[b0..p], p - q, n) == data[b0..p + n]
    decreases n
  {
    if n > 0 {
      assert data[q] == data[q..q + n][0] == data[p..p + n][0] == data[p];
      assert data[b0..p] + [data[q]] == data[b0..p + 1];
      assert data[q + 1..q + n] == data[q..q + n][1..] == data[p..p + n][1..] == data[p + 1..p + n];
      RepeatMatch(data, b0, q + 1, p + 1, n - 1);
    }
  }

  // ----- complementing a block in place

  /** `codes` is a whole number of codes. */
  predicate Whole(codes: seq<byte>)
    decreases |codes|
  {
    codes == [] ||
    if codes[0] >= 128 then |codes| >= 1 + LiteralLength(codes[0]) && Whole(codes[1 + LiteralLength(codes[0])..])
    else |codes| >= 2 && Whole(codes[2..])
  }

  function Flip(s: seq<byte>): (r: seq<byte>)
    ensures |r| == |s| && forall i :: 0 <= i < |s| ==> r[i] == 255 - s[i]
  {
    seq(|s|, i requires 0 <= i < |s| => 255 - s[i])
  }

  function Twiddled(codes: seq<byte>): (r: seq<byte>)
    requires Whole(codes)
    ensures |r| == |codes|
    decreases |codes|
  {
    if codes == [] then []
    else if codes[0] >= 128 then
      var k := LiteralLength(codes[0]);
      [codes[0]] + Flip(codes[1..1 + k]) + Twiddled(codes[1 + k..])
    else codes[..2] + Twiddled(codes[2..])
  }

  /** Complements `k` bytes from `at` on.  Complementing a byte is exclusive-or with 0xFF. */
  method FlipRun(buf: array<byte>, at: nat, k: nat)
    requires at + k <= buf.Length
    modifies buf
    ensures buf[..at] == old(buf[..at]) && buf[at..at + k] == Flip(old(buf[at..at + k]))
    ensures buf[at + k..] == old(buf[at + k..])
  {
    var i := at;
    while i < at + k
      invariant at <= i <= at + k
      invariant forall x :: at <= x < i ==> buf[x] == 255 - old(buf[x])
      invariant forall x :: 0 <= x < buf.Length && !(at <= x < i) ==> buf[x] == old(buf[x])
    {
      buf[i] := 255 - buf[i];
      i := i + 1;
    }
  }

  /** `cur` is `was` with the codes before `at` twiddled. */
  ghost predicate Half(was: seq<byte>, cur: seq<byte>, at: nat) {
    |was| == |cur| && at <= |was| && Whole(was[at..]) && cur[at..] == was[at..] &&
    Whole(was) && cur[..at] + Twiddled(was[at..]) == Twiddled(was)
  }

  lemma HalfCopy(was: seq<byte>, cur: seq<byte>, at: nat)
    requires Half(was, cur, at) && at < |was| && cur[at] < 128
    ensures Half(was, cur, at + 2)
  {
    var rest := was[at..];
    assert rest[0] == cur[at..][0];
    assert rest[2..] == was[at + 2..];
    assert cur[at + 2..] == cur[at..][2..];
    assert cur[..at + 2] == cur[..at] + rest[..2];
  }

  lemma HalfLiteral(was: seq<byte>, cur: seq<byte>, at: nat)
    requires Half(was, cur, at) && at < |was| && cur[at] >= 128
    ensures var e := at + 1 + LiteralLength(cur[at]);
      e <= |was| && was[at..][1..e - at] == cur[at + 1..e] && was[at..][e - at..] == was[e..] == cur[e..]
  {
    var rest := was[at..];
    assert rest[0] == cur[at..][0];
    var e := at + 1 + LiteralLength(cur[at]);
    assert cur[at..][1..e - at] == cur[at + 1..e];
    assert cur[at..][e - at..] == cur[e..];
  }

  lemma HalfFlipped(was: seq<byte>, cur: seq<byte>, at: nat, next: seq<byte>, e: nat)
    requires Half(was, cur, at) && at < |was| && cur[at] >= 128
    requires e == at + 1 + LiteralLength(cur[at]) <= |was| == |next|
    requires next[..at + 1] == cur[..at + 1] && next[at + 1..e] == Flip(cur[at + 1..e]) && next[e..] == cur[e..]
    ensures Half(was, next, e)
  {
    HalfLiteral(was, cur, at);
    assert was[at..][0] == cur[at..][0];
    assert next[..e] == cur[..at] + ([cur[at]] + next[at + 1..e]) by {
      assert next[..e] == next[..at + 1] + next[at + 1..e];
      assert next[..at + 1] == cur[..at] + [cur[at]];
    }
  }

  /** Walks the codes and complements the literal bytes, leaving lengths and offsets alone. */
  method TwiddleCompressed(buf: array<byte>)
    requires Whole(buf[..])
    modifies buf
    ensures buf[..] == Twiddled(old(buf[..]))
  {
    ghost var was := buf[..];
    var at := 0;
    assert was[0..] == was && was[..0] + Twiddled(was) == Twiddled(was);
    while at < buf.Length
      invariant Half(was, buf[..], at)
    {
      ghost var cur := buf[..];
      var c: int := buf[at];
      if c >= 128 {
        HalfLiteral(was, cur, at);
        FlipRun(buf, at + 1, LiteralLength(c));
        HalfFlipped(was, cur, at, buf[..], at + 1 + LiteralLength(c));
        at := at + 1 + LiteralLength(c);
      } else {
        HalfCopy(was, cur, at);
        at := at + 2;
      }
    }
    assert was[at..] == [] && buf[..at] + [] == buf[..];
  }

  lemma {:induction false} DecodedIsWhole(bpl: nat, at: Progress, codes: seq<byte>)
    requires Decode(bpl, at, codes).Some?
    ensures Whole(codes)
    decreases |codes|
  {
    if codes != [] && codes[0] >= 128 {
      var k := LiteralLength(codes[0]);
      DecodedIsWhole(bpl, Advance(bpl, at, at.hist + codes[1..1 + k], k), codes[1 + k..]);
    } else if codes != [] {
      var offs := CopyOffset(codes[0], codes[1]);
      var cnt := CopyLength(codes[0]);
      DecodedIsWhole(bpl, Advance(bpl, at, Repeat(at.hist, offs, cnt), cnt), codes[2..]);
    }
  }

  lemma {:induction false} RepeatFlip(hist: seq<byte>, offs: nat, cnt: nat)
    requires 1 <= offs <= |hist|
    ensures Repeat(Flip(hist), offs, cnt) == Flip(Repeat(hist, offs, cnt))
    decreases cnt
  {
    if cnt > 0 {
      var one := hist + [hist[|hist| - offs]];
      assert Flip(hist) + [Flip(hist)[|hist| - offs]] == Flip(one);
      RepeatFlip(one, offs, cnt - 1);
    }
  }

  function Complement(at: Progress): Progress { at.(hist := Flip(at.hist)) }

  lemma TwiddleLiteral(bpl: nat, at: Progress, c: byte, lit: seq<byte>, rest: seq<byte>)
    requires c >= 128 && |lit| == LiteralLength(c) && at.col + |lit| <= bpl
    ensures Decode(bpl, Complement(at), [c] + Flip(lit) + rest)
         == Decode(bpl, Complement(Advance(bpl, at, at.hist + lit, |lit|)), rest)
  {
    var t := [c] + Flip(lit) + rest;
    assert t[1..1 + |lit|] == Flip(lit) && t[1 + |lit|..] == rest;
    assert Flip(at.hist) + Flip(lit) == Flip(at.hist + lit);
  }

  lemma TwiddleCopy(bpl: nat, at: Progress, hi: byte, lo: byte, rest: seq<byte>)
    requires hi < 128 && CopyOffset(hi, lo) <= |at.hist| && at.col + CopyLength(hi) <= bpl
    ensures Decode(bpl, Complement(at), [hi, lo] + rest)
         == Decode(bpl, Complement(Advance(bpl, at, Repeat(at.hist, CopyOffset(hi, lo), CopyLength(hi)),
             CopyLength(hi))), rest)
  {
    assert ([hi, lo] + rest)[2..] == rest;
    RepeatFlip(at.hist, CopyOffset(hi, lo), CopyLength(hi));
  }

  /** A twiddled block decodes to the bitwise complement of what the block decodes to. */
  lemma {:induction false} TwiddleComplements(bpl: nat, at: Progress, codes: seq<byte>)
    requires Decode(bpl, at, codes).Some?
    ensures Whole(codes)
    ensures Decode(bpl, Complement(at), Twiddled(codes)) == Some(Complement(Decode(bpl, at, codes).value))
    decreases |codes|
  {
    DecodedIsWhole(bpl, at, codes);
    if codes != [] && codes[0] >= 128 {
      var k := LiteralLength(codes[0]);
      var lit := codes[1..1 + k];
      TwiddleComplements(bpl, Advance(bpl, at, at.hist + lit, k), codes[1 + k..]);
      TwiddleLiteral(bpl, at, codes[0], lit, Twiddled(codes[1 + k..]));
    } else if codes != [] {
      var offs := CopyOffset(codes[0], codes[1]);
      var cnt := CopyLength(codes[0]);
      TwiddleComplements(bpl, Advance(bpl, at, Repeat(at.hist, offs, cnt), cnt), codes[2..]);
      TwiddleCopy(bpl, at, codes[0], codes[1], Twiddled(codes[2..]));
      assert codes[..2] == [codes[0], codes[1]];
    }
  }
}
