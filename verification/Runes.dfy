/**
  UTF-8: chartorune, runetochar, fullrune and runenlen.

  The specification of decoding is the grammar of RFC 3629, section 4.  A byte that starts no sequence of the
  grammar decodes alone, to the error rune.

  Bytes and runes are integers.  Shifting left by six and or-ing six bits in is l * 64 + c, masking with 2^k - 1
  is the remainder by 2^k, and toggling the top bit of a tail byte is subtracting 0x80.
 */
module Runes {
  import opened Basics

  type rune = nat

  const RUNEERROR: rune := 0xFFFD
  const RUNEMAX: rune := 0x10FFFF

  // ----- RFC 3629

  /** A Unicode scalar value: a code point that is no surrogate. */
  predicate Scalar(c: rune) { c <= RUNEMAX && !(0xD800 <= c <= 0xDFFF) }

  predicate Tail(b: byte) { 0x80 <= b <= 0xBF }

  predicate Utf2(a: byte, b: byte) { 0xC2 <= a <= 0xDF && Tail(b) }

  predicate Utf3(a: byte, b: byte, c: byte) {
    Tail(c) && ((a == 0xE0 && 0xA0 <= b <= 0xBF) || (0xE1 <= a <= 0xEC && Tail(b)) ||
                (a == 0xED && 0x80 <= b <= 0x9F) || (0xEE <= a <= 0xEF && Tail(b)))
  }

  predicate Utf4(a: byte, b: byte, c: byte, d: byte) {
    Tail(c) && Tail(d) && ((a == 0xF0 && 0x90 <= b <= 0xBF) || (0xF1 <= a <= 0xF3 && Tail(b)) ||
        (a == 0xF4 && 0x80 <= b <= 0x8F))
  }

  /** The rune that four bytes, or those of them that there are, start with, and how many it takes. */
  function Rune4(a: byte, b: byte, c: byte, d: byte): (rune, nat) {
    if a < 0x80 then (a, 1)
    else if Utf2(a, b) then ((a - 0xC0) * 64 + (b - 0x80), 2)
    else if Utf3(a, b, c) then (((a - 0xE0) * 64 + (b - 0x80)) * 64 + (c - 0x80), 3)
    else if Utf4(a, b, c, d) then ((((a - 0xF0) * 64 + (b - 0x80)) * 64 + (c - 0x80)) * 64 + (d - 0x80), 4)
    else (RUNEERROR, 1)
  }

  /** Byte i of s; past its end, the NUL that ends a string. */
  function At(s: seq<byte>, i: nat): byte { if i < |s| then s[i] else 0 }

  function Decode(s: seq<byte>, p: nat): (rune, nat) { Rune4(At(s, p), At(s, p + 1), At(s, p + 2), At(s, p + 3)) }

  lemma DecodeInside(s: seq<byte>, p: nat)
    requires p < |s|
    ensures 1 <= Decode(s, p).1 <= 4 && p + Decode(s, p).1 <= |s|
  {
  }

  // ----- the program's constants

  /** N zeros preceded by i ones. */
  function T(i: nat): rune
    requires 1 <= i <= 5
  {
    if i == 1 then 0x80 else if i == 2 then 0xC0 else if i == 3 then 0xE0 else if i == 4 then 0xF0 else 0xF8
  }

  /** The largest rune of a sequence of i bytes. */
  function RuneX(i: nat): rune
    requires 1 <= i <= 4
  {
    if i == 1 then 0x3F else if i == 2 then 0x7FF else if i == 3 then 0xFFFF else 0x1FFFFF
  }

  /** What fullrune says of the n bytes of s from p on. */
  predicate FullRune(s: seq<byte>, p: nat) {
    p < |s| && var c := s[p];
    if c < T(1) then true
    else if c < T(3) then |s| - p >= 2
    else if c < T(4) then |s| - p >= 3
    else |s| - p >= 4
  }

  method FullRuneOf(s: seq<byte>, p: nat) returns (full: bool)
    requires p <= |s|
    ensures full == FullRune(s, p)
  {
    var n := |s| - p;
    if n <= 0 { return false; }
    var c := s[p];
    if c < T(1) { return true; }
    var i := 3;
    while i < 5
      invariant 3 <= i <= 5 && forall k {:trigger T(k)} :: 3 <= k < i ==> c >= T(k)
    {
      if c < T(i) { return n >= i - 1; }
      i := i + 1;
    }
    assert c >= T(3) && c >= T(4);
    return n >= 4;
  }

  /** The first i bytes, the low six bits of the later ones put after the first. */
  function Gathered(a: byte, b: byte, c: byte, d: byte, i: nat): int {
    if i <= 1 then a
    else if i == 2 then a * 64 + (b - 0x80)
    else if i == 3 then (a * 64 + (b - 0x80)) * 64 + (c - 0x80)
    else ((a * 64 + (b - 0x80)) * 64 + (c - 0x80)) * 64 + (d - 0x80)
  }

  /** What the program makes of a sequence of i + 1 bytes whose bits, masked, are l; 1 stands for a bad one. */
  predicate Rejects(a: byte, i: nat, l: int)
    requires 1 <= i <= 3
  {
    (if i == 1 then a < T(2) || l <= 0x7F else l <= RuneX(i) || l > RUNEMAX) || (i == 2 && 0xD800 <= l <= 0xDFFF)
  }

  lemma Two(a: byte, b: byte, c: byte, d: byte)
    requires 0x80 <= a < 0xE0 && Tail(b)
    ensures var l := Gathered(a, b, c, d, 2) % 0x800;
            Rune4(a, b, c, d) == if Rejects(a, 1, l) then (RUNEERROR, 1) else (l, 2)
  {
  }

  lemma Three(a: byte, b: byte, c: byte, d: byte)
    requires 0xE0 <= a < 0xF0 && Tail(b) && Tail(c)
    ensures var l := Gathered(a, b, c, d, 3) % 0x1_0000;
            Rune4(a, b, c, d) == if Rejects(a, 2, l) then (RUNEERROR, 1) else (l, 3)
  {
  }

  lemma Four(a: byte, b: byte, c: byte, d: byte)
    requires 0xF0 <= a < 0xF8 && Tail(b) && Tail(c) && Tail(d)
    ensures var l := Gathered(a, b, c, d, 4) % 0x20_0000;
            Rune4(a, b, c, d) == if Rejects(a, 3, l) then (RUNEERROR, 1) else (l, 4)
  {
  }

  /** Byte i of four. */
  function Nth(a: byte, b: byte, c: byte, d: byte, i: nat): byte {
    if i == 0 then a else if i == 1 then b else if i == 2 then c else d
  }

  /** No sequence of the grammar is longer than i bytes and has something else than a tail at i. */
  lemma NoTail(a: byte, b: byte, c: byte, d: byte, i: nat)
    requires 1 <= i <= 3 && a >= T(1) && (i >= 2 ==> a >= 0xE0) && (i >= 3 ==> a >= 0xF0) && !Tail(Nth(a, b, c, d, i))
    ensures Rune4(a, b, c, d) == (RUNEERROR, 1)
  {
  }

  lemma TooLong(a: byte, b: byte, c: byte, d: byte)
    requires a >= 0xF8
    ensures Rune4(a, b, c, d) == (RUNEERROR, 1)
  {
  }

  /** One more byte. */
  lemma GatherNext(a: byte, b: byte, c: byte, d: byte, i: nat)
    requires 1 <= i <= 3
    ensures Gathered(a, b, c, d, i + 1) == Gathered(a, b, c, d, i) * 64 + (Nth(a, b, c, d, i) - 0x80)
  {
  }

  /** What has been seen when the loop comes to byte i. */
  predicate Started(a: byte, b: byte, c: byte, i: nat) {
    a >= 0x80 && (i >= 2 ==> a >= 0xE0 && Tail(b)) && (i >= 3 ==> a >= 0xF0 && Tail(c)) && (i >= 4 ==> a >= 0xF8)
  }

  lemma Ends(a: byte, b: byte, c: byte, d: byte, i: nat)
    requires 1 <= i <= 3 && Started(a, b, c, i) && Tail(Nth(a, b, c, d, i)) && a < T(i + 2)
    ensures var l := Gathered(a, b, c, d, i + 1) % (RuneX(i + 1) + 1);
            Rune4(a, b, c, d) == if Rejects(a, i, l) then (RUNEERROR, 1) else (l, i + 1)
  {
    if i == 1 { Two(a, b, c, d); } else if i == 2 { Three(a, b, c, d); } else { Four(a, b, c, d); }
  }

  lemma GoesOn(a: byte, b: byte, c: byte, d: byte, i: nat)
    requires 1 <= i <= 3 && Started(a, b, c, i) && Tail(Nth(a, b, c, d, i)) && a >= T(i + 2)
    ensures Started(a, b, c, i + 1)
  {
  }

  /** The next byte can be read: what has been seen ends neither the string nor what fullrune counted. */
  lemma CanRead(s: seq<byte>, p: nat, i: nat)
    requires p < |s| && (FullRune(s, p) || s[|s| - 1] == 0) && 1 <= i <= 3 &&
             Started(At(s, p), At(s, p + 1), At(s, p + 2), i)
    ensures p + i < |s|
  {
  }

  /** chartorune, on what a NUL ends or what fullrune accepts: it reads nothing past either. */
  method CharToRune(s: seq<byte>, p: nat) returns (r: rune, n: nat)
    requires p < |s| && (FullRune(s, p) || s[|s| - 1] == 0)
    ensures (r, n) == Decode(s, p)
  {
    ghost var a, b, c, d := At(s, p), At(s, p + 1), At(s, p + 2), At(s, p + 3);
    var c0 := s[p];
    if c0 < T(1) { return c0, 1; }
    var l := c0;
    var i := 1;
    while i < 4
      invariant 1 <= i <= 4 && Started(a, b, c, i) && l == Gathered(a, b, c, d, i)
    {
      CanRead(s, p, i);
      assert s[p + i] == Nth(a, b, c, d, i);
      GatherNext(a, b, c, d, i);
      var ci := s[p + i] - T(1);
      if !(0 <= ci < 0x40) {
        NoTail(a, b, c, d, i);
        return RUNEERROR, 1;
      }
      l := l * 64 + ci;
      if c0 < T(i + 2) {
        Ends(a, b, c, d, i);
        l := l % (RuneX(i + 1) + 1);
        if i == 1 {
          if c0 < T(2) || l <= 0x7F { return RUNEERROR, 1; }
        } else if l <= RuneX(i) || l > RUNEMAX {
          return RUNEERROR, 1;
        }
        if i == 2 && 0xD800 <= l <= 0xDFFF { return RUNEERROR, 1; }
        return l, i + 1;
      }
      GoesOn(a, b, c, d, i);
      i := i + 1;
    }
    TooLong(a, b, c, d);
    return RUNEERROR, 1;
  }

  // ----- encoding

  /** c without its lowest 6k bits. */
  function Hi(c: nat, k: nat): nat { if k == 0 then c else Hi(c / 64, k - 1) }

  function TailOf(c: nat): byte { 0x80 + c % 64 }

  /** The bytes of a scalar value: the table in section 3 of RFC 3629. */
  function EncodeScalar(c: rune): seq<byte>
    requires Scalar(c)
  {
    if c <= 0x7F then [c]
    else if c <= 0x7FF then Lead(c, 2); [0xC0 + Hi(c, 1), TailOf(c)]
    else if c <= 0xFFFF then Lead(c, 3); [0xE0 + Hi(c, 2), TailOf(Hi(c, 1)), TailOf(c)]
    else Lead(c, 4); [0xF0 + Hi(c, 3), TailOf(Hi(c, 2)), TailOf(Hi(c, 1)), TailOf(c)]
  }

  /** The table of section 3 of RFC 3629. */
  lemma EncodeTable(c: rune)
    requires Scalar(c)
    ensures |EncodeScalar(c)| == if c < 0x80 then 1 else if c < 0x800 then 2 else if c < 0x1_0000 then 3 else 4
    ensures forall i {:trigger EncodeScalar(c)[i]} :: 0 <= i < |EncodeScalar(c)| ==>
      EncodeScalar(c)[i] ==
        if c < 0x80 then c
        else if c < 0x800 then (if i == 0 then 0xC0 + c / 0x40 else 0x80 + c % 0x40)
        else if c < 0x1_0000 then
          if i == 0 then 0xE0 + c / 0x1000 else if i == 1 then 0x80 + c / 0x40 % 0x40 else 0x80 + c % 0x40
        else
          if i == 0 then 0xF0 + c / 0x4_0000 else if i == 1 then 0x80 + c / 0x1000 % 0x40
          else if i == 2 then 0x80 + c / 0x40 % 0x40 else 0x80 + c % 0x40
  {
    HiTwice(c);
  }

  lemma HiTwice(c: rune)
    ensures Hi(c, 1) == c / 0x40 && Hi(c, 2) == c / 0x1000 && Hi(c, 3) == c / 0x4_0000
  {
  }

  /** What is no scalar value is written as the error rune. */
  function Encode(c: rune): seq<byte> { EncodeScalar(if Scalar(c) then c else RUNEERROR) }

  method RuneToChar(str: array<byte>, r: rune) returns (n: nat)
    requires str.Length >= 4
    modifies str
    ensures n == |Encode(r)| <= 4 && str[..n] == Encode(r)
    ensures forall k {:trigger str[k]} :: n <= k < str.Length ==> str[k] == old(str[k])
  {
    var c := r;
    if c <= 0x7F {
      str[0] := c;
      return 1;
    }
    var i := 2;
    while i < 5
      invariant 2 <= i <= 5 && c > 0x7F && (i > 2 ==> c > 0x7FF) && (i > 3 ==> Scalar(c) && c > 0xFFFF) && i < 5
      invariant Encode(c) == Encode(r) && (i <= 3 ==> c == r)
      invariant forall k {:trigger str[k]} :: 0 <= k < str.Length ==> str[k] == old(str[k])
    {
      if i == 3 {
        if c > RUNEMAX { c := RUNEERROR; }
        if 0xD800 <= c <= 0xDFFF { c := RUNEERROR; }
      }
      if c <= RuneX(i) || i == 4 {
        Lead(c, i);
        str[0] := T(i) + Hi(c, i - 1);
        var j := 1;
        while j < i
          invariant 1 <= j <= i && str[0] == T(i) + Hi(c, i - 1)
          invariant forall k {:trigger str[k]} :: 1 <= k < j ==> str[k] == TailOf(Hi(c, i - k - 1))
          invariant forall k {:trigger str[k]} :: i <= k < str.Length ==> str[k] == old(str[k])
        {
          str[j] := T(1) + Hi(c, i - j - 1) % 0x40;
          j := j + 1;
        }
        Bytes(c, i, str[..i]);
        return i;
      }
      i := i + 1;
    }
    assert false;
  }

  /** The lead byte has room for the bits left. */
  lemma Lead(c: rune, i: nat)
    requires 2 <= i <= 4 && (c <= RuneX(i) || i == 4) && c <= RUNEMAX
    ensures T(i) + Hi(c, i - 1) < 256
  {
    assert Hi(c, 1) == c / 64;
    if i > 2 { assert Hi(c, 2) == Hi(c / 64, 1) == c / 64 / 64; }
    if i > 3 { assert Hi(c, 3) == Hi(c / 64, 2) == Hi(c / 64 / 64, 1) == c / 64 / 64 / 64; }
  }

  lemma Bytes(c: rune, i: nat, s: seq<byte>)
    requires 2 <= i <= 4 == i + (4 - i) && |s| == i && Scalar(c)
    requires (if i == 2 then 0x7F else RuneX(i - 1)) < c <= RuneX(i)
    requires s[0] == T(i) + Hi(c, i - 1) && forall k {:trigger s[k]} :: 1 <= k < i ==> s[k] == TailOf(Hi(c, i - k - 1))
    ensures s == Encode(c)
  {
  }

  // ----- the inverses

  /** A scalar value is decoded from its bytes, whatever follows them. */
  lemma DecodeEncode(c: rune, s: seq<byte>, p: nat)
    requires Scalar(c) && p + |Encode(c)| <= |s| && s[p..p + |Encode(c)|] == Encode(c)
    ensures Decode(s, p) == (c, |Encode(c)|)
  {
    var e := Encode(c);
    var n := |e|;
    forall k | 0 <= k < n ensures s[p + k] == e[k] { assert s[p..p + n][k] == s[p + k]; }
    Digits(c);
    assert s[p + 0] == e[0];
    if n > 1 { assert s[p + 1] == e[1]; }
    if n > 2 { assert s[p + 2] == e[2]; }
    if n > 3 { assert s[p + 3] == e[3]; }
  }

  lemma Digits(c: rune)
    ensures Hi(c, 1) == c / 64 && c == 64 * Hi(c, 1) + c % 64
    ensures Hi(c, 1) == 64 * Hi(c, 2) + Hi(c, 1) % 64
    ensures Hi(c, 2) == 64 * Hi(c, 3) + Hi(c, 2) % 64
  {
    var x, y := c / 64, c / 64 / 64;
    assert Hi(c, 1) == Hi(x, 0) == x;
    assert Hi(c, 2) == Hi(x, 1) == Hi(y, 0) == y;
    assert Hi(c, 3) == Hi(x, 2) == Hi(y, 1) == Hi(y / 64, 0) == y / 64;
  }

  /** What decodes from more than one byte, or from an ASCII one, is a scalar value and encodes to those bytes. */
  lemma EncodeDecode(s: seq<byte>, p: nat)
    requires p < |s| && (s[p] < 0x80 || Decode(s, p).1 > 1)
    ensures var (c, n) := Decode(s, p); Scalar(c) && p + n <= |s| && Encode(c) == s[p..p + n]
  {
    DecodeInside(s, p);
    if s[p] >= 0x80 { EncodeRune4(s[p], At(s, p + 1), At(s, p + 2), At(s, p + 3)); }
  }

  lemma EncodeRune4(a: byte, b: byte, c: byte, d: byte)
    requires Rune4(a, b, c, d).1 > 1
    ensures var (r, n) := Rune4(a, b, c, d);
            Scalar(r) && Encode(r) == if n == 2 then [a, b] else if n == 3 then [a, b, c] else [a, b, c, d]
  {
    var n := Rune4(a, b, c, d).1;
    if n == 2 {
      Pair(a - 0xC0, b - 0x80);
    } else if n == 3 {
      Pair3(a - 0xE0, b - 0x80, c - 0x80);
    } else {
      Pair4(a - 0xF0, b - 0x80, c - 0x80, d - 0x80);
    }
  }

  lemma Pair3(x: nat, y: nat, z: nat)
    requires y < 64 && z < 64
    ensures var c := (x * 64 + y) * 64 + z; Hi(c, 2) == x && TailOf(Hi(c, 1)) == 0x80 + y && TailOf(c) == 0x80 + z
  {
    Pair(x, y);
    Pair(x * 64 + y, z);
  }

  lemma Pair4(x: nat, y: nat, z: nat, w: nat)
    requires y < 64 && z < 64 && w < 64
    ensures var c := ((x * 64 + y) * 64 + z) * 64 + w;
            Hi(c, 3) == x && TailOf(Hi(c, 2)) == 0x80 + y && TailOf(Hi(c, 1)) == 0x80 + z && TailOf(c) == 0x80 + w
  {
    Pair3(x, y, z);
    Pair((x * 64 + y) * 64 + z, w);
  }

  lemma Pair(x: nat, y: nat)
    requires y < 64
    ensures Hi(x * 64 + y, 1) == x && Hi(x * 64 + y, 2) == Hi(x, 1) && Hi(x * 64 + y, 3) == Hi(x, 2)
    ensures TailOf(x * 64 + y) == 0x80 + y
  {
    assert (x * 64 + y) / 64 == x;
  }

  /** Once fullrune is content, what follows does not matter. */
  lemma FullRuneEnough(s: seq<byte>, t: seq<byte>, p: nat)
    requires FullRune(s, p)
    ensures Decode(s + t, p) == Decode(s, p)
  {
  }

  /** fullrune is content with no proper prefix of a rune's bytes. */
  lemma FullRuneNeeded(c: rune, k: nat)
    requires Scalar(c) && k <= |Encode(c)|
    ensures FullRune(Encode(c)[..k], 0) <==> k == |Encode(c)|
  {
    Digits(c);
  }

  // ----- whole strings

  function EncodeAll(rs: seq<rune>): seq<byte> {
    if rs == [] then [] else Encode(rs[0]) + EncodeAll(rs[1..])
  }

  function DecodeFrom(s: seq<byte>, p: nat): seq<rune>
    requires p <= |s|
    decreases |s| - p
  {
    if p == |s| then [] else DecodeInside(s, p); [Decode(s, p).0] + DecodeFrom(s, p + Decode(s, p).1)
  }

  /** The byte at p starts no sequence of the grammar. */
  predicate BadAt(s: seq<byte>, p: nat)
    requires p < |s|
  {
    s[p] >= 0x80 && Decode(s, p).1 == 1
  }

  /** How many bytes are decoded, each alone, to the error rune for being bad. */
  function BadFrom(s: seq<byte>, p: nat): nat
    requires p <= |s|
    decreases |s| - p
  {
    if p == |s| then 0
    else DecodeInside(s, p); (if BadAt(s, p) then 1 else 0) + BadFrom(s, p + Decode(s, p).1)
  }

  /** s from p on is a sequence of sequences of the grammar. */
  predicate ValidFrom(s: seq<byte>, p: nat)
    requires p <= |s|
    decreases |s| - p
  {
    p == |s| || (DecodeInside(s, p); !BadAt(s, p) && ValidFrom(s, p + Decode(s, p).1))
  }

  lemma {:induction false} ValidIff(s: seq<byte>, p: nat)
    requires p <= |s|
    ensures ValidFrom(s, p) <==> BadFrom(s, p) == 0
    decreases |s| - p
  {
    if p < |s| {
      DecodeInside(s, p);
      ValidIff(s, p + Decode(s, p).1);
    }
  }

  /** One step of decoding: the rune, the bytes it takes and whether they are bad. */
  lemma DecodeStep(s: seq<byte>, p: nat) returns (c: rune, q: nat, bad: nat)
    requires p < |s|
    ensures p < q <= |s| && bad <= 1 && (c, q - p) == Decode(s, p)
    ensures DecodeFrom(s, p) == [c] + DecodeFrom(s, q) && BadFrom(s, p) == bad + BadFrom(s, q)
    ensures ValidFrom(s, p) <==> bad == 0 && ValidFrom(s, q)
    ensures |Encode(c)| == q - p + 2 * bad && (bad == 0 ==> Encode(c) == s[p..q])
    ensures bad == 1 <==> BadAt(s, p)
  {
    DecodeInside(s, p);
    c, q := Decode(s, p).0, p + Decode(s, p).1;
    bad := if BadAt(s, p) then 1 else 0;
    if bad == 0 { EncodeDecode(s, p); } else { Digits(RUNEERROR); }
  }

  /** Scalar values decode from their bytes. */
  lemma EncodedAt(c: rune, rs: seq<rune>, s: seq<byte>, p: nat) returns (q: nat)
    requires Scalar(c) && p <= |s| && s[p..] == Encode(c) + EncodeAll(rs)
    ensures p < q <= |s| && s[q..] == EncodeAll(rs)
    ensures DecodeFrom(s, p) == [c] + DecodeFrom(s, q) && (ValidFrom(s, p) <==> ValidFrom(s, q))
  {
    var e := Encode(c);
    q := p + |e|;
    assert s[p..q] == s[p..][..|e|] == e;
    assert s[q..] == s[p..][|e|..] == EncodeAll(rs);
    DecodeEncode(c, s, p);
    if |e| == 1 { assert s[p] == s[p..q][0] == e[0] <= 0x7F; }
    var _, _, _ := DecodeStep(s, p);
  }

  /** Encoding then decoding gives the runes back. */
  lemma {:induction false} DecodeEncodeAll(rs: seq<rune>, s: seq<byte>, p: nat)
    requires p <= |s| && s[p..] == EncodeAll(rs) && forall i {:trigger rs[i]} :: 0 <= i < |rs| ==> Scalar(rs[i])
    ensures DecodeFrom(s, p) == rs && ValidFrom(s, p)
    decreases |rs|
  {
    if rs != [] {
      var c, rest := rs[0], rs[1..];
      var q := EncodedAt(c, rest, s, p);
      DecodeEncodeAll(rest, s, q);
      assert rs == [c] + rest;
    }
  }

  lemma EncodeCons(c: rune, rs: seq<rune>)
    ensures EncodeAll([c] + rs) == Encode(c) + EncodeAll(rs)
  {
    assert ([c] + rs)[1..] == rs;
  }

  lemma Longer(s: seq<byte>, p: nat, q: nat, c: rune, rs: seq<rune>, rest: seq<rune>, bad: nat, more: nat)
    requires p < q <= |s| && rs == [c] + rest
    requires |Encode(c)| == q - p + 2 * bad && (bad == 0 ==> Encode(c) == s[p..q])
    requires |EncodeAll(rest)| == |s| - q + 2 * more && (more == 0 ==> EncodeAll(rest) == s[q..])
    ensures |EncodeAll(rs)| == |s| - p + 2 * (bad + more)
    ensures bad + more == 0 ==> EncodeAll(rs) == s[p..]
  {
    EncodeCons(c, rest);
    assert s[p..] == s[p..q] + s[q..];
  }

  /** Decoding then encoding gives a valid string back, and turns each bad byte into three. */
  lemma {:induction false} EncodeDecodeAll(s: seq<byte>, p: nat)
    requires p <= |s|
    ensures |EncodeAll(DecodeFrom(s, p))| == |s| - p + 2 * BadFrom(s, p)
    ensures BadFrom(s, p) == 0 ==> EncodeAll(DecodeFrom(s, p)) == s[p..]
    decreases |s| - p
  {
    if p < |s| {
      var c, q, bad := DecodeStep(s, p);
      EncodeDecodeAll(s, q);
      Longer(s, p, q, c, DecodeFrom(s, p), DecodeFrom(s, q), bad, BadFrom(s, q));
    }
  }

  /** Decoding and encoding is the identity on exactly the strings of the grammar. */
  lemma IdentityIffValid(s: seq<byte>)
    ensures EncodeAll(DecodeFrom(s, 0)) == s <==> ValidFrom(s, 0)
  {
    EncodeDecodeAll(s, 0);
    ValidIff(s, 0);
    assert s[0..] == s;
  }

  // ----- runenlen

  /** How many of the runes are beyond the last code point. */
  function Beyond(rs: seq<rune>): nat {
    if rs == [] then 0 else (if rs[0] > RUNEMAX then 1 else 0) + Beyond(rs[1..])
  }

  /** runenlen counts the bytes that runetochar writes, and one more for each rune beyond the last code point. */
  method RuneNLen(rs: seq<rune>) returns (nb: nat)
    ensures nb == |EncodeAll(rs)| + Beyond(rs)
  {
    nb := 0;
    var k := 0;
    while k < |rs|
      invariant 0 <= k <= |rs| && nb + |EncodeAll(rs[k..])| + Beyond(rs[k..]) == |EncodeAll(rs)| + Beyond(rs)
    {
      var c := rs[k];
      assert rs[k..][1..] == rs[k + 1..];
      if c <= 0x7F {
        nb := nb + 1;
      } else {
        var i := 2;
        while i < 5
          invariant 2 <= i <= 5 && c > 0x7F && (i > 2 ==> c > 0x7FF) && (i > 3 ==> c > 0xFFFF) && i < 5
        {
          if c <= RuneX(i) || i == 4 { break; }
          i := i + 1;
        }
        nb := nb + i;
      }
      k := k + 1;
    }
  }

  /** So its count is exact exactly when no rune is beyond the last code point. */
  lemma {:induction false} BeyondIff(rs: seq<rune>)
    ensures Beyond(rs) == 0 <==> forall i {:trigger rs[i]} :: 0 <= i < |rs| ==> rs[i] <= RUNEMAX
  {
    if rs != [] {
      BeyondIff(rs[1..]);
      assert forall i {:trigger rs[i]} :: 0 < i < |rs| ==> rs[i] == rs[1..][i - 1];
    }
  }

  /** runenlen says 4 of the rune 0x110000, of which runetochar writes 3 bytes. */
  lemma CountsTooMany()
    ensures |EncodeAll([0x11_0000])| == 3 && Beyond([0x11_0000]) == 1
  {
    assert EncodeAll([0x11_0000]) == Encode(0x11_0000) + EncodeAll([]);
  }
}
