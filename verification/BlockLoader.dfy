/** The decoder of compressed blocks, which keeps only the last NMEM bytes, in a ring. */
module BlockLoader {
  import opened Basics
  import opened Codes

  lemma {:induction false} DecodeGrows(bpl: nat, at: Progress, codes: seq<byte>)
    requires Decode(bpl, at, codes).Some?
    ensures at.hist <= Decode(bpl, at, codes).value.hist
    ensures |at.hist| == |Decode(bpl, at, codes).value.hist| ==> codes == []
    decreases |codes|
  {
    if codes != [] && codes[0] >= 128 {
      var k := LiteralLength(codes[0]);
      DecodeGrows(bpl, Advance(bpl, at, at.hist + codes[1..1 + k], k), codes[1 + k..]);
    } else if codes != [] {
      var cnt := CopyLength(codes[0]);
      var rep := Repeat(at.hist, CopyOffset(codes[0], codes[1]), cnt);
      DecodeGrows(bpl, Advance(bpl, at, rep, cnt), codes[2..]);
    }
  }

  // ----- how far a loader gets

  /** The bytes a code takes, and the bytes it fills. */
  function Takes(c: byte): nat { if c >= 128 then 1 + LiteralLength(c) else 2 }

  function Fills(c: byte): nat { if c >= 128 then LiteralLength(c) else CopyLength(c) }

  /** How many of the codes it takes to fill `left` bytes, from column col of a scan line on, no code crossing the end
      of a line; None if they end before, or one crosses. */
  function Uses(bpl: nat, col: nat, left: nat, codes: seq<byte>): (r: Option<nat>)
    ensures r.Some? ==> r.value <= |codes|
    decreases |codes|
  {
    if left == 0 then Some(0)
    else if codes == [] || |codes| < Takes(codes[0]) || col + Fills(codes[0]) > bpl || Fills(codes[0]) > left then None
    else
      var at := col + Fills(codes[0]);
      match Uses(bpl, if at == bpl then 0 else at, left - Fills(codes[0]), codes[Takes(codes[0])..])
      case None => None
      case Some(n) => Some(Takes(codes[0]) + n)
  }

  lemma UsesFirst(bpl: nat, col: nat, left: nat, codes: seq<byte>, w: nat, k: nat, rest: seq<byte>)
    requires codes != [] && w == Takes(codes[0]) && k == Fills(codes[0]) && w <= |codes| && rest == codes[w..]
    requires col + k <= bpl && 0 < k <= left
    ensures var r := Uses(bpl, Column(bpl, col + k), left - k, rest);
      Uses(bpl, col, left, codes) == if r == None then None else Some(w + r.value)
  {
  }

  /** Codes that decode to `left` more bytes are used up. */
  lemma {:induction false} DecodedUsed(bpl: nat, at: Progress, codes: seq<byte>, left: nat)
    requires Decode(bpl, at, codes).Some? && |Decode(bpl, at, codes).value.hist| == |at.hist| + left
    ensures Uses(bpl, at.col, left, codes) == Some(|codes|)
    decreases |codes|
  {
    DecodeGrows(bpl, at, codes);
    if codes != [] {
      var w, k := Takes(codes[0]), Fills(codes[0]);
      var next := DecodedNext(bpl, at, codes);
      var rest := codes[w..];
      DecodeGrows(bpl, next, rest);
      DecodedUsed(bpl, next, rest, left - k);
      UsesFirst(bpl, at.col, left, codes, w, k, rest);
    }
  }

  lemma DecodedNext(bpl: nat, at: Progress, codes: seq<byte>) returns (next: Progress)
    requires codes != [] && Decode(bpl, at, codes).Some?
    ensures Takes(codes[0]) <= |codes| && at.col + Fills(codes[0]) <= bpl
    ensures Decode(bpl, next, codes[Takes(codes[0])..]) == Decode(bpl, at, codes)
    ensures |next.hist| == |at.hist| + Fills(codes[0])
    ensures next.col == if at.col + Fills(codes[0]) == bpl then 0 else at.col + Fills(codes[0])
  {
    var k := Fills(codes[0]);
    if codes[0] >= 128 {
      next := Advance(bpl, at, at.hist + codes[1..1 + k], k);
    } else {
      next := Advance(bpl, at, Repeat(at.hist, CopyOffset(codes[0], codes[1]), k), k);
    }
  }

  function From(u: nat, o: Option<nat>): Option<nat> { match o case None => None case Some(n) => Some(u + n) }

  /** A full line is the start of the next. */
  function Column(bpl: nat, col: nat): nat { if col == bpl then 0 else col }

  /** One code on, which takes w bytes and fills k. */
  lemma UsesStep(bpl: nat, col: nat, left: nat, codes: seq<byte>, u: nat, w: nat, k: nat, total: Option<nat>)
    requires u < |codes| && 0 < left && col < bpl && bpl - col <= left
    requires w == Takes(codes[u]) && k == Fills(codes[u]) && total == From(u, Uses(bpl, col, left, codes[u..]))
    ensures w > 0 && k > 0 && (total.Some? ==> total.value > u)
    ensures u + w > |codes| || col + k > bpl ==> total == None
    ensures u + w <= |codes| && col + k <= bpl ==>
      total == From(u + w, Uses(bpl, Column(bpl, col + k), left - k, codes[u + w..]))
  {
    if u + w <= |codes| { assert codes[u..][w..] == codes[u + w..]; }
  }

  /** `mem` holds the last NMEM bytes of `hist`, byte i of it in slot i % NMEM. */
  ghost predicate Ring(mem: seq<byte>, hist: seq<byte>) {
    |mem| == NMEM && forall i :: 0 <= i < |hist| && |hist| - NMEM <= i ==> mem[i % NMEM] == hist[i]
  }

  lemma RingPut(mem: seq<byte>, hist: seq<byte>, b: byte)
    requires Ring(mem, hist)
    ensures Ring(mem[|hist| % NMEM := b], hist + [b])
  {
  }

  /** One code at `u` takes the specification one step on. */
  lemma DecodeStep(codes: seq<byte>, bpl: nat, at: Progress, u: nat)
    requires u < |codes| && Decode(bpl, at, codes[u..]).Some?
    ensures codes[u] >= 128 ==>
      var k := LiteralLength(codes[u]);
      u + 1 + k <= |codes| && at.col + k <= bpl &&
      Decode(bpl, at, codes[u..]) == Decode(bpl, Advance(bpl, at, at.hist + codes[u + 1..u + 1 + k], k),
          codes[u + 1 + k..])
    ensures codes[u] < 128 ==>
      u + 2 <= |codes| &&
      var k := CopyLength(codes[u]); var offs := CopyOffset(codes[u], codes[u + 1]);
      offs <= |at.hist| && at.col + k <= bpl &&
      Decode(bpl, at, codes[u..]) == Decode(bpl, Advance(bpl, at, Repeat(at.hist, offs, k), k), codes[u + 2..])
  {
    var rest := codes[u..];
    if codes[u] >= 128 {
      var k := LiteralLength(codes[u]);
      assert rest[1..1 + k] == codes[u + 1..u + 1 + k] && rest[1 + k..] == codes[u + 1 + k..];
    } else {
      assert rest[2..] == codes[u + 2..];
    }
  }

  /** The same when codes after n are left out. */
  lemma DecodeUpTo(codes: seq<byte>, bpl: nat, at: Progress, u: nat, n: nat)
    requires u < n <= |codes| && Decode(bpl, at, codes[u..n]).Some?
    ensures u + Takes(codes[u]) <= n && at.col + Fills(codes[u]) <= bpl
    ensures codes[u] >= 128 ==>
      var k := LiteralLength(codes[u]);
      Decode(bpl, at, codes[u..n]) ==
      Decode(bpl, Advance(bpl, at, at.hist + codes[u + 1..u + 1 + k], k), codes[u + 1 + k..n])
    ensures codes[u] < 128 ==>
      var k := CopyLength(codes[u]); var offs := CopyOffset(codes[u], codes[u + 1]);
      offs <= |at.hist| &&
      Decode(bpl, at, codes[u..n]) == Decode(bpl, Advance(bpl, at, Repeat(at.hist, offs, k), k), codes[u + 2..n])
  {
    var cs := codes[..n];
    assert cs[u..] == codes[u..n];
    DecodeStep(cs, bpl, at, u);
    if codes[u] >= 128 {
      var k := LiteralLength(codes[u]);
      assert cs[u + 1 + k..] == codes[u + 1 + k..n] && cs[u + 1..u + 1 + k] == codes[u + 1..u + 1 + k];
    } else {
      assert cs[u + 2..] == codes[u + 2..n];
    }
  }

  /** The slot `offs` behind the write position. */
  function Behind(memp: nat, offs: nat): int {
    if memp < offs then memp + (NMEM - offs) else memp - offs
  }

  lemma RingGet(mem: seq<byte>, hist: seq<byte>, offs: nat)
    requires Ring(mem, hist) && 1 <= offs <= NMEM && offs <= |hist|
    ensures mem[Behind(|hist| % NMEM, offs)] == hist[|hist| - offs]
  {
    assert (|hist| - offs) % NMEM == Behind(|hist| % NMEM, offs);
  }

  class Loader {
    const codes: seq<byte>
    const bpl: nat
    const mem: array<byte>
    var memp: nat
    var pix: seq<byte>       // the scan lines filled so far
    var col: nat             // bytes of the current scan line filled
    var u: nat               // next code byte

    constructor (codes: seq<byte>, bpl: nat)
      requires bpl > 0
      ensures Valid() && fresh(mem)
      ensures this.codes == codes && this.bpl == bpl && pix == [] && col == 0 && u == 0
    {
      this.codes, this.bpl := codes, bpl;
      mem := new byte[NMEM];
      memp, pix, col, u := 0, [], 0, 0;
    }

    ghost predicate Valid()
      reads this, mem
    {
      mem.Length == NMEM && Ring(mem[..], pix) && memp == |pix| % NMEM && col <= bpl && u <= |codes|
    }

    method Put(b: byte)
      requires Valid() && col < bpl
      modifies this`memp, this`pix, this`col, mem
      ensures Valid() && pix == old(pix) + [b] && col == old(col) + 1
    {
      RingPut(mem[..], pix, b);
      mem[memp] := b;
      pix, col, memp := pix + [b], col + 1, memp + 1;
      if memp == NMEM {
        memp := 0;
      }
    }

    /** Copies `k` literal bytes; fails when the codes or the scan line end first. */
    method Literal(k: nat) returns (ok: bool)
      requires Valid()
      modifies this`memp, this`pix, this`col, this`u, mem
      ensures Valid()
      ensures ok <==> old(u) + k <= |codes| && old(col) + k <= bpl
      ensures old(u) <= u
      ensures ok ==> u == old(u) + k && col == old(col) + k && pix == old(pix) + codes[old(u)..u]
    {
      var cnt := k;
      while cnt != 0
        invariant Valid() && 0 <= cnt <= k && u == old(u) + (k - cnt) && col == old(col) + (k - cnt)
        invariant pix == old(pix) + codes[old(u)..u]
        decreases cnt
      {
        if u == |codes| || col == bpl {
          return false;
        }
        assert codes[old(u)..u + 1] == codes[old(u)..u] + [codes[u]];
        Put(codes[u]);
        u, cnt := u + 1, cnt - 1;
      }
      return true;
    }

    /** Repeats the byte at omemp, `offs` behind the write position, and moves both on. */
    method Echo(ghost offs: nat, omemp: nat) returns (next: nat)
      requires Valid() && 1 <= offs <= NMEM && col < bpl && omemp == Behind(memp, offs)
      modifies this`memp, this`pix, this`col, mem
      ensures Valid() && col == old(col) + 1 && |pix| == |old(pix)| + 1 && next == Behind(memp, offs)
      ensures offs <= |old(pix)| ==> pix == old(pix) + [old(pix)[|old(pix)| - offs]]
    {
      if offs <= |pix| { RingGet(mem[..], pix, offs); }
      Put(mem[omemp]);
      next := if omemp + 1 == NMEM then 0 else omemp + 1;
    }

    /** Repeats `k` bytes from `offs` back; fails when the scan line ends first. */
    method Copy(offs: nat, k: nat) returns (ok: bool)
      requires Valid() && 1 <= offs <= NMEM
      modifies this`memp, this`pix, this`col, mem
      ensures Valid()
      ensures ok <==> old(col) + k <= bpl
      ensures ok ==> col == old(col) + k && |pix| == |old(pix)| + k
      ensures ok && offs <= |old(pix)| ==> pix == Repeat(old(pix), offs, k)
    {
      var omemp := Behind(memp, offs);
      var cnt := k;
      while cnt != 0
        invariant Valid() && 0 <= cnt <= k && col == old(col) + (k - cnt)
        invariant omemp == Behind(memp, offs) && |pix| == |old(pix)| + (k - cnt)
        invariant offs <= |old(pix)| ==> Repeat(pix, offs, cnt) == Repeat(old(pix), offs, k)
        decreases cnt
      {
        if col == bpl {
          return false;
        }
        omemp := Echo(offs, omemp);
        cnt := cnt - 1;
      }
      return true;
    }

    /** Where the specification stands.  A full scan line has not been closed yet. */
    ghost function At(): Progress
      reads this
    {
      Progress(pix, Column(bpl, col))
    }

    /** What the codes up to n still decode to. */
    ghost function Rest(n: nat): Option<Progress>
      requires u <= n <= |codes|
      reads this
    {
      Decode(bpl, At(), codes[u..n])
    }

    method LoadLiteral(ghost n: nat) returns (ok: bool)
      requires Valid() && col < bpl && u < n <= |codes| && codes[u] >= 128
      modifies this`memp, this`pix, this`col, this`u, mem
      ensures Valid()
      ensures ok <==> old(u) + Takes(codes[old(u)]) <= |codes| && old(col) + Fills(codes[old(u)]) <= bpl
      ensures ok ==> u == old(u) + Takes(codes[old(u)]) && col == old(col) + Fills(codes[old(u)])
      ensures ok ==> |pix| - col == |old(pix)| - old(col)
      ensures old(Rest(n)).Some? ==> ok && u <= n && Rest(n) == old(Rest(n))
    {
      if Rest(n).Some? { DecodeUpTo(codes, bpl, At(), u, n); }
      var k := LiteralLength(codes[u]);
      u := u + 1;
      ok := Literal(k);
    }

    method LoadCopy(ghost n: nat) returns (ok: bool)
      requires Valid() && col < bpl && u < n <= |codes| && codes[u] < 128
      modifies this`memp, this`pix, this`col, this`u, mem
      ensures Valid()
      ensures ok <==> old(u) + Takes(codes[old(u)]) <= |codes| && old(col) + Fills(codes[old(u)]) <= bpl
      ensures ok ==> u == old(u) + Takes(codes[old(u)]) && col == old(col) + Fills(codes[old(u)])
      ensures ok ==> |pix| - col == |old(pix)| - old(col)
      ensures old(Rest(n)).Some? ==> ok && u <= n && Rest(n) == old(Rest(n))
    {
      if Rest(n).Some? { DecodeUpTo(codes, bpl, At(), u, n); }
      var c := codes[u];
      u := u + 1;
      if u == |codes| {
        return false;
      }
      var offs := CopyOffset(c, codes[u]);
      u := u + 1;
      ok := Copy(offs, CopyLength(c));
    }

    /** Loads one code; fails when the codes end in it or it crosses the end of the scan line. */
    method LoadCode(ghost n: nat) returns (ok: bool)
      requires Valid() && col < bpl && u < n <= |codes|
      modifies this`memp, this`pix, this`col, this`u, mem
      ensures Valid()
      ensures ok <==> old(u) + Takes(codes[old(u)]) <= |codes| && old(col) + Fills(codes[old(u)]) <= bpl
      ensures ok ==> u == old(u) + Takes(codes[old(u)]) && col == old(col) + Fills(codes[old(u)])
      ensures ok ==> |pix| - col == |old(pix)| - old(col)
      ensures old(Rest(n)).Some? ==> ok && u <= n && Rest(n) == old(Rest(n))
    {
      if codes[u] >= 128 {
        ok := LoadLiteral(n);
      } else {
        ok := LoadCopy(n);
      }
    }

    /** With `left` bytes still to fill the loader will have used `total` code bytes, and if the first n decode to
        `whole` it is on the way there. */
    ghost predicate Still(left: nat, total: Option<nat>, n: nat, whole: Option<Progress>)
      reads this, mem
    {
      Valid() && total == From(u, Uses(bpl, At().col, left, codes[u..])) &&
      n == (if total.Some? then total.value else |codes|) && n <= |codes| &&
      (whole.Some? && total.Some? ==> u <= n && Rest(n) == whole)
    }

    /** A full line is closed. */
    method NextLine(ghost left: nat, ghost total: Option<nat>, ghost n: nat, ghost whole: Option<Progress>)
      requires Still(left, total, n, whole) && col == bpl
      modifies this`col
      ensures Still(left, total, n, whole) && col == 0
    {
      col := 0;
    }

    lemma Finished(total: Option<nat>, n: nat, whole: Option<Progress>)
      requires Still(0, total, n, whole)
      ensures total == Some(u) && (whole.Some? ==> pix == whole.value.hist)
    {
    }

    lemma RunsOut(left: nat, total: Option<nat>, n: nat, whole: Option<Progress>)
      requires Still(left, total, n, whole) && left > 0 && u == |codes|
      ensures total == None
    {
    }

    method LoadNext(ghost left: nat, ghost total: Option<nat>, ghost n: nat, ghost whole: Option<Progress>)
        returns (ok: bool)
      requires Still(left, total, n, whole) && col < bpl && bpl - col <= left && u < |codes|
      modifies this`memp, this`pix, this`col, this`u, mem
      ensures if ok then old(u) < u && old(col) < col <= bpl && Still(left - (col - old(col)), total, n, whole)
              else total == None
    {
      UsesStep(bpl, col, left, codes, u, Takes(codes[u]), Fills(codes[u]), total);
      ok := LoadCode(n);
    }
  }

  /** `codes` is a complete block for `lines` scan lines. */
  ghost predicate Complete(codes: seq<byte>, bpl: nat, lines: nat) {
    var d := Decode(bpl, Progress([], 0), codes);
    d.Some? && d.value.col == 0 && |d.value.hist| == Area(bpl, lines)
  }

  /** The loop of the loader: fills the scan lines, or fails. */
  method Load(ld: Loader, lines: nat, ghost total: Option<nat>, ghost n: nat, ghost whole: Option<Progress>)
      returns (ok: bool)
    requires ld.bpl > 0 && lines > 0 && ld.col == 0 && ld.Still(Area(ld.bpl, lines), total, n, whole)
    modifies ld`memp, ld`pix, ld`col, ld`u, ld.mem
    ensures if ok then total == Some(ld.u) && (whole.Some? ==> ld.pix == whole.value.hist) else total == None
  {
    var y := 0;
    ghost var left := Area(ld.bpl, lines);
    AreaOrdered(ld.bpl, 0, lines);
    while true
      invariant y < lines && ld.col <= ld.bpl <= Area(ld.bpl, lines) - Area(ld.bpl, y)
      invariant left == Area(ld.bpl, lines) - Area(ld.bpl, y) - ld.col && ld.Still(left, total, n, whole)
      decreases |ld.codes| - ld.u, lines - y
    {
      if ld.col == ld.bpl {
        AreaOrdered(ld.bpl, y, lines);
        y := y + 1;
        if y == lines { break; }
        AreaOrdered(ld.bpl, y, lines);
        ld.NextLine(left, total, n, whole);
      }
      if ld.u == |ld.codes| {
        ld.RunsOut(left, total, n, whole);
        return false;
      }
      ghost var col := ld.col;
      ok := ld.LoadNext(left, total, n, whole);
      if !ok { return; }
      left := left - (ld.col - col);
    }
    ld.Finished(total, n, whole);
    return true;
  }

  /** Loads one block: the number of code bytes it takes to fill the scan lines, or -1 if these end before or cross
      the end of a line.  Where the codes used decode, the pixels are what they decode to; a complete block is used up
      exactly. */
  method CloadMemImage(codes: seq<byte>, bpl: nat, lines: nat) returns (r: int, pix: seq<byte>)
    requires bpl > 0 && lines > 0
    ensures r == match Uses(bpl, 0, Area(bpl, lines), codes) case None => -1 case Some(n) => n
    ensures r >= 0 && Decode(bpl, Progress([], 0), codes[..r]).Some? ==>
      pix == Decode(bpl, Progress([], 0), codes[..r]).value.hist
    ensures Complete(codes, bpl, lines) ==>
      r == |codes| && pix == Decode(bpl, Progress([], 0), codes).value.hist
  {
    var ld := new Loader(codes, bpl);
    ghost var total := Uses(bpl, 0, Area(bpl, lines), codes);
    ghost var n := if total.Some? then total.value else |codes|;
    if Complete(codes, bpl, lines) { DecodedUsed(bpl, Progress([], 0), codes, Area(bpl, lines)); }
    assert codes[0..] == codes && codes[0..n] == codes[..n] && codes[..|codes|] == codes;
    var ok := Load(ld, lines, total, n, Decode(bpl, Progress([], 0), codes[..n]));
    return if ok then ld.u else -1, ld.pix;
  }

  lemma AreaOrdered(bpl: nat, y: nat, lines: nat)
    requires y < lines
    ensures Area(bpl, y + 1) == Area(bpl, y) + bpl <= Area(bpl, lines) && Area(bpl, 0) == 0
  {
    AreaGrows(bpl, y, lines);
  }
}
