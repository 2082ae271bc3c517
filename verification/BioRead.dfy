/**
  Buffered reading: an end-aligned buffer that refines a plain cursor into a file, however short the reads.

  The data lies at the end of the buffer and `icount` counts, from the end down, what is still to be read.
  The first BUNGETSIZE bytes are room for bytes put back.
 */
module BioRead {
  import opened Basics

  const BUNGETSIZE := 5

  datatype State = Binactive | Bractive | Bracteof

  datatype Got = Byte(b: byte) | Eof

  function Min(a: nat, b: nat): nat { if a < b then a else b }

  // ----- the buffer as a sequence

  /** r is m after a memmove of n bytes. */
  ghost predicate Moved(m: seq<byte>, r: seq<byte>, to: nat, from: nat, n: nat) {
    |r| == |m| && to + n <= |m| && from + n <= |m| &&
    forall k {:trigger r[k]} :: 0 <= k < |r| ==> r[k] == if to <= k < to + n then m[from + k - to] else m[k]
  }

  /** r is m with i of the file's bytes from o on stored at position at. */
  ghost predicate Stored(m: seq<byte>, r: seq<byte>, at: nat, file: seq<byte>, o: nat, i: nat) {
    |r| == |m| && at + i <= |m| && o + i <= |file| &&
    forall k {:trigger r[k]} :: 0 <= k < |r| ==> r[k] == if at <= k < at + i then file[o + k - at] else m[k]
  }

  /** Byte d from the end, and byte d behind the room for bytes put back. */
  function Last(m: seq<byte>, d: int): byte
    requires 0 < d <= |m|
  {
    m[|m| - d]
  }

  function First(m: seq<byte>, d: int): byte
    requires 0 <= d && BUNGETSIZE + d < |m|
  {
    m[BUNGETSIZE + d]
  }

  /** The last n bytes are the file's before position o. */
  ghost predicate Tail(m: seq<byte>, file: seq<byte>, o: nat, n: nat) {
    n <= |m| && n <= o <= |file| && forall d {:trigger Last(m, d)} :: 0 < d <= n ==> Last(m, d) == file[o - d]
  }

  /** So are the first n behind the room for bytes put back. */
  ghost predicate Head(m: seq<byte>, file: seq<byte>, o: nat, n: nat) {
    BUNGETSIZE + n <= |m| && n <= o <= |file| &&
    forall d {:trigger First(m, d)} :: 0 <= d < n ==> First(m, d) == file[o - n + d]
  }

  /** No delim from a up to b. */
  ghost predicate Clear(s: seq<byte>, a: int, b: int, delim: byte) {
    0 <= a <= b <= |s| && forall k {:trigger s[k]} :: a <= k < b ==> s[k] != delim
  }

  /** The n bytes of m at p are the file's at c0, and the first delim among them is the last of them. */
  ghost predicate LineAt(m: seq<byte>, p: int, n: nat, file: seq<byte>, c0: int, delim: byte) {
    0 <= p && p + n <= |m| && 0 < n && 0 <= c0 && c0 + n <= |file| &&
    m[p..p + n] == file[c0..c0 + n] && file[c0 + n - 1] == delim && Clear(file, c0, c0 + n - 1, delim)
  }

  /** Saving bytes for putting back leaves the buffer proper alone. */
  lemma TailSaved(m: seq<byte>, s: seq<byte>, file: seq<byte>, o: nat, n: nat, bsize: nat)
    requires |m| == BUNGETSIZE + bsize && Tail(m, file, o, n) && Moved(m, s, 0, bsize, BUNGETSIZE)
    ensures Tail(s, file, o, Min(n, bsize))
  {
    forall d | 0 < d <= Min(n, bsize) ensures Last(s, d) == file[o - d] { assert Last(m, d) == file[o - d]; }
  }

  /** The last i bytes moved down to the front. */
  lemma TailLowered(m: seq<byte>, r: seq<byte>, file: seq<byte>, o: nat, i: nat, from: nat)
    requires |m| == from + i && BUNGETSIZE <= from && Tail(m, file, o, i) && Moved(m, r, BUNGETSIZE, from, i)
    ensures Head(r, file, o, i)
  {
    forall d | 0 <= d < i ensures First(r, d) == file[o - i + d] { assert Last(m, i - d) == file[o - (i - d)]; }
  }

  /** The first i bytes moved up to the end. */
  lemma HeadRaised(m: seq<byte>, r: seq<byte>, file: seq<byte>, o: nat, i: nat, bsize: nat)
    requires |m| == BUNGETSIZE + bsize && i <= bsize && Head(m, file, o, i)
    requires if i < bsize then Moved(m, r, |m| - i, BUNGETSIZE, i) else r == m
    ensures Tail(r, file, o, i)
  {
    forall d | 0 < d <= i ensures Last(r, d) == file[o - d] { assert First(m, i - d) == file[o - i + (i - d)]; }
  }

  /** j new bytes behind the first i. */
  lemma HeadGrown(m: seq<byte>, r: seq<byte>, file: seq<byte>, o: nat, i: nat, j: nat)
    requires Head(m, file, o, i) && Stored(m, r, BUNGETSIZE + i, file, o, j)
    ensures Head(r, file, o + j, i + j)
  {
    forall d | 0 <= d < i + j ensures First(r, d) == file[o - i + d] {
      if d < i { assert First(m, d) == file[o - i + d]; }
    }
  }

  /** Saved bytes, then i new ones, moved up to the end. */
  lemma TailRefilled(m: seq<byte>, s: seq<byte>, r: seq<byte>, t: seq<byte>, file: seq<byte>, o: nat, n: nat,
      bsize: nat, i: nat)
    requires |m| == BUNGETSIZE + bsize && Tail(m, file, o, n) && 0 < i <= bsize
    requires Moved(m, s, 0, bsize, BUNGETSIZE) && Stored(s, r, BUNGETSIZE, file, o, i)
    requires if i < bsize then Moved(r, t, bsize - i, 0, i + BUNGETSIZE) else t == r
    ensures Tail(t, file, o + i, Min(n, BUNGETSIZE) + i)
  {
    forall d | 0 < d <= Min(n, BUNGETSIZE) + i ensures Last(t, d) == file[o + i - d] {
      assert Last(t, d) == r[BUNGETSIZE + i - d];
      if d > i { assert Last(m, d - i) == file[o - (d - i)]; }
    }
  }

  /** A slice of the last k bytes. */
  lemma TailPart(m: seq<byte>, file: seq<byte>, o: nat, n: nat, k: nat, j: nat)
    requires Tail(m, file, o, n) && j <= k <= n
    ensures m[|m| - k..|m| - k + j] == file[o - k..o - k + j]
  {
    var x, y := m[|m| - k..|m| - k + j], file[o - k..o - k + j];
    forall d | 0 <= d < |x| ensures x[d] == y[d] { assert Last(m, k - d) == file[o - (k - d)]; }
  }

  /** The line at the front of the last i bytes. */
  lemma LineIn(m: seq<byte>, file: seq<byte>, o: nat, i: nat, k: nat, delim: byte)
    requires Tail(m, file, o, i) && k < i && file[o - i + k] == delim && Clear(file, o - i, o - i + k, delim)
    ensures LineAt(m, |m| - i, k + 1, file, o - i, delim)
  {
    TailPart(m, file, o, i, i, k + 1);
  }

  // ----- the buffer

  class Biobuf {
    const mem: array<byte>
    const bsize: nat
    const file: seq<byte>
    var icount: int
    var offset: nat
    var state: State
    var rdline: nat
    /** What each read(2) answers, and how many there have been. */
    const replies: nat -> int
    var calls: nat
    ghost var good: nat

    ghost predicate Valid()
      reads this, mem
    {
      bsize > 0 && mem.Length == BUNGETSIZE + bsize && Tail(mem[..], file, offset, good) && 0 <= -icount <= good
    }

    /** Where in the file the next byte comes from. */
    ghost function Cursor(): nat
      reads this, mem
      requires Valid()
    {
      offset + icount
    }

    /** How many bytes may be put back. */
    ghost function Room(): nat
      reads this, mem
      requires Valid()
    {
      good + icount
    }

    constructor (file: seq<byte>, bsize: nat, answers: nat -> int)
      requires bsize > 0
      ensures replies == answers && calls == 0 && offset == 0
      ensures Valid() && Cursor() == 0 == icount && state == Bractive && this.file == file && this.bsize == bsize &&
              fresh(mem)
    {
      this.file, this.bsize := file, bsize;
      mem := new byte[BUNGETSIZE + bsize];
      icount, offset, state, rdline, good := 0, 0, Bractive, 0, 0;
      replies, calls := answers, 0;
    }

    /** What read number q gives when n bytes from o on are asked for: how many, 0 at the end, -1 for an error. */
    function Answer(q: nat, n: nat, o: nat): int {
      if 0 < replies(q) <= n && o + replies(q) <= |file| then replies(q) else if replies(q) < 0 then -1 else 0
    }

    /** read(2): at most n of the file's next bytes, any number of them; 0 or an error at any time. */
    method Read(at: nat, n: nat) returns (i: int)
      requires at + n <= mem.Length && offset <= |file|
      modifies mem, this`calls
      ensures i == Answer(old(calls), n, offset) && calls == old(calls) + 1
      ensures -1 <= i <= n
      ensures if i > 0 then Stored(old(mem[..]), mem[..], at, file, offset, i) else mem[..] == old(mem[..])
    {
      i := replies(calls);
      calls := calls + 1;
      if i <= 0 || i > n || offset + i > |file| {
        i := if i < 0 then -1 else 0;
        return;
      }
      var k := 0;
      while k < i
        invariant calls == old(calls) + 1
        invariant 0 <= k <= i && Stored(old(mem[..]), mem[..], at, file, offset, k)
      {
        mem[at + k] := file[offset + k];
        k := k + 1;
      }
    }

    /** memmove within the buffer. */
    method Move(to: nat, from: nat, n: nat)
      requires to + n <= mem.Length && from + n <= mem.Length
      modifies mem
      ensures Moved(old(mem[..]), mem[..], to, from, n)
    {
      if to <= from {
        var k := 0;
        while k < n
          invariant k <= n && Moved(old(mem[..]), mem[..], to, from, k)
        {
          mem[to + k] := mem[from + k];
          k := k + 1;
        }
      } else {
        var k := n;
        while k > 0
          invariant 0 <= k <= n && Moved(old(mem[..]), mem[..], to + k, from + k, n - k)
        {
          k := k - 1;
          mem[to + k] := mem[from + k];
        }
      }
    }

    /** Fill the empty buffer anew, keeping up to BUNGETSIZE bytes in front to be put back. */
    method Refill() returns (i: int)
      requires Valid() && icount == 0 && state == Bractive
      modifies this, mem
      ensures Valid() && Cursor() == old(Cursor()) && rdline == old(rdline)
      ensures i == Answer(old(calls), bsize, old(offset)) && calls == old(calls) + 1
      ensures i > 0 ==> icount == -i && i <= bsize && state == Bractive && Room() >= Min(old(Room()), BUNGETSIZE)
      ensures i <= 0 ==> icount == 0 && state == if i < 0 then Binactive else Bracteof
    {
      ghost var was := mem[..];
      Move(0, bsize, BUNGETSIZE);
      ghost var saved := mem[..];
      i := Read(BUNGETSIZE, bsize);
      if i <= 0 {
        TailSaved(was, mem[..], file, offset, good, bsize);
        good := Min(good, bsize);
        state := if i < 0 then Binactive else Bracteof;
        return;
      }
      AtEnd(i, was, saved);
      icount, offset, good := -i, offset + i, Min(good, BUNGETSIZE) + i;
    }

    /** Moves the bytes saved and the i new ones up to the end of the buffer. */
    method AtEnd(i: nat, ghost was: seq<byte>, ghost saved: seq<byte>)
      requires mem.Length == BUNGETSIZE + bsize == |was| && 0 < i <= bsize && Tail(was, file, offset, good)
      requires Moved(was, saved, 0, bsize, BUNGETSIZE) && Stored(saved, mem[..], BUNGETSIZE, file, offset, i)
      modifies mem
      ensures Tail(mem[..], file, offset + i, Min(good, BUNGETSIZE) + i)
    {
      ghost var filled := mem[..];
      if i < bsize { Move(bsize - i, 0, i + BUNGETSIZE); }
      TailRefilled(was, saved, filled, mem[..], file, offset, good, bsize, i);
    }

    /** The next byte; Eof at the end of the file or after an error, with the cursor where it was. */
    method Bgetc() returns (c: Got)
      requires Valid()
      modifies this, mem
      ensures Valid()
      ensures match c
        case Byte(b) => old(Cursor()) < |file| && b == file[old(Cursor())] && Cursor() == old(Cursor()) + 1
        case Eof => Cursor() == old(Cursor())
      ensures c.Byte? ==> Room() >= Min(old(Room()), BUNGETSIZE) + 1
      ensures c.Byte? ==> if old(icount) < 0 then icount == old(icount) + 1 else icount <= 0 < bsize + icount
      ensures c.Byte? <==> old(icount) < 0 || (old(state) == Bractive && Answer(old(calls), bsize, old(offset)) > 0)
      ensures c == Eof ==> state == match old(state)
        case Binactive => Binactive
        case Bracteof => Bractive
        case Bractive => if Answer(old(calls), bsize, old(offset)) < 0 then Binactive else Bracteof
      ensures c.Byte? ==> state == old(state)
    {
      if icount == 0 {
        if state != Bractive {
          if state == Bracteof { state := Bractive; }
          return Eof;
        }
        var i := Refill();
        if i <= 0 { return Eof; }
      }
      assert mem[mem.Length + icount] == Last(mem[..], -icount);
      c := Byte(mem[mem.Length + icount]);
      icount := icount + 1;
    }

    /** Put back the byte read last; the caller puts back no more than the buffer still has. */
    method Bungetc() returns (ok: bool)
      requires Valid() && Room() > 0
      modifies this
      ensures Valid() && ok == (old(state) != Binactive)
      ensures Cursor() == old(Cursor()) - if ok then 1 else 0
      ensures ok ==> state == Bractive && icount == old(icount) - 1 && Room() == old(Room()) - 1
    {
      if state == Bracteof { state := Bractive; }
      if state != Bractive { return false; }
      icount := icount - 1;
      ok := true;
    }

    /** Move the first i bytes of the buffer proper up to its end, where they are the good ones. */
    method Settle(i: nat)
      requires bsize > 0 && mem.Length == BUNGETSIZE + bsize && i <= bsize && Head(mem[..], file, offset, i)
      modifies mem, this`good
      ensures Tail(mem[..], file, offset, i) && good == i
    {
      ghost var was := mem[..];
      if i < bsize { Move(mem.Length - i, BUNGETSIZE, i); }
      HeadRaised(was, mem[..], file, offset, i, bsize);
      good := i;
    }

    /** Fill the empty buffer anew, keeping nothing to be put back. */
    method Fill() returns (i: int)
      requires Valid() && icount == 0 && state == Bractive
      modifies this, mem
      ensures Valid() && Cursor() == old(Cursor()) && rdline == old(rdline)
      ensures i == Answer(old(calls), bsize, old(offset)) && calls == old(calls) + 1
      ensures i > 0 ==> icount == -i && state == Bractive
      ensures i <= 0 ==> icount == 0 && offset == old(offset) && state == if i < 0 then Binactive else Bracteof
    {
      ghost var was := mem[..];
      i := Read(BUNGETSIZE, bsize);
      if i <= 0 {
        state := if i < 0 then Binactive else Bracteof;
        return;
      }
      HeadGrown(was, mem[..], file, offset, 0, i);
      offset := offset + i;
      Settle(i);
      icount := -i;
    }

    /** The next n bytes of the buffer go to ap[at..]. */
    method Take(ap: array<byte>, at: nat, n: nat)
      requires Valid() && n <= -icount && ap != mem && at + n <= ap.Length
      modifies this`icount, ap
      ensures Valid() && Cursor() == old(Cursor()) + n && n <= |file| - old(Cursor()) && icount == old(icount) + n
      ensures ap[..at + n] == old(ap[..at]) + file[old(Cursor())..old(Cursor()) + n] &&
              ap[at + n..] == old(ap[at + n..])
    {
      var from := mem.Length + icount;
      TailPart(mem[..], file, offset, good, -icount, n);
      CopyOut(from, ap, at, n);
      assert mem[from..from + n] == mem[..][from..from + n];
      icount := icount + n;
    }

    method CopyOut(from: nat, ap: array<byte>, at: nat, n: nat)
      requires from + n <= mem.Length && ap != mem && at + n <= ap.Length
      modifies ap
      ensures ap[..at + n] == old(ap[..at]) + mem[from..from + n] && ap[at + n..] == old(ap[at + n..])
    {
      var k := 0;
      while k < n
        invariant k <= n && ap[..at + k] == old(ap[..at]) + mem[from..from + k] && ap[at + k..] == old(ap[at + k..])
      {
        ap[at + k] := mem[from + k];
        k := k + 1;
      }
    }

    /** What Bread has delivered: the file's bytes from c0 on, the rest of ap as it was. */
    ghost predicate Delivered(ap: array<byte>, done: nat, c0: nat, rest: seq<byte>)
      reads ap
    {
      done <= ap.Length && c0 + done <= |file| && ap[..done] == file[c0..c0 + done] && ap[done..] == rest
    }

    /** Fills the empty buffer, unless the file has ended. */
    method More() returns (more: bool)
      requires Valid() && icount == 0
      modifies this, mem
      ensures Valid() && Cursor() == old(Cursor()) && rdline == old(rdline) && calls >= old(calls)
      ensures more ==> icount < 0 && state == old(state)
      ensures !more ==> ShortOf(old(state), old(calls))
    {
      if state != Bractive { return false; }
      var i := Fill();
      more := i > 0;
    }

    /** The next n bytes, behind those delivered before. */
    method Deliver(ap: array<byte>, done: nat, n: nat, ghost c0: nat, ghost was: seq<byte>)
      requires Valid() && ap != mem && n <= -icount && done + n <= ap.Length == |was| && Cursor() == c0 + done
      requires Delivered(ap, done, c0, was[done..])
      modifies this`icount, ap
      ensures Valid() && Cursor() == c0 + done + n && icount == old(icount) + n
      ensures Delivered(ap, done + n, c0, was[done + n..])
    {
      Take(ap, done, n);
      DeliverMore(file, c0, done, n);
      assert ap[done + n..] == was[done..][n..] == was[done + n..];
    }

    /** Nothing is left in the buffer, and the file had ended, or the last read has given nothing. */
    ghost predicate ShortOf(st: State, q: nat)
      reads this
    {
      icount == 0 && state != Bractive && (st == Bractive ==> calls > q && Answer(calls - 1, bsize, offset) <= 0)
    }

    /** Up to count bytes into ap: how many, or -1 if none because of an error. */
    method Bread(ap: array<byte>, count: nat) returns (r: int)
      requires Valid() && ap != mem && count <= ap.Length
      modifies this, mem, ap
      ensures Valid() && -1 <= r <= count
      ensures var n := if r < 0 then 0 else r;
        Delivered(ap, n, old(Cursor()), old(ap[..])[n..]) && Cursor() == old(Cursor()) + n &&
        (r == -1 <==> n == 0 && state == Binactive)
      ensures (if r < 0 then 0 else r) < count ==> ShortOf(old(state), old(calls))
      ensures old(icount) < 0 && count > 0 ==> r > 0
    {
      ghost var c0, was := Cursor(), ap[..];
      var done := 0;
      while done < count
        invariant state == old(state) && calls >= old(calls) && (old(icount) < 0 ==> done > 0 || icount < 0)
        invariant Valid() && done <= count && Cursor() == c0 + done && Delivered(ap, done, c0, was[done..])
        decreases count - done, icount == 0
      {
        var n := -icount;
        if n > count - done { n := count - done; }
        if n == 0 {
          var more := More();
          if !more { break; }
          continue;
        }
        Deliver(ap, done, n, c0, was);
        done := done + n;
      }
      if done == 0 && state == Binactive { return -1; }
      return done;
    }

    /** memchr: the first position of delim among n bytes from `at` on, or -1. */
    method Memchr(at: nat, n: nat, delim: byte) returns (k: int)
      requires at + n <= mem.Length
      ensures -1 <= k < n
      ensures k >= 0 ==> mem[..][at + k] == delim && Clear(mem[..], at, at + k, delim)
      ensures k < 0 ==> Clear(mem[..], at, at + n, delim)
    {
      k := 0;
      while k < n
        invariant 0 <= k <= n && Clear(mem[..], at, at + k, delim)
      {
        if mem[at + k] == delim { return; }
        k := k + 1;
      }
      k := -1;
    }

    /** Why there is no line from c on: the file had ended, or there is no delim in what has been read, which fills
        the buffer or is all the last read would give. */
    ghost predicate NoLine(c: nat, ended: bool, q: nat, delim: byte)
      reads this
    {
      c <= offset <= |file| && Clear(file, c, offset, delim) &&
      ((ended && c == offset) || offset - c >= bsize ||
       (calls > q && Answer(calls - 1, bsize - (offset - c), offset) <= 0))
    }

    /** A line, from the cursor through the first delim, in the buffer from ip on and rdline long; -1 if there
        is none to be had.  With no more than a buffer's worth waiting, having none loses nothing; with more,
        put back in front, all but the last buffer's worth is lost. */
    method Brdline(delim: byte) returns (ip: int)
      requires Valid()
      modifies this, mem
      ensures Valid() && -1 <= ip
      ensures ip >= 0 ==> LineAt(mem[..], ip, rdline, file, old(Cursor()), delim) && Cursor() == old(Cursor()) + rdline
      ensures ip < 0 ==> Cursor() == old(Cursor()) + if old(-icount) > bsize then old(-icount) - bsize else 0
      ensures -icount <= bsize || -icount < old(-icount)
      ensures calls >= old(calls) && (ip >= 0 ==> state == old(state))
      ensures ip < 0 ==> NoLine(old(Cursor()), old(icount) == 0 && old(state) != Bractive, old(calls), delim)
      ensures !Clear(file, old(Cursor()), old(offset), delim) ==> ip >= 0
    {
      var i := -icount;
      if i == 0 && state != Bractive {
        if state == Bracteof { state := Bractive; }
        rdline := 0;
        return -1;
      }
      ip := FirstTry(i, delim);
      if ip >= 0 { return; }
      if i >= bsize {
        rdline := bsize;
        icount := 0 - bsize;
        return -1;
      }
      Lower(i);
      ip := Append(i, delim);
    }

    /** Move the last i bytes down to the start of the buffer proper. */
    method Lower(i: nat)
      requires bsize > 0 && mem.Length == BUNGETSIZE + bsize && i < bsize && Tail(mem[..], file, offset, i)
      modifies mem
      ensures Head(mem[..], file, offset, i)
    {
      ghost var was := mem[..];
      var from := mem.Length - i;
      Move(BUNGETSIZE, from, i);
      TailLowered(was, mem[..], file, offset, i, from);
    }

    /** Look for the line in what the buffer still has; the good part does not change. */
    method FirstTry(i: nat, delim: byte) returns (ip: int)
      requires Valid() && i == -icount
      modifies this`rdline, this`icount
      ensures Valid() && -1 <= ip
      ensures ip >= 0 ==> LineAt(mem[..], ip, rdline, file, old(Cursor()), delim) && Cursor() == old(Cursor()) + rdline
      ensures ip < 0 ==>
                icount == old(icount) && Tail(mem[..], file, offset, i) && Clear(file, offset - i, offset, delim)
    {
      ip := mem.Length - i;
      var j := Memchr(ip, i, delim);
      ghost var n := if j >= 0 then j else i;
      ClearTail(mem[..], file, offset, i, n, delim);
      if j >= 0 {
        LineIn(mem[..], file, offset, i, j, delim);
        rdline := j + 1;
        icount := icount + rdline;
      } else {
        ip := -1;
      }
    }

    /** Read on behind the first n bytes until there is a delim among them or no more room. */
    method Append(n: nat, delim: byte) returns (ip: int)
      requires bsize > 0 && mem.Length == BUNGETSIZE + bsize && n < bsize
      requires Head(mem[..], file, offset, n) && Clear(file, offset - n, offset, delim)
      modifies this, mem
      ensures Valid() && -1 <= ip && -icount <= bsize
      ensures ip >= 0 ==>
                LineAt(mem[..], ip, rdline, file, old(offset) - n, delim) && Cursor() == old(offset) - n + rdline
      ensures calls >= old(calls) && state == old(state)
      ensures ip < 0 ==> Cursor() == old(offset) - n && NoLine(old(offset) - n, false, old(calls), delim)
    {
      var i := n;
      ghost var c0 := offset - n;
      while i < bsize
        invariant calls >= old(calls) && state == old(state)
        invariant n <= i <= bsize && offset == c0 + i && Head(mem[..], file, offset, i) &&
                  Clear(file, c0, offset, delim)
      {
        var j, k := ReadOn(i, delim);
        if j <= 0 {
          GiveUp(i);
          return -1;
        }
        i := i + j;
        if k >= 0 {
          ip := Found(i, i - j + k, delim);
          return;
        }
      }
      GiveUp(bsize);
      ip := -1;
    }

    /** Reads j bytes behind the first i and looks for delim among them. */
    method ReadOn(i: nat, delim: byte) returns (j: int, k: int)
      requires mem.Length == BUNGETSIZE + bsize && i < bsize
      requires Head(mem[..], file, offset, i) && Clear(file, offset - i, offset, delim)
      modifies mem, this`offset, this`calls
      ensures j == Answer(old(calls), bsize - i, old(offset)) && calls == old(calls) + 1
      ensures -1 <= j <= bsize - i && offset == old(offset) + (if j > 0 then j else 0) &&
              (j <= 0 ==> mem[..] == old(mem[..]))
      ensures j > 0 ==> Head(mem[..], file, offset, i + j) && -1 <= k < j
      ensures j > 0 && k < 0 ==> Clear(file, offset - (i + j), offset, delim)
      ensures j > 0 && k >= 0 ==> file[offset - j + k] == delim && Clear(file, offset - (i + j), offset - j + k, delim)
    {
      k := -1;
      ghost var was := mem[..];
      j := Read(BUNGETSIZE + i, bsize - i);
      if j > 0 {
        HeadGrown(was, mem[..], file, offset, i, j);
        k := Memchr(BUNGETSIZE + i, j, delim);
        FoundIn(mem[..], file, offset, i, j, k, delim);
        offset := offset + j;
      }
    }

    /** There is no line among the first i bytes: they stay to be read. */
    method GiveUp(i: nat)
      requires bsize > 0 && mem.Length == BUNGETSIZE + bsize && i <= bsize && Head(mem[..], file, offset, i)
      modifies mem, this`good, this`rdline, this`icount
      ensures Valid() && -icount == i && Cursor() == offset - i
    {
      Settle(i);
      rdline := i;
      icount := 0 - i;
    }

    /** The first k + 1 of the first i bytes are the line. */
    method Found(i: nat, k: nat, delim: byte) returns (ip: int)
      requires bsize > 0 && mem.Length == BUNGETSIZE + bsize && k < i <= bsize && Head(mem[..], file, offset, i)
      requires file[offset - i + k] == delim && Clear(file, offset - i, offset - i + k, delim)
      modifies mem, this`good, this`rdline, this`icount
      ensures Valid() && 0 <= ip && -icount <= bsize && rdline == k + 1
      ensures LineAt(mem[..], ip, rdline, file, offset - i, delim) && Cursor() == offset - i + rdline
    {
      Settle(i);
      ip := mem.Length - i;
      rdline := k + 1;
      icount := rdline - i;
      LineIn(mem[..], file, offset, i, k, delim);
    }

    method Boffset() returns (n: Option<int>)
      requires Valid()
      ensures n == if state == Binactive then None else Some(Cursor())
    {
      n := if state == Binactive then None else Some(offset + icount);
    }
  }

  lemma DeliverMore(file: seq<byte>, c0: nat, done: nat, n: nat)
    requires c0 + done + n <= |file|
    ensures file[c0..c0 + done] + file[c0 + done..c0 + done + n] == file[c0..c0 + done + n]
  {
  }

  /** What a search of the last i bytes says about the file. */
  lemma ClearTail(m: seq<byte>, file: seq<byte>, o: nat, i: nat, n: nat, delim: byte)
    requires Tail(m, file, o, i) && n <= i && Clear(m, |m| - i, |m| - i + n, delim)
    ensures Clear(file, o - i, o - i + n, delim)
    ensures n < i ==> file[o - i + n] == m[|m| - i + n]
  {
    forall k | o - i <= k < o - i + n ensures file[k] != delim { assert Last(m, o - k) == file[o - (o - k)]; }
    if n < i { assert Last(m, i - n) == file[o - (i - n)]; }
  }

  /** What a search of the j new bytes says about the file. */
  lemma FoundIn(m: seq<byte>, file: seq<byte>, o: nat, i: nat, j: nat, k: int, delim: byte)
    requires Head(m, file, o + j, i + j) && i <= o && -1 <= k < j && Clear(file, o - i, o, delim)
    requires k >= 0 ==> m[BUNGETSIZE + i + k] == delim && Clear(m, BUNGETSIZE + i, BUNGETSIZE + i + k, delim)
    requires k < 0 ==> Clear(m, BUNGETSIZE + i, BUNGETSIZE + i + j, delim)
    ensures k >= 0 ==> file[o + k] == delim && Clear(file, o - i, o + k, delim)
    ensures k < 0 ==> Clear(file, o - i, o + j, delim)
  {
    var n := if k >= 0 then k else j;
    forall l | o - i <= l < o + n ensures file[l] != delim {
      if l >= o { assert First(m, i + (l - o)) == file[l]; }
    }
    if k >= 0 { assert First(m, i + k) == file[o + k]; }
  }

  // ----- what a reader gets

  function Flatten(ls: seq<seq<byte>>): seq<byte> { if ls == [] then [] else Flatten(ls[..|ls| - 1]) + ls[|ls| - 1] }

  /** Ends in delim and has no other. */
  predicate IsLine(l: seq<byte>, delim: byte) { l != [] && l[|l| - 1] == delim && delim !in l[..|l| - 1] }

  lemma LineIs(l: seq<byte>, file: seq<byte>, c: nat, delim: byte)
    requires l != [] && c + |l| <= |file| && l == file[c..c + |l|] && file[c + |l| - 1] == delim
    requires Clear(file, c, c + |l| - 1, delim)
    ensures IsLine(l, delim)
  {
    forall k | 0 <= k < |l| - 1 ensures l[k] != delim { assert file[c + k] != delim; }
  }

  /** All the lines to be had: they are the file's bytes from the cursor on, none left out or read twice. */
  method Lines(b: Biobuf, delim: byte) returns (ls: seq<seq<byte>>)
    requires b.Valid() && -b.icount <= b.bsize
    modifies b, b.mem
    ensures b.Valid() && old(b.Cursor()) <= b.Cursor()
    ensures Flatten(ls) == b.file[old(b.Cursor())..b.Cursor()]
    ensures forall i :: 0 <= i < |ls| ==> IsLine(ls[i], delim)
    ensures b.NoLine(b.Cursor(), old(b.state) != Bractive, old(b.calls), delim)
  {
    ls := [];
    ghost var c0 := b.Cursor();
    while true
      invariant b.Valid() && -b.icount <= b.bsize && c0 <= b.Cursor()
      invariant b.state == old(b.state) && b.calls >= old(b.calls)
      invariant Flatten(ls) == b.file[c0..b.Cursor()] && forall i :: 0 <= i < |ls| ==> IsLine(ls[i], delim)
      decreases |b.file| - b.Cursor()
    {
      ghost var c := b.Cursor();
      var ip := b.Brdline(delim);
      if ip < 0 { return; }
      var l := b.mem[..][ip..ip + b.rdline];
      LineIs(l, b.file, c, delim);
      assert (ls + [l])[..|ls|] == ls;
      assert b.file[c0..b.Cursor()] == b.file[c0..c] + b.file[c..b.Cursor()];
      ls := ls + [l];
    }
  }

  /**
    A line that is not to be had can cost a byte.  From a file without delim, read through a buffer of one byte, two
    bytes are read and put back; Brdline finds no line and leaves the cursor behind the first of them.
   */
  method LosesByte(file: seq<byte>, delim: byte) returns (b: Biobuf, ip: int)
    requires delim !in file && |file| >= 2
    ensures b.Valid() && b.file == file && ip < 0 && b.Cursor() == 1
  {
    b := new Biobuf(file, 1, _ => 1);
    var c := b.Bgetc();
    var d := b.Bgetc();
    var ok := b.Bungetc();
    ok := b.Bungetc();
    assert b.Cursor() == 0 && b.icount == -2;
    ip := b.Brdline(delim);
  }
}
