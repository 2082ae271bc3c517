/**
  Buffered writing: what has been flushed followed by what is buffered is all that has been put.
 */
module BioWrite {
  import opened Basics

  datatype State = Binactive | Bwactive

  class Biobuf {
    const mem: array<byte>
    const bsize: nat
    var ocount: int
    var offset: nat
    var state: State
    /** What each write(2) answers, and how many there have been. */
    const replies: nat -> int
    var calls: nat
    ghost var out: seq<byte>

    ghost predicate Valid()
      reads this, mem
    {
      bsize > 0 && mem.Length == bsize && 0 <= -ocount <= bsize
    }

    /** `offset` is where the file ends; a failed write that wrote something is not counted in it. */
    ghost predicate InStep()
      reads this
    {
      offset == |out|
    }

    /** What waits to be written. */
    ghost function Buffered(): seq<byte>
      reads this, mem
      requires Valid()
    {
      mem[..bsize + ocount]
    }

    /** All that has been put. */
    ghost function All(): seq<byte>
      reads this, mem
      requires Valid()
    {
      out + Buffered()
    }

    constructor (bsize: nat, answers: nat -> int)
      requires bsize > 0
      ensures replies == answers && calls == 0 && ocount == 0 - bsize
      ensures Valid() && InStep() && All() == [] && out == [] && state == Bwactive && this.bsize == bsize && fresh(mem)
    {
      this.bsize := bsize;
      mem := new byte[bsize];
      ocount, offset, state, out := 0 - bsize, 0, Bwactive, [];
      replies, calls := answers, 0;
    }

    /** How many of n bytes write number q takes; -1 is an error. */
    function Reply(q: nat, n: nat): int { if 0 <= replies(q) <= n then replies(q) else -1 }

    /** write(2): the first n bytes of the buffer, or fewer of them, or an error. */
    method Write(n: nat) returns (c: int)
      requires n <= mem.Length
      modifies this`out, this`calls
      ensures c == Reply(old(calls), n) && calls == old(calls) + 1
      ensures -1 <= c <= n && out == old(out) + mem[..if c < 0 then 0 else c]
    {
      c := replies(calls);
      calls := calls + 1;
      if c < 0 || c > n { c := -1; }
      out := out + mem[..if c < 0 then 0 else c];
    }

    /** Write out what is buffered; on failure the rest of it is dropped and the buffer inactive. */
    method Bflush() returns (ok: bool)
      requires Valid()
      modifies this
      ensures Valid() && (ok ==> All() == old(All()) && Buffered() == [] && state == Bwactive)
      ensures ok && old(InStep()) ==> InStep()
      ensures !ok ==> state == Binactive && out <= old(All())
      ensures old(state) == Binactive ==> !ok && All() == old(All()) && out == old(out)
      ensures !ok && old(state) == Bwactive ==> ocount == 0
    {
      if state == Bwactive {
        var n := bsize + ocount;
        if n == 0 { return true; }
        var c := Write(n);
        if c == n {
          offset := offset + n;
          ocount := 0 - bsize;
          return true;
        }
        assert mem[..if c < 0 then 0 else c] == mem[..n][..if c < 0 then 0 else c];
        state := Binactive;
        ocount := 0;
      }
      return false;
    }

    /** Put one byte. */
    method Bputc(b: byte) returns (ok: bool)
      requires Valid()
      modifies this, mem
      ensures Valid() && (ok ==> All() == old(All()) + [b])
      ensures ok && old(InStep()) ==> InStep()
      ensures !ok ==> state == Binactive && out <= old(All())
      ensures old(ocount) < 0 ==> ok && out == old(out) && calls == old(calls) && state == old(state) &&
                                  ocount == old(ocount) + 1
    {
      if ocount == 0 {
        ok := Bflush();
        if !ok { return; }
      }
      ghost var w := out + mem[..bsize + ocount];
      mem[bsize + ocount] := b;
      ocount := ocount + 1;
      assert mem[..bsize + ocount] == mem[..bsize + ocount - 1] + [b];
      ok := true;
    }

    /** Write out the full buffer. */
    method WriteFull(ghost all: seq<byte>) returns (gone: bool)
      requires bsize > 0 && mem.Length == bsize && out + mem[..] == all
      modifies this`out, this`offset, this`state, this`calls
      ensures gone <==> old(state) == Bwactive && Reply(old(calls), bsize) == bsize
      ensures old(state) == Bwactive ==> calls == old(calls) + 1
      ensures !gone ==> (out == old(out) <==> old(state) != Bwactive || Reply(old(calls), bsize) <= 0)
      ensures gone ==> out == all && offset == old(offset) + bsize && state == old(state) && out != old(out)
      ensures !gone ==> old(out) <= out <= all
    {
      ghost var before := out;
      assert mem[..bsize] == mem[..];
      if state != Bwactive {
        Partly(before, out, mem[..], all, 0);
        return false;
      }
      var c := Write(bsize);
      if c != bsize {
        var interrupted := *;
        Partly(before, out, mem[..], all, if c < 0 then 0 else c);
        if !interrupted { state := Binactive; }
        return false;
      }
      offset := offset + bsize;
      gone := true;
    }

    /** Write out the full buffer, which ends with the first `done` bytes of p. */
    method FillOut(ghost p: seq<byte>, ghost done: nat, ghost all: seq<byte>, ghost first: seq<byte>)
        returns (gone: bool)
      requires bsize > 0 && mem.Length == bsize && done <= |p| && out + mem[..bsize] == all + p[..done] && first <= out
      modifies this`out, this`offset, this`state, this`calls
      ensures gone <==> old(state) == Bwactive && Reply(old(calls), bsize) == bsize
      ensures old(state) == Bwactive ==> calls == old(calls) + 1
      ensures !gone ==> (out == old(out) <==> old(state) != Bwactive || Reply(old(calls), bsize) <= 0)
      ensures !gone ==> out <= all + p && old(out) <= out && first <= out
      ensures gone ==> out + mem[..0] == all + p[..done] && first <= out && out != first
      ensures gone ==> offset == old(offset) + bsize && |out| == |old(out)| + bsize && state == old(state)
    {
      PrefixMore(all, p, done);
      assert mem[..bsize] == mem[..];
      gone := WriteFull(all + p[..done]);
      assert out + mem[..0] == out;
    }

    /** How many full buffers are written while len bytes are put, with that much room at first. */
    function Fills(room: nat, len: nat): nat
      requires bsize > 0
      decreases len, room == 0
    {
      if len <= room then 0 else 1 + Fills(bsize, len - room)
    }

    /** Each of the next n writes takes the whole buffer. */
    ghost predicate Whole(q: nat, n: nat) { forall k {:trigger Reply(k, bsize)} :: q <= k < q + n ==>
        Reply(k, bsize) == bsize }

    /** Put count bytes; -1 exactly if one of the writes it takes fails, none if there is room.  After a failure what
        was put before the call is kept exactly if the first write took nothing. */
    method Bwrite(p: seq<byte>) returns (r: int)
      requires Valid()
      modifies this, mem
      ensures Valid() && (r == |p| || r == -1)
      ensures r >= 0 <==> Fills(-old(ocount), |p|) == 0 ||
                          (old(state) == Bwactive && Whole(old(calls), Fills(-old(ocount), |p|)))
      ensures |p| <= -old(ocount) ==> r == |p| && out == old(out)
      ensures r >= 0 ==> All() == old(All()) + p && (old(InStep()) ==> InStep())
      ensures r < 0 ==> out <= old(All()) + p && old(out) <= out
      ensures r < 0 ==> (All() == old(All()) <==> out == old(out))
      ensures r < 0 ==> (out == old(out) <==> old(state) != Bwactive || Reply(old(calls), bsize) <= 0)
    {
      var oc, done := ocount, 0;
      ghost var full := 0;
      while done < |p|
        invariant done <= |p| && 0 <= -oc <= bsize && ocount == old(ocount)
        invariant state == old(state) && (old(InStep()) ==> InStep())
        invariant full + Fills(-oc, |p| - done) == Fills(-old(ocount), |p|)
        invariant Filled(old(calls), full, old(state)) && (full == 0 <==> out == old(out))
        invariant out + mem[..bsize + oc] == old(All()) + p[..done] && old(out) <= out
        invariant out == old(out) ==> mem[..bsize + ocount] == old(Buffered()) && bsize + ocount <= bsize + oc
        decreases |p| - done, oc == 0
      {
        var n := -oc;
        if n > |p| - done { n := |p| - done; }
        if n == 0 {
          var gone := FillOut(p, done, old(All()), old(out));
          if !gone {
            FilledNot(old(calls), full, old(state), Fills(-old(ocount), |p|));
            return -1;
          }
          oc, full := 0 - bsize, full + 1;
          continue;
        }
        PutNext(p, done, oc, n, old(All()));
        oc := oc + n;
        done := done + n;
      }
      assert p[..done] == p;
      ocount := oc;
      r := |p|;
    }

    /** So many full buffers have been written, one write each. */
    ghost predicate Filled(q: nat, n: nat, st: State)
      reads this
    {
      Whole(q, n) && (st == Bwactive ==> calls == q + n) && (n > 0 ==> st == Bwactive)
    }

    /** One more write, and that has failed. */
    lemma FilledNot(q: nat, n: nat, st: State, all: nat)
      requires Whole(q, n) && n < all && (st != Bwactive || Reply(q + n, bsize) != bsize)
      ensures !(st == Bwactive && Whole(q, all))
    {
    }

    method Boffset() returns (n: Option<int>)
      requires Valid()
      ensures if state == Binactive then n == None else InStep() ==> n == Some(|All()|)
    {
      n := if state == Binactive then None else Some(offset + (bsize + ocount));
    }

    method PutNext(p: seq<byte>, at: nat, oc: int, n: nat, ghost all: seq<byte>)
      requires mem.Length == bsize && n <= -oc <= bsize && at + n <= |p| && out + mem[..bsize + oc] == all + p[..at]
      modifies mem
      ensures out + mem[..bsize + oc + n] == all + p[..at + n]
      ensures mem[..bsize + oc] == old(mem[..bsize + oc])
    {
      ghost var had := mem[..bsize + oc];
      PutSome(p, at, oc, n);
      PutMore(out, had, all, p, at, n);
      assert mem[..bsize + oc] == mem[..bsize + oc + n][..bsize + oc];
    }

    /** memmove into the buffer. */
    method PutSome(p: seq<byte>, at: nat, oc: int, n: nat)
      requires mem.Length == bsize && n <= -oc <= bsize && at + n <= |p|
      modifies mem
      ensures mem[..bsize + oc + n] == old(mem[..bsize + oc]) + p[at..at + n]
    {
      var k := 0;
      while k < n
        invariant k <= n && mem[..bsize + oc + k] == old(mem[..bsize + oc]) + p[at..at + k]
      {
        mem[bsize + oc + k] := p[at + k];
        k := k + 1;
      }
    }
  }

  /** With a byte in a one-byte buffer, a write of two more fails after the buffer has gone out once: the first of
      the two is then in the buffer in place of what was there. */
  method Displaced() returns (b: Biobuf, r: int)
    ensures b.Valid() && b.bsize == 1 && r == -1 && b.out != [] && b.All() != [1]
  {
    b := new Biobuf(1, k => if k == 0 then 1 else -1);
    var ok := b.Bputc(1);
    assert b.All() == [1] && b.out == [];
    assert b.Fills(0, 2) == 2 && b.Reply(1, 1) == -1;
    r := b.Bwrite([2, 3]);
  }

  lemma PrefixMore(all: seq<byte>, p: seq<byte>, done: nat)
    requires done <= |p|
    ensures all + p[..done] <= all + p
  {
  }

  lemma PutMore(out: seq<byte>, had: seq<byte>, all: seq<byte>, p: seq<byte>, done: nat, n: nat)
    requires done + n <= |p| && out + had == all + p[..done]
    ensures out + (had + p[done..done + n]) == all + p[..done + n]
  {
    assert p[..done + n] == p[..done] + p[done..done + n];
    assert out + (had + p[done..done + n]) == (out + had) + p[done..done + n];
    assert all + (p[..done] + p[done..done + n]) == (all + p[..done]) + p[done..done + n];
  }

  lemma Partly(before: seq<byte>, after: seq<byte>, buf: seq<byte>, all: seq<byte>, c: nat)
    requires c <= |buf| && before + buf == all && after == before + buf[..c]
    ensures after <= all && before <= after && (after == before <==> c == 0)
  {
  }
}
