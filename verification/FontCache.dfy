/**
  The glyph cache of a font: slots found by hashing and a short scan, evicted oldest first, and resized when the
  oldest is too young.  A batch of characters becomes slot numbers that are drawn from together, so that no slot
  of the batch may be evicted or wiped while the batch grows.

  What the display holds is modelled as the rune last drawn for each slot, where in the cache image that was and
  how wide, and how wide the image is: what is drawn past its edge is not seen.
 */
module FontCache {
  import opened Basics
  import opened Runes

  const NFLOOK: nat := 5
  const NFCACHE: nat := 64
  const MAXFCACHE: nat := 1024 + 5
  const NFSUBF: nat := 2
  const MAXSUBF: nat := 50
  const DSUBF: nat := 4
  const SUBFAGE: nat := 10000
  const PJW: rune := 0

  /** A glyph's advance, and how wide its bits are. */
  datatype Fontchar = Fontchar(width: nat, bits: nat)

  /** The first n glyphs are in use. */
  datatype Subfont = Subfont(n: nat, info: seq<Fontchar>, depth: nat)

  /** A line of the font file: which runes come from which subfont; without a name it is not to be freed. */
  datatype Cachefont = Cachefont(min: rune, max: rune, offset: int, named: bool, f: Subfont)

  /** What was drawn for a slot: a rune's glyph, from which column on, and how many columns. */
  datatype Ink = Ink(value: rune, at: nat, bits: nat)

  /** The cache image on the display. */
  datatype Image = Image(wide: nat, drawn: map<nat, Ink>)

  datatype Cacheinfo = Cacheinfo(value: rune, width: nat, age: nat)

  /** `cf` is an index into the font's lines; a subfont is attached exactly if there is one. */
  datatype Cachesubf = Cachesubf(age: nat, cf: Option<nat>)

  /** What looking up a line's subfont gives: no name can be made, it is not there yet, or it is attached. */
  datatype Lookup = NoName | Missing | Present

  /** How the search for a glyph ends: there is none, it may be there later, or it is in a line's subfont. */
  datatype Sought = Gone | Retry | At(line: nat, glyph: Fontchar)

  const CLEAR := Cacheinfo(0, 0, 0)
  const NOSUBF := Cachesubf(0, None)

  // ----- slots

  /** A power of two from NFCACHE on, NFLOOK more slots than that. */
  predicate Shape(n: int) { n == 64 + 5 || n == 128 + 5 || n == 256 + 5 || n == 512 + 5 || n == 1024 + 5 }

  /** Where the scan for r starts. */
  function Hash(r: rune, n: nat): (h: nat)
    requires Shape(n)
    ensures h + NFLOOK < n
  {
    if n == 69 then 17 * r % 64 else if n == 133 then 17 * r % 128 else if n == 261 then 17 * r % 256
    else if n == 517 then 17 * r % 512 else 17 * r % 1024
  }

  predicate InWindow(r: rune, h: nat, n: nat)
    requires Shape(n)
  {
    Hash(r, n) <= h < Hash(r, n) + NFLOOK
  }

  // ----- ages

  function Renormal(a: nat): nat { if a == 0 then 0 else a / 4 + 1 }

  /** Renormalising keeps ages in order, keeps which are zero, and leaves none as high as the font's new age. */
  lemma RenormalOrder(a: nat, b: nat)
    requires a <= b < 65536
    ensures Renormal(a) <= Renormal(b) <= 65536 / 4 < 65536 / 4 + 1
    ensures Renormal(a) == 0 <==> a == 0
  {
  }

  // ----- batches

  function Sum(ws: seq<nat>): nat { if ws == [] then 0 else Sum(ws[..|ws| - 1]) + ws[|ws| - 1] }

  lemma SumMore(ws: seq<nat>, w: nat)
    ensures Sum(ws + [w]) == Sum(ws) + w
  {
    assert (ws + [w])[..|ws|] == ws;
  }

  /** xs is ys without some of its elements. */
  ghost predicate Within(xs: seq<rune>, ys: seq<rune>) {
    if ys == [] then xs == []
    else var front, last := ys[..|ys| - 1], ys[|ys| - 1];
         Within(xs, front) || (xs != [] && xs[|xs| - 1] == last && Within(xs[..|xs| - 1], front))
  }

  lemma WithinMore(xs: seq<rune>, ys: seq<rune>, y: rune)
    requires Within(xs, ys)
    ensures Within(xs, ys + [y]) && Within(xs + [y], ys + [y])
  {
    assert (ys + [y])[..|ys|] == ys;
    assert (xs + [y])[..|xs|] == xs;
  }

  /** Of the first `used` runes of rr i have been kept, with widths ws. */
  ghost predicate Taken(rr: seq<rune>, used: nat, kept: seq<rune>, i: nat, ws: seq<nat>, wid: nat) {
    i <= used <= |rr| && |kept| == i && Within(kept, rr[..used]) && wid == Sum(ws)
  }

  lemma TakeMore(rr: seq<rune>, used: nat, kept: seq<rune>, i: nat, ws: seq<nat>, wid: nat, w: nat)
    requires Taken(rr, used, kept, i, ws, wid) && used < |rr|
    ensures Taken(rr, used + 1, kept, i, ws, wid) && Taken(rr, used + 1, kept + [rr[used]], i + 1, ws + [w], wid + w)
    ensures kept == rr[..used] ==> kept + [rr[used]] == rr[..used + 1]
  {
    assert rr[..used + 1] == rr[..used] + [rr[used]];
    WithinMore(kept, rr[..used], rr[used]);
    SumMore(ws, w);
  }

  class Font {
    const sub: seq<Cachefont>
    var cache: array<Cacheinfo>
    var age: nat
    var width: nat
    var maxdepth: nat
    var subf: seq<Cachesubf>
    var image: Option<Image>
    /** What the display answers to each request. */
    const replies: nat -> bool
    var requests: nat

    /** What holds of the slots whatever the display answers. */
    ghost predicate Valid()
      reads this, cache
    {
      Shape(cache.Length) && 0 < age < 65536 &&
      (forall k {:trigger cache[k]} :: 0 <= k < cache.Length && cache[k].age > 0 ==>
         cache[k].age <= age && InWindow(cache[k].value, k, cache.Length)) &&
      SubfsOk()
    }

    ghost predicate SubfsOk()
      reads this
    {
      0 < |subf| <= MAXSUBF + DSUBF && |subf| % 4 == 2 &&
      (forall k {:trigger subf[k]} :: 0 <= k < |subf| ==>
         subf[k].age <= age && (subf[k].cf == None ==> subf[k].age == 0) &&
             (subf[k].cf.Some? ==> subf[k].cf.value < |sub|)) &&
      forall j, k {:trigger subf[j], subf[k]} :: 0 <= j < k < |subf| && subf[j].cf.Some? ==> subf[j].cf != subf[k].cf
    }

    /** The image shows r in slot h, whole and where the font's width puts it. */
    ghost predicate Drawn(r: rune, h: nat)
      reads this
    {
      image.Some? && h in image.value.drawn &&
      var ink := image.value.drawn[h];
      ink.value == r && ink.at == h * width && ink.bits <= width && ink.at + ink.bits <= image.value.wide
    }

    /** Slot k of the image shows the rune the cache says. */
    ghost predicate Shows(k: nat)
      requires k < cache.Length
      reads this, cache
    {
      cache[k].age > 0 ==> Drawn(cache[k].value, k)
    }

    /** All slots lie in the image. */
    ghost predicate Roomy()
      reads this
    {
      image.Some? ==> cache.Length * width <= image.value.wide
    }

    ghost predicate Sound()
      reads this, cache
    {
      forall k {:trigger Shows(k)} :: 0 <= k < cache.Length ==> Shows(k)
    }

    constructor (lines: seq<Cachefont>, answers: nat -> bool)
      ensures Valid() && Sound() && Roomy() && width == 0 == requests && maxdepth == 0 && image == None
      ensures fresh(cache) && sub == lines && replies == answers
      ensures forall look {:trigger Widths(look)} :: Widths(look)
      ensures cache.Length == NFCACHE + NFLOOK && forall k {:trigger cache[k]} :: 0 <= k < cache.Length ==>
              cache[k] == CLEAR
    {
      sub := lines;
      replies := answers;
      cache := new Cacheinfo[NFCACHE + NFLOOK](_ => CLEAR);
      age, width, maxdepth, requests := 1, 0, 0, 0;
      subf := seq(NFSUBF, _ => NOSUBF);
      image := None;
    }

    method Ask() returns (ok: bool)
      modifies this`requests
      ensures requests == old(requests) + 1 && ok == replies(old(requests))
    {
      ok := replies(requests);
      requests := requests + 1;
    }

    /** agefont: the next age, which no slot has; ages stay in order, and a slot in use stays in use. */
    method AgeFont()
      requires Valid()
      modifies this`age, this`subf, cache
      ensures Valid() && (old(Sound()) ==> Sound()) && (old(Roomy()) ==> Roomy())
      ensures age == if old(age) < 65535 then old(age) + 1 else 65536 / 4 + 1
      ensures forall k {:trigger cache[k]} :: 0 <= k < cache.Length ==>
                cache[k] == old(cache[k]).(age := if old(age) < 65535 then old(cache[k]).age
                    else Renormal(old(cache[k]).age))
      ensures forall k {:trigger cache[k]} :: 0 <= k < cache.Length ==> cache[k].age < age
      ensures forall look {:trigger Widths(look)} :: old(Widths(look)) ==> Widths(look)
    {
      age := age + 1;
      if age == 65536 {
        AgeSlots();
        AgeSubfs();
        age := 65536 / 4 + 1;
      }
      if old(Sound()) {
        forall k | 0 <= k < cache.Length ensures Shows(k) { assert old(Shows(k)); }
      }
    }

    method AgeSlots()
      modifies cache
      ensures forall k {:trigger cache[k]} :: 0 <= k < cache.Length ==>
                cache[k] == old(cache[k]).(age := Renormal(old(cache[k]).age))
    {
      var k := 0;
      while k < cache.Length
        invariant 0 <= k <= cache.Length
        invariant forall j {:trigger cache[j]} :: 0 <= j < cache.Length ==>
                    cache[j] == if j < k then old(cache[j]).(age := Renormal(old(cache[j]).age)) else old(cache[j])
      {
        if cache[k].age != 0 { cache[k] := cache[k].(age := cache[k].age / 4 + 1); }
        k := k + 1;
      }
    }

    /** Subfonts not used for long are let go, the others get younger. */
    method AgeSubfs()
      requires age == 65536 && |subf| % 4 == 2 && 0 < |subf| <= MAXSUBF + DSUBF
      requires forall k {:trigger subf[k]} :: 0 <= k < |subf| ==>
                 subf[k].age < age && (subf[k].cf == None ==> subf[k].age == 0) &&
                     (subf[k].cf.Some? ==> subf[k].cf.value < |sub|)
      modifies this`subf
      ensures |subf| == |old(subf)|
      ensures forall k {:trigger subf[k]} :: 0 <= k < |subf| ==> subf[k] == Aged(old(subf)[k])
    {
      ghost var was := subf;
      var k := 0;
      while k < |subf|
        invariant 0 <= k <= |subf| == |was|
        invariant forall j {:trigger subf[j]} :: 0 <= j < |subf| ==> subf[j] == if j < k then Aged(was[j]) else was[j]
      {
        if subf[k].age != 0 {
          if subf[k].age < SUBFAGE && sub[subf[k].cf.value].named {
            subf := subf[k := NOSUBF];
          } else {
            subf := subf[k := subf[k].(age := subf[k].age / 4 + 1)];
          }
        }
        k := k + 1;
      }
    }

    // ----- finding a glyph

    /** Every subfont has one more glyph entry than glyphs in use, to tell where the last one ends. */
    ghost predicate Lines() {
      forall i {:trigger sub[i]} :: 0 <= i < |sub| ==> |sub[i].f.info| > sub[i].f.n
    }

    /** The first line, from i on, that pic is in. */
    function Find(pic: rune, i: nat): (r: Option<nat>)
      requires i <= |sub|
      ensures r.Some? ==> i <= r.value < |sub| && sub[r.value].min <= pic <= sub[r.value].max
      decreases |sub| - i
    {
      if i == |sub| then None else if sub[i].min <= pic <= sub[i].max then Some(i) else Find(pic, i + 1)
    }

    /** The glyph that line i has for pic. */
    function Glyph(i: nat, pic: rune): Option<Fontchar>
      requires i < |sub|
    {
      var f, at := sub[i].f, pic + sub[i].offset - sub[i].min;
      if 0 <= at < f.n && at < |f.info| && f.info[at].width != 0 then Some(f.info[at]) else None
    }

    /** The first rune of a line has the glyph numbered `offset`, each next one the next. */
    lemma GlyphNumbered(i: nat, k: nat)
      requires i < |sub| && |sub[i].f.info| > sub[i].f.n
      ensures var f, at := sub[i].f, sub[i].offset + k;
        Glyph(i, sub[i].min + k) == if 0 <= at < f.n && f.info[at].width > 0 then Some(f.info[at]) else None
    {
    }

    /** The glyph that r's line has for it. */
    function GlyphOf(r: rune): Option<Fontchar> {
      var i := Find(r, 0);
      if i == None then None else Glyph(i.value, r)
    }

    /** w is the advance of r's glyph or, where r has none or its subfont cannot be named, of the invisible one. */
    ghost predicate Wide(r: rune, w: nat, look: nat -> Lookup) {
      var own, pjw := GlyphOf(r), GlyphOf(PJW);
      (own.Some? && w == own.value.width) ||
      (pjw.Some? && w == pjw.value.width && (own == None || look(Find(r, 0).value) == NoName))
    }

    /** Every slot in use has the advance of its rune. */
    ghost predicate Widths(look: nat -> Lookup)
      reads this, cache
    {
      forall k {:trigger cache[k]} :: 0 <= k < cache.Length && cache[k].age > 0 ==>
        Wide(cache[k].value, cache[k].width, look)
    }

    /** The first line for the invisible glyph, if there is one, has it or ends the search there. */
    predicate NoSpin() {
      var i := Find(PJW, 0);
      i == None || Glyph(i.value, PJW).Some? || sub[i.value].offset == 0
    }

    /** The first place where line i is attached, from k on. */
    function Place(s: seq<Cachesubf>, i: nat, k: nat): (r: Option<nat>)
      requires k <= |s|
      ensures r.Some? ==> r.value < |s| && s[r.value].cf == Some(i)
      ensures r == None <==> forall m {:trigger s[m]} :: k <= m < |s| ==> s[m].cf != Some(i)
      decreases |s| - k
    {
      if k == |s| then None else if s[k].cf == Some(i) then Some(k) else Place(s, i, k + 1)
    }

    /** The first of the oldest of the first k places. */
    function Eldest(s: seq<Cachesubf>, k: nat): (r: nat)
      requires 0 < k <= |s|
      ensures r < k && forall m {:trigger s[m]} :: 0 <= m < k ==> s[r].age <= s[m].age
    {
      if k == 1 then 0
      else var r := Eldest(s, k - 1); if s[k - 1].age < s[r].age then k - 1 else r
    }

    /** The places after line i has been looked for, and the place for it: its own, or the oldest one, emptied, if
        that is old or there are too many, or the first of some new ones. */
    function Cleared(s: seq<Cachesubf>): (r: (seq<Cachesubf>, nat))
      requires s != []
      reads this`age
      ensures r.1 < |r.0|
    {
      var o := Eldest(s, |s|);
      if s[o].cf.Some? && age - s[o].age <= SUBFAGE && |s| <= MAXSUBF then
        (s + [NOSUBF, NOSUBF, NOSUBF, NOSUBF], |s|)
      else (s[o := NOSUBF], o)
    }

    /** Looking for line i's subfont: what it gives, and the places then. */
    function Attaching(s: seq<Cachesubf>, i: nat, look: nat -> Lookup): (Lookup, seq<Cachesubf>)
      requires s != []
      reads this`age
    {
      var k := Place(s, i, 0);
      if k.Some? then (Present, s[k.value := Cachesubf(age, Some(i))])
      else
        var (t, o) := Cleared(s);
        if look(i) == Present then (Present, t[o := Cachesubf(age, Some(i))]) else (look(i), t)
    }

    ghost predicate Attached(s: seq<Cachesubf>, i: nat) {
      exists k {:trigger s[k]} :: 0 <= k < |s| && s[k].cf == Some(i)
    }

    /** The place where line i's subfont is attached, or else the oldest. */
    method ExactOrOldest(i: nat) returns (found: bool, oi: nat)
      requires 0 < |subf|
      ensures if found then Place(subf, i, 0) == Some(oi) else Place(subf, i, 0) == None && oi == Eldest(subf, |subf|)
    {
      var k := 0;
      oi := 0;
      while k < |subf|
        invariant 0 <= k <= |subf| && oi < |subf| && Place(subf, i, 0) == Place(subf, i, k)
        invariant k == 0 ==> oi == 0
        invariant k > 0 ==> oi == Eldest(subf, k)
      {
        if subf[k].cf == Some(i) { return true, k; }
        if subf[k].age < subf[oi].age { oi := k; }
        k := k + 1;
      }
      found := false;
    }

    /** What may be let go: the oldest, and only if it is old or the list cannot grow. */
    ghost predicate MayGo(s: seq<Cachesubf>, j: nat, now: nat) {
      exists k {:trigger s[k]} :: 0 <= k < |s| && s[k].cf == Some(j) && (now - s[k].age > SUBFAGE || |s| > MAXSUBF) &&
        forall m {:trigger s[m]} :: 0 <= m < |s| ==> s[k].age <= s[m].age
    }

    /** Attaches line i's subfont, in the place of the oldest if need be. */
    method Attach(i: nat, look: nat -> Lookup) returns (res: Lookup)
      requires SubfsOk() && i < |sub| && age > 0
      modifies this`subf
      ensures SubfsOk() && (res, subf) == Attaching(old(subf), i, look)
      ensures res == if old(Attached(subf, i)) then Present else look(i)
      ensures res == Present ==> exists k {:trigger subf[k]} :: 0 <= k < |subf| && subf[k] == Cachesubf(age, Some(i))
      ensures forall j: nat {:trigger Attached(subf, j)} :: Attached(old(subf), j) && !Attached(subf, j) ==>
              MayGo(old(subf), j, age)
    {
      ghost var was := subf;
      var found, oi := ExactOrOldest(i);
      if found {
        subf := subf[oi := Cachesubf(age, Some(i))];
        res := Present;
      } else {
        if subf[oi].cf.Some? && age - subf[oi].age <= SUBFAGE && |subf| <= MAXSUBF {
          oi := |subf|;
          subf := subf + [NOSUBF, NOSUBF, NOSUBF, NOSUBF];
        } else {
          subf := subf[oi := NOSUBF];
        }
        res := look(i);
        if res == Present { subf := subf[oi := Cachesubf(age, Some(i))]; }
      }
      AttachingGives(was, i, look);
      AttachingTosses(was, i, look);
    }

    lemma AttachingGives(s: seq<Cachesubf>, i: nat, look: nat -> Lookup)
      requires s != []
      ensures var (res, t) := Attaching(s, i, look);
        res == (if Attached(s, i) then Present else look(i)) &&
        (res == Present ==> exists k {:trigger t[k]} :: 0 <= k < |t| && t[k] == Cachesubf(age, Some(i)))
    {
      var t := Attaching(s, i, look).1;
      if Attaching(s, i, look).0 == Present {
        var oi := if Place(s, i, 0).Some? then Place(s, i, 0).value else Cleared(s).1;
        assert t[oi] == Cachesubf(age, Some(i));
      }
    }

    /** What is not attached any more was in the eldest place, and that could go. */
    lemma AttachingTosses(s: seq<Cachesubf>, i: nat, look: nat -> Lookup)
      requires s != []
      ensures var t := Attaching(s, i, look).1; forall j: nat {:trigger Attached(t, j)} ::
        Attached(s, j) && !Attached(t, j) ==> MayGo(s, j, age)
    {
      var t := Attaching(s, i, look).1;
      var oi := if Place(s, i, 0).Some? then Place(s, i, 0).value else Cleared(s).1;
      forall j: nat {:trigger Attached(t, j)} | Attached(s, j) && !Attached(t, j) ensures MayGo(s, j, age) {
        Kept(s, t, oi, j);
        assert t[oi] == t[oi] && s[oi].cf == Some(j);
      }
    }

    /** What is attached stays attached but for what place oi had. */
    lemma Kept(s: seq<Cachesubf>, t: seq<Cachesubf>, oi: nat, j: nat)
      requires |s| <= |t| && forall k {:trigger t[k]} :: 0 <= k < |s| && k != oi ==> t[k] == s[k]
      requires Attached(s, j)
      ensures Attached(t, j) || (oi < |s| && s[oi].cf == Some(j))
    {
      var k :| 0 <= k < |s| && s[k].cf == Some(j);
      assert t[k] == s[k] || k == oi;
    }

    // ----- loading

    /** Makes a cache image for n slots and, if that is another number, another cache; wipes the cache anyway. */
    method FontResize(wid: nat, n: nat, depth: nat) returns (ret: int)
      requires Valid() && Shape(n)
      modifies this`cache, this`width, this`maxdepth, this`image, this`requests, cache
      ensures Valid() && Sound() && (cache == old(cache) || fresh(cache))
      ensures forall k {:trigger cache[k]} :: 0 <= k < cache.Length ==> cache[k] == CLEAR
      ensures cache.Length == old(cache.Length) || (cache.Length == n && ret == 0)
      ensures (n == old(cache.Length) ==> cache == old(cache)) && requests > old(requests) && subf == old(subf) &&
              age == old(age)
      ensures if replies(old(requests)) then Made(wid, n, depth) && (n == old(cache.Length) ==> ret == 1)
              else ret == 0 && image == old(image) && width == old(width) && maxdepth == old(maxdepth) &&
                   cache == old(cache)
      ensures ret == 1 || ret == 0
      ensures ret == 1 ==> cache == old(cache)
      ensures n == old(cache.Length) ==> requests == old(requests) + 1
      ensures (forall q {:trigger replies(q)} :: q >= old(requests) ==> replies(q)) ==>
                cache.Length == n && image.Some? && (ret == 1 <==> n == old(cache.Length))
      ensures old(Roomy()) && n >= old(cache.Length) ==> Roomy()
    {
      ret := 0;
      var made := MakeImage(wid, n, depth);
      if made {
        ret := 1;
        if cache.Length != n {
          var got := Ask();
          if got {
            ret := 0;
            cache := new Cacheinfo[n](_ => CLEAR);
          }
        }
        if n >= old(cache.Length) { WideEnough(cache.Length, n, width); }
      }
      Wipe();
    }

    /** The image is new: n slots of that width. */
    ghost predicate Made(wid: nat, n: nat, depth: nat)
      reads this
    {
      width == (if wid == 0 then 1 else wid) && maxdepth == (if depth == 0 then 1 else depth) &&
      image == Some(Image(n * width, map[]))
    }

    method MakeImage(wid: nat, n: nat, depth: nat) returns (made: bool)
      modifies this`width, this`maxdepth, this`image, this`requests
      ensures requests == old(requests) + 1 && made == replies(old(requests))
      ensures if made then Made(wid, n, depth)
              else image == old(image) && width == old(width) && maxdepth == old(maxdepth)
    {
      made := Ask();
      if made {
        width := if wid == 0 then 1 else wid;
        maxdepth := if depth == 0 then 1 else depth;
        image := Some(Image(n * width, map[]));
      }
    }

    lemma WideEnough(m: nat, n: nat, w: nat)
      requires m <= n
      ensures m * w <= n * w
    {
    }

    /** A slot among n of that width ends before the n-th does. */
    lemma SlotEnds(h: nat, n: nat, w: nat, bits: nat)
      requires h < n && bits <= w
      ensures h * w + bits <= n * w
    {
      assert (h + 1) * w == h * w + w;
      WideEnough(h + 1, n, w);
    }

    method Wipe()
      modifies cache
      ensures forall k {:trigger cache[k]} :: 0 <= k < cache.Length ==> cache[k] == CLEAR
    {
      forall k | 0 <= k < cache.Length { cache[k] := CLEAR; }
    }

    // ----- the search

    /** Whether one round of the search, for pic with that answer, goes on to the invisible glyph. */
    predicate Again(pic: rune, got: Lookup) {
      var i := Find(pic, 0);
      if i == None || got == NoName then pic != PJW
      else got == Present && Glyph(i.value, pic) == None && pic + sub[i.value].offset != PJW
    }

    /** One round of the search for pic: what it gives, and the subfonts attached then. */
    function Answer(pic: rune, s: seq<Cachesubf>, look: nat -> Lookup): (Lookup, seq<Cachesubf>)
      requires s != []
      reads this`age
    {
      var i := Find(pic, 0);
      if i == None then (NoName, s) else Attaching(s, i.value, look)
    }

    /** What is sought after n rounds of the search for r, and the subfonts then; None once the search has ended. */
    function After(r: rune, s: seq<Cachesubf>, look: nat -> Lookup, n: nat): (a: Option<(rune, seq<Cachesubf>)>)
      requires s != []
      reads this`age
      ensures a.Some? ==> a.value.1 != []
    {
      if n == 0 then Some((r, s))
      else
        match After(r, s, look, n - 1)
        case None => None
        case Some((pic, t)) =>
          var (got, u) := Answer(pic, t, look);
          if Again(pic, got) then Some((PJW, u)) else None
    }

    /** The search for r comes to the invisible glyph, whose line is there but does not have it. */
    predicate Spins(r: rune, s: seq<Cachesubf>, look: nat -> Lookup)
      requires s != []
      reads this`age
    {
      var a := if r == PJW then After(r, s, look, 0) else After(r, s, look, 1);
      a.Some? && !NoSpin() && Answer(PJW, a.value.1, look).0 == Present
    }

    /** A subfont that is there is there the next time. */
    lemma AttachedStays(s: seq<Cachesubf>, look: nat -> Lookup)
      requires s != [] && Answer(PJW, s, look).0 == Present && Find(PJW, 0).Some?
      ensures Answer(PJW, s, look).1 != [] && Answer(PJW, Answer(PJW, s, look).1, look).0 == Present
    {
      var i := Find(PJW, 0).value;
      var t := Answer(PJW, s, look).1;
      assert exists k {:trigger t[k]} :: 0 <= k < |t| && t[k].cf == Some(i) by {
        var k := if Place(s, i, 0).Some? then Place(s, i, 0).value else Cleared(s).1;
        assert t[k] == Cachesubf(age, Some(i));
      }
    }

    /** Once it has come there, it is there again in every round. */
    lemma {:induction false} SpinsOn(r: rune, s: seq<Cachesubf>, look: nat -> Lookup, m: nat, n: nat)
      requires s != [] && m <= n && After(r, s, look, m).Some? && After(r, s, look, m).value.0 == PJW
      requires !NoSpin() && Answer(PJW, After(r, s, look, m).value.1, look).0 == Present
      ensures After(r, s, look, n).Some? && After(r, s, look, n).value.0 == PJW
      ensures Answer(PJW, After(r, s, look, n).value.1, look).0 == Present
      decreases n - m
    {
      if m < n {
        SpinsOn(r, s, look, m, n - 1);
        var t := After(r, s, look, n - 1).value.1;
        AttachedStays(t, look);
        assert Again(PJW, Present);
      }
    }

    /** A search that does not spin ends in two rounds. */
    lemma EndsSoon(r: rune, s: seq<Cachesubf>, look: nat -> Lookup)
      requires s != [] && !Spins(r, s, look)
      ensures After(r, s, look, 2) == None
    {
      var a := After(r, s, look, if r == PJW then 0 else 1);
      if a.Some? { assert a.value.0 == PJW && !Again(PJW, Answer(PJW, a.value.1, look).0); }
      if r == PJW { assert After(r, s, look, 1) == None; }
    }

    /** The search for r is still going after every number of rounds exactly if it comes to the invisible glyph,
        whose line is there, does not have it, and does not end the search. */
    lemma SpinsIff(r: rune, s: seq<Cachesubf>, look: nat -> Lookup)
      requires s != []
      ensures (forall n: nat {:trigger After(r, s, look, n)} :: After(r, s, look, n).Some?) <==> Spins(r, s, look)
    {
      if Spins(r, s, look) {
        var m := if r == PJW then 0 else 1;
        forall n: nat {:trigger After(r, s, look, n)} ensures After(r, s, look, n).Some? {
          if n >= m { SpinsOn(r, s, look, m, n); }
        }
      } else {
        EndsSoon(r, s, look);
      }
    }

    /** The search for r never gets to the invisible glyph, whatever is attached. */
    predicate Settled(r: rune, look: nat -> Lookup) {
      var i := Find(r, 0);
      i.Some? && look(i.value) != NoName && (Glyph(i.value, r).Some? || r + sub[i.value].offset == PJW)
    }

    /** The search for r ends. */
    predicate Ends(r: rune, look: nat -> Lookup) { NoSpin() || Settled(r, look) }

    lemma EndsAlways(r: rune, s: seq<Cachesubf>, look: nat -> Lookup)
      requires s != [] && Ends(r, look)
      ensures !Spins(r, s, look)
    {
      if !NoSpin() {
        assert !Again(r, Answer(r, s, look).0);
        assert After(r, s, look, 0) == Some((r, s));
        assert After(r, s, look, 1) == None;
      }
    }

    /** Looks for r's glyph, or for the invisible one. */
    method Seek(r: rune, look: nat -> Lookup) returns (res: Sought)
      requires SubfsOk() && age > 0 && !Spins(r, subf, look)
      modifies this`subf
      ensures SubfsOk()
      ensures res.At? ==> res.line < |sub| && (Has(r, res) || Has(PJW, res))
      ensures res.At? ==> Wide(r, res.glyph.width, look)
      ensures Own(r, look) ==> Has(r, res)
    {
      var pic := r;
      ghost var n := 0;
      ghost var was := subf;
      while true
        invariant SubfsOk() && n <= 1 && After(r, was, look, n) == Some((pic, subf)) && (n == 0 ==> pic == r)
        invariant n == 1 ==> pic == PJW != r
        invariant Own(r, look) ==> pic == r
        invariant pic != r ==> GlyphOf(r) == None || look(Find(r, 0).value) == NoName
        decreases 1 - n
      {
        var i := Find(pic, 0);
        ghost var before := subf;
        var got := NoName;
        if i.Some? { got := Attach(i.value, look); }
        assert (got, subf) == Answer(pic, before, look);
        if got == Missing { return Retry; }
        if got == Present {
          var g := Glyph(i.value, pic);
          if g.Some? { return At(i.value, g.value); }
          if pic + sub[i.value].offset == PJW { return Gone; }
        } else if pic == PJW {
          return Gone;
        }
        assert Again(pic, got) && After(r, was, look, n + 1) == Some((PJW, subf));
        assert pic != PJW;
        pic := PJW;
        n := n + 1;
      }
    }

    predicate Has(pic: rune, s: Sought) { s.At? && Find(pic, 0) == Some(s.line) && Glyph(s.line, pic) == Some(s.glyph) }

    /** The slots are as they were or, if the batch is empty, wiped. */
    ghost predicate KeptOrWiped(was: seq<Cacheinfo>, h: int, first: bool)
      reads this, cache
    {
      |was| == cache.Length &&
      ((forall k {:trigger cache[k]} :: 0 <= k < cache.Length && k != h ==> cache[k] == was[k]) ||
       (first && forall k {:trigger cache[k]} :: 0 <= k < cache.Length && k != h ==> cache[k] == CLEAR))
    }

    /** Every request from number q on is granted. */
    ghost predicate Granted(q: nat) { forall k {:trigger replies(k)} :: k >= q ==> replies(k) }

    /** There is an image unless no glyph has been loaded. */
    ghost predicate Ready()
      reads this
    {
      image.Some? || width == 0
    }

    /** r has a glyph of its own in a subfont that is there. */
    predicate Own(r: rune, look: nat -> Lookup) {
      var i := Find(r, 0);
      i.Some? && Glyph(i.value, r).Some? && look(i.value) == Present
    }

    /** Makes room in the image for a glyph that is wider or deeper than any before, if the batch is empty. */
    method Fit(wid: nat, depth: nat, first: bool) returns (ret: int)
      requires Valid()
      modifies this`width, this`maxdepth, this`image, this`requests, this`cache, cache
      ensures cache == old(cache) && Valid() && -1 <= ret <= 1 && requests >= old(requests)
      ensures KeptOrWiped(old(cache[..]), -1, first) && (ret == -1 ==> !first)
      ensures old(Ready()) && Granted(old(requests)) ==> Ready() && ret != 0 && (ret == 1 ==> image.Some?)
      ensures forall k {:trigger Shows(k)} :: 0 <= k < cache.Length && old(Shows(k)) ==> Shows(k)
      ensures ret == 1 ==> wid <= width
      ensures (ret == 1 || first) ==> depth <= maxdepth
      ensures !old(Narrow(wid, depth)) ==>
        image == old(image) && width == old(width) && maxdepth == old(maxdepth) && cache[..] == old(cache[..])
      ensures ret == 1 && old(Roomy()) ==> Roomy()
      ensures old(Roomy()) && !Roomy() ==> !replies(old(requests)) && requests > old(requests)
      ensures ret != 0 && requests == old(requests) ==> image == old(image) && width == old(width)
      ensures if !old(Narrow(wid, depth)) then ret == 1 && requests == old(requests)
              else if !first then ret == -1 && requests == old(requests)
              else requests == old(requests) + 1 && width == (if Wider(old(width), wid) == 0 && ret == 1 then 1
                                                                else Wider(old(width), wid)) &&
                   (ret == 1 <==> replies(old(requests))) &&
                   (if ret == 1 then image == Some(Image(cache.Length * width, map[])) else image == old(image))
    {
      if !(width < wid || width == 0 || maxdepth < depth) { return 1; }
      if !first { return -1; }
      if width < wid { width := wid; }
      if maxdepth < depth { maxdepth := depth; }
      ret := FontResize(width, cache.Length, maxdepth);
      forall k | 0 <= k < cache.Length ensures Shows(k) { assert cache[k] == CLEAR; }
    }

    /** The glyph needs a wider or deeper image than there has been. */
    predicate Narrow(wid: nat, depth: nat)
      reads this
    {
      width < wid || width == 0 || maxdepth < depth
    }

    function Wider(w: nat, wid: nat): nat { if w < wid then wid else w }

    /** Puts r in slot h and has its glyph drawn there.  What is drawn is seen exactly if the slot, as far as the
        glyph goes, lies in the image. */
    method Draw(r: rune, h: nat, w: nat, bits: nat) returns (ok: bool, ghost refused: bool)
      requires Valid() && h < cache.Length && InWindow(r, h, cache.Length) && bits <= width
      modifies this`image, this`requests, cache
      ensures Valid() && requests >= old(requests) && (refused ==> !ok && Refusal(old(requests)))
      ensures forall k {:trigger cache[k]} :: 0 <= k < cache.Length ==>
                cache[k] == if k == h then Cacheinfo(r, w, old(cache[k]).age) else old(cache[k])
      ensures forall k {:trigger Shows(k)} :: 0 <= k < cache.Length && k != h && old(Shows(k)) ==> Shows(k)
      ensures ok ==> image.Some? && (Drawn(r, h) <==> h * width + bits <= image.value.wide)
      ensures requests == old(requests) + if old(image).Some? then 1 else 0
      ensures ok == (old(image).Some? && replies(old(requests))) && (refused <==> old(image).Some? && !ok)
      ensures image.Some? == old(image).Some? && (image.Some? ==> image.value.wide == old(image).value.wide)
      ensures old(Roomy()) ==> Roomy() && (ok ==> Drawn(r, h))
      ensures old(Shows(h)) && !refused && !ok ==> Shows(h)
      ensures refused ==> (Shows(h) <==> cache[h].age == 0 || Drawn(r, h))
      ensures refused ==> image == old(image)
    {
      refused := false;
      cache[h] := cache[h].(value := r, width := w);
      if image == None { return false, false; }
      ok := Ask();
      if !ok { return false, true; }
      image := Some(image.value.(drawn := image.value.drawn[h := Ink(r, h * width, bits)]));
      SlotEnds(h, cache.Length, width, bits);
    }

    /** loadchar: 1 if slot h now shows r, 0 if r is to be skipped, -1 to try again.  `first` says that the batch is
        empty. */
    method LoadChar(r: rune, h: nat, first: bool, look: nat -> Lookup)
        returns (ld: int, ghost refused: bool, ghost bits: nat)
      requires Valid() && !Spins(r, subf, look) && h < cache.Length && InWindow(r, h, cache.Length)
      modifies this`subf, this`width, this`maxdepth, this`image, this`requests, this`cache, cache
      ensures cache == old(cache) && Valid() && -1 <= ld <= 1
      ensures KeptOrWiped(old(cache[..]), h, first) && (ld == 1 ==> cache[h].value == r)
      ensures ld == 1 ==> image.Some? && bits <= width && (Drawn(r, h) <==> h * width + bits <= image.value.wide)
      ensures ld == 1 && old(Roomy()) ==> Roomy() && Drawn(r, h)
      ensures old(Roomy()) && !Roomy() ==> Refusal(old(requests))
      ensures cache[h].age <= old(cache[h].age)
      ensures ld == 1 ==> Wide(r, cache[h].width, look)
      ensures old(Widths(look)) ==> Widths(look)
      ensures forall k {:trigger Shows(k)} :: 0 <= k < cache.Length && k != h && old(Shows(k)) ==> Shows(k)
      ensures old(Shows(h)) && !refused && ld != 1 ==> Shows(h)
      ensures refused ==> ld == 0 && cache[h].value == r && (Shows(h) <==> cache[h].age == 0 || Drawn(r, h))
      ensures refused ==> Refusal(old(requests))
      ensures requests >= old(requests)
      ensures old(Ready()) && Granted(old(requests)) && Own(r, look) ==> Ready() && ld != 0 && (first ==> ld == 1)
      ensures Own(r, look) && first ==>
        Loaded(OwnGlyph(r), OwnDepth(r), old(width), old(maxdepth), old(image), old(requests), ld, refused, bits)
      ensures Own(r, look) && first ==> maxdepth >= OwnDepth(r)
      ensures Own(r, look) && !old(Narrow(OwnGlyph(r).bits, OwnDepth(r))) ==> cache[h].age == old(cache[h].age)
    {
      refused, bits := false, 0;
      var got := Seek(r, look);
      assert forall k {:trigger Shows(k)} :: 0 <= k < cache.Length && old(Shows(k)) ==> Shows(k);
      if got == Gone { return 0, false, 0; }
      if got == Retry { return -1, false, 0; }
      ld, refused, bits := LoadGlyph(r, h, first, got.glyph, sub[got.line].f.depth);
    }

    /** What loading does to the slots and the image, for whatever glyph. */
    method LoadGlyph(r: rune, h: nat, first: bool, g: Fontchar, depth: nat)
        returns (ld: int, ghost refused: bool, ghost bits: nat)
      requires Valid() && h < cache.Length && InWindow(r, h, cache.Length)
      modifies this`width, this`maxdepth, this`image, this`requests, this`cache, cache
      ensures cache == old(cache) && Valid() && -1 <= ld <= 1
      ensures KeptOrWiped(old(cache[..]), h, first) && (ld == 1 ==> cache[h].value == r)
      ensures ld == 1 ==> image.Some? && bits <= width && (Drawn(r, h) <==> h * width + bits <= image.value.wide)
      ensures ld == 1 && old(Roomy()) ==> Roomy() && Drawn(r, h)
      ensures old(Roomy()) && !Roomy() ==> Refusal(old(requests))
      ensures cache[h].age <= old(cache[h].age)
      ensures ld == 1 ==> cache[h].width == g.width
      ensures cache[h] in {old(cache[h]), CLEAR} || (cache[h].value == r && cache[h].width == g.width)
      ensures forall k {:trigger Shows(k)} :: 0 <= k < cache.Length && k != h && old(Shows(k)) ==> Shows(k)
      ensures old(Shows(h)) && !refused && ld != 1 ==> Shows(h)
      ensures refused ==> ld == 0 && cache[h].value == r && (Shows(h) <==> cache[h].age == 0 || Drawn(r, h))
      ensures refused ==> Refusal(old(requests))
      ensures requests >= old(requests)
      ensures old(Ready()) && Granted(old(requests)) ==> Ready() && ld != 0 && (first ==> ld == 1)
      ensures first ==> Loaded(g, depth, old(width), old(maxdepth), old(image), old(requests), ld, refused, bits)
      ensures !old(Narrow(g.bits, depth)) ==> cache[h].age == old(cache[h].age)
      ensures first ==> maxdepth >= depth
    {
      refused, bits := false, 0;
      ld := Fit(g.bits, depth, first);
      if ld <= 0 { return; }
      bits := g.bits;
      var ok: bool;
      ok, refused := Draw(r, h, g.width, g.bits);
      ld := if ok then 1 else 0;
    }

    function OwnGlyph(r: rune): Fontchar
      requires Find(r, 0).Some? && Glyph(Find(r, 0).value, r).Some?
    {
      Glyph(Find(r, 0).value, r).value
    }

    function OwnDepth(r: rune): nat
      requires Find(r, 0).Some?
    {
      sub[Find(r, 0).value].f.depth
    }

    /** How loading a glyph that is there goes, at the start of a batch: the width is raised before a new image is
        asked for, and stays raised if that is refused. */
    ghost predicate Loaded(g: Fontchar, depth: nat, w: nat, md: nat, im: Option<Image>, q: nat, ld: int, refused: bool,
        bits: nat)
      reads this
    {
      var need := w < g.bits || w == 0 || md < depth;
      if need && !replies(q) then ld == 0 && !refused && width == Wider(w, g.bits) && image == im && requests == q + 1
      else
        var q1 := if need then q + 1 else q;
        width == (if need && Wider(w, g.bits) == 0 then 1 else if need then Wider(w, g.bits) else w) &&
        (need ==> image.Some? && image.value.wide == cache.Length * width) &&
        (!need ==> image.Some? == im.Some? && (im.Some? ==> image.value.wide == im.value.wide)) &&
        (image.Some? ==> requests == q1 + 1 && (ld == 1 <==> replies(q1)) && (refused <==> ld != 1)) &&
        (ld == 1 ==> bits == g.bits) && (refused && !need ==> image == im)
    }

    // ----- batches

    /** A slot in r's window holds r. */
    ghost predicate Held(r: rune)
      requires Shape(cache.Length)
      reads this, cache
    {
      exists k {:trigger cache[k]} :: 0 <= k < cache.Length && InWindow(r, k, cache.Length) && cache[k].value == r &&
                                      cache[k].age > 0
    }

    /** The slot in r's window that holds r. */
    method Probe(r: rune) returns (h: Option<nat>)
      requires Valid()
      ensures h.Some? ==> h.value < cache.Length && InWindow(r, h.value, cache.Length) &&
                          cache[h.value].value == r && cache[h.value].age > 0
      ensures h == None ==> !Held(r)
    {
      var k := Hash(r, cache.Length);
      var e := k + NFLOOK;
      while k < e
        invariant Hash(r, cache.Length) <= k <= e
        invariant forall j {:trigger cache[j]} :: Hash(r, cache.Length) <= j < k ==>
                    !(cache[j].value == r && cache[j].age > 0)
      {
        if cache[k].value == r && cache[k].age > 0 { return Some(k); }
        k := k + 1;
      }
      h := None;
    }

    /** No slot in r's window is older than h. */
    ghost predicate OldestFor(r: rune, h: nat)
      requires Shape(cache.Length)
      reads this, cache
    {
      h < cache.Length && InWindow(r, h, cache.Length) &&
      forall k {:trigger cache[k]} :: 0 <= k < cache.Length && InWindow(r, k, cache.Length) ==>
        cache[h].age <= cache[k].age
    }

    /** Slot h is unused or was not used lately, unless the cache cannot grow any more. */
    ghost predicate Spare(h: nat)
      reads this, cache
    {
      h < cache.Length && (cache[h].age == 0 || age - cache[h].age >= 500 || cache.Length == MAXFCACHE)
    }

    /** The oldest slot in r's window. */
    method Oldest(r: rune) returns (h: nat)
      requires Valid()
      ensures OldestFor(r, h)
    {
      var k := Hash(r, cache.Length);
      var e := k + NFLOOK;
      h := k;
      while k < e
        invariant Hash(r, cache.Length) <= k <= e && Hash(r, cache.Length) <= h < e
        invariant forall j {:trigger cache[j]} :: Hash(r, cache.Length) <= j < k ==> cache[h].age <= cache[j].age
      {
        if cache[k].age < cache[h].age { h := k; }
        k := k + 1;
      }
    }

    /** No slot has been used at this age. */
    ghost predicate Fresh()
      reads this, cache
    {
      forall k {:trigger cache[k]} :: 0 <= k < cache.Length ==> cache[k].age < age
    }

    /** The slots hs hold the runes rs, each in its rune's window, at this age, with widths ws. */
    ghost predicate Batch(hs: seq<nat>, rs: seq<rune>, ws: seq<nat>)
      requires Valid()
      reads this, cache
    {
      |hs| == |rs| == |ws| &&
      forall j {:trigger hs[j]} :: 0 <= j < |hs| ==>
        hs[j] < cache.Length && cache[hs[j]] == Cacheinfo(rs[j], ws[j], age) && InWindow(rs[j], hs[j], cache.Length)
    }

    /** A slot for r: found, or loaded in the place of the oldest.  None is given if the batch has to be flushed.
        `bad` says that a slot now claims to show a glyph that is not to be seen in it. */
    method SlotFor(r: rune, first: bool, look: nat -> Lookup) returns (ld: int, h: nat, ghost bad: bool)
      requires Valid() && Ends(r, look)
      modifies this`subf, this`width, this`maxdepth, this`image, this`requests, this`cache, cache
      ensures Valid() && -1 <= ld <= 1 && requests >= old(requests) &&
              (cache == old(cache) || (first && ld == -1 && fresh(cache)))
      ensures !first ==> cache == old(cache)
      ensures !first ==>
                forall k {:trigger cache[k]} :: 0 <= k < cache.Length && old(cache[k]).age == age ==>
                  cache[k] == old(cache[k])
      ensures ld == 1 ==> h < cache.Length && InWindow(r, h, cache.Length) && cache[h].value == r
      ensures ld == 1 && old(Sound()) ==> (Drawn(r, h) <==> !bad)
      ensures old(Sound()) && !bad ==> Sound()
      ensures old(Sound()) && ld != 1 ==> (Sound() <==> !bad)
      ensures Excused(bad, old(Roomy()), old(requests))
      ensures old(Widths(look)) ==> Widths(look) && (ld == 1 ==> Wide(r, cache[h].width, look))
      ensures ld == 1 && !old(Held(r)) ==> old(OldestFor(r, h)) && old(Spare(h))
      ensures old(Held(r)) ==> ld == 1 && requests == old(requests) && cache[..] == old(cache[..])
      ensures old(Fresh()) ==> Fresh()
      ensures old(Ready()) && Granted(old(requests)) && Own(r, look) ==> Ready() && ld != 0
      ensures old(Ready()) && Granted(old(requests)) && Own(r, look) && old(Fresh()) && first && ld != 1 ==>
                cache.Length == 2 * (old(cache.Length) - NFLOOK) + NFLOOK
    {
      bad := false;
      var found := Probe(r);
      if found.Some? {
        h := found.value;
        assert Sound() ==> Shows(h);
        return 1, h, old(Sound()) && !Drawn(r, h);
      }
      h := Oldest(r);
      var a := cache[h].age;
      if a > 0 && age - a < 500 {
        var nc := 2 * (cache.Length - NFLOOK) + NFLOOK;
        if nc <= MAXFCACHE {
          if first { var _ := FontResize(width, nc, maxdepth); }
          return -1, h, false;
        }
      }
      if a == age { return -1, h, false; }
      ld, bad := Replace(r, h, first, look);
    }

    /** r in the place of what slot h held. */
    method Replace(r: rune, h: nat, first: bool, look: nat -> Lookup) returns (ld: int, ghost bad: bool)
      requires Valid() && Ends(r, look) && h < cache.Length && InWindow(r, h, cache.Length)
      modifies this`subf, this`width, this`maxdepth, this`image, this`requests, this`cache, cache
      ensures Valid() && -1 <= ld <= 1 && requests >= old(requests) && cache == old(cache)
      ensures KeptOrWiped(old(cache[..]), h, first) && cache[h].age <= old(cache[h].age)
      ensures ld == 1 ==> cache[h].value == r && Wide(r, cache[h].width, look)
      ensures ld == 1 && old(Sound()) ==> (Drawn(r, h) <==> !bad)
      ensures old(Sound()) && !bad ==> Sound()
      ensures old(Sound()) && ld != 1 ==> (Sound() <==> !bad)
      ensures Excused(bad, old(Roomy()), old(requests))
      ensures old(Widths(look)) ==> Widths(look)
      ensures old(Ready()) && Granted(old(requests)) && Own(r, look) ==> Ready() && ld != 0 && (first ==> ld == 1)
    {
      EndsAlways(r, subf, look);
      ghost var refused, bits;
      ld, refused, bits := LoadChar(r, h, first, look);
      bad := if ld == 1 then !Drawn(r, h) else refused && !Shows(h);
      if old(Sound()) {
        forall k | 0 <= k < cache.Length && k != h ensures Shows(k) { assert old(Shows(k)); }
        assert old(Shows(h));
      }
    }

    /** The cache while a batch grows; `unused` and `sound` say what is still known of it. */
    ghost predicate Going(hs: seq<nat>, rs: seq<rune>, ws: seq<nat>, unused: bool, sound: bool)
      reads this, cache
    {
      Valid() && Batch(hs, rs, ws) && (unused ==> Fresh()) && (sound ==> Sound())
    }

    /** The widths of the slots and of the batch are those of the runes. */
    ghost predicate Measured(rs: seq<rune>, ws: seq<nat>, look: nat -> Lookup)
      reads this, cache
    {
      Widths(look) && AllWide(rs, ws, look)
    }

    /** A request from number q on is refused. */
    ghost predicate Refusal(q: nat) { exists k {:trigger replies(k)} :: k >= q && !replies(k) }

    /** One more rune for the batch. */
    method Grow(r: rune, look: nat -> Lookup, first: bool, ghost hs: seq<nat>, ghost rs: seq<rune>, ghost ws: seq<nat>,
                ghost unused: bool, ghost sound: bool)
        returns (ld: int, h: nat, w: nat, ghost bad: bool)
      requires Ends(r, look) && Going(hs, rs, ws, unused, sound) && (first <==> hs == [])
      modifies this`subf, this`width, this`maxdepth, this`image, this`requests, this`cache, cache
      ensures -1 <= ld <= 1 && requests >= old(requests) && (cache == old(cache) || (first && ld == -1))
      ensures ld == 1 ==> Going(hs + [h], rs + [r], ws + [w], false, sound && !bad)
      ensures ld != 1 ==> Going(hs, rs, ws, unused, sound && !bad)
      ensures Excused(bad, old(Roomy()), old(requests))
      ensures sound && bad ==> !Sound()
      ensures old(Measured(rs, ws, look)) ==> Measured(rs, ws, look)
      ensures old(Measured(rs, ws, look)) && ld == 1 ==> Measured(rs + [r], ws + [w], look)
      ensures old(Ready()) && Granted(old(requests)) && Own(r, look) ==> Ready() && ld != 0
      ensures old(Ready()) && Granted(old(requests)) && Own(r, look) && unused && first && ld != 1 ==>
                cache.Length == 2 * (old(cache.Length) - NFLOOK) + NFLOOK
    {
      ld, h, bad := SlotFor(r, first, look);
      label Slot:
      w := 0;
      if ld == 1 {
        w := cache[h].width;
        if old(Measured(rs, ws, look)) { WideMore(rs, ws, r, w, look); }
        cache[h] := cache[h].(age := age);
        if sound && !bad {
          forall k | 0 <= k < cache.Length ensures Shows(k) { assert old@Slot(Shows(k)); }
        }
        if sound && bad { assert !Shows(h); }
      }
    }

    /** All runes are to be had: each has a glyph of its own, and the display grants what it is asked. */
    ghost predicate Lucky(rr: seq<rune>, look: nat -> Lookup)
      reads this
    {
      Ready() && Granted(requests) && forall k {:trigger rr[k]} :: 0 <= k < |rr| ==> Own(rr[k], look)
    }

    /**
      cachechars: slots for the first runes of rr, up to max.  Every slot given holds its rune in the rune's
      window, and is neither evicted nor wiped before the batch is whole.  If all goes well none is skipped, and a
      call that gives nothing has doubled the cache.
     */
    method CacheChars(rr: seq<rune>, cp: array<nat>, max: nat, look: nat -> Lookup)
        returns (i: nat, used: nat, wid: nat, ghost kept: seq<rune>, ghost ws: seq<nat>, ghost bad: bool)
      requires Valid() && (forall k {:trigger rr[k]} :: 0 <= k < |rr| ==> Ends(rr[k], look)) && max <= cp.Length
      modifies this`subf, this`width, this`maxdepth, this`image, this`requests, this`cache, cache, cp
      ensures Valid() && i <= max && i <= used <= |rr| && |kept| == i
      ensures Batch(cp[..i], kept, ws) && Within(kept, rr[..used]) && wid == Sum(ws)
      ensures old(Sound()) && !bad ==> Sound()
      ensures Excused(bad, old(Roomy()), old(requests))
      ensures old(Widths(look)) ==> Widths(look) && AllWide(kept, ws, look)
      ensures old(Lucky(rr, look)) ==> kept == rr[..used]
      ensures old(Lucky(rr, look)) && old(Widths(look)) ==> wid == Advance(rr[..used])
      ensures old(Lucky(rr, look)) && i == 0 && old(Fresh()) && rr != [] && max > 0 ==>
                cache.Length == 2 * (old(cache.Length) - NFLOOK) + NFLOOK
    {
      ghost var lucky, wide := Lucky(rr, look), Widths(look);
      ghost var hs;
      i, used, wid, hs, kept, ws, bad := Collect(rr, cp, max, look);
      CopiedAll(cp, i, hs);
      if lucky && wide { AdvanceIs(rr, used, ws, look); }
    }

    /** The loop of cachechars, with the slots of the batch as a sequence. */
    method Collect(rr: seq<rune>, cp: array<nat>, max: nat, look: nat -> Lookup)
        returns (i: nat, used: nat, wid: nat, ghost hs: seq<nat>, ghost kept: seq<rune>, ghost ws: seq<nat>,
                 ghost bad: bool)
      requires Valid() && (forall k {:trigger rr[k]} :: 0 <= k < |rr| ==> Ends(rr[k], look)) && max <= cp.Length
      modifies this`subf, this`width, this`maxdepth, this`image, this`requests, this`cache, cache, cp
      ensures Valid() && i <= max && Taken(rr, used, kept, i, ws, wid) && Batch(hs, kept, ws) && Copied(cp, i, hs)
      ensures old(Sound()) && !bad ==> Sound()
      ensures Excused(bad, old(Roomy()), old(requests))
      ensures old(Widths(look)) ==> Measured(kept, ws, look)
      ensures old(Lucky(rr, look)) ==> kept == rr[..used]
      ensures old(Lucky(rr, look)) && i == 0 && old(Fresh()) && rr != [] && max > 0 ==>
                cache.Length == 2 * (old(cache.Length) - NFLOOK) + NFLOOK
    {
      i, used, wid, hs, kept, ws, bad := 0, 0, 0, [], [], [], false;
      ghost var lucky, unused, sound, wide := Lucky(rr, look), Fresh(), Sound(), Widths(look);
      while used < |rr| && i < max
        invariant i <= max && cache == old(cache) && requests >= old(requests)
        invariant Taken(rr, used, kept, i, ws, wid) && Going(hs, kept, ws, unused, sound)
        invariant (old(Sound()) && !bad ==> sound) && (old(Fresh()) && i == 0 ==> unused)
        invariant Copied(cp, i, hs)
        invariant Excused(bad, old(Roomy()), old(requests))
        invariant lucky ==> Ready() && kept == rr[..used]
        invariant wide ==> Measured(kept, ws, look)
      {
        ghost var roomy, asked, no := Roomy(), requests, false;
        var r := rr[used];
        var ld, h, w;
        ld, h, w, no := Grow(r, look, i == 0, hs, kept, ws, unused, sound);
        ExcusedOn(bad, no, old(Roomy()), roomy, old(requests), asked);
        bad, sound := bad || no, sound && !no;
        if ld < 0 { break; }
        TakeMore(rr, used, kept, i, ws, wid, w);
        used := used + 1;
        if ld > 0 {
          wid := wid + w;
          cp[i] := h;
          i := i + 1;
          hs, kept, ws, unused := hs + [h], kept + [r], ws + [w], false;
        }
      }
    }

    /** The widths are those of the runes. */
    ghost predicate AllWide(rs: seq<rune>, ws: seq<nat>, look: nat -> Lookup) {
      |rs| == |ws| && forall j {:trigger ws[j]} :: 0 <= j < |ws| ==> Wide(rs[j], ws[j], look)
    }

    lemma WideMore(rs: seq<rune>, ws: seq<nat>, r: rune, w: nat, look: nat -> Lookup)
      requires AllWide(rs, ws, look) && Wide(r, w, look)
      ensures AllWide(rs + [r], ws + [w], look)
    {
    }

    /** How far the glyphs of these runes advance. */
    function Advance(rs: seq<rune>): nat {
      if rs == [] then 0
      else var g := GlyphOf(rs[|rs| - 1]); Advance(rs[..|rs| - 1]) + if g == None then 0 else g.value.width
    }

    lemma {:induction false} AdvanceIs(rr: seq<rune>, n: nat, ws: seq<nat>, look: nat -> Lookup)
      requires n <= |rr| && forall k {:trigger rr[k]} :: 0 <= k < |rr| ==> Own(rr[k], look)
      requires AllWide(rr[..n], ws, look)
      ensures Sum(ws) == Advance(rr[..n])
    {
      if n > 0 {
        assert Own(rr[n - 1], look) && Wide(rr[..n][n - 1], ws[n - 1], look);
        assert rr[..n][..n - 1] == rr[..n - 1];
        AdvanceIs(rr, n - 1, ws[..n - 1], look);
      }
    }

    /** Slots that do not show what they claim come of an image that was too narrow, or of a refusal. */
    ghost predicate Excused(bad: bool, roomy: bool, q: nat)
      reads this
    {
      (bad ==> !roomy || Refusal(q)) && (roomy ==> Roomy() || Refusal(q))
    }

    lemma ExcusedOn(bad: bool, no: bool, roomy: bool, roomyThen: bool, q: nat, asked: nat)
      requires (bad ==> !roomy || Refusal(q)) && (roomy ==> roomyThen || Refusal(q)) && Excused(no, roomyThen, asked)
      requires q <= asked
      ensures Excused(bad || no, roomy, q)
    {
      assert Refusal(asked) ==> Refusal(q);
    }

    ghost predicate Copied(cp: array<nat>, i: nat, hs: seq<nat>)
      reads cp
    {
      i == |hs| && i <= cp.Length && forall j {:trigger cp[j]} :: 0 <= j < i ==> cp[j] == hs[j]
    }

    lemma CopiedAll(cp: array<nat>, i: nat, hs: seq<nat>)
      requires Copied(cp, i, hs)
      ensures cp[..i] == hs
    {
    }

    function Aged(s: Cachesubf): Cachesubf {
      if s.age == 0 then s
      else if s.age < SUBFAGE && s.cf.Some? && s.cf.value < |sub| && sub[s.cf.value].named then NOSUBF
      else s.(age := Renormal(s.age))
    }
  }

  // ----- where it goes wrong

  const GLYPHS := seq(66, k => Fontchar(1, if k == 2 then 10 else if k == 3 then 8 else 5))
  const LINE := Cachefont(0, 65, 0, true, Subfont(66, GLYPHS, 1))

  lemma Glyphs(f: Font, r: rune, look: nat -> Lookup)
    requires f.sub == [LINE] && r <= 65 && look(0) == Present
    ensures f.Find(r, 0) == Some(0) && f.Glyph(0, r) == Some(GLYPHS[r]) && f.Own(r, look)
    ensures f.OwnGlyph(r) == GLYPHS[r] && f.OwnDepth(r) == 1 && f.Ends(r, look)
  {
    assert f.Glyph(0, r) == Some(GLYPHS[r]);
  }

  /** A wider image is refused: the width is raised, the image is not. */
  method Refused(look: nat -> Lookup) returns (f: Font)
    requires look(0) == Present
    ensures fresh(f) && fresh(f.cache) && f.Valid() && f.sub == [LINE] && f.cache.Length == 69
    ensures f.image.Some? && f.image.value.wide == 345 && f.width == 10 && f.maxdepth >= 1 && f.requests == 3
    ensures forall q {:trigger f.replies(q)} :: f.replies(q) <==> q != 2
  {
    f := new Font([LINE], q => q != 2);
    Glyphs(f, 1, look);
    Glyphs(f, 2, look);
    f.EndsAlways(1, f.subf, look);
    ghost var refused, bits;
    var ld: int;
    ld, refused, bits := f.LoadChar(1, 17, true, look);
    assert f.width == 5 && f.image.value.wide == 345 && f.requests == 2;
    f.EndsAlways(2, f.subf, look);
    ld, refused, bits := f.LoadChar(2, 34, true, look);
  }

  /** Then a narrower glyph is drawn, and granted, past the edge of the image, in a slot that was not in use. */
  method PastTheEdge(look: nat -> Lookup) returns (f: Font, ld: int)
    requires look(0) == Present
    ensures f.Valid() && ld == 1 && f.cache[51].value == 3 && !f.Drawn(3, 51)
    ensures f.image.Some? && f.image.value.wide == 345 && f.width == 10
    ensures forall q {:trigger f.replies(q)} :: f.replies(q) <==> q != 2
  {
    f := Refused(look);
    Glyphs(f, 3, look);
    f.EndsAlways(3, f.subf, look);
    ghost var refused, bits;
    ld, refused, bits := f.LoadChar(3, 51, true, look);
  }

  /** A draw into a slot in use is refused: the slot claims the new rune over the old one's glyph. */
  method ClaimedNotDrawn(look: nat -> Lookup) returns (f: Font)
    requires look(0) == Present
    ensures f.Valid() && f.cache[17].value == 65 && f.cache[17].age > 0 && f.image.Some? &&
            17 in f.image.value.drawn && f.image.value.drawn[17].value == 1 && !f.Shows(17)
    ensures forall q {:trigger f.replies(q)} :: f.replies(q) <==> q != 2
  {
    f := new Font([LINE], q => q != 2);
    Glyphs(f, 1, look);
    Glyphs(f, 65, look);
    f.EndsAlways(1, f.subf, look);
    ghost var refused, bits;
    var ld: int;
    ld, refused, bits := f.LoadChar(1, 17, true, look);
    assert ld == 1 && f.Drawn(1, 17) && f.width == 5 && f.requests == 2;
    f.cache[17] := f.cache[17].(age := f.age);
    assert f.Valid() && f.Drawn(1, 17);
    f.EndsAlways(65, f.subf, look);
    ld, refused, bits := f.LoadChar(65, 17, true, look);
  }

  const LOOPING := Cachefont(0, 10, 1, true, Subfont(0, [], 1))

  /** A line for rune 0 without a glyph for it, and an offset of 1: the search for rune 5 never ends. */
  method SearchLoops(look: nat -> Lookup) returns (f: Font)
    requires look(0) == Present
    ensures f.sub == [LOOPING] && f.SubfsOk()
    ensures forall n: nat {:trigger f.After(5, f.subf, look, n)} :: f.After(5, f.subf, look, n).Some?
  {
    f := new Font([LOOPING], _ => true);
    LoopsAgain(f, look);
    f.SpinsIff(5, f.subf, look);
  }

  lemma LoopsAgain(f: Font, look: nat -> Lookup)
    requires f.sub == [LOOPING] && f.subf != [] && look(0) == Present
    ensures f.Spins(5, f.subf, look)
  {
    assert f.Find(5, 0) == Some(0) && f.Find(PJW, 0) == Some(0);
    assert f.Glyph(0, 5) == None && f.Glyph(0, PJW) == None;
    f.AttachingGives(f.subf, 0, look);
    assert f.After(5, f.subf, look, 0) == Some((5, f.subf));
    assert f.Again(5, Present) && f.Answer(5, f.subf, look).0 == Present;
    f.AttachingGives(f.Answer(5, f.subf, look).1, 0, look);
  }
}
