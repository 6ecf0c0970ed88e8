// Fixed and dynamic blocks, and whole streams.
module InflateStream {
  import opened BitStrings
  import opened Bytes
  import opened CanonicalCode
  import opened HuftTables
  import opened Sequences
  import opened HuftCodes
  import opened Deflate
  import opened DeflateLonger
  import opened Inflater
  import opened InflateBlocks

  // ----- inflate_fixed -----

  /** The tables for fixed blocks, built when first needed. */
  class FixedTables {
    var tl: seq<Table>
    var bl: nat
    var td: seq<Table>
    var bd: nat
    ghost var sl: seq<nat>
    ghost var sd: seq<nat>

    ghost predicate Valid()
      reads this
    {
      tl != [] ==> td != [] && BothReady(FixedLit(), FixedDist(), tl, bl, sl, td, bd, sd)
    }

    constructor ()
      ensures Valid()
    {
      tl, bl, td, bd, sl, sd := [], 0, [], 0, [], [];
    }
  }

  lemma {:induction false} KraftRun(a: Lens, x: nat, n: nat, g: nat)
    requires 0 < x <= g && forall v :: 0 <= v < |a| ==> a[v] <= g
    ensures Kraft(a + Repeat<nat>(x, n), g) == Kraft(a, g) + n * Pow2(g - x)
  {
    if n == 0 {
      assert a + Repeat<nat>(x, 0) == a;
    } else {
      var lens := a + Repeat<nat>(x, n);
      assert lens[..|lens| - 1] == a + Repeat<nat>(x, n - 1) && lens[|lens| - 1] == x;
      KraftRun(a, x, n - 1, g);
      assert n * Pow2(g - x) == (n - 1) * Pow2(g - x) + Pow2(g - x);
    }
  }

  lemma MaxLenIs(lens: Lens, g: nat, v: nat)
    requires v < |lens| && lens[v] == g && forall u :: 0 <= u < |lens| ==> lens[u] <= g
    ensures MaxLen(lens) == g
  {
  }

  lemma FixedLitComplete()
    ensures MaxLen(FixedLit()) == 9 && Kraft(FixedLit(), 9) == Pow2(9)
  {
    MaxLenIs(FixedLit(), 9, 144);
    var a, b := Repeat<nat>(8, 144), Repeat<nat>(8, 144) + Repeat<nat>(9, 112);
    KraftRun([], 8, 144, 9);
    assert [] + Repeat<nat>(8, 144) == a;
    KraftRun(a, 9, 112, 9);
    KraftRun(b, 7, 24, 9);
    KraftRun(b + Repeat<nat>(7, 24), 8, 8, 9);
    SmallPowers();
  }

  lemma FixedDistLeftOver()
    ensures MaxLen(FixedDist()) == 5 && Kraft(FixedDist(), 5) == 30 < Pow2(5)
  {
    MaxLenIs(FixedDist(), 5, 0);
    KraftRun([], 5, 30, 5);
    assert [] + Repeat<nat>(5, 30) == FixedDist();
    SmallPowers();
  }

  /** Lines 719 to 752 */
  method BuildFixed(fixed: FixedTables) returns (r: nat)
    requires fixed.Valid()
    modifies fixed
    ensures r == 0 && fixed.Valid() && fixed.tl != []
  {
    hide Ready, Sound, Decodes, Modest, FixedLit, FixedDist, MaxLen, Kraft, LitSet, DistSet, EndLen;
    r := 0;
    if fixed.tl == [] {
      FixedLitComplete();
      FixedDistLeftOver();
      var tl, bl;
      ghost var sl;
      r, tl, bl, sl := HuftBuild(LitSet(FixedLit()), 7);
      if r == 0 {
        var td, bd, code;
        ghost var sd;
        code, td, bd, sd := HuftBuild(DistSet(FixedDist()), 5);
        if code <= 1 {
          BuiltTables(LitSet(FixedLit()), tl, bl, sl);
          BuiltTables(DistSet(FixedDist()), td, bd, sd);
          fixed.tl, fixed.bl, fixed.td, fixed.bd, fixed.sl, fixed.sd := tl, bl, td, bd, sl, sd;
        }
      }
    }
  }

  lemma BuiltTables(cs: CodeSet, tables: seq<Table>, root: nat, sizes: seq<nat>)
    requires WellFormed(cs) && Decodes(cs, tables, root) && Modest(cs, tables, root) && Sound(tables, sizes, root)
    ensures tables != [] && Ready(cs, tables, root, sizes)
  {
  }

  /** inflate_fixed */
  method InflateFixed(g: Decoder, fixed: FixedTables) returns (r: nat)
    requires Good(g) && fixed.Valid()
    modifies g, g.slide, fixed
    ensures r <= 1 && fixed.Valid()
    ensures r == 0 ==> Good(g) && |g.Rest()| <= |old(g.Rest())|
    ensures var o := Codes(FixedLit(), FixedDist(), old(g.Total()), old(g.Rest()));
      if r == 0 then o.Unchecked? || o == Done(g.Total(), g.Rest(), true) else Fails(o)
  {
    hide BothReady, Codes;
    r := BuildFixed(fixed);
    r := InflateCodes(g, fixed.tl, fixed.bl, fixed.td, fixed.bd, fixed.sl, fixed.sd, FixedLit(), FixedDist());
  }

  // ----- inflate_dynamic -----

  /** The lengths read (or cleared) so far: those that come before place `j`. */
  ghost predicate LengthsRead(ll: seq<nat>, s: Bits, nb: nat, j: nat) {
    && |ll| == 19
    && forall v :: 0 <= v < 19 && PLACE[v] < j ==>
        ll[v] == if PLACE[v] < nb && 3 * PLACE[v] + 3 <= |s| then Val(s[3 * PLACE[v]..3 * PLACE[v] + 3]) else 0
  }

  lemma LengthsBegin(ll: seq<nat>, s: Bits, nb: nat)
    requires |ll| == 19
    ensures LengthsRead(ll, s, nb, 0)
  {
  }

  lemma LengthsNext(ll: seq<nat>, s: Bits, nb: nat, j: nat, x: nat)
    requires j < 19 && |ll| == 19 && LengthsRead(ll, s, nb, j)
    requires x == if j < nb && 3 * j + 3 <= |s| then Val(s[3 * j..3 * j + 3]) else 0
    ensures LengthsRead(ll[Border(j) := x], s, nb, j + 1)
  {
    hide Val;
    BorderInjective(j);
  }

  lemma LengthsEnd(ll: seq<nat>, s: Bits, nb: nat)
    requires LengthsRead(ll, s, nb, 19) && nb <= 19 && 3 * nb <= |s|
    ensures ll == HeaderLens(s, nb)
  {
    hide Val;
    forall v | 0 <= v < 19
      ensures ll[v] == HeaderLen(s, nb, v)
    {
      BorderPlace(v);
    }
  }

  /** The next `n` bits of a stream that has been read up to `at`. */
  method TakeAt(g: Decoder, ghost s: Bits, ghost at: nat, n: nat) returns (ok: bool, v: nat)
    requires Good(g) && n <= 16 && at <= |s| && g.Rest() == s[at..]
    modifies g`next, g`incnt, g`bb, g`bk
    ensures ok <==> |s| >= at + n
    ensures ok ==> Good(g) && v == Val(s[at..at + n]) && g.Rest() == s[at + n..]
  {
    hide Decoder.Rest, Pow2, Val;
    ok, v := g.TakeBits(n);
    if ok {
      SliceInSlice(s, at, n);
    }
  }

  lemma SliceInSlice(s: Bits, at: nat, n: nat)
    requires at + n <= |s|
    ensures s[at..][..n] == s[at..at + n] && s[at..][n..] == s[at + n..]
  {
  }

  /** BORDER[j] */
  function Border(j: nat): (v: nat)
    requires j < 19
    ensures v < 19
  {
    BORDER[j]
  }

  /** Lines 811 to 818: the lengths of the code lengths' code. */
  method ReadHeader(g: Decoder, nb: nat) returns (ok: bool, lens: seq<nat>)
    requires Good(g) && nb <= 19
    modifies g`next, g`incnt, g`bb, g`bk
    ensures ok <==> |old(g.Rest())| >= 3 * nb
    ensures ok ==> Good(g) && g.Rest() == old(g.Rest())[3 * nb..] && lens == HeaderLens(old(g.Rest()), nb)
  {
    hide Decoder.Rest, Decoder.History, Pow2, Val, LengthsRead, HeaderLens, Border;
    ghost var s := g.Rest();
    assert s[0..] == s;
    var ll := new nat[19];
    var j := 0;
    LengthsBegin(ll[..], s, nb);
    while j < nb
      invariant 0 <= j <= nb && Good(g) && 3 * j <= |s| && g.Rest() == s[3 * j..] && LengthsRead(ll[..], s, nb, j)
    {
      var x;
      ok, x := TakeAt(g, s, 3 * j, 3);
      if !ok { return false, []; }
      LengthsNext(ll[..], s, nb, j, x);
      ll[Border(j)] := x;
      j := j + 1;
    }
    while j < 19
      invariant nb <= j <= 19 && Good(g) && 3 * nb <= |s| && g.Rest() == s[3 * nb..] && LengthsRead(ll[..], s, nb, j)
    {
      LengthsNext(ll[..], s, nb, j, 0);
      ll[Border(j)] := 0;
      j := j + 1;
    }
    LengthsEnd(ll[..], s, nb);
    ok, lens := true, ll[..];
  }

  lemma BorderInjective(j: nat)
    requires j < 19
    ensures BORDER[j] < 19 && PLACE[BORDER[j]] == j
    ensures forall v :: 0 <= v < 19 && v != BORDER[j] ==> PLACE[v] != j
  {
    BorderPlace(j);
    forall v | 0 <= v < 19 && v != BORDER[j]
      ensures PLACE[v] != j
    {
      BorderPlace(v);
    }
  }

  ghost predicate FailsLens(o: LensOutcome) {
    o.LensDone? ==> |o.rest| < SLACK
  }

  /** A code whose tables are one table: every lookup is final. */
  ghost predicate OneLevel(cs: CodeSet, tables: seq<Table>, root: nat, sizes: seq<nat>)
    requires WellFormed(cs)
  {
    && Decodes(cs, tables, root) && Sound(tables, sizes, root) && root == MaxLen(cs.lens)
    && forall i :: 0 <= i < |tables[0]| ==> tables[0][i].e <= 16 || tables[0][i].e == INVALID
  }

  /** Lines 840 to 843: the next code length symbol.  The program does not look whether the entry is invalid. */
  method NextLen(g: Decoder, tl: seq<Table>, bl: nat, ghost cl: Lens, ghost sl: seq<nat>) returns (ok: bool, j: nat)
    requires Good(g) && LengthLens(cl) && OneLevel(LengthSet(cl), tl, bl, sl)
    modifies g`next, g`incnt, g`bb, g`bk
    ensures var found := DecodeFrom(LengthSet(cl), old(g.Rest()), 1);
      if !ok then |old(g.Rest())| < SLACK
      else
        && Good(g) && |g.Rest()| < |old(g.Rest())|
        && (found.BadCode? || (found.Code? && found.arg == j && g.Rest() == old(g.Rest())[found.used..]))
  {
    hide Pow2, BitsOf, Stream, DecodeFrom, Decodes;
    ghost var s := g.Rest();
    MaxLenBound(LengthSet(cl));
    j := 0;
    ok := g.NeedBits(bl);
    if ok {
      var i := g.Peek(bl);
      WalkIndex(tl, sl, bl, 0, s);
      var x := tl[0][i];
      g.DumpBits(x.b);
      j := x.n;
      NextLenFound(cl, tl, bl, sl, s);
    }
  }

  lemma NextLenFound(cl: Lens, tl: seq<Table>, bl: nat, sl: seq<nat>, s: Bits)
    requires LengthLens(cl) && OneLevel(LengthSet(cl), tl, bl, sl) && bl <= |s|
    ensures Val(s[..bl]) < |tl[0]|
    ensures var x := tl[0][Val(s[..bl])];
      var found := DecodeFrom(LengthSet(cl), s, 1);
      0 < x.b <= bl && (found.BadCode? || found == Code(x.e, x.n, x.b))
  {
    WalkIndex(tl, sl, bl, 0, s);
  }

  lemma OneLength(cl: Lens, n: nat, have: Lens, s: Bits)
    requires LengthLens(cl) && |have| < n && forall v :: 0 <= v < |have| ==> have[v] < 16
    ensures var found := DecodeFrom(LengthSet(cl), s, 1);
      found.BadCode? ==> ReadLens(cl, n, have, s).LensUnchecked?
    ensures var found := DecodeFrom(LengthSet(cl), s, 1);
      found.Code? && found.arg < 16 ==>
        ReadLens(cl, n, have, s) == ReadLens(cl, n, have + [found.arg], s[found.used..])
    ensures var found := DecodeFrom(LengthSet(cl), s, 1);
      found.Code? && found.arg >= 16 ==>
        if found.arg == 16 && have == [] then ReadLens(cl, n, have, s).LensUnchecked?
        else ReadLens(cl, n, have, s) == ReadRun(cl, n, have, s[found.used..],
          if found.arg == 16 then have[|have| - 1] else 0, RunBits(found.arg), if found.arg < 18 then 3 else 11)
  {
  }

  function RunBits(j: nat): (bits: nat)
    ensures 0 < bits <= 7
  {
    if j == 16 then 2 else if j == 17 then 3 else 7
  }

  /** A run of lengths: lines 848 to 854, 858 to 864 and 869 to 875. */
  method PutRun(g: Decoder, n: nat, ll: array<nat>, from: nat, v: nat, bits: nat, least: nat, ghost cl: Lens)
    returns (ok: bool, i: nat)
    requires Good(g) && LengthLens(cl) && from <= n <= ll.Length && v < 16 && 0 < bits <= 7 && least > 0
    requires forall v :: 0 <= v < from ==> ll[v] < 16
    modifies g`next, g`incnt, g`bb, g`bk, ll
    ensures var o := ReadRun(cl, n, old(ll[..from]), old(g.Rest()), v, bits, least);
      if !ok then o.LensBad?
      else
        && Good(g) && |g.Rest()| <= |old(g.Rest())| && from < i <= n && ll[i - 1] == v
        && (forall v :: 0 <= v < i ==> ll[v] < 16)
        && o == ReadLens(cl, n, ll[..i], g.Rest())
  {
    hide Pow2, BitsOf, Stream, Val, ReadLens;
    ghost var have := ll[..from];
    i := from;
    var x;
    ok, x := g.TakeBits(bits);
    if !ok {
      return;
    }
    if i + (least + x) > n {
      ok := false;
      return;
    }
    Fill(ll, i, least + x, v);
    i := i + (least + x);
    assert ll[..i] == have + Repeat<nat>(v, least + x);
    assert forall k :: 0 <= k < i ==> ll[k] == ll[..i][k];
  }

  /** Lines 840 to 877, for one symbol: append one length or a run of them. */
  method ReadSome(g: Decoder, tl: seq<Table>, bl: nat, n: nat, ll: array<nat>, from: nat, last: nat,
                  ghost cl: Lens, ghost sl: seq<nat>)
    returns (ok: bool, i: nat, l: nat)
    requires Good(g) && LengthLens(cl) && OneLevel(LengthSet(cl), tl, bl, sl)
    requires from < n <= ll.Length && last < 16 && (from > 0 ==> last == ll[from - 1])
    requires forall v :: 0 <= v < from ==> ll[v] < 16
    modifies g`next, g`incnt, g`bb, g`bk, ll
    ensures var o := ReadLens(cl, n, old(ll[..from]), old(g.Rest()));
      if !ok then FailsLens(o)
      else
        && Good(g) && |g.Rest()| < |old(g.Rest())| && from <= i <= n && l < 16 && (i > 0 ==> l == ll[i - 1])
        && (forall v :: 0 <= v < i ==> ll[v] < 16)
        && (o.LensUnchecked? || o == ReadLens(cl, n, ll[..i], g.Rest()))
  {
    hide Pow2, BitsOf, Stream, DecodeFrom, Val, OneLevel, ReadLens, ReadRun;
    ghost var s, have := g.Rest(), ll[..from];
    OneLength(cl, n, have, s);
    i, l := from, last;
    var j;
    ok, j := NextLen(g, tl, bl, cl, sl);
    if !ok {
      ShortLens(cl, n, have, s);
    } else if j < 16 {
      ll[i] := j;
      i, l := i + 1, j;
      assert ll[..i] == have + [j];
    } else {
      if j != 16 { l := 0; }
      ok, i := PutRun(g, n, ll, from, l, RunBits(j), if j < 18 then 3 else 11, cl);
    }
  }

  lemma ShortLens(cl: Lens, n: nat, have: Lens, s: Bits)
    requires LengthLens(cl) && |have| <= n && (forall v :: 0 <= v < |have| ==> have[v] < 16) && |s| < SLACK
    ensures FailsLens(ReadLens(cl, n, have, s))
  {
  }

  /** while (j--) ll[i++] = v */
  method Fill(ll: array<nat>, from: nat, count: nat, v: nat)
    requires from + count <= ll.Length
    modifies ll
    ensures ll[..from + count] == old(ll[..from]) + Repeat<nat>(v, count)
  {
    var k := 0;
    while k < count
      invariant 0 <= k <= count && ll[..from + k] == old(ll[..from]) + Repeat<nat>(v, k)
    {
      ll[from + k] := v;
      k := k + 1;
      assert ll[..from + k] == ll[..from + k - 1] + [v];
    }
  }

  /** Lines 835 to 878: all code lengths. */
  method ReadAll(g: Decoder, tl: seq<Table>, bl: nat, n: nat, ghost cl: Lens, ghost sl: seq<nat>)
    returns (ok: bool, lens: seq<nat>)
    requires Good(g) && LengthLens(cl) && OneLevel(LengthSet(cl), tl, bl, sl) && n <= 286 + 30
    modifies g`next, g`incnt, g`bb, g`bk
    ensures var o := ReadLens(cl, n, [], old(g.Rest()));
      if !ok then FailsLens(o)
      else
        && Good(g) && |g.Rest()| <= |old(g.Rest())| && |lens| == n && (forall v :: 0 <= v < n ==> lens[v] < 16)
        && (o.LensUnchecked? || o == LensDone(lens, g.Rest()))
  {
    hide OneLevel;
    ghost var o := ReadLens(cl, n, [], g.Rest());
    var ll := new nat[286 + 30];
    var i, l := 0, 0;
    while i < n
      invariant 0 <= i <= n && l < 16 && (i > 0 ==> l == ll[i - 1]) && Good(g) && |g.Rest()| <= |old(g.Rest())|
      invariant forall v :: 0 <= v < i ==> ll[v] < 16
      invariant o.LensUnchecked? || o == ReadLens(cl, n, ll[..i], g.Rest())
      decreases |g.Rest()|
    {
      ok, i, l := ReadSome(g, tl, bl, n, ll, i, l, cl, sl);
      if !ok { return false, []; }
    }
    ok, lens := true, ll[..n];
  }

  lemma LensSplit(lens: Lens, nl: nat, nd: nat)
    requires 257 <= nl <= 286 && 1 <= nd <= 30 && |lens| == nl + nd && forall v :: 0 <= v < |lens| ==> lens[v] < 16
    ensures LitLens(lens[..nl]) && DistLens(lens[nl..])
  {
  }

  /** Lines 891 to 931: both tables from the code lengths, and the data. */
  method InflateWith(g: Decoder, lit: seq<nat>, dist: seq<nat>) returns (r: nat)
    requires Good(g) && LitLens(lit) && DistLens(dist)
    modifies g, g.slide
    ensures r == 0 ==> Good(g) && |g.Rest()| <= |old(g.Rest())|
    ensures var o := DynamicCodes(lit, dist, old(g.Total()), old(g.Rest()));
      if r == 0 then o.Unchecked? || o == Done(g.Total(), g.Rest(), true) else Fails(o)
  {
    hide Ready, Sound, Decodes, Modest, MaxLen, Kraft, LitSet, DistSet, EndLen, Codes, Pow2, BitsOf, Stream;
    var tl, bl, td, bd, i;
    ghost var sl, sd;
    i, tl, bl, sl := HuftBuild(LitSet(lit), 9);
    if bl == 0 { i := 1; }
    if i != 0 { return i; }
    BuiltTables(LitSet(lit), tl, bl, sl);
    i, td, bd, sd := HuftBuild(DistSet(dist), 6);
    if bd == 0 && |lit| > 257 { return 1; }
    if i != 0 { return i; }
    if bd > 0 { BuiltTables(DistSet(dist), td, bd, sd); }
    r := InflateCodes(g, tl, bl, td, bd, sl, sd, lit, dist);
  }

  /** Lines 793 to 807: the three counts of a dynamic block. */
  method ReadCounts(g: Decoder) returns (ok: bool, nl: nat, nd: nat, nb: nat)
    requires Good(g)
    modifies g`next, g`incnt, g`bb, g`bk
    ensures ok <==> |old(g.Rest())| >= 14
    ensures ok ==> var s := old(g.Rest());
      && Good(g) && g.Rest() == s[14..]
      && nl == 257 + Val(s[..5]) && nd == 1 + Val(s[5..10]) && nb == 4 + Val(s[10..14]) && nb <= 19
  {
    hide Pow2, BitsOf, Stream, Val;
    ghost var s := g.Rest();
    nl, nd, nb := 0, 0, 0;
    var x;
    ok, x := g.TakeBits(5);
    if !ok { return; }
    nl := 257 + x;
    ok, x := g.TakeBits(5);
    if !ok { return; }
    nd := 1 + x;
    ok, x := g.TakeBits(4);
    if !ok { return; }
    nb := 4 + x;
    assert s[5..][..5] == s[5..10] && s[5..][5..] == s[10..];
    assert s[10..][..4] == s[10..14] && s[10..][4..] == s[14..];
    ValBound(s[10..14]);
    SmallPowers();
  }

  /** Lines 822 to 832: the table for the code lengths' own code. */
  method LengthTables(cl: Lens) returns (i: nat, tl: seq<Table>, bl: nat, ghost sl: seq<nat>)
    requires LengthLens(cl)
    ensures i == 0 <==> Usable(cl)
    ensures i == 0 ==> OneLevel(LengthSet(cl), tl, bl, sl)
  {
    hide Decodes, Kraft, LengthSet, Sound;
    i, tl, bl, sl := HuftBuild(LengthSet(cl), 7);
    if bl == 0 { i := 1; }
  }

  /** inflate_dynamic */
  method InflateDynamic(g: Decoder) returns (r: nat)
    requires Good(g)
    modifies g, g.slide
    ensures r == 0 ==> Good(g) && |g.Rest()| <= |old(g.Rest())|
    ensures var o := Dynamic(old(g.Total()), old(g.Rest()));
      if r == 0 then o.Unchecked? || o == Done(g.Total(), g.Rest(), true) else Fails(o)
  {
    hide Pow2, BitsOf, Stream, Val, OneLevel, ReadLens, Usable, DynamicCodes, HeaderLens, LengthSet;
    ghost var s := g.Rest();
    var ok, nl, nd, nb := ReadCounts(g);
    if !ok { return 1; }
    if nl > 286 || nd > 30 {
      TooMany(old(g.Total()), s, nl, nd, nb);
      return 1;
    }
    var cl;
    ok, cl := ReadHeader(g, nb);
    if !ok { return 1; }
    assert s[14..][3 * nb..] == s[14 + 3 * nb..];
    var i, tl, bl;
    ghost var sl;
    i, tl, bl, sl := LengthTables(cl);
    if i != 0 { return i; }
    var lens;
    ok, lens := ReadAll(g, tl, bl, nl + nd, cl, sl);
    if !ok {
      ReadFails(old(g.Total()), s, nl, nd, nb, cl);
      return 1;
    }
    LensSplit(lens, nl, nd);
    r := InflateWith(g, lens[..nl], lens[nl..]);
  }

  /** A block with too many codes is refused if it is valid at all. */
  lemma TooMany(out: seq<byte>, s: Bits, nl: nat, nd: nat, nb: nat)
    requires |s| >= 14 && nl == 257 + Val(s[..5]) && nd == 1 + Val(s[5..10]) && nb == 4 + Val(s[10..14])
    requires nl > 286 || nd > 30
    ensures Dynamic(out, s).Done? ==> !Dynamic(out, s).accepted
  {
    hide Val, ReadLens, HeaderLens, Usable, Codes;
  }

  /** If the code lengths fail, so does the block. */
  lemma ReadFails(out: seq<byte>, s: Bits, nl: nat, nd: nat, nb: nat, cl: Lens)
    requires |s| >= 14 + 3 * nb && nb <= 19
    requires nl == 257 + Val(s[..5]) && nd == 1 + Val(s[5..10]) && nb == 4 + Val(s[10..14])
    requires cl == HeaderLens(s[14..], nb) && FailsLens(ReadLens(cl, nl + nd, [], s[14 + 3 * nb..]))
    ensures Fails(Dynamic(out, s))
  {
    hide Pow2, Val, BitsOf, ReadLens, HeaderLens, DynamicCodes, Usable, Kraft, MaxLen;
  }

  // ----- Blocks and streams -----

  /** inflate_block: one block, and whether it is the last. */
  method InflateBlock(g: Decoder, fixed: FixedTables) returns (r: nat, e: bool)
    requires Good(g) && fixed.Valid()
    modifies g, g.slide, fixed
    ensures fixed.Valid()
    ensures r == 0 ==> Good(g) && |g.Rest()| < |old(g.Rest())|
    ensures var s := old(g.Rest());
      if |s| < 3 then r != 0
      else
        var o := Block(Val(s[1..3]), old(g.Total()), s[3..]);
        if r == 0 then e == s[0] && (o.Unchecked? || o == Done(g.Total(), g.Rest(), true)) else Fails(o)
  {
    hide Pow2, BitsOf, Stream, Codes, Dynamic, Stored;
    ghost var s := g.Rest();
    e := false;
    var ok, x := g.TakeBits(1);
    if !ok { return 1, false; }
    e := x == 1;
    FirstBit(s);
    var t;
    ok, t := g.TakeBits(2);
    if !ok { return 1, e; }
    assert s[1..][..2] == s[1..3] && s[1..][2..] == s[3..];
    if t == 2 {
      r := InflateDynamic(g);
    } else if t == 0 {
      r := InflateStored(g);
    } else if t == 1 {
      r := InflateFixed(g, fixed);
    } else {
      r := 2;
    }
  }

  lemma FirstBit(s: Bits)
    ensures |s| > 0 ==> (Val(s[..1]) == 1 <==> s[0])
  {
    if |s| > 0 { assert s[..1][1..] == []; }
  }

  /** inflate: all blocks, and the last flush. */
  method Inflate(g: Decoder, fixed: FixedTables) returns (r: nat)
    requires Good(g) && fixed.Valid()
    modifies g, g.slide, fixed
    ensures fixed.Valid()
    ensures var o := Blocks(old(g.Total()), old(g.Rest()));
      if r == 0 then o.Unchecked? || (o.Done? && o.accepted && g.out == o.out) else Fails(o)
  {
    hide Block, Pow2, BitsOf, Stream, Val;
    ghost var o := Blocks(g.Total(), g.Rest());
    var e := false;
    while !e
      invariant Good(g) && fixed.Valid()
      invariant o.Unchecked? || (if e then o == Done(g.Total(), g.Rest(), true) else o == Blocks(g.Total(), g.Rest()))
      decreases !e, |g.Rest()|
    {
      r, e := InflateBlock(g, fixed);
      if r != 0 { return; }
    }
    g.out := g.out + g.slide[..g.wp];
    r := 0;
  }

  /** DecompressDeflatedData: the bytes in `data`, with whatever byte follows them in memory.  The result
      is 0 on failure, else the size of the output.  A valid stream that ends within `data` is decompressed exactly if
      none of its blocks is refused; and whatever is accepted is what the format says, unless the stream is invalid in
      a way the program does not check. */
  method DecompressDeflatedData(data: seq<byte>, after: byte) returns (size: nat, out: seq<byte>)
    ensures var o := Blocks([], Stream(data));
      o.Done? ==> if o.accepted then out == o.out && size == |out| else size == 0
    ensures var o := Blocks([], Stream(data + [after]));
      size > 0 ==> o.Unchecked? || (o.Done? && out == o.out && size == |out|)
  {
    hide Blocks, Stream;
    var g := new Decoder(data, after);
    var fixed := new FixedTables();
    var r := Inflate(g, fixed);
    if Blocks([], Stream(data)).Done? { StreamThenByte(data, after); }
    if r != 0 {
      return 0, [];
    }
    size, out := |g.out|, g.out;
  }
}
