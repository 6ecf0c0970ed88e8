// The blocks of a DEFLATE stream as Inflate.c decodes them, against the format read bit by bit.
module InflateBlocks {
  import opened BitStrings
  import opened Bytes
  import opened CanonicalCode
  import opened HuftTables
  import opened HuftCodes
  import opened Deflate
  import opened Inflater

  /** The decoder may look at a few more bits than a stream has: this many behind it suffice, and
      that is what the byte after the input provides. */
  const SLACK: nat := 8

  // ----- One lookup -----

  lemma {:induction false} WalkExtend(tables: seq<Table>, sizes: seq<nat>, root: nat, t: nat, bits: nat, s: Bits, r: Bits)
    requires Sound(tables, sizes, root) && t < |tables| && bits == sizes[t] && Walk(tables, t, bits, s).Code?
    ensures Walk(tables, t, bits, s + r) == Walk(tables, t, bits, s)
    ensures 0 < Walk(tables, t, bits, s).used <= |s|
    decreases |s|
  {
    assert (s + r)[..bits] == s[..bits];
    WalkIndex(tables, sizes, root, t, s);
    var x := tables[t][Val(s[..bits])];
    if x.e > 16 {
      assert (s + r)[x.b..] == s[x.b..] + r;
      WalkExtend(tables, sizes, root, x.t, x.e - 16, s[x.b..], r);
    }
  }

  lemma {:induction false} DecodeShort(cs: CodeSet, s: Bits, r: Bits, k: nat)
    requires WellFormed(cs) && k > 0
    requires var found := DecodeFrom(cs, s + r, k); found.Code? && found.used <= |s|
    ensures DecodeFrom(cs, s, k) == DecodeFrom(cs, s + r, k)
    decreases |s| + 1 - k
  {
    assert (s + r)[..k] == s[..k];
    var m := Msb(s[..k]) - NextCode(cs.lens, k);
    if !(0 <= m < Count(cs.lens, k)) {
      DecodeShort(cs, s, r, k + 1);
    }
  }

  /** What the tables find is what the canonical decoder finds; and they find it when enough bits follow
      or when it is the end of the block. */
  lemma LookupAgrees(cs: CodeSet, tables: seq<Table>, sizes: seq<nat>, root: nat, s: Bits)
    requires WellFormed(cs) && Decodes(cs, tables, root) && Modest(cs, tables, root) && Sound(tables, sizes, root)
    ensures Walk(tables, 0, root, s).Code? ==> DecodeFrom(cs, s, 1) == Walk(tables, 0, root, s)
    ensures LongEnough(cs, s) ==> DecodeFrom(cs, s, 1) == Walk(tables, 0, root, s)
    ensures IsEnd(cs, s) ==> DecodeFrom(cs, s, 1) == Walk(tables, 0, root, s)
  {
    if Walk(tables, 0, root, s).Code? {
      MaxLenBound(cs);
      WalkExtend(tables, sizes, root, 0, root, s, Zeros(BMAX));
      DecodeShort(cs, s, Zeros(BMAX), 1);
    } else if IsEnd(cs, s) {
      EndFound(cs, tables, sizes, root, s);
    }
  }

  /** The next symbol is the end of the block. */
  ghost predicate IsEnd(cs: CodeSet, s: Bits)
    requires WellFormed(cs)
  {
    cs.s == 257 && DecodeFrom(cs, s, 1).Code? && DecodeFrom(cs, s, 1).op == 15
  }

  lemma MatchesPrefix(lens: Lens, v: nat, s: Bits)
    requires Matches(lens, v, s)
    ensures Matches(lens, v, s[..lens[v]])
  {
    assert s[..lens[v]][..lens[v]] == s[..lens[v]];
  }

  lemma OnlyEnd(cs: CodeSet, v: nat)
    requires WellFormed(cs) && cs.s == 257 && v < |cs.lens| && Op(cs, v) == 15
    ensures v == 256
  {
  }

  lemma EndFound(cs: CodeSet, tables: seq<Table>, sizes: seq<nat>, root: nat, s: Bits)
    requires WellFormed(cs) && Decodes(cs, tables, root) && Sound(tables, sizes, root) && IsEnd(cs, s)
    ensures Walk(tables, 0, root, s).Code?
  {
    hide Matches, DecodeFrom, Walk, WellFormed;
    var v := FoundSymbol(cs, s, 1);
    OnlyEnd(cs, v);
    EndCode(cs, s);
    var n := cs.lens[256];
    MatchesPrefix(cs.lens, 256, s);
    WalkExtend(tables, sizes, root, 0, root, s[..n], s[n..]);
    assert s[..n] + s[n..] == s;
  }

  lemma EndCode(cs: CodeSet, s: Bits)
    requires Matches(cs.lens, 256, s)
    ensures 256 < |cs.lens| && cs.lens[256] <= |s|
  {
  }

  lemma MaxLenBound(cs: CodeSet)
    requires WellFormed(cs)
    ensures MaxLen(cs.lens) <= BMAX
    ensures (forall v :: 0 <= v < |cs.lens| ==> cs.lens[v] < 8) ==> MaxLen(cs.lens) < 8
  {
  }

  lemma {:induction false} FoundSymbol(cs: CodeSet, s: Bits, k: nat) returns (v: nat)
    requires WellFormed(cs) && k > 0 && DecodeFrom(cs, s, k).Code?
    ensures v < |cs.lens| && Op(cs, v) != INVALID && DecodeFrom(cs, s, k) == SymbolFound(cs, v)
    ensures Matches(cs.lens, v, s)
    decreases |s| + 1 - k
  {
    var r := Msb(s[..k]) - NextCode(cs.lens, k);
    if 0 <= r < Count(cs.lens, k) {
      v := Sym(cs.lens, k, r);
      SymMatches(cs.lens, s, k, r);
    } else {
      v := FoundSymbol(cs, s, k + 1);
    }
  }

  lemma LengthEntry(i: nat)
    requires i < 31
    ensures CPLEXT[i] != INVALID ==> CPLEXT[i] <= 5 && CPLENS[i] >= 3
  {
  }

  lemma DistanceEntry(i: nat)
    requires i < 30
    ensures CPDEXT[i] <= 13 && 1 <= CPDIST[i] && CPDIST[i] + Pow2(CPDEXT[i]) <= WSIZE + 1
  {
    if i < 29 { DistanceTable(i); }
    SmallPowers();
  }

  lemma LitSymbol(lens: Lens, v: nat)
    requires LitLens(lens) && v < |lens|
    ensures var op := Op(LitSet(lens), v);
      op == INVALID || op == 15 || op == 16 || (op <= 5 && Arg(LitSet(lens), v) >= 3 && |lens| > 257)
  {
    if v >= 257 { LengthEntry(v - 257); }
  }

  lemma DistSymbol(lens: Lens, v: nat)
    requires DistLens(lens) && v < |lens|
    ensures var op := Op(DistSet(lens), v);
      op <= 13 && 1 <= Arg(DistSet(lens), v) && Arg(DistSet(lens), v) + Pow2(op) <= WSIZE + 1
  {
    hide Pow2;
    DistanceEntry(v);
    assert Op(DistSet(lens), v) == CPDEXT[v] && Arg(DistSet(lens), v) == CPDIST[v];
  }

  /** What a literal/length symbol can be. */
  lemma LitFound(lens: Lens, s: Bits)
    requires LitLens(lens) && DecodeFrom(LitSet(lens), s, 1).Code?
    ensures var found := DecodeFrom(LitSet(lens), s, 1);
      found.op >= 15 || (found.op <= 5 && found.arg >= 3 && |lens| > 257)
    ensures DecodeFrom(LitSet(lens), s, 1).op <= 16
  {
    hide LitSet, DecodeFrom;
    var v := FoundSymbol(LitSet(lens), s, 1);
    LitSymbol(lens, v);
  }

  lemma DistFound(lens: Lens, s: Bits)
    requires DistLens(lens) && DecodeFrom(DistSet(lens), s, 1).Code?
    ensures var found := DecodeFrom(DistSet(lens), s, 1);
      found.op <= 13 && 1 <= found.arg && found.arg + Pow2(found.op) <= WSIZE + 1
  {
    hide DistSet, DecodeFrom, Pow2;
    var v := FoundSymbol(DistSet(lens), s, 1);
    DistSymbol(lens, v);
  }

  // ----- inflate_codes -----

  /** Tables made by huft_build for a code. */
  ghost predicate Ready(cs: CodeSet, tables: seq<Table>, root: nat, sizes: seq<nat>)
    requires WellFormed(cs)
  {
    Decodes(cs, tables, root) && Modest(cs, tables, root) && Sound(tables, sizes, root)
  }

  /** Tables for both codes; there need be none for distances if there are no length symbols. */
  ghost predicate BothReady(lit: Lens, dist: Lens, tl: seq<Table>, bl: nat, sl: seq<nat>, td: seq<Table>, bd: nat, sd: seq<nat>)
    requires LitLens(lit) && DistLens(dist)
  {
    && Ready(LitSet(lit), tl, bl, sl)
    && (if td == [] then |lit| == 257 else Ready(DistSet(dist), td, bd, sd))
  }

  /** `r` says how a piece of decoding ended: 0 only where the format leads on, and not 0 only where the format
      finds no block end with enough bits behind it, or a block that is refused. */
  ghost predicate Fails(o: Outcome) {
    o.Done? && o.accepted ==> |o.rest| < SLACK
  }

  ghost predicate Good(g: Decoder)
    reads g, g.slide
  {
    g.BitsOk() && g.WindowOk() && g.wp < WSIZE
  }

  /** Lines 587 to 630: the distance of a match, and the match. */
  method InflateMatch(g: Decoder, td: seq<Table>, bd: nat, len: nat, ghost sd: seq<nat>, ghost lit: Lens, ghost dist: Lens)
    returns (r: nat)
    requires Good(g) && LitLens(lit) && DistLens(dist) && Ready(DistSet(dist), td, bd, sd) && len >= 1
    modifies g, g.slide
    ensures r <= 1
    ensures r == 0 ==> Good(g) && |g.Rest()| <= |old(g.Rest())|
    ensures var o := Match(lit, dist, old(g.Total()), len, old(g.Rest()));
      if r == 0 then o.Unchecked? || o == Codes(lit, dist, g.Total(), g.Rest()) else Fails(o)
  {
    hide Ready, Sound, Decodes, Walk, LitSet, DistSet, DecodeFrom, Val, Pow2, BitsOf, Stream;
    ghost var s, out := g.Rest(), g.Total();
    ReadyAgrees(DistSet(dist), td, bd, sd, s);
    if !Fails(Match(lit, dist, out, len, s)) { MatchNeeds(lit, dist, out, len, s); }
    var ok, op, arg := g.Lookup(td, bd, sd);
    if !ok { return 1; }
    DistFound(dist, s);
    var x;
    ok, x := g.TakeBits(op);
    if !ok { return 1; }
    ghost var d := arg + x;
    ValBound(old(g.Rest())[DecodeFrom(DistSet(dist), s, 1).used..][..op]);
    g.WriteMatch(len, arg + x);
    r := 0;
  }

  /** Every symbol but the last is followed by an end-of-block code, so by enough bits. */
  lemma MatchNeeds(lit: Lens, dist: Lens, out: seq<byte>, len: nat, s: Bits)
    requires LitLens(lit) && DistLens(dist) && !Fails(Match(lit, dist, out, len, s))
    ensures LongEnough(DistSet(dist), s)
  {
    hide DecodeFrom, Val, LitSet, DistSet;
  }

  lemma CodesNeed(lit: Lens, dist: Lens, out: seq<byte>, s: Bits)
    requires LitLens(lit) && DistLens(dist) && !Fails(Codes(lit, dist, out, s))
    ensures LongEnough(LitSet(lit), s) || IsEnd(LitSet(lit), s)
  {
    hide DecodeFrom, Val, LitSet, DistSet;
  }

  lemma ReadyAgrees(cs: CodeSet, tables: seq<Table>, root: nat, sizes: seq<nat>, s: Bits)
    requires WellFormed(cs) && Ready(cs, tables, root, sizes)
    ensures Sound(tables, sizes, root)
    ensures Walk(tables, 0, root, s).Code? ==> DecodeFrom(cs, s, 1) == Walk(tables, 0, root, s)
    ensures LongEnough(cs, s) || IsEnd(cs, s) ==> DecodeFrom(cs, s, 1) == Walk(tables, 0, root, s)
  {
    LookupAgrees(cs, tables, sizes, root, s);
  }

  /** Lines 556 to 630: one symbol of compressed data. */
  method InflateSymbol(g: Decoder, tl: seq<Table>, bl: nat, td: seq<Table>, bd: nat,
                       ghost sl: seq<nat>, ghost sd: seq<nat>, ghost lit: Lens, ghost dist: Lens)
    returns (r: nat, end: bool)
    requires Good(g) && LitLens(lit) && DistLens(dist) && BothReady(lit, dist, tl, bl, sl, td, bd, sd)
    modifies g, g.slide
    ensures r <= 1
    ensures r == 0 ==> Good(g) && |g.Rest()| < |old(g.Rest())|
    ensures var o := Codes(lit, dist, old(g.Total()), old(g.Rest()));
      if r != 0 then Fails(o)
      else if end then o == Done(g.Total(), g.Rest(), true)
      else o.Unchecked? || o == Codes(lit, dist, g.Total(), g.Rest())
  {
    hide Ready, Sound, Decodes, Walk, LitSet, DistSet, DecodeFrom, Val, Pow2, BitsOf, Stream;
    ghost var s := g.Rest();
    end := false;
    ReadyAgrees(LitSet(lit), tl, bl, sl, s);
    if !Fails(Codes(lit, dist, g.Total(), s)) { CodesNeed(lit, dist, g.Total(), s); }
    var ok, op, arg := g.Lookup(tl, bl, sl);
    if !ok { return 1, false; }
    LitFound(lit, s);
    if op == 16 {
      g.WriteByte(arg % 256);
      r := 0;
    } else if op == 15 {
      r, end := 0, true;
    } else {
      var x;
      ok, x := g.TakeBits(op);
      if !ok { return 1, false; }
      r := InflateMatch(g, td, bd, arg + x, sd, lit, dist);
    }
  }

  /** inflate_codes: symbols until the end-of-block code. */
  method InflateCodes(g: Decoder, tl: seq<Table>, bl: nat, td: seq<Table>, bd: nat,
                      ghost sl: seq<nat>, ghost sd: seq<nat>, ghost lit: Lens, ghost dist: Lens)
    returns (r: nat)
    requires Good(g) && LitLens(lit) && DistLens(dist) && BothReady(lit, dist, tl, bl, sl, td, bd, sd)
    modifies g, g.slide
    ensures r <= 1
    ensures r == 0 ==> Good(g) && |g.Rest()| <= |old(g.Rest())|
    ensures var o := Codes(lit, dist, old(g.Total()), old(g.Rest()));
      if r == 0 then o.Unchecked? || o == Done(g.Total(), g.Rest(), true) else Fails(o)
  {
    hide BothReady, Codes;
    ghost var o := Codes(lit, dist, g.Total(), g.Rest());
    while true
      invariant Good(g) && |g.Rest()| <= |old(g.Rest())|
      invariant o.Unchecked? || o == Codes(lit, dist, g.Total(), g.Rest())
      decreases |g.Rest()|
    {
      var end;
      r, end := InflateSymbol(g, tl, bl, td, bd, sl, sd, lit, dist);
      if r != 0 || end {
        return;
      }
    }
  }

  // ----- inflate_stored -----

  lemma {:induction false} TakeBytesStep(s: Bits, n: nat)
    requires 8 * (n + 1) <= |s|
    ensures TakeBytes(s, n + 1) == TakeBytes(s, n) + [Val(s[8 * n..8 * n + 8]) % 256]
  {
    if n > 0 {
      TakeBytesStep(s[8..], n - 1);
      assert s[8..][8 * (n - 1)..8 * (n - 1) + 8] == s[8 * n..8 * n + 8];
    }
  }

  lemma BufferAlignment(g: Decoder)
    requires g.BitsOk()
    ensures |g.Rest()| % 8 == g.bk % 8 && g.bk <= |g.Rest()|
  {
    StreamLength(g.input[g.next..]);
  }

  /** Lines 672 to 678: the length of a stored block, and its complement. */
  method StoredLength(g: Decoder) returns (ok: bool, n: nat)
    requires Good(g)
    modifies g`next, g`incnt, g`bb, g`bk
    ensures ok <==> var s := old(g.Rest()); |s| >= 32 && Val(s[16..32]) == 65535 - Val(s[..16])
    ensures ok ==> Good(g) && g.Rest() == old(g.Rest())[32..] && n == Val(old(g.Rest())[..16])
  {
    hide Decoder.Rest, Decoder.Total, Pow2, BitsOf, Stream, Val;
    ghost var s := g.Rest();
    ok, n := g.TakeBits(16);
    if !ok { return; }
    var c;
    ok, c := g.TakeBits(16);
    if !ok { return; }
    assert s[16..][..16] == s[16..32] && s[16..][16..] == s[32..];
    SixteenBits(s[..16]);
    SixteenBits(s[16..32]);
    ok := n == 65535 - c;
  }

  lemma SixteenBits(s: Bits)
    requires |s| == 16
    ensures Val(s) <= 65535
  {
    ValBound(s);
    SmallPowers();
  }

  /** inflate_stored */
  method InflateStored(g: Decoder) returns (r: nat)
    requires Good(g)
    modifies g, g.slide
    ensures r <= 1
    ensures r == 0 ==> Good(g) && |g.Rest()| <= |old(g.Rest())|
    ensures var o := Stored(old(g.Total()), old(g.Rest()));
      if r == 0 then o == Done(g.Total(), g.Rest(), true) else o.Bad?
  {
    hide Pow2, BitsOf, Stream, Val, TakeBytes, Stored;
    BufferAlignment(g);
    g.DumpBits(g.bk % 8);
    StoredShort(old(g.Total()), old(g.Rest()));
    var ok, n := StoredLength(g);
    if !ok { return 1; }
    r := CopyStored(g, n);
    StoredOutcome(old(g.Total()), old(g.Rest()), n);
  }

  lemma StoredShort(out: seq<byte>, s: Bits)
    ensures |s[|s| % 8..]| < 32 ==> Stored(out, s).Bad?
    ensures var s1 := s[|s| % 8..]; |s1| >= 32 && Val(s1[16..32]) != 65535 - Val(s1[..16]) ==> Stored(out, s).Bad?
  {
  }

  lemma StoredOutcome(out: seq<byte>, s: Bits, n: nat)
    requires var s1 := s[|s| % 8..]; |s1| >= 32 && n == Val(s1[..16]) && Val(s1[16..32]) == 65535 - n
    ensures var s2 := s[|s| % 8..][32..];
      if |s2| < 8 * n then Stored(out, s).Bad? else Stored(out, s) == Done(out + TakeBytes(s2, n), s2[8 * n..], true)
  {
    var s1 := s[|s| % 8..];
    if |s1| >= 32 + 8 * n { assert s1[32..][8 * n..] == s1[32 + 8 * n..]; }
  }

  /** Lines 681 to 692: `count` bytes as they are. */
  method CopyStored(g: Decoder, count: nat) returns (r: nat)
    requires Good(g)
    modifies g, g.slide
    ensures r <= 1 && (r == 0 <==> |old(g.Rest())| >= 8 * count)
    ensures r == 0 ==> Good(g) && g.Rest() == old(g.Rest())[8 * count..]
    ensures r == 0 ==> g.Total() == old(g.Total()) + TakeBytes(old(g.Rest()), count)
  {
    hide Pow2, BitsOf, Stream, Val;
    ghost var s, out := g.Rest(), g.Total();
    var k := 0;
    while k < count
      invariant 0 <= k <= count && Good(g) && 8 * k <= |s|
      invariant g.Rest() == s[8 * k..] && g.Total() == out + TakeBytes(s, k)
    {
      var ok, c := g.TakeBits(8);
      if !ok { return 1; }
      TakeBytesStep(s, k);
      assert s[8 * k..][..8] == s[8 * k..8 * k + 8];
      assert s[8 * k..][8..] == s[8 * (k + 1)..];
      g.WriteByte(c % 256);
      k := k + 1;
    }
    r := 0;
  }
}
