// DEFLATE from the writer's side: every text written by the rules of section 3.2 of RFC 1951 is read back.
module DeflateWriter {
  import opened BitStrings
  import opened Bytes
  import opened CanonicalCode
  import opened HuftTables
  import opened Sequences
  import opened Deflate

  // ----- Codewords -----

  /** The lowest `len` bits of a number, the highest first. */
  function MsbOf(n: nat, len: nat): (s: Bits)
    ensures |s| == len
  {
    if len == 0 then [] else MsbOf(n / 2, len - 1) + [n % 2 == 1]
  }

  lemma {:induction false} MsbOfIs(n: nat, len: nat)
    requires n < Pow2(len)
    ensures Msb(MsbOf(n, len)) == n
  {
    if len > 0 {
      MsbOfIs(n / 2, len - 1);
      var s := MsbOf(n, len);
      assert s[..len - 1] == MsbOf(n / 2, len - 1) && s[len - 1] == (n % 2 == 1);
    }
  }

  /** Not more codewords than a prefix code has. */
  predicate Fits(lens: Lens) { Kraft(lens, MaxLen(lens)) <= Pow2(MaxLen(lens)) }

  lemma CodeFits(lens: Lens, v: nat)
    requires v < |lens| && lens[v] > 0 && Fits(lens)
    ensures CodeOf(lens, v) < Pow2(lens[v])
  {
    hide MaxLen, Kraft, Used, Count;
    var g, k := MaxLen(lens), lens[v];
    KraftIsUsed(lens, g);
    UsedGrows(lens, k, g);
    UsedIs(lens, k);
    RankInRange(lens, v);
    Pow2Split(k, g);
    LeadingDigit(Pow2(k), Used(lens, k), Pow2(g - k), 0);
  }

  lemma UsedIs(lens: Lens, k: nat)
    requires k > 0
    ensures Used(lens, k) == NextCode(lens, k) + Count(lens, k)
  {
  }

  /** The codeword of a symbol, the highest bit first. */
  function Codeword(lens: Lens, v: nat): (s: Bits)
    requires v < |lens|
    ensures |s| == lens[v]
  {
    MsbOf(CodeOf(lens, v), lens[v])
  }

  lemma DecodesSymbol(cs: CodeSet, v: nat, rest: Bits)
    requires WellFormed(cs) && v < |cs.lens| && cs.lens[v] > 0 && Fits(cs.lens)
    ensures DecodeFrom(cs, Codeword(cs.lens, v) + rest, 1) == SymbolFound(cs, v)
  {
    hide Fits, CodeOf, MsbOf, WellFormed, DecodeFrom, SymbolFound;
    CodeFits(cs.lens, v);
    MsbOfIs(CodeOf(cs.lens, v), cs.lens[v]);
    var s := Codeword(cs.lens, v) + rest;
    assert s[..cs.lens[v]] == Codeword(cs.lens, v);
    DecodeMatch(cs, s, v, 1);
  }

  // ----- Literals and matches -----

  /** A byte, or a copy: length symbol 257 + `l` and distance symbol `d` with their extra bits. */
  datatype Token = Literal(v: byte) | Copy(l: nat, lx: Bits, d: nat, dx: Bits)

  /** Extra bits as many as the symbols take. */
  predicate Shaped(t: Token) { t.Copy? ==> t.l < 29 && t.d < 30 && |t.lx| == CPLEXT[t.l] && |t.dx| == CPDEXT[t.d] }

  predicate AllShaped(ts: seq<Token>) { forall i :: 0 <= i < |ts| ==> Shaped(ts[i]) }

  /** Both symbols have codes. */
  predicate Writable(lit: Lens, dist: Lens, t: Token)
    requires LitLens(lit)
  {
    match t
    case Literal(v) => lit[v] > 0
    case Copy(l, lx, d, dx) =>
      Shaped(t) && 257 + l < |lit| && lit[257 + l] > 0 && d < |dist| && dist[d] > 0
  }

  function Length(t: Token): nat
    requires t.Copy? && Shaped(t)
  {
    CPLENS[t.l] + Val(t.lx)
  }

  function Distance(t: Token): nat
    requires t.Copy? && Shaped(t)
  {
    CPDIST[t.d] + Val(t.dx)
  }

  function TokenBits(lit: Lens, dist: Lens, t: Token): Bits
    requires LitLens(lit) && Writable(lit, dist, t)
  {
    match t
    case Literal(v) => Codeword(lit, v)
    case Copy(l, lx, d, dx) => Codeword(lit, 257 + l) + lx + Codeword(dist, d) + dx
  }

  predicate AllWritable(lit: Lens, dist: Lens, ts: seq<Token>)
    requires LitLens(lit)
  {
    forall i :: 0 <= i < |ts| ==> Writable(lit, dist, ts[i])
  }

  /** The data of a block, its end-of-block code included. */
  function Written(lit: Lens, dist: Lens, ts: seq<Token>): Bits
    requires LitLens(lit) && AllWritable(lit, dist, ts)
  {
    if ts == [] then Codeword(lit, 256) else TokenBits(lit, dist, ts[0]) + Written(lit, dist, ts[1..])
  }

  /** No copy reaches back before the first byte. */
  predicate Reaches(out: seq<byte>, ts: seq<Token>)
    requires AllShaped(ts)
    decreases |ts|
  {
    ts == [] || ((ts[0].Copy? ==> 1 <= Distance(ts[0]) <= |out|) && Reaches(After(out, ts[0]), ts[1..]))
  }

  function After(out: seq<byte>, t: Token): seq<byte>
    requires Shaped(t)
  {
    match t
    case Literal(v) => out + [v]
    case Copy(_, _, _, _) => if 1 <= Distance(t) <= |out| then Copied(out, Length(t), Distance(t)) else out
  }

  function Mod(j: nat, d: nat): (r: nat)
    requires d > 0
    ensures r < d
  {
    j % d
  }

  /** The last `dist` bytes over and over, up to `len` bytes. */
  function Copied(out: seq<byte>, len: nat, dist: nat): seq<byte>
    requires 1 <= dist <= |out|
  {
    out + seq(len, j requires 0 <= j < len => out[|out| - dist + Mod(j, dist)])
  }

  /** The text they stand for. */
  function Expanded(out: seq<byte>, ts: seq<Token>): seq<byte>
    requires AllShaped(ts)
    decreases |ts|
  {
    if ts == [] then out else Expanded(After(out, ts[0]), ts[1..])
  }

  lemma ModBack(x: nat, d: nat)
    requires d > 0
    ensures Mod(x, d) == if x < d then x else Mod(x - d, d)
  {
    if x >= d {
      var q, r := (x - d) / d, (x - d) % d;
      assert x - d == d * q + r;
      assert x == r + d * (q + 1);
      DivModUnique(x, q + 1, r, d);
    }
  }

  /** Copying byte by byte repeats what stands `dist` bytes back. */
  lemma {:induction false} CopyIsRepeated(out: seq<byte>, len: nat, dist: nat)
    requires 1 <= dist <= |out|
    ensures CopyMatch(out, len, dist) == Copied(out, len, dist)
  {
    hide Mod;
    if len > 0 {
      CopyIsRepeated(out, len - 1, dist);
      var r := Copied(out, len - 1, dist);
      ModBack(len - 1, dist);
      assert r[|r| - dist] == out[|out| - dist + Mod(len - 1, dist)];
      assert Copied(out, len, dist) == r + [out[|out| - dist + Mod(len - 1, dist)]];
    }
  }

  lemma EndRead(lit: Lens, dist: Lens, out: seq<byte>, rest: Bits)
    requires LitLens(lit) && FormatDistLens(dist) && Fits(lit) && lit[256] > 0
    ensures Codes(lit, dist, out, Codeword(lit, 256) + rest) == Done(out, rest, true)
  {
    hide Fits, Codeword, DecodeFrom;
    DecodesSymbol(LitSet(lit), 256, rest);
    assert (Codeword(lit, 256) + rest)[lit[256]..] == rest;
  }

  lemma LiteralRead(lit: Lens, dist: Lens, out: seq<byte>, v: byte, rest: Bits)
    requires LitLens(lit) && FormatDistLens(dist) && Fits(lit) && lit[v] > 0
    ensures Codes(lit, dist, out, Codeword(lit, v) + rest) == Codes(lit, dist, out + [v], rest)
  {
    hide Fits, Codeword, DecodeFrom;
    DecodesSymbol(LitSet(lit), v, rest);
    assert (Codeword(lit, v) + rest)[lit[v]..] == rest;
  }

  lemma LengthRead(lit: Lens, dist: Lens, out: seq<byte>, l: nat, lx: Bits, rest: Bits)
    requires LitLens(lit) && FormatDistLens(dist) && Fits(lit)
    requires l < 29 && 257 + l < |lit| && lit[257 + l] > 0 && |lx| == CPLEXT[l]
    ensures Codes(lit, dist, out, Codeword(lit, 257 + l) + (lx + rest)) == Match(lit, dist, out, CPLENS[l] + Val(lx), rest)
  {
    hide Fits, Codeword, DecodeFrom, Match, Val;
    var cs, s := LitSet(lit), Codeword(lit, 257 + l) + (lx + rest);
    DecodesSymbol(cs, 257 + l, lx + rest);
    assert Op(cs, 257 + l) == CPLEXT[l] <= 5;
    assert s[lit[257 + l]..] == lx + rest && (lx + rest)[..|lx|] == lx && (lx + rest)[|lx|..] == rest;
  }

  lemma DistanceRead(lit: Lens, dist: Lens, out: seq<byte>, len: nat, d: nat, dx: Bits, rest: Bits)
    requires LitLens(lit) && FormatDistLens(dist) && Fits(dist)
    requires d < 30 && d < |dist| && dist[d] > 0 && |dx| == CPDEXT[d] && 1 <= CPDIST[d] + Val(dx) <= |out|
    ensures Match(lit, dist, out, len, Codeword(dist, d) + (dx + rest)) ==
      Codes(lit, dist, CopyMatch(out, len, CPDIST[d] + Val(dx)), rest)
  {
    hide Fits, Codeword, DecodeFrom, Codes, Val, CopyMatch;
    var cs, s := DistSet(dist), Codeword(dist, d) + (dx + rest);
    DecodesSymbol(cs, d, dx + rest);
    assert Op(cs, d) == CPDEXT[d] <= 13 && Arg(cs, d) == CPDIST[d];
    assert s[dist[d]..] == dx + rest && (dx + rest)[..|dx|] == dx && (dx + rest)[|dx|..] == rest;
  }

  lemma Assoc(a: Bits, b: Bits, c: Bits, d: Bits, e: Bits)
    ensures a + b + c + d + e == a + (b + (c + (d + e)))
  {
  }

  lemma CopyRead(lit: Lens, dist: Lens, out: seq<byte>, l: nat, lx: Bits, d: nat, dx: Bits, rest: Bits)
    requires LitLens(lit) && FormatDistLens(dist) && Fits(lit) && Fits(dist)
    requires l < 29 && 257 + l < |lit| && lit[257 + l] > 0 && |lx| == CPLEXT[l]
    requires d < 30 && d < |dist| && dist[d] > 0 && |dx| == CPDEXT[d] && 1 <= CPDIST[d] + Val(dx) <= |out|
    ensures Codes(lit, dist, out, Codeword(lit, 257 + l) + lx + Codeword(dist, d) + dx + rest) ==
      Codes(lit, dist, Copied(out, CPLENS[l] + Val(lx), CPDIST[d] + Val(dx)), rest)
  {
    hide Fits, Codeword, DecodeFrom, Codes, Match, Val, LitLens, FormatDistLens, Copied, CopyMatch;
    Assoc(Codeword(lit, 257 + l), lx, Codeword(dist, d), dx, rest);
    LengthRead(lit, dist, out, l, lx, Codeword(dist, d) + (dx + rest));
    DistanceRead(lit, dist, out, CPLENS[l] + Val(lx), d, dx, rest);
    CopyIsRepeated(out, CPLENS[l] + Val(lx), CPDIST[d] + Val(dx));
  }

  lemma TokenRead(lit: Lens, dist: Lens, out: seq<byte>, t: Token, rest: Bits)
    requires LitLens(lit) && FormatDistLens(dist) && Fits(lit) && Fits(dist) && Shaped(t) && Writable(lit, dist, t)
    requires t.Copy? ==> 1 <= Distance(t) <= |out|
    ensures Codes(lit, dist, out, TokenBits(lit, dist, t) + rest) == Codes(lit, dist, After(out, t), rest)
  {
    hide Fits, Codeword, Codes, Val, LitLens, FormatDistLens, Copied, CPLENS, CPLEXT, CPDIST, CPDEXT;
    match t
    case Literal(v) => LiteralRead(lit, dist, out, v, rest);
    case Copy(l, lx, d, dx) => CopyRead(lit, dist, out, l, lx, d, dx, rest);
  }

  /** Lengths and distances of literal data and matches, for any codes. */
  lemma {:induction false} TokensRead(lit: Lens, dist: Lens, out: seq<byte>, ts: seq<Token>, rest: Bits)
    requires LitLens(lit) && FormatDistLens(dist) && Fits(lit) && Fits(dist) && lit[256] > 0
    requires AllWritable(lit, dist, ts) && AllShaped(ts) && Reaches(out, ts)
    ensures Codes(lit, dist, out, Written(lit, dist, ts) + rest) == Done(Expanded(out, ts), rest, true)
    decreases |ts|
  {
    hide Codes, Fits, Codeword, LitLens, FormatDistLens, TokenBits, After, Length, Distance;
    if ts == [] {
      EndRead(lit, dist, out, rest);
    } else {
      var more := Written(lit, dist, ts[1..]) + rest;
      assert Written(lit, dist, ts) + rest == TokenBits(lit, dist, ts[0]) + more;
      TokenRead(lit, dist, out, ts[0], more);
      TokensRead(lit, dist, After(out, ts[0]), ts[1..], rest);
    }
  }
}
