// The code of fixed blocks, as the table of section 3.2.6 of RFC 1951 gives it.
module FixedCode {
  import opened BitStrings
  import opened Bytes
  import opened CanonicalCode
  import opened HuftTables
  import opened Sequences
  import opened Deflate
  import opened DeflateWriter
  import opened InflateStream

  /** The table: bits and code of a literal or length. */
  function LitBits(v: nat): nat { if v < 144 then 8 else if v < 256 then 9 else if v < 280 then 7 else 8 }

  function LitCode(v: nat): nat {
    if v < 144 then 48 + v            // 00110000 to 10111111
    else if v < 256 then 400 + v - 144  // 110010000 to 111111111
    else if v < 280 then v - 256      // 0000000 to 0010111
    else 192 + v - 280                // 11000000 to 11000111
  }

  lemma {:induction false} CountRun(a: Lens, x: nat, n: nat, k: nat)
    ensures Count(a + Repeat<nat>(x, n), k) == Count(a, k) + if x == k then n else 0
  {
    if n == 0 {
      assert a + Repeat<nat>(x, 0) == a;
    } else {
      var lens := a + Repeat<nat>(x, n);
      assert lens[..|lens| - 1] == a + Repeat<nat>(x, n - 1) && lens[|lens| - 1] == x;
      CountRun(a, x, n - 1, k);
    }
  }

  /** Symbols before `v` with codes of `k` bits. */
  function Rank(v: nat, k: nat): nat {
    if k == 7 then (if v <= 256 then 0 else if v <= 280 then v - 256 else 24)
    else if k == 8 then (if v <= 144 then v else if v <= 280 then 144 else 144 + v - 280)
    else if k == 9 then (if v <= 144 then 0 else if v <= 256 then v - 144 else 112)
    else 0
  }

  lemma LitLength(v: nat)
    requires v < 288
    ensures |FixedLit()| == 288 && FixedLit()[v] == LitBits(v)
  {
  }

  lemma {:induction false} FixedCount(v: nat, k: nat)
    requires v <= 288
    ensures |FixedLit()| == 288 && Count(FixedLit()[..v], k) == Rank(v, k)
  {
    hide FixedLit;
    LitLength(0);
    if v > 0 {
      FixedCount(v - 1, k);
      LitLength(v - 1);
      assert FixedLit()[..v][..v - 1] == FixedLit()[..v - 1];
    }
  }

  lemma {:induction false} ShortCodes(k: nat)
    requires k <= 7
    ensures NextCode(FixedLit(), k) == 0
  {
    hide FixedLit;
    if k > 1 {
      ShortCodes(k - 1);
      FixedCount(288, k - 1);
      assert FixedLit()[..288] == FixedLit();
    }
  }

  /** Literals and lengths have the codes of the table. */
  lemma FixedLitCode(v: nat)
    requires v < 288
    ensures |FixedLit()| == 288 && FixedLit()[v] == LitBits(v) && CodeOf(FixedLit(), v) == LitCode(v)
  {
    hide FixedLit;
    LitLength(v);
    assert FixedLit()[..288] == FixedLit();
    ShortCodes(7);
    FixedCount(288, 7);
    FixedCount(288, 8);
    assert NextCode(FixedLit(), 8) == 48 && NextCode(FixedLit(), 9) == 400;
    FixedCount(v, LitBits(v));
  }

  lemma {:induction false} ShortDistances(k: nat)
    requires k <= 5
    ensures NextCode(FixedDist(), k) == 0
  {
    hide FixedDist;
    if k > 1 {
      ShortDistances(k - 1);
      DistCount(30, k - 1);
      assert FixedDist()[..30] == FixedDist();
    }
  }

  lemma DistCount(d: nat, k: nat)
    requires d <= 30
    ensures |FixedDist()| == 30 && Count(FixedDist()[..d], k) == if k == 5 then d else 0
  {
    hide Count;
    CountRun([], 5, d, k);
    NoneCounted(k);
    assert FixedDist()[..d] == [] + Repeat<nat>(5, d);
  }

  lemma NoneCounted(k: nat)
    ensures Count([], k) == 0
  {
  }

  /** A distance symbol is its own five bits. */
  lemma FixedDistCode(d: nat)
    requires d < 30
    ensures |FixedDist()| == 30 && FixedDist()[d] == 5 && CodeOf(FixedDist(), d) == d
  {
    ShortDistances(5);
    DistCount(d, 5);
  }

  lemma FixedFits()
    ensures Fits(FixedLit()) && Fits(FixedDist())
  {
    FixedLitComplete();
    FixedDistLeftOver();
  }

  /** The bits of a fixed block, from the table. */
  function FixedToken(t: Token): Bits
    requires Shaped(t)
  {
    match t
    case Literal(v) => MsbOf(LitCode(v), LitBits(v))
    case Copy(l, lx, d, dx) => MsbOf(LitCode(257 + l), LitBits(257 + l)) + lx + MsbOf(d, 5) + dx
  }

  function FixedBits(ts: seq<Token>): Bits
    requires AllShaped(ts)
  {
    if ts == [] then Zeros(7) else FixedToken(ts[0]) + FixedBits(ts[1..])
  }

  lemma FixedWritable(t: Token)
    requires Shaped(t)
    ensures Writable(FixedLit(), FixedDist(), t) && TokenBits(FixedLit(), FixedDist(), t) == FixedToken(t)
  {
    hide FixedLit, FixedDist, CodeOf, MsbOf;
    match t
    case Literal(v) => FixedLitCode(v);
    case Copy(l, lx, d, dx) =>
      FixedLitCode(257 + l);
      FixedDistCode(d);
  }

  lemma SevenZeros()
    ensures MsbOf(0, 7) == Zeros(7)
  {
    assert MsbOf(0, 3) == Zeros(3);
    assert MsbOf(0, 5) == Zeros(5);
  }

  lemma {:induction false} FixedWritten(ts: seq<Token>)
    requires AllShaped(ts)
    ensures AllWritable(FixedLit(), FixedDist(), ts) && Written(FixedLit(), FixedDist(), ts) == FixedBits(ts)
  {
    hide FixedLit, FixedDist, CodeOf, MsbOf, Writable, TokenBits, FixedToken, Shaped;
    forall i | 0 <= i < |ts|
      ensures Writable(FixedLit(), FixedDist(), ts[i])
    {
      FixedWritable(ts[i]);
    }
    if ts == [] {
      FixedLitCode(256);
      SevenZeros();
    } else {
      FixedWritable(ts[0]);
      FixedWritten(ts[1..]);
    }
  }

  /** Whatever literals and matches are written with the codes of the table: they are read back. */
  lemma FixedRead(out: seq<byte>, ts: seq<Token>, rest: Bits)
    requires AllShaped(ts) && Reaches(out, ts)
    ensures Codes(FixedLit(), FixedDist(), out, FixedBits(ts) + rest) == Done(Expanded(out, ts), rest, true)
  {
    hide FixedLit, FixedDist, Codes, Fits, Written, AllWritable, Reaches, Expanded, CodeOf;
    FixedWritten(ts);
    FixedFits();
    FixedLitCode(256);
    TokensRead(FixedLit(), FixedDist(), out, ts, rest);
  }
}
