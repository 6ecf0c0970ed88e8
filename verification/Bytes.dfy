// Bytes and the bit strings they stand for in a DEFLATE stream.
module Bytes {
  import opened BitStrings

  type byte = x: int | 0 <= x < 256 witness 0

  /** The bits of a byte sequence, lowest bit of each byte first (section 3.1.1 of RFC 1951). */
  function Stream(data: seq<byte>): Bits {
    if data == [] then [] else BitsOf(data[0], 8) + Stream(data[1..])
  }

  lemma {:induction false} StreamLength(data: seq<byte>)
    ensures |Stream(data)| == 8 * |data|
  {
    if data != [] {
      StreamLength(data[1..]);
    }
  }

  lemma Pow2Eight()
    ensures Pow2(8) == 256
  {
    assert Pow2(4) == 16;
    Pow2Add(4, 4);
  }

  lemma NonNegative(a: nat, b: nat)
    requires b > 0
    ensures a / b >= 0
  {
  }

  /** v >> m */
  function Shr(v: nat, m: nat): nat {
    NonNegative(v, Pow2(m));
    v / Pow2(m)
  }

  /** Reading a number in two parts. */
  lemma {:induction false} BitsOfSplit(v: nat, m: nat, n: nat)
    ensures BitsOf(v, m + n) == BitsOf(v, m) + BitsOf(Shr(v, m), n)
  {
    if m > 0 {
      BitsOfSplit(v / 2, m - 1, n);
      DivDiv(v, m);
    }
  }

  lemma DivDiv(v: nat, m: nat)
    requires m > 0
    ensures v / Pow2(m) == (v / 2) / Pow2(m - 1)
  {
    var p := Pow2(m - 1);
    var q := (v / 2) / p;
    var r := (v / 2) % p;
    assert v / 2 == p * q + r;
    MulTwice(p, q);
    DivModUnique(v, q, 2 * r + v % 2, Pow2(m));
  }

  /** Bits above the ones taken do not matter. */
  lemma {:induction false} BitsOfLow(v: nat, x: nat, m: nat)
    ensures BitsOf(v + Pow2(m) * x, m) == BitsOf(v, m)
  {
    if m > 0 {
      MulTwice(Pow2(m - 1), x);
      assert Pow2(m) * x == 2 * (Pow2(m - 1) * x);
      assert (v + Pow2(m) * x) / 2 == v / 2 + Pow2(m - 1) * x;
      BitsOfLow(v / 2, x, m - 1);
    }
  }

  /** The bit buffer after a byte has been put above its `k` bits. */
  lemma AppendByte(b: nat, k: nat, x: byte)
    requires b < Pow2(k)
    ensures BitsOf(b + Pow2(k) * x, k + 8) == BitsOf(b, k) + BitsOf(x, 8)
    ensures b + Pow2(k) * x < Pow2(k + 8)
  {
    hide BitsOf, Pow2;
    BitsOfSplit(b + Pow2(k) * x, k, 8);
    BitsOfLow(b, x, k);
    DivModUnique(b + Pow2(k) * x, x, b, Pow2(k));
    Pow2Add(k, 8);
    Pow2Eight();
    MulMono(Pow2(k), x, 256);
  }

  /** Taking bits off the bit buffer. */
  lemma DropBits(b: nat, k: nat, n: nat)
    requires b < Pow2(k) && n <= k
    ensures BitsOf(b, k)[n..] == BitsOf(Shr(b, n), k - n) && Shr(b, n) < Pow2(k - n)
    ensures Val(BitsOf(b, k)[..n]) == b % Pow2(n)
  {
    BitsOfSplit(b, n, k - n);
    BitsOfVal(b, k);
    ValSplit(BitsOf(b, k), n);
    ValBound(BitsOf(b, k)[n..]);
  }

  /** Bits as bytes; the inverse of Stream. */
  function Pack(s: Bits): seq<byte> {
    if |s| < 8 then [] else [Val(s[..8]) % 256] + Pack(s[8..])
  }

  lemma PackFirst(s: Bits)
    requires |s| >= 8
    ensures Pack(s) == [Val(s[..8]) % 256] + Pack(s[8..]) && Val(s[..8]) < 256 && BitsOf(Val(s[..8]), 8) == s[..8]
  {
    hide Val, BitsOf;
    ValBound(s[..8]);
    Pow2Eight();
    ValBits(s[..8]);
  }

  lemma StreamFirst(x: byte, data: seq<byte>)
    ensures Stream([x] + data) == BitsOf(x, 8) + Stream(data)
  {
    hide BitsOf;
    assert ([x] + data)[1..] == data;
  }

  lemma {:induction false} StreamPack(s: Bits)
    requires |s| % 8 == 0
    ensures Stream(Pack(s)) == s
  {
    hide Val, BitsOf;
    if s != [] {
      PackFirst(s);
      StreamFirst(Val(s[..8]), Pack(s[8..]));
      StreamPack(s[8..]);
      assert s == s[..8] + s[8..];
    }
  }

  lemma ValBits(q: Bits)
    ensures BitsOf(Val(q), |q|) == q
  {
    ValBound(q);
    BitsOfVal(Val(q), |q|);
    ValInjective(BitsOf(Val(q), |q|), q);
  }
}
