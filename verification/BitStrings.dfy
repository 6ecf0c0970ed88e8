// Bit strings in stream order (the first bit read comes first) and the two numbers they denote:
// Val, as in the bit buffer and the table indices (first bit lowest), and Msb, as in the code
// numbers of RFC 1951 (first bit highest).
module BitStrings {
  type Bits = seq<bool>

  function Pow2(n: nat): (r: nat)
    ensures r > 0
  {
    if n == 0 then 1 else 2 * Pow2(n - 1)
  }

  function Bit(b: bool): nat { if b then 1 else 0 }

  function Val(s: Bits): nat {
    if s == [] then 0 else Bit(s[0]) + 2 * Val(s[1..])
  }

  function Msb(s: Bits): nat {
    if s == [] then 0 else 2 * Msb(s[..|s| - 1]) + Bit(s[|s| - 1])
  }

  function Zeros(n: nat): Bits { seq(n, i => false) }

  lemma {:induction false} Pow2Add(m: nat, n: nat)
    ensures Pow2(m + n) == Pow2(m) * Pow2(n)
  {
    if m > 0 {
      Pow2Add(m - 1, n);
      MulTwice(Pow2(m - 1), Pow2(n));
    }
  }

  lemma Pow2Split(m: nat, n: nat)
    requires m <= n
    ensures Pow2(n) == Pow2(m) * Pow2(n - m)
  {
    Pow2Add(m, n - m);
  }

  lemma {:induction false} Pow2Mono(m: nat, n: nat)
    requires m <= n
    ensures Pow2(m) <= Pow2(n)
    ensures m < n ==> 2 * Pow2(m) <= Pow2(n)
  {
    if m < n {
      Pow2Mono(m, n - 1);
    }
  }

  lemma {:induction false} ValBound(s: Bits)
    ensures Val(s) < Pow2(|s|)
  {
    if s != [] {
      ValBound(s[1..]);
    }
  }

  lemma {:induction false} MsbBound(s: Bits)
    ensures Msb(s) < Pow2(|s|)
  {
    if s != [] {
      MsbBound(s[..|s| - 1]);
    }
  }

  lemma MulTwice(a: int, b: int)
    ensures 2 * (a * b) == (2 * a) * b == b * (2 * a) && a * b == b * a
  {
  }

  lemma {:induction false} ValConcat(s: Bits, t: Bits)
    ensures Val(s + t) == Val(s) + Pow2(|s|) * Val(t)
  {
    if s == [] {
      assert s + t == t;
    } else {
      assert (s + t)[1..] == s[1..] + t;
      ValConcat(s[1..], t);
      MulTwice(Pow2(|s| - 1), Val(t));
    }
  }

  lemma {:induction false} MsbConcat(s: Bits, t: Bits)
    ensures Msb(s + t) == Msb(s) * Pow2(|t|) + Msb(t)
  {
    if t == [] {
      assert s + t == s;
    } else {
      var n := |t| - 1;
      assert (s + t)[..|s| + n] == s + t[..n];
      MsbConcat(s, t[..n]);
      MulTwice(Pow2(n), Msb(s));
    }
  }

  lemma {:induction false} ValInjective(s: Bits, t: Bits)
    requires |s| == |t| && Val(s) == Val(t)
    ensures s == t
  {
    if s != [] {
      ValInjective(s[1..], t[1..]);
      assert s == [s[0]] + s[1..] && t == [t[0]] + t[1..];
    }
  }

  lemma {:induction false} MsbInjective(s: Bits, t: Bits)
    requires |s| == |t| && Msb(s) == Msb(t)
    ensures s == t
  {
    if s != [] {
      var n := |s| - 1;
      MsbInjective(s[..n], t[..n]);
      assert s == s[..n] + [s[n]] && t == t[..n] + [t[n]];
    }
  }

  lemma MulMono(d: nat, p: nat, q: nat)
    requires p < q
    ensures d * p + d <= d * q
  {
    assert d * q == d * p + d * (q - p);
    assert d * (q - p) == d + d * (q - p - 1);
    assert d * (q - p - 1) >= 0;
  }

  lemma DivModUnique(x: nat, q: nat, r: nat, d: nat)
    requires d > 0 && x == r + d * q && r < d
    ensures x / d == q && x % d == r
  {
    var q' := x / d;
    assert x == d * q' + x % d;
    if q < q' {
      MulMono(d, q, q');
    } else if q' < q {
      MulMono(d, q', q);
    }
  }

  /** Masking and shifting a number split its bit string. */
  lemma ValSplit(s: Bits, m: nat)
    requires m <= |s|
    ensures Val(s) % Pow2(m) == Val(s[..m]) && Val(s) / Pow2(m) == Val(s[m..])
  {
    assert s == s[..m] + s[m..];
    ValConcat(s[..m], s[m..]);
    ValBound(s[..m]);
    DivModUnique(Val(s), Val(s[m..]), Val(s[..m]), Pow2(m));
  }

  lemma MsbSplit(s: Bits, m: nat)
    requires m <= |s|
    ensures Msb(s) == Msb(s[..m]) * Pow2(|s| - m) + Msb(s[m..])
    ensures Msb(s[m..]) < Pow2(|s| - m)
  {
    assert s == s[..m] + s[m..];
    MsbConcat(s[..m], s[m..]);
    MsbBound(s[m..]);
  }

  lemma {:induction false} ZerosNumbers(n: nat)
    ensures Val(Zeros(n)) == 0 && Msb(Zeros(n)) == 0
  {
    if n > 0 {
      assert Zeros(n)[1..] == Zeros(n - 1) && Zeros(n)[..n - 1] == Zeros(n - 1);
      ZerosNumbers(n - 1);
    }
  }

  /** The bit string of a table index. */
  function BitsOf(v: nat, n: nat): (s: Bits)
    ensures |s| == n
  {
    if n == 0 then [] else [v % 2 == 1] + BitsOf(v / 2, n - 1)
  }

  lemma {:induction false} BitsOfVal(v: nat, n: nat)
    requires v < Pow2(n)
    ensures Val(BitsOf(v, n)) == v
  {
    if n > 0 {
      BitsOfVal(v / 2, n - 1);
      assert BitsOf(v, n)[1..] == BitsOf(v / 2, n - 1);
    }
  }

  /** The next string of the same length in code order; all ones is followed by all zeros. */
  function Next(s: Bits): (t: Bits)
    ensures |t| == |s|
  {
    if s == [] then []
    else if s[|s| - 1] then Next(s[..|s| - 1]) + [false]
    else s[..|s| - 1] + [true]
  }

  lemma {:induction false} NextMsb(s: Bits)
    ensures Msb(Next(s)) == if Msb(s) + 1 == Pow2(|s|) then 0 else Msb(s) + 1
  {
    if s != [] {
      var n := |s| - 1;
      NextMsb(s[..n]);
      MsbBound(s);
      MsbBound(s[..n]);
      if s[n] {
        assert Next(s)[..n] == Next(s[..n]);
      } else {
        assert Next(s)[..n] == s[..n];
      }
    }
  }
}
