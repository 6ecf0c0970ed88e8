// The canonical prefix code of section 3.2.2 of RFC 1951, and a bit-at-a-time reading of it.
module CanonicalCode {
  import opened BitStrings

  /** Code lengths by symbol; 0 means the symbol is not used. */
  type Lens = seq<nat>

  /** The longest length that occurs. */
  function MaxLen(lens: Lens): (g: nat)
    ensures forall v :: 0 <= v < |lens| ==> lens[v] <= g
    ensures g > 0 ==> exists v :: 0 <= v < |lens| && lens[v] == g
  {
    if lens == [] then 0
    else
      var g := MaxLen(lens[..|lens| - 1]);
      assert forall v :: 0 <= v < |lens| - 1 ==> lens[v] == lens[..|lens| - 1][v];
      if lens[|lens| - 1] > g then lens[|lens| - 1] else g
  }

  /** bl_count: how many symbols have length `k`. */
  function Count(lens: Lens, k: nat): nat {
    if lens == [] then 0 else Count(lens[..|lens| - 1], k) + if lens[|lens| - 1] == k then 1 else 0
  }

  /** next_code: the smallest code of length `k`. */
  function NextCode(lens: Lens, k: nat): nat {
    if k <= 1 then 0 else 2 * (NextCode(lens, k - 1) + Count(lens, k - 1))
  }

  /** Codes of length `k` used up by all symbols of length at most `k`. */
  function Used(lens: Lens, k: nat): nat {
    if k == 0 then 0 else NextCode(lens, k) + Count(lens, k)
  }

  /** Consecutive codes go to the symbols of equal length in symbol order. */
  function CodeOf(lens: Lens, v: nat): nat
    requires v < |lens|
  {
    NextCode(lens, lens[v]) + Count(lens[..v], lens[v])
  }

  /** The codeword of symbol `v` begins the bit string `s`. */
  predicate Matches(lens: Lens, v: nat, s: Bits) {
    v < |lens| && 0 < lens[v] <= |s| && Msb(s[..lens[v]]) == CodeOf(lens, v)
  }

  /** The Kraft sum, scaled by 2^g. */
  function Kraft(lens: Lens, g: nat): nat
    requires forall v :: 0 <= v < |lens| ==> lens[v] <= g
  {
    if lens == [] then 0
    else
      var x := lens[|lens| - 1];
      Kraft(lens[..|lens| - 1], g) + if x == 0 then 0 else Pow2(g - x)
  }

  lemma {:induction false} UsedAppend(lens: Lens, x: nat, k: nat)
    ensures Used(lens + [x], k) == Used(lens, k) + if 0 < x <= k then Pow2(k - x) else 0
  {
    assert (lens + [x])[..|lens|] == lens;
    if k > 1 {
      UsedAppend(lens, x, k - 1);
    }
  }

  lemma {:induction false} UsedNone(k: nat)
    ensures Used([], k) == 0
  {
    if k > 1 {
      UsedNone(k - 1);
    }
  }

  /** Counting code space by length or by symbol gives the same sum. */
  lemma {:induction false} KraftIsUsed(lens: Lens, g: nat)
    requires forall v :: 0 <= v < |lens| ==> lens[v] <= g
    ensures Kraft(lens, g) == Used(lens, g)
  {
    if lens == [] {
      UsedNone(g);
    } else {
      var n := |lens| - 1;
      KraftIsUsed(lens[..n], g);
      assert lens == lens[..n] + [lens[n]];
      UsedAppend(lens[..n], lens[n], g);
    }
  }

  /** Code space used up at length `k` stays used up at greater lengths. */
  lemma {:induction false} UsedGrows(lens: Lens, k: nat, g: nat)
    requires k <= g
    ensures Used(lens, k) * Pow2(g - k) <= Used(lens, g)
    ensures 0 < k < g ==> Used(lens, k) * Pow2(g - k) <= NextCode(lens, g)
    decreases g - k
  {
    if k < g {
      UsedGrows(lens, k + 1, g);
      if k > 0 {
        var p := Pow2(g - k - 1);
        MulShift(Used(lens, k), p);
        MulLess(NextCode(lens, k + 1), Used(lens, k + 1), p);
      }
    }
  }

  lemma MulShift(a: nat, p: nat)
    ensures a * (2 * p) == (2 * a) * p
  {
  }

  /** Comparing numbers by their leading digit. */
  lemma LeadingDigit(a: nat, b: nat, p: nat, r: nat)
    requires r < p && a * p + r >= b * p
    ensures a >= b
  {
    if a < b {
      MulMono(p, a, b);
      MulTwice(p, a);
      MulTwice(p, b);
    }
  }

  lemma MulLess(a: nat, b: nat, c: nat)
    requires a <= b
    ensures a * c <= b * c
  {
  }

  // ----- Symbols of one length, in order -----

  lemma {:induction false} CountMono(lens: Lens, k: nat, i: nat, j: nat)
    requires i <= j <= |lens|
    ensures Count(lens[..i], k) <= Count(lens[..j], k)
    ensures (exists v :: i <= v < j && lens[v] == k) ==> Count(lens[..i], k) < Count(lens[..j], k)
    decreases j - i
  {
    if i < j {
      CountMono(lens, k, i, j - 1);
      assert lens[..j][..j - 1] == lens[..j - 1];
    }
  }

  /** The r-th symbol (from 0) whose length is `k`. */
  function Sym(lens: Lens, k: nat, r: nat): (v: nat)
    requires r < Count(lens, k)
    ensures v < |lens| && lens[v] == k && Count(lens[..v], k) == r
  {
    var n := |lens| - 1;
    if lens[n] == k && Count(lens[..n], k) == r then n
    else
      var v := Sym(lens[..n], k, r);
      assert lens[..n][..v] == lens[..v];
      v
  }

  lemma SymUnique(lens: Lens, k: nat, v: nat, u: nat)
    requires v < |lens| && u < |lens| && lens[v] == k && lens[u] == k
    requires Count(lens[..v], k) == Count(lens[..u], k)
    ensures v == u
  {
    if v < u {
      CountMono(lens, k, v, u);
    } else if u < v {
      CountMono(lens, k, u, v);
    }
  }

  lemma RankInRange(lens: Lens, v: nat)
    requires v < |lens|
    ensures Count(lens[..v], lens[v]) < Count(lens, lens[v])
  {
    CountMono(lens, lens[v], v, |lens|);
    assert lens[..|lens|] == lens;
  }

  /** A string of `k` bits is the codeword of the symbol with the right rank, and of no other. */
  lemma MatchesIsSym(lens: Lens, v: nat, s: Bits)
    requires Matches(lens, v, s)
    ensures var k := lens[v];
      var r := Msb(s[..k]) - NextCode(lens, k);
      0 <= r < Count(lens, k) && v == Sym(lens, k, r)
  {
    var k := lens[v];
    RankInRange(lens, v);
    SymUnique(lens, k, v, Sym(lens, k, Msb(s[..k]) - NextCode(lens, k)));
  }

  /** No codeword of a longer length can begin with a code already used up at a shorter one. */
  lemma LongerIsLarger(lens: Lens, s: Bits, k: nat, m: nat)
    requires 0 < k < m <= |s| && Msb(s[..m]) >= NextCode(lens, m)
    ensures Msb(s[..k]) >= Used(lens, k)
  {
    var t := s[..m];
    UsedGrows(lens, k, m);
    MsbSplit(t, k);
    assert t[..k] == s[..k];
    LeadingDigit(Msb(s[..k]), Used(lens, k), Pow2(m - k), Msb(t[k..]));
  }

  /** The code is prefix free: at most one symbol matches. */
  lemma MatchUnique(lens: Lens, v: nat, u: nat, s: Bits)
    requires Matches(lens, v, s) && Matches(lens, u, s)
    ensures v == u
  {
    MatchesIsSym(lens, v, s);
    MatchesIsSym(lens, u, s);
    if lens[v] < lens[u] {
      LongerIsLarger(lens, s, lens[v], lens[u]);
    } else if lens[u] < lens[v] {
      LongerIsLarger(lens, s, lens[u], lens[v]);
    }
  }
}
