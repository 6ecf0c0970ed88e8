// The first phases of huft_build: counts, bounds, the Kraft sum, and the symbols in order of length.
module HuftCounts {
  import opened BitStrings
  import opened CanonicalCode
  import opened HuftTables
  import opened HuftSteps

  // ----- Counts, bounds and the Kraft sum -----

  /** Lines 1108 to 1112: c[k] becomes the number of symbols of length k. */
  method CountLengths(lens: Lens) returns (c: seq<nat>)
    requires forall v :: 0 <= v < |lens| ==> lens[v] <= BMAX
    ensures |c| == BMAX + 1 && forall k :: 0 <= k <= BMAX ==> c[k] == Count(lens, k)
  {
    var count := new nat[BMAX + 1](i => 0);
    var p := 0;
    while p < |lens|
      invariant 0 <= p <= |lens|
      invariant forall k :: 0 <= k <= BMAX ==> count[k] == Count(lens[..p], k)
    {
      assert lens[..p + 1][..p] == lens[..p];
      count[lens[p]] := count[lens[p]] + 1;
      p := p + 1;
    }
    assert lens[..p] == lens;
    c := count[..];
  }

  lemma {:induction false} CountPositive(lens: Lens, k: nat)
    ensures Count(lens, k) > 0 <==> exists v :: 0 <= v < |lens| && lens[v] == k
  {
    if lens != [] {
      var n := |lens| - 1;
      CountPositive(lens[..n], k);
      if v :| 0 <= v < |lens| && lens[v] == k {
        if v < n { assert lens[..n][v] == k; }
      }
      if v :| 0 <= v < n && lens[..n][v] == k {
        assert lens[v] == k;
      }
    }
  }

  lemma {:induction false} AllOfOne(lens: Lens, k: nat)
    ensures Count(lens, k) <= |lens|
    ensures Count(lens, k) == |lens| <==> forall v :: 0 <= v < |lens| ==> lens[v] == k
  {
    if lens != [] {
      var n := |lens| - 1;
      AllOfOne(lens[..n], k);
      assert forall v :: 0 <= v < n ==> lens[..n][v] == lens[v];
    }
  }

  /** Lines 1122 to 1133: the shortest and the longest length that occur. */
  method Bounds(lens: Lens, c: seq<nat>) returns (k: nat, g: nat)
    requires forall v :: 0 <= v < |lens| ==> lens[v] <= BMAX
    requires |c| == BMAX + 1 && forall k :: 0 <= k <= BMAX ==> c[k] == Count(lens, k)
    requires c[0] != |lens|
    ensures 1 <= k <= g <= BMAX && g == MaxLen(lens) && c[k] > 0 && c[g] > 0
    ensures forall i :: 1 <= i < k ==> Count(lens, i) == 0
  {
    AllOfOne(lens, 0);
    var some :| 0 <= some < |lens| && lens[some] != 0;
    CountPositive(lens, lens[some]);
    k := 1;
    while k <= BMAX && c[k] == 0
      invariant 1 <= k <= lens[some]
      invariant forall i :: 1 <= i < k ==> c[i] == 0
    {
      k := k + 1;
    }
    g := BMAX;
    while g > 0 && c[g] == 0
      invariant lens[some] <= g <= BMAX
      invariant forall i :: g < i <= BMAX ==> c[i] == 0
    {
      g := g - 1;
    }
    CountPositive(lens, g);
    CountPositive(lens, MaxLen(lens));
  }

  lemma {:induction false} UsedShort(lens: Lens, k: nat)
    requires forall i :: 1 <= i < k ==> Count(lens, i) == 0
    ensures k > 0 ==> NextCode(lens, k) == 0
  {
    if k > 1 {
      UsedShort(lens, k - 1);
    }
  }

  /** A length at which the codes run out stays so at the longest length. */
  lemma TooMany(lens: Lens, k: nat, g: nat)
    requires k <= g && Used(lens, k) > Pow2(k)
    ensures Used(lens, g) > Pow2(g)
  {
    UsedGrows(lens, k, g);
    Pow2Split(k, g);
    MulMono(Pow2(g - k), Pow2(k), Used(lens, k));
    MulTwice(Pow2(g - k), Pow2(k));
    MulTwice(Pow2(g - k), Used(lens, k));
  }

  /** Lines 1136 to 1142: the number of unused codes of the longest length, or none if there are more
      symbols than codes. */
  method FillOut(lens: Lens, c: seq<nat>, k: nat, g: nat) returns (y: int)
    requires |c| == BMAX + 1 && forall k :: 0 <= k <= BMAX ==> c[k] == Count(lens, k)
    requires 1 <= k <= g <= BMAX && forall i :: 1 <= i < k ==> Count(lens, i) == 0
    ensures y < 0 <==> Used(lens, g) > Pow2(g)
    ensures y >= 0 ==> y == Pow2(g) - Used(lens, g)
  {
    UsedShort(lens, k);
    var j := k;
    y := Pow2(j);
    while j < g
      invariant k <= j <= g && y == Pow2(j) - NextCode(lens, j)
    {
      y := y - c[j];
      if y < 0 {
        TooMany(lens, j, g);
        return;
      }
      j := j + 1;
      y := 2 * y;
    }
    y := y - c[g];
  }

  // ----- The values in order of bit length -----

  /** How many symbols have a length from 1 to k - 1. */
  function Offset(lens: Lens, k: nat): nat {
    if k <= 1 then 0 else Offset(lens, k - 1) + Count(lens, k - 1)
  }

  lemma {:induction false} OffsetMono(lens: Lens, k: nat, m: nat)
    requires 1 <= k <= m
    ensures k < m ==> Offset(lens, k) + Count(lens, k) <= Offset(lens, m)
    ensures Offset(lens, k) <= Offset(lens, m)
    decreases m - k
  {
    if k + 1 < m {
      OffsetMono(lens, k + 1, m);
    }
  }

  /** Lines 1146 to 1150: the starting offsets for each length. */
  method Offsets(lens: Lens, c: seq<nat>, g: nat) returns (x: array<nat>)
    requires |c| == BMAX + 1 && forall k :: 0 <= k <= BMAX ==> c[k] == Count(lens, k)
    requires 1 <= g <= BMAX
    ensures fresh(x) && x.Length == BMAX + 1
    ensures forall k :: 1 <= k <= g ==> x[k] == Offset(lens, k)
  {
    x := new nat[BMAX + 1](i => 0);
    var i, j, p := g, 0, 1;
    x[1] := 0;
    i := i - 1;
    while i > 0
      invariant 0 <= i < g && p == g - i && j == Offset(lens, p)
      invariant forall k :: 1 <= k <= p ==> x[k] == Offset(lens, k)
      invariant 1 <= p <= g
      decreases i
    {
      j := j + c[p];
      p := p + 1;
      x[p] := j;
      i := i - 1;
    }
  }

  /** The position of the r-th symbol of length k among the values. */
  lemma OffsetsFit(lens: Lens, g: nat)
    requires forall v :: 0 <= v < |lens| ==> lens[v] <= g
    requires g >= 1
    ensures Offset(lens, g) + Count(lens, g) <= |lens|
  {
    OffsetTotal(lens, g);
  }

  lemma {:induction false} OffsetAppend(lens: Lens, a: nat, k: nat)
    ensures Offset(lens + [a], k) == Offset(lens, k) + if 1 <= a < k then 1 else 0
  {
    assert (lens + [a])[..|lens|] == lens;
    if k > 1 {
      OffsetAppend(lens, a, k - 1);
    }
  }

  lemma {:induction false} OffsetNone(k: nat)
    ensures Offset([], k) == 0
  {
    if k > 1 {
      OffsetNone(k - 1);
    }
  }

  lemma {:induction false} OffsetTotal(lens: Lens, g: nat)
    ensures Offset(lens, g + 1) <= |lens|
  {
    if lens == [] {
      OffsetNone(g + 1);
    } else {
      var n := |lens| - 1;
      OffsetTotal(lens[..n], g);
      assert lens == lens[..n] + [lens[n]];
      OffsetAppend(lens[..n], lens[n], g + 1);
    }
  }

  /** The values hold the r-th symbol of length k in its place. */
  ghost predicate Placed(lens: Lens, v: seq<nat>, k: nat, r: nat) {
    r < Count(lens, k) && Offset(lens, k) + r < |v| && v[Offset(lens, k) + r] == Sym(lens, k, r)
  }

  /** The first `i` symbols are in their places. */
  ghost predicate Sorted(lens: Lens, v: seq<nat>, g: nat, i: nat)
    requires i <= |lens|
  {
    forall k: nat, r: nat :: 1 <= k <= g && r < Count(lens[..i], k) ==> Placed(lens, v, k, r)
  }

  lemma SortedStart(lens: Lens, v: seq<nat>, g: nat)
    ensures Sorted(lens, v, g, 0)
  {
  }

  /** Lines 1154 to 1160: the symbols in order of length, and how many there are. */
  method SortSymbols(lens: Lens, x: array<nat>, g: nat) returns (v: seq<nat>, n: nat)
    requires 1 <= |lens| <= N_MAX && g == MaxLen(lens) && 1 <= g <= BMAX
    requires x.Length == BMAX + 1 && forall k :: 1 <= k <= g ==> x[k] == Offset(lens, k)
    modifies x
    ensures n == Offset(lens, g) + Count(lens, g) && |v| == N_MAX && n <= N_MAX
    ensures Sorted(lens, v, g, |lens|)
  {
    hide Sorted, Sym;
    var values := new nat[N_MAX](i => 0);
    var i: nat := 0;
    SortedStart(lens, values[..], g);
    while i < |lens|
      invariant 0 <= i <= |lens|
      invariant forall k :: 1 <= k <= g ==> x[k] == Offset(lens, k) + Count(lens[..i], k)
      invariant Sorted(lens, values[..], g, i)
    {
      var j := lens[i];
      CountStep(lens, i);
      if j != 0 {
        ghost var before := values[..];
        PlaceFits(lens, g, i);
        values[x[j]] := i;
        assert values[..] == before[x[j] := i];
        SortedStep(lens, before, values[..], g, i);
        x[j] := x[j] + 1;
      } else {
        SortedSkip(lens, values[..], g, i);
      }
      i := i + 1;
    }
    assert lens[..i] == lens;
    OffsetsFit(lens, g);
    v, n := values[..], x[g];
  }

  lemma CountStep(lens: Lens, i: nat)
    requires i < |lens|
    ensures forall k :: Count(lens[..i + 1], k) == Count(lens[..i], k) + if lens[i] == k then 1 else 0
  {
    assert lens[..i + 1][..i] == lens[..i];
  }

  /** There is room for symbol `i` in its place. */
  lemma PlaceFits(lens: Lens, g: nat, i: nat)
    requires i < |lens| <= N_MAX && 1 <= lens[i] <= g && g == MaxLen(lens)
    ensures Count(lens[..i], lens[i]) < Count(lens, lens[i])
    ensures Offset(lens, lens[i]) + Count(lens[..i], lens[i]) < |lens|
    ensures Sym(lens, lens[i], Count(lens[..i], lens[i])) == i
  {
    RankInRange(lens, i);
    OffsetMono(lens, lens[i], g);
    OffsetsFit(lens, g);
    SymUnique(lens, lens[i], i, Sym(lens, lens[i], Count(lens[..i], lens[i])));
  }

  lemma SortedSkip(lens: Lens, v: seq<nat>, g: nat, i: nat)
    requires i < |lens| && lens[i] == 0 && Sorted(lens, v, g, i)
    ensures Sorted(lens, v, g, i + 1)
  {
    CountStep(lens, i);
  }

  lemma SortedStep(lens: Lens, v: seq<nat>, v': seq<nat>, g: nat, i: nat)
    requires i < |lens| && 1 <= lens[i] <= g && Sorted(lens, v, g, i)
    requires var j := lens[i];
      var at := Offset(lens, j) + Count(lens[..i], j);
      at < |v| && v' == v[at := i] && Count(lens[..i], j) < Count(lens, j) && Sym(lens, j, Count(lens[..i], j)) == i
    ensures Sorted(lens, v', g, i + 1)
  {
    hide Sym;
    CountStep(lens, i);
    forall k: nat, r: nat | 1 <= k <= g && r < Count(lens[..i + 1], k)
      ensures Placed(lens, v', k, r)
    {
      PlacedStep(lens, v, v', i, k, r);
    }
  }

  lemma PlacedStep(lens: Lens, v: seq<nat>, v': seq<nat>, i: nat, k: nat, r: nat)
    requires i < |lens| && 1 <= lens[i] && 1 <= k
    requires var j := lens[i];
      var at := Offset(lens, j) + Count(lens[..i], j);
      at < |v| && v' == v[at := i] && Count(lens[..i], j) < Count(lens, j) && Sym(lens, j, Count(lens[..i], j)) == i
    requires if r < Count(lens[..i], k) then Placed(lens, v, k, r) else k == lens[i] && r == Count(lens[..i], k)
    ensures Placed(lens, v', k, r)
  {
    hide Sym;
    var j := lens[i];
    if k < j {
      OffsetMono(lens, k, j);
    } else if j < k {
      OffsetMono(lens, j, k);
    }
  }
}
