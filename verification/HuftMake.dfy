// The last phase of huft_build: generate the codes and make the table entries for each.
module HuftMake {
  import opened BitStrings
  import opened CanonicalCode
  import opened HuftTables
  import opened HuftSteps
  import opened HuftCounts

  /** Patterns of `i` bits left when codes of length `k` to `i` have been taken. */
  function Left(c: seq<nat>, k: nat, i: nat): int
    requires k <= i < |c|
    decreases i
  {
    if i == k then Pow2(k) - c[k] else 2 * Left(c, k, i - 1) - c[i]
  }

  /** The first table may be as large as the longest code, and shorter codes leave patterns over: then
      it is that large, and it is the only one. */
  ghost predicate RootFull(c: seq<nat>, k: nat, a: nat, m: nat, g: nat, el: nat) {
    && k <= g < |c| && m >= g && el >= g && a + 1 == c[k]
    && forall i :: k <= i < g ==> Left(c, k, i) > 0
  }

  /** Lines 1184 to 1198: the size of a new table.  When the loop is never entered the size can be one
      more than the limit `z`; it still stays within the longest code and within the end-of-block code. */
  method SizeTable(c: seq<nat>, k: nat, w: nat, g: nat, m: nat, a: nat, el: nat) returns (j: nat)
    requires |c| == BMAX + 1 && w < k <= g <= BMAX
    requires k == g ==> a + 1 >= Pow2(g - w)
    ensures 1 <= j && w + j <= g
    ensures w < el ==> w + j <= el
    ensures w + j <= k + 1 || w + j < k + m
    ensures w == 0 && RootFull(c, k, a, m, g, el) ==> j == g
  {
    var z := if g - w > m then m else g - w;
    j := k - w;
    var f := Pow2(j);
    assert w == 0 && k < g && RootFull(c, k, a, m, g, el) ==> Left(c, k, k) > 0;
    if f > a + 1 {
      f := f - (a + 1);
      var xp := k;
      j := j + 1;
      while j < z
        invariant k - w + 1 <= j <= g - w && xp == w + j - 1 && (j <= m || j == k - w + 1)
        invariant w == 0 && RootFull(c, k, a, m, g, el) ==> f == Left(c, k, xp)
      {
        f := 2 * f;
        xp := xp + 1;
        assert w == 0 && RootFull(c, k, a, m, g, el) ==> Left(c, k, xp) == f - c[xp] > 0;
        if f <= c[xp] {
          break;
        }
        f := f - c[xp];
        j := j + 1;
      }
    }
    if w + j > el && w < el {
      j := el - w;
    }
  }

  lemma ModStep(j: nat, i: nat, f: nat)
    requires f > 0 && j <= i < j + f
    ensures i % f == j % f <==> i == j
    ensures (j + f) % f == j % f
  {
    DivModUnique(j + f, j / f + 1, j % f, f);
    MulTwice(f, j / f);
    if i % f == j % f && i != j {
      if i / f > j / f {
        MulMono(f, j / f, i / f);
      } else if i / f < j / f {
        MulMono(f, i / f, j / f);
      }
    }
  }

  /** The entries of `table` up to, not including, index `j` have been filled. */
  ghost predicate FilledTo(table: Table, table': Table, start: nat, f: nat, r: Huft, j: nat)
    requires f > 0
  {
    && |table'| == |table|
    && forall i :: 0 <= i < |table| ==> table'[i] == if i % f == start && i < j then r else table[i]
  }

  lemma FillStep(table: Table, table': Table, start: nat, f: nat, r: Huft, j: nat)
    requires f > 0 && j < |table| && j % f == start && FilledTo(table, table', start, f, r, j)
    ensures FilledTo(table, table'[j := r], start, f, r, j + f) && (j + f) % f == start
  {
    ModStep(j, j, f);
    forall i | 0 <= i < |table|
      ensures table'[j := r][i] == if i % f == start && i < j + f then r else table[i]
    {
      if j <= i < j + f { ModStep(j, i, f); }
    }
  }

  lemma SmallMod(i: nat, f: nat)
    requires i < f
    ensures i % f == i
  {
  }

  /** Lines 1245 to 1247: the entry is repeated every `f` places. */
  method FillTable(table: Table, start: nat, f: nat, r: Huft) returns (table': Table)
    requires start < f
    ensures Filled(table, table', start, f, r)
  {
    table' := table;
    var j := start;
    SmallMod(start, f);
    forall i | 0 <= i < start
      ensures i % f != start
    {
      SmallMod(i, f);
    }
    while j < |table|
      invariant j % f == start && FilledTo(table, table', start, f, r, j)
    {
      FillStep(table, table', start, f, r, j);
      table' := table'[j := r];
      j := j + f;
    }
  }

  lemma ValUpTo(s: Bits, n: nat)
    requires n < |s|
    ensures Val(s[..n + 1]) == Val(s[..n]) + (if s[n] then Pow2(n) else 0)
  {
    assert s[..n + 1] == s[..n] + [s[n]];
    ValConcat(s[..n], [s[n]]);
    assert [s[n]][1..] == [];
  }

  lemma {:induction false} NextShape(s: Bits, n: nat)
    requires n <= |s| && forall i :: n <= i < |s| ==> s[i]
    ensures n == 0 ==> Next(s) == Zeros(|s|)
    ensures n > 0 && !s[n - 1] ==> Next(s) == s[..n - 1] + [true] + Zeros(|s| - n)
  {
    if n < |s| {
      var m := |s| - 1;
      NextShape(s[..m], n);
      assert Zeros(|s| - n) == Zeros(m - n) + [false];
      if n > 0 { assert s[..m][..n - 1] == s[..n - 1]; }
    }
  }

  lemma ValPadded(s: Bits, n: nat)
    ensures Val(s + Zeros(n)) == Val(s)
  {
    ValConcat(s, Zeros(n));
    ZerosNumbers(n);
  }

  lemma BitTest(s: Bits, n: nat)
    requires 0 < n <= |s|
    ensures (Val(s[..n]) / Pow2(n - 1)) % 2 == (if s[n - 1] then 1 else 0)
  {
    ValUpTo(s, n - 1);
    ValBound(s[..n - 1]);
    DivModUnique(Val(s[..n]), if s[n - 1] then 1 else 0, Val(s[..n - 1]), Pow2(n - 1));
  }

  lemma IncrementStep(cur: Bits, n: nat)
    requires 0 < n <= |cur|
    ensures (Val(cur[..n]) / Pow2(n - 1)) % 2 == (if cur[n - 1] then 1 else 0)
    ensures cur[n - 1] ==> Val(cur[..n - 1]) == Val(cur[..n]) - Pow2(n - 1)
    ensures Pow2(n - 1) / 2 == if n == 1 then 0 else Pow2(n - 2)
  {
    BitTest(cur, n);
    ValUpTo(cur, n - 1);
  }

  lemma IncrementDone(cur: Bits, n: nat)
    requires n <= |cur| && (n > 0 ==> !cur[n - 1]) && forall b :: n <= b < |cur| ==> cur[b]
    ensures Val(Next(cur)) == Val(cur[..n]) + if n == 0 then 0 else Pow2(n - 1)
  {
    NextShape(cur, n);
    if n == 0 {
      ZerosNumbers(|cur|);
    } else {
      ValPadded(cur[..n - 1] + [true], |cur| - n);
      ValConcat(cur[..n - 1], [true]);
      ValUpTo(cur, n - 1);
      assert [true][1..] == [];
    }
  }

  /** Lines 1250 to 1252: the code register is incremented from its highest bit downwards. */
  method Increment(code: nat, k: nat, ghost cur: Bits) returns (i: nat)
    requires |cur| == k >= 1 && code == Val(cur)
    ensures i == Val(Next(cur))
  {
    i := code;
    var j := Pow2(k - 1);
    ghost var n := k;
    assert cur[..n] == cur;
    while j > 0 && (i / j) % 2 == 1
      invariant 0 <= n <= k && i == Val(cur[..n]) && forall b :: n <= b < k ==> cur[b]
      invariant j == if n == 0 then 0 else Pow2(n - 1)
      decreases n
    {
      IncrementStep(cur, n);
      i := i - j;
      j := j / 2;
      n := n - 1;
    }
    if n > 0 { IncrementStep(cur, n); }
    IncrementDone(cur, n);
    i := i + j;
  }

  lemma LevelsFit(tables: seq<Table>, plan: Plan, st: Stack, cur: Bits)
    requires |plan.paths| == |plan.sizes| == |plan.shortest| == |tables| && StackOk(tables, plan, st, cur)
    ensures forall h :: 0 <= h < |st.u| ==> Before(st.l, h) < |cur|
  {
    forall h | 0 <= h < |st.u|
      ensures Before(st.l, h) < |cur|
    {
      assert LevelOk(tables, plan, st, cur, h);
    }
  }

  /** The next code still has the pattern of level `h`. */
  ghost predicate Shares(st: Stack, cur: Bits, h: nat)
    requires h <= |st.l|
  {
    Before(st.l, h) <= |cur| && Next(cur)[..Before(st.l, h)] == cur[..Before(st.l, h)]
  }

  /** Lines 1255 and 1256: go back up to the tables whose pattern the code still has. */
  method Backup(i: nat, st: Stack, ghost tables: seq<Table>, ghost plan: Plan, ghost cur: Bits) returns (st': Stack)
    requires |plan.paths| == |plan.sizes| == |plan.shortest| == |tables| && StackOk(tables, plan, st, cur) && |st.u| > 0
    requires i == Val(Next(cur))
    requires |cur| <= Before(st.l, |st.l|)
    ensures 1 <= |st'.u| <= |st.u| && Pops(st, cur, |st'.u|) && st' == Top(st, |st'.u|)
    ensures forall b :: Before(st'.l, |st'.l|) <= b < |cur| ==> !Next(cur)[b]
  {
    hide StackOk, LevelOk, Next;
    LevelsFit(tables, plan, st, cur);
    StackLengths(tables, plan, st, cur);
    var n := |st.u|;
    var w := Below(st.l, n - 1);
    while i % Pow2(w) != st.x[n - 1]
      invariant 1 <= n <= |st.u| && w == Before(st.l, n - 1)
      invariant forall h :: n <= h < |st.u| ==> !Shares(st, cur, h)
      decreases n
    {
      PatternTest(i, st, tables, plan, cur, n - 1);
      w := w - st.l[n - 2];
      n := n - 1;
    }
    PatternTest(i, st, tables, plan, cur, n - 1);
    st' := Stack(st.u[..n], st.l[..n], st.x[..n]);
    BeforeTake(st.l, n, n);
    forall h | n <= h < |st.u|
      ensures Next(cur)[..Before(st.l, h)] != cur[..Before(st.l, h)]
    {
      assert !Shares(st, cur, h);
    }
    if n < |st.u| {
      forall b | Before(st'.l, n) <= b < |cur|
        ensures !Next(cur)[b]
      {
        ZerosAfterChange(cur, Before(st.l, n), b);
      }
    }
  }

  lemma StackLengths(tables: seq<Table>, plan: Plan, st: Stack, cur: Bits)
    requires |plan.paths| == |plan.sizes| == |plan.shortest| == |tables| && StackOk(tables, plan, st, cur)
    ensures |st.u| == |st.l| == |st.x|
  {
  }

  /** Bits decoded before level `h`: the source keeps this sum in its variable w. */
  method Below(l: seq<nat>, h: nat) returns (w: nat)
    requires h <= |l|
    ensures w == Before(l, h)
  {
    w := 0;
    for k := 0 to h
      invariant w == Before(l, k)
    {
      w := w + l[k];
    }
  }

  lemma PatternTest(i: nat, st: Stack, tables: seq<Table>, plan: Plan, cur: Bits, h: nat)
    requires |plan.paths| == |plan.sizes| == |plan.shortest| == |tables| && StackOk(tables, plan, st, cur) && h < |st.u|
    requires i == Val(Next(cur))
    ensures i % Pow2(Before(st.l, h)) == st.x[h] <==> Shares(st, cur, h)
    ensures Shares(st, cur, 0)
  {
    var w := Before(st.l, h);
    assert LevelOk(tables, plan, st, cur, h);
    ValSplit(Next(cur), w);
    if i % Pow2(w) == st.x[h] {
      ValInjective(Next(cur)[..w], cur[..w]);
    }
  }

  /** Before a table is made for level |st.u|: where the current code stands. */
  ghost predicate MayDescend(cs: CodeSet, g: nat, el: nat, k: nat, a: nat, i: nat,
                             tables: seq<Table>, st: Stack, plan: Plan, cur: Bits)
    requires WellFormed(cs)
  {
    && 1 <= k <= g <= BMAX && |cur| == k && i == Val(cur)
    && Partial(cs, g, el, tables, plan, st, cur, Lo(cur, g)) && (tables == [] ==> st.u == [])
    && (forall b :: Before(st.l, |st.l|) <= b < k ==> !cur[b])
    && (k == g ==> Msb(cur) + a + 1 == Pow2(g))
  }

  /** The first table keeps its size, which is `g` if it was made while `full` held. */
  ghost predicate SameRoot(tables: seq<Table>, tables': seq<Table>, plan: Plan, plan': Plan, full: bool, g: nat) {
    && plan'.excess == plan.excess
    && (tables != [] ==> tables' != [] && plan.sizes != [] && plan'.sizes != [] && plan'.sizes[0] == plan.sizes[0])
    && (tables == [] && tables' != [] && full ==> plan'.sizes != [] && plan'.sizes[0] == g)
  }

  /** Lines 1184 to 1226: one table, linked to the one above it. */
  method MakeLevel(cs: CodeSet, c: seq<nat>, k: nat, g: nat, m: nat, a: nat, el: nat, i: nat, w: nat,
                   tables: seq<Table>, st: Stack, ghost plan: Plan, ghost cur: Bits)
    returns (tables': seq<Table>, st': Stack, j: nat, ghost plan': Plan)
    requires WellFormed(cs) && |c| == BMAX + 1 && MayDescend(cs, g, el, k, a, i, tables, st, plan, cur)
    requires w == Before(st.l, |st.l|) < k && Bounded(m, k, plan.excess)
    ensures MayDescend(cs, g, el, k, a, i, tables', st', plan', cur)
    ensures 1 <= j && tables' != [] && st'.u != [] && st'.l == st.l + [j] && w + j <= g
    ensures SameRoot(tables, tables', plan, plan', RootFull(c, k, a, m, g, el), g)
  {
    hide Partial;
    if k == g { LastCodesLeft(cur, w, a, g); }
    j := SizeTable(c, k, w, g, m, a, el);
    assert |seq(Pow2(j), n => Huft(0, 0, 0, 0))| == Pow2(j);
    var blank: Table :| |blank| == Pow2(j);
    PatternIsCode(cur, w, i);
    StackLength(cs, g, el, tables, plan, st, cur, Lo(cur, g));
    PushTable(cs, g, el, tables, plan, st, cur, j, blank);
    var index := 0;
    if st.u != [] {
      index := (i % Pow2(w)) / Pow2(w - st.l[|st.u| - 1]);
      LinkIndexIs(st, cur, w, i);
    }
    tables' := Linked(tables, blank, st, index, j);
    st' := Push(st, |tables|, j, i);
    plan' := AddPlan(plan, cur[..w], j, |cur|);
    BeforeAppend(st.l, j, |st.l|);
    PlanSizes(cs, g, el, tables, plan, st, cur, Lo(cur, g));
  }

  lemma PlanSizes(cs: CodeSet, g: nat, el: nat, tables: seq<Table>, plan: Plan, st: Stack, cur: Bits, p: nat)
    requires WellFormed(cs) && Partial(cs, g, el, tables, plan, st, cur, p)
    ensures |plan.paths| == |plan.sizes| == |plan.shortest| == |tables|
  {
  }

  lemma StackLength(cs: CodeSet, g: nat, el: nat, tables: seq<Table>, plan: Plan, st: Stack, cur: Bits, p: nat)
    requires WellFormed(cs) && Partial(cs, g, el, tables, plan, st, cur, p)
    ensures |st.u| == |st.l| && forall h :: 0 <= h < |st.l| ==> st.l[h] >= 1
  {
  }

  /** Lines 1180 to 1227: tables for the current code, down to one that decodes its last bit. */
  method MakeLevels(cs: CodeSet, c: seq<nat>, k: nat, g: nat, m: nat, a: nat, el: nat, i: nat,
                    tables: seq<Table>, st: Stack, ghost plan: Plan, ghost cur: Bits)
    returns (tables': seq<Table>, st': Stack, ghost plan': Plan)
    requires WellFormed(cs) && |c| == BMAX + 1 && MayDescend(cs, g, el, k, a, i, tables, st, plan, cur)
    requires Bounded(m, k, plan.excess)
    ensures MayDescend(cs, g, el, k, a, i, tables', st', plan', cur)
    ensures |st'.u| == |st'.l| && |st'.u| > 0 && Before(st'.l, |st'.l| - 1) < k <= Before(st'.l, |st'.l|)
    ensures SameRoot(tables, tables', plan, plan', RootFull(c, k, a, m, g, el), g) && tables' != []
  {
    hide Partial, RootFull;
    tables', st', plan' := tables, st, plan;
    var w := Below(st.l, |st.l|);
    TopBelow(cs, g, el, tables, plan, st, cur, Lo(cur, g));
    PlanSizes(cs, g, el, tables, plan, st, cur, Lo(cur, g));
    while k > w
      invariant MayDescend(cs, g, el, k, a, i, tables', st', plan', cur)
      invariant w == Before(st'.l, |st'.l|) <= g && |st'.u| == |st'.l|
      invariant SameRoot(tables, tables', plan, plan', RootFull(c, k, a, m, g, el), g)
      invariant tables' == [] ==> w == 0
      decreases g - w
    {
      var j;
      ghost var l := st'.l;
      tables', st', j, plan' := MakeLevel(cs, c, k, g, m, a, el, i, w, tables', st', plan', cur);
      BeforeAppend(l, j, |l|);
      TopBelow(cs, g, el, tables', plan', st', cur, Lo(cur, g));
      w := w + j;
    }
    TopBelow(cs, g, el, tables', plan', st', cur, Lo(cur, g));
  }

  lemma TopBelow(cs: CodeSet, g: nat, el: nat, tables: seq<Table>, plan: Plan, st: Stack, cur: Bits, p: nat)
    requires WellFormed(cs) && Partial(cs, g, el, tables, plan, st, cur, p)
    ensures |st.u| == |st.l| && Before(st.l, |st.l|) <= g
    ensures |st.u| > 0 ==> Before(st.l, |st.l| - 1) < |cur|
    ensures |cur| > 0 && |st.u| == 0 ==> Before(st.l, |st.l|) < |cur|
  {
    if |st.u| > 0 { assert LevelOk(tables, plan, st, cur, |st.u| - 1); }
  }

  /** At the longest length the codes that remain fill everything below the current table. */
  lemma LastCodesLeft(cur: Bits, w: nat, a: nat, g: nat)
    requires |cur| == g && w < g && Msb(cur) + a + 1 == Pow2(g) && forall b :: w <= b < g ==> !cur[b]
    ensures a + 1 >= Pow2(g - w)
  {
    FollowedByZeros(cur, w, g);
    HiBound(cur[..w], g);
    LoHi(cur[..w], g);
  }

  lemma PatternIsCode(cur: Bits, w: nat, i: nat)
    requires w <= |cur| && i == Val(cur) && forall b :: w <= b < |cur| ==> !cur[b]
    ensures Val(cur[..w]) == i
  {
    assert cur == cur[..w] + Zeros(|cur| - w);
    ValPadded(cur[..w], |cur| - w);
  }

  lemma LinkIndexIs(st: Stack, cur: Bits, w: nat, i: nat)
    requires |st.l| > 0 && w == Before(st.l, |st.l|) <= |cur| && i == Val(cur)
    ensures (i % Pow2(w)) / Pow2(w - st.l[|st.l| - 1]) == Val(LinkBits(st, cur))
  {
    ValSplit(cur, w);
    ValSplit(cur[..w], w - st.l[|st.l| - 1]);
    assert cur[..w][w - st.l[|st.l| - 1]..] == LinkBits(st, cur);
  }
}
