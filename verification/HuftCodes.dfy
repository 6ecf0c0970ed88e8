// huft_build as a whole, and what its tables decode.
module HuftCodes {
  import opened BitStrings
  import opened CanonicalCode
  import opened HuftTables
  import opened HuftSteps
  import opened HuftCounts
  import opened HuftMake

  /** Codes of each length with the unused ones of the longest length added (line 1142). */
  ghost predicate FullCounts(cs: CodeSet, c: seq<nat>, g: nat) {
    && |c| == BMAX + 1 && 1 <= g <= BMAX && g == MaxLen(cs.lens)
    && Count(cs.lens, g) > 0 && Used(cs.lens, g) <= Pow2(g)
    && (forall k :: 0 <= k < g ==> c[k] == Count(cs.lens, k))
    && c[g] == Pow2(g) - NextCode(cs.lens, g)
  }

  ghost predicate Values(cs: CodeSet, v: seq<nat>, n: nat, g: nat) {
    && |v| == N_MAX && n == Offset(cs.lens, g) + Count(cs.lens, g) <= N_MAX
    && Sorted(cs.lens, v, g, |cs.lens|)
  }

  function Min(a: nat, b: nat): nat { if a < b then a else b }

  /** Lines 1229 to 1242: the entry for the code, `done` codes of whose length came before. */
  method MakeEntry(cs: CodeSet, c: seq<nat>, v: seq<nat>, n: nat, k: nat, g: nat, w: nat, p: nat, ghost done: nat, ghost cur: Bits)
    returns (r: Huft, p': nat)
    requires WellFormed(cs) && FullCounts(cs, c, g) && Values(cs, v, n, g)
    requires 1 <= k <= g && |cur| == k && w < k && done < c[k]
    requires Msb(cur) == NextCode(cs.lens, k) + done
    requires p == Offset(cs.lens, k) + Min(done, Count(cs.lens, k))
    ensures LeafOk(cs, g, cur, r) && (r.e <= 16 || r.e == INVALID) && r.b == k - w
    ensures p' == Offset(cs.lens, k) + Min(done + 1, Count(cs.lens, k))
  {
    hide Sym;
    p' := p;
    OffsetMono(cs.lens, k, g);
    if p >= n {
      var junk: nat := *;      // r.v keeps what it last held
      r := Huft(INVALID, k - w, junk, 0);
    } else {
      SortedAt(cs, v, g, k, done);
      if v[p] < cs.s {
        r := Huft(if v[p] < 256 then 16 else 15, k - w, v[p], 0);
      } else {
        r := Huft(cs.extra[v[p] - cs.s], k - w, cs.base[v[p] - cs.s], 0);
      }
      p' := p + 1;
    }
  }

  lemma SortedAt(cs: CodeSet, v: seq<nat>, g: nat, k: nat, r: nat)
    requires Sorted(cs.lens, v, g, |cs.lens|) && 1 <= k <= g && r < Count(cs.lens, k)
    ensures Offset(cs.lens, k) + r < |v| && v[Offset(cs.lens, k) + r] == Sym(cs.lens, k, r) < |cs.lens|
  {
    assert cs.lens[..|cs.lens|] == cs.lens;
    assert Placed(cs.lens, v, k, r);
  }

  /** One pass of lines 1178 to 1256: all that is done for one code. */
  method OneCode(cs: CodeSet, c: seq<nat>, v: seq<nat>, n: nat, k: nat, g: nat, m: nat, a: nat, el: nat, i: nat, p: nat,
                 tables: seq<Table>, st: Stack, ghost plan: Plan, ghost cur: Bits)
    returns (i': nat, p': nat, tables': seq<Table>, st': Stack, ghost plan': Plan)
    requires WellFormed(cs) && FullCounts(cs, c, g) && Values(cs, v, n, g) && |c| == BMAX + 1
    requires MayDescend(cs, g, el, k, a, i, tables, st, plan, cur) && a < c[k]
    requires Bounded(m, k, plan.excess)
    requires Msb(cur) == NextCode(cs.lens, k) + c[k] - 1 - a
    requires p == Offset(cs.lens, k) + Min(c[k] - 1 - a, Count(cs.lens, k))
    ensures Partial(cs, g, el, tables', plan', st', Next(cur), Hi(cur, g))
    ensures i' == Val(Next(cur)) && p' == Offset(cs.lens, k) + Min(c[k] - a, Count(cs.lens, k))
    ensures |st'.u| > 0 && |st'.u| == |st'.l| && tables' != []
    ensures forall b :: Before(st'.l, |st'.l|) <= b < k ==> !Next(cur)[b]
    ensures SameRoot(tables, tables', plan, plan', RootFull(c, k, a, m, g, el), g)
  {
    hide Partial, Values, FullCounts, LeafOk, RootFull;
    tables', st', plan' := MakeLevels(cs, c, k, g, m, a, el, i, tables, st, plan, cur);
    var w := Below(st'.l, |st'.l| - 1);
    var r;
    r, p' := MakeEntry(cs, c, v, n, k, g, w, p, c[k] - 1 - a, cur);
    var top := st'.u[|st'.u| - 1];
    TopTable(cs, g, el, tables', plan', st', cur);
    CodeStart(cur, w, i);
    var q := FillTable(tables'[top], i / Pow2(w), Pow2(k - w), r);
    FillCode(cs, g, el, tables', plan', st', cur, r, q);
    tables' := tables'[top := q];
    i' := Increment(i, k, cur);
    ghost var n' := st';
    StackIsOk(cs, g, el, tables', plan', st', cur, Hi(cur, g));
    st' := Backup(i', st', tables', plan', cur);
    NextAndPop(cs, g, el, tables', plan', n', cur, |st'.u|);
  }

  lemma StackIsOk(cs: CodeSet, g: nat, el: nat, tables: seq<Table>, plan: Plan, st: Stack, cur: Bits, p: nat)
    requires WellFormed(cs) && Partial(cs, g, el, tables, plan, st, cur, p)
    ensures |plan.paths| == |plan.sizes| == |plan.shortest| == |tables| && StackOk(tables, plan, st, cur)
  {
  }

  lemma TopTable(cs: CodeSet, g: nat, el: nat, tables: seq<Table>, plan: Plan, st: Stack, cur: Bits)
    requires WellFormed(cs) && |cur| <= g && Partial(cs, g, el, tables, plan, st, cur, Lo(cur, g)) && |st.u| > 0
    ensures st.u[|st.u| - 1] < |tables|
    ensures |st.u| == |st.l| && Before(st.l, |st.l|) == Before(st.l, |st.l| - 1) + st.l[|st.l| - 1]
  {
    assert LevelOk(tables, plan, st, cur, |st.u| - 1);
  }

  lemma CodeStart(cur: Bits, w: nat, i: nat)
    requires w < |cur| && i == Val(cur)
    ensures i / Pow2(w) == Val(cur[w..]) < Pow2(|cur| - w)
  {
    ValSplit(cur, w);
    ValBound(cur[w..]);
  }

  /** Below the longest length some code is always left over. */
  lemma RoomLeft(cs: CodeSet, c: seq<nat>, k: nat, g: nat)
    requires FullCounts(cs, c, g) && 1 <= k < g
    ensures Used(cs.lens, k) < Pow2(k)
  {
    UsedGrows(cs.lens, k, g);
    Pow2Split(k, g);
    if Used(cs.lens, k) >= Pow2(k) {
      MulLess(Pow2(k), Used(cs.lens, k), Pow2(g - k));
    }
  }

  /** Where the generation of codes stands: `a` codes of length `k` are to come. */
  ghost predicate Generating(cs: CodeSet, c: seq<nat>, g: nat, el: nat, k: nat, a: nat, i: nat, p: nat,
                             tables: seq<Table>, st: Stack, plan: Plan, cur: Bits)
    requires WellFormed(cs)
  {
    && FullCounts(cs, c, g) && 1 <= k <= g && a <= c[k]
    && |cur| == k && i == Val(cur)
    && p == Offset(cs.lens, k) + Min(c[k] - a, Count(cs.lens, k))
    && (tables == [] ==> st.u == [])
    && if k == g && a == 0 then Partial(cs, g, el, tables, plan, st, cur, Pow2(g)) && tables != []
       else
         && Msb(cur) == NextCode(cs.lens, k) + c[k] - a
         && Partial(cs, g, el, tables, plan, st, cur, Lo(cur, g))
         && forall b :: Before(st.l, |st.l|) <= b < k ==> !cur[b]
  }

  lemma AfterCode(cs: CodeSet, c: seq<nat>, g: nat, k: nat, a: nat, cur: Bits)
    requires FullCounts(cs, c, g) && 1 <= k <= g && |cur| == k && a < c[k]
    requires Msb(cur) == NextCode(cs.lens, k) + c[k] - 1 - a
    ensures k == g && a == 0 ==> Hi(cur, g) == Pow2(g)
    ensures !(k == g && a == 0) ==> Msb(Next(cur)) == NextCode(cs.lens, k) + c[k] - a && Lo(Next(cur), g) == Hi(cur, g)
  {
    if k < g { RoomLeft(cs, c, k, g); }
    NextMsb(cur);
    NextLo(cur, g);
  }

  /** The codes of one length (lines 1175 to 1257). */
  method CodesOfLength(cs: CodeSet, c: seq<nat>, v: seq<nat>, n: nat, k: nat, g: nat, m: nat, el: nat, i: nat, p: nat,
                       tables: seq<Table>, st: Stack, ghost plan: Plan, ghost cur: Bits)
    returns (i': nat, p': nat, tables': seq<Table>, st': Stack, ghost plan': Plan, ghost cur': Bits)
    requires WellFormed(cs) && Values(cs, v, n, g) && k < |c|
    requires Generating(cs, c, g, el, k, c[k], i, p, tables, st, plan, cur)
    requires (k == g ==> c[k] > 0) && Bounded(m, k, plan.excess)
    ensures Generating(cs, c, g, el, k, 0, i', p', tables', st', plan', cur')
    ensures c[k] > 0 ==> SameRoot(tables, tables', plan, plan', RootFull(c, k, c[k] - 1, m, g, el), g)
    ensures c[k] > 0 ==> tables' != []
    ensures plan'.excess == plan.excess
    ensures tables != [] ==> tables' != [] && plan.sizes != [] && plan'.sizes != [] && plan'.sizes[0] == plan.sizes[0]
  {
    hide Partial, Values, RootFull;
    SizesKnown(cs, c, g, el, k, c[k], i, p, tables, st, plan, cur);
    i', p', tables', st', plan', cur' := i, p, tables, st, plan, cur;
    var a := c[k];
    while a > 0
      invariant 0 <= a <= c[k]
      invariant Generating(cs, c, g, el, k, a, i', p', tables', st', plan', cur')
      invariant c[k] > 0 ==> SameRoot(tables, tables', plan, plan', RootFull(c, k, c[k] - 1, m, g, el), g)
      invariant a < c[k] ==> tables' != []
      invariant plan'.excess == plan.excess
      invariant a == c[k] ==> tables' == tables
      invariant tables != [] ==> tables' != [] && plan.sizes != [] && plan'.sizes != [] && plan'.sizes[0] == plan.sizes[0]
    {
      a := a - 1;
      AfterCode(cs, c, g, k, a, cur');
      ghost var next := Next(cur');
      i', p', tables', st', plan' := OneCode(cs, c, v, n, k, g, m, a, el, i', p', tables', st', plan', cur');
      cur' := next;
    }
  }

  lemma SizesKnown(cs: CodeSet, c: seq<nat>, g: nat, el: nat, k: nat, a: nat, i: nat, p: nat,
                   tables: seq<Table>, st: Stack, plan: Plan, cur: Bits)
    requires WellFormed(cs) && Generating(cs, c, g, el, k, a, i, p, tables, st, plan, cur)
    ensures |plan.sizes| == |tables|
  {
  }

  lemma NextLength(cs: CodeSet, c: seq<nat>, g: nat, el: nat, k: nat, i: nat, p: nat, tables: seq<Table>, st: Stack, plan: Plan, cur: Bits)
    requires WellFormed(cs) && Generating(cs, c, g, el, k, 0, i, p, tables, st, plan, cur) && k < g
    ensures Generating(cs, c, g, el, k + 1, c[k + 1], i, p, tables, st, plan, cur + [false])
    ensures k + 1 == g ==> c[g] > 0
  {
    hide Partial;
    LengthenCode(cs, g, el, tables, plan, st, cur);
    ValConcat(cur, [false]);
    assert [false][1..] == [];
    MsbConcat(cur, [false]);
    assert [false][..0] == [];
    assert Pow2(1) == 2 * Pow2(0);
    if k + 1 == g { CountsLeft(cs, c, g); }
  }

  lemma CountsLeft(cs: CodeSet, c: seq<nat>, g: nat)
    requires FullCounts(cs, c, g)
    ensures c[g] >= Count(cs.lens, g) > 0
  {
  }

  /** Tables in which every entry is final. */
  ghost predicate Complete(cs: CodeSet, g: nat, el: nat, tables: seq<Table>, plan: Plan, root: nat)
    requires WellFormed(cs)
  {
    && TablesOk(tables, plan, g, el) && tables != []
    && plan.paths[0] == [] && plan.sizes[0] == root
    && forall t, q :: EntryOk(cs, g, tables, plan, Pow2(g), t, q)
  }

  lemma Finished(cs: CodeSet, g: nat, el: nat, tables: seq<Table>, plan: Plan, st: Stack, cur: Bits)
    requires WellFormed(cs) && Partial(cs, g, el, tables, plan, st, cur, Pow2(g)) && tables != []
    ensures |st.l| > 0 && Complete(cs, g, el, tables, plan, st.l[0])
    ensures |plan.sizes| > 0 && plan.sizes[0] == st.l[0]
  {
    assert LevelOk(tables, plan, st, cur, 0);
  }

  lemma Start(cs: CodeSet, c: seq<nat>, g: nat, el: nat, k: nat, excess: nat)
    requires WellFormed(cs) && FullCounts(cs, c, g) && 1 <= k <= g && forall i :: 1 <= i < k ==> Count(cs.lens, i) == 0
    ensures Generating(cs, c, g, el, k, c[k], 0, 0, [], Stack([], [], []), Plan([], [], [], excess), Zeros(k))
    ensures k == g ==> c[g] > 0
  {
    ZerosNumbers(k);
    UsedShort(cs.lens, k);
    OffsetShort(cs.lens, k);
    CountsLeft(cs, c, g);
  }

  lemma {:induction false} OffsetShort(lens: Lens, k: nat)
    requires forall i :: 1 <= i < k ==> Count(lens, i) == 0
    ensures Offset(lens, k) == 0
  {
    if k > 1 {
      OffsetShort(lens, k - 1);
    }
  }

  lemma {:induction false} LeftIsUnused(cs: CodeSet, c: seq<nat>, first: nat, g: nat, i: nat)
    requires FullCounts(cs, c, g) && 1 <= first <= i < g && forall j :: 1 <= j < first ==> Count(cs.lens, j) == 0
    ensures Left(c, first, i) == Pow2(i) - Used(cs.lens, i)
    decreases i
  {
    if i == first {
      UsedShort(cs.lens, first);
    } else {
      LeftIsUnused(cs, c, first, g, i - 1);
    }
  }

  lemma FirstTableFull(cs: CodeSet, c: seq<nat>, first: nat, g: nat, m: nat, el: nat)
    requires FullCounts(cs, c, g) && 1 <= first <= g && c[first] > 0 && m >= g && el >= g
    requires forall j :: 1 <= j < first ==> Count(cs.lens, j) == 0
    ensures RootFull(c, first, c[first] - 1, m, g, el)
  {
    forall i | first <= i < g
      ensures Left(c, first, i) > 0
    {
      LeftIsUnused(cs, c, first, g, i);
      RoomLeft(cs, c, i, g);
    }
  }

  /** Lines 1164 to 1262: all codes in order, and the size of the first table. */
  method MakeCodes(cs: CodeSet, c: seq<nat>, v: seq<nat>, n: nat, first: nat, g: nat, m: nat, el: nat,
                   ghost excess: nat)
    returns (tables: seq<Table>, root: nat, ghost plan: Plan)
    requires WellFormed(cs) && FullCounts(cs, c, g) && Values(cs, v, n, g)
    requires |c| == BMAX + 1 && 1 <= first <= g <= BMAX && Bounded(m, first, excess) && c[first] > 0 && forall i :: 1 <= i < first ==> Count(cs.lens, i) == 0
    ensures Complete(cs, g, el, tables, plan, root) && plan.excess == excess
    ensures m >= g && el >= g ==> root == g
  {
    hide Partial, Values, Complete, RootFull, FullCounts;
    if m >= g && el >= g { FirstTableFull(cs, c, first, g, m, el); }
    var k, i, p := first, 0, 0;
    var st := Stack([], [], []);
    tables, plan := [], Plan([], [], [], excess);
    ghost var cur := Zeros(k);
    Start(cs, c, g, el, k, excess);
    i, p, tables, st, plan, cur := CodesOfLength(cs, c, v, n, k, g, m, el, i, p, tables, st, plan, cur);
    SizesKnown(cs, c, g, el, k, 0, i, p, tables, st, plan, cur);
    while k < g
      invariant first <= k <= g && Generating(cs, c, g, el, k, 0, i, p, tables, st, plan, cur)
      invariant plan.excess == excess
      invariant tables != [] && plan.sizes != [] && (m >= g && el >= g ==> plan.sizes[0] == g)
    {
      NextLength(cs, c, g, el, k, i, p, tables, st, plan, cur);
      k := k + 1;
      i, p, tables, st, plan, cur := CodesOfLength(cs, c, v, n, k, g, m, el, i, p, tables, st, plan, cur + [false]);
    }
    Finished(cs, g, el, tables, plan, st, cur);
    root := st.l[0];
  }

  // ----- What the finished tables decode -----

  function Shift(found: Found, n: nat): Found {
    if found.Code? then Code(found.op, found.arg, n + found.used) else found
  }

  /** A code of the longest length that is past all symbols begins no codeword's string. */
  lemma UnassignedMatchesNone(cs: CodeSet, g: nat, s: Bits, v: nat)
    requires WellFormed(cs) && g == MaxLen(cs.lens) && 0 < g <= |s|
    requires Msb(s[..g]) >= NextCode(cs.lens, g) + Count(cs.lens, g)
    ensures !Matches(cs.lens, v, s)
  {
    if Matches(cs.lens, v, s) {
      MatchesIsSym(cs.lens, v, s);
      if cs.lens[v] < g {
        LongerIsLarger(cs.lens, s, cs.lens[v], g);
      }
    }
  }

  /** A final leaf is what the canonical decoder finds. */
  lemma LeafDecodes(cs: CodeSet, g: nat, c: Bits, x: Huft, s: Bits)
    requires WellFormed(cs) && g == MaxLen(cs.lens) && LeafOk(cs, g, c, x) && (x.e <= 16 || x.e == INVALID)
    requires |c| <= |s| && s[..|c|] == c
    ensures DecodeFrom(cs, s, 1) == if x.e == INVALID then BadCode else Code(x.e, x.n, |c|)
  {
    hide DecodeFrom, Matches;
    var k := |c|;
    var r := Msb(c) - NextCode(cs.lens, k);
    if r < Count(cs.lens, k) {
      SymMatches(cs.lens, s, k, r);
      DecodeMatch(cs, s, Sym(cs.lens, k, r), 1);
    } else {
      forall v: nat
        ensures !Matches(cs.lens, v, s)
      {
        UnassignedMatchesNone(cs, g, s, v);
      }
      DecodeNone(cs, s, 1);
    }
  }

  /** The entry a walk looks at is final. */
  lemma EntryFinal(cs: CodeSet, g: nat, el: nat, tables: seq<Table>, plan: Plan, root: nat, t: nat, q: Bits)
    requires WellFormed(cs) && Complete(cs, g, el, tables, plan, root) && t < |tables| && |q| == plan.sizes[t]
    ensures EntryGood(cs, g, tables, plan, t, q)
  {
    assert EntryOk(cs, g, tables, plan, Pow2(g), t, q);
    HiBound(plan.paths[t] + q, g);
  }

  /** From any table, a walk finds what the canonical decoder finds. */
  lemma {:induction false} WalkFrom(cs: CodeSet, g: nat, el: nat, tables: seq<Table>, plan: Plan, root: nat, t: nat, s: Bits)
    requires WellFormed(cs) && g == MaxLen(cs.lens) && Complete(cs, g, el, tables, plan, root) && t < |tables|
    requires |s| >= g && s[..|plan.paths[t]|] == plan.paths[t]
    ensures var n := |plan.paths[t]|;
      Shift(Walk(tables, t, plan.sizes[t], s[n..]), n) == DecodeFrom(cs, s, 1)
    decreases g - |plan.paths[t]|
  {
    hide LeafOk, DecodeFrom;
    var n := |plan.paths[t]|;
    var q := s[n..n + plan.sizes[t]];
    EntryFinal(cs, g, el, tables, plan, root, t, q);
    assert s[n..][..plan.sizes[t]] == q;
    var x := tables[t][Val(q)];
    if x.e <= 16 || x.e == INVALID {
      assert s[..n + x.b] == plan.paths[t] + q[..x.b];
      LeafDecodes(cs, g, plan.paths[t] + q[..x.b], x, s);
    } else {
      assert s[..n + |q|] == plan.paths[x.t];
      assert s[n..][x.b..] == s[|plan.paths[x.t]|..];
      WalkFrom(cs, g, el, tables, plan, root, x.t, s);
    }
  }

  lemma MatchIsEnd(cs: CodeSet, s: Bits)
    requires WellFormed(cs) && cs.s > 256 && Matches(cs.lens, 256, s)
    ensures DecodeFrom(cs, s, 1) == Code(15, 256, cs.lens[256])
  {
    DecodeMatch(cs, s, 256, 1);
  }

  /** When the string is just the end-of-block code, no lookup on its way needs more bits. */
  lemma {:induction false} WalkToEnd(cs: CodeSet, g: nat, el: nat, tables: seq<Table>, plan: Plan, root: nat, t: nat, s: Bits)
    requires WellFormed(cs) && g == MaxLen(cs.lens) && Complete(cs, g, el, tables, plan, root) && t < |tables|
    requires cs.s > 256 && Matches(cs.lens, 256, s) && |s| == el == cs.lens[256]
    requires |plan.paths[t]| < el && s[..|plan.paths[t]|] == plan.paths[t]
    ensures var n := |plan.paths[t]|;
      Shift(Walk(tables, t, plan.sizes[t], s[n..]), n) == Code(15, 256, el)
    decreases g - |plan.paths[t]|
  {
    hide LeafOk, DecodeFrom, Matches;
    var n := |plan.paths[t]|;
    var q := s[n..n + plan.sizes[t]];
    EntryFinal(cs, g, el, tables, plan, root, t, q);
    assert s[n..][..plan.sizes[t]] == q;
    var x := tables[t][Val(q)];
    MatchIsEnd(cs, s);
    if x.e <= 16 || x.e == INVALID {
      assert s[..n + x.b] == plan.paths[t] + q[..x.b];
      LeafDecodes(cs, g, plan.paths[t] + q[..x.b], x, s);
    } else {
      assert s[..n + |q|] == plan.paths[x.t];
      assert s[n..][x.b..] == s[|plan.paths[x.t]|..];
      if n + |q| == el {
        NoTableBelow(cs, g, el, tables, plan, root, x.t, s);
      }
      WalkToEnd(cs, g, el, tables, plan, root, x.t, s);
    }
  }

  /** No table lies below a whole codeword. */
  lemma NoTableBelow(cs: CodeSet, g: nat, el: nat, tables: seq<Table>, plan: Plan, root: nat, t: nat, s: Bits)
    requires WellFormed(cs) && g == MaxLen(cs.lens) && Complete(cs, g, el, tables, plan, root) && t < |tables|
    requires cs.s > 256 && Matches(cs.lens, 256, s) && |s| == el == cs.lens[256]
    ensures plan.paths[t] != s
  {
    if plan.paths[t] == s {
      var s' := s + Zeros(g);
      assert s'[..el] == s && s == s[..el];
      WalkFrom(cs, g, el, tables, plan, root, t, s');
      DecodeMatch(cs, s', 256, 1);
      WalkUses(cs, g, el, tables, plan, root, t, s'[el..]);
    }
  }

  lemma WalkUses(cs: CodeSet, g: nat, el: nat, tables: seq<Table>, plan: Plan, root: nat, t: nat, s: Bits)
    requires WellFormed(cs) && Complete(cs, g, el, tables, plan, root) && t < |tables|
    ensures var found := Walk(tables, t, plan.sizes[t], s); found.Code? ==> found.used > 0
  {
    if plan.sizes[t] <= |s| {
      EntryFinal(cs, g, el, tables, plan, root, t, s[..plan.sizes[t]]);
    }
  }

  // ----- How far ahead a walk looks -----

  /** A code found from table `t` is at least as long as the shortest one noted for it. */
  lemma {:induction false} WalkLength(cs: CodeSet, g: nat, el: nat, tables: seq<Table>, plan: Plan, root: nat, t: nat, s: Bits)
    requires WellFormed(cs) && Complete(cs, g, el, tables, plan, root) && t < |tables|
    ensures var found := Walk(tables, t, plan.sizes[t], s);
      found.Code? ==> |plan.paths[t]| + found.used >= plan.shortest[t]
    decreases |s|
  {
    hide LeafOk;
    if plan.sizes[t] <= |s| {
      var q := s[..plan.sizes[t]];
      EntryFinal(cs, g, el, tables, plan, root, t, q);
      var x := tables[t][Val(q)];
      if x.e > 16 && x.e != INVALID {
        WalkLength(cs, g, el, tables, plan, root, x.t, s[x.b..]);
      }
    }
  }

  /** A code with `excess` bits behind it is found; `r` stands for any bits after those. */
  lemma {:induction false} WalkEnough(cs: CodeSet, g: nat, el: nat, tables: seq<Table>, plan: Plan, root: nat, t: nat, s: Bits, r: Bits)
    requires WellFormed(cs) && Complete(cs, g, el, tables, plan, root) && t < |tables| && |plan.paths[t]| <= |s|
    requires var found := Walk(tables, t, plan.sizes[t], s[|plan.paths[t]|..] + r);
      found.Code? && |plan.paths[t]| + found.used + plan.excess <= |s|
    ensures Walk(tables, t, plan.sizes[t], s[|plan.paths[t]|..]) == Walk(tables, t, plan.sizes[t], s[|plan.paths[t]|..] + r)
    decreases |s| - |plan.paths[t]|
  {
    hide LeafOk;
    var rest := s[|plan.paths[t]|..];
    var n := plan.sizes[t];
    WalkLength(cs, g, el, tables, plan, root, t, rest + r);
    assert (rest + r)[..n] == rest[..n];
    EntryFinal(cs, g, el, tables, plan, root, t, rest[..n]);
    var x := tables[t][Val(rest[..n])];
    if x.e > 16 {
      assert (rest + r)[x.b..] == rest[x.b..] + r;
      assert rest[x.b..] == s[|plan.paths[x.t]|..];
      WalkEnough(cs, g, el, tables, plan, root, x.t, s, r);
    }
  }

  // ----- huft_build -----

  /** The length of the end-of-block code, if any (line 1107). */
  function EndLen(lens: Lens): nat {
    if |lens| > 256 then lens[256] else BMAX
  }

  /** What huft_build promises: the tables decode the canonical code, and the end-of-block code without
      looking at any bit beyond it. */
  ghost predicate Decodes(cs: CodeSet, tables: seq<Table>, root: nat)
    requires WellFormed(cs)
  {
    && tables != []
    && (forall s: Bits :: |s| >= MaxLen(cs.lens) ==> Walk(tables, 0, root, s) == DecodeFrom(cs, s, 1))
    && (forall s: Bits :: cs.s > 256 && Matches(cs.lens, 256, s) && |s| == cs.lens[256] ==>
          Walk(tables, 0, root, s) == Code(15, 256, |s|))
  }

  /** Every code with EXCESS bits behind it is found. */
  ghost predicate Modest(cs: CodeSet, tables: seq<Table>, root: nat)
    requires WellFormed(cs)
  {
    forall s: Bits :: LongEnough(cs, s) ==> Walk(tables, 0, root, s) == DecodeFrom(cs, s, 1)
  }

  ghost predicate LongEnough(cs: CodeSet, s: Bits)
    requires WellFormed(cs)
  {
    var found := DecodeFrom(cs, s, 1);
    found.Code? && found.used + EXCESS <= |s|
  }

  /** More bits do not change what has been decoded. */
  lemma {:induction false} DecodeLonger(cs: CodeSet, s: Bits, r: Bits, k: nat)
    requires WellFormed(cs) && k > 0 && DecodeFrom(cs, s, k).Code?
    ensures DecodeFrom(cs, s + r, k) == DecodeFrom(cs, s, k)
    decreases |s| + 1 - k
  {
    assert (s + r)[..k] == s[..k];
    var m := Msb(s[..k]) - NextCode(cs.lens, k);
    if !(0 <= m < Count(cs.lens, k)) {
      DecodeLonger(cs, s, r, k + 1);
    }
  }

  lemma CompleteModest(cs: CodeSet, g: nat, el: nat, tables: seq<Table>, plan: Plan, root: nat)
    requires WellFormed(cs) && g == MaxLen(cs.lens) && Complete(cs, g, el, tables, plan, root) && plan.excess <= EXCESS
    ensures Modest(cs, tables, root)
  {
    forall s: Bits | LongEnough(cs, s)
      ensures Walk(tables, 0, root, s) == DecodeFrom(cs, s, 1)
    {
      var r := Zeros(g);
      DecodeLonger(cs, s, r, 1);
      WalkFrom(cs, g, el, tables, plan, root, 0, s + r);
      assert (s + r)[0..] == s + r && s[0..] == s;
      ShiftZero(Walk(tables, 0, root, s + r));
      WalkEnough(cs, g, el, tables, plan, root, 0, s, r);
    }
  }

  lemma CompleteDecodes(cs: CodeSet, g: nat, tables: seq<Table>, plan: Plan, root: nat)
    requires WellFormed(cs) && g == MaxLen(cs.lens) && Complete(cs, g, EndLen(cs.lens), tables, plan, root)
    ensures Decodes(cs, tables, root)
  {
    forall s: Bits | |s| >= g
      ensures Walk(tables, 0, root, s) == DecodeFrom(cs, s, 1)
    {
      WalkFrom(cs, g, EndLen(cs.lens), tables, plan, root, 0, s);
      assert s[0..] == s;
      ShiftZero(Walk(tables, 0, root, s));
    }
    forall s: Bits | cs.s > 256 && Matches(cs.lens, 256, s) && |s| == cs.lens[256]
      ensures Walk(tables, 0, root, s) == Code(15, 256, |s|)
    {
      WalkToEnd(cs, g, EndLen(cs.lens), tables, plan, root, 0, s);
      assert s[0..] == s;
      ShiftZero(Walk(tables, 0, root, s));
    }
  }

  lemma ShiftZero(found: Found)
    ensures Shift(found, 0) == found
  {
  }

  /** The entry at index `i` of table `t` is a leaf or a link to a table, and takes no more bits than were looked at. */
  ghost predicate EntrySound(tables: seq<Table>, sizes: seq<nat>, t: nat, i: nat)
    requires |sizes| == |tables| && t < |tables| && i < |tables[t]|
  {
    var x := tables[t][i];
    if x.e <= 16 || x.e == INVALID then 0 < x.b <= sizes[t]
    else x.t < |tables| && x.e == 16 + sizes[x.t] && x.b == sizes[t]
  }

  /** Tables that can be walked without leaving them; `sizes` are their sizes in bits. */
  ghost predicate Sound(tables: seq<Table>, sizes: seq<nat>, root: nat) {
    && tables != [] && |sizes| == |tables| && sizes[0] == root
    && forall t :: 0 <= t < |tables| ==>
        && |tables[t]| == Pow2(sizes[t]) && 1 <= sizes[t] <= BMAX
        && forall i :: 0 <= i < |tables[t]| ==> EntrySound(tables, sizes, t, i)
  }

  lemma CompleteSound(cs: CodeSet, g: nat, el: nat, tables: seq<Table>, plan: Plan, root: nat)
    requires WellFormed(cs) && Complete(cs, g, el, tables, plan, root)
    ensures Sound(tables, plan.sizes, root)
    ensures root == g ==> forall i :: 0 <= i < |tables[0]| ==> tables[0][i].e <= 16 || tables[0][i].e == INVALID
  {
    forall t, i | 0 <= t < |tables| && 0 <= i < |tables[t]|
      ensures EntrySound(tables, plan.sizes, t, i)
      ensures t == 0 && root == g ==> tables[t][i].e <= 16 || tables[t][i].e == INVALID
    {
      BitsOfVal(i, plan.sizes[t]);
      EntryFinal(cs, g, el, tables, plan, root, t, BitsOf(i, plan.sizes[t]));
    }
  }

  /** huft_build: 2 exactly when there are more symbols than codes (Kraft sum above 1), 1 exactly when
      codes are left over and the longest length is not 1; else 0.  Except with 2, or when no symbol is
      used, the tables decode the canonical code; if the limit allows, by one lookup; and with a limit of at most
      EXCESS they look no further ahead than that. */
  method HuftBuild(cs: CodeSet, limit: nat) returns (code: nat, tables: seq<Table>, root: nat, ghost sizes: seq<nat>)
    requires WellFormed(cs)
    ensures MaxLen(cs.lens) == 0 ==> code == 0 && root == 0 && tables == []
    ensures MaxLen(cs.lens) > 0 ==>
      var g := MaxLen(cs.lens);
      && root > 0 && code <= 2
      && (code == 2 <==> Kraft(cs.lens, g) > Pow2(g))
      && (code == 1 <==> Kraft(cs.lens, g) < Pow2(g) && g != 1)
      && (code != 2 ==> Decodes(cs, tables, root) && Sound(tables, sizes, root))
      && (code != 2 && limit <= EXCESS ==> Modest(cs, tables, root))
      && (code != 2 && limit >= g && EndLen(cs.lens) >= g ==>
            root == g && forall i :: 0 <= i < |tables[0]| ==> tables[0][i].e <= 16 || tables[0][i].e == INVALID)
  {
    hide Decodes, Modest, Complete;
    tables, sizes := [], [];
    var el := if |cs.lens| > 256 then cs.lens[256] else BMAX;
    var c := CountLengths(cs.lens);
    AllOfOne(cs.lens, 0);
    if c[0] == |cs.lens| {
      return 0, [], 0, [];
    }
    var k, g := Bounds(cs.lens, c);
    KraftIsUsed(cs.lens, g);
    var m := limit;
    if m < k { m := k; }
    if m > g { m := g; }
    var y := FillOut(cs.lens, c, k, g);
    if y < 0 {
      return 2, [], m, [];
    }
    var x := Offsets(cs.lens, c, g);
    var v, n := SortSymbols(cs.lens, x, g);
    c := c[g := c[g] + y];
    ghost var plan;
    tables, root, plan := MakeCodes(cs, c, v, n, k, g, m, el, if limit <= EXCESS then EXCESS else BMAX);
    CompleteDecodes(cs, g, tables, plan, root);
    if limit <= EXCESS { CompleteModest(cs, g, el, tables, plan, root); }
    CompleteSound(cs, g, el, tables, plan, root);
    sizes := plan.sizes;
    code := if y != 0 && g != 1 then 1 else 0;
  }
}
