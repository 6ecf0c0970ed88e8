// The steps of huft_build on partly built tables: each keeps what holds of them.
module HuftSteps {
  import opened BitStrings
  import opened CanonicalCode
  import opened HuftTables

  lemma {:induction false} BeforeAppend(l: seq<nat>, j: nat, h: nat)
    requires h <= |l|
    ensures Before(l + [j], h) == Before(l, h)
  {
    if h > 0 {
      BeforeAppend(l, j, h - 1);
    }
  }

  lemma {:induction false} BeforeTake(l: seq<nat>, n: nat, h: nat)
    requires h <= n <= |l|
    ensures Before(l[..n], h) == Before(l, h)
  {
    if h > 0 {
      BeforeTake(l, n, h - 1);
    }
  }

  lemma {:induction false} BeforeGrows(l: seq<nat>, h: nat, i: nat)
    requires h <= i <= |l| && forall k :: 0 <= k < |l| ==> l[k] >= 1
    ensures Before(l, h) + (i - h) <= Before(l, i)
    ensures h < i ==> Before(l, h + 1) <= Before(l, i)
    decreases i - h
  {
    if h < i {
      BeforeGrows(l, h, i - 1);
    }
  }

  /** Different levels have different tables. */
  lemma LevelsDiffer(tables: seq<Table>, plan: Plan, st: Stack, cur: Bits, h: nat, i: nat)
    requires |plan.paths| == |plan.sizes| == |plan.shortest| == |tables| && StackOk(tables, plan, st, cur)
    requires h < i < |st.u|
    ensures st.u[h] != st.u[i]
  {
    BeforeGrows(st.l, h, i);
    assert LevelOk(tables, plan, st, cur, h) && LevelOk(tables, plan, st, cur, i);
  }

  // ----- A new table -----

  function AddPlan(plan: Plan, path: Bits, j: nat, k: nat): Plan {
    Plan(plan.paths + [path], plan.sizes + [j], plan.shortest + [k], plan.excess)
  }

  function Push(st: Stack, t: nat, j: nat, x: nat): Stack {
    Stack(st.u + [t], st.l + [j], st.x + [x])
  }

  /** The table `blank` is appended and, if there is a table above it, linked there. */
  function Linked(tables: seq<Table>, blank: Table, st: Stack, index: nat, j: nat): seq<Table>
    requires |st.u| == |st.l|
    requires st.u != [] ==> st.u[|st.u| - 1] < |tables| && index < |tables[st.u[|st.u| - 1]]|
  {
    if st.u == [] then tables + [blank]
    else
      var top := |st.u| - 1;
      tables[st.u[top] := tables[st.u[top]][index := Huft(16 + j, st.l[top], 0, |tables|)]] + [blank]
  }

  /** A new table may be pushed: the current code is zero below the tables so far. */
  ghost predicate CanPush(cs: CodeSet, g: nat, el: nat, tables: seq<Table>, plan: Plan, st: Stack, cur: Bits, j: nat, blank: Table)
    requires WellFormed(cs)
  {
    && |cur| <= g
    && Partial(cs, g, el, tables, plan, st, cur, Lo(cur, g))
    && var w := Before(st.l, |st.l|);
    && w < |cur| && (forall i :: w <= i < |cur| ==> !cur[i])
    && 1 <= j <= BMAX && w + j <= g && (w < el ==> w + j <= el) && w + j <= |cur| + plan.excess
    && |blank| == Pow2(j)
    && (tables == [] ==> st.u == [])
  }

  /** The index of the link: the pattern of the table above. */
  ghost function LinkBits(st: Stack, cur: Bits): Bits
    requires Before(st.l, |st.l|) <= |cur|
  {
    if st.l == [] then [] else cur[Before(st.l, |st.l| - 1)..Before(st.l, |st.l|)]
  }

  lemma LinkIndex(cs: CodeSet, g: nat, el: nat, tables: seq<Table>, plan: Plan, st: Stack, cur: Bits, j: nat, blank: Table)
    requires WellFormed(cs) && CanPush(cs, g, el, tables, plan, st, cur, j, blank) && st.u != []
    ensures var top := |st.u| - 1;
      && st.u[top] < |tables| && |LinkBits(st, cur)| == st.l[top] == plan.sizes[st.u[top]]
      && Val(LinkBits(st, cur)) < |tables[st.u[top]]|
      && plan.paths[st.u[top]] + LinkBits(st, cur) == cur[..Before(st.l, |st.l|)]
  {
    var top := |st.u| - 1;
    assert LevelOk(tables, plan, st, cur, top);
    ValBound(LinkBits(st, cur));
    assert plan.paths[st.u[top]] + LinkBits(st, cur) == cur[..Before(st.l, |st.l|)];
  }

  lemma PushOldLevel(cs: CodeSet, g: nat, el: nat, tables: seq<Table>, plan: Plan, st: Stack, cur: Bits, j: nat, blank: Table, h: nat)
    requires WellFormed(cs) && CanPush(cs, g, el, tables, plan, st, cur, j, blank) && h < |st.u|
    requires st.u[|st.u| - 1] < |tables| && Val(LinkBits(st, cur)) < |tables[st.u[|st.u| - 1]]|
    ensures var w := Before(st.l, |st.l|);
      LevelOk(Linked(tables, blank, st, Val(LinkBits(st, cur)), j), AddPlan(plan, cur[..w], j, |cur|),
        Push(st, |tables|, j, Val(cur[..w])), cur, h)
  {
    BeforeAppend(st.l, j, h);
    assert LevelOk(tables, plan, st, cur, h);
    if h > 0 {
      BeforeAppend(st.l, j, h - 1);
      LevelsDiffer(tables, plan, st, cur, h - 1, |st.u| - 1);
    }
  }

  lemma PushNewLevel(cs: CodeSet, g: nat, el: nat, tables: seq<Table>, plan: Plan, st: Stack, cur: Bits, j: nat, blank: Table)
    requires WellFormed(cs) && CanPush(cs, g, el, tables, plan, st, cur, j, blank)
    requires st.u != [] ==> st.u[|st.u| - 1] < |tables| && Val(LinkBits(st, cur)) < |tables[st.u[|st.u| - 1]]|
    ensures var w := Before(st.l, |st.l|);
      LevelOk(Linked(tables, blank, st, Val(LinkBits(st, cur)), j), AddPlan(plan, cur[..w], j, |cur|),
        Push(st, |tables|, j, Val(cur[..w])), cur, |st.u|)
  {
    BeforeAppend(st.l, j, |st.l|);
    if st.u != [] {
      BeforeAppend(st.l, j, |st.l| - 1);
      LinkIndex(cs, g, el, tables, plan, st, cur, j, blank);
      assert LevelOk(tables, plan, st, cur, |st.u| - 1);
    }
  }

  lemma PushStack(cs: CodeSet, g: nat, el: nat, tables: seq<Table>, plan: Plan, st: Stack, cur: Bits, j: nat, blank: Table)
    requires WellFormed(cs) && CanPush(cs, g, el, tables, plan, st, cur, j, blank)
    requires st.u != [] ==> st.u[|st.u| - 1] < |tables| && Val(LinkBits(st, cur)) < |tables[st.u[|st.u| - 1]]|
    ensures var w := Before(st.l, |st.l|);
      var tables', plan', st' := Linked(tables, blank, st, Val(LinkBits(st, cur)), j), AddPlan(plan, cur[..w], j, |cur|), Push(st, |tables|, j, Val(cur[..w]));
      TablesOk(tables', plan', g, el) && StackOk(tables', plan', st', cur)
  {
    hide LevelOk;
    var w := Before(st.l, |st.l|);
    var tables', plan', st' := Linked(tables, blank, st, Val(LinkBits(st, cur)), j), AddPlan(plan, cur[..w], j, |cur|), Push(st, |tables|, j, Val(cur[..w]));
    forall h | 0 <= h < |st'.u|
      ensures LevelOk(tables', plan', st', cur, h)
    {
      if h < |st.u| {
        PushOldLevel(cs, g, el, tables, plan, st, cur, j, blank, h);
      } else {
        PushNewLevel(cs, g, el, tables, plan, st, cur, j, blank);
      }
    }
  }

  lemma PushEntry(cs: CodeSet, g: nat, el: nat, tables: seq<Table>, plan: Plan, st: Stack, cur: Bits, j: nat, blank: Table, t: nat, q: Bits)
    requires WellFormed(cs) && CanPush(cs, g, el, tables, plan, st, cur, j, blank)
    requires st.u != [] ==> st.u[|st.u| - 1] < |tables| && Val(LinkBits(st, cur)) < |tables[st.u[|st.u| - 1]]|
    ensures var w := Before(st.l, |st.l|);
      var tables', plan' := Linked(tables, blank, st, Val(LinkBits(st, cur)), j), AddPlan(plan, cur[..w], j, |cur|);
      EntryOk(cs, g, tables', plan', Lo(cur, g), t, q)
  {
    var w := Before(st.l, |st.l|);
    var tables', plan' := Linked(tables, blank, st, Val(LinkBits(st, cur)), j), AddPlan(plan, cur[..w], j, |cur|);
    assert EntryOk(cs, g, tables, plan, Lo(cur, g), t, q);
    if t < |tables'| && |q| == plan'.sizes[t] && Done(plan'.paths[t] + q, Lo(cur, g), g) {
      if t == |tables| {
        assert (cur[..w] + q)[..w] == cur[..w];
        NothingDone(cur[..w] + q, cur, w, g);
      } else if st.u != [] && t == st.u[|st.u| - 1] && Val(q) == Val(LinkBits(st, cur)) {
        LinkIndex(cs, g, el, tables, plan, st, cur, j, blank);
        ValInjective(q, LinkBits(st, cur));
        NothingDone(cur[..w], cur, w, g);
      }
    }
  }

  lemma PushOnStack(st: Stack, t: nat, j: nat, x: nat, u: nat)
    requires OnStack(st, u) || u == t
    ensures OnStack(Push(st, t, j, x), u)
  {
    var st' := Push(st, t, j, x);
    if OnStack(st, u) {
      var h :| 0 <= h < |st.u| && st.u[h] == u;
      assert st'.u[h] == u;
    } else {
      assert st'.u[|st.u|] == u;
    }
  }

  lemma PushTable(cs: CodeSet, g: nat, el: nat, tables: seq<Table>, plan: Plan, st: Stack, cur: Bits, j: nat, blank: Table)
    requires WellFormed(cs) && CanPush(cs, g, el, tables, plan, st, cur, j, blank)
    ensures st.u != [] ==> st.u[|st.u| - 1] < |tables| && Val(LinkBits(st, cur)) < |tables[st.u[|st.u| - 1]]|
    ensures var w := Before(st.l, |st.l|);
      Partial(cs, g, el, Linked(tables, blank, st, Val(LinkBits(st, cur)), j), AddPlan(plan, cur[..w], j, |cur|),
        Push(st, |tables|, j, Val(cur[..w])), cur, Lo(cur, g))
  {
    if st.u != [] { LinkIndex(cs, g, el, tables, plan, st, cur, j, blank); }
    var w := Before(st.l, |st.l|);
    var tables', plan', st' := Linked(tables, blank, st, Val(LinkBits(st, cur)), j), AddPlan(plan, cur[..w], j, |cur|), Push(st, |tables|, j, Val(cur[..w]));
    PushStack(cs, g, el, tables, plan, st, cur, j, blank);
    forall t, q
      ensures EntryOk(cs, g, tables', plan', Lo(cur, g), t, q)
    {
      PushEntry(cs, g, el, tables, plan, st, cur, j, blank, t, q);
    }
    forall t | 0 <= t < |tables'|
      ensures OnStack(st', t) || Done(plan'.paths[t], Lo(cur, g), g)
    {
      if t == |tables| || OnStack(st, t) {
        PushOnStack(st, |tables|, j, Val(cur[..w]), t);
      }
    }
  }

  // ----- The entries of one code -----

  /** `table'` is `table` with the entry `r` wherever the index ends in the bits of the code. */
  ghost predicate Filled(table: Table, table': Table, start: nat, f: nat, r: Huft)
    requires f > 0
  {
    && |table'| == |table|
    && forall i :: 0 <= i < |table| ==> table'[i] == if i % f == start then r else table[i]
  }

  ghost predicate CanFill(cs: CodeSet, g: nat, el: nat, tables: seq<Table>, plan: Plan, st: Stack, cur: Bits, r: Huft, table': Table)
    requires WellFormed(cs)
  {
    && |cur| <= g
    && Partial(cs, g, el, tables, plan, st, cur, Lo(cur, g))
    && |st.u| > 0
    && var top := |st.u| - 1;
    && var w := Before(st.l, top);
    && w < |cur| <= w + st.l[top]
    && LeafOk(cs, g, cur, r) && (r.e <= 16 || r.e == INVALID) && r.b == |cur| - w
    && st.u[top] < |tables|
    && Filled(tables[st.u[top]], table', Val(cur[w..]), Pow2(|cur| - w), r)
  }

  lemma FillStack(cs: CodeSet, g: nat, el: nat, tables: seq<Table>, plan: Plan, st: Stack, cur: Bits, r: Huft, table': Table)
    requires WellFormed(cs) && CanFill(cs, g, el, tables, plan, st, cur, r, table')
    ensures var tables' := tables[st.u[|st.u| - 1] := table'];
      TablesOk(tables', plan, g, el) && StackOk(tables', plan, st, cur)
  {
    var tables' := tables[st.u[|st.u| - 1] := table'];
    forall h | 0 <= h < |st.u|
      ensures LevelOk(tables', plan, st, cur, h)
    {
      assert LevelOk(tables, plan, st, cur, h);
      if h > 0 { LevelsDiffer(tables, plan, st, cur, h - 1, |st.u| - 1); }
    }
  }

  /** A table index ends in the bits of the code exactly when the whole string begins with the code. */
  lemma IndexIsExtension(path: Bits, q: Bits, cur: Bits)
    requires |path| <= |cur| <= |path| + |q| && path == cur[..|path|]
    ensures Val(q) % Pow2(|cur| - |path|) == Val(cur[|path|..]) <==> (path + q)[..|cur|] == cur
    ensures (path + q)[..|cur|] == path + q[..|cur| - |path|]
  {
    var n := |cur| - |path|;
    ValSplit(q, n);
    assert cur == path + cur[|path|..];
    assert (path + q)[..|cur|] == path + q[..n];
    if Val(q) % Pow2(n) == Val(cur[|path|..]) {
      ValInjective(q[..n], cur[|path|..]);
    }
    if path + q[..n] == cur {
      assert q[..n] == (path + q[..n])[|path|..] == cur[|path|..];
    }
  }

  /** An entry that was finished before is not touched. */
  lemma FillOld(cs: CodeSet, g: nat, el: nat, tables: seq<Table>, plan: Plan, st: Stack, cur: Bits, r: Huft, table': Table, t: nat, q: Bits)
    requires WellFormed(cs) && CanFill(cs, g, el, tables, plan, st, cur, r, table')
    requires t < |tables| && |q| == plan.sizes[t] && Done(plan.paths[t] + q, Lo(cur, g), g)
    ensures EntryGood(cs, g, tables[st.u[|st.u| - 1] := table'], plan, t, q)
  {
    hide LeafOk;
    var top := |st.u| - 1;
    assert EntryOk(cs, g, tables, plan, Lo(cur, g), t, q);
    if t == st.u[top] {
      TopFacts(cs, g, el, tables, plan, st, cur);
      IndexIsExtension(plan.paths[t], q, cur);
      var f := plan.paths[t] + q;
      if f[..|cur|] == cur {
        Inside(f, |cur|, g);
        LoHi(f, g);
      }
    }
  }

  lemma TopFacts(cs: CodeSet, g: nat, el: nat, tables: seq<Table>, plan: Plan, st: Stack, cur: Bits)
    requires WellFormed(cs) && |cur| <= g && Partial(cs, g, el, tables, plan, st, cur, Lo(cur, g)) && |st.u| > 0
    ensures var top := |st.u| - 1;
      LevelOk(tables, plan, st, cur, top) && |plan.paths[st.u[top]]| == Before(st.l, top)
  {
    assert LevelOk(tables, plan, st, cur, |st.u| - 1);
  }

  /** The entry above the next table, when the code is the last one below it. */
  lemma FillLink(tables: seq<Table>, plan: Plan, st: Stack, cur: Bits, h: nat, q: Bits, table': Table)
    requires |plan.paths| == |plan.sizes| == |plan.shortest| == |tables| && StackOk(tables, plan, st, cur)
    requires h + 1 < |st.u| && st.u[|st.u| - 1] < |tables|
    requires st.u[h] < |tables| && |q| == plan.sizes[st.u[h]]
    requires |plan.paths[st.u[h]] + q| <= |cur| && plan.paths[st.u[h]] + q == cur[..|plan.paths[st.u[h]] + q|]
    ensures LinkOk(tables[st.u[|st.u| - 1] := table'], plan, st.u[h], q, st.u[h + 1])
  {
    assert LevelOk(tables, plan, st, cur, h) && LevelOk(tables, plan, st, cur, h + 1);
    var f := plan.paths[st.u[h]] + q;
    assert q == f[Before(st.l, h)..] == cur[Before(st.l, h)..Before(st.l, h + 1)];
    LevelsDiffer(tables, plan, st, cur, h, |st.u| - 1);
  }

  lemma FillLeaf(cs: CodeSet, g: nat, el: nat, tables: seq<Table>, plan: Plan, st: Stack, cur: Bits, r: Huft, table': Table, q: Bits)
    requires WellFormed(cs) && CanFill(cs, g, el, tables, plan, st, cur, r, table')
    requires var t := st.u[|st.u| - 1];
      |q| == plan.sizes[t] && |plan.paths[t] + q| >= |cur| && (plan.paths[t] + q)[..|cur|] == cur
    ensures EntryGood(cs, g, tables[st.u[|st.u| - 1] := table'], plan, st.u[|st.u| - 1], q)
  {
    hide LeafOk;
    TopFacts(cs, g, el, tables, plan, st, cur);
    IndexIsExtension(plan.paths[st.u[|st.u| - 1]], q, cur);
    ValBound(q);
  }

  /** An entry the code itself owns, or one it is the last code below. */
  lemma FillNew(cs: CodeSet, g: nat, el: nat, tables: seq<Table>, plan: Plan, st: Stack, cur: Bits, r: Huft, table': Table, h: nat, q: Bits)
    requires WellFormed(cs) && CanFill(cs, g, el, tables, plan, st, cur, r, table')
    requires h < |st.u| && st.u[h] < |tables| && |q| == plan.sizes[st.u[h]]
    requires var f := plan.paths[st.u[h]] + q;
      if |f| >= |cur| then f[..|cur|] == cur else f == cur[..|f|]
    ensures EntryGood(cs, g, tables[st.u[|st.u| - 1] := table'], plan, st.u[h], q)
  {
    hide LeafOk;
    var top := |st.u| - 1;
    LevelLength(tables, plan, st, cur, h);
    if h < top {
      BeforeGrows(st.l, h + 1, top);
      FillLink(tables, plan, st, cur, h, q, table');
    } else {
      FillLeaf(cs, g, el, tables, plan, st, cur, r, table', q);
    }
  }

  lemma LevelLength(tables: seq<Table>, plan: Plan, st: Stack, cur: Bits, h: nat)
    requires |plan.paths| == |plan.sizes| == |plan.shortest| == |tables| && StackOk(tables, plan, st, cur) && h < |st.u|
    ensures st.u[h] < |tables| && |plan.paths[st.u[h]]| + plan.sizes[st.u[h]] == Before(st.l, h + 1)
  {
    assert LevelOk(tables, plan, st, cur, h);
  }

  lemma FillEntry(cs: CodeSet, g: nat, el: nat, tables: seq<Table>, plan: Plan, st: Stack, cur: Bits, r: Huft, table': Table, t: nat, q: Bits)
    requires WellFormed(cs) && CanFill(cs, g, el, tables, plan, st, cur, r, table')
    ensures EntryOk(cs, g, tables[st.u[|st.u| - 1] := table'], plan, Hi(cur, g), t, q)
  {
    if t < |tables| && |q| == plan.sizes[t] && Done(plan.paths[t] + q, Hi(cur, g), g) {
      var f := plan.paths[t] + q;
      NewlyDone(f, cur, g);
      if Done(f, Lo(cur, g), g) {
        FillOld(cs, g, el, tables, plan, st, cur, r, table', t, q);
      } else if OnStack(st, t) {
        var h :| 0 <= h < |st.u| && st.u[h] == t;
        FillNew(cs, g, el, tables, plan, st, cur, r, table', h, q);
      } else {
        assert f[..|plan.paths[t]|] == plan.paths[t];
        Inside(f, |plan.paths[t]|, g);
      }
    }
  }

  lemma FillCode(cs: CodeSet, g: nat, el: nat, tables: seq<Table>, plan: Plan, st: Stack, cur: Bits, r: Huft, table': Table)
    requires WellFormed(cs) && CanFill(cs, g, el, tables, plan, st, cur, r, table')
    ensures Partial(cs, g, el, tables[st.u[|st.u| - 1] := table'], plan, st, cur, Hi(cur, g))
  {
    var tables' := tables[st.u[|st.u| - 1] := table'];
    FillStack(cs, g, el, tables, plan, st, cur, r, table');
    LoHi(cur, g);
    forall t, q
      ensures EntryOk(cs, g, tables', plan, Hi(cur, g), t, q)
    {
      FillEntry(cs, g, el, tables, plan, st, cur, r, table', t, q);
    }
  }

  // ----- The next code -----

  /** `n` tables stay on the stack: those whose pattern the next code shares. */
  ghost predicate Pops(st: Stack, cur: Bits, n: nat)
    requires |st.u| == |st.l| == |st.x|
  {
    && 1 <= n <= |st.u|
    && (forall h :: 0 <= h < |st.u| ==> Before(st.l, h) <= |cur|)
    && Next(cur)[..Before(st.l, n - 1)] == cur[..Before(st.l, n - 1)]
    && forall h :: n <= h < |st.u| ==> Next(cur)[..Before(st.l, h)] != cur[..Before(st.l, h)]
  }

  function Top(st: Stack, n: nat): Stack
    requires n <= |st.u| == |st.l| == |st.x|
  {
    Stack(st.u[..n], st.l[..n], st.x[..n])
  }

  lemma PopLevel(tables: seq<Table>, plan: Plan, st: Stack, cur: Bits, n: nat, h: nat)
    requires |plan.paths| == |plan.sizes| == |plan.shortest| == |tables|
    requires StackOk(tables, plan, st, cur) && Pops(st, cur, n) && h < n
    ensures LevelOk(tables, plan, Top(st, n), Next(cur), h)
  {
    var w := Before(st.l, h);
    assert LevelOk(tables, plan, st, cur, h);
    BeforeTake(st.l, n, h);
    BeforeGrows(st.l, h, n - 1);
    var v := Before(st.l, n - 1);
    assert Next(cur)[..w] == Next(cur)[..v][..w] == cur[..v][..w] == cur[..w];
    if h > 0 {
      BeforeTake(st.l, n, h - 1);
      assert Next(cur)[Before(st.l, h - 1)..w] == Next(cur)[..w][Before(st.l, h - 1)..] == cur[Before(st.l, h - 1)..w];
    }
  }

  /** A table taken off the stack is finished. */
  lemma PoppedDone(g: nat, tables: seq<Table>, plan: Plan, st: Stack, cur: Bits, n: nat, h: nat)
    requires |plan.paths| == |plan.sizes| == |plan.shortest| == |tables| && |cur| <= g
    requires StackOk(tables, plan, st, cur) && Pops(st, cur, n) && n <= h < |st.u|
    ensures st.u[h] < |tables| && Done(plan.paths[st.u[h]], Hi(cur, g), g)
  {
    assert LevelOk(tables, plan, st, cur, h);
    PrefixPassed(cur, Before(st.l, h), g);
  }

  lemma NextAndPop(cs: CodeSet, g: nat, el: nat, tables: seq<Table>, plan: Plan, st: Stack, cur: Bits, n: nat)
    requires WellFormed(cs) && |cur| <= g && Partial(cs, g, el, tables, plan, st, cur, Hi(cur, g)) && Pops(st, cur, n)
    ensures Partial(cs, g, el, tables, plan, Top(st, n), Next(cur), Hi(cur, g))
  {
    hide LevelOk, Hi, Next, Done, EntryOk;
    var st' := Top(st, n);
    forall h | 0 <= h < n
      ensures LevelOk(tables, plan, st', Next(cur), h)
    {
      PopLevel(tables, plan, st, cur, n, h);
    }
    forall t | 0 <= t < |tables|
      ensures OnStack(st', t) || Done(plan.paths[t], Hi(cur, g), g)
    {
      if OnStack(st, t) {
        var h :| 0 <= h < |st.u| && st.u[h] == t;
        if h < n {
          assert st'.u[h] == t;
        } else {
          PoppedDone(g, tables, plan, st, cur, n, h);
        }
      }
    }
  }

  /** The bits of the next code below a prefix that changed are zero. */
  lemma {:induction false} ZerosAfterChange(cur: Bits, w: nat, i: nat)
    requires w <= i < |cur| && Next(cur)[..w] != cur[..w]
    ensures !Next(cur)[i]
  {
    var n := |cur| - 1;
    if cur[n] {
      if i < n {
        assert Next(cur)[..w] == Next(cur[..n])[..w];
        ZerosAfterChange(cur[..n], w, i);
      }
    }
  }

  /** Going on to the next length: the code is followed by a zero. */
  lemma LengthenCode(cs: CodeSet, g: nat, el: nat, tables: seq<Table>, plan: Plan, st: Stack, cur: Bits)
    requires WellFormed(cs) && |cur| < g && Partial(cs, g, el, tables, plan, st, cur, Lo(cur, g))
    ensures Partial(cs, g, el, tables, plan, st, cur + [false], Lo(cur + [false], g))
    ensures Lo(cur + [false], g) == Lo(cur, g)
  {
    var next := cur + [false];
    FollowedByZeros(next, |cur|, g);
    assert next[..|cur|] == cur;
    forall h | 0 <= h < |st.u|
      ensures LevelOk(tables, plan, st, next, h)
    {
      assert LevelOk(tables, plan, st, cur, h);
      assert next[..Before(st.l, h)] == cur[..Before(st.l, h)];
      if h > 0 {
        assert next[Before(st.l, h - 1)..Before(st.l, h)] == cur[Before(st.l, h - 1)..Before(st.l, h)];
      }
    }
  }
}
