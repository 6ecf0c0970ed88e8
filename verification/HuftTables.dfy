// The multi-level lookup tables of Inflate.c: what they are, how they are walked, and what a
// partly built set of them satisfies.
module HuftTables {
  import opened BitStrings
  import opened CanonicalCode

  const BMAX: nat := 16
  const N_MAX: nat := 288
  const INVALID: nat := 99

  /** A table may look at this many bits more than the shortest code that goes through it has. */
  const EXCESS: nat := 9

  /** struct huft: `e` operation or extra bits, `b` bits, `n` the value or `t` the next table (tables
      are numbered in the order they are allocated). */
  datatype Huft = Huft(e: nat, b: nat, n: nat, t: nat)

  type Table = seq<Huft>

  /** The parameters b, s, d, e of huft_build. */
  datatype CodeSet = CodeSet(lens: Lens, s: nat, base: seq<nat>, extra: seq<nat>)

  /** What huft_build assumes of its parameters. */
  predicate WellFormed(cs: CodeSet) {
    && 1 <= |cs.lens| <= N_MAX
    && (forall v :: 0 <= v < |cs.lens| ==> cs.lens[v] <= BMAX)
    && |cs.lens| - cs.s <= |cs.base| && |cs.lens| - cs.s <= |cs.extra|
    && (forall i :: 0 <= i < |cs.extra| ==> cs.extra[i] < 15 || cs.extra[i] == INVALID)
  }

  /** The table operation of symbol `v`: 16 literal, 15 end of block, else the number of extra bits. */
  function Op(cs: CodeSet, v: nat): nat
    requires WellFormed(cs) && v < |cs.lens|
  {
    if v < cs.s then (if v < 256 then 16 else 15) else cs.extra[v - cs.s]
  }

  function Arg(cs: CodeSet, v: nat): nat
    requires WellFormed(cs) && v < |cs.lens|
  {
    if v < cs.s then v else cs.base[v - cs.s]
  }

  datatype Found = Code(op: nat, arg: nat, used: nat) | BadCode | Short

  /** The table lookup of inflate_codes: starts with `bits` bits in table `t`. */
  function Walk(tables: seq<Table>, t: nat, bits: nat, s: Bits): Found
    decreases |s|
  {
    if bits > |s| || t >= |tables| || Val(s[..bits]) >= |tables[t]| then Short
    else
      var x := tables[t][Val(s[..bits])];
      if x.e <= 16 then Code(x.e, x.n, x.b)
      else if x.e == INVALID then BadCode
      else if 0 < x.b <= |s| then
        match Walk(tables, x.t, x.e - 16, s[x.b..])
        case Code(op, arg, used) => Code(op, arg, x.b + used)
        case other => other
      else Short
  }

  /** What a symbol decodes to. */
  function SymbolFound(cs: CodeSet, v: nat): Found
    requires WellFormed(cs) && v < |cs.lens|
  {
    if Op(cs, v) == INVALID then BadCode else Code(Op(cs, v), Arg(cs, v), cs.lens[v])
  }

  /** The canonical decoder that takes one more bit at a time, from `k` bits on, up to the longest
      length in use. */
  function DecodeFrom(cs: CodeSet, s: Bits, k: nat): (found: Found)
    requires WellFormed(cs) && k > 0
    ensures found.Code? ==> k <= found.used <= |s|
    decreases |s| + 1 - k
  {
    if k > MaxLen(cs.lens) then BadCode
    else if k > |s| then Short
    else
      var r := Msb(s[..k]) - NextCode(cs.lens, k);
      if 0 <= r < Count(cs.lens, k) then SymbolFound(cs, Sym(cs.lens, k, r))
      else DecodeFrom(cs, s, k + 1)
  }

  lemma SymMatches(lens: Lens, s: Bits, k: nat, r: nat)
    requires 0 < k <= |s| && r < Count(lens, k) && Msb(s[..k]) == NextCode(lens, k) + r
    ensures Matches(lens, Sym(lens, k, r), s)
  {
  }

  /** It finds a symbol whose codeword begins the string. */
  lemma {:induction false} DecodeMatch(cs: CodeSet, s: Bits, v: nat, k: nat)
    requires WellFormed(cs) && Matches(cs.lens, v, s) && 0 < k <= cs.lens[v]
    ensures DecodeFrom(cs, s, k) == SymbolFound(cs, v)
    decreases cs.lens[v] - k
  {
    MatchesIsSym(cs.lens, v, s);
    if k < cs.lens[v] {
      var r := Msb(s[..k]) - NextCode(cs.lens, k);
      if 0 <= r < Count(cs.lens, k) {
        SymMatches(cs.lens, s, k, r);
        MatchUnique(cs.lens, v, Sym(cs.lens, k, r), s);
      }
      DecodeMatch(cs, s, v, k + 1);
    }
  }

  /** And fails exactly when there is none. */
  lemma {:induction false} DecodeNone(cs: CodeSet, s: Bits, k: nat)
    requires WellFormed(cs) && k > 0 && |s| >= MaxLen(cs.lens)
    requires forall v :: !Matches(cs.lens, v, s)
    ensures DecodeFrom(cs, s, k) == BadCode
    decreases MaxLen(cs.lens) + 1 - k
  {
    if k <= MaxLen(cs.lens) {
      var r := Msb(s[..k]) - NextCode(cs.lens, k);
      if 0 <= r < Count(cs.lens, k) {
        SymMatches(cs.lens, s, k, r);
      }
      DecodeNone(cs, s, k + 1);
    }
  }

  // ----- Partly built tables -----

  /** History: the bits that lead to each table, the bits each table decodes, the shortest code that goes through
      it, and how far beyond that code a table may look. */
  datatype Plan = Plan(paths: seq<Bits>, sizes: seq<nat>, shortest: seq<nat>, excess: nat)

  /** With tables of up to `m` bits no table made for a code of `k` bits looks further. */
  predicate Bounded(m: nat, k: nat, excess: nat) { excess >= 1 && (m <= excess || k + excess >= BMAX) }

  /** The tables on the way to the current code: u[] numbers, l[] sizes, x[] patterns. */
  datatype Stack = Stack(u: seq<nat>, l: seq<nat>, x: seq<nat>)

  /** Bits decoded before table level `h`. */
  function Before(l: seq<nat>, h: nat): nat
    requires h <= |l|
  {
    if h == 0 then 0 else Before(l, h - 1) + l[h - 1]
  }

  /** Every string of `g` bits that begins with `f` comes before position `p` in code order. */
  predicate Done(f: Bits, p: nat, g: nat) {
    |f| <= g && (Msb(f) + 1) * Pow2(g - |f|) <= p
  }

  ghost predicate TablesOk(tables: seq<Table>, plan: Plan, g: nat, el: nat) {
    && |plan.paths| == |plan.sizes| == |plan.shortest| == |tables|
    && forall t :: 0 <= t < |tables| ==>
        && |tables[t]| == Pow2(plan.sizes[t])
        && 1 <= plan.sizes[t] <= BMAX && |plan.paths[t]| + plan.sizes[t] <= g
        && (|plan.paths[t]| < el ==> |plan.paths[t]| + plan.sizes[t] <= el)
        && |plan.paths[t]| + plan.sizes[t] <= plan.shortest[t] + plan.excess
  }

  ghost predicate LinkOk(tables: seq<Table>, plan: Plan, t: nat, q: Bits, next: nat)
    requires |plan.paths| == |plan.sizes| == |plan.shortest| == |tables|
  {
    && t < |tables| && next < |tables| && Val(q) < |tables[t]|
    && plan.paths[next] == plan.paths[t] + q && plan.shortest[next] >= plan.shortest[t]
    && tables[t][Val(q)].e == 16 + plan.sizes[next]
    && tables[t][Val(q)].b == |q|
    && tables[t][Val(q)].t == next
  }

  /** The entry for the codeword `c`: its symbol, or 99 where no symbol is left. */
  ghost predicate LeafOk(cs: CodeSet, g: nat, c: Bits, x: Huft)
    requires WellFormed(cs)
  {
    var k := |c|;
    var r := Msb(c) - NextCode(cs.lens, k);
    && 0 < k <= g && r >= 0
    && if r < Count(cs.lens, k) then
         x.e == Op(cs, Sym(cs.lens, k, r)) && x.n == Arg(cs, Sym(cs.lens, k, r))
       else k == g && x.e == INVALID
  }

  ghost predicate EntryGood(cs: CodeSet, g: nat, tables: seq<Table>, plan: Plan, t: nat, q: Bits)
    requires WellFormed(cs) && |plan.paths| == |plan.sizes| == |plan.shortest| == |tables|
  {
    && t < |tables| && Val(q) < |tables[t]|
    && var x := tables[t][Val(q)];
    || ((x.e <= 16 || x.e == INVALID) && 0 < x.b <= |q| && |plan.paths[t]| + x.b >= plan.shortest[t]
       && LeafOk(cs, g, plan.paths[t] + q[..x.b], x))
    || LinkOk(tables, plan, t, q, x.t)
  }

  ghost predicate EntryOk(cs: CodeSet, g: nat, tables: seq<Table>, plan: Plan, p: nat, t: nat, q: Bits)
    requires WellFormed(cs) && |plan.paths| == |plan.sizes| == |plan.shortest| == |tables|
  {
    t < |tables| && |q| == plan.sizes[t] && Done(plan.paths[t] + q, p, g) ==> EntryGood(cs, g, tables, plan, t, q)
  }

  ghost predicate LevelOk(tables: seq<Table>, plan: Plan, st: Stack, cur: Bits, h: nat)
    requires |plan.paths| == |plan.sizes| == |plan.shortest| == |tables|
    requires |st.u| == |st.l| == |st.x| && h < |st.u|
  {
    var w := Before(st.l, h);
    && st.u[h] < |tables| && st.l[h] == plan.sizes[st.u[h]]
    && w < |cur| && plan.shortest[st.u[h]] <= |cur| && plan.paths[st.u[h]] == cur[..w] && st.x[h] == Val(cur[..w])
    && (h > 0 ==> LinkOk(tables, plan, st.u[h - 1], cur[Before(st.l, h - 1)..w], st.u[h]))
  }

  ghost predicate StackOk(tables: seq<Table>, plan: Plan, st: Stack, cur: Bits)
    requires |plan.paths| == |plan.sizes| == |plan.shortest| == |tables|
  {
    && |st.u| == |st.l| == |st.x|
    && (forall h :: 0 <= h < |st.l| ==> st.l[h] >= 1)
    && forall h :: 0 <= h < |st.u| ==> LevelOk(tables, plan, st, cur, h)
  }

  ghost predicate OnStack(st: Stack, t: nat) {
    exists h :: 0 <= h < |st.u| && st.u[h] == t
  }

  /** Tables off the stack are finished, and finished entries are right. */
  ghost predicate Partial(cs: CodeSet, g: nat, el: nat, tables: seq<Table>, plan: Plan, st: Stack, cur: Bits, p: nat)
    requires WellFormed(cs)
  {
    && TablesOk(tables, plan, g, el)
    && StackOk(tables, plan, st, cur)
    && (forall t {:trigger OnStack(st, t)} :: 0 <= t < |tables| ==> OnStack(st, t) || Done(plan.paths[t], p, g))
    && (forall t, q :: EntryOk(cs, g, tables, plan, p, t, q))
    && (tables != [] ==> |st.u| > 0 && st.u[0] == 0)
  }

  // ----- Strings in code order -----

  /** The strings of `g` bits that begin with `f` are those from position Lo up to, not including, Hi. */
  function Lo(f: Bits, g: nat): nat
    requires |f| <= g
  {
    Msb(f) * Pow2(g - |f|)
  }

  function Hi(f: Bits, g: nat): nat
    requires |f| <= g
  {
    (Msb(f) + 1) * Pow2(g - |f|)
  }

  lemma Nested(m: nat, b: nat, r: nat, e: nat)
    requires r < b
    ensures m * (b * e) <= (m * b + r) * e
    ensures (m * b + r + 1) * e <= (m + 1) * (b * e)
  {
    MulAssoc(m, b, e);
    MulLess(m * b, m * b + r, e);
    assert (m + 1) * b == m * b + b;
    MulLess(m * b + r + 1, (m + 1) * b, e);
    MulAssoc(m + 1, b, e);
  }

  lemma MulAssoc(a: nat, b: nat, c: nat)
    ensures (a * b) * c == a * (b * c)
  {
  }

  lemma LoHi(f: Bits, g: nat)
    requires |f| <= g
    ensures Lo(f, g) < Hi(f, g) && Hi(f, g) == Lo(f, g) + Pow2(g - |f|)
    ensures Done(f, Hi(f, g), g)
  {
  }

  /** A longer string has a smaller range within. */
  lemma Inside(f: Bits, m: nat, g: nat)
    requires m <= |f| <= g
    ensures Lo(f[..m], g) <= Lo(f, g) && Hi(f, g) <= Hi(f[..m], g)
  {
    MsbSplit(f, m);
    Pow2Split(g - |f|, g - m);
    MulTwice(Pow2(|f| - m), Pow2(g - |f|));
    Nested(Msb(f[..m]), Pow2(|f| - m), Msb(f[m..]), Pow2(g - |f|));
  }

  lemma Apart(f: Bits, c: Bits, g: nat)
    requires |f| == |c| <= g && f != c
    ensures Hi(f, g) <= Lo(c, g) || Hi(c, g) <= Lo(f, g)
  {
    if Msb(f) == Msb(c) {
      MsbInjective(f, c);
    } else if Msb(f) < Msb(c) {
      MulLess(Msb(f) + 1, Msb(c), Pow2(g - |f|));
    } else {
      MulLess(Msb(c) + 1, Msb(f), Pow2(g - |f|));
    }
  }

  lemma FollowedByZeros(f: Bits, m: nat, g: nat)
    requires m <= |f| <= g && forall i :: m <= i < |f| ==> !f[i]
    ensures Lo(f, g) == Lo(f[..m], g)
  {
    assert f[m..] == Zeros(|f| - m);
    ZerosNumbers(|f| - m);
    MsbSplit(f, m);
    Pow2Split(g - |f|, g - m);
    MulAssoc(Msb(f[..m]), Pow2(|f| - m), Pow2(g - |f|));
    MulTwice(Pow2(|f| - m), Pow2(g - |f|));
  }

  /** What becomes done when the position moves past `cur`: extensions of `cur`, and strings that
      `cur` extends. */
  lemma NewlyDone(f: Bits, cur: Bits, g: nat)
    requires |cur| <= g && Done(f, Hi(cur, g), g)
    ensures Done(f, Lo(cur, g), g)
      || (|f| >= |cur| && f[..|cur|] == cur)
      || (|f| < |cur| && f == cur[..|f|])
  {
    var n := if |f| < |cur| then |f| else |cur|;
    Inside(f, n, g);
    Inside(cur, n, g);
    LoHi(f, g);
    if f[..n] != cur[..n] {
      Apart(f[..n], cur[..n], g);
    }
  }

  lemma NextLo(cur: Bits, g: nat)
    requires |cur| <= g
    ensures Msb(cur) + 1 < Pow2(|cur|) ==> Lo(Next(cur), g) == Hi(cur, g)
    ensures Msb(cur) + 1 == Pow2(|cur|) ==> Hi(cur, g) == Pow2(g) && Lo(Next(cur), g) == 0
  {
    NextMsb(cur);
    Pow2Split(|cur|, g);
  }

  lemma HiBound(f: Bits, g: nat)
    requires |f| <= g
    ensures Hi(f, g) <= Pow2(g)
  {
    MsbBound(f);
    MulLess(Msb(f) + 1, Pow2(|f|), Pow2(g - |f|));
    Pow2Split(|f|, g);
  }

  /** When a prefix changes, everything below the old one is done. */
  lemma PrefixPassed(cur: Bits, w: nat, g: nat)
    requires w <= |cur| <= g && Next(cur)[..w] != cur[..w]
    ensures Done(cur[..w], Hi(cur, g), g)
  {
    var next := Next(cur);
    NextLo(cur, g);
    MsbBound(cur);
    HiBound(cur[..w], g);
    Inside(cur, w, g);
    Inside(next, w, g);
    LoHi(next, g);
    LoHi(cur, g);
    Apart(cur[..w], next[..w], g);
  }

  /** Below a prefix that is followed by zeros nothing is done yet. */
  lemma NothingDone(f: Bits, cur: Bits, w: nat, g: nat)
    requires w <= |cur| <= g && w <= |f| <= g && f[..w] == cur[..w]
    requires forall i :: w <= i < |cur| ==> !cur[i]
    ensures !Done(f, Lo(cur, g), g)
  {
    FollowedByZeros(cur, w, g);
    Inside(f, w, g);
    LoHi(f, g);
  }
}
