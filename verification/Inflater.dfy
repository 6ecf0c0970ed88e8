// The decoder of Inflate.c: its bit buffer, its circular window and the copying of matches.
module Inflater {
  import opened BitStrings
  import opened Bytes
  import opened CanonicalCode
  import opened HuftTables
  import opened HuftCodes
  import opened Deflate

  const WSIZE: nat := 0x8000

  /** One step of a walk. */
  lemma WalkStep(tables: seq<Table>, t: nat, bits: nat, s: Bits)
    requires bits <= |s| && t < |tables| && Val(s[..bits]) < |tables[t]|
    ensures var x := tables[t][Val(s[..bits])];
      if x.e <= 16 then Walk(tables, t, bits, s) == Code(x.e, x.n, x.b)
      else if x.e == INVALID then Walk(tables, t, bits, s) == BadCode
      else 0 < x.b <= |s| ==> Walk(tables, t, bits, s) == Shift(Walk(tables, x.t, x.e - 16, s[x.b..]), x.b)
  {
    hide Val;
  }

  /** Without enough bits a walk ends. */
  lemma WalkStops(tables: seq<Table>, t: nat, bits: nat, s: Bits)
    ensures bits > |s| ==> Walk(tables, t, bits, s) == Short
  {
  }

  lemma SliceOfSlice(s: Bits, a: nat, b: nat)
    requires a + b <= |s|
    ensures s[a..][b..] == s[a + b..]
  {
  }

  class Decoder {
    /** The compressed bytes and the one byte after them that NEXTBYTE may still read. */
    const input: seq<byte>
    var next: nat          // inptr
    var incnt: int
    var bb: nat            // bit buffer
    var bk: nat            // bits in bit buffer
    const slide: array<byte>
    var wp: nat            // current position in slide
    var out: seq<byte>     // what has been flushed

    constructor (data: seq<byte>, after: byte)
      ensures input == data + [after] && next == 0 && bb == 0 && bk == 0 && wp == 0 && out == []
      ensures BitsOk() && WindowOk() && Rest() == Stream(input) && Total() == [] && fresh(slide)
    {
      input := data + [after];
      next, incnt, bb, bk, wp, out := 0, |data|, 0, 0, 0, [];
      slide := new byte[WSIZE](i => 0);
    }

    // ----- Bit buffer -----

    ghost predicate BitsOk()
      reads this`next, this`incnt, this`bb, this`bk
    {
      && next <= |input| && incnt == |input| - 1 - next
      && bk <= 23 && bb < Pow2(bk)
    }

    /** The bits that have not been consumed yet. */
    ghost function Rest(): Bits
      reads this`next, this`bb, this`bk
      requires next <= |input|
    {
      BitsOf(bb, bk) + Stream(input[next..])
    }

    /** NEXTBYTE, put above the bits in the buffer. */
    method FetchByte() returns (ok: bool)
      requires BitsOk() && bk <= 15
      modifies this`next, this`incnt, this`bb, this`bk
      ensures ok <==> old(next) < |input|
      ensures ok ==> BitsOk() && Rest() == old(Rest()) && bk == old(bk) + 8 && next == old(next) + 1
    {
      hide Pow2, BitsOf, Stream;
      incnt := incnt - 1;
      if incnt + 1 < 0 {
        return false;
      }
      var c := input[next];
      StreamByte(bb, bk, input, next);
      bb := bb + Pow2(bk) * c;
      next := next + 1;
      bk := bk + 8;
      ok := true;
    }

    /** NEEDBITS: fails only when the input runs out. */
    method NeedBits(n: nat) returns (ok: bool)
      requires BitsOk() && n <= 16
      modifies this`next, this`incnt, this`bb, this`bk
      ensures ok <==> |old(Rest())| >= n
      ensures ok ==> BitsOk() && Rest() == old(Rest()) && bk >= n
    {
      hide Pow2, BitsOf, Stream;
      StreamLength(input[next..]);
      while bk < n
        invariant BitsOk() && Rest() == old(Rest()) && |Rest()| == bk + 8 * (|input| - next)
        decreases |input| - next
      {
        ok := FetchByte();
        if !ok { return; }
      }
      ok := true;
    }

    /** DUMPBITS */
    method DumpBits(n: nat)
      requires BitsOk() && n <= bk
      modifies this`bb, this`bk
      ensures BitsOk() && n <= |old(Rest())| && Rest() == old(Rest())[n..] && bk == old(bk) - n
    {
      DropBits(bb, bk, n);
      bb := Shr(bb, n);
      bk := bk - n;
    }

    /** The value of the next `n` bits, which are in the bit buffer. */
    ghost predicate Peeks(v: nat, n: nat)
      reads this`next, this`bb, this`bk
      requires next <= |input|
    {
      n <= |Rest()| && v == Val(Rest()[..n])
    }

    method Peek(n: nat) returns (v: nat)
      requires BitsOk() && n <= bk
      ensures Peeks(v, n)
    {
      DropBits(bb, bk, n);
      v := bb % Pow2(n);
      assert Rest()[..n] == BitsOf(bb, bk)[..n];
    }

    /** NEEDBITS, mask and DUMPBITS together. */
    method TakeBits(n: nat) returns (ok: bool, v: nat)
      requires BitsOk() && n <= 16
      modifies this`next, this`incnt, this`bb, this`bk
      ensures ok <==> |old(Rest())| >= n
      ensures ok ==> BitsOk() && v == Val(old(Rest())[..n]) && Rest() == old(Rest())[n..]
    {
      ok := NeedBits(n);
      v := 0;
      if ok {
        v := Peek(n);
        DumpBits(n);
      }
    }

    /** One lookup in table `t`, which has 2^bits entries. */
    method Entry(tables: seq<Table>, t: nat, bits: nat, root: nat, ghost sizes: seq<nat>) returns (ok: bool, x: Huft)
      requires BitsOk() && Sound(tables, sizes, root) && t < |tables| && bits == sizes[t]
      modifies this`next, this`incnt, this`bb, this`bk
      ensures ok <==> |old(Rest())| >= bits
      ensures ok ==> BitsOk() && Rest() == old(Rest()) && bk >= bits && Val(Rest()[..bits]) < |tables[t]|
      ensures ok ==> x == tables[t][Val(Rest()[..bits])] && EntrySound(tables, sizes, t, Val(Rest()[..bits]))
    {
      hide EntrySound;
      ok := NeedBits(bits);
      x := Huft(0, 0, 0, 0);
      if ok {
        var i := Peek(bits);
        WalkIndex(tables, sizes, root, t, Rest());
        x := tables[t][i];
      }
    }

    /** Lines 557 to 566: walk the tables with as many bits at a time as they ask for. */
    method Lookup(tables: seq<Table>, root: nat, ghost sizes: seq<nat>) returns (ok: bool, op: nat, arg: nat)
      requires BitsOk() && Sound(tables, sizes, root)
      modifies this`next, this`incnt, this`bb, this`bk
      ensures var found := Walk(tables, 0, root, old(Rest()));
        if found.Code? then
          ok && op == found.op && arg == found.arg && BitsOk()
          && 0 < found.used <= |old(Rest())| && Rest() == old(Rest())[found.used..]
        else !ok
    {
      hide Pow2, Val, Rest, Walk;
      ghost var all := Rest();
      WalkStops(tables, 0, root, all);
      ghost var used: nat, t: nat, bits: nat := 0, 0, root;
      op, arg := 0, 0;
      var x;
      ok, x := Entry(tables, 0, root, root, sizes);
      if !ok { return; }
      ShiftZero(Walk(tables, t, bits, Rest()));
      while x.e > 16
        invariant BitsOk() && t < |tables| && bits == sizes[t] <= bk && used <= |all| && Rest() == all[used..]
        invariant bits <= |Rest()| && Val(Rest()[..bits]) < |tables[t]| && x == tables[t][Val(Rest()[..bits])]
        invariant EntrySound(tables, sizes, t, Val(Rest()[..bits]))
        invariant Shift(Walk(tables, t, bits, Rest()), used) == Walk(tables, 0, root, all)
        decreases |Rest()|
      {
        ghost var rest := Rest();
        WalkStep(tables, t, bits, rest);
        if x.e == INVALID {
          ok := false;
          return;
        }
        DumpBits(x.b);
        SliceOfSlice(all, used, x.b);
        t, bits, used := x.t, x.e - 16, used + x.b;
        WalkStops(tables, t, bits, rest[x.b..]);
        ok, x := Entry(tables, x.t, x.e - 16, root, sizes);
        if !ok { return; }
      }
      WalkStep(tables, t, bits, Rest());
      DumpBits(x.b);
      SliceOfSlice(all, used, x.b);
      op, arg := x.e, x.n;
    }

    // ----- Window -----

    /** The flushed output comes in whole windows; from the current position on the window still holds the
        end of it.  The position may be at the end of the window until it is flushed. */
    ghost predicate WindowOk()
      reads this`wp, this`out, slide
    {
      slide.Length == WSIZE && wp <= WSIZE && History()
    }

    ghost predicate History()
      reads this`wp, this`out, slide
      requires slide.Length == WSIZE
    {
      out != [] ==> |out| >= WSIZE && forall p :: wp <= p < WSIZE ==> slide[p] == out[|out| - WSIZE + p]
    }

    /** Everything written so far, flushed or not. */
    ghost function Total(): seq<byte>
      reads this`wp, this`out, slide
      requires slide.Length == WSIZE && wp <= WSIZE
    {
      out + slide[..wp]
    }

    /** FLUSH, and back to the start of a full window. */
    method FlushFull()
      requires WindowOk()
      modifies this`wp, this`out
      ensures WindowOk() && Total() == old(Total()) && wp < WSIZE
      ensures wp == if old(wp) == WSIZE then 0 else old(wp)
    {
      if wp == WSIZE {
        out := out + slide[..wp];
        wp := 0;
      }
    }

    method WriteByte(c: byte)
      requires WindowOk() && wp < WSIZE
      modifies slide, this`wp, this`out
      ensures WindowOk() && wp < WSIZE && Total() == old(Total()) + [c]
    {
      slide[wp] := c;
      wp := wp + 1;
      assert slide[..wp] == old(slide[..wp]) + [c];
      FlushFull();
    }

    /** The window position of the byte `dist` back. */
    ghost predicate Source(d: int, dist: nat)
      reads this`wp, this`out, slide
      requires slide.Length == WSIZE && wp <= WSIZE
    {
      1 <= dist <= WSIZE && dist <= |Total()| && (d == wp - dist || d == wp - dist + WSIZE)
    }

    lemma SourceByte(d: nat, dist: nat)
      requires WindowOk() && Source(d, dist) && d < WSIZE
      ensures slide[d] == Total()[|Total()| - dist]
    {
    }

    /** redirSlide[w++] = redirSlide[d] */
    method CopyByte(d: nat, ghost dist: nat)
      requires WindowOk() && wp < WSIZE && d < WSIZE
      modifies slide, this`wp
      ensures WindowOk() && wp == old(wp) + 1 && |Total()| == |old(Total())| + 1
      ensures old(Source(d, dist)) ==>
        Source(d + 1, dist) && Total() == old(Total()) + [old(Total()[|Total()| - dist])]
    {
      if Source(d, dist) { SourceByte(d, dist); }
      slide[wp] := slide[d];
      wp := wp + 1;
      assert slide[..wp] == old(slide[..wp]) + [old(slide[d])];
    }

    /** Lines 614 to 624: `e` bytes forward, inside the window. */
    method CopyBytes(from: nat, e: nat, ghost dist: nat)
      requires WindowOk() && from + e <= WSIZE && wp + e <= WSIZE
      modifies slide, this`wp
      ensures WindowOk() && wp == old(wp) + e && |Total()| == |old(Total())| + e
      ensures old(Source(from, dist)) ==>
        dist > 0 && Source(from + e, dist) && Total() == CopyMatch(old(Total()), e, dist)
    {
      hide History;
      ghost var linked := Source(from, dist);
      ghost var start := Total();
      var d, k := from, 0;
      while k < e
        invariant 0 <= k <= e && d == from + k && wp == old(wp) + k && WindowOk()
        invariant |Total()| == |start| + k
        invariant linked ==> 1 <= dist <= |start| && Source(d, dist) && Total() == CopyMatch(start, k, dist)
      {
        CopyByte(d, dist);
        d := d + 1;
        k := k + 1;
      }
    }

    /** One piece of a match: it ends where source or target reach the end of the window. */
    method CopyPiece(n: nat, from: int, ghost dist: nat) returns (e: nat, d: nat)
      requires WindowOk() && wp < WSIZE && n >= 1
      modifies slide, this`wp, this`out
      ensures 1 <= e <= n && WindowOk() && wp < WSIZE && |Total()| == |old(Total())| + e
      ensures old(Source(from, dist) || Source(from - WSIZE, dist)) ==>
        && 1 <= dist <= |old(Total())| && (Source(d, dist) || Source(d - WSIZE, dist))
        && Total() == CopyMatch(old(Total()), e, dist)
    {
      d := from % WSIZE;
      e := WSIZE - (if d > wp then d else wp);
      if e > n { e := n; }
      assert Source(from, dist) || Source(from - WSIZE, dist) ==> Source(d, dist);
      CopyBytes(d, e, dist);
      d := d + e;
      FlushFull();
    }

    /** Lines 602 to 630: a match of `len` bytes. */
    method WriteMatch(len: nat, dist: nat)
      requires WindowOk() && wp < WSIZE && len >= 1
      modifies slide, this`wp, this`out
      ensures WindowOk() && wp < WSIZE
      ensures 1 <= dist <= WSIZE && dist <= |old(Total())| ==> Total() == CopyMatch(old(Total()), len, dist)
    {
      hide History, Source;
      ghost var start := Total();
      ghost var linked := 1 <= dist <= WSIZE && dist <= |start|;
      var n: nat, d: int := len, wp - dist;
      ghost var done := 0;
      SourceStart(dist);
      while n > 0
        invariant done + n == len && WindowOk() && wp < WSIZE && |Total()| == |start| + done
        invariant linked ==> (Source(d, dist) || Source(d - WSIZE, dist)) && Total() == CopyMatch(start, done, dist)
      {
        var e;
        e, d := CopyPiece(n, d, dist);
        n := n - e;
        if linked { CopyMore(start, done, e, dist); }
        done := done + e;
      }
    }

    lemma SourceStart(dist: nat)
      requires WindowOk()
      ensures 1 <= dist <= WSIZE && dist <= |Total()| ==> Source(wp - dist, dist)
    {
    }
  }

  lemma StreamByte(b: nat, k: nat, input: seq<byte>, next: nat)
    requires b < Pow2(k) && next < |input|
    ensures var b' := b + Pow2(k) * input[next];
      BitsOf(b', k + 8) + Stream(input[next + 1..]) == BitsOf(b, k) + Stream(input[next..]) && b' < Pow2(k + 8)
  {
    hide Pow2, BitsOf;
    assert input[next..][1..] == input[next + 1..];
    AppendByte(b, k, input[next]);
  }

  lemma {:induction false} CopyMore(out: seq<byte>, m: nat, n: nat, dist: nat)
    requires 1 <= dist <= |out|
    ensures CopyMatch(CopyMatch(out, m, dist), n, dist) == CopyMatch(out, m + n, dist)
  {
    if n > 0 {
      CopyMore(out, m, n - 1, dist);
    }
  }

  lemma WalkIndex(tables: seq<Table>, sizes: seq<nat>, root: nat, t: nat, s: Bits)
    requires Sound(tables, sizes, root) && t < |tables| && sizes[t] <= |s|
    ensures Val(s[..sizes[t]]) < |tables[t]| && EntrySound(tables, sizes, t, Val(s[..sizes[t]]))
  {
    ValBound(s[..sizes[t]]);
  }
}
