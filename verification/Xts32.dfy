// The XTS routine of Xts.c for compilers without 64-bit integers, on 32-bit words.
module Xts32 {
  import opened Words
  import opened XtsSpec
  import opened Xts

  lemma JoinHalves(x: bv64)
    ensures Join(Low(x), High(x)) == x
  {
  }

  function Xor32(a: bv32, b: bv32): bv32 { a ^ b }

  lemma JoinXor(a: bv32, b: bv32, c: bv32, d: bv32)
    ensures Join(Xor32(a, c), Xor32(b, d)) == XorWord(Join(a, b), Join(c, d))
  {
  }

  function Shl32(w: bv32): bv32 { w << 1 }

  function Top32(w: bv32): bool { w & 0x8000_0000 != 0 }

  function Carry32(w: bv32): bv32 { w | 1 }

  lemma JoinShl(a: bv32, b: bv32)
    ensures Shl(Join(a, b)) == Join(Shl32(a), if Top32(a) then Carry32(Shl32(b)) else Shl32(b))
    ensures TopBit(Join(a, b)) == Top32(b)
  {
    hide Join, TopBit;
    if Top32(a) { JoinShlCarry(a, b); } else { JoinShlPlain(a, b); }
    JoinTop(a, b);
  }

  lemma JoinShlPlain(a: bv32, b: bv32)
    requires a & 0x8000_0000 == 0
    ensures Join(a, b) << 1 == Join(a << 1, b << 1)
  {
  }

  lemma JoinShlCarry(a: bv32, b: bv32)
    requires a & 0x8000_0000 != 0
    ensures Join(a, b) << 1 == Join(a << 1, (b << 1) | 1)
  {
  }

  lemma JoinTop(a: bv32, b: bv32)
    ensures TopBit(Join(a, b)) == Top32(b)
  {
  }

  lemma JoinCarry(a: bv32, b: bv32)
    ensures CarryIn(Join(a, b)) == Join(Carry32(a), b)
  {
    JoinOr(a, b);
  }

  lemma JoinOr(a: bv32, b: bv32)
    ensures Join(a, b) | 1 == Join(a | 1, b)
  {
  }

  lemma JoinReduce(a: bv32, b: bv32)
    ensures Reduce(Join(a, b)) == Join(Xor32(a, 135), b) && Join(Xor32(a, 0), b) == Join(a, b)
  {
  }

  /** Lines 706 to 709: the unit number as two halves, incremented. */
  lemma JoinIncrement(low: bv32, high: bv32)
    ensures Join(low + 1, if low + 1 == 0 then high + 1 else high) == Join(low, high) + 1
  {
    if low == 0xffff_ffff { IncrementCarry(high); } else { IncrementPlain(low, high); }
  }

  lemma IncrementPlain(a: bv32, b: bv32)
    requires a != 0xffff_ffff
    ensures Join(a, b) + 1 == Join(a + 1, b) && a + 1 != 0
  {
  }

  lemma IncrementCarry(b: bv32)
    ensures Join(0xffff_ffff, b) + 1 == Join(0, b + 1)
  {
  }

  function JoinBlock(a: bv32, b: bv32, c: bv32, d: bv32): Block { Block(Join(a, b), Join(c, d)) }

  ghost function BlockAt32(s: seq<bv32>, t: nat): Block
    requires 4 * t + 3 < |s|
  {
    JoinBlock(s[4 * t], s[4 * t + 1], s[4 * t + 2], s[4 * t + 3])
  }

  /** The words of the buffer as pairs of halves. */
  ghost function Joined(s: seq<bv32>): seq<bv64>
    requires |s| % 2 == 0
  {
    seq(|s| / 2, i requires 0 <= i < |s| / 2 => Join(s[2 * i], s[2 * i + 1]))
  }

  /** One double word of the shift, from the highest (3) down to 0: its carry goes into the one above, or
      out at the top. */
  method ShiftDword(w: array<bv32>, i: nat) returns (carry: bool)
    requires w.Length == 4 && i < 4
    modifies w
    ensures carry == Top32(old(w[i])) && w[i] == Shl32(old(w[i]))
    ensures forall k :: 0 <= k < 4 && k != i && k != i + 1 ==> w[k] == old(w[k])
    ensures i < 3 ==> w[i + 1] == if carry then Carry32(old(w[i + 1])) else old(w[i + 1])
  {
    hide Shl32, Top32, Carry32;
    carry := Top32(w[i]);
    if carry && i != 3 {
      w[i + 1] := Carry32(w[i + 1]);
    }
    w[i] := Shl32(w[i]);
  }

  /** What the shift makes of the four double words. */
  lemma ShiftedBlock(w0: bv32, w1: bv32, w2: bv32, w3: bv32)
    ensures var lo := Shl32(w0);
      JoinBlock(Xor32(lo, if Top32(w3) then 135 else 0), if Top32(w0) then Carry32(Shl32(w1)) else Shl32(w1),
        if Top32(w1) then Carry32(Shl32(w2)) else Shl32(w2), if Top32(w2) then Carry32(Shl32(w3)) else Shl32(w3))
      == MulAlpha(JoinBlock(w0, w1, w2, w3))
  {
    hide Shl32, Top32, Carry32, Xor32, Join, Shl, TopBit, CarryIn, Reduce;
    JoinShl(w0, w1);
    JoinShl(w2, w3);
    JoinCarry(Shl32(w2), if Top32(w2) then Carry32(Shl32(w3)) else Shl32(w3));
    JoinReduce(Shl32(w0), if Top32(w0) then Carry32(Shl32(w1)) else Shl32(w1));
  }

  /** Lines 676 to 699 */
  method NextWhitening32(w: array<bv32>)
    requires w.Length == 4
    modifies w
    ensures JoinBlock(w[0], w[1], w[2], w[3]) == MulAlpha(old(JoinBlock(w[0], w[1], w[2], w[3])))
  {
    hide Shl32, Top32, Carry32, Xor32, Join, MulAlpha;
    ShiftedBlock(w[0], w[1], w[2], w[3]);
    var top := ShiftDword(w, 3);
    var finalCarry: bv32 := if top then 135 else 0;
    var i := 2;
    while i >= 0
      invariant -1 <= i <= 2
      invariant forall k :: 0 <= k <= i ==> w[k] == old(w[k])
      invariant forall k :: i + 1 < k < 4 ==>
        w[k] == if Top32(old(w[k - 1])) then Carry32(Shl32(old(w[k]))) else Shl32(old(w[k]))
      invariant w[i + 1] == Shl32(old(w[i + 1]))
    {
      var _ := ShiftDword(w, i);
      i := i - 1;
    }
    w[0] := Xor32(w[0], finalCarry);
  }

  /** EncipherBlock or DecipherBlock on the four double words at `p`. */
  method ApplyBlock32(f: BlockFunction, buf: array<bv32>, p: nat)
    requires p + 3 < buf.Length
    modifies buf
    ensures forall i :: 0 <= i < buf.Length && !(p <= i < p + 4) ==> buf[i] == old(buf[i])
    ensures JoinBlock(buf[p], buf[p + 1], buf[p + 2], buf[p + 3])
      == f(old(JoinBlock(buf[p], buf[p + 1], buf[p + 2], buf[p + 3])))
  {
    hide Join, Low, High;
    var b := f(JoinBlock(buf[p], buf[p + 1], buf[p + 2], buf[p + 3]));
    buf[p], buf[p + 1], buf[p + 2], buf[p + 3] := Low(b.lo), High(b.lo), Low(b.hi), High(b.hi);
    JoinHalves(b.lo);
    JoinHalves(b.hi);
  }

  /** Lines 651 to 655 and 667 to 671 */
  method Whiten32(buf: array<bv32>, p: nat, w: array<bv32>)
    requires p + 3 < buf.Length && w.Length == 4 && w != buf
    modifies buf
    ensures forall i :: 0 <= i < buf.Length && !(p <= i < p + 4) ==> buf[i] == old(buf[i])
    ensures JoinBlock(buf[p], buf[p + 1], buf[p + 2], buf[p + 3])
      == Xor(old(JoinBlock(buf[p], buf[p + 1], buf[p + 2], buf[p + 3])), JoinBlock(w[0], w[1], w[2], w[3]))
  {
    hide Join, Xor32, XorWord;
    JoinXor(buf[p], buf[p + 1], w[0], w[1]);
    JoinXor(buf[p + 2], buf[p + 3], w[2], w[3]);
    buf[p] := Xor32(buf[p], w[0]);
    buf[p + 1] := Xor32(buf[p + 1], w[1]);
    buf[p + 2] := Xor32(buf[p + 2], w[2]);
    buf[p + 3] := Xor32(buf[p + 3], w[3]);
  }

  // ----- Whole buffers: the same places as the 64-bit routines -----

  ghost function After32(s: seq<bv32>, t: nat, from: nat, to: nat, f: BlockFunction, enc2: BlockFunction, unit: bv64, j: nat): Block
    requires 4 * t + 3 < |s|
  {
    if from <= t < to then XtsBlock(f, enc2, unit, j + (t - from), BlockAt32(s, t)) else BlockAt32(s, t)
  }

  ghost predicate Processed32(s: seq<bv32>, s': seq<bv32>, from: nat, to: nat, f: BlockFunction, enc2: BlockFunction, unit: bv64, j: nat) {
    && |s'| == |s|
    && forall t :: 0 <= t && 4 * t + 3 < |s| ==> BlockAt32(s', t) == After32(s, t, from, to, f, enc2, unit, j)
  }

  lemma OneMore32(s0: seq<bv32>, s: seq<bv32>, s': seq<bv32>, from: nat, to: nat, f: BlockFunction, enc2: BlockFunction, unit: bv64, j: nat)
    requires from <= to && 4 * to + 3 < |s| == |s'| && Processed32(s0, s, from, to, f, enc2, unit, j)
    requires forall i :: 0 <= i < |s| && !(4 * to <= i < 4 * to + 4) ==> s'[i] == s[i]
    requires var t := Tweak(enc2, unit, j + (to - from));
      BlockAt32(s', to) == Xor(f(Xor(BlockAt32(s, to), t)), t)
    ensures Processed32(s0, s', from, to + 1, f, enc2, unit, j)
  {
    hide Xor, Tweak, Join;
    forall t | 0 <= t && 4 * t + 3 < |s|
      ensures BlockAt32(s', t) == After32(s0, t, from, to + 1, f, enc2, unit, j)
    {
      assert BlockAt32(s, t) == After32(s0, t, from, to, f, enc2, unit, j);
    }
  }

  /** Lines 640 and 641 */
  method FirstWhitening32(low: bv32, high: bv32, enc2: BlockFunction) returns (w: array<bv32>)
    ensures fresh(w) && w.Length == 4 && JoinBlock(w[0], w[1], w[2], w[3]) == Tweak(enc2, Join(low, high), 0)
  {
    hide Join;
    w := new bv32[4];
    w[0], w[1], w[2], w[3] := low, high, 0, 0;
    JoinZero();
    ApplyBlock32(enc2, w, 0);
  }

  lemma JoinZero()
    ensures Join(0, 0) == 0
  {
  }

  /** Lines 647 to 672: one block of the buffer. */
  method OneBlock32(buf: array<bv32>, t: nat, w: array<bv32>, f: BlockFunction)
    requires 4 * t + 3 < buf.Length && w.Length == 4 && w != buf
    modifies buf
    ensures forall i :: 0 <= i < buf.Length && !(4 * t <= i < 4 * t + 4) ==> buf[i] == old(buf[i])
    ensures var k := JoinBlock(w[0], w[1], w[2], w[3]);
      BlockAt32(buf[..], t) == Xor(f(Xor(BlockAt32(old(buf[..]), t), k)), k)
  {
    hide Join, Xor;
    Whiten32(buf, 4 * t, w);
    ApplyBlock32(f, buf, 4 * t);
    Whiten32(buf, 4 * t, w);
  }

  /** Lines 638 to 700: one data unit. */
  method Unit32(buf: array<bv32>, from: nat, start: nat, end: nat, low: bv32, high: bv32, f: BlockFunction, enc2: BlockFunction)
    requires start <= end && 4 * (from + (end - start)) <= buf.Length
    modifies buf
    ensures Processed32(old(buf[..]), buf[..], from, from + (end - start), f, enc2, Join(low, high), start)
  {
    hide Join, Xor, Tweak, MulAlpha, Processed32;
    var w := FirstWhitening32(low, high, enc2);
    ghost var s0, unit := buf[..], Join(low, high);
    NothingYet32(s0, from, f, enc2, unit, start);
    for block := 0 to end
      invariant fresh(w) && w.Length == 4 && JoinBlock(w[0], w[1], w[2], w[3]) == Tweak(enc2, unit, block)
      invariant Processed32(s0, buf[..], from, from + (if block < start then 0 else block - start), f, enc2, unit, start)
    {
      if block >= start {
        ghost var s := buf[..];
        OneBlock32(buf, from + (block - start), w, f);
        OneMore32(s0, s, buf[..], from, from + (block - start), f, enc2, unit, start);
      }
      TweakNext(enc2, unit, block);
      NextWhitening32(w);
    }
  }

  lemma NothingYet32(s: seq<bv32>, from: nat, f: BlockFunction, enc2: BlockFunction, unit: bv64, j: nat)
    ensures Processed32(s, s, from, from, f, enc2, unit, j)
  {
  }

  /** The first `done` blocks are what the 64-bit routines make of them, the others untouched. */
  ghost predicate UpTo32(s0: seq<bv32>, s: seq<bv32>, done: nat, count: nat, unit: bv64, start: nat, f: BlockFunction, enc2: BlockFunction) {
    && |s| == |s0| == 4 * count && done <= count
    && forall t :: 0 <= t < count ==>
        BlockAt32(s, t) ==
          if t < done then XtsBlock(f, enc2, Advance(unit, CodeUnit(start, count, t)), CodeIndex(start, count, t), BlockAt32(s0, t))
          else BlockAt32(s0, t)
  }

  lemma UnitDone32(s0: seq<bv32>, s: seq<bv32>, s': seq<bv32>, done: nat, to: nat, count: nat, unit: bv64, start: nat,
                   f: BlockFunction, enc2: BlockFunction, here: bv64, first: nat)
    requires UpTo32(s0, s, done, count, unit, start, f, enc2) && done <= to <= count
    requires Processed32(s, s', done, to, f, enc2, here, first)
    requires forall t :: done <= t < to ==>
      here == Advance(unit, CodeUnit(start, count, t)) && first + (t - done) == CodeIndex(start, count, t)
    ensures UpTo32(s0, s', to, count, unit, start, f, enc2)
  {
    hide XtsBlock, CodeUnit, CodeIndex, Join;
    forall t | 0 <= t < count
      ensures BlockAt32(s', t) ==
        if t < to then XtsBlock(f, enc2, Advance(unit, CodeUnit(start, count, t)), CodeIndex(start, count, t), BlockAt32(s0, t))
        else BlockAt32(s0, t)
    {
      assert BlockAt32(s', t) == After32(s, t, done, to, f, enc2, here, first);
    }
  }

  /** EncryptDecryptBufferXTS32 */
  method BufferXts32(buf: array<bv32>, lowPart: bv32, highPart: bv32, startCipherBlockNo: nat, f: BlockFunction, enc2: BlockFunction)
    requires buf.Length % 4 == 0 && startCipherBlockNo < BLOCKS_PER_UNIT
    modifies buf
    ensures UpTo32(old(buf[..]), buf[..], buf.Length / 4, buf.Length / 4, Join(lowPart, highPart), startCipherBlockNo, f, enc2)
  {
    hide Advance, UpTo32, Processed32, AtUnit, EndBlock, XtsBlock, Join;
    ghost var s0, count, unit := buf[..], buf.Length / 4, Join(lowPart, highPart);
    var low, high, startBlock, blockCount := lowPart, highPart, startCipherBlockNo, buf.Length / 4;
    var bufPtr := 0;
    Begin32(s0, count, unit, startCipherBlockNo, f, enc2);
    while blockCount > 0
      invariant blockCount >= 0 && bufPtr + blockCount == count
      invariant AtUnit(bufPtr, count, unit, startCipherBlockNo, startBlock, Join(low, high))
      invariant UpTo32(s0, buf[..], bufPtr, count, unit, startCipherBlockNo, f, enc2)
    {
      var endBlock := EndBlock(startBlock, blockCount);
      UnitPlaces(bufPtr, count, unit, startCipherBlockNo, startBlock, Join(low, high));
      ghost var s := buf[..];
      Unit32(buf, bufPtr, startBlock, endBlock, low, high, f, enc2);
      UnitDone32(s0, s, buf[..], bufPtr, bufPtr + (endBlock - startBlock), count, unit, startCipherBlockNo,
        f, enc2, Join(low, high), startBlock);
      bufPtr := bufPtr + (endBlock - startBlock);
      blockCount := blockCount - (endBlock - startBlock);
      startBlock := 0;
      AdvanceOne(Join(low, high));
      JoinIncrement(low, high);
      low := low + 1;
      if low == 0 {
        high := high + 1;
      }
    }
  }

  lemma Begin32(s0: seq<bv32>, count: nat, unit: bv64, start: nat, f: BlockFunction, enc2: BlockFunction)
    requires |s0| == 4 * count
    ensures UpTo32(s0, s0, 0, count, unit, start, f, enc2) && AtUnit(0, count, unit, start, start, unit)
  {
  }

  /** The 32-bit routine and the 64-bit ones leave the same buffer. */
  lemma SameBuffer(s0: seq<bv32>, s: seq<bv32>, t0: seq<bv64>, t: seq<bv64>, count: nat, unit: bv64, start: nat,
                   f: BlockFunction, enc2: BlockFunction, i: nat)
    requires UpTo32(s0, s, count, count, unit, start, f, enc2) && UpTo(t0, t, count, count, unit, start, f, enc2)
    requires t0 == Joined(s0) && i < |t|
    ensures |s| % 2 == 0 && i < |Joined(s)| && t[i] == Joined(s)[i]
  {
    hide XtsBlock, Join;
    var b := i / 2;
    assert 2 * b + 1 < |t0|;
    assert BlockAt(t0, b) == BlockAt32(s0, b);
    assert BlockAt(t, b) == CodeResult(t0, b, count, unit, start, f, enc2);
    assert BlockAt(t, b) == BlockAt32(s, b);
    assert i == 2 * b || i == 2 * b + 1;
  }
}
