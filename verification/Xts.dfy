// The XTS routines of Xts.c, in place on a buffer of words.
module Xts {
  import opened Words
  import opened XtsSpec

  ghost function BlockAt(s: seq<bv64>, t: nat): Block
    requires 2 * t + 1 < |s|
  {
    Block(s[2 * t], s[2 * t + 1])
  }

  /** Block `t` of `s` after blocks `from` to `to` - 1 have been processed as blocks `j` on of `unit`. */
  ghost function After(s: seq<bv64>, t: nat, from: nat, to: nat, f: BlockFunction, enc2: BlockFunction, unit: bv64, j: nat): Block
    requires 2 * t + 1 < |s|
  {
    if from <= t < to then XtsBlock(f, enc2, unit, j + (t - from), BlockAt(s, t)) else BlockAt(s, t)
  }

  ghost predicate Processed(s: seq<bv64>, s': seq<bv64>, from: nat, to: nat, f: BlockFunction, enc2: BlockFunction, unit: bv64, j: nat) {
    && |s'| == |s|
    && forall t :: 0 <= t && 2 * t + 1 < |s| ==> BlockAt(s', t) == After(s, t, from, to, f, enc2, unit, j)
  }

  /** Lines 126 to 158: the next whitening value, word by word. */
  method NextWhitening(w: array<bv64>)
    requires w.Length == 2
    modifies w
    ensures Block(w[0], w[1]) == MulAlpha(old(Block(w[0], w[1])))
  {
    hide XorWord, TopBit, Shl, CarryIn, Reduce;
    var finalCarry: bv64 := if TopBit(w[1]) then 135 else 0;
    w[1] := Shl(w[1]);
    if TopBit(w[0]) {
      w[1] := CarryIn(w[1]);
    }
    w[0] := Shl(w[0]);
    ReduceIsXor(w[0]);
    w[0] := XorWord(w[0], finalCarry);
  }

  lemma ReduceIsXor(w: bv64)
    ensures XorWord(w, 135) == Reduce(w) && XorWord(w, 0) == w
  {
  }

  /** EncipherBlock or DecipherBlock on the two words at `p`. */
  method ApplyBlock(f: BlockFunction, buf: array<bv64>, p: nat)
    requires p + 1 < buf.Length
    modifies buf
    ensures buf[..] == old(buf[..])[p := f(old(Block(buf[p], buf[p + 1]))).lo][p + 1 := f(old(Block(buf[p], buf[p + 1]))).hi]
  {
    var b := f(Block(buf[p], buf[p + 1]));
    buf[p], buf[p + 1] := b.lo, b.hi;
  }

  /** Lines 252 to 263: whiten, encipher and whiten one block. */
  method WhitenBlock(f: BlockFunction, buf: array<bv64>, p: nat, w: array<bv64>)
    requires p + 1 < buf.Length && w.Length == 2 && w != buf
    modifies buf
    ensures var t := Block(w[0], w[1]);
      var b := Xor(f(Xor(old(Block(buf[p], buf[p + 1])), t)), t);
      buf[..] == old(buf[..])[p := b.lo][p + 1 := b.hi]
  {
    hide XorWord;
    buf[p] := XorWord(buf[p], w[0]);
    buf[p + 1] := XorWord(buf[p + 1], w[1]);
    ApplyBlock(f, buf, p);
    buf[p] := XorWord(buf[p], w[0]);
    buf[p + 1] := XorWord(buf[p + 1], w[1]);
  }

  /** One more block of a unit. */
  lemma OneMore(s0: seq<bv64>, s: seq<bv64>, s': seq<bv64>, from: nat, to: nat, f: BlockFunction, enc2: BlockFunction, unit: bv64, j: nat)
    requires from <= to && 2 * to + 1 < |s| && Processed(s0, s, from, to, f, enc2, unit, j)
    requires var t := Tweak(enc2, unit, j + (to - from));
      var b := Xor(f(Xor(BlockAt(s, to), t)), t);
      s' == s[2 * to := b.lo][2 * to + 1 := b.hi]
    ensures Processed(s0, s', from, to + 1, f, enc2, unit, j)
  {
    hide XorWord, Tweak;
    forall t | 0 <= t && 2 * t + 1 < |s|
      ensures BlockAt(s', t) == After(s0, t, from, to + 1, f, enc2, unit, j)
    {
      assert BlockAt(s, t) == After(s0, t, from, to, f, enc2, unit, j);
    }
  }

  lemma TweakNext(enc2: BlockFunction, unit: bv64, j: nat)
    ensures Tweak(enc2, unit, j + 1) == MulAlpha(Tweak(enc2, unit, j))
  {
  }

  /** Lines 244 to 246: the data unit number enciphered with the secondary key. */
  method FirstWhitening(unit: bv64, enc2: BlockFunction) returns (w: array<bv64>)
    ensures fresh(w) && w.Length == 2 && Block(w[0], w[1]) == Tweak(enc2, unit, 0)
  {
    w := new bv64[2];
    w[0], w[1] := unit, 0;
    ApplyBlock(enc2, w, 0);
    assert w[0] == w[..][0] && w[1] == w[..][1];
  }

  lemma NothingYet(s: seq<bv64>, from: nat, f: BlockFunction, enc2: BlockFunction, unit: bv64, j: nat)
    ensures Processed(s, s, from, from, f, enc2, unit, j)
  {
  }

  /** Lines 240 to 303, one data unit block by block: blocks `start` to `end` - 1 of `unit`, at block `from`
      of the buffer. */
  method UnitBlockwise(buf: array<bv64>, from: nat, start: nat, end: nat, unit: bv64, f: BlockFunction, enc2: BlockFunction)
    requires start <= end && 2 * (from + (end - start)) <= buf.Length
    modifies buf
    ensures Processed(old(buf[..]), buf[..], from, from + (end - start), f, enc2, unit, start)
  {
    hide XorWord, MulAlpha, Processed, Tweak;
    var w := FirstWhitening(unit, enc2);
    var p := 2 * from;
    NothingYet(buf[..], from, f, enc2, unit, start);
    ghost var s0 := buf[..];
    for block := 0 to end
      invariant w.Length == 2 && Block(w[0], w[1]) == Tweak(enc2, unit, block)
      invariant fresh(w)
      invariant p == 2 * (from + if block < start then 0 else block - start)
      invariant Processed(s0, buf[..], from, from + (if block < start then 0 else block - start), f, enc2, unit, start)
    {
      if block >= start {
        ghost var s := buf[..];
        WhitenBlock(f, buf, p, w);
        OneMore(s0, s, buf[..], from, from + (block - start), f, enc2, unit, start);
        p := p + 2;
      }
      TweakNext(enc2, unit, block);
      NextWhitening(w);
    }
  }

  /** Lines 112 to 159: the whitening values of a data unit, in memory as words in reverse order. */
  method WhiteningValues(start: nat, end: nat, unit: bv64, enc2: BlockFunction) returns (values: array<bv64>)
    requires start <= end && end - start <= BLOCKS_PER_UNIT
    ensures fresh(values) && values.Length == 64
    ensures forall j :: start <= j < end ==>
      values[63 - 2 * (j - start)] == Tweak(enc2, unit, j).lo && values[62 - 2 * (j - start)] == Tweak(enc2, unit, j).hi
  {
    hide MulAlpha, Tweak;
    values := new bv64[64];
    var w := FirstWhitening(unit, enc2);
    var v: int := 63;
    for block := 0 to end
      invariant fresh(w) && fresh(values) && w.Length == 2 && values.Length == 64 && w != values
      invariant Block(w[0], w[1]) == Tweak(enc2, unit, block)
      invariant v == 63 - 2 * (if block < start then 0 else block - start)
      invariant forall j :: start <= j < block ==>
        values[63 - 2 * (j - start)] == Tweak(enc2, unit, j).lo && values[62 - 2 * (j - start)] == Tweak(enc2, unit, j).hi
    {
      if block >= start {
        values[v] := w[0];
        v := v - 1;
        values[v] := w[1];
        v := v - 1;
      }
      TweakNext(enc2, unit, block);
      NextWhitening(w);
    }
  }

  /** Lines 164 to 171 and 179 to 184: xor whitening values into the blocks. */
  method Whiten(buf: array<bv64>, from: nat, count: nat, values: array<bv64>)
    requires values.Length == 64 && count <= BLOCKS_PER_UNIT && 2 * (from + count) <= buf.Length && values != buf
    modifies buf
    ensures forall i :: 0 <= i < buf.Length ==>
      buf[i] == if 2 * from <= i < 2 * (from + count) then XorWord(old(buf[i]), values[63 - (i - 2 * from)]) else old(buf[i])
  {
    hide XorWord;
    var p, v := 2 * from, 63;
    for block := 0 to count
      invariant p == 2 * (from + block) && v == 63 - 2 * block
      invariant forall i :: 0 <= i < buf.Length ==>
        buf[i] == if 2 * from <= i < p then XorWord(old(buf[i]), values[63 - (i - 2 * from)]) else old(buf[i])
    {
      buf[p] := XorWord(buf[p], values[v]);
      p, v := p + 1, v - 1;
      buf[p] := XorWord(buf[p], values[v]);
      p, v := p + 1, v - 1;
    }
  }

  /** EncipherBlocks: every block on its own. */
  method ApplyBlocks(f: BlockFunction, buf: array<bv64>, from: nat, count: nat)
    requires 2 * (from + count) <= buf.Length
    modifies buf
    ensures forall t :: 0 <= t && 2 * t + 1 < buf.Length ==>
      BlockAt(buf[..], t) == if from <= t < from + count then f(BlockAt(old(buf[..]), t)) else BlockAt(old(buf[..]), t)
  {
    for block := 0 to count
      invariant forall t :: 0 <= t && 2 * t + 1 < buf.Length ==>
        BlockAt(buf[..], t) == if from <= t < from + block then f(BlockAt(old(buf[..]), t)) else BlockAt(old(buf[..]), t)
    {
      ApplyBlock(f, buf, 2 * (from + block));
    }
  }

  /** Lines 103 to 184, one data unit with all its blocks at a time. */
  method UnitParallel(buf: array<bv64>, from: nat, start: nat, end: nat, unit: bv64, f: BlockFunction, enc2: BlockFunction)
    requires start <= end && end - start <= BLOCKS_PER_UNIT && 2 * (from + (end - start)) <= buf.Length
    modifies buf
    ensures Processed(old(buf[..]), buf[..], from, from + (end - start), f, enc2, unit, start)
  {
    hide XorWord, Tweak;
    var values := WhiteningValues(start, end, unit, enc2);
    ghost var s0 := buf[..];
    Whiten(buf, from, end - start, values);
    ghost var s1 := buf[..];
    ApplyBlocks(f, buf, from, end - start);
    ghost var s2 := buf[..];
    Whiten(buf, from, end - start, values);
    forall t | 0 <= t && 2 * t + 1 < |s0|
      ensures BlockAt(buf[..], t) == After(s0, t, from, from + (end - start), f, enc2, unit, start)
    {
      assert BlockAt(s2, t) == if from <= t < from + (end - start) then f(BlockAt(s1, t)) else BlockAt(s1, t);
    }
  }

  // ----- Whole buffers -----

  /** What the code makes of block `t` of a buffer of `count` blocks. */
  ghost function CodeResult(s: seq<bv64>, t: nat, count: nat, unit: bv64, start: nat, f: BlockFunction, enc2: BlockFunction): Block
    requires 2 * t + 1 < |s|
  {
    XtsBlock(f, enc2, Advance(unit, CodeUnit(start, count, t)), CodeIndex(start, count, t), BlockAt(s, t))
  }

  /** The first `done` blocks of the buffer are finished, the others untouched. */
  ghost predicate UpTo(s0: seq<bv64>, s: seq<bv64>, done: nat, count: nat, unit: bv64, start: nat, f: BlockFunction, enc2: BlockFunction) {
    && |s| == |s0| == 2 * count && done <= count
    && forall t :: 0 <= t < count ==>
        BlockAt(s, t) == if t < done then CodeResult(s0, t, count, unit, start, f, enc2) else BlockAt(s0, t)
  }

  lemma UnitDone(s0: seq<bv64>, s: seq<bv64>, s': seq<bv64>, done: nat, to: nat, count: nat, unit: bv64, start: nat,
                 f: BlockFunction, enc2: BlockFunction, here: bv64, first: nat)
    requires UpTo(s0, s, done, count, unit, start, f, enc2) && done <= to <= count
    requires Processed(s, s', done, to, f, enc2, here, first)
    requires forall t :: done <= t < to ==>
      here == Advance(unit, CodeUnit(start, count, t)) && first + (t - done) == CodeIndex(start, count, t)
    ensures UpTo(s0, s', to, count, unit, start, f, enc2)
  {
    hide XtsBlock, CodeUnit, CodeIndex;
    forall t | 0 <= t < count
      ensures BlockAt(s', t) == if t < to then CodeResult(s0, t, count, unit, start, f, enc2) else BlockAt(s0, t)
    {
      assert BlockAt(s', t) == After(s, t, done, to, f, enc2, here, first);
    }
  }

  /** The position of the outer loop: at the start, at the start of a later unit, or at the end. */
  ghost predicate AtUnit(done: nat, count: nat, unit: bv64, start: nat, startBlock: nat, here: bv64) {
    && done <= count
    && if done == 0 then startBlock == start && here == unit
       else
         && startBlock == 0
         && (done < count ==>
               && count >= BLOCKS_PER_UNIT && (start + done) % BLOCKS_PER_UNIT == 0
               && here == Advance(unit, (start + done) / BLOCKS_PER_UNIT))
  }

  function EndBlock(startBlock: nat, blockCount: nat): nat {
    if blockCount < BLOCKS_PER_UNIT then startBlock + blockCount else BLOCKS_PER_UNIT
  }

  /** One round of the outer loop treats its blocks where CodeUnit and CodeIndex say. */
  lemma UnitPlaces(done: nat, count: nat, unit: bv64, start: nat, startBlock: nat, here: bv64)
    requires start < BLOCKS_PER_UNIT && done < count && AtUnit(done, count, unit, start, startBlock, here)
    ensures var to := done + (EndBlock(startBlock, count - done) - startBlock);
      && done < to <= count && AtUnit(to, count, unit, start, 0, Advance(here, 1))
      && EndBlock(startBlock, count - done) - startBlock <= BLOCKS_PER_UNIT
      && forall t :: done <= t < to ==>
          here == Advance(unit, CodeUnit(start, count, t)) && startBlock + (t - done) == CodeIndex(start, count, t)
  {
    var end := EndBlock(startBlock, count - done);
    if done == 0 {
      if count >= BLOCKS_PER_UNIT { assert (start + (end - start)) / BLOCKS_PER_UNIT == 1; }
    } else {
      var n := (start + done) / BLOCKS_PER_UNIT;
      AdvanceAdd(unit, n, 1);
      assert start + done == BLOCKS_PER_UNIT * n;
    }
  }

  /** EncryptBufferXTS or DecryptBufferXTS, as `f` enciphers or deciphers: whole units at a time if the
      cipher supports that, else block by block.  Both give every block the same result. */
  method BufferXts(buf: array<bv64>, startDataUnitNo: bv64, startCipherBlockNo: nat, f: BlockFunction, enc2: BlockFunction, parallel: bool)
    requires buf.Length % 2 == 0 && startCipherBlockNo < BLOCKS_PER_UNIT
    modifies buf
    ensures UpTo(old(buf[..]), buf[..], buf.Length / 2, buf.Length / 2, startDataUnitNo, startCipherBlockNo, f, enc2)
  {
    hide Advance, UpTo, CodeResult, Processed, AtUnit, EndBlock, XtsBlock;
    ghost var s0, count := buf[..], buf.Length / 2;
    var dataUnitNo, startBlock, blockCount := startDataUnitNo, startCipherBlockNo, buf.Length / 2;
    var bufPtr := 0;
    Begin(s0, count, startDataUnitNo, startCipherBlockNo, f, enc2);
    while blockCount > 0
      invariant blockCount >= 0 && bufPtr + blockCount == count
      invariant AtUnit(bufPtr, count, startDataUnitNo, startCipherBlockNo, startBlock, dataUnitNo)
      invariant UpTo(s0, buf[..], bufPtr, count, startDataUnitNo, startCipherBlockNo, f, enc2)
    {
      var endBlock := EndBlock(startBlock, blockCount);
      UnitPlaces(bufPtr, count, startDataUnitNo, startCipherBlockNo, startBlock, dataUnitNo);
      ghost var s := buf[..];
      if parallel {
        UnitParallel(buf, bufPtr, startBlock, endBlock, dataUnitNo, f, enc2);
      } else {
        UnitBlockwise(buf, bufPtr, startBlock, endBlock, dataUnitNo, f, enc2);
      }
      UnitDone(s0, s, buf[..], bufPtr, bufPtr + (endBlock - startBlock), count, startDataUnitNo, startCipherBlockNo,
        f, enc2, dataUnitNo, startBlock);
      bufPtr := bufPtr + (endBlock - startBlock);
      blockCount := blockCount - (endBlock - startBlock);
      startBlock := 0;
      AdvanceOne(dataUnitNo);
      dataUnitNo := dataUnitNo + 1;
    }
  }

  lemma Begin(s0: seq<bv64>, count: nat, unit: bv64, start: nat, f: BlockFunction, enc2: BlockFunction)
    requires |s0| == 2 * count
    ensures UpTo(s0, s0, 0, count, unit, start, f, enc2) && AtUnit(0, count, unit, start, start, unit)
  {
  }

  /** So the buffer is encrypted as the standard says, block by block at its own unit and place, whenever
      the run is one the code splits right. */
  lemma BufferIsStandard(s0: seq<bv64>, s: seq<bv64>, count: nat, unit: bv64, start: nat, f: BlockFunction, enc2: BlockFunction, t: nat)
    requires UpTo(s0, s, count, count, unit, start, f, enc2) && t < count
    requires start < BLOCKS_PER_UNIT && Splits(start, count)
    ensures BlockAt(s, t) == XtsBlock(f, enc2, Advance(unit, UnitOf(start, t)), IndexOf(start, t), BlockAt(s0, t))
  {
    SplitsExactly(start, count);
  }

  /** Decrypting what was encrypted gives the buffer back, for every start and length. */
  lemma DecryptUndoesEncrypt(s0: seq<bv64>, s1: seq<bv64>, s2: seq<bv64>, count: nat, unit: bv64, start: nat,
                             enc: BlockFunction, dec: BlockFunction, enc2: BlockFunction)
    requires forall b :: dec(enc(b)) == b
    requires UpTo(s0, s1, count, count, unit, start, enc, enc2) && UpTo(s1, s2, count, count, unit, start, dec, enc2)
    ensures s2 == s0
  {
    hide XtsBlock;
    forall i | 0 <= i < |s0|
      ensures s2[i] == s0[i]
    {
      var t := i / 2;
      assert BlockAt(s1, t) == CodeResult(s0, t, count, unit, start, enc, enc2);
      assert BlockAt(s2, t) == CodeResult(s1, t, count, unit, start, dec, enc2);
      XtsInverts(enc, dec, enc2, Advance(unit, CodeUnit(start, count, t)), CodeIndex(start, count, t), BlockAt(s0, t));
      assert BlockAt(s2, t) == BlockAt(s0, t);
      assert i == 2 * t || i == 2 * t + 1;
    }
  }
}
