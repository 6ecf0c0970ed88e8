// The LRW block index as the eight bytes the code keeps it in, and how it is stepped.
module LrwIndex {
  import opened Words
  import opened CryptoUnits

  /** A 64-bit number from its bytes, the highest first. */
  function NumberOf(i: seq<bv8>): bv64
    requires |i| == 8
  {
    Word(i[0], i[1], i[2], i[3], i[4], i[5], i[6], i[7])
  }

  /** Its digits to the base 256. */
  lemma NumberIs(i: seq<bv8>)
    requires |i| == 8
    ensures NumberOf(i) as int ==
      0x100_0000_0000_0000 * (i[0] as int) + 0x1_0000_0000_0000 * (i[1] as int) + 0x100_0000_0000 * (i[2] as int)
      + 0x1_0000_0000 * (i[3] as int) + 0x100_0000 * (i[4] as int) + 0x1_0000 * (i[5] as int) + 0x100 * (i[6] as int) + i[7] as int
  {
    hide Word;
    WordNumber(i[0], i[1], i[2], i[3], i[4], i[5], i[6], i[7]);
  }

  function ByteAt(x: bv64, k: nat): bv8
    requires k < 8
  {
    if k == 0 then (x >> 56) as bv8
    else if k == 1 then ((x >> 48) & 0xff) as bv8
    else if k == 2 then ((x >> 40) & 0xff) as bv8
    else if k == 3 then ((x >> 32) & 0xff) as bv8
    else if k == 4 then ((x >> 24) & 0xff) as bv8
    else if k == 5 then ((x >> 16) & 0xff) as bv8
    else if k == 6 then ((x >> 8) & 0xff) as bv8
    else (x & 0xff) as bv8
  }

  /** BE64 of a number, in memory. */
  function Bytes(x: bv64): (i: seq<bv8>)
    ensures |i| == 8
  {
    [ByteAt(x, 0), ByteAt(x, 1), ByteAt(x, 2), ByteAt(x, 3), ByteAt(x, 4), ByteAt(x, 5), ByteAt(x, 6), ByteAt(x, 7)]
  }

  lemma Split(x: bv64)
    ensures x == ((x >> 56) << 56) | (((x >> 48) & 0xff) << 48) | (((x >> 40) & 0xff) << 40) | (((x >> 32) & 0xff) << 32)
      | (((x >> 24) & 0xff) << 24) | (((x >> 16) & 0xff) << 16) | (((x >> 8) & 0xff) << 8) | (x & 0xff)
  {
  }

  lemma Narrow(x: bv64)
    requires x <= 0xff
    ensures (x as bv8) as bv64 == x
  {
  }

  lemma Small(x: bv64)
    ensures (x >> 56) <= 0xff && ((x >> 48) & 0xff) <= 0xff && ((x >> 40) & 0xff) <= 0xff && ((x >> 32) & 0xff) <= 0xff
    ensures ((x >> 24) & 0xff) <= 0xff && ((x >> 16) & 0xff) <= 0xff && ((x >> 8) & 0xff) <= 0xff && (x & 0xff) <= 0xff
  {
  }

  lemma BytesRoundTrip(x: bv64)
    ensures NumberOf(Bytes(x)) == x
  {
    Split(x);
    Small(x);
    Narrow(x >> 56);
    Narrow((x >> 48) & 0xff);
    Narrow((x >> 40) & 0xff);
    Narrow((x >> 32) & 0xff);
    Narrow((x >> 24) & 0xff);
    Narrow((x >> 16) & 0xff);
    Narrow((x >> 8) & 0xff);
    Narrow(x & 0xff);
  }

  function NextByte(h: bv8): bv8 { h + 1 }

  /** Stepping the last byte alone adds 1, unless it would carry. */
  lemma LastByte(a: bv8, b: bv8, c: bv8, d: bv8, e: bv8, f: bv8, g: bv8, h: bv8)
    requires h != 0xff
    ensures Word(a, b, c, d, e, f, g, NextByte(h)) == Up(Word(a, b, c, d, e, f, g, h))
  {
  }

  method StoreBytes(i: array<bv8>, b: seq<bv8>)
    requires i.Length == 8 && |b| == 8
    modifies i
    ensures i[..] == b
  {
    i[0], i[1], i[2], i[3], i[4], i[5], i[6], i[7] := b[0], b[1], b[2], b[3], b[4], b[5], b[6], b[7];
  }

  /** Lines 861 to 864: the index goes up by 1 modulo 2^64. */
  method StepIndex(i: array<bv8>)
    requires i.Length == 8
    modifies i
    ensures NumberOf(i[..]) == Advance(old(NumberOf(i[..])), 1)
  {
    hide Word, Bytes, NextByte, Up, Advance;
    ghost var i0 := i[..];
    AdvanceNext(NumberOf(i0), 0);
    if i[7] != 0xff {
      LastByte(i[0], i[1], i[2], i[3], i[4], i[5], i[6], i[7]);
      i[7] := NextByte(i[7]);
    } else {
      var n := Up(NumberOf(i[..]));
      StoreBytes(i, Bytes(n));
      BytesRoundTrip(n);
    }
  }
}
