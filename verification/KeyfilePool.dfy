// The keyfile pool byte by byte, and what one byte of a keyfile adds to it.
module KeyfilePool {
  import opened Bytes
  import opened Sequences
  import opened Keyfiles
  import BigEndian
  import Crc

  /** Byte 0 is the highest: the four bytes are the register's digits to the base 256. */
  lemma PartsAreDigits(crc: bv32)
    ensures 0x100_0000 * Part(crc, 0) + 0x1_0000 * Part(crc, 1) + 0x100 * Part(crc, 2) + Part(crc, 3) == crc as int
  {
    BigEndian.Digits(crc);
  }

  /** Byte `k` of a 32-bit number, the highest first. */
  function Digit(x: nat, k: nat): byte {
    (if k == 0 then x / 0x100_0000 else if k == 1 then x / 0x1_0000 else if k == 2 then x / 0x100 else x) % 256
  }

  lemma DigitsAre(x: nat, a: byte, b: byte, c: byte, d: byte)
    requires 0x100_0000 * a + 0x1_0000 * b + 0x100 * c + d == x
    ensures Digit(x, 0) == a && Digit(x, 1) == b && Digit(x, 2) == c && Digit(x, 3) == d
  {
    assert x / 0x100 == 0x1_0000 * a + 0x100 * b + c;
    assert x / 0x1_0000 == 0x100 * a + b;
    assert x / 0x100_0000 == a;
  }

  lemma PartIs(crc: bv32, k: nat)
    requires k < 4
    ensures Part(crc, k) == Digit(crc as int, k)
  {
    hide Part, Digit;
    PartsAreDigits(crc);
    DigitsAre(crc as int, Part(crc, 0), Part(crc, 1), Part(crc, 2), Part(crc, 3));
  }

  /** What MixByte leaves in the pool: the four bytes at the write position have grown by those of the register, the highest
      first; the others have not changed. */
  lemma FourBytesGrow(pool: Pool, crc: bv32, writePos: nat, i: nat)
    requires writePos + 4 <= KEYFILE_POOL_SIZE && i < KEYFILE_POOL_SIZE
    ensures AddPools(pool, Spread(crc, writePos))[i] ==
      if writePos <= i < writePos + 4 then (pool[i] as int + Digit(crc as int, i - writePos)) % 256 else pool[i]
  {
    hide Part, Digit;
    if writePos <= i < writePos + 4 {
      PartIs(crc, i - writePos);
    }
  }

  // ----- The pool in closed form -----

  /** The number in the register after the first `n` bytes. */
  function RegisterAfter(data: seq<bv8>, n: nat): nat
    requires n <= |data|
  {
    Crc.Register(data[..n]) as int
  }

  /** Byte `i` of the pool is written at every 16th byte of a keyfile: the sum of byte `i` % 4 of the register over those
      of the first `n`. */
  function Grown(data: seq<bv8>, n: nat, i: nat): nat
    requires n <= |data|
  {
    if n == 0 then 0
    else Grown(data, n - 1, i) + if (n - 1) % 16 == i / 4 then Digit(RegisterAfter(data, n), i % 4) else 0
  }

  lemma SumMod(a: nat, b: nat)
    ensures (a % 256 + b) % 256 == (a + b) % 256
  {
  }

  lemma {:induction false} DeltaPrefix(data: seq<bv8>, n: nat, i: nat)
    requires n <= |data| && i < KEYFILE_POOL_SIZE
    ensures Delta(data[..n])[i] == Grown(data, n, i) % 256
  {
    hide Digit, AddPools, Spread;
    if n > 0 {
      var d := data[..n];
      assert d[..n - 1] == data[..n - 1];
      DeltaPrefix(data, n - 1, i);
      var w := 4 * ((n - 1) % 16);
      FourBytesGrow(Delta(data[..n - 1]), Crc.Register(d), w, i);
      assert w <= i < w + 4 <==> (n - 1) % 16 == i / 4;
      if (n - 1) % 16 == i / 4 {
        assert i - w == i % 4;
        SumMod(Grown(data, n - 1, i), Digit(RegisterAfter(data, n), i % 4));
      }
    }
  }

  /** What a keyfile adds to byte `i` of the pool. */
  lemma PoolByte(data: seq<bv8>, i: nat)
    requires i < KEYFILE_POOL_SIZE
    ensures Delta(data)[i] == Grown(data, |data|, i) % 256
  {
    DeltaPrefix(data, |data|, i);
    assert data[..|data|] == data;
  }

  /** What several keyfiles add to it. */
  function GrownTotal(datas: seq<seq<bv8>>, i: nat): nat {
    if datas == [] then 0 else GrownTotal(datas[..|datas| - 1], i) + Grown(datas[|datas| - 1], |datas[|datas| - 1]|, i)
  }

  lemma TwiceMod(a: nat, b: nat)
    ensures (a % 256 + b % 256) % 256 == (a + b) % 256
  {
    SumMod(a, b % 256);
    SumMod(b, a);
  }

  lemma {:induction false} TotalByte(datas: seq<seq<bv8>>, i: nat)
    requires i < KEYFILE_POOL_SIZE
    ensures Total(datas)[i] == GrownTotal(datas, i) % 256
  {
    hide Delta, Grown;
    if datas != [] {
      var n := |datas| - 1;
      TotalByte(datas[..n], i);
      PoolByte(datas[n], i);
      TwiceMod(GrownTotal(datas[..n], i), Grown(datas[n], |datas[n]|, i));
    }
  }

  /** So character `i` of the password that keyfiles are applied to: what was there, if anything, plus the sums of all
      keyfiles' registers, modulo 256. */
  lemma PasswordByte(text: seq<byte>, length: nat, paths: seq<Path>, i: nat)
    requires |text| >= KEYFILE_POOL_SIZE && i < KEYFILE_POOL_SIZE
    ensures Mixed(text, length, Total(Datas(AllOf(paths))))[i] ==
      ((if i < length then text[i] as int else 0) + GrownTotal(Datas(AllOf(paths)), i)) % 256
  {
    hide Total, Grown, GrownTotal, Datas, AllOf;
    var datas := Datas(AllOf(paths));
    TotalByte(datas, i);
    SumMod(GrownTotal(datas, i), if i < length then text[i] as int else 0);
  }

  lemma ZeroStep()
    ensures Crc.EightSteps(0xffff_ffff ^ (0 as bv8) as bv32) == 0x2dfd_1072 && 0x2dfd_1072 as bv32 as int == 0x2dfd_1072
  {
  }

  /** A keyfile of the one byte 0 adds 2d fd 10 72 to the first four bytes, and nothing else. */
  lemma ZeroKeyfile(i: nat)
    requires i < KEYFILE_POOL_SIZE
    ensures Delta([0])[i] == if i == 0 then 0x2d else if i == 1 then 0xfd else if i == 2 then 0x10 else if i == 3 then 0x72 else 0
  {
    hide Delta, Crc.Register, Crc.EightSteps;
    Crc.RegisterNone();
    ZeroStep();
    Crc.Further([], 0xffff_ffff, 0, 0x2dfd_1072, [0]);
    var data: seq<bv8> := [0];
    PoolByte(data, i);
    assert data[..1] == data;
    assert Grown(data, 0, i) == 0;
  }
}
