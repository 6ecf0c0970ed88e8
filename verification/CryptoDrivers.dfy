// The XTS and LRW buffer routines: one pass over a buffer, in place.
module CryptoDrivers {
  import opened Words
  import opened CryptoSuite
  import opened CryptoModes
  import opened CryptoUnits
  import opened CryptoBuffers
  import LrwIndex
  import Xts
  import X = XtsSpec

  // ----- XTS -----

  /** A cipher on one XTS block. */
  function BlockCipher(info: Info, dir: Direction, cipher: nat, ks: nat): X.BlockFunction {
    (b: X.Block) =>
      var r := if dir.Encrypt? then info.suite.encipher(cipher, ks, [b.lo, b.hi]) else info.suite.decipher(cipher, ks, [b.lo, b.hi]);
      if |r| == 2 then X.Block(r[0], r[1]) else b
  }

  function XtsPass(cipher: nat, ks: nat, ks2: nat): Pass { Pass(2, [cipher], ks, Tweak.Xts(cipher, ks2)) }

  function Pair(b: X.Block): Data { [b.lo, b.hi] }

  lemma XorPair(a: X.Block, b: X.Block)
    ensures XorAll(Pair(a), Pair(b)) == Pair(X.Xor(a, b))
  {
    hide X.XorWord;
  }

  /** One block of an XTS pass is the standard's. */
  lemma StepXts(info: Info, dir: Direction, cipher: nat, ks: nat, ks2: nat, unit: bv64, j: nat, b: X.Block)
    requires Invertible(info.suite)
    ensures var p := XtsPass(cipher, ks, ks2);
      Step(info, p, dir, InUnit(unit, j), Pair(b)) ==
        (Pair(X.XtsBlock(BlockCipher(info, dir, cipher, ks), TweakCipher(info, cipher, ks2), unit, j, b)),
         Next(p, InUnit(unit, j), []))
  {
    hide XorAll, X.Xor, X.Tweak, Advance;
    var p := XtsPass(cipher, ks, ks2);
    var t := X.Tweak(TweakCipher(info, cipher, ks2), unit, j);
    assert Pre(info, p, InUnit(unit, j)) == Pair(t) == Post(info, p, InUnit(unit, j));
    var x := X.Xor(b, t);
    XorPair(b, t);
    OneCipher(info.suite, cipher, ks, Pair(x));
    var c := BlockCipher(info, dir, cipher, ks)(x);
    assert |info.suite.decipher(cipher, ks, Pair(x))| == 2 && |info.suite.encipher(cipher, ks, Pair(x))| == 2;
    assert Cipher(info, p, dir, Pair(x)) == Pair(c);
    XorPair(c, t);
  }

  /** From block `t` on, what EncryptBufferXTS leaves is a run of blocks from that place. */
  lemma {:induction false} XtsIsRun(s0: Data, s: Data, count: nat, t: nat, unit: bv64, info: Info, dir: Direction, cipher: nat, ks: nat, ks2: nat)
    requires Invertible(info.suite) && t <= count && |s0| == |s| == 2 * count
    requires Xts.UpTo(s0, s, count, count, unit, 0, BlockCipher(info, dir, cipher, ks), TweakCipher(info, cipher, ks2))
    ensures s[2 * t..] ==
      Run(info, XtsPass(cipher, ks, ks2), dir, InUnit(Advance(unit, t / 32), t % 32), s0[2 * t..])
    decreases count - t
  {
    hide Advance, BlockCipher, TweakCipher, Step, X.XtsBlock, Invertible;
    var p := XtsPass(cipher, ks, ks2);
    var rest := s0[2 * t..];
    if t == count {
      assert rest == [] && s[2 * t..] == [];
    } else {
      var u, j := Advance(unit, t / 32), t % 32;
      var b := Xts.BlockAt(s0, t);
      XtsIsRun(s0, s, count, t + 1, unit, info, dir, cipher, ks, ks2);
      StepXts(info, dir, cipher, ks, ks2, u, j, b);
      assert rest[..2] == Pair(b) && rest[2..] == s0[2 * (t + 1)..];
      NextPlace(unit, t);
      assert Xts.BlockAt(s, t) == Xts.CodeResult(s0, t, count, unit, 0, BlockCipher(info, dir, cipher, ks), TweakCipher(info, cipher, ks2));
      assert s[2 * t..] == Pair(Xts.BlockAt(s, t)) + s[2 * (t + 1)..];
    }
  }

  lemma NextPlace(unit: bv64, t: nat)
    ensures InUnit(Advance(unit, (t + 1) / 32), (t + 1) % 32) ==
      if t % 32 + 1 == 32 then InUnit(Advance(Advance(unit, t / 32), 1), 0) else InUnit(Advance(unit, t / 32), t % 32 + 1)
  {
    hide Advance;
    AdvanceAdd(unit, t / 32, 1);
  }

  /** EncryptBufferXTS, DecryptBufferXTS from the start of data unit `unit`. */
  method BufferXTS(info: Info, dir: Direction, buf: array<bv64>, unit: bv64, ks: nat, ks2: nat, cipher: nat, aesHardware: bool)
    requires Invertible(info.suite) && buf.Length % 2 == 0
    modifies buf
    ensures buf[..] == Run(info, XtsPass(cipher, ks, ks2), dir, InUnit(unit, 0), old(buf[..]))
  {
    hide Xts.UpTo, Run, BlockCipher, TweakCipher, Advance, Invertible;
    ghost var s0 := buf[..];
    Xts.BufferXts(buf, unit, 0, BlockCipher(info, dir, cipher, ks), TweakCipher(info, cipher, ks2), cipher == AES && aesHardware);
    ghost var count := buf.Length / 2;
    XtsIsRun(s0, buf[..], count, 0, unit, info, dir, cipher, ks, ks2);
    AdvanceNone(unit);
    assert s0[2 * 0..] == s0 && buf[..][2 * 0..] == buf[..];
  }

  // ----- LRW -----

  lemma LrwSingle(ea: nat)
    requires ModeSupported(ea, LRW) && CiphersOf(ea) != [] && BlockWords(CiphersOf(ea)[0]) == 1
    ensures |CiphersOf(ea)| == 1
  {
    RowFacts(ea);
    RowCiphers(EA_CIPHERS[ea]);
  }

  /** EAGetCipherCount */
  method EAGetCipherCount(ea: nat) returns (count: nat)
    requires ValidEa(ea)
    ensures count == |CiphersOf(ea)|
  {
    hide CiphersOf;
    TableRows(ea);
    ghost var cs := CiphersOf(ea);
    var row := EA_CIPHERS[ea];
    var i := 0;
    assert forall k :: 0 <= k < |cs| ==> row[k] == row[..|cs|][k];
    while row[i] != 0
      invariant 0 <= i <= |cs|
      decreases |cs| - i
    {
      i := i + 1;
    }
    count := i;
  }

  lemma StepLrw(info: Info, p: Pass, dir: Direction, i: bv64, b: Data)
    requires p.tweak.Lrw? && |b| == p.n
    ensures var t := Fit(p.n, info.lrw(i));
      Step(info, p, dir, Index(i), b) == (XorAll(Cipher(info, p, dir, XorAll(b, t)), t), Index(Advance(i, 1)))
  {
    hide XorAll, Encipher, Decipher, Advance;
  }

  /** EncryptBufferLRW128, EncryptBufferLRW64, DecryptBufferLRW128, DecryptBufferLRW64 */
  method BufferLRW(info: Info, dir: Direction, buf: array<bv64>, blockIndex: bv64)
    requires Valid(info) && info.mode == LRW && Invertible(info.suite) && Whole(PassAt(info, Buffer, 0).n, buf.Length)
    modifies buf
    ensures buf[..] == Run(info, PassAt(info, Buffer, 0), dir, Index(blockIndex), old(buf[..]))
  {
    hide CiphersOf, InPlace, Step, Run, Invertible, Spliced, Encipher, Decipher, XorAll, Advance, LrwIndex.NumberOf, LrwIndex.Bytes;
    ghost var p := PassAt(info, Buffer, 0);
    var cipher := EAGetFirstCipher(info.ea);
    var cipherCount := EAGetCipherCount(info.ea);
    var n := BlockWords(cipher);
    if n == 1 {
      LrwSingle(info.ea);
    }
    assert CiphersOf(info.ea) == [cipher] + CiphersOf(info.ea)[1..];
    ghost var first := Index(blockIndex);
    var i := new bv8[8];
    LrwIndex.StoreBytes(i, LrwIndex.Bytes(blockIndex));
    LrwIndex.BytesRoundTrip(blockIndex);
    var at, len := 0, buf.Length;
    ghost var s0 := buf[..];
    InPlaceBegin(s0, 0, len, info, p, dir, first);
    while at < len
      invariant 0 <= at <= len && Whole(n, len - at)
      invariant i.Length == 8 && fresh(i)
      invariant InPlace(s0, buf[..], 0, at, len, info, p, dir, first, Index(LrwIndex.NumberOf(i[..])))
    {
      ghost var s := buf[..];
      ghost var st := Index(LrwIndex.NumberOf(i[..]));
      Untouched(s0, s, 0, at, len, info, p, dir, first, st, n);
      StepLrw(info, p, dir, LrwIndex.NumberOf(i[..]), s0[at..at + n]);
      var t := Fit(n, info.lrw(LrwIndex.NumberOf(i[..])));
      var _, _ := CryptBlock(info, buf, at, n, t, t, info.ks, if n == 2 && cipherCount > 1 then info.ea else 0, cipher, dir, p);
      LrwIndex.StepIndex(i);
      ghost var r := Step(info, p, dir, st, s0[at..at + n]);
      InPlaceStep(s0, s, buf[..], 0, at, len, info, p, dir, first, st, r.0, r.1);
      at := at + n;
    }
    InPlaceEnd(s0, buf[..], 0, len, info, p, dir, first, Index(LrwIndex.NumberOf(i[..])));
    SpliceAll(s0, buf[..], Run(info, p, dir, first, s0[0..len]));
    assert s0[0..len] == s0;
  }

  lemma SpliceAll(s0: Data, s: Data, x: Data)
    requires Spliced(s0, s, 0, x) && |x| == |s0|
    ensures s == x
  {
  }
}
