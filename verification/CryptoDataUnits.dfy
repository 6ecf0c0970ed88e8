// EncryptBuffer, DecryptBuffer, EncryptDataUnitsCurrentThread and DecryptDataUnitsCurrentThread.
module CryptoDataUnits {
  import opened Words
  import opened CryptoSuite
  import opened CryptoModes
  import opened CryptoUnits
  import opened CryptoBuffers
  import opened CryptoDrivers

  /** The passes after the first `k` are those of the remaining ciphers. */
  lemma NextPass(info: Info, place: Place, dir: Direction, k: nat, d: Data)
    requires Valid(info) && k < PassCount(info)
    ensures Passes(info, place, dir, k + 1, d) == OnePass(info, place, dir, k, Passes(info, place, dir, k, d))
  {
  }

  lemma XtsOnePass(info: Info, place: Place, dir: Direction, k: nat, d: Data)
    requires Valid(info) && info.mode == XTS && k < PassCount(info)
    ensures var cs := CiphersOf(info.ea);
      var i := Turn(info, dir, k);
      var at := Offset(info.suite, cs, i);
      OnePass(info, place, dir, k, d) ==
        Run(info, XtsPass(cs[i], info.ks + at, info.ks2 + at), dir, InUnit(if place.Buffer? then 0 else place.u, 0), d)
  {
    hide CiphersOf, Run;
  }

  /** XTS: one pass per cipher over the whole buffer, the key schedules in step. */
  method EncryptXTS(info: Info, buf: array<bv64>, place: Place, aesHardware: bool)
    requires Valid(info) && info.mode == XTS && Invertible(info.suite) && buf.Length % 2 == 0
    modifies buf
    ensures buf[..] == Crypt(info, place, Encrypt, old(buf[..]))
  {
    hide CiphersOf, OnePass, Invertible, Run, Valid;
    TableRows(info.ea) by { assert ValidEa(info.ea) by { SupportedIsValid(info); } }
    SupportedIsValid(info);
    ghost var cs, i, s0 := CiphersOf(info.ea), 0, buf[..];
    var unitNo := if place.Buffer? then 0 else place.u;
    var ks, ks2 := info.ks, info.ks2;
    var cipher := EAGetFirstCipher(info.ea);
    while cipher != 0
      invariant 0 <= i <= |cs| && cipher == (if i < |cs| then cs[i] else 0)
      invariant ks == info.ks + Offset(info.suite, cs, i) && ks2 == info.ks2 + Offset(info.suite, cs, i)
      invariant buf[..] == Passes(info, place, Encrypt, i, s0)
      decreases |cs| - i
    {
      XtsOnePass(info, place, Encrypt, i, buf[..]);
      NextPass(info, place, Encrypt, i, s0);
      BufferXTS(info, Encrypt, buf, unitNo, ks, ks2, cipher, aesHardware);
      ks, ks2 := ks + info.suite.ksSize(cipher), ks2 + info.suite.ksSize(cipher);
      cipher := EAGetNextCipher(info.ea, cipher, i);
      i := i + 1;
    }
  }

  lemma SupportedIsValid(info: Info)
    requires Valid(info)
    ensures ValidEa(info.ea) && CiphersOf(info.ea) != []
  {
  }

  method DecryptXTS(info: Info, buf: array<bv64>, place: Place, aesHardware: bool)
    requires Valid(info) && info.mode == XTS && Invertible(info.suite) && buf.Length % 2 == 0
    modifies buf
    ensures buf[..] == Crypt(info, place, Decrypt, old(buf[..]))
  {
    hide CiphersOf, OnePass, Invertible, Run, Valid;
    SupportedIsValid(info);
    TableRows(info.ea);
    ghost var cs, k, s0 := CiphersOf(info.ea), 0, buf[..];
    var unitNo := if place.Buffer? then 0 else place.u;
    var size := EAGetKeyScheduleSize(info.suite, info.ea);
    var ks: int, ks2: int := info.ks + size, info.ks2 + size;
    var cipher := EAGetLastCipher(info.ea);
    while cipher != 0
      invariant 0 <= k <= |cs| && cipher == (if k < |cs| then cs[|cs| - 1 - k] else 0)
      invariant ks == info.ks + Offset(info.suite, cs, |cs| - k) && ks2 == info.ks2 + Offset(info.suite, cs, |cs| - k)
      invariant buf[..] == Passes(info, place, Decrypt, k, s0)
      decreases |cs| - k
    {
      XtsOnePass(info, place, Decrypt, k, buf[..]);
      NextPass(info, place, Decrypt, k, s0);
      ks, ks2 := ks - info.suite.ksSize(cipher), ks2 - info.suite.ksSize(cipher);
      BufferXTS(info, Decrypt, buf, unitNo, ks, ks2, cipher, aesHardware);
      cipher := EAGetPreviousCipher(info.ea, cipher, |cs| - 1 - k);
      k := k + 1;
    }
  }

  // ----- CBC -----

  /** InitSectorIVAndWhitening, or the IV and whitening of a buffer (as in lines 1307 and 1308). */
  method InitIVAndWhitening(info: Info, place: Place, n: nat) returns (iv: Data, whitening: bv64)
    requires n == 1 || n == 2
    ensures iv == CbcIv(info, place, n) && whitening == CbcWhitening(info, place, n)
  {
    hide Whitening;
    if place.Buffer? {
      iv, whitening := seq(n, i requires 0 <= i < n => K2(info, i)), K2(info, 1);
      return;
    }
    var iv64 := [Seed(info, place.u, 0), Seed(info, place.u, 1), Seed(info, place.u, 2), Seed(info, place.u, 3)];
    iv := iv64[..n];
    whitening := if n == 2 then Whitening(iv64[2], iv64[3]) else Whitening(iv64[1], iv64[2]);
  }

  lemma CbcOnePass(info: Info, place: Place, dir: Direction, k: nat, d: Data, cipher: nat, ks: nat)
    requires Valid(info) && (info.mode == CBC || info.mode == INNER_CBC) && k < PassCount(info)
    requires var i := Turn(info, dir, k);
      cipher == CiphersOf(info.ea)[i] && ks == info.ks + Offset(info.suite, CiphersOf(info.ea), i)
    ensures var n := BlockWords(cipher);
      var p := CbcPass(0, cipher, ks, CbcWhitening(info, place, n));
      && OnePass(info, place, dir, k, d) == Run(info, p, dir, After(CbcIv(info, place, n)), d)
      && p.n == n == PassAt(info, place, Turn(info, dir, k)).n
  {
    hide CiphersOf, Run, CbcIv, CbcWhitening;
  }

  /** One cipher's pass: the IV and whitening of the place for its block size, then its run. */
  method OneCipherCBC(info: Info, dir: Direction, buf: array<bv64>, from: nat, to: nat, place: Place, ks: nat, cipher: nat, ghost k: nat)
    requires Valid(info) && (info.mode == CBC || info.mode == INNER_CBC) && Invertible(info.suite) && k < PassCount(info)
    requires from <= to <= buf.Length && Fits(info, to - from)
    requires var i := Turn(info, dir, k);
      cipher == CiphersOf(info.ea)[i] && ks == info.ks + Offset(info.suite, CiphersOf(info.ea), i)
    modifies buf
    ensures Spliced(old(buf[..]), buf[..], from, OnePass(info, place, dir, k, old(buf[from..to])))
  {
    hide CiphersOf, Invertible, Run, Spliced, Fits, PassAt, OnePass, Valid, CbcPass, CbcIv, CbcWhitening;
    CbcOnePass(info, place, dir, k, buf[from..to], cipher, ks);
    WholeAnywhere(info, place, Turn(info, dir, k), to - from);
    var iv, whitening := InitIVAndWhitening(info, place, BlockWords(cipher));
    BufferCBC(info, dir, buf, from, to, ks, iv, whitening, 0, cipher);
  }

  /** What the next pass is applied to. */
  lemma SoFar(s0: Data, s: Data, from: nat, to: nat, x: Data)
    requires from <= to <= |s0| && |x| == to - from && Spliced(s0, s, from, x)
    ensures |s| == |s0| && s[from..to] == x
  {
  }

  /** CBC and inner CBC on words `from` to `to` - 1: one pass per cipher. */
  method EncryptCBC(info: Info, buf: array<bv64>, from: nat, to: nat, place: Place)
    requires Valid(info) && (info.mode == CBC || info.mode == INNER_CBC) && Invertible(info.suite)
    requires from <= to <= buf.Length && Fits(info, to - from)
    modifies buf
    ensures Spliced(old(buf[..]), buf[..], from, Crypt(info, place, Encrypt, old(buf[from..to])))
  {
    hide CiphersOf, OnePass, Invertible, Run, Valid, Spliced, Fits, PassAt;
    SupportedIsValid(info);
    TableRows(info.ea);
    ghost var cs, i, s0 := CiphersOf(info.ea), 0, buf[..];
    ghost var d := s0[from..to];
    var ks := info.ks;
    var cipher := EAGetFirstCipher(info.ea);
    SpliceNothing(s0, from, to);
    while cipher != 0
      invariant 0 <= i <= |cs| && cipher == (if i < |cs| then cs[i] else 0)
      invariant ks == info.ks + Offset(info.suite, cs, i)
      invariant Spliced(s0, buf[..], from, Passes(info, place, Encrypt, i, d))
      decreases |cs| - i
    {
      ghost var s, x := buf[..], Passes(info, place, Encrypt, i, d);
      SoFar(s0, s, from, to, x);
      NextPass(info, place, Encrypt, i, d);
      OneCipherCBC(info, Encrypt, buf, from, to, place, ks, cipher, i);
      SpliceTwice(s0, s, buf[..], from, x, Passes(info, place, Encrypt, i + 1, d));
      ks := ks + info.suite.ksSize(cipher);
      cipher := EAGetNextCipher(info.ea, cipher, i);
      i := i + 1;
    }
  }

  lemma SpliceNothing(s: Data, from: nat, to: nat)
    requires from <= to <= |s|
    ensures Spliced(s, s, from, s[from..to])
  {
  }

  method DecryptCBC(info: Info, buf: array<bv64>, from: nat, to: nat, place: Place)
    requires Valid(info) && (info.mode == CBC || info.mode == INNER_CBC) && Invertible(info.suite)
    requires from <= to <= buf.Length && Fits(info, to - from)
    modifies buf
    ensures Spliced(old(buf[..]), buf[..], from, Crypt(info, place, Decrypt, old(buf[from..to])))
  {
    hide CiphersOf, OnePass, Invertible, Run, Valid, Spliced, Fits, PassAt;
    SupportedIsValid(info);
    TableRows(info.ea);
    ghost var cs, k, s0 := CiphersOf(info.ea), 0, buf[..];
    ghost var d := s0[from..to];
    var size := EAGetKeyScheduleSize(info.suite, info.ea);
    var ks: int := info.ks + size;
    var cipher := EAGetLastCipher(info.ea);
    SpliceNothing(s0, from, to);
    while cipher != 0
      invariant 0 <= k <= |cs| && cipher == (if k < |cs| then cs[|cs| - 1 - k] else 0)
      invariant ks == info.ks + Offset(info.suite, cs, |cs| - k)
      invariant Spliced(s0, buf[..], from, Passes(info, place, Decrypt, k, d))
      decreases |cs| - k
    {
      ghost var s, x := buf[..], Passes(info, place, Decrypt, k, d);
      SoFar(s0, s, from, to, x);
      NextPass(info, place, Decrypt, k, d);
      ks := ks - info.suite.ksSize(cipher);
      OneCipherCBC(info, Decrypt, buf, from, to, place, ks, cipher, k);
      SpliceTwice(s0, s, buf[..], from, x, Passes(info, place, Decrypt, k + 1, d));
      cipher := EAGetPreviousCipher(info.ea, cipher, |cs| - 1 - k);
      k := k + 1;
    }
  }

  lemma OnlyPass(info: Info, place: Place, dir: Direction, d: Data)
    requires Valid(info) && (info.mode == OUTER_CBC || info.mode == LRW)
    ensures Crypt(info, place, dir, d) == Run(info, PassAt(info, place, 0), dir, StartAt(info, place, 0), d)
  {
    hide CiphersOf, Run, CbcIv, CbcWhitening;
    assert Passes(info, place, dir, 0, d) == d;
  }

  /** Outer CBC on words `from` to `to` - 1: one pass through the whole cascade. */
  method CryptOuterCBC(info: Info, dir: Direction, buf: array<bv64>, from: nat, to: nat, place: Place)
    requires Valid(info) && info.mode == OUTER_CBC && Invertible(info.suite)
    requires from <= to <= buf.Length && Fits(info, to - from)
    modifies buf
    ensures Spliced(old(buf[..]), buf[..], from, Crypt(info, place, dir, old(buf[from..to])))
  {
    hide CiphersOf, Invertible, Run, Spliced, Fits, CbcIv, CbcWhitening, Crypt;
    OnlyPass(info, place, dir, buf[from..to]);
    WholeAnywhere(info, place, 0, to - from);
    var first := EAGetFirstCipher(info.ea);
    var iv, whitening := InitIVAndWhitening(info, place, BlockWords(first));
    BufferCBC(info, dir, buf, from, to, info.ks, iv, whitening, info.ea, 0);
  }

  // ----- Buffers -----

  /** EncryptBuffer, DecryptBuffer */
  method CryptBuffer(info: Info, dir: Direction, buf: array<bv64>, aesHardware: bool)
    requires Valid(info) && Invertible(info.suite) && Fits(info, buf.Length)
    modifies buf
    ensures buf[..] == Crypt(info, Buffer, dir, old(buf[..]))
  {
    hide CiphersOf, Invertible, Run, Spliced, Crypt;
    ghost var s0 := buf[..];
    assert s0[0..buf.Length] == s0;
    WholeAnywhere(info, Buffer, 0, buf.Length);
    if info.mode == XTS {
      if dir.Encrypt? { EncryptXTS(info, buf, Buffer, aesHardware); } else { DecryptXTS(info, buf, Buffer, aesHardware); }
      return;
    }
    if info.mode == LRW {
      OnlyPass(info, Buffer, dir, s0);
      BufferLRW(info, dir, buf, 1);
      return;
    }
    if info.mode == OUTER_CBC {
      CryptOuterCBC(info, dir, buf, 0, buf.Length, Buffer);
    } else {
      ModesLeft(info);
      if dir.Encrypt? { EncryptCBC(info, buf, 0, buf.Length, Buffer); } else { DecryptCBC(info, buf, 0, buf.Length, Buffer); }
    }
    SpliceAll(s0, buf[..], Crypt(info, Buffer, dir, s0));
  }

  lemma ModesLeft(info: Info)
    requires Valid(info) && info.mode != XTS && info.mode != LRW && info.mode != OUTER_CBC
    ensures info.mode == CBC || info.mode == INNER_CBC
  {
  }

  // ----- Data units -----

  /** In XTS and LRW the whole run may be passed over at once. */
  lemma {:induction false} RunOverUnits(info: Info, u: bv64, dir: Direction, k: nat, d: Data)
    requires Valid(info) && k <= PassCount(info) && |d| % WORDS_PER_UNIT == 0 && (info.mode == XTS || info.mode == LRW)
    ensures Passes(info, Unit(u), dir, k, d) == UnitPasses(info, u, dir, k, d)
  {
    hide OnePass, PassCount, Valid;
    if k == 0 {
      NoPass(info, u, dir, d);
    } else {
      RunOverUnits(info, u, dir, k - 1, d);
      PassOverUnits(info, u, dir, k - 1, d);
    }
  }

  lemma {:induction false} NoPass(info: Info, u: bv64, dir: Direction, d: Data)
    requires Valid(info)
    ensures UnitPasses(info, u, dir, 0, d) == d
    decreases |d|
  {
    if |d| >= WORDS_PER_UNIT {
      NoPass(info, Advance(u, 1), dir, d[WORDS_PER_UNIT..]);
      assert d == d[..WORDS_PER_UNIT] + d[WORDS_PER_UNIT..];
    }
  }

  /** Units before `at` are done, the others untouched; `unitNo` is the number of the next. */
  ghost predicate UnitsUpTo(s0: Data, s: Data, at: nat, info: Info, u: bv64, dir: Direction, unitNo: bv64)
    requires Valid(info)
  {
    && |s| == |s0| && at <= |s| && s[at..] == s0[at..]
    && s[..at] + UnitsCrypt(info, unitNo, dir, s0[at..]) == UnitsCrypt(info, u, dir, s0)
  }

  lemma UnitsNext(s0: Data, s: Data, s': Data, at: nat, info: Info, u: bv64, dir: Direction, unitNo: bv64)
    requires Valid(info) && UnitsUpTo(s0, s, at, info, u, dir, unitNo) && at + WORDS_PER_UNIT <= |s|
    requires Spliced(s, s', at, Crypt(info, Unit(unitNo), dir, s[at..at + WORDS_PER_UNIT]))
    ensures UnitsUpTo(s0, s', at + WORDS_PER_UNIT, info, u, dir, Advance(unitNo, 1))
  {
    hide Passes, PassCount, Valid, Advance;
    var rest := s0[at..];
    assert s[at..at + WORDS_PER_UNIT] == s[at..][..WORDS_PER_UNIT];
    var x := Crypt(info, Unit(unitNo), dir, rest[..WORDS_PER_UNIT]);
    assert rest[WORDS_PER_UNIT..] == s0[at + WORDS_PER_UNIT..];
    assert s'[..at + WORDS_PER_UNIT] == s[..at] + x;
    assert UnitsCrypt(info, unitNo, dir, rest) == x + UnitsCrypt(info, Advance(unitNo, 1), dir, rest[WORDS_PER_UNIT..]);
  }

  /** EncryptDataUnitsCurrentThread, DecryptDataUnitsCurrentThread: every data unit of the buffer is encrypted
      (decrypted) on its own under its number, in every mode. */
  method CryptDataUnitsCurrentThread(info: Info, dir: Direction, buf: array<bv64>, structUnitNo: bv64, nbrUnits: nat, aesHardware: bool)
    requires Valid(info) && Invertible(info.suite) && buf.Length == nbrUnits * WORDS_PER_UNIT
    modifies buf
    ensures buf[..] == UnitsCrypt(info, structUnitNo, dir, old(buf[..]))
  {
    hide CiphersOf, Invertible, Run, Spliced, Passes, UnitPasses, UnitsUpTo, Fits, Advance;
    ghost var s0 := buf[..];
    UnitFits(info);
    if info.mode == XTS {
      RunOverUnits(info, structUnitNo, dir, PassCount(info), s0);
      if dir.Encrypt? {
        EncryptXTS(info, buf, Unit(structUnitNo), aesHardware);
      } else {
        DecryptXTS(info, buf, Unit(structUnitNo), aesHardware);
      }
      return;
    }
    if info.mode == LRW {
      RunOverUnits(info, structUnitNo, dir, PassCount(info), s0);
      OnlyPass(info, Unit(structUnitNo), dir, s0);
      var first := EAGetFirstCipher(info.ea);
      WholeUnits(BlockWords(first), nbrUnits);
      BufferLRW(info, dir, buf, DataUnit2LRWIndex(structUnitNo, BlockWords(first), info));
      return;
    }
    var unitNo, left, at := structUnitNo, nbrUnits, 0;
    UnitsBegin(s0, info, structUnitNo, dir);
    while left > 0
      invariant left >= 0 && at == (nbrUnits - left) * WORDS_PER_UNIT
      invariant UnitsUpTo(s0, buf[..], at, info, structUnitNo, dir, unitNo)
    {
      ghost var s := buf[..];
      assert s[at..at + WORDS_PER_UNIT] == buf[at..at + WORDS_PER_UNIT];
      if info.mode == OUTER_CBC {
        CryptOuterCBC(info, dir, buf, at, at + WORDS_PER_UNIT, Unit(unitNo));
      } else {
        ModesLeft(info);
        if dir.Encrypt? {
          EncryptCBC(info, buf, at, at + WORDS_PER_UNIT, Unit(unitNo));
        } else {
          DecryptCBC(info, buf, at, at + WORDS_PER_UNIT, Unit(unitNo));
        }
      }
      UnitsNext(s0, s, buf[..], at, info, structUnitNo, dir, unitNo);
      at := at + WORDS_PER_UNIT;
      AdvanceOne(unitNo);
      unitNo := Up(unitNo);
      left := left - 1;
    }
    UnitsEnd(s0, buf[..], info, structUnitNo, dir, unitNo);
  }

  lemma WholeUnits(n: nat, units: nat)
    requires n == 1 || n == 2
    ensures Whole(n, units * WORDS_PER_UNIT)
  {
  }

  lemma UnitsBegin(s: Data, info: Info, u: bv64, dir: Direction)
    requires Valid(info)
    ensures UnitsUpTo(s, s, 0, info, u, dir, u)
  {
    assert s[0..] == s && s[..0] == [];
  }

  lemma UnitsEnd(s0: Data, s: Data, info: Info, u: bv64, dir: Direction, unitNo: bv64)
    requires Valid(info) && UnitsUpTo(s0, s, |s|, info, u, dir, unitNo)
    ensures s == UnitsCrypt(info, u, dir, s0)
  {
    assert s0[|s|..] == [] && s[..|s|] == s;
  }
}
