// CreateVolumeHeaderInMemory, the trials of one derived key, and what reading a created header gives.
module HeaderReadback {
  import opened Bytes
  import opened Sequences
  import opened CryptoSuite
  import opened M = CryptoModes
  import opened HeaderFormat
  import T = HeaderTrials

  // ----- Creating -----

  /** The version stored: fixed for the legacy modes. */
  function StoredVersion(mode: nat, hiddenVolumeSize: nat, requested: nat): nat {
    if mode == LRW then 0x0410
    else if mode == OUTER_CBC || mode == INNER_CBC then 0x0300
    else if mode == CBC then if hiddenVolumeSize > 0 then 0x0300 else 0x0100
    else if requested != 0 then requested else MIN_REQUIRED_PROGRAM_VERSION
  }

  /** Bytes are put at the advancing pointer; what follows is still zero. */
  method Put(header: array<byte>, p: nat, b: Data8) returns (p': nat)
    requires p + |b| <= header.Length && header[p..] == ZeroBytes(header.Length - p)
    modifies header
    ensures p' == p + |b| && header[..p'] == old(header[..p]) + b && header[p'..] == ZeroBytes(header.Length - p')
  {
    ghost var n := header.Length - p;
    for k := 0 to |b|
      invariant header[..p] == old(header[..p]) && header[p..p + k] == b[..k] && header[p + k..] == ZeroBytes(n)[k..]
    {
      header[p + k] := b[k];
      assert header[p..p + k + 1] == header[p..p + k] + [b[k]];
    }
    p' := p + |b|;
    assert header[..p'] == header[..p] + header[p..p'];
    assert ZeroBytes(n)[|b|..] == ZeroBytes(n - |b|);
  }

  /** Overwriting the rest of the header. */
  method PutAt(header: array<byte>, p: nat, b: Data8)
    requires p + |b| == header.Length
    modifies header
    ensures header[..] == old(header[..p]) + b
  {
    for k := 0 to |b|
      invariant header[..p] == old(header[..p]) && header[p..p + k] == b[..k]
    {
      header[p + k] := b[k];
      assert header[p..p + k + 1] == header[p..p + k] + [b[k]];
    }
    assert header[..] == header[..p] + header[p..];
  }

  /** The salt and the first `k` fields are in place, up to `p`; zeros follow. */
  ghost predicate Progress(s: Data8, salt: Data8, f: seq<Data8>, k: nat, p: nat)
    requires k <= |f|
  {
    |s| == HEADER_SIZE && p <= |s| && s[..p] == salt + Concat(f[..k]) && s[p..] == ZeroBytes(HEADER_SIZE - p)
  }

  /** One more field. */
  method PutField(header: array<byte>, p: nat, b: Data8, ghost salt: Data8, ghost f: seq<Data8>, ghost k: nat) returns (p': nat)
    requires k < |f| && b == f[k] && Progress(header[..], salt, f, k, p) && p + |b| <= HEADER_SIZE
    modifies header
    ensures p' == p + |b| && Progress(header[..], salt, f, k + 1, p')
  {
    hide Concat, ZeroBytes;
    FlatNext(f, k);
    assert header[..][..p] == header[..p] && header[..][p..] == header[p..];
    p' := Put(header, p, b);
    assert header[..][..p'] == header[..p'] && header[..][p'..] == header[p'..];
    assert salt + Concat(f[..k]) + b == salt + Concat(f[..k + 1]);
  }

  method PutFields(header: array<byte>, salt: Data8, crc: Data8 -> nat, i: Contents)
    requires header.Length == HEADER_SIZE && |salt| == SALT_SIZE && header[..] == ZeroBytes(HEADER_SIZE)
    modifies header
    ensures Progress(header[..], salt, Pieces(crc, i), 11, 132)
  {
    hide Be, Concat, ZeroBytes, Progress;
    ghost var f := Pieces(crc, i);
    assert header[0..] == header[..];
    var p := Put(header, 0, salt);
    ProgressBegins(header[..], salt, f, p) by { assert header[..0] == [] && header[..][..p] == header[..p] && header[..][p..] == header[p..]; }
    p := PutField(header, p, Be(MAGIC, 4), salt, f, 0);
    p := PutField(header, p, Be(VOLUME_HEADER_VERSION, 2), salt, f, 1);
    p := PutField(header, p, Be(i.requiredVersion, 2), salt, f, 2);
    p := PutField(header, p, Be(crc(i.masterKey), 4), salt, f, 3);
    p := PutField(header, p, ZeroBytes(16), salt, f, 4);
    p := PutField(header, p, Be(i.hiddenVolumeSize, 8), salt, f, 5);
    p := PutField(header, p, Be(i.volumeSize, 8), salt, f, 6);
    p := PutField(header, p, Be(i.encryptedAreaStart, 8), salt, f, 7);
    p := PutField(header, p, Be(i.encryptedAreaLength, 8), salt, f, 8);
    p := PutField(header, p, Be(i.flags, 4), salt, f, 9);
    p := PutField(header, p, Be(i.sectorSize, 4), salt, f, 10);
  }

  lemma ProgressBegins(s: Data8, salt: Data8, f: seq<Data8>, p: nat)
    requires |s| == HEADER_SIZE && p == |salt| <= |s| && s[..p] == salt && s[p..] == ZeroBytes(HEADER_SIZE - p)
    ensures Progress(s, salt, f, 0, p)
  {
    assert Concat(f[..0]) == [];
  }

  /** With the zeros up to the header CRC the fields are complete. */
  lemma FieldsDone(s: Data8, salt: Data8, crc: Data8 -> nat, i: Contents)
    requires |salt| == SALT_SIZE && Progress(s, salt, Pieces(crc, i), 11, 132)
    ensures s[..252] == salt + Concat(Pieces(crc, i)) && s[64..252] == Concat(Pieces(crc, i))
  {
    hide Be, Concat;
    var f := Pieces(crc, i);
    Offsets(crc, i);
    FlatNext(f, 11);
    assert f[..12] == f;
    assert s[132..][..120] == ZeroBytes(120);
    assert s[..252] == s[..132] + s[132..][..120];
    assert s[64..252] == s[..252][64..];
  }

  /** Header set-up (lines 790 to 869): everything in the clear. */
  method SetUpHeader(header: array<byte>, salt: Data8, crc: Data8 -> nat, i: Contents)
    requires header.Length == HEADER_SIZE && |salt| == SALT_SIZE && |i.masterKey| == 256
    modifies header
    ensures header[..] == salt + Plain(crc, i)
  {
    hide Be, Concat, ZeroBytes, Progress, Pieces;
    PutAt(header, 0, ZeroBytes(HEADER_SIZE));
    assert header[..] == ZeroBytes(HEADER_SIZE) by { assert header[..0] == []; }
    PutFields(header, salt, crc, i);
    ghost var s := header[..];
    FieldsDone(s, salt, crc, i);
    var fields := header[64..252];
    assert fields == s[64..252];
    assert header[..252] == s[..252];
    PutAt(header, 252, Be(crc(fields), 4) + i.masterKey);
    Regroup(salt, fields, Be(crc(fields), 4), i.masterKey);
  }

  lemma Regroup(a: Data8, b: Data8, c: Data8, d: Data8)
    ensures (a + b) + (c + d) == a + (b + c + d)
  {
  }

  // ----- Trying a derived key -----

  datatype Trial = NotFound | Failed(status: int) | Found(mode: nat, ea: nat, info: Contents)

  /** The header decrypted for one mode and algorithm. */
  function Decrypted(e: Env, dk: Data8, mode: nat, ea: nat, h: Data8): Data8
    requires |dk| == 256 && |h| == HEADER_SIZE && ModeSupported(ea, mode)
  {
    h[..64] + e.decrypt(mode, ea, KeysFor(dk, mode, ea), h[64..])
  }

  function CheckAt(e: Env, recovery: bool, dk: Data8, mode: nat, ea: nat, h: Data8): Check
    requires |dk| == 256 && |h| == HEADER_SIZE
  {
    if ModeSupported(ea, mode) && |Decrypted(e, dk, mode, ea, h)| == HEADER_SIZE then
      CheckHeader(e.crc, recovery, Decrypted(e, dk, mode, ea, h))
    else Skip
  }

  /** The first mode, and in it the first algorithm, whose decryption is not skipped. */
  function Search(e: Env, recovery: bool, dk: Data8, mode: nat, ea: nat, h: Data8): Trial
    requires |dk| == 256 && |h| == HEADER_SIZE
    decreases if mode > INNER_CBC then 0 else INNER_CBC + 1 - mode, if ea >= |EA_CIPHERS| then 0 else |EA_CIPHERS| - ea
  {
    if mode > INNER_CBC then NotFound
    else if ea >= |EA_CIPHERS| then Search(e, recovery, dk, mode + 1, 1, h)
    else match CheckAt(e, recovery, dk, mode, ea, h)
      case Skip => Search(e, recovery, dk, mode, ea + 1, h)
      case Fail(status) => Failed(status)
      case Accept(info) => Found(mode, ea, info)
  }

  /** The block size of an algorithm's first cipher, in words. */
  function BlockOf(ea: nat): nat
    requires ValidEa(ea)
  {
    TableRows(ea);
    BlockWords(CiphersOf(ea)[0])
  }

  /** EAGetNext */
  function EAGetNext(ea: nat): nat { if ea + 1 < |EA_CIPHERS| then ea + 1 else 0 }

  /** The part of CRYPTO_INFO the trials work on: key schedules and secondary key (by the keys they are made
      from), and the two LRW tables. */
  class CryptoInfo {
    var mode: nat
    var ea: nat
    var ks: Data8
    var ks2: Data8
    var k2: Data8
    var table64: Data8
    var table128: Data8

    /** crypto_open */
    constructor ()
      ensures |k2| == 256
    {
      mode, ea, k2 := 1, 1, ZeroBytes(256);
    }

    /** Ready for the volume: the mode and algorithm, and their keys from a key area. */
    ghost predicate SetUp(mode: nat, ea: nat, area: Data8)
      requires |area| == 256 && ModeSupported(ea, mode)
      reads this
    {
      this.mode == mode && this.ea == ea && Current(BlockOf(ea)) == KeysFor(area, mode, ea)
    }

    /** What DecryptBuffer works with in this state. */
    function Current(n: nat): Keys
      reads this
    {
      if mode == XTS then Keys(ks, ks2)
      else if mode == LRW then Keys(ks, if n == 1 then table64 else table128)
      else Keys(ks, if |k2| >= LEGACY_VOL_IV_SIZE then k2[..LEGACY_VOL_IV_SIZE] else k2)
    }

    /** memcpy into k2 */
    method CopyK2(src: Data8)
      requires |src| <= 256 && |k2| == 256
      modifies this`k2
      ensures |k2| == 256 && k2[..|src|] == src
    {
      k2 := src + k2[|src|..];
    }

    /** Key schedules, secondary key or seed, and EAInitMode, from a key area (lines 874 to 899, and with the master
        key 911 to 936 and 511 to 537). */
    method SetKeys(area: Data8)
      requires |area| == 256 && |k2| == 256 && ModeSupported(ea, mode)
      modifies this`ks, this`ks2, this`k2, this`table64, this`table128
      ensures SetUp(mode, ea, area) && |k2| == 256
    {
      hide ModeSupported, CiphersOf;
      FirstCipher(ea, mode);
      KeySizeFits(ea, mode);
      var size := KeySize(ea);
      if mode == XTS {
        ks := area[..size];
        CopyK2(area[size..2 * size]);
        ks2 := k2[..size];
      } else {
        ks := area[LEGACY_VOL_IV_SIZE..LEGACY_VOL_IV_SIZE + size];
        CopyK2(area[..LEGACY_VOL_IV_SIZE]);
        if mode == LRW {
          if BlockOf(ea) == 1 { table64 := k2[..LEGACY_VOL_IV_SIZE]; } else { table128 := k2[..LEGACY_VOL_IV_SIZE]; }
        }
      }
    }

    /** Lines 362 to 395: key schedules and, once for a block size, the LRW table. */
    method Prepare(dk: Data8, n: nat, lrw64InitDone: bool, lrw128InitDone: bool) returns (done64: bool, done128: bool)
      requires |dk| == 256 && |k2| == 256 && ModeSupported(ea, mode) && n == BlockOf(ea)
      requires mode != XTS ==> k2[..LEGACY_VOL_IV_SIZE] == dk[..LEGACY_VOL_IV_SIZE]
      requires lrw64InitDone ==> table64 == dk[..LEGACY_VOL_IV_SIZE]
      requires lrw128InitDone ==> table128 == dk[..LEGACY_VOL_IV_SIZE]
      modifies this`ks, this`ks2, this`k2, this`table64, this`table128
      ensures Current(n) == KeysFor(dk, mode, ea) && |k2| == 256
      ensures mode != XTS ==> k2[..LEGACY_VOL_IV_SIZE] == dk[..LEGACY_VOL_IV_SIZE]
      ensures done64 ==> table64 == dk[..LEGACY_VOL_IV_SIZE]
      ensures done128 ==> table128 == dk[..LEGACY_VOL_IV_SIZE]
    {
      hide ModeSupported, CiphersOf;
      FirstCipher(ea, mode);
      KeySizeFits(ea, mode);
      done64, done128 := lrw64InitDone, lrw128InitDone;
      var size := KeySize(ea);
      var primaryKeyOffset := if mode == XTS then 0 else LEGACY_VOL_IV_SIZE;
      ks := dk[primaryKeyOffset..primaryKeyOffset + size];
      if mode == XTS {
        CopyK2(dk[size..2 * size]);
        ks2 := k2[..size];
      } else if mode == LRW && ((n == 1 && !lrw64InitDone) || (n == 2 && !lrw128InitDone)) {
        if n == 1 {
          table64 := k2[..LEGACY_VOL_IV_SIZE];
          done64 := true;
        } else {
          table128 := k2[..LEGACY_VOL_IV_SIZE];
          done128 := true;
        }
      }
    }

    /** Lines 328 to 542: all modes, all algorithms, until a header is accepted or must be refused; then the master
        keys are set up.  The LRW tables may be left from another key: the flags make sure they are not used. */
    method TryKey(e: Env, recovery: bool, dk: Data8, h: Data8) returns (r: Trial)
      requires Sound(e) && |dk| == 256 && |h| == HEADER_SIZE && |k2| == 256
      modifies this
      ensures r == Search(e, recovery, dk, 1, 1, h) && |k2| == 256
      ensures r.Found? ==> |r.info.masterKey| == 256 && ModeSupported(r.ea, r.mode) && SetUp(r.mode, r.ea, r.info.masterKey)
    {
      hide ModeSupported, CiphersOf, KeysFor, CheckHeader, SetUp;
      var lrw64InitDone, lrw128InitDone := false, false;
      mode := 1;
      while mode <= INNER_CBC
        invariant |k2| == 256 && 1 <= mode <= INNER_CBC + 1
        invariant lrw64InitDone ==> table64 == dk[..LEGACY_VOL_IV_SIZE]
        invariant lrw128InitDone ==> table128 == dk[..LEGACY_VOL_IV_SIZE]
        invariant Search(e, recovery, dk, 1, 1, h) == Search(e, recovery, dk, mode, 1, h)
        decreases INNER_CBC + 1 - mode
      {
        ghost var m := mode;
        if mode != XTS {
          CopyK2(dk[..LEGACY_VOL_IV_SIZE]);
        }
        ea := 1;
        while ea != 0
          invariant mode == m && |k2| == 256 && ea < |EA_CIPHERS|
          invariant mode != XTS ==> k2[..LEGACY_VOL_IV_SIZE] == dk[..LEGACY_VOL_IV_SIZE]
          invariant lrw64InitDone ==> table64 == dk[..LEGACY_VOL_IV_SIZE]
          invariant lrw128InitDone ==> table128 == dk[..LEGACY_VOL_IV_SIZE]
          invariant Search(e, recovery, dk, 1, 1, h) == Search(e, recovery, dk, mode, if ea == 0 then |EA_CIPHERS| else ea, h)
          decreases if ea == 0 then 0 else |EA_CIPHERS| - ea
        {
          if ModeSupported(ea, mode) {
            FirstCipher(ea, mode);
            var blockSize := BlockOf(ea);
            lrw64InitDone, lrw128InitDone := Prepare(dk, blockSize, lrw64InitDone, lrw128InitDone);
            DecryptSize(e, mode, ea, Current(blockSize), h[64..]);
            var header := h[..64] + e.decrypt(mode, ea, Current(blockSize), h[64..]);
            match CheckHeader(e.crc, recovery, header) {
              case Skip =>
              case Fail(status) =>
                return Failed(status);
              case Accept(info) =>
                AcceptedKey(e.crc, recovery, header);
                SetKeys(info.masterKey);
                return Found(mode, ea, info);
            }
          }
          ea := EAGetNext(ea);
        }
        mode := mode + 1;
      }
      r := NotFound;
    }
  }

  lemma AcceptedKey(crc: Data8 -> nat, recovery: bool, h: Data8)
    requires |h| == HEADER_SIZE
    ensures CheckHeader(crc, recovery, h).Accept? ==> |CheckHeader(crc, recovery, h).info.masterKey| == 256
  {
  }

  lemma FirstCipher(ea: nat, mode: nat)
    requires ModeSupported(ea, mode)
    ensures ValidEa(ea) && CiphersOf(ea) != []
  {
    TableRows(ea);
  }

  lemma DecryptSize(e: Env, mode: nat, ea: nat, k: Keys, d: Data8)
    requires Sound(e) && ModeSupported(ea, mode) && |d| == ENCRYPTED_SIZE
    ensures |e.decrypt(mode, ea, k, d)| == |d|
  {
  }

  /** CreateVolumeHeaderInMemory with the salt, derived key and master key given: salt in clear, then the header
      encrypted under the derived keys of the mode and algorithm; the CRYPTO_INFO returned is set up with the master
      keys. */
  method CreateVolumeHeaderInMemory(e: Env, header: array<byte>, ea: nat, mode: nat, salt: Data8, dk: Data8, requested: nat, i: Contents)
    returns (cryptoInfo: CryptoInfo)
    requires Sound(e) && ModeSupported(ea, mode) && header.Length == HEADER_SIZE && |salt| == SALT_SIZE && |dk| == 256
    requires FieldsFit(i) && i.requiredVersion == StoredVersion(mode, i.hiddenVolumeSize, requested)
    modifies header
    ensures |Plain(e.crc, i)| == HEADER_SIZE - SALT_SIZE
    ensures header[..] == salt + e.encrypt(mode, ea, KeysFor(dk, mode, ea), Plain(e.crc, i))
    ensures fresh(cryptoInfo) && |i.masterKey| == 256 && cryptoInfo.SetUp(mode, ea, i.masterKey)
  {
    hide FieldsFit, ModeSupported, KeysFor, Sound, Plain, CiphersOf;
    cryptoInfo := new CryptoInfo();
    cryptoInfo.ea, cryptoInfo.mode := ea, mode;
    FirstCipher(ea, mode);
    MasterSize(i);
    SetUpHeader(header, salt, e.crc, i);
    ghost var s := header[..];
    assert s[64..] == Plain(e.crc, i) && s[..64] == salt;
    assert header[64..] == s[64..] && header[..64] == s[..64];
    EncryptSize(e, mode, ea, KeysFor(dk, mode, ea), header[64..]);
    cryptoInfo.SetKeys(dk);
    PutAt(header, 64, e.encrypt(mode, ea, cryptoInfo.Current(BlockOf(ea)), header[64..]));
    cryptoInfo.SetKeys(i.masterKey);
  }

  lemma MasterSize(i: Contents)
    requires FieldsFit(i)
    ensures |i.masterKey| == 256
  {
  }

  lemma EncryptSize(e: Env, mode: nat, ea: nat, k: Keys, d: Data8)
    requires Sound(e) && ModeSupported(ea, mode) && |d| == ENCRYPTED_SIZE
    ensures |e.encrypt(mode, ea, k, d)| == |d|
  {
  }

  // ----- Reading back -----

  /** No mode and algorithm tried before `mode`, `ea` accepts the header or refuses it for good. */
  ghost predicate NoneBefore(e: Env, recovery: bool, dk: Data8, h: Data8, mode: nat, ea: nat)
    requires |dk| == 256 && |h| == HEADER_SIZE
  {
    forall m, a :: 1 <= m && 1 <= a < |EA_CIPHERS| && (m < mode || (m == mode && a < ea)) ==> CheckAt(e, recovery, dk, m, a, h) == Skip
  }

  lemma {:induction false} SearchReaches(e: Env, recovery: bool, dk: Data8, h: Data8, mode: nat, ea: nat, m: nat, a: nat)
    requires |dk| == 256 && |h| == HEADER_SIZE && 1 <= mode <= INNER_CBC && 1 <= ea < |EA_CIPHERS|
    requires NoneBefore(e, recovery, dk, h, mode, ea)
    requires 1 <= m && 1 <= a <= |EA_CIPHERS| && (m < mode || (m == mode && a <= ea))
    ensures Search(e, recovery, dk, m, a, h) == Search(e, recovery, dk, mode, ea, h)
    decreases mode - m, |EA_CIPHERS| - a
  {
    hide CheckAt, CheckHeader;
    if a == |EA_CIPHERS| {
      SearchReaches(e, recovery, dk, h, mode, ea, m + 1, 1);
    } else if m < mode || a < ea {
      assert CheckAt(e, recovery, dk, m, a, h) == Skip;
      SearchReaches(e, recovery, dk, h, mode, ea, m, a + 1);
    }
  }

  /** The search ends at the first mode and algorithm, modes first, whose decryption is not skipped; or it finds nothing. */
  lemma SearchIsFirst(e: Env, recovery: bool, dk: Data8, h: Data8, mode: nat, ea: nat)
    requires |dk| == 256 && |h| == HEADER_SIZE && 1 <= mode <= INNER_CBC && 1 <= ea < |EA_CIPHERS|
    requires NoneBefore(e, recovery, dk, h, mode, ea)
    ensures var found := Search(e, recovery, dk, 1, 1, h);
      match CheckAt(e, recovery, dk, mode, ea, h)
      case Accept(info) => found == Found(mode, ea, info)
      case Fail(status) => found == Failed(status)
      case Skip => mode == INNER_CBC && ea == |EA_CIPHERS| - 1 ==> found == NotFound
  {
    hide CheckAt, CheckHeader, NoneBefore;
    SearchReaches(e, recovery, dk, h, mode, ea, 1, 1);
    if mode == INNER_CBC && ea == |EA_CIPHERS| - 1 {
      SearchPastLast(e, recovery, dk, h);
    }
  }

  lemma SearchPastLast(e: Env, recovery: bool, dk: Data8, h: Data8)
    requires |dk| == 256 && |h| == HEADER_SIZE
    ensures Search(e, recovery, dk, INNER_CBC, |EA_CIPHERS|, h) == NotFound
  {
    hide CheckAt, CheckHeader;
    assert Search(e, recovery, dk, INNER_CBC + 1, 1, h) == NotFound;
  }

  /** The trial of the creating key finds the header at the creating mode and algorithm, with the same contents;
      or refuses it if this program is too old for the volume. */
  lemma CreatedIsFound(e: Env, recovery: bool, dk: Data8, salt: Data8, mode: nat, ea: nat, i: Contents, h: Data8)
    requires Sound(e) && ModeSupported(ea, mode) && 1 <= mode <= INNER_CBC && |dk| == 256 && |salt| == SALT_SIZE && FieldsFit(i)
    requires i.headerVersion == VOLUME_HEADER_VERSION && |h| == HEADER_SIZE
    requires h == salt + e.encrypt(mode, ea, KeysFor(dk, mode, ea), Plain(e.crc, i))
    requires NoneBefore(e, recovery, dk, h, mode, ea)
    ensures Search(e, recovery, dk, 1, 1, h) ==
      if i.requiredVersion > VERSION_NUM then Failed(ERR_NEW_VERSION_REQUIRED) else Found(mode, ea, i)
  {
    hide CheckHeader, FieldsFit, KeysFor, Plain, NoneBefore;
    PlainReadsBack(e.crc, recovery, salt, i);
    var k := KeysFor(dk, mode, ea);
    var d := Plain(e.crc, i);
    assert h[..64] == salt && h[64..] == e.encrypt(mode, ea, k, d);
    assert Decrypted(e, dk, mode, ea, h) == salt + d;
    SearchReaches(e, recovery, dk, h, mode, ea, 1, 1);
  }

  /** How a trial looks to the loop over the key derivation functions. */
  function OutcomeOf(t: Trial): T.Outcome {
    match t
    case NotFound => T.GoOn
    case Failed(status) => T.Stop(status)
    case Found(_, _, _) => T.Stop(0)
  }

  /** A created header is read back with the same password whatever the number of threads and the order in which
      key derivations complete, if the keys of the other PRFs find nothing in it: the loop ends with success at
      the creating PRF, whose trial gives the mode, the algorithm and every value back. */
  lemma CreateThenRead(e: Env, recovery: bool, derive: nat -> Data8, prf: nat, salt: Data8, mode: nat, ea: nat, i: Contents, h: Data8,
                       c: T.Config, moves: seq<T.Move>)
    requires Sound(e) && ModeSupported(ea, mode) && 1 <= mode <= INNER_CBC && |salt| == SALT_SIZE && FieldsFit(i)
    requires i.headerVersion == VOLUME_HEADER_VERSION && i.requiredVersion <= VERSION_NUM
    requires (forall p: nat :: |derive(p)| == 256) && |h| == HEADER_SIZE && T.FIRST_PRF_ID <= prf <= T.LAST_PRF_ID
    requires h == salt + e.encrypt(mode, ea, KeysFor(derive(prf), mode, ea), Plain(e.crc, i))
    requires NoneBefore(e, recovery, derive(prf), h, mode, ea)
    requires (forall p: nat :: c.derive(p) == p)
      && forall p: nat, k: nat :: c.outcome(p, k) == OutcomeOf(Search(e, recovery, derive(k), 1, 1, h))
    requires forall p: nat :: T.FIRST_PRF_ID <= p <= T.LAST_PRF_ID && p != prf ==> Search(e, recovery, derive(p), 1, 1, h) == NotFound
    requires T.Exec(c, moves).pc.Done?
    ensures T.Exec(c, moves).pc.verdict == T.Stopped(prf, 0)
    ensures Search(e, recovery, derive(prf), 1, 1, h) == Found(mode, ea, i)
  {
    hide T.Exec, NoneBefore, FieldsFit, KeysFor, Plain, Search;
    CreatedIsFound(e, recovery, derive(prf), salt, mode, ea, i, h);
    T.OnlyOneStops(c, moves, prf);
  }
}
