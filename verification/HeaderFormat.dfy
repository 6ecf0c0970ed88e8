// The volume header: how CreateVolumeHeaderInMemory lays it out and ReadVolumeHeader checks it.
module HeaderFormat {
  import opened Bytes
  import opened Sequences
  import opened CryptoSuite
  import opened M = CryptoModes

  type Data8 = seq<byte>

  const SALT_SIZE: nat := 64
  const HEADER_SIZE: nat := 512
  const LEGACY_VOL_IV_SIZE: nat := 32
  const MAGIC: nat := 0x54525545
  const VOLUME_HEADER_VERSION: nat := 5
  const VERSION_NUM: nat := 0x0740
  const MIN_REQUIRED_PROGRAM_VERSION: nat := 0x0700

  const ERR_NEW_VERSION_REQUIRED: int := 16
  const ERR_PARAMETER_INCORRECT: int := 30

  // ----- Big-endian fields -----

  function Pow256(n: nat): nat { if n == 0 then 1 else 256 * Pow256(n - 1) }

  /** mputWord, mputLong, mputInt64 for 2, 4 and 8 bytes. */
  function Be(x: nat, n: nat): (b: Data8)
    ensures |b| == n
  {
    if n == 0 then [] else Be(x / 256, n - 1) + [x % 256]
  }

  /** GetHeaderField16, 32 and 64. */
  function FromBe(b: Data8): nat {
    if b == [] then 0 else FromBe(b[..|b| - 1]) * 256 + b[|b| - 1]
  }

  lemma {:induction false} BeRoundTrip(x: nat, n: nat)
    requires x < Pow256(n)
    ensures FromBe(Be(x, n)) == x
  {
    if n > 0 {
      BeRoundTrip(x / 256, n - 1);
      assert Be(x, n)[..n - 1] == Be(x / 256, n - 1);
    }
  }

  // ----- Keys -----

  /** What a buffer is encrypted with: the key of the algorithm, and the secondary key of XTS, the tweak key
      of LRW or the seed of CBC. */
  datatype Keys = Keys(primary: Data8, second: Data8)

  /** The functions this part rests on: encryption and decryption of a buffer (mode, algorithm, keys), and CRC-32. */
  datatype Env = Env(
    encrypt: (nat, nat, Keys, Data8) -> Data8, decrypt: (nat, nat, Keys, Data8) -> Data8, crc: Data8 -> nat)

  /** The part of a header that is encrypted. */
  const ENCRYPTED_SIZE: nat := HEADER_SIZE - SALT_SIZE

  /** Decryption of a header undoes encryption and keeps the length, for every algorithm in every mode it is used in
      (HeaderCiphers shows that the modes do). */
  ghost predicate Sound(e: Env) {
    && (forall m, a, k, d {:trigger e.encrypt(m, a, k, d)} :: ModeSupported(a, m) && |d| == ENCRYPTED_SIZE ==>
          |e.encrypt(m, a, k, d)| == |d| && e.decrypt(m, a, k, e.encrypt(m, a, k, d)) == d)
    && (forall m, a, k, d {:trigger e.decrypt(m, a, k, d)} :: ModeSupported(a, m) && |d| == ENCRYPTED_SIZE ==>
          |e.decrypt(m, a, k, d)| == |d|)
    && (forall d {:trigger e.crc(d)} :: e.crc(d) < 0x1_0000_0000)
  }

  function KeyBytes(cipher: nat): nat {
    if cipher == BLOWFISH then 56 else if cipher == CAST then 16 else if cipher == TRIPLEDES then 24 else 32
  }

  function SumKeyBytes(cs: seq<nat>): nat { if cs == [] then 0 else KeyBytes(cs[0]) + SumKeyBytes(cs[1..]) }

  /** EAGetKeySize */
  function KeySize(ea: nat): nat
    requires ValidEa(ea)
  {
    SumKeyBytes(CiphersOf(ea))
  }

  lemma {:induction false} SumKeyBytesBound(cs: seq<nat>)
    ensures SumKeyBytes(cs) <= 56 * |cs|
  {
    if cs != [] {
      SumKeyBytesBound(cs[1..]);
    }
  }

  lemma KeySizeFits(ea: nat, mode: nat)
    requires ModeSupported(ea, mode)
    ensures mode == XTS ==> 2 * KeySize(ea) <= 256
    ensures LEGACY_VOL_IV_SIZE + KeySize(ea) <= 256
  {
    RowFacts(ea);
    RowCiphers(EA_CIPHERS[ea]);
    SumKeyBytesBound(CiphersOf(ea));
    if mode == XTS {
      XtsKeys(ea);
    }
  }

  lemma XtsKeys(ea: nat)
    requires ModeSupported(ea, XTS)
    ensures KeySize(ea) <= 96
  {
    hide SumKeyBytes, KeyBytes, Before0;
    RowFacts(ea);
    XtsRow(ea);
    KeysOfRow(EA_CIPHERS[ea]);
  }

  /** XTS mode is for the three ciphers with 128-bit blocks. */
  lemma XtsRow(ea: nat)
    requires ModeSupported(ea, XTS)
    ensures forall c :: c in EA_CIPHERS[ea] ==> c in {0, AES, SERPENT, TWOFISH}
  {
  }

  lemma KeysOfRow(row: seq<nat>)
    requires |row| == 4 && row[0] != 0 && row[3] == 0 && (row[1] == 0 ==> row[2] == 0)
    requires forall c :: c in row ==> c in {0, AES, SERPENT, TWOFISH}
    ensures SumKeyBytes(Before0(row)) <= 96
  {
    hide Before0;
    RowCiphers(row);
    var cs := Before0(row);
    forall k | 0 <= k < |cs|
      ensures KeyBytes(cs[k]) == 32
    {
      assert cs[k] == row[k] && row[k] in row;
    }
    SumEqual(cs);
  }

  lemma {:induction false} SumEqual(cs: seq<nat>)
    requires forall c :: c in cs ==> KeyBytes(c) == 32
    ensures SumKeyBytes(cs) == 32 * |cs|
  {
    if cs != [] {
      SumEqual(cs[1..]);
    }
  }

  /** Where in a 256-byte key area the keys of an algorithm and mode lie. */
  function KeysFor(area: Data8, mode: nat, ea: nat): Keys
    requires |area| == 256 && ModeSupported(ea, mode)
  {
    KeySizeFits(ea, mode);
    var n := KeySize(ea);
    if mode == XTS then Keys(area[..n], area[n..2 * n])
    else Keys(area[LEGACY_VOL_IV_SIZE..LEGACY_VOL_IV_SIZE + n], area[..LEGACY_VOL_IV_SIZE])
  }

  // ----- Contents -----

  /** What a header says about a volume. */
  datatype Contents = Contents(
    headerVersion: nat, requiredVersion: nat, hiddenVolumeSize: nat, volumeSize: nat, encryptedAreaStart: nat,
    encryptedAreaLength: nat, flags: nat, sectorSize: nat, masterKey: Data8)

  function ZeroBytes(n: nat): (z: Data8)
    ensures |z| == n
  {
    seq(n, _ => 0)
  }

  predicate SectorSizeOk(ss: nat) { 512 <= ss <= 4096 && ss % 512 == 0 }

  /** Values that fit their fields. */
  predicate FieldsFit(i: Contents) {
    && i.requiredVersion < 0x1_0000 && i.hiddenVolumeSize < Pow256(8) && i.volumeSize < Pow256(8)
    && i.encryptedAreaStart < Pow256(8) && i.encryptedAreaLength < Pow256(8) && i.flags < Pow256(4)
    && SectorSizeOk(i.sectorSize) && |i.masterKey| == 256
  }

  /** The fields from the magic number to the sector size, one after the other. */
  function Pieces(crc: Data8 -> nat, i: Contents): seq<Data8> {
    [Be(MAGIC, 4), Be(VOLUME_HEADER_VERSION, 2), Be(i.requiredVersion, 2), Be(crc(i.masterKey), 4), ZeroBytes(16),
     Be(i.hiddenVolumeSize, 8), Be(i.volumeSize, 8), Be(i.encryptedAreaStart, 8), Be(i.encryptedAreaLength, 8),
     Be(i.flags, 4), Be(i.sectorSize, 4), ZeroBytes(120)]
  }

  /** The header behind the salt: fields, their CRC, master key area. */
  function Plain(crc: Data8 -> nat, i: Contents): Data8 {
    var fields := Concat(Pieces(crc, i));
    fields + Be(crc(fields), 4) + i.masterKey
  }

  lemma {:induction false} PieceAt(p: seq<Data8>, k: nat)
    requires k < |p|
    ensures |Concat(p[..k])| + |p[k]| <= |Concat(p)| && Concat(p)[|Concat(p[..k])|..|Concat(p[..k])| + |p[k]|] == p[k]
  {
    var n := |p| - 1;
    if k < n {
      PieceAt(p[..n], k);
      assert p[..n][..k] == p[..k];
    }
  }

  /** Lengths of the fields. */
  lemma Offsets(crc: Data8 -> nat, i: Contents)
    ensures var p := Pieces(crc, i);
      |Concat(p[..0])| == 0 && |Concat(p[..1])| == 4 && |Concat(p[..2])| == 6 && |Concat(p[..3])| == 8 && |Concat(p[..4])| == 12
      && |Concat(p[..5])| == 28 && |Concat(p[..6])| == 36 && |Concat(p[..7])| == 44 && |Concat(p[..8])| == 52
      && |Concat(p[..9])| == 60 && |Concat(p[..10])| == 64 && |Concat(p[..11])| == 68 && |Concat(p)| == 188
  {
    hide Be, ZeroBytes;
    var p := Pieces(crc, i);
    FlatNext(p, 0);
    FlatNext(p, 1);
    FlatNext(p, 2);
    FlatNext(p, 3);
    FlatNext(p, 4);
    FlatNext(p, 5);
    FlatNext(p, 6);
    FlatNext(p, 7);
    FlatNext(p, 8);
    FlatNext(p, 9);
    FlatNext(p, 10);
    FlatNext(p, 11);
    assert p[..12] == p && p[..0] == [];
  }

  lemma FlatNext(p: seq<Data8>, k: nat)
    requires k < |p|
    ensures Concat(p[..k + 1]) == Concat(p[..k]) + p[k]
  {
    assert p[..k + 1][..k] == p[..k];
  }

  // ----- Checking -----

  /** What one trial decryption comes to. */
  datatype Check = Skip | Fail(status: int) | Accept(info: Contents)

  function Field(h: Data8, at: nat, n: nat): nat
    requires at + n <= |h|
  {
    FromBe(h[at..at + n])
  }

  /** Lines 404 to 479 on a decrypted header. */
  function CheckHeader(crc: Data8 -> nat, recovery: bool, h: Data8): Check
    requires |h| == HEADER_SIZE
  {
    var version := Field(h, 68, 2);
    var required := Field(h, 70, 2);
    if Field(h, 64, 4) != MAGIC then Skip
    else if version > VOLUME_HEADER_VERSION then Fail(ERR_NEW_VERSION_REQUIRED)
    else if !recovery && version >= 4 && Field(h, 252, 4) != crc(h[64..252]) then Skip
    else if !recovery && Field(h, 72, 4) != crc(h[256..512]) then Skip
    else if required > VERSION_NUM then Fail(ERR_NEW_VERSION_REQUIRED)
    else
      var sectorSize := if version >= 5 then Field(h, 128, 4) else 512;
      if !SectorSizeOk(sectorSize) then Fail(ERR_PARAMETER_INCORRECT)
      else
        Accept(Contents(version, required, Field(h, 92, 8), Field(h, 100, 8), Field(h, 108, 8), Field(h, 116, 8),
                    Field(h, 124, 4), sectorSize, h[256..512]))
  }

  /** Piece `k` of the fields read back. */
  lemma ReadPiece(crc: Data8 -> nat, salt: Data8, i: Contents, k: nat)
    requires |salt| == SALT_SIZE && k < 12 && |i.masterKey| == 256
    ensures var p := Pieces(crc, i);
      var h := salt + Plain(crc, i);
      var at := SALT_SIZE + |Concat(p[..k])|;
      |h| == HEADER_SIZE && at + |p[k]| <= 252 && h[at..at + |p[k]|] == p[k]
  {
    hide Be, ZeroBytes, Concat;
    var p := Pieces(crc, i);
    var h := salt + Plain(crc, i);
    Offsets(crc, i);
    PieceAt(p, k);
    var f := Concat(p);
    var a := |Concat(p[..k])|;
    assert h[SALT_SIZE + a..SALT_SIZE + a + |p[k]|] == f[a..a + |p[k]|];
  }

  lemma Pows()
    ensures Pow256(2) == 0x1_0000 && Pow256(4) == 0x1_0000_0000 && Pow256(8) == 0x1_0000_0000_0000_0000
  {
    assert Pow256(1) == 256;
    assert Pow256(3) == 0x100_0000;
    assert Pow256(5) == 256 * Pow256(4);
    assert Pow256(6) == 256 * Pow256(5);
    assert Pow256(7) == 256 * Pow256(6);
  }

  /** A header laid out from these values passes every check and gives the values back; exactly if this program
      is new enough for the volume. */
  lemma PlainReadsBack(crc: Data8 -> nat, recovery: bool, salt: Data8, i: Contents)
    requires |salt| == SALT_SIZE && FieldsFit(i) && i.headerVersion == VOLUME_HEADER_VERSION
    requires forall d :: crc(d) < 0x1_0000_0000
    ensures |salt + Plain(crc, i)| == HEADER_SIZE
    ensures CheckHeader(crc, recovery, salt + Plain(crc, i)) ==
      if i.requiredVersion > VERSION_NUM then Fail(ERR_NEW_VERSION_REQUIRED) else Accept(i)
  {
    hide Be, ZeroBytes, Concat, FromBe, Pow256;
    Pows();
    var p := Pieces(crc, i);
    var h := salt + Plain(crc, i);
    var fields := Concat(p);
    Offsets(crc, i);
    ReadPiece(crc, salt, i, 0);
    ReadPiece(crc, salt, i, 1);
    ReadPiece(crc, salt, i, 2);
    ReadPiece(crc, salt, i, 3);
    ReadPiece(crc, salt, i, 5);
    ReadPiece(crc, salt, i, 6);
    ReadPiece(crc, salt, i, 7);
    ReadPiece(crc, salt, i, 8);
    ReadPiece(crc, salt, i, 9);
    ReadPiece(crc, salt, i, 10);
    BeRoundTrip(MAGIC, 4);
    BeRoundTrip(VOLUME_HEADER_VERSION, 2);
    BeRoundTrip(i.requiredVersion, 2);
    BeRoundTrip(crc(i.masterKey), 4);
    BeRoundTrip(i.hiddenVolumeSize, 8);
    BeRoundTrip(i.volumeSize, 8);
    BeRoundTrip(i.encryptedAreaStart, 8);
    BeRoundTrip(i.encryptedAreaLength, 8);
    BeRoundTrip(i.flags, 4);
    BeRoundTrip(i.sectorSize, 4);
    BeRoundTrip(crc(fields), 4);
    assert h[252..256] == Be(crc(fields), 4);
    assert h[64..252] == fields;
    assert h[256..512] == i.masterKey;
  }
}
