// Headers of every version: what is looked at, byte by byte, and what each verdict depends on.
module HeaderVersions {
  import opened Bytes
  import opened Sequences
  import opened CryptoSuite
  import opened M = CryptoModes
  import opened HeaderFormat
  import opened HeaderReadback

  // ----- Fields as bytes -----

  function Two(a: nat, b: nat): nat { 256 * a + b }

  lemma FieldNext(h: Data8, at: nat, n: nat)
    requires at + n < |h|
    ensures Field(h, at, n + 1) == 256 * Field(h, at, n) + h[at + n] && Field(h, at, 0) == 0
  {
    assert h[at..at + n + 1][..n] == h[at..at + n] && h[at..at + n + 1][n] == h[at + n];
  }

  lemma Field2(h: Data8, at: nat)
    requires at + 2 <= |h|
    ensures Field(h, at, 2) == Two(h[at], h[at + 1])
  {
    hide Field;
    FieldNext(h, at, 0);
    FieldNext(h, at, 1);
  }

  lemma Field4(h: Data8, at: nat)
    requires at + 4 <= |h|
    ensures Field(h, at, 4) == 0x1_0000 * Two(h[at], h[at + 1]) + Two(h[at + 2], h[at + 3])
  {
    hide Field;
    Field2(h, at);
    FieldNext(h, at, 2);
    FieldNext(h, at, 3);
  }

  lemma Field8(h: Data8, at: nat)
    requires at + 8 <= |h|
    ensures Field(h, at, 8) ==
      0x1_0000_0000 * Field(h, at, 4) + 0x1_0000 * Two(h[at + 4], h[at + 5]) + Two(h[at + 6], h[at + 7])
  {
    hide Field;
    FieldNext(h, at, 4);
    FieldNext(h, at, 5);
    FieldNext(h, at, 6);
    FieldNext(h, at, 7);
  }

  /** A field is its bytes, so bytes that agree give the same field. */
  lemma SameField(h: Data8, h': Data8, at: nat, n: nat)
    requires at + n <= |h| && |h| == |h'| && forall k :: at <= k < at + n ==> h[k] == h'[k]
    ensures Field(h, at, n) == Field(h', at, n)
  {
    assert h[at..at + n] == h'[at..at + n];
  }

  // ----- The verdict -----

  /** The letters TRUE. */
  predicate IsMagic(h: Data8)
    requires |h| == HEADER_SIZE
  {
    h[64] == 0x54 && h[65] == 0x52 && h[66] == 0x55 && h[67] == 0x45
  }

  function Version(h: Data8): nat
    requires |h| == HEADER_SIZE
  {
    Two(h[68], h[69])
  }

  function Required(h: Data8): nat
    requires |h| == HEADER_SIZE
  {
    Two(h[70], h[71])
  }

  /** The CRC of the fields, from version 4 on, and that of the key area. */
  predicate FieldsOk(crc: Data8 -> nat, h: Data8)
    requires |h| == HEADER_SIZE
  {
    Version(h) >= 4 ==> Field(h, 252, 4) == crc(h[64..252])
  }

  predicate KeysOk(crc: Data8 -> nat, h: Data8)
    requires |h| == HEADER_SIZE
  {
    Field(h, 72, 4) == crc(h[256..])
  }

  lemma FirstFields(h: Data8)
    requires |h| == HEADER_SIZE
    ensures Field(h, 68, 2) == Version(h) && Field(h, 70, 2) == Required(h) && h[256..512] == h[256..]
    ensures Field(h, 64, 4) == MAGIC <==> IsMagic(h)
  {
    hide Field;
    Field2(h, 68);
    Field2(h, 70);
    Field4(h, 64);
  }

  /** For every decrypted header: skipped, refused as too new, refused for its sector size, or accepted. */
  lemma Verdicts(crc: Data8 -> nat, recovery: bool, h: Data8)
    requires |h| == HEADER_SIZE
    ensures var r := CheckHeader(crc, recovery, h);
      var sound := recovery || (FieldsOk(crc, h) && KeysOk(crc, h));
      && (r == Skip <==> !IsMagic(h) || (Version(h) <= 5 && !sound))
      && (r == Fail(16) <==> IsMagic(h) && (Version(h) > 5 || (sound && Required(h) > 0x0740)))
      && (r == Fail(30) <==> IsMagic(h) && Version(h) == 5 && sound && Required(h) <= 0x0740 && !SectorSizeOk(Field(h, 128, 4)))
      && (r.Accept? <==> IsMagic(h) && Version(h) <= 5 && sound && Required(h) <= 0x0740
                         && (Version(h) == 5 ==> SectorSizeOk(Field(h, 128, 4))))
  {
    hide Field, SectorSizeOk, IsMagic, Version, Required;
    FirstFields(h);
    assert SectorSizeOk(512) by { Legacy(); }
  }

  lemma Legacy()
    ensures SectorSizeOk(512)
  {
  }

  /** And an accepted header gives these values; below version 5 sectors have 512 bytes, whatever stands at 128. */
  lemma AcceptedValues(crc: Data8 -> nat, recovery: bool, h: Data8)
    requires |h| == HEADER_SIZE && CheckHeader(crc, recovery, h).Accept?
    ensures var i := CheckHeader(crc, recovery, h).info;
      && i.headerVersion == Version(h) && i.requiredVersion == Required(h)
      && i.sectorSize == (if Version(h) < 5 then 512 else Field(h, 128, 4))
      && i.hiddenVolumeSize == Field(h, 92, 8) && i.volumeSize == Field(h, 100, 8)
      && i.encryptedAreaStart == Field(h, 108, 8) && i.encryptedAreaLength == Field(h, 116, 8)
      && i.flags == Field(h, 124, 4) && i.masterKey == h[256..]
  {
    hide Field, SectorSizeOk, IsMagic, Version, Required;
    FirstFields(h);
  }

  /** Below version 4 nothing else is looked at: of the bytes before 64, from 76 to 91 and from 128 to 255 (creation times,
      sector size, header CRC among them) the verdict does not depend. */
  lemma OldIsBlind(crc: Data8 -> nat, recovery: bool, h: Data8, h': Data8)
    requires |h| == |h'| == HEADER_SIZE && Version(h) < 4
    requires forall k :: 64 <= k < 76 || 92 <= k < 128 || 256 <= k < 512 ==> h[k] == h'[k]
    ensures CheckHeader(crc, recovery, h) == CheckHeader(crc, recovery, h')
  {
    hide Field, SectorSizeOk;
    SameField(h, h', 64, 4);
    SameField(h, h', 72, 4);
    SameField(h, h', 92, 8);
    SameField(h, h', 100, 8);
    SameField(h, h', 108, 8);
    SameField(h, h', 116, 8);
    SameField(h, h', 124, 4);
    FirstFields(h);
    FirstFields(h');
    assert h[256..512] == h'[256..512];
  }

  // ----- Layouts -----

  /** The values at their places, for a header of version `i.headerVersion`. */
  predicate LaidOut(crc: Data8 -> nat, h: Data8, i: Contents)
    requires |h| == HEADER_SIZE
  {
    && h[64..68] == [0x54, 0x52, 0x55, 0x45] && h[68..70] == Be(i.headerVersion, 2) && h[70..72] == Be(i.requiredVersion, 2)
    && h[72..76] == Be(crc(i.masterKey), 4) && h[92..100] == Be(i.hiddenVolumeSize, 8) && h[100..108] == Be(i.volumeSize, 8)
    && h[108..116] == Be(i.encryptedAreaStart, 8) && h[116..124] == Be(i.encryptedAreaLength, 8) && h[124..128] == Be(i.flags, 4)
    && h[256..512] == i.masterKey
  }

  /** Headers of versions 0 to 3, with anything where the sector size and the header CRC came later, and of version 4 with a
      header CRC and anything where the sector size came later, are read back with 512-byte sectors. */
  lemma OldReadsBack(crc: Data8 -> nat, recovery: bool, h: Data8, i: Contents)
    requires |h| == HEADER_SIZE && LaidOut(crc, h, i) && FieldsFit(i) && i.headerVersion <= 4
    requires i.headerVersion == 4 ==> h[252..256] == Be(crc(h[64..252]), 4)
    requires forall d :: crc(d) < 0x1_0000_0000
    ensures CheckHeader(crc, recovery, h) ==
      if i.requiredVersion > VERSION_NUM then Fail(ERR_NEW_VERSION_REQUIRED) else Accept(i.(sectorSize := 512))
  {
    hide Be, FromBe, Pow256;
    Pows();
    BeRoundTrip(i.headerVersion, 2);
    BeRoundTrip(i.requiredVersion, 2);
    BeRoundTrip(crc(i.masterKey), 4);
    BeRoundTrip(i.hiddenVolumeSize, 8);
    BeRoundTrip(i.volumeSize, 8);
    BeRoundTrip(i.encryptedAreaStart, 8);
    BeRoundTrip(i.encryptedAreaLength, 8);
    BeRoundTrip(i.flags, 4);
    BeRoundTrip(crc(h[64..252]), 4);
    var m := h[64..68];
    assert m[0] == 0x54 && m[1] == 0x52 && m[2] == 0x55 && m[3] == 0x45;
    FirstFields(h);
  }

  /** So a volume made before the sector size was stored is found by its key, with 512-byte sectors. */
  lemma OldIsFound(e: Env, recovery: bool, dk: Data8, salt: Data8, mode: nat, ea: nat, i: Contents, d: Data8, h: Data8)
    requires Sound(e) && ModeSupported(ea, mode) && 1 <= mode <= INNER_CBC && |dk| == 256 && |salt| == SALT_SIZE
    requires |d| == ENCRYPTED_SIZE && LaidOut(e.crc, salt + d, i) && FieldsFit(i) && i.headerVersion <= 4
    requires i.headerVersion == 4 ==> (salt + d)[252..256] == Be(e.crc((salt + d)[64..252]), 4)
    requires |h| == HEADER_SIZE && h == salt + e.encrypt(mode, ea, KeysFor(dk, mode, ea), d)
    requires NoneBefore(e, recovery, dk, h, mode, ea)
    ensures Search(e, recovery, dk, 1, 1, h) ==
      if i.requiredVersion > VERSION_NUM then Failed(ERR_NEW_VERSION_REQUIRED) else Found(mode, ea, i.(sectorSize := 512))
  {
    hide CheckHeader, FieldsFit, KeysFor, NoneBefore, LaidOut, Be, Search;
    OldReadsBack(e.crc, recovery, salt + d, i);
    assert h[..64] == salt && h[64..] == e.encrypt(mode, ea, KeysFor(dk, mode, ea), d);
    assert Decrypted(e, dk, mode, ea, h) == salt + d;
    SearchIsFirst(e, recovery, dk, h, mode, ea);
  }

  /** A created header has its values at these places, zeros between them, and both CRCs. */
  lemma CreatedLayout(crc: Data8 -> nat, salt: Data8, i: Contents)
    requires |salt| == SALT_SIZE && FieldsFit(i) && i.headerVersion == 5
    ensures var h := salt + Plain(crc, i);
      && |h| == HEADER_SIZE && h[..64] == salt && LaidOut(crc, h, i)
      && h[76..92] == ZeroBytes(16) && h[128..132] == Be(i.sectorSize, 4) && h[132..252] == ZeroBytes(120)
      && h[252..256] == Be(crc(h[64..252]), 4)
  {
    hide Be, ZeroBytes, Concat;
    var h := salt + Plain(crc, i);
    Offsets(crc, i);
    MagicBytes();
    ReadPiece(crc, salt, i, 0);
    ReadPiece(crc, salt, i, 1);
    ReadPiece(crc, salt, i, 2);
    ReadPiece(crc, salt, i, 3);
    ReadPiece(crc, salt, i, 4);
    ReadPiece(crc, salt, i, 5);
    ReadPiece(crc, salt, i, 6);
    ReadPiece(crc, salt, i, 7);
    ReadPiece(crc, salt, i, 8);
    ReadPiece(crc, salt, i, 9);
    ReadPiece(crc, salt, i, 10);
    ReadPiece(crc, salt, i, 11);
    assert h[64..252] == Concat(Pieces(crc, i));
  }

  lemma MagicBytes()
    ensures Be(MAGIC, 4) == [0x54, 0x52, 0x55, 0x45]
  {
    assert Be(0x54, 1) == [0x54];
    assert Be(0x5452, 2) == [0x54, 0x52];
    assert Be(0x545255, 3) == [0x54, 0x52, 0x55];
  }

  // ----- Key areas -----

  /** Bytes of key of each algorithm. */
  const KEY_SIZES: seq<nat> := [0, 32, 32, 32, 64, 96, 64, 96, 64, 56, 16, 24, 88, 120]

  lemma KeySizes(ea: nat)
    requires ValidEa(ea)
    ensures KeySize(ea) == KEY_SIZES[ea]
  {
    hide Before0, KeyBytes;
    RowFacts(ea);
    SumRow(EA_CIPHERS[ea]);
    KeyBytesAre();
  }

  lemma KeyBytesAre()
    ensures KeyBytes(AES) == KeyBytes(SERPENT) == KeyBytes(TWOFISH) == 32
    ensures KeyBytes(BLOWFISH) == 56 && KeyBytes(CAST) == 16 && KeyBytes(TRIPLEDES) == 24
  {
  }

  lemma SumRow(row: seq<nat>)
    requires |row| == 4 && row[0] != 0 && row[3] == 0 && (row[1] == 0 ==> row[2] == 0)
    ensures SumKeyBytes(Before0(row)) ==
      KeyBytes(row[0]) + (if row[1] == 0 then 0 else KeyBytes(row[1])) + (if row[2] == 0 then 0 else KeyBytes(row[2]))
  {
    hide Before0, KeyBytes;
    RowCiphers(row);
    if row[1] == 0 {
      assert row[..1][1..] == [];
    } else if row[2] == 0 {
      assert row[..2][1..] == [row[1]] && [row[1]][1..] == [];
      assert SumKeyBytes([row[1]]) == KeyBytes(row[1]);
    } else {
      assert row[..3][1..] == [row[1], row[2]] && [row[1], row[2]][1..] == [row[2]] && [row[2]][1..] == [];
      assert SumKeyBytes([row[2]]) == KeyBytes(row[2]);
    }
  }

  /** XTS: the keys from byte 0 on, the secondary keys behind them.  The other modes: 32 bytes of tweak key or IV seed
      first, then the keys. */
  lemma KeyPlaces(area: Data8, mode: nat, ea: nat, k: nat)
    requires |area| == 256 && ModeSupported(ea, mode) && k < 256
    ensures var keys := KeysFor(area, mode, ea);
      var n := KEY_SIZES[ea];
      && |keys.primary| == n && |keys.second| == (if mode == XTS then n else 32)
      && (k < |keys.primary| ==> keys.primary[k] == area[if mode == XTS then k else 32 + k])
      && (k < |keys.second| ==> keys.second[k] == area[if mode == XTS then n + k else k])
  {
    hide KeySize;
    KeySizes(ea);
    KeySizeFits(ea, mode);
  }
}
