// The header is encrypted as a buffer of its own by the modes of CryptoModes, so what the header part rests on holds.
module HeaderCiphers {
  import opened Bytes
  import opened Words
  import opened CryptoSuite
  import opened CryptoModes
  import opened HeaderFormat
  import opened R = HeaderReadback
  import T = HeaderTrials
  import Crc
  import L = LrwIndex
  import B = CryptoBlocks

  // ----- A buffer as bytes and as words -----

  /** The number as eight bits. */
  function Octet(x: nat): bv8 { if x == 0 then 0 else Octet(x - 1) + 1 }

  function Wide(x: bv8): byte { x as int }

  lemma NextOctet(b: bv8)
    requires b as int < 255
    ensures (b + 1) as int == b as int + 1
  {
  }

  lemma {:induction false} WideOctet(x: nat)
    requires x < 256
    ensures Wide(Octet(x)) == x
  {
    if x > 0 {
      WideOctet(x - 1);
      NextOctet(Octet(x - 1));
    }
  }

  lemma OctetWide(x: bv8)
    ensures Octet(Wide(x)) == x
  {
    var y := Octet(Wide(x));
    WideOctet(Wide(x));
    assert (x as int) as bv8 == x && (y as int) as bv8 == y;
  }

  function WordAt(d: Data8, j: nat): bv64
    requires 8 * j + 8 <= |d|
  {
    var i := 8 * j;
    Word(Octet(d[i + 7]), Octet(d[i + 6]), Octet(d[i + 5]), Octet(d[i + 4]),
           Octet(d[i + 3]), Octet(d[i + 2]), Octet(d[i + 1]), Octet(d[i]))
  }

  lemma WideIs(x: nat)
    requires x < 256
    ensures Octet(x) as int == x
  {
    WideOctet(x);
  }

  /** Its value: the lowest byte first. */
  lemma WordAtNumber(d: Data8, j: nat)
    requires 8 * j + 8 <= |d|
    ensures var i := 8 * j;
      WordAt(d, j) as int ==
        0x100_0000_0000_0000 * (d[i + 7] as int) + 0x1_0000_0000_0000 * (d[i + 6] as int) + 0x100_0000_0000 * (d[i + 5] as int)
        + 0x1_0000_0000 * (d[i + 4] as int) + 0x100_0000 * (d[i + 3] as int) + 0x1_0000 * (d[i + 2] as int)
        + 0x100 * (d[i + 1] as int) + d[i] as int
  {
    hide Octet, Word;
    var i := 8 * j;
    WideIs(d[i]);
    WideIs(d[i + 1]);
    WideIs(d[i + 2]);
    WideIs(d[i + 3]);
    WideIs(d[i + 4]);
    WideIs(d[i + 5]);
    WideIs(d[i + 6]);
    WideIs(d[i + 7]);
    WordNumber(Octet(d[i + 7]), Octet(d[i + 6]), Octet(d[i + 5]), Octet(d[i + 4]),
               Octet(d[i + 3]), Octet(d[i + 2]), Octet(d[i + 1]), Octet(d[i]));
  }

  /** Little-endian words. */
  function WordsOf(d: Data8): (w: Data)
    ensures |w| == |d| / 8
  {
    seq(|d| / 8, j requires 0 <= j < |d| / 8 => WordAt(d, j))
  }

  function ByteOf(w: bv64, k: nat): byte
    requires k < 8
  {
    Wide(L.ByteAt(w, 7 - k))
  }

  function BytesOf(w: Data): (d: Data8)
    ensures |d| == 8 * |w|
  {
    seq(8 * |w|, i requires 0 <= i < 8 * |w| => ByteOf(w[i / 8], i % 8))
  }

  lemma WordBytes(a: bv8, b: bv8, c: bv8, d: bv8, e: bv8, f: bv8, g: bv8, h: bv8)
    ensures var w := Word(a, b, c, d, e, f, g, h);
      L.ByteAt(w, 0) == a && L.ByteAt(w, 1) == b && L.ByteAt(w, 2) == c && L.ByteAt(w, 3) == d
      && L.ByteAt(w, 4) == e && L.ByteAt(w, 5) == f && L.ByteAt(w, 6) == g && L.ByteAt(w, 7) == h
  {
  }

  /** Byte `k` of word `j`. */
  lemma ByteOfWordAt(d: Data8, j: nat, k: nat)
    requires 8 * j + 8 <= |d| && k < 8
    ensures ByteOf(WordAt(d, j), k) == d[8 * j + k]
  {
    hide Word, L.ByteAt, Octet, Wide;
    var b := 8 * j;
    WordBytes(Octet(d[b + 7]), Octet(d[b + 6]), Octet(d[b + 5]), Octet(d[b + 4]),
              Octet(d[b + 3]), Octet(d[b + 2]), Octet(d[b + 1]), Octet(d[b]));
    WideOctet(d[b + k]);
    assert k == 0 || k == 1 || k == 2 || k == 3 || k == 4 || k == 5 || k == 6 || k == 7;
  }

  lemma WordsThenBytes(d: Data8)
    requires |d| % 8 == 0
    ensures BytesOf(WordsOf(d)) == d
  {
    hide WordAt, ByteOf;
    forall i | 0 <= i < |d|
      ensures BytesOf(WordsOf(d))[i] == d[i]
    {
      ByteOfWordAt(d, i / 8, i % 8);
    }
  }

  lemma PlaceOf(j: nat, k: nat)
    requires k < 8
    ensures (8 * j + k) / 8 == j && (8 * j + k) % 8 == k
  {
  }

  /** Byte `k` behind the first of word `j`. */
  lemma BytesOfAt(w: Data, j: nat, k: nat)
    requires j < |w| && k < 8
    ensures Octet(BytesOf(w)[8 * j + k]) == L.ByteAt(w[j], 7 - k)
  {
    hide L.ByteAt, Octet, Wide;
    PlaceOf(j, k);
    OctetWide(L.ByteAt(w[j], 7 - k));
  }

  lemma WordAtIs(w: Data, j: nat)
    requires j < |w|
    ensures WordAt(BytesOf(w), j) == w[j]
  {
    hide Word, L.ByteAt, Octet, BytesOf;
    BytesOfAt(w, j, 0);
    BytesOfAt(w, j, 1);
    BytesOfAt(w, j, 2);
    BytesOfAt(w, j, 3);
    BytesOfAt(w, j, 4);
    BytesOfAt(w, j, 5);
    BytesOfAt(w, j, 6);
    BytesOfAt(w, j, 7);
    L.BytesRoundTrip(w[j]);
  }

  lemma BytesThenWords(w: Data)
    ensures WordsOf(BytesOf(w)) == w
  {
    hide WordAt, BytesOf;
    forall j | 0 <= j < |w|
      ensures WordAt(BytesOf(w), j) == w[j]
    {
      WordAtIs(w, j);
    }
  }

  // ----- Encrypting a header -----

  /** EncryptBuffer and DecryptBuffer on bytes. */
  function Through(info: Info, dir: Direction, d: Data8): Data8 {
    if Valid(info) then BytesOf(Crypt(info, Buffer, dir, WordsOf(d))) else d
  }

  /** The functions of the header part; `setUp` is key set-up for a mode, an algorithm and its keys. */
  function EnvOf(setUp: (nat, nat, Keys) -> Info, crc: Data8 -> nat): Env {
    Env((m, a, k, d) => Through(setUp(m, a, k), Encrypt, d), (m, a, k, d) => Through(setUp(m, a, k), Decrypt, d), crc)
  }

  /** Key set-up is for the mode and algorithm asked for, and deciphering inverts enciphering. */
  ghost predicate SetsUp(setUp: (nat, nat, Keys) -> Info) {
    forall m, a, k {:trigger setUp(m, a, k)} :: ModeSupported(a, m) ==>
      setUp(m, a, k).mode == m && setUp(m, a, k).ea == a && Invertible(setUp(m, a, k).suite)
  }

  lemma EvenFits(info: Info, len: nat)
    requires Valid(info) && len % 2 == 0
    ensures Fits(info, len)
  {
    TableRows(info.ea);
  }

  lemma HeaderUndone(info: Info, d: Data8)
    requires Valid(info) && Invertible(info.suite) && |d| == ENCRYPTED_SIZE
    ensures |Through(info, Encrypt, d)| == |d| && |Through(info, Decrypt, d)| == |d|
    ensures Through(info, Decrypt, Through(info, Encrypt, d)) == d
  {
    hide Valid, Invertible, Crypt, Fits, WordsOf, BytesOf;
    var w := WordsOf(d);
    EvenFits(info, |w|);
    DecryptUndoesEncrypt(info, Buffer, w);
    BytesThenWords(Crypt(info, Buffer, Encrypt, w));
    WordsThenBytes(d);
  }

  /** Decryption of a header undoes encryption, whatever the algorithm and mode. */
  lemma EnvIsSound(setUp: (nat, nat, Keys) -> Info, crc: Data8 -> nat)
    requires SetsUp(setUp) && forall d {:trigger crc(d)} :: crc(d) < 0x1_0000_0000
    ensures Sound(EnvOf(setUp, crc))
  {
    hide Through, Invertible, Valid, ModeSupported;
    var e := EnvOf(setUp, crc);
    forall m, a, k, d | ModeSupported(a, m) && |d| == ENCRYPTED_SIZE
      ensures |e.encrypt(m, a, k, d)| == |d| && e.decrypt(m, a, k, e.encrypt(m, a, k, d)) == d
      ensures |e.decrypt(m, a, k, d)| == |d|
    {
      Supported(setUp(m, a, k));
      HeaderUndone(setUp(m, a, k), d);
    }
  }

  function Octets(d: Data8): seq<bv8> { seq(|d|, i requires 0 <= i < |d| => Octet(d[i])) }

  /** GetCrc32 */
  function HeaderCrc(d: Data8): (r: nat)
    ensures r < 0x1_0000_0000
  {
    Crc.Crc32(Octets(d)) as int
  }

  lemma Supported(info: Info)
    requires ModeSupported(info.ea, info.mode)
    ensures Valid(info)
  {
    TableRows(info.ea);
  }

  /** So a header created with these ciphers and CRC-32 is read back. */
  lemma CreatedIsReadBack(setUp: (nat, nat, Keys) -> Info, recovery: bool, derive: nat -> Data8, prf: nat,
                          salt: Data8, mode: nat, ea: nat, i: Contents, h: Data8, c: T.Config, moves: seq<T.Move>)
    requires SetsUp(setUp)
    requires ModeSupported(ea, mode) && 1 <= mode <= INNER_CBC && |salt| == SALT_SIZE && FieldsFit(i)
    requires i.headerVersion == VOLUME_HEADER_VERSION && i.requiredVersion <= VERSION_NUM
    requires (forall p: nat :: |derive(p)| == 256) && |h| == HEADER_SIZE && T.FIRST_PRF_ID <= prf <= T.LAST_PRF_ID
    requires var e := EnvOf(setUp, HeaderCrc);
      && h == salt + e.encrypt(mode, ea, KeysFor(derive(prf), mode, ea), Plain(e.crc, i))
      && NoneBefore(e, recovery, derive(prf), h, mode, ea)
      && (forall p: nat :: c.derive(p) == p)
      && (forall p: nat, k: nat :: c.outcome(p, k) == OutcomeOf(Search(e, recovery, derive(k), 1, 1, h)))
      && forall p: nat :: T.FIRST_PRF_ID <= p <= T.LAST_PRF_ID && p != prf ==> Search(e, recovery, derive(p), 1, 1, h) == NotFound
    requires T.Exec(c, moves).pc.Done?
    ensures T.Exec(c, moves).pc.verdict == T.Stopped(prf, 0)
    ensures Search(EnvOf(setUp, HeaderCrc), recovery, derive(prf), 1, 1, h) == Found(mode, ea, i)
  {
    hide T.Exec, NoneBefore, FieldsFit, KeysFor, Plain, Search, Sound, EnvOf, SetsUp, HeaderCrc;
    EnvIsSound(setUp, HeaderCrc);
    CreateThenRead(EnvOf(setUp, HeaderCrc), recovery, derive, prf, salt, mode, ea, i, h, c, moves);
  }

  /** The encrypted part of a header in XTS mode is data unit 0: every block through all ciphers, each time between two
      whitenings. */
  lemma HeaderBlocks(setUp: (nat, nat, Keys) -> Info, crc: Data8 -> nat, ea: nat, k: Keys, d: Data8, t: nat)
    requires SetsUp(setUp) && ModeSupported(ea, XTS) && |d| == ENCRYPTED_SIZE && t < 28
    ensures var info := setUp(XTS, ea, k);
      var e := EnvOf(setUp, crc).encrypt(XTS, ea, k, d);
      && |e| == |d| && Invertible(info.suite) && B.Times(2, t) + 2 <= |WordsOf(d)|
      && B.At(WordsOf(e), 2, t) == B.XtsEnciphered(info.suite, CiphersOf(ea), info.ks, info.ks2, 0, t, B.At(WordsOf(d), 2, t))
  {
    hide WordsOf, BytesOf, Crypt, CiphersOf, B.XtsEnciphered, Invertible, Advance;
    var info := setUp(XTS, ea, k);
    assert info.mode == XTS && info.ea == ea && Invertible(info.suite);
    TableRows(ea);
    BytesThenWords(Crypt(info, Buffer, Encrypt, WordsOf(d)));
    B.XtsBlocks(info, Buffer, WordsOf(d), t);
    AdvanceZero();
  }

  lemma AdvanceZero()
    ensures Advance(0, 0) == 0
  {
  }
}
