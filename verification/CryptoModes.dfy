// What the modes of operation compute: runs of blocks, passes over a buffer, and data units.
module CryptoModes {
  import opened Words
  import opened CryptoSuite
  import Crc
  import X = XtsSpec

  const XTS: nat := 1
  const LRW: nat := 2
  const CBC: nat := 3
  const OUTER_CBC: nat := 4
  const INNER_CBC: nat := 5

  /** EncryptionAlgorithms[].Modes */
  const EA_MODES: seq<set<nat>> := [
    {},
    {XTS, LRW, CBC},
    {XTS, LRW, CBC},
    {XTS, LRW, CBC},
    {XTS, LRW, OUTER_CBC},
    {XTS, LRW, OUTER_CBC},
    {XTS, LRW, OUTER_CBC},
    {XTS, LRW, OUTER_CBC},
    {XTS, LRW, OUTER_CBC},
    {LRW, CBC},
    {LRW, CBC},
    {LRW, CBC},
    {INNER_CBC},
    {INNER_CBC}]

  /** EAIsModeSupported */
  predicate ModeSupported(ea: nat, mode: nat) { ValidEa(ea) && mode in EA_MODES[ea] }

  /** All blocks have one size. */
  predicate Alike(cs: seq<nat>) { forall i :: 0 < i < |cs| ==> BlockWords(cs[i]) == BlockWords(cs[0]) }

  lemma RowAlike(row: seq<nat>)
    requires |row| == 4 && row[0] != 0 && row[3] == 0 && (row[1] == 0 ==> row[2] == 0)
    ensures var cs := Before0(row);
      && |cs| == (if row[1] == 0 then 1 else if row[2] == 0 then 2 else 3) && cs[0] == row[0]
      && (Alike(cs) <==> (row[1] == 0 || BlockWords(row[1]) == BlockWords(row[0]))
                         && (row[2] == 0 || BlockWords(row[2]) == BlockWords(row[0])))
  {
    hide Before0, BlockWords;
    RowCiphers(row);
    var cs := Before0(row);
    if row[1] != 0 {
      assert cs[1] == row[1];
      if row[2] != 0 {
        assert cs[2] == row[2];
      }
    }
  }

  /** The modes of an algorithm follow from the block sizes of its ciphers: XTS if all blocks are 16 bytes, LRW if all
      have one size, CBC for a single cipher, outer CBC for a cascade with one block size and inner CBC for any other. */
  lemma ModesAre(ea: nat, mode: nat)
    requires ValidEa(ea)
    ensures var cs := CiphersOf(ea);
      && cs != []
      && (ModeSupported(ea, mode) <==>
            || (mode == XTS && Alike(cs) && BlockWords(cs[0]) == 2)
            || (mode == LRW && Alike(cs))
            || (mode == CBC && |cs| == 1)
            || (mode == OUTER_CBC && |cs| > 1 && Alike(cs))
            || (mode == INNER_CBC && !Alike(cs)))
  {
    hide Before0, Alike;
    RowFacts(ea);
    RowAlike(EA_CIPHERS[ea]);
  }

  /** CRYPTO_INFO: ciphers, algorithm, mode, addresses of the key schedules, secondary key in words (IV seed),
      and the product of the LRW tweak key with a block index. */
  datatype Info = Info(suite: Suite, ea: nat, mode: nat, ks: nat, ks2: nat, k2: Data, lrw: bv64 -> Data,
                       hiddenVolume: bool, hiddenVolumeOffset: nat)

  datatype Direction = Encrypt | Decrypt

  // ----- One block -----

  function Fit(n: nat, w: Data): (r: Data)
    ensures |r| == n && (|w| == n ==> r == w)
  {
    seq(n, i requires 0 <= i < n => if i < |w| then w[i] else 0)
  }

  function XorAll(a: Data, b: Data): (r: Data)
    requires |a| == |b|
    ensures |r| == |a|
  {
    seq(|a|, i requires 0 <= i < |a| => X.XorWord(a[i], b[i]))
  }

  lemma XorAllTwice(a: Data, b: Data)
    requires |a| == |b|
    ensures XorAll(XorAll(a, b), b) == a
  {
    hide X.XorWord;
    forall i | 0 <= i < |a|
      ensures XorAll(XorAll(a, b), b)[i] == a[i]
    {
      X.XorWordTwice(a[i], b[i]);
    }
  }

  /** How blocks are whitened. */
  datatype Tweak = Xts(cipher: nat, ks2: nat) | Lrw | Cbc(whitening: bv64)

  /** One pass over a buffer in blocks of `n` words, each through the ciphers `cs`. */
  datatype Pass = Pass(n: nat, cs: seq<nat>, ks: nat, tweak: Tweak)

  /** What goes on from block to block: data unit and block in it, LRW block index, or ciphertext block. */
  datatype State = InUnit(unit: bv64, j: nat) | Index(i: bv64) | After(block: Data)

  function TweakCipher(info: Info, cipher: nat, ks2: nat): X.BlockFunction {
    (b: X.Block) =>
      var r := info.suite.encipher(cipher, ks2, [b.lo, b.hi]);
      if |r| == 2 then X.Block(r[0], r[1]) else b
  }

  /** Xored in before enciphering. */
  function Pre(info: Info, p: Pass, st: State): (r: Data)
    ensures |r| == p.n
  {
    Fit(p.n,
      match (p.tweak, st)
      case (Xts(c, ks2), InUnit(u, j)) => (var t := X.Tweak(TweakCipher(info, c, ks2), u, j); [t.lo, t.hi])
      case (Lrw, Index(i)) => info.lrw(i)
      case (Cbc(_), After(b)) => b
      case _ => [])
  }

  /** Xored in after enciphering. */
  function Post(info: Info, p: Pass, st: State): (r: Data)
    ensures |r| == p.n
  {
    if p.tweak.Cbc? then seq(p.n, _ => p.tweak.whitening) else Pre(info, p, st)
  }

  /** The state after a block whose enciphered form is `c`. */
  function Next(p: Pass, st: State, c: Data): State {
    match (p.tweak, st)
    case (Xts(_, _), InUnit(u, j)) => if j + 1 == X.BLOCKS_PER_UNIT then InUnit(Advance(u, 1), 0) else InUnit(u, j + 1)
    case (Lrw, Index(i)) => Index(Advance(i, 1))
    case (Cbc(_), _) => After(c)
    case _ => st
  }

  function Encipher(info: Info, p: Pass, b: Data): (r: Data)
    ensures |r| == p.n
  {
    Fit(p.n, Forward(info.suite, p.cs, p.ks, 0, b))
  }

  function Decipher(info: Info, p: Pass, b: Data): (r: Data)
    ensures |r| == p.n
  {
    Fit(p.n, Backward(info.suite, p.cs, p.ks, |p.cs|, b))
  }

  function Step(info: Info, p: Pass, dir: Direction, st: State, b: Data): (r: (Data, State))
    requires |b| == p.n
    ensures |r.0| == p.n
  {
    if dir.Encrypt? then
      var c := Encipher(info, p, XorAll(b, Pre(info, p, st)));
      (XorAll(c, Post(info, p, st)), Next(p, st, c))
    else
      var c := XorAll(b, Post(info, p, st));
      (XorAll(Decipher(info, p, c), Pre(info, p, st)), Next(p, st, c))
  }

  lemma StepInverts(info: Info, p: Pass, st: State, b: Data)
    requires Invertible(info.suite) && |b| == p.n
    ensures var (e, st') := Step(info, p, Encrypt, st, b); Step(info, p, Decrypt, st, e) == (b, st')
  {
    hide Pre, Post, Next, XorAll, Fit;
    var x := XorAll(b, Pre(info, p, st));
    CascadeUndone(info.suite, p.cs, p.ks, 0, x);
    var c := Encipher(info, p, x);
    assert Decipher(info, p, c) == x;
    XorAllTwice(c, Post(info, p, st));
    XorAllTwice(b, Pre(info, p, st));
  }

  // ----- Runs of blocks -----

  /** Blocks of one or two words fill `len` words exactly. */
  predicate Whole(n: nat, len: nat) { n == 1 || (n == 2 && len % 2 == 0) }

  function Run(info: Info, p: Pass, dir: Direction, st: State, d: Data): (r: Data)
    ensures |r| == |d|
    decreases |d|
  {
    if p.n == 0 || |d| < p.n then d
    else
      var (b, st') := Step(info, p, dir, st, d[..p.n]);
      b + Run(info, p, dir, st', d[p.n..])
  }

  function Final(info: Info, p: Pass, dir: Direction, st: State, d: Data): State
    decreases |d|
  {
    if p.n == 0 || |d| < p.n then st
    else Final(info, p, dir, Step(info, p, dir, st, d[..p.n]).1, d[p.n..])
  }

  lemma {:induction false} RunAppend(info: Info, p: Pass, dir: Direction, st: State, a: Data, b: Data)
    requires Whole(p.n, |a|)
    ensures Run(info, p, dir, st, a + b) == Run(info, p, dir, st, a) + Run(info, p, dir, Final(info, p, dir, st, a), b)
    decreases |a|
  {
    hide Step;
    if a == [] {
      assert a + b == b;
    } else {
      var (x, st') := Step(info, p, dir, st, a[..p.n]);
      assert (a + b)[..p.n] == a[..p.n] && (a + b)[p.n..] == a[p.n..] + b;
      RunAppend(info, p, dir, st', a[p.n..], b);
    }
  }

  /** A run decrypted in the same state gives the data back. */
  lemma {:induction false} RunInverts(info: Info, p: Pass, st: State, d: Data)
    requires Invertible(info.suite) && Whole(p.n, |d|)
    ensures Run(info, p, Decrypt, st, Run(info, p, Encrypt, st, d)) == d
    decreases |d|
  {
    hide Step;
    if d != [] {
      var (e, st') := Step(info, p, Encrypt, st, d[..p.n]);
      StepInverts(info, p, st, d[..p.n]);
      var rest := Run(info, p, Encrypt, st', d[p.n..]);
      assert (e + rest)[..p.n] == e && (e + rest)[p.n..] == rest;
      RunInverts(info, p, st', d[p.n..]);
      assert d == d[..p.n] + d[p.n..];
    }
  }

  // ----- Passes over a buffer -----

  /** A buffer on its own (a volume header), or the data unit with this number. */
  datatype Place = Buffer | Unit(u: bv64)

  function K2(info: Info, i: nat): bv64 { if i < |info.k2| then info.k2[i] else 0 }

  /** IV seed word `i` of a data unit. */
  function Seed(info: Info, u: bv64, i: nat): bv64 { X.XorWord(K2(info, i), u) }

  /** InitSectorIVAndWhitening: the first whitening word from two seed words. */
  function Whitening(a: bv64, b: bv64): bv64 {
    Join(Crc.Xor(Crc.Crc32Int(Low(a)), Crc.Crc32Int(High(b))), Crc.Xor(Crc.Crc32Int(High(a)), Crc.Crc32Int(Low(b))))
  }

  function CbcIv(info: Info, place: Place, n: nat): (iv: Data)
    ensures |iv| == n
  {
    seq(n, i requires 0 <= i < n => if place.Buffer? then K2(info, i) else Seed(info, place.u, i))
  }

  function CbcWhitening(info: Info, place: Place, n: nat): bv64 {
    if place.Buffer? then K2(info, 1)
    else if n == 2 then Whitening(Seed(info, place.u, 2), Seed(info, place.u, 3))
    else Whitening(Seed(info, place.u, 1), Seed(info, place.u, 2))
  }

  /** `n` taken away from a unit number; wraps modulo 2^64 exactly as `uint64` subtraction does. */
  function Retreat(u: bv64, n: nat): bv64 { if n == 0 then u else Down(Retreat(u, n - 1)) }

  function Down(u: bv64): bv64 { u - 1 }

  /** Block `c` of data unit `x`, counted from the first. */
  function BlockNo(x: bv64, n: nat, c: bv64): bv64 { if n == 2 then In32(x, c) else In64(x, c) }

  function In32(x: bv64, c: bv64): bv64 { (x << 5) | c }

  function In64(x: bv64, c: bv64): bv64 { (x << 6) | c }

  /** The unit LRW indices start from: where the hidden volume starts, else behind a header of one unit. */
  function LrwOrigin(info: Info): nat { if info.hiddenVolume then info.hiddenVolumeOffset / 512 else 1 }

  /** DataUnit2LRWIndex */
  function DataUnit2LRWIndex(dataUnit: bv64, n: nat, info: Info): bv64 {
    BlockNo(Retreat(dataUnit, LrwOrigin(info)), n, 1)
  }

  /** Passes over the data: one per cipher, or one for the whole cascade. */
  function PassCount(info: Info): nat
    requires ValidEa(info.ea)
  {
    if info.mode == LRW || info.mode == OUTER_CBC then 1 else |CiphersOf(info.ea)|
  }

  predicate Valid(info: Info) { ModeSupported(info.ea, info.mode) && CiphersOf(info.ea) != [] }

  function PassAt(info: Info, place: Place, i: nat): Pass
    requires Valid(info) && i < PassCount(info)
  {
    var cs := CiphersOf(info.ea);
    var at := Offset(info.suite, cs, i);
    if info.mode == XTS then Pass(2, [cs[i]], info.ks + at, Xts(cs[i], info.ks2 + at))
    else if info.mode == LRW then Pass(BlockWords(cs[0]), cs, info.ks, Lrw)
    else if info.mode == OUTER_CBC then
      var n := BlockWords(cs[0]);
      Pass(n, cs, info.ks, Cbc(CbcWhitening(info, place, n)))
    else
      var n := BlockWords(cs[i]);
      Pass(n, [cs[i]], info.ks + at, Cbc(CbcWhitening(info, place, n)))
  }

  function StartAt(info: Info, place: Place, i: nat): State
    requires Valid(info) && i < PassCount(info)
  {
    var n := PassAt(info, place, i).n;
    if info.mode == XTS then InUnit(if place.Buffer? then 0 else place.u, 0)
    else if info.mode == LRW then Index(if place.Buffer? then 1 else DataUnit2LRWIndex(place.u, n, info))
    else After(CbcIv(info, place, n))
  }

  /** Decryption goes through the passes from the last to the first. */
  function Turn(info: Info, dir: Direction, k: nat): nat
    requires Valid(info) && k < PassCount(info)
  {
    if dir.Encrypt? then k else PassCount(info) - 1 - k
  }

  function OnePass(info: Info, place: Place, dir: Direction, k: nat, d: Data): (r: Data)
    requires Valid(info) && k < PassCount(info)
    ensures |r| == |d|
  {
    var i := Turn(info, dir, k);
    Run(info, PassAt(info, place, i), dir, StartAt(info, place, i), d)
  }

  /** The first `k` passes. */
  function Passes(info: Info, place: Place, dir: Direction, k: nat, d: Data): (r: Data)
    requires Valid(info) && k <= PassCount(info)
    ensures |r| == |d|
  {
    if k == 0 then d else OnePass(info, place, dir, k - 1, Passes(info, place, dir, k - 1, d))
  }

  /** All of them. */
  function Crypt(info: Info, place: Place, dir: Direction, d: Data): (r: Data)
    requires Valid(info)
    ensures |r| == |d|
  {
    Passes(info, place, dir, PassCount(info), d)
  }

  /** The length is a multiple of the largest block size used. */
  predicate Fits(info: Info, len: nat)
    requires Valid(info)
  {
    forall i :: 0 <= i < PassCount(info) ==> Whole(PassAt(info, Buffer, i).n, len)
  }

  lemma WholeAnywhere(info: Info, place: Place, i: nat, len: nat)
    requires Valid(info) && i < PassCount(info) && Fits(info, len)
    ensures Whole(PassAt(info, place, i).n, len)
  {
    assert Whole(PassAt(info, Buffer, i).n, len);
  }

  /** For every algorithm, mode and place: decryption undoes encryption. */
  lemma DecryptUndoesEncrypt(info: Info, place: Place, d: Data)
    requires Valid(info) && Invertible(info.suite) && Fits(info, |d|)
    ensures Crypt(info, place, Decrypt, Crypt(info, place, Encrypt, d)) == d
  {
    PassesUndone(info, place, PassCount(info), d);
  }

  lemma OnePassUndone(info: Info, place: Place, i: nat, d: Data)
    requires Valid(info) && Invertible(info.suite) && Fits(info, |d|) && i < PassCount(info)
    ensures OnePass(info, place, Decrypt, PassCount(info) - 1 - i, OnePass(info, place, Encrypt, i, d)) == d
  {
    hide Fits, PassAt, StartAt, Invertible, PassCount, Valid, Run;
    WholeAnywhere(info, place, i, |d|);
    RunInverts(info, PassAt(info, place, i), StartAt(info, place, i), d);
  }

  lemma {:induction false} PassesUndone(info: Info, place: Place, k: nat, d: Data)
    requires Valid(info) && Invertible(info.suite) && Fits(info, |d|) && k <= PassCount(info)
    ensures Passes(info, place, Decrypt, k, Crypt(info, place, Encrypt, d)) == Passes(info, place, Encrypt, PassCount(info) - k, d)
  {
    hide Fits, OnePass, Invertible, PassCount;
    if k > 0 {
      PassesUndone(info, place, k - 1, d);
      OnePassUndone(info, place, PassCount(info) - k, Passes(info, place, Encrypt, PassCount(info) - k, d));
    }
  }
}
