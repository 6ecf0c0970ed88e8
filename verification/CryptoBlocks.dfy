// Every block of a data unit in every mode, with the ciphers written out.
module CryptoBlocks {
  import opened Words
  import opened CryptoSuite
  import opened CryptoModes
  import opened CryptoUnits
  import opened CryptoBuffers
  import opened CryptoDrivers
  import opened CryptoDataUnits
  import Crc
  import X = XtsSpec

  // ----- The ciphers of an algorithm on one block -----

  /** One cipher after the other, each with its own key schedule behind the one before. */
  function Enciphered(s: Suite, cs: seq<nat>, ks: nat, b: Data): Data {
    if cs == [] then b else Enciphered(s, cs[1..], ks + s.ksSize(cs[0]), s.encipher(cs[0], ks, b))
  }

  /** The last cipher first. */
  function Deciphered(s: Suite, cs: seq<nat>, ks: nat, b: Data): Data {
    if cs == [] then b else s.decipher(cs[0], ks, Deciphered(s, cs[1..], ks + s.ksSize(cs[0]), b))
  }

  lemma {:induction false} ForwardIs(s: Suite, cs: seq<nat>, ks: nat, i: nat, b: Data)
    requires i <= |cs|
    ensures Forward(s, cs, ks, i, b) == Enciphered(s, cs[i..], ks + Offset(s, cs, i), b)
    decreases |cs| - i
  {
    if i < |cs| {
      assert cs[i..][1..] == cs[i + 1..];
      ForwardIs(s, cs, ks, i + 1, s.encipher(cs[i], ks + Offset(s, cs, i), b));
    }
  }

  lemma {:induction false} BackwardIs(s: Suite, cs: seq<nat>, ks: nat, i: nat, b: Data)
    requires i <= |cs|
    ensures Backward(s, cs, ks, |cs|, b) == Backward(s, cs, ks, i, Deciphered(s, cs[i..], ks + Offset(s, cs, i), b))
    decreases |cs| - i
  {
    if i < |cs| {
      assert cs[i..][1..] == cs[i + 1..];
      BackwardIs(s, cs, ks, i + 1, b);
    }
  }

  lemma {:induction false} Sizes(s: Suite, cs: seq<nat>, ks: nat, b: Data)
    requires Invertible(s)
    ensures |Enciphered(s, cs, ks, b)| == |b| == |Deciphered(s, cs, ks, b)|
  {
    if cs != [] {
      Sizes(s, cs[1..], ks + s.ksSize(cs[0]), s.encipher(cs[0], ks, b));
      Sizes(s, cs[1..], ks + s.ksSize(cs[0]), b);
    }
  }

  lemma BackwardNone(s: Suite, cs: seq<nat>, ks: nat, b: Data)
    ensures Backward(s, cs, ks, 0, b) == b && Offset(s, cs, 0) == 0
  {
  }

  lemma EncipherIs(info: Info, p: Pass, b: Data)
    requires Invertible(info.suite) && |b| == p.n
    ensures Encipher(info, p, b) == Enciphered(info.suite, p.cs, p.ks, b)
  {
    hide Invertible, Enciphered, Forward, Fit;
    Sizes(info.suite, p.cs, p.ks, b);
    ForwardIs(info.suite, p.cs, p.ks, 0, b);
    assert p.cs[0..] == p.cs;
  }

  lemma DecipherIs(info: Info, p: Pass, b: Data)
    requires Invertible(info.suite) && |b| == p.n
    ensures Decipher(info, p, b) == Deciphered(info.suite, p.cs, p.ks, b)
  {
    hide Invertible, Deciphered, Backward, Offset, Fit;
    Sizes(info.suite, p.cs, p.ks, b);
    BackwardIs(info.suite, p.cs, p.ks, 0, b);
    BackwardNone(info.suite, p.cs, p.ks, Deciphered(info.suite, p.cs, p.ks, b));
    assert p.cs[0..] == p.cs;
  }

  lemma CipherIs(info: Info, p: Pass, dir: Direction, b: Data)
    requires Invertible(info.suite) && |b| == p.n
    ensures Cipher(info, p, dir, b) ==
      if dir.Encrypt? then Enciphered(info.suite, p.cs, p.ks, b) else Deciphered(info.suite, p.cs, p.ks, b)
  {
    hide Invertible, Enciphered, Deciphered, Encipher, Decipher;
    EncipherIs(info, p, b);
    DecipherIs(info, p, b);
  }

  // ----- Whitening -----

  function Whitened(b: Data, w: Data): (r: Data)
    requires |b| == |w|
    ensures |r| == |b|
  {
    seq(|b|, i requires 0 <= i < |b| => b[i] ^ w[i])
  }

  lemma WhitenedIs(b: Data, w: Data)
    requires |b| == |w|
    ensures XorAll(b, w) == Whitened(b, w)
  {
  }

  // ----- Block `t` of a run -----

  function Times(n: nat, t: nat): nat { n * t }

  /** Block `t` of `n` words. */
  function At(d: Data, n: nat, t: nat): (b: Data)
    requires Times(n, t) + n <= |d|
    ensures |b| == n
  {
    d[Times(n, t)..Times(n, t) + n]
  }

  lemma TimesNext(n: nat, t: nat)
    ensures Times(n, t + 1) == Times(n, t) + n && Times(n, 0) == 0
  {
  }

  lemma {:induction false} FinalAppend(info: Info, p: Pass, dir: Direction, st: State, a: Data, b: Data)
    requires Whole(p.n, |a|)
    ensures Final(info, p, dir, st, a + b) == Final(info, p, dir, Final(info, p, dir, st, a), b)
    decreases |a|
  {
    hide Step;
    if a == [] {
      assert a + b == b;
    } else {
      assert (a + b)[..p.n] == a[..p.n] && (a + b)[p.n..] == a[p.n..] + b;
      FinalAppend(info, p, dir, Step(info, p, dir, st, a[..p.n]).1, a[p.n..], b);
    }
  }

  lemma OneStep(info: Info, p: Pass, dir: Direction, st: State, d: Data)
    requires 0 < p.n <= |d|
    ensures Run(info, p, dir, st, d)[..p.n] == Step(info, p, dir, st, d[..p.n]).0
    ensures Final(info, p, dir, st, d[..p.n]) == Step(info, p, dir, st, d[..p.n]).1
  {
    hide Step;
    assert d[..p.n][..p.n] == d[..p.n] && d[..p.n][p.n..] == [];
  }

  lemma WholeTimes(n: nat, t: nat)
    requires n == 1 || n == 2
    ensures Whole(n, Times(n, t))
  {
  }

  /** The state before block `t`. */
  function Before(info: Info, p: Pass, dir: Direction, st: State, d: Data, t: nat): State
    requires Times(p.n, t) <= |d|
  {
    Final(info, p, dir, st, d[..Times(p.n, t)])
  }

  lemma RunAt(info: Info, p: Pass, dir: Direction, st: State, d: Data, t: nat)
    requires (p.n == 1 || p.n == 2) && Times(p.n, t) + p.n <= |d|
    ensures At(Run(info, p, dir, st, d), p.n, t) == Step(info, p, dir, Before(info, p, dir, st, d, t), At(d, p.n, t)).0
    ensures Times(p.n, t + 1) <= |d|
    ensures Before(info, p, dir, st, d, t + 1) == Step(info, p, dir, Before(info, p, dir, st, d, t), At(d, p.n, t)).1
  {
    hide Step, Times, Run, Final, Whole;
    var n, k := p.n, Times(p.n, t);
    TimesNext(n, t);
    WholeTimes(n, t);
    var a, b := d[..k], d[k..];
    assert d == a + b && b[..n] == At(d, n, t) && d[..k + n] == a + b[..n];
    RunAppend(info, p, dir, st, a, b);
    OneStep(info, p, dir, Final(info, p, dir, st, a), b);
    FinalAppend(info, p, dir, st, a, b[..n]);
  }

  // ----- XTS -----

  /** The product with alpha. */
  function TimesAlpha(w: Data): (r: Data)
    ensures |r| == |w|
  {
    if |w| == 2 then Pair(X.MulAlpha(X.Block(w[0], w[1]))) else w
  }

  /** The whitening value of block `j` of a data unit: its number enciphered under the secondary key, then multiplied by
      alpha from block to block. */
  function Tweaked(s: Suite, cipher: nat, ks2: nat, unit: bv64, j: nat): Data {
    if j == 0 then s.encipher(cipher, ks2, [unit, 0]) else TimesAlpha(Tweaked(s, cipher, ks2, unit, j - 1))
  }

  lemma {:induction false} TweakedSize(s: Suite, cipher: nat, ks2: nat, unit: bv64, j: nat)
    requires Invertible(s)
    ensures |Tweaked(s, cipher, ks2, unit, j)| == 2
  {
    if j > 0 {
      TweakedSize(s, cipher, ks2, unit, j - 1);
    }
  }

  lemma {:induction false} TweakIs(info: Info, cipher: nat, ks2: nat, unit: bv64, j: nat)
    requires Invertible(info.suite)
    ensures Pair(X.Tweak(TweakCipher(info, cipher, ks2), unit, j)) == Tweaked(info.suite, cipher, ks2, unit, j)
  {
    hide X.MulAlpha;
    if j > 0 {
      TweakIs(info, cipher, ks2, unit, j - 1);
    } else {
      assert |info.suite.encipher(cipher, ks2, [unit, 0])| == 2;
    }
  }

  /** What is xored into a block before and after the cipher, in either direction. */
  lemma XtsWhitening(info: Info, cipher: nat, ks: nat, ks2: nat, unit: bv64, j: nat)
    requires Invertible(info.suite)
    ensures var p := XtsPass(cipher, ks, ks2);
      && Pre(info, p, InUnit(unit, 0)) == info.suite.encipher(cipher, ks2, [unit, 0])
      && Pre(info, p, InUnit(unit, j + 1)) == TimesAlpha(Pre(info, p, InUnit(unit, j)))
      && Pre(info, p, InUnit(unit, j)) == Tweaked(info.suite, cipher, ks2, unit, j) == Post(info, p, InUnit(unit, j))
  {
    hide Invertible, TweakCipher, X.Tweak, X.MulAlpha;
    TweakIs(info, cipher, ks2, unit, 0);
    TweakIs(info, cipher, ks2, unit, j);
    TweakIs(info, cipher, ks2, unit, j + 1);
  }

  /** One cipher of XTS on block `j` of a unit. */
  ghost function XtsOne(s: Suite, dir: Direction, cipher: nat, ks: nat, ks2: nat, unit: bv64, j: nat, b: Data): (r: Data)
    requires Invertible(s) && |b| == 2
    ensures |r| == 2
  {
    TweakedSize(s, cipher, ks2, unit, j);
    var w := Tweaked(s, cipher, ks2, unit, j);
    var x := Whitened(b, w);
    Whitened(if dir.Encrypt? then s.encipher(cipher, ks, x) else s.decipher(cipher, ks, x), w)
  }

  lemma {:induction false} XtsPlace(info: Info, cipher: nat, ks: nat, ks2: nat, dir: Direction, unit: bv64, d: Data, t: nat)
    requires Times(2, t) <= |d|
    ensures Before(info, XtsPass(cipher, ks, ks2), dir, InUnit(unit, 0), d, t) == InUnit(Advance(unit, t / 32), t % 32)
  {
    hide Step, Final, Times, Advance;
    var p := XtsPass(cipher, ks, ks2);
    TimesNext(2, 0);
    if t == 0 {
      assert d[..0] == [];
      NoneFinal(info, p, dir, InUnit(unit, 0));
      AdvanceNone(unit);
    } else {
      TimesNext(2, t - 1);
      XtsPlace(info, cipher, ks, ks2, dir, unit, d, t - 1);
      RunAt(info, p, dir, InUnit(unit, 0), d, t - 1);
      StepNext(info, p, dir, Before(info, p, dir, InUnit(unit, 0), d, t - 1), At(d, 2, t - 1));
      NextPlace(unit, t - 1);
    }
  }

  lemma NoneFinal(info: Info, p: Pass, dir: Direction, st: State)
    ensures Final(info, p, dir, st, []) == st
  {
  }

  lemma StepNext(info: Info, p: Pass, dir: Direction, st: State, b: Data)
    requires |b| == p.n
    ensures p.tweak.Xts? && st.InUnit? ==> Step(info, p, dir, st, b).1 == Next(p, st, [])
    ensures p.tweak.Lrw? && st.Index? ==> Step(info, p, dir, st, b).1 == Index(Advance(st.i, 1))
  {
    hide Encipher, Decipher, Pre, Post, XorAll, Advance;
  }

  lemma StepIs(info: Info, p: Pass, dir: Direction, st: State, b: Data)
    requires |b| == p.n
    ensures dir.Encrypt? ==> Step(info, p, dir, st, b).0 == XorAll(Cipher(info, p, dir, XorAll(b, Pre(info, p, st))), Post(info, p, st))
    ensures dir.Decrypt? ==> Step(info, p, dir, st, b).0 == XorAll(Cipher(info, p, dir, XorAll(b, Post(info, p, st))), Pre(info, p, st))
  {
    hide Encipher, Decipher, Pre, Post, XorAll, Advance;
  }

  /** What one pass leaves in block `t` of a buffer that begins with data unit `unit`. */
  lemma XtsPassBlock(info: Info, dir: Direction, cipher: nat, ks: nat, ks2: nat, unit: bv64, d: Data, t: nat)
    requires Invertible(info.suite) && Times(2, t) + 2 <= |d|
    ensures At(Run(info, XtsPass(cipher, ks, ks2), dir, InUnit(unit, 0), d), 2, t) ==
      XtsOne(info.suite, dir, cipher, ks, ks2, Advance(unit, t / 32), t % 32, At(d, 2, t))
  {
    hide Run, Step, Before, Pre, Post, XorAll, Cipher, Times, Advance, Tweaked, Whitened, Enciphered, Deciphered;
    var p, b, u, j := XtsPass(cipher, ks, ks2), At(d, 2, t), Advance(unit, t / 32), t % 32;
    RunAt(info, p, dir, InUnit(unit, 0), d, t);
    XtsPlace(info, cipher, ks, ks2, dir, unit, d, t);
    XtsWhitening(info, cipher, ks, ks2, u, j);
    TweakedSize(info.suite, cipher, ks2, u, j);
    StepIs(info, p, dir, InUnit(u, j), b);
    var w := Tweaked(info.suite, cipher, ks2, u, j);
    WhitenedIs(b, w);
    CipherIs(info, p, dir, Whitened(b, w));
    OneOf(info.suite, cipher, ks, Whitened(b, w));
    WhitenedIs(Cipher(info, p, dir, Whitened(b, w)), w);
  }

  lemma OneOf(s: Suite, cipher: nat, ks: nat, b: Data)
    ensures Enciphered(s, [cipher], ks, b) == s.encipher(cipher, ks, b)
    ensures Deciphered(s, [cipher], ks, b) == s.decipher(cipher, ks, b)
  {
    assert [cipher][1..] == [];
    assert Enciphered(s, [], ks + s.ksSize(cipher), s.encipher(cipher, ks, b)) == s.encipher(cipher, ks, b);
    assert Deciphered(s, [], ks + s.ksSize(cipher), b) == b;
  }

  /** All ciphers of an algorithm in XTS mode, each with its own key schedules. */
  ghost function XtsEnciphered(s: Suite, cs: seq<nat>, ks: nat, ks2: nat, unit: bv64, j: nat, b: Data): (r: Data)
    requires Invertible(s) && |b| == 2
    ensures |r| == 2
    decreases |cs|
  {
    if cs == [] then b
    else
      XtsEnciphered(s, cs[1..], ks + s.ksSize(cs[0]), ks2 + s.ksSize(cs[0]), unit, j,
        XtsOne(s, Encrypt, cs[0], ks, ks2, unit, j, b))
  }

  /** The last cipher first. */
  ghost function XtsDeciphered(s: Suite, cs: seq<nat>, ks: nat, ks2: nat, unit: bv64, j: nat, b: Data): (r: Data)
    requires Invertible(s) && |b| == 2
    ensures |r| == 2
    decreases |cs|
  {
    if cs == [] then b
    else
      XtsOne(s, Decrypt, cs[0], ks, ks2, unit, j,
        XtsDeciphered(s, cs[1..], ks + s.ksSize(cs[0]), ks2 + s.ksSize(cs[0]), unit, j, b))
  }

  /** The unit XTS starts from: a buffer is unit 0. */
  function FirstUnit(place: Place): bv64 { if place.Buffer? then 0 else place.u }

  lemma {:induction false} XtsPassesForward(info: Info, place: Place, d: Data, t: nat, k: nat)
    requires Valid(info) && Invertible(info.suite) && info.mode == XTS && Times(2, t) + 2 <= |d| && k <= PassCount(info)
    ensures var s, cs, u := info.suite, CiphersOf(info.ea), Advance(FirstUnit(place), t / 32);
      XtsEnciphered(s, cs, info.ks, info.ks2, u, t % 32, At(d, 2, t)) ==
      XtsEnciphered(s, cs[k..], info.ks + Offset(s, cs, k), info.ks2 + Offset(s, cs, k), u, t % 32,
        At(Passes(info, place, Encrypt, k, d), 2, t))
  {
    hide CiphersOf, Run, OnePass, Invertible, XtsOne, Times, Advance, At;
    var s, cs := info.suite, CiphersOf(info.ea);
    if k == 0 {
      assert cs[0..] == cs;
    } else {
      XtsPassesForward(info, place, d, t, k - 1);
      var before := Passes(info, place, Encrypt, k - 1, d);
      XtsOnePass(info, place, Encrypt, k - 1, before);
      XtsPassBlock(info, Encrypt, cs[k - 1], info.ks + Offset(s, cs, k - 1), info.ks2 + Offset(s, cs, k - 1), FirstUnit(place), before, t);
      assert cs[k - 1..][0] == cs[k - 1] && cs[k - 1..][1..] == cs[k..];
    }
  }

  lemma {:induction false} XtsPassesBackward(info: Info, place: Place, d: Data, t: nat, k: nat)
    requires Valid(info) && Invertible(info.suite) && info.mode == XTS && Times(2, t) + 2 <= |d| && k <= PassCount(info)
    ensures var s, cs, u := info.suite, CiphersOf(info.ea), Advance(FirstUnit(place), t / 32);
      var i := PassCount(info) - k;
      At(Passes(info, place, Decrypt, k, d), 2, t) ==
      XtsDeciphered(s, cs[i..], info.ks + Offset(s, cs, i), info.ks2 + Offset(s, cs, i), u, t % 32, At(d, 2, t))
  {
    hide CiphersOf, Run, OnePass, Invertible, XtsOne, Times, Advance, At;
    var s, cs := info.suite, CiphersOf(info.ea);
    if k > 0 {
      var i := PassCount(info) - k;
      XtsPassesBackward(info, place, d, t, k - 1);
      var before := Passes(info, place, Decrypt, k - 1, d);
      XtsOnePass(info, place, Decrypt, k - 1, before);
      XtsPassBlock(info, Decrypt, cs[i], info.ks + Offset(s, cs, i), info.ks2 + Offset(s, cs, i), FirstUnit(place), before, t);
      assert cs[i..][0] == cs[i] && cs[i..][1..] == cs[i + 1..];
    }
  }

  /** XTS mode: what encryption and decryption leave in block `t` of a buffer, or of data units from `place.u` on. */
  lemma XtsBlocks(info: Info, place: Place, d: Data, t: nat)
    requires Valid(info) && Invertible(info.suite) && info.mode == XTS && Times(2, t) + 2 <= |d|
    ensures var s, cs, u := info.suite, CiphersOf(info.ea), Advance(FirstUnit(place), t / 32);
      && At(Crypt(info, place, Encrypt, d), 2, t) == XtsEnciphered(s, cs, info.ks, info.ks2, u, t % 32, At(d, 2, t))
      && At(Crypt(info, place, Decrypt, d), 2, t) == XtsDeciphered(s, cs, info.ks, info.ks2, u, t % 32, At(d, 2, t))
  {
    hide CiphersOf, Passes, Invertible, XtsOne, XtsDeciphered, XtsEnciphered, Times, Advance, Valid, At;
    SupportedIsValid(info);
    var s, cs, u := info.suite, CiphersOf(info.ea), Advance(FirstUnit(place), t / 32);
    var n := |cs|;
    XtsPassesForward(info, place, d, t, n);
    XtsPassesBackward(info, place, d, t, n);
    XtsNone(s, cs, info.ks + Offset(s, cs, n), info.ks2 + Offset(s, cs, n), u, t % 32, At(Passes(info, place, Encrypt, n, d), 2, t));
    assert cs[n..] == [] && cs[0..] == cs;
  }

  lemma XtsNone(s: Suite, cs: seq<nat>, ks: nat, ks2: nat, unit: bv64, j: nat, b: Data)
    requires Invertible(s) && |b| == 2
    ensures XtsEnciphered(s, [], ks, ks2, unit, j, b) == b && Offset(s, cs, 0) == 0
  {
  }

  // ----- LRW -----

  /** Through the cascade between two whitenings. */
  ghost function Masked(s: Suite, dir: Direction, cs: seq<nat>, ks: nat, before: Data, after: Data, b: Data): (r: Data)
    requires Invertible(s) && |b| == |before| == |after|
    ensures |r| == |b|
  {
    var x := Whitened(b, before);
    Sizes(s, cs, ks, x);
    Whitened(if dir.Encrypt? then Enciphered(s, cs, ks, x) else Deciphered(s, cs, ks, x), after)
  }

  lemma MaskedIs(info: Info, p: Pass, dir: Direction, st: State, b: Data)
    requires Invertible(info.suite) && |b| == p.n
    ensures dir.Encrypt? ==> Step(info, p, dir, st, b).0 == Masked(info.suite, dir, p.cs, p.ks, Pre(info, p, st), Post(info, p, st), b)
    ensures dir.Decrypt? ==> Step(info, p, dir, st, b).0 == Masked(info.suite, dir, p.cs, p.ks, Post(info, p, st), Pre(info, p, st), b)
  {
    hide Step, Pre, Post, XorAll, Cipher, Whitened, Enciphered, Deciphered, Invertible;
    StepIs(info, p, dir, st, b);
    var v, w := if dir.Encrypt? then Pre(info, p, st) else Post(info, p, st), if dir.Encrypt? then Post(info, p, st) else Pre(info, p, st);
    WhitenedIs(b, v);
    var x := Whitened(b, v);
    CipherIs(info, p, dir, x);
    WhitenedIs(Cipher(info, p, dir, x), w);
  }

  lemma {:induction false} LrwPlace(info: Info, p: Pass, dir: Direction, i: bv64, d: Data, t: nat)
    requires p.tweak.Lrw? && (p.n == 1 || p.n == 2) && Times(p.n, t) <= |d|
    ensures Before(info, p, dir, Index(i), d, t) == Index(Advance(i, t))
  {
    hide Step, Final, Times, Advance;
    TimesNext(p.n, 0);
    if t == 0 {
      assert d[..0] == [];
      NoneFinal(info, p, dir, Index(i));
      AdvanceNone(i);
    } else {
      TimesNext(p.n, t - 1);
      LrwPlace(info, p, dir, i, d, t - 1);
      RunAt(info, p, dir, Index(i), d, t - 1);
      StepNext(info, p, dir, Index(Advance(i, t - 1)), At(d, p.n, t - 1));
      AdvanceAdd(i, t - 1, 1);
    }
  }

  /** The index of the first block: 1 in a buffer, else 32 (or 64) for every unit behind the origin, and 1. */
  function FirstIndex(info: Info, place: Place, n: nat): bv64 {
    if place.Buffer? then 1 else DataUnit2LRWIndex(place.u, n, info)
  }

  /** LRW mode: block `t` is whitened before and after the cascade with the product for its index. */
  lemma LrwBlocks(info: Info, place: Place, dir: Direction, d: Data, t: nat)
    requires Valid(info) && Invertible(info.suite) && info.mode == LRW
    requires var n := BlockWords(CiphersOf(info.ea)[0]);
      Times(n, t) + n <= |d| && |info.lrw(Advance(FirstIndex(info, place, n), t))| == n
    ensures var n := BlockWords(CiphersOf(info.ea)[0]);
      var w := info.lrw(Advance(FirstIndex(info, place, n), t));
      At(Crypt(info, place, dir, d), n, t) == Masked(info.suite, dir, CiphersOf(info.ea), info.ks, w, w, At(d, n, t))
  {
    hide CiphersOf, Run, Before, Times, Advance, At, DataUnit2LRWIndex, Step, Masked, Invertible;
    OnlyPass(info, place, dir, d);
    var p, st := PassAt(info, place, 0), StartAt(info, place, 0);
    RunAt(info, p, dir, st, d, t);
    LrwPlace(info, p, dir, st.i, d, t);
    MaskedIs(info, p, dir, Index(Advance(st.i, t)), At(d, p.n, t));
  }

  // ----- CBC -----

  /** The ciphertext block that block `t` is chained to. */
  function Chained(iv: Data, c: Data, w: Data, n: nat, t: nat): (r: Data)
    requires |iv| == |w| == n && Times(n, t) <= |c|
    ensures |r| == n
  {
    if t == 0 then iv else TimesNext(n, t - 1); Whitened(At(c, n, t - 1), w)
  }

  function Same(n: nat, w: bv64): (r: Data)
    ensures |r| == n
  {
    seq(n, _ => w)
  }

  lemma CbcWhitens(info: Info, p: Pass, st: State)
    requires p.tweak.Cbc? && st.After? && |st.block| == p.n
    ensures Pre(info, p, st) == st.block && Post(info, p, st) == Same(p.n, p.tweak.whitening)
  {
  }

  lemma WhitenedTwice(b: Data, w: Data)
    requires |b| == |w|
    ensures Whitened(Whitened(b, w), w) == b
  {
    forall i | 0 <= i < |b|
      ensures Whitened(Whitened(b, w), w)[i] == b[i]
    {
      Twice(b[i], w[i]);
    }
  }

  lemma Twice(a: bv64, b: bv64)
    ensures (a ^ b) ^ b == a
  {
  }

  /** What goes on to the next block is the block of ciphertext without its whitening. */
  lemma CbcNext(info: Info, p: Pass, dir: Direction, st: State, b: Data)
    requires p.tweak.Cbc? && |b| == p.n
    ensures Step(info, p, dir, st, b).1 ==
      After(Whitened(if dir.Encrypt? then Step(info, p, dir, st, b).0 else b, Same(p.n, p.tweak.whitening)))
  {
    hide Encipher, Decipher, Pre, XorAll, Whitened;
    var w := Same(p.n, p.tweak.whitening);
    assert Post(info, p, st) == w;
    if dir.Encrypt? {
      var c := Encipher(info, p, XorAll(b, Pre(info, p, st)));
      WhitenedIs(c, w);
      WhitenedTwice(c, w);
    } else {
      WhitenedIs(b, w);
    }
  }

  lemma {:induction false} CbcPlace(info: Info, p: Pass, dir: Direction, iv: Data, d: Data, t: nat)
    requires p.tweak.Cbc? && |iv| == p.n && (p.n == 1 || p.n == 2) && Times(p.n, t) <= |d|
    ensures var c := if dir.Encrypt? then Run(info, p, dir, After(iv), d) else d;
      Before(info, p, dir, After(iv), d, t) == After(Chained(iv, c, Same(p.n, p.tweak.whitening), p.n, t))
  {
    hide Step, Final, Times, Run, Whitened, At;
    TimesNext(p.n, 0);
    if t == 0 {
      assert d[..0] == [];
      NoneFinal(info, p, dir, After(iv));
    } else {
      TimesNext(p.n, t - 1);
      RunAt(info, p, dir, After(iv), d, t - 1);
      CbcNext(info, p, dir, Before(info, p, dir, After(iv), d, t - 1), At(d, p.n, t - 1));
    }
  }

  /** A CBC pass: block `t` of the ciphertext is the plaintext block xored with the ciphertext block before it (first the
      IV), through the cascade, and whitened; chaining takes the ciphertext without its whitening. */
  lemma CbcRunBlock(info: Info, p: Pass, dir: Direction, iv: Data, d: Data, t: nat)
    requires Invertible(info.suite) && p.tweak.Cbc? && |iv| == p.n && (p.n == 1 || p.n == 2) && Times(p.n, t) + p.n <= |d|
    ensures var e, w := Run(info, p, dir, After(iv), d), Same(p.n, p.tweak.whitening);
      At(e, p.n, t) ==
        if dir.Encrypt? then Masked(info.suite, dir, p.cs, p.ks, Chained(iv, e, w, p.n, t), w, At(d, p.n, t))
        else Masked(info.suite, dir, p.cs, p.ks, w, Chained(iv, d, w, p.n, t), At(d, p.n, t))
  {
    hide Step, Before, Times, Run, Masked, At, Invertible, Chained;
    RunAt(info, p, dir, After(iv), d, t);
    CbcPlace(info, p, dir, iv, d, t);
    var st := Before(info, p, dir, After(iv), d, t);
    CbcWhitens(info, p, st);
    MaskedIs(info, p, dir, st, At(d, p.n, t));
  }

  /** The cipher or cascade of CBC pass `i`, and its key schedules. */
  function CbcCiphers(info: Info, i: nat): seq<nat>
    requires Valid(info) && i < PassCount(info)
  {
    if info.mode == OUTER_CBC then CiphersOf(info.ea) else [CiphersOf(info.ea)[i]]
  }

  function CbcSchedule(info: Info, i: nat): nat
    requires Valid(info) && i < PassCount(info)
  {
    if info.mode == OUTER_CBC then info.ks else info.ks + Offset(info.suite, CiphersOf(info.ea), i)
  }

  /** CBC, outer CBC and inner CBC: every pass, block by block.  Inner CBC makes one pass for each cipher, outer CBC one for
      the whole cascade; decryption makes them in reverse. */
  lemma CbcBlocks(info: Info, place: Place, dir: Direction, k: nat, d: Data, t: nat)
    requires Valid(info) && Invertible(info.suite) && info.mode in {CBC, OUTER_CBC, INNER_CBC} && k < PassCount(info)
    requires var n := BlockWords(CbcCiphers(info, Turn(info, dir, k))[0]); Times(n, t) + n <= |d|
    ensures var i := Turn(info, dir, k);
      var cs, ks := CbcCiphers(info, i), CbcSchedule(info, i);
      var n := BlockWords(cs[0]);
      var e, iv, w := OnePass(info, place, dir, k, d), CbcIv(info, place, n), Same(n, CbcWhitening(info, place, n));
      At(e, n, t) ==
        if dir.Encrypt? then Masked(info.suite, dir, cs, ks, Chained(iv, e, w, n, t), w, At(d, n, t))
        else Masked(info.suite, dir, cs, ks, w, Chained(iv, d, w, n, t), At(d, n, t))
  {
    hide CiphersOf, Run, CbcIv, CbcWhitening, Masked, Chained, At, Times, Invertible, Valid;
    var i := Turn(info, dir, k);
    CbcRunBlock(info, PassAt(info, place, i), dir, CbcIv(info, place, PassAt(info, place, i).n), d, t);
  }

  lemma Halves(a: bv32, b: bv32)
    ensures Low(Join(a, b)) == a && High(Join(a, b)) == b
  {
    HalvesOf(a as bv64, b as bv64);
    assert Low(Join(a, b)) == (a as bv64) as bv32;
    assert High(Join(a, b)) == (b as bv64) as bv32;
  }

  lemma HalvesOf(a: bv64, b: bv64)
    requires a <= 0xffff_ffff && b <= 0xffff_ffff
    ensures ((b << 32) | a) & 0xffff_ffff == a && ((b << 32) | a) >> 32 == b
  {
  }

  /** 64-bit and 32-bit word `k` of the IV seed of a data unit. */
  function SeedWord(info: Info, u: bv64, k: nat): bv64
    requires k < |info.k2|
  {
    info.k2[k] ^ u
  }

  function SeedHalf(info: Info, u: bv64, k: nat): bv32
    requires k < 8 && |info.k2| >= 4
  {
    if k % 2 == 0 then Low(SeedWord(info, u, k / 2)) else High(SeedWord(info, u, k / 2))
  }

  lemma SeedWordIs(info: Info, u: bv64, k: nat)
    requires k < |info.k2|
    ensures Seed(info, u, k) == SeedWord(info, u, k)
  {
  }

  function CrcOf(w: bv32): bv32 { Crc.Crc32(Crc.BytesOf(w)) }

  /** The IV of a data unit is the seed xored with its number; of a buffer, the seed itself. */
  lemma CbcIvIs(info: Info, place: Place, n: nat, i: nat)
    requires i < n <= |info.k2|
    ensures CbcIv(info, place, n)[i] == if place.Buffer? then info.k2[i] else SeedWord(info, place.u, i)
  {
  }

  lemma WhiteningIs(a: bv64, b: bv64)
    ensures Low(Whitening(a, b)) == Crc.Xor(CrcOf(Low(a)), CrcOf(High(b)))
    ensures High(Whitening(a, b)) == Crc.Xor(CrcOf(High(a)), CrcOf(Low(b)))
  {
    hide Low, High, Join, Crc.Crc32Int, Crc.Crc32, Crc.BytesOf, Crc.Xor;
    Crc.Crc32IntIsCrc(Low(a));
    Crc.Crc32IntIsCrc(High(a));
    Crc.Crc32IntIsCrc(Low(b));
    Crc.Crc32IntIsCrc(High(b));
    Halves(Crc.Xor(CrcOf(Low(a)), CrcOf(High(b))), Crc.Xor(CrcOf(High(a)), CrcOf(Low(b))));
  }

  lemma SeedHalfIs(info: Info, u: bv64, i: nat)
    requires i < 4 && |info.k2| >= 4
    ensures SeedHalf(info, u, 2 * i) == Low(Seed(info, u, i)) && SeedHalf(info, u, 2 * i + 1) == High(Seed(info, u, i))
  {
    hide Low, High, SeedWord, Seed;
    SeedWordIs(info, u, i);
  }

  /** Both whitening words: for 16-byte blocks from seed words 4 to 7, for 8-byte blocks from words 2 to 5. */
  lemma CbcWhiteningIs(info: Info, u: bv64, n: nat)
    requires (n == 1 || n == 2) && |info.k2| >= 4
    ensures var w := CbcWhitening(info, Unit(u), n);
      var k := if n == 2 then 4 else 2;
      && Low(w) == Crc.Xor(CrcOf(SeedHalf(info, u, k)), CrcOf(SeedHalf(info, u, k + 3)))
      && High(w) == Crc.Xor(CrcOf(SeedHalf(info, u, k + 1)), CrcOf(SeedHalf(info, u, k + 2)))
    ensures CbcWhitening(info, Buffer, n) == info.k2[1]
  {
    hide Low, High, CrcOf, Whitening, SeedHalf, Seed, Crc.Xor;
    var i := if n == 2 then 2 else 1;
    SeedHalfIs(info, u, i);
    SeedHalfIs(info, u, i + 1);
    WhiteningIs(Seed(info, u, i), Seed(info, u, i + 1));
  }

  // ----- Where LRW indices start -----

  lemma {:induction false} RetreatBack(u: bv64, n: nat)
    ensures Retreat(Advance(u, n), n) == u
  {
    hide Up, Down, Advance;
    AdvanceNext(u, 0);
    if n > 0 {
      RetreatBack(u, n - 1);
      AdvanceNext(u, n - 1);
      RetreatUp(Advance(u, n - 1), n - 1);
      UpDown(Retreat(Advance(u, n - 1), n - 1));
    }
  }

  lemma RetreatUp(x: bv64, n: nat)
    ensures Retreat(Up(x), n) == Up(Retreat(x, n))
  {
    hide Up, Down, Retreat, Advance;
    AdvanceNext(x, 0);
    AdvanceNext(Retreat(x, n), 0);
    RetreatNext(x, n);
  }

  lemma {:induction false} UnitIndex(info: Info, first: bv64, n: nat, i: nat)
    requires n == 1 || n == 2
    requires DataUnit2LRWIndex(first, n, info) == 1
    ensures DataUnit2LRWIndex(Advance(first, i), n, info) == Advance(1, i * (WORDS_PER_UNIT / n))
  {
    hide DataUnit2LRWIndex, Advance;
    if i == 0 {
      AdvanceNone(first);
      AdvanceNone(1);
    } else {
      UnitIndex(info, first, n, i - 1);
      AdvanceAdd(first, i - 1, 1);
      LrwIndexAdvances(info, Advance(first, i - 1), n);
      AdvanceAdd(1, (i - 1) * (WORDS_PER_UNIT / n), WORDS_PER_UNIT / n);
      assert (i - 1) * (WORDS_PER_UNIT / n) + WORDS_PER_UNIT / n == i * (WORDS_PER_UNIT / n);
    }
  }

  lemma FirstOfVolume(n: nat)
    requires n == 1 || n == 2
    ensures BlockNo(0, n, 1) == 1
  {
  }

  /** LRW indices count the blocks from 1: in a normal volume from its second unit on, behind a header of 512 bytes, in
      a hidden volume from the unit where it starts. */
  lemma LrwCountsFrom(info: Info, n: nat, i: nat)
    requires n == 1 || n == 2
    ensures var first := Advance(0, if info.hiddenVolume then info.hiddenVolumeOffset / 512 else 1);
      DataUnit2LRWIndex(Advance(first, i), n, info) == Advance(1, i * (WORDS_PER_UNIT / n))
  {
    hide Advance, BlockNo, Retreat;
    var m := if info.hiddenVolume then info.hiddenVolumeOffset / 512 else 1;
    RetreatBack(0, m);
    FirstOfVolume(n);
    UnitIndex(info, Advance(0, m), n, i);
  }

  // ----- Data units -----

  /** Of a run of data units, each is processed under its own number. */
  lemma {:induction false} UnitsAt(info: Info, u: bv64, dir: Direction, d: Data, i: nat)
    requires Valid(info) && |d| % WORDS_PER_UNIT == 0 && Times(WORDS_PER_UNIT, i) + WORDS_PER_UNIT <= |d|
    ensures At(UnitsCrypt(info, u, dir, d), WORDS_PER_UNIT, i) == Crypt(info, Unit(Advance(u, i)), dir, At(d, WORDS_PER_UNIT, i))
    decreases i
  {
    hide Passes, PassCount, Valid, Advance, Times;
    var n := WORDS_PER_UNIT;
    var a, b := d[..n], d[n..];
    var a', b' := Crypt(info, Unit(u), dir, a), UnitsCrypt(info, Advance(u, 1), dir, b);
    assert UnitsCrypt(info, u, dir, d) == a' + b';
    TimesNext(n, 0);
    if i == 0 {
      AdvanceNone(u);
    } else {
      TimesNext(n, i - 1);
      UnitsAt(info, Advance(u, 1), dir, b, i - 1);
      AdvanceAdd(u, 1, i - 1);
      var k := Times(n, i - 1);
      assert (a' + b')[n + k..n + k + n] == b'[k..k + n] && d[n + k..n + k + n] == b[k..k + n];
    }
  }
}
