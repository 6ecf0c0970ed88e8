// The buffer routines of Crypto.c, in place on an array of words.
module CryptoBuffers {
  import opened Words
  import opened CryptoSuite
  import opened CryptoModes
  import opened CryptoUnits
  import X = XtsSpec

  /** `x` has replaced as many words from `p` on. */
  ghost predicate Spliced(s0: Data, s: Data, p: nat, x: Data) {
    p + |x| <= |s0| && s == s0[..p] + x + s0[p + |x|..]
  }

  /** Words `from` to `p` - 1 of a run that ends at `to` are done; the state there is `st`. */
  ghost predicate InPlace(s0: Data, s: Data, from: nat, p: nat, to: nat, info: Info, pass: Pass, dir: Direction, st0: State, st: State) {
    && |s| == |s0| && from <= p <= to <= |s|
    && s[..from] == s0[..from] && s[p..] == s0[p..]
    && s[from..p] + Run(info, pass, dir, st, s0[p..to]) == Run(info, pass, dir, st0, s0[from..to])
  }

  lemma InPlaceBegin(s: Data, from: nat, to: nat, info: Info, pass: Pass, dir: Direction, st: State)
    requires from <= to <= |s|
    ensures InPlace(s, s, from, from, to, info, pass, dir, st, st)
  {
    hide Run;
    assert s[from..from] == [];
  }

  lemma InPlaceStep(s0: Data, s: Data, s': Data, from: nat, p: nat, to: nat, info: Info, pass: Pass, dir: Direction,
                    st0: State, st: State, b: Data, st': State)
    requires InPlace(s0, s, from, p, to, info, pass, dir, st0, st) && pass.n > 0 && p + pass.n <= to
    requires (b, st') == Step(info, pass, dir, st, s0[p..p + pass.n]) && Spliced(s, s', p, b)
    ensures InPlace(s0, s', from, p + pass.n, to, info, pass, dir, st0, st')
  {
    hide Step;
    var rest := s0[p..to];
    assert rest[..pass.n] == s0[p..p + pass.n] && rest[pass.n..] == s0[p + pass.n..to];
    assert Run(info, pass, dir, st, rest) == b + Run(info, pass, dir, st', rest[pass.n..]);
    assert s'[from..p + pass.n] == s[from..p] + b;
  }

  lemma InPlaceEnd(s0: Data, s: Data, from: nat, to: nat, info: Info, pass: Pass, dir: Direction, st0: State, st: State)
    requires InPlace(s0, s, from, to, to, info, pass, dir, st0, st)
    ensures Spliced(s0, s, from, Run(info, pass, dir, st0, s0[from..to]))
  {
    assert s0[to..to] == [];
    assert s == s[..from] + s[from..to] + s[to..];
  }

  /** The words at `p` are replaced by those of `b`. */
  method Store(buf: array<bv64>, p: nat, b: Data)
    requires p + |b| <= buf.Length
    modifies buf
    ensures Spliced(old(buf[..]), buf[..], p, b)
  {
    for k := 0 to |b|
      invariant buf[..p] == old(buf[..p]) && buf[p..p + k] == b[..k] && buf[p + k..] == old(buf[p + k..])
    {
      buf[p + k] := b[k];
      assert buf[p..p + k + 1] == buf[p..p + k] + [b[k]];
    }
    assert buf[..] == buf[..p] + buf[p..p + |b|] + buf[p + |b|..];
  }

  /** Xor words into the buffer at `p`. */
  method XorInto(buf: array<bv64>, p: nat, w: Data)
    requires p + |w| <= buf.Length
    modifies buf
    ensures Spliced(old(buf[..]), buf[..], p, XorAll(old(buf[p..p + |w|]), w))
  {
    hide X.XorWord;
    for k := 0 to |w|
      invariant buf[..p] == old(buf[..p]) && buf[p + k..] == old(buf[p + k..])
      invariant forall i :: 0 <= i < k ==> buf[p + i] == X.XorWord(old(buf[p + i]), w[i])
    {
      buf[p + k] := X.XorWord(buf[p + k], w[k]);
    }
    assert buf[p..p + |w|] == XorAll(old(buf[p..p + |w|]), w);
    assert buf[..] == buf[..p] + buf[p..p + |w|] + buf[p + |w|..];
  }

  // ----- CBC -----

  /** The pass of EncryptBufferCBC and DecryptBufferCBC: the cascade `ea` (outer CBC), or one cipher if `ea` is 0. */
  function CbcPass(ea: nat, cipher: nat, ks: nat, whitening: bv64): Pass
    requires ea == 0 || (ValidEa(ea) && CiphersOf(ea) != [])
  {
    if ea != 0 then Pass(BlockWords(CiphersOf(ea)[0]), CiphersOf(ea), ks, Cbc(whitening))
    else Pass(BlockWords(cipher), [cipher], ks, Cbc(whitening))
  }

  lemma OneCipher(s: Suite, c: nat, ks: nat, b: Data)
    ensures Forward(s, [c], ks, 0, b) == s.encipher(c, ks, b)
    ensures Backward(s, [c], ks, 1, b) == s.decipher(c, ks, b)
  {
    assert Offset(s, [c], 0) == 0;
    assert Forward(s, [c], ks, 1, s.encipher(c, ks, b)) == s.encipher(c, ks, b);
    assert Backward(s, [c], ks, 0, s.decipher(c, ks, b)) == s.decipher(c, ks, b);
  }

  /** The ciphers of a pass on one block. */
  method ApplyCiphers(info: Info, ea: nat, cipher: nat, ks: nat, dir: Direction, block: Data, ghost p: Pass) returns (b: Data)
    requires Invertible(info.suite) && (ea != 0 ==> ValidEa(ea)) && |block| == p.n && p.ks == ks
    requires p.cs == if ea != 0 then CiphersOf(ea) else [cipher]
    ensures b == if dir.Encrypt? then Encipher(info, p, block) else Decipher(info, p, block)
  {
    hide CiphersOf;
    CascadeUndone(info.suite, p.cs, ks, 0, block);
    BackwardSize(info.suite, p.cs, ks, |p.cs|, block);
    OneCipher(info.suite, cipher, ks, block);
    if ea != 0 {
      if dir.Encrypt? {
        b := EncipherCascade(info.suite, ea, ks, block);
      } else {
        b := DecipherCascade(info.suite, ea, ks, block);
      }
    } else {
      b := if dir.Encrypt? then info.suite.encipher(cipher, ks, block) else info.suite.decipher(cipher, ks, block);
    }
  }

  function Cipher(info: Info, p: Pass, dir: Direction, b: Data): (r: Data)
    ensures |r| == p.n
  {
    if dir.Encrypt? then Encipher(info, p, b) else Decipher(info, p, b)
  }

  lemma SpliceTwice(s0: Data, s1: Data, s2: Data, p: nat, x: Data, y: Data)
    requires Spliced(s0, s1, p, x) && Spliced(s1, s2, p, y) && |x| == |y|
    ensures Spliced(s0, s2, p, y) && |s1| == |s0| && s1[p..p + |x|] == x
  {
  }

  lemma SpliceSize(s0: Data, s1: Data, p: nat, x: Data)
    requires Spliced(s0, s1, p, x)
    ensures |s1| == |s0| && p + |x| <= |s1| && s1[p..p + |x|] == x
  {
  }

  /** One block: xor, ciphers, xor; with what went into the ciphers and what came out. */
  method CryptBlock(info: Info, buf: array<bv64>, at: nat, n: nat, first: Data, last: Data, ks: nat, ea: nat, cipher: nat,
                    dir: Direction, ghost p: Pass) returns (before: Data, after: Data)
    requires Invertible(info.suite) && (ea != 0 ==> ValidEa(ea)) && p.ks == ks && n == p.n
    requires p.cs == if ea != 0 then CiphersOf(ea) else [cipher]
    requires |first| == |last| == n && at + n <= buf.Length
    modifies buf
    ensures before == XorAll(old(buf[at..at + n]), first) && after == Cipher(info, p, dir, before)
    ensures Spliced(old(buf[..]), buf[..], at, XorAll(after, last))
  {
    hide CiphersOf, Encipher, Decipher, Invertible, XorAll, Spliced;
    ghost var s0 := buf[..];
    ghost var b := buf[at..at + n];
    XorInto(buf, at, first);
    ghost var s1 := buf[..];
    SpliceSize(s0, s1, at, XorAll(b, first));
    before := buf[at..at + n];
    assert before == s1[at..at + n];
    after := ApplyCiphers(info, ea, cipher, ks, dir, before, p);
    Store(buf, at, after);
    ghost var s2 := buf[..];
    SpliceTwice(s0, s1, s2, at, before, after);
    SpliceSize(s1, s2, at, after);
    assert buf[at..at + n] == s2[at..at + n];
    XorInto(buf, at, last);
    SpliceTwice(s0, s2, buf[..], at, after, XorAll(after, last));
  }

  /** What a block of a CBC pass comes to. */
  lemma StepCbc(info: Info, p: Pass, dir: Direction, iv: Data, b: Data)
    requires p.tweak.Cbc? && |iv| == p.n && |b| == p.n
    ensures var w := seq(p.n, _ => p.tweak.whitening);
      Step(info, p, dir, After(iv), b) ==
        if dir.Encrypt? then
          var c := Encipher(info, p, XorAll(b, iv));
          (XorAll(c, w), After(c))
        else
          var c := XorAll(b, w);
          (XorAll(Decipher(info, p, c), iv), After(c))
  {
    hide XorAll, Encipher, Decipher;
  }

  /** EncryptBufferCBC, DecryptBufferCBC */
  method BufferCBC(info: Info, dir: Direction, buf: array<bv64>, from: nat, to: nat, ks: nat, iv: Data, whitening: bv64, ea: nat, cipher: nat)
    requires Invertible(info.suite) && (ea == 0 || (ValidEa(ea) && CiphersOf(ea) != []))
    requires from <= to <= buf.Length && Whole(CbcPass(ea, cipher, ks, whitening).n, to - from)
    requires |iv| == CbcPass(ea, cipher, ks, whitening).n
    modifies buf
    ensures Spliced(old(buf[..]), buf[..], from,
      Run(info, CbcPass(ea, cipher, ks, whitening), dir, After(iv), old(buf[from..to])))
  {
    hide CiphersOf, InPlace, Step, Run, Invertible, Spliced, Encipher, Decipher, XorAll;
    ghost var p := CbcPass(ea, cipher, ks, whitening);
    var first := cipher;
    if ea != 0 {
      first := EAGetFirstCipher(ea);
    }
    var n := BlockWords(first);
    var bufIV := iv;
    var at := from;
    ghost var s0 := buf[..];
    InPlaceBegin(s0, from, to, info, p, dir, After(iv));
    while at < to
      invariant from <= at <= to && Whole(n, to - at)
      invariant |bufIV| == n
      invariant InPlace(s0, buf[..], from, at, to, info, p, dir, After(iv), After(bufIV))
    {
      ghost var s := buf[..];
      ghost var st := After(bufIV);
      Untouched(s0, s, from, at, to, info, p, dir, After(iv), st, n);
      StepCbc(info, p, dir, bufIV, s0[at..at + n]);
      var white := seq(n, _ => whitening);
      if dir.Encrypt? {
        var _, c := CryptBlock(info, buf, at, n, bufIV, white, ks, ea, cipher, dir, p);
        bufIV := c;
      } else {
        var c, _ := CryptBlock(info, buf, at, n, white, bufIV, ks, ea, cipher, dir, p);
        bufIV := c;
      }
      ghost var r := Step(info, p, dir, st, s0[at..at + n]);
      InPlaceStep(s0, s, buf[..], from, at, to, info, p, dir, After(iv), st, r.0, r.1);
      at := at + n;
    }
    InPlaceEnd(s0, buf[..], from, to, info, p, dir, After(iv), After(bufIV));
  }

  lemma Untouched(s0: Data, s: Data, from: nat, at: nat, to: nat, info: Info, p: Pass, dir: Direction, st0: State, st: State, n: nat)
    requires InPlace(s0, s, from, at, to, info, p, dir, st0, st) && at + n <= to
    ensures |s| == |s0| && s[at..at + n] == s0[at..at + n]
  {
    assert s[at..at + n] == s[at..][..n] && s0[at..at + n] == s0[at..][..n];
  }
}
