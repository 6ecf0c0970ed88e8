// Every mode splits at data-unit boundaries.
module CryptoUnits {
  import opened Words
  import opened CryptoSuite
  import opened CryptoModes
  import ThreadPool
  import X = XtsSpec

  /** The first `k` passes over each data unit on its own, the units numbered from `u`. */
  function UnitPasses(info: Info, u: bv64, dir: Direction, k: nat, d: Data): (r: Data)
    requires Valid(info) && k <= PassCount(info)
    ensures |r| == |d|
    decreases |d|
  {
    if |d| < WORDS_PER_UNIT then d
    else
      Passes(info, Unit(u), dir, k, d[..WORDS_PER_UNIT]) + UnitPasses(info, Advance(u, 1), dir, k, d[WORDS_PER_UNIT..])
  }

  /** Every data unit encrypted (decrypted) on its own. */
  function UnitsCrypt(info: Info, u: bv64, dir: Direction, d: Data): (r: Data)
    requires Valid(info)
    ensures |r| == |d|
  {
    UnitPasses(info, u, dir, PassCount(info), d)
  }

  // ----- What a unit leaves behind -----

  lemma {:induction false} FinalLrw(info: Info, p: Pass, dir: Direction, i: bv64, d: Data, m: nat)
    requires p.tweak.Lrw? && (p.n == 1 || p.n == 2) && |d| == p.n * m
    ensures Final(info, p, dir, Index(i), d) == Index(Advance(i, m))
    decreases m
  {
    hide Advance, Encipher, Decipher, Pre, Post, XorAll;
    if m == 0 {
      AdvanceNone(i);
    } else {
      assert Step(info, p, dir, Index(i), d[..p.n]).1 == Index(Advance(i, 1));
      FinalLrw(info, p, dir, Advance(i, 1), d[p.n..], m - 1);
      AdvanceAdd(i, 1, m - 1);
    }
  }

  lemma AdvanceNone(i: bv64)
    ensures Advance(i, 0) == i
  {
  }

  lemma {:induction false} FinalXts(info: Info, p: Pass, dir: Direction, u: bv64, j: nat, d: Data)
    requires p.tweak.Xts? && p.n == 2 && j < X.BLOCKS_PER_UNIT && |d| == 2 * (X.BLOCKS_PER_UNIT - j)
    ensures Final(info, p, dir, InUnit(u, j), d) == InUnit(Advance(u, 1), 0)
    decreases |d|
  {
    hide Advance, Encipher, Decipher, Pre, Post, XorAll;
    var st := Step(info, p, dir, InUnit(u, j), d[..2]).1;
    assert st == if j + 1 == X.BLOCKS_PER_UNIT then InUnit(Advance(u, 1), 0) else InUnit(u, j + 1);
    assert Final(info, p, dir, InUnit(u, j), d) == Final(info, p, dir, st, d[2..]);
    if j + 1 < X.BLOCKS_PER_UNIT {
      FinalXts(info, p, dir, u, j + 1, d[2..]);
    } else {
      assert Final(info, p, dir, st, d[2..]) == st;
    }
  }

  function Up(x: bv64): bv64 { x + 1 }

  lemma AdvanceNext(i: bv64, n: nat)
    ensures Advance(i, n + 1) == Up(Advance(i, n)) && Advance(i, 0) == i
  {
  }

  lemma UpDown(x: bv64)
    ensures Down(Up(x)) == x
  {
  }

  lemma DownUp(x: bv64)
    ensures Up(Down(x)) == x
  {
  }

  lemma {:induction false} RetreatNext(u: bv64, n: nat)
    ensures Retreat(Advance(u, 1), n) == Advance(Retreat(u, n), 1)
  {
    hide Advance, Up, Down;
    AdvanceNext(u, 0);
    AdvanceNext(Retreat(u, n), 0);
    if n > 0 {
      RetreatNext(u, n - 1);
      AdvanceNext(Retreat(u, n - 1), 0);
      UpDown(Retreat(u, n - 1));
      DownUp(Retreat(u, n - 1));
    }
  }

  lemma NextIn32(x: bv64, c: bv64)
    requires c < 31
    ensures Up(In32(x, c)) == In32(x, c + 1)
  {
  }

  lemma LastIn32(x: bv64)
    ensures Up(In32(x, 31)) == In32(Up(x), 0)
  {
  }

  lemma NextIn64(x: bv64, c: bv64)
    requires c < 63
    ensures Up(In64(x, c)) == In64(x, c + 1)
  {
  }

  lemma LastIn64(x: bv64)
    ensures Up(In64(x, 63)) == In64(Up(x), 0)
  {
  }

  lemma NextBlockNo(x: bv64, n: nat, c: bv64)
    requires n == 1 || n == 2
    ensures c < (if n == 2 then 31 else 63) ==> Up(BlockNo(x, n, c)) == BlockNo(x, n, c + 1)
    ensures c == (if n == 2 then 31 else 63) ==> Up(BlockNo(x, n, c)) == BlockNo(Up(x), n, 0)
  {
    hide Up, In32, In64;
    if n == 2 {
      if c < 31 { NextIn32(x, c); }
      LastIn32(x);
    } else {
      if c < 63 { NextIn64(x, c); }
      LastIn64(x);
    }
  }

  lemma NextBlocks(x: bv64, n: nat, c: bv64, k: nat, i: bv64)
    requires (n == 1 || n == 2) && c < (if n == 2 then 31 else 63) && Advance(i, k) == BlockNo(x, n, c)
    ensures Advance(i, k + 1) == BlockNo(x, n, c + 1)
  {
    hide Advance, BlockNo, Up;
    AdvanceNext(i, k);
    NextBlockNo(x, n, c);
  }

  lemma Six(x: bv64, n: nat, c: bv64, k: nat, i: bv64)
    requires (n == 1 || n == 2) && c < (if n == 2 then 26 else 58) && Advance(i, k) == BlockNo(x, n, c)
    ensures Advance(i, k + 6) == BlockNo(x, n, c + 6)
  {
    hide Advance, BlockNo, Up;
    NextBlocks(x, n, c, k, i);
    NextBlocks(x, n, c + 1, k + 1, i);
    NextBlocks(x, n, c + 2, k + 2, i);
    NextBlocks(x, n, c + 3, k + 3, i);
    NextBlocks(x, n, c + 4, k + 4, i);
    NextBlocks(x, n, c + 5, k + 5, i);
  }

  lemma AcrossUnit(x: bv64, n: nat, k: nat, i: bv64)
    requires (n == 1 || n == 2) && Advance(i, k) == BlockNo(x, n, if n == 2 then 31 else 63)
    ensures Advance(i, k + 2) == BlockNo(Advance(x, 1), n, 1)
  {
    hide Advance, BlockNo, Up;
    AdvanceNext(i, k);
    AdvanceNext(i, k + 1);
    AdvanceNext(x, 0);
    NextBlockNo(x, n, if n == 2 then 31 else 63);
    NextBlockNo(Advance(x, 1), n, 0);
  }

  lemma WholeUnit(x: bv64, n: nat)
    requires n == 1 || n == 2
    ensures Advance(BlockNo(x, n, 1), WORDS_PER_UNIT / n) == BlockNo(Advance(x, 1), n, 1)
  {
    hide Advance, BlockNo, Up;
    var i := BlockNo(x, n, 1);
    AdvanceNext(i, 0);
    Six(x, n, 1, 0, i);
    Six(x, n, 7, 6, i);
    Six(x, n, 13, 12, i);
    Six(x, n, 19, 18, i);
    Six(x, n, 25, 24, i);
    if n == 1 {
      Six(x, n, 31, 30, i);
      Six(x, n, 37, 36, i);
      Six(x, n, 43, 42, i);
      Six(x, n, 49, 48, i);
      Six(x, n, 55, 54, i);
      NextBlocks(x, n, 61, 60, i);
      NextBlocks(x, n, 62, 61, i);
      AcrossUnit(x, n, 62, i);
    } else {
      AcrossUnit(x, n, 30, i);
    }
  }

  /** A data unit has as many LRW indices as it has blocks, so the next one starts where it ends. */
  lemma LrwIndexAdvances(info: Info, u: bv64, n: nat)
    requires n == 1 || n == 2
    ensures DataUnit2LRWIndex(Advance(u, 1), n, info) == Advance(DataUnit2LRWIndex(u, n, info), WORDS_PER_UNIT / n)
  {
    hide Advance, BlockNo, LrwOrigin, Retreat;
    RetreatNext(u, LrwOrigin(info));
    WholeUnit(Retreat(u, LrwOrigin(info)), n);
  }

  /** XTS and LRW go on from unit to unit: after a whole unit the state is that of the next unit. */
  lemma UnitLeads(info: Info, u: bv64, dir: Direction, i: nat, d: Data)
    requires Valid(info) && i < PassCount(info) && |d| == WORDS_PER_UNIT && (info.mode == XTS || info.mode == LRW)
    ensures PassAt(info, Unit(Advance(u, 1)), i) == PassAt(info, Unit(u), i)
    ensures Final(info, PassAt(info, Unit(u), i), dir, StartAt(info, Unit(u), i), d) == StartAt(info, Unit(Advance(u, 1)), i)
  {
    hide Final, Offset, DataUnit2LRWIndex, Advance;
    var p := PassAt(info, Unit(u), i);
    if info.mode == XTS {
      FinalXts(info, p, dir, u, 0, d);
    } else {
      FinalLrw(info, p, dir, DataUnit2LRWIndex(u, p.n, info), d, WORDS_PER_UNIT / p.n);
      LrwIndexAdvances(info, u, p.n);
    }
  }

  lemma UnitWhole(info: Info, place: Place, i: nat)
    requires Valid(info) && i < PassCount(info)
    ensures Whole(PassAt(info, place, i).n, WORDS_PER_UNIT)
  {
  }

  /** So one more pass over the whole run is one more pass over every unit. */
  lemma {:induction false} PassOverUnits(info: Info, u: bv64, dir: Direction, k: nat, d: Data)
    requires Valid(info) && k < PassCount(info) && |d| % WORDS_PER_UNIT == 0 && (info.mode == XTS || info.mode == LRW)
    ensures OnePass(info, Unit(u), dir, k, UnitPasses(info, u, dir, k, d)) == UnitPasses(info, u, dir, k + 1, d)
    decreases |d|
  {
    hide PassAt, StartAt, PassCount, Valid, Final, Run, Advance;
    var i := Turn(info, dir, k);
    var p, st := PassAt(info, Unit(u), i), StartAt(info, Unit(u), i);
    if d == [] {
      assert UnitPasses(info, u, dir, k, d) == [] && UnitPasses(info, u, dir, k + 1, d) == [];
    } else {
      var a, b := d[..WORDS_PER_UNIT], d[WORDS_PER_UNIT..];
      var a', b' := Passes(info, Unit(u), dir, k, a), UnitPasses(info, Advance(u, 1), dir, k, b);
      UnitWhole(info, Unit(u), i);
      RunAppend(info, p, dir, st, a', b');
      UnitLeads(info, u, dir, i, a');
      PassOverUnits(info, Advance(u, 1), dir, k, b);
      assert Passes(info, Unit(u), dir, k + 1, a) == OnePass(info, Unit(u), dir, k, a');
    }
  }

  // ----- Units as fragments of work -----

  /** Data units side by side in memory. */
  function Flat(units: seq<Unit>): (d: Data)
  {
    if units == [] then [] else units[0] + Flat(units[1..])
  }

  lemma UnitWiseFirst(crypt: (bv64, Unit) -> Unit, u: bv64, units: seq<Unit>)
    requires units != []
    ensures ThreadPool.UnitWise(crypt, u, units) ==
      [crypt(u, units[0])] + ThreadPool.UnitWise(crypt, Advance(u, 1), units[1..])
  {
    hide Advance;
    AdvanceNone(u);
    forall i | 1 <= i < |units|
      ensures ThreadPool.UnitWise(crypt, u, units)[i] == ThreadPool.UnitWise(crypt, Advance(u, 1), units[1..])[i - 1]
    {
      AdvanceAdd(u, 1, i - 1);
    }
  }

  /** Encrypting a run of units in one go is the unit-wise map the thread pool splits: any cut at unit
      boundaries, each piece started at its own unit number, gives the same bytes. */
  lemma {:induction false} UnitsCryptIsUnitWise(info: Info, u: bv64, dir: Direction, crypt: (bv64, Unit) -> Unit, units: seq<Unit>)
    requires Valid(info) && forall x: Unit :: x in units ==> |x| == WORDS_PER_UNIT
    requires forall v, x :: crypt(v, x) == Crypt(info, CryptoModes.Unit(v), dir, x)
    ensures Flat(ThreadPool.UnitWise(crypt, u, units)) == UnitsCrypt(info, u, dir, Flat(units))
    decreases |units|
  {
    hide Passes, PassCount, Valid, Advance, ThreadPool.UnitWise;
    if units == [] {
      assert ThreadPool.UnitWise(crypt, u, units) == [] by { UnitWiseLength(crypt, u, units); }
    } else {
      var a, b := units[0], units[1..];
      UnitWiseFirst(crypt, u, units);
      UnitsCryptIsUnitWise(info, Advance(u, 1), dir, crypt, b);
      var rest := ThreadPool.UnitWise(crypt, Advance(u, 1), b);
      assert ([crypt(u, a)] + rest)[1..] == rest;
      assert Flat(units)[..WORDS_PER_UNIT] == a && Flat(units)[WORDS_PER_UNIT..] == Flat(b);
    }
  }

  lemma UnitWiseLength(crypt: (bv64, Unit) -> Unit, u: bv64, units: seq<Unit>)
    ensures |ThreadPool.UnitWise(crypt, u, units)| == |units|
  {
  }

  /** Decryption undoes encryption over any number of data units. */
  lemma {:induction false} UnitsDecryptUndoesEncrypt(info: Info, u: bv64, d: Data)
    requires Valid(info) && Invertible(info.suite) && |d| % WORDS_PER_UNIT == 0
    ensures UnitsCrypt(info, u, Decrypt, UnitsCrypt(info, u, Encrypt, d)) == d
    decreases |d|
  {
    hide PassCount, Valid, Invertible, Passes, Advance;
    if d != [] {
      var a, b := d[..WORDS_PER_UNIT], d[WORDS_PER_UNIT..];
      var a', b' := Crypt(info, CryptoModes.Unit(u), Encrypt, a), UnitsCrypt(info, Advance(u, 1), Encrypt, b);
      assert (a' + b')[..WORDS_PER_UNIT] == a' && (a' + b')[WORDS_PER_UNIT..] == b';
      UnitFits(info);
      DecryptUndoesEncrypt(info, CryptoModes.Unit(u), a);
      UnitsDecryptUndoesEncrypt(info, Advance(u, 1), b);
      assert d == a + b;
      assert UnitsCrypt(info, u, Encrypt, d) == a' + b';
    } else {
      assert UnitsCrypt(info, u, Encrypt, d) == [];
    }
  }

  lemma UnitFits(info: Info)
    requires Valid(info)
    ensures Fits(info, WORDS_PER_UNIT)
  {
  }
}
