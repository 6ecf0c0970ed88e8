// What the device holds, sector by sector, when FormatFat has ended.
module FatImage {
  import opened Words
  import opened Fat
  import opened FormatWriter
  import opened FatFormat

  // ----- On the device -----

  lemma {:induction false} KeyStays(c: Config, a: nat, b: nat)
    requires a <= b <= |c.ops| && forall i :: a <= i < b ==> !c.ops[i].Rekey?
    ensures KeyAt(c, b) == KeyAt(c, a)
    decreases b - a
  {
    if a < b {
      KeyStays(c, a, b - 1);
    }
  }

  lemma RekeyIs(c: Config, a: nat)
    requires a < |c.ops| && c.ops[a].Rekey?
    ensures KeyAt(c, a + 1) == c.ops[a].key
  {
  }

  function Place(per: nat, i: nat, k: nat): nat { per * i + k }

  /** Where the units of a request are among all that are sent. */
  lemma {:induction false} SentAt(c: Config, at: nat, m: nat, k: nat)
    requires WellFormed(c) && at < m <= |c.ops| && c.ops[at].Sector? && k < c.perSector
    ensures Place(c.perSector, SectorCount(c.ops[..at]), k) < |Sent(c, m)|
    ensures Sent(c, m)[Place(c.perSector, SectorCount(c.ops[..at]), k)] == Keyed(KeyAt(c, at), c.ops[at].data[k])
    decreases m - at
  {
    hide KeyAt, Under, Sent, WellFormed;
    SentGrows(c, m - 1);
    if at + 1 < m {
      SentAt(c, at, m - 1, k);
    } else {
      SentSize(c, at);
      assert |c.ops[at].data| == c.perSector by { SectorSized(c, at); }
    }
  }

  lemma SectorSized(c: Config, at: nat)
    requires WellFormed(c) && at < |c.ops| && c.ops[at].Sector?
    ensures |c.ops[at].data| == c.perSector
  {
  }

  /** Before the request for sector `i` there were `i` sectors. */
  lemma CountBefore(ops: seq<Op>, img: Image, bits: nat, r: nat, f: nat, system: nat, n: nat, quick: bool, temporaryKey: nat, i: nat)
    requires Requests(ops, img, bits, r, f, system, n, quick, temporaryKey) && i < Sectors(system, n, quick)
    ensures RequestFor(system, i) < |ops| && SectorCount(ops[..RequestFor(system, i)]) == i
  {
    hide SectorAt;
    var a := SectorOps(img, bits, r, f, 0, system);
    if i < system {
      assert ops[..i] == SectorOps(img, bits, r, f, 0, i);
      AllSectors(img, bits, r, f, 0, i);
    } else {
      var b := SectorOps(img, bits, r, f, system, i);
      assert ops[..i + 2] == a + ([Flush, Rekey(temporaryKey)] + b);
      CountAppend(a, [Flush, Rekey(temporaryKey)] + b);
      CountAppend([Flush, Rekey(temporaryKey)], b);
      AllSectors(img, bits, r, f, 0, system);
      AllSectors(img, bits, r, f, system, i);
      NoSectors(temporaryKey);
    }
  }

  /** The volume's key up to the root directory, the temporary key behind it. */
  lemma KeyOf(c: Config, img: Image, bits: nat, r: nat, f: nat, system: nat, n: nat, quick: bool, temporaryKey: nat, i: nat)
    requires Requests(c.ops, img, bits, r, f, system, n, quick, temporaryKey) && i < Sectors(system, n, quick)
    ensures RequestFor(system, i) < |c.ops|
    ensures KeyAt(c, RequestFor(system, i)) == if i < system then c.firstKey else temporaryKey
  {
    hide SectorAt, KeyAt;
    NoKeyYet(c);
    if i < system {
      KeyStays(c, 0, i);
    } else {
      RekeyIs(c, system + 1);
      KeyStays(c, system + 2, i + 2);
    }
  }

  lemma NoKeyYet(c: Config)
    ensures KeyAt(c, 0) == c.firstKey
  {
  }

  /** When a format has ended and its last WriteFile did not fail: the device holds every sector at its place, whatever the
      interleaving; unit `k` of sector `i` is encrypted under its data unit number, with the volume's key up to the
      root directory and the temporary key behind it. */
  lemma Formatted(c: Config, moves: seq<Move>, img: Image, bits: nat, r: nat, f: nat, system: nat, n: nat, quick: bool, temporaryKey: nat,
                  i: nat, k: nat)
    requires c.perSector > 0 && CAPACITY % c.perSector == 0 && Sized(img, c.perSector)
    requires Requests(c.ops, img, bits, r, f, system, n, quick, temporaryKey)
    requires Exec(c, moves).producer.Finished? && LastWriteOk(c, moves)
    requires i < Sectors(system, n, quick) && k < c.perSector
    ensures RequestFor(system, i) < |c.ops| && c.ops[RequestFor(system, i)].Sector?
    ensures var d := Exec(c, moves).device;
      var at := Place(c.perSector, i, k);
      && at < |d| && |c.ops[RequestFor(system, i)].data| == c.perSector
      && d[at] == c.crypt(if i < system then c.firstKey else temporaryKey, c.start * c.perSector + at, c.ops[RequestFor(system, i)].data[k])
  {
    hide Exec, SectorAt, LastWriteOk, KeyAt, Sent, SectorCount;
    SectorsSized(img, c.perSector, bits, r, f);
    assert WellFormed(c);
    FinishedWrite(c, moves);
    RequestIs(c.ops, img, bits, r, f, system, n, quick, temporaryKey, i);
    CountBefore(c.ops, img, bits, r, f, system, n, quick, temporaryKey, i);
    KeyOf(c, img, bits, r, f, system, n, quick, temporaryKey, i);
    SentAt(c, RequestFor(system, i), |c.ops|, k);
  }
}
