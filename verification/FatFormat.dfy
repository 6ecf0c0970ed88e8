// FormatFat: which sectors are written, in what order and how many.
module FatFormat {
  import opened Words
  import opened Fat
  import opened FormatWriter

  /** The kinds of sectors written: boot sector, FSInfo, a zero sector with the trailing signature, a zero
      sector, and the first sector of a FAT. */
  datatype Image = Image(boot: seq<Unit>, fsInfo: seq<Unit>, signed: seq<Unit>, zero: seq<Unit>, fatStart: seq<Unit>)

  /** Which sector of a FAT volume holds what: boot sector and (FAT32) FSInfo, both again from sector 6 on;
      zeros; the FATs one after the other; then zeros. */
  function SectorAt(img: Image, bits: nat, reserved: nat, f: nat, i: nat): seq<Unit> {
    if i == 0 || (bits == 32 && i == 6) then img.boot
    else if bits == 32 && (i == 1 || i == 7) then img.fsInfo
    else if bits == 32 && 2 <= i < 6 then img.signed
    else if f > 0 && (i == reserved || i == reserved + f) then img.fatStart
    else img.zero
  }

  /** Requests to write sectors `a` to `b` - 1 of the volume. */
  function SectorOps(img: Image, bits: nat, reserved: nat, f: nat, a: nat, b: nat): (ops: seq<Op>)
    requires a <= b
  {
    seq(b - a, i requires 0 <= i < b - a => Sector(SectorAt(img, bits, reserved, f, a + i)))
  }

  lemma OneMore(img: Image, bits: nat, reserved: nat, f: nat, a: nat, b: nat)
    requires a <= b
    ensures SectorOps(img, bits, reserved, f, a, b + 1) ==
      SectorOps(img, bits, reserved, f, a, b) + [Sector(SectorAt(img, bits, reserved, f, b))]
  {
  }

  /** Sectors FormatFat takes for the root directory. */
  function RootWritten(bits: nat, cs: nat, ss: nat): nat
    requires ss > 0
  {
    if bits == 32 then cs else 512 * 32 / ss
  }

  /** The root directory fits too, so that what is left to fill is not negative. */
  lemma RootFits(n: nat, ss: nat, cs: nat, bits: nat, reserved: nat, f: nat, count: int)
    requires SectorSize(ss) && cs > 0 && n * ss >= TC_MIN_FAT_FS_SIZE && IsLayout(n, ss, cs, bits, reserved, f, count)
    ensures reserved + 2 * f + RootWritten(bits, cs, ss) <= n
  {
    hide FatSectors, Clusters, Aligned, CeilDiv, FirstAligned;
    LayoutFits(n, ss, cs, bits, reserved, f, count);
    if bits == 32 {
      var all := Clusters(n, reserved, cs);
      ManyClusters(n, 2 + CeilDiv(512 * 32, ss), cs);
      ClustersFill(n, reserved, cs);
      FatIsSmall(bits, all, ss);
      RootFloor(ss);
      ManyReserved(n, 2 + CeilDiv(512 * 32, ss), reserved, cs);
      Scale(all - 1, 1, cs);
      FatHalf(all, ss);
      assert cs * all == (all - 1) * cs + cs;
    } else {
      RootFloor(ss);
    }
  }

  // ----- How many sectors are left to fill -----

  /** Sectors before the data area and in the root directory, from the three sizes; with 512-byte sectors the FAT32
      search rounds up to a multiple of 8. */
  function SystemSectors(n: nat, ss: nat, cs: nat): nat
    requires ss > 0 && cs > 0 && n >= 32
  {
    var small := 2 + CeilDiv(512 * 32, ss);
    if Clusters(n, small, cs) >= 65525 then
      var h := 32 + 2 * CeilDiv(4 * ((n - 32) / cs), ss);
      (if ss == TC_SECTOR_SIZE_LEGACY then UpTo8(h) else h) + cs
    else 2 + 2 * CeilDiv(Clusters(n, small, cs) * FatBits(n, ss, cs), 8 * ss) + 512 * 32 / ss
  }

  /** The volumes of which fewer than 2^31 sectors are left. */
  predicate FillFits(n: nat, ss: nat, cs: nat)
    requires ss > 0 && cs > 0
  {
    n < INT_LIMIT || n - INT_LIMIT < SystemSectors(n, ss, cs)
  }

  lemma SystemIs(n: nat, ss: nat, cs: nat, bits: nat, reserved: nat, f: nat, count: int)
    requires SectorSize(ss) && cs > 0 && n >= 42 && IsLayout(n, ss, cs, bits, reserved, f, count)
    ensures reserved + 2 * f + RootWritten(bits, cs, ss) == SystemSectors(n, ss, cs)
  {
    hide Clusters, Aligned, CeilDiv, FirstAligned, UpTo8;
    if bits == 32 {
      ClustersIs(n, cs);
      if ss == 512 {
        RoundedUp(n, cs);
      } else {
        LargeReserved(n, ss, cs);
      }
    } else {
      FatSectorsAre(bits, Clusters(n, 2 + CeilDiv(512 * 32, ss), cs), ss);
    }
  }

  lemma LargeReserved(n: nat, ss: nat, cs: nat)
    requires SectorSize(ss) && ss > 512 && cs > 0
    ensures FirstAligned(n, cs, ss, 32) == 32
  {
    hide Fat32Length;
  }

  /** What is left to fill is an `int` exactly for those volumes: all of fewer than 2^31 sectors, and larger ones only
      if that much of them is reserved, FATs and root directory. */
  lemma FillExactly(n: nat, ss: nat, cs: nat, bits: nat, reserved: nat, f: nat, count: int)
    requires SectorSize(ss) && cs > 0 && n * ss >= TC_MIN_FAT_FS_SIZE && IsLayout(n, ss, cs, bits, reserved, f, count)
    ensures n - (reserved + 2 * f + RootWritten(bits, cs, ss)) < INT_LIMIT <==> FillFits(n, ss, cs)
  {
    hide IsLayout, SystemSectors;
    if n >= INT_LIMIT {
      SystemIs(n, ss, cs, bits, reserved, f, count);
    }
  }

  /** A volume of 1152 GB with the default cluster size: nothing overflows in computing the layout, but more than
      2^31 sectors are left to fill. */
  lemma FillOverflows()
    ensures ChosenCluster(0, 0x9000_0000 * 512, 512) == 128 && FitsInt(0x9000_0000, 512, 128)
    ensures SystemSectors(0x9000_0000, 512, 128) == 295072 && !FillFits(0x9000_0000, 512, 128)
  {
    var h := 32 + 2 * CeilDiv(4 * ((0x9000_0000 - 32) / 128), 512);
    assert h == 294944 && UpTo8(h) == 294944;
    assert Clusters(0x9000_0000, 2 + CeilDiv(512 * 32, 512), 128) >= 65525;
  }

  lemma RootFloor(ss: nat)
    requires SectorSize(ss)
    ensures 512 * 32 / ss <= CeilDiv(512 * 32, ss) <= 32
  {
    var k := ss / 512;
    assert ss == 512 * k && 1 <= k <= 8;
    assert k == 1 || k == 2 || k == 3 || k == 4 || k == 5 || k == 6 || k == 7 || k == 8;
  }

  lemma ManyReserved(n: nat, before: nat, reserved: nat, cs: nat)
    requires cs > 0 && before >= 2 && reserved <= 41 && Clusters(n, before, cs) >= 65525
    ensures Clusters(n, reserved, cs) >= 65000
  {
    ManyClusters(n, before, cs);
    ClustersFill(n, before, cs);
    ClustersFill(n, reserved, cs);
    if Clusters(n, reserved, cs) < 65000 {
      Scale(cs, Clusters(n, reserved, cs) + 1, 65000);
      Scale(cs, 65525, Clusters(n, before, cs));
    }
  }

  lemma FatHalf(all: nat, ss: nat)
    requires ss >= 512 && all >= 65000
    ensures 2 * FatSectors(32, all, ss) <= all - 1
  {
    var f := (all * 4 + ss - 1) / ss;
    assert all * 4 + ss - 1 == ss * f + (all * 4 + ss - 1) % ss;
    if f >= 1 {
      Scale(f - 1, 512, ss);
      assert ss * (f - 1) == ss * f - ss;
    }
  }

  lemma NoneYet(img: Image, bits: nat, r: nat, f: nat, a: nat)
    ensures SectorOps(img, bits, r, f, a, a) == []
  {
  }

  /** Lines 286 to 331: the boot area and the other reserved sectors. */
  method ReservedArea(img: Image, bits: nat, r: nat, ghost f: nat) returns (ops: seq<Op>)
    requires r >= 2 && (bits == 32 ==> r >= 32)
    ensures ops == SectorOps(img, bits, r, f, 0, r)
  {
    hide SectorOps;
    NoneYet(img, bits, r, f, 0);
    OneMore(img, bits, r, f, 0, 0);
    ops := [] + [Sector(img.boot)];
    var done := 1;
    if bits == 32 {
      OneMore(img, bits, r, f, 0, 1);
      ops, done := ops + [Sector(img.fsInfo)], done + 1;
      while done < 6
        invariant 2 <= done <= 6 && ops == SectorOps(img, bits, r, f, 0, done)
      {
        OneMore(img, bits, r, f, 0, done);
        ops, done := ops + [Sector(img.signed)], done + 1;
      }
      OneMore(img, bits, r, f, 0, 6);
      ops, done := ops + [Sector(img.boot)], done + 1;
      OneMore(img, bits, r, f, 0, 7);
      ops, done := ops + [Sector(img.fsInfo)], done + 1;
    }
    while done < r
      invariant 1 <= done <= r && (bits == 32 ==> 8 <= done) && ops == SectorOps(img, bits, r, f, 0, done)
    {
      OneMore(img, bits, r, f, 0, done);
      ops, done := ops + [Sector(img.zero)], done + 1;
    }
  }

  /** One of the two FATs, from sector `at` on. */
  method OneFat(img: Image, bits: nat, r: nat, f: nat, before: seq<Op>, at: nat) returns (ops: seq<Op>)
    requires r >= 2 && (bits == 32 ==> r >= 32) && (at == r || at == r + f) && before == SectorOps(img, bits, r, f, 0, at)
    ensures ops == SectorOps(img, bits, r, f, 0, at + f)
  {
    hide SectorOps;
    ops := before;
    for n := 0 to f
      invariant ops == SectorOps(img, bits, r, f, 0, at + n)
    {
      OneMore(img, bits, r, f, 0, at + n);
      ops := ops + [Sector(if n == 0 then img.fatStart else img.zero)];
    }
  }

  /** Zero sectors up to sector `to`, counted up; requests `before` sector `from` are made. */
  method ZeroSectors(img: Image, bits: nat, r: nat, f: nat, before: seq<Op>, from: nat, to: nat) returns (ops: seq<Op>)
    requires r >= 2 && (bits == 32 ==> r >= 32) && r + 2 * f <= from <= to
    ensures ops == before + SectorOps(img, bits, r, f, from, to)
  {
    hide SectorOps;
    ops := before;
    NoneYet(img, bits, r, f, from);
    for x := from to to
      invariant ops == before + SectorOps(img, bits, r, f, from, x)
    {
      OneMore(img, bits, r, f, from, x);
      ops := ops + [Sector(img.zero)];
    }
  }

  /** Lines 421 to 427: zero sectors up to the end of the volume, counted down in an `int`. */
  method Fill(img: Image, bits: nat, r: nat, f: nat, root: nat, before: seq<Op>, n: nat) returns (ops: seq<Op>)
    requires r >= 2 && (bits == 32 ==> r >= 32) && r + 2 * f + root <= n && n - (r + 2 * f + root) < INT_LIMIT
    ensures ops == before + SectorOps(img, bits, r, f, r + 2 * f + root, n)
  {
    hide SectorOps;
    ghost var from := r + 2 * f + root;
    ops := before;
    var x := Int(n - r - root - f * 2);
    NoneYet(img, bits, r, f, from);
    while x > 0
      invariant x >= 0 && ops == before + SectorOps(img, bits, r, f, from, n - x)
    {
      OneMore(img, bits, r, f, from, n - x);
      ops, x := ops + [Sector(img.zero)], x - 1;
    }
  }

  lemma Joined(img: Image, bits: nat, r: nat, f: nat, a: nat, b: nat)
    requires a <= b
    ensures SectorOps(img, bits, r, f, 0, a) + SectorOps(img, bits, r, f, a, b) == SectorOps(img, bits, r, f, 0, b)
  {
  }

  // ----- The requests -----

  /** The requests of a format: `system` sectors of boot area, FATs and root directory; in a full format a flush, the
      temporary key and the other sectors; a flush. */
  predicate Requests(ops: seq<Op>, img: Image, bits: nat, r: nat, f: nat, system: nat, n: nat, quick: bool, temporaryKey: nat) {
    && r >= 2 && (bits == 32 ==> r >= 32) && r + 2 * f <= system <= n
    && ops == SectorOps(img, bits, r, f, 0, system) +
         (if quick then [] else [Flush, Rekey(temporaryKey)] + SectorOps(img, bits, r, f, system, n)) + [Flush]
  }

  /** Which request writes sector `i`. */
  function RequestFor(system: nat, i: nat): nat { if i < system then i else i + 2 }

  function Sectors(system: nat, n: nat, quick: bool): nat { if quick then system else n }

  lemma RequestIs(ops: seq<Op>, img: Image, bits: nat, r: nat, f: nat, system: nat, n: nat, quick: bool, temporaryKey: nat, i: nat)
    requires Requests(ops, img, bits, r, f, system, n, quick, temporaryKey) && i < Sectors(system, n, quick)
    ensures RequestFor(system, i) < |ops| && ops[RequestFor(system, i)] == Sector(SectorAt(img, bits, r, f, i))
  {
    hide SectorAt;
  }

  /** FAT32: the boot sector is sector 0 and again 6, FSInfo 1 and again 7, and 2 to 5 are signed; FAT12 and FAT16 have
      only sector 0.  Both FATs start behind the reserved sectors, one after the other.  Every other sector is zero. */
  predicate RightSector(img: Image, bits: nat, r: nat, f: nat, i: nat, op: Op) {
    && (bits == 32 && i in {0, 6} ==> op == Sector(img.boot))
    && (bits == 32 && i in {1, 7} ==> op == Sector(img.fsInfo))
    && (bits == 32 && i in {2, 3, 4, 5} ==> op == Sector(img.signed))
    && (bits != 32 && i == 0 ==> op == Sector(img.boot))
    && (f > 0 && i in {r, r + f} ==> op == Sector(img.fatStart))
    && (i >= (if bits == 32 then 8 else 1) && (f == 0 || i !in {r, r + f}) ==> op == Sector(img.zero))
  }

  lemma SectorsAre(ops: seq<Op>, img: Image, bits: nat, r: nat, f: nat, system: nat, n: nat, quick: bool, temporaryKey: nat, i: nat)
    requires Requests(ops, img, bits, r, f, system, n, quick, temporaryKey) && i < Sectors(system, n, quick)
    ensures RequestFor(system, i) < |ops| && RightSector(img, bits, r, f, i, ops[RequestFor(system, i)])
  {
    RequestIs(ops, img, bits, r, f, system, n, quick, temporaryKey, i);
  }

  /** FormatFat: the requests made to WriteSector and FlushFormatWriteBuffer, in order; a full format only of the
      volumes for which what is left to fill is an `int`. */
  method FormatFat(ft: FatParams, img: Image, quickFormat: bool, temporaryKey: nat) returns (ops: seq<Op>)
    requires SectorSize(ft.sector_size) && ft.num_sectors * ft.sector_size >= TC_MIN_FAT_FS_SIZE && ft.Layout()
    requires quickFormat || FillFits(ft.num_sectors, ft.sector_size, ft.cluster_size)
    ensures var bits, r, f := ft.size_fat, ft.reserved, ft.fat_length;
      var system := r + 2 * f + RootWritten(bits, ft.cluster_size, ft.sector_size);
      && Requests(ops, img, bits, r, f, system, ft.num_sectors, quickFormat, temporaryKey)
      && forall i :: 0 <= i < Sectors(system, ft.num_sectors, quickFormat) ==>
           RequestFor(system, i) < |ops| && RightSector(img, bits, r, f, i, ops[RequestFor(system, i)])
  {
    hide IsLayout, SectorOps, FillFits, RightSector;
    var bits, r, f := ft.size_fat, ft.reserved, ft.fat_length;
    RootFits(ft.num_sectors, ft.sector_size, ft.cluster_size, bits, r, f, ft.cluster_count);
    LayoutReserved(ft.num_sectors, ft.sector_size, ft.cluster_size, bits, r, f, ft.cluster_count);
    var root := ft.size_root_dir / ft.sector_size;
    RootIs(bits, ft.cluster_size, ft.sector_size);
    var system := r + 2 * f + root;

    ops := ReservedArea(img, bits, r, f);
    ops := OneFat(img, bits, r, f, ops, r);
    ops := OneFat(img, bits, r, f, ops, r + f);
    Joined(img, bits, r, f, r + 2 * f, system);
    ops := ZeroSectors(img, bits, r, f, ops, r + 2 * f, system);
    ghost var first := ops;
    if !quickFormat {
      ops := ops + [Flush, Rekey(temporaryKey)];
      FillExactly(ft.num_sectors, ft.sector_size, ft.cluster_size, bits, r, f, ft.cluster_count);
      ops := Fill(img, bits, r, f, root, ops, ft.num_sectors);
      Regroup(first, [Flush, Rekey(temporaryKey)], SectorOps(img, bits, r, f, system, ft.num_sectors));
    } else {
      assert first == first + [];
    }
    ops := ops + [Flush];
    forall i | 0 <= i < Sectors(system, ft.num_sectors, quickFormat)
      ensures RequestFor(system, i) < |ops| && RightSector(img, bits, r, f, i, ops[RequestFor(system, i)])
    {
      SectorsAre(ops, img, bits, r, f, system, ft.num_sectors, quickFormat, temporaryKey, i);
    }
  }

  lemma Regroup(a: seq<Op>, b: seq<Op>, c: seq<Op>)
    ensures (a + b) + c == a + (b + c)
  {
  }

  lemma RootIs(bits: nat, cs: nat, ss: nat)
    requires ss > 0
    ensures (if bits == 32 then cs * ss else 512 * 32) / ss == RootWritten(bits, cs, ss)
  {
    Quotient(cs * ss, ss, cs, 0);
  }

  lemma LayoutReserved(n: nat, ss: nat, cs: nat, bits: nat, reserved: nat, f: nat, count: int)
    requires ss > 0 && cs > 0 && IsLayout(n, ss, cs, bits, reserved, f, count)
    ensures reserved >= 2 && (bits == 32 ==> reserved >= 32)
  {
  }

  // ----- What the writer makes of it -----

  function SectorCount(ops: seq<Op>): nat {
    if ops == [] then 0 else SectorCount(ops[..|ops| - 1]) + if ops[|ops| - 1].Sector? then 1 else 0
  }

  lemma {:induction false} CountAppend(a: seq<Op>, b: seq<Op>)
    ensures SectorCount(a + b) == SectorCount(a) + SectorCount(b)
  {
    if b == [] {
      assert a + b == a;
    } else {
      CountAppend(a, b[..|b| - 1]);
      assert (a + b)[..|a + b| - 1] == a + b[..|b| - 1];
    }
  }

  lemma {:induction false} CountSectors(ops: seq<Op>)
    requires forall i :: 0 <= i < |ops| ==> ops[i].Sector?
    ensures SectorCount(ops) == |ops|
  {
    if ops != [] {
      CountSectors(ops[..|ops| - 1]);
    }
  }

  lemma {:induction false} SentSize(c: Config, n: nat)
    requires WellFormed(c) && n <= |c.ops|
    ensures |Sent(c, n)| == c.perSector * SectorCount(c.ops[..n])
  {
    hide KeyAt, Under, Sent;
    if n == 0 {
      NoneSent(c);
    } else {
      SentSize(c, n - 1);
      SentGrows(c, n - 1);
      assert c.ops[..n][..n - 1] == c.ops[..n - 1];
      assert c.perSector * (SectorCount(c.ops[..n - 1]) + 1) == c.perSector * SectorCount(c.ops[..n - 1]) + c.perSector;
    }
  }

  lemma NoneSent(c: Config)
    ensures Sent(c, 0) == [] && SectorCount(c.ops[..0]) == 0
  {
  }

  predicate Sized(img: Image, per: nat) {
    |img.boot| == per && |img.fsInfo| == per && |img.signed| == per && |img.zero| == per && |img.fatStart| == per
  }

  /** Whatever the interleaving with the writer thread, if its last WriteFile did not fail the device ends up with exactly
      the sectors written, in order, each encrypted under its number: all `n` in a full format. */
  lemma DeviceIs(c: Config, moves: seq<Move>, img: Image, bits: nat, r: nat, f: nat, system: nat, n: nat, quick: bool, temporaryKey: nat)
    requires c.perSector > 0 && CAPACITY % c.perSector == 0 && Sized(img, c.perSector)
    requires Requests(c.ops, img, bits, r, f, system, n, quick, temporaryKey)
    requires Exec(c, moves).producer.Finished? && LastWriteOk(c, moves)
    ensures |Exec(c, moves).device| == Sectors(system, n, quick) * c.perSector
    ensures Exec(c, moves).device == Sequential(c, Sent(c, |c.ops|))
  {
    hide Exec, SectorAt, LastWriteOk;
    SectorsSized(img, c.perSector, bits, r, f);
    assert WellFormed(c);
    FinishedWrite(c, moves);
    CountAll(c.ops, img, bits, r, f, system, n, quick, temporaryKey);
    SentSize(c, |c.ops|);
    assert c.ops[..|c.ops|] == c.ops;
    var m := Sectors(system, n, quick);
    assert c.perSector * m == m * c.perSector;
  }

  lemma AllSectors(img: Image, bits: nat, r: nat, f: nat, a: nat, b: nat)
    requires a <= b
    ensures SectorCount(SectorOps(img, bits, r, f, a, b)) == b - a
  {
    hide SectorAt;
    CountSectors(SectorOps(img, bits, r, f, a, b));
  }

  lemma CountAll(ops: seq<Op>, img: Image, bits: nat, r: nat, f: nat, system: nat, n: nat, quick: bool, temporaryKey: nat)
    requires Requests(ops, img, bits, r, f, system, n, quick, temporaryKey)
    ensures SectorCount(ops) == Sectors(system, n, quick)
  {
    hide SectorOps;
    var a, b := SectorOps(img, bits, r, f, 0, system), SectorOps(img, bits, r, f, system, n);
    AllSectors(img, bits, r, f, 0, system);
    AllSectors(img, bits, r, f, system, n);
    NoSectors(temporaryKey);
    if quick {
      CountAppend(a + [], [Flush]);
      assert a + [] == a;
    } else {
      CountAppend(a + ([Flush, Rekey(temporaryKey)] + b), [Flush]);
      CountAppend(a, [Flush, Rekey(temporaryKey)] + b);
      CountAppend([Flush, Rekey(temporaryKey)], b);
    }
  }

  lemma NoSectors(temporaryKey: nat)
    ensures SectorCount([Flush]) == 0 && SectorCount([Flush, Rekey(temporaryKey)]) == 0
  {
    assert [Flush][..0] == [] && [Flush, Rekey(temporaryKey)][..1] == [Flush];
  }

  lemma SectorsSized(img: Image, per: nat, bits: nat, r: nat, f: nat)
    requires Sized(img, per)
    ensures forall i :: |SectorAt(img, bits, r, f, i)| == per
  {
  }
}
