// FAT geometry (Fat.c, GetFatParams).
module Fat {
  const KB: nat := 1024
  const MB: nat := 1024 * 1024
  const GB: nat := 1024 * 1024 * 1024
  const TB: nat := 1024 * 1024 * 1024 * 1024

  const TC_MAX_FAT_CLUSTER_SIZE: nat := 256 * 1024
  const TC_MAX_VOLUME_SECTOR_SIZE: nat := 4096
  const TC_SECTOR_SIZE_LEGACY: nat := 512
  const TC_MIN_FAT_FS_SIZE: nat := 9 * 4096

  /** Sector sizes the formatting code accepts: multiples of a data unit up to 4 KB. */
  predicate SectorSize(ss: nat) { 512 <= ss <= 4096 && ss % 512 == 0 }

  function CeilDiv(a: nat, b: nat): nat
    requires b > 0
  {
    (a + b - 1) / b
  }

  function ClusterBytes(volumeSize: nat): nat {
    if volumeSize >= 2 * TB then 256 * KB
    else if volumeSize >= 512 * GB then 128 * KB
    else if volumeSize >= 128 * GB then 64 * KB
    else if volumeSize >= 64 * GB then 32 * KB
    else if volumeSize >= 32 * GB then 16 * KB
    else if volumeSize >= 16 * GB then 8 * KB
    else if volumeSize >= 512 * MB then 4 * KB
    else if volumeSize >= 256 * MB then 2 * KB
    else if volumeSize >= MB then KB
    else 512
  }

  /** The default number of sectors per cluster. */
  function DefaultCluster(volumeSize: nat, ss: nat): nat
    requires ss > 0
  {
    var c0 := ClusterBytes(volumeSize) / ss;
    var c1 := if c0 == 0 then 1 else c0;
    var c2 := if c1 * ss > TC_MAX_FAT_CLUSTER_SIZE then TC_MAX_FAT_CLUSTER_SIZE / ss else c1;
    if c2 > 128 then 128 else c2
  }

  /** From how many bytes on a default cluster has 1 KB, 2 KB and so on up to 256 KB: 1, 256 and 512 MB; 16, 32, 64, 128 and
      512 GB; 2 TB. */
  const DEFAULT_FROM: seq<nat> := [
    0, 0x10_0000, 0x1000_0000, 0x2000_0000, 0x4_0000_0000, 0x8_0000_0000, 0x10_0000_0000, 0x20_0000_0000, 0x80_0000_0000,
    0x200_0000_0000]

  const CLUSTER_BYTES: seq<nat> := [512, 1024, 2048, 4096, 8192, 16384, 32768, 65536, 131072, 262144]

  /** Each size is the default exactly from its limit up to the next one. */
  lemma ClusterBytesIs(volumeSize: nat, k: nat)
    requires k < 10
    ensures ClusterBytes(volumeSize) == CLUSTER_BYTES[k] <==>
      DEFAULT_FROM[k] <= volumeSize && (k < 9 ==> volumeSize < DEFAULT_FROM[k + 1])
  {
  }

  /** So in sectors: as many as fill it, but at least one and at most 128. */
  lemma DefaultClusterIs(volumeSize: nat, ss: nat, k: nat)
    requires SectorSize(ss) && k < 10 && DEFAULT_FROM[k] <= volumeSize && (k < 9 ==> volumeSize < DEFAULT_FROM[k + 1])
    ensures var cs := DefaultCluster(volumeSize, ss);
      && 1 <= cs <= 128
      && (cs * ss <= CLUSTER_BYTES[k] || cs == 1)
      && (cs == 128 || CLUSTER_BYTES[k] < (cs + 1) * ss)
  {
    hide ClusterBytes;
    ClusterBytesIs(volumeSize, k);
    InSectors(CLUSTER_BYTES[k], ss);
  }

  lemma InSectors(bytes: nat, ss: nat)
    requires SectorSize(ss) && 512 <= bytes <= TC_MAX_FAT_CLUSTER_SIZE
    ensures ss * (bytes / ss) <= bytes < ss * (bytes / ss) + ss
    ensures (if bytes / ss == 0 then 1 else bytes / ss) * ss <= TC_MAX_FAT_CLUSTER_SIZE
  {
    assert bytes == ss * (bytes / ss) + bytes % ss;
  }

  /** Clusters of `cs` sectors after `before` sectors. */
  function Clusters(n: nat, before: nat, cs: nat): nat
    requires cs > 0
  {
    if before > n then 0 else (n - before) / cs
  }

  /** Sectors a FAT with `bits` bits per entry takes for `count` entries. */
  function FatSectors(bits: nat, count: nat, ss: nat): nat
    requires ss > 0
  {
    if bits == 12 then CeilDiv((count * 3 + 1) / 2, ss)
    else if bits == 16 then CeilDiv(count * 2, ss)
    else CeilDiv(count * 4, ss)
  }

  /** The end of the reserved sectors and FATs lies on a 4 KB boundary, or sectors are larger than 512 bytes. */
  predicate Aligned(reserved: nat, fatLength: nat, ss: nat) {
    ss != TC_SECTOR_SIZE_LEGACY || (reserved * ss + fatLength * 2 * ss) % TC_MAX_VOLUME_SECTOR_SIZE == 0
  }

  function Fat32Length(n: nat, r: nat, cs: nat, ss: nat): nat
    requires cs > 0 && ss > 0
  {
    FatSectors(32, Clusters(n, r, cs), ss)
  }

  /** The FAT type, by the number of clusters there were if the reserved area were small. */
  function FatBits(n: nat, ss: nat, cs: nat): nat
    requires cs > 0 && ss > 0
  {
    var small := Clusters(n, 2 + CeilDiv(512 * 32, ss), cs);
    if small < 4085 then 12 else if small < 65525 then 16 else 32
  }

  /** In sectors: FAT12 for fewer than 4085 clusters behind two reserved sectors and a root directory of 16 KB, FAT32
      from 65525 on. */
  lemma TypeBySectors(n: nat, ss: nat, cs: nat)
    requires SectorSize(ss) && cs > 0
    ensures var root := (16384 + ss - 1) / ss;
      && (FatBits(n, ss, cs) == 12 <==> n < 2 + root + 4085 * cs)
      && (FatBits(n, ss, cs) == 32 <==> n >= 2 + root + 65525 * cs)
      && (FatBits(n, ss, cs) == 16 <==> 2 + root + 4085 * cs <= n < 2 + root + 65525 * cs)
  {
    var before := 2 + CeilDiv(512 * 32, ss);
    Scale(cs, 4085, 65525);
    if n >= before {
      QuotientBelow(n - before, cs, 4085);
      QuotientBelow(n - before, cs, 65525);
    }
  }

  /** The first number of reserved sectors from `r` on (up to 41) that aligns the data area. */
  function FirstAligned(n: nat, cs: nat, ss: nat, r: nat): nat
    requires cs > 0 && ss > 0
    decreases 41 - r
  {
    if r >= 41 || Aligned(r, Fat32Length(n, r, cs, ss), ss) then r else FirstAligned(n, cs, ss, r + 1)
  }

  /** Reserved sectors. */
  function Reserved(n: nat, ss: nat, cs: nat): nat
    requires cs > 0 && ss > 0
  {
    if FatBits(n, ss, cs) == 32 then FirstAligned(n, cs, ss, 32) else 2
  }

  // ----- The search for an aligned FAT32 layout -----

  lemma ClustersNear(n: nat, cs: nat, r: nat, k: nat)
    requires cs > 0 && r + k <= n
    ensures Clusters(n, r, cs) - k <= Clusters(n, r + k, cs) <= Clusters(n, r, cs)
  {
    var a, b := n - r, n - r - k;
    assert a == cs * (a / cs) + a % cs && b == cs * (b / cs) + b % cs;
    if b / cs > a / cs {
      Scale(cs, a / cs + 1, b / cs);
    }
    if b / cs + k < a / cs {
      assert cs * (b / cs + k + 1) == cs * (b / cs) + cs * k + cs;
      Scale(cs, b / cs + k + 1, a / cs);
      Scale(k, 1, cs);
    }
  }

  lemma Scale(c: nat, a: int, b: int)
    requires a <= b
    ensures c * a <= c * b
  {
    assert c * (b - a) >= 0;
  }

  lemma Unscale(c: nat, a: int, b: int)
    requires c * a <= c * b && c > 0
    ensures a <= b
  {
    assert c * (b - a) >= 0;
  }

  /** Over ten reserved sectors the FAT gets at most one sector shorter. */
  lemma FatNear(n: nat, cs: nat, r: nat, k: nat)
    requires cs > 0 && r + k <= n && k <= 10
    ensures Fat32Length(n, r, cs, 512) - 1 <= Fat32Length(n, r + k, cs, 512) <= Fat32Length(n, r, cs, 512)
  {
    ClustersNear(n, cs, r, k);
  }

  lemma AlignedMod8(r: nat, f: nat)
    ensures Aligned(r, f, 512) <==> (r + 2 * f) % 8 == 0
  {
    assert r * 512 + f * 2 * 512 == 512 * (r + 2 * f);
  }

  lemma UpToEight(f: nat, f': nat, b: nat, k: nat)
    requires b == (if (32 + 2 * f) % 8 == 0 then 0 else 8 - (32 + 2 * f) % 8) && 2 * f == 2 * f' + k
    ensures (32 + b + k + 2 * f') % 8 == 0
  {
  }

  /** For every size the search stops, with at most 41 reserved sectors. */
  lemma SearchStops(n: nat, cs: nat, ss: nat) returns (r: nat)
    requires cs > 0 && SectorSize(ss) && n >= 42
    ensures 32 <= r <= 41 && Aligned(r, Fat32Length(n, r, cs, ss), ss)
  {
    hide Fat32Length;
    if ss != 512 {
      return 32;
    }
    var f := Fat32Length(n, 32, cs, 512);
    var a := (32 + 2 * f) % 8;
    var b := if a == 0 then 0 else 8 - a;
    FatNear(n, cs, 32, b);
    FatNear(n, cs, 32, b + 2);
    FatNear(n, cs, 32 + b, 2);
    if Fat32Length(n, 32 + b, cs, 512) == f {
      r := 32 + b;
      UpToEight(f, f, b, 0);
    } else {
      r := 34 + b;
      assert Fat32Length(n, r, cs, 512) == f - 1;
      UpToEight(f, f - 1, b, 2);
    }
    AlignedMod8(r, Fat32Length(n, r, cs, 512));
  }

  /** It stops at the first aligned number. */
  lemma {:induction false} FirstAlignedFacts(n: nat, cs: nat, ss: nat, r: nat)
    requires cs > 0 && ss > 0 && r <= 41
    ensures var k := FirstAligned(n, cs, ss, r);
      && r <= k <= 41 && (k < 41 ==> Aligned(k, Fat32Length(n, k, cs, ss), ss))
      && forall j :: r <= j < k ==> !Aligned(j, Fat32Length(n, j, cs, ss), ss)
    decreases 41 - r
  {
    hide Fat32Length, Aligned;
    if r < 41 && !Aligned(r, Fat32Length(n, r, cs, ss), ss) {
      FirstAlignedFacts(n, cs, ss, r + 1);
    }
  }

  /** Sectors besides the FATs and clusters; the root directory of FAT32 is made of clusters. */
  function Around(bits: nat, reserved: nat, ss: nat): nat
    requires ss > 0
  {
    reserved + if bits == 32 then 0 else CeilDiv(512 * 32, ss)
  }

  // ----- The `int` fields -----

  const INT_LIMIT: nat := 0x8000_0000

  /** A value computed as an `int`. */
  function Int(x: nat): (r: nat)
    requires x < INT_LIMIT
    ensures r == x
  {
    x
  }

  /** What FAT12 and FAT16 compute from the number of clusters stays an `int`. */
  predicate SmallSafe(bits: nat, small: nat, ss: nat) {
    if bits == 12 then 3 * small + 1 < INT_LIMIT && (3 * small + 1) / 2 + ss < INT_LIMIT else 2 * small + ss < INT_LIMIT
  }

  /** And what one turn of the FAT32 search computes. */
  predicate TurnSafe(n: nat, ss: nat, cs: nat, r: nat)
    requires cs > 0 && ss > 0
  {
    && 4 * Clusters(n, r, cs) + ss < INT_LIMIT && 2 * Fat32Length(n, r, cs, ss) < INT_LIMIT
    && (ss == TC_SECTOR_SIZE_LEGACY ==> r * ss + Fat32Length(n, r, cs, ss) * 2 * ss < INT_LIMIT)
  }

  /** Everything GetFatParams computes as an `int` stays one. */
  predicate IntSafe(n: nat, ss: nat, cs: nat)
    requires cs > 0 && ss > 0
  {
    var small := Clusters(n, 2 + CeilDiv(512 * 32, ss), cs);
    && cs * ss < INT_LIMIT && SmallSafe(12, small, ss) && (small >= 4085 ==> SmallSafe(16, small, ss))
    && (small >= 65525 ==> forall r :: 32 <= r <= Reserved(n, ss, cs) ==> TurnSafe(n, ss, cs, r))
  }

  function ClusterLimit(ss: nat): nat
    requires ss <= 4096
  {
    if ss == TC_SECTOR_SIZE_LEGACY then 268432897 else 0x2000_0000 - ss / 4
  }

  /** The volume and cluster sizes for which it does. */
  predicate FitsInt(n: nat, ss: nat, cs: nat)
    requires ss <= 4096
  {
    cs * ss < INT_LIMIT && n < 32 + cs * ClusterLimit(ss)
  }

  /** The layout chosen: the FAT type, the reserved sectors; FATs for all clusters counted before the FATs are
      taken off; then as many clusters fewer as the FATs fill. */
  ghost predicate IsLayout(n: nat, ss: nat, cs: nat, bits: nat, reserved: nat, fatLength: nat, count: int)
    requires ss > 0 && cs > 0
  {
    var all := Clusters(n, Around(bits, reserved, ss), cs);
    && bits == FatBits(n, ss, cs) && reserved == Reserved(n, ss, cs)
    && (if bits == 32 then 32 <= reserved <= 41 && Aligned(reserved, fatLength, ss) else reserved == 2)
    && Around(bits, reserved, ss) <= n && fatLength == FatSectors(bits, all, ss)
    && count == all - fatLength * 2 / cs
  }

  /** fatparams */
  class FatParams {
    var num_sectors: nat
    var cluster_count: int
    var size_root_dir: nat
    var size_fat: nat
    var fats: nat
    var media: nat
    var cluster_size: nat
    var fat_length: nat
    var dir_entries: nat
    const sector_size: nat
    var hidden: nat
    var reserved: nat
    var sectors: nat
    var total_sect: nat
    var heads: nat
    var secs_track: nat

    constructor (num_sectors: nat, sector_size: nat, cluster_size: nat)
      ensures this.num_sectors == num_sectors && this.sector_size == sector_size && this.cluster_size == cluster_size
    {
      this.num_sectors, this.sector_size, this.cluster_size := num_sectors, sector_size, cluster_size;
    }

    ghost predicate Layout()
      requires sector_size > 0
      reads this
    {
      && cluster_size > 0 && fats == 2
      && IsLayout(num_sectors, sector_size, cluster_size, size_fat, reserved, fat_length, cluster_count)
      && size_root_dir == (if size_fat == 32 then cluster_size * sector_size else 512 * 32)
      && (if num_sectors >= 65536 || size_fat == 32 then sectors == 0 && total_sect == num_sectors
          else sectors == num_sectors && total_sect == 0)
    }

    /** Lines 32 to 71: the default cluster size, and one sector for small volumes. */
    method ChooseClusterSize()
      requires SectorSize(sector_size)
      modifies this`cluster_size
      ensures cluster_size == ChosenCluster(old(cluster_size), num_sectors * sector_size, sector_size) > 0
    {
      hide ClusterBytes;
      DefaultPositive(num_sectors * sector_size, sector_size);
      var volumeSize := num_sectors * sector_size;
      if cluster_size == 0 {
        cluster_size := ClusterBytes(volumeSize) / sector_size;
        if cluster_size == 0 {
          cluster_size := 1;
        }
        if cluster_size * sector_size > TC_MAX_FAT_CLUSTER_SIZE {
          cluster_size := TC_MAX_FAT_CLUSTER_SIZE / sector_size;
        }
        if cluster_size > 128 {
          cluster_size := 128;
        }
      }
      if volumeSize <= TC_MAX_FAT_CLUSTER_SIZE * 4 {
        cluster_size := 1;
      }
    }

    /** Lines 84 to 98: FAT12, and again FAT16. */
    method SmallFat(bits: nat)
      requires (bits == 12 || bits == 16) && sector_size >= 512 && cluster_size > 0 && size_root_dir == 512 * 32
      requires 2 + CeilDiv(512 * 32, sector_size) <= num_sectors
      requires SmallSafe(bits, Clusters(num_sectors, 2 + CeilDiv(512 * 32, sector_size), cluster_size), sector_size)
      requires cluster_size * sector_size < INT_LIMIT
      modifies this`size_fat, this`reserved, this`cluster_count, this`fat_length
      ensures size_fat == bits && reserved == 2
      ensures cluster_count == Clusters(num_sectors, 2 + CeilDiv(512 * 32, sector_size), cluster_size)
      ensures fat_length == FatSectors(bits, cluster_count, sector_size) && fat_length * 2 < INT_LIMIT
    {
      size_fat := bits;
      reserved := 2;
      hide Clusters;
      var fatsecs := num_sectors - (size_root_dir + sector_size - 1) / sector_size - reserved;
      CountIs(num_sectors, 2 + CeilDiv(512 * 32, sector_size), cluster_size, sector_size);
      cluster_count := Int((fatsecs * sector_size) / Int(cluster_size * sector_size));
      fat_length := if bits == 12 then (Int(Int(cluster_count * 3 + 1) / 2 + sector_size) - 1) / sector_size
        else (Int(cluster_count * 2 + sector_size) - 1) / sector_size;
      FarBelow(if bits == 12 then (cluster_count * 3 + 1) / 2 + sector_size - 1 else cluster_count * 2 + sector_size - 1, sector_size);
    }

    /** Lines 107 to 112: the FAT32 layout with one more reserved sector. */
    method NextFat32()
      requires sector_size > 0 && cluster_size > 0 && reserved < num_sectors
      requires TurnSafe(num_sectors, sector_size, cluster_size, reserved + 1) && cluster_size * sector_size < INT_LIMIT
      modifies this`size_root_dir, this`reserved, this`cluster_count, this`fat_length
      ensures reserved == old(reserved) + 1 && size_root_dir == cluster_size * sector_size
      ensures cluster_count == Clusters(num_sectors, reserved, cluster_size)
      ensures fat_length == Fat32Length(num_sectors, reserved, cluster_size, sector_size)
    {
      reserved := reserved + 1;
      hide Clusters;
      var fatsecs := num_sectors - reserved;
      size_root_dir := Int(cluster_size * sector_size);
      CountIs(num_sectors, reserved, cluster_size, sector_size);
      cluster_count := Int((fatsecs * sector_size) / Int(cluster_size * sector_size));
      fat_length := (Int(cluster_count * 4 + sector_size) - 1) / sector_size;
    }

    /** Lines 100 to 118: FAT32, with reserved sectors added until the data area is aligned. */
    method SearchFat32()
      requires SectorSize(sector_size) && cluster_size > 0 && fats == 2 && num_sectors >= 65525
      requires cluster_size * sector_size < INT_LIMIT
      requires forall r :: 32 <= r <= FirstAligned(num_sectors, cluster_size, sector_size, 32) ==>
        TurnSafe(num_sectors, sector_size, cluster_size, r)
      modifies this`size_fat, this`size_root_dir, this`reserved, this`cluster_count, this`fat_length
      ensures size_fat == 32 && 32 <= reserved <= 41 && Aligned(reserved, fat_length, sector_size)
      ensures reserved == FirstAligned(num_sectors, cluster_size, sector_size, 32)
      ensures cluster_count == Clusters(num_sectors, reserved, cluster_size)
      ensures fat_length == Fat32Length(num_sectors, reserved, cluster_size, sector_size)
      ensures size_root_dir == cluster_size * sector_size && fat_length * 2 < INT_LIMIT
    {
      hide Fat32Length, Clusters, Aligned;
      size_fat := 32;
      ghost var n, cs, ss := num_sectors, cluster_size, sector_size;
      ghost var stop := SearchStops(n, cs, ss);
      FirstAlignedFacts(n, cs, ss, 32);
      reserved := 32 - 1;
      NextFat32();
      while sector_size == TC_SECTOR_SIZE_LEGACY && Misaligned()
        invariant 32 <= reserved <= stop && reserved <= FirstAligned(n, cs, ss, 32) == FirstAligned(n, cs, ss, reserved)
        invariant TurnSafe(n, ss, cs, reserved)
        invariant cluster_count == Clusters(n, reserved, cs) && fat_length == Fat32Length(n, reserved, cs, ss)
        invariant size_root_dir == cs * ss
        modifies this`size_root_dir, this`reserved, this`cluster_count, this`fat_length
        decreases stop - reserved
      {
        AlignedIs(reserved, fat_length, sector_size);
        FirstAlignedFacts(n, cs, ss, reserved + 1);
        NextFat32();
      }
      AlignedIs(reserved, fat_length, sector_size);
    }

    /** The condition of the search. */
    predicate Misaligned()
      requires sector_size == TC_SECTOR_SIZE_LEGACY && fats == 2
      requires reserved * sector_size + fat_length * 2 * sector_size < INT_LIMIT
      reads this
    {
      Int(Int(reserved * sector_size) + Int(Int(fat_length * fats) * sector_size)) % TC_MAX_VOLUME_SECTOR_SIZE != 0
    }

    /** GetFatParams, for the volume and cluster sizes that keep every `int` in range. */
    method GetFatParams()
      requires SectorSize(sector_size) && num_sectors * sector_size >= TC_MIN_FAT_FS_SIZE
      requires FitsInt(num_sectors, sector_size, ChosenCluster(cluster_size, num_sectors * sector_size, sector_size))
      modifies this
      ensures num_sectors == old(num_sectors)
      ensures cluster_size == ChosenCluster(old(cluster_size), num_sectors * sector_size, sector_size)
      ensures Layout()
    {
      hide DefaultCluster, ClusterBytes, Clusters, Aligned, CeilDiv, TurnSafe, ChosenCluster, FirstAligned, SmallSafe;
      SmallRoot(num_sectors, sector_size);
      PositiveSize(sector_size);
      ChooseClusterSize();
      FitsIntExactly(num_sectors, sector_size, cluster_size);
      secs_track, heads := 1, 1;
      dir_entries, fats, media, hidden := 512, 2, 0xf8, 0;
      size_root_dir := dir_entries * 32;

      SmallFat(12);
      if cluster_count >= 4085 {
        SmallFat(16);
      }

      if cluster_count >= 65525 {
        ManyClusters(num_sectors, 2 + CeilDiv(512 * 32, sector_size), cluster_size);
        SearchFat32();
      }

      cluster_count := cluster_count - Int(fat_length * fats) / cluster_size;

      if num_sectors >= 65536 || size_fat == 32 {
        sectors, total_sect := 0, num_sectors;
      } else {
        sectors, total_sect := num_sectors, 0;
      }
    }
  }

  function ChosenCluster(asked: nat, volumeSize: nat, ss: nat): nat
    requires ss > 0
  {
    if volumeSize <= TC_MAX_FAT_CLUSTER_SIZE * 4 then 1 else if asked == 0 then DefaultCluster(volumeSize, ss) else asked
  }

  lemma DefaultPositive(volumeSize: nat, ss: nat)
    requires SectorSize(ss)
    ensures ss > 0 && TC_MAX_FAT_CLUSTER_SIZE / ss >= 64 && 1 <= DefaultCluster(volumeSize, ss) <= 128
  {
    hide ClusterBytes;
    var k := ss / 512;
    assert ss == 512 * k && 1 <= k <= 8;
    assert k == 1 || k == 2 || k == 3 || k == 4 || k == 5 || k == 6 || k == 7 || k == 8;
  }

  lemma CountIs(n: nat, before: nat, cs: nat, ss: nat)
    requires cs > 0 && ss > 0 && before <= n
    ensures cs * ss > 0 && ((n - before) * ss) / (cs * ss) == Clusters(n, before, cs)
  {
    Cancel(n - before, cs, ss);
  }

  lemma PositiveSize(ss: nat)
    requires SectorSize(ss)
    ensures ss > 0
  {
  }

  lemma AlignedIs(reserved: nat, f: nat, ss: nat)
    ensures Aligned(reserved, f, ss) <==> !(ss == TC_SECTOR_SIZE_LEGACY && (reserved * ss + f * 2 * ss) % TC_MAX_VOLUME_SECTOR_SIZE != 0)
  {
  }

  lemma ManyClusters(n: nat, before: nat, cs: nat)
    requires cs > 0 && Clusters(n, before, cs) >= 65525
    ensures n >= 65525
  {
    assert n - before == cs * ((n - before) / cs) + (n - before) % cs;
    Scale((n - before) / cs, 1, cs);
  }

  lemma Cancel(x: nat, c: nat, s: nat)
    requires c > 0 && s > 0
    ensures c * s > 0 && (x * s) / (c * s) == x / c
  {
    var q, r := x / c, x % c;
    assert x == c * q + r;
    assert x * s == (c * s) * q + r * s;
    Scale(s, r + 1, c);
    assert 0 <= r * s < c * s;
    Quotient(x * s, c * s, q, r * s);
  }

  lemma Quotient(x: nat, d: nat, q: nat, r: nat)
    requires d > 0 && x == d * q + r && r < d
    ensures x / d == q
  {
    var q', r' := x / d, x % d;
    assert x == d * q' + r';
    if q' < q {
      Scale(d, q' + 1, q);
    } else if q' > q {
      Scale(d, q + 1, q');
    }
  }

  // ----- When the `int` fields suffice -----

  lemma QuotientBelow(x: nat, c: nat, m: nat)
    requires c > 0
    ensures x / c < m <==> x < c * m
  {
    assert x == c * (x / c) + x % c;
    if x / c < m {
      Scale(c, x / c + 1, m);
    } else {
      Scale(c, m, x / c);
    }
  }

  function UpTo8(x: nat): nat { (x + 7) / 8 * 8 }

  lemma EightTimes(x: nat)
    ensures x <= UpTo8(x) < x + 8 && UpTo8(x) == 8 * (UpTo8(x) / 8) && UpTo8(x) % 8 == 0
  {
  }

  /** `f` and `fr`, `fe` are the FAT lengths at 32, `r` and `e` reserved sectors; `q` is 32 + 2 * f in eighths, rounded up. */
  lemma Rounds(f: nat, r: nat, fr: nat, e: int, fe: nat, a: nat, q: nat)
    requires 32 <= r <= 41 && fr <= f <= fr + 1 && (r == 32 ==> fr == f) && r + 2 * fr == 8 * a
    requires 32 + 2 * f <= 8 * q < 32 + 2 * f + 8 && e + 2 * f == 8 * q
    requires e < r ==> fr <= fe <= f && e + 2 * fe != 8 * q
    ensures a == q
  {
  }

  /** A turn of the search before its end. */
  lemma TurnBefore(n: nat, cs: nat, k: nat, r: nat)
    requires cs > 0 && n >= 42 && 32 <= k <= r <= 41
    ensures var f := Fat32Length(n, 32, cs, 512);
      f - 1 <= Fat32Length(n, r, cs, 512) <= Fat32Length(n, k, cs, 512) <= f
    ensures Aligned(k, Fat32Length(n, k, cs, 512), 512) <==> (k + 2 * Fat32Length(n, k, cs, 512)) % 8 == 0
  {
    hide Fat32Length, Aligned;
    FatNear(n, cs, 32, k - 32);
    FatNear(n, cs, 32, r - 32);
    FatNear(n, cs, k, r - k);
    AlignedMod8(k, Fat32Length(n, k, cs, 512));
  }

  /** Where the search ends: the number of sectors before the data area is rounded up to a multiple of 8. */
  lemma RoundedUp(n: nat, cs: nat)
    requires cs > 0 && n >= 42
    ensures var f, r := Fat32Length(n, 32, cs, 512), FirstAligned(n, cs, 512, 32);
      && 32 <= r <= 41 && r + 2 * Fat32Length(n, r, cs, 512) == UpTo8(32 + 2 * f)
      && forall k :: 32 <= k <= r ==> k + 2 * Fat32Length(n, k, cs, 512) <= UpTo8(32 + 2 * f) + 1
  {
    hide Fat32Length, FirstAligned, Aligned, UpTo8;
    var f, r := Fat32Length(n, 32, cs, 512), FirstAligned(n, cs, 512, 32);
    EightTimes(32 + 2 * f);
    FirstAlignedFacts(n, cs, 512, 32);
    var stop := SearchStops(n, cs, 512);
    TurnBefore(n, cs, r, r);
    assert stop >= r && Aligned(r, Fat32Length(n, r, cs, 512), 512);
    var e := UpTo8(32 + 2 * f) - 2 * f;
    if e < r {
      TurnBefore(n, cs, e, r);
    }
    var fr := Fat32Length(n, r, cs, 512);
    Rounds(f, r, fr, e, Fat32Length(n, e, cs, 512), (r + 2 * fr) / 8, UpTo8(32 + 2 * f) / 8);
    forall k | 32 <= k <= r
      ensures k + 2 * Fat32Length(n, k, cs, 512) <= UpTo8(32 + 2 * f) + 1
    {
      TurnBefore(n, cs, k, r);
    }
  }

  lemma FarBelow(x: nat, ss: nat)
    requires ss >= 512 && x < INT_LIMIT
    ensures x / ss * 2 < INT_LIMIT
  {
    QuotientBelow(x, ss, 0x40_0001);
    Scale(0x40_0001, 512, ss);
  }

  lemma SmallRoot(n: nat, ss: nat)
    requires SectorSize(ss) && n * ss >= TC_MIN_FAT_FS_SIZE
    ensures 2 + CeilDiv(512 * 32, ss) <= n
  {
    var k := ss / 512;
    assert ss == 512 * k && 1 <= k <= 8;
    assert k == 1 || k == 2 || k == 3 || k == 4 || k == 5 || k == 6 || k == 7 || k == 8;
  }

  // ----- What a layout is good for -----

  lemma FatIsSmall(bits: nat, count: nat, ss: nat)
    requires ss >= 512 && bits in {12, 16, 32}
    ensures count >= 3 ==> 2 * FatSectors(bits, count, ss) <= count
    ensures count <= 2 ==> FatSectors(bits, count, ss) <= 1
    ensures count == 0 ==> FatSectors(bits, count, ss) == 0
  {
    var bytes := if bits == 12 then (count * 3 + 1) / 2 else if bits == 16 then count * 2 else count * 4;
    var f := (bytes + ss - 1) / ss;
    assert bytes + ss - 1 == ss * f + (bytes + ss - 1) % ss;
    if f >= 1 {
      Scale(f - 1, 512, ss);
      assert ss * (f - 1) == ss * f - ss;
    }
  }

  lemma Enough(n: nat, ss: nat)
    requires SectorSize(ss) && n * ss >= TC_MIN_FAT_FS_SIZE
    ensures 2 + CeilDiv(512 * 32, ss) + 3 <= n
  {
    var k := ss / 512;
    assert ss == 512 * k && 1 <= k <= 8;
    assert k == 1 || k == 2 || k == 3 || k == 4 || k == 5 || k == 6 || k == 7 || k == 8;
  }

  lemma ClustersFill(n: nat, before: nat, cs: nat)
    requires cs > 0 && before <= n
    ensures n - before == cs * Clusters(n, before, cs) + (n - before) % cs
    ensures Clusters(n, before, cs) <= cs * Clusters(n, before, cs) <= n - before
  {
    Scale(Clusters(n, before, cs), 1, cs);
  }

  /** Whatever the cluster size, the reserved sectors, both FATs and the root directory fit in the volume. */
  lemma LayoutFits(n: nat, ss: nat, cs: nat, bits: nat, reserved: nat, f: nat, count: int)
    requires SectorSize(ss) && cs > 0 && n * ss >= TC_MIN_FAT_FS_SIZE && IsLayout(n, ss, cs, bits, reserved, f, count)
    ensures Around(bits, reserved, ss) + 2 * f <= n
  {
    hide FatSectors, Clusters, Aligned, CeilDiv;
    var before := Around(bits, reserved, ss);
    var all := Clusters(n, before, cs);
    ClustersFill(n, before, cs);
    FatIsSmall(bits, all, ss);
    Enough(n, ss);
    if all <= 2 {
      if bits == 32 {
        ManyClusters(n, 2 + CeilDiv(512 * 32, ss), cs);
      }
      if cs == 1 {
        One(n - before);
      } else if all > 0 {
        Scale(all, 2, cs);
      }
    }
  }

  lemma One(x: nat)
    ensures x % 1 == 0
  {
  }

  /** Where the last counted cluster ends, exactly: past the end of the volume if and only if the FATs do not
      fill whole clusters and leave more over than the data area does; never a cluster or more. */
  lemma ClustersEnd(n: nat, ss: nat, cs: nat, bits: nat, reserved: nat, f: nat, count: int)
    requires SectorSize(ss) && cs > 0 && IsLayout(n, ss, cs, bits, reserved, f, count)
    ensures var before := Around(bits, reserved, ss);
      && before + 2 * f + count * cs == n + (2 * f) % cs - (n - before) % cs
      && (before + 2 * f + count * cs > n <==> (2 * f) % cs > (n - before) % cs)
      && before + 2 * f + count * cs < n + cs
  {
    hide FatSectors, Clusters, Aligned, CeilDiv;
    var before := Around(bits, reserved, ss);
    var all := Clusters(n, before, cs);
    ClustersFill(n, before, cs);
    var q := 2 * f / cs;
    assert f * 2 == 2 * f;
    assert 2 * f == cs * q + (2 * f) % cs;
    assert count * cs == cs * all - cs * q;
  }

  /** With the default cluster size the last of 1048622 sectors is two sectors before the end of the last cluster. */
  lemma PastTheEnd()
    ensures ChosenCluster(0, 1048622 * 512, 512) == 8 && IsLayout(1048622, 512, 8, 32, 38, 1025, 130817)
    ensures Around(32, 38, 512) + 2 * 1025 + 130817 * 8 == 1048622 + 2
  {
    var n := 1048622;
    forall r | 32 <= r <= 38
      ensures Fat32Length(n, r, 8, 512) == 1025
      ensures Aligned(r, 1025, 512) <==> r == 38
    {
      assert Clusters(n, r, 8) == 131073;
      AlignedMod8(r, 1025);
    }
    FirstAlignedFacts(n, 8, 512, 32);
    assert Clusters(n, 2 + CeilDiv(512 * 32, 512), 8) == 131073;
  }

  /** The FATs have an entry for every counted cluster and the two numbers that are not used. */
  predicate Indexes(ss: nat, bits: nat, f: nat, count: int) { (count + 2) * bits <= f * ss * 8 }

  /** Entries of a FAT that long beyond the clusters it was made for, two at least wanted after taking off clusters. */
  lemma FatHolds(bits: nat, all: nat, ss: nat)
    requires ss > 0 && bits in {12, 16, 32}
    ensures all * bits <= FatSectors(bits, all, ss) * ss * 8
  {
    var bytes := if bits == 12 then (all * 3 + 1) / 2 else if bits == 16 then all * 2 else all * 4;
    var f := (bytes + ss - 1) / ss;
    assert bytes + ss - 1 == ss * f + (bytes + ss - 1) % ss;
    assert f * ss == ss * f;
  }

  /** It does whenever a FAT has at least as many sectors as a cluster. */
  lemma LongFatIndexes(n: nat, ss: nat, cs: nat, bits: nat, reserved: nat, f: nat, count: int)
    requires SectorSize(ss) && cs > 0 && IsLayout(n, ss, cs, bits, reserved, f, count) && f >= cs
    ensures Indexes(ss, bits, f, count)
  {
    hide FatSectors, Clusters, Aligned, CeilDiv;
    var all := Clusters(n, Around(bits, reserved, ss), cs);
    FatHolds(bits, all, ss);
    TwiceOver(f, cs);
    assert count + 2 <= all;
    Scale(bits, count + 2, all);
  }

  lemma TwiceOver(f: nat, cs: nat)
    requires f >= cs > 0
    ensures f * 2 / cs >= 2
  {
    var q := f * 2 / cs;
    assert f * 2 == cs * q + f * 2 % cs;
    if q <= 1 {
      Scale(cs, q, 1);
    }
  }

  /** Bits rounded up to bytes and bytes to sectors. */
  lemma RoundedTwice(x: nat, bytes: nat, ss: nat)
    requires ss > 0 && x <= 8 * bytes < x + 8
    ensures CeilDiv(bytes, ss) == CeilDiv(x, 8 * ss)
  {
    var f, r := (bytes + ss - 1) / ss, (bytes + ss - 1) % ss;
    assert bytes + ss - 1 == ss * f + r;
    assert (8 * ss) * f == 8 * (ss * f);
    Quotient(x + 8 * ss - 1, 8 * ss, f, 8 * r + x + 7 - 8 * bytes);
  }

  lemma FatSectorsAre(bits: nat, all: nat, ss: nat)
    requires ss > 0 && bits in {12, 16, 32}
    ensures FatSectors(bits, all, ss) == CeilDiv(all * bits, 8 * ss)
  {
    hide CeilDiv;
    if bits == 12 {
      RoundedTwice(all * 12, (all * 3 + 1) / 2, ss);
    } else if bits == 16 {
      RoundedTwice(all * 16, all * 2, ss);
    } else {
      RoundedTwice(all * 32, all * 4, ss);
    }
  }

  lemma Slack(x: nat, w: nat)
    requires w > 0
    ensures CeilDiv(x, w) * w - x == if x % w == 0 then 0 else w - x % w
  {
    var q, r := x / w, x % w;
    assert x == w * q + r;
    var k := if r == 0 then 0 else 1;
    assert x + w - 1 == w * (q + k) + (r + w - 1 - w * k);
    Quotient(x + w - 1, w, q + k, r + w - 1 - w * k);
    assert (q + k) * w == w * q + w * k;
  }

  lemma Halves(f: nat, cs: nat)
    requires f < cs
    ensures f * 2 / cs == if 2 * f < cs then 0 else 1
  {
    Quotient(f * 2, cs, if 2 * f < cs then 0 else 1, if 2 * f < cs then 2 * f else 2 * f - cs);
  }

  /** The volumes whose FAT does not do: it is shorter than a cluster, and its last sector ends before the two
      numbers, or the one, for which no removed cluster makes room. */
  predicate LacksEntries(n: nat, ss: nat, cs: nat)
    requires ss > 0 && cs > 0
  {
    var bits := FatBits(n, ss, cs);
    var x, w := Clusters(n, Around(bits, Reserved(n, ss, cs), ss), cs) * bits, 8 * ss;
    var f := CeilDiv(x, w);
    f < cs && (x % w == 0 || w - x % w < (if 2 * f < cs then 2 else 1) * bits)
  }

  lemma Spare(all: nat, count: int, f: nat, ss: nat, bits: nat, q: nat)
    requires count == all - q && q <= 1
    ensures Indexes(ss, bits, f, count) <==> f * (8 * ss) - all * bits >= (if q == 0 then 2 else 1) * bits
  {
    assert f * (8 * ss) == f * ss * 8;
    assert (count + 2) * bits == all * bits + (2 - q) * bits;
  }

  /** In general exactly for the others. */
  lemma IndexesExactly(n: nat, ss: nat, cs: nat, bits: nat, reserved: nat, f: nat, count: int)
    requires SectorSize(ss) && cs > 0 && IsLayout(n, ss, cs, bits, reserved, f, count)
    ensures Indexes(ss, bits, f, count) <==> !LacksEntries(n, ss, cs)
  {
    hide FatSectors, Clusters, Aligned, CeilDiv, Reserved, Indexes;
    var all := Clusters(n, Around(bits, reserved, ss), cs);
    FatSectorsAre(bits, all, ss);
    if f >= cs {
      LongFatIndexes(n, ss, cs, bits, reserved, f, count);
    } else {
      Slack(all * bits, 8 * ss);
      Halves(f, cs);
      Spare(all, count, f, ss, bits, f * 2 / cs);
    }
  }

  /** A cluster size of 64 KB asked for on a volume of 43682 sectors of 512 bytes: the FAT is one sector and has no
      entries for the last clusters. */
  lemma AskedClusterFails()
    ensures IsLayout(43682, 512, 128, 12, 2, 1, 341) && !Indexes(512, 12, 1, 341)
  {
  }

  /** The default cluster size never makes clusters larger than a FAT. */
  lemma DefaultLongFat(n: nat, ss: nat, cs: nat, bits: nat, reserved: nat, f: nat, count: int)
    requires SectorSize(ss) && n * ss >= TC_MIN_FAT_FS_SIZE && cs == ChosenCluster(0, n * ss, ss) > 0
    requires IsLayout(n, ss, cs, bits, reserved, f, count)
    ensures f >= cs
  {
    hide FatSectors, Clusters, Aligned, CeilDiv, DefaultCluster;
    var before := Around(bits, reserved, ss);
    var all := Clusters(n, before, cs);
    ClustersFill(n, before, cs);
    FatHolds(bits, all, ss);
    Enough(n, ss);
    if cs == 1 {
      One(n - before);
      if bits == 32 {
        ManyClusters(n, 2 + CeilDiv(512 * 32, ss), cs);
      }
      assert all >= 3;
      Scale(bits, 3, all);
      assert f == 0 ==> f * ss == 0;
    } else {
      LargeVolume(n, ss, cs);
      if cs == 2 && ss == 512 && n < 131072 * cs {
        RootSectors(ss);
        assert n - before >= 2048 - 41;
        Scale(bits, 900, all);
        assert f * ss * 8 == 4096 * f;
      } else {
        RootSectors(ss);
        ManyDefault(n, 2 + CeilDiv(512 * 32, ss), cs);
        assert bits == 32;
        ManyDefault(n, before, cs);
        assert f * ss * 8 == 8 * (ss * f);
        Unscale(ss, cs, f);
      }
    }
  }

  lemma RootSectors(ss: nat)
    requires SectorSize(ss)
    ensures 2 + CeilDiv(512 * 32, ss) <= 34
  {
    var k := ss / 512;
    assert ss == 512 * k && 1 <= k <= 8;
    assert k == 1 || k == 2 || k == 3 || k == 4 || k == 5 || k == 6 || k == 7 || k == 8;
  }

  lemma ManyDefault(n: nat, before: nat, cs: nat)
    requires cs > 0 && n >= 131072 * cs && before <= 41
    ensures Clusters(n, before, cs) >= 131000
  {
    ClustersFill(n, before, cs);
    if Clusters(n, before, cs) < 131000 {
      Scale(cs, Clusters(n, before, cs) + 1, 131000);
    }
  }

  lemma ClusterBytesRoom(volumeSize: nat)
    ensures var b := ClusterBytes(volumeSize); b == 512 || b == KB || (b >= 2 * KB && volumeSize >= 131072 * b)
  {
  }

  lemma DivTimes(a: nat, b: nat)
    requires b > 0
    ensures b * (a / b) <= a
  {
    assert a == b * (a / b) + a % b;
  }

  lemma DefaultBytes(volumeSize: nat, ss: nat)
    requires SectorSize(ss) && DefaultCluster(volumeSize, ss) >= 2
    ensures var cs := DefaultCluster(volumeSize, ss); cs * ss <= ClusterBytes(volumeSize) && cs * ss <= TC_MAX_FAT_CLUSTER_SIZE
  {
    hide ClusterBytes;
    var bytes := ClusterBytes(volumeSize);
    BytesOfClusters(bytes, bytes / ss, ss, TC_MAX_FAT_CLUSTER_SIZE / ss, DefaultCluster(volumeSize, ss));
  }

  /** The default size, its two quotients given as numbers. */
  lemma BytesOfClusters(bytes: nat, c0: nat, ss: nat, most: nat, cs: nat)
    requires ss > 0 && c0 == bytes / ss && most == TC_MAX_FAT_CLUSTER_SIZE / ss && cs >= 2
    requires var c1 := if c0 == 0 then 1 else c0;
      var c2 := if c1 * ss > TC_MAX_FAT_CLUSTER_SIZE then most else c1;
      cs == if c2 > 128 then 128 else c2
    ensures cs * ss <= bytes && cs * ss <= TC_MAX_FAT_CLUSTER_SIZE
  {
    DivTimes(bytes, ss);
    DivTimes(TC_MAX_FAT_CLUSTER_SIZE, ss);
    if c0 * ss > TC_MAX_FAT_CLUSTER_SIZE {
      Scale(ss, cs, most);
    } else {
      if cs > c0 {
        Scale(ss, 1, most);
      } else {
        Scale(ss, cs, c0);
      }
    }
  }

  /** A default cluster of two sectors or more: a megabyte of 512-byte sectors, or room for 131072 clusters. */
  lemma LargeVolume(n: nat, ss: nat, cs: nat)
    requires SectorSize(ss) && cs == ChosenCluster(0, n * ss, ss) && cs >= 2
    ensures (cs == 2 && ss == 512 && n > 2048) || n >= 131072 * cs
    ensures cs * ss <= TC_MAX_FAT_CLUSTER_SIZE
  {
    hide ClusterBytes, DefaultCluster;
    ClusterBytesRoom(n * ss);
    DefaultBytes(n * ss, ss);
    RoomInClusters(n, ss, cs, ClusterBytes(n * ss));
  }

  lemma RoomInClusters(n: nat, ss: nat, cs: nat, bytes: nat)
    requires SectorSize(ss) && cs >= 2 && cs * ss <= bytes && n * ss > TC_MAX_FAT_CLUSTER_SIZE * 4
    requires bytes == 512 || bytes == KB || (bytes >= 2 * KB && n * ss >= 131072 * bytes)
    ensures (cs == 2 && ss == 512 && n > 2048) || n >= 131072 * cs
  {
    if bytes >= 2 * KB {
      Associate(131072, cs, ss);
      NotLess(n, 131072 * cs, ss);
    } else {
      AtMostTwo(cs, ss);
    }
  }

  lemma Associate(a: nat, b: nat, c: nat)
    ensures (a * b) * c == a * (b * c)
  {
  }

  lemma NotLess(n: nat, k: nat, ss: nat)
    requires ss > 0 && n * ss >= k * ss
    ensures n >= k
  {
    if n < k {
      Scale(ss, n + 1, k);
    }
  }

  lemma AtMostTwo(cs: nat, ss: nat)
    requires SectorSize(ss) && cs >= 2 && cs * ss <= KB
    ensures cs == 2 && ss == 512
  {
    Scale(cs, 512, ss);
    Scale(ss, 2, cs);
  }

  /** The clusters counted for FAT12 and FAT16 are about those of FAT32. */
  lemma SmallNear(n: nat, ss: nat, cs: nat)
    requires SectorSize(ss) && cs > 0 && n >= 42
    ensures Clusters(n, 2 + CeilDiv(512 * 32, ss), cs) <= Clusters(n, 32, cs) + 30
    ensures ss == 512 ==> Clusters(n, 2 + CeilDiv(512 * 32, ss), cs) <= Clusters(n, 32, cs)
  {
    RootSectors(ss);
    var before := 2 + CeilDiv(512 * 32, ss);
    if before <= 32 {
      ClustersNear(n, cs, before, 32 - before);
    } else {
      ClustersNear(n, cs, 32, before - 32);
    }
  }

  lemma TurnOf(n: nat, ss: nat, cs: nat, r: nat)
    requires SectorSize(ss) && cs > 0
    ensures var all, f := Clusters(n, r, cs), Fat32Length(n, r, cs, ss);
      4 * all <= ss * f < 4 * all + ss && f <= all
  {
    hide Clusters;
    var all := Clusters(n, r, cs);
    var f := (all * 4 + ss - 1) / ss;
    assert all * 4 + ss - 1 == ss * f + (all * 4 + ss - 1) % ss;
    if f > all {
      Scale(ss, all + 1, f);
      Scale(all, 4, ss);
    }
  }

  /** FAT32 with sectors of more than 512 bytes: there is no search. */
  lemma LargeSectorsFit(n: nat, ss: nat, cs: nat)
    requires SectorSize(ss) && ss > 512 && cs > 0 && n >= 65525 && FatBits(n, ss, cs) == 32 && cs * ss < INT_LIMIT
    ensures IntSafe(n, ss, cs) <==> Clusters(n, 32, cs) < ClusterLimit(ss)
  {
    hide Clusters, CeilDiv, Fat32Length;
    SmallNear(n, ss, cs);
    TurnOf(n, ss, cs, 32);
    assert Aligned(32, Fat32Length(n, 32, cs, ss), ss);
    assert Reserved(n, ss, cs) == 32;
    var k := ss / 512;
    assert ss == 512 * k;
    assert IntSafe(n, ss, cs) ==> TurnSafe(n, ss, cs, 32);
  }

  /** The search with 512-byte sectors: every turn is safe if the clusters are few enough, and the last is not
      if they are not. */
  lemma TurnFits(n: nat, cs: nat, k: nat)
    requires cs > 0 && n >= 42 && 32 <= k <= FirstAligned(n, cs, 512, 32)
    ensures Clusters(n, 32, cs) < ClusterLimit(512) ==> TurnSafe(n, 512, cs, k)
    ensures k == FirstAligned(n, cs, 512, 32) && TurnSafe(n, 512, cs, k) ==> Clusters(n, 32, cs) < ClusterLimit(512)
  {
    hide Clusters, Fat32Length, FirstAligned;
    RoundedUp(n, cs);
    TurnOf(n, 512, cs, 32);
    TurnOf(n, 512, cs, k);
    ClustersNear(n, cs, 32, k - 32);
  }

  /** FAT32 with 512-byte sectors: the alignment is computed in bytes. */
  lemma LegacySectorsFit(n: nat, cs: nat)
    requires cs > 0 && n >= 65525 && FatBits(n, 512, cs) == 32 && cs * 512 < INT_LIMIT
    ensures IntSafe(n, 512, cs) <==> Clusters(n, 32, cs) < ClusterLimit(512)
  {
    hide Clusters, CeilDiv, FirstAligned, TurnSafe;
    SmallNear(n, 512, cs);
    RoundedUp(n, cs);
    var r := Reserved(n, 512, cs);
    forall k | 32 <= k <= r
      ensures Clusters(n, 32, cs) < ClusterLimit(512) ==> TurnSafe(n, 512, cs, k)
    {
      TurnFits(n, cs, k);
    }
    TurnFits(n, cs, r);
  }

  lemma LargeFits(n: nat, ss: nat, cs: nat)
    requires SectorSize(ss) && cs > 0 && FatBits(n, ss, cs) == 32 && cs * ss < INT_LIMIT
    ensures IntSafe(n, ss, cs) <==> n < 32 + cs * ClusterLimit(ss)
  {
    hide Clusters, CeilDiv, Fat32Length, FirstAligned, TurnSafe, IntSafe;
    ManyClusters(n, 2 + CeilDiv(512 * 32, ss), cs);
    ClustersIs(n, cs);
    QuotientBelow(n - 32, cs, ClusterLimit(ss));
    if ss == 512 { LegacySectorsFit(n, cs); } else { LargeSectorsFit(n, ss, cs); }
  }

  lemma FewFit(n: nat, ss: nat, cs: nat)
    requires SectorSize(ss) && cs > 0 && n * ss >= TC_MIN_FAT_FS_SIZE && FatBits(n, ss, cs) != 32
    ensures n < 32 + cs * ClusterLimit(ss)
  {
    hide Clusters, CeilDiv;
    var before := 2 + CeilDiv(512 * 32, ss);
    SmallRoot(n, ss);
    RootSectors(ss);
    ClustersFill(n, before, cs);
    Scale(cs, Clusters(n, before, cs) + 3, ClusterLimit(ss));
    assert cs * (Clusters(n, before, cs) + 3) == cs * Clusters(n, before, cs) + 3 * cs;
  }

  /** No `int` overflows exactly if the volume has less than so many clusters. */
  lemma FitsIntExactly(n: nat, ss: nat, cs: nat)
    requires SectorSize(ss) && cs > 0 && n * ss >= TC_MIN_FAT_FS_SIZE
    ensures IntSafe(n, ss, cs) <==> FitsInt(n, ss, cs)
  {
    hide FatBits, ClusterLimit, IntSafe;
    if cs * ss >= INT_LIMIT {
      TooLarge(n, ss, cs);
    } else if FatBits(n, ss, cs) == 32 {
      LargeFits(n, ss, cs);
    } else {
      SmallFits(n, ss, cs);
      FewFit(n, ss, cs);
    }
  }

  lemma ClustersIs(n: nat, cs: nat)
    requires cs > 0 && n >= 32
    ensures Clusters(n, 32, cs) == (n - 32) / cs
  {
  }

  lemma SmallFits(n: nat, ss: nat, cs: nat)
    requires SectorSize(ss) && cs > 0 && FatBits(n, ss, cs) != 32 && cs * ss < INT_LIMIT
    ensures IntSafe(n, ss, cs)
  {
    hide Clusters, CeilDiv;
  }

  lemma TooLarge(n: nat, ss: nat, cs: nat)
    requires SectorSize(ss) && cs > 0 && cs * ss >= INT_LIMIT
    ensures !IntSafe(n, ss, cs)
  {
  }

  /** One sector per cluster asked for on 2^29 + 32 sectors of 512 bytes: four bytes per cluster are 2^31. */
  lemma SmallClusterOverflows()
    ensures IsLayout(536870944, 512, 1, 32, 32, 4194304, 528482304) && 4 * Clusters(536870944, 32, 1) == INT_LIMIT
    ensures !IntSafe(536870944, 512, 1)
  {
    var n := 536870944;
    assert Fat32Length(n, 32, 1, 512) == 4194304 && Aligned(32, 4194304, 512);
    assert FirstAligned(n, 1, 512, 32) == 32;
    FitsIntExactly(n, 512, 1);
  }

  /** The format dialog never asks for such a size: it doubles clusters while there are more than 2^25 of them
      and they have fewer than 128 sectors. */
  lemma DialogFitsInt(n: nat, ss: nat, cs: nat)
    requires SectorSize(ss) && n < 0x1_0000_0000 && 0 < cs <= 128 && (cs == 128 || n * ss / (cs * ss) <= 0x200_0000)
    ensures FitsInt(n, ss, cs)
  {
    Cancel(n, cs, ss);
    Scale(cs, ss, 4096);
    QuotientBelow(n, cs, 0x200_0001);
    Scale(cs, 0x200_0001, ClusterLimit(ss));
  }

  lemma DefaultInRange(n: nat, ss: nat, cs: nat)
    requires SectorSize(ss) && n < 0x8000_0000 && cs == ChosenCluster(0, n * ss, ss) > 0
    ensures FitsInt(n, ss, cs)
  {
    hide DefaultCluster, ClusterBytes;
    DefaultPositive(n * ss, ss);
    Scale(cs, ss, 4096);
    if n >= 0x400_0000 {
      WideCluster(n, ss, cs);
      Scale(ClusterLimit(ss), 16, cs);
    } else {
      Scale(ClusterLimit(ss), 1, cs);
    }
  }

  /** With the default cluster size everything counted is below 2^31, as the `int` fields want. */
  lemma DefaultFitsInt(n: nat, ss: nat, cs: nat, r: nat)
    requires SectorSize(ss) && n < 0x8000_0000 && cs == ChosenCluster(0, n * ss, ss) > 0 && r <= 41
    ensures var all := Clusters(n, r, cs);
      4 * all + ss < 0x8000_0000 && r * ss + FatSectors(32, all, ss) * 2 * ss < 0x8000_0000
    ensures FitsInt(n, ss, cs)
  {
    hide DefaultCluster, ChosenCluster, Clusters;
    DefaultInRange(n, ss, cs);
    DefaultCount(n, ss, cs, r);
    var all := Clusters(n, r, cs);
    var f := FatSectors(32, all, ss);
    assert 4 * all + ss - 1 == ss * f + (4 * all + ss - 1) % ss;
    assert f * 2 * ss == 2 * (ss * f);
    Scale(r, ss, 4096);
  }

  lemma DefaultCount(n: nat, ss: nat, cs: nat, r: nat)
    requires SectorSize(ss) && n < 0x8000_0000 && cs == ChosenCluster(0, n * ss, ss) > 0
    ensures Clusters(n, r, cs) < 0x800_0000
  {
    hide DefaultCluster, ChosenCluster;
    if r <= n {
      ClustersFill(n, r, cs);
      if n >= 0x400_0000 {
        WideCluster(n, ss, cs);
        Scale(Clusters(n, r, cs), 16, cs);
      }
    }
  }

  lemma WideCluster(n: nat, ss: nat, cs: nat)
    requires SectorSize(ss) && 0x400_0000 <= n && cs == ChosenCluster(0, n * ss, ss)
    ensures cs >= 16
  {
    var k := ss / 512;
    assert ss == 512 * k && 1 <= k <= 8;
    assert k == 1 || k == 2 || k == 3 || k == 4 || k == 5 || k == 6 || k == 7 || k == 8;
  }
}
