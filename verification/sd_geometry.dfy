/**
  Layout values of the C API writer (`partitionSectorCount`,
  `fatSizeSectors`, `dataStartSector`, `freeClusterCount`), each a function
  of the device's total sector count `n` alone, with the source's
  uint64_t / uint32_t arithmetic and casts written out.

  The FAT size is the ceiling-division formula of Microsoft's FAT32 File
  System Specification (FAT volume initialization): the sectors left after
  the reserved area, divided by (256 * sectorsPerCluster + fatCount) / 2 =
  8193 and rounded up.
 */
module SdGeometry {
  import opened Bytes
  import opened Results

  const SectorsPerCluster: nat := 64
  const PartitionAlignmentSectors: nat := 8192
  const ReservedSectors: nat := 32
  const FatCount: nat := 2
  const FatStartSector: nat := PartitionAlignmentSectors + ReservedSectors
  const RootCluster: nat := 2
  const FsInfoSector: nat := 1
  const BackupBootSector: nat := 6

  /** Sectors of the partition area per FAT sector, (256 * 64 + 2) / 2. */
  const SectorsPerFatEntry: nat := (256 * SectorsPerCluster + FatCount) / 2

  function PartitionSectorCount(n: u64): u64
  {
    Wrap64(n - PartitionAlignmentSectors)
  }

  function FatSizeSectors(n: u64): u32
  {
    var sectorsToAllocate := Wrap64(PartitionSectorCount(n) - ReservedSectors);
    Wrap32(Wrap64(sectorsToAllocate + (SectorsPerFatEntry - 1)) / SectorsPerFatEntry)
  }

  function DataStartSector(n: u64): u32
  {
    Wrap32(FatStartSector + Wrap32(FatCount * FatSizeSectors(n)))
  }

  function FreeClusterCount(n: u64): u32
  {
    var totalDataSectors :=
      Wrap32(Wrap32(Wrap32(PartitionSectorCount(n)) - ReservedSectors) - Wrap32(FatCount * FatSizeSectors(n)));
    Wrap32(totalDataSectors / SectorsPerCluster - 1)
  }

  /**
    Sector counts whose partition fits the 32-bit sector-count fields of
    the MBR and the BPB and is at least as large as the reserved area.
   */
  predicate Representable(n: int)
  {
    FatStartSector <= n && n - PartitionAlignmentSectors < Two32
  }

  /** Sectors after the reserved area, for the FATs and the data region. */
  function AllocatableSectors(n: int): int
  {
    n - FatStartSector
  }

  /** Sectors of the data region once both FATs are carved out. */
  function DataSectors(n: u64): int
  {
    AllocatableSectors(n) - FatCount * FatSizeSectors(n)
  }

  /** Clusters of the data region (the root directory's cluster included). */
  function ClusterCount(n: u64): int
  {
    DataSectors(n) / SectorsPerCluster
  }

  /**
    For representable counts nothing wraps: the partition is everything
    after the 8192 alignment sectors, and the FAT size is the least F with
    8193 F >= n - 8224.
   */
  lemma FatSizeIsLeastCover(n: u64)
    requires Representable(n)
    ensures PartitionSectorCount(n) == n - PartitionAlignmentSectors
    ensures SectorsPerFatEntry * FatSizeSectors(n) >= AllocatableSectors(n)
    ensures FatSizeSectors(n) > 0 ==> SectorsPerFatEntry * (FatSizeSectors(n) - 1) < AllocatableSectors(n)
  {
    FatSizeValue(n);
    var s := AllocatableSectors(n);
    var f := (s + 8192) / 8193;
    assert 8193 * f <= s + 8192 < 8193 * f + 8193;
  }

  /** The FAT size without wrap-around, and a bound that keeps 2 F inside 32 bits. */
  lemma FatSizeValue(n: u64)
    requires Representable(n)
    ensures PartitionSectorCount(n) == n - PartitionAlignmentSectors
    ensures FatSizeSectors(n) == (AllocatableSectors(n) + 8192) / 8193
    ensures FatSizeSectors(n) <= 0x8_0001
  {
    var s := AllocatableSectors(n);
    assert Wrap64(PartitionSectorCount(n) - ReservedSectors) == s;
    assert Wrap64(s + 8192) == s + 8192;
    var f := (s + 8192) / 8193;
    assert f <= 0x8_0001;
  }

  /** FAT 1 starts after the reserved area and FAT 2 ends exactly where data begins. */
  lemma DataStartFollowsFats(n: u64)
    requires Representable(n)
    ensures DataStartSector(n) == FatStartSector + FatCount * FatSizeSectors(n)
  {
    FatSizeValue(n);
    var f := FatSizeSectors(n);
    assert Wrap32(FatCount * f) == 2 * f;
    assert Wrap32(FatStartSector + 2 * f) == FatStartSector + 2 * f;
  }

  /** The FATs never take more than the space they describe. */
  lemma FatsFitPartition(n: u64)
    requires Representable(n) && AllocatableSectors(n) >= 2
    ensures 0 <= DataSectors(n)
  {
    FatSizeValue(n);
    var s := AllocatableSectors(n);
    var f := FatSizeSectors(n);
    assert f == (s + 8192) / 8193;
    assert 8193 * f <= s + 8192;
  }

  /**
    With at least one data cluster, the free count is exact: the data
    region's clusters less the one the root directory occupies.
   */
  lemma FreeClusterCountExact(n: u64)
    requires Representable(n)
    requires DataSectors(n) >= SectorsPerCluster
    ensures FreeClusterCount(n) == ClusterCount(n) - 1
  {
    FatSizeValue(n);
    var f := FatSizeSectors(n);
    var d := DataSectors(n);
    assert Wrap32(PartitionSectorCount(n)) == n - 8192;
    assert Wrap32(n - 8192 - ReservedSectors) == n - 8224;
    assert Wrap32(FatCount * f) == 2 * f;
    assert Wrap32(n - 8224 - 2 * f) == d;
    assert Wrap32(d / 64 - 1) == d / 64 - 1;
  }

  /** The least sector count from which the FAT covers every cluster of every larger volume. */
  const MinSectorCount: nat := FatStartSector + 64 * SectorsPerFatEntry + 1

  /**
    FAT capacity: the FAT sectors hold 128 entries each, enough for the two
    reserved entries and one per cluster, once the volume has at least
    `MinSectorCount` sectors (where the FAT size reaches 65).
   */
  lemma FatCapacity(n: u64)
    requires Representable(n) && n >= MinSectorCount
    ensures 128 * FatSizeSectors(n) >= ClusterCount(n) + 2
  {
    FatSizeValue(n);
    var s := AllocatableSectors(n);
    var f := FatSizeSectors(n);
    var d := DataSectors(n);
    assert 8193 * f >= s by {
      assert f == (s + 8192) / 8193;
    }
    assert f >= 65;
    assert d < 64 * (128 * f - 1);
    assert d / 64 < 128 * f - 1;
  }

  /**
    As written, nothing guards small volumes: with fewer than 64 data
    sectors the unsigned `- 1` wraps and the free count claims 2^32 - 1
    clusters; n = 8250 is one such count.
   */
  lemma FreeCountWrapsWithoutDataCluster(n: u64)
    requires Representable(n) && AllocatableSectors(n) >= 2
    requires DataSectors(n) < SectorsPerCluster
    ensures FreeClusterCount(n) == 0xFFFF_FFFF
  {
    FatSizeIsLeastCover(n);
    FatsFitPartition(n);
    var f := FatSizeSectors(n);
    assert Wrap32(PartitionSectorCount(n)) == n - 8192;
    assert Wrap32(FatCount * f) == 2 * f;
  }

  lemma FreeCountWrapsAt8250()
    ensures FreeClusterCount(8250) == 0xFFFF_FFFF
    ensures ClusterCount(8250) == 0
  {
    FatSizeValue(8250);
    assert FatSizeSectors(8250) == 1;
    FreeCountWrapsWithoutDataCluster(8250);
  }

  /**
    As written, the formula under-allocates for small volumes: n = 24610
    gives a 2-sector FAT (256 entries) for 255 clusters, which need 257.
    The bound `MinSectorCount` is tight: n = 532576 fails the same way.
   */
  lemma FatUnderAllocated()
    ensures FatSizeSectors(24610) == 2 && ClusterCount(24610) == 255
    ensures 128 * FatSizeSectors(24610) < ClusterCount(24610) + 2
    ensures 128 * FatSizeSectors(MinSectorCount - 1) < ClusterCount(MinSectorCount - 1) + 2
  {
    FatSizeValue(24610);
    FatSizeValue(MinSectorCount - 1);
    assert FatSizeSectors(MinSectorCount - 1) == 64;
  }

  /** The layout values of one volume, computed once. */
  datatype Geometry = Geometry(
    sectorCount: u64,
    partitionSectorCount: u32,
    fatSizeSectors: u32,
    fatStartSector: u32,
    dataStartSector: u32,
    freeClusterCount: u32)

  /** The invariants a usable FAT32 geometry keeps. */
  predicate ValidGeometry(g: Geometry)
  {
    && g.partitionSectorCount == g.sectorCount - PartitionAlignmentSectors
    && g.fatStartSector == FatStartSector
    && SectorsPerFatEntry * g.fatSizeSectors >= g.partitionSectorCount - ReservedSectors
    && g.dataStartSector == g.fatStartSector + FatCount * g.fatSizeSectors
    && g.dataStartSector + SectorsPerCluster <= g.sectorCount
    && g.freeClusterCount + 1 == (g.sectorCount - g.dataStartSector) / SectorsPerCluster
    && 128 * g.fatSizeSectors >= g.freeClusterCount + 1 + 2
  }

  /**
    The size guard the C entry points lack: counts below `MinSectorCount`
    are refused as `TooSmall` and counts whose partition does not fit the
    32-bit fields as `InvalidDevice`; every other count gets exactly the
    values the layout functions compute, and those are a valid geometry.
   */
  function Compute(n: u64): (r: Result<Geometry>)
    ensures r.Fail? <==> n < MinSectorCount || n - PartitionAlignmentSectors >= Two32
    ensures r.Fail? && n < MinSectorCount ==> r.status == TooSmall
    ensures r.Fail? && n >= MinSectorCount ==> r.status == InvalidDevice
    ensures r.Ok? ==> r.value.sectorCount == n && ValidGeometry(r.value)
    ensures r.Ok? ==> && r.value.partitionSectorCount == PartitionSectorCount(n)
                      && r.value.fatSizeSectors == FatSizeSectors(n)
                      && r.value.dataStartSector == DataStartSector(n)
                      && r.value.freeClusterCount == FreeClusterCount(n)
  {
    if n < MinSectorCount then Fail(TooSmall)
    else if n - PartitionAlignmentSectors >= Two32 then Fail(InvalidDevice)
    else
      LargeEnoughIsValid(n);
      Ok(Geometry(n, n - PartitionAlignmentSectors, FatSizeSectors(n), FatStartSector,
        DataStartSector(n), FreeClusterCount(n)))
  }

  /** Every representable count from `MinSectorCount` on has a valid geometry. */
  lemma LargeEnoughIsValid(n: u64)
    requires Representable(n) && n >= MinSectorCount
    ensures ValidGeometry(Geometry(n, n - PartitionAlignmentSectors, FatSizeSectors(n), FatStartSector,
        DataStartSector(n), FreeClusterCount(n)))
  {
    FatSizeIsLeastCover(n);
    DataStartFollowsFats(n);
    FatCapacity(n);
    HasDataCluster(n);
    FreeClusterCountExact(n);
  }

  lemma HasDataCluster(n: u64)
    requires Representable(n) && n >= MinSectorCount
    ensures DataSectors(n) >= SectorsPerCluster
  {
    FatSizeValue(n);
    var s := AllocatableSectors(n);
    var f := FatSizeSectors(n);
    assert 8193 * f <= s + 8192 by {
      assert f == (s + 8192) / 8193;
    }
    assert 2 * f <= s - 64;
  }

  /**
    The layout fits the device: the partition is representable and the
    data region holds at least the root directory's cluster. FAT capacity
    is not part of this; it is what `Compute` adds.
   */
  predicate LayoutFits(n: u64)
  {
    Representable(n) && DataSectors(n) >= SectorsPerCluster
  }

  /** The smallest count whose layout fits: the reserved area, two one-sector FATs and one cluster. */
  const MinLayoutSectorCount: nat := FatStartSector + FatCount + SectorsPerCluster

  /** For a representable count, the layout fits exactly from `MinLayoutSectorCount` sectors on. */
  lemma LayoutFitsExactly(n: u64)
    requires Representable(n)
    ensures LayoutFits(n) <==> n >= MinLayoutSectorCount
  {
    FatSizeValue(n);
    var t := AllocatableSectors(n);
    var f := FatSizeSectors(n);
    assert f == (t + 8192) / 8193;
    if t <= 0 {
      assert f == 0;
    } else if t <= 8193 {
      assert f == 1;
    } else {
      assert 8193 * f <= t + 8192;
      assert 2 * f <= t - 64;
    }
  }

  /** Every count `Compute` accepts has a layout that fits. */
  lemma AcceptedFits(n: u64)
    requires Compute(n).Ok?
    ensures LayoutFits(n)
  {
    HasDataCluster(n);
  }

  /**
    The layout fits far below the guard: n = 100000 has a 12-sector FAT
    and data from sector 8248, though `Compute` refuses it.
   */
  lemma FitsBelowGuard()
    ensures LayoutFits(100000) && Compute(100000) == Fail(TooSmall)
    ensures FatSizeSectors(100000) == 12 && DataStartSector(100000) == 8248
  {
    FatSizeValue(100000);
    DataStartFollowsFats(100000);
  }

  /** The smallest accepted count is accepted, and one less is refused as too small. */
  lemma ComputeBoundary()
    ensures Compute(MinSectorCount).Ok?
    ensures Compute(MinSectorCount - 1) == Fail(TooSmall)
  {
  }

  /**
    A 4 GB card, n = 7813120: a 953-sector FAT, data from sector 10130
    and 121920 free clusters.
   */
  lemma FourGigabyteCard()
    ensures FatSizeSectors(7813120) == 953
    ensures DataStartSector(7813120) == 10130
    ensures FreeClusterCount(7813120) == 121920
    ensures Compute(7813120).Ok?
  {
    FatSizeValue(7813120);
    DataStartFollowsFats(7813120);
    FreeClusterCountExact(7813120);
  }
}
