/**
  The class-based writer, an earlier copy of the engine: `make` computes
  the geometry once, with 8192 instead of 8193 partition sectors per FAT
  sector, and caches it in the writer; the five write operations then
  place the same structures as the C entry points, except that FSInfo has
  no backup.

  The writer's descriptor is the device's `fd`; `time(nullptr)` is the
  `volumeId` parameter of the boot-sector write.
 */
module SectorWriter {
  import opened Bytes
  import opened Results
  import opened VolumeLabel
  import opened Images
  import opened Disk
  import opened Regions
  import opened Placement
  import opened SdGeometry
  import SdFormat

  /** The smallest device `make` accepts (its `assert`). */
  const MinSectorsForMbr: nat := 18432

  /** Partition sectors per FAT sector in this variant: 128 entries of 64-sector clusters. */
  const SectorsPerFatSector: nat := SectorSize * SectorsPerCluster / 4

  /** The cached state of a writer, one field per member of the class. */
  datatype Writer = Writer(
    sectorCount: u64,
    volumeLabel: Label,
    partitionSectorCount: u64,
    fatSizeSectors: u32,
    fatStartSector: u32,
    dataStartSector: u32,
    freeClusterCount: u32)

  /**
    The FAT size `make` computes: four bytes per cluster over 32768-byte
    sectors-of-clusters, rounded up in uint64_t and cast to uint32_t.
   */
  function WriterFatSize(n: u64): u32
  {
    var tmpSize := Wrap64(Wrap64(n - PartitionAlignmentSectors) - ReservedSectors);
    Wrap32(Wrap64(Wrap64(tmpSize * 4) + (SectorSize * SectorsPerCluster - 1)) / (SectorSize * SectorsPerCluster))
  }

  /** `SectorWriter::make`: the label is prepared and the layout values computed with unsigned arithmetic. */
  function Make(n: u64, labelText: seq<byte>): (w: Writer)
    requires n >= MinSectorsForMbr
    ensures w.sectorCount == n && w.volumeLabel == PrepareVolumeLabel(labelText)
    ensures w.fatStartSector == FatStartSector
  {
    var partitionSectors := Wrap64(n - PartitionAlignmentSectors);
    var fatSize := WriterFatSize(n);
    var fatStart: u32 := FatStartSector;
    var dataStart := Wrap32(fatStart + Wrap32(FatCount * fatSize));
    var totalDataSectors := Wrap32(Wrap32(Wrap32(partitionSectors) - ReservedSectors) - Wrap32(FatCount * fatSize));
    var freeClusters := Wrap32(totalDataSectors / SectorsPerCluster - 1);
    Writer(n, PrepareVolumeLabel(labelText), partitionSectors, fatSize, fatStart, dataStart, freeClusters)
  }

  /**
    What the cached values mean: the partition is everything after the
    alignment sectors, the FAT size is the least that gives one entry per
    64-sector cluster of the partition's non-reserved sectors, the data
    area follows the two FATs and holds at least the root cluster, and
    the free count is its clusters but the root directory's.
   */
  predicate CachedGeometry(w: Writer)
  {
    && w.partitionSectorCount == w.sectorCount - PartitionAlignmentSectors
    && w.fatStartSector == FatStartSector
    && SectorsPerFatSector * w.fatSizeSectors >= w.partitionSectorCount - ReservedSectors
    && SectorsPerFatSector * (w.fatSizeSectors - 1) < w.partitionSectorCount - ReservedSectors
    && w.dataStartSector == w.fatStartSector + FatCount * w.fatSizeSectors
    && w.dataStartSector + SectorsPerCluster <= w.sectorCount
    && w.freeClusterCount + 1 == (w.sectorCount - w.dataStartSector) / SectorsPerCluster
  }

  /** Clusters of the data area of a writer (the root directory's included). */
  function WriterClusterCount(w: Writer): int
  {
    (w.sectorCount - w.dataStartSector) / SectorsPerCluster
  }

  /** Without wrap-around, the FAT size is the ceiling of (n - 8224) / 8192. */
  lemma WriterFatSizeValue(n: u64)
    requires Representable(n)
    ensures WriterFatSize(n) == (AllocatableSectors(n) + SectorsPerFatSector - 1) / SectorsPerFatSector
    ensures var f := WriterFatSize(n);
      && SectorsPerFatSector * f >= AllocatableSectors(n)
      && SectorsPerFatSector * (f - 1) < AllocatableSectors(n)
  {
    var t := AllocatableSectors(n);
    assert Wrap64(n - PartitionAlignmentSectors) == n - PartitionAlignmentSectors;
    assert Wrap64(n - PartitionAlignmentSectors - ReservedSectors) == t;
    assert Wrap64(t * 4) == 4 * t;
    assert Wrap64(4 * t + 32767) == 4 * t + 32767;
    var q := (t + 8191) / 8192;
    assert 8192 * q <= t + 8191 < 8192 * q + 8192;
    assert 32768 * q <= 4 * t + 32767 < 32768 * q + 32768;
    assert (4 * t + 32767) / 32768 == q;
    assert q < Two32;
  }

  /**
    For every device `make` accepts whose partition fits 32 bits, the
    cached values are the geometry they stand for; in particular the
    `assert` rules out the free-count wrap of the C entry points.
   */
  lemma MakeCachesGeometry(n: u64, labelText: seq<byte>)
    requires n >= MinSectorsForMbr && Representable(n)
    ensures CachedGeometry(Make(n, labelText))
    ensures WriterClusterCount(Make(n, labelText)) >= 1
  {
    WriterFatSizeValue(n);
    RoomForRootCluster(AllocatableSectors(n), WriterFatSize(n));
    MakeFieldValues(n, labelText);
    GeometryFromFields(Make(n, labelText), AllocatableSectors(n), WriterFatSize(n));
  }

  /** From 18432 sectors on, two FATs of `f` sectors leave room for the root cluster. */
  lemma RoomForRootCluster(t: int, f: int)
    requires t >= MinSectorsForMbr - FatStartSector
    requires SectorsPerFatSector * (f - 1) < t
    ensures t - 2 * f >= SectorsPerCluster
  {
    assert 8192 * (2 * f) < 2 * t + 16384;
  }

  /** Cached fields with the plain values of the geometry are a cached geometry. */
  lemma GeometryFromFields(w: Writer, t: int, f: int)
    requires t == w.sectorCount - FatStartSector && t - 2 * f >= SectorsPerCluster
    requires SectorsPerFatSector * f >= t && SectorsPerFatSector * (f - 1) < t
    requires w.partitionSectorCount == w.sectorCount - PartitionAlignmentSectors
    requires w.fatStartSector == FatStartSector && w.fatSizeSectors == f
    requires w.dataStartSector == FatStartSector + 2 * f
    requires w.freeClusterCount == (t - 2 * f) / SectorsPerCluster - 1
    ensures CachedGeometry(w) && WriterClusterCount(w) >= 1
  {
    assert w.sectorCount - w.dataStartSector == t - 2 * f;
  }

  /** With no wrap-around, `make`'s unsigned arithmetic gives the plain values. */
  lemma MakeFieldValues(n: u64, labelText: seq<byte>)
    requires n >= MinSectorsForMbr && Representable(n)
    requires AllocatableSectors(n) - 2 * WriterFatSize(n) >= SectorsPerCluster
    ensures var w := Make(n, labelText);
      var f := WriterFatSize(n);
      && w.partitionSectorCount == n - PartitionAlignmentSectors
      && w.fatSizeSectors == f
      && w.dataStartSector == FatStartSector + 2 * f
      && w.freeClusterCount == (AllocatableSectors(n) - 2 * f) / SectorsPerCluster - 1
  {
    var t := AllocatableSectors(n);
    var f := WriterFatSize(n);
    assert Wrap32(FatCount * f) == 2 * f;
    assert Wrap32(FatStartSector + 2 * f) == FatStartSector + 2 * f;
    assert Wrap32(Wrap64(n - PartitionAlignmentSectors)) == n - PartitionAlignmentSectors;
    assert Wrap32(n - PartitionAlignmentSectors - ReservedSectors) == t;
    var d := t - 2 * f;
    assert Wrap32(d) == d;
    assert Wrap32(d / 64 - 1) == d / 64 - 1;
  }

  // ---------------------------------------------------------------------------
  // The two FAT sizes
  // ---------------------------------------------------------------------------

  /**
    This variant's FAT is never smaller than the C entry points' and
    larger by at most one sector plus one per 8192 of their FAT sectors,
    so by at most one below 8192-sector FATs (about 32 GiB).
   */
  lemma FatSizeVariants(n: u64)
    requires Representable(n)
    ensures FatSizeSectors(n) <= WriterFatSize(n) <= FatSizeSectors(n) + 1 + FatSizeSectors(n) / 8192
    ensures FatSizeSectors(n) < 8192 ==> WriterFatSize(n) <= FatSizeSectors(n) + 1
  {
    FatSizeIsLeastCover(n);
    WriterFatSizeValue(n);
    CeilingGap(AllocatableSectors(n), FatSizeSectors(n), WriterFatSize(n));
  }

  /** The ceilings of t / 8193 and t / 8192, related. */
  lemma CeilingGap(t: int, f1: int, f2: int)
    requires t >= 0 && f1 >= 0
    requires 8193 * f1 >= t && (f1 > 0 ==> 8193 * (f1 - 1) < t)
    requires 8192 * f2 >= t && 8192 * (f2 - 1) < t
    ensures f1 <= f2 <= f1 + 1 + f1 / 8192
  {
    var k := f2 - f1 - 1;
    assert 8192 * k < f1;
    assert f1 == 8192 * (f1 / 8192) + f1 % 8192;
  }

  /**
    The two sizes do differ: n = 24610 gives the C entry points a 2-sector
    FAT and this variant a 3-sector one, while n = 18432 gives both 2.
   */
  lemma FatSizesDiffer()
    ensures FatSizeSectors(24610) == 2 && WriterFatSize(24610) == 3
    ensures FatSizeSectors(MinSectorsForMbr) == WriterFatSize(MinSectorsForMbr) == 2
  {
    FatSizeValue(24610);
    WriterFatSizeValue(24610);
    FatSizeValue(MinSectorsForMbr);
    WriterFatSizeValue(MinSectorsForMbr);
  }

  // ---------------------------------------------------------------------------
  // FAT capacity
  // ---------------------------------------------------------------------------

  /** The least device from which this variant's FAT covers every cluster: a FAT of 33 sectors. */
  const WriterMinSectorCount: nat := FatStartSector + 32 * SectorsPerFatSector + 1

  /**
    From `WriterMinSectorCount` sectors on, the FAT has an entry for each
    cluster and for the two reserved entries.
   */
  lemma WriterFatCapacity(n: u64, labelText: seq<byte>)
    requires Representable(n) && n >= WriterMinSectorCount
    ensures var w := Make(n, labelText);
      128 * w.fatSizeSectors >= WriterClusterCount(w) + 2
  {
    MakeCachesGeometry(n, labelText);
    WriterFatSizeValue(n);
    var w := Make(n, labelText);
    var f := w.fatSizeSectors;
    var t := AllocatableSectors(n);
    assert f >= 33;
    var d := n - w.dataStartSector;
    assert d == t - 2 * f;
    assert d <= 8192 * f - 2 * f;
    assert d < 64 * (128 * f - 1);
    assert d / 64 < 128 * f - 1;
  }

  /**
    As written, the `assert` admits devices whose FAT is too small:
    n = 24608 gives a 2-sector FAT (256 entries) for 255 clusters, which
    need 257.
   */
  lemma WriterFatUnderAllocated(labelText: seq<byte>)
    ensures var w := Make(24608, labelText);
      && w.fatSizeSectors == 2 && WriterClusterCount(w) == 255
      && 128 * w.fatSizeSectors < WriterClusterCount(w) + 2
  {
    WriterFatSizeValue(24608);
    assert WriterFatSize(24608) == 2;
    MakeCachesGeometry(24608, labelText);
    assert Make(24608, labelText).dataStartSector == FatStartSector + 4;
  }

  /** The bound is tight: one sector fewer gives a 32-sector FAT for 4095 clusters. */
  lemma WriterCapacityBoundTight(labelText: seq<byte>)
    ensures var w := Make(WriterMinSectorCount - 1, labelText);
      && w.fatSizeSectors == 32 && WriterClusterCount(w) == 4095
      && 128 * w.fatSizeSectors < WriterClusterCount(w) + 2
  {
    WriterFatSizeValue(WriterMinSectorCount - 1);
    assert WriterFatSize(WriterMinSectorCount - 1) == 32;
    MakeCachesGeometry(WriterMinSectorCount - 1, labelText);
    assert Make(WriterMinSectorCount - 1, labelText).dataStartSector == FatStartSector + 64;
  }

  /**
    `make` with the size guard it lacks: devices below
    `WriterMinSectorCount` are refused as `TooSmall` and those whose
    partition does not fit 32 bits as `InvalidDevice`; every other device
    gets a writer whose cached geometry is valid and whose FAT covers
    every cluster.
   */
  function Create(n: u64, labelText: seq<byte>): (r: Result<Writer>)
    ensures r.Fail? <==> n < WriterMinSectorCount || n - PartitionAlignmentSectors >= Two32
    ensures r.Fail? && n < WriterMinSectorCount ==> r.status == TooSmall
    ensures r.Fail? && n >= WriterMinSectorCount ==> r.status == InvalidDevice
    ensures r.Ok? ==> && r.value.sectorCount == n && r.value.volumeLabel == PrepareVolumeLabel(labelText)
                      && CachedGeometry(r.value)
                      && 128 * r.value.fatSizeSectors >= WriterClusterCount(r.value) + 2
  {
    if n < WriterMinSectorCount then Fail(TooSmall)
    else if n - PartitionAlignmentSectors >= Two32 then Fail(InvalidDevice)
    else
      MakeCachesGeometry(n, labelText);
      WriterFatCapacity(n, labelText);
      Ok(Make(n, labelText))
  }

  // ---------------------------------------------------------------------------
  // The write operations
  // ---------------------------------------------------------------------------

  /** The boot sector of a writer: the cached partition size, FAT size and label. */
  function WriterBootSector(w: Writer, volumeId: u32): (r: seq<byte>)
    ensures |r| == SectorSize
  {
    VbrImage(Wrap32(w.partitionSectorCount), w.fatSizeSectors, volumeId, w.volumeLabel)
  }

  /** `writeMBR`: the partition table at sector 0; the write's own code is returned. */
  function WriteMbr(w: Writer, dev: Device): (r: Step)
    ensures SameMedium(r.dev, dev)
    ensures r.status in {Success, InvalidDevice, IOError}
    ensures r.status == InvalidDevice <==> dev.fd < 0
    ensures r.status == Success <==> dev.fd >= 0 && Writable(dev, 0, SectorSize)
    ensures Untouched(dev.image, r.dev.image, [Region(SdFormat.MbrLba, MbrImage(Wrap32(w.partitionSectorCount)))])
    ensures r.status == Success ==> Holds(r.dev.image, Region(SdFormat.MbrLba, MbrImage(Wrap32(w.partitionSectorCount))))
  {
    var image := MbrImage(Wrap32(w.partitionSectorCount));
    SectorWrite(dev, SdFormat.MbrLba, image);
    WriteSectors(dev, SdFormat.MbrLba, image)
  }

  /**
    `writeFat32BootSector`: the boot sector at partition sector 0 and its
    backup at partition sector 6; a failed first write returns its code.
   */
  function WriteFat32BootSector(w: Writer, dev: Device, volumeId: u32): (r: Step)
    ensures SameMedium(r.dev, dev)
    ensures r.status in {Success, InvalidDevice, IOError}
    ensures r.status == InvalidDevice <==> dev.fd < 0
    ensures r.status == Success <==>
              dev.fd >= 0 && Writable(dev, SdFormat.VbrLba * SectorSize, (SdFormat.VbrLba + 1) * SectorSize)
              && Writable(dev, SdFormat.BackupVbrLba * SectorSize, (SdFormat.BackupVbrLba + 1) * SectorSize)
    ensures Untouched(dev.image, r.dev.image,
              [Region(SdFormat.VbrLba, WriterBootSector(w, volumeId)), Region(SdFormat.BackupVbrLba, WriterBootSector(w, volumeId))])
    ensures r.status == Success ==>
              && Holds(r.dev.image, Region(SdFormat.VbrLba, WriterBootSector(w, volumeId)))
              && Holds(r.dev.image, Region(SdFormat.BackupVbrLba, WriterBootSector(w, volumeId)))
  {
    WriteWithBackup(dev, SdFormat.VbrLba, SdFormat.BackupVbrLba, WriterBootSector(w, volumeId))
  }

  /**
    `writeFSInfo`: the FSInfo sector at partition sector 1 only, with the
    cached free count; any failure, an invalid descriptor included, is
    reported as `IOError`.
   */
  function WriteFsInfo(w: Writer, dev: Device): (r: Step)
    ensures SameMedium(r.dev, dev)
    ensures r.status in {Success, IOError}
    ensures r.status == Success <==>
              dev.fd >= 0 && Writable(dev, SdFormat.FsInfoLba * SectorSize, (SdFormat.FsInfoLba + 1) * SectorSize)
    ensures Untouched(dev.image, r.dev.image, [Region(SdFormat.FsInfoLba, FsInfoImage(w.freeClusterCount))])
    ensures r.status == Success ==> Holds(r.dev.image, Region(SdFormat.FsInfoLba, FsInfoImage(w.freeClusterCount)))
  {
    var image := FsInfoImage(w.freeClusterCount);
    var first := WriteSectors(dev, SdFormat.FsInfoLba, image);
    SectorWrite(dev, SdFormat.FsInfoLba, image);
    if first.status != Success then Step(IOError, first.dev) else first
  }

  /** Unlike the C entry point, `writeFSInfo` leaves the backup FSInfo sector as it was. */
  lemma FsInfoHasNoBackup(w: Writer, dev: Device)
    ensures var r := WriteFsInfo(w, dev);
      forall i :: SdFormat.BackupFsInfoLba * SectorSize <= i < (SdFormat.BackupFsInfoLba + 1) * SectorSize && i < |dev.image| ==>
        r.dev.image[i] == dev.image[i]
  {
    var r := WriteFsInfo(w, dev);
    var region := Region(SdFormat.FsInfoLba, FsInfoImage(w.freeClusterCount));
    forall i | SdFormat.BackupFsInfoLba * SectorSize <= i < (SdFormat.BackupFsInfoLba + 1) * SectorSize && i < |dev.image|
      ensures r.dev.image[i] == dev.image[i]
    {
      WrittenOne(region, i);
    }
  }

  /** The sector FAT 2 starts at: the uint32_t sum of the cached FAT start and size. */
  function WriterFat2Lba(w: Writer): u32
  {
    Wrap32(w.fatStartSector + w.fatSizeSectors)
  }

  /**
    `writeFat32Tables`: each FAT is zeroed and given its header sector, FAT
    1 at the cached FAT start and FAT 2 right after it; every failure is
    reported as `IOError`.
   */
  function WriteFat32Tables(w: Writer, dev: Device): (r: Step)
    ensures SameMedium(r.dev, dev)
    ensures r.status in {Success, IOError}
    ensures r.status == Success <==>
              dev.fd >= 0
              && Writable(dev, w.fatStartSector * SectorSize, (w.fatStartSector + RunLength(w.fatSizeSectors)) * SectorSize)
              && Writable(dev, WriterFat2Lba(w) * SectorSize, (WriterFat2Lba(w) + RunLength(w.fatSizeSectors)) * SectorSize)
    ensures Untouched(dev.image, r.dev.image,
              [Region(w.fatStartSector, SdFormat.FatCopy(w.fatSizeSectors)), Region(WriterFat2Lba(w), SdFormat.FatCopy(w.fatSizeSectors))])
    ensures r.status == Success ==> Holds(r.dev.image, Region(WriterFat2Lba(w), SdFormat.FatCopy(w.fatSizeSectors)))
    ensures r.status == Success && w.fatStartSector + w.fatSizeSectors < Two32 ==>
              Holds(r.dev.image, Region(w.fatStartSector, SdFormat.FatCopy(w.fatSizeSectors)))
  {
    var a := Region(w.fatStartSector, SdFormat.FatCopy(w.fatSizeSectors));
    var b := Region(WriterFat2Lba(w), SdFormat.FatCopy(w.fatSizeSectors));
    assert w.fatStartSector + w.fatSizeSectors < Two32 ==> a == b || Disjoint(a, b);
    WriteRunPair(dev, w.fatStartSector, WriterFat2Lba(w), w.fatSizeSectors, FatHeaderImage())
  }

  /**
    `writeRootDirectory`: the 64 sectors at the cached data start are
    zeroed and the first is given the volume-label entry; every failure is
    reported as `IOError`.
   */
  function WriteRootDirectory(w: Writer, dev: Device): (r: Step)
    ensures SameMedium(r.dev, dev)
    ensures r.status in {Success, IOError}
    ensures r.status == Success <==>
              dev.fd >= 0 && Writable(dev, w.dataStartSector * SectorSize, (w.dataStartSector + SectorsPerCluster) * SectorSize)
    ensures Untouched(dev.image, r.dev.image, [Region(w.dataStartSector, SdFormat.RootDirCluster(w.volumeLabel))])
    ensures r.status == Success ==> Holds(r.dev.image, Region(w.dataStartSector, SdFormat.RootDirCluster(w.volumeLabel)))
  {
    ZeroThenWriteRegion(dev, w.dataStartSector, SectorsPerCluster, RootDirImage(w.volumeLabel));
    ZeroThenWrite(dev, w.dataStartSector, SectorsPerCluster, RootDirImage(w.volumeLabel))
  }

  // ---------------------------------------------------------------------------
  // Agreement with the C entry points
  // ---------------------------------------------------------------------------

  /** The partition table is the same as the C entry point's on every device `make` accepts. */
  lemma MbrAgrees(n: u64, labelText: seq<byte>, dev: Device)
    requires n >= MinSectorsForMbr
    ensures WriteMbr(Make(n, labelText), dev) == SdFormat.WriteMbr(dev, n)
  {
  }

  /**
    When the two FAT sizes agree and the label has no NUL in its first 11
    bytes, the boot sector is the C entry points' byte for byte, and so is
    its write.
   */
  lemma BootSectorAgrees(n: u64, labelText: seq<byte>, volumeId: u32, dev: Device)
    requires n >= MinSectorsForMbr && WriterFatSize(n) == FatSizeSectors(n)
    requires forall i :: 0 <= i < |labelText| && i < 11 ==> labelText[i] != 0
    ensures WriterBootSector(Make(n, labelText), volumeId) == SdFormat.BootSector(n, labelText, volumeId)
    ensures WriteFat32BootSector(Make(n, labelText), dev, volumeId) == SdFormat.WriteVolumeBootRecord(dev, n, labelText, volumeId)
  {
    CLabelAgreesWithoutNul(labelText);
  }

  /** When the two FAT sizes agree, the FAT tables are written as the C entry point writes them. */
  lemma FatTablesAgree(n: u64, labelText: seq<byte>, dev: Device)
    requires n >= MinSectorsForMbr && WriterFatSize(n) == FatSizeSectors(n)
    ensures WriteFat32Tables(Make(n, labelText), dev) == SdFormat.WriteFat32Tables(dev, n)
  {
    var w := Make(n, labelText);
    assert WriterFat2Lba(w) == SdFormat.Fat2Lba(n);
  }

  /**
    When the two FAT sizes agree and the label has no NUL in its first 11
    bytes, the root directory is written as the C entry point writes it.
   */
  lemma RootDirectoryAgrees(n: u64, labelText: seq<byte>, dev: Device)
    requires n >= MinSectorsForMbr && WriterFatSize(n) == FatSizeSectors(n)
    requires forall i :: 0 <= i < |labelText| && i < 11 ==> labelText[i] != 0
    ensures WriteRootDirectory(Make(n, labelText), dev) == SdFormat.WriteRootDirectory(dev, n, labelText)
  {
    CLabelAgreesWithoutNul(labelText);
    var w := Make(n, labelText);
    assert w.dataStartSector == DataStartSector(n);
    assert w.volumeLabel == CLabel(labelText);
  }

  /**
    With different FAT sizes the boot sectors differ: at n = 24610 this
    variant's boot record declares a 3-sector FAT where the C entry
    points' declares 2.
   */
  lemma BootSectorsDifferAt24610(labelText: seq<byte>, volumeId: u32)
    ensures DecodeVbr(WriterBootSector(Make(24610, labelText), volumeId)).bpb.fatSize32 == 3
    ensures DecodeVbr(SdFormat.BootSector(24610, labelText, volumeId)).bpb.fatSize32 == 2
  {
    FatSizesDiffer();
    var w := Make(24610, labelText);
    VbrRoundTrip(FormatterVbr(Wrap32(w.partitionSectorCount), 3, volumeId, w.volumeLabel));
    VbrRoundTrip(FormatterVbr(SdFormat.PartitionField(24610), 2, volumeId, CLabel(labelText)));
  }
}
