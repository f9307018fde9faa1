/**
  The C API writer: the five `sdFormatWrite*` entry points, each a step
  from one device state to the next.

  Each entry point is described by the regions it writes: on success they
  hold their images, and whatever happens no byte outside them changes.
 */
module SdFormat {
  import opened Bytes
  import opened Results
  import opened VolumeLabel
  import opened Images
  import opened Disk
  import opened Regions
  import opened Placement
  import opened SdGeometry

  const MbrLba: nat := 0
  const VbrLba: nat := PartitionAlignmentSectors
  const BackupVbrLba: nat := PartitionAlignmentSectors + BackupBootSector
  const FsInfoLba: nat := PartitionAlignmentSectors + FsInfoSector
  const BackupFsInfoLba: nat := PartitionAlignmentSectors + BackupBootSector + 1

  /** The partition's sector count as the 32-bit MBR and BPB fields hold it. */
  function PartitionField(n: u64): u32
  {
    Wrap32(PartitionSectorCount(n))
  }

  /** The field is the partition size modulo 2^32, whatever the device size. */
  lemma PartitionFieldModulo(n: u64)
    ensures PartitionField(n) == (n - PartitionAlignmentSectors) % Two32
    ensures Representable(n) ==> PartitionField(n) == n - PartitionAlignmentSectors
  {
    var x := n - PartitionAlignmentSectors;
    assert Two64 == Two32 * Two32;
    if x < 0 {
      assert PartitionSectorCount(n) == x + Two64;
      assert (x + Two32 * Two32) % Two32 == x % Two32;
    }
  }

  /** The boot sector of a volume of `n` sectors. */
  function BootSector(n: u64, labelText: seq<byte>, volumeId: u32): (r: seq<byte>)
    ensures |r| == SectorSize
  {
    VbrImage(PartitionField(n), FatSizeSectors(n), volumeId, CLabel(labelText))
  }

  /** One copy of the FAT as the writer leaves it: the header sector, then zero sectors. */
  function FatCopy(fatSize: nat): (r: seq<byte>)
    ensures |r| == RunLength(fatSize) * SectorSize
  {
    FatHeaderImage() + Zeros((RunLength(fatSize) - 1) * SectorSize)
  }

  /** A FAT copy is its header sector followed by free entries only. */
  lemma FatCopyBytes(fatSize: nat)
    ensures var r := FatCopy(fatSize);
      && r[..SectorSize] == FatHeaderImage()
      && forall i :: SectorSize <= i < |r| ==> r[i] == 0
  {
  }

  /** The root directory cluster: the volume-label entry, then zeros. */
  function RootDirCluster(volumeLabel: Label): (r: seq<byte>)
    ensures |r| == SectorsPerCluster * SectorSize
  {
    RootDirImage(volumeLabel) + Zeros((SectorsPerCluster - 1) * SectorSize)
  }

  /** The root cluster holds the volume-label entry and nothing after it. */
  lemma RootDirClusterBytes(volumeLabel: Label)
    ensures var r := RootDirCluster(volumeLabel);
      && r[..SectorSize] == RootDirImage(volumeLabel)
      && forall i :: 32 <= i < |r| ==> r[i] == 0
  {
    RootDirImageBytes(volumeLabel);
  }

  /** The sector FAT 2 starts at: the uint32_t sum `kFatStartSector + fatSize`. */
  function Fat2Lba(n: u64): u32
  {
    Wrap32(FatStartSector + FatSizeSectors(n))
  }

  // ---------------------------------------------------------------------------
  // The entry points
  // ---------------------------------------------------------------------------

  /** `sdFormatWriteMBR`: the partition table at sector 0; the write's own code is returned. */
  function WriteMbr(dev: Device, n: u64): (r: Step)
    ensures SameMedium(r.dev, dev)
    ensures r.status in {Success, InvalidDevice, IOError}
    ensures r.status == InvalidDevice <==> dev.fd < 0
    ensures dev.fd < 0 ==> r.dev == dev
    ensures r.status == Success <==> dev.fd >= 0 && Writable(dev, 0, SectorSize)
    ensures Untouched(dev.image, r.dev.image, [Region(MbrLba, MbrImage(PartitionField(n)))])
    ensures r.status == Success ==> Holds(r.dev.image, Region(MbrLba, MbrImage(PartitionField(n))))
  {
    SectorWrite(dev, MbrLba, MbrImage(PartitionField(n)));
    WriteSectors(dev, MbrLba, MbrImage(PartitionField(n)))
  }

  /**
    `sdFormatWriteVolumeBootRecord`: the boot sector at partition sector 0
    and the identical backup at partition sector 6. A failed first write
    returns its code without attempting the backup.
   */
  function WriteVolumeBootRecord(dev: Device, n: u64, labelText: seq<byte>, volumeId: u32): (r: Step)
    ensures SameMedium(r.dev, dev)
    ensures r.status in {Success, InvalidDevice, IOError}
    ensures r.status == InvalidDevice <==> dev.fd < 0
    ensures r.status == Success <==>
              dev.fd >= 0 && Writable(dev, VbrLba * SectorSize, (VbrLba + 1) * SectorSize)
              && Writable(dev, BackupVbrLba * SectorSize, (BackupVbrLba + 1) * SectorSize)
    ensures Untouched(dev.image, r.dev.image,
              [Region(VbrLba, BootSector(n, labelText, volumeId)), Region(BackupVbrLba, BootSector(n, labelText, volumeId))])
    ensures r.status == Success ==>
              && Holds(r.dev.image, Region(VbrLba, BootSector(n, labelText, volumeId)))
              && Holds(r.dev.image, Region(BackupVbrLba, BootSector(n, labelText, volumeId)))
  {
    WriteWithBackup(dev, VbrLba, BackupVbrLba, BootSector(n, labelText, volumeId))
  }

  /**
    `sdFormatWriteFSInfo`: the FSInfo sector at partition sector 1 and its
    backup at partition sector 7, with the free-cluster count of the
    geometry; the first failure's code is returned.
   */
  function WriteFsInfo(dev: Device, n: u64): (r: Step)
    ensures SameMedium(r.dev, dev)
    ensures r.status in {Success, InvalidDevice, IOError}
    ensures r.status == InvalidDevice <==> dev.fd < 0
    ensures r.status == Success <==>
              dev.fd >= 0 && Writable(dev, FsInfoLba * SectorSize, (FsInfoLba + 1) * SectorSize)
              && Writable(dev, BackupFsInfoLba * SectorSize, (BackupFsInfoLba + 1) * SectorSize)
    ensures Untouched(dev.image, r.dev.image,
              [Region(FsInfoLba, FsInfoImage(FreeClusterCount(n))), Region(BackupFsInfoLba, FsInfoImage(FreeClusterCount(n)))])
    ensures r.status == Success ==>
              && Holds(r.dev.image, Region(FsInfoLba, FsInfoImage(FreeClusterCount(n))))
              && Holds(r.dev.image, Region(BackupFsInfoLba, FsInfoImage(FreeClusterCount(n))))
  {
    WriteWithBackup(dev, FsInfoLba, BackupFsInfoLba, FsInfoImage(FreeClusterCount(n)))
  }

  /**
    `sdFormatWriteFat32Tables`: each FAT is zeroed and given its header
    sector, FAT 1 from sector 8224 and FAT 2 right after it. Every failure,
    an invalid descriptor included, is reported as `IOError`. Unless the
    FAT 2 start wraps, the two copies are identical.
   */
  function WriteFat32Tables(dev: Device, n: u64): (r: Step)
    ensures SameMedium(r.dev, dev)
    ensures r.status in {Success, IOError}
    ensures r.status == Success <==>
              dev.fd >= 0
              && Writable(dev, FatStartSector * SectorSize, (FatStartSector + RunLength(FatSizeSectors(n))) * SectorSize)
              && Writable(dev, Fat2Lba(n) * SectorSize, (Fat2Lba(n) + RunLength(FatSizeSectors(n))) * SectorSize)
    ensures Untouched(dev.image, r.dev.image,
              [Region(FatStartSector, FatCopy(FatSizeSectors(n))), Region(Fat2Lba(n), FatCopy(FatSizeSectors(n)))])
    ensures r.status == Success ==> Holds(r.dev.image, Region(Fat2Lba(n), FatCopy(FatSizeSectors(n))))
    ensures r.status == Success && FatStartSector + FatSizeSectors(n) < Two32 ==>
              && Fat2Lba(n) == FatStartSector + FatSizeSectors(n)
              && Holds(r.dev.image, Region(FatStartSector, FatCopy(FatSizeSectors(n))))
  {
    var f := FatSizeSectors(n);
    FatPairApart(n);
    WriteRunPair(dev, FatStartSector, Fat2Lba(n), f, FatHeaderImage())
  }

  /** Unless FAT 2's start wraps, the two FAT copies coincide (an empty FAT) or lie side by side. */
  lemma FatPairApart(n: u64)
    ensures FatStartSector + FatSizeSectors(n) < Two32 ==>
              && Fat2Lba(n) == FatStartSector + FatSizeSectors(n)
              && var a := Region(FatStartSector, FatCopy(FatSizeSectors(n)));
                 var b := Region(Fat2Lba(n), FatCopy(FatSizeSectors(n)));
                 a == b || Disjoint(a, b)
  {
  }

  /**
    `sdFormatWriteRootDirectory`: the 64 sectors of the root directory
    cluster, at the first data sector, are zeroed and the first is given
    the volume-label entry; every failure is reported as `IOError`.
   */
  function WriteRootDirectory(dev: Device, n: u64, labelText: seq<byte>): (r: Step)
    ensures SameMedium(r.dev, dev)
    ensures r.status in {Success, IOError}
    ensures r.status == Success <==>
              dev.fd >= 0 && Writable(dev, DataStartSector(n) * SectorSize, (DataStartSector(n) + SectorsPerCluster) * SectorSize)
    ensures Untouched(dev.image, r.dev.image, [Region(DataStartSector(n), RootDirCluster(CLabel(labelText)))])
    ensures r.status == Success ==> Holds(r.dev.image, Region(DataStartSector(n), RootDirCluster(CLabel(labelText))))
  {
    var ds := DataStartSector(n);
    ZeroThenWriteRegion(dev, ds, SectorsPerCluster, RootDirImage(CLabel(labelText)));
    ZeroThenWrite(dev, ds, SectorsPerCluster, RootDirImage(CLabel(labelText)))
  }
}
