/**
  The volume a successful run leaves, read back sector by sector through
  the decoders: the partition table, the boot sector and its backup, the
  FSInfo sector and its backup, the two FAT copies and the root
  directory cluster; and the boot record's own fields, which locate every
  one of those structures.
 */
module FormattedVolume {
  import opened Bytes
  import opened Results
  import opened VolumeLabel
  import opened Images
  import opened Disk
  import opened Regions
  import opened Placement
  import opened SdGeometry
  import opened SdFormat
  import opened SdFormatRun

  /** The image a run leaves on `dev`. */
  function Formatted(dev: Device, n: u64, labelText: seq<byte>, volumeId: u32): seq<byte>
  {
    Format(dev, n, labelText, volumeId).dev.image
  }

  // ---------------------------------------------------------------------------
  // The structures read back
  // ---------------------------------------------------------------------------

  /** A FAT copy in place from sector 8224: entries 0, 1, 2 set, every other entry of the header free. */
  lemma FatsInPlace(image: seq<byte>, f: nat)
    requires (FatStartSector + f) * SectorSize <= |image|
    requires image[FatStartSector * SectorSize .. (FatStartSector + f) * SectorSize] == FatCopy(f)
    ensures var header := SectorAt(image, FatStartSector);
      && FatEntry(header, 0) == 0xFFFFFFF8
      && FatEntry(header, 1) == 0xFFFFFFFF
      && FatEntry(header, 2) == 0x0FFFFFFF
      && forall i :: 3 <= i < EntriesPerFatSector ==> FatEntry(header, i) == 0
  {
    FatCopyBytes(f);
    assert SectorAt(image, FatStartSector) == FatCopy(f)[..SectorSize] == FatHeaderImage();
    FatHeaderBytes();
    FatHeaderFreeEntries();
  }

  /** The sectors of a FAT copy after its header hold only free entries. */
  lemma FatTailFree(image: seq<byte>, f: nat)
    requires (FatStartSector + f) * SectorSize <= |image|
    requires image[FatStartSector * SectorSize .. (FatStartSector + f) * SectorSize] == FatCopy(f)
    ensures forall i :: (FatStartSector + 1) * SectorSize <= i < (FatStartSector + f) * SectorSize ==> image[i] == 0
  {
    var copy := FatCopy(f);
    FatCopyBytes(f);
    forall i | (FatStartSector + 1) * SectorSize <= i < (FatStartSector + f) * SectorSize
      ensures image[i] == 0
    {
      assert image[i] == copy[i - FatStartSector * SectorSize];
    }
  }

  /** A root cluster in place: the volume-label entry, then zeros to the end of the cluster. */
  lemma RootDirectoryInPlace(image: seq<byte>, ds: nat, volumeLabel: Label)
    requires (ds + SectorsPerCluster) * SectorSize <= |image|
    requires image[ds * SectorSize .. (ds + SectorsPerCluster) * SectorSize] == RootDirCluster(volumeLabel)
    ensures DecodeDirectoryEntry(image[ds * SectorSize .. ds * SectorSize + 32]) == VolumeLabelEntry(volumeLabel)
    ensures forall i :: ds * SectorSize + 32 <= i < (ds + SectorsPerCluster) * SectorSize ==> image[i] == 0
  {
    var cluster := RootDirCluster(volumeLabel);
    RootDirClusterBytes(volumeLabel);
    RootDirImageBytes(volumeLabel);
    assert image[ds * SectorSize .. ds * SectorSize + 32] == cluster[..32];
    assert cluster[..32] == RootDirImage(volumeLabel)[..32];
    forall i | ds * SectorSize + 32 <= i < (ds + SectorsPerCluster) * SectorSize
      ensures image[i] == 0
    {
      assert image[i] == cluster[i - ds * SectorSize];
    }
  }

  // ---------------------------------------------------------------------------
  // The formatted volume
  // ---------------------------------------------------------------------------

  /**
    Sector 0 decodes to the partition table with one FAT32 (LBA)
    partition starting at sector 8192 and covering the rest of the device.
   */
  lemma FormattedMbr(dev: Device, n: u64, labelText: seq<byte>, volumeId: u32)
    requires Ready(dev, n)
    ensures var image := Formatted(dev, n, labelText, volumeId);
      && SectorSize <= |image|
      && DecodeMbr(SectorAt(image, MbrLba)) == FormatterMbr(n - PartitionAlignmentSectors)
  {
    assert Representable(n);
    PartitionFieldModulo(n);
    assert PartitionField(n) == n - PartitionAlignmentSectors;
    FormattedMbrSector(dev, n, labelText, volumeId);
    MbrReadsBack(Formatted(dev, n, labelText, volumeId), PartitionField(n));
  }

  /** After a run, sector 0 holds the formatter's MBR image. */
  lemma FormattedMbrSector(dev: Device, n: u64, labelText: seq<byte>, volumeId: u32)
    requires Ready(dev, n)
    ensures var image := Formatted(dev, n, labelText, volumeId);
      SectorSize <= |image| && SectorAt(image, MbrLba) == MbrImage(PartitionField(n))
  {
    RunSectors(dev, n, RunImages(n, labelText, volumeId));
  }

  /** A sector 0 holding the formatter's MBR image decodes to the formatter's record. */
  lemma MbrReadsBack(image: seq<byte>, partitionSectors: u32)
    requires SectorSize <= |image| && SectorAt(image, MbrLba) == MbrImage(partitionSectors)
    ensures DecodeMbr(SectorAt(image, MbrLba)) == FormatterMbr(partitionSectors)
  {
    MbrRoundTrip(FormatterMbr(partitionSectors));
  }

  /**
    Partition sectors 0 and 6 hold the same bytes, which decode to the
    formatter's boot record for this device: the partition size, the FAT
    size of the geometry, the volume id and the prepared label.
   */
  lemma FormattedBootSectors(dev: Device, n: u64, labelText: seq<byte>, volumeId: u32)
    requires Ready(dev, n)
    ensures var image := Formatted(dev, n, labelText, volumeId);
      && (BackupVbrLba + 1) * SectorSize <= |image|
      && SectorAt(image, BackupVbrLba) == SectorAt(image, VbrLba)
      && DecodeVbr(SectorAt(image, VbrLba))
           == FormatterVbr(n - PartitionAlignmentSectors, FatSizeSectors(n), volumeId, CLabel(labelText))
  {
    RunSectors(dev, n, RunImages(n, labelText, volumeId));
    VbrRoundTrip(FormatterVbr(PartitionField(n), FatSizeSectors(n), volumeId, CLabel(labelText)));
    LayoutPositions(n);
  }

  /**
    Partition sectors 1 and 7 hold the same bytes, which decode to the
    formatter's FSInfo record; its free count is every cluster but the
    root directory's.
   */
  lemma FormattedFsInfo(dev: Device, n: u64, labelText: seq<byte>, volumeId: u32)
    requires Ready(dev, n)
    ensures var image := Formatted(dev, n, labelText, volumeId);
      && (BackupFsInfoLba + 1) * SectorSize <= |image|
      && SectorAt(image, BackupFsInfoLba) == SectorAt(image, FsInfoLba)
      && DecodeFsInfo(SectorAt(image, FsInfoLba)) == FormatterFsInfo(FreeClusterCount(n))
      && FreeClusterCount(n) == ClusterCount(n) - 1
  {
    RunSectors(dev, n, RunImages(n, labelText, volumeId));
    FsInfoRoundTrip(FormatterFsInfo(FreeClusterCount(n)));
    FreeClusterCountExact(n);
  }

  /**
    The two FAT copies lie back to back from sector 8224 and are
    byte-identical, each a header sector and free entries after it
    (`FatsInPlace` reads the entries back).
   */
  lemma FormattedFats(dev: Device, n: u64, labelText: seq<byte>, volumeId: u32)
    requires Ready(dev, n)
    ensures var image := Formatted(dev, n, labelText, volumeId);
      var f := FatSizeSectors(n);
      && (FatStartSector + 2 * f) * SectorSize <= |image|
      && image[FatStartSector * SectorSize .. (FatStartSector + f) * SectorSize] == FatCopy(f)
      && image[(FatStartSector + f) * SectorSize .. (FatStartSector + 2 * f) * SectorSize] == FatCopy(f)
  {
    RunFats(dev, n, RunImages(n, labelText, volumeId));
    assert RunLength(FatSizeSectors(n)) == FatSizeSectors(n);
  }

  /**
    The first cluster of the data area is the root directory cluster
    (`RootDirectoryInPlace` reads its volume-label entry back).
   */
  lemma FormattedRootDirectory(dev: Device, n: u64, labelText: seq<byte>, volumeId: u32)
    requires Ready(dev, n)
    ensures var image := Formatted(dev, n, labelText, volumeId);
      var ds := DataStartSector(n);
      && (ds + SectorsPerCluster) * SectorSize <= |image|
      && image[ds * SectorSize .. (ds + SectorsPerCluster) * SectorSize] == RootDirCluster(CLabel(labelText))
  {
    RunRootDirectory(dev, n, RunImages(n, labelText, volumeId));
  }

  /**
    The label the boot sector carries at bytes 71..81 and the name of the
    root directory's label entry are the same eleven bytes, the prepared
    label.
   */
  lemma LabelsAgree(n: u64, labelText: seq<byte>, volumeId: u32)
    ensures BootSector(n, labelText, volumeId)[71..82] == RootDirCluster(CLabel(labelText))[0..11] == CLabel(labelText)
  {
    VbrImageBytes(PartitionField(n), FatSizeSectors(n), volumeId, CLabel(labelText));
    RootDirClusterBytes(CLabel(labelText));
    RootDirImageBytes(CLabel(labelText));
  }

  /**
    The formatter's boot record locates the structures the run writes:
    hidden plus reserved sectors reach the first FAT, the two FATs reach
    the data area, the FSInfo and backup boot sector numbers point at the
    sectors written, the partition covers the device, the FAT has an entry
    for every cluster, and the root cluster is the data area's first.
   */
  lemma BootRecordDescribesLayout(n: u64, volumeId: u32, volumeLabel: Label)
    requires Compute(n).Ok?
    ensures var b := FormatterVbr(n - PartitionAlignmentSectors, FatSizeSectors(n), volumeId, volumeLabel).bpb;
      && b.bytesPerSector as nat == SectorSize
      && b.hiddenSectors as nat == VbrLba
      && b.hiddenSectors + b.reservedSectorCount == FatStartSector
      && b.hiddenSectors + b.fsInfoSector == FsInfoLba
      && b.hiddenSectors + b.backupBootSector == BackupVbrLba
      && b.hiddenSectors + b.backupBootSector + b.fsInfoSector == BackupFsInfoLba
      && FatStartSector + b.fatCount * b.fatSize32 == DataStartSector(n)
      && FatStartSector + b.fatSize32 == Fat2Lba(n)
      && b.hiddenSectors + b.totalSectors32 == n
      && (n - DataStartSector(n)) / b.sectorsPerCluster as nat == ClusterCount(n)
      && 128 * b.fatSize32 >= ClusterCount(n) + 2
      && b.rootCluster as nat == RootCluster
  {
    LayoutPositions(n);
    HasDataCluster(n);
    FatCapacity(n);
  }
}
