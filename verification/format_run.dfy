/**
  A whole format run as the image-formatting tool performs it: the five
  C entry points in order (MBR, boot sectors, FSInfo sectors, FATs, root
  directory), stopping at the first one that fails.

  The run is described by its layout, the eight regions it writes. Those
  regions are pairwise disjoint and lie inside the device whenever the
  layout fits it (`LayoutFits`, n >= 8290), so a run on a device that
  accepts writes fills every one of them and changes nothing else. A
  second run leaves the device as one run with its own volume id would;
  with the same id it changes nothing.

  The run is stated over the five sectors it places (`Sectors`); the
  sectors of the C entry points are `RunImages`, and each stage is shown
  to be the corresponding entry point.
 */
module SdFormatRun {
  import opened Bytes
  import opened Results
  import opened VolumeLabel
  import opened Images
  import opened Disk
  import opened Regions
  import opened Placement
  import opened SdGeometry
  import opened SdFormat

  /** The sectors a run places: MBR, boot sector, FSInfo, FAT header, first root-directory sector. */
  datatype Sectors = Sectors(mbr: seq<byte>, boot: seq<byte>, fsInfo: seq<byte>, fatHeader: seq<byte>, rootDir: seq<byte>)

  predicate Sized(im: Sectors)
  {
    && |im.mbr| == SectorSize && |im.boot| == SectorSize && |im.fsInfo| == SectorSize
    && |im.fatHeader| == SectorSize && |im.rootDir| == SectorSize
  }

  /** The sectors the C entry points write for a volume of `n` sectors. */
  function RunImages(n: u64, labelText: seq<byte>, volumeId: u32): (im: Sectors)
    ensures Sized(im)
  {
    Sectors(MbrImage(PartitionField(n)), BootSector(n, labelText, volumeId), FsInfoImage(FreeClusterCount(n)),
      FatHeaderImage(), RootDirImage(CLabel(labelText)))
  }

  /** The regions a run writes, in the order it writes them. */
  function Layout(n: u64, im: Sectors): (rs: seq<Region>)
    ensures |rs| == 8
  {
    [ Region(MbrLba, im.mbr),
      Region(VbrLba, im.boot),
      Region(BackupVbrLba, im.boot),
      Region(FsInfoLba, im.fsInfo),
      Region(BackupFsInfoLba, im.fsInfo),
      HeaderRun(FatStartSector, FatSizeSectors(n), im.fatHeader),
      HeaderRun(Fat2Lba(n), FatSizeSectors(n), im.fatHeader),
      HeaderRun(DataStartSector(n), SectorsPerCluster, im.rootDir) ]
  }

  /** The layout of the C entry points' run. */
  function FormatLayout(n: u64, labelText: seq<byte>, volumeId: u32): (rs: seq<Region>)
    ensures |rs| == 8
  {
    Layout(n, RunImages(n, labelText, volumeId))
  }

  const StageCount: nat := 5

  /** Where the regions of entry point `k` begin in the layout. */
  function StageStart(k: nat): (i: nat)
    requires k <= StageCount
    ensures i <= 8 && (k == StageCount <==> i == 8)
  {
    if k == 0 then 0 else if k == 1 then 1 else if k == 2 then 3 else if k == 3 then 5 else if k == 4 then 7 else 8
  }

  /** The regions entry point `k` writes. */
  function StageRegions(k: nat, n: u64, im: Sectors): seq<Region>
    requires k < StageCount
  {
    Layout(n, im)[StageStart(k)..StageStart(k + 1)]
  }

  /** The device accepts writes over its first `n` sectors, and the layout fits them. */
  predicate Ready(dev: Device, n: u64)
  {
    LayoutFits(n) && dev.fd >= 0 && Writable(dev, 0, n * SectorSize)
  }

  /**
    What entry point `k` guarantees when it leaves `r` on `dev`: it
    changes nothing outside its own regions, reports `InvalidDevice` only
    for an invalid descriptor (the first entry point then writes nothing),
    and on a ready device it succeeds and fills its regions.
   */
  predicate StageContract(k: nat, dev: Device, n: u64, im: Sectors, r: Step)
    requires k < StageCount
  {
    && SameMedium(r.dev, dev)
    && r.status in {Success, InvalidDevice, IOError}
    && (r.status == InvalidDevice ==> dev.fd < 0)
    && (k == 0 && dev.fd < 0 ==> r == Step(InvalidDevice, dev))
    && Untouched(dev.image, r.dev.image, StageRegions(k, n, im))
    && (Ready(dev, n) ==>
          && r.status == Success
          && forall j :: 0 <= j < |StageRegions(k, n, im)| ==> Holds(r.dev.image, StageRegions(k, n, im)[j]))
  }

  /**
    Entry point `k` of the run (0 MBR, 1 boot sectors, 2 FSInfo sectors,
    3 FATs, 4 root directory) on `dev`.
   */
  function Stage(k: nat, dev: Device, n: u64, im: Sectors): (r: Step)
    requires k < StageCount && Sized(im)
    ensures SameMedium(r.dev, dev)
    ensures r.status in {Success, InvalidDevice, IOError}
    ensures r.status == InvalidDevice ==> dev.fd < 0
    ensures k == 0 && dev.fd < 0 ==> r == Step(InvalidDevice, dev)
    ensures Untouched(dev.image, r.dev.image, StageRegions(k, n, im))
    ensures Ready(dev, n) ==>
              && r.status == Success
              && forall j :: 0 <= j < |StageRegions(k, n, im)| ==> Holds(r.dev.image, StageRegions(k, n, im)[j])
  {
    if k == 0 then MbrStage(dev, n, im); WriteSectors(dev, MbrLba, im.mbr)
    else if k == 1 then BootStage(dev, n, im); WriteWithBackup(dev, VbrLba, BackupVbrLba, im.boot)
    else if k == 2 then FsInfoStage(dev, n, im); WriteWithBackup(dev, FsInfoLba, BackupFsInfoLba, im.fsInfo)
    else if k == 3 then FatStage(dev, n, im); WriteRunPair(dev, FatStartSector, Fat2Lba(n), FatSizeSectors(n), im.fatHeader)
    else RootStage(dev, n, im); ZeroThenWrite(dev, DataStartSector(n), SectorsPerCluster, im.rootDir)
  }

  lemma MbrStage(dev: Device, n: u64, im: Sectors)
    requires Sized(im)
    ensures StageContract(0, dev, n, im, WriteSectors(dev, MbrLba, im.mbr))
  {
    assert StageRegions(0, n, im) == [Region(MbrLba, im.mbr)];
    SectorWrite(dev, MbrLba, im.mbr);
    if Ready(dev, n) {
      WritableInside(dev, n, 0, SectorSize);
    }
  }

  lemma BootStage(dev: Device, n: u64, im: Sectors)
    requires Sized(im)
    ensures StageContract(1, dev, n, im, WriteWithBackup(dev, VbrLba, BackupVbrLba, im.boot))
  {
    assert StageRegions(1, n, im) == [Region(VbrLba, im.boot), Region(BackupVbrLba, im.boot)];
    if Ready(dev, n) {
      BackupPairWritable(dev, n, VbrLba, BackupVbrLba);
    }
  }

  lemma FsInfoStage(dev: Device, n: u64, im: Sectors)
    requires Sized(im)
    ensures StageContract(2, dev, n, im, WriteWithBackup(dev, FsInfoLba, BackupFsInfoLba, im.fsInfo))
  {
    assert StageRegions(2, n, im) == [Region(FsInfoLba, im.fsInfo), Region(BackupFsInfoLba, im.fsInfo)];
    if Ready(dev, n) {
      BackupPairWritable(dev, n, FsInfoLba, BackupFsInfoLba);
    }
  }

  lemma FatStage(dev: Device, n: u64, im: Sectors)
    requires Sized(im)
    ensures StageContract(3, dev, n, im, WriteRunPair(dev, FatStartSector, Fat2Lba(n), FatSizeSectors(n), im.fatHeader))
  {
    var f := FatSizeSectors(n);
    assert StageRegions(3, n, im) == [HeaderRun(FatStartSector, f, im.fatHeader), HeaderRun(Fat2Lba(n), f, im.fatHeader)];
    if Ready(dev, n) {
      FatPairWritable(dev, n, im.fatHeader);
    }
  }

  lemma RootStage(dev: Device, n: u64, im: Sectors)
    requires Sized(im)
    ensures StageContract(4, dev, n, im, ZeroThenWrite(dev, DataStartSector(n), SectorsPerCluster, im.rootDir))
  {
    assert StageRegions(4, n, im) == [HeaderRun(DataStartSector(n), SectorsPerCluster, im.rootDir)];
    ZeroThenWriteRegion(dev, DataStartSector(n), SectorsPerCluster, im.rootDir);
    if Ready(dev, n) {
      RootRunWritable(dev, n);
    }
  }

  /** Where the layout's variable regions fall for a count whose layout fits. */
  lemma LayoutPositions(n: u64)
    requires LayoutFits(n)
    ensures 1 <= FatSizeSectors(n) <= 0x8_0001
    ensures RunLength(FatSizeSectors(n)) == FatSizeSectors(n)
    ensures Fat2Lba(n) == FatStartSector + FatSizeSectors(n)
    ensures DataStartSector(n) == FatStartSector + 2 * FatSizeSectors(n)
    ensures DataStartSector(n) + SectorsPerCluster <= n
    ensures PartitionField(n) == n - PartitionAlignmentSectors
  {
    FatSizeValue(n);
    var f := FatSizeSectors(n);
    FatSizeIsLeastCover(n);
    assert f >= 1;
    assert Wrap32(FatStartSector + f) == FatStartSector + f;
    DataStartFollowsFats(n);
    PartitionFieldModulo(n);
  }

  /** A device writable over its first `n` sectors accepts every range inside them. */
  lemma WritableInside(dev: Device, n: u64, lo: int, hi: int)
    requires Writable(dev, 0, n * SectorSize)
    requires 0 <= lo && hi <= n * SectorSize
    ensures Writable(dev, lo, hi)
  {
  }

  lemma BackupPairWritable(dev: Device, n: u64, lba: nat, backup: nat)
    requires Ready(dev, n) && lba <= FatStartSector && backup <= FatStartSector
    ensures Writable(dev, lba * SectorSize, (lba + 1) * SectorSize)
    ensures Writable(dev, backup * SectorSize, (backup + 1) * SectorSize)
  {
    LayoutPositions(n);
    WritableInside(dev, n, lba * SectorSize, (lba + 1) * SectorSize);
    WritableInside(dev, n, backup * SectorSize, (backup + 1) * SectorSize);
  }

  lemma FatPairWritable(dev: Device, n: u64, header: seq<byte>)
    requires Ready(dev, n) && |header| == SectorSize
    ensures var f := FatSizeSectors(n);
      && Writable(dev, FatStartSector * SectorSize, (FatStartSector + RunLength(f)) * SectorSize)
      && Writable(dev, Fat2Lba(n) * SectorSize, (Fat2Lba(n) + RunLength(f)) * SectorSize)
      && Disjoint(HeaderRun(FatStartSector, f, header), HeaderRun(Fat2Lba(n), f, header))
  {
    LayoutPositions(n);
    var f := FatSizeSectors(n);
    WritableInside(dev, n, FatStartSector * SectorSize, (FatStartSector + f) * SectorSize);
    WritableInside(dev, n, (FatStartSector + f) * SectorSize, (FatStartSector + 2 * f) * SectorSize);
  }

  lemma RootRunWritable(dev: Device, n: u64)
    requires Ready(dev, n)
    ensures var ds := DataStartSector(n);
      Writable(dev, ds * SectorSize, (ds + RunLength(SectorsPerCluster)) * SectorSize)
  {
    LayoutPositions(n);
    var ds := DataStartSector(n);
    WritableInside(dev, n, ds * SectorSize, (ds + SectorsPerCluster) * SectorSize);
  }

  /** The run from entry point `k` on, stopping at the first failure. */
  function RunFrom(k: nat, dev: Device, n: u64, im: Sectors): (r: Step)
    requires k <= StageCount && Sized(im)
    decreases StageCount - k
    ensures SameMedium(r.dev, dev)
    ensures r.status in {Success, InvalidDevice, IOError}
    ensures r.status == InvalidDevice ==> dev.fd < 0
    ensures k == 0 && dev.fd < 0 ==> r == Step(InvalidDevice, dev)
    ensures Untouched(dev.image, r.dev.image, Layout(n, im))
  {
    if k == StageCount then Step(Success, dev)
    else
      var s := Stage(k, dev, n, im);
      StageWiden(dev.image, s.dev.image, k, n, im);
      if s.status != Success then s
      else
        var r := RunFrom(k + 1, s.dev, n, im);
        UntouchedChain(dev.image, s.dev.image, r.dev.image, Layout(n, im));
        r
  }

  lemma StageWiden(a: seq<byte>, b: seq<byte>, k: nat, n: u64, im: Sectors)
    requires k < StageCount
    requires Untouched(a, b, StageRegions(k, n, im))
    ensures Untouched(a, b, Layout(n, im))
  {
    UntouchedWiden(a, b, StageRegions(k, n, im), Layout(n, im));
  }

  /**
    The run: each entry point on the device the previous one left, the
    first failure's code returned. Whatever happens, the run changes
    nothing outside its layout; an invalid descriptor, and only that, is
    reported as `InvalidDevice`, before any write.
   */
  function Format(dev: Device, n: u64, labelText: seq<byte>, volumeId: u32): (r: Step)
    ensures SameMedium(r.dev, dev)
    ensures r.status in {Success, InvalidDevice, IOError}
    ensures r.status == InvalidDevice <==> dev.fd < 0
    ensures dev.fd < 0 ==> r.dev == dev
    ensures Untouched(dev.image, r.dev.image, FormatLayout(n, labelText, volumeId))
  {
    RunFrom(0, dev, n, RunImages(n, labelText, volumeId))
  }

  /** Eight regions at the positions of the layout, with a FAT of `f` sectors, data from `ds`. */
  predicate LayoutShape(rs: seq<Region>, f: int, ds: int, n: int)
  {
    && |rs| == 8 && 1 <= f && ds == FatStartSector + 2 * f && ds + SectorsPerCluster <= n
    && rs[0].lba == MbrLba && |rs[0].content| == SectorSize
    && rs[1].lba == VbrLba && |rs[1].content| == SectorSize
    && rs[2].lba == BackupVbrLba && |rs[2].content| == SectorSize
    && rs[3].lba == FsInfoLba && |rs[3].content| == SectorSize
    && rs[4].lba == BackupFsInfoLba && |rs[4].content| == SectorSize
    && rs[5].lba == FatStartSector && |rs[5].content| == f * SectorSize
    && rs[6].lba == FatStartSector + f && |rs[6].content| == f * SectorSize
    && rs[7].lba == ds && |rs[7].content| == SectorsPerCluster * SectorSize
  }

  lemma ShapeDisjoint(rs: seq<Region>, f: int, ds: int, n: int)
    requires LayoutShape(rs, f, ds, n)
    ensures PairwiseDisjoint(rs)
    ensures forall k :: 0 <= k < |rs| ==> 0 <= Lo(rs[k]) && Hi(rs[k]) <= n * SectorSize
  {
    assert Hi(rs[5]) == (FatStartSector + f) * SectorSize;
    assert Hi(rs[6]) == ds * SectorSize;
    assert Hi(rs[7]) == (ds + SectorsPerCluster) * SectorSize;
  }

  /**
    For every count whose layout fits, the eight regions are pairwise
    disjoint and lie inside the first `n` sectors.
   */
  lemma LayoutDisjoint(n: u64, im: Sectors)
    requires LayoutFits(n) && Sized(im)
    ensures var rs := Layout(n, im);
      && PairwiseDisjoint(rs)
      && forall k :: 0 <= k < |rs| ==> 0 <= Lo(rs[k]) && Hi(rs[k]) <= n * SectorSize
  {
    LayoutPositions(n);
    ShapeDisjoint(Layout(n, im), FatSizeSectors(n), DataStartSector(n), n);
  }

  /**
    One more entry point on a ready device where the earlier regions hold:
    it succeeds, the earlier regions still hold and so do its own.
   */
  lemma StageExtends(k: nat, dev: Device, n: u64, im: Sectors)
    requires k < StageCount && Sized(im) && Ready(dev, n)
    requires forall j :: 0 <= j < StageStart(k) ==> Holds(dev.image, Layout(n, im)[j])
    ensures var s := Stage(k, dev, n, im);
      && s.status == Success && Ready(s.dev, n)
      && forall j :: 0 <= j < StageStart(k + 1) ==> Holds(s.dev.image, Layout(n, im)[j])
  {
    var rs := Layout(n, im);
    var s := Stage(k, dev, n, im);
    LayoutDisjoint(n, im);
    forall j | StageStart(k) <= j < StageStart(k + 1)
      ensures Holds(s.dev.image, rs[j])
    {
      assert rs[j] == StageRegions(k, n, im)[j - StageStart(k)];
    }
    HoldExtend(dev.image, s.dev.image, rs, StageStart(k), StageStart(k + 1));
    SameMediumWritable(dev, s.dev, 0, n * SectorSize);
  }

  /** After a successful entry point the run carries on from the next one. */
  lemma RunFromStep(k: nat, dev: Device, n: u64, im: Sectors)
    requires k < StageCount && Sized(im) && Stage(k, dev, n, im).status == Success
    ensures RunFrom(k, dev, n, im) == RunFrom(k + 1, Stage(k, dev, n, im).dev, n, im)
  {
  }

  /**
    The run from entry point `k`, on a ready device where the regions of
    the earlier entry points already hold, succeeds and leaves every
    region of the layout holding.
   */
  lemma {:induction false} RunFromWrites(k: nat, dev: Device, n: u64, im: Sectors)
    requires k <= StageCount && Sized(im) && Ready(dev, n)
    requires forall j :: 0 <= j < StageStart(k) ==> Holds(dev.image, Layout(n, im)[j])
    ensures var r := RunFrom(k, dev, n, im);
      && r.status == Success
      && forall j :: 0 <= j < 8 ==> Holds(r.dev.image, Layout(n, im)[j])
    decreases StageCount - k
  {
    if k < StageCount {
      var s := Stage(k, dev, n, im);
      StageExtends(k, dev, n, im);
      RunFromStep(k, dev, n, im);
      RunFromWrites(k + 1, s.dev, n, im);
    }
  }

  /**
    After a completed run the single sectors read back as the run placed
    them; in particular each backup sector equals its primary.
   */
  lemma RunSectors(dev: Device, n: u64, im: Sectors)
    requires Sized(im) && Ready(dev, n)
    ensures var image := RunFrom(0, dev, n, im).dev.image;
      && (BackupFsInfoLba + 1) * SectorSize <= |image|
      && SectorAt(image, MbrLba) == im.mbr
      && SectorAt(image, VbrLba) == im.boot && SectorAt(image, BackupVbrLba) == im.boot
      && SectorAt(image, FsInfoLba) == im.fsInfo && SectorAt(image, BackupFsInfoLba) == im.fsInfo
  {
    RunFromWrites(0, dev, n, im);
    var rs := Layout(n, im);
    var image := RunFrom(0, dev, n, im).dev.image;
    assert Holds(image, rs[0]) && Holds(image, rs[1]) && Holds(image, rs[2]) && Holds(image, rs[3]) && Holds(image, rs[4]);
  }

  /**
    After a completed run the two FAT copies lie back to back from sector
    8224, each the header sector followed by zero sectors.
   */
  lemma RunFats(dev: Device, n: u64, im: Sectors)
    requires Sized(im) && Ready(dev, n)
    ensures var image := RunFrom(0, dev, n, im).dev.image;
      var f := FatSizeSectors(n);
      && f > 0
      && (FatStartSector + 2 * f) * SectorSize <= |image|
      && image[FatStartSector * SectorSize .. (FatStartSector + f) * SectorSize] == im.fatHeader + Zeros((f - 1) * SectorSize)
      && image[(FatStartSector + f) * SectorSize .. (FatStartSector + 2 * f) * SectorSize] == im.fatHeader + Zeros((f - 1) * SectorSize)
  {
    RunFromWrites(0, dev, n, im);
    LayoutPositions(n);
    var rs := Layout(n, im);
    var image := RunFrom(0, dev, n, im).dev.image;
    assert Holds(image, rs[5]) && Holds(image, rs[6]);
  }

  /** After a completed run the data area's first cluster is the root sector followed by zero sectors. */
  lemma RunRootDirectory(dev: Device, n: u64, im: Sectors)
    requires Sized(im) && Ready(dev, n)
    ensures var image := RunFrom(0, dev, n, im).dev.image;
      var ds := DataStartSector(n);
      && (ds + SectorsPerCluster) * SectorSize <= |image|
      && image[ds * SectorSize .. (ds + SectorsPerCluster) * SectorSize] == im.rootDir + Zeros((SectorsPerCluster - 1) * SectorSize)
  {
    RunFromWrites(0, dev, n, im);
    LayoutPositions(n);
    var rs := Layout(n, im);
    assert Holds(RunFrom(0, dev, n, im).dev.image, rs[7]);
  }

  /**
    On a device that accepts writes over its first `n` sectors, with a
    count whose layout fits, the run succeeds and every region of the
    layout holds its image afterwards.
   */
  lemma FormatWritesLayout(dev: Device, n: u64, labelText: seq<byte>, volumeId: u32)
    requires Ready(dev, n)
    ensures var r := Format(dev, n, labelText, volumeId);
      && r.status == Success
      && forall j :: 0 <= j < 8 ==> Holds(r.dev.image, FormatLayout(n, labelText, volumeId)[j])
  {
    RunFromWrites(0, dev, n, RunImages(n, labelText, volumeId));
  }

  /**
    Formatting a device a second time, with whatever volume id the second
    run draws, leaves the device exactly as one run with that id would:
    every byte of the first run is either rewritten or left as the device
    had it. With the same id, a second run changes nothing.
   */
  lemma Reformat(dev: Device, n: u64, labelText: seq<byte>, firstId: u32, secondId: u32)
    requires Ready(dev, n)
    ensures var once := Format(dev, n, labelText, firstId);
      Format(once.dev, n, labelText, secondId) == Format(dev, n, labelText, secondId)
    ensures var once := Format(dev, n, labelText, firstId);
      Format(once.dev, n, labelText, firstId) == once
  {
    var rs := FormatLayout(n, labelText, secondId);
    var once := Format(dev, n, labelText, firstId);
    var twice := Format(once.dev, n, labelText, secondId);
    var direct := Format(dev, n, labelText, secondId);
    FormatWritesLayout(dev, n, labelText, firstId);
    SameMediumWritable(dev, once.dev, 0, n * SectorSize);
    FormatWritesLayout(once.dev, n, labelText, secondId);
    FormatWritesLayout(dev, n, labelText, secondId);
    LayoutSpans(n, RunImages(n, labelText, firstId), RunImages(n, labelText, secondId));
    UntouchedSameSpans(dev.image, once.dev.image, FormatLayout(n, labelText, firstId), rs);
    UntouchedChain(dev.image, once.dev.image, twice.dev.image, rs);
    Determined(dev.image, twice.dev.image, direct.dev.image, rs);
    FormatWritesLayout(once.dev, n, labelText, firstId);
    Determined(once.dev.image, once.dev.image, Format(once.dev, n, labelText, firstId).dev.image,
      FormatLayout(n, labelText, firstId));
  }

  /** The layout's regions lie where they lie whatever sectors a run places in them. */
  lemma LayoutSpans(n: u64, im: Sectors, jm: Sectors)
    requires Sized(im) && Sized(jm)
    ensures SameSpans(Layout(n, im), Layout(n, jm))
  {
  }

  /**
    The image-formatting tool's sequence, call by call: each entry point
    on the device the previous one left, the first failure returned.
   */
  function EntryPoints(dev: Device, n: u64, labelText: seq<byte>, volumeId: u32): Step
  {
    var mbr := WriteMbr(dev, n);
    if mbr.status != Success then mbr else AfterMbr(mbr.dev, n, labelText, volumeId)
  }

  /** The tool's sequence after the MBR was written. */
  function AfterMbr(dev: Device, n: u64, labelText: seq<byte>, volumeId: u32): Step
  {
    var vbr := WriteVolumeBootRecord(dev, n, labelText, volumeId);
    if vbr.status != Success then vbr else AfterBootRecord(vbr.dev, n, labelText)
  }

  /** The tool's sequence after the boot sector and its backup were written. */
  function AfterBootRecord(dev: Device, n: u64, labelText: seq<byte>): Step
  {
    var fsInfo := WriteFsInfo(dev, n);
    if fsInfo.status != Success then fsInfo else AfterFsInfo(fsInfo.dev, n, labelText)
  }

  /** The tool's sequence after the FSInfo sector and its backup were written. */
  function AfterFsInfo(dev: Device, n: u64, labelText: seq<byte>): Step
  {
    var fats := WriteFat32Tables(dev, n);
    if fats.status != Success then fats else WriteRootDirectory(fats.dev, n, labelText)
  }

  /** The run is the tool's sequence of entry points, for every device and count. */
  lemma FormatIsEntryPoints(dev: Device, n: u64, labelText: seq<byte>, volumeId: u32)
    ensures Format(dev, n, labelText, volumeId) == EntryPoints(dev, n, labelText, volumeId)
  {
  }

  /**
    The tool's exit status: 1 once an entry point returns a non-zero code,
    0 after the root directory was written.
   */
  function ToolExit(dev: Device, n: u64, labelText: seq<byte>, volumeId: u32): (exit: int)
    ensures exit == 0 || exit == 1
  {
    if Code(EntryPoints(dev, n, labelText, volumeId).status) != 0 then 1 else 0
  }

  /**
    The tool exits with 0 exactly when the run succeeds: always on a device
    that accepts writes and fits the layout, never on an invalid descriptor.
    The tool itself returns 1 before any entry point runs when `open`
    fails; here only the exit status agrees with that path, not the route
    to it, since the first entry point rejects the descriptor instead.
   */
  lemma ToolExitMeaning(dev: Device, n: u64, labelText: seq<byte>, volumeId: u32)
    ensures ToolExit(dev, n, labelText, volumeId) == 0 <==> Format(dev, n, labelText, volumeId).status == Success
    ensures dev.fd < 0 ==> ToolExit(dev, n, labelText, volumeId) == 1
    ensures Ready(dev, n) ==> ToolExit(dev, n, labelText, volumeId) == 0
  {
    FormatIsEntryPoints(dev, n, labelText, volumeId);
    if Ready(dev, n) {
      FormatWritesLayout(dev, n, labelText, volumeId);
    }
  }
}
