/**
  The five on-disk structures, as records with an explicit little-endian
  byte layout (the packed structs of the source), and the particular
  instances the formatter fills in.

  Every structure is 512 bytes (a directory entry is 32). Each `Encode…`
  lays its fields out one after another exactly as the packed struct does;
  each `Decode…` reads the fields back from their fixed offsets.
 */
module Images {
  import opened Bytes
  import opened VolumeLabel


  type Bytes3 = s: seq<byte> | |s| == 3 witness [0, 0, 0]
  type Bytes8 = s: seq<byte> | |s| == 8 witness [0, 0, 0, 0, 0, 0, 0, 0]
  type Bytes12 = s: seq<byte> | |s| == 12 witness [0, 0, 0, 0, 0, 0, 0, 0, 0, 0, 0, 0]
  type Bytes420 = s: seq<byte> | |s| == 420 witness seq(420, _ => 0)
  type Bytes446 = s: seq<byte> | |s| == 446 witness seq(446, _ => 0)
  type Bytes480 = s: seq<byte> | |s| == 480 witness seq(480, _ => 0)

  // ---------------------------------------------------------------------------
  // Master Boot Record
  // ---------------------------------------------------------------------------

  /** One 16-byte slot of the classic PC partition table. */
  datatype PartitionEntry = PartitionEntry(
    status: byte,
    chsStart: Bytes3,
    kind: byte,
    chsEnd: Bytes3,
    lbaStart: u32,
    sectorCount: u32)

  const UnusedEntry := PartitionEntry(0, [0, 0, 0], 0, [0, 0, 0], 0, 0)

  type PartitionTable = t: seq<PartitionEntry> | |t| == 4
    witness [UnusedEntry, UnusedEntry, UnusedEntry, UnusedEntry]

  datatype MasterBootRecord = MasterBootRecord(
    bootstrap: Bytes446,
    partitions: PartitionTable,
    signature: u16)

  function EncodePartitionEntry(e: PartitionEntry): (r: seq<byte>)
    ensures |r| == 16
  {
    [e.status] + e.chsStart + [e.kind] + e.chsEnd + Le32(e.lbaStart) + Le32(e.sectorCount)
  }

  function DecodePartitionEntry(s: seq<byte>): PartitionEntry
    requires |s| == 16
  {
    PartitionEntry(s[0], s[1..4], s[4], s[5..8], Le32Value(s[8..12]), Le32Value(s[12..16]))
  }

  lemma PartitionEntryRoundTrip(e: PartitionEntry)
    ensures DecodePartitionEntry(EncodePartitionEntry(e)) == e
  {
    var s := EncodePartitionEntry(e);
    var chs := [e.status] + e.chsStart + [e.kind] + e.chsEnd;
    var p := chs + Le32(e.lbaStart);
    assert s == p + Le32(e.sectorCount) && |chs| == 8 && |p| == 12;
    assert s[..8] == chs && s[8..12] == Le32(e.lbaStart) && s[12..16] == Le32(e.sectorCount);
    assert chs[1..4] == e.chsStart && chs[5..8] == e.chsEnd;
    Le32RoundTrip(e.lbaStart);
    Le32RoundTrip(e.sectorCount);
  }

  function EncodeMbr(m: MasterBootRecord): (r: seq<byte>)
    ensures |r| == SectorSize
  {
    m.bootstrap
    + EncodePartitionEntry(m.partitions[0])
    + EncodePartitionEntry(m.partitions[1])
    + EncodePartitionEntry(m.partitions[2])
    + EncodePartitionEntry(m.partitions[3])
    + Le16(m.signature)
  }

  function DecodeMbr(s: seq<byte>): MasterBootRecord
    requires |s| == SectorSize
  {
    MasterBootRecord(
      s[..446],
      [ DecodePartitionEntry(s[446..462]), DecodePartitionEntry(s[462..478]),
        DecodePartitionEntry(s[478..494]), DecodePartitionEntry(s[494..510]) ],
      Le16Value(s[510..512]))
  }

  /** Decoding an encoded MBR gives back every field. */
  lemma MbrRoundTrip(m: MasterBootRecord)
    ensures DecodeMbr(EncodeMbr(m)) == m
  {
    var s := EncodeMbr(m);
    var e0, e1 := EncodePartitionEntry(m.partitions[0]), EncodePartitionEntry(m.partitions[1]);
    var e2, e3 := EncodePartitionEntry(m.partitions[2]), EncodePartitionEntry(m.partitions[3]);
    var p1 := m.bootstrap + e0;
    var p2 := p1 + e1;
    var p3 := p2 + e2;
    var p4 := p3 + e3;
    assert s == p4 + Le16(m.signature);
    assert |p1| == 462 && |p2| == 478 && |p3| == 494 && |p4| == 510;
    assert s[..510] == p4 && s[510..512] == Le16(m.signature);
    assert p4[..494] == p3 && p4[494..510] == e3;
    assert p3[..478] == p2 && p3[478..494] == e2;
    assert p2[..462] == p1 && p2[462..478] == e1;
    assert p1[..446] == m.bootstrap && p1[446..462] == e0;
    assert s[..446] == m.bootstrap;
    assert s[446..462] == e0 && s[462..478] == e1 && s[478..494] == e2 && s[494..510] == e3;
    PartitionEntryRoundTrip(m.partitions[0]);
    PartitionEntryRoundTrip(m.partitions[1]);
    PartitionEntryRoundTrip(m.partitions[2]);
    PartitionEntryRoundTrip(m.partitions[3]);
    Le16RoundTrip(m.signature);
    assert DecodeMbr(s).partitions == m.partitions;
  }

  /** The active FAT32-LBA entry `sdFormatWriteMBR` puts in slot 0. */
  function Fat32LbaEntry(partitionSectors: u32): PartitionEntry
  {
    PartitionEntry(0x80, [0xFF, 0xFF, 0xFF], 0x0C, [0xFF, 0xFF, 0xFF], 8192, partitionSectors)
  }

  /** The MBR record: zeroed boot code, one active entry, three unused slots. */
  function FormatterMbr(partitionSectors: u32): MasterBootRecord
  {
    MasterBootRecord(
      seq(446, _ => 0),
      [Fat32LbaEntry(partitionSectors), UnusedEntry, UnusedEntry, UnusedEntry],
      0xAA55)
  }

  /**
    The sector the formatter writes at LBA 0, byte by byte: a zero bootstrap
    area, an active entry whose CHS fields are the use-LBA sentinel, type
    0x0C, LBA start 8192 and the given sector count, three zero slots and
    the 55 AA signature.
   */
  function MbrImage(partitionSectors: u32): (r: seq<byte>)
    ensures |r| == SectorSize
  {
    EncodeMbr(FormatterMbr(partitionSectors))
  }

  lemma MbrImageBytes(partitionSectors: u32)
    ensures var r := MbrImage(partitionSectors);
      && (forall i :: 0 <= i < 446 ==> r[i] == 0)
      && r[446] == 0x80
      && r[447..450] == [0xFF, 0xFF, 0xFF]
      && r[450] == 0x0C
      && r[451..454] == [0xFF, 0xFF, 0xFF]
      && Le32Value(r[454..458]) == 8192
      && Le32Value(r[458..462]) == partitionSectors
      && (forall i :: 462 <= i < 510 ==> r[i] == 0)
      && r[510] == 0x55 && r[511] == 0xAA
  {
    MbrImageLayout(partitionSectors);
    MbrImageFields(partitionSectors);
  }

  lemma MbrImageFields(partitionSectors: u32)
    ensures var r := EncodeMbr(FormatterMbr(partitionSectors));
      && Le32Value(r[454..458]) == 8192
      && Le32Value(r[458..462]) == partitionSectors
  {
    MbrImageLayout(partitionSectors);
    var r := EncodeMbr(FormatterMbr(partitionSectors));
    SubSlice(r, 446, 462, 8, 12);
    SubSlice(r, 446, 462, 12, 16);
    Le32RoundTrip(8192);
    Le32RoundTrip(partitionSectors);
  }

  lemma MbrImageLayout(partitionSectors: u32)
    ensures var r := EncodeMbr(FormatterMbr(partitionSectors));
      && r[..446] == Zeros(446)
      && r[446..462] == [0x80, 0xFF, 0xFF, 0xFF, 0x0C, 0xFF, 0xFF, 0xFF] + Le32(8192) + Le32(partitionSectors)
      && r[462..510] == Zeros(48)
      && r[510..] == [0x55, 0xAA]
  {
    var m := FormatterMbr(partitionSectors);
    var u := EncodePartitionEntry(UnusedEntry);
    assert u == Zeros(16);
    var head := m.bootstrap + EncodePartitionEntry(m.partitions[0]);
    var r := EncodeMbr(m);
    assert r == head + (u + u + u) + Le16(0xAA55);
    assert u + u + u == Zeros(48);
    assert head[..446] == Zeros(446);
  }

  // ---------------------------------------------------------------------------
  // Volume Boot Record (boot sector with the FAT32 BIOS Parameter Block)
  // ---------------------------------------------------------------------------

  /** Bytes 11..63 of the boot sector: the common and the FAT32 extended BPB. */
  datatype BiosParameterBlock = BiosParameterBlock(
    bytesPerSector: u16,
    sectorsPerCluster: byte,
    reservedSectorCount: u16,
    fatCount: byte,
    rootEntryCount: u16,
    totalSectors16: u16,
    mediaDescriptor: byte,
    fatSize16: u16,
    sectorsPerTrack: u16,
    headCount: u16,
    hiddenSectors: u32,
    totalSectors32: u32,
    fatSize32: u32,
    extFlags: u16,
    fsVersion: u16,
    rootCluster: u32,
    fsInfoSector: u16,
    backupBootSector: u16,
    reserved: Bytes12)

  datatype VolumeBootRecord = VolumeBootRecord(
    jmpBoot: Bytes3,
    oemName: Bytes8,
    bpb: BiosParameterBlock,
    driveNumber: byte,
    reserved1: byte,
    bootSignature: byte,
    volumeId: u32,
    volumeLabel: Label,
    fsType: Bytes8,
    bootCode: Bytes420,
    signature: u16)

  function EncodeCommonBpb(b: BiosParameterBlock): (r: seq<byte>)
    ensures |r| == 25
  {
    Le16(b.bytesPerSector) + [b.sectorsPerCluster] + Le16(b.reservedSectorCount) + [b.fatCount]
    + Le16(b.rootEntryCount) + Le16(b.totalSectors16) + [b.mediaDescriptor] + Le16(b.fatSize16)
    + Le16(b.sectorsPerTrack) + Le16(b.headCount) + Le32(b.hiddenSectors) + Le32(b.totalSectors32)
  }

  function EncodeExtendedBpb(b: BiosParameterBlock): (r: seq<byte>)
    ensures |r| == 28
  {
    Le32(b.fatSize32) + Le16(b.extFlags) + Le16(b.fsVersion) + Le32(b.rootCluster)
    + Le16(b.fsInfoSector) + Le16(b.backupBootSector) + b.reserved
  }

  function EncodeBpb(b: BiosParameterBlock): (r: seq<byte>)
    ensures |r| == 53
  {
    EncodeCommonBpb(b) + EncodeExtendedBpb(b)
  }

  function DecodeBpb(s: seq<byte>): BiosParameterBlock
    requires |s| == 53
  {
    BiosParameterBlock(
      Le16Value(s[0..2]), s[2], Le16Value(s[3..5]), s[5],
      Le16Value(s[6..8]), Le16Value(s[8..10]), s[10], Le16Value(s[11..13]),
      Le16Value(s[13..15]), Le16Value(s[15..17]), Le32Value(s[17..21]), Le32Value(s[21..25]),
      Le32Value(s[25..29]), Le16Value(s[29..31]), Le16Value(s[31..33]), Le32Value(s[33..37]),
      Le16Value(s[37..39]), Le16Value(s[39..41]), s[41..53])
  }

  lemma CommonBpbFields(b: BiosParameterBlock)
    ensures var s := EncodeCommonBpb(b);
      && s[0..2] == Le16(b.bytesPerSector) && s[2] == b.sectorsPerCluster
      && s[3..5] == Le16(b.reservedSectorCount) && s[5] == b.fatCount
      && s[6..8] == Le16(b.rootEntryCount) && s[8..10] == Le16(b.totalSectors16)
      && s[10] == b.mediaDescriptor && s[11..13] == Le16(b.fatSize16)
      && s[13..15] == Le16(b.sectorsPerTrack) && s[15..17] == Le16(b.headCount)
      && s[17..21] == Le32(b.hiddenSectors) && s[21..25] == Le32(b.totalSectors32)
  {
  }

  lemma ExtendedBpbFields(b: BiosParameterBlock)
    ensures var s := EncodeExtendedBpb(b);
      && s[0..4] == Le32(b.fatSize32) && s[4..6] == Le16(b.extFlags)
      && s[6..8] == Le16(b.fsVersion) && s[8..12] == Le32(b.rootCluster)
      && s[12..14] == Le16(b.fsInfoSector) && s[14..16] == Le16(b.backupBootSector)
      && s[16..28] == b.reserved
  {
  }

  /** Decoding an encoded BPB gives back every field. */
  lemma BpbRoundTrip(b: BiosParameterBlock)
    ensures DecodeBpb(EncodeBpb(b)) == b
  {
    var s := EncodeBpb(b);
    var c, e := EncodeCommonBpb(b), EncodeExtendedBpb(b);
    CommonBpbFields(b);
    ExtendedBpbFields(b);
    assert s[..25] == c && s[25..] == e;
    assert forall i, j :: 0 <= i <= j <= 25 ==> s[i..j] == c[i..j];
    assert forall i, j :: 25 <= i <= j <= 53 ==> s[i..j] == e[i - 25..j - 25];
    Le16RoundTrip(b.bytesPerSector);
    Le16RoundTrip(b.reservedSectorCount);
    Le16RoundTrip(b.rootEntryCount);
    Le16RoundTrip(b.totalSectors16);
    Le16RoundTrip(b.fatSize16);
    Le16RoundTrip(b.sectorsPerTrack);
    Le16RoundTrip(b.headCount);
    Le32RoundTrip(b.hiddenSectors);
    Le32RoundTrip(b.totalSectors32);
    Le32RoundTrip(b.fatSize32);
    Le16RoundTrip(b.extFlags);
    Le16RoundTrip(b.fsVersion);
    Le32RoundTrip(b.rootCluster);
    Le16RoundTrip(b.fsInfoSector);
    Le16RoundTrip(b.backupBootSector);
  }

  function EncodeVbr(v: VolumeBootRecord): (r: seq<byte>)
    ensures |r| == SectorSize
  {
    v.jmpBoot + v.oemName
    + EncodeBpb(v.bpb)
    + [v.driveNumber, v.reserved1, v.bootSignature] + Le32(v.volumeId) + v.volumeLabel + v.fsType
    + v.bootCode
    + Le16(v.signature)
  }

  function DecodeVbr(s: seq<byte>): VolumeBootRecord
    requires |s| == SectorSize
  {
    VolumeBootRecord(
      s[0..3], s[3..11], DecodeBpb(s[11..64]),
      s[64], s[65], s[66], Le32Value(s[67..71]), s[71..82], s[82..90],
      s[90..510], Le16Value(s[510..512]))
  }

  lemma VbrLayout(v: VolumeBootRecord)
    ensures var s := EncodeVbr(v);
      && s[0..3] == v.jmpBoot && s[3..11] == v.oemName && s[11..64] == EncodeBpb(v.bpb)
      && s[64] == v.driveNumber && s[65] == v.reserved1 && s[66] == v.bootSignature
      && s[67..71] == Le32(v.volumeId) && s[71..82] == v.volumeLabel && s[82..90] == v.fsType
      && s[90..510] == v.bootCode && s[510..512] == Le16(v.signature)
  {
  }

  /** Decoding an encoded boot sector gives back every field. */
  lemma VbrRoundTrip(v: VolumeBootRecord)
    ensures DecodeVbr(EncodeVbr(v)) == v
  {
    VbrLayout(v);
    BpbRoundTrip(v.bpb);
    Le32RoundTrip(v.volumeId);
    Le16RoundTrip(v.signature);
  }

  /** The characters of an ASCII literal, as bytes. */
  function Ascii(text: string): (r: seq<byte>)
    requires forall i :: 0 <= i < |text| ==> text[i] as int < 0x80
    ensures |r| == |text|
    ensures forall i :: 0 <= i < |text| ==> r[i] == text[i] as int
  {
    seq(|text|, i requires 0 <= i < |text| => text[i] as int)
  }

  /**
    The BPB the formatter fills in: 512-byte sectors, 64-sector clusters, 32
    reserved sectors, two FATs, the three legacy FAT12/16 fields zero, media
    0xF8, 63/255 geometry, 8192 hidden sectors, mirrored FATs (extFlags 0),
    version 0, root at cluster 2, FSInfo at sector 1, backup at sector 6.
   */
  function FormatterBpb(totalSectors32: u32, fatSize32: u32): BiosParameterBlock
  {
    BiosParameterBlock(
      512, 64, 32, 2, 0, 0, 0xF8, 0, 63, 255, 8192, totalSectors32,
      fatSize32, 0, 0, 2, 1, 6, [0, 0, 0, 0, 0, 0, 0, 0, 0, 0, 0, 0])
  }

  function FormatterVbr(totalSectors32: u32, fatSize32: u32, volumeId: u32, volumeLabel: Label): VolumeBootRecord
  {
    VolumeBootRecord(
      [0xEB, 0x58, 0x90], Ascii("MSWIN4.1"), FormatterBpb(totalSectors32, fatSize32),
      0x80, 0, 0x29, volumeId, volumeLabel, Ascii("FAT32   "), seq(420, _ => 0), 0xAA55)
  }

  /** The BPB bytes of `FormatterBpb`, at offsets relative to the start of the BPB. */
  lemma FormatterBpbBytes(totalSectors32: u32, fatSize32: u32)
    ensures var b := EncodeBpb(FormatterBpb(totalSectors32, fatSize32));
      && b[0..2] == Le16(512) && b[2] == 64 && b[3..5] == Le16(32) && b[5] == 2
      && b[6..8] == [0, 0] && b[8..10] == [0, 0] && b[10] == 0xF8 && b[11..13] == [0, 0]
      && b[13..15] == Le16(63) && b[15..17] == Le16(255)
      && b[17..21] == Le32(8192) && b[21..25] == Le32(totalSectors32)
      && b[25..29] == Le32(fatSize32) && b[29..33] == [0, 0, 0, 0]
      && b[33..37] == Le32(2) && b[37..39] == Le16(1) && b[39..41] == Le16(6)
      && b[41..53] == Zeros(12)
  {
    var bpb := FormatterBpb(totalSectors32, fatSize32);
    var b := EncodeBpb(bpb);
    var c, e := EncodeCommonBpb(bpb), EncodeExtendedBpb(bpb);
    CommonBpbFields(bpb);
    ExtendedBpbFields(bpb);
    assert b[..25] == c && b[25..] == e;
    assert b[0..2] == c[0..2] && b[3..5] == c[3..5] && b[6..8] == c[6..8];
    assert b[8..10] == c[8..10] && b[11..13] == c[11..13] && b[13..15] == c[13..15];
    assert b[15..17] == c[15..17] && b[17..21] == c[17..21] && b[21..25] == c[21..25];
    assert b[25..29] == e[0..4] && b[29..33] == e[4..8] && b[33..37] == e[8..12];
    assert b[37..39] == e[12..14] && b[39..41] == e[14..16] && b[41..53] == e[16..28];
  }

  /**
    The boot sector the formatter writes at partition sectors 0 and 6, byte
    by byte, at the offsets of the FAT32 boot sector layout. The three
    fields whose non-zero value marks FAT12/16 (root entry count at 17,
    16-bit total at 19, 16-bit FAT size at 22) are zero.
   */
  function VbrImage(totalSectors32: u32, fatSize32: u32, volumeId: u32, volumeLabel: Label): (r: seq<byte>)
    ensures |r| == SectorSize
  {
    EncodeVbr(FormatterVbr(totalSectors32, fatSize32, volumeId, volumeLabel))
  }

  lemma VbrImageBytes(totalSectors32: u32, fatSize32: u32, volumeId: u32, volumeLabel: Label)
    ensures var r := VbrImage(totalSectors32, fatSize32, volumeId, volumeLabel);
      && r[0..3] == [0xEB, 0x58, 0x90] && r[3..11] == Ascii("MSWIN4.1")
      && r[11..13] == Le16(512) && r[13] == 64
      && r[14..16] == Le16(32) && r[16] == 2
      && r[17..19] == [0, 0] && r[19..21] == [0, 0] && r[22..24] == [0, 0]
      && r[21] == 0xF8
      && r[24..26] == Le16(63) && r[26..28] == Le16(255)
      && r[28..32] == Le32(8192)
      && r[32..36] == Le32(totalSectors32)
      && r[36..40] == Le32(fatSize32)
      && r[40..44] == [0, 0, 0, 0]
      && r[44..48] == Le32(2)
      && r[48..50] == Le16(1) && r[50..52] == Le16(6)
      && r[52..64] == Zeros(12)
      && r[64] == 0x80 && r[65] == 0 && r[66] == 0x29
      && r[67..71] == Le32(volumeId)
      && r[71..82] == volumeLabel
      && r[82..90] == Ascii("FAT32   ")
      && r[90..510] == Zeros(420)
      && r[510] == 0x55 && r[511] == 0xAA
  {
    FormatterVbrBpbArea(totalSectors32, fatSize32, volumeId, volumeLabel);
    FormatterVbrOuter(totalSectors32, fatSize32, volumeId, volumeLabel);
  }

  lemma FormatterVbrBpbArea(totalSectors32: u32, fatSize32: u32, volumeId: u32, volumeLabel: Label)
    ensures var r := EncodeVbr(FormatterVbr(totalSectors32, fatSize32, volumeId, volumeLabel));
      && r[11..13] == Le16(512) && r[13] == 64
      && r[14..16] == Le16(32) && r[16] == 2
      && r[17..19] == [0, 0] && r[19..21] == [0, 0] && r[22..24] == [0, 0]
      && r[21] == 0xF8
      && r[24..26] == Le16(63) && r[26..28] == Le16(255)
      && r[28..32] == Le32(8192)
      && r[32..36] == Le32(totalSectors32)
      && r[36..40] == Le32(fatSize32)
      && r[40..44] == [0, 0, 0, 0]
      && r[44..48] == Le32(2)
      && r[48..50] == Le16(1) && r[50..52] == Le16(6)
      && r[52..64] == Zeros(12)
  {
    var v := FormatterVbr(totalSectors32, fatSize32, volumeId, volumeLabel);
    var r := EncodeVbr(v);
    VbrLayout(v);
    FormatterBpbBytes(totalSectors32, fatSize32);
    VbrBpbOffsets(r);
  }

  lemma FormatterVbrOuter(totalSectors32: u32, fatSize32: u32, volumeId: u32, volumeLabel: Label)
    ensures var r := EncodeVbr(FormatterVbr(totalSectors32, fatSize32, volumeId, volumeLabel));
      && r[0..3] == [0xEB, 0x58, 0x90] && r[3..11] == Ascii("MSWIN4.1")
      && r[64] == 0x80 && r[65] == 0 && r[66] == 0x29
      && r[67..71] == Le32(volumeId)
      && r[71..82] == volumeLabel
      && r[82..90] == Ascii("FAT32   ")
      && r[90..510] == Zeros(420)
      && r[510] == 0x55 && r[511] == 0xAA
  {
    var v := FormatterVbr(totalSectors32, fatSize32, volumeId, volumeLabel);
    var r := EncodeVbr(v);
    VbrLayout(v);
  }

  /** Slices of the BPB area, at their absolute offsets in the sector. */
  lemma VbrBpbOffsets(r: seq<byte>)
    requires |r| == SectorSize
    ensures var b := r[11..64];
      && r[11..13] == b[0..2] && r[13] == b[2] && r[14..16] == b[3..5] && r[16] == b[5]
      && r[17..19] == b[6..8] && r[19..21] == b[8..10] && r[21] == b[10] && r[22..24] == b[11..13]
      && r[24..26] == b[13..15] && r[26..28] == b[15..17] && r[28..32] == b[17..21]
      && r[32..36] == b[21..25] && r[36..40] == b[25..29] && r[40..44] == b[29..33]
      && r[44..48] == b[33..37] && r[48..50] == b[37..39] && r[50..52] == b[39..41]
      && r[52..64] == b[41..53]
  {
    var b := r[11..64];
    SubSlice(r, 11, 64, 0, 2);
    SubSlice(r, 11, 64, 3, 5);
    SubSlice(r, 11, 64, 6, 8);
    SubSlice(r, 11, 64, 8, 10);
    SubSlice(r, 11, 64, 11, 13);
    SubSlice(r, 11, 64, 13, 15);
    SubSlice(r, 11, 64, 15, 17);
    SubSlice(r, 11, 64, 17, 21);
    SubSlice(r, 11, 64, 21, 25);
    SubSlice(r, 11, 64, 25, 29);
    SubSlice(r, 11, 64, 29, 33);
    SubSlice(r, 11, 64, 33, 37);
    SubSlice(r, 11, 64, 37, 39);
    SubSlice(r, 11, 64, 39, 41);
    SubSlice(r, 11, 64, 41, 53);
  }

  lemma SubSlice(r: seq<byte>, lo: nat, hi: nat, i: nat, j: nat)
    requires i <= j <= hi - lo && lo <= hi <= |r|
    ensures r[lo..hi][i..j] == r[lo + i..lo + j]
  {
    assert forall k :: 0 <= k < j - i ==> r[lo..hi][i..j][k] == r[lo + i + k];
  }

  // ---------------------------------------------------------------------------
  // FSInfo
  // ---------------------------------------------------------------------------

  datatype FsInfo = FsInfo(
    leadSignature: u32,
    reserved1: Bytes480,
    structSignature: u32,
    freeCount: u32,
    nextFree: u32,
    reserved2: Bytes12,
    trailSignature: u32)

  function EncodeFsInfo(f: FsInfo): (r: seq<byte>)
    ensures |r| == SectorSize
  {
    Le32(f.leadSignature) + f.reserved1 + Le32(f.structSignature) + Le32(f.freeCount)
    + Le32(f.nextFree) + f.reserved2 + Le32(f.trailSignature)
  }

  function DecodeFsInfo(s: seq<byte>): FsInfo
    requires |s| == SectorSize
  {
    FsInfo(Le32Value(s[0..4]), s[4..484], Le32Value(s[484..488]), Le32Value(s[488..492]),
      Le32Value(s[492..496]), s[496..508], Le32Value(s[508..512]))
  }

  lemma FsInfoLayout(f: FsInfo)
    ensures var s := EncodeFsInfo(f);
      && s[0..4] == Le32(f.leadSignature) && s[4..484] == f.reserved1
      && s[484..488] == Le32(f.structSignature) && s[488..492] == Le32(f.freeCount)
      && s[492..496] == Le32(f.nextFree) && s[496..508] == f.reserved2
      && s[508..512] == Le32(f.trailSignature)
  {
  }

  /** Decoding an encoded FSInfo sector gives back every field. */
  lemma FsInfoRoundTrip(f: FsInfo)
    ensures DecodeFsInfo(EncodeFsInfo(f)) == f
  {
    FsInfoLayout(f);
    Le32RoundTrip(f.leadSignature);
    Le32RoundTrip(f.structSignature);
    Le32RoundTrip(f.freeCount);
    Le32RoundTrip(f.nextFree);
    Le32RoundTrip(f.trailSignature);
  }

  /** Signatures fixed, next-free hint 3 (the first cluster after the root directory). */
  function FormatterFsInfo(freeCount: u32): FsInfo
  {
    FsInfo(0x41615252, seq(480, _ => 0), 0x61417272, freeCount, 3,
      [0, 0, 0, 0, 0, 0, 0, 0, 0, 0, 0, 0], 0xAA550000)
  }

  /** The FSInfo sector the formatter writes at partition sectors 1 and 7. */
  function FsInfoImage(freeCount: u32): (r: seq<byte>)
    ensures |r| == SectorSize
  {
    EncodeFsInfo(FormatterFsInfo(freeCount))
  }

  lemma FsInfoImageBytes(freeCount: u32)
    ensures var r := FsInfoImage(freeCount);
      && r[0..4] == Le32(0x41615252)
      && r[4..484] == Zeros(480)
      && r[484..488] == Le32(0x61417272)
      && r[488..492] == Le32(freeCount)
      && r[492..496] == Le32(3)
      && r[496..508] == Zeros(12)
      && r[508..512] == Le32(0xAA550000)
      && r[510] == 0x55 && r[511] == 0xAA
  {
    var f := FormatterFsInfo(freeCount);
    FsInfoLayout(f);
    var r := EncodeFsInfo(f);
    assert Le32(0xAA550000) == [0, 0, 0x55, 0xAA];
    assert r[510] == r[508..512][2];
  }

  // ---------------------------------------------------------------------------
  // FAT header sector
  // ---------------------------------------------------------------------------

  const EntriesPerFatSector: nat := 128

  /**
    The 128 entries of each FAT's first sector: entry 0 is the media
    descriptor 0xF8 with the other bits set, entry 1 is all ones (clean, no
    errors), entry 2 is end-of-chain for the root directory cluster with
    the reserved top four bits zero; the rest are free (zero).
   */
  function FatHeaderEntries(): (ws: seq<u32>)
    ensures |ws| == EntriesPerFatSector
  {
    [0xFFFFFF00 + 0xF8, 0xFFFFFFFF, 0x0FFFFFFF] + seq(125, _ => 0)
  }

  /** The value of FAT entry `k` in a FAT sector. */
  function FatEntry(sector: seq<byte>, k: nat): u32
    requires |sector| == SectorSize && k < EntriesPerFatSector
  {
    Le32Value(sector[4 * k .. 4 * k + 4])
  }

  function FatHeaderImage(): (r: seq<byte>)
    ensures |r| == SectorSize
  {
    Le32Words(FatHeaderEntries())
  }

  lemma FatHeaderBytes()
    ensures var r := FatHeaderImage();
      && FatEntry(r, 0) == 0xFFFFFFF8
      && FatEntry(r, 1) == 0xFFFFFFFF
      && FatEntry(r, 2) == 0x0FFFFFFF
      && r[..12] == [0xF8, 0xFF, 0xFF, 0xFF, 0xFF, 0xFF, 0xFF, 0xFF, 0xFF, 0xFF, 0xFF, 0x0F]
      && r[12..] == Zeros(500)
  {
    FatHeaderWords();
    FatHeaderFirstBytes(Le32Words(FatHeaderEntries()));
    Le32RoundTrip(0xFFFFFFF8);
    Le32RoundTrip(0xFFFFFFFF);
    Le32RoundTrip(0x0FFFFFFF);
  }

  /** Every entry of the header sector after the first three is free. */
  lemma FatHeaderFreeEntries()
    ensures forall k :: 3 <= k < EntriesPerFatSector ==> FatEntry(FatHeaderImage(), k) == 0
  {
    var r := FatHeaderImage();
    FatHeaderWords();
    Le32RoundTrip(0);
    forall k | 3 <= k < EntriesPerFatSector
      ensures FatEntry(r, k) == 0
    {
      assert r[4 * k .. 4 * k + 4] == r[12..][4 * k - 12 .. 4 * k - 8];
    }
  }

  lemma FatHeaderWords()
    ensures var r := Le32Words(FatHeaderEntries());
      && r[0..4] == Le32(0xFFFFFFF8) && r[4..8] == Le32(0xFFFFFFFF) && r[8..12] == Le32(0x0FFFFFFF)
      && r[12..] == Zeros(500)
  {
    var ws := FatHeaderEntries();
    assert ws == [0xFFFFFFF8, 0xFFFFFFFF, 0x0FFFFFFF] + ws[3..];
    ThreeWordsThenZeros(0xFFFFFFF8, 0xFFFFFFFF, 0x0FFFFFFF, ws[3..]);
  }

  lemma FatHeaderFirstBytes(r: seq<byte>)
    requires |r| == SectorSize
    requires r[0..4] == Le32(0xFFFFFFF8) && r[4..8] == Le32(0xFFFFFFFF) && r[8..12] == Le32(0x0FFFFFFF)
    ensures r[..12] == [0xF8, 0xFF, 0xFF, 0xFF, 0xFF, 0xFF, 0xFF, 0xFF, 0xFF, 0xFF, 0xFF, 0x0F]
  {
    assert r[..12] == r[0..4] + r[4..8] + r[8..12];
  }

  lemma ThreeWordsThenZeros(w0: u32, w1: u32, w2: u32, rest: seq<u32>)
    requires forall k :: 0 <= k < |rest| ==> rest[k] == 0
    ensures var r := Le32Words([w0, w1, w2] + rest);
      && r[0..4] == Le32(w0) && r[4..8] == Le32(w1) && r[8..12] == Le32(w2)
      && r[12..] == Zeros(4 * |rest|)
  {
    var head := [w0, w1, w2];
    Le32WordsConcat(head, rest);
    Le32WordsZero(rest);
    ThreeWords(w0, w1, w2);
    TwelveBytes(Le32(w0), Le32(w1), Le32(w2), Zeros(4 * |rest|));
  }

  lemma ThreeWords(w0: u32, w1: u32, w2: u32)
    ensures Le32Words([w0, w1, w2]) == Le32(w0) + Le32(w1) + Le32(w2)
  {
    assert [w0, w1, w2][1..] == [w1, w2];
    assert [w1, w2][1..] == [w2];
    assert [w2][1..] == [];
    assert Le32Words([w2]) == Le32(w2) + [] == Le32(w2);
    assert Le32Words([w1, w2]) == Le32(w1) + Le32(w2);
  }

  lemma TwelveBytes(a: seq<byte>, b: seq<byte>, c: seq<byte>, z: seq<byte>)
    requires |a| == |b| == |c| == 4
    ensures var r := a + b + c + z; r[0..4] == a && r[4..8] == b && r[8..12] == c && r[12..] == z
  {
  }

  lemma {:induction false} Le32WordsConcat(a: seq<u32>, b: seq<u32>)
    ensures Le32Words(a + b) == Le32Words(a) + Le32Words(b)
  {
    if a == [] {
      assert a + b == b;
    } else {
      Le32WordsConcat(a[1..], b);
      assert (a + b)[0] == a[0];
      assert (a + b)[1..] == a[1..] + b;
      calc {
        Le32Words(a + b);
        Le32(a[0]) + Le32Words(a[1..] + b);
        Le32(a[0]) + (Le32Words(a[1..]) + Le32Words(b));
        (Le32(a[0]) + Le32Words(a[1..])) + Le32Words(b);
        Le32Words(a) + Le32Words(b);
      }
    }
  }

  // ---------------------------------------------------------------------------
  // Root directory: one volume-label entry
  // ---------------------------------------------------------------------------

  datatype DirectoryEntry = DirectoryEntry(
    name: Label,
    attributes: byte,
    ntReserved: byte,
    creationTimeTenths: byte,
    creationTime: u16,
    creationDate: u16,
    lastAccessDate: u16,
    firstClusterHigh: u16,
    writeTime: u16,
    writeDate: u16,
    firstClusterLow: u16,
    fileSize: u32)

  const AttrVolumeId: byte := 0x08

  function EncodeDirectoryEntry(e: DirectoryEntry): (r: seq<byte>)
    ensures |r| == 32
  {
    e.name + [e.attributes, e.ntReserved, e.creationTimeTenths]
    + Le16(e.creationTime) + Le16(e.creationDate) + Le16(e.lastAccessDate)
    + Le16(e.firstClusterHigh) + Le16(e.writeTime) + Le16(e.writeDate)
    + Le16(e.firstClusterLow) + Le32(e.fileSize)
  }

  function DecodeDirectoryEntry(s: seq<byte>): DirectoryEntry
    requires |s| == 32
  {
    DirectoryEntry(s[0..11], s[11], s[12], s[13],
      Le16Value(s[14..16]), Le16Value(s[16..18]), Le16Value(s[18..20]),
      Le16Value(s[20..22]), Le16Value(s[22..24]), Le16Value(s[24..26]),
      Le16Value(s[26..28]), Le32Value(s[28..32]))
  }

  /** Decoding an encoded directory entry gives back every field. */
  lemma DirectoryEntryRoundTrip(e: DirectoryEntry)
    ensures DecodeDirectoryEntry(EncodeDirectoryEntry(e)) == e
  {
    var s := EncodeDirectoryEntry(e);
    var head := e.name + [e.attributes, e.ntReserved, e.creationTimeTenths];
    var times := Le16(e.creationTime) + Le16(e.creationDate) + Le16(e.lastAccessDate)
      + Le16(e.firstClusterHigh) + Le16(e.writeTime) + Le16(e.writeDate);
    var tail := Le16(e.firstClusterLow) + Le32(e.fileSize);
    assert s == head + times + tail by {
      assert head + times + tail
        == head + Le16(e.creationTime) + Le16(e.creationDate) + Le16(e.lastAccessDate)
           + Le16(e.firstClusterHigh) + Le16(e.writeTime) + Le16(e.writeDate)
           + Le16(e.firstClusterLow) + Le32(e.fileSize);
    }
    assert |head| == 14 && |times| == 12 && |tail| == 6;
    assert s[..14] == head && s[14..26] == times && s[26..32] == tail;
    assert s[0..11] == e.name;
    var a := Le16(e.creationTime) + Le16(e.creationDate) + Le16(e.lastAccessDate);
    var b := Le16(e.firstClusterHigh) + Le16(e.writeTime) + Le16(e.writeDate);
    assert times == a + b;
    assert times[0..2] == Le16(e.creationTime) && times[2..4] == Le16(e.creationDate);
    assert times[4..6] == Le16(e.lastAccessDate) && times[6..8] == Le16(e.firstClusterHigh);
    assert times[8..10] == Le16(e.writeTime) && times[10..12] == Le16(e.writeDate);
    assert s[14..16] == Le16(e.creationTime) && s[16..18] == Le16(e.creationDate);
    assert s[18..20] == Le16(e.lastAccessDate) && s[20..22] == Le16(e.firstClusterHigh);
    assert s[22..24] == Le16(e.writeTime) && s[24..26] == Le16(e.writeDate);
    assert s[26..28] == Le16(e.firstClusterLow) && s[28..32] == Le32(e.fileSize);
    Le16RoundTrip(e.creationTime);
    Le16RoundTrip(e.creationDate);
    Le16RoundTrip(e.lastAccessDate);
    Le16RoundTrip(e.firstClusterHigh);
    Le16RoundTrip(e.writeTime);
    Le16RoundTrip(e.writeDate);
    Le16RoundTrip(e.firstClusterLow);
    Le32RoundTrip(e.fileSize);
  }

  /** The volume-label entry: the label as name, attribute volume-id, every other field zero. */
  function VolumeLabelEntry(volumeLabel: Label): DirectoryEntry
  {
    DirectoryEntry(volumeLabel, AttrVolumeId, 0, 0, 0, 0, 0, 0, 0, 0, 0, 0)
  }

  /** The first sector of the root directory cluster. */
  function RootDirImage(volumeLabel: Label): (r: seq<byte>)
    ensures |r| == SectorSize
  {
    EncodeDirectoryEntry(VolumeLabelEntry(volumeLabel)) + Zeros(480)
  }

  lemma RootDirImageBytes(volumeLabel: Label)
    ensures var r := RootDirImage(volumeLabel);
      && r[0..11] == volumeLabel
      && r[11] == AttrVolumeId
      && (forall i :: 12 <= i < SectorSize ==> r[i] == 0)
      && DecodeDirectoryEntry(r[..32]) == VolumeLabelEntry(volumeLabel)
  {
    var e := VolumeLabelEntry(volumeLabel);
    var s := EncodeDirectoryEntry(e);
    DirectoryEntryRoundTrip(e);
    assert s[12..] == Zeros(20);
    var r := s + Zeros(480);
    assert r[..32] == s;
  }
}
