# FAT32 SD-card layout engine, modelled in Dafny

This project models the layout engine of an SD-card formatter. It puts
one FAT32 partition on a raw block device of `n` 512-byte sectors, with
the geometry SD cards expect:

- sector 0 holds a partition table with one FAT32 (LBA) partition
  starting at sector 8192;
- the partition has 32 reserved sectors, in which the boot sector sits
  at partition sector 0, FSInfo at 1, the backup boot sector at 6 and
  the backup FSInfo at 7;
- two FAT copies follow from sector 8224, each `F` sectors long;
- the data area follows them, with 64-sector clusters. The root
  directory is cluster 2, and only the volume label is written into it.

Two copies of the engine are modelled:

- **The C API** in `src/SDFormat.cpp`. Each of the five entry points
  (`sdFormatWriteMBR`, `sdFormatWriteVolumeBootRecord`,
  `sdFormatWriteFSInfo`, `sdFormatWriteFat32Tables`,
  `sdFormatWriteRootDirectory`) recomputes the geometry from `n`. The
  format tool calls the five in order and stops at the first failure.
- **The `SectorWriter` class** in `src/SectorWriter.cpp`. This is an
  older variant. `make` computes the geometry once, with a different
  FAT-size divisor (8192 partition sectors per FAT sector instead of
  8193), and caches it. Its five write operations place the same
  structures, except that FSInfo gets no backup.

The model's pieces, one module per concern:

- **Device and writes.** A device (`Disk.Device`) is a byte image, a
  descriptor, and the set of byte offsets a write cannot reach.
  - `writeBytes`, `writeSectors` and the chunked `zeroSectors` loop are
    steps from one device state to the next.
  - Every write operation is described by the regions it writes
    (`Regions`, `Placement`): on success those regions hold their images,
    and no other byte changes.
- **On-disk structures.** Each one (partition entry, MBR, BPB, boot
  sector, FSInfo, directory entry, FAT header sector) is a datatype with
  an encoder and decoder in little-endian byte order (the host's, see
  "Left out"), and round-trip lemmas connect the
  two (`Bytes`, `Images`).
- **Geometry.** It is computed with the source's unsigned 32- and 64-bit
  arithmetic, wrap-around included (`SdGeometry`, `SectorWriter`).
  Lemmas relate it to the geometry it stands for:
  - the least covering FAT size;
  - the data area right after the FATs;
  - a free count of every cluster but the root directory's;
  - enough FAT entries for every cluster.
- **A whole run.** A complete format run (`SdFormatRun`,
  `FormattedVolume`) touches only the layout's eight regions. On a
  device that accepts writes and is large enough for the layout
  (n ≥ 8290: the reserved area, two one-sector FATs and one cluster) it
  fills all of them. Formatting again, with the new
  volume id the second run draws, leaves the device as one run with that
  id would. Every structure reads back through the decoders as the
  formatter's record for that device.

For a 7813120-sector (4 GB) card, the code's divisor (256·64 + 2)/2 =
8193 gives a 953-sector FAT with data from sector 10130
(`SdGeometry.FourGigabyteCard`).

`include/SectorWriter.h` does not match `src/SectorWriter.cpp`:

- the header names `kFatCount`, but the code uses `kNumberFats`;
- the header has a member `partitionSectorCount_`, but the code sets
  `mbrPartitionSectorCount_`;
- the header declares `writeVolumeBootRecord`, but the code defines
  `writeFat32BootSector`.

The model follows the bodies in the `.cpp` file. It takes `kNumberFats`
to be the uint32_t constant 2.

## Verifying

All files are checked together, from this directory:

```
dafny verify --resource-limit 2000000 --verification-time-limit 0 --warn-contradictory-assumptions *.dfy
```

`--warn-contradictory-assumptions` is a diagnostic only; the proofs do
not depend on it. `--boogie /randomSeed:N` selects another solver seed.

## Model

| member | source | states |
|---|---|---|
| Bytes.Le32RoundTrip | src/SDFormat.cpp:42-55 | decoding the four bytes a uint32_t field is stored as on a little-endian host gives the field's value back |
| Bytes.Le32Injective | src/SDFormat.cpp:42-55 | two uint32_t fields have the same byte encoding exactly when their values are equal |
| Bytes.Le32WordsAt | src/SDFormat.cpp:313-317 | in an array of uint32_t words laid out little-endian, bytes 4k..4k+3 are the encoding of word k |
| VolumeLabel.PrepareVolumeLabel | src/SDFormat.cpp:144-154 | the label is 11 bytes: the first min(length, 11) characters of the text upper-cased, then spaces |
| VolumeLabel.PreparedIsUppercase | src/SDFormat.cpp:144-154 | no prepared label contains a lower-case letter |
| VolumeLabel.PrepareIdempotent | src/SDFormat.cpp:144-154 | preparing a prepared label gives the same label back |
| VolumeLabel.CString | src/SDFormat.cpp:147 | the text read from a C string is the longest NUL-free prefix of the buffer, ending at its first NUL |
| VolumeLabel.CLabelAgreesWithoutNul | src/SectorWriter.cpp:121-130 | the C entry points' label and the string_view variant's label agree whenever the text has no NUL in its first 11 bytes |
| VolumeLabel.CLabelStopsAtNul | src/SectorWriter.cpp:121-130 | with an embedded NUL they differ: the C variant pads with spaces from the NUL on, and the string_view variant copies the NUL |
| Images.PartitionEntryRoundTrip | src/SDFormat.cpp:42-49 | a 16-byte partition entry decodes back to the entry that was encoded |
| Images.MbrRoundTrip | src/SDFormat.cpp:51-55 | a 512-byte master boot record decodes back to the record that was encoded |
| Images.MbrImageBytes | src/SDFormat.cpp:250-266 | the MBR image has a zero bootstrap area, and an entry with status 0x80, CHS FF FF FF, type 0x0C, LBA start 8192 and the given sector count; the other entries are zero and the signature is 55 AA |
| Images.BpbRoundTrip | src/SDFormat.cpp:57-80 | the 53-byte BIOS parameter block decodes back to the block that was encoded |
| Images.VbrRoundTrip | src/SDFormat.cpp:84-103 | a 512-byte boot sector decodes back to the boot sector that was encoded |
| Images.VbrImageBytes | src/SDFormat.cpp:268-293 | every byte of the formatter's boot sector at its offset: jump, OEM name, 512/64/32/2, media F8, 63 sectors per track, 255 heads, hidden 8192, total sectors and FAT size, root cluster 2, FSInfo 1, backup 6, drive 0x80, signature 0x29, volume id, label, "FAT32   ", zero boot code, 55 AA |
| Images.FsInfoRoundTrip | src/SDFormat.cpp:107-116 | a 512-byte FSInfo sector decodes back to the record that was encoded |
| Images.FsInfoImageBytes | src/SDFormat.cpp:107-116 | the FSInfo image carries the lead, structure and trail signatures, the free count, next-free 3 and zero reserved areas |
| Images.FatHeaderBytes | src/SDFormat.cpp:313-317 | FAT entries 0, 1 and 2 of the header sector are 0xFFFFFFF8, 0xFFFFFFFF and 0x0FFFFFFF, and bytes 12..511 are zero |
| Images.FatHeaderFreeEntries | src/SDFormat.cpp:313-317 | every entry of the header sector from 3 to 127 is free (zero) |
| Images.DirectoryEntryRoundTrip | src/SDFormat.cpp:118-132 | a 32-byte directory entry decodes back to the entry that was encoded |
| Images.RootDirImageBytes | src/SDFormat.cpp:134-138 | the root directory sector starts with the label, then attribute 0x08; it is zero after that, and its first 32 bytes decode to the volume-label entry |
| Disk.WriteBytes | src/SDFormat.cpp:189-212 | an invalid descriptor or empty data gives InvalidDevice and changes nothing; success holds exactly when the whole range is writable, and then the range holds the data; nothing outside the range changes |
| Disk.WriteSplit | src/SDFormat.cpp:189-218 | a successful write followed by a write of what comes next does what one write of both does; a failing first write leaves the device as the longer write would |
| Disk.ZeroSectors | src/SDFormat.cpp:220-244 | the chunked loop has the same effect as one write of count·512 zeros; the chunks it issues are the planned chunks, or a prefix of them ending at the failing one |
| Disk.ZeroPlanShape | src/SDFormat.cpp:231-242 | the loop issues ceil(count/64) chunks: chunk i starts at start + 64i and holds min(64, count − 64i) sectors, never zero |
| Disk.ZeroPlanCovers | src/SDFormat.cpp:220-244 | the chunks cover exactly the sectors start..start+count−1, in order and without overlap |
| Disk.ZeroThenWrite | src/SDFormat.cpp:346-372 | zeroing a run and then writing its first sector succeeds exactly when the whole run is writable, and every failure is IOError; outside the run nothing changes, and on success the run holds the header followed by zeros |
| Placement.WriteWithBackup | src/SDFormat.cpp:295-310 | a sector and its backup: InvalidDevice exactly for a negative descriptor, success exactly when both sectors are writable, and then both hold the data; nothing outside the two sectors changes |
| Placement.WriteRunPair | src/SDFormat.cpp:312-344 | two zeroed runs with a header: success exactly when both runs are writable; every failure is IOError; only the two runs change, and on success the second run holds, as does the first unless the runs overlap partially |
| SdGeometry.FatSizeIsLeastCover | src/SDFormat.cpp:160-172 | for partitions that fit 32 bits, the FAT size is the least F with 8193·F ≥ n − 8224 |
| SdGeometry.DataStartFollowsFats | src/SDFormat.cpp:174-176 | the data area starts right after the two FATs: 8224 + 2F |
| SdGeometry.FreeClusterCountExact | src/SDFormat.cpp:178-183 | with at least one data cluster, the free count is the data area's cluster count minus the root directory's cluster |
| SdGeometry.FatCapacity | src/SDFormat.cpp:164-183 | from 532577 sectors on, the FAT's 128·F entries cover every cluster plus the two reserved entries |
| SdGeometry.FreeCountWrapsAt8250 | src/SDFormat.cpp:178-183 | as written, n = 8250 leaves no data cluster and the unsigned free count wraps to 0xFFFFFFFF |
| SdGeometry.FatUnderAllocated | src/SDFormat.cpp:164-172 | as written, n = 24610 gets a 2-sector FAT (256 entries) for 255 clusters, and 532576 also falls short |
| SdGeometry.Compute | src/SDFormat.cpp:160-183 | the geometry with the size guard the code lacks: too small gives TooSmall, too large for 32-bit fields gives InvalidDevice, and otherwise the code's values, which form a valid geometry |
| SdGeometry.ComputeBoundary | src/SDFormat.cpp:160-183 | 532577 sectors are accepted, and 532576 are refused as too small |
| SdGeometry.LayoutFitsExactly | src/SDFormat.cpp:160-183 | for a partition that fits 32 bits, the data area follows the two FATs with room for the root cluster exactly when n ≥ 8290 |
| SdGeometry.AcceptedFits | src/SDFormat.cpp:160-183 | every count the corrected guard accepts has a layout that fits |
| SdGeometry.FitsBelowGuard | src/SDFormat.cpp:160-183 | a 100000-sector device fits the layout (12-sector FAT, data from sector 8248) although the capacity guard refuses it |
| SdGeometry.FourGigabyteCard | src/SDFormat.cpp:160-183 | a 7813120-sector card gets a 953-sector FAT, data from sector 10130 and 121920 free clusters |
| SdFormat.PartitionFieldModulo | src/SDFormat.cpp:260 | the 32-bit partition size field is n − 8192 modulo 2^32, and exactly n − 8192 when that fits |
| SdFormat.WriteMbr | src/SDFormat.cpp:250-266 | sdFormatWriteMBR writes the MBR image at sector 0: InvalidDevice exactly for a negative descriptor, success exactly when sector 0 is writable, and no other sector changes |
| SdFormat.WriteVolumeBootRecord | src/SDFormat.cpp:268-293 | the boot sector goes at sector 8192 and the identical backup at 8198: InvalidDevice exactly for a negative descriptor, success exactly when both sectors are writable, and then both hold it; nothing else changes |
| SdFormat.WriteFsInfo | src/SDFormat.cpp:295-310 | FSInfo with the geometry's free count goes at sector 8193 and the backup at 8199: InvalidDevice exactly for a negative descriptor, success exactly when both are writable, and then both hold it; nothing else changes |
| SdFormat.WriteFat32Tables | src/SDFormat.cpp:312-344 | both FATs, each zeroed and given its header, are written at 8224 and 8224 + F; every failure is IOError; nothing else changes, and on success both copies hold unless FAT 2's start wraps |
| SdFormat.FatPairApart | src/SDFormat.cpp:312-344 | unless the FAT 2 start wraps, the two FAT copies coincide (F = 0) or lie side by side |
| SdFormat.WriteRootDirectory | src/SDFormat.cpp:346-372 | the 64-sector root cluster at the data start is zeroed and given the label entry; every failure is IOError; nothing else changes |
| SdFormatRun.Format | tools/FormatImage.cpp:44-82 | the tool's five calls in order, stopping at the first failure: InvalidDevice exactly for a negative descriptor, and no byte outside the layout's eight regions changes |
| SdFormatRun.FormatIsEntryPoints | tools/FormatImage.cpp:44-82 | the staged run is exactly the five entry points called one after another, each on the device the previous one left, stopping at the first non-success |
| SdFormatRun.FormatWritesLayout | tools/FormatImage.cpp:44-82 | on a device that fits the layout (n ≥ 8290) and is writable throughout, the run succeeds and all eight regions hold their images |
| SdFormatRun.ToolExitMeaning | tools/FormatImage.cpp:44-86 | the tool exits with 0 exactly when the run succeeds: always on a writable device that fits the layout, and 1 on an invalid descriptor (where the tool returns 1 after the failed `open` at lines 35-39, before any entry point; only the status agrees) |
| SdFormatRun.Reformat | tools/FormatImage.cpp:44-82 | on a writable device that fits the layout (n ≥ 8290), formatting a formatted device again, whatever volume id the second run draws from `time(nullptr)` (src/SDFormat.cpp:279), gives exactly the device one run with that id gives; with the same id the second run changes nothing |
| SdFormatRun.LayoutDisjoint | src/SDFormat.cpp:250-372 | for every count that fits the layout (n ≥ 8290), the eight regions the entry points write are pairwise disjoint and lie inside the device |
| FormattedVolume.FormattedMbr | src/SDFormat.cpp:250-266 | after a run on a writable device that fits the layout (n ≥ 8290), sector 0 decodes to the formatter's partition table for n − 8192 sectors |
| FormattedVolume.FormattedBootSectors | src/SDFormat.cpp:268-293 | after a run on a writable device that fits the layout (n ≥ 8290), sectors 8192 and 8198 are identical, and decode to the boot record with this device's size, FAT size, volume id and label |
| FormattedVolume.FormattedFsInfo | src/SDFormat.cpp:295-310 | after a run on a writable device that fits the layout (n ≥ 8290), sectors 8193 and 8199 are identical and decode to FSInfo whose free count is every cluster but the root directory's |
| FormattedVolume.FormattedFats | src/SDFormat.cpp:312-344 | after a run on a writable device that fits the layout (n ≥ 8290), the two FAT copies lie back to back from sector 8224 and are byte-identical |
| FormattedVolume.FatsInPlace | src/SDFormat.cpp:312-344 | a FAT copy in place reads back entries 0xFFFFFFF8, 0xFFFFFFFF and 0x0FFFFFFF, with every other header entry free |
| FormattedVolume.FatTailFree | src/SDFormat.cpp:322-331 | the FAT sectors after the header hold only zero bytes |
| FormattedVolume.FormattedRootDirectory | src/SDFormat.cpp:346-372 | after a run on a writable device that fits the layout (n ≥ 8290), the data area's first cluster is the root directory cluster |
| FormattedVolume.RootDirectoryInPlace | src/SDFormat.cpp:346-372 | a root cluster in place reads back the volume-label entry, with zeros to the end of the cluster |
| FormattedVolume.LabelsAgree | src/SDFormat.cpp:268-372 | the boot sector's label field (bytes 71..81) and the root directory's label entry name are the same prepared label |
| FormattedVolume.BootRecordDescribesLayout | src/SDFormat.cpp:268-293 | the boot record's fields locate what was written: the FATs, the FSInfo and backup sectors, the data area, the partition size, and enough FAT entries for every cluster |
| SectorWriter.WriterFatSizeValue | src/SectorWriter.cpp:162-165 | without wrap-around, make's FAT size is the ceiling of (n − 8224)/8192, the least F with 8192·F ≥ n − 8224 |
| SectorWriter.MakeCachesGeometry | src/SectorWriter.cpp:152-179 | for every n that make accepts, the cached values are the geometry: partition n − 8192, FAT start 8224, data start 8224 + 2F with at least one cluster, and a free count of the clusters minus one |
| SectorWriter.FatSizeVariants | src/SectorWriter.cpp:162-165 | this variant's FAT is never smaller than the C entry points' and at most 1 + F/8192 sectors larger, so at most one sector larger below 8192-sector FATs |
| SectorWriter.FatSizesDiffer | src/SectorWriter.cpp:162-165 | the two sizes do differ: n = 24610 gives 2 and 3 sectors, while n = 18432 gives 2 for both |
| SectorWriter.WriterFatCapacity | src/SectorWriter.cpp:152-179 | from 270369 sectors on, this variant's FAT covers every cluster plus the two reserved entries |
| SectorWriter.WriterFatUnderAllocated | src/SectorWriter.cpp:154-174 | as written, the assert admits n = 24608, which gets a 2-sector FAT (256 entries) for 255 clusters |
| SectorWriter.WriterCapacityBoundTight | src/SectorWriter.cpp:154-174 | 270368 sectors give a 32-sector FAT for 4095 clusters, so the capacity bound is tight |
| SectorWriter.Create | src/SectorWriter.cpp:152-179 | make with a size guard: too small gives TooSmall, too large gives InvalidDevice, and otherwise a writer with a valid cached geometry whose FAT covers every cluster |
| SectorWriter.WriteMbr | src/SectorWriter.cpp:248-264 | writeMBR writes the partition table with the cached partition size at sector 0; InvalidDevice exactly for a negative descriptor; nothing else changes |
| SectorWriter.WriteFat32BootSector | src/SectorWriter.cpp:266-311 | the boot sector built from the cached values goes at 8192 and again at 8198: InvalidDevice exactly for a negative descriptor, success exactly when both sectors are writable; nothing else changes |
| SectorWriter.WriteFsInfo | src/SectorWriter.cpp:313-327 | FSInfo with the cached free count is written at 8193 only, and every failure, an invalid descriptor included, is IOError |
| SectorWriter.FsInfoHasNoBackup | src/SectorWriter.cpp:313-327 | writeFSInfo leaves the backup FSInfo sector 8199 as it was |
| SectorWriter.WriteFat32Tables | src/SectorWriter.cpp:329-363 | the two zeroed FATs with their header go at the cached FAT start and right after it; every failure is IOError; nothing else changes |
| SectorWriter.WriteRootDirectory | src/SectorWriter.cpp:365-388 | the root cluster at the cached data start is zeroed and given the label entry; every failure is IOError; nothing else changes |
| SectorWriter.MbrAgrees | src/SectorWriter.cpp:248-264 | on every device make accepts, writeMBR is the C entry point's MBR write |
| SectorWriter.BootSectorAgrees | src/SectorWriter.cpp:266-311 | when the FAT sizes agree and the label has no NUL, the boot sector and its write are the C entry point's |
| SectorWriter.FatTablesAgree | src/SectorWriter.cpp:329-363 | when the FAT sizes agree, the FAT tables write is the C entry point's |
| SectorWriter.RootDirectoryAgrees | src/SectorWriter.cpp:365-388 | when the FAT sizes agree and the label has no NUL, the root directory write is the C entry point's |
| SectorWriter.BootSectorsDifferAt24610 | src/SectorWriter.cpp:266-311 | at n = 24610 the two boot records decode to different FAT sizes, 3 and 2 |

## Left out

- System calls are replaced by a device model. `lseek` fails only for a
  negative offset. `write` either writes everything or stops at the
  first byte it cannot reach: a short write is followed by an error, so
  the EINTR retry and partial-write loop reduce to one attempt.
- Writes past the end of the image fail, as on a block device. A regular
  file that grows past its end is not modelled.
- `time(nullptr)` in the boot-sector writes is the `volumeId` parameter.
- Byte order: the packed structs and the `uint32_t` FAT words are written
  through `std::as_bytes` in the host's byte order. The encoders fix
  little-endian order, so the model is that of a little-endian host
  (x86-64, arm64). On a big-endian host every multi-byte field the
  source writes would be byte-swapped from these images.
- The log lines (`std::println`) and the format tool's error messages,
  `strerror` and `close` are not modelled.
- `toupper` is taken in the "C" locale: it maps only a–z.
- `SectorWriter::make`'s `assert(sectorCount >= 18432)` is a
  precondition of `SectorWriter.Make`. A build with NDEBUG, where the
  assert vanishes, is not modelled.
- The mismatch between include/SectorWriter.h and src/SectorWriter.cpp
  is not reconciled: the bodies are modelled and the header is not.
- `SdFormatRun.FormatWritesLayout`, `SdFormatRun.Reformat`,
  `SdFormatRun.LayoutDisjoint` and the `FormattedVolume.Formatted*`
  lemmas require the layout to fit (`SdGeometry.LayoutFits`, n ≥ 8290)
  and the device to be writable over its first n sectors. Below 8290
  sectors the root cluster, or already the FATs, would reach past the
  end of the device; there only the per-entry-point contracts and the findings
  below apply. FAT capacity is not required by these lemmas; it is the
  extra condition `SdGeometry.Compute` checks, and
  `FormattedVolume.BootRecordDescribesLayout` states it for the counts
  that `Compute` accepts.
- `SdFormat.WriteFat32Tables` and `SectorWriter.WriteFat32Tables` do not
  promise that FAT 1 survives when `8224 + F` wraps past 2^32. This never
  happens for a partition that fits 32 bits.
- tests/integration_runner.cpp is not part of this model. Argument
  parsing and the opening of the image in tools/FormatImage.cpp are not
  modelled.

## Findings

| source | as written | input that shows it | evidently intended | confidence | as-written member | corrected member |
|---|---|---|---|---|---|---|
| src/SDFormat.cpp:178-183 | nothing checks the size, and `totalDataSectors / 64 - 1` is unsigned | n = 8250: no data cluster, free count 0xFFFFFFFF | refuse devices too small to hold a data cluster | not executed | SdGeometry.FreeCountWrapsAt8250 | SdGeometry.Compute |
| src/SDFormat.cpp:164-172 | F = ceil((n − 8224)/8193) with no size guard | n = 24610: F = 2 (256 entries) for 255 clusters, which need 257 | a FAT with an entry for every cluster, which holds from 532577 sectors on | not executed | SdGeometry.FatUnderAllocated | SdGeometry.Compute |
| src/SectorWriter.cpp:154-174 | `assert(sectorCount >= 18432)` with F = ceil((n − 8224)/8192) | n = 24608: F = 2 (256 entries) for 255 clusters | a FAT with an entry for every cluster, which holds from 270369 sectors on | not executed | SectorWriter.WriterFatUnderAllocated | SectorWriter.Create |
