/**
  The write patterns the writers are built from, described by the regions
  they write: one sector write, a sector written twice (primary and
  backup), and a zeroed run with a header sector.
 */
module Placement {
  import opened Bytes
  import opened Results
  import opened Disk
  import opened Regions

  lemma WrittenOne(r: Region, i: int)
    ensures Written([r], i) <==> Covers(r, i)
  {
    if Covers(r, i) {
      assert [r][0] == r;
    }
  }

  lemma WrittenTwo(a: Region, b: Region, i: int)
    ensures Written([a, b], i) <==> Covers(a, i) || Covers(b, i)
  {
    if Covers(a, i) {
      assert [a, b][0] == a;
    }
    if Covers(b, i) {
      assert [a, b][1] == b;
    }
  }

  /** A sector write touches only its own region, and fills it on success. */
  lemma SectorWrite(dev: Device, lba: int, data: seq<byte>)
    ensures var r := WriteSectors(dev, lba, data);
      && Untouched(dev.image, r.dev.image, [Region(lba, data)])
      && (r.status == Success ==> Holds(r.dev.image, Region(lba, data)))
  {
    var r := WriteSectors(dev, lba, data);
    forall i | 0 <= i < |dev.image| && !Written([Region(lba, data)], i)
      ensures r.dev.image[i] == dev.image[i]
    {
      WrittenOne(Region(lba, data), i);
    }
  }

  /** The region a zeroed run with a header sector fills. */
  function HeaderRun(start: int, count: nat, header: seq<byte>): Region
  {
    Region(start, header + Zeros((RunLength(count) - 1) * SectorSize))
  }

  /** Zeroing a run and writing its header touches only the run, and fills it on success. */
  lemma ZeroThenWriteRegion(dev: Device, start: int, count: nat, header: seq<byte>)
    requires |header| == SectorSize
    ensures var r := ZeroThenWrite(dev, start, count, header);
      && Untouched(dev.image, r.dev.image, [HeaderRun(start, count, header)])
      && (r.status == Success ==> Holds(r.dev.image, HeaderRun(start, count, header)))
  {
    var r := ZeroThenWrite(dev, start, count, header);
    var region := HeaderRun(start, count, header);
    forall i | 0 <= i < |dev.image| && !Written([region], i)
      ensures r.dev.image[i] == dev.image[i]
    {
      WrittenOne(region, i);
    }
  }

  /**
    A sector and its backup: `data` is written at `lba`, and only if that
    succeeds at `backup`; the first failure's code is the result.
   */
  function WriteWithBackup(dev: Device, lba: int, backup: int, data: seq<byte>): (r: Step)
    requires |data| == SectorSize && lba != backup
    ensures SameMedium(r.dev, dev)
    ensures r.status in {Success, InvalidDevice, IOError}
    ensures r.status == InvalidDevice <==> dev.fd < 0
    ensures r.status == Success <==>
              dev.fd >= 0 && lba >= 0 && backup >= 0
              && Writable(dev, lba * SectorSize, (lba + 1) * SectorSize)
              && Writable(dev, backup * SectorSize, (backup + 1) * SectorSize)
    ensures Untouched(dev.image, r.dev.image, [Region(lba, data), Region(backup, data)])
    ensures r.status == Success ==> Holds(r.dev.image, Region(lba, data)) && Holds(r.dev.image, Region(backup, data))
  {
    var first := WriteSectors(dev, lba, data);
    SectorWrite(dev, lba, data);
    UntouchedWiden(dev.image, first.dev.image, [Region(lba, data)], [Region(lba, data), Region(backup, data)]);
    if first.status != Success then first
    else
      var second := WriteSectors(first.dev, backup, data);
      SectorWrite(first.dev, backup, data);
      BackupKeepsPrimary(dev, first.dev, second.dev, Region(lba, data), Region(backup, data));
      SameMediumWritable(dev, first.dev, backup * SectorSize, (backup + 1) * SectorSize);
      second
  }

  /** Two single-sector writes at distinct sectors: both hold, and only they changed. */
  lemma BackupKeepsPrimary(d0: Device, d1: Device, d2: Device, a: Region, b: Region)
    requires |a.content| == SectorSize && |b.content| == SectorSize && a.lba != b.lba
    requires Untouched(d0.image, d1.image, [a]) && Holds(d1.image, a)
    requires Untouched(d1.image, d2.image, [b])
    ensures Untouched(d0.image, d2.image, [a, b])
    ensures Holds(d2.image, a)
  {
    KeepHolds(d1.image, d2.image, a, [b]);
    UntouchedTrans(d0.image, d1.image, d2.image, [a], [b]);
    assert [a] + [b] == [a, b];
  }

  /**
    Two zeroed runs of `count` sectors with the same header sector, at
    `first` and then at `second`; a failure of the first stops the second,
    and every failure is `IOError`. The first run survives the second
    unless the two overlap without coinciding.
   */
  function WriteRunPair(dev: Device, first: int, second: int, count: nat, header: seq<byte>): (r: Step)
    requires |header| == SectorSize
    ensures SameMedium(r.dev, dev)
    ensures r.status in {Success, IOError}
    ensures r.status == Success <==>
              dev.fd >= 0 && first >= 0 && second >= 0
              && Writable(dev, first * SectorSize, (first + RunLength(count)) * SectorSize)
              && Writable(dev, second * SectorSize, (second + RunLength(count)) * SectorSize)
    ensures Untouched(dev.image, r.dev.image, [HeaderRun(first, count, header), HeaderRun(second, count, header)])
    ensures r.status == Success ==> Holds(r.dev.image, HeaderRun(second, count, header))
    ensures r.status == Success && (first == second || Disjoint(HeaderRun(first, count, header), HeaderRun(second, count, header))) ==>
              Holds(r.dev.image, HeaderRun(first, count, header))
  {
    var a, b := HeaderRun(first, count, header), HeaderRun(second, count, header);
    var one := ZeroThenWrite(dev, first, count, header);
    ZeroThenWriteRegion(dev, first, count, header);
    UntouchedWiden(dev.image, one.dev.image, [a], [a, b]);
    if one.status != Success then one
    else
      var two := ZeroThenWrite(one.dev, second, count, header);
      ZeroThenWriteRegion(one.dev, second, count, header);
      SameMediumWritable(dev, one.dev, second * SectorSize, (second + RunLength(count)) * SectorSize);
      SecondRunKeepsFirst(dev.image, one.dev.image, two.dev.image, a, b);
      two
  }

  /** The second run of a pair keeps the first in place unless they overlap without coinciding. */
  lemma SecondRunKeepsFirst(d0: seq<byte>, d1: seq<byte>, d2: seq<byte>, a: Region, b: Region)
    requires Untouched(d0, d1, [a]) && Untouched(d1, d2, [b])
    ensures Untouched(d0, d2, [a, b])
    ensures Holds(d1, a) && Holds(d2, b) && (a == b || Disjoint(a, b)) ==> Holds(d2, a)
  {
    UntouchedTrans(d0, d1, d2, [a], [b]);
    assert [a] + [b] == [a, b];
    if Holds(d1, a) && Holds(d2, b) && Disjoint(a, b) {
      KeepHolds(d1, d2, a, [b]);
    }
  }
}
