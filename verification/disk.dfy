/**
  The device the formatter writes to, and the three I/O helpers both
  writers share: `writeBytes`, `writeSectors` and `zeroSectors`.

  The device is an open descriptor over a fixed-size byte image. Which
  writes fail is an oracle: `faults` holds the byte offsets the medium
  refuses, and every offset at or past the end of the image fails as well.
  A write stores its bytes in order up to the first refused offset (the
  short `write` the retry loop accepts) and then reports the error; bytes
  already stored stay stored.
 */
module Disk {
  import opened Bytes
  import opened Results

  const ClusterSectors: nat := 64

  datatype Device = Device(fd: int, image: seq<byte>, faults: set<int>)

  /** The result code of an I/O step and the device after it. */
  datatype Step = Step(status: Status, dev: Device)

  /** A write of the byte at `off` fails. */
  predicate Faulty(dev: Device, off: int)
  {
    off in dev.faults || off >= |dev.image|
  }

  /** Nothing in `[lo, hi)` refuses a write. */
  predicate Writable(dev: Device, lo: int, hi: int)
  {
    forall j :: lo <= j < hi ==> !Faulty(dev, j)
  }

  /** Two devices that refuse exactly the same writes. */
  predicate SameMedium(d: Device, e: Device)
  {
    d.fd == e.fd && d.faults == e.faults && |d.image| == |e.image|
  }

  /** The first offset in `[lo, hi)` whose write fails, or `hi` if none does. */
  function FirstFault(dev: Device, lo: int, hi: int): (k: int)
    requires lo <= hi
    ensures lo <= k <= hi
    ensures Writable(dev, lo, k)
    ensures k < hi ==> Faulty(dev, k)
    decreases hi - lo
  {
    if lo == hi then hi
    else if Faulty(dev, lo) then lo
    else FirstFault(dev, lo + 1, hi)
  }

  /** The first failing offset is determined by its two defining properties. */
  lemma FirstFaultUnique(dev: Device, lo: int, hi: int, k: int)
    requires lo <= k <= hi
    requires Writable(dev, lo, k)
    requires k < hi ==> Faulty(dev, k)
    ensures FirstFault(dev, lo, hi) == k
  {
  }

  /** `s` with `data` stored from `off` on. */
  function Splice(s: seq<byte>, off: nat, data: seq<byte>): (r: seq<byte>)
    requires off + |data| <= |s|
    ensures |r| == |s|
    ensures forall i :: 0 <= i < |s| ==> r[i] == (if off <= i < off + |data| then data[i - off] else s[i])
  {
    s[..off] + data + s[off + |data|..]
  }

  /**
    `writeBytes`: an invalid descriptor or an empty buffer is refused as
    `InvalidDevice`; a seek to a negative offset fails with `IOError`;
    otherwise the bytes are written in order until the first refused
    offset, and a refusal is reported as `IOError`.
   */
  function WriteBytes(dev: Device, offset: int, data: seq<byte>): (r: Step)
    ensures SameMedium(r.dev, dev)
    ensures r.status == InvalidDevice <==> dev.fd < 0 || data == []
    ensures r.status == Success <==>
              dev.fd >= 0 && data != [] && offset >= 0 && Writable(dev, offset, offset + |data|)
    ensures r.status in {Success, InvalidDevice, IOError}
    ensures r.status == InvalidDevice ==> r.dev == dev
    ensures forall i :: 0 <= i < |dev.image| && !(offset <= i < offset + |data|) ==>
              r.dev.image[i] == dev.image[i]
    ensures r.status == Success ==> 0 <= offset && offset + |data| <= |dev.image|
    ensures r.status == Success ==> r.dev.image[offset..offset + |data|] == data
  {
    if dev.fd < 0 || data == [] then Step(InvalidDevice, dev)
    else if offset < 0 then Step(IOError, dev)
    else
      var k := FirstFault(dev, offset, offset + |data|);
      assert k == offset || !Faulty(dev, k - 1);
      var written := if k == offset then dev else dev.(image := Splice(dev.image, offset, data[..k - offset]));
      if k == offset + |data| then Step(Success, written) else Step(IOError, written)
  }

  /** A successful write stores its data in place and nothing else. */
  lemma WriteBytesSplice(dev: Device, offset: int, data: seq<byte>)
    requires WriteBytes(dev, offset, data).status == Success
    ensures 0 <= offset && offset + |data| <= |dev.image|
    ensures WriteBytes(dev, offset, data).dev.image == Splice(dev.image, offset, data)
  {
  }

  /** `writeSectors`: `writeBytes` at byte offset `lba * 512`. */
  function WriteSectors(dev: Device, lba: int, data: seq<byte>): Step
  {
    WriteBytes(dev, lba * SectorSize, data)
  }

  /**
    A write that succeeds and a write of what follows it, issued one after
    the other, do to the device exactly what one write of both does; and a
    write that fails leaves the device as the longer write would.
   */
  lemma WriteSplit(dev: Device, offset: int, a: seq<byte>, b: seq<byte>)
    requires a != [] && b != []
    ensures var first := WriteBytes(dev, offset, a);
      first.status == Success ==> WriteBytes(first.dev, offset + |a|, b) == WriteBytes(dev, offset, a + b)
    ensures var first := WriteBytes(dev, offset, a);
      first.status != Success ==> first == WriteBytes(dev, offset, a + b)
  {
    if dev.fd >= 0 && offset >= 0 {
      if WriteBytes(dev, offset, a).status == Success {
        WriteSplitWritten(dev, offset, a, b);
      } else {
        WriteSplitFailed(dev, offset, a, b);
      }
    }
  }

  /** The successful half of `WriteSplit`. */
  lemma WriteSplitWritten(dev: Device, offset: int, a: seq<byte>, b: seq<byte>)
    requires a != [] && b != [] && dev.fd >= 0 && offset >= 0
    requires WriteBytes(dev, offset, a).status == Success
    ensures WriteBytes(WriteBytes(dev, offset, a).dev, offset + |a|, b) == WriteBytes(dev, offset, a + b)
  {
    var first := WriteBytes(dev, offset, a);
    var whole := WriteBytes(dev, offset, a + b);
    var mid := offset + |a|;
    var hi := mid + |b|;
    var second := WriteBytes(first.dev, mid, b);
    var k2 := FirstFault(first.dev, mid, hi);
    assert forall j :: Faulty(first.dev, j) <==> Faulty(dev, j);
    assert Writable(dev, offset, mid);
    FirstFaultUnique(dev, offset, hi, k2);
    assert second.status == whole.status;
    assert |second.dev.image| == |whole.dev.image|;
    forall i | 0 <= i < |dev.image|
      ensures second.dev.image[i] == whole.dev.image[i]
    {
      if offset <= i < mid {
        assert first.dev.image[i] == a[i - offset] == (a + b)[i - offset];
      }
    }
    assert second.dev.image == whole.dev.image;
  }

  /** The failing half of `WriteSplit`. */
  lemma WriteSplitFailed(dev: Device, offset: int, a: seq<byte>, b: seq<byte>)
    requires a != [] && b != [] && dev.fd >= 0 && offset >= 0
    requires WriteBytes(dev, offset, a).status != Success
    ensures WriteBytes(dev, offset, a) == WriteBytes(dev, offset, a + b)
  {
    var mid := offset + |a|;
    var k1 := FirstFault(dev, offset, mid);
    assert k1 < mid;
    FirstFaultUnique(dev, offset, offset + |a| + |b|, k1);
    assert (a + b)[..k1 - offset] == a[..k1 - offset];
  }

  /** One `writeSectors` call issued by `zeroSectors`: `sectors` zero sectors from `lba` on. */
  datatype Chunk = Chunk(lba: int, sectors: nat)

  /**
    The calls `zeroSectors` issues for `count` sectors from `start` when
    all of them succeed: cluster-sized chunks of 64 sectors, the last one
    holding the remainder.
   */
  function ZeroPlan(start: int, count: nat): (plan: seq<Chunk>)
    decreases count
  {
    if count == 0 then []
    else
      var n := if count > ClusterSectors then ClusterSectors else count;
      [Chunk(start, n)] + ZeroPlan(start + n, count - n)
  }

  /**
    The plan in closed form: chunk `i` starts at sector `start + 64 i` and
    holds min(64, count - 64 i) sectors, so every chunk is non-empty, the
    chunks follow each other without gap or overlap, and together they
    cover exactly `[start, start + count)`.
   */
  lemma {:induction false} ZeroPlanShape(start: int, count: nat)
    ensures var plan := ZeroPlan(start, count);
      && |plan| == (count + ClusterSectors - 1) / ClusterSectors
      && forall i :: 0 <= i < |plan| ==>
           && plan[i].lba == start + ClusterSectors * i
           && plan[i].sectors == (if count - ClusterSectors * i > ClusterSectors then ClusterSectors else count - ClusterSectors * i)
           && 0 < plan[i].sectors <= ClusterSectors
    decreases count
  {
    if count > 0 {
      var n := if count > ClusterSectors then ClusterSectors else count;
      ZeroPlanShape(start + n, count - n);
      var plan := ZeroPlan(start, count);
      var rest := ZeroPlan(start + n, count - n);
      assert plan == [Chunk(start, n)] + rest;
      forall i | 1 <= i < |plan|
        ensures plan[i].lba == start + ClusterSectors * i
        ensures plan[i].sectors == (if count - ClusterSectors * i > ClusterSectors then ClusterSectors else count - ClusterSectors * i)
      {
        assert plan[i] == rest[i - 1];
        assert n == ClusterSectors;
      }
    }
  }

  /** Every sector of `[start, start + count)` lies in exactly one chunk of the plan, and no other sector does. */
  lemma ZeroPlanCovers(start: int, count: nat, s: int)
    ensures var plan := ZeroPlan(start, count);
      (start <= s < start + count) <==>
      (exists i :: 0 <= i < |plan| && plan[i].lba <= s < plan[i].lba + plan[i].sectors)
    ensures var plan := ZeroPlan(start, count);
      forall i, j :: 0 <= i < j < |plan| ==> plan[i].lba + plan[i].sectors <= plan[j].lba
  {
    ZeroPlanShape(start, count);
    var plan := ZeroPlan(start, count);
    if start <= s < start + count {
      var i := (s - start) / ClusterSectors;
      assert 0 <= i < |plan|;
      assert plan[i].lba <= s < plan[i].lba + plan[i].sectors;
    }
  }

  /** The device after one write of `n` zero sectors from `start` on (nothing, for `n` = 0). */
  function Zeroed(dev: Device, start: int, n: nat): Step
  {
    if n == 0 then Step(Success, dev) else WriteSectors(dev, start, Zeros(n * SectorSize))
  }

  /**
    `zeroSectors`: writes `count` zero sectors from `start` on, 64 sectors
    (one cluster) per call, and stops at the first call that fails,
    returning its code. `issued` lists the calls made.

    Chunking is invisible on the device: the result equals one write of
    all the zeros at once.
   */
  method ZeroSectors(dev: Device, start: int, count: u32) returns (status: Status, after: Device, issued: seq<Chunk>)
    ensures Step(status, after) == Zeroed(dev, start, count)
    ensures count == 0 ==> issued == []
    ensures status == Success ==> issued == ZeroPlan(start, count)
    ensures status != Success ==>
              0 < |issued| <= |ZeroPlan(start, count)| && issued == ZeroPlan(start, count)[..|issued|]
  {
    var remaining: u32 := count;
    var current := start;
    after := dev;
    issued := [];
    while remaining > 0
      invariant remaining <= count
      invariant ZeroLoop(dev, start, count, remaining, current, after, issued)
      decreases remaining
    {
      var toWrite: u32 := if remaining > ClusterSectors as u32 then ClusterSectors as u32 else remaining;
      var res := WriteSectors(after, current, Zeros(toWrite * SectorSize));
      ZeroLoopStep(dev, start, count, remaining, current, after, issued, toWrite);
      issued := issued + [Chunk(current, toWrite)];
      if res.status != Success {
        assert Step(res.status, res.dev) == Zeroed(dev, start, count);
        return res.status, res.dev, issued;
      }
      after := res.dev;
      remaining := remaining - toWrite;
      current := current + toWrite;
    }
    status := Success;
  }

  /**
    The loop invariant of `zeroSectors` after `count - remaining` sectors:
    the chunks issued so far are the plan's first ones, and the device is
    as one write of that many zero sectors leaves it.
   */
  predicate ZeroLoop(dev: Device, start: int, count: nat, remaining: nat, current: int, after: Device, issued: seq<Chunk>)
  {
    && remaining <= count
    && current == start + (count - remaining)
    && ZeroPlan(start, count) == issued + ZeroPlan(current, remaining)
    && Step(Success, after) == Zeroed(dev, start, count - remaining)
  }

  /** One iteration of the `zeroSectors` loop keeps the invariant or ends as the single write would. */
  lemma ZeroLoopStep(dev: Device, start: int, count: nat, remaining: nat, current: int, after: Device,
                     issued: seq<Chunk>, n: nat)
    requires ZeroLoop(dev, start, count, remaining, current, after, issued)
    requires remaining > 0 && n == (if remaining > ClusterSectors then ClusterSectors else remaining)
    ensures var res := WriteSectors(after, current, Zeros(n * SectorSize));
      var issued' := issued + [Chunk(current, n)];
      && (res.status == Success ==> ZeroLoop(dev, start, count, remaining - n, current + n, res.dev, issued'))
      && (res.status != Success ==> res == Zeroed(dev, start, count))
      && 0 < |issued'| <= |ZeroPlan(start, count)| && issued' == ZeroPlan(start, count)[..|issued'|]
  {
    var done := count - remaining;
    PlanStep(ZeroPlan(start, count), issued, current, remaining, n);
    assert after == Zeroed(dev, start, done).dev && current == start + done;
    ZeroChunk(dev, start, done, n, count);
  }

  /** One more chunk issued: the plan is still what was issued followed by what remains. */
  lemma PlanStep(plan: seq<Chunk>, issued: seq<Chunk>, current: int, remaining: nat, n: nat)
    requires plan == issued + ZeroPlan(current, remaining)
    requires remaining > 0 && n == (if remaining > ClusterSectors then ClusterSectors else remaining)
    ensures plan == (issued + [Chunk(current, n)]) + ZeroPlan(current + n, remaining - n)
    ensures |issued + [Chunk(current, n)]| <= |plan|
    ensures issued + [Chunk(current, n)] == plan[..|issued| + 1]
  {
    assert ZeroPlan(current, remaining) == [Chunk(current, n)] + ZeroPlan(current + n, remaining - n);
  }

  lemma PlanPrefix(plan: seq<Chunk>, issued: seq<Chunk>, rest: seq<Chunk>)
    requires plan == issued + rest
    ensures |issued| <= |plan| && issued == plan[..|issued|]
  {
  }

  lemma ZerosConcat(m: nat, n: nat)
    ensures Zeros(m) + Zeros(n) == Zeros(m + n)
  {
  }

  /** A failing write of the first `n` of `rest` sectors fails like the write of all `rest`. */
  lemma ChunkFailsWhole(dev: Device, lba: int, n: nat, rest: nat)
    requires 0 < n <= rest
    requires WriteSectors(dev, lba, Zeros(n * SectorSize)).status != Success
    ensures WriteSectors(dev, lba, Zeros(n * SectorSize)) == WriteSectors(dev, lba, Zeros(rest * SectorSize))
  {
    if n < rest {
      WriteSplit(dev, lba * SectorSize, Zeros(n * SectorSize), Zeros((rest - n) * SectorSize));
      ZerosConcat(n * SectorSize, (rest - n) * SectorSize);
      assert n * SectorSize + (rest - n) * SectorSize == rest * SectorSize;
    }
  }

  /**
    The outcome of the chunk `zeroSectors` issues after `done` sectors:
    success extends the single equivalent write by `n` sectors; failure
    is what the single write of all `count` sectors gives.
   */
  lemma ZeroChunk(dev: Device, start: int, done: nat, n: nat, count: nat)
    requires 0 < n && done + n <= count
    requires Zeroed(dev, start, done).status == Success
    ensures var res := WriteSectors(Zeroed(dev, start, done).dev, start + done, Zeros(n * SectorSize));
      && (res.status == Success ==> res == Zeroed(dev, start, done + n))
      && (res.status != Success ==> res == Zeroed(dev, start, count))
  {
    var prev := Zeroed(dev, start, done).dev;
    var res := WriteSectors(prev, start + done, Zeros(n * SectorSize));
    if done == 0 {
      assert prev == dev;
      if res.status != Success {
        ChunkFailsWhole(dev, start, n, count);
      }
    } else if res.status == Success {
      WriteAfterPrefix(dev, start, done, n);
    } else {
      LaterChunkFails(dev, start, done, n, count);
    }
  }

  lemma LaterChunkFails(dev: Device, start: int, done: nat, n: nat, count: nat)
    requires 0 < done && 0 < n && done + n <= count
    requires WriteSectors(dev, start, Zeros(done * SectorSize)).status == Success
    requires WriteSectors(WriteSectors(dev, start, Zeros(done * SectorSize)).dev, start + done, Zeros(n * SectorSize)).status != Success
    ensures WriteSectors(WriteSectors(dev, start, Zeros(done * SectorSize)).dev, start + done, Zeros(n * SectorSize))
         == WriteSectors(dev, start, Zeros(count * SectorSize))
  {
    var rest := count - done;
    var prev := WriteSectors(dev, start, Zeros(done * SectorSize)).dev;
    ChunkFailsWhole(prev, start + done, n, rest);
    WriteAfterPrefix(dev, start, done, rest);
    assert done + rest == count;
  }

  /** A successful write of `done` zero sectors followed by `rest` more equals one write of all of them. */
  lemma WriteAfterPrefix(dev: Device, start: int, done: nat, rest: nat)
    requires done > 0 && rest > 0
    requires WriteSectors(dev, start, Zeros(done * SectorSize)).status == Success
    ensures WriteSectors(WriteSectors(dev, start, Zeros(done * SectorSize)).dev, start + done, Zeros(rest * SectorSize))
         == WriteSectors(dev, start, Zeros((done + rest) * SectorSize))
  {
    var a, b := Zeros(done * 512), Zeros(rest * 512);
    var off := start * 512;
    WriteSplitWritten(dev, off, a, b);
    ZerosConcat(done * 512, rest * 512);
    assert a + b == Zeros((done + rest) * 512);
    assert off + |a| == (start + done) * 512;
  }

  /** Devices that refuse the same writes agree on which ranges are writable. */
  lemma SameMediumWritable(d: Device, e: Device, lo: int, hi: int)
    requires SameMedium(d, e)
    ensures Writable(d, lo, hi) <==> Writable(e, lo, hi)
  {
    assert forall j :: Faulty(d, j) <==> Faulty(e, j);
  }

  /** At least one sector: a run of `count` sectors that starts with a header sector. */
  function RunLength(count: nat): (m: nat)
    ensures m >= 1 && (count > 0 ==> m == count)
  {
    if count == 0 then 1 else count
  }

  /** A writable range lies inside the image. */
  lemma WritableInBounds(dev: Device, lo: int, hi: int)
    requires lo < hi && Writable(dev, lo, hi)
    ensures hi <= |dev.image|
  {
    assert !Faulty(dev, hi - 1);
  }

  /**
    The pattern shared by the FAT and root-directory writers: zero `count`
    sectors from `start`, then write the one-sector `header` over the first
    of them; either failure is reported as `IOError`, whatever the
    underlying code.
   */
  function ZeroThenWrite(dev: Device, start: int, count: nat, header: seq<byte>): (r: Step)
    requires |header| == SectorSize
    ensures SameMedium(r.dev, dev)
    ensures r.status in {Success, IOError}
    ensures r.status == Success <==>
              dev.fd >= 0 && start >= 0 && Writable(dev, start * SectorSize, (start + RunLength(count)) * SectorSize)
    ensures forall i :: 0 <= i < |dev.image| && !(start * SectorSize <= i < (start + RunLength(count)) * SectorSize) ==>
              r.dev.image[i] == dev.image[i]
    ensures r.status == Success ==>
              0 <= start * SectorSize && (start + RunLength(count)) * SectorSize <= |dev.image|
    ensures r.status == Success ==>
              r.dev.image == Splice(dev.image, start * SectorSize, header + Zeros((RunLength(count) - 1) * SectorSize))
  {
    var z := Zeroed(dev, start, count);
    if z.status != Success then Step(IOError, z.dev)
    else
      var w := WriteSectors(z.dev, start, header);
      ZeroThenWriteImage(dev, start, count, header);
      if w.status != Success then Step(IOError, w.dev) else w
  }

  lemma ZeroThenWriteImage(dev: Device, start: int, count: nat, header: seq<byte>)
    requires |header| == SectorSize
    requires Zeroed(dev, start, count).status == Success
    ensures var w := WriteSectors(Zeroed(dev, start, count).dev, start, header);
      && (w.status == Success <==>
            dev.fd >= 0 && start >= 0 && Writable(dev, start * SectorSize, (start + RunLength(count)) * SectorSize))
      && (forall i :: 0 <= i < |dev.image| && !(start * SectorSize <= i < (start + RunLength(count)) * SectorSize) ==>
            w.dev.image[i] == dev.image[i])
      && (w.status == Success ==> (start + RunLength(count)) * SectorSize <= |dev.image|)
      && (w.status == Success ==>
            w.dev.image == Splice(dev.image, start * SectorSize, header + Zeros((RunLength(count) - 1) * SectorSize)))
  {
    var z := Zeroed(dev, start, count);
    var w := WriteSectors(z.dev, start, header);
    var lo := start * SectorSize;
    var m := RunLength(count);
    SameMediumWritable(dev, z.dev, lo, lo + SectorSize);
    if count > 0 {
      assert start >= 0 && dev.fd >= 0;
      assert Writable(dev, lo, (start + m) * SectorSize);
      WritableInBounds(dev, lo, (start + m) * SectorSize);
      WriteBytesSplice(dev, lo, Zeros(count * SectorSize));
      assert Writable(dev, lo, lo + SectorSize);
      assert w.status == Success;
      WriteBytesSplice(z.dev, lo, header);
      var body := header + Zeros((m - 1) * SectorSize);
      assert |body| == m * SectorSize;
      forall i | 0 <= i < |dev.image|
        ensures w.dev.image[i] == Splice(dev.image, lo, body)[i]
      {
        if lo <= i < lo + SectorSize {
          assert body[i - lo] == header[i - lo];
        } else if lo + SectorSize <= i < lo + m * SectorSize {
          assert body[i - lo] == 0;
        }
      }
    } else {
      assert z.dev == dev;
      assert header + Zeros(0) == header;
      if w.status == Success {
        WriteBytesSplice(dev, lo, header);
      }
    }
  }
}
