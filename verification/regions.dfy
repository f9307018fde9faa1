/**
  Sector runs on a byte image, and the two facts a write sequence is
  judged by: which runs hold their intended content, and that no byte
  outside the runs written has changed.
 */
module Regions {
  import opened Bytes


  /** `content` placed from sector `lba` on. */
  datatype Region = Region(lba: int, content: seq<byte>)

  function Lo(r: Region): int
  {
    r.lba * SectorSize
  }

  function Hi(r: Region): int
  {
    r.lba * SectorSize + |r.content|
  }

  predicate Covers(r: Region, i: int)
  {
    Lo(r) <= i < Hi(r)
  }

  /** Sector `lba` of an image. */
  function SectorAt(image: seq<byte>, lba: nat): (s: seq<byte>)
    requires (lba + 1) * SectorSize <= |image|
    ensures |s| == SectorSize
  {
    image[lba * SectorSize .. (lba + 1) * SectorSize]
  }

  /** The region lies inside the image and the image holds its content there. */
  predicate Holds(image: seq<byte>, r: Region)
  {
    0 <= Lo(r) && Hi(r) <= |image| && image[Lo(r)..Hi(r)] == r.content
  }

  /** Some region of `rs` covers byte `i`. */
  predicate Written(rs: seq<Region>, i: int)
  {
    exists k :: 0 <= k < |rs| && Covers(rs[k], i)
  }

  /** `after` differs from `before` at most inside the regions of `rs`. */
  predicate Untouched(before: seq<byte>, after: seq<byte>, rs: seq<Region>)
  {
    |after| == |before| &&
    forall i :: 0 <= i < |before| && !Written(rs, i) ==> after[i] == before[i]
  }

  predicate Disjoint(r: Region, s: Region)
  {
    Hi(r) <= Lo(s) || Hi(s) <= Lo(r)
  }

  predicate PairwiseDisjoint(rs: seq<Region>)
  {
    forall k, j :: 0 <= k < j < |rs| ==> Disjoint(rs[k], rs[j])
  }

  /** A region the later writes stay away from keeps its content. */
  lemma KeepHolds(b: seq<byte>, c: seq<byte>, r: Region, later: seq<Region>)
    requires Holds(b, r) && Untouched(b, c, later)
    requires forall j :: 0 <= j < |later| ==> Disjoint(r, later[j])
    ensures Holds(c, r)
  {
    forall i | Lo(r) <= i < Hi(r)
      ensures c[i] == b[i]
    {
    }
    assert c[Lo(r)..Hi(r)] == b[Lo(r)..Hi(r)];
  }

  /** Two steps that each touch only their own regions together touch only the union. */
  lemma UntouchedTrans(a: seq<byte>, b: seq<byte>, c: seq<byte>, first: seq<Region>, second: seq<Region>)
    requires Untouched(a, b, first) && Untouched(b, c, second)
    ensures Untouched(a, c, first + second)
  {
    var rs := first + second;
    forall i | 0 <= i < |a| && !Written(rs, i)
      ensures c[i] == a[i]
    {
      forall k | 0 <= k < |first|
        ensures !Covers(first[k], i)
      {
        assert rs[k] == first[k];
      }
      forall k | 0 <= k < |second|
        ensures !Covers(second[k], i)
      {
        assert rs[|first| + k] == second[k];
      }
    }
  }

  /** Region lists that cover the same sectors, whatever their contents. */
  predicate SameSpans(rs: seq<Region>, ss: seq<Region>)
  {
    |rs| == |ss| && forall k :: 0 <= k < |rs| ==> rs[k].lba == ss[k].lba && |rs[k].content| == |ss[k].content|
  }

  /** Whether bytes are left alone depends only on where the regions lie, not on what they hold. */
  lemma UntouchedSameSpans(a: seq<byte>, b: seq<byte>, rs: seq<Region>, ss: seq<Region>)
    requires Untouched(a, b, rs) && SameSpans(rs, ss)
    ensures Untouched(a, b, ss)
  {
    forall i | 0 <= i < |a| && Written(ss, i)
      ensures Written(rs, i)
    {
      var k :| 0 <= k < |ss| && Covers(ss[k], i);
      assert Covers(rs[k], i);
    }
  }

  /** Covering more regions only weakens `Untouched`. */
  lemma UntouchedWiden(a: seq<byte>, b: seq<byte>, rs: seq<Region>, more: seq<Region>)
    requires Untouched(a, b, rs)
    requires forall k :: 0 <= k < |rs| ==> rs[k] in more
    ensures Untouched(a, b, more)
  {
    forall i | 0 <= i < |a| && Written(rs, i)
      ensures Written(more, i)
    {
      var k :| 0 <= k < |rs| && Covers(rs[k], i);
      var j :| 0 <= j < |more| && more[j] == rs[k];
      assert Covers(more[j], i);
    }
  }

  /**
    Two images that agree with the same base outside `rs` and both hold
    every region of `rs` are the same image.
   */
  lemma Determined(base: seq<byte>, x: seq<byte>, y: seq<byte>, rs: seq<Region>)
    requires Untouched(base, x, rs) && Untouched(base, y, rs)
    requires forall k :: 0 <= k < |rs| ==> Holds(x, rs[k]) && Holds(y, rs[k])
    ensures x == y
  {
    forall i | 0 <= i < |x|
      ensures x[i] == y[i]
    {
      if Written(rs, i) {
        var k :| 0 <= k < |rs| && Covers(rs[k], i);
        assert x[i] == x[Lo(rs[k])..Hi(rs[k])][i - Lo(rs[k])];
        assert y[i] == y[Lo(rs[k])..Hi(rs[k])][i - Lo(rs[k])];
      }
    }
  }

  /** Steps that each touch only regions of `rs` together touch only regions of `rs`. */
  lemma UntouchedChain(a: seq<byte>, b: seq<byte>, c: seq<byte>, rs: seq<Region>)
    requires Untouched(a, b, rs) && Untouched(b, c, rs)
    ensures Untouched(a, c, rs)
  {
  }

  /**
    Regions written after `rs[..m]` held, by a step that touched only
    `rs[m..m']` and filled them, leave all of `rs[..m']` holding, when the
    regions are pairwise disjoint.
   */
  lemma HoldExtend(b: seq<byte>, c: seq<byte>, rs: seq<Region>, m: nat, m': nat)
    requires m <= m' <= |rs| && PairwiseDisjoint(rs)
    requires forall k :: 0 <= k < m ==> Holds(b, rs[k])
    requires Untouched(b, c, rs[m..m'])
    requires forall k :: m <= k < m' ==> Holds(c, rs[k])
    ensures forall k :: 0 <= k < m' ==> Holds(c, rs[k])
  {
    forall k | 0 <= k < m
      ensures Holds(c, rs[k])
    {
      forall j | 0 <= j < m' - m
        ensures Disjoint(rs[k], rs[m..m'][j])
      {
        assert rs[m..m'][j] == rs[m + j];
      }
      KeepHolds(b, c, rs[k], rs[m..m']);
    }
  }
}
