/** `cover_complete_cover` of version-1/covering.c adds as few blocks as possible: each
    added block is charged to the byte where the scan stood, no reused block has that byte,
    and these bytes are at least a block length apart. */
module FewestBlocks {
  import opened Bytes
  import opened Blocks
  import opened Covering

  datatype Stretch = Stretch(offset: nat, length: nat)

  ghost predicate Touches(cs: seq<Stretch>, p: nat) {
    exists c :: c in cs && c.offset <= p < c.offset + c.length
  }

  /** Any other way to complete the reused blocks to a cover of the file. */
  ghost predicate Completes(cs: seq<Stretch>, bs: seq<Block>, fileLength: nat, blockLength: nat) {
    && (forall c :: c in cs ==> c.length <= blockLength)
    && (forall p: nat | p < fileLength :: Covers(bs, p) || Touches(cs, p))
  }

  ghost predicate Fewest(n: nat, bs: seq<Block>, fileLength: nat, blockLength: nat) {
    forall cs :: Completes(cs, bs, fileLength, blockLength) ==> n <= |cs|
  }

  /** Bytes that lie at least a block length apart need a stretch each. */
  lemma {:induction false} OneStretchEach(points: seq<nat>, cs: seq<Stretch>, blockLength: nat)
    requires Spaced(points, blockLength)
    requires forall c :: c in cs ==> c.length <= blockLength
    requires forall x :: x in points ==> Touches(cs, x)
    ensures |points| <= |cs|
  {
    if points != [] {
      var n := |points| - 1;
      assert Touches(cs, points[n]);
      var c :| c in cs && c.offset <= points[n] < c.offset + c.length;
      var k :| 0 <= k < |cs| && cs[k] == c;
      var others := cs[..k] + cs[k + 1..];
      forall x | x in points[..n] ensures Touches(others, x) {
        var i :| 0 <= i < n && points[i] == x;
        assert Touches(cs, x);
        var d :| d in cs && d.offset <= x < d.offset + d.length;
        var l :| 0 <= l < |cs| && cs[l] == d;
        assert points[i] + blockLength <= points[n];
        assert l != k;
        assert d in others by {
          assert if l < k then others[l] == d else others[l - 1] == d;
        }
      }
      forall d | d in others ensures d in cs { }
      OneStretchEach(points[..n], others, blockLength);
    }
  }

  lemma PointsSpaced(bs: seq<Block>, fileLength: nat, blockLength: nat)
    requires blockLength > 0
    ensures Spaced(Points(bs, fileLength, blockLength), blockLength)
    ensures forall p: nat | p < fileLength ::
      Covers(bs, p) || Reached(Points(bs, fileLength, blockLength), blockLength, p)
  {
    var end := ScanEnd(bs, 0, blockLength);
    var gap, tail := ScanPoints(bs, 0, blockLength), TailPoints(end, fileLength, blockLength);
    ScanFacts(bs, 0, blockLength);
    TailFacts(end, fileLength, blockLength);
    Joined(gap, tail, blockLength, end);
    forall p: nat | p < fileLength ensures Covers(bs, p) || Reached(gap + tail, blockLength, p) {
      assert p < end ==> Covers(bs, p) || Reached(gap, blockLength, p);
    }
  }

  lemma PointsFree(bs: seq<Block>, fileLength: nat, blockLength: nat)
    requires blockLength > 0 && SortedByOffset(bs)
    ensures forall x :: x in Points(bs, fileLength, blockLength) ==> !Covers(bs, x)
  {
    var end := ScanEnd(bs, 0, blockLength);
    ScanPointsFree(bs, 0, blockLength);
    ScanFacts(bs, 0, blockLength);
    TailFacts(end, fileLength, blockLength);
    forall x | x in TailPoints(end, fileLength, blockLength) ensures !Covers(bs, x) {
      assert forall b :: b in bs && b.inCover ==> b.End() <= x;
    }
  }

  lemma SpacedOrder(points: seq<nat>, gap: nat, i: nat, k: nat)
    requires Spaced(points, gap) && i < |points| && k < |points| && points[i] < points[k]
    ensures i < k
  {
  }

  /** The points inside the file are enough stretches. */
  lemma EnoughInside(bs: seq<Block>, fileLength: nat, blockLength: nat, k: nat)
    requires blockLength > 0
    requires k < |Points(bs, fileLength, blockLength)| && Points(bs, fileLength, blockLength)[k] >= fileLength
    ensures !Fewest(|Points(bs, fileLength, blockLength)|, bs, fileLength, blockLength)
  {
    var points := Points(bs, fileLength, blockLength);
    var cs := seq(k, i requires 0 <= i < k => Stretch(points[i], blockLength));
    PointsSpaced(bs, fileLength, blockLength);
    forall p: nat | p < fileLength ensures Covers(bs, p) || Touches(cs, p) {
      if Reached(points, blockLength, p) {
        var x :| x in points && x <= p < x + blockLength;
        var i :| 0 <= i < |points| && points[i] == x;
        SpacedOrder(points, blockLength, i, k);
        assert cs[i] in cs;
      }
    }
    assert Completes(cs, bs, fileLength, blockLength);
  }

  /** Greedy optimality, exactly: no completion of the reused blocks by blocks of at most
      the block length has fewer blocks than were added, if and only if no block was added
      at or behind the end of the file. */
  lemma FewestExact(bs: seq<Block>, fileLength: U32, blockLength: U16)
    requires InRange(bs, fileLength, blockLength) && SortedByOffset(bs)
    ensures Fewest(|Added(bs, fileLength, blockLength)|, bs, fileLength, blockLength)
       <==> forall x :: x in Points(bs, fileLength, blockLength) ==> x < fileLength
  {
    var points := Points(bs, fileLength, blockLength);
    if forall x :: x in points ==> x < fileLength {
      PointsSpaced(bs, fileLength, blockLength);
      PointsFree(bs, fileLength, blockLength);
      forall cs | Completes(cs, bs, fileLength, blockLength) ensures |points| <= |cs| {
        forall x | x in points ensures Touches(cs, x) {
          assert !Covers(bs, x);
        }
        OneStretchEach(points, cs, blockLength);
      }
    } else {
      var x :| x in points && x >= fileLength;
      var k :| 0 <= k < |points| && points[k] == x;
      EnoughInside(bs, fileLength, blockLength, k);
    }
  }

  /** Three bytes of file, none reused, and a stale block behind them: the hole before it gets
      two blocks of four bytes, where one would do. */
  lemma OneTooMany(stale: Block)
    requires !stale.inCover && stale.offset == 8 && stale.length == 4
    ensures InRange([stale], 3, 4) && Added([stale], 3, 4) == [CoverBlock(0, 4), CoverBlock(4, 4)]
    ensures Completes([Stretch(0, 4)], [stale], 3, 4) && !Fewest(|Added([stale], 3, 4)|, [stale], 3, 4)
  {
    var bs := [stale];
    assert bs[1..] == [];
    ScanStep(bs, 0, 4);
    assert GapPoints(0, 8, 4) == [0] + GapPoints(4, 8, 4) && GapPoints(4, 8, 4) == [4] + GapPoints(8, 8, 4);
    assert ScanPoints(bs, 0, 4) == [0, 4] && ScanEnd(bs, 0, 4) == 8 && TailPoints(8, 3, 4) == [];
    AddedParts(bs, 3, 4);
    assert GapBlocks([0, 4], 4) == [CoverBlock(0, 4), CoverBlock(4, 4)];
    assert Stretch(0, 4) in [Stretch(0, 4)];
  }

  /** In particular the greedy choice is optimal whenever no listed block lies behind the
      end of the file. */
  lemma FewestWhenListedInside(bs: seq<Block>, fileLength: U32, blockLength: U16)
    requires InRange(bs, fileLength, blockLength) && SortedByOffset(bs)
    requires forall b :: b in bs ==> b.offset <= fileLength
    ensures Fewest(|Added(bs, fileLength, blockLength)|, bs, fileLength, blockLength)
  {
    ScanPointsBelow(bs, 0, blockLength);
    TailFacts(ScanEnd(bs, 0, blockLength), fileLength, blockLength);
    forall x | x in Points(bs, fileLength, blockLength) ensures x < fileLength {
      if x in ScanPoints(bs, 0, blockLength) {
        var b :| b in bs && x < b.offset;
      }
    }
    FewestExact(bs, fileLength, blockLength);
  }
}
