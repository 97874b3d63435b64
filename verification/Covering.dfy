/** Completing the cover of a file, `cover_complete_cover` of version-1/covering.c.

    The listed blocks are scanned in order of offset.  `so_far` says how much of the file
    is covered; holes before a listed block, and the end of the file, are filled with new
    blocks.  The functions below say what the loops append, as coded. */
module Covering {
  import opened Bytes
  import opened Blocks

  /** The position of the scan once the hole before `offset` has been filled. */
  function GapEnd(soFar: nat, offset: nat, blockLength: nat): (end: nat)
    requires blockLength > 0
    ensures end >= soFar && end >= offset && (end > soFar ==> end < offset + blockLength)
    decreases offset - soFar
  {
    if soFar < offset then GapEnd(soFar + blockLength, offset, blockLength) else soFar
  }

  /** Where the blocks that fill the hole start. */
  function GapPoints(soFar: nat, offset: nat, blockLength: nat): seq<nat>
    requires blockLength > 0
    decreases offset - soFar
  {
    if soFar < offset then [soFar] + GapPoints(soFar + blockLength, offset, blockLength) else []
  }

  /** The position after a listed block has been taken into account. */
  function Past(b: Block, soFar: nat): nat {
    if b.inCover then Max(soFar, b.End()) else soFar
  }

  function ScanEnd(bs: seq<Block>, soFar: nat, blockLength: nat): (end: nat)
    requires blockLength > 0
    ensures end >= soFar
  {
    if bs == [] then soFar
    else ScanEnd(bs[1..], Past(bs[0], GapEnd(soFar, bs[0].offset, blockLength)), blockLength)
  }

  function ScanPoints(bs: seq<Block>, soFar: nat, blockLength: nat): seq<nat>
    requires blockLength > 0
  {
    if bs == [] then []
    else GapPoints(soFar, bs[0].offset, blockLength)
         + ScanPoints(bs[1..], Past(bs[0], GapEnd(soFar, bs[0].offset, blockLength)), blockLength)
  }

  /** Where the loop over the end of the file stands each time it adds a block. */
  function TailPoints(soFar: nat, fileLength: nat, blockLength: nat): seq<nat>
    requires blockLength > 0
    decreases fileLength - soFar
  {
    if soFar < fileLength then
      [soFar] + TailPoints(soFar + Min(blockLength, fileLength - soFar), fileLength, blockLength)
    else []
  }

  /** The block added at the end of the file.  A short one is pushed back by what it lacks
      when the file is longer than a block, but its length stays short. */
  function TailBlock(soFar: U32, fileLength: U32, blockLength: U16): Block
    requires soFar < fileLength
  {
    var length := Min(blockLength, fileLength - soFar);
    CoverBlock(if length < blockLength && fileLength > blockLength then soFar - (blockLength - length) else soFar,
               length)
  }

  ghost predicate Below(points: seq<nat>, bound: nat) {
    forall i | 0 <= i < |points| :: points[i] < bound
  }

  function GapBlocks(points: seq<nat>, blockLength: U16): (bs: seq<Block>)
    requires Below(points, TWO32)
    ensures |bs| == |points|
  {
    seq(|points|, i requires 0 <= i < |points| => CoverBlock(points[i], blockLength))
  }

  function TailBlocks(points: seq<nat>, fileLength: U32, blockLength: U16): (bs: seq<Block>)
    requires Below(points, fileLength)
    ensures |bs| == |points|
  {
    seq(|points|, i requires 0 <= i < |points| => TailBlock(points[i], fileLength, blockLength))
  }

  /** Everything `cover_complete_cover` appends to the sorted list `bs`. */
  function Added(bs: seq<Block>, fileLength: U32, blockLength: U16): (added: seq<Block>)
    requires InRange(bs, fileLength, blockLength)
    ensures |added| == |Points(bs, fileLength, blockLength)|
  {
    ScanPointsBelow(bs, 0, blockLength);
    var soFar := ScanEnd(bs, 0, blockLength);
    TailFacts(soFar, fileLength, blockLength);
    var gap, tail := ScanPoints(bs, 0, blockLength), TailPoints(soFar, fileLength, blockLength);
    assert forall i | 0 <= i < |gap| :: gap[i] in gap;
    assert forall i | 0 <= i < |tail| :: tail[i] in tail;
    GapBlocks(gap, blockLength) + TailBlocks(tail, fileLength, blockLength)
  }

  /** The position of the scan each time a block is added. */
  function Points(bs: seq<Block>, fileLength: nat, blockLength: nat): seq<nat>
    requires blockLength > 0
  {
    ScanPoints(bs, 0, blockLength) + TailPoints(ScanEnd(bs, 0, blockLength), fileLength, blockLength)
  }

  /** The loops end and no 32-bit sum wraps: `length` is a guint16, so a multiple of 65536
      would make the loop over the end of the file stand still. */
  ghost predicate InRange(bs: seq<Block>, fileLength: U32, blockLength: nat) {
    && 0 < blockLength < TWO16
    && (forall b :: b in bs ==> b.offset + blockLength <= TWO32 && b.End() < TWO32)
  }

  ghost predicate Spaced(points: seq<nat>, gap: nat) {
    forall i, j :: 0 <= i < j < |points| ==> points[i] + gap <= points[j]
  }

  /** Byte `p` lies in the stretch of a block that starts at one of the points. */
  ghost predicate Reached(points: seq<nat>, blockLength: nat, p: nat) {
    exists x :: x in points && x <= p < x + blockLength
  }

  lemma Joined(a: seq<nat>, b: seq<nat>, gap: nat, mid: nat)
    requires Spaced(a, gap) && Spaced(b, gap)
    requires forall x :: x in a ==> x + gap <= mid
    requires forall x :: x in b ==> mid <= x
    ensures Spaced(a + b, gap)
    ensures forall p: nat :: Reached(a, gap, p) || Reached(b, gap, p) ==> Reached(a + b, gap, p)
  {
    var ab := a + b;
    forall i, j | 0 <= i < j < |ab| ensures ab[i] + gap <= ab[j] {
      assert i < |a| ==> ab[i] in a;
      assert j >= |a| ==> ab[j] in b;
    }
    forall p: nat | Reached(a, gap, p) || Reached(b, gap, p) ensures Reached(ab, gap, p) {
      var x :| (x in a || x in b) && x <= p < x + gap;
      assert x in ab;
    }
  }

  lemma {:induction false} GapFacts(soFar: nat, offset: nat, blockLength: nat)
    requires blockLength > 0
    ensures
      var points, end := GapPoints(soFar, offset, blockLength), GapEnd(soFar, offset, blockLength);
      && Spaced(points, blockLength)
      && (forall x :: x in points ==> soFar <= x < offset && x + blockLength <= end)
      && (forall p: nat | soFar <= p < end :: Reached(points, blockLength, p))
    decreases offset - soFar
  {
    if soFar < offset {
      var rest := GapPoints(soFar + blockLength, offset, blockLength);
      GapFacts(soFar + blockLength, offset, blockLength);
      Joined([soFar], rest, blockLength, soFar + blockLength);
      forall p: nat | soFar <= p < soFar + blockLength ensures Reached([soFar], blockLength, p) {
        assert soFar in [soFar];
      }
    }
  }

  /** The scan: the stretches from its points and the listed cover blocks reach every byte
      up to where it ends, and none of them reaches further. */
  lemma {:induction false} ScanFacts(bs: seq<Block>, soFar: nat, blockLength: nat)
    requires blockLength > 0
    ensures
      var points, end := ScanPoints(bs, soFar, blockLength), ScanEnd(bs, soFar, blockLength);
      && Spaced(points, blockLength)
      && (forall x :: x in points ==> soFar <= x && x + blockLength <= end)
      && (forall b :: b in bs && b.inCover ==> b.End() <= end)
      && (forall p: nat | soFar <= p < end :: Reached(points, blockLength, p) || Covers(bs, p))
  {
    if bs != [] {
      var b, rest := bs[0], bs[1..];
      var gapEnd := GapEnd(soFar, b.offset, blockLength);
      var past := Past(b, gapEnd);
      var gap, more := GapPoints(soFar, b.offset, blockLength), ScanPoints(rest, past, blockLength);
      GapFacts(soFar, b.offset, blockLength);
      ScanFacts(rest, past, blockLength);
      Joined(gap, more, blockLength, gapEnd);
      assert b in bs;
      forall p: nat | gapEnd <= p < past ensures Covers(bs, p) {
        assert b.Contains(p);
      }
      forall p: nat | Covers(rest, p) ensures Covers(bs, p) {
        var c :| c in rest && c.inCover && c.Contains(p);
        assert c in bs;
      }
    }
  }

  /** Each point of the scan lies before some listed block. */
  lemma {:induction false} ScanPointsBelow(bs: seq<Block>, soFar: nat, blockLength: nat)
    requires blockLength > 0
    ensures forall x :: x in ScanPoints(bs, soFar, blockLength) ==> exists b :: b in bs && x < b.offset
  {
    if bs != [] {
      var past := Past(bs[0], GapEnd(soFar, bs[0].offset, blockLength));
      GapFacts(soFar, bs[0].offset, blockLength);
      ScanPointsBelow(bs[1..], past, blockLength);
      forall x | x in ScanPoints(bs, soFar, blockLength) ensures exists b :: b in bs && x < b.offset {
        if x in GapPoints(soFar, bs[0].offset, blockLength) {
          assert bs[0] in bs;
        } else {
          assert x in ScanPoints(bs[1..], past, blockLength);
          var b :| b in bs[1..] && x < b.offset;
          assert b in bs;
        }
      }
    }
  }

  /** No listed cover block contains a point of the scan: those before it in the list end
      at it or earlier, the others start behind it. */
  lemma {:induction false} ScanPointsFree(bs: seq<Block>, soFar: nat, blockLength: nat)
    requires blockLength > 0 && SortedByOffset(bs)
    ensures forall x :: x in ScanPoints(bs, soFar, blockLength) ==> !Covers(bs, x)
  {
    if bs != [] {
      var b, rest := bs[0], bs[1..];
      var past := Past(b, GapEnd(soFar, b.offset, blockLength));
      GapFacts(soFar, b.offset, blockLength);
      ScanFacts(rest, past, blockLength);
      ScanPointsFree(rest, past, blockLength);
      forall x, c | x in ScanPoints(bs, soFar, blockLength) && c in bs && c.inCover ensures !c.Contains(x) {
        if x in GapPoints(soFar, b.offset, blockLength) {
          assert b.offset <= c.offset;
        } else if c in rest {
          assert !Covers(rest, x);
        }
      }
    }
  }

  lemma {:induction false} TailFacts(soFar: nat, fileLength: nat, blockLength: nat)
    requires blockLength > 0
    ensures
      var points := TailPoints(soFar, fileLength, blockLength);
      && Spaced(points, blockLength)
      && (forall x :: x in points ==> soFar <= x < fileLength)
      && (forall p: nat | soFar <= p < fileLength :: Reached(points, blockLength, p))
    decreases fileLength - soFar
  {
    if soFar < fileLength {
      var next := soFar + Min(blockLength, fileLength - soFar);
      var rest := TailPoints(next, fileLength, blockLength);
      TailFacts(next, fileLength, blockLength);
      assert next < soFar + blockLength ==> rest == [];
      Joined([soFar], rest, blockLength, soFar + blockLength);
      forall p: nat | soFar <= p < soFar + blockLength ensures Reached([soFar], blockLength, p) {
        assert soFar in [soFar];
      }
    }
  }

  /** Whether the last block fits decides whether all do; only the last one may not. */
  lemma {:induction false} TailLast(soFar: nat, fileLength: nat, blockLength: nat)
    requires blockLength > 0 && soFar < fileLength
    ensures
      var points := TailPoints(soFar, fileLength, blockLength);
      && points != []
      && (forall x :: x in points ==> x == points[|points| - 1] || x + blockLength < fileLength)
      && (points[|points| - 1] + blockLength == fileLength <==> (fileLength - soFar) % blockLength == 0)
      && points[|points| - 1] + blockLength >= fileLength
    decreases fileLength - soFar
  {
    var left := fileLength - soFar;
    var points := TailPoints(soFar, fileLength, blockLength);
    if left > blockLength {
      var rest := TailPoints(soFar + blockLength, fileLength, blockLength);
      TailLast(soFar + blockLength, fileLength, blockLength);
      assert points == [soFar] + rest && points[|points| - 1] == rest[|rest| - 1];
      ModLess(left, blockLength);
    } else {
      assert TailPoints(fileLength, fileLength, blockLength) == [];
      assert points == [soFar];
      if left == blockLength {
        ModLess(left, blockLength);
      } else {
        ModSmall(left, blockLength);
      }
    }
  }

  /** The scan of the end of the file goes on by a block length. */
  lemma {:induction false} TailAt(soFar: nat, fileLength: nat, blockLength: nat)
    requires blockLength > 0 && soFar <= fileLength
    ensures
      var points := TailPoints(soFar, fileLength, blockLength);
      && (forall k: nat :: k < |points| <==> soFar + k * blockLength < fileLength)
      && (forall k: nat | k < |points| :: points[k] == soFar + k * blockLength)
    decreases fileLength - soFar
  {
    var points := TailPoints(soFar, fileLength, blockLength);
    if fileLength - soFar > blockLength {
      TailAt(soFar + blockLength, fileLength, blockLength);
      var rest := TailPoints(soFar + blockLength, fileLength, blockLength);
      assert points == [soFar] + rest;
      forall k: nat
        ensures k < |points| <==> soFar + k * blockLength < fileLength
        ensures k < |points| ==> points[k] == soFar + k * blockLength
      {
        if k > 0 {
          OneLess(k, blockLength);
          assert k - 1 < |rest| <==> soFar + blockLength + (k - 1) * blockLength < fileLength;
        }
      }
    } else {
      assert TailPoints(fileLength, fileLength, blockLength) == [];
      forall k: nat | k > 0 ensures soFar + k * blockLength >= fileLength {
        OneLess(k, blockLength);
      }
    }
  }

  lemma OneLess(k: nat, m: nat)
    requires k > 0
    ensures (k - 1) * m + m == k * m && k * m >= m
  {
  }

  lemma ModLess(a: nat, m: nat)
    requires 0 < m <= a
    ensures a % m == (a - m) % m
  {
    var q, r := (a - m) / m, (a - m) % m;
    assert a == (q + 1) * m + r;
    ModUnique(a, m, q + 1, r);
  }

  lemma ModUnique(a: int, m: int, q: int, r: int)
    requires 0 <= r < m && a == q * m + r
    ensures a % m == r
  {
    var d := a / m - q;
    assert d * m == r - a % m;
    FullTurns(d, m);
  }

  lemma FullTurns(d: int, m: int)
    requires m > 0
    ensures d >= 1 ==> d * m >= m
    ensures d <= -1 ==> d * m <= -m
  {
  }

  lemma ModSmall(a: nat, m: nat)
    requires a < m
    ensures a % m == a
  {
  }

  lemma GapStep(soFar: nat, offset: nat, blockLength: nat)
    requires blockLength > 0
    ensures soFar < offset ==>
      && GapPoints(soFar, offset, blockLength) == [soFar] + GapPoints(soFar + blockLength, offset, blockLength)
      && GapEnd(soFar, offset, blockLength) == GapEnd(soFar + blockLength, offset, blockLength)
    ensures soFar >= offset ==>
      GapPoints(soFar, offset, blockLength) == [] && GapEnd(soFar, offset, blockLength) == soFar
  {
  }

  lemma ScanStep(bs: seq<Block>, soFar: nat, blockLength: nat)
    requires blockLength > 0 && bs != []
    ensures
      var gapEnd := GapEnd(soFar, bs[0].offset, blockLength);
      && gapEnd >= bs[0].offset
      && ScanPoints(bs, soFar, blockLength)
         == GapPoints(soFar, bs[0].offset, blockLength) + ScanPoints(bs[1..], Past(bs[0], gapEnd), blockLength)
      && ScanEnd(bs, soFar, blockLength) == ScanEnd(bs[1..], Past(bs[0], gapEnd), blockLength)
  {
  }

  lemma GapBlocksConcat(a: seq<nat>, b: seq<nat>, blockLength: U16)
    requires Below(a, TWO32) && Below(b, TWO32)
    ensures Below(a + b, TWO32)
    ensures GapBlocks(a + b, blockLength) == GapBlocks(a, blockLength) + GapBlocks(b, blockLength)
  {
  }

  lemma GapBlocksStep(points: seq<nat>, x: nat, blockLength: U16)
    requires Below(points, TWO32)
    requires x < TWO32
    ensures GapBlocks(points + [x], blockLength) == GapBlocks(points, blockLength) + [CoverBlock(x, blockLength)]
  {
  }

  lemma TailBlocksStep(points: seq<nat>, x: nat, fileLength: U32, blockLength: U16)
    requires Below(points, fileLength)
    requires x < fileLength
    ensures TailBlocks(points + [x], fileLength, blockLength)
         == TailBlocks(points, fileLength, blockLength) + [TailBlock(x, fileLength, blockLength)]
  {
  }

  lemma InsertSorted(bs: seq<Block>, sorted: seq<Block>, k: nat, b: Block)
    requires k <= |sorted| && IsSorting(bs, sorted)
    requires k > 0 ==> sorted[k - 1].offset <= b.offset
    requires k < |sorted| ==> b.offset <= sorted[k].offset
    ensures IsSorting(bs + [b], sorted[..k] + [b] + sorted[k..])
  {
    hide SortedByOffset;
    InsertSameBlocks(sorted[..k], sorted[k..], b);
    assert sorted == sorted[..k] + sorted[k..];
    InsertOrder(sorted, k, b);
  }

  lemma InsertSameBlocks(front: seq<Block>, back: seq<Block>, b: Block)
    ensures multiset(front + [b] + back) == multiset(front + back) + multiset{b}
  {
  }

  lemma InsertOrder(sorted: seq<Block>, k: nat, b: Block)
    requires k <= |sorted| && SortedByOffset(sorted)
    requires k > 0 ==> sorted[k - 1].offset <= b.offset
    requires k < |sorted| ==> b.offset <= sorted[k].offset
    ensures SortedByOffset(sorted[..k] + [b] + sorted[k..])
  {
    var inserted := sorted[..k] + [b] + sorted[k..];
    forall i, j | 0 <= i < j < |inserted| ensures inserted[i].offset <= inserted[j].offset {
      if j == k {
        assert sorted[i].offset <= sorted[k - 1].offset;
      } else if i == k {
        assert sorted[k].offset <= sorted[j - 1].offset;
      }
    }
  }

  /** Sorting the array of blocks; which order equal offsets end up in does not matter
      anywhere below. */
  method SortByOffset(bs: seq<Block>) returns (sorted: seq<Block>)
    ensures IsSorting(bs, sorted)
  {
    hide IsSorting;
    NothingSorted();
    sorted := [];
    for n := 0 to |bs|
      invariant IsSorting(bs[..n], sorted)
    {
      var k := |sorted|;
      while k > 0 && sorted[k - 1].offset > bs[n].offset
        invariant 0 <= k <= |sorted|
        invariant k < |sorted| ==> bs[n].offset <= sorted[k].offset
      {
        k := k - 1;
      }
      assert bs[..n + 1] == bs[..n] + [bs[n]];
      InsertSorted(bs[..n], sorted, k, bs[n]);
      sorted := sorted[..k] + [bs[n]] + sorted[k..];
    }
    assert bs[..|bs|] == bs;
  }

  lemma NothingSorted()
    ensures IsSorting([], [])
  {
  }

  lemma {:induction false} SomeSorting(bs: seq<Block>) returns (sorted: seq<Block>)
    ensures IsSorting(bs, sorted)
  {
    if bs == [] {
      sorted := [];
    } else {
      var n := |bs| - 1;
      var front := SomeSorting(bs[..n]);
      var k := PlaceFor(front, bs[n]);
      InsertSorted(bs[..n], front, k, bs[n]);
      sorted := front[..k] + [bs[n]] + front[k..];
      assert bs == bs[..n] + [bs[n]];
    }
  }

  /** Where a block may be inserted. */
  lemma {:induction false} PlaceFor(sorted: seq<Block>, b: Block) returns (k: nat)
    requires SortedByOffset(sorted)
    ensures k <= |sorted| && (k > 0 ==> sorted[k - 1].offset <= b.offset)
    ensures k < |sorted| ==> b.offset <= sorted[k].offset
  {
    k := |sorted|;
    if k > 0 && sorted[k - 1].offset > b.offset {
      k := PlaceFor(sorted[..k - 1], b);
    }
  }

  lemma SortingInRange(bs: seq<Block>, sorted: seq<Block>, fileLength: U32, blockLength: U16)
    requires IsSorting(bs, sorted) && InRange(bs, fileLength, blockLength)
    ensures InRange(sorted, fileLength, blockLength)
  {
    SortingSameBlocks(bs, sorted);
  }

  lemma AddedParts(bs: seq<Block>, fileLength: U32, blockLength: U16)
    requires InRange(bs, fileLength, blockLength)
    ensures
      var gap := ScanPoints(bs, 0, blockLength);
      var tail := TailPoints(ScanEnd(bs, 0, blockLength), fileLength, blockLength);
      && Below(gap, TWO32)
      && Below(tail, fileLength)
      && Added(bs, fileLength, blockLength) == GapBlocks(gap, blockLength) + TailBlocks(tail, fileLength, blockLength)
  {
    ScanPointsBelow(bs, 0, blockLength);
    TailFacts(ScanEnd(bs, 0, blockLength), fileLength, blockLength);
    var gap := ScanPoints(bs, 0, blockLength);
    var tail := TailPoints(ScanEnd(bs, 0, blockLength), fileLength, blockLength);
    assert forall i | 0 <= i < |gap| :: gap[i] in gap;
    assert forall i | 0 <= i < |tail| :: tail[i] in tail;
  }

  lemma Nothing(soFar: nat, blockLength: U16)
    requires blockLength > 0
    ensures ScanPoints([], soFar, blockLength) == [] && ScanEnd([], soFar, blockLength) == soFar
    ensures Below([], TWO32) && GapBlocks([], blockLength) == []
  {
  }

  /** One turn of the loop over the end of the file. */
  lemma TailTurn(points: seq<nat>, soFar: nat, fileLength: U32, blockLength: U16)
    requires blockLength > 0 && Below(points, fileLength) && soFar < fileLength
    ensures Below(points + [soFar], fileLength)
    ensures points + TailPoints(soFar, fileLength, blockLength) ==
      (points + [soFar]) + TailPoints(soFar + Min(blockLength, fileLength - soFar), fileLength, blockLength)
  {
    var rest := TailPoints(soFar + Min(blockLength, fileLength - soFar), fileLength, blockLength);
    assert TailPoints(soFar, fileLength, blockLength) == [soFar] + rest;
    hide TailPoints;
    assert points + ([soFar] + rest) == (points + [soFar]) + rest;
  }

  lemma TailDone(points: seq<nat>, soFar: nat, fileLength: U32, blockLength: U16)
    requires blockLength > 0 && soFar >= fileLength
    ensures points + TailPoints(soFar, fileLength, blockLength) == points
  {
  }

  lemma NoTail(fileLength: U32, blockLength: U16)
    ensures Below([], fileLength) && TailBlocks([], fileLength, blockLength) == []
  {
  }
}
