/** What `cover_complete_cover` of version-1/covering.c achieves: when the list it leaves
    covers the file, when it does so with blocks that lie inside the file, and when it adds
    as few blocks as possible. */
module CoverLaws {
  import opened Bytes
  import opened Blocks
  import opened Covering

  function Completed(bs: seq<Block>, fileLength: U32, blockLength: U16): seq<Block>
    requires InRange(bs, fileLength, blockLength)
  {
    bs + Added(bs, fileLength, blockLength)
  }

  /** Guard of the branch that leaves the end of the file uncovered, negated: no block is
      added at the end, or the file is no longer than a block, or the added blocks fill the
      rest exactly. */
  predicate TailFits(bs: seq<Block>, fileLength: U32, blockLength: U16)
    requires blockLength > 0
  {
    var end := ScanEnd(bs, 0, blockLength);
    end >= fileLength || fileLength <= blockLength || (fileLength - end) % blockLength == 0
  }

  /** A hole before a listed block is filled across the end of the file. */
  ghost predicate Straddles(bs: seq<Block>, fileLength: U32, blockLength: U16)
    requires blockLength > 0
  {
    exists x :: x in ScanPoints(bs, 0, blockLength) && x < fileLength < x + blockLength
  }

  /** A cover block that lies inside the file contains byte `p`. */
  ghost predicate CoversIntact(bs: seq<Block>, fileLength: nat, p: nat) {
    exists b :: b in bs && b.inCover && b.Contains(p) && b.End() <= fileLength
  }

  /** A reused block lies inside the file, and so does the window at which it was found. */
  predicate FoundIn(b: Block, fileLength: nat, blockLength: nat) {
    b.inCover ==> b.End() <= fileLength && b.offset + blockLength <= fileLength
  }

  ghost predicate IsGapBlock(b: Block, bs: seq<Block>, blockLength: U16, x: nat)
    requires blockLength > 0
  {
    x in ScanPoints(bs, 0, blockLength) && x < TWO32 && b == CoverBlock(x, blockLength)
  }

  ghost predicate IsTailBlock(b: Block, bs: seq<Block>, fileLength: U32, blockLength: U16, x: nat)
    requires blockLength > 0
  {
    && x in TailPoints(ScanEnd(bs, 0, blockLength), fileLength, blockLength)
    && x < fileLength && b == TailBlock(x, fileLength, blockLength)
  }

  /** The added blocks are one for each point of the scan. */
  lemma AddedMembers(bs: seq<Block>, fileLength: U32, blockLength: U16)
    requires InRange(bs, fileLength, blockLength)
    ensures forall b :: b in Added(bs, fileLength, blockLength) ==>
      (exists x :: IsGapBlock(b, bs, blockLength, x)) || (exists x :: IsTailBlock(b, bs, fileLength, blockLength, x))
    ensures forall x :: x in ScanPoints(bs, 0, blockLength) ==>
      x < TWO32 && CoverBlock(x, blockLength) in Added(bs, fileLength, blockLength)
    ensures forall x :: x in TailPoints(ScanEnd(bs, 0, blockLength), fileLength, blockLength) ==>
      x < fileLength && TailBlock(x, fileLength, blockLength) in Added(bs, fileLength, blockLength)
    ensures forall b :: b in Added(bs, fileLength, blockLength) ==> b.inCover && b.remoteId == 0 && b.localId == 0
  {
    hide ScanPoints, ScanEnd, TailPoints, Added;
    var gap := ScanPoints(bs, 0, blockLength);
    var tail := TailPoints(ScanEnd(bs, 0, blockLength), fileLength, blockLength);
    var added := Added(bs, fileLength, blockLength);
    AddedParts(bs, fileLength, blockLength);
    forall b | b in added
      ensures
        || (exists x :: IsGapBlock(b, bs, blockLength, x))
        || (exists x :: IsTailBlock(b, bs, fileLength, blockLength, x))
    {
      var k :| 0 <= k < |added| && added[k] == b;
      if k < |gap| {
        assert IsGapBlock(b, bs, blockLength, gap[k]);
      } else {
        assert IsTailBlock(b, bs, fileLength, blockLength, tail[k - |gap|]);
      }
    }
    forall x | x in gap ensures x < TWO32 && CoverBlock(x, blockLength) in added {
      var k :| 0 <= k < |gap| && gap[k] == x;
      assert added[k] == CoverBlock(x, blockLength);
    }
    forall x | x in tail ensures x < fileLength && TailBlock(x, fileLength, blockLength) in added {
      var k :| 0 <= k < |tail| && tail[k] == x;
      assert added[|gap| + k] == TailBlock(x, fileLength, blockLength);
    }
  }

  /** Byte `F - 1` is lost when the last block is short. */
  lemma TailLost(bs: seq<Block>, fileLength: U32, blockLength: U16)
    requires InRange(bs, fileLength, blockLength) && !TailFits(bs, fileLength, blockLength)
    ensures !Covers(Completed(bs, fileLength, blockLength), fileLength - 1)
  {
    ScanFacts(bs, 0, blockLength);
    AddedMembers(bs, fileLength, blockLength);
    hide Added, IsGapBlock, IsTailBlock, ScanPoints, ScanEnd, TailPoints;
    forall b | b in bs + Added(bs, fileLength, blockLength) && b.inCover ensures !b.Contains(fileLength - 1) {
      if x: nat :| IsGapBlock(b, bs, blockLength, x) {
        GapBlockEnds(bs, blockLength, b, x);
      } else if x: nat :| IsTailBlock(b, bs, fileLength, blockLength, x) {
        TailBlockEnds(bs, fileLength, blockLength, b, x);
      }
    }
  }

  /** A block that fills a hole ends where the scan does, at the latest. */
  lemma GapBlockEnds(bs: seq<Block>, blockLength: U16, b: Block, x: nat)
    requires blockLength > 0 && IsGapBlock(b, bs, blockLength, x)
    ensures b.End() <= ScanEnd(bs, 0, blockLength)
  {
    ScanFacts(bs, 0, blockLength);
    hide ScanPoints, ScanEnd;
    assert x + blockLength <= ScanEnd(bs, 0, blockLength);
  }

  lemma TailBlockEnds(bs: seq<Block>, fileLength: U32, blockLength: U16, b: Block, x: nat)
    requires blockLength > 0 && !TailFits(bs, fileLength, blockLength)
    requires IsTailBlock(b, bs, fileLength, blockLength, x)
    ensures b.End() < fileLength
  {
    var end := ScanEnd(bs, 0, blockLength);
    TailLast(end, fileLength, blockLength);
    var points := TailPoints(end, fileLength, blockLength);
    hide ScanEnd, TailPoints;
    assert x == points[|points| - 1] || x + blockLength < fileLength;
  }

  /** As coded, the completed list covers the whole file exactly when the tail fits. */
  lemma CoverExact(bs: seq<Block>, fileLength: U32, blockLength: U16)
    requires InRange(bs, fileLength, blockLength)
    ensures (forall p: nat | p < fileLength :: Covers(Completed(bs, fileLength, blockLength), p))
       <==> TailFits(bs, fileLength, blockLength)
  {
    var all := Completed(bs, fileLength, blockLength);
    if TailFits(bs, fileLength, blockLength) {
      forall p: nat | p < fileLength ensures Covers(all, p) {
        CoveredWhenFits(bs, fileLength, blockLength, p);
      }
    } else {
      TailLost(bs, fileLength, blockLength);
      assert 0 <= fileLength - 1 < fileLength;
    }
  }

  /** The block that contains byte `p`, when the tail fits. */
  lemma CoveredWhenFits(bs: seq<Block>, fileLength: U32, blockLength: U16, p: nat)
    requires InRange(bs, fileLength, blockLength) && TailFits(bs, fileLength, blockLength) && p < fileLength
    ensures Covers(Completed(bs, fileLength, blockLength), p)
    ensures !Straddles(bs, fileLength, blockLength) && !Covers(bs, p) ==>
      CoversIntact(Completed(bs, fileLength, blockLength), fileLength, p)
  {
    var all, end := Completed(bs, fileLength, blockLength), ScanEnd(bs, 0, blockLength);
    AddedMembers(bs, fileLength, blockLength);
    ScanFacts(bs, 0, blockLength);
    hide Added, IsGapBlock, IsTailBlock, ScanPoints, ScanEnd, TailPoints, TailFits;
    if Covers(bs, p) {
      var b :| b in bs && b.inCover && b.Contains(p);
      assert b in all;
    } else if p < end {
      assert Reached(ScanPoints(bs, 0, blockLength), blockLength, p);
      var x :| x in ScanPoints(bs, 0, blockLength) && x <= p < x + blockLength;
      assert CoverBlock(x, blockLength) in all && CoverBlock(x, blockLength).Contains(p);
    } else {
      var x := TailBlockAt(bs, fileLength, blockLength, p);
      var b := TailBlock(x, fileLength, blockLength);
      assert b in all && b.Contains(p) && b.End() <= fileLength;
    }
  }

  lemma TailBlockAt(bs: seq<Block>, fileLength: U32, blockLength: U16, p: nat) returns (x: nat)
    requires blockLength > 0 && TailFits(bs, fileLength, blockLength)
    requires ScanEnd(bs, 0, blockLength) <= p < fileLength
    ensures x in TailPoints(ScanEnd(bs, 0, blockLength), fileLength, blockLength) && x < fileLength
    ensures
      var b := TailBlock(x, fileLength, blockLength);
      b.inCover && b.Contains(p) && b.End() <= fileLength
  {
    var end := ScanEnd(bs, 0, blockLength);
    TailFacts(end, fileLength, blockLength);
    TailLast(end, fileLength, blockLength);
    hide ScanEnd, TailPoints;
    assert Reached(TailPoints(end, fileLength, blockLength), blockLength, p);
    x :| x in TailPoints(end, fileLength, blockLength) && x <= p < x + blockLength;
  }

  lemma SpacedApart(points: seq<nat>, gap: nat, x: nat, y: nat)
    requires Spaced(points, gap) && x in points && y in points && y <= x < y + gap
    ensures x == y
  {
    var i :| 0 <= i < |points| && points[i] == x;
    var j :| 0 <= j < |points| && points[j] == y;
  }

  /** A byte at which a block is added is in no reused block and in no other added block of
      a hole; if that block straddles the end, no intact block has the byte. */
  lemma StraddleLost(bs: seq<Block>, fileLength: U32, blockLength: U16, x: nat)
    requires InRange(bs, fileLength, blockLength) && SortedByOffset(bs)
    requires x in ScanPoints(bs, 0, blockLength) && x < fileLength < x + blockLength
    ensures !CoversIntact(Completed(bs, fileLength, blockLength), fileLength, x)
  {
    var points := ScanPoints(bs, 0, blockLength);
    ScanPointsFree(bs, 0, blockLength);
    ScanFacts(bs, 0, blockLength);
    TailFacts(ScanEnd(bs, 0, blockLength), fileLength, blockLength);
    AddedMembers(bs, fileLength, blockLength);
    assert TailPoints(ScanEnd(bs, 0, blockLength), fileLength, blockLength) == [];
    forall b | b in Added(bs, fileLength, blockLength) && b.Contains(x) ensures b.End() > fileLength {
      var y: nat :| IsGapBlock(b, bs, blockLength, y);
      SpacedApart(points, blockLength, x, y);
    }
  }

  /** Each byte of the file lies in a cover block that lies inside the file, exactly when no
      hole is filled across the end of the file and the tail fits. */
  lemma IntactExact(bs: seq<Block>, fileLength: U32, blockLength: U16)
    requires InRange(bs, fileLength, blockLength) && SortedByOffset(bs)
    requires forall b :: b in bs && b.inCover ==> b.End() <= fileLength
    ensures (forall p: nat | p < fileLength :: CoversIntact(Completed(bs, fileLength, blockLength), fileLength, p))
       <==> !Straddles(bs, fileLength, blockLength) && TailFits(bs, fileLength, blockLength)
  {
    var all := Completed(bs, fileLength, blockLength);
    if x: nat :| x in ScanPoints(bs, 0, blockLength) && x < fileLength < x + blockLength {
      StraddleLost(bs, fileLength, blockLength, x);
    } else if !TailFits(bs, fileLength, blockLength) {
      TailLost(bs, fileLength, blockLength);
      assert 0 <= fileLength - 1 < fileLength;
      assert !CoversIntact(all, fileLength, fileLength - 1);
    } else {
      forall p: nat | p < fileLength ensures CoversIntact(all, fileLength, p) {
        CoveredWhenFits(bs, fileLength, blockLength, p);
        if b :| b in bs && b.inCover && b.Contains(p) {
          assert b in all;
        }
      }
    }
  }

  /** With each listed block a whole block length away from the end of the file, every added
      block lies inside the file. */
  lemma AddedInside(bs: seq<Block>, fileLength: U32, blockLength: U16)
    requires InRange(bs, fileLength, blockLength)
    requires forall b :: b in bs ==> b.offset + blockLength <= fileLength
    ensures !Straddles(bs, fileLength, blockLength)
    ensures forall b :: b in Added(bs, fileLength, blockLength) ==> 0 < b.length && b.End() <= fileLength
  {
    ScanPointsBelow(bs, 0, blockLength);
    AddedMembers(bs, fileLength, blockLength);
    TailFacts(ScanEnd(bs, 0, blockLength), fileLength, blockLength);
    forall b | b in Added(bs, fileLength, blockLength) ensures 0 < b.length && b.End() <= fileLength {
      if x: nat :| IsGapBlock(b, bs, blockLength, x) {
        var c :| c in bs && x < c.offset;
      } else {
        var x: nat :| IsTailBlock(b, bs, fileLength, blockLength, x);
      }
    }
  }

  /** A file archived for the first time: no listed blocks.  The cover is complete, inside
      the file, exactly for a file of at most one block or of whole blocks. */
  lemma FirstCoverExact(fileLength: U32, blockLength: U16)
    requires blockLength > 0
    ensures (forall p: nat | p < fileLength :: Covers(Completed([], fileLength, blockLength), p))
       <==> fileLength <= blockLength || fileLength % blockLength == 0
    ensures Added([], fileLength, blockLength) == [] <==> fileLength == 0
    ensures forall b :: b in Completed([], fileLength, blockLength) ==> 0 < b.length && b.End() <= fileLength
  {
    CoverExact([], fileLength, blockLength);
    AddedInside([], fileLength, blockLength);
    assert ScanEnd([], 0, blockLength) == 0;
    assert Points([], fileLength, blockLength) == TailPoints(0, fileLength, blockLength);
    assert Completed([], fileLength, blockLength) == Added([], fileLength, blockLength);
    ModSmall(0, blockLength);
  }

  // ---- where the blocks at the end lie ----

  /** The blocks of one stretch, from `start` on: so many whole ones, one after the other, and
      one of what is left, a block length before the end if the file is longer than that. */
  ghost predicate IsTail(tail: seq<Block>, start: nat, fileLength: U32, blockLength: U16)
    requires blockLength > 0 && start <= fileLength
  {
    var whole, rest := (fileLength - start) / blockLength, (fileLength - start) % blockLength;
    && |tail| == whole + (if rest == 0 then 0 else 1)
    && (forall k: nat | k < whole ::
          tail[k].inCover && tail[k].offset == start + k * blockLength && tail[k].length == blockLength)
    && (rest != 0 ==>
          var last := tail[whole];
          && last.inCover && last.length == rest
          && last.offset == if fileLength > blockLength then fileLength - blockLength else start)
  }

  /** What is added at the end of the file, exactly: nothing if the scan is behind it. */
  lemma TailExact(bs: seq<Block>, fileLength: U32, blockLength: U16)
    requires InRange(bs, fileLength, blockLength)
    ensures
      var end, holes := ScanEnd(bs, 0, blockLength), |ScanPoints(bs, 0, blockLength)|;
      var added := Added(bs, fileLength, blockLength);
      && holes <= |added|
      && (if end >= fileLength then |added| == holes else IsTail(added[holes..], end, fileLength, blockLength))
  {
    AddedParts(bs, fileLength, blockLength);
    var end, holes := ScanEnd(bs, 0, blockLength), |ScanPoints(bs, 0, blockLength)|;
    var added := Added(bs, fileLength, blockLength);
    hide Added, ScanPoints, ScanEnd, GapBlocks;
    if end >= fileLength {
      assert TailPoints(end, fileLength, blockLength) == [];
    } else {
      var points := TailPoints(end, fileLength, blockLength);
      assert added[holes..] == TailBlocks(points, fileLength, blockLength);
      BlocksAtEnd(points, end, fileLength, blockLength);
    }
  }

  lemma BlocksAtEnd(points: seq<nat>, start: nat, fileLength: U32, blockLength: U16)
    requires blockLength > 0 && start < fileLength && points == TailPoints(start, fileLength, blockLength)
    requires Below(points, fileLength)
    ensures IsTail(TailBlocks(points, fileLength, blockLength), start, fileLength, blockLength)
  {
    hide TailPoints;
    TailCount(points, start, fileLength, blockLength);
    var whole, rest := (fileLength - start) / blockLength, (fileLength - start) % blockLength;
    var tail := TailBlocks(points, fileLength, blockLength);
    forall k: nat | k < whole
      ensures tail[k].inCover && tail[k].offset == start + k * blockLength && tail[k].length == blockLength
    {
      assert tail[k] == TailBlock(points[k], fileLength, blockLength);
    }
    if rest != 0 {
      assert tail[whole] == TailBlock(points[whole], fileLength, blockLength);
    }
  }

  /** How many points there are at the end, and where. */
  lemma TailCount(points: seq<nat>, start: nat, fileLength: U32, blockLength: U16)
    requires blockLength > 0 && start < fileLength && points == TailPoints(start, fileLength, blockLength)
    ensures
      var whole, rest := (fileLength - start) / blockLength, (fileLength - start) % blockLength;
      && |points| == whole + (if rest == 0 then 0 else 1)
      && (forall k: nat | k < whole ::
            k < |points| && points[k] == start + k * blockLength && points[k] + blockLength <= fileLength)
      && (rest != 0 ==>
            points[whole] == fileLength - rest && (fileLength <= blockLength ==> fileLength - rest == start))
  {
    TailAt(start, fileLength, blockLength);
    hide TailPoints;
    var left := fileLength - start;
    var whole, rest := left / blockLength, left % blockLength;
    assert left == whole * blockLength + rest;
    CountedTo(points, start, blockLength, fileLength, whole, rest);
    forall k: nat | k < whole ensures start + k * blockLength + blockLength <= fileLength && k < |points| {
      Wholes(k, whole, blockLength, rest);
    }
    if rest != 0 && fileLength <= blockLength {
      NoWhole(left, blockLength);
    }
  }

  lemma NoWhole(left: nat, length: nat)
    requires 0 < left <= length && left % length != 0
    ensures left / length == 0 && left % length == left
  {
    ModSmall(left, length);
  }

  lemma CountedTo(points: seq<nat>, start: nat, length: nat, fileLength: nat, whole: nat, rest: nat)
    requires fileLength - start == whole * length + rest && rest < length
    requires forall k: nat :: k < |points| <==> start + k * length < fileLength
    ensures |points| == whole + (if rest == 0 then 0 else 1)
  {
    Wholes(whole, whole, length, rest);
    var n := |points|;
    assert start + n * length >= fileLength;
    if n < whole {
      Wholes(n, whole, length, rest);
    }
  }

  lemma Wholes(k: nat, whole: nat, length: nat, rest: nat)
    requires rest < length
    ensures k < whole <==> k * length + length <= whole * length + rest
    ensures (whole + 1) * length == whole * length + length
  {
    if k < whole {
      assert (k + 1) * length <= whole * length;
    } else {
      assert k * length >= whole * length;
    }
  }

  /** The list of a file that is archived for the first time, from its length alone. */
  lemma FirstListExact(fileLength: U32, blockLength: U16)
    requires blockLength > 0
    ensures IsTail(Completed([], fileLength, blockLength), 0, fileLength, blockLength)
  {
    TailExact([], fileLength, blockLength);
    assert ScanEnd([], 0, blockLength) == 0 && ScanPoints([], 0, blockLength) == [];
    var all := Completed([], fileLength, blockLength);
    assert all == Added([], fileLength, blockLength) == Added([], fileLength, blockLength)[0..];
  }

  /** The bytes that are lost when the tail does not fit: those that neither the whole blocks
      nor the short one, which lies a block length before the end, have. */
  lemma LostBytesExact(bs: seq<Block>, fileLength: U32, blockLength: U16, p: nat)
    requires InRange(bs, fileLength, blockLength) && !TailFits(bs, fileLength, blockLength) && p < fileLength
    ensures
      var rest := (fileLength - ScanEnd(bs, 0, blockLength)) % blockLength;
      !Covers(Completed(bs, fileLength, blockLength), p)
      <==> p >= fileLength - rest && p >= fileLength - blockLength + rest
  {
    hide Added, ScanPoints, TailPoints, ScanEnd, TailFits, IsTail, Covers, Completed;
    var end := ScanEnd(bs, 0, blockLength);
    var rest := (fileLength - end) % blockLength;
    if p >= fileLength - rest && p >= fileLength - blockLength + rest {
      NoneHas(bs, fileLength, blockLength, p);
    } else {
      SomeHas(bs, fileLength, blockLength, p);
    }
  }

  lemma SomeHas(bs: seq<Block>, fileLength: U32, blockLength: U16, p: nat)
    requires InRange(bs, fileLength, blockLength) && !TailFits(bs, fileLength, blockLength)
    requires
      var rest := (fileLength - ScanEnd(bs, 0, blockLength)) % blockLength;
      p < fileLength - rest || p < fileLength - blockLength + rest
    ensures Covers(Completed(bs, fileLength, blockLength), p)
  {
    hide Added, ScanPoints, TailPoints, ScanEnd, TailFits, IsTail, Covers, Completed;
    var end := ScanEnd(bs, 0, blockLength);
    var rest := (fileLength - end) % blockLength;
    ShortTail(bs, fileLength, blockLength);
    if p < end {
      BeforeEnd(bs, fileLength, blockLength, p);
    } else if p < fileLength - rest {
      WholeHas(bs, fileLength, blockLength, p);
    } else {
      ShortHas(Completed(bs, fileLength, blockLength), fileLength - blockLength, rest, p);
    }
  }

  /** The short block at the end. */
  lemma ShortTail(bs: seq<Block>, fileLength: U32, blockLength: U16)
    requires InRange(bs, fileLength, blockLength) && !TailFits(bs, fileLength, blockLength)
    ensures
      var end := ScanEnd(bs, 0, blockLength);
      var rest := (fileLength - end) % blockLength;
      && end < fileLength && fileLength > blockLength && rest != 0
      && exists b :: b in Completed(bs, fileLength, blockLength)
           && b.inCover && b.offset == fileLength - blockLength && b.length == rest
  {
    TailExact(bs, fileLength, blockLength);
    hide Added, ScanPoints, ScanEnd;
    var added, holes := Added(bs, fileLength, blockLength), |ScanPoints(bs, 0, blockLength)|;
    var tail := added[holes..];
    var b := tail[|tail| - 1];
    assert b in Completed(bs, fileLength, blockLength);
  }

  lemma ShortHas(all: seq<Block>, offset: nat, length: nat, p: nat)
    requires exists b :: b in all && b.inCover && b.offset == offset && b.length == length
    requires offset <= p < offset + length
    ensures Covers(all, p)
  {
    var b :| b in all && b.inCover && b.offset == offset && b.length == length;
    assert b.Contains(p);
  }

  lemma WholeHas(bs: seq<Block>, fileLength: U32, blockLength: U16, p: nat)
    requires InRange(bs, fileLength, blockLength) && ScanEnd(bs, 0, blockLength) < fileLength
    requires
      var end := ScanEnd(bs, 0, blockLength);
      end <= p < fileLength - (fileLength - end) % blockLength
    ensures Covers(Completed(bs, fileLength, blockLength), p)
  {
    hide Added, ScanPoints, ScanEnd, IsTail;
    TailExact(bs, fileLength, blockLength);
    var end, holes := ScanEnd(bs, 0, blockLength), |ScanPoints(bs, 0, blockLength)|;
    var tail := Added(bs, fileLength, blockLength)[holes..];
    var k := TailHas(tail, end, fileLength, blockLength, p);
    assert tail[k] in Completed(bs, fileLength, blockLength);
  }

  /** A byte before what is left lies in a whole block. */
  lemma TailHas(tail: seq<Block>, start: nat, fileLength: U32, blockLength: U16, p: nat) returns (k: nat)
    requires blockLength > 0 && start <= fileLength && IsTail(tail, start, fileLength, blockLength)
    requires start <= p < fileLength - (fileLength - start) % blockLength
    ensures k < |tail| && tail[k].inCover && tail[k].Contains(p)
  {
    var left := fileLength - start;
    var whole := left / blockLength;
    Divided(left, blockLength);
    k := (p - start) / blockLength;
    InWhole(p - start, k, whole, blockLength);
  }

  lemma Divided(a: nat, m: nat)
    requires m > 0
    ensures a == (a / m) * m + a % m && a % m <= a
  {
  }

  /** Where the blocks at the end themselves end. */
  lemma TailEnds(tail: seq<Block>, start: nat, fileLength: U32, blockLength: U16, k: nat)
    requires blockLength > 0 && start <= fileLength && IsTail(tail, start, fileLength, blockLength)
    requires k < |tail| && fileLength > blockLength
    ensures
      var rest := (fileLength - start) % blockLength;
      tail[k].End() <= fileLength - rest || tail[k].End() == fileLength - blockLength + rest
  {
    var left := fileLength - start;
    var whole, rest := left / blockLength, left % blockLength;
    Divided(left, blockLength);
    if k < whole {
      NotLess(whole, k + 1, blockLength);
      OneMoreTime(k, blockLength);
    }
  }

  lemma OneMoreTime(k: nat, m: nat)
    ensures (k + 1) * m == k * m + m
  {
  }

  lemma InWhole(q: nat, k: nat, whole: nat, length: nat)
    requires length > 0 && k == q / length && q < whole * length
    ensures k < whole && k * length <= q < k * length + length
  {
    assert q == k * length + q % length;
    NotLess(k, whole, length);
  }

  lemma NotLess(k: nat, whole: nat, length: nat)
    ensures k >= whole ==> k * length >= whole * length
  {
  }

  lemma NoneHas(bs: seq<Block>, fileLength: U32, blockLength: U16, p: nat)
    requires InRange(bs, fileLength, blockLength) && !TailFits(bs, fileLength, blockLength) && p < fileLength
    requires
      var rest := (fileLength - ScanEnd(bs, 0, blockLength)) % blockLength;
      p >= fileLength - rest && p >= fileLength - blockLength + rest
    ensures !Covers(Completed(bs, fileLength, blockLength), p)
  {
    hide Added, TailFits;
    forall b | b in Completed(bs, fileLength, blockLength) && b.inCover ensures !b.Contains(p) {
      BehindLast(bs, fileLength, blockLength, p, b);
    }
  }

  lemma BeforeEnd(bs: seq<Block>, fileLength: U32, blockLength: U16, p: nat)
    requires InRange(bs, fileLength, blockLength) && p < ScanEnd(bs, 0, blockLength)
    ensures Covers(Completed(bs, fileLength, blockLength), p)
  {
    ScanFacts(bs, 0, blockLength);
    AddedMembers(bs, fileLength, blockLength);
    hide Added, ScanPoints, ScanEnd;
    var all := Completed(bs, fileLength, blockLength);
    if Covers(bs, p) {
      var b :| b in bs && b.inCover && b.Contains(p);
      assert b in all;
    } else {
      assert Reached(ScanPoints(bs, 0, blockLength), blockLength, p);
      var x :| x in ScanPoints(bs, 0, blockLength) && x <= p < x + blockLength;
      assert CoverBlock(x, blockLength) in all && CoverBlock(x, blockLength).Contains(p);
    }
  }

  lemma BehindLast(bs: seq<Block>, fileLength: U32, blockLength: U16, p: nat, b: Block)
    requires InRange(bs, fileLength, blockLength) && !TailFits(bs, fileLength, blockLength) && p < fileLength
    requires
      var rest := (fileLength - ScanEnd(bs, 0, blockLength)) % blockLength;
      p >= fileLength - rest && p >= fileLength - blockLength + rest
    requires b in Completed(bs, fileLength, blockLength) && b.inCover
    ensures !b.Contains(p)
  {
    hide Added, ScanPoints, TailPoints, ScanEnd, Covers, Reached, IsTail, TailFits;
    ShortTail(bs, fileLength, blockLength);
    ScanFacts(bs, 0, blockLength);
    Divided(fileLength - ScanEnd(bs, 0, blockLength), blockLength);
    if b !in bs {
      AddedEnds(bs, fileLength, blockLength, b);
    }
  }

  /** Where an added block ends. */
  lemma AddedEnds(bs: seq<Block>, fileLength: U32, blockLength: U16, b: Block)
    requires InRange(bs, fileLength, blockLength) && fileLength > blockLength
    requires b in Added(bs, fileLength, blockLength) && ScanEnd(bs, 0, blockLength) < fileLength
    ensures
      var rest := (fileLength - ScanEnd(bs, 0, blockLength)) % blockLength;
      b.End() <= fileLength - rest || b.End() == fileLength - blockLength + rest
  {
    hide Added, ScanPoints, TailPoints, ScanEnd, Covers, Reached, IsTail;
    TailExact(bs, fileLength, blockLength);
    var end, holes := ScanEnd(bs, 0, blockLength), |ScanPoints(bs, 0, blockLength)|;
    var added := Added(bs, fileLength, blockLength);
    Divided(fileLength - end, blockLength);
    var k :| 0 <= k < |added| && added[k] == b;
    if k < holes {
      HoleEnds(bs, fileLength, blockLength, k);
    } else {
      assert added[holes..][k - holes] == b;
      TailEnds(added[holes..], end, fileLength, blockLength, k - holes);
    }
  }

  lemma HoleEnds(bs: seq<Block>, fileLength: U32, blockLength: U16, k: nat)
    requires InRange(bs, fileLength, blockLength) && k < |ScanPoints(bs, 0, blockLength)|
    ensures k < |Added(bs, fileLength, blockLength)|
    ensures Added(bs, fileLength, blockLength)[k].End() <= ScanEnd(bs, 0, blockLength)
  {
    AddedParts(bs, fileLength, blockLength);
    ScanFacts(bs, 0, blockLength);
    hide Added, ScanPoints, TailPoints, ScanEnd, Covers, Reached;
    assert ScanPoints(bs, 0, blockLength)[k] in ScanPoints(bs, 0, blockLength);
  }

  /** Of a file archived for the first time that is longer than a block and not made of whole
      blocks: which bytes are lost, from its length alone. */
  lemma FirstLostBytes(fileLength: U32, blockLength: U16, p: nat)
    requires 0 < blockLength < fileLength && fileLength % blockLength != 0 && p < fileLength
    ensures
      var rest := fileLength % blockLength;
      !Covers(Completed([], fileLength, blockLength), p)
      <==> p >= Max(fileLength - rest, fileLength - blockLength + rest)
  {
    assert ScanEnd([], 0, blockLength) == 0;
    LostBytesExact([], fileLength, blockLength, p);
  }

  lemma TenInFours()
    ensures TailPoints(0, 10, 4) == [0, 4, 8] && ScanEnd([], 0, 4) == 0 && ScanPoints([], 0, 4) == []
  {
    assert TailPoints(8, 10, 4) == [8] + TailPoints(10, 10, 4);
    assert TailPoints(4, 10, 4) == [4] + TailPoints(8, 10, 4);
  }

  /** Ten bytes in blocks of four: the last block is pushed back to offset 6 but stays two
      bytes long, and the last byte of the file lies in no block. */
  lemma TenBytesInFours()
    ensures Completed([], 10, 4) == [CoverBlock(0, 4), CoverBlock(4, 4), CoverBlock(6, 2)]
    ensures !Covers(Completed([], 10, 4), 9)
  {
    hide Added, TailPoints, ScanPoints, ScanEnd, Covers;
    AddedParts([], 10, 4);
    TenInFours();
    assert TailBlocks([0, 4, 8], 10, 4) == [CoverBlock(0, 4), CoverBlock(4, 4), CoverBlock(6, 2)];
    assert GapBlocks([], 4) == [];
    NineLost();
  }

  lemma NineLost()
    ensures !Covers([CoverBlock(0, 4), CoverBlock(4, 4), CoverBlock(6, 2)], 9)
  {
  }
}
