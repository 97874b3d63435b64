/** The signature of a file and the operations of version-1/covering.c that update its
    block list in place. */
module Signatures {
  import opened Bytes
  import opened Blocks
  import opened Covering
  import opened CoverLaws
  import opened HashTables
  import opened Ids
  import opened Matching
  import opened RollingIndex

  /** The list after old blocks have been looked for in the file; an empty list is left
      alone, and no index is built for it. */
  ghost function Reused(file: seq<Byte>, sha: Digest, bs: seq<Block>, blockLength: U16): seq<Block>
    requires |file| < TWO32 && (bs != [] ==> CanIndex(blockLength))
  {
    if bs == [] then [] else MatchedAll(Index(file, blockLength), file, sha, bs)
  }

  /** What the checksum code asserts of the block length. */
  predicate CanIndex(blockLength: U16) {
    blockLength >= 4 && blockLength % 4 == 0
  }

  /** `sorted` and `updated` are a list and its completion that `cover_update_remote` may
      leave when it starts from the list `bs`. */
  ghost predicate IsUpdate(file: seq<Byte>, sha: Digest, bs: seq<Block>, blockLength: U16,
                           sorted: seq<Block>, updated: seq<Block>)
    requires |file| < TWO32 && (bs != [] ==> CanIndex(blockLength))
  {
    && IsSorting(Reused(file, sha, bs, blockLength), sorted)
    && InRange(sorted, |file|, blockLength)
    && updated == Completed(sorted, |file|, blockLength)
  }

  lemma ReusedInRange(file: seq<Byte>, sha: Digest, bs: seq<Block>, blockLength: U16)
    requires |file| < TWO32 && (bs != [] ==> CanIndex(blockLength)) && InRange(bs, |file|, blockLength)
    requires forall b :: b in bs ==> !b.inCover
    ensures InRange(Reused(file, sha, bs, blockLength), |file|, blockLength)
  {
    var r := Reused(file, sha, bs, blockLength);
    forall b | b in r ensures b.offset + blockLength <= TWO32 && b.End() < TWO32 {
      var i :| 0 <= i < |r| && r[i] == b;
      assert bs[i] in bs;
      MatchExact(file, blockLength, sha, bs[i]);
    }
  }

  /** A `Signature`: the block list of a file and, of its summary, the length. */
  class Signature {
    var blockList: seq<Block>
    var fileLength: U32

    constructor (blocks: seq<Block>, length: U32)
      ensures blockList == blocks && fileLength == length
    {
      blockList, fileLength := blocks, length;
    }

    /** The inner loop: fills the hole between `start` and `offset`. */
    method FillHole(blockLength: U16, start: U32, offset: U32) returns (soFar: U32)
      requires 0 < blockLength && offset + blockLength <= TWO32
      modifies `blockList
      ensures soFar == GapEnd(start, offset, blockLength)
      ensures Below(GapPoints(start, offset, blockLength), TWO32)
      ensures blockList == old(blockList) + GapBlocks(GapPoints(start, offset, blockLength), blockLength)
    {
      hide GapBlocks, GapPoints, GapEnd;
      soFar := start;
      ghost var points: seq<nat> := [];
      Nothing(fileLength, blockLength);
      while soFar < offset
        invariant Below(points, TWO32)
        invariant blockList == old(blockList) + GapBlocks(points, blockLength)
        invariant points + GapPoints(soFar, offset, blockLength) == GapPoints(start, offset, blockLength)
        invariant GapEnd(soFar, offset, blockLength) == GapEnd(start, offset, blockLength)
        decreases offset - soFar
      {
        GapStep(soFar, offset, blockLength);
        GapBlocksStep(points, soFar, blockLength);
        blockList := blockList + [CoverBlock(soFar, blockLength)];
        points := points + [soFar];
        soFar := soFar + blockLength;
      }
      GapStep(soFar, offset, blockLength);
      assert points == GapPoints(start, offset, blockLength);
    }

    /** The loop over the listed blocks; `sorted` is the part of the array it scans. */
    method FillHoles(blockLength: U16, sorted: seq<Block>) returns (soFar: U32)
      requires blockList == sorted && InRange(sorted, fileLength, blockLength)
      modifies `blockList
      ensures soFar == ScanEnd(sorted, 0, blockLength)
      ensures Below(ScanPoints(sorted, 0, blockLength), TWO32)
      ensures blockList == sorted + GapBlocks(ScanPoints(sorted, 0, blockLength), blockLength)
    {
      hide ScanPoints, ScanEnd, GapPoints, GapEnd, GapBlocks, Below;
      soFar := 0;
      ghost var points: seq<nat> := [];
      var i := 0;
      assert sorted[0..] == sorted;
      Nothing(fileLength, blockLength);
      while i < |sorted|
        invariant 0 <= i <= |sorted|
        invariant Below(points, TWO32)
        invariant blockList == sorted + GapBlocks(points, blockLength)
        invariant points + ScanPoints(sorted[i..], soFar, blockLength) == ScanPoints(sorted, 0, blockLength)
        invariant ScanEnd(sorted[i..], soFar, blockLength) == ScanEnd(sorted, 0, blockLength)
      {
        var block := sorted[i];
        assert sorted[i..][0] == block && sorted[i..][1..] == sorted[i + 1..];
        ghost var gap := GapPoints(soFar, block.offset, blockLength);
        ScanStep(sorted[i..], soFar, blockLength);
        soFar := FillHole(blockLength, soFar, block.offset);
        GapBlocksConcat(points, gap, blockLength);
        points := points + gap;
        if block.offset <= soFar && block.inCover {
          soFar := Max(soFar, block.offset + block.length);
        }
        i := i + 1;
      }
      assert sorted[i..] == [];
      Nothing(soFar, blockLength);
      assert points == ScanPoints(sorted, 0, blockLength);
    }

    /** The loop over the end of the file. */
    method FillTail(blockLength: U16, start: U32)
      requires blockLength > 0
      modifies `blockList
      ensures Below(TailPoints(start, fileLength, blockLength), fileLength)
      ensures blockList ==
        old(blockList) + TailBlocks(TailPoints(start, fileLength, blockLength), fileLength, blockLength)
    {
      hide TailBlocks, TailPoints, Below;
      var soFar := start;
      ghost var points: seq<nat> := [];
      NoTail(fileLength, blockLength);
      while soFar < fileLength
        invariant Below(points, fileLength)
        invariant blockList == old(blockList) + TailBlocks(points, fileLength, blockLength)
        invariant points + TailPoints(soFar, fileLength, blockLength) == TailPoints(start, fileLength, blockLength)
        decreases fileLength - soFar
      {
        TailBlocksStep(points, soFar, fileLength, blockLength);
        TailTurn(points, soFar, fileLength, blockLength);
        var dbb := CoverBlock(soFar, Min(blockLength, fileLength - soFar));
        if dbb.length < blockLength {
          if fileLength > blockLength {
            dbb := dbb.(offset := dbb.offset - (blockLength - dbb.length));
          }
        }
        blockList := blockList + [dbb];
        points := points + [soFar];
        soFar := soFar + dbb.length;
      }
      TailDone(points, soFar, fileLength, blockLength);
    }

    method CompleteCover(blockLength: U16) returns (ghost sorted: seq<Block>)
      requires InRange(blockList, fileLength, blockLength)
      modifies `blockList
      ensures IsSorting(old(blockList), sorted) && InRange(sorted, fileLength, blockLength)
      ensures blockList == sorted + Added(sorted, fileLength, blockLength)
    {
      hide Below, IsSorting, InRange, ScanPoints, ScanEnd, TailPoints, GapBlocks, TailBlocks, Added;
      var ordered := SortByOffset(blockList);
      sorted := ordered;
      SortingInRange(blockList, sorted, fileLength, blockLength);
      blockList := ordered;
      var soFar := FillHoles(blockLength, ordered);
      FillTail(blockLength, soFar);
      AddedParts(sorted, fileLength, blockLength);
    }

    /** `cover_hash`: marks and moves the blocks of the list that the file still has. */
    method CoverHash(file: seq<Byte>, sha: Digest, table: HashTable)
      requires table.Valid() && table.buckets != null
      modifies `blockList
      ensures blockList == MatchedAll(table.log, file, sha, old(blockList))
    {
      hide HashTable.Valid, Matched;
      ghost var blocks := blockList;
      var i := 0;
      while i < |blockList|
        invariant 0 <= i <= |blockList| == |blocks|
        invariant forall k | 0 <= k < i :: blockList[k] == Matched(table.log, file, sha, blocks[k])
        invariant forall k | i <= k < |blocks| :: blockList[k] == blocks[k]
      {
        var block := blockList[i];
        var found, offset := table.HashFind(block.weak);
        MatchStep(table.log, file, sha, block, found, offset);
        if found && StrongMatch(file, sha, offset, block) {
          blockList := blockList[i := block.(inCover := true)];
          if block.offset != offset {
            blockList := blockList[i := block.(inCover := true, offset := offset, localId := 0)];
          }
        }
        i := i + 1;
      }
    }

    /** `cover_update_remote`. */
    method UpdateRemote(file: seq<Byte>, sha: Digest, blockLength: U16, table: HashTable)
      returns (ghost sorted: seq<Block>)
      requires |file| < TWO32 && fileLength == |file| && table.Valid() && table.buckets == null
      requires blockList != [] ==> CanIndex(blockLength)
      requires InRange(blockList, fileLength, blockLength)
      requires forall b :: b in blockList ==> !b.inCover
      modifies `blockList, table
      ensures table.Valid() && table.buckets == null
      ensures IsUpdate(file, sha, old(blockList), blockLength, sorted, blockList)
    {
      hide Index, HashTable.Valid, Matched, InRange, IsSorting, Added, MatchedAll;
      ReusedInRange(file, sha, blockList, blockLength);
      ghost var reused := Reused(file, sha, blockList, blockLength);
      if |blockList| > 0 {
        MakeHash(file, blockLength, table);
        CoverHash(file, sha, table);
        table.HashDestroy();
      }
      assert blockList == reused;
      sorted := CompleteCover(blockLength);
    }

    /** `cover_save_local`, as long as the counter does not wrap around. */
    method SaveLocal(ids: IdCounter) returns (recorded: seq<Block>)
      requires (ids.found ==> ids.index != 0) && ids.Last() + Unsaved(blockList) < TWO32
      modifies `blockList, ids
      ensures blockList == WithIds(old(blockList), old(ids.Last()))
      ensures recorded == Recorded(old(blockList), blockList)
      ensures ids.Last() == old(ids.Last()) + Unsaved(old(blockList)) && (ids.found ==> ids.index != 0)
    {
      hide SaveInv, Unsaved, WithIds, Recorded, IdCounter.Last;
      SaveBegin(blockList, ids.Last());
      recorded := [];
      ghost var blocks, last := blockList, ids.Last();
      var i := 0;
      while i < |blockList|
        invariant i <= |blockList| == |blocks| && (ids.found ==> ids.index != 0)
        invariant SaveInv(blocks, last, i, ids.Last(), blockList, recorded)
      {
        SaveTurn(blocks, last, i, ids.Last(), blockList, recorded);
        var block, record: seq<Block> := blockList[i], [];
        if block.localId == 0 {
          var id := ids.GetNextIndex();
          block := block.(localId := id);
          blockList := blockList[i := block];
          if block.remoteId != 0 {
            record := [block];
          }
        }
        recorded := recorded + record;
        i := i + 1;
      }
      SaveEnd(blocks, last, i, ids.Last(), blockList, recorded);
    }
  }

  /** The first `i` blocks of the list have their ids; the counter stands at `now`. */
  ghost predicate SaveInv(blocks: seq<Block>, last: nat, i: nat, now: nat, list: seq<Block>, recorded: seq<Block>) {
    && i <= |blocks| && last <= now && now + Unsaved(blocks[i..]) == last + Unsaved(blocks) < TWO32
    && list == WithIds(blocks, last)[..i] + blocks[i..]
    && WithIds(blocks, last)[i..] == WithIds(blocks[i..], now)
    && recorded == Recorded(blocks[..i], WithIds(blocks, last)[..i])
  }

  lemma SaveBegin(blocks: seq<Block>, last: nat)
    requires last + Unsaved(blocks) < TWO32
    ensures SaveInv(blocks, last, 0, last, blocks, [])
  {
    assert blocks[0..] == blocks;
  }

  lemma SaveTurn(blocks: seq<Block>, last: nat, i: nat, now: nat, list: seq<Block>, recorded: seq<Block>)
    requires SaveInv(blocks, last, i, now, list, recorded) && i < |blocks|
    ensures i < |list| && (list[i].localId == 0 ==> now + 1 < TWO32)
    ensures list[i].localId != 0 ==> SaveInv(blocks, last, i + 1, now, list, recorded + [])
    ensures list[i].localId == 0 ==>
      var b := list[i].(localId := now + 1);
      SaveInv(blocks, last, i + 1, now + 1, list[i := b], recorded + if b.remoteId != 0 then [b] else [])
  {
    hide Unsaved, WithIds, Recorded;
    SaveStep(blocks, i, now);
    var all, b := WithIds(blocks, last), blocks[i];
    var n := if b.localId == 0 then 1 else 0;
    var b' := if n == 1 then b.(localId := now + 1) else b;
    assert all[i..] == [b'] + WithIds(blocks[i + 1..], now + n);
    assert all[i] == b' && all[i + 1..] == all[i..][1..];
    assert list[i] == b;
    Replaced(all, blocks, i);
    RecordedNext(blocks, all, i);
    assert recorded + [] == recorded;
  }

  lemma SaveEnd(blocks: seq<Block>, last: nat, i: nat, now: nat, list: seq<Block>, recorded: seq<Block>)
    requires SaveInv(blocks, last, i, now, list, recorded) && i == |blocks|
    ensures last + Unsaved(blocks) < TWO32 && list == WithIds(blocks, last) && now == last + Unsaved(blocks)
    ensures recorded == Recorded(blocks, list)
  {
    assert blocks[i..] == [] && blocks[..i] == blocks && WithIds(blocks, last)[..i] == WithIds(blocks, last);
  }

  lemma SaveStep(bs: seq<Block>, i: nat, last: nat)
    requires i < |bs| && last + Unsaved(bs[i..]) < TWO32
    ensures
      var n := if bs[i].localId == 0 then 1 else 0;
      && Unsaved(bs[i..]) == n + Unsaved(bs[i + 1..])
      && WithIds(bs[i..], last)
         == [if n == 1 then bs[i].(localId := last + 1) else bs[i]] + WithIds(bs[i + 1..], last + n)
  {
    assert bs[i..][0] == bs[i] && bs[i..][1..] == bs[i + 1..];
  }

  lemma Replaced(all: seq<Block>, bs: seq<Block>, i: nat)
    requires i < |bs| == |all|
    ensures (all[..i] + bs[i..])[i := all[i]] == all[..i + 1] + bs[i + 1..]
    ensures bs[i] == all[i] ==> all[..i] + bs[i..] == all[..i + 1] + bs[i + 1..]
  {
  }

  /** What the search of the table means for one block. */
  lemma MatchStep(log: seq<Entry>, file: seq<Byte>, sha: Digest, b: Block, found: bool, offset: U32)
    requires found <==> HasKey(log, b.weak)
    requires found ==> exists i: nat :: IsFirst(log, b.weak, i) && offset == log[i].value
    ensures Matched(log, file, sha, b) ==
      if found && StrongMatch(file, sha, offset, b)
      then b.(inCover := true, offset := offset, localId := if b.offset == offset then b.localId else 0)
      else b
  {
    FirstValueIs(log, b.weak);
  }
}
