/** What is found again of a file that has not changed: each whole block whose window is the
    first of its key, at its old place and under its old id.  A file of such blocks gets no new
    block, so that its ticket stays (version-1/covering.c, version-1/checksum.c). */
module Reuse {
  import opened Bytes
  import opened Blocks
  import opened CoverLaws
  import opened Covering
  import opened FewestBlocks
  import opened Ids
  import opened Matching
  import opened Messages
  import opened Protocol
  import opened ProtocolLaws
  import opened ProtocolRuns
  import opened ProtocolSafety
  import opened RollingIndex
  import opened Signatures
  import opened WeakChecksum
  import opened WorkList

  /** A whole block as the stored list gives it back, with the checksums of this part of the
      file. */
  ghost predicate IsPart(file: seq<Byte>, blockLen: U16, sha: Digest, b: Block) {
    && !b.inCover && b.length == blockLen && blockLen % 4 == 0 && b.End() <= |file|
    && Low16(b.weak) == Low16(Weak(file[b.offset..b.End()])) && b.strong == sha(file[b.offset..b.End()])
  }

  /** No window that the passes come by earlier agrees with the one at `o` in what is
      compared. */
  ghost predicate FirstOfItsKey(file: seq<Byte>, blockLen: U16, o: nat)
    requires blockLen % 4 == 0 && o + blockLen <= |file|
  {
    forall e: nat | e + blockLen <= |file| && Before(e, o) ::
      Low16(Weak(file[e..e + blockLen])) != Low16(Weak(file[o..o + blockLen]))
  }

  /** A block of an unchanged file is found at its place, and keeps its id, if and only if its
      window is the first of its key. */
  lemma UnchangedBlock(file: seq<Byte>, blockLen: U16, sha: Digest, b: Block)
    requires CanIndex(blockLen) && |file| < TWO32 && IsPart(file, blockLen, sha, b)
    ensures Matched(Index(file, blockLen), file, sha, b) == b.(inCover := true)
       <==> FirstOfItsKey(file, blockLen, b.offset)
  {
    hide Index, Matched, Weak, Before;
    MatchExact(file, blockLen, sha, b);
    var m := Matched(Index(file, blockLen), file, sha, b);
    OfferedIs(file, blockLen, b.weak, b.offset);
    if Offered(file, blockLen, b.weak, b.offset) {
      OfferedOnce(file, blockLen, b.weak, b.offset, m.offset);
    }
  }

  lemma OfferedIs(file: seq<Byte>, blockLen: U16, key: U32, o: nat)
    requires CanIndex(blockLen) && |file| < TWO32 && o + blockLen <= |file|
    requires Low16(key) == Low16(Weak(file[o..o + blockLen]))
    ensures Offered(file, blockLen, key, o) <==> FirstOfItsKey(file, blockLen, o)
  {
  }

  /** All blocks of a list are whole parts of the file, and first of their keys. */
  ghost predicate AllParts(file: seq<Byte>, blockLen: U16, sha: Digest, bs: seq<Block>) {
    blockLen % 4 == 0 &&
    forall b :: b in bs ==> IsPart(file, blockLen, sha, b) && FirstOfItsKey(file, blockLen, b.offset)
  }

  ghost predicate InSome(bs: seq<Block>, x: nat) {
    exists b :: b in bs && b.Contains(x)
  }

  /** Each byte of the file lies in a listed block. */
  ghost predicate Tiles(bs: seq<Block>, fileLength: nat) {
    forall x: nat | x < fileLength :: InSome(bs, x)
  }

  lemma UnchangedList(file: seq<Byte>, blockLen: U16, sha: Digest, bs: seq<Block>)
    requires CanIndex(blockLen) && |file| < TWO32 && AllParts(file, blockLen, sha, bs)
    ensures Reused(file, sha, bs, blockLen) == seq(|bs|, i requires 0 <= i < |bs| => bs[i].(inCover := true))
  {
    hide Index, Matched, FirstOfItsKey, Weak;
    forall i | 0 <= i < |bs| ensures Reused(file, sha, bs, blockLen)[i] == bs[i].(inCover := true) {
      assert bs[i] in bs;
      UnchangedBlock(file, blockLen, sha, bs[i]);
    }
  }

  /** When the blocks of a cover have the whole file, no block is added. */
  lemma NothingAdded(bs: seq<Block>, fileLength: U32, blockLen: U16)
    requires InRange(bs, fileLength, blockLen) && SortedByOffset(bs)
    requires forall b :: b in bs ==> b.offset <= fileLength
    requires forall x: nat | x < fileLength :: Covers(bs, x)
    ensures Added(bs, fileLength, blockLen) == []
  {
    hide Added, Points, ScanPoints, ScanEnd, TailPoints, Covers;
    var points := Points(bs, fileLength, blockLen);
    assert points != [] ==> points[0] in points;
    PointsFree(bs, fileLength, blockLen);
    PointsInside(bs, fileLength, blockLen);
  }

  lemma PointsInside(bs: seq<Block>, fileLength: U32, blockLen: U16)
    requires InRange(bs, fileLength, blockLen) && forall b :: b in bs ==> b.offset <= fileLength
    ensures forall x :: x in Points(bs, fileLength, blockLen) ==> x < fileLength
  {
    ScanPointsBelow(bs, 0, blockLen);
    TailFacts(ScanEnd(bs, 0, blockLen), fileLength, blockLen);
    forall x | x in Points(bs, fileLength, blockLen) ensures x < fileLength {
      if x in ScanPoints(bs, 0, blockLen) {
        var b :| b in bs && x < b.offset;
      }
    }
  }

  /** An unchanged file that its listed blocks make up gets no new block, whichever order
      sorting leaves. */
  lemma UnchangedFile(file: seq<Byte>, blockLen: U16, sha: Digest, bs: seq<Block>, sorted: seq<Block>)
    requires CanIndex(blockLen) && |file| < TWO32 && AllParts(file, blockLen, sha, bs) && Tiles(bs, |file|)
    requires IsSorting(Reused(file, sha, bs, blockLen), sorted) && InRange(sorted, |file|, blockLen)
    ensures Completed(sorted, |file|, blockLen) == sorted && |sorted| == |bs|
  {
    hide Reused, Added, FirstOfItsKey, Weak, InRange;
    UnchangedList(file, blockLen, sha, bs);
    var reused := Reused(file, sha, bs, blockLen);
    SortingSameBlocks(reused, sorted);
    forall b | b in sorted ensures b.offset <= |file| {
      var i :| 0 <= i < |reused| && reused[i] == b;
      assert bs[i] in bs;
    }
    forall x: nat | x < |file| ensures Covers(sorted, x) {
      assert InSome(bs, x);
      var b :| b in bs && b.Contains(x);
      var i :| 0 <= i < |bs| && bs[i] == b;
      assert reused[i] in reused && reused[i].Contains(x);
    }
    NothingAdded(sorted, |file|, blockLen);
  }

  // ---- over a run ----

  /** A whole block of an archived list, as it is given back, is a part of its file. */
  lemma SavedParts(p: Params, states: seq<Sys>, steps: seq<Step>, n: nat, f: U32, i: nat)
    requires GoodParams(p) && IsRun(p, states, steps) && n <= |steps| && f in states[n].client.saved
    requires i < |states[n].client.saved[f].blocks|
    requires
      var v := states[n].client.saved[f];
      v.blocks[i].inCover && v.blocks[i].length == p.blockLength && v.blocks[i].End() <= |v.file|
    ensures
      var v := states[n].client.saved[f];
      IsPart(v.file, p.blockLength, p.sha, Persistent(v.blocks[i]))
  {
    hide Weak, Next, Enabled;
    ChecksumsSaved(p, states, steps, n, f, i);
  }

  /** So archiving a file again finds such a block, from the archived list, at its place. */
  lemma FoundAgain(p: Params, states: seq<Sys>, steps: seq<Step>, n: nat, f: U32, i: nat)
    requires GoodParams(p) && IsRun(p, states, steps) && n <= |steps| && f in states[n].client.saved
    requires i < |states[n].client.saved[f].blocks|
    requires
      var v := states[n].client.saved[f];
      v.blocks[i].inCover && v.blocks[i].length == p.blockLength && v.blocks[i].End() <= |v.file|
    ensures
      var v := states[n].client.saved[f];
      && |v.file| < TWO32
      && (Matched(Index(v.file, p.blockLength), v.file, p.sha, Persistent(v.blocks[i])) == v.blocks[i]
          <==> FirstOfItsKey(v.file, p.blockLength, v.blocks[i].offset))
  {
    hide Weak, Next, Enabled, Matched, Index, FirstOfItsKey, IsPart, Inv, Planned;
    RunKeeps(p, states, steps, n);
    SavedLength(p, states[n], f);
    SavedParts(p, states, steps, n, f, i);
    var v := states[n].client.saved[f];
    UnchangedBlock(v.file, p.blockLength, p.sha, Persistent(v.blocks[i]));
    assert Persistent(v.blocks[i]).(inCover := true) == v.blocks[i];
  }

  lemma SavedLength(p: Params, s: Sys, f: U32)
    requires Inv(p, s) && f in s.client.saved
    ensures |s.client.saved[f].file| < TWO32
  {
    hide UnderWay, TicketInv, StoredList, HasList;
  }

  /** An archived list of whole blocks of the cover that make up the file, with windows that are
      the first of their keys. */
  ghost predicate WholeList(p: Params, v: Saved) {
    && (forall i :: 0 <= i < |v.blocks| ==>
          && v.blocks[i].inCover && v.blocks[i].length == p.blockLength && v.blocks[i].End() <= |v.file|
          && p.blockLength % 4 == 0 && FirstOfItsKey(v.file, p.blockLength, v.blocks[i].offset))
    && Tiles(v.blocks, |v.file|)
  }

  /** A file archived once is such, if it is made of whole blocks with first windows. */
  lemma FirstWhole(p: Params, v: Saved)
    requires GoodParams(p) && Planned(p, v.file, v.blocks, []) && |v.file| % p.blockLength == 0
    requires forall k: nat | k + p.blockLength <= |v.file| && k % p.blockLength == 0 ::
      FirstOfItsKey(v.file, p.blockLength, k)
    ensures WholeList(p, v)
  {
    hide FirstOfItsKey, Planned, GoodParams, Tiles;
    GoodLength(p);
    FirstPlaces(p, v);
    var l := p.blockLength;
    forall i | 0 <= i < |v.blocks|
      ensures
        && v.blocks[i].inCover && v.blocks[i].length == l && v.blocks[i].End() <= |v.file|
        && FirstOfItsKey(v.file, l, v.blocks[i].offset)
    {
      Multiple(i, |v.blocks|, l);
    }
    PlacesTile(v.blocks, |v.blocks|, l);
  }

  lemma PlacesTile(bs: seq<Block>, n: nat, l: nat)
    requires l > 0 && |bs| == n
    requires forall i: nat | i < n :: bs[i].offset == i * l && bs[i].length == l
    ensures Tiles(bs, n * l)
  {
    forall x: nat | x < n * l ensures InSome(bs, x) {
      InWhole(x, x / l, n, l);
      assert bs[x / l].Contains(x);
    }
  }

  lemma FirstPlaces(p: Params, v: Saved)
    requires CanIndex(p.blockLength) && Planned(p, v.file, v.blocks, []) && |v.file| % p.blockLength == 0
    ensures |v.file| == |v.blocks| * p.blockLength
    ensures forall i: nat | i < |v.blocks| ::
      v.blocks[i].inCover && v.blocks[i].offset == i * p.blockLength && v.blocks[i].length == p.blockLength
  {
    hide Completed, InRange;
    FirstListExact(|v.file|, p.blockLength);
    Divided(|v.file|, p.blockLength);
  }

  lemma GoodLength(p: Params)
    requires GoodParams(p)
    ensures CanIndex(p.blockLength)
  {
  }

  lemma Multiple(i: nat, n: nat, l: nat)
    requires i < n && l > 0
    ensures i * l + l <= n * l && (i * l) % l == 0
  {
    Wholes(i, n, l, 0);
    ModUnique(i * l, l, i, 0);
  }

  /** A file archived again without a change, all of whose blocks are found at their places, has
      no new block: when its list has come, its ticket is one of those that stay. */
  lemma UnchangedStays(p: Params, states: seq<Sys>, steps: seq<Step>, n: nat)
    requires GoodParams(p) && IsRun(p, states, steps) && n < |steps| && steps[n].Receive?
    requires states[n].client.mode == Archive && states[n].s2c[0].GetAck?
    requires states[n].s2c[0].blockId == 0 && states[n].s2c[0].payload != []
    requires
      var c, f := states[n].client, states[n].s2c[0].fileId;
      f in c.tickets && f in c.saved && c.tickets[f].file == c.saved[f].file && WholeList(p, c.saved[f])
    ensures NoNewBlock(states[n + 1].client, states[n].s2c[0].fileId)
  {
    hide SavedInv, UnderWay, WholeList, DecodeList, StoredList, HasList, Opens, Plain, Fits, Answer, Reused, Completed,
         WithIds, Unsaved, IsSorting, InRange;
    var s, e := states[n], steps[n];
    var GetAck(f, _, data) := s.s2c[0];
    RunKeeps(p, states, steps, n);
    var c, store := s.client, s.server.store;
    FirstUnderWay(s, f);
    assert TicketInv(p, c, store, f, UnderWay(s, f));
    Listed(p, c, store, f, UnderWay(s, f));
    WholeParts(p, states, steps, n, f);
    UnchangedFile(c.tickets[f].file, p.blockLength, p.sha, PersistentAll(c.saved[f].blocks), e.sorted);
  }

  lemma WholeParts(p: Params, states: seq<Sys>, steps: seq<Step>, n: nat, f: U32)
    requires GoodParams(p) && IsRun(p, states, steps) && n <= |steps| && f in states[n].client.saved
    requires WholeList(p, states[n].client.saved[f])
    ensures
      var v := states[n].client.saved[f];
      && |v.file| < TWO32 && AllParts(v.file, p.blockLength, p.sha, PersistentAll(v.blocks))
      && Tiles(PersistentAll(v.blocks), |v.file|)
  {
    hide Weak, Next, Enabled, FirstOfItsKey, IsPart, Inv, Planned;
    RunKeeps(p, states, steps, n);
    SavedLength(p, states[n], f);
    var v := states[n].client.saved[f];
    var list := PersistentAll(v.blocks);
    forall b | b in list
      ensures IsPart(v.file, p.blockLength, p.sha, b) && FirstOfItsKey(v.file, p.blockLength, b.offset)
    {
      var i :| 0 <= i < |list| && list[i] == b;
      SavedParts(p, states, steps, n, f, i);
    }
    forall x: nat | x < |v.file| ensures InSome(list, x) {
      assert InSome(v.blocks, x);
      var b :| b in v.blocks && b.Contains(x);
      var i :| 0 <= i < |v.blocks| && v.blocks[i] == b;
      assert list[i] in list && list[i].Contains(x);
    }
  }
}
