/** Files and stored lists for which the new cover does not bring the file back: a stale block
    that overwrites it, and a hole that is filled across its end. */
module CoverFailures {
  import opened Bytes
  import opened Blocks
  import opened CoverLaws
  import opened Covering
  import opened Matching
  import opened Restore
  import opened RollingIndex
  import opened Signatures
  import opened WeakChecksum

  /** What of the weak checksum of a word is compared. */
  function Key(w: seq<Byte>): U16
    requires |w| == 4
  {
    Low16(Signed(w[2]) * 256 + Signed(w[3]))
  }

  function KeyAt(file: seq<Byte>, o: nat): U16
    requires o + 4 <= |file|
  {
    Key(file[o..o + 4])
  }

  lemma KeyIs(w: seq<Byte>)
    requires |w| == 4
    ensures Low16(Weak(w)) == Key(w)
  {
    assert w[..4] == w && w[4..] == [];
    ComparedPart(w);
    Shift(Signed(w[2]) * 256 + Signed(w[3]), Signed(w[0]) * 256 + Signed(w[1]));
  }

  /** A block as a stored list gives it back. */
  ghost predicate IsStoredBlock(b: Block, offset: nat, word: seq<Byte>, sha: Digest)
    requires |word| == 4
  {
    && b.remoteId != 0 && !b.inCover && b.offset == offset && b.length == 4
    && b.weak == Weak(word) && b.strong == sha(word)
  }

  lemma NotFound(file: seq<Byte>, sha: Digest, b: Block, offset: nat, word: seq<Byte>)
    requires |file| < TWO32 && |word| == 4 && IsStoredBlock(b, offset, word, sha)
    requires forall o: nat | o + 4 <= |file| :: KeyAt(file, o) != Key(word)
    ensures Matched(Index(file, 4), file, sha, b) == b
  {
    hide Index, Weak, Matched, Before;
    MatchExact(file, 4, sha, b);
    KeyIs(word);
    forall o: nat ensures !Offered(file, 4, b.weak, o) {
      if o + 4 <= |file| {
        KeyIs(file[o..o + 4]);
        assert KeyAt(file, o) != Key(word);
      }
    }
  }

  lemma Found(file: seq<Byte>, sha: Digest, b: Block, offset: nat, word: seq<Byte>, at: nat)
    requires |file| < TWO32 && |word| == 4 && IsStoredBlock(b, offset, word, sha)
    requires at + 4 <= |file| && file[at..at + 4] == word && at != offset
    requires forall o: nat | o + 4 <= |file| && o != at :: KeyAt(file, o) != Key(word)
    ensures Matched(Index(file, 4), file, sha, b) == b.(inCover := true, offset := at, localId := 0)
  {
    hide Index, Weak, Before;
    KeyIs(word);
    assert !Before(at, at) by {
      Irreflexive(at);
    }
    forall e: nat | e + 4 <= |file| && Before(e, at) ensures Low16(Weak(file[e..e + 4])) != Low16(b.weak) {
      KeyIs(file[e..e + 4]);
      assert KeyAt(file, e) != Key(word);
    }
    assert Offered(file, 4, b.weak, at);
    FirstIsOffered(file, 4, b.weak, at);
    assert Slice(file, at, 4) == word;
  }

  lemma Irreflexive(o: nat)
    ensures !Before(o, o)
  {
  }

  // ---- a stale block overwrites the cover ----

  const WORD_A: seq<Byte> := [10, 20, 30, 40]
  const WORD_B: seq<Byte> := [50, 60, 70, 80]

  /** The second word is gone, the first has moved, with other bytes around it. */
  const MOVED_FILE: seq<Byte> := [1, 1, 10, 20, 30, 40, 2, 2, 2, 2]

  function MovedBlock(a: Block): Block {
    a.(inCover := true, offset := 2, localId := 0)
  }

  lemma MovedKeys(o: nat)
    requires o + 4 <= |MOVED_FILE|
    ensures KeyAt(MOVED_FILE, o) != Key(WORD_B)
    ensures o != 2 ==> KeyAt(MOVED_FILE, o) != Key(WORD_A)
    ensures MOVED_FILE[2..6] == WORD_A
  {
  }

  lemma MovedList(sha: Digest, a: Block, b: Block)
    requires IsStoredBlock(a, 0, WORD_A, sha) && IsStoredBlock(b, 4, WORD_B, sha)
    ensures IsUpdate(MOVED_FILE, sha, [a, b], 4, [MovedBlock(a), b],
                     [MovedBlock(a), b, CoverBlock(0, 4), CoverBlock(6, 4)])
  {
    hide Index, Matched, Weak, KeyAt, Key;
    forall o: nat | o + 4 <= |MOVED_FILE|
      ensures KeyAt(MOVED_FILE, o) != Key(WORD_B)
      ensures o != 2 ==> KeyAt(MOVED_FILE, o) != Key(WORD_A)
    {
      MovedKeys(o);
    }
    MovedKeys(0);
    Found(MOVED_FILE, sha, a, 0, WORD_A, 2);
    NotFound(MOVED_FILE, sha, b, 4, WORD_B);
    var sorted := [MovedBlock(a), b];
    assert Reused(MOVED_FILE, sha, [a, b], 4) == sorted;
    MovedAdded(a, b);
  }

  lemma MovedAdded(a: Block, b: Block)
    requires a.length == 4 && !b.inCover && b.offset == 4 && b.length == 4
    ensures
      var sorted := [MovedBlock(a), b];
      InRange(sorted, 10, 4) && Completed(sorted, 10, 4) == sorted + [CoverBlock(0, 4), CoverBlock(6, 4)]
  {
    var sorted := [MovedBlock(a), b];
    MovedScan(a, b);
    AddedParts(sorted, 10, 4);
    hide ScanPoints, ScanEnd, TailPoints, Added;
    assert GapBlocks([0], 4) == [CoverBlock(0, 4)] && TailBlocks([6], 10, 4) == [CoverBlock(6, 4)];
  }

  lemma MovedScan(a: Block, b: Block)
    requires a.length == 4 && !b.inCover && b.offset == 4 && b.length == 4
    ensures ScanEnd([MovedBlock(a), b], 0, 4) == 6 && ScanPoints([MovedBlock(a), b], 0, 4) == [0]
    ensures TailPoints(6, 10, 4) == [6]
  {
    var bs := [MovedBlock(a), b];
    assert bs[1..] == [b] && [b][1..] == [];
    ScanStep([b], 6, 4);
    ScanStep(bs, 0, 4);
    assert GapPoints(0, 2, 4) == [0] + GapPoints(4, 2, 4) && GapEnd(0, 2, 4) == GapEnd(4, 2, 4) == 4;
    assert TailPoints(6, 10, 4) == [6] + TailPoints(10, 10, 4);
  }

  /** A stored list of two blocks, the second of which is not in the new file any more: it is
      listed, and so installed, behind the first, which has moved; two bytes of the file come
      back as those of the stale block.  From the cover alone every file of that length would
      come back. */
  lemma StaleOverwrites(sha: Digest, a: Block, b: Block)
    requires IsStoredBlock(a, 0, WORD_A, sha) && IsStoredBlock(b, 4, WORD_B, sha)
    ensures
      var updated := [MovedBlock(a), b, CoverBlock(0, 4), CoverBlock(6, 4)];
      && IsUpdate(MOVED_FILE, sha, [a, b], 4, [MovedBlock(a), b], updated)
      && WriteAll(InstalledAll(MOVED_FILE, updated, [[], WORD_B, [], []])) == [1, 1, 10, 20, 50, 60, 2, 2, 2, 2]
      && !Shielded(updated, 10) && !AlwaysRestores(updated, 10)
      && AlwaysRestores(CoverOnly(updated), 10)
  {
    hide IsUpdate;
    MovedList(sha, a, b);
    var updated := [MovedBlock(a), b, CoverBlock(0, 4), CoverBlock(6, 4)];
    MovedBack(a, b);
    assert StaleFor(updated, [[], WORD_B, [], []]);
    assert MOVED_FILE[4] == 30;
    assert !AlwaysRestores(updated, 10);
    RestoreExact(updated, 10);
    forall p: nat | p < 10 ensures CoversIntact(updated, 10, p) {
      assert updated[0] in updated && updated[2] in updated && updated[3] in updated;
      assert updated[0].Contains(p) || updated[2].Contains(p) || updated[3].Contains(p);
    }
    FilteredRestores(updated, 10, CoverOnly(updated));
  }

  lemma MovedBack(a: Block, b: Block)
    requires a.length == 4 && !b.inCover && b.offset == 4 && b.length == 4
    ensures WriteAll(InstalledAll(MOVED_FILE, [MovedBlock(a), b, CoverBlock(0, 4), CoverBlock(6, 4)],
                                  [[], WORD_B, [], []])) == [1, 1, 10, 20, 50, 60, 2, 2, 2, 2]
  {
    MovedWrites(a, b);
    var w1, w2, w3, w4 := Write(2, WORD_A), Write(4, WORD_B), Write(0, [1, 1, 10, 20]), Write(6, [2, 2, 2, 2]);
    ThreeWrites();
    LastWrite();
    hide InstalledAll, WriteAt, WriteAll;
    assert [] + [w1] == [w1] && [w1] + [w2] == [w1, w2] && [w1, w2] + [w3] == [w1, w2, w3];
    assert [w1, w2, w3] + [w4] == [w1, w2, w3, w4];
    OneMore([], w1, [], [0, 0, 10, 20, 30, 40]);
    OneMore([w1], w2, [0, 0, 10, 20, 30, 40], [0, 0, 10, 20, 50, 60, 70, 80]);
    OneMore([w1, w2], w3, [0, 0, 10, 20, 50, 60, 70, 80], [1, 1, 10, 20, 50, 60, 70, 80]);
    OneMore([w1, w2, w3], w4, [1, 1, 10, 20, 50, 60, 70, 80], [1, 1, 10, 20, 50, 60, 2, 2, 2, 2]);
  }

  lemma ThreeWrites()
    ensures WriteAll([]) == [] && WriteAt([], Write(2, WORD_A)) == [0, 0, 10, 20, 30, 40]
    ensures WriteAt([0, 0, 10, 20, 30, 40], Write(4, WORD_B)) == [0, 0, 10, 20, 50, 60, 70, 80]
    ensures WriteAt([0, 0, 10, 20, 50, 60, 70, 80], Write(0, [1, 1, 10, 20])) == [1, 1, 10, 20, 50, 60, 70, 80]
  {
    assert Zeros(2) == [0, 0];
  }

  lemma LastWrite()
    ensures WriteAt([1, 1, 10, 20, 50, 60, 70, 80], Write(6, [2, 2, 2, 2])) == [1, 1, 10, 20, 50, 60, 2, 2, 2, 2]
  {
  }

  lemma MovedWrites(a: Block, b: Block)
    requires a.length == 4 && !b.inCover && b.offset == 4 && b.length == 4
    ensures
      InstalledAll(MOVED_FILE, [MovedBlock(a), b, CoverBlock(0, 4), CoverBlock(6, 4)], [[], WORD_B, [], []])
      == [Write(2, WORD_A), Write(4, WORD_B), Write(0, [1, 1, 10, 20]), Write(6, [2, 2, 2, 2])]
  {
    assert MOVED_FILE[2..6] == WORD_A && MOVED_FILE[0..4] == [1, 1, 10, 20] && MOVED_FILE[6..10] == [2, 2, 2, 2];
  }

  lemma OneMore(ws: seq<Write>, w: Write, before: seq<Byte>, after: seq<Byte>)
    requires WriteAll(ws) == before && WriteAt(before, w) == after
    ensures WriteAll(ws + [w]) == after
  {
    assert (ws + [w])[..|ws|] == ws;
  }

  // ---- a hole is filled across the end of the file ----

  /** The file has become shorter, and none of its old words is left. */
  const CUT_FILE: seq<Byte> := [1, 1, 1, 1, 1, 1]

  /** A stored list of three blocks, none of which is found: the hole before the last one is
      filled by a block that lies across the end of the file, and the bytes from there on come
      back in no block. */
  lemma HoleAcrossEnd(sha: Digest, a: Block, b: Block, c: Block)
    requires IsStoredBlock(a, 0, WORD_A, sha) && IsStoredBlock(b, 4, WORD_B, sha) && IsStoredBlock(c, 8, WORD_A, sha)
    ensures
      var updated := [a, b, c, CoverBlock(0, 4), CoverBlock(4, 4)];
      && IsUpdate(CUT_FILE, sha, [a, b, c], 4, [a, b, c], updated)
      && Straddles([a, b, c], 6, 4) && TailFits([a, b, c], 6, 4)
      && !CoversIntact(updated, 6, 4) && !Shielded(updated, 6)
  {
    hide Index, Matched, Weak, KeyAt, Key;
    forall o: nat | o + 4 <= |CUT_FILE|
      ensures KeyAt(CUT_FILE, o) != Key(WORD_A) && KeyAt(CUT_FILE, o) != Key(WORD_B)
    {
      CutKeys(o);
    }
    NotFound(CUT_FILE, sha, a, 0, WORD_A);
    NotFound(CUT_FILE, sha, b, 4, WORD_B);
    NotFound(CUT_FILE, sha, c, 8, WORD_A);
    var bs := [a, b, c];
    assert Reused(CUT_FILE, sha, bs, 4) == bs;
    CutScan(a, b, c);
    AddedParts(bs, 6, 4);
    assert bs + [CoverBlock(0, 4), CoverBlock(4, 4)] == Completed(bs, 6, 4);
    assert 4 in ScanPoints(bs, 0, 4);
    StraddleLost(bs, 6, 4, 4);
    NotIntactNotShielded(Completed(bs, 6, 4), 6, 4);
  }

  lemma CutKeys(o: nat)
    requires o + 4 <= |CUT_FILE|
    ensures KeyAt(CUT_FILE, o) != Key(WORD_A) && KeyAt(CUT_FILE, o) != Key(WORD_B)
  {
  }

  lemma NotIntactNotShielded(bs: seq<Block>, fileLength: nat, p: nat)
    requires p < fileLength && !CoversIntact(bs, fileLength, p)
    ensures !Shielded(bs, fileLength)
  {
    forall k: nat | k < |bs| ensures !Settles(bs, fileLength, p, k) {
      assert bs[k] in bs;
    }
    assert !Settled(bs, fileLength, p);
  }

  lemma CutScan(a: Block, b: Block, c: Block)
    requires !a.inCover && !b.inCover && !c.inCover && a.offset == 0 && b.offset == 4 && c.offset == 8
    ensures ScanEnd([a, b, c], 0, 4) == 8 && ScanPoints([a, b, c], 0, 4) == [0, 4]
    ensures TailPoints(8, 6, 4) == []
  {
    var bs := [a, b, c];
    assert bs[1..] == [b, c] && [b, c][1..] == [c] && [c][1..] == [];
    assert GapPoints(4, 8, 4) == [4] + GapPoints(8, 8, 4) && GapEnd(4, 8, 4) == GapEnd(8, 8, 4) == 8;
    assert GapPoints(0, 4, 4) == [0] + GapPoints(4, 4, 4) && GapEnd(0, 4, 4) == GapEnd(4, 4, 4) == 4;
    ScanStep([c], 4, 4);
    ScanStep([b, c], 0, 4);
    ScanStep(bs, 0, 4);
  }
}
