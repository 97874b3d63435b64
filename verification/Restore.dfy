/** Rebuilding a file by writing blocks at their offsets, `install_block` of
    version-1/protocol.c, and which block lists do so for every file and whatever the
    blocks that are no longer part of the file may hold. */
module Restore {
  import opened Bytes
  import opened Blocks
  import opened Covering
  import opened CoverLaws

  /** One `fseek` and `fwrite`; nothing is written for an empty block. */
  datatype Write = Write(offset: nat, data: seq<Byte>)
  {
    predicate Hits(p: nat) {
      offset <= p < offset + |data|
    }
  }

  /** Writing behind the end of a file leaves a hole of zeros. */
  function WriteAt(content: seq<Byte>, w: Write): seq<Byte> {
    if w.data == [] then content
    else if w.offset >= |content| then content + Zeros(w.offset - |content|) + w.data
    else content[..w.offset] + w.data
         + if w.offset + |w.data| < |content| then content[w.offset + |w.data|..] else []
  }

  /** The file after the writes, in order, to an empty one. */
  function WriteAll(ws: seq<Write>): seq<Byte> {
    if ws == [] then [] else WriteAt(WriteAll(ws[..|ws| - 1]), ws[|ws| - 1])
  }

  /** The last write that hits byte `p` decides it. */
  function LastByte(ws: seq<Write>, p: nat): Byte {
    if ws == [] then 0
    else
      var w := ws[|ws| - 1];
      if w.Hits(p) then w.data[p - w.offset] else LastByte(ws[..|ws| - 1], p)
  }

  function Extent(ws: seq<Write>): nat {
    if ws == [] then 0
    else
      var w, before := ws[|ws| - 1], Extent(ws[..|ws| - 1]);
      if w.data == [] then before else Max(before, w.offset + |w.data|)
  }

  lemma {:induction false} WriteAllIs(ws: seq<Write>)
    ensures |WriteAll(ws)| == Extent(ws)
    ensures forall p :: 0 <= p < Extent(ws) ==> WriteAll(ws)[p] == LastByte(ws, p)
  {
    if ws != [] {
      var front, w := ws[..|ws| - 1], ws[|ws| - 1];
      WriteAllIs(front);
      PastExtent(front);
      hide WriteAt;
      WriteAtIs(WriteAll(front), w);
    }
  }

  /** A byte after a write: that of the write, or the one before, or zero in a hole. */
  lemma WriteAtIs(content: seq<Byte>, w: Write)
    ensures
      var r := WriteAt(content, w);
      && |r| == (if w.data == [] then |content| else Max(|content|, w.offset + |w.data|))
      && forall p :: 0 <= p < |r| ==>
           r[p] == if w.Hits(p) then w.data[p - w.offset] else if p < |content| then content[p] else 0
  {
  }

  /** No write hits a byte at or behind the extent. */
  lemma {:induction false} PastExtent(ws: seq<Write>)
    ensures forall p: nat :: p >= Extent(ws) ==> LastByte(ws, p) == 0
    ensures forall w :: w in ws && w.data != [] ==> w.offset + |w.data| <= Extent(ws)
  {
    if ws != [] {
      PastExtent(ws[..|ws| - 1]);
      assert ws == ws[..|ws| - 1] + [ws[|ws| - 1]];
    }
  }

  /** What installing a listed block writes.  A cover block that lies inside the file holds
      that part of the file.  One that runs past the end was sent with a digest of the part
      inside only; it is taken for an imposter and not installed.  A block that is not in
      the new cover still holds what it held. */
  function Installed(file: seq<Byte>, b: Block, stale: seq<Byte>): Write {
    if !b.inCover then Write(b.offset, stale)
    else if b.End() <= |file| then Write(b.offset, file[b.offset..b.End()])
    else Write(b.offset, [])
  }

  function InstalledAll(file: seq<Byte>, bs: seq<Block>, stale: seq<seq<Byte>>): (ws: seq<Write>)
    requires |stale| == |bs|
    ensures |ws| == |bs|
  {
    seq(|bs|, i requires 0 <= i < |bs| => Installed(file, bs[i], stale[i]))
  }

  /** The contents that the blocks outside the cover may have, or nothing for one that is
      taken for an imposter. */
  ghost predicate StaleFor(bs: seq<Block>, stale: seq<seq<Byte>>) {
    |stale| == |bs| && forall i :: 0 <= i < |bs| ==> |stale[i]| == bs[i].length || stale[i] == []
  }

  /** Every file of the given length is rebuilt, whatever the stale blocks hold. */
  ghost predicate AlwaysRestores(bs: seq<Block>, fileLength: nat) {
    forall file: seq<Byte>, stale: seq<seq<Byte>> | |file| == fileLength && StaleFor(bs, stale) ::
      WriteAll(InstalledAll(file, bs, stale)) == file
  }

  /** Block `k` has byte `p`, lies inside the file, and no stale block listed later has it. */
  ghost predicate Settles(bs: seq<Block>, fileLength: nat, p: nat, k: nat) {
    && k < |bs| && bs[k].inCover && bs[k].Contains(p) && bs[k].End() <= fileLength
    && forall j :: k < j < |bs| && bs[j].Contains(p) ==> bs[j].inCover
  }

  ghost predicate Settled(bs: seq<Block>, fileLength: nat, p: nat) {
    exists k: nat :: Settles(bs, fileLength, p, k)
  }

  /** Each byte is settled, and no stale block reaches past the end of the file. */
  ghost predicate Shielded(bs: seq<Block>, fileLength: nat) {
    && (forall p: nat | p < fileLength :: Settled(bs, fileLength, p))
    && (forall b :: b in bs && !b.inCover && b.length > 0 ==> b.End() <= fileLength)
  }

  lemma {:induction false} SettledByte(file: seq<Byte>, bs: seq<Block>, stale: seq<seq<Byte>>, p: nat, k: nat)
    requires StaleFor(bs, stale) && p < |file| && Settles(bs, |file|, p, k)
    ensures LastByte(InstalledAll(file, bs, stale), p) == file[p]
  {
    var n := |bs| - 1;
    var ws := InstalledAll(file, bs, stale);
    if !ws[n].Hits(p) {
      assert ws[..n] == InstalledAll(file, bs[..n], stale[..n]);
      SettledByte(file, bs[..n], stale[..n], p, k);
    }
  }

  /** A byte that takes the value 1 of a file of ones, when stale blocks hold twos, is
      settled by some block. */
  lemma {:induction false} OnlySettled(fileLength: nat, bs: seq<Block>, p: nat)
    requires p < fileLength
    requires LastByte(InstalledAll(Repeat(1, fileLength), bs, Twos(bs)), p) == 1
    ensures Settled(bs, fileLength, p)
  {
    if bs != [] {
      var n := |bs| - 1;
      var file := Repeat(1, fileLength);
      var ws := InstalledAll(file, bs, Twos(bs));
      if ws[n].Hits(p) {
        assert Settles(bs, fileLength, p, n);
      } else {
        assert ws[..n] == InstalledAll(file, bs[..n], Twos(bs[..n]));
        OnlySettled(fileLength, bs[..n], p);
        assert Settled(bs[..n], fileLength, p);
        var k: nat :| Settles(bs[..n], fileLength, p, k);
        assert bs[n].Contains(p) ==> bs[n].inCover;
        assert Settles(bs, fileLength, p, k);
      }
    }
  }

  function Repeat(b: Byte, n: nat): (s: seq<Byte>)
    ensures |s| == n
  {
    seq(n, _ => b)
  }

  function Twos(bs: seq<Block>): (stale: seq<seq<Byte>>)
    ensures |stale| == |bs|
  {
    seq(|bs|, i requires 0 <= i < |bs| => Repeat(2, bs[i].length))
  }

  /** Restoring, exactly: a list rebuilds every file of the given length, whatever its stale
      blocks hold, if and only if each byte is settled by a block of the cover and no stale
      block reaches past the end.  One file decides it: without that, a file of ones is not
      rebuilt when the stale blocks hold twos. */
  lemma RestoreExact(bs: seq<Block>, fileLength: nat)
    ensures AlwaysRestores(bs, fileLength) <==> Shielded(bs, fileLength)
    ensures Shielded(bs, fileLength) <==>
      WriteAll(InstalledAll(Repeat(1, fileLength), bs, Twos(bs))) == Repeat(1, fileLength)
    ensures StaleFor(bs, Twos(bs))
  {
    assert StaleFor(bs, Twos(bs));
    if WriteAll(InstalledAll(Repeat(1, fileLength), bs, Twos(bs))) == Repeat(1, fileLength) {
      RestoringShields(bs, fileLength);
    }
    if Shielded(bs, fileLength) {
      forall file: seq<Byte>, stale: seq<seq<Byte>> | |file| == fileLength && StaleFor(bs, stale)
        ensures WriteAll(InstalledAll(file, bs, stale)) == file
      {
        ShieldedRestores(file, bs, stale);
      }
    }
  }

  lemma ShieldedRestores(file: seq<Byte>, bs: seq<Block>, stale: seq<seq<Byte>>)
    requires StaleFor(bs, stale) && Shielded(bs, |file|)
    ensures WriteAll(InstalledAll(file, bs, stale)) == file
  {
    var ws := InstalledAll(file, bs, stale);
    WriteAllIs(ws);
    forall p: nat | p < |file| ensures LastByte(ws, p) == file[p] {
      assert Settled(bs, |file|, p);
      var k: nat :| Settles(bs, |file|, p, k);
      SettledByte(file, bs, stale, p, k);
    }
    forall w | w in ws && w.data != [] ensures w.offset + |w.data| <= |file| {
      var i :| 0 <= i < |ws| && ws[i] == w;
      assert bs[i] in bs;
    }
    ExtentAtMost(ws, |file|);
    if |file| > 0 {
      var p := |file| - 1;
      assert Settled(bs, |file|, p);
      var k: nat :| Settles(bs, |file|, p, k);
      assert ws[k].Hits(p) && ws[k] in ws;
      PastExtent(ws);
    }
  }

  /** These parts are enough for a file: they have its last byte, and each byte of it that they
      have not is zero, as a hole is. */
  ghost predicate Enough(file: seq<Byte>, bs: seq<Block>) {
    && (file == [] || Covers(bs, |file| - 1))
    && forall p: nat | p < |file| && !Covers(bs, p) :: file[p] == 0
  }

  /** From blocks of the cover alone, all inside the file, exactly the files come back for which
      these are enough. */
  lemma EnoughExact(file: seq<Byte>, bs: seq<Block>, stale: seq<seq<Byte>>)
    requires StaleFor(bs, stale) && forall b :: b in bs ==> b.inCover && b.End() <= |file|
    ensures WriteAll(InstalledAll(file, bs, stale)) == file <==> Enough(file, bs)
  {
    hide WriteAll, LastByte, Extent;
    var ws := InstalledAll(file, bs, stale);
    WriteAllIs(ws);
    InsideExtent(file, bs, stale);
    forall p: nat | p < |file| ensures LastByte(ws, p) == if Covers(bs, p) then file[p] else 0 {
      InsideByte(file, bs, stale, p);
    }
  }

  /** The extent is the file's exactly if its last byte is covered. */
  lemma InsideExtent(file: seq<Byte>, bs: seq<Block>, stale: seq<seq<Byte>>)
    requires StaleFor(bs, stale) && forall b :: b in bs ==> b.inCover && b.End() <= |file|
    ensures Extent(InstalledAll(file, bs, stale)) <= |file|
    ensures Extent(InstalledAll(file, bs, stale)) == |file| <==> file == [] || Covers(bs, |file| - 1)
  {
    hide Extent;
    var ws := InstalledAll(file, bs, stale);
    forall i | 0 <= i < |ws| ensures ws[i].offset + |ws[i].data| == bs[i].End() <= |file| {
      assert bs[i] in bs;
    }
    ExtentAtMost(ws, |file|);
    PastExtent(ws);
    if file != [] && Covers(bs, |file| - 1) {
      var b :| b in bs && b.inCover && b.Contains(|file| - 1);
      var i :| 0 <= i < |bs| && bs[i] == b;
      assert ws[i] in ws;
    } else if file != [] {
      forall w | w in ws ensures w.data == [] || w.offset + |w.data| <= |file| - 1 {
        var i :| 0 <= i < |ws| && ws[i] == w;
        assert bs[i] in bs;
      }
      ExtentAtMost(ws, |file| - 1);
    }
  }

  lemma {:induction false} InsideByte(file: seq<Byte>, bs: seq<Block>, stale: seq<seq<Byte>>, p: nat)
    requires StaleFor(bs, stale) && p < |file| && forall b :: b in bs ==> b.inCover && b.End() <= |file|
    ensures LastByte(InstalledAll(file, bs, stale), p) == if Covers(bs, p) then file[p] else 0
  {
    if bs != [] {
      hide Covers, LastByte;
      var n := |bs| - 1;
      assert bs[n] in bs;
      var ws := InstalledAll(file, bs, stale);
      assert ws[..n] == InstalledAll(file, bs[..n], stale[..n]);
      InsideByte(file, bs[..n], stale[..n], p);
      LastOf(ws, p);
      CoversLast(bs, p);
    }
  }

  lemma LastOf(ws: seq<Write>, p: nat)
    requires ws != []
    ensures
      var w := ws[|ws| - 1];
      LastByte(ws, p) == if w.Hits(p) then w.data[p - w.offset] else LastByte(ws[..|ws| - 1], p)
  {
  }

  lemma CoversLast(bs: seq<Block>, p: nat)
    requires bs != []
    ensures
      var b := bs[|bs| - 1];
      Covers(bs, p) <==> Covers(bs[..|bs| - 1], p) || (b.inCover && b.Contains(p))
  {
    var n := |bs| - 1;
    assert bs == bs[..n] + [bs[n]];
    assert bs[n] in bs;
    if Covers(bs[..n], p) {
      var c :| c in bs[..n] && c.inCover && c.Contains(p);
      assert c in bs;
    }
  }

  lemma {:induction false} ExtentAtMost(ws: seq<Write>, n: nat)
    requires forall w :: w in ws && w.data != [] ==> w.offset + |w.data| <= n
    ensures Extent(ws) <= n
  {
    if ws != [] {
      ExtentAtMost(ws[..|ws| - 1], n);
    }
  }

  lemma RestoringShields(bs: seq<Block>, fileLength: nat)
    requires WriteAll(InstalledAll(Repeat(1, fileLength), bs, Twos(bs))) == Repeat(1, fileLength)
    ensures Shielded(bs, fileLength)
  {
    var file, stale := Repeat(1, fileLength), Twos(bs);
    var ws := InstalledAll(file, bs, stale);
    WriteAllIs(ws);
    forall p: nat | p < fileLength ensures Settled(bs, fileLength, p) {
      OnlySettled(fileLength, bs, p);
    }
    PastExtent(ws);
    forall b | b in bs && !b.inCover && b.length > 0 ensures b.End() <= fileLength {
      var i :| 0 <= i < |bs| && bs[i] == b;
      assert ws[i] in ws;
    }
  }

  /** Without stale blocks the order in which blocks are installed is of no account: what
      counts is that each byte lies in a cover block inside the file. */
  lemma ShieldedInAnyOrder(bs: seq<Block>, fileLength: nat)
    requires forall b :: b in bs ==> b.inCover
    ensures Shielded(bs, fileLength) <==> forall p: nat | p < fileLength :: CoversIntact(bs, fileLength, p)
  {
    forall p: nat | p < fileLength
      ensures Settled(bs, fileLength, p) <==> CoversIntact(bs, fileLength, p)
    {
      if CoversIntact(bs, fileLength, p) {
        var b :| b in bs && b.inCover && b.Contains(p) && b.End() <= fileLength;
        var k :| 0 <= k < |bs| && bs[k] == b;
        assert forall j :: 0 <= j < |bs| ==> bs[j] in bs;
        assert Settles(bs, fileLength, p, k);
      }
      if k: nat :| Settles(bs, fileLength, p, k) {
        assert bs[k] in bs;
      }
    }
  }

  /** When the last byte of a file lies in no block, and no block is stale, the file is never
      rebuilt: what comes back is shorter. */
  lemma LastByteLost(file: seq<Byte>, bs: seq<Block>, stale: seq<seq<Byte>>)
    requires file != [] && StaleFor(bs, stale) && forall b :: b in bs ==> b.inCover
    requires !Covers(bs, |file| - 1)
    ensures |WriteAll(InstalledAll(file, bs, stale))| < |file|
  {
    var ws := InstalledAll(file, bs, stale);
    forall w | w in ws && w.data != [] ensures w.offset + |w.data| <= |file| - 1 {
      var i :| 0 <= i < |ws| && ws[i] == w;
      assert bs[i] in bs && !bs[i].Contains(|file| - 1);
    }
    ExtentAtMost(ws, |file| - 1);
    WriteAllIs(ws);
  }

  /** The blocks of the new cover only. */
  function CoverOnly(bs: seq<Block>): seq<Block> {
    if bs == [] then []
    else (if bs[0].inCover then [bs[0]] else []) + CoverOnly(bs[1..])
  }

  lemma CoverOnlyMembers(bs: seq<Block>)
    ensures forall b :: b in CoverOnly(bs) <==> b in bs && b.inCover
  {
  }

  /** Were only the cover written to the stored list, the file would be rebuilt exactly when
      each byte lies in a cover block inside the file, in any order of installation. */
  lemma FilteredRestores(bs: seq<Block>, fileLength: nat, order: seq<Block>)
    requires multiset(order) == multiset(CoverOnly(bs))
    ensures AlwaysRestores(order, fileLength) <==> forall p: nat | p < fileLength :: CoversIntact(bs, fileLength, p)
  {
    CoverOnlyMembers(bs);
    forall b ensures b in order <==> b in bs && b.inCover {
      assert b in multiset(order) <==> b in multiset(CoverOnly(bs));
    }
    forall p: nat ensures CoversIntact(order, fileLength, p) <==> CoversIntact(bs, fileLength, p) {
    }
    RestoreExact(order, fileLength);
    ShieldedInAnyOrder(order, fileLength);
  }

  /** The list of a file archived for the first time rebuilds every file of its length
      exactly when the file is at most one block long or is made of whole blocks. */
  lemma FirstArchiveRestores(fileLength: U32, blockLength: U16)
    requires blockLength > 0
    ensures AlwaysRestores(Completed([], fileLength, blockLength), fileLength)
       <==> fileLength <= blockLength || fileLength % blockLength == 0
  {
    var bs := Completed([], fileLength, blockLength);
    FirstCoverExact(fileLength, blockLength);
    AddedMembers([], fileLength, blockLength);
    assert bs == Added([], fileLength, blockLength);
    RestoreExact(bs, fileLength);
    ShieldedInAnyOrder(bs, fileLength);
    forall p: nat ensures CoversIntact(bs, fileLength, p) <==> Covers(bs, p) {
    }
  }

  /** A list of old blocks that were all found in the file is completed to one that rebuilds
      every file of its length exactly when the tail fits. */
  lemma ReusedListRestores(sorted: seq<Block>, fileLength: U32, blockLength: U16)
    requires InRange(sorted, fileLength, blockLength) && SortedByOffset(sorted)
    requires forall b :: b in sorted ==> b.inCover && FoundIn(b, fileLength, blockLength)
    ensures AlwaysRestores(Completed(sorted, fileLength, blockLength), fileLength)
       <==> TailFits(sorted, fileLength, blockLength)
  {
    hide Straddles, TailFits, CoversIntact, Shielded, AlwaysRestores, Added;
    var bs := Completed(sorted, fileLength, blockLength);
    AddedMembers(sorted, fileLength, blockLength);
    AddedInside(sorted, fileLength, blockLength);
    IntactExact(sorted, fileLength, blockLength);
    RestoreExact(bs, fileLength);
    ShieldedInAnyOrder(bs, fileLength);
  }
}
