/** From a file to its backup and back: what extractions recover, in any run that archived
    the files before, and when that is a file itself. */
module EndToEnd {
  import opened Bytes
  import opened Blocks
  import opened CoverLaws
  import opened Covering
  import opened Messages
  import opened Protocol
  import opened ProtocolLaws
  import opened ProtocolRuns
  import opened ProtocolSafety
  import opened Recovery
  import opened Restore

  /** No beginning of the data stored for a cover block has the digest of the part of the file
      that the block stands for, unless it is that part. */
  ghost predicate Trusted(p: Params, store: map<U32, seq<Byte>>, file: seq<Byte>, b: Block) {
    b.inCover && b.remoteId in store ==>
      var plain, part := Plain(p, store[b.remoteId]), Slice(file, b.offset, b.length);
      forall n | 0 <= n <= |plain| :: p.sha(plain[..n]) == p.sha(part) ==> plain[..n] == part
  }

  /** The digests of one archived file do not collide. */
  ghost predicate NoCollisions(p: Params, store: map<U32, seq<Byte>>, v: Saved) {
    forall b :: b in v.blocks ==> Trusted(p, store, v.file, b)
  }

  /** What the server holds for a block is installed as the part of the file that the block
      stands for, unless the block runs past the end: then it is rejected. */
  lemma InstallsItsPart(p: Params, store: map<U32, seq<Byte>>, file: seq<Byte>, b: Block)
    requires Trusted(p, store, file, b) && IsStored(p, store, b) && IsTrue(p, file, b)
    ensures
      var w := Install(p, Persistent(b), Plain(p, store[b.remoteId]));
      if b.inCover then w == Installed(file, b, [])
      else w == Installed(file, b, w.data) && (|w.data| == b.length || w.data == [])
  {
    var plain := Plain(p, store[b.remoteId]);
    assert plain[..Low16(|plain|)] == plain;
    if b.inCover {
      var part := Slice(file, b.offset, b.length);
      var n :| 0 <= n <= b.length && p.sha(plain[..n]) == b.strong;
      assert plain[..n] == part;
      if b.End() <= |file| {
        assert plain[..n] == plain;
      } else {
        assert b.length > 0 ==> |part| < |plain|;
      }
    }
  }

  // ---- what the recovered file holds ----

  /** The listed block that an entry of the log stands for, as seen from file `f`: blocks of
      other files are stale. */
  function SeenFrom(saved: map<U32, Saved>, f: U32, e: Placed): Block {
    if e.fileId in saved && e.index < |saved[e.fileId].blocks| then
      var b := saved[e.fileId].blocks[e.index];
      if e.fileId == f then b else b.(inCover := false)
    else BLANK_BLOCK
  }

  /** The blocks written since the recovered file was last opened, in that order. */
  function Merged(c: Client, f: U32): (bs: seq<Block>)
    ensures |bs| == |c.log|
  {
    seq(|c.log|, i requires 0 <= i < |c.log| => SeenFrom(c.saved, f, c.log[i]))
  }

  /** State `n` of a run is at rest, an extraction of a file is part of it, and there is a
      summary of the file, whose digests do not collide. */
  ghost predicate Extracted(p: Params, states: seq<Sys>, steps: seq<Step>, n: nat, f: U32) {
    && GoodParams(p) && IsRun(p, states, steps) && n <= |steps| && AtRest(states[n])
    && f in states[n].client.tickets && states[n].client.tickets[f].action == Extract
    && f in states[n].client.saved && NoCollisions(p, states[n].server.store, states[n].client.saved[f])
  }

  /** At rest, a ticket that extracts has all blocks of the stored list, if that came. */
  lemma RestingList(p: Params, s: Sys, g: U32)
    requires GoodParams(p) && Inv(p, s) && AtRest(s) && g in s.client.tickets && s.client.mode == Extract
    ensures s.client.tickets[g].action == Extract && g in s.client.saved
    ensures
      var t, v, store := s.client.tickets[g], s.client.saved[g], s.server.store;
      && UnderWay(s, g) == [] && StoredList(p, store, v.file, v.blocks, s.client.lastLocal)
      && if Missing(store, v.listRemoteId) then t.blocks == [] && t.next == 0
         else t.blocks == PersistentAll(v.blocks) && t.next == |t.blocks| && Fits(store, v.listRemoteId)
  {
    hide Next, Planned, IsStored, IsTrue, EncodeListOf, PersistentAll, GoodIds, AllStorable, Answer, Delivered,
         ArchiveInv;
    assert UnderWay(s, g) == [];
    assert TicketInv(p, s.client, s.server.store, g, []);
    if s.client.tickets[g].status != AwaitingBlockList {
      WholeOrCut(p, s.server.store, s.client.saved[g].listRemoteId);
    }
  }

  /** What one entry of the log wrote, as seen from file `f`. */
  lemma EntryInstalls(p: Params, s: Sys, f: U32, e: Placed)
    requires GoodParams(p) && Inv(p, s) && AtRest(s) && s.client.mode == Extract
    requires f in s.client.saved && NoCollisions(p, s.server.store, s.client.saved[f])
    requires IsPlaced(p, s.client.tickets, s.server.store, e)
    ensures
      var b := SeenFrom(s.client.saved, f, e);
      if b.inCover then e.write == Installed(s.client.saved[f].file, b, [])
      else
        && e.write == Installed(s.client.saved[f].file, b, e.write.data)
        && (|e.write.data| == b.length || e.write.data == [])
  {
    hide Inv, AtRest, UnderWay, IsStored, IsTrue, Install, Installed, GoodIds, AllStorable, Trusted;
    var c, store := s.client, s.server.store;
    RestingList(p, s, e.fileId);
    var v := c.saved[e.fileId];
    var b := v.blocks[e.index];
    assert b in v.blocks && c.tickets[e.fileId].blocks[e.index] == Persistent(b);
    if e.fileId == f {
      InstallsItsPart(p, store, v.file, b);
    } else {
      InstallsStale(p, store, c.saved[f].file, b);
    }
  }

  lemma InstallsStale(p: Params, store: map<U32, seq<Byte>>, file: seq<Byte>, b: Block)
    requires IsStored(p, store, b)
    ensures
      var stale := b.(inCover := false);
      var w := Install(p, Persistent(b), Plain(p, store[b.remoteId]));
      w == Installed(file, stale, w.data) && (|w.data| == b.length || w.data == [])
  {
    InstallsItsPart(p, store, file, b.(inCover := false));
  }

  /** When everything has come, the recovered file is what installing the merged list makes:
      for some contents of the stale blocks, those of other files among them. */
  lemma Recovered(p: Params, states: seq<Sys>, steps: seq<Step>, n: nat, f: U32) returns (stale: seq<seq<Byte>>)
    requires Extracted(p, states, steps, n, f)
    ensures
      var c := states[n].client;
      && StaleFor(Merged(c, f), stale)
      && c.recovered == WriteAll(InstalledAll(c.saved[f].file, Merged(c, f), stale))
  {
    hide Next, Inv, WriteAll, Installed, SeenFrom, NoCollisions, UnderWay, Enabled;
    RunKeeps(p, states, steps, n);
    FileRun(p, states, steps, n);
    var s := states[n];
    var c, merged := s.client, Merged(s.client, f);
    InExtraction(p, s, f);
    stale := seq(|c.log|, i requires 0 <= i < |c.log| => if merged[i].inCover then [] else c.log[i].write.data);
    forall i | 0 <= i < |c.log|
      ensures c.log[i].write == Installed(c.saved[f].file, merged[i], stale[i])
      ensures |stale[i]| == merged[i].length || stale[i] == []
    {
      assert c.log[i] in c.log;
      EntryInstalls(p, s, f, c.log[i]);
    }
    assert PlacedWrites(c.log) == InstalledAll(c.saved[f].file, merged, stale);
  }

  lemma InExtraction(p: Params, s: Sys, f: U32)
    requires Inv(p, s) && f in s.client.tickets && s.client.tickets[f].action == Extract
    ensures s.client.mode == Extract
  {
    hide UnderWay, SavedInv, ArchiveInv, ExtractInv, AskingInv;
    assert TicketInv(p, s.client, s.server.store, f, UnderWay(s, f));
  }

  /** From archiving to extraction.  Take any run, with sessions cut short or not, and any
      state of it in which nothing is under way and all blocks have been asked for.  An
      extracted file is back, byte for byte, if the merged list shields it: each of its bytes
      is settled by one of its blocks that no stale block, and no block of another file,
      overwrites later, and none of those reaches past its end.  Otherwise a file of that
      length with such a merged list does not come back, for some contents of the others. */
  lemma FileComesBack(p: Params, states: seq<Sys>, steps: seq<Step>, n: nat, f: U32)
    requires Extracted(p, states, steps, n, f)
    ensures
      var c := states[n].client;
      var bs, v := Merged(c, f), c.saved[f];
      && (Shielded(bs, |v.file|) ==> c.recovered == v.file)
      && (Shielded(bs, |v.file|) <==>
            WriteAll(InstalledAll(Repeat(1, |v.file|), bs, Twos(bs))) == Repeat(1, |v.file|))
  {
    hide Shielded, Next, WriteAll, InstalledAll, Merged, Inv, Enabled, AtRest;
    var stale := Recovered(p, states, steps, n, f);
    var c := states[n].client;
    RestoreExact(Merged(c, f), |c.saved[f].file|);
    if Shielded(Merged(c, f), |c.saved[f].file|) {
      ShieldedRestores(c.saved[f].file, Merged(c, f), stale);
    }
  }

  // ---- one file, and several ----

  /** The blocks of the archived list that the server gives back, if it gives back the list. */
  function Given(store: map<U32, seq<Byte>>, v: Saved): (bs: seq<Block>)
    ensures forall b :: b in bs ==> b in v.blocks
  {
    if Missing(store, v.listRemoteId) then []
    else
      var places := Delivered(store, v.blocks);
      seq(|places|, i requires 0 <= i < |places| => v.blocks[places[i]])
  }

  /** The records of the list and of its blocks are all below 65536 bytes. */
  predicate AllFit(store: map<U32, seq<Byte>>, v: Saved) {
    Fits(store, v.listRemoteId) && forall b :: b in v.blocks ==> Fits(store, b.remoteId)
  }

  lemma {:induction false} SameDelivered(store: map<U32, seq<Byte>>, bs: seq<Block>, cs: seq<Block>)
    requires |cs| == |bs| && forall i :: 0 <= i < |bs| ==> cs[i].remoteId == bs[i].remoteId
    ensures Delivered(store, cs) == Delivered(store, bs)
  {
    if bs != [] {
      SameDelivered(store, bs[..|bs| - 1], cs[..|bs| - 1]);
    }
  }

  lemma {:induction false} AllDelivered(store: map<U32, seq<Byte>>, bs: seq<Block>)
    requires forall b :: b in bs ==> !Missing(store, b.remoteId)
    ensures |Delivered(store, bs)| == |bs| && forall i :: 0 <= i < |bs| ==> Delivered(store, bs)[i] == i
  {
    if bs != [] {
      AllDelivered(store, bs[..|bs| - 1]);
      assert bs[|bs| - 1] in bs;
    }
  }

  lemma AllGiven(p: Params, s: Sys, v: Saved)
    requires GoodParams(p) && Inv(p, s) && v in s.client.saved.Values && AllFit(s.server.store, v)
    ensures Given(s.server.store, v) == v.blocks
  {
    hide TicketInv, UnderWay, Missing, Fits, Delivered, Planned, IsTrue, GoodIds, AllStorable, EncodeListOf;
    var store := s.server.store;
    WholeOrCut(p, store, v.listRemoteId);
    forall b | b in v.blocks ensures !Missing(store, b.remoteId) {
      WholeOrCut(p, store, b.remoteId);
    }
    AllDelivered(store, v.blocks);
  }

  /** When the recovered file was opened last for this file, and no other has written since,
      the merged list is what the server gives back of the archived one. */
  lemma UndisputedList(p: Params, states: seq<Sys>, steps: seq<Step>, n: nat, f: U32)
    requires Extracted(p, states, steps, n, f) && Undisputed(states[n].client, f)
    ensures Merged(states[n].client, f) == Given(states[n].server.store, states[n].client.saved[f])
    ensures AllFit(states[n].server.store, states[n].client.saved[f]) ==>
      Merged(states[n].client, f) == states[n].client.saved[f].blocks
  {
    hide Next, Inv, WriteAll, UnderWay, Enabled, NoCollisions, AtRest, StoredList, Delivered, Missing, AllFit;
    RunKeeps(p, states, steps, n);
    FileRun(p, states, steps, n);
    var s := states[n];
    InExtraction(p, s, f);
    RestingList(p, s, f);
    var c, store := s.client, s.server.store;
    var t := c.tickets[f];
    assert t.blocks[..|t.blocks|] == t.blocks && t.blocks[..0] == [];
    assert InOrder(c.log, Delivered(store, t.blocks));
    if Missing(store, c.saved[f].listRemoteId) {
      assert |c.log| == 0;
    } else {
      SameDelivered(store, c.saved[f].blocks, t.blocks);
    }
    forall i | 0 <= i < |c.log| ensures Merged(c, f)[i] == Given(store, c.saved[f])[i] {
      assert c.log[i] in c.log;
    }
    if AllFit(store, c.saved[f]) {
      AllGiven(p, s, c.saved[f]);
    }
  }

  /** A file that is the only one extracted in its session is undisputed. */
  lemma OnlyFile(p: Params, states: seq<Sys>, steps: seq<Step>, n: nat, f: U32)
    requires Extracted(p, states, steps, n, f) && states[n].client.tickets.Keys == {f}
    ensures Undisputed(states[n].client, f)
  {
    hide Next, Inv, WriteAll, UnderWay, Enabled, NoCollisions, AtRest, Install;
    RunKeeps(p, states, steps, n);
    FileRun(p, states, steps, n);
    var c := states[n].client;
    InExtraction(p, states[n], f);
    forall e | e in c.log ensures e.fileId == f {
      assert IsPlaced(p, c.tickets, states[n].server.store, e);
      assert e.fileId in c.tickets.Keys;
    }
    assert c.opener in c.tickets.Keys;
  }

  /** Of two files the one written last wins.  When the last block written covers the whole of
      file `g`, the recovered file begins with `g`; so no other file has come back that does
      not. */
  lemma LastWriterWins(p: Params, states: seq<Sys>, steps: seq<Step>, n: nat, g: U32)
    requires Extracted(p, states, steps, n, g) && states[n].client.log != []
    requires
      var c := states[n].client;
      var e := c.log[|c.log| - 1];
      e.fileId == g && e.index < |c.saved[g].blocks|
      && var b := c.saved[g].blocks[e.index]; b.inCover && b.offset == 0 && b.End() == |c.saved[g].file|
    ensures states[n].client.saved[g].file <= states[n].client.recovered
  {
    hide Next, Inv, Enabled, AtRest, NoCollisions, WriteAll;
    var stale := Recovered(p, states, steps, n, g);
    var c := states[n].client;
    var file, bs := c.saved[g].file, Merged(c, g);
    var ws := InstalledAll(file, bs, stale);
    WriteAllIs(ws);
    var last := ws[|ws| - 1];
    assert last == Write(0, file) by {
      assert file[0..|file|] == file;
    }
    assert last in ws;
    PastExtent(ws);
  }

  /** Where blocks lie, and whether they are in the cover, is all that restoring depends on. */
  lemma SameCoverRestores(bs: seq<Block>, cs: seq<Block>, fileLength: nat)
    requires SameCover(bs, cs)
    ensures AlwaysRestores(bs, fileLength) <==> AlwaysRestores(cs, fileLength)
  {
    RestoreExact(bs, fileLength);
    RestoreExact(cs, fileLength);
    if Shielded(bs, fileLength) {
      Shields(bs, cs, fileLength);
    }
    if Shielded(cs, fileLength) {
      Shields(cs, bs, fileLength);
    }
  }

  lemma Shields(bs: seq<Block>, cs: seq<Block>, fileLength: nat)
    requires SameCover(bs, cs) && Shielded(bs, fileLength)
    ensures Shielded(cs, fileLength)
  {
    forall p: nat | p < fileLength ensures Settled(cs, fileLength, p) {
      assert Settled(bs, fileLength, p);
      var k: nat :| Settles(bs, fileLength, p, k);
      assert Settles(cs, fileLength, p, k);
    }
    forall c | c in cs && !c.inCover && c.length > 0 ensures c.End() <= fileLength {
      var i :| 0 <= i < |cs| && cs[i] == c;
      assert bs[i] in bs;
    }
  }

  /** With all old blocks found, the archived list has only blocks of the cover, all inside the
      file; it covers the last byte only if the tail fits. */
  lemma FoundList(p: Params, file: seq<Byte>, bs: seq<Block>, sorted: seq<Block>)
    requires Planned(p, file, bs, sorted) && forall b :: b in sorted ==> b.inCover
    ensures forall b :: b in bs ==> b.inCover && b.End() <= |file|
    ensures !TailFits(sorted, |file|, p.blockLength) ==> file != [] && !Covers(bs, |file| - 1)
  {
    hide TailFits, Covers, Added, InRange;
    var planned := Completed(sorted, |file|, p.blockLength);
    AddedMembers(sorted, |file|, p.blockLength);
    AddedInside(sorted, |file|, p.blockLength);
    forall b | b in bs ensures b.inCover && b.End() <= |file| {
      var i :| 0 <= i < |bs| && bs[i] == b;
      assert planned[i] in planned;
    }
    if !TailFits(sorted, |file|, p.blockLength) {
      SomeByte(sorted, |file|, p.blockLength);
      TailLost(sorted, |file|, p.blockLength);
      NoneCovers(bs, planned, |file| - 1);
    }
  }

  lemma NoneCovers(bs: seq<Block>, cs: seq<Block>, p: nat)
    requires SameCover(bs, cs) && !Covers(cs, p)
    ensures !Covers(bs, p)
  {
    forall b | b in bs && b.inCover ensures !b.Contains(p) {
      var i :| 0 <= i < |bs| && bs[i] == b;
      assert cs[i] in cs;
    }
  }

  lemma FewerCover(bs: seq<Block>, given: seq<Block>, p: nat)
    requires !Covers(bs, p) && forall b :: b in given ==> b in bs
    ensures !Covers(given, p)
  {
  }

  /** A file archived again, all of whose old blocks were found in it, comes back undisputed
      exactly when the blocks that the server gives back are enough for it.  If their records
      and that of the list are below 65536 bytes, this is when the tail fits, the negated guard
      of the branch that loses its last byte; if the tail does not fit, what comes back is
      shorter in any case. */
  lemma ReusedFileComesBack(p: Params, states: seq<Sys>, steps: seq<Step>, n: nat, f: U32)
    requires Extracted(p, states, steps, n, f) && Undisputed(states[n].client, f)
    ensures
      var v, file, store := states[n].client.saved[f], states[n].client.recovered, states[n].server.store;
      && |v.file| < TWO32 && p.blockLength > 0
      && ((forall b :: b in v.sorted ==> b.inCover) ==>
            && (file == v.file <==> Enough(v.file, Given(store, v)))
            && (!TailFits(v.sorted, |v.file|, p.blockLength) ==> |file| < |v.file|)
            && (AllFit(store, v) ==> (file == v.file <==> TailFits(v.sorted, |v.file|, p.blockLength))))
  {
    hide Shielded, Next, TailFits, Inv, UnderWay, Covers, Completed, Given, AllFit, Enough, NoCollisions,
         WriteAll, InstalledAll, Merged, AtRest, Enabled;
    RunKeeps(p, states, steps, n);
    var v, store := states[n].client.saved[f], states[n].server.store;
    PlanOf(p, states[n], f);
    if forall b :: b in v.sorted ==> b.inCover {
      var stale := Recovered(p, states, steps, n, f);
      UndisputedList(p, states, steps, n, f);
      FoundList(p, v.file, v.blocks, v.sorted);
      EnoughExact(v.file, Given(store, v), stale);
      if !TailFits(v.sorted, |v.file|, p.blockLength) {
        FewerCover(v.blocks, Given(store, v), |v.file| - 1);
        LastByteLost(v.file, Given(store, v), stale);
      } else if AllFit(store, v) {
        FileComesBack(p, states, steps, n, f);
        FittingShields(p, v.file, v.blocks, v.sorted);
      }
    }
  }

  lemma PlanOf(p: Params, s: Sys, f: U32)
    requires Inv(p, s) && f in s.client.saved
    ensures Planned(p, s.client.saved[f].file, s.client.saved[f].blocks, s.client.saved[f].sorted)
  {
    hide Planned, StoredList, HasList, TicketInv, UnderWay;
  }

  lemma FittingShields(p: Params, file: seq<Byte>, bs: seq<Block>, sorted: seq<Block>)
    requires Planned(p, file, bs, sorted) && forall b :: b in sorted ==> b.inCover
    requires TailFits(sorted, |file|, p.blockLength)
    ensures Shielded(bs, |file|)
  {
    hide Shielded, AlwaysRestores, Completed, TailFits, InRange;
    ReusedListRestores(sorted, |file|, p.blockLength);
    SameCoverRestores(bs, Completed(sorted, |file|, p.blockLength), |file|);
    RestoreExact(bs, |file|);
  }

  lemma SomeByte(bs: seq<Block>, fileLength: U32, blockLength: U16)
    requires blockLength > 0 && !TailFits(bs, fileLength, blockLength)
    ensures fileLength > 0
  {
  }

  /** A file archived for the first time comes back undisputed exactly when the blocks that
      the server gives back are enough; if all records are below 65536 bytes, when it is at most
      one block long or is made of whole blocks. */
  lemma FirstArchiveComesBack(p: Params, states: seq<Sys>, steps: seq<Step>, n: nat, f: U32)
    requires Extracted(p, states, steps, n, f) && Undisputed(states[n].client, f)
    ensures
      var v, file, store := states[n].client.saved[f], states[n].client.recovered, states[n].server.store;
      && p.blockLength > 0
      && (v.sorted == [] ==>
            && (file == v.file <==> Enough(v.file, Given(store, v)))
            && (file == v.file ==> |v.file| <= p.blockLength || |v.file| % p.blockLength == 0)
            && (AllFit(store, v) ==>
                  (file == v.file <==> |v.file| <= p.blockLength || |v.file| % p.blockLength == 0)))
  {
    hide Next, TailFits, AtRest, Enabled, Given, AllFit, Enough;
    ReusedFileComesBack(p, states, steps, n, f);
    var v := states[n].client.saved[f];
    if v.sorted == [] {
      NothingListed(|v.file|, p.blockLength);
    }
  }

  lemma NothingListed(fileLength: U32, blockLength: U16)
    requires blockLength > 0
    ensures TailFits([], fileLength, blockLength) <==> fileLength <= blockLength || fileLength % blockLength == 0
  {
    assert ScanEnd([], 0, blockLength) == 0;
  }
}
