/** Several extractions in one session write to the same file (version-1/extract.c): of files
    that are one block each, one comes back.  A run shows how it happens. */
module TwoFiles {
  import opened Bytes
  import opened Blocks
  import opened CoverLaws
  import opened Covering
  import opened EndToEnd
  import opened Ids
  import opened Messages
  import opened Options
  import opened Progress
  import opened Protocol
  import opened ProtocolLaws
  import opened ProtocolRuns
  import opened ProtocolSafety
  import opened Recovery
  import opened Rest
  import opened Restore
  import opened Sessions
  import opened WorkList

  // ---- one of many comes back ----

  /** The file is of this length, and its list is one block with the whole of it. */
  ghost predicate OneBlock(v: Saved, size: nat) {
    && size > 0 && |v.file| == size && |v.blocks| == 1
    && v.blocks[0].inCover && v.blocks[0].offset == 0 && v.blocks[0].length == size
  }

  lemma NothingInRange(fileLength: U32, blockLength: U16)
    requires blockLength > 0
    ensures InRange([], fileLength, blockLength)
  {
  }

  lemma OneTail(n: U32, l: U16)
    requires 0 < n <= l
    ensures InRange([], n, l) && Completed([], n, l) == [CoverBlock(0, n)]
    ensures Unsaved(Completed([], n, l)) <= 1
  {
    hide InRange;
    NothingInRange(n, l);
    assert ScanEnd([], 0, l) == 0 && ScanPoints([], 0, l) == [];
    AddedParts([], n, l);
    assert TailPoints(0, n, l) == [0] by {
      assert TailPoints(l, n, l) == [];
    }
    UnsavedAtMost(Completed([], n, l));
  }

  /** A file that was archived for the first time and is at most one block long. */
  lemma ShortFile(p: Params, v: Saved)
    requires Planned(p, v.file, v.blocks, []) && 0 < |v.file| <= p.blockLength
    ensures OneBlock(v, |v.file|)
  {
    hide InRange, Completed;
    OneTail(|v.file|, p.blockLength);
  }

  /** Extractions that have all come to rest, of files of one block and the same length, with
      no record of 65536 bytes or more. */
  ghost predicate ShortOnes(p: Params, states: seq<Sys>, steps: seq<Step>, n: nat, size: nat) {
    && n < |states| && states[n].client.tickets != map[]
    && forall g :: g in states[n].client.tickets ==>
         && Extracted(p, states, steps, n, g) && OneBlock(states[n].client.saved[g], size)
         && AllFit(states[n].server.store, states[n].client.saved[g])
  }

  /** Something has been written since the file was opened. */
  lemma SomethingWritten(p: Params, states: seq<Sys>, steps: seq<Step>, n: nat, size: nat)
    requires ShortOnes(p, states, steps, n, size)
    ensures states[n].client.log != []
    ensures forall e :: e in states[n].client.log ==>
      e.fileId in states[n].client.tickets && e.fileId in states[n].client.saved && e.index == 0
  {
    hide Next, Inv, WriteAll, UnderWay, Enabled, NoCollisions, AtRest, StoredList, Delivered, AllFit, Install;
    var f :| f in states[n].client.tickets;
    RunKeeps(p, states, steps, n);
    FileRun(p, states, steps, n);
    var s := states[n];
    InExtraction(p, s, f);
    var c, store, g := s.client, s.server.store, s.client.opener;
    forall e | e in c.log ensures e.fileId in c.tickets && e.index == 0 {
      assert IsPlaced(p, c.tickets, store, e);
      RestingList(p, s, e.fileId);
    }
    if c.log == [] {
      assert Undisputed(c, g);
      UndisputedList(p, states, steps, n, g);
    }
  }

  /** Of such files the shared file is the one whose block was written last. */
  lemma OneOfMany(p: Params, states: seq<Sys>, steps: seq<Step>, n: nat, size: nat) returns (g: U32)
    requires ShortOnes(p, states, steps, n, size)
    ensures g in states[n].client.tickets && states[n].client.recovered == states[n].client.saved[g].file
  {
    hide Extracted, AllFit;
    SomethingWritten(p, states, steps, n, size);
    var c := states[n].client;
    var k := |c.log| - 1;
    assert c.log[k] in c.log;
    g := c.log[k].fileId;
    LastCovers(c, g, size);
    FileComesBack(p, states, steps, n, g);
  }

  lemma LastCovers(c: Client, g: U32, size: nat)
    requires c.log != [] && c.log[|c.log| - 1].fileId == g
    requires forall e :: e in c.log ==> e.fileId in c.saved && e.index == 0 && OneBlock(c.saved[e.fileId], size)
    ensures Shielded(Merged(c, g), size)
  {
    var bs, k := Merged(c, g), |c.log| - 1;
    assert c.log[k] in c.log;
    forall p: nat | p < size ensures Settled(bs, size, p) {
      assert Settles(bs, size, p, k);
    }
    forall b | b in bs ensures b.End() <= size {
      var i :| 0 <= i < |bs| && bs[i] == b;
      assert c.log[i] in c.log;
    }
  }

  /** Two files: one of them comes back, and both do exactly if they are the same. */
  lemma OneOfTwo(p: Params, states: seq<Sys>, steps: seq<Step>, n: nat, f: U32, g: U32, size: nat)
    requires ShortOnes(p, states, steps, n, size) && states[n].client.tickets.Keys == {f, g}
    ensures
      var c := states[n].client;
      var file, other := c.saved[f].file, c.saved[g].file;
      && (c.recovered == file || c.recovered == other)
      && (c.recovered == file && c.recovered == other <==> file == other)
  {
    hide Extracted, AllFit, OneBlock;
    var h := OneOfMany(p, states, steps, n, size);
    assert h in states[n].client.tickets.Keys;
    assert f in states[n].client.tickets && g in states[n].client.tickets;
  }

  // ---- a run ----

  /** Data of up to `limit` bytes can be sealed, in less than 65536 bytes. */
  ghost predicate SealsShort(p: Params, limit: nat) {
    && (forall plain: seq<Byte> | |plain| <= limit :: exists payload :: Seals(p, payload, plain))
    && (forall payload: seq<Byte> | Opens(p, payload) && |Plain(p, payload)| <= limit :: |payload| < TWO16)
  }

  /** No two texts of up to `size` bytes have the same digest. */
  ghost predicate NoCollisionsUpTo(p: Params, size: nat) {
    forall x: seq<Byte>, y: seq<Byte> | |x| <= size && |y| <= size && p.sha(x) == p.sha(y) :: x == y
  }

  const LIST_LIMIT: nat := 4 + BLOCK_SIZE

  /** What the run needs: short data can be sealed shortly, short texts do not collide. */
  ghost predicate Suits(p: Params, size: nat) {
    && GoodParams(p) && 0 < size <= p.blockLength
    && SealsShort(p, Max(LIST_LIMIT, p.blockLength)) && NoCollisionsUpTo(p, size)
  }

  /** Steps that can be taken one after the other. */
  ghost predicate Goes(p: Params, states: seq<Sys>, steps: seq<Step>) {
    && |states| == |steps| + 1
    && forall i | 0 <= i < |steps| :: Enabled(p, states[i], steps[i]) && states[i + 1] == Next(p, states[i], steps[i])
  }

  /** A run is continued. */
  lemma Prolonged(p: Params, states: seq<Sys>, steps: seq<Step>, more: seq<Sys>, es: seq<Step>)
    requires IsRun(p, states, steps) && Goes(p, more, es) && more[0] == states[|steps|]
    ensures IsRun(p, states + more[1..], steps + es)
    ensures forall i | 0 <= i < |more| :: (states + more[1..])[|steps| + i] == more[i]
  {
    hide Enabled, Next;
    var all, steps' := states + more[1..], steps + es;
    forall i | 0 <= i < |steps'|
      ensures Enabled(p, all[i], steps'[i]) && all[i + 1] == Next(p, all[i], steps'[i])
    {
      if i >= |steps| {
        var j := i - |steps|;
        assert all[i] == more[j] && all[i + 1] == more[j + 1] && steps'[i] == es[j];
      }
    }
  }

  lemma MovesGo(p: Params, s: Sys, states: seq<Sys>, steps: seq<Step>)
    requires MovesOn(p, s, states, steps)
    ensures Goes(p, states, steps) && forall k | 0 <= k < |steps| :: Moves(steps[k])
  {
    hide Enabled, Next;
  }

  /** Two tickets, and how much they may still cause. */
  lemma TwoTickets(ts: map<U32, Ticket>, f: U32, g: U32, cap: nat)
    requires ts.Keys == {f, g} && f != g
    ensures Total(ts, cap) == Weight(ts[f], cap) + Weight(ts[g], cap)
  {
    hide Weight;
    TotalWithout(ts, f, cap);
    TotalWithout(ts - {f}, g, cap);
    assert ts - {f} - {g} == map[];
  }

  /** The first session begins: both files are archived. */
  lemma Archiving(p: Params, file: seq<Byte>, other: seq<Byte>) returns (states: seq<Sys>, steps: seq<Step>)
    requires Suits(p, |file|) && |other| == |file|
    ensures IsRun(p, states, steps) && steps == [StartNew(1, file), StartNew(2, other)]
    ensures states[2].server.last == 0 && states[2].client.lastLocal <= 2
    ensures Measure(states[2], 1) <= 21 && HasRoom(p, states[2], Max(LIST_LIMIT, p.blockLength), 1)
  {
    hide Completed, WithIds, Unsaved, Weight, Total;
    var s0 := Sys(Client(Archive, map[], true, 0, 0, map[], [], 0, []), Server(map[], 0), [], []);
    OneTail(|file|, p.blockLength);
    var s1 := Next(p, s0, StartNew(1, file));
    assert |s1.client.tickets| <= 1 by {
      assert s1.client.tickets.Keys == {1};
      assert |s1.client.tickets| == |s1.client.tickets.Keys|;
    }
    var s2 := Next(p, s1, StartNew(2, other));
    states, steps := [s0, s1, s2], [StartNew(1, file), StartNew(2, other)];
    TwoTickets(s2.client.tickets, 1, 2, 1);
    SendingWeight(s2.client.tickets[1]);
    SendingWeight(s2.client.tickets[2]);
  }

  lemma SendingWeight(t: Ticket)
    requires |t.blocks| == 1 && t.status == SendingBlocks
    ensures Weight(t, 1) <= 9
  {
  }

  lemma RecordsOf(p: Params, s: Sys, f: U32)
    requires Inv(p, s) && f in s.client.saved
    ensures
      var v, store := s.client.saved[f], s.server.store;
      && v.listRemoteId in store && Opens(p, store[v.listRemoteId])
      && AllStorable(v.blocks) && |v.blocks| < TWO32 && Plain(p, store[v.listRemoteId]) == EncodeList(v.blocks)
      && forall b :: b in v.blocks ==>
           b.remoteId in store && Opens(p, store[b.remoteId]) && |Plain(p, store[b.remoteId])| == b.length
  {
    hide UnderWay, TicketInv, IsTrue, Planned, EncodeList, AllStorable;
  }

  /** What is stored for a file of one block is short. */
  lemma ShortRecords(p: Params, s: Sys, f: U32, size: nat)
    requires Suits(p, size) && Inv(p, s) && f in s.client.saved && OneBlock(s.client.saved[f], size)
    ensures AllFit(s.server.store, s.client.saved[f])
  {
    hide Inv, Opens, Plain, EncodeList, AllStorable, Seals, GoodParams, NoCollisionsUpTo, SealsShort, OneBlock;
    RecordsOf(p, s, f);
    var v, store := s.client.saved[f], s.server.store;
    OneBlockIs(v, size);
    assert |EncodeList(v.blocks)| == LIST_LIMIT;
    ShortPayload(p, store[v.listRemoteId], Max(LIST_LIMIT, p.blockLength));
    forall b | b in v.blocks ensures Fits(store, b.remoteId) {
      assert b == v.blocks[0];
      ShortPayload(p, store[b.remoteId], Max(LIST_LIMIT, p.blockLength));
    }
  }

  lemma ShortPayload(p: Params, payload: seq<Byte>, limit: nat)
    requires SealsShort(p, limit) && Opens(p, payload) && |Plain(p, payload)| <= limit
    ensures |payload| < TWO16
  {
    hide Seals;
  }

  lemma OneBlockIs(v: Saved, size: nat)
    requires OneBlock(v, size)
    ensures |v.blocks| == 1 && v.blocks[0].length == size
  {
  }

  /** The first session comes to rest: both files have their summaries. */
  lemma Archived(p: Params, file: seq<Byte>, other: seq<Byte>) returns (states: seq<Sys>, steps: seq<Step>)
    requires Suits(p, |file|) && |other| == |file|
    ensures IsRun(p, states, steps) && AtRest(states[|steps|])
    ensures
      var s := states[|steps|];
      && s.server.last <= 21 && s.client.lastLocal <= 23
      && HasSummary(s.client, 1, file, true) && HasSummary(s.client, 2, other, true)
      && 1 !in s.client.tickets && 2 !in s.client.tickets
  {
    hide HasRoom, Inv, Enabled, Next, Measure, AtRest, HasSummary, GoodParams, SealsShort, NoCollisionsUpTo;
    var limit := Max(LIST_LIMIT, p.blockLength);
    states, steps := Archiving(p, file, other);
    RunKeeps(p, states, steps, 2);
    var more, moves := SomeRunRests(p, states[2], limit, 1);
    RoomAlong(p, states[2], more, moves, |moves|, limit, 1);
    MovesGo(p, states[2], more, moves);
    Prolonged(p, states, steps, more, moves);
    states, steps := states + more[1..], steps + moves;
    assert states[|steps|] == more[|moves|];
    assert forall k | 1 <= k < |steps| :: !steps[k].Restart? && !Starts(steps[k], 1);
    assert forall k | 2 <= k < |steps| :: !steps[k].Restart? && !Starts(steps[k], 2);
    ArchivingEnds(p, states, steps, 0, |steps|, 1, file);
    ArchivingEnds(p, states, steps, 1, |steps|, 2, other);
  }

  /** Nothing but tickets and requests is new. */
  ghost predicate OnlyAsks(s: Sys, s': Sys) {
    && s'.server == s.server && s'.client.saved == s.client.saved && s'.client.lastLocal == s.client.lastLocal
    && s'.client.mode == Extract && s'.client.walking && s'.s2c == []
  }

  lemma Restarted(p: Params, s: Sys)
    ensures Enabled(p, s, Restart(Extract))
    ensures var s' := Next(p, s, Restart(Extract)); OnlyAsks(s, s') && s'.client.tickets == map[] && s'.c2s == []
  {
  }

  lemma AskedFor(p: Params, s: Sys, f: U32)
    requires s.client.mode == Extract && s.client.walking && s.s2c == []
    requires f != 0 && f !in s.client.tickets && f in s.client.saved
    ensures Enabled(p, s, StartOld(f, []))
    ensures
      var s' := Next(p, s, StartOld(f, []));
      && OnlyAsks(s, s') && |s'.c2s| == |s.c2s| + 1
      && s'.client.tickets == s.client.tickets[f := Ticket(Extract, [], [], AwaitingBlockList, 0, 0, [])]
  {
  }

  /** The second session begins: both files are asked for. */
  lemma Asking(p: Params, s: Sys, file: seq<Byte>, other: seq<Byte>) returns (states: seq<Sys>, steps: seq<Step>)
    requires Suits(p, |file|) && |other| == |file| && Inv(p, s)
    requires s.server.last <= 21 && s.client.lastLocal <= 23
    requires HasSummary(s.client, 1, file, true) && HasSummary(s.client, 2, other, true)
    ensures |states| == 4 && steps == [Restart(Extract), StartOld(1, []), StartOld(2, [])] && states[0] == s
    ensures Goes(p, states, steps)
    ensures states[1].client.mode == Extract && states[2].client.mode == Extract
    ensures
      var c := states[3].client;
      && c.tickets.Keys == {1, 2} && c.tickets[1].action == c.tickets[2].action == Extract
      && HasRoom(p, states[3], Max(LIST_LIMIT, p.blockLength), 1)
  {
    hide Inv, Next, Enabled, Suits, HasRoom;
    Restarted(p, s);
    var s1 := Next(p, s, Restart(Extract));
    AskedFor(p, s1, 1);
    var s2 := Next(p, s1, StartOld(1, []));
    AskedFor(p, s2, 2);
    var s3 := Next(p, s2, StartOld(2, []));
    states, steps := [s, s1, s2, s3], [Restart(Extract), StartOld(1, []), StartOld(2, [])];
    AskedRoom(p, s, s3, file, other);
  }

  lemma AskedRoom(p: Params, s: Sys, s3: Sys, file: seq<Byte>, other: seq<Byte>)
    requires Suits(p, |file|) && |other| == |file| && Inv(p, s)
    requires s.server.last <= 21 && s.client.lastLocal <= 23
    requires HasSummary(s.client, 1, file, true) && HasSummary(s.client, 2, other, true)
    requires OnlyAsks(s, s3) && |s3.c2s| == 2 && s3.client.tickets.Keys == {1, 2}
    requires forall f :: f in s3.client.tickets ==> s3.client.tickets[f].status == AwaitingBlockList
    ensures HasRoom(p, s3, Max(LIST_LIMIT, p.blockLength), 1)
  {
    hide Inv, Weight, Total, AllFit, OneBlock, Planned, GoodParams, NoCollisionsUpTo, Seals, NotCut, NoneCut;
    TwoTickets(s3.client.tickets, 1, 2, 1);
    AskingWeight(s3.client.tickets[1]);
    AskingWeight(s3.client.tickets[2]);
    forall f | f in {1, 2} ensures TicketRoom(p, s3.client, f, 1) && RecordRoom(s3.client, s3.server.store, f) {
      PlanOf(p, s, f);
      ShortFile(p, s.client.saved[f]);
      OneBlockIs(s.client.saved[f], |file|);
      ShortRecords(p, s, f, |file|);
      FittingRecords(s.server.store, s.client.saved[f]);
    }
  }

  lemma FittingRecords(store: map<U32, seq<Byte>>, v: Saved)
    requires AllFit(store, v)
    ensures NotCut(store, v.listRemoteId) && NoneCut(store, v.blocks)
  {
  }

  lemma AskingWeight(t: Ticket)
    requires t.status == AwaitingBlockList
    ensures Weight(t, 1) == 11
  {
  }

  lemma {:induction false} KeysAlong(p: Params, states: seq<Sys>, steps: seq<Step>, i: nat, j: nat)
    requires IsRun(p, states, steps) && i <= j <= |steps| && forall k | i <= k < j :: Moves(steps[k])
    ensures states[j].client.tickets.Keys <= states[i].client.tickets.Keys
  {
    hide Enabled, Next;
    if i < j {
      KeysAlong(p, states, steps, i, j - 1);
      NoNewTickets(p, states[j - 1], steps[j - 1]);
    }
  }

  /** Digests of short files do not collide. */
  lemma ShortTrusted(p: Params, s: Sys, f: U32, size: nat)
    requires NoCollisionsUpTo(p, size) && Inv(p, s) && f in s.client.saved && OneBlock(s.client.saved[f], size)
    ensures NoCollisions(p, s.server.store, s.client.saved[f])
  {
    hide Inv, Opens, Plain, AllStorable, EncodeList;
    RecordsOf(p, s, f);
    var v := s.client.saved[f];
    forall b | b in v.blocks ensures Trusted(p, s.server.store, v.file, b) {
      assert b == v.blocks[0];
    }
  }

  /** What the extraction of one of the files has come to. */
  lemma CameBack(p: Params, states: seq<Sys>, steps: seq<Step>, m: nat, f: U32, file: seq<Byte>)
    requires Suits(p, |file|) && IsRun(p, states, steps) && AtRest(states[|steps|]) && m + 3 <= |steps|
    requires HasSummary(states[m].client, f, file, true) && f !in states[m].client.tickets
    requires f in states[m + 3].client.tickets && states[m + 3].client.tickets[f].action == Extract
    requires NotArchivedAgain(states, steps, m, |steps|, f)
    requires forall k | m + 3 <= k < |steps| :: Moves(steps[k])
    ensures
      var n := |steps|;
      var c := states[n].client;
      && f in c.tickets && Extracted(p, states, steps, n, f) && c.saved[f].file == file
      && OneBlock(c.saved[f], |file|) && AllFit(states[n].server.store, c.saved[f])
  {
    hide Inv, Enabled, Next, AtRest, GoodParams, SealsShort, NoCollisionsUpTo, OneBlock, AllFit, Planned, NoCollisions;
    var n := |steps|;
    RunKeeps(p, states, steps, n);
    SummaryRun(p, states, steps, m, n, f, file, true);
    ExtractNeverEnds(p, states, steps, m + 3, n, f);
    PlanOf(p, states[n], f);
    ShortFile(p, states[n].client.saved[f]);
    ShortRecords(p, states[n], f, |file|);
    ShortTrusted(p, states[n], f, |file|);
  }

  /** For any two files of the same length, at most one block long, there is a run: both are
      archived, and extracted in the next session; all comes to rest, and the shared file is one
      of them.  So when they differ, one has not come back. */
  lemma TwoFilesRun(p: Params, file: seq<Byte>, other: seq<Byte>) returns (states: seq<Sys>, steps: seq<Step>)
    requires Suits(p, |file|) && |other| == |file|
    ensures IsRun(p, states, steps)
    ensures
      var n := |steps|;
      var c := states[n].client;
      && ShortOnes(p, states, steps, n, |file|) && c.tickets.Keys == {1, 2}
      && c.saved[1].file == file && c.saved[2].file == other
      && (c.recovered == file || c.recovered == other)
  {
    hide HasRoom, Inv, Enabled, Next, Measure, AtRest, GoodParams, SealsShort, NoCollisionsUpTo, OneBlock, AllFit,
         Planned, NoCollisions;
    states, steps := Archived(p, file, other);
    var m := |steps|;
    RunKeeps(p, states, steps, m);
    var asked, asking := Asking(p, states[m], file, other);
    Prolonged(p, states, steps, asked, asking);
    states, steps := states + asked[1..], steps + asking;
    RunKeeps(p, states, steps, m + 3);
    assert states[m] == asked[0] && states[m + 1] == asked[1] && states[m + 2] == asked[2] && states[m + 3] == asked[3];
    var more, moves := SomeRunRests(p, states[m + 3], Max(LIST_LIMIT, p.blockLength), 1);
    MovesGo(p, states[m + 3], more, moves);
    Prolonged(p, states, steps, more, moves);
    assert asking[0] == steps[m] && asking[1] == steps[m + 1] && asking[2] == steps[m + 2];
    states, steps := states + more[1..], steps + moves;
    var n := |steps|;
    assert states[n] == more[|moves|];
    KeysAlong(p, states, steps, m + 3, n);
    CameBack(p, states, steps, m, 1, file);
    CameBack(p, states, steps, m, 2, other);
    assert forall g :: g in states[n].client.tickets ==> g in {1, 2};
    OneOfTwo(p, states, steps, n, 1, 2, |file|);
  }

  // ---- parameters that suit ----

  /** Sealing puts the length in front. */
  function Lengthened(plain: seq<Byte>): seq<Byte>
    requires |plain| < TWO32
  {
    Be32(|plain|) + plain
  }

  function Unlengthened(payload: seq<Byte>): Option<seq<Byte>> {
    if |payload| >= 4 && Value32(payload[..4]) == |payload| - 4 then Some(payload[4..]) else None
  }

  /** A digest that tells texts of up to 19 bytes apart. */
  function Padded(text: seq<Byte>): (sum: seq<Byte>)
    ensures |sum| == STRONG_LENGTH
  {
    if |text| <= 19 then [|text|] + text + Zeros(19 - |text|) else [20] + Zeros(19)
  }

  const DEMO_PARAMS: Params := Params(Unlengthened, Padded, 4)

  lemma DemoSeals(plain: seq<Byte>)
    requires |plain| <= LIST_LIMIT
    ensures Seals(DEMO_PARAMS, Lengthened(plain), plain)
  {
    hide Value32, Be32;
    ValueOfBe(|plain|, 0);
    assert Lengthened(plain)[..4] == Be32(|plain|) && Lengthened(plain)[4..] == plain;
  }

  lemma DemoCut(x: seq<Byte>, n: nat)
    requires n < |x| && Opens(DEMO_PARAMS, x)
    ensures !Opens(DEMO_PARAMS, x[..n])
  {
    hide Value32;
    if n >= 4 {
      assert x[..n][..4] == x[..4];
    }
  }

  lemma DemoDigests(x: seq<Byte>, y: seq<Byte>)
    requires |x| <= 4 && |y| <= 4 && Padded(x) == Padded(y)
    ensures x == y
  {
    assert Padded(x)[0] == |x| && Padded(y)[0] == |y|;
    assert x == Padded(x)[1..1 + |x|] && y == Padded(y)[1..1 + |y|];
  }

  lemma DemoSuits()
    ensures Suits(DEMO_PARAMS, 4)
  {
    hide Seals, Opens, Padded, Lengthened;
    var p := DEMO_PARAMS;
    forall plain: seq<Byte> | |plain| <= LIST_LIMIT ensures exists payload :: Seals(p, payload, plain) {
      DemoSeals(plain);
    }
    forall x: seq<Byte> | Opens(p, x) && |Plain(p, x)| <= LIST_LIMIT ensures |x| < TWO16 {
      DemoLength(x);
    }
    forall x: seq<Byte>, n: nat | n < |x| && Opens(p, x) ensures !Opens(p, x[..n]) {
      DemoCut(x, n);
    }
    forall x: seq<Byte>, y: seq<Byte> | |x| <= 4 && |y| <= 4 && p.sha(x) == p.sha(y) ensures x == y {
      DemoDigests(x, y);
    }
  }

  lemma DemoLength(x: seq<Byte>)
    requires Opens(DEMO_PARAMS, x)
    ensures |x| == |Plain(DEMO_PARAMS, x)| + 4
  {
    hide Value32;
  }

  /** So there is a run in which everything comes to rest and a file has not come back. */
  lemma OneLost() returns (states: seq<Sys>, steps: seq<Step>, f: U32)
    ensures IsRun(DEMO_PARAMS, states, steps) && Extracted(DEMO_PARAMS, states, steps, |steps|, f)
    ensures states[|steps|].client.recovered != states[|steps|].client.saved[f].file
  {
    hide Extracted, AllFit, OneBlock, Suits;
    DemoSuits();
    states, steps := TwoFilesRun(DEMO_PARAMS, [1, 1, 1, 1], [2, 2, 2, 2]);
    var c := states[|steps|].client;
    assert 1 in c.tickets.Keys && 2 in c.tickets.Keys;
    f := if c.recovered == [1, 1, 1, 1] then 2 else 1;
    assert [1, 1, 1, 1][0] != [2, 2, 2, 2][0];
  }
}
