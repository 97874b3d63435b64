/** Every run comes to rest: as long as there is room, in numbers, some step can be taken, a
    step leaves room, and the measure of `Progress` bounds how many there are. */
module Rest {
  import opened Bytes
  import opened Blocks
  import opened CoverLaws
  import opened Covering
  import opened Ids
  import opened Messages
  import opened Progress
  import opened Protocol
  import opened ProtocolLaws
  import opened ProtocolRuns
  import opened ProtocolSafety
  import opened ProtocolSteps
  import opened ProtocolTickets
  import opened Restore
  import opened Signatures
  import opened WeakChecksum

  /** A stored list can be worked on within 32-bit offsets, and completed to at most `cap`
      blocks. */
  ghost predicate ListRoom(p: Params, file: seq<Byte>, list: seq<Block>, cap: nat) {
    |file| < TWO32 && CanIndex(p.blockLength) ==>
      && InRange(list, |file|, p.blockLength)
      && forall sorted |
           IsSorting(Reused(file, p.sha, list, p.blockLength), sorted) && InRange(sorted, |file|, p.blockLength) ::
           |Completed(sorted, |file|, p.blockLength)| <= cap
  }

  ghost predicate TicketRoom(p: Params, c: Client, f: U32, cap: nat)
    requires f in c.tickets
  {
    var t := c.tickets[f];
    if t.status != AwaitingBlockList then |t.blocks| <= cap
    else
      f in c.saved ==>
        if c.mode == Extract then |c.saved[f].blocks| <= cap
        else ListRoom(p, t.file, PersistentAll(c.saved[f].blocks), cap)
  }

  /** The record is not cut off when it is given back. */
  predicate NotCut(store: map<U32, seq<Byte>>, a: U32) {
    a in store ==> |store[a]| < TWO16 || |store[a]| % TWO16 == 0
  }

  predicate NoneCut(store: map<U32, seq<Byte>>, bs: seq<Block>) {
    forall i :: 0 <= i < |bs| ==> NotCut(store, bs[i].remoteId)
  }

  /** What a ticket asks for, or will, is not cut off. */
  predicate RecordRoom(c: Client, store: map<U32, seq<Byte>>, f: U32)
    requires f in c.tickets
  {
    var t := c.tickets[f];
    if t.status == AwaitingBlockList then
      f in c.saved ==>
        && NotCut(store, c.saved[f].listRemoteId)
        && (c.mode == Extract ==> NoneCut(store, c.saved[f].blocks))
    else c.mode == Extract ==> NoneCut(store, t.blocks)
  }

  ghost predicate RecordsIn(s: Sys) {
    forall g :: g in s.client.tickets ==> RecordRoom(s.client, s.server.store, g)
  }

  /** What the steps need besides the protocol, in numbers: data of up to `limit` bytes, which
      is enough for blocks and lists, can be sealed and sent; no record that is asked for is
      cut off; lists have at most `cap` blocks; and the server's ids and the client's last as
      long as there are steps to take. */
  ghost predicate HasRoom(p: Params, s: Sys, limit: nat, cap: nat) {
    && (forall plain: seq<Byte> | |plain| <= limit :: exists payload :: Seals(p, payload, plain))
    && 4 + BLOCK_SIZE * cap <= limit && p.blockLength <= limit
    && s.server.last + Measure(s, cap) < TWO32 && s.client.lastLocal + Measure(s, cap) < TWO32
    && (forall f :: f in s.client.tickets ==> TicketRoom(p, s.client, f, cap))
    && RecordsIn(s)
  }

  // ---- a step to take ----

  lemma CanAcknowledge(p: Params, s: Sys, limit: nat, cap: nat) returns (listPayload: seq<Byte>)
    requires Inv(p, s) && HasRoom(p, s, limit, cap) && s.s2c != [] && s.s2c[0].PutAck?
    ensures Enabled(p, s, Receive([], listPayload))
  {
    hide SavedInv, UnderWay, BlocksInv, TicketInv, EncodeList, Seals, WayInv, EncodeListOf, Measure, ListRoom;
    var PutAck(f, b, a) := s.s2c[0];
    var c, store, way := s.client, s.server.store, UnderWay(s, f);
    FirstUnderWay(s, f);
    assert TicketInv(p, c, store, f, way);
    Acknowledging(p, c, store, f, way);
    var t := c.tickets[f];
    listPayload := [];
    var k := FindBlock(t.blocks, b);
    if b != 0 && k >= 0 && SendsList(Acked(t, k, a)) {
      assert TicketRoom(p, c, f, cap);
      ToBeSent(p, store, c.lastLocal, t);
      var blocks := Acked(t, k, a).blocks;
      StillStorable(t.blocks, k, a);
      var plain := EncodeList(blocks);
      listPayload :| Seals(p, listPayload, plain);
    }
  }

  lemma StillStorable(bs: seq<Block>, k: nat, a: U32)
    requires AllStorable(bs) && k < |bs|
    ensures AllStorable(bs[k := bs[k].(remoteId := a)])
  {
    var cs := bs[k := bs[k].(remoteId := a)];
    forall x | x in cs ensures Storable(x) {
      assert bs[k] in bs;
      assert x == cs[k] || x in bs;
    }
  }

  /** The blocks of an archiving ticket that are to be sent are new ones. */
  lemma ToBeSent(p: Params, store: map<U32, seq<Byte>>, lastLocal: nat, t: Ticket)
    requires BlocksInv(p, store, lastLocal, t)
    ensures |t.blocks| < TWO32 && AllStorable(t.blocks)
    ensures forall b :: b in t.blocks ==> b.localId != 0
    ensures t.next < |t.blocks| && NeedsSending(t.blocks[t.next]) ==> 0 < t.blocks[t.next].length <= p.blockLength
  {
    hide IsStored, IsTrue, Added;
    if t.next < |t.blocks| && NeedsSending(t.blocks[t.next]) {
      var b, list := t.blocks[t.next], Completed(t.sorted, |t.file|, p.blockLength);
      assert b in t.blocks && t.next >= |t.sorted|;
      AddedLengths(t.sorted, |t.file|, p.blockLength);
      assert list[t.next] in Added(t.sorted, |t.file|, p.blockLength);
    }
  }

  /** A list that has come can be sorted and completed. */
  lemma CanComplete(p: Params, c: Client, store: map<U32, seq<Byte>>, f: U32, way: seq<Item>, cap: nat)
    returns (sorted: seq<Block>)
    requires GoodParams(p) && SavedInv(p, c, store) && TicketInv(p, c, store, f, way) && c.mode == Archive
    requires way != [] && way[0].Get? && way[0].blockId == 0 && f in c.tickets && TicketRoom(p, c, f, cap)
    requires c.lastLocal + cap < TWO32 && Opens(p, way[0].data)
    ensures CanAcceptList(p, c, f, way[0].data, sorted)
  {
    hide TicketInv, StoredList, DecodeList, Planned, HasList, InRange, IsSorting, Reused, Unsaved, Added;
    Listed(p, c, store, f, way);
    var file, bs := c.tickets[f].file, c.saved[f].blocks;
    var list := PersistentAll(bs);
    StoredIds(p, store, c.saved[f].file, bs, c.lastLocal);
    PersistentIds(bs, c.lastLocal);
    ReusedInRange(file, p.sha, list, p.blockLength);
    var reused := Reused(file, p.sha, list, p.blockLength);
    sorted := SomeSorting(reused);
    SortingInRange(reused, sorted, |file|, p.blockLength);
    UnsavedAtMost(Completed(sorted, |file|, p.blockLength));
  }

  lemma StoredIds(p: Params, store: map<U32, seq<Byte>>, file: seq<Byte>, bs: seq<Block>, lastLocal: nat)
    requires StoredList(p, store, file, bs, lastLocal)
    ensures GoodIds(bs, lastLocal)
  {
  }

  lemma CanExtract(p: Params, c: Client, store: map<U32, seq<Byte>>, f: U32, way: seq<Item>)
    requires GoodParams(p) && SavedInv(p, c, store) && TicketInv(p, c, store, f, way) && c.mode == Extract
    requires way != [] && way[0].Get? && way[0].blockId == 0 && Opens(p, way[0].data)
    ensures CanAcceptList(p, c, f, way[0].data, [])
  {
    hide TicketInv, StoredList, DecodeList, Planned, HasList;
    Listed(p, c, store, f, way);
    assert |PersistentAll(c.saved[f].blocks)| == |c.saved[f].blocks|;
  }

  /** The answer to a request for a list that is not cut off opens, or holds nothing. */
  lemma ListOpens(p: Params, c: Client, store: map<U32, seq<Byte>>, f: U32, way: seq<Item>)
    requires GoodParams(p) && SavedInv(p, c, store) && TicketInv(p, c, store, f, way)
    requires way != [] && way[0].Get? && way[0].blockId == 0 && f in c.tickets && RecordRoom(c, store, f)
    ensures way[0].data == [] || Opens(p, way[0].data)
  {
    hide TicketInv, StoredList, DecodeList, Planned, EncodeListOf, Opens;
    Listed(p, c, store, f, way);
    WholeOrCut(p, store, c.saved[f].listRemoteId);
  }

  lemma BlockOpens(p: Params, c: Client, store: map<U32, seq<Byte>>, f: U32, way: seq<Item>)
    requires GoodParams(p) && SavedInv(p, c, store) && TicketInv(p, c, store, f, way)
    requires forall a :: a in store ==> a != 0 && store[a] != []
    requires way != [] && way[0].Get? && way[0].blockId != 0 && f in c.tickets && RecordRoom(c, store, f)
    ensures way[0].data == [] || Opens(p, way[0].data)
  {
    hide TicketInv, StoredList, SavedInv, GoodIds, Opens, Answer, Delivered, ArchiveInv, AskingInv;
    Installing(p, c, store, f, way);
    var t := c.tickets[f];
    NextAnswered(p, c, store, f, t, way);
    WholeOrCut(p, store, t.blocks[t.next - |way|].remoteId);
  }

  lemma CanGet(p: Params, s: Sys, limit: nat, cap: nat) returns (sorted: seq<Block>)
    requires GoodParams(p) && Inv(p, s) && HasRoom(p, s, limit, cap) && s.s2c != [] && s.s2c[0].GetAck?
    ensures Enabled(p, s, Receive(sorted, []))
  {
    hide SavedInv, UnderWay, TicketInv, CanAcceptList, Seals, StoredList, DecodeList, ExtractInv, AskingInv,
         ArchiveInv, ListRoom, Total, RecordRoom, Opens;
    var GetAck(f, b, data) := s.s2c[0];
    var c, store, way := s.client, s.server.store, UnderWay(s, f);
    FirstUnderWay(s, f);
    assert TicketInv(p, c, store, f, way);
    NotAGet(p, store, c, f, way);
    sorted := [];
    if b != 0 {
      BlockOpens(p, c, store, f, way);
    } else {
      ListOpens(p, c, store, f, way);
      if data == [] {
        NothingListed(p, c, f);
      } else if c.mode == Archive {
        assert TicketRoom(p, c, f, cap);
        Listed(p, c, store, f, way);
        TotalWithout(c.tickets, f, cap);
        sorted := CanComplete(p, c, store, f, way, cap);
      } else {
        CanExtract(p, c, store, f, way);
      }
    }
  }

  lemma NothingListed(p: Params, c: Client, f: U32)
    requires f in c.tickets
    ensures CanAcceptList(p, c, f, [], [])
  {
  }

  lemma CanSend(p: Params, s: Sys, limit: nat, cap: nat, f: U32) returns (e: Step)
    requires Inv(p, s) && HasRoom(p, s, limit, cap)
    requires f in s.client.tickets && s.client.tickets[f].status in {SendingBlocks, SendingBlockRequests}
    ensures Moves(e) && Enabled(p, s, e)
  {
    hide SavedInv, UnderWay, BlocksInv, ExtractInv, Seals, WayInv, ListRoom, Measure;
    var c, store, t := s.client, s.server.store, s.client.tickets[f];
    assert TicketInv(p, c, store, f, UnderWay(s, f));
    e := RequestBlock(f);
    if t.status == SendingBlocks {
      var fill := Fill([], [], 0);
      SendingBlocksArchives(p, c, store, f, UnderWay(s, f));
      ToBeSent(p, store, c.lastLocal, t);
      if t.next < |t.blocks| && NeedsSending(t.blocks[t.next]) {
        var b := t.blocks[t.next];
        assert b in t.blocks;
        fill := CanFill(p, t.file, b, limit);
      }
      e := SendBlock(f, fill);
    }
  }

  lemma SendingBlocksArchives(p: Params, c: Client, store: map<U32, seq<Byte>>, f: U32, way: seq<Item>)
    requires f in c.tickets && TicketInv(p, c, store, f, way) && c.tickets[f].status == SendingBlocks
    ensures BlocksInv(p, store, c.lastLocal, c.tickets[f])
  {
    hide BlocksInv;
  }

  lemma CanFill(p: Params, file: seq<Byte>, b: Block, limit: nat) returns (fill: Fill)
    requires forall plain: seq<Byte> | |plain| <= limit :: exists payload :: Seals(p, payload, plain)
    requires 0 < b.length <= limit && b.localId != 0
    ensures FillOk(p, file, b, fill)
  {
    hide Seals;
    var read := Slice(file, b.offset, b.length);
    var junk := Zeros(b.length - |read|);
    var plain := read + junk;
    assert |plain| <= limit;
    var payload :| Seals(p, payload, plain);
    fill := Fill(payload, junk, if ReadFor(|read|) <= b.length then WeakOf(plain, |read|) else 0);
  }

  /** As long as the state is not at rest, there is a step to take: no message finds the
      client without the ticket or the block that it is about, and every list that comes can
      be worked on. */
  lemma CanMove(p: Params, s: Sys, limit: nat, cap: nat) returns (e: Step)
    requires GoodParams(p) && Inv(p, s) && HasRoom(p, s, limit, cap) && !AtRest(s)
    ensures Moves(e) && Enabled(p, s, e)
  {
    hide SavedInv, TicketInv, TicketRoom, Total;
    if s.c2s != [] {
      e := Serve;
    } else if s.s2c != [] {
      TailFrom(s.s2c, s.server.store);
      var sorted: seq<Block>, listPayload: seq<Byte> := [], [];
      if s.s2c[0].PutAck? {
        listPayload := CanAcknowledge(p, s, limit, cap);
      } else if s.s2c[0].GetAck? {
        sorted := CanGet(p, s, limit, cap);
      }
      e := Receive(sorted, listPayload);
    } else {
      var f :| f in s.client.tickets && s.client.tickets[f].status in {SendingBlocks, SendingBlockRequests};
      e := CanSend(p, s, limit, cap, f);
    }
  }

  // ---- a step leaves room ----

  /** The tickets other than one, and what they wait for, stay. */
  ghost predicate OthersStay(c: Client, c': Client, f: U32) {
    && c'.mode == c.mode
    && (forall g :: g in c'.tickets && g != f ==> g in c.tickets && c'.tickets[g] == c.tickets[g])
    && (forall g :: g in c'.saved && g != f ==> g in c.saved && c'.saved[g] == c.saved[g])
  }

  lemma RoomFor(p: Params, c: Client, c': Client, f: U32, cap: nat)
    requires OthersStay(c, c', f) && forall g :: g in c.tickets ==> TicketRoom(p, c, g, cap)
    requires f in c'.tickets ==> TicketRoom(p, c', f, cap)
    ensures forall g :: g in c'.tickets ==> TicketRoom(p, c', g, cap)
  {
    hide ListRoom;
  }

  lemma SendingKeepsRoom(p: Params, s: Sys, e: Step, cap: nat)
    requires Enabled(p, s, e) && (e.SendBlock? || e.RequestBlock?)
    requires forall g :: g in s.client.tickets ==> TicketRoom(p, s.client, g, cap)
    ensures forall g :: g in Next(p, s, e).client.tickets ==> TicketRoom(p, Next(p, s, e).client, g, cap)
  {
    hide ListRoom, FillOk;
    assert TicketRoom(p, s.client, e.fid, cap);
    RoomFor(p, s.client, Next(p, s, e).client, e.fid, cap);
  }

  lemma AckKeepsRoom(p: Params, s: Sys, e: Step, cap: nat)
    requires Enabled(p, s, e) && e.Receive? && s.s2c[0].PutAck?
    requires forall g :: g in s.client.tickets ==> TicketRoom(p, s.client, g, cap)
    ensures forall g :: g in Next(p, s, e).client.tickets ==> TicketRoom(p, Next(p, s, e).client, g, cap)
  {
    hide ListRoom, ListPayloadOk;
    assert TicketRoom(p, s.client, s.s2c[0].fileId, cap);
    RoomFor(p, s.client, Next(p, s, e).client, s.s2c[0].fileId, cap);
  }

  lemma BlockKeepsRoom(p: Params, s: Sys, e: Step, cap: nat)
    requires Enabled(p, s, e) && e.Receive? && s.s2c[0].GetAck? && s.s2c[0].blockId != 0
    requires forall g :: g in s.client.tickets ==> TicketRoom(p, s.client, g, cap)
    ensures forall g :: g in Next(p, s, e).client.tickets ==> TicketRoom(p, Next(p, s, e).client, g, cap)
  {
    hide ListRoom, WriteAt, Install;
    assert TicketRoom(p, s.client, s.s2c[0].fileId, cap);
    RoomFor(p, s.client, Next(p, s, e).client, s.s2c[0].fileId, cap);
  }

  lemma ListKeepsRoom(p: Params, s: Sys, e: Step, cap: nat)
    requires GoodParams(p) && Inv(p, s) && Enabled(p, s, e) && e.Receive?
    requires s.s2c[0].GetAck? && s.s2c[0].blockId == 0
    requires forall g :: g in s.client.tickets ==> TicketRoom(p, s.client, g, cap)
    ensures ListWithin(p, s, e, cap)
    ensures forall g :: g in Next(p, s, e).client.tickets ==> TicketRoom(p, Next(p, s, e).client, g, cap)
  {
    hide SavedInv, UnderWay, TicketInv, DecodeList, Completed, WithIds, Reused, InRange, Unsaved, StoredList, HasList,
         IsSorting;
    var f, c := s.s2c[0].fileId, s.client;
    FirstUnderWay(s, f);
    assert TicketInv(p, c, s.server.store, f, UnderWay(s, f));
    Listed(p, c, s.server.store, f, UnderWay(s, f));
    assert TicketRoom(p, c, f, cap);
    RoomFor(p, c, Next(p, s, e).client, f, cap);
  }

  // ---- records stay ----

  lemma RecordsFor(c: Client, c': Client, store: map<U32, seq<Byte>>, f: U32)
    requires OthersStay(c, c', f) && forall g :: g in c.tickets ==> RecordRoom(c, store, g)
    requires f in c'.tickets ==> RecordRoom(c', store, f)
    ensures forall g :: g in c'.tickets ==> RecordRoom(c', store, g)
  {
    hide NotCut, NoneCut;
  }

  lemma SendKeepsRecords(p: Params, s: Sys, f: U32, fill: Fill)
    requires Inv(p, s) && RecordsIn(s) && Enabled(p, s, SendBlock(f, fill))
    ensures RecordsIn(Next(p, s, SendBlock(f, fill)))
  {
    hide Inv, CanSendOne, NotCut, NoneCut;
    Sending(p, s, f, fill);
    RecordsFor(s.client, Next(p, s, SendBlock(f, fill)).client, s.server.store, f);
  }

  lemma RequestKeepsRecords(p: Params, s: Sys, f: U32)
    requires RecordsIn(s) && Enabled(p, s, RequestBlock(f))
    ensures RecordsIn(Next(p, s, RequestBlock(f)))
  {
    hide NotCut, NoneCut;
    assert RecordRoom(s.client, s.server.store, f);
    RecordsFor(s.client, Next(p, s, RequestBlock(f)).client, s.server.store, f);
  }

  lemma AckKeepsRecords(p: Params, s: Sys, e: Step)
    requires Inv(p, s) && RecordsIn(s) && Enabled(p, s, e) && e.Receive? && s.s2c[0].PutAck?
    ensures RecordsIn(Next(p, s, e))
  {
    hide SavedInv, UnderWay, ArchiveInv, ExtractInv, ServerInv, ListPayloadOk, NotCut, NoneCut, FindBlock;
    var f := s.s2c[0].fileId;
    FirstUnderWay(s, f);
    assert TicketInv(p, s.client, s.server.store, f, UnderWay(s, f));
    Acknowledging(p, s.client, s.server.store, f, UnderWay(s, f));
    RecordsFor(s.client, Next(p, s, e).client, s.server.store, f);
  }

  lemma BlockKeepsRecords(p: Params, s: Sys, e: Step)
    requires RecordsIn(s) && Enabled(p, s, e) && e.Receive? && s.s2c[0].GetAck? && s.s2c[0].blockId != 0
    ensures RecordsIn(Next(p, s, e))
  {
    hide NotCut, WriteAt, Install, Plain, Opens;
    assert RecordRoom(s.client, s.server.store, s.s2c[0].fileId);
    RecordsFor(s.client, Next(p, s, e).client, s.server.store, s.s2c[0].fileId);
  }

  lemma ListKeepsRecords(p: Params, s: Sys, e: Step)
    requires GoodParams(p) && Inv(p, s) && RecordsIn(s) && Enabled(p, s, e) && e.Receive?
    requires s.s2c[0].GetAck? && s.s2c[0].blockId == 0
    ensures RecordsIn(Next(p, s, e))
  {
    hide SavedInv, UnderWay, TicketInv, DecodeList, Completed, WithIds, Reused, InRange, Unsaved, StoredList, HasList,
         IsSorting, NotCut, Opens, Fits, Plain, Answer;
    var f, c := s.s2c[0].fileId, s.client;
    FirstUnderWay(s, f);
    assert TicketInv(p, c, s.server.store, f, UnderWay(s, f));
    Listed(p, c, s.server.store, f, UnderWay(s, f));
    assert RecordRoom(c, s.server.store, f);
    RecordsFor(c, Next(p, s, e).client, s.server.store, f);
  }

  /** What a ticket asks for is stored already. */
  lemma ServeKeepsRecords(p: Params, s: Sys)
    requires Inv(p, s) && RecordsIn(s) && Enabled(p, s, Serve)
    ensures RecordsIn(Next(p, s, Serve))
  {
    hide Inv, ServeOne, NotCut, RecordRoom;
    var c, store, s' := s.client, s.server.store, Next(p, s, Serve);
    InvServer(p, s);
    ServeExtends(s.server, s.c2s[0]);
    forall f | f in c.tickets ensures RecordRoom(c, s'.server.store, f) {
      assert RecordRoom(c, store, f);
      RecordStays(p, s, s'.server.store, f);
    }
  }

  lemma InvServer(p: Params, s: Sys)
    requires Inv(p, s)
    ensures ServerInv(s.server)
  {
  }

  lemma RecordStays(p: Params, s: Sys, store': map<U32, seq<Byte>>, f: U32)
    requires Inv(p, s) && f in s.client.tickets && RecordRoom(s.client, s.server.store, f)
    requires Extends(s.server.store, store')
    ensures RecordRoom(s.client, store', f)
  {
    hide UnderWay, ArchiveInv, Planned, IsStored, IsTrue, Delivered, GoodIds, AllStorable, EncodeListOf;
    var c, store := s.client, s.server.store;
    assert TicketInv(p, c, store, f, UnderWay(s, f));
    if f in c.saved {
      SavedRecords(p, c, store, f);
    }
    forall i | 0 <= i < |c.tickets[f].blocks| && c.mode == Extract
      ensures c.tickets[f].blocks[i].remoteId in store
    {
      assert c.tickets[f].blocks[i] in c.tickets[f].blocks;
    }
  }

  lemma SavedRecords(p: Params, c: Client, store: map<U32, seq<Byte>>, f: U32)
    requires SavedInv(p, c, store) && f in c.saved
    ensures c.saved[f].listRemoteId in store
    ensures forall i :: 0 <= i < |c.saved[f].blocks| ==> c.saved[f].blocks[i].remoteId in store
  {
    hide Planned, IsTrue, GoodIds, EncodeListOf;
    assert forall i :: 0 <= i < |c.saved[f].blocks| ==> c.saved[f].blocks[i] in c.saved[f].blocks;
  }

  lemma RecordsKept(p: Params, s: Sys, e: Step)
    requires GoodParams(p) && Inv(p, s) && RecordsIn(s) && Enabled(p, s, e) && Moves(e)
    ensures RecordsIn(Next(p, s, e))
  {
    hide Inv, RecordsIn;
    match e {
      case SendBlock(f, fill) => SendKeepsRecords(p, s, f, fill);
      case RequestBlock(f) => RequestKeepsRecords(p, s, f);
      case Serve => ServeKeepsRecords(p, s);
      case WalkDone => SameRecords(p, s, e);
      case Receive(_, _) =>
        if s.s2c[0].PutAck? {
          AckKeepsRecords(p, s, e);
        } else if !s.s2c[0].GetAck? {
          SameRecords(p, s, e);
        } else if s.s2c[0].blockId != 0 {
          BlockKeepsRecords(p, s, e);
        } else {
          ListKeepsRecords(p, s, e);
        }
    }
  }

  lemma SameRecords(p: Params, s: Sys, e: Step)
    requires RecordsIn(s) && Enabled(p, s, e)
    requires e.WalkDone? || (e.Receive? && !s.s2c[0].PutAck? && !s.s2c[0].GetAck?)
    ensures RecordsIn(Next(p, s, e))
  {
    hide NotCut, NoneCut;
  }

  /** A step leaves as much room as the steps to come need. */
  lemma RoomKept(p: Params, s: Sys, e: Step, limit: nat, cap: nat)
    requires GoodParams(p) && Inv(p, s) && HasRoom(p, s, limit, cap) && Enabled(p, s, e) && Moves(e)
    ensures GoesDown(s, Next(p, s, e), cap) && HasRoom(p, Next(p, s, e), limit, cap)
  {
    hide Inv, TicketRoom, Measure, Seals;
    if e.SendBlock? || e.RequestBlock? {
      SendingKeepsRoom(p, s, e, cap);
    } else if e.Receive? && s.s2c[0].PutAck? {
      AckKeepsRoom(p, s, e, cap);
    } else if e.Receive? && s.s2c[0].GetAck? && s.s2c[0].blockId != 0 {
      BlockKeepsRoom(p, s, e, cap);
    } else if e.Receive? && s.s2c[0].GetAck? {
      ListKeepsRoom(p, s, e, cap);
    } else {
      SameRoom(p, s, e, cap);
    }
    RecordsKept(p, s, e);
    StepGoesDown(p, s, e, cap);
  }

  lemma SameRoom(p: Params, s: Sys, e: Step, cap: nat)
    requires Enabled(p, s, e) && (e.Serve? || e.WalkDone? || (e.Receive? && !s.s2c[0].PutAck? && !s.s2c[0].GetAck?))
    requires forall g :: g in s.client.tickets ==> TicketRoom(p, s.client, g, cap)
    ensures forall g :: g in Next(p, s, e).client.tickets ==> TicketRoom(p, Next(p, s, e).client, g, cap)
  {
    hide ListRoom;
  }

  // ---- coming to rest ----

  /** Moves only, one after the other, from the given state. */
  ghost predicate MovesOn(p: Params, s: Sys, states: seq<Sys>, steps: seq<Step>) {
    && |states| == |steps| + 1 && states[0] == s
    && forall i | 0 <= i < |steps| ::
         Moves(steps[i]) && Enabled(p, states[i], steps[i]) && states[i + 1] == Next(p, states[i], steps[i])
  }

  lemma {:induction false} RoomAlong(p: Params, s: Sys, states: seq<Sys>, steps: seq<Step>, n: nat, limit: nat,
                                     cap: nat)
    requires GoodParams(p) && Inv(p, s) && HasRoom(p, s, limit, cap) && MovesOn(p, s, states, steps) && n <= |steps|
    ensures Inv(p, states[n]) && HasRoom(p, states[n], limit, cap)
    ensures Measure(states[n], cap) + n <= Measure(s, cap)
    ensures Measure(states[n], cap) + states[n].server.last <= Measure(s, cap) + s.server.last
    ensures Measure(states[n], cap) + states[n].client.lastLocal <= Measure(s, cap) + s.client.lastLocal
  {
    hide Inv, HasRoom, Enabled, Next, Measure;
    if n > 0 {
      RoomAlong(p, s, states, steps, n - 1, limit, cap);
      StepKeeps(p, states[n - 1], steps[n - 1]);
      RoomKept(p, states[n - 1], steps[n - 1], limit, cap);
    }
  }

  /** From any reached state with room, moves come to rest in at most as many steps as the
      measure says, whatever their order: moves that cannot go on end at rest. */
  lemma MaximalRunRests(p: Params, s: Sys, states: seq<Sys>, steps: seq<Step>, limit: nat, cap: nat)
    requires GoodParams(p) && Inv(p, s) && HasRoom(p, s, limit, cap) && MovesOn(p, s, states, steps)
    requires forall e :: Moves(e) ==> !Enabled(p, states[|steps|], e)
    ensures AtRest(states[|steps|]) && |steps| <= Measure(s, cap)
  {
    hide Inv, HasRoom, Enabled, Next, Measure, AtRest;
    RoomAlong(p, s, states, steps, |steps|, limit, cap);
    if !AtRest(states[|steps|]) {
      var e := CanMove(p, states[|steps|], limit, cap);
    }
  }

  /** And there are moves that come to rest. */
  lemma {:induction false} SomeRunRests(p: Params, s: Sys, limit: nat, cap: nat)
    returns (states: seq<Sys>, steps: seq<Step>)
    requires GoodParams(p) && Inv(p, s) && HasRoom(p, s, limit, cap)
    ensures MovesOn(p, s, states, steps) && AtRest(states[|steps|])
    decreases Measure(s, cap)
  {
    hide Inv, HasRoom, Enabled, Next, Measure, AtRest;
    if AtRest(s) {
      states, steps := [s], [];
    } else {
      var e := CanMove(p, s, limit, cap);
      StepKeeps(p, s, e);
      RoomKept(p, s, e, limit, cap);
      var rest, es := SomeRunRests(p, Next(p, s, e), limit, cap);
      states, steps := [s] + rest, [e] + es;
    }
  }
}
