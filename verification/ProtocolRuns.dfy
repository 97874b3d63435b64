/** Every run of the protocol keeps the invariant, and what follows for its users. */
module ProtocolRuns {
  import opened Bytes
  import opened Blocks
  import opened CoverLaws
  import opened Covering
  import opened Ids
  import opened Matching
  import opened Messages
  import opened Options
  import opened Protocol
  import opened ProtocolSafety
  import opened ProtocolSteps
  import opened ProtocolTickets
  import opened RollingIndex
  import opened Signatures
  import opened WeakChecksum

  /** A step of the client that concerns the ticket of one file. */
  ghost predicate Concerns(s: Sys, s': Sys, f: U32) {
    && s'.server == s.server && s'.client.mode == s.client.mode
    && s.client.lastLocal <= s'.client.lastLocal < TWO32
    && (forall g: U32 | g != f :: UnderWay(s', g) == UnderWay(s, g))
    && (forall g: U32 | g != f :: g in s'.client.tickets <==> g in s.client.tickets)
    && (forall g: U32 | g != f && g in s.client.tickets :: s'.client.tickets[g] == s.client.tickets[g])
    && (forall g: U32 | g != f && g in s.client.saved ::
          g in s'.client.saved && s'.client.saved[g] == s.client.saved[g])
  }

  lemma Assemble(p: Params, s: Sys, s': Sys, f: U32)
    requires Inv(p, s) && Concerns(s, s', f)
    requires TicketInv(p, s'.client, s'.server.store, f, UnderWay(s', f))
    requires FromClient(s'.c2s, s'.server.store) && FromServer(s'.s2c, s'.server.store)
    requires SavedInv(p, s'.client, s'.server.store) && ByeInv(s'.client)
    ensures Inv(p, s')
  {
    hide TicketInv, SavedInv, UnderWay, ServerInv;
    var store := s.server.store;
    forall g: U32 ensures TicketInv(p, s'.client, store, g, UnderWay(s', g)) {
      if g != f {
        TicketKept(p, s.client, store, s'.client, store, g, UnderWay(s, g));
      }
    }
  }

  lemma FromClientConcat(a: seq<Message>, b: seq<Message>, store: map<U32, seq<Byte>>)
    requires FromClient(a, store) && FromClient(b, store)
    ensures FromClient(a + b, store)
  {
  }

  /** At most one message, for file `f`, is put on the way to the server. */
  lemma SentFor(s: Sys, s': Sys, ms: seq<Message>, f: U32)
    requires s'.s2c == s.s2c && s'.server == s.server && s'.c2s == s.c2s + ms
    requires forall m :: m in ms ==> m.Bye? || IsFor(m, f)
    ensures UnderWay(s', f) == UnderWay(s, f) + Items(ms, s.server.store, f)
    ensures forall g: U32 | g != f :: UnderWay(s', g) == UnderWay(s, g)
  {
    hide ItemOf;
    var store := s.server.store;
    ItemsConcat(s.c2s, ms, store, f);
    forall g: U32 | g != f ensures UnderWay(s', g) == UnderWay(s, g) {
      ItemsConcat(s.c2s, ms, store, g);
      NotFor(ms, store, f, g);
    }
  }

  lemma {:induction false} NotFor(ms: seq<Message>, store: map<U32, seq<Byte>>, f: U32, g: U32)
    requires f != g && forall m :: m in ms ==> m.Bye? || IsFor(m, f)
    ensures Items(ms, store, g) == []
  {
    if ms != [] {
      assert ms[0] in ms;
      NotFor(ms[1..], store, f, g);
    }
  }

  lemma SendKeeps(p: Params, s: Sys, f: U32, fill: Fill)
    requires GoodParams(p) && Inv(p, s) && Enabled(p, s, SendBlock(f, fill))
    ensures Inv(p, Next(p, s, SendBlock(f, fill)))
  {
    hide SavedInv, Items, ArchiveInv, CanSendOne, SendOne, ServerInv;
    var s' := Next(p, s, SendBlock(f, fill));
    var c, store, t := s.client, s.server.store, s.client.tickets[f];
    var way := UnderWay(s, f);
    Sending(p, s, f, fill);
    var r := SendOne(p, f, t, fill);
    SendTicket(p, store, c.lastLocal, f, t, fill, way);
    SendsFor(p, f, t, fill);
    SentFor(s, s', r.1, f);
    FromClientConcat(s.c2s, r.1, store);
    SavedKept(p, c, store, s'.client, store);
    ArchiveTicket(p, s'.client, store, f, way + Items(r.1, store, f));
    Assemble(p, s, s', f);
  }

  lemma Sending(p: Params, s: Sys, f: U32, fill: Fill)
    requires Inv(p, s) && Enabled(p, s, SendBlock(f, fill))
    ensures
      var t := s.client.tickets[f];
      && f != 0 && t.action == s.client.mode == Archive
      && ArchiveInv(p, s.server.store, s.client.lastLocal, t, UnderWay(s, f))
  {
    hide ArchiveInv, UnderWay, SavedInv;
    assert TicketInv(p, s.client, s.server.store, f, UnderWay(s, f));
  }

  lemma SendsFor(p: Params, f: U32, t: Ticket, fill: Fill)
    ensures forall m :: m in SendOne(p, f, t, fill).1 ==> m.Bye? || IsFor(m, f)
  {
  }

  lemma ArchiveTicket(p: Params, c: Client, store: map<U32, seq<Byte>>, f: U32, way: seq<Item>)
    requires f in c.tickets && f != 0 && c.tickets[f].action == c.mode == Archive
    requires ArchiveInv(p, store, c.lastLocal, c.tickets[f], way)
    ensures TicketInv(p, c, store, f, way)
  {
    hide BlocksInv;
  }

  lemma RequestKeeps(p: Params, s: Sys, f: U32)
    requires Inv(p, s) && Enabled(p, s, RequestBlock(f))
    ensures Inv(p, Next(p, s, RequestBlock(f)))
  {
    hide SavedInv, Items, ArchiveInv, ExtractInv;
    var s' := Next(p, s, RequestBlock(f));
    var c, store, t := s.client, s.server.store, s.client.tickets[f];
    var way := UnderWay(s, f);
    assert TicketInv(p, c, store, f, way);
    Requesting(p, c, store, f, way);
    RequestTicket(p, c, store, f, t, way);
    var r := RequestOne(f, t);
    SentFor(s, s', r.1, f);
    FromClientConcat(s.c2s, r.1, store);
    SavedKept(p, c, store, s'.client, store);
    ExtractTicket(p, c, s'.client, store, f, way + Items(r.1, store, f));
    Assemble(p, s, s', f);
  }

  lemma Requesting(p: Params, c: Client, store: map<U32, seq<Byte>>, f: U32, way: seq<Item>)
    requires f in c.tickets && TicketInv(p, c, store, f, way)
    requires c.tickets[f].status == SendingBlockRequests
    ensures f != 0 && c.tickets[f].action == c.mode == Extract && ExtractInv(p, c, store, f, c.tickets[f], way)
  {
  }

  /** The promise of a ticket that extracts rests on the summaries only. */
  lemma ExtractTicket(p: Params, c: Client, c': Client, store: map<U32, seq<Byte>>, f: U32, way: seq<Item>)
    requires f in c'.tickets && f != 0 && c'.tickets[f].action == c'.mode == Extract && c'.saved == c.saved
    requires ExtractInv(p, c, store, f, c'.tickets[f], way)
    ensures TicketInv(p, c', store, f, way)
  {
  }

  // ---- the client receives ----

  /** The client has taken the first message, for file `f`, and sent messages for it. */
  lemma ReceivedWay(s: Sys, s': Sys, ms: seq<Message>, f: U32)
    requires s.s2c != [] && IsFor(s.s2c[0], f)
    requires s'.s2c == s.s2c[1..] && s'.server == s.server && s'.c2s == s.c2s + ms
    requires forall m :: m in ms ==> m.Bye? || IsFor(m, f)
    ensures UnderWay(s, f) != [] && UnderWay(s, f)[0] == ItemOf(s.s2c[0], s.server.store)
    ensures UnderWay(s', f) == UnderWay(s, f)[1..] + Items(ms, s.server.store, f)
    ensures ms == [] ==> UnderWay(s', f) == UnderWay(s, f)[1..]
    ensures forall g: U32 | g != f :: UnderWay(s', g) == UnderWay(s, g)
  {
    hide ItemOf;
    var mid := s.(s2c := s.s2c[1..]);
    WayReceived(s, mid, f);
    SentFor(mid, s', ms, f);
    forall g: U32 | g != f ensures UnderWay(s', g) == UnderWay(s, g) {
      WayReceived(s, mid, g);
      assert [] + UnderWay(mid, g) == UnderWay(mid, g);
    }
  }

  lemma FirstUnderWay(s: Sys, f: U32)
    requires s.s2c != [] && IsFor(s.s2c[0], f)
    ensures UnderWay(s, f) != [] && UnderWay(s, f)[0] == ItemOf(s.s2c[0], s.server.store)
  {
    hide ItemOf;
    WayReceived(s, s.(s2c := s.s2c[1..]), f);
  }

  lemma TailFrom(ms: seq<Message>, store: map<U32, seq<Byte>>)
    requires FromServer(ms, store) && ms != []
    ensures FromServer(ms[1..], store)
    ensures ms[0].Bye? || (ms[0].PutAck? && ms[0].archiveId in store) || ms[0].GetAck?
  {
    assert ms[0] in ms;
  }

  /** Only a ticket that archives has data under way to be stored. */
  lemma Acknowledging(p: Params, c: Client, store: map<U32, seq<Byte>>, f: U32, way: seq<Item>)
    requires TicketInv(p, c, store, f, way) && way != [] && way[0].Put?
    ensures f in c.tickets && f != 0 && c.tickets[f].action == c.mode == Archive
    ensures c.tickets[f].status != AwaitingBlockList && ArchiveInv(p, store, c.lastLocal, c.tickets[f], way)
    ensures c.tickets[f].status == AwaitingBlockListConfirm ==>
      way == [Put(0, way[0].payload)] && Seals(p, way[0].payload, EncodeListOf(c.tickets[f].blocks))
  {
    hide BlocksInv;
  }

  lemma PutAckKeeps(p: Params, s: Sys, sorted: seq<Block>, payload: seq<Byte>)
    requires Inv(p, s) && Enabled(p, s, Receive(sorted, payload)) && s.s2c[0].PutAck?
    requires s.s2c[0].fileId in s.client.tickets
    requires s.client.tickets[s.s2c[0].fileId].status != AwaitingBlockListConfirm
    ensures Inv(p, Next(p, s, Receive(sorted, payload)))
  {
    hide SavedInv, ArchiveInv, ServerInv, UnderWay, Items;
    var PutAck(f, b, a) := s.s2c[0];
    var c, store, s' := s.client, s.server.store, Next(p, s, Receive(sorted, payload));
    TailFrom(s.s2c, store);
    StoreIds(s.server, a);
    FirstUnderWay(s, f);
    Acknowledging(p, c, store, f, UnderWay(s, f));
    var r := AcceptPutAck(c, f, b, a, payload);
    BlockAcked(p, c, store, f, b, a, payload, UnderWay(s, f));
    ReceivedWay(s, s', r.1, f);
    FromClientConcat(s.c2s, r.1, store);
    SavedKept(p, c, store, s'.client, store);
    Assemble(p, s, s', f);
  }

  /** What the acknowledgement of a block makes of the client and of what is under way. */
  lemma BlockAcked(p: Params, c: Client, store: map<U32, seq<Byte>>, f: U32, b: U32, a: U32, payload: seq<Byte>,
                   way: seq<Item>)
    requires f in c.tickets && f != 0 && c.tickets[f].action == c.mode == Archive
    requires ArchiveInv(p, store, c.lastLocal, c.tickets[f], way)
    requires c.tickets[f].status != AwaitingBlockListConfirm
    requires a != 0 && a in store && way != [] && way[0] == Put(b, store[a])
    requires CanAcceptPutAck(p, c, f, b, a, payload)
    ensures
      var r := AcceptPutAck(c, f, b, a, payload);
      && f in r.0.tickets && r.0 == c.(tickets := c.tickets[f := r.0.tickets[f]])
      && (forall m :: m in r.1 ==> m.Bye? || IsFor(m, f)) && FromClient(r.1, store)
      && TicketInv(p, r.0, store, f, way[1..] + Items(r.1, store, f))
  {
    hide ArchiveInv, Items, ListPayloadOk, TicketInv;
    NotTheList(p, store, c.lastLocal, c.tickets[f], way);
    var k := AckedTicket(p, store, c.lastLocal, c.tickets[f], way, a, payload);
    AckMessages(p, c, f, b, a, payload, store);
    var r := AcceptPutAck(c, f, b, a, payload);
    var t' := Acked(c.tickets[f], k, a);
    assert way[1..] + [] == way[1..];
    assert way[1..] + Items(r.1, store, f) == if SendsList(t') then [Put(0, payload)] else way[1..];
    ArchiveTicket(p, r.0, store, f, way[1..] + Items(r.1, store, f));
  }

  lemma NotTheList(p: Params, store: map<U32, seq<Byte>>, lastLocal: nat, t: Ticket, way: seq<Item>)
    requires ArchiveInv(p, store, lastLocal, t, way) && t.status != AwaitingBlockListConfirm && way != []
    ensures way[0].Put? && way[0].blockId != 0
  {
    hide BlocksInv, WayInv;
    GoodOf(p, store, lastLocal, t);
    var k := AckedWay(p, lastLocal, t, way, 1);
  }

  lemma StoreIds(v: Server, a: U32)
    requires ServerInv(v) && a in v.store
    ensures a != 0
  {
  }

  lemma AckMessages(p: Params, c: Client, f: U32, b: U32, a: U32, payload: seq<Byte>, store: map<U32, seq<Byte>>)
    requires b != 0 && CanAcceptPutAck(p, c, f, b, a, payload)
    ensures
      var r := AcceptPutAck(c, f, b, a, payload);
      && (forall m :: m in r.1 ==> IsFor(m, f)) && FromClient(r.1, store)
      && Items(r.1, store, f) == if r.1 == [] then [] else [Put(0, payload)]
  {
    hide EncodeList;
    var r := AcceptPutAck(c, f, b, a, payload);
    if r.1 != [] {
      assert r.1[1..] == [];
    }
  }

  /** The block list was acknowledged: the summary is written, and leads to it. */
  lemma ListAckKeeps(p: Params, s: Sys, sorted: seq<Block>, payload: seq<Byte>)
    requires Inv(p, s) && Enabled(p, s, Receive(sorted, payload)) && s.s2c[0].PutAck?
    requires s.s2c[0].fileId in s.client.tickets
    requires s.client.tickets[s.s2c[0].fileId].status == AwaitingBlockListConfirm
    ensures Inv(p, Next(p, s, Receive(sorted, payload)))
  {
    hide SavedInv, ArchiveInv, ServerInv, UnderWay, Items, EncodeListOf;
    var PutAck(f, b, a) := s.s2c[0];
    var c, store, s' := s.client, s.server.store, Next(p, s, Receive(sorted, payload));
    var t, way := c.tickets[f], UnderWay(s, f);
    TailFrom(s.s2c, store);
    StoreIds(s.server, a);
    FirstUnderWay(s, f);
    Acknowledging(p, c, store, f, way);
    assert b == 0;
    var r := AcceptPutAck(c, f, b, a, payload);
    FarewellMessages(c.(saved := c.saved[f := Saved(a, t.file, t.blocks, t.sorted)], tickets := c.tickets - {f}),
                     store, f);
    ReceivedWay(s, s', r.1, f);
    FromClientConcat(s.c2s, r.1, store);
    assert way[1..] == [];
    SavedWith(p, c, store, f, a, way);
    SavedKept(p, c.(saved := s'.client.saved), store, s'.client, store);
    Assemble(p, s, s', f);
  }

  lemma FarewellMessages(c: Client, store: map<U32, seq<Byte>>, f: U32)
    ensures
      var r := Farewell(c);
      && (forall m :: m in r.1 ==> m.Bye?) && FromClient(r.1, store) && Items(r.1, store, f) == []
      && r.0 == c.(byes := r.0.byes)
      && r.0.byes == c.byes + (if c.tickets == map[] && !c.walking then 1 else 0)
  {
    var r := Farewell(c);
    if r.1 != [] {
      assert r.1[1..] == [];
    }
  }

  lemma SavedWith(p: Params, c: Client, store: map<U32, seq<Byte>>, f: U32, a: U32, way: seq<Item>)
    requires SavedInv(p, c, store) && f in c.tickets && c.tickets[f].status == AwaitingBlockListConfirm
    requires ArchiveInv(p, store, c.lastLocal, c.tickets[f], way)
    requires way == [Put(0, way[0].payload)] && a != 0 && a in store && store[a] == way[0].payload
    requires Seals(p, store[a], EncodeListOf(c.tickets[f].blocks))
    ensures
      var t := c.tickets[f];
      SavedInv(p, c.(saved := c.saved[f := Saved(a, t.file, t.blocks, t.sorted)]), store)
  {
    hide Planned, IsStored, IsTrue, EncodeListOf, GoodIds, Seals;
  }

  /** The answer to the request for a block list is what the server gives back of it: if that
      opens, the whole list. */
  lemma Listed(p: Params, c: Client, store: map<U32, seq<Byte>>, f: U32, way: seq<Item>)
    requires GoodParams(p) && SavedInv(p, c, store) && TicketInv(p, c, store, f, way)
    requires way != [] && way[0].Get? && way[0].blockId == 0
    ensures f in c.tickets && f != 0 && c.tickets[f].action == c.mode && c.tickets[f].status == AwaitingBlockList
    ensures AskingInv(p, c, store, f, c.tickets[f], way) && f in c.saved && way[1..] == []
    ensures
      var bs := c.saved[f].blocks;
      && way[0].data == Answer(store, c.saved[f].listRemoteId)
      && (Opens(p, way[0].data) ==>
            Fits(store, c.saved[f].listRemoteId) && DecodeList(Plain(p, way[0].data)) == Some(PersistentAll(bs)))
      && (Fits(store, c.saved[f].listRemoteId) ==> Opens(p, way[0].data))
      && StoredList(p, store, c.saved[f].file, bs, c.lastLocal)
  {
    hide Planned, EncodeList, IsStored, IsTrue, PersistentAll, DecodeList, ArchiveInv, IdsUpTo, Answer, Fits, Missing,
         Delivered;
    var t := c.tickets[f];
    if t.status != AwaitingBlockList {
      NotAGet(p, store, c, f, way);
      AskedIds(p, c, store, f, t, way);
    } else {
      ListRoundTrip(c.saved[f].blocks);
      WholeOrCut(p, store, c.saved[f].listRemoteId);
    }
  }

  lemma AskedIds(p: Params, c: Client, store: map<U32, seq<Byte>>, f: U32, t: Ticket, way: seq<Item>)
    requires ExtractInv(p, c, store, f, t, way) && way != []
    requires StoredList(p, store, c.saved[f].file, c.saved[f].blocks, c.lastLocal)
    ensures way[0].Get? && way[0].blockId != 0
  {
    hide PersistentAll, IsStored, IsTrue;
    PersistentIds(c.saved[f].blocks, c.lastLocal);
    var k := t.next - |way|;
    assert way[0] == Get(t.blocks[k + 0].localId, Answer(store, t.blocks[k + 0].remoteId));
    assert t.blocks[k] in t.blocks;
  }

  lemma ArchivePuts(p: Params, store: map<U32, seq<Byte>>, lastLocal: nat, t: Ticket, way: seq<Item>)
    requires ArchiveInv(p, store, lastLocal, t, way) && way != []
    ensures way[0].Put?
  {
    hide BlocksInv, Unacked, EncodeListOf;
    GoodOf(p, store, lastLocal, t);
    if t.status != AwaitingBlockListConfirm {
      assert Carries(p, t.file, Unacked(t.blocks[..t.next])[0], way[0]);
    }
  }

  lemma NotAGet(p: Params, store: map<U32, seq<Byte>>, c: Client, f: U32, way: seq<Item>)
    requires TicketInv(p, c, store, f, way) && way != [] && way[0].Get?
    ensures f in c.tickets
    ensures c.tickets[f].status != AwaitingBlockList ==>
      c.tickets[f].action == Extract == c.mode && ExtractInv(p, c, store, f, c.tickets[f], way)
  {
    hide ArchiveInv, ExtractInv;
    if c.tickets[f].status != AwaitingBlockList && c.tickets[f].action == Archive {
      ArchivePuts(p, store, c.lastLocal, c.tickets[f], way);
    }
  }

  lemma PersistentIds(bs: seq<Block>, lastLocal: nat)
    requires GoodIds(bs, lastLocal)
    ensures GoodIds(PersistentAll(bs), lastLocal)
    ensures forall b :: b in PersistentAll(bs) ==> !b.inCover
  {
    SameIds(bs, PersistentAll(bs), lastLocal);
  }

  lemma PersistentStored(p: Params, store: map<U32, seq<Byte>>, file: seq<Byte>, bs: seq<Block>, lastLocal: nat)
    requires StoredList(p, store, file, bs, lastLocal)
    ensures forall b :: b in PersistentAll(bs) ==> IsStored(p, store, b) && Storable(b) && !b.inCover
    ensures GoodIds(PersistentAll(bs), lastLocal)
  {
    hide GoodIds;
    PersistentIds(bs, lastLocal);
    var ps := PersistentAll(bs);
    forall b | b in ps ensures IsStored(p, store, b) && Storable(b) && !b.inCover {
      var i :| 0 <= i < |ps| && ps[i] == b;
      assert bs[i] in bs;
    }
  }

  lemma ListForExtract(p: Params, s: Sys, sorted: seq<Block>, payload: seq<Byte>)
    requires GoodParams(p) && Inv(p, s) && Enabled(p, s, Receive(sorted, payload))
    requires s.s2c[0].GetAck? && s.s2c[0].blockId == 0 && s.client.mode == Extract
    ensures Inv(p, Next(p, s, Receive(sorted, payload)))
  {
    hide SavedInv, ArchiveInv, ServerInv, UnderWay, Items, EncodeListOf, StoredList, DecodeList, PersistentAll;
    var GetAck(f, b, data) := s.s2c[0];
    var c, store, s' := s.client, s.server.store, Next(p, s, Receive(sorted, payload));
    var way := UnderWay(s, f);
    TailFrom(s.s2c, store);
    FirstUnderWay(s, f);
    Listed(p, c, store, f, way);
    ReceivedWay(s, s', [], f);
    assert s'.c2s == s.c2s && UnderWay(s', f) == [];
    SavedKept(p, c, store, s'.client, store);
    if data == [] {
      StillAsking(p, c, store, f);
    } else {
      ExtractStarts(p, c, store, f, s'.client.tickets[f]);
      ExtractTicket(p, c, s'.client, store, f, []);
    }
    Assemble(p, s, s', f);
  }

  /** An answer that holds nothing: the ticket goes on waiting for its list. */
  lemma StillAsking(p: Params, c: Client, store: map<U32, seq<Byte>>, f: U32)
    requires f in c.tickets && f != 0 && c.tickets[f].action == c.mode && c.tickets[f].status == AwaitingBlockList
    requires AskingInv(p, c, store, f, c.tickets[f], [Get(0, [])])
    ensures TicketInv(p, c, store, f, [])
  {
    hide Answer, EncodeListOf;
    var a := c.saved[f].listRemoteId;
    assert [Get(0, [])] == [Get(0, Answer(store, a))];
    assert [Get(0, [])][0] == [Get(0, Answer(store, a))][0];
  }

  lemma ExtractStarts(p: Params, c: Client, store: map<U32, seq<Byte>>, f: U32, t: Ticket)
    requires HasList(p, c, store, f) && Fits(store, c.saved[f].listRemoteId)
    requires StoredList(p, store, c.saved[f].file, c.saved[f].blocks, c.lastLocal)
    requires t.blocks == PersistentAll(c.saved[f].blocks) && t.next == 0 && t.moved == 0
    requires t.status == SendingBlockRequests
    ensures ExtractInv(p, c, store, f, t, [])
  {
    PersistentStored(p, store, c.saved[f].file, c.saved[f].blocks, c.lastLocal);
  }

  lemma ListForArchive(p: Params, s: Sys, sorted: seq<Block>, payload: seq<Byte>)
    requires GoodParams(p) && Inv(p, s) && Enabled(p, s, Receive(sorted, payload))
    requires s.s2c[0].GetAck? && s.s2c[0].blockId == 0 && s.client.mode == Archive
    ensures Inv(p, Next(p, s, Receive(sorted, payload)))
  {
    hide SavedInv, ArchiveInv, ServerInv, UnderWay, Items, EncodeListOf, StoredList, DecodeList, PersistentAll,
         Completed, WithIds, Unsaved, IsSorting, InRange, Reused;
    var GetAck(f, b, data) := s.s2c[0];
    var c, store, s' := s.client, s.server.store, Next(p, s, Receive(sorted, payload));
    var way := UnderWay(s, f);
    TailFrom(s.s2c, store);
    FirstUnderWay(s, f);
    Listed(p, c, store, f, way);
    ReceivedWay(s, s', [], f);
    assert s'.c2s == s.c2s && UnderWay(s', f) == [];
    SavedKept(p, c, store, s'.client, store);
    if data == [] {
      StillAsking(p, c, store, f);
    } else {
      ArchiveStarts(p, c, store, f, sorted, data);
      ArchiveTicket(p, s'.client, store, f, []);
    }
    Assemble(p, s, s', f);
  }

  lemma ArchiveStarts(p: Params, c: Client, store: map<U32, seq<Byte>>, f: U32, sorted: seq<Block>, data: seq<Byte>)
    requires GoodParams(p) && f in c.saved && CanAcceptList(p, c, f, data, sorted) && c.mode == Archive
    requires data != [] && DecodeList(Plain(p, data)) == Some(PersistentAll(c.saved[f].blocks))
    requires StoredList(p, store, c.saved[f].file, c.saved[f].blocks, c.lastLocal)
    requires c.tickets[f].action == Archive && c.tickets[f].moved == 0
    ensures
      var c' := AcceptList(p, c, f, data, sorted);
      f in c'.tickets && ArchiveInv(p, store, c'.lastLocal, c'.tickets[f], [])
  {
    hide ArchiveInv, StoredList, DecodeList, PersistentAll, Completed, WithIds, Unsaved, IsSorting, InRange, Reused,
         IsStored, SortedByOffset, Accounted;
    var list, file := PersistentAll(c.saved[f].blocks), c.tickets[f].file;
    PersistentStored(p, store, c.saved[f].file, c.saved[f].blocks, c.lastLocal);
    ReusedStored(p, store, file, list, sorted, c.lastLocal);
    StartedTicket(p, store, file, sorted, c.lastLocal);
  }

  /** Blocks found again are still stored, true to the new file and inside it. */
  lemma ReusedStored(p: Params, store: map<U32, seq<Byte>>, file: seq<Byte>, list: seq<Block>, sorted: seq<Block>,
                     lastLocal: nat)
    requires |file| < TWO32 && CanIndex(p.blockLength) && list != [] && GoodIds(list, lastLocal)
    requires forall b :: b in list ==> IsStored(p, store, b) && Storable(b) && !b.inCover
    requires IsSorting(Reused(file, p.sha, list, p.blockLength), sorted)
    ensures SortedByOffset(sorted) && DistinctIds(sorted) && IdsUpTo(sorted, lastLocal)
    ensures forall b :: b in sorted ==>
      && b.remoteId != 0 && Accounted(p, store, file, b) && Storable(b) && FoundIn(b, |file|, p.blockLength)
  {
    hide IsStored, Index, Accounted, Matched, Weak, Offered;
    var reused := Reused(file, p.sha, list, p.blockLength);
    forall i | 0 <= i < |list|
      ensures reused[i].localId == 0 || reused[i].localId == list[i].localId
      ensures var b := reused[i];
        b.remoteId != 0 && Accounted(p, store, file, b) && Storable(b) && FoundIn(b, |file|, p.blockLength)
    {
      assert list[i] in list;
      MatchExact(file, p.blockLength, p.sha, list[i]);
      if reused[i].inCover {
        KeyOf(file, p.blockLength, list[i].weak, reused[i].offset);
      }
      ReusedOne(p, store, file, list[i], reused[i]);
    }
    assert forall i | 0 <= i < |list| :: list[i] in list;
    assert DistinctIds(reused) && IdsUpTo(reused, lastLocal);
    SortingSameBlocks(reused, sorted);
    SortingKeepsIds(reused, sorted, lastLocal);
  }

  lemma KeyOf(file: seq<Byte>, blockLen: U16, key: U32, o: nat)
    requires CanIndex(blockLen) && |file| < TWO32 && Offered(file, blockLen, key, o)
    ensures o + blockLen <= |file| && Low16(key) == Low16(Weak(file[o..o + blockLen]))
  {
  }

  lemma ReusedOne(p: Params, store: map<U32, seq<Byte>>, file: seq<Byte>, b: Block, m: Block)
    requires IsStored(p, store, b) && Storable(b) && !b.inCover
    requires m.remoteId == b.remoteId && m.length == b.length && m.strong == b.strong
    requires m.inCover ==>
      && m.offset + b.length <= |file| && p.sha(file[m.offset..m.offset + b.length]) == b.strong
      && (b.length == p.blockLength && b.length % 4 == 0 ==>
            Low16(m.weak) == Low16(Weak(file[m.offset..m.offset + b.length])))
    ensures m.remoteId != 0 && Accounted(p, store, file, m) && Storable(m)
  {
    hide Weak;
    var plain := Plain(p, store[b.remoteId]);
    var n :| 0 <= n <= b.length && p.sha(plain[..n]) == b.strong;
  }

  lemma BlockKeeps(p: Params, s: Sys, sorted: seq<Block>, payload: seq<Byte>)
    requires GoodParams(p) && Inv(p, s) && Enabled(p, s, Receive(sorted, payload))
    requires s.s2c[0].GetAck? && s.s2c[0].blockId != 0
    ensures Inv(p, Next(p, s, Receive(sorted, payload)))
  {
    hide SavedInv, ArchiveInv, UnderWay, Items, EncodeListOf, StoredList, PersistentAll, ExtractInv;
    var GetAck(f, b, data) := s.s2c[0];
    var c, store, s' := s.client, s.server.store, Next(p, s, Receive(sorted, payload));
    var t, way := c.tickets[f], UnderWay(s, f);
    TailFrom(s.s2c, store);
    FirstUnderWay(s, f);
    Installing(p, c, store, f, way);
    InstalledTicket(p, c, store, f, t, way);
    ReceivedWay(s, s', [], f);
    assert s'.c2s == s.c2s && UnderWay(s', f) == way[1..] + [] == way[1..];
    SavedKept(p, c, store, s'.client, store);
    ExtractTicket(p, c, s'.client, store, f, way[1..]);
    Assemble(p, s, s', f);
  }

  lemma Installing(p: Params, c: Client, store: map<U32, seq<Byte>>, f: U32, way: seq<Item>)
    requires SavedInv(p, c, store) && TicketInv(p, c, store, f, way) && f in c.tickets
    requires way != [] && way[0].Get? && way[0].blockId != 0
    ensures f != 0 && c.tickets[f].action == c.mode == Extract && ExtractInv(p, c, store, f, c.tickets[f], way)
    ensures GoodIds(c.tickets[f].blocks, c.lastLocal)
    ensures forall b :: b in c.tickets[f].blocks ==> IsStored(p, store, b)
  {
    hide ArchiveInv, Planned, IsStored, IsTrue, EncodeListOf, GoodIds;
    NotAGet(p, store, c, f, way);
    PersistentStored(p, store, c.saved[f].file, c.saved[f].blocks, c.lastLocal);
  }

  lemma ByeKeeps(p: Params, s: Sys, sorted: seq<Block>, payload: seq<Byte>)
    requires Inv(p, s) && Enabled(p, s, Receive(sorted, payload)) && s.s2c[0].Bye?
    ensures Inv(p, Next(p, s, Receive(sorted, payload)))
  {
    hide SavedInv, TicketInv, UnderWay, ServerInv;
    var s' := Next(p, s, Receive(sorted, payload));
    TailFrom(s.s2c, s.server.store);
    assert s'.c2s == s.c2s;
    forall g: U32 ensures TicketInv(p, s'.client, s.server.store, g, UnderWay(s', g)) {
      WayReceived(s, s', g);
      assert [] + UnderWay(s', g) == UnderWay(s', g);
    }
  }

  // ---- steps and runs ----

  lemma StepKeeps(p: Params, s: Sys, e: Step)
    requires GoodParams(p) && Inv(p, s) && Enabled(p, s, e)
    ensures Inv(p, Next(p, s, e))
  {
    hide Inv, Next;
    match e {
      case StartNew(f, file) => StartNewKeeps(p, s, f, file);
      case StartOld(f, file) => StartOldKeeps(p, s, f, file);
      case SendBlock(f, fill) => SendKeeps(p, s, f, fill);
      case RequestBlock(f) => RequestKeeps(p, s, f);
      case Serve => ServeKeeps(p, s);
      case WalkDone => WalkDoneKeeps(p, s);
      case Restart(mode) => RestartKeeps(p, s, mode);
      case Receive(sorted, payload) => ReceiveKeeps(p, s, sorted, payload);
    }
  }

  lemma ReceiveKeeps(p: Params, s: Sys, sorted: seq<Block>, payload: seq<Byte>)
    requires GoodParams(p) && Inv(p, s) && Enabled(p, s, Receive(sorted, payload))
    ensures Inv(p, Next(p, s, Receive(sorted, payload)))
  {
    hide Next, SavedInv, TicketInv;
    TailFrom(s.s2c, s.server.store);
    match s.s2c[0] {
      case PutAck(f, b, a) =>
        if s.client.tickets[f].status == AwaitingBlockListConfirm {
          ListAckKeeps(p, s, sorted, payload);
        } else {
          PutAckKeeps(p, s, sorted, payload);
        }
      case GetAck(f, b, data) =>
        if b != 0 {
          BlockKeeps(p, s, sorted, payload);
        } else if s.client.mode == Extract {
          ListForExtract(p, s, sorted, payload);
        } else {
          ListForArchive(p, s, sorted, payload);
        }
      case Bye(_, _) => ByeKeeps(p, s, sorted, payload);
      case _ =>
    }
  }

  /** In every state of every run, over any number of sessions of the client, cut short or
      not, the invariant holds. */
  lemma {:induction false} RunKeeps(p: Params, states: seq<Sys>, steps: seq<Step>, n: nat)
    requires GoodParams(p) && IsRun(p, states, steps) && n <= |steps|
    ensures Inv(p, states[n])
  {
    hide Inv, Next, Enabled;
    if n == 0 {
      InitialInv(p, states[0]);
    } else {
      RunKeeps(p, states, steps, n - 1);
      StepKeeps(p, states[n - 1], steps[n - 1]);
    }
  }

  lemma InitialInv(p: Params, s: Sys)
    requires IsInitial(s)
    ensures Inv(p, s)
  {
  }
}
