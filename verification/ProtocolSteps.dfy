/** Each step of the protocol keeps the invariant of `ProtocolSafety`. */
module ProtocolSteps {
  import opened Bytes
  import opened Blocks
  import opened CoverLaws
  import opened Covering
  import opened Ids
  import opened Messages
  import opened Protocol
  import opened ProtocolSafety

  // ---- what stays as it was ----

  lemma StoredKept(p: Params, store: map<U32, seq<Byte>>, store': map<U32, seq<Byte>>)
    requires Extends(store, store')
    ensures forall b :: IsStored(p, store, b) ==> IsStored(p, store', b)
    ensures forall file, b :: Accounted(p, store, file, b) ==> Accounted(p, store', file, b)
  {
  }

  /** A ticket that a step does not touch keeps what it promises. */
  lemma TicketKept(p: Params, c: Client, store: map<U32, seq<Byte>>, c': Client, store': map<U32, seq<Byte>>,
                   f: U32, way: seq<Item>)
    requires TicketInv(p, c, store, f, way) && Extends(store, store') && c.lastLocal <= c'.lastLocal
    requires c'.mode == c.mode && (f in c'.tickets <==> f in c.tickets)
    requires f in c.tickets ==>
      c'.tickets[f] == c.tickets[f] && (f in c.saved ==> f in c'.saved && c'.saved[f] == c.saved[f])
    ensures TicketInv(p, c', store', f, way)
  {
    hide Planned, Unacked, CarriesAll, IsStored, Accounted, Delivered, EncodeListOf, Seals, BlocksInv;
    if f in c.tickets {
      var t := c.tickets[f];
      if t.status == AwaitingBlockList {
      } else if t.action == Archive {
        BlocksKept(p, store, store', c.lastLocal, c'.lastLocal, t);
      } else {
        ExtractKept(p, c, store, c', store', f, way);
      }
    }
  }

  lemma BlocksKept(p: Params, store: map<U32, seq<Byte>>, store': map<U32, seq<Byte>>, last: nat, last': nat, t: Ticket)
    requires BlocksInv(p, store, last, t) && Extends(store, store') && last <= last'
    ensures BlocksInv(p, store', last', t)
  {
    hide Planned, IsStored, Accounted;
    StoredKept(p, store, store');
  }

  lemma ExtractKept(p: Params, c: Client, store: map<U32, seq<Byte>>, c': Client, store': map<U32, seq<Byte>>,
                    f: U32, way: seq<Item>)
    requires f in c.tickets && ExtractInv(p, c, store, f, c.tickets[f], way) && Extends(store, store')
    requires f in c.saved && f in c'.saved && c'.saved[f] == c.saved[f]
    ensures ExtractInv(p, c', store', f, c.tickets[f], way)
  {
    hide Delivered, EncodeListOf, PersistentAll, Answer;
    var t := c.tickets[f];
    var k := t.next - |way|;
    DeliveredKept(store, store', t.blocks[..k]);
    AnswersKept(store, store');
    forall i | 0 <= i < |t.blocks| ensures t.blocks[i].remoteId in store {
      assert t.blocks[i] in t.blocks;
    }
  }

  lemma AnswersKept(store: map<U32, seq<Byte>>, store': map<U32, seq<Byte>>)
    requires Extends(store, store')
    ensures forall a :: a in store ==> Answer(store', a) == Answer(store, a)
  {
  }

  lemma SavedKept(p: Params, c: Client, store: map<U32, seq<Byte>>, c': Client, store': map<U32, seq<Byte>>)
    requires SavedInv(p, c, store) && Extends(store, store') && c.lastLocal <= c'.lastLocal
    requires c'.saved == c.saved
    ensures SavedInv(p, c', store')
  {
    hide Planned, IsStored, IsTrue, EncodeListOf;
    StoredKept(p, store, store');
  }

  /** A message put on the way to the server. */
  lemma WaySent(s: Sys, s': Sys, m: Message, f: U32)
    requires s'.s2c == s.s2c && s'.server == s.server && s'.c2s == s.c2s + [m]
    ensures UnderWay(s', f) == UnderWay(s, f) + ItemFor(m, s.server.store, f)
  {
    hide ItemFor;
    ItemsConcat(s.c2s, [m], s.server.store, f);
    assert [m][1..] == [];
  }

  /** The client takes the first message on the way to it. */
  lemma WayReceived(s: Sys, s': Sys, f: U32)
    requires s.s2c != [] && s'.s2c == s.s2c[1..] && s'.server == s.server && s'.c2s == s.c2s
    ensures UnderWay(s, f) == ItemFor(s.s2c[0], s.server.store, f) + UnderWay(s', f)
  {
  }

  // ---- the server ----

  /** The server's turn changes neither what is under way nor its order. */
  lemma ServeKeeps(p: Params, s: Sys)
    requires Inv(p, s) && s.c2s != [] && CanServe(s.server, s.c2s[0])
    ensures Inv(p, Next(p, s, Serve))
  {
    hide SavedInv, TicketInv, ByeInv, Items;
    var m, s' := s.c2s[0], Next(p, s, Serve);
    var store, store' := s.server.store, s'.server.store;
    assert m in s.c2s;
    assert Extends(store, store');
    SavedKept(p, s.client, store, s.client, store');
    ServeMentions(s, m);
    forall f: U32 ensures TicketInv(p, s'.client, store', f, UnderWay(s', f)) {
      ServeWay(p, s, f);
      TicketKept(p, s.client, store, s'.client, store', f, UnderWay(s, f));
    }
  }

  lemma ServeMentions(s: Sys, m: Message)
    requires ServerInv(s.server) && FromServer(s.s2c, s.server.store) && FromClient(s.c2s, s.server.store)
    requires s.c2s != [] && m == s.c2s[0] && CanServe(s.server, m)
    ensures
      var r := ServeOne(s.server, m);
      Extends(s.server.store, r.0.store) && ServerInv(r.0) &&
      FromServer(s.s2c + r.1, r.0.store) && FromClient(s.c2s[1..], r.0.store)
  {
  }

  lemma ServeWay(p: Params, s: Sys, f: U32)
    requires ServerInv(s.server) && FromServer(s.s2c, s.server.store) && FromClient(s.c2s, s.server.store)
    requires s.c2s != [] && CanServe(s.server, s.c2s[0])
    ensures UnderWay(Next(p, s, Serve), f) == UnderWay(s, f)
  {
    hide ItemFor, Items, ServeOne;
    var m := s.c2s[0];
    assert m in s.c2s;
    ServeItem(s.server, m, f);
    ServeExtends(s.server, m);
    var r := ServeOne(s.server, m);
    ServeItems(s.s2c, s.c2s, r.1, s.server.store, r.0.store, f);
  }

  lemma ServeItems(s2c: seq<Message>, c2s: seq<Message>, answer: seq<Message>,
                   store: map<U32, seq<Byte>>, store': map<U32, seq<Byte>>, f: U32)
    requires c2s != [] && Extends(store, store') && Mentioned(s2c, store) && Mentioned(c2s, store)
    requires Items(answer, store', f) == ItemFor(c2s[0], store, f)
    ensures Items(s2c + answer, store', f) + Items(c2s[1..], store', f) == Items(s2c, store, f) + Items(c2s, store, f)
  {
    hide ItemFor, Items, Extends;
    ItemsKept(s2c, store, store', f);
    ItemsKept(c2s[1..], store, store', f);
    ItemsConcat(s2c, answer, store', f);
    ItemsFirst(c2s, store, f);
    var x, y, z := Items(s2c, store, f), ItemFor(c2s[0], store, f), Items(c2s[1..], store, f);
    assert (x + y) + z == x + (y + z);
  }

  lemma ServeExtends(v: Server, m: Message)
    requires ServerInv(v) && CanServe(v, m)
    ensures Extends(v.store, ServeOne(v, m).0.store)
  {
  }

  /** The server turns a request into the answer it stands for. */
  lemma ServeItem(v: Server, m: Message, f: U32)
    requires ServerInv(v) && FromClient([m], v.store) && CanServe(v, m)
    ensures
      var r := ServeOne(v, m);
      Items(r.1, r.0.store, f) == ItemFor(m, v.store, f)
  {
    assert m in [m];
    var r := ServeOne(v, m);
    assert r.1 != [] ==> r.1[1..] == [];
  }

  // ---- tickets enter ----

  lemma StartNewKeeps(p: Params, s: Sys, f: U32, file: seq<Byte>)
    requires GoodParams(p) && Inv(p, s) && CanArchiveNew(p, s.client, f, file)
    ensures Inv(p, Next(p, s, StartNew(f, file)))
  {
    hide SavedInv, TicketInv, Items;
    var s' := Next(p, s, StartNew(f, file));
    var store := s.server.store;
    SavedKept(p, s.client, store, s'.client, store);
    NewTicket(p, s.client, store, f, file);
    forall g: U32 ensures TicketInv(p, s'.client, store, g, UnderWay(s', g)) {
      assert UnderWay(s', g) == UnderWay(s, g);
      if g == f {
        Idle(p, s, f);
      } else {
        TicketKept(p, s.client, store, s'.client, store, g, UnderWay(s, g));
      }
    }
  }

  /** Nothing is under way for a file without a ticket. */
  lemma Idle(p: Params, s: Sys, f: U32)
    requires Inv(p, s) && f !in s.client.tickets
    ensures UnderWay(s, f) == []
  {
  }

  lemma NewTicket(p: Params, c: Client, store: map<U32, seq<Byte>>, f: U32, file: seq<Byte>)
    requires GoodParams(p) && CanArchiveNew(p, c, f, file)
    ensures TicketInv(p, ArchiveNew(p, c, f, file), store, f, [])
  {
    hide ArchiveInv, Completed, WithIds, Unsaved, Accounted, FoundIn;
    EmptyList(|file|, p.blockLength, c.lastLocal);
    StartedTicket(p, store, file, [], c.lastLocal);
  }

  lemma EmptyList(fileLength: U32, blockLength: U16, lastLocal: nat)
    requires blockLength > 0
    ensures InRange([], fileLength, blockLength) && SortedByOffset([])
    ensures DistinctIds([]) && IdsUpTo([], lastLocal)
  {
  }

  /** The ticket of a file whose list has been completed and got its ids. */
  lemma StartedTicket(p: Params, store: map<U32, seq<Byte>>, file: seq<Byte>, sorted: seq<Block>, lastLocal: nat)
    requires |file| < TWO32 && p.blockLength > 0 && InRange(sorted, |file|, p.blockLength) && SortedByOffset(sorted)
    requires forall b :: b in sorted ==>
      && b.remoteId != 0 && Accounted(p, store, file, b) && Storable(b) && FoundIn(b, |file|, p.blockLength)
    requires DistinctIds(sorted) && IdsUpTo(sorted, lastLocal)
    requires
      var list := Completed(sorted, |file|, p.blockLength);
      |list| < TWO32 && lastLocal + Unsaved(list) < TWO32
    ensures
      var list := Completed(sorted, |file|, p.blockLength);
      ArchiveInv(p, store, lastLocal + Unsaved(list),
                 Ticket(Archive, file, WithIds(list, lastLocal), SendingBlocks, 0, 0, sorted), [])
  {
    hide Accounted, Added, Planned, SameCover, WithIds, Unsaved, Unacked, CarriesAll, EncodeListOf, Seals,
         SortedByOffset, DistinctIds, IdsUpTo, AllSaved;
    var list := Completed(sorted, |file|, p.blockLength);
    var added := Added(sorted, |file|, p.blockLength);
    var blocks := WithIds(list, lastLocal);
    AddedMembers(sorted, |file|, p.blockLength);
    AddedLengths(sorted, |file|, p.blockLength);
    CompletedIds(sorted, added, lastLocal);
    SavedIds(list, lastLocal);
    SavedAccounted(p, store, file, sorted, added, blocks);
    StartedPlan(p, file, sorted, blocks);
    NothingSent(p, file, blocks);
  }

  lemma NothingSent(p: Params, file: seq<Byte>, blocks: seq<Block>)
    ensures CarriesAll(p, file, Unacked(blocks[..0]), [])
  {
  }

  lemma StartedPlan(p: Params, file: seq<Byte>, sorted: seq<Block>, blocks: seq<Block>)
    requires |file| < TWO32 && p.blockLength > 0 && InRange(sorted, |file|, p.blockLength) && SortedByOffset(sorted)
    requires forall b :: b in sorted ==> FoundIn(b, |file|, p.blockLength)
    requires |blocks| == |Completed(sorted, |file|, p.blockLength)|
    requires forall i | 0 <= i < |blocks| ::
      blocks[i] == Completed(sorted, |file|, p.blockLength)[i].(localId := blocks[i].localId)
    ensures Planned(p, file, blocks, sorted)
  {
    hide InRange, Added, Completed;
  }

  lemma SavedAccounted(p: Params, store: map<U32, seq<Byte>>, file: seq<Byte>,
                       sorted: seq<Block>, added: seq<Block>, blocks: seq<Block>)
    requires forall b :: b in sorted ==> b.remoteId != 0 && Accounted(p, store, file, b) && Storable(b)
    requires forall b :: b in added ==> b.remoteId == 0 && b.inCover && b.length > 0 && Storable(b)
    requires |blocks| == |sorted + added|
    requires forall i | 0 <= i < |blocks| :: blocks[i] == (sorted + added)[i].(localId := blocks[i].localId)
    ensures forall b :: b in blocks ==> Accounted(p, store, file, b) && Storable(b)
    ensures forall i :: |sorted| <= i < |blocks| ==> blocks[i].remoteId == 0
    ensures forall i :: 0 <= i < |sorted| ==> blocks[i].remoteId != 0
  {
    hide Accounted;
    var list := sorted + added;
    forall i | 0 <= i < |blocks|
      ensures Accounted(p, store, file, blocks[i]) && Storable(blocks[i])
      ensures if i < |sorted| then blocks[i].remoteId != 0 else blocks[i].remoteId == 0
    {
      assert if i < |sorted| then list[i] in sorted else list[i] in added;
      IdDoesNotMatter(p, store, file, list[i], blocks[i].localId);
    }
  }

  lemma IdDoesNotMatter(p: Params, store: map<U32, seq<Byte>>, file: seq<Byte>, b: Block, id: U32)
    requires Accounted(p, store, file, b) || (b.remoteId == 0 && b.inCover && b.length > 0)
    ensures Accounted(p, store, file, b.(localId := id))
  {
  }

  lemma AddedLengths(sorted: seq<Block>, fileLength: U32, blockLength: U16)
    requires InRange(sorted, fileLength, blockLength)
    ensures forall b :: b in Added(sorted, fileLength, blockLength) ==> 0 < b.length <= blockLength && Storable(b)
  {
    hide ScanPoints, ScanEnd, TailPoints, Added;
    AddedMembers(sorted, fileLength, blockLength);
    forall b | b in Added(sorted, fileLength, blockLength) ensures 0 < b.length <= blockLength && Storable(b) {
      if x: nat :| IsGapBlock(b, sorted, blockLength, x) {
      } else {
        var x: nat :| IsTailBlock(b, sorted, fileLength, blockLength, x);
      }
    }
  }

  lemma CompletedIds(sorted: seq<Block>, added: seq<Block>, lastLocal: nat)
    requires DistinctIds(sorted) && IdsUpTo(sorted, lastLocal)
    requires forall b :: b in added ==> b.localId == 0
    ensures DistinctIds(sorted + added) && IdsUpTo(sorted + added, lastLocal)
  {
    var all := sorted + added;
    forall i, j | 0 <= i < j < |all| && all[i].localId != 0 ensures all[i].localId != all[j].localId {
      assert j >= |sorted| ==> all[j] in added;
    }
  }

  lemma StartOldKeeps(p: Params, s: Sys, f: U32, file: seq<Byte>)
    requires Inv(p, s) && CanAskForList(s.client, f, file)
    ensures Inv(p, Next(p, s, StartOld(f, file)))
  {
    hide SavedInv, TicketInv, Items;
    var s' := Next(p, s, StartOld(f, file));
    var store := s.server.store;
    var m := GetBlock(f, 0, s.client.saved[f].listRemoteId);
    SavedKept(p, s.client, store, s'.client, store);
    SavedListAnswered(p, s.client, s.server, f);
    forall g: U32 ensures TicketInv(p, s'.client, store, g, UnderWay(s', g)) {
      WaySent(s, s', m, g);
      Idle(p, s, f);
      if g == f {
        assert UnderWay(s', f) == [] + ItemFor(m, store, f) == [Get(0, Answer(store, m.archiveId))];
        AskingTicket(p, s.client, store, f, file);
      } else {
        assert UnderWay(s', g) == UnderWay(s, g) + [] == UnderWay(s, g);
        TicketKept(p, s.client, store, s'.client, store, g, UnderWay(s, g));
      }
    }
  }

  lemma SavedListAnswered(p: Params, c: Client, v: Server, f: U32)
    requires ServerInv(v) && SavedInv(p, c, v.store) && f in c.saved
    ensures HasList(p, c, v.store, f)
  {
    hide Planned, StoredList, EncodeListOf;
  }

  lemma AskingTicket(p: Params, c: Client, store: map<U32, seq<Byte>>, f: U32, file: seq<Byte>)
    requires CanAskForList(c, f, file) && HasList(p, c, store, f)
    ensures TicketInv(p, AskForList(c, f, file).0, store, f, [Get(0, Answer(store, c.saved[f].listRemoteId))])
  {
  }

  lemma WalkDoneKeeps(p: Params, s: Sys)
    requires Inv(p, s) && s.client.walking
    ensures Inv(p, Next(p, s, WalkDone))
  {
    hide SavedInv, TicketInv, Items;
    var s' := Next(p, s, WalkDone);
    var store := s.server.store;
    SavedKept(p, s.client, store, s'.client, store);
    forall g: U32 ensures TicketInv(p, s'.client, store, g, UnderWay(s', g)) {
      if s'.c2s != s.c2s {
        WaySent(s, s', Bye(0, 0), g);
      }
      assert UnderWay(s', g) == UnderWay(s, g);
      TicketKept(p, s.client, store, s'.client, store, g, UnderWay(s, g));
    }
  }

  lemma RestartKeeps(p: Params, s: Sys, mode: Action)
    requires Inv(p, s)
    ensures Inv(p, Next(p, s, Restart(mode)))
  {
    hide SavedInv;
    SavedKept(p, s.client, s.server.store, Next(p, s, Restart(mode)).client, s.server.store);
  }
}
