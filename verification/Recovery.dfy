/** The one file that all extractions of a session write to (version-1/extract.c,
    `install_block` of version-1/protocol.c): what it holds in every state of every run. */
module Recovery {
  import opened Bytes
  import opened Blocks
  import opened CoverLaws
  import opened Covering
  import opened Ids
  import opened Messages
  import opened Protocol
  import opened ProtocolRuns
  import opened ProtocolSafety
  import opened ProtocolSteps
  import opened ProtocolTickets
  import opened Restore
  import opened Signatures

  function PlacedWrites(log: seq<Placed>): (ws: seq<Write>)
    ensures |ws| == |log|
  {
    seq(|log|, i requires 0 <= i < |log| => log[i].write)
  }

  /** An entry of the log is a block of a ticket, written as the server stores it. */
  ghost predicate IsPlaced(p: Params, ts: map<U32, Ticket>, store: map<U32, seq<Byte>>, e: Placed) {
    && e.fileId in ts && e.index < |ts[e.fileId].blocks|
    && var b := ts[e.fileId].blocks[e.index];
       b.remoteId in store && e.write == Install(p, b, Plain(p, store[b.remoteId]))
  }

  /** How many requests of a ticket have been answered, when so many items are under way. */
  function Come(t: Ticket, underWay: nat): (n: nat)
    ensures n <= |t.blocks|
  {
    if underWay <= t.next <= |t.blocks| then t.next - underWay else 0
  }

  /** File `f` was the last to open the recovered file, and since then only its blocks have
      been written. */
  ghost predicate Undisputed(c: Client, f: U32) {
    c.opener == f && forall e :: e in c.log ==> e.fileId == f
  }

  /** The log has the blocks of a list at these places, in order. */
  ghost predicate InOrder(log: seq<Placed>, places: seq<nat>) {
    |log| == |places| && forall i :: 0 <= i < |log| ==> log[i].index == places[i]
  }

  /** The blocks of a ticket whose answers have come and held something. */
  function ComeBlocks(store: map<U32, seq<Byte>>, t: Ticket, underWay: nat): seq<nat> {
    Delivered(store, t.blocks[..Come(t, underWay)])
  }

  ghost predicate FileInv(p: Params, s: Sys) {
    var c := s.client;
    c.mode == Extract && c.tickets != map[] ==>
      && c.recovered == WriteAll(PlacedWrites(c.log))
      && (forall e :: e in c.log ==> IsPlaced(p, c.tickets, s.server.store, e))
      && c.opener in c.tickets
      && (Undisputed(c, c.opener) ==>
            InOrder(c.log, ComeBlocks(s.server.store, c.tickets[c.opener], |UnderWay(s, c.opener)|)))
  }

  /** A step that leaves the recovered file alone. */
  ghost predicate LeavesFile(s: Sys, s': Sys) {
    var c, c' := s.client, s'.client;
    && Extends(s.server.store, s'.server.store)
    && c'.mode == c.mode && c'.recovered == c.recovered && c'.opener == c.opener && c'.log == c.log
    && c'.tickets.Keys == c.tickets.Keys
    && (forall f :: f in c.tickets ==> c'.tickets[f].blocks == c.tickets[f].blocks)
    && (forall f :: f in c.tickets ==>
          Come(c'.tickets[f], |UnderWay(s', f)|) == Come(c.tickets[f], |UnderWay(s, f)|))
  }

  lemma FileLeft(p: Params, s: Sys, s': Sys)
    requires Inv(p, s) && FileInv(p, s) && LeavesFile(s, s')
    ensures FileInv(p, s')
  {
    hide UnderWay, WriteAll, Install, Come, Inv, Delivered;
    var c, c', store := s.client, s'.client, s.server.store;
    if c.mode == Extract && c.tickets != map[] {
      var f := c.opener;
      BlocksKnown(p, s, f);
      DeliveredKept(store, s'.server.store, c.tickets[f].blocks[..Come(c.tickets[f], |UnderWay(s, f)|)]);
      assert f in c'.tickets.Keys;
      assert forall x :: x in c.log ==> IsPlaced(p, c.tickets, store, x);
    }
  }

  lemma BlocksKnown(p: Params, s: Sys, f: U32)
    requires Inv(p, s) && s.client.mode == Extract && f in s.client.tickets
    ensures forall b :: b in s.client.tickets[f].blocks ==> b.remoteId in s.server.store
  {
    hide SavedInv, ArchiveInv, UnderWay, Delivered;
    assert TicketInv(p, s.client, s.server.store, f, UnderWay(s, f));
  }

  lemma NothingOpen(p: Params, s: Sys)
    requires s.client.mode == Archive || s.client.tickets == map[]
    ensures FileInv(p, s)
  {
  }

  lemma RequestLeaves(p: Params, s: Sys, f: U32)
    requires Inv(p, s) && Enabled(p, s, RequestBlock(f))
    ensures LeavesFile(s, Next(p, s, RequestBlock(f)))
  {
    hide SavedInv, Items, ArchiveInv, ExtractInv;
    var s' := Next(p, s, RequestBlock(f));
    var c, store, t, way := s.client, s.server.store, s.client.tickets[f], UnderWay(s, f);
    assert TicketInv(p, c, store, f, way);
    Requesting(p, c, store, f, way);
    var r := RequestOne(f, t);
    SentFor(s, s', r.1, f);
    RequestCome(p, c, store, f, t, way);
  }

  lemma RequestCome(p: Params, c: Client, store: map<U32, seq<Byte>>, f: U32, t: Ticket, way: seq<Item>)
    requires ExtractInv(p, c, store, f, t, way)
    ensures
      var r := RequestOne(f, t);
      Come(r.0, |way + Items(r.1, store, f)|) == Come(t, |way|)
  {
    var r := RequestOne(f, t);
    if t.next < |t.blocks| {
      assert r.1[1..] == [];
    }
  }

  lemma ServeLeaves(p: Params, s: Sys)
    requires Inv(p, s) && Enabled(p, s, Serve)
    ensures LeavesFile(s, Next(p, s, Serve))
  {
    hide UnderWay, TicketInv, SavedInv, ServeOne;
    assert s.c2s[0] in s.c2s;
    ServeExtends(s.server, s.c2s[0]);
    forall f: U32 ensures UnderWay(Next(p, s, Serve), f) == UnderWay(s, f) {
      ServeWay(p, s, f);
    }
  }

  lemma WalkLeaves(p: Params, s: Sys)
    requires Enabled(p, s, WalkDone)
    ensures LeavesFile(s, Next(p, s, WalkDone))
  {
    hide UnderWay, Come;
    var s' := Next(p, s, WalkDone);
    forall f: U32 ensures UnderWay(s', f) == UnderWay(s, f) {
      WalkWay(s, s', f);
    }
  }

  lemma WalkWay(s: Sys, s': Sys, f: U32)
    requires s'.s2c == s.s2c && s'.server == s.server && (s'.c2s == s.c2s || s'.c2s == s.c2s + [Bye(0, 0)])
    ensures UnderWay(s', f) == UnderWay(s, f)
  {
    if s'.c2s != s.c2s {
      WaySent(s, s', Bye(0, 0), f);
    }
  }

  lemma ByeLeaves(p: Params, s: Sys, e: Step)
    requires Enabled(p, s, e) && e.Receive? && s.s2c[0].Bye?
    ensures LeavesFile(s, Next(p, s, e))
  {
    hide UnderWay, Come;
    var s' := Next(p, s, e);
    assert s'.c2s == s.c2s;
    forall f: U32 ensures UnderWay(s', f) == UnderWay(s, f) {
      WayReceived(s, s', f);
      assert [] + UnderWay(s', f) == UnderWay(s', f);
    }
  }

  /** The list of a ticket comes: none of its blocks has been written yet. */
  lemma ListLeaves(p: Params, s: Sys, e: Step)
    requires Enabled(p, s, e) && e.Receive? && s.s2c[0].GetAck? && s.s2c[0].blockId == 0
    requires GoodParams(p) && s.client.mode == Extract && Inv(p, s) && FileInv(p, s)
    ensures FileInv(p, Next(p, s, e))
  {
    hide SavedInv, ArchiveInv, ExtractInv, Items, StoredList, DecodeList, WriteAll, Install, HasList, FileInv, Answer,
         Fits, Missing, Opens, Plain, CanAcceptList, AcceptList;
    var f, s' := s.s2c[0].fileId, Next(p, s, e);
    var c, store, way := s.client, s.server.store, UnderWay(s, s.s2c[0].fileId);
    FirstUnderWay(s, f);
    assert TicketInv(p, c, store, f, way);
    Listed(p, c, store, f, way);
    ReceivedWay(s, s', [], f);
    assert UnderWay(s', f) == [];
    ListTaken(p, c, f, s.s2c[0].payload, e.sorted);
    ListArrived(p, s, s', f);
  }

  lemma ListTaken(p: Params, c: Client, f: U32, payload: seq<Byte>, sorted: seq<Block>)
    requires CanAcceptList(p, c, f, payload, sorted) && c.mode == Extract
    ensures
      var c' := AcceptList(p, c, f, payload, sorted);
      && f in c.tickets && f in c'.tickets && c' == c.(tickets := c.tickets[f := c'.tickets[f]])
      && c'.tickets[f].next == c.tickets[f].next
  {
    hide DecodeList, Opens, Plain;
  }

  lemma ListArrived(p: Params, s: Sys, s': Sys, f: U32)
    requires FileInv(p, s) && f in s.client.tickets && f in s'.client.tickets && s'.server == s.server
    requires s'.client == s.client.(tickets := s.client.tickets[f := s'.client.tickets[f]])
    requires s.client.tickets[f].blocks == [] && s'.client.tickets[f].next == 0 && UnderWay(s', f) == []
    requires forall g: U32 | g != f :: UnderWay(s', g) == UnderWay(s, g)
    ensures FileInv(p, s')
  {
    hide UnderWay, WriteAll, Install, Opens, Plain, Missing;
    var c, c', store := s.client, s'.client, s.server.store;
    if c.mode == Extract {
      forall x | x in c.log ensures IsPlaced(p, c'.tickets, store, x) {
        assert IsPlaced(p, c.tickets, store, x);
      }
    }
  }

  /** A block comes and is written. */
  lemma BlockWritten(p: Params, s: Sys, e: Step)
    requires GoodParams(p) && Inv(p, s) && FileInv(p, s) && Enabled(p, s, e)
    requires e.Receive? && s.s2c[0].GetAck? && s.s2c[0].blockId != 0
    ensures FileInv(p, Next(p, s, e))
  {
    hide SavedInv, ArchiveInv, ExtractInv, Items, AcceptGetAckBlock, GoodIds, IsStored, HasList, Delivered, Missing,
         Fits, Install, WriteAt, FileInv, FindBlock, Opens;
    var f, s' := s.s2c[0].fileId, Next(p, s, e);
    var c, store := s.client, s.server.store;
    var t, way := c.tickets[f], UnderWay(s, f);
    FirstUnderWay(s, f);
    assert TicketInv(p, c, store, f, way);
    Installing(p, c, store, f, way);
    InstalledTicket(p, c, store, f, t, way);
    FirstStored(p, c, store, f, t, way);
    NextAnswered(p, c, store, f, t, way);
    ReceivedWay(s, s', [], f);
    assert UnderWay(s', f) == way[1..];
    var k: nat := t.next - |way|;
    assert s'.client == AfterBlock(p, c, store, f, k);
    if Missing(store, t.blocks[k].remoteId) {
      Passing(p, s, s', f, k);
    } else {
      var w := Install(p, t.blocks[k], Plain(p, store[t.blocks[k].remoteId]));
      Placing(p, s, s', f, k, w);
    }
  }

  lemma Placing(p: Params, s: Sys, s': Sys, f: U32, k: nat, w: Write)
    requires FileInv(p, s) && s.client.mode == Extract && f in s.client.tickets && s'.server == s.server
    requires s'.client == Place(s.client.(tickets := s.client.tickets[f := InstalledOne(s.client.tickets[f])]), f, k, w)
    requires k == Come(s.client.tickets[f], |UnderWay(s, f)|) < |s.client.tickets[f].blocks|
    requires Come(s'.client.tickets[f], |UnderWay(s', f)|) == k + 1
    requires
      var store, bs := s.server.store, s.client.tickets[f].blocks;
      Delivered(store, bs[..k + 1]) == Delivered(store, bs[..k]) + [k]
    requires IsPlaced(p, s.client.tickets, s.server.store, Placed(f, k, w))
    ensures FileInv(p, s')
  {
    hide UnderWay, Come, WriteAt, Install, Delivered;
    var c, c' := s.client, s'.client;
    var ws := PlacedWrites(c'.log);
    assert ws[..|ws| - 1] == PlacedWrites(c.log);
    forall x | x in c'.log ensures IsPlaced(p, c'.tickets, s'.server.store, x) {
      assert x in c.log || x == Placed(f, k, w);
    }
    if Undisputed(c', c'.opener) {
      assert Placed(f, k, w) in c'.log && f == c.opener;
      assert forall x :: x in c.log ==> x in c'.log;
    }
  }

  /** An answer that holds nothing writes nothing. */
  lemma Passing(p: Params, s: Sys, s': Sys, f: U32, k: nat)
    requires FileInv(p, s) && s.client.mode == Extract && f in s.client.tickets && s'.server == s.server
    requires s'.client == s.client && forall g: U32 | g != f :: UnderWay(s', g) == UnderWay(s, g)
    requires k == Come(s.client.tickets[f], |UnderWay(s, f)|) < |s.client.tickets[f].blocks|
    requires Come(s.client.tickets[f], |UnderWay(s', f)|) == k + 1
    requires
      var store, bs := s.server.store, s.client.tickets[f].blocks;
      Delivered(store, bs[..k + 1]) == Delivered(store, bs[..k])
    ensures FileInv(p, s')
  {
    hide UnderWay, Come, WriteAll, Install, Delivered;
  }

  lemma FileKeeps(p: Params, s: Sys, e: Step)
    requires GoodParams(p) && Inv(p, s) && FileInv(p, s) && Enabled(p, s, e)
    ensures FileInv(p, Next(p, s, e))
  {
    hide Inv, LeavesFile, FileInv;
    match e {
      case StartNew(_, _) => NothingOpen(p, Next(p, s, e));
      case StartOld(f, file) => OpenedAnew(p, s, f, file);
      case SendBlock(f, fill) =>
        Sending(p, s, f, fill);
        NothingOpen(p, Next(p, s, e));
      case RequestBlock(f) =>
        RequestLeaves(p, s, f);
        FileLeft(p, s, Next(p, s, e));
      case Serve =>
        ServeLeaves(p, s);
        FileLeft(p, s, Next(p, s, e));
      case WalkDone =>
        WalkLeaves(p, s);
        FileLeft(p, s, Next(p, s, e));
      case Restart(_) => NothingOpen(p, Next(p, s, e));
      case Receive(_, _) => ReceiveKeepsFile(p, s, e);
    }
  }

  lemma OpenedAnew(p: Params, s: Sys, f: U32, file: seq<Byte>)
    requires Inv(p, s) && Enabled(p, s, StartOld(f, file))
    ensures FileInv(p, Next(p, s, StartOld(f, file)))
  {
    hide Inv, UnderWay;
  }

  lemma ReceiveKeepsFile(p: Params, s: Sys, e: Step)
    requires GoodParams(p) && Inv(p, s) && FileInv(p, s) && Enabled(p, s, e) && e.Receive?
    ensures FileInv(p, Next(p, s, e))
  {
    var s' := Next(p, s, e);
    TailFrom(s.s2c, s.server.store);
    if s.s2c[0].Bye? {
      ByeLeaves(p, s, e);
      FileLeft(p, s, s');
    } else if s.s2c[0].PutAck? {
      AckInArchive(p, s, e);
      NothingOpen(p, s');
    } else if s.s2c[0].blockId != 0 {
      BlockWritten(p, s, e);
    } else if s.client.mode == Extract {
      ListLeaves(p, s, e);
    } else {
      ListInArchive(p, s, e);
      NothingOpen(p, s');
    }
  }

  lemma AckInArchive(p: Params, s: Sys, e: Step)
    requires Inv(p, s) && Enabled(p, s, e) && e.Receive? && s.s2c[0].PutAck?
    ensures Next(p, s, e).client.mode == Archive
  {
    hide SavedInv, UnderWay, ArchiveInv, ExtractInv, ServerInv, ListPayloadOk;
    var f := s.s2c[0].fileId;
    FirstUnderWay(s, f);
    assert TicketInv(p, s.client, s.server.store, f, UnderWay(s, f));
    Acknowledging(p, s.client, s.server.store, f, UnderWay(s, f));
  }

  lemma ListInArchive(p: Params, s: Sys, e: Step)
    requires Enabled(p, s, e) && e.Receive? && s.s2c[0].GetAck? && s.s2c[0].blockId == 0 && s.client.mode == Archive
    ensures Next(p, s, e).client.mode == Archive
  {
    hide DecodeList, Completed, WithIds, Unsaved, Reused, InRange, IsSorting;
  }

  lemma {:induction false} FileRun(p: Params, states: seq<Sys>, steps: seq<Step>, n: nat)
    requires GoodParams(p) && IsRun(p, states, steps) && n <= |steps|
    ensures FileInv(p, states[n])
  {
    hide Inv, Enabled, Next, FileInv;
    if n == 0 {
      NothingOpen(p, states[0]);
    } else {
      FileRun(p, states, steps, n - 1);
      RunKeeps(p, states, steps, n - 1);
      FileKeeps(p, states[n - 1], steps[n - 1]);
    }
  }

  // ---- who writes to it ----

  /** The block that is received is written at its offset if its digest is right; nothing else is
      written.  `b` is the block of the ticket with the id of the answer. */
  lemma BlockWrites(p: Params, s: Sys, e: Step, b: Block)
    requires Enabled(p, s, e) && e.Receive? && s.s2c[0].GetAck? && s.s2c[0].blockId != 0
    requires GoodParams(p) && Inv(p, s)
    requires b in s.client.tickets[s.s2c[0].fileId].blocks && b.localId == s.s2c[0].blockId
    ensures
      var c, c', data := s.client, Next(p, s, e).client, s.s2c[0].payload;
      c'.recovered ==
        if data != [] && p.sha(Plain(p, data)) == b.strong then WriteAt(c.recovered, Write(b.offset, Plain(p, data)))
        else c.recovered
  {
    hide SavedInv, ArchiveInv, ExtractInv, Items, AcceptGetAckBlock, IsStored, HasList, Delivered, Missing, Fits,
         FindBlock, Opens, Answer;
    var f := s.s2c[0].fileId;
    var c, store := s.client, s.server.store;
    var t, way := c.tickets[f], UnderWay(s, f);
    FirstUnderWay(s, f);
    assert TicketInv(p, c, store, f, way);
    Installing(p, c, store, f, way);
    InstalledTicket(p, c, store, f, t, way);
    NextAnswered(p, c, store, f, t, way);
    var k: nat := t.next - |way|;
    SameId(t.blocks, b, k);
    WholeInstall(p, store, b);
  }

  lemma SameId(bs: seq<Block>, b: Block, k: nat)
    requires DistinctIds(bs) && AllSaved(bs) && b in bs && k < |bs| && bs[k].localId == b.localId
    ensures bs[k] == b
  {
    var i :| 0 <= i < |bs| && bs[i] == b;
    assert bs[i] in bs;
  }

  lemma WholeInstall(p: Params, store: map<U32, seq<Byte>>, b: Block)
    requires IsStored(p, store, b)
    ensures
      var plain := Plain(p, store[b.remoteId]);
      Install(p, b, plain) == Write(b.offset, if p.sha(plain) == b.strong then plain else [])
    ensures Fits(store, b.remoteId) ==> Answer(store, b.remoteId) == store[b.remoteId]
    ensures Missing(store, b.remoteId) <==> Answer(store, b.remoteId) == []
  {
    var plain := Plain(p, store[b.remoteId]);
    assert plain[..Low16(|plain|)] == plain;
    assert store[b.remoteId][..|store[b.remoteId]|] == store[b.remoteId];
  }

  /** No other step touches the shared file, a new session included, but that each extraction
      empties it. */
  lemma OthersLeave(p: Params, s: Sys, e: Step)
    requires Enabled(p, s, e)
    requires !(e.Receive? && s.s2c[0].GetAck? && s.s2c[0].blockId != 0)
    ensures Next(p, s, e).client.recovered ==
      if e.StartOld? && s.client.mode == Extract then [] else s.client.recovered
  {
    hide DecodeList, Completed, WithIds, Unsaved, InRange, IsSorting, Opens, Plain, FindBlock, ListPayloadOk;
  }
}
