/** What the users of the protocol can rely on in every state of every run: the counters,
    the routing of acknowledgements, the stored lists and the goodbye. */
module ProtocolLaws {
  import opened Bytes
  import opened Blocks
  import opened CoverLaws
  import opened Covering
  import opened Ids
  import opened Messages
  import opened Options
  import opened Protocol
  import opened ProtocolRuns
  import opened ProtocolSafety
  import opened ProtocolTickets
  import opened Restore
  import opened WeakChecksum

  /** The blocks under way to be stored; a list, with id zero, is not counted. */
  function BlocksUnderWay(way: seq<Item>): nat {
    if way == [] then 0
    else (if way[0].Put? && way[0].blockId != 0 then 1 else 0) + BlocksUnderWay(way[1..])
  }

  lemma {:induction false} AllBlocks(p: Params, file: seq<Byte>, bs: seq<Block>, way: seq<Item>)
    requires CarriesAll(p, file, bs, way) && forall b :: b in bs ==> b.localId != 0
    ensures BlocksUnderWay(way) == |way|
  {
    if way != [] {
      assert Carries(p, file, bs[0], way[0]) && bs[0] in bs;
      forall i | 0 <= i < |bs| - 1 ensures Carries(p, file, bs[1..][i], way[1..][i]) {
        assert Carries(p, file, bs[i + 1], way[i + 1]);
      }
      AllBlocks(p, file, bs[1..], way[1..]);
    }
  }

  lemma {:induction false} UnackedFrom(bs: seq<Block>)
    ensures forall b :: b in Unacked(bs) ==> b in bs && NeedsSending(b)
  {
    if bs != [] {
      UnackedFrom(bs[..|bs| - 1]);
      assert bs == bs[..|bs| - 1] + [bs[|bs| - 1]];
    }
  }

  /** The count of a ticket that archives is the number of its blocks sent and not yet
      acknowledged; in particular it never runs below zero. */
  lemma CountExact(p: Params, states: seq<Sys>, steps: seq<Step>, n: nat, f: U32)
    requires GoodParams(p) && IsRun(p, states, steps) && n <= |steps|
    requires f in states[n].client.tickets && states[n].client.tickets[f].action == Archive
    ensures states[n].client.tickets[f].moved == BlocksUnderWay(UnderWay(states[n], f))
  {
    hide BlocksInv, SavedInv, UnderWay, Unacked, EncodeListOf, Next;
    RunKeeps(p, states, steps, n);
    var s := states[n];
    var t, way := s.client.tickets[f], UnderWay(s, f);
    assert TicketInv(p, s.client, s.server.store, f, way);
    if t.status == AwaitingBlockList || t.status == AwaitingBlockListConfirm {
      assert way != [] ==> way[1..] == [];
    } else {
      GoodOf(p, s.server.store, s.client.lastLocal, t);
      UnackedFrom(t.blocks[..t.next]);
      AllBlocks(p, t.file, Unacked(t.blocks[..t.next]), way);
    }
  }

  /** Acknowledgements are routed without mistake.  The first message from the server, when
      it says that something was stored, finds a ticket that archives.  It is about the block
      list exactly when the ticket waits for that; otherwise it finds one block, which was
      sent and not acknowledged, the count is not zero, and once its id is entered the server
      is known to store that block. */
  lemma RoutingExact(p: Params, states: seq<Sys>, steps: seq<Step>, n: nat)
    requires GoodParams(p) && IsRun(p, states, steps) && n <= |steps|
    requires states[n].s2c != [] && states[n].s2c[0].PutAck?
    ensures
      var PutAck(f, b, a) := states[n].s2c[0];
      && f in states[n].client.tickets && a != 0
      && var t := states[n].client.tickets[f];
         && t.action == Archive
         && (b == 0 <==> t.status == AwaitingBlockListConfirm)
         && (b != 0 ==>
               var k := FindBlock(t.blocks, b);
               && 0 <= k < t.next && t.moved > 0 && NeedsSending(t.blocks[k])
               && IsStored(p, states[n].server.store, t.blocks[k].(remoteId := a)))
  {
    hide BlocksInv, SavedInv, UnderWay, Unacked, EncodeListOf, Next, WayInv, IsStored;
    RunKeeps(p, states, steps, n);
    var s := states[n];
    var PutAck(f, b, a) := s.s2c[0];
    var c, store, way := s.client, s.server.store, UnderWay(s, f);
    TailFrom(s.s2c, store);
    StoreIds(s.server, a);
    FirstUnderWay(s, f);
    assert TicketInv(p, c, store, f, way);
    Acknowledging(p, c, store, f, way);
    var t := c.tickets[f];
    if t.status != AwaitingBlockListConfirm {
      GoodOf(p, store, c.lastLocal, t);
      NotTheList(p, store, c.lastLocal, t, way);
      var k := AckedWay(p, c.lastLocal, t, way, a);
      AckedStored(p, store, t.file, t.blocks[k], way[0], a);
      CountsWay(p, t, way);
    }
  }

  lemma CountsWay(p: Params, t: Ticket, way: seq<Item>)
    requires t.next <= |t.blocks| && WayInv(p, t, way) && t.status != AwaitingBlockListConfirm
    ensures t.moved == |way|
  {
    hide Unacked, CarriesAll;
  }

  /** A block list is under way only when each of its blocks, and so each block of the cover,
      is stored by the server under its remote id; and nothing else is under way for the file
      then, so that it is sent once. */
  lemma ListOnlyWhenStored(p: Params, states: seq<Sys>, steps: seq<Step>, n: nat, f: U32)
    requires GoodParams(p) && IsRun(p, states, steps) && n <= |steps|
    requires f in states[n].client.tickets && states[n].client.tickets[f].status == AwaitingBlockListConfirm
    ensures
      var t, way := states[n].client.tickets[f], UnderWay(states[n], f);
      && |way| == 1 && way[0].Put? && way[0].blockId == 0
      && Plain(p, way[0].payload) == EncodeListOf(t.blocks)
      && forall b :: b in t.blocks ==> IsStored(p, states[n].server.store, b) && IsTrue(p, t.file, b)
  {
    hide SavedInv, UnderWay, Unacked, EncodeListOf, Next, Planned, IsStored, IsTrue, GoodIds;
    RunKeeps(p, states, steps, n);
    var s := states[n];
    assert TicketInv(p, s.client, s.server.store, f, UnderWay(s, f));
  }

  /** Conversely a block list is under way for a file only when its ticket waits for that. */
  lemma ListUnderWay(p: Params, states: seq<Sys>, steps: seq<Step>, n: nat, f: U32, item: Item)
    requires GoodParams(p) && IsRun(p, states, steps) && n <= |steps|
    requires item in UnderWay(states[n], f) && item.Put? && item.blockId == 0
    ensures f in states[n].client.tickets && states[n].client.tickets[f].status == AwaitingBlockListConfirm
  {
    hide BlocksInv, SavedInv, UnderWay, Unacked, EncodeListOf, Next;
    RunKeeps(p, states, steps, n);
    var s := states[n];
    var way := UnderWay(s, f);
    assert TicketInv(p, s.client, s.server.store, f, way);
    var t := s.client.tickets[f];
    if t.action == Archive && t.status !in {AwaitingBlockList, AwaitingBlockListConfirm} {
      GoodOf(p, s.server.store, s.client.lastLocal, t);
      UnackedFrom(t.blocks[..t.next]);
      NoList(p, t.file, Unacked(t.blocks[..t.next]), way, item);
    }
  }

  lemma NoList(p: Params, file: seq<Byte>, bs: seq<Block>, way: seq<Item>, item: Item)
    requires CarriesAll(p, file, bs, way) && forall b :: b in bs ==> b.localId != 0
    ensures item in way ==> !item.Put? || item.blockId != 0
  {
    if i :| 0 <= i < |way| && way[i] == item {
      assert Carries(p, file, bs[i], way[i]) && bs[i] in bs;
    }
  }

  // ---- the list is sent once ----

  /** The step from `s` to `s'` puts the block list of file `f` on the way. */
  ghost predicate SendsListOf(s: Sys, s': Sys, f: U32) {
    exists payload :: s'.c2s == s.c2s + [PutBlock(f, 0, payload)]
  }

  /** A step that brings a ticket for file `f`. */
  predicate Starts(e: Step, f: U32) {
    (e.StartNew? || e.StartOld?) && e.fid == f
  }

  /** The list has been sent, or there is no ticket to send one. */
  predicate NoListToSend(c: Client, f: U32) {
    f in c.tickets ==> c.tickets[f].status == AwaitingBlockListConfirm
  }

  lemma AckSendsList(p: Params, s: Sys, e: Step, f: U32)
    requires Enabled(p, s, e) && e.Receive? && s.s2c[0].PutAck?
    ensures SendsListOf(s, Next(p, s, e), f) ==> !NoListToSend(s.client, f) && NoListToSend(Next(p, s, e).client, f)
    ensures NoListToSend(s.client, f) ==> NoListToSend(Next(p, s, e).client, f)
  {
    hide ListPayloadOk;
    var s' := Next(p, s, e);
    var r := AcceptPutAck(s.client, s.s2c[0].fileId, s.s2c[0].blockId, s.s2c[0].archiveId, e.listPayload);
    if payload :| s'.c2s == s.c2s + [PutBlock(f, 0, payload)] {
      assert s'.c2s[|s.c2s|..] == r.1 == [PutBlock(f, 0, payload)];
    }
  }

  lemma ReceiveSendsList(p: Params, s: Sys, e: Step, f: U32)
    requires Inv(p, s) && Enabled(p, s, e) && e.Receive?
    ensures SendsListOf(s, Next(p, s, e), f) ==> !NoListToSend(s.client, f) && NoListToSend(Next(p, s, e).client, f)
    ensures NoListToSend(s.client, f) ==> NoListToSend(Next(p, s, e).client, f)
  {
    hide Inv, UnderWay, DecodeList, WriteAt, Install, Completed, WithIds, ListPayloadOk, FindBlock, AcceptPutAck;
    if s.s2c[0].PutAck? {
      AckSendsList(p, s, e, f);
    } else {
      assert Next(p, s, e).c2s == s.c2s;
      assert |s.c2s| == |Next(p, s, e).c2s|;
      if s.s2c[0].GetAck? && s.s2c[0].fileId == f {
        GetAckFor(p, s, f);
      }
    }
  }

  /** An answer from the server finds a ticket that waits for the list, or one that extracts. */
  lemma GetAckFor(p: Params, s: Sys, f: U32)
    requires Inv(p, s) && s.s2c != [] && s.s2c[0].GetAck? && s.s2c[0].fileId == f && f in s.client.tickets
    ensures s.client.tickets[f].status == AwaitingBlockList || s.client.tickets[f].action == Extract
    ensures s.s2c[0].blockId != 0 ==> s.client.tickets[f].action == Extract
    ensures s.client.tickets[f].status != AwaitingBlockListConfirm
  {
    hide SavedInv, UnderWay, ArchiveInv, ServerInv;
    var way := UnderWay(s, f);
    FirstUnderWay(s, f);
    assert TicketInv(p, s.client, s.server.store, f, way);
    NotAGet(p, s.server.store, s.client, f, way);
    if s.s2c[0].blockId != 0 {
      Installing(p, s.client, s.server.store, f, way);
    }
  }

  lemma StepSendsList(p: Params, s: Sys, e: Step, f: U32)
    requires Inv(p, s) && Enabled(p, s, e)
    ensures SendsListOf(s, Next(p, s, e), f) ==> !NoListToSend(s.client, f) && NoListToSend(Next(p, s, e).client, f)
    ensures NoListToSend(s.client, f) && !Starts(e, f) ==> NoListToSend(Next(p, s, e).client, f)
  {
    hide Inv, ReceiveOne, CanReceive, Completed, WithIds, Unsaved;
    if e.Receive? {
      ReceiveSendsList(p, s, e, f);
    } else {
      OtherSteps(p, s, e, f);
    }
  }

  lemma OtherSteps(p: Params, s: Sys, e: Step, f: U32)
    requires Enabled(p, s, e) && !e.Receive?
    ensures !SendsListOf(s, Next(p, s, e), f)
    ensures NoListToSend(s.client, f) && !Starts(e, f) ==> NoListToSend(Next(p, s, e).client, f)
  {
    hide Completed, WithIds, Unsaved, Seals;
    var s' := Next(p, s, e);
    assert |s'.c2s| == |s.c2s| + 1 ==>
      !s'.c2s[|s.c2s|].PutBlock? || s'.c2s[|s.c2s|].blockId != 0;
  }

  lemma {:induction false} NoListAlong(p: Params, states: seq<Sys>, steps: seq<Step>, i: nat, j: nat, f: U32)
    requires GoodParams(p) && IsRun(p, states, steps) && i <= j <= |steps|
    requires NoListToSend(states[i].client, f) && forall k | i <= k < j :: !Starts(steps[k], f)
    ensures NoListToSend(states[j].client, f)
  {
    hide Inv, Enabled, Next, NoListToSend;
    if i < j {
      NoListAlong(p, states, steps, i, j - 1, f);
      RunKeeps(p, states, steps, j - 1);
      StepSendsList(p, states[j - 1], steps[j - 1], f);
    }
  }

  /** The block list of a file is sent at most once for each ticket: not again until a new
      ticket for the file has come, over sessions cut short or not. */
  lemma ListSentOnce(p: Params, states: seq<Sys>, steps: seq<Step>, i: nat, j: nat, f: U32)
    requires GoodParams(p) && IsRun(p, states, steps) && i < j < |steps|
    requires SendsListOf(states[i], states[i + 1], f) && forall k | i < k < j :: !Starts(steps[k], f)
    ensures !SendsListOf(states[j], states[j + 1], f)
  {
    hide Inv, Enabled, Next, NoListToSend, SendsListOf;
    RunKeeps(p, states, steps, i);
    StepSendsList(p, states[i], steps[i], f);
    NoListAlong(p, states, steps, i + 1, j, f);
    RunKeeps(p, states, steps, j);
    StepSendsList(p, states[j], steps[j], f);
  }

  /** Every summary, at any time and whatever sessions were cut short, leads to a stored list
      that decodes to the blocks of its file, all of them stored and true to the file. */
  lemma SummariesLead(p: Params, states: seq<Sys>, steps: seq<Step>, n: nat, f: U32)
    requires GoodParams(p) && IsRun(p, states, steps) && n <= |steps| && f in states[n].client.saved
    ensures
      var v, store := states[n].client.saved[f], states[n].server.store;
      && v.listRemoteId in store && DecodeList(Plain(p, store[v.listRemoteId])) == Some(PersistentAll(v.blocks))
      && forall b :: b in v.blocks ==> IsStored(p, store, b) && IsTrue(p, v.file, b)
  {
    hide NewWeak, TicketInv, UnderWay, Next, Planned, IsStored, IsTrue, DecodeList, EncodeList, PersistentAll, GoodIds;
    RunKeeps(p, states, steps, n);
    var s := states[n];
    var v := s.client.saved[f];
    assert GoodIds(v.blocks, s.client.lastLocal);
    GoodCount(v.blocks, s.client.lastLocal);
    ListRoundTrip(v.blocks);
  }

  /** An archived list has the checksums by which its blocks are found again.  A new block, of
      whole words and inside the file, has the weak checksum of its part of the file.  A whole
      block of the cover, new or found again, agrees with its part in the half that is compared,
      and has its strong checksum. */
  lemma ChecksumsSaved(p: Params, states: seq<Sys>, steps: seq<Step>, n: nat, f: U32, i: nat)
    requires GoodParams(p) && IsRun(p, states, steps) && n <= |steps| && f in states[n].client.saved
    requires i < |states[n].client.saved[f].blocks|
    ensures
      var v := states[n].client.saved[f];
      var b := v.blocks[i];
      b.End() <= |v.file| ==>
        var part := v.file[b.offset..b.End()];
        && (i >= |v.sorted| && b.length % 4 == 0 ==> b.weak == Weak(part))
        && (b.inCover ==> b.strong == p.sha(part))
        && (b.inCover && b.length == p.blockLength ==> Low16(b.weak) == Low16(Weak(part)))
  {
    hide TicketInv, UnderWay, Next, Planned, DecodeList, EncodeListOf, GoodIds, Weak;
    RunKeeps(p, states, steps, n);
    var v, store := states[n].client.saved[f], states[n].server.store;
    assert v.blocks[i] in v.blocks;
    assert IsStored(p, store, v.blocks[i]);
  }

  lemma GoodCount(bs: seq<Block>, lastLocal: nat)
    requires GoodIds(bs, lastLocal)
    ensures |bs| < TWO32
  {
  }

  /** Goodbye has been said exactly once, with the work list empty and the walk over, and
      otherwise not at all. */
  lemma ByeOnce(p: Params, states: seq<Sys>, steps: seq<Step>, n: nat)
    requires GoodParams(p) && IsRun(p, states, steps) && n <= |steps|
    ensures states[n].client.byes ==
      if states[n].client.tickets == map[] && !states[n].client.walking then 1 else 0
  {
    hide TicketInv, SavedInv, UnderWay, Next;
    RunKeeps(p, states, steps, n);
  }

  /** The server, exactly: each message is answered by one, for the same file and block.  Data is
      stored under the next id, which had nothing, and a request is answered from what is stored
      under the id, as far as 16 bits tell its length. */
  lemma ServerExact(p: Params, states: seq<Sys>, steps: seq<Step>, n: nat)
    requires GoodParams(p) && IsRun(p, states, steps) && n < |steps| && steps[n] == Serve
    ensures
      var s, s' := states[n], states[n + 1];
      && s.c2s != [] && s'.c2s == s.c2s[1..] && |s'.s2c| == |s.s2c| + 1 && s'.s2c[..|s.s2c|] == s.s2c
      && var answer := s'.s2c[|s.s2c|];
         match s.c2s[0]
         case Bye(_, _) => answer == Bye(0, 0) && s'.server == s.server
         case PutBlock(f, b, payload) =>
           var a := s'.server.last;
           && a == s.server.last + 1 && a !in s.server.store && answer == PutAck(f, b, a)
           && s'.server.store == s.server.store[a := payload]
         case GetBlock(f, b, a) =>
           && s'.server == s.server && a in s.server.store
           && answer == GetAck(f, b, s.server.store[a][..|s.server.store[a]| % 0x1_0000])
         case _ => false
  {
    hide SavedInv, TicketInv, UnderWay;
    RunKeeps(p, states, steps, n);
    assert states[n].c2s[0] in states[n].c2s;
  }

  /** The work is over: no ticket is left and no file is to come. */
  ghost predicate WorkOver(c: Client) {
    c.tickets == map[] && !c.walking
  }

  /** What the client has put on the way says goodbye exactly if the work is over now and was
      not before. */
  ghost predicate ByeWhenOver(s: Sys, s': Sys) {
    var ends := !WorkOver(s.client) && WorkOver(s'.client);
    && s.c2s <= s'.c2s && (ends ==> s'.c2s == s.c2s + [Bye(0, 0)])
    && (!ends ==> forall m :: m in s'.c2s[|s.c2s|..] ==> !m.Bye?)
  }

  lemma NotOver(c: Client, f: U32)
    requires f in c.tickets
    ensures !WorkOver(c)
  {
  }

  lemma AckSaysBye(p: Params, s: Sys, e: Step)
    requires Enabled(p, s, e) && e.Receive? && s.s2c[0].PutAck?
    ensures ByeWhenOver(s, Next(p, s, e))
  {
    hide FindBlock, ListPayloadOk;
  }

  lemma GetSaysNothing(p: Params, s: Sys, e: Step)
    requires GoodParams(p) && Inv(p, s) && Enabled(p, s, e) && e.Receive? && s.s2c[0].GetAck?
    ensures ByeWhenOver(s, Next(p, s, e))
  {
    hide Inv, WorkOver, CanAcceptList, CanAcceptBlock;
    var f := s.s2c[0].fileId;
    if s.s2c[0].blockId != 0 {
      BlockLeavesOne(p, s, e);
    } else {
      ListLeavesOne(p, s.client, f, s.s2c[0].payload, e.sorted);
    }
    NotOver(Next(p, s, e).client, f);
  }

  lemma ListLeavesOne(p: Params, c: Client, f: U32, payload: seq<Byte>, sorted: seq<Block>)
    requires CanAcceptList(p, c, f, payload, sorted)
    ensures f in AcceptList(p, c, f, payload, sorted).tickets
  {
    hide DecodeList, Completed, WithIds, Unsaved, InRange, IsSorting, Opens, Plain;
  }

  lemma BlockLeavesOne(p: Params, s: Sys, e: Step)
    requires Enabled(p, s, e) && e.Receive? && s.s2c[0].GetAck? && s.s2c[0].blockId != 0
    requires GoodParams(p) && Inv(p, s)
    ensures s.s2c[0].fileId in Next(p, s, e).client.tickets
  {
    hide SavedInv, UnderWay, ArchiveInv, ExtractInv, AcceptGetAckBlock, Install, WriteAt, Opens, FindBlock, GoodIds,
         IsStored, Missing, Fits;
    var f, c, store := s.s2c[0].fileId, s.client, s.server.store;
    var way := UnderWay(s, f);
    FirstUnderWay(s, f);
    assert TicketInv(p, c, store, f, way);
    Installing(p, c, store, f, way);
    InstalledTicket(p, c, store, f, c.tickets[f], way);
  }

  /** Goodbye, exactly: a step of a session puts one on the way if and only if the work is over
      by it and was not before; the server's step puts nothing on that way. */
  lemma ByeExact(p: Params, states: seq<Sys>, steps: seq<Step>, n: nat)
    requires GoodParams(p) && IsRun(p, states, steps) && n < |steps| && !steps[n].Restart?
    ensures
      var s, s' := states[n], states[n + 1];
      if steps[n].Serve? then s'.c2s == s.c2s[1..] && s'.client == s.client else ByeWhenOver(s, s')
  {
    hide Inv, ReceiveOne, CanReceive, CanSendOne, Completed, WithIds;
    RunKeeps(p, states, steps, n);
    var s, e := states[n], steps[n];
    if e.Receive? && s.s2c[0].PutAck? {
      AckSaysBye(p, s, e);
    } else if e.Receive? && s.s2c[0].GetAck? {
      GetSaysNothing(p, s, e);
    } else if e.Receive? {
      OtherSaysNothing(p, s, e);
    }
  }

  /** The walk may be over at any time: then goodbye is said if no ticket is left, and otherwise
      by the last one; nothing else changes. */
  lemma WalkEnds(p: Params, states: seq<Sys>, steps: seq<Step>, n: nat)
    requires GoodParams(p) && IsRun(p, states, steps) && n <= |steps| && states[n].client.walking
    ensures Enabled(p, states[n], WalkDone)
    ensures
      var s, idle := states[n], states[n].client.tickets == map[];
      Next(p, s, WalkDone) ==
        s.(client := s.client.(walking := false, byes := if idle then 1 else 0),
           c2s := s.c2s + if idle then [Bye(0, 0)] else [])
  {
    hide Inv;
    ByeOnce(p, states, steps, n);
    assert states[n].c2s + [] == states[n].c2s;
  }

  lemma OtherSaysNothing(p: Params, s: Sys, e: Step)
    requires Enabled(p, s, e) && e.Receive? && !s.s2c[0].PutAck? && !s.s2c[0].GetAck?
    ensures ByeWhenOver(s, Next(p, s, e))
  {
  }

  // ---- where a run can come to rest ----

  /** Nothing is under way and no ticket has anything to send. */
  ghost predicate AtRest(s: Sys) {
    && s.c2s == [] && s.s2c == []
    && forall f :: f in s.client.tickets ==> s.client.tickets[f].status !in {SendingBlocks, SendingBlockRequests}
  }

  /** At rest, exactly the tickets without a new block are left over from archiving: they wait
      for acknowledgements that cannot come, while a file whose list has a new block has its
      summary.  Tickets that extract are never removed, but all their blocks have been asked
      for and answered.  Besides these a ticket may wait for a stored list that the server
      takes for missing, its length being a multiple of 65536. */
  lemma RestExact(p: Params, states: seq<Sys>, steps: seq<Step>, n: nat, f: U32)
    requires GoodParams(p) && IsRun(p, states, steps) && n <= |steps| && AtRest(states[n])
    ensures f in states[n].client.tickets ==>
      var t := states[n].client.tickets[f];
      if t.status == AwaitingBlockList then ListLost(states[n], f)
      else
        && t.status == AwaitingBlockConfirms
        && (t.action == Archive ==> t.moved == 0 && |t.sorted| == |t.blocks|)
        && (t.action == Extract ==> t.next == |t.blocks|)
    ensures f in states[n].client.saved ==> |states[n].client.saved[f].sorted| < |states[n].client.saved[f].blocks|
  {
    hide BlocksInv, Next, Planned, StoredList, Unacked, EncodeListOf, CarriesAll, Delivered;
    RunKeeps(p, states, steps, n);
    var s := states[n];
    assert UnderWay(s, f) == [];
    assert TicketInv(p, s.client, s.server.store, f, []);
    if f in s.client.tickets && s.client.tickets[f].status == AwaitingBlockList {
      WholeOrCut(p, s.server.store, s.client.saved[f].listRemoteId);
    } else if f in s.client.tickets && s.client.tickets[f].action == Archive {
      var t := s.client.tickets[f];
      GoodOf(p, s.server.store, s.client.lastLocal, t);
    }
  }

  /** The record of the stored list has a length that 16 bits tell as zero. */
  ghost predicate ListLost(s: Sys, f: U32) {
    && f in s.client.saved && s.client.saved[f].listRemoteId in s.server.store
    && |s.server.store[s.client.saved[f].listRemoteId]| % TWO16 == 0
  }

  /** An extraction comes to rest only when no record that it asked for has been cut off: the
      list is below 65536 bytes, or taken for missing, and so is each of its blocks.  Otherwise
      the client exits as soon as the answer comes. */
  lemma CutRecordsStop(p: Params, states: seq<Sys>, steps: seq<Step>, n: nat, f: U32)
    requires GoodParams(p) && IsRun(p, states, steps) && n <= |steps| && AtRest(states[n])
    requires f in states[n].client.tickets && states[n].client.tickets[f].action == Extract
    ensures
      var c, store := states[n].client, states[n].server.store;
      && f in c.saved
      && (if Fits(store, c.saved[f].listRemoteId) then
            && c.tickets[f].status == AwaitingBlockConfirms
            && (forall b :: b in c.saved[f].blocks ==>
                  Fits(store, b.remoteId) || (b.remoteId in store && |store[b.remoteId]| % TWO16 == 0))
          else ListLost(states[n], f) && c.tickets[f].status == AwaitingBlockList)
  {
    hide BlocksInv, Next, Planned, EncodeListOf, Delivered, Missing, Fits, IsTrue, GoodIds, AllStorable, ArchiveInv;
    RunKeeps(p, states, steps, n);
    var s := states[n];
    var c, store := s.client, s.server.store;
    assert UnderWay(s, f) == [];
    assert TicketInv(p, c, store, f, []);
    RestExact(p, states, steps, n, f);
    WholeOrCut(p, store, c.saved[f].listRemoteId);
    var t, bs := c.tickets[f], c.saved[f].blocks;
    if t.status != AwaitingBlockList {
      forall b | b in bs ensures Fits(store, b.remoteId) || |store[b.remoteId]| % TWO16 == 0 {
        var i :| 0 <= i < |bs| && bs[i] == b;
        assert t.blocks[i].remoteId == b.remoteId;
        WholeOrCut(p, store, b.remoteId);
      }
    }
  }

  /** Of the files archived for the first time, only empty ones have no new block. */
  lemma FirstTimeStuck(p: Params, c: Client, f: U32, file: seq<Byte>)
    requires CanArchiveNew(p, c, f, file)
    ensures
      var t := ArchiveNew(p, c, f, file).tickets[f];
      |t.sorted| == |t.blocks| <==> file == []
  {
    FirstCoverExact(|file|, p.blockLength);
    assert Completed([], |file|, p.blockLength) == Added([], |file|, p.blockLength);
  }
}
