/** The walk over the files waits while the work list is full (version-1/archive.c,
    version-1/workticket.c), so that archiving never has more than 21 tickets.  Since tickets
    without a new block stay, it may wait for ever. */
module WorkList {
  import opened Bytes
  import opened Blocks
  import opened CoverLaws
  import opened Covering
  import opened Ids
  import opened Messages
  import opened Progress
  import opened Protocol
  import opened ProtocolLaws
  import opened ProtocolRuns
  import opened ProtocolSafety
  import opened ProtocolTickets
  import opened Restore
  import opened Signatures

  // ---- the bound ----

  lemma NoNewTickets(p: Params, s: Sys, e: Step)
    requires Enabled(p, s, e) && Moves(e)
    ensures Next(p, s, e).client.tickets.Keys <= s.client.tickets.Keys
    ensures Next(p, s, e).client.mode == s.client.mode
  {
    hide DecodeList, WriteAt, Install, Completed, WithIds, ListPayloadOk, FindBlock, Plain, Opens, CanSendOne, Reused,
         IsSorting, InRange;
  }

  lemma SmallerKeys(a: map<U32, Ticket>, b: map<U32, Ticket>)
    requires a.Keys <= b.Keys
    ensures |a| <= |b|
  {
    Fewer(a.Keys, b);
  }

  /** While archiving there are never more than 21 tickets. */
  lemma {:induction false} WorkListBound(p: Params, states: seq<Sys>, steps: seq<Step>, n: nat)
    requires IsRun(p, states, steps) && n <= |steps|
    ensures states[n].client.mode == Archive ==> |states[n].client.tickets| <= 21
  {
    hide Enabled, Next;
    if n > 0 {
      WorkListBound(p, states, steps, n - 1);
      StepBound(p, states[n - 1], steps[n - 1]);
    }
  }

  lemma StepBound(p: Params, s: Sys, e: Step)
    requires Enabled(p, s, e)
    requires s.client.mode == Archive ==> |s.client.tickets| <= MAX_WORK_LIST + 1
    ensures var c := Next(p, s, e).client; c.mode == Archive ==> |c.tickets| <= MAX_WORK_LIST + 1
  {
    hide Completed, WithIds, Unsaved, ReceiveOne, CanReceive, SendOne, CanSendOne;
    if Moves(e) {
      NoNewTickets(p, s, e);
      SmallerKeys(Next(p, s, e).client.tickets, s.client.tickets);
    } else if !e.Restart? {
      OneMore(s.client.tickets, e.fid, Next(p, s, e).client.tickets);
    }
  }

  lemma OneMore(ts: map<U32, Ticket>, f: U32, ts': map<U32, Ticket>)
    requires f in ts' && ts' == ts[f := ts'[f]]
    ensures |ts'| <= |ts| + 1
  {
    assert ts'.Keys == ts.Keys + {f};
    assert ts'.Keys - {f} <= ts.Keys;
    Fewer(ts'.Keys - {f}, ts);
    assert |ts'| == |ts'.Keys|;
  }

  /** A file enters exactly up to twenty tickets: with the twenty-first the walk waits. */
  lemma LastToEnter(p: Params, s: Sys, f: U32, file: seq<Byte>)
    requires s.client.mode == Archive && s.client.walking && f != 0 && f !in s.client.tickets && |file| < TWO32
    requires f !in s.client.saved ==>
      && p.blockLength > 0 && |Completed([], |file|, p.blockLength)| < TWO32
      && s.client.lastLocal + Unsaved(Completed([], |file|, p.blockLength)) < TWO32
    ensures (Enabled(p, s, StartNew(f, file)) || Enabled(p, s, StartOld(f, file))) <==> |s.client.tickets| <= 20
    ensures Enabled(p, s, StartNew(f, file)) ==> f !in s.client.saved
    ensures Enabled(p, s, StartOld(f, file)) ==> f in s.client.saved
  {
    hide Completed, Unsaved;
  }

  // ---- the walk stops ----

  /** The list of the file is complete and has no new block. */
  ghost predicate NoNewBlock(c: Client, f: U32) {
    && f in c.tickets
    && var t := c.tickets[f];
       t.action == Archive && t.status != AwaitingBlockList && |t.sorted| == |t.blocks|
  }

  lemma ListNotSent(p: Params, s: Sys, f: U32)
    requires Inv(p, s) && s.s2c != [] && s.s2c[0].PutAck? && s.s2c[0].fileId == f && NoNewBlock(s.client, f)
    ensures s.s2c[0].blockId != 0
  {
    hide SavedInv, UnderWay, BlocksInv, ServerInv, EncodeListOf, Unacked, Carries;
    var c, store, way := s.client, s.server.store, UnderWay(s, f);
    FirstUnderWay(s, f);
    assert TicketInv(p, c, store, f, way);
    Acknowledging(p, c, store, f, way);
    var t := c.tickets[f];
    GoodOf(p, store, c.lastLocal, t);
    if t.status != AwaitingBlockListConfirm {
      NotTheList(p, store, c.lastLocal, t, way);
    }
  }

  lemma ReceiveLeavesIt(p: Params, s: Sys, e: Step, f: U32)
    requires Inv(p, s) && Enabled(p, s, e) && e.Receive? && NoNewBlock(s.client, f)
    ensures NoNewBlock(Next(p, s, e).client, f)
  {
    hide Inv, UnderWay, DecodeList, WriteAt, Install, Completed, WithIds, ListPayloadOk, FindBlock, Plain, Opens;
    if s.s2c[0].GetAck? && s.s2c[0].fileId == f {
      GetAckFor(p, s, f);
    }
    if s.s2c[0].PutAck? && s.s2c[0].fileId == f {
      ListNotSent(p, s, f);
    }
  }

  /** A ticket without a new block is there for the rest of the session. */
  lemma TicketStays(p: Params, s: Sys, e: Step, f: U32)
    requires Inv(p, s) && Enabled(p, s, e) && !e.Restart? && NoNewBlock(s.client, f)
    ensures NoNewBlock(Next(p, s, e).client, f)
  {
    hide Inv, UnderWay, ReceiveOne, CanReceive, Completed, WithIds, CanSendOne;
    if e.Receive? {
      ReceiveLeavesIt(p, s, e, f);
    }
  }

  lemma {:induction false} TicketsStay(p: Params, states: seq<Sys>, steps: seq<Step>, i: nat, j: nat, f: U32)
    requires GoodParams(p) && IsRun(p, states, steps) && i <= j <= |steps|
    requires forall k | i <= k < j :: !steps[k].Restart?
    requires NoNewBlock(states[i].client, f)
    ensures NoNewBlock(states[j].client, f)
  {
    hide Inv, Enabled, Next, NoNewBlock;
    if i < j {
      TicketsStay(p, states, steps, i, j - 1, f);
      RunKeeps(p, states, steps, j - 1);
      TicketStays(p, states[j - 1], steps[j - 1], f);
    }
  }

  /** As soon as more than twenty files have no new block, no other file enters for the rest
      of the session, whatever else happens in it. */
  lemma WalkStops(p: Params, states: seq<Sys>, steps: seq<Step>, i: nat, j: nat, stuck: set<U32>)
    requires GoodParams(p) && IsRun(p, states, steps) && i <= j < |steps|
    requires forall k | i <= k <= j :: !steps[k].Restart?
    requires |stuck| > 20 && forall f :: f in stuck ==> NoNewBlock(states[i].client, f)
    ensures !steps[j].StartNew? && !steps[j].StartOld?
    ensures WorkListFull(states[j].client) && states[j].client.byes == 0
  {
    hide Inv, Next, NoNewBlock;
    var f :| f in stuck;
    forall f | f in stuck ensures f in states[j].client.tickets && states[j].client.tickets[f].action == Archive {
      TicketsStay(p, states, steps, i, j, f);
      Archives(states[j].client, f);
    }
    Fewer(stuck, states[j].client.tickets);
    RunKeeps(p, states, steps, j);
    InArchive(p, states[j], f);
    ByeOnce(p, states, steps, j);
  }

  lemma Archives(c: Client, f: U32)
    requires NoNewBlock(c, f)
    ensures f in c.tickets && c.tickets[f].action == Archive
  {
  }

  lemma InArchive(p: Params, s: Sys, f: U32)
    requires Inv(p, s) && f in s.client.tickets && s.client.tickets[f].action == Archive
    ensures s.client.mode == Archive
  {
    hide UnderWay, SavedInv, ArchiveInv, ExtractInv, AskingInv;
    assert TicketInv(p, s.client, s.server.store, f, UnderWay(s, f));
  }

  lemma {:induction false} Fewer(fs: set<U32>, ts: map<U32, Ticket>)
    requires forall f :: f in fs ==> f in ts
    ensures |fs| <= |ts|
  {
    if fs != {} {
      var f :| f in fs;
      Fewer(fs - {f}, ts - {f});
      assert ts == (ts - {f})[f := ts[f]];
    }
  }

  /** Where archiving has come to rest with a full work list, nothing happens any more but that
      the walk is over or the client is run again. */
  lemma RestIsFinal(p: Params, s: Sys, e: Step)
    requires AtRest(s) && s.client.mode == Archive && WorkListFull(s.client)
    ensures Enabled(p, s, e) ==> e.WalkDone? || e.Restart?
    ensures e.WalkDone? && Enabled(p, s, e) ==>
      && AtRest(Next(p, s, e)) && Next(p, s, e).client == s.client.(walking := false)
      && Next(p, s, e).c2s == [] && Next(p, s, e).server == s.server
  {
  }
}
