/** A file over the sessions of a run: from the step that begins to archive it, to the state
    in which an extraction has it back. */
module Sessions {
  import opened Bytes
  import opened Blocks
  import opened CoverLaws
  import opened Covering
  import opened EndToEnd
  import opened Ids
  import opened Messages
  import opened Protocol
  import opened ProtocolLaws
  import opened ProtocolRuns
  import opened ProtocolSafety
  import opened ProtocolTickets
  import opened Recovery
  import opened Restore

  /** The file is being archived, or has been; `first` tells whether for the first time. */
  ghost predicate Delivers(c: Client, f: U32, file: seq<Byte>, first: bool) {
    if f in c.tickets then
      var t := c.tickets[f];
      t.action == Archive && t.file == file && (first ==> t.sorted == [] && t.status != AwaitingBlockList)
    else HasSummary(c, f, file, first)
  }

  ghost predicate HasSummary(c: Client, f: U32, file: seq<Byte>, first: bool) {
    f in c.saved && c.saved[f].file == file && (first ==> c.saved[f].sorted == [])
  }

  lemma DeliversReceive(p: Params, s: Sys, e: Step, f: U32, file: seq<Byte>, first: bool)
    requires Inv(p, s) && Enabled(p, s, e) && e.Receive? && Delivers(s.client, f, file, first)
    ensures Delivers(Next(p, s, e).client, f, file, first)
  {
    hide Inv, UnderWay, DecodeList, WriteAt, Install, Completed, WithIds, ListPayloadOk, FindBlock;
    if s.s2c[0].GetAck? && s.s2c[0].fileId == f && f in s.client.tickets {
      GetAckFor(p, s, f);
    }
  }

  lemma DeliversStep(p: Params, s: Sys, e: Step, f: U32, file: seq<Byte>, first: bool)
    requires Inv(p, s) && Enabled(p, s, e) && !e.Restart? && !Starts(e, f)
    requires Delivers(s.client, f, file, first)
    ensures Delivers(Next(p, s, e).client, f, file, first)
  {
    hide Inv, UnderWay, ReceiveOne, CanReceive, Completed, WithIds, CanSendOne;
    if e.Receive? {
      DeliversReceive(p, s, e, f, file, first);
    }
  }

  /** No session begins and no other ticket for the file comes between the two states. */
  ghost predicate Undisturbed(steps: seq<Step>, i: nat, j: nat, f: U32) {
    i <= j <= |steps| && forall k | i <= k < j :: !steps[k].Restart? && !Starts(steps[k], f)
  }

  lemma {:induction false} DeliversRun(p: Params, states: seq<Sys>, steps: seq<Step>, i: nat, j: nat, f: U32,
                                       file: seq<Byte>, first: bool)
    requires GoodParams(p) && IsRun(p, states, steps) && Undisturbed(steps, i, j, f)
    requires Delivers(states[i].client, f, file, first)
    ensures Delivers(states[j].client, f, file, first)
  {
    hide Inv, Enabled, Next, Delivers;
    if i < j {
      DeliversRun(p, states, steps, i, j - 1, f, file, first);
      RunKeeps(p, states, steps, j - 1);
      DeliversStep(p, states[j - 1], steps[j - 1], f, file, first);
    }
  }

  /** Archiving, undisturbed until the state is at rest, ends in one of these ways: the summary
      of the file is written, or its list has no new block and its ticket waits for ever, or
      the old list is taken for missing.  With a first archiving the second happens exactly to
      an empty file, and the third never. */
  lemma ArchivingEnds(p: Params, states: seq<Sys>, steps: seq<Step>, i: nat, m: nat, f: U32, file: seq<Byte>)
    requires GoodParams(p) && IsRun(p, states, steps) && i < m && Undisturbed(steps, i + 1, m, f)
    requires steps[i] == StartNew(f, file) || (steps[i] == StartOld(f, file) && states[i].client.mode == Archive)
    requires AtRest(states[m])
    ensures
      var c, first := states[m].client, steps[i].StartNew?;
      if f in c.tickets then
        && c.tickets[f].action == Archive && c.tickets[f].file == file
        && (if c.tickets[f].status == AwaitingBlockList then ListLost(states[m], f) && !first
            else
              && c.tickets[f].status == AwaitingBlockConfirms && |c.tickets[f].sorted| == |c.tickets[f].blocks|
              && (first ==> file == []))
      else HasSummary(c, f, file, first) && (first ==> file != [])
  {
    hide Inv, StoredList, HasList, UnderWay, Completed;
    var first := steps[i].StartNew?;
    Begins(p, states[i], steps[i], f, file);
    DeliversRun(p, states, steps, i + 1, m, f, file, first);
    RestExact(p, states, steps, m, f);
    RunKeeps(p, states, steps, m);
    if first {
      FirstHasBlocks(p, states[m], f, file);
    }
  }

  lemma Begins(p: Params, s: Sys, e: Step, f: U32, file: seq<Byte>)
    requires Enabled(p, s, e)
    requires e == StartNew(f, file) || (e == StartOld(f, file) && s.client.mode == Archive)
    ensures Delivers(Next(p, s, e).client, f, file, e.StartNew?)
  {
    hide Completed, WithIds;
  }

  /** A list that begins with nothing reused has a block unless the file is empty. */
  lemma FirstHasBlocks(p: Params, s: Sys, f: U32, file: seq<Byte>)
    requires GoodParams(p) && Inv(p, s) && Delivers(s.client, f, file, true)
    ensures f in s.client.tickets ==> (s.client.tickets[f].blocks == [] <==> file == [])
    ensures f !in s.client.tickets ==> (s.client.saved[f].blocks == [] <==> file == [])
  {
    hide UnderWay, StoredList, HasList, InRange, Added, WayInv, ServerInv, SavedInv;
    FirstCoverExact(0, p.blockLength);
    if f in s.client.tickets {
      assert TicketInv(p, s.client, s.server.store, f, UnderWay(s, f));
      FirstPlan(p, file, s.client.tickets[f].blocks);
    } else {
      SavedPlan(p, s.client, s.server.store, f);
      FirstPlan(p, file, s.client.saved[f].blocks);
    }
  }

  lemma SavedPlan(p: Params, c: Client, store: map<U32, seq<Byte>>, f: U32)
    requires SavedInv(p, c, store) && f in c.saved
    ensures Planned(p, c.saved[f].file, c.saved[f].blocks, c.saved[f].sorted)
  {
    hide Planned, StoredList, HasList;
  }

  lemma FirstPlan(p: Params, file: seq<Byte>, bs: seq<Block>)
    requires Planned(p, file, bs, [])
    ensures bs == [] <==> file == []
  {
    FirstCoverExact(|file|, p.blockLength);
  }

  // ---- what happens to the summary ----

  lemma SummaryReceive(p: Params, s: Sys, e: Step, f: U32, file: seq<Byte>, first: bool)
    requires Inv(p, s) && Enabled(p, s, e) && e.Receive?
    requires HasSummary(s.client, f, file, first) && (f in s.client.tickets ==> s.client.tickets[f].action == Extract)
    ensures
      var c := Next(p, s, e).client;
      HasSummary(c, f, file, first) && (f in c.tickets ==> c.tickets[f].action == Extract)
  {
    hide Inv, UnderWay, DecodeList, WriteAt, Install, Completed, WithIds, ListPayloadOk, FindBlock;
    if s.s2c[0].PutAck? && s.s2c[0].fileId == f {
      PutAckFor(p, s, f);
    }
  }

  lemma PutAckFor(p: Params, s: Sys, f: U32)
    requires Inv(p, s) && s.s2c != [] && s.s2c[0].PutAck? && s.s2c[0].fileId == f
    ensures f in s.client.tickets && s.client.tickets[f].action == Archive
  {
    hide SavedInv, UnderWay, ArchiveInv, ExtractInv, ServerInv;
    FirstUnderWay(s, f);
    assert TicketInv(p, s.client, s.server.store, f, UnderWay(s, f));
    Acknowledging(p, s.client, s.server.store, f, UnderWay(s, f));
  }

  lemma SummaryStep(p: Params, s: Sys, e: Step, f: U32, file: seq<Byte>, first: bool)
    requires Inv(p, s) && Enabled(p, s, e) && (Starts(e, f) ==> s.client.mode == Extract)
    requires HasSummary(s.client, f, file, first) && (f in s.client.tickets ==> s.client.tickets[f].action == Extract)
    ensures
      var c := Next(p, s, e).client;
      HasSummary(c, f, file, first) && (f in c.tickets ==> c.tickets[f].action == Extract)
  {
    hide Inv, UnderWay, ReceiveOne, CanReceive, Completed, WithIds, CanSendOne;
    if e.Receive? {
      SummaryReceive(p, s, e, f, file, first);
    }
  }

  lemma ExtractReceive(p: Params, s: Sys, e: Step, f: U32)
    requires GoodParams(p) && Inv(p, s) && Enabled(p, s, e) && e.Receive?
    requires f in s.client.tickets && s.client.tickets[f].action == Extract
    ensures var ts := Next(p, s, e).client.tickets; f in ts && ts[f].action == Extract
  {
    hide Inv, UnderWay, DecodeList, WriteAt, Install, Completed, WithIds, ListPayloadOk, FindBlock, InstalledOne;
    if s.s2c[0].PutAck? && s.s2c[0].fileId == f {
      PutAckFor(p, s, f);
    }
    if s.s2c[0].GetAck? && s.s2c[0].fileId == f && s.s2c[0].blockId != 0 {
      BlockLeavesTicket(p, s, f);
    }
  }

  lemma BlockLeavesTicket(p: Params, s: Sys, f: U32)
    requires GoodParams(p) && Inv(p, s)
    requires s.s2c != [] && s.s2c[0].GetAck? && s.s2c[0].fileId == f && s.s2c[0].blockId != 0
    requires f in s.client.tickets && s.client.tickets[f].action == Extract
    requires CanAcceptBlock(p, s.client, f, s.s2c[0].blockId, s.s2c[0].payload)
    ensures
      var ts := AcceptGetAckBlock(p, s.client, f, s.s2c[0].blockId, s.s2c[0].payload).tickets;
      f in ts && ts[f].action == Extract
  {
    hide SavedInv, UnderWay, ArchiveInv, ExtractInv, AcceptGetAckBlock;
    var c, store, way := s.client, s.server.store, UnderWay(s, f);
    FirstUnderWay(s, f);
    assert TicketInv(p, c, store, f, way);
    Installing(p, c, store, f, way);
    InstalledTicket(p, c, store, f, c.tickets[f], way);
  }

  lemma ExtractStep(p: Params, s: Sys, e: Step, f: U32)
    requires GoodParams(p) && Inv(p, s) && Enabled(p, s, e) && !e.Restart?
    requires f in s.client.tickets && s.client.tickets[f].action == Extract
    ensures var ts := Next(p, s, e).client.tickets; f in ts && ts[f].action == Extract
  {
    hide Inv, UnderWay, ReceiveOne, CanReceive, Completed, WithIds, CanSendOne;
    if e.Receive? {
      ExtractReceive(p, s, e, f);
    }
  }

  /** A ticket that extracts is never removed, although all its blocks come: requests are not
      counted, so that the count is below zero from the first block on.  Nor is goodbye said
      in such a session. */
  lemma {:induction false} ExtractNeverEnds(p: Params, states: seq<Sys>, steps: seq<Step>, i: nat, j: nat, f: U32)
    requires GoodParams(p) && IsRun(p, states, steps) && i <= j <= |steps|
    requires forall k | i <= k < j :: !steps[k].Restart?
    requires f in states[i].client.tickets && states[i].client.tickets[f].action == Extract
    ensures f in states[j].client.tickets && states[j].client.tickets[f].action == Extract
    ensures states[j].client.byes == 0
  {
    hide Inv, Enabled, Next;
    if i < j {
      ExtractNeverEnds(p, states, steps, i, j - 1, f);
      RunKeeps(p, states, steps, j - 1);
      ExtractStep(p, states[j - 1], steps[j - 1], f);
    }
    ByeOnce(p, states, steps, j);
  }

  /** The file is not archived again between the two states; sessions may begin and end. */
  ghost predicate NotArchivedAgain(states: seq<Sys>, steps: seq<Step>, i: nat, j: nat, f: U32) {
    && i <= j <= |steps| < |states|
    && forall k | i <= k < j :: Starts(steps[k], f) ==> states[k].client.mode == Extract
  }

  lemma {:induction false} SummaryRun(p: Params, states: seq<Sys>, steps: seq<Step>, i: nat, j: nat, f: U32,
                                      file: seq<Byte>, first: bool)
    requires GoodParams(p) && IsRun(p, states, steps) && NotArchivedAgain(states, steps, i, j, f)
    requires HasSummary(states[i].client, f, file, first)
    requires f in states[i].client.tickets ==> states[i].client.tickets[f].action == Extract
    ensures HasSummary(states[j].client, f, file, first)
    ensures f in states[j].client.tickets ==> states[j].client.tickets[f].action == Extract
  {
    hide Inv, Enabled, Next, HasSummary;
    if i < j {
      SummaryRun(p, states, steps, i, j - 1, f, file, first);
      RunKeeps(p, states, steps, j - 1);
      SummaryStep(p, states[j - 1], steps[j - 1], f, file, first);
    }
  }

  /** From file to file.  Step `i` begins to archive a file for the first time; the session
      comes to rest in state `m`; later, in state `n`, after any further sessions that did not
      archive the file again, its extraction has come to rest, undisputed by other files.
      Then the recovered file is the archived one, byte for byte, exactly when the blocks that
      the server gives back are enough for it; if the records of the list and its blocks are
      below 65536 bytes, exactly when it is at most one block long or is made of whole
      blocks. */
  lemma BackupComesBack(p: Params, states: seq<Sys>, steps: seq<Step>, i: nat, m: nat, n: nat, f: U32, file: seq<Byte>)
    requires GoodParams(p) && IsRun(p, states, steps)
    requires i < m && Undisturbed(steps, i + 1, m, f) && NotArchivedAgain(states, steps, m, n, f)
    requires steps[i] == StartNew(f, file) && file != [] && AtRest(states[m]) && AtRest(states[n])
    requires f in states[n].client.tickets && states[n].client.tickets[f].action == Extract
    ensures p.blockLength > 0 && f in states[n].client.saved
    ensures
      var c, store := states[n].client, states[n].server.store;
      var v := c.saved[f];
      NoCollisions(p, store, v) ==>
        && (c.tickets.Keys == {f} ==> Undisputed(c, f))
        && (Undisputed(c, f) ==>
              && (c.recovered == file <==> Enough(file, Given(store, v)))
              && (AllFit(store, v) ==>
                    (c.recovered == file <==> |file| <= p.blockLength || |file| % p.blockLength == 0)))
  {
    hide Inv, Enabled, Next, AtRest, Undisturbed, Enough, Given, AllFit, NoCollisions;
    ArchivingEnds(p, states, steps, i, m, f, file);
    SummaryRun(p, states, steps, m, n, f, file, true);
    if NoCollisions(p, states[n].server.store, states[n].client.saved[f]) {
      if states[n].client.tickets.Keys == {f} {
        OnlyFile(p, states, steps, n, f);
      }
      if Undisputed(states[n].client, f) {
        FirstArchiveComesBack(p, states, steps, n, f);
      }
    }
    RunKeeps(p, states, steps, n);
    PlanOf(p, states[n], f);
  }

  /** A file archived again, of which some old blocks may still be found, comes back if the
      blocks that were written shield it.  Undisputed and with all records below 65536 bytes,
      these shield it exactly if the planned list does; with all old blocks found, it comes
      back exactly when the tail fits. */
  lemma LaterBackupComesBack(p: Params, states: seq<Sys>, steps: seq<Step>, i: nat, m: nat, n: nat, f: U32,
                             file: seq<Byte>)
    requires GoodParams(p) && IsRun(p, states, steps)
    requires i < m && Undisturbed(steps, i + 1, m, f) && NotArchivedAgain(states, steps, m, n, f)
    requires steps[i] == StartOld(f, file) && states[i].client.mode == Archive
    requires AtRest(states[m]) && f !in states[m].client.tickets && AtRest(states[n])
    requires f in states[n].client.tickets && states[n].client.tickets[f].action == Extract
    ensures f in states[n].client.saved
    ensures
      var c, store := states[n].client, states[n].server.store;
      var v := c.saved[f];
      && v.file == file && |file| < TWO32 && InRange(v.sorted, |file|, p.blockLength)
      && var planned := Completed(v.sorted, |file|, p.blockLength);
         (NoCollisions(p, store, v) ==>
            && (Shielded(Merged(c, f), |file|) ==> c.recovered == file)
            && (Undisputed(c, f) && AllFit(store, v) ==>
                  && (Shielded(Merged(c, f), |file|) <==> Shielded(planned, |file|))
                  && ((forall b :: b in v.sorted ==> b.inCover) ==>
                        (c.recovered == file <==> TailFits(v.sorted, |file|, p.blockLength)))))
  {
    hide Inv, Enabled, Next, AtRest, Undisturbed, Shielded, Completed, NoCollisions, StoredList, HasList, TailFits,
         Enough, Given, AllFit, ListLost;
    ArchivingEnds(p, states, steps, i, m, f, file);
    SummaryRun(p, states, steps, m, n, f, file, false);
    RunKeeps(p, states, steps, n);
    var c := states[n].client;
    PlanOf(p, states[n], f);
    if NoCollisions(p, states[n].server.store, c.saved[f]) {
      FileComesBack(p, states, steps, n, f);
      if Undisputed(c, f) {
        UndisputedList(p, states, steps, n, f);
        ReusedFileComesBack(p, states, steps, n, f);
        PlannedShields(p, file, c.saved[f].blocks, c.saved[f].sorted);
      }
    }
  }

  lemma PlannedShields(p: Params, file: seq<Byte>, bs: seq<Block>, sorted: seq<Block>)
    requires Planned(p, file, bs, sorted)
    ensures Shielded(bs, |file|) <==> Shielded(Completed(sorted, |file|, p.blockLength), |file|)
  {
    hide Shielded, Completed, AlwaysRestores, InstalledAll, WriteAll;
    var planned := Completed(sorted, |file|, p.blockLength);
    SameCoverRestores(bs, planned, |file|);
    RestoreExact(bs, |file|);
    RestoreExact(planned, |file|);
  }
}
