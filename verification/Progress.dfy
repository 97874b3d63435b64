/** Archiving and extracting come to an end: between the arrivals of tickets every step makes
    a measure smaller, and as long as the state is not at rest there is a step to take. */
module Progress {
  import opened Bytes
  import opened Blocks
  import opened CoverLaws
  import opened Covering
  import opened Ids
  import opened Messages
  import opened Protocol
  import opened ProtocolRuns
  import opened ProtocolSafety
  import opened Restore
  import opened Signatures

  /** A step that neither brings a ticket nor begins a session. */
  predicate Moves(e: Step) {
    !e.StartNew? && !e.StartOld? && !e.Restart?
  }

  // ---- the measure ----

  /** What a ticket may still cause: for a block three steps, sending, serving and being
      acknowledged; the same for its list; and the end of its loop.  A list that is still
      awaited will have at most `cap` blocks, and as many new ids. */
  function Weight(t: Ticket, cap: nat): nat {
    if t.status == AwaitingBlockList then 4 * cap + 7
    else
      (if t.next < |t.blocks| then 3 * (|t.blocks| - t.next) else 0)
      + (if t.status == SendingBlocks || t.status == SendingBlockRequests then 1 else 0)
      + (if t.status == AwaitingBlockListConfirm then 2 else 5)
  }

  ghost function Pick(ts: map<U32, Ticket>): (f: U32)
    requires ts != map[]
    ensures f in ts
  {
    var f :| f in ts;
    f
  }

  ghost function Total(ts: map<U32, Ticket>, cap: nat): nat
    decreases |ts|
  {
    if ts == map[] then 0 else Weight(ts[Pick(ts)], cap) + Total(ts - {Pick(ts)}, cap)
  }

  lemma {:induction false} TotalWithout(ts: map<U32, Ticket>, f: U32, cap: nat)
    requires f in ts
    ensures Total(ts, cap) == Weight(ts[f], cap) + Total(ts - {f}, cap)
    decreases |ts|
  {
    hide Weight;
    var g := Pick(ts);
    if g != f {
      TotalWithout(ts - {g}, f, cap);
      TotalWithout(ts - {f}, g, cap);
      assert ts - {g} - {f} == ts - {f} - {g};
    }
  }

  lemma TotalWith(ts: map<U32, Ticket>, f: U32, t: Ticket, cap: nat)
    requires f in ts
    ensures Total(ts[f := t], cap) + Weight(ts[f], cap) == Total(ts, cap) + Weight(t, cap)
  {
    hide Total, Weight;
    TotalWithout(ts, f, cap);
    TotalWithout(ts[f := t], f, cap);
    assert ts[f := t] - {f} == ts - {f};
  }

  ghost function Measure(s: Sys, cap: nat): nat {
    Total(s.client.tickets, cap) + 2 * |s.c2s| + |s.s2c| + if s.client.walking then 3 else 0
  }

  /** What a step takes off the measure: at least one, and one for each id it hands out. */
  ghost predicate GoesDown(s: Sys, s': Sys, cap: nat) {
    && Measure(s', cap) < Measure(s, cap)
    && s.client.lastLocal <= s'.client.lastLocal
    && Measure(s', cap) + s'.client.lastLocal <= Measure(s, cap) + s.client.lastLocal
    && Measure(s', cap) + s'.server.last <= Measure(s, cap) + s.server.last
  }

  // ---- every step goes down ----

  lemma SendingGoesDown(p: Params, s: Sys, e: Step, cap: nat)
    requires Enabled(p, s, e) && (e.SendBlock? || e.RequestBlock?)
    ensures GoesDown(s, Next(p, s, e), cap)
  {
    hide Total, FillOk;
    var f, t := e.fid, s.client.tickets[e.fid];
    var r := if e.SendBlock? then SendOne(p, f, t, e.fill) else RequestOne(f, t);
    TotalWith(s.client.tickets, f, r.0, cap);
  }

  lemma AckGoesDown(p: Params, s: Sys, e: Step, cap: nat)
    requires Enabled(p, s, e) && e.Receive? && s.s2c[0].PutAck?
    ensures GoesDown(s, Next(p, s, e), cap)
  {
    var PutAck(f, b, a) := s.s2c[0];
    var c := s.client;
    var t := c.tickets[f];
    assert Weight(t, cap) >= 2;
    hide Total, Weight, ListPayloadOk, FindBlock;
    TotalWithout(c.tickets, f, cap);
    if b != 0 && FindBlock(t.blocks, b) >= 0 {
      var t' := Acked(t, FindBlock(t.blocks, b), a);
      TotalWith(c.tickets, f, t', cap);
      TotalWith(c.tickets, f, t'.(status := AwaitingBlockListConfirm), cap);
      AckWeight(t, FindBlock(t.blocks, b), a, cap);
    }
  }

  lemma AckWeight(t: Ticket, k: nat, a: U32, cap: nat)
    requires k < |t.blocks|
    ensures Weight(Acked(t, k, a), cap) == Weight(t, cap)
    ensures SendsList(Acked(t, k, a)) ==>
      Weight(Acked(t, k, a).(status := AwaitingBlockListConfirm), cap) + 3 == Weight(t, cap)
  {
  }

  lemma BlockGoesDown(p: Params, s: Sys, e: Step, cap: nat)
    requires Enabled(p, s, e) && e.Receive? && s.s2c[0].GetAck? && s.s2c[0].blockId != 0
    ensures GoesDown(s, Next(p, s, e), cap)
  {
    hide Total, WriteAt, Install;
    var GetAck(f, b, data) := s.s2c[0];
    var c, c' := s.client, Next(p, s, e).client;
    TotalWithout(c.tickets, f, cap);
    if f in c'.tickets {
      assert c'.tickets == c.tickets[f := c'.tickets[f]];
      TotalWith(c.tickets, f, c'.tickets[f], cap);
    }
  }

  /** A list that this step brings has at most `cap` blocks. */
  ghost predicate ListWithin(p: Params, s: Sys, e: Step, cap: nat)
    requires Enabled(p, s, e)
  {
    e.Receive? && s.s2c[0].GetAck? && s.s2c[0].blockId == 0 ==>
      var ts := Next(p, s, e).client.tickets;
      s.s2c[0].fileId in ts && |ts[s.s2c[0].fileId].blocks| <= cap
  }

  lemma ListGoesDown(p: Params, s: Sys, e: Step, cap: nat)
    requires GoodParams(p) && Inv(p, s)
    requires Enabled(p, s, e) && e.Receive? && s.s2c[0].GetAck? && s.s2c[0].blockId == 0
    requires ListWithin(p, s, e, cap)
    ensures GoesDown(s, Next(p, s, e), cap)
  {
    hide Total, UnderWay, SavedInv, TicketInv, StoredList, HasList, DecodeList, Completed, WithIds, Reused, InRange,
         Unsaved;
    var GetAck(f, b, data) := s.s2c[0];
    var c, c' := s.client, Next(p, s, e).client;
    FirstUnderWay(s, f);
    assert TicketInv(p, c, s.server.store, f, UnderWay(s, f));
    Listed(p, c, s.server.store, f, UnderWay(s, f));
    if data != [] {
      NewIds(p, c, f, data, e.sorted);
      assert c'.tickets == c.tickets[f := c'.tickets[f]];
      TotalWith(c.tickets, f, c'.tickets[f], cap);
    }
  }

  lemma NewIds(p: Params, c: Client, f: U32, payload: seq<Byte>, sorted: seq<Block>)
    requires CanAcceptList(p, c, f, payload, sorted) && payload != []
    ensures
      var c' := AcceptList(p, c, f, payload, sorted);
      f in c'.tickets && c.lastLocal <= c'.lastLocal <= c.lastLocal + |c'.tickets[f].blocks|
  {
    hide DecodeList, Completed, WithIds, Reused, InRange, Unsaved, IsSorting;
    if c.mode == Archive {
      UnsavedAtMost(Completed(sorted, |c.tickets[f].file|, p.blockLength));
    }
  }

  lemma AnyListWithin(p: Params, s: Sys, e: Step)
    requires GoodParams(p) && Inv(p, s) && Enabled(p, s, e)
    ensures ListWithin(p, s, e, TWO32)
  {
    hide UnderWay, SavedInv, TicketInv, StoredList, HasList, DecodeList, Completed, WithIds, Reused, InRange, Unsaved;
    if e.Receive? && s.s2c[0].GetAck? && s.s2c[0].blockId == 0 {
      var f, c := s.s2c[0].fileId, s.client;
      FirstUnderWay(s, f);
      assert TicketInv(p, c, s.server.store, f, UnderWay(s, f));
      Listed(p, c, s.server.store, f, UnderWay(s, f));
      ListLength(p, s.server.store, c.saved[f].file, c.saved[f].blocks, c.lastLocal);
    }
  }

  lemma ListLength(p: Params, store: map<U32, seq<Byte>>, file: seq<Byte>, bs: seq<Block>, lastLocal: nat)
    requires StoredList(p, store, file, bs, lastLocal)
    ensures |PersistentAll(bs)| < TWO32
  {
  }

  lemma ServeGoesDown(p: Params, s: Sys, cap: nat)
    requires Enabled(p, s, Serve)
    ensures GoesDown(s, Next(p, s, Serve), cap)
  {
    hide Total;
  }

  /** Every step but the arrival of a ticket and a new session makes the measure smaller. */
  lemma StepGoesDown(p: Params, s: Sys, e: Step, cap: nat)
    requires GoodParams(p) && Inv(p, s) && Enabled(p, s, e) && Moves(e) && ListWithin(p, s, e, cap)
    ensures GoesDown(s, Next(p, s, e), cap)
  {
    hide Inv, Total;
    match e {
      case SendBlock(_, _) => SendingGoesDown(p, s, e, cap);
      case RequestBlock(_) => SendingGoesDown(p, s, e, cap);
      case Serve => ServeGoesDown(p, s, cap);
      case WalkDone =>
      case Receive(_, _) =>
        if s.s2c[0].PutAck? {
          AckGoesDown(p, s, e, cap);
        } else if s.s2c[0].GetAck? {
          if s.s2c[0].blockId != 0 {
            BlockGoesDown(p, s, e, cap);
          } else {
            ListGoesDown(p, s, e, cap);
          }
        }
    }
  }

  /** Between the arrivals of tickets a run has no more steps than the measure says. */
  lemma {:induction false} RunsEnd(p: Params, states: seq<Sys>, steps: seq<Step>, i: nat, j: nat)
    requires GoodParams(p) && IsRun(p, states, steps) && i <= j <= |steps|
    requires forall k | i <= k < j :: Moves(steps[k])
    ensures Measure(states[j], TWO32) + (j - i) <= Measure(states[i], TWO32)
  {
    hide Inv, Enabled, Next, Measure, ListWithin;
    if i < j {
      RunsEnd(p, states, steps, i, j - 1);
      RunKeeps(p, states, steps, j - 1);
      AnyListWithin(p, states[j - 1], steps[j - 1]);
      StepGoesDown(p, states[j - 1], steps[j - 1], TWO32);
    }
  }
}
