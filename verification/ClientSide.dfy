/** The client as version-1/protocol.c, version-1/workticket.c, version-1/archive.c and
    version-1/extract.c have it: a work list of tickets that handlers update in place.  Each
    handler does what the step relation of `Protocol` says. */
module ClientSide {
  import opened Bytes
  import opened Blocks
  import opened CoverLaws
  import opened Covering
  import opened Framing
  import opened HashTables
  import opened Ids
  import opened IosBuffer
  import opened Messages
  import opened Options
  import opened Protocol
  import opened ProtocolRuns
  import opened ProtocolSafety
  import opened Restore
  import opened WorkTickets

  /** Turns of a loop are steps of the protocol, so a call of `wt_send_blocks` keeps its
      invariant. */
  lemma {:induction false} SendTurnsKeep(p: Params, s: Sys, f: U32, fills: seq<Fill>, turns: nat)
    requires GoodParams(p) && Inv(p, s) && f in s.client.tickets
    requires forall n | 0 <= n < turns :: CanTurn(p, f, s.client.tickets[f], fills, n)
    ensures Inv(p, WithTicket(s, f, SendTurns(p, f, s.client.tickets[f], fills, turns)))
  {
    hide Inv, SendOne, CanSendOne;
    var t := s.client.tickets[f];
    if turns == 0 {
      assert s.client.tickets[f := t] == s.client.tickets && s.c2s + [] == s.c2s;
    } else {
      SendTurnsKeep(p, s, f, fills, turns - 1);
      var r := SendTurns(p, f, t, fills, turns - 1);
      var s', e := WithTicket(s, f, r), SendBlock(f, FillFor(fills, r.0.next));
      assert CanTurn(p, f, t, fills, turns - 1);
      StepKeeps(p, s', e);
      var q := SendOne(p, f, r.0, FillFor(fills, r.0.next));
      assert s.client.tickets[f := r.0][f := q.0] == s.client.tickets[f := q.0];
      assert (s.c2s + r.1) + q.1 == s.c2s + (r.1 + q.1);
    }
  }

  lemma {:induction false} RequestTurnsKeep(p: Params, s: Sys, f: U32, turns: nat)
    requires GoodParams(p) && Inv(p, s) && f in s.client.tickets
    requires forall n | 0 <= n < turns :: RequestTurns(f, s.client.tickets[f], n).0.status == SendingBlockRequests
    ensures Inv(p, WithTicket(s, f, RequestTurns(f, s.client.tickets[f], turns)))
  {
    hide Inv, RequestOne;
    var t := s.client.tickets[f];
    if turns == 0 {
      assert s.client.tickets[f := t] == s.client.tickets && s.c2s + [] == s.c2s;
    } else {
      RequestTurnsKeep(p, s, f, turns - 1);
      var r := RequestTurns(f, t, turns - 1);
      StepKeeps(p, WithTicket(s, f, r), RequestBlock(f));
      var q := RequestOne(f, r.0);
      assert s.client.tickets[f := r.0][f := q.0] == s.client.tickets[f := q.0];
      assert (s.c2s + r.1) + q.1 == s.c2s + (r.1 + q.1);
    }
  }

  ghost predicate ValidWork(work: map<U32, WorkTicket>) {
    forall f :: f in work ==> work[f].fileId == f
  }

  ghost predicate ValidSummaries(summaries: map<U32, U32>, saved: map<U32, Saved>) {
    summaries.Keys == saved.Keys && forall f :: f in summaries ==> summaries[f] == saved[f].listRemoteId
  }

  lemma Summarised(summaries: map<U32, U32>, saved: map<U32, Saved>, f: U32, v: Saved)
    requires ValidSummaries(summaries, saved)
    ensures ValidSummaries(summaries[f := v.listRemoteId], saved[f := v])
  {
  }

  method ReadList(data: seq<Byte>) returns (list: seq<Block>)
    requires DecodeList(data).Some?
    ensures Some(list) == DecodeList(data)
  {
    var ios := new IosBuf();
    ios.SetBuffer(data);
    list := BlockListFromStream(ios);
  }

  class BackupClient {
    const mode: Action
    const out: Output
    const ids: IdCounter
    const fp: RecoveredFile
    var work: map<U32, WorkTicket>
    var walking: bool
    var byes: nat
    var summaries: map<U32, U32>         // file id to the remote id of its block list
    ghost var saved: map<U32, Saved>
    ghost var opener: U32
    ghost var log: seq<Placed>

    ghost predicate Valid()
      reads this, work.Values, ids, out
    {
      out.Valid() && ValidWork(work) && ValidSummaries(summaries, saved) && (ids.found ==> ids.index != 0)
    }

    ghost function Tickets(): map<U32, Ticket>
      reads this, work.Values
    {
      map f | f in work :: work[f].State()
    }

    ghost function State(): Client
      reads this, work.Values, ids, fp
    {
      Client(mode, Tickets(), walking, byes, ids.Last(), saved, fp.content, opener, log)
    }

    constructor (mode: Action, out: Output, ids: IdCounter, fp: RecoveredFile)
      requires out.Valid() && (ids.found ==> ids.index != 0)
      ensures Valid() && this.mode == mode && this.out == out && this.ids == ids && this.fp == fp
      ensures State() == Client(mode, map[], true, 0, ids.Last(), map[], fp.content, 0, [])
    {
      this.mode, this.out, this.ids, this.fp := mode, out, ids, fp;
      work, walking, byes, summaries, saved, opener, log := map[], true, 0, map[], map[], 0, [];
    }

    /** The test behind the end of a ticket, and behind the walk over the files. */
    method SayGoodbye()
      requires out.Valid()
      modifies `byes, out
      ensures out.Valid() && State() == Farewell(old(State())).0
      ensures out.sent == old(out.sent) + Farewell(old(State())).1
    {
      assert Tickets() == map[] <==> work == map[] by {
        assert Tickets().Keys == work.Keys;
      }
      if work == map[] && !walking {
        out.Send(Bye(0, 0));
        byes := byes + 1;
      }
    }

    /** `wt_insert`. */
    method Insert(wt: WorkTicket)
      requires Valid() && wt.fileId !in work
      modifies `work
      ensures Valid() && work == old(work)[wt.fileId := wt]
      ensures State() == old(State()).(tickets := old(Tickets())[wt.fileId := wt.State()])
    {
      ghost var c := State();
      work := work[wt.fileId := wt];
      OneTicket(c, wt.fileId);
    }

    /** `wt_remove`. */
    method Remove(f: U32)
      requires Valid() && f in work
      modifies `work
      ensures Valid() && work == old(work) - {f}
      ensures State() == old(State()).(tickets := old(Tickets()) - {f})
    {
      ghost var c := State();
      work := work - {f};
      assert Tickets() == c.tickets - {f};
    }

    /** `accept_put_ack` for a block; `listPayload` is what sealing the block list comes to. */
    method AcceptBlockAck(p: Params, f: U32, b: U32, a: U32, listPayload: seq<Byte>)
      requires Valid() && CanAcceptPutAck(p, State(), f, b, a, listPayload) && b != 0
      modifies work[f], out
      ensures Valid()
      ensures State() == Protocol.AcceptPutAck(old(State()), f, b, a, listPayload).0
      ensures out.sent == old(out.sent) + Protocol.AcceptPutAck(old(State()), f, b, a, listPayload).1
    {
      hide Protocol.AcceptPutAck, Frame, Encode, Acked, FindBlock, SendsList, CanAcceptPutAck, ValidSummaries,
           Output.Valid;
      ghost var c := State();
      AckResult(p, c, f, b, a, listPayload);
      var wt := work[f];
      var k := wt.FindById(b);
      if k >= 0 {
        var last := wt.Acknowledge(k, a);
        if last {
          out.Send(PutBlock(f, 0, listPayload));
          wt.status := AwaitingBlockListConfirm;
        }
        OneTicket(c, f);
      }
    }

    /** All is what it was but one ticket. */
    lemma OneTicket(was: Client, f: U32)
      requires f in work && work.Keys == was.tickets.Keys + {f}
      requires forall g :: g in work && g != f ==> work[g].State() == was.tickets[g]
      requires was == Client(mode, was.tickets, walking, byes, ids.Last(), saved, fp.content, opener, log)
      ensures State() == was.(tickets := was.tickets[f := work[f].State()])
    {
      assert Tickets() == was.tickets[f := work[f].State()];
    }

    /** `accept_put_ack` for a block list, and `wt_finish`. */
    method AcceptListAck(f: U32, a: U32)
      requires Valid() && f in work
      modifies this, out
      ensures Valid()
      ensures State() == Protocol.AcceptPutAck(old(State()), f, 0, a, []).0
      ensures out.sent == old(out.sent) + Protocol.AcceptPutAck(old(State()), f, 0, a, []).1
    {
      assert f in work;
      hide Protocol.AcceptPutAck, Farewell, ValidSummaries, Output.Valid;
      Summarised(summaries, saved, f, Saved(a, work[f].file, work[f].blocks, work[f].sorted));
      ghost var c := State();
      ListAckResult(c, f, a);
      var wt := work[f];
      summaries := summaries[f := a];
      saved := saved[f := Saved(a, wt.file, wt.blocks, wt.sorted)];
      assert Tickets() == c.tickets;
      Remove(f);
      assert State() == c.(saved := saved, tickets := c.tickets - {f});
      SayGoodbye();
    }

    /** The k-th block of a ticket goes to the recovered file. */
    method PlaceBlock(p: Params, f: U32, k: nat, data: seq<Byte>) returns (last: bool)
      requires Valid() && f in work && k < |work[f].blocks|
      modifies `log, work[f], fp
      ensures Valid()
      ensures
        var c, t := old(State()), old(work[f].State());
        var t' := Received(t, k, data);
        && State() == Place(c.(tickets := c.tickets[f := t']), f, k, Install(p, t.blocks[k], data))
        && last == (p.sha(data[..Low16(|data|)]) == t.blocks[k].strong && SendsList(t'))
    {
      hide SendsList, ValidSummaries, Output.Valid, Received, Install, WriteAt;
      ghost var c := State();
      var wt := work[f];
      ghost var w := Install(p, wt.blocks[k], data);
      last := wt.InstallBlock(p, k, data, fp);
      log := log + [Placed(f, k, w)];
      OneTicket(Place(c, f, k, w), f);
    }

    /** `accept_get_ack` for a block.  Data that does not decompress ends the client. */
    method AcceptGetAckBlock(p: Params, f: U32, b: U32, payload: seq<Byte>) returns (exits: bool)
      requires Valid() && f in work
      modifies `work, `log, work[f], fp
      ensures exits <==> !CanAcceptBlock(p, old(State()), f, b, payload)
      ensures !exits ==> Valid() && State() == Protocol.AcceptGetAckBlock(p, old(State()), f, b, payload)
    {
      hide Protocol.AcceptGetAckBlock, FindBlock, SendsList, ValidSummaries, Output.Valid, Received, Place, Install,
           Opens, Plain;
      ghost var c := State();
      BlockResult(p, c, f, b, payload);
      exits := false;
      if payload == [] {
        return;
      }
      var k := work[f].FindById(b);
      if k < 0 {
        return;
      }
      if !Opens(p, payload) {
        return true;
      }
      var last := PlaceBlock(p, f, k, Plain(p, payload));
      if last {
        Remove(f);
      }
    }

    /** `accept_get_ack` for a block list; what is left to `start_archive` or `start_extract`.
        Data that does not decompress ends the client.  The list that was asked for has to fit,
        as `CanAcceptList` says, however sorting may order blocks at the same offset. */
    method AcceptGetAckBlockList(p: Params, f: U32, payload: seq<Byte>, table: HashTable)
      returns (exits: bool, ghost sorted: seq<Block>)
      requires Valid() && f in work && table.Valid() && table.buckets == null
      requires Opens(p, payload) ==> FitsHowever(p, State(), f, payload)
      modifies work[f], ids, table
      ensures Valid() && table.Valid() && table.buckets == null
      ensures exits <==> payload != [] && !Opens(p, payload)
      ensures !exits ==> CanAcceptList(p, old(State()), f, payload, sorted)
      ensures !exits ==> State() == AcceptList(p, old(State()), f, payload, sorted)
    {
      hide HashTable.Valid, ValidSummaries, Output.Valid, DecodeList, ListFits, CanAcceptList, AcceptList, CanStart,
           Started, Completed, Unsaved, InRange, FitsHowever, Opens, Plain;
      ghost var c := State();
      exits, sorted := false, [];
      if payload == [] {
        NoList(p, c, f);
        return;
      }
      if !Opens(p, payload) {
        return true, [];
      }
      ListResult(p, c, f, payload, sorted);
      var list := ReadList(Plain(p, payload));
      if mode == Archive {
        NotInCover(Plain(p, payload));
        sorted := StartArchive(p, f, list, table);
        ListResult(p, c, f, payload, sorted);
      } else {
        StartExtract(f, list);
      }
    }

    method StartExtract(f: U32, list: seq<Block>)
      requires Valid() && f in work
      modifies work[f]
      ensures Valid()
      ensures
        var c, t := old(State()), old(work[f].State());
        State() == c.(tickets := c.tickets[f := t.(blocks := list, status := SendingBlockRequests)])
    {
      hide ValidSummaries, Output.Valid;
      ghost var c := State();
      work[f].StartExtract(list);
      OneTicket(c, f);
    }

    /** A ticket is made ready to send. */
    method StartArchive(p: Params, f: U32, list: seq<Block>, table: HashTable) returns (ghost sorted: seq<Block>)
      requires Valid() && f in work && table.Valid() && table.buckets == null
      requires ListFits(p, work[f].file, list, ids.Last()) && forall b :: b in list ==> !b.inCover
      modifies work[f], ids, table
      ensures Valid() && table.Valid() && table.buckets == null
      ensures CanStart(p, old(work[f].file), list, old(ids.Last()), sorted)
      ensures
        var c, t := old(State()), old(work[f].State());
        State() == c.(tickets := c.tickets[f := Started(p, t, c.lastLocal, sorted)],
                      lastLocal := c.lastLocal + Unsaved(Completed(sorted, |t.file|, p.blockLength)))
    {
      hide HashTable.Valid, ValidSummaries, Output.Valid, ListFits, CanStart, Started, Completed, Unsaved, InRange;
      ghost var c := State();
      sorted := work[f].StartArchive(p, list, ids, table);
      OneTicket(c.(lastLocal := ids.Last()), f);
    }

    /** `wt_do_work` for one ticket: nothing when the queue is long or the ticket waits. */
    method DoWork(p: Params, f: U32, fills: seq<Fill>) returns (ghost turns: nat)
      requires Valid() && f in work
      requires work[f].status == SendingBlocks ==> FillsOk(p, work[f].State(), fills)
      modifies work[f], out
      ensures Valid()
      ensures
        var c, t := old(State()), old(work[f].State());
        if t.status == SendingBlocks then
          var r := SendTurns(p, f, t, fills, turns);
          && State() == c.(tickets := c.tickets[f := r.0]) && out.sent == old(out.sent) + r.1
          && forall n | 0 <= n < turns :: CanTurn(p, f, t, fills, n)
        else if t.status == SendingBlockRequests then
          var r := RequestTurns(f, t, turns);
          && State() == c.(tickets := c.tickets[f := r.0]) && out.sent == old(out.sent) + r.1
          && forall n | 0 <= n < turns :: RequestTurns(f, t, n).0.status == SendingBlockRequests
        else State() == c && out.sent == old(out.sent)
      ensures |old(out.queued)| > 8192 ==> State() == old(State()) && out.sent == old(out.sent)
      ensures
        var sends := old(work[f].status) in {SendingBlocks, SendingBlockRequests};
        var through := old(work[f].next) >= |old(work[f].blocks)|;
        sends && (|old(out.queued)| < 8192 || (|old(out.queued)| == 8192 && through)) ==> turns > 0
      ensures StopsInTime(out, |old(out.sent)|, |old(out.queued)|)
    {
      hide FillsOk, SendTurns, RequestTurns, CanTurn, ValidSummaries, Output.Valid;
      NoTurns(p, f, work[f].State(), fills);
      ghost var c := State();
      turns := 0;
      if |out.queued| <= DESIRED_QUEUE_SIZE {
        var wt := work[f];
        match wt.status {
          case SendingBlocks => turns := wt.SendBlocks(p, fills, out);
          case SendingBlockRequests => turns := wt.SendBlockRequests(out);
          case _ =>
        }
      }
      OneTicket(c, f);
    }

    /** `archive_file` of a file without a summary. */
    method ArchiveNewFile(p: Params, f: U32, file: seq<Byte>, table: HashTable)
      requires Valid() && table.Valid() && table.buckets == null && CanArchiveNew(p, State(), f, file)
      modifies `work, ids, table
      ensures Valid() && table.Valid() && table.buckets == null && f in work && fresh(work[f])
      ensures State() == ArchiveNew(p, old(State()), f, file)
    {
      hide HashTable.Valid, ValidSummaries, Output.Valid, Completed, WithIds, Unsaved, Started, ListFits, CanStart,
           ArchiveNew, CanArchiveNew, InRange, WorkTicket.State;
      ghost var c := State();
      NewFits(p, c, f, file);
      var wt := new WorkTicket(f, Archive, file, [], SendingBlocks, []);
      wt.StateIs();
      ghost var sorted := wt.StartArchive(p, [], ids, table);
      NewResult(p, c, f, file, sorted);
      assert Tickets() == c.tickets;
      Insert(wt);
    }

    /** Each extraction opens, and so empties, the same file. */
    method OpenRecovered(f: U32)
      requires Valid()
      modifies `opener, `log, fp
      ensures Valid() && State() == Opening(old(State()), f)
    {
      hide ValidSummaries, Output.Valid;
      ghost var c := State();
      if mode == Extract {
        fp.Open();
        opener, log := f, [];
      }
      assert Tickets() == c.tickets;
    }

    /** `archive_file` of a file with a summary, or `extract_file`: asks for the block list. */
    method AskFor(f: U32, file: seq<Byte>)
      requires Valid() && CanAskForList(State(), f, file)
      modifies `work, `opener, `log, out, fp
      ensures Valid() && f in work && fresh(work[f])
      ensures State() == AskForList(old(State()), f, file).0
      ensures out.sent == old(out.sent) + AskForList(old(State()), f, file).1
    {
      hide Frame, Encode, ValidSummaries, Output.Valid, Opening, AskForList, CanAskForList, WorkTicket.State;
      ghost var c := State();
      AskResult(c, f, file);
      var remoteId := Summary(f);
      out.Send(GetBlock(f, 0, remoteId));
      var wt := new WorkTicket(f, mode, file, [], AwaitingBlockList, []);
      assert Tickets() == c.tickets;
      assert State() == c;
      OpenRecovered(f);
      Insert(wt);
    }

    method Summary(f: U32) returns (remoteId: U32)
      requires Valid() && f in saved
      ensures remoteId == saved[f].listRemoteId
    {
      remoteId := summaries[f];
    }

    /** The end of `do_archive` and `do_extract`. */
    method EndOfWalk()
      requires Valid() && walking
      modifies `walking, `byes, out
      ensures Valid() && !walking
      ensures
        var r := Farewell(old(State()).(walking := false));
        State() == r.0 && out.sent == old(out.sent) + r.1
    {
      hide Farewell, ValidSummaries, Output.Valid;
      ghost var c := State();
      walking := false;
      assert State() == c.(walking := false);
      SayGoodbye();
    }
  }

  lemma NoTurns(p: Params, f: U32, t: Ticket, fills: seq<Fill>)
    ensures SendTurns(p, f, t, fills, 0) == (t, []) && RequestTurns(f, t, 0) == (t, [])
  {
  }

  lemma AskResult(c: Client, f: U32, file: seq<Byte>)
    requires CanAskForList(c, f, file)
    ensures Opening(c, f).tickets == c.tickets && Opening(c, f).mode == c.mode && f in c.saved && f !in c.tickets
    ensures
      var d := Opening(c, f);
      AskForList(c, f, file) ==
        (d.(tickets := d.tickets[f := Ticket(c.mode, file, [], AwaitingBlockList, 0, 0, [])]),
         [GetBlock(f, 0, c.saved[f].listRemoteId)])
  {
  }

  lemma NewFits(p: Params, c: Client, f: U32, file: seq<Byte>)
    requires CanArchiveNew(p, c, f, file)
    ensures ListFits(p, file, [], c.lastLocal) && f !in c.tickets
  {
    hide Completed, Unsaved;
    forall sorted | IsSorting([], sorted) ensures sorted == [] {
      SortingSameBlocks([], sorted);
    }
  }

  lemma NewResult(p: Params, c: Client, f: U32, file: seq<Byte>, sorted: seq<Block>)
    requires CanArchiveNew(p, c, f, file) && CanStart(p, file, [], c.lastLocal, sorted)
    ensures
      ArchiveNew(p, c, f, file) ==
        c.(tickets := c.tickets[f := Started(p, Ticket(Archive, file, [], SendingBlocks, 0, 0, []), c.lastLocal,
                                             sorted)],
           lastLocal := c.lastLocal + Unsaved(Completed(sorted, |file|, p.blockLength)))
  {
    hide Completed, Unsaved, WithIds;
    SortingSameBlocks([], sorted);
  }

  /** The received list can be worked on, whichever order sorting leaves. */
  ghost predicate FitsHowever(p: Params, c: Client, f: U32, payload: seq<Byte>) {
    && f in c.tickets
    && (payload != [] ==>
          && DecodeList(Plain(p, payload)).Some?
          && DecodeList(Plain(p, payload)).value != []
          && (c.mode == Archive ==>
                ListFits(p, c.tickets[f].file, DecodeList(Plain(p, payload)).value, c.lastLocal)))
  }

  lemma NoList(p: Params, c: Client, f: U32)
    requires f in c.tickets
    ensures CanAcceptList(p, c, f, [], []) && AcceptList(p, c, f, [], []) == c
  {
  }

  lemma ListResult(p: Params, c: Client, f: U32, payload: seq<Byte>, sorted: seq<Block>)
    requires FitsHowever(p, c, f, payload)
    ensures f in c.tickets
    ensures payload != [] ==> DecodeList(Plain(p, payload)).Some?
    ensures payload != [] && c.mode == Archive ==>
      ListFits(p, c.tickets[f].file, DecodeList(Plain(p, payload)).value, c.lastLocal)
    ensures payload != [] && c.mode == Extract ==>
      && CanAcceptList(p, c, f, payload, sorted)
      && AcceptList(p, c, f, payload, sorted) ==
           c.(tickets := c.tickets[f := c.tickets[f].(blocks := DecodeList(Plain(p, payload)).value,
                                                      status := SendingBlockRequests)])
    ensures
      payload != [] && c.mode == Archive
      && CanStart(p, c.tickets[f].file, DecodeList(Plain(p, payload)).value, c.lastLocal, sorted) ==>
        && CanAcceptList(p, c, f, payload, sorted)
        && AcceptList(p, c, f, payload, sorted) ==
             c.(tickets := c.tickets[f := Started(p, c.tickets[f], c.lastLocal, sorted)],
                lastLocal := c.lastLocal + Unsaved(Completed(sorted, |c.tickets[f].file|, p.blockLength)))
  {
  }

  lemma NotInCover(s: seq<Byte>)
    requires DecodeList(s).Some?
    ensures forall b :: b in DecodeList(s).value ==> !b.inCover
  {
    NoneInCover(Value32(s[..4]), s[4..]);
  }

  lemma {:induction false} NoneInCover(n: nat, s: seq<Byte>)
    requires |s| >= BLOCK_SIZE * n
    ensures forall b :: b in DecodeBlocks(n, s) ==> !b.inCover
  {
    if n > 0 {
      NoneInCover(n - 1, s[BLOCK_SIZE..]);
    }
  }

  lemma PlaceCommutes(c: Client, f: U32, t: Ticket, k: nat, w: Write)
    ensures
      var d := Place(c.(tickets := c.tickets[f := t]), f, k, w);
      && d.(tickets := d.tickets - {f}) == Place(c.(tickets := c.tickets - {f}), f, k, w)
  {
    assert c.tickets[f := t] - {f} == c.tickets - {f};
  }

  lemma BlockResult(p: Params, c: Client, f: U32, b: U32, payload: seq<Byte>)
    requires f in c.tickets
    ensures
      var t := c.tickets[f];
      var k := FindBlock(t.blocks, b);
      Protocol.AcceptGetAckBlock(p, c, f, b, payload) ==
        if payload == [] || k < 0 then c
        else
          var data := Plain(p, payload);
          var t' := Received(t, k, data);
          var done := p.sha(data[..Low16(|data|)]) == t.blocks[k].strong && SendsList(t');
          var d := Place(c.(tickets := c.tickets[f := t']), f, k, Install(p, t.blocks[k], data));
          if done then d.(tickets := d.tickets - {f}) else d
  {
    hide FindBlock, SendsList, Install, WriteAt, Plain, Opens;
    var t := c.tickets[f];
    var k := FindBlock(t.blocks, b);
    if payload != [] && k >= 0 {
      var data := Plain(p, payload);
      PlaceCommutes(c, f, Received(t, k, data), k, Install(p, t.blocks[k], data));
    }
  }

  lemma AckResult(p: Params, c: Client, f: U32, b: U32, a: U32, listPayload: seq<Byte>)
    requires CanAcceptPutAck(p, c, f, b, a, listPayload) && b != 0
    ensures f in c.tickets
    ensures
      var t := c.tickets[f];
      var k := FindBlock(t.blocks, b);
      Protocol.AcceptPutAck(c, f, b, a, listPayload) ==
        if k < 0 then (c, [])
        else if SendsList(Acked(t, k, a)) then
          (c.(tickets := c.tickets[f := Acked(t, k, a).(status := AwaitingBlockListConfirm)]),
           [PutBlock(f, 0, listPayload)])
        else (c.(tickets := c.tickets[f := Acked(t, k, a)]), [])
    ensures
      var t := c.tickets[f];
      var k := FindBlock(t.blocks, b);
      k >= 0 && SendsList(Acked(t, k, a)) ==> Sendable(PutBlock(f, 0, listPayload))
  {
    hide AllStorable, EncodeList;
  }

  lemma ListAckResult(c: Client, f: U32, a: U32)
    requires f in c.tickets
    ensures
      var t := c.tickets[f];
      Protocol.AcceptPutAck(c, f, 0, a, []) ==
        Farewell(c.(saved := c.saved[f := Saved(a, t.file, t.blocks, t.sorted)], tickets := c.tickets - {f}))
  {
  }
}
