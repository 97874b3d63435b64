/** Work tickets as version-1/workticket.c keeps them, updated in place, and the loops that
    fill the output queue.  Each loop takes so many turns of the step relation of `Protocol`. */
module WorkTickets {
  import opened Bytes
  import opened Blocks
  import opened Channels
  import opened CoverLaws
  import opened Covering
  import opened Framing
  import opened HashTables
  import opened Ids
  import opened Messages
  import opened Protocol
  import opened Restore
  import opened Signatures

  const DESIRED_QUEUE_SIZE: nat := 8192

  /** The bytes waiting to be written.  As history, the messages sent and the bytes written:
      these and those waiting are the packets of the messages. */
  class Output {
    var queued: seq<Byte>
    ghost var sent: seq<Message>
    ghost var written: seq<Byte>

    ghost predicate Valid()
      reads this
    {
      AllSendable(sent) && written + queued == Wire(sent)
    }

    constructor ()
      ensures Valid() && queued == [] && sent == []
    {
      queued, sent, written := [], [], [];
    }

    /** `io_send_ios`. */
    method Send(m: Message)
      requires Valid() && Sendable(m)
      modifies this
      ensures Valid() && written == old(written)
      ensures queued == old(queued) + Frame(Encode(m)) && sent == old(sent) + [m]
    {
      hide Frame, Encode, Wire, Sendable;
      WireNext(sent, m);
      ghost var was := written + queued;
      assert was + Frame(Encode(m)) == written + (queued + Frame(Encode(m)));
      queued, sent := queued + Frame(Encode(m)), sent + [m];
    }

    /** `io_output_handler`: so many bytes are written. */
    method Drain(count: nat)
      requires Valid() && count <= |queued|
      modifies this
      ensures Valid() && sent == old(sent)
      ensures queued == old(queued)[count..] && written == old(written) + old(queued)[..count]
    {
      hide Wire;
      assert written + queued == written + queued[..count] + queued[count..];
      queued, written := queued[count..], written + queued[..count];
    }
  }

  /** Since the queue had `queued` bytes and `sent` messages had been sent, each message was sent
      while fewer than 8192 bytes waited. */
  ghost predicate StopsInTime(out: Output, sent: nat, queued: nat)
    reads out
  {
    && |out.sent| >= sent && (queued >= 8192 ==> |out.sent| == sent && |out.queued| == queued)
    && (|out.sent| > sent ==>
          var m := out.sent[|out.sent| - 1];
          Sendable(m) && |out.queued| < 8192 + |Frame(Encode(m))|)
  }

  // ---- several turns ----

  function FillFor(fills: seq<Fill>, n: nat): Fill {
    if n < |fills| then fills[n] else Fill([], [], 0)
  }

  /** The body of the loop of `wt_send_blocks`. */
  function Turned(p: Params, fid: U32, t: Ticket, fill: Fill): (Ticket, seq<Message>)
    requires t.next < |t.blocks|
  {
    var b := t.blocks[t.next];
    if NeedsSending(b) then
      (t.(blocks := t.blocks[t.next := Filled(p, t.file, b, fill)], next := t.next + 1, moved := Low32(t.moved + 1)),
       [PutBlock(fid, b.localId, fill.payload)])
    else (t.(next := t.next + 1), [])
  }

  /** So many turns of the protocol's steps. */
  function SendTurns(p: Params, fid: U32, t: Ticket, fills: seq<Fill>, turns: nat): (Ticket, seq<Message>) {
    if turns == 0 then (t, [])
    else
      var r := SendTurns(p, fid, t, fills, turns - 1);
      var q := SendOne(p, fid, r.0, FillFor(fills, r.0.next));
      (q.0, r.1 + q.1)
  }

  function RequestTurns(fid: U32, t: Ticket, turns: nat): (Ticket, seq<Message>) {
    if turns == 0 then (t, [])
    else
      var r := RequestTurns(fid, t, turns - 1);
      var q := RequestOne(fid, r.0);
      (q.0, r.1 + q.1)
  }

  /** Turn `n` is one that the protocol allows. */
  ghost predicate CanTurn(p: Params, fid: U32, t: Ticket, fills: seq<Fill>, n: nat) {
    var r := SendTurns(p, fid, t, fills, n).0;
    CanSendOne(p, r, FillFor(fills, r.next))
  }

  /** The loop has taken so many turns since ticket `t`. */
  ghost predicate InLoop(p: Params, fid: U32, t: Ticket, fills: seq<Fill>, turns: nat, now: Ticket,
                         sent: seq<Message>)
  {
    && now.status == SendingBlocks
    && |fills| == |now.blocks|
    && (forall i | now.next <= i < |fills| && NeedsSending(now.blocks[i]) ::
          FillOk(p, now.file, now.blocks[i], fills[i]))
    && SendTurns(p, fid, t, fills, turns) == (if turns == 0 then now else Confirming(now), sent)
    && forall n | 0 <= n < turns :: CanTurn(p, fid, t, fills, n)
  }

  lemma TurnTaken(p: Params, fid: U32, t: Ticket, fills: seq<Fill>, turns: nat, now: Ticket, sent: seq<Message>)
    requires InLoop(p, fid, t, fills, turns, now, sent) && now.next < |now.blocks|
    ensures NeedsSending(now.blocks[now.next]) ==> FillOk(p, now.file, now.blocks[now.next], fills[now.next])
    ensures
      var q := Turned(p, fid, now, fills[now.next]);
      InLoop(p, fid, t, fills, turns + 1, q.0, sent + q.1)
  {
    hide FillOk, Filled;
    assert SendTurns(p, fid, t, fills, turns).0 == now;
    assert CanTurn(p, fid, t, fills, turns);
  }

  /** Behind the loop: without a turn the test alone is one. */
  lemma LoopLeft(p: Params, fid: U32, t: Ticket, fills: seq<Fill>, turns: nat, now: Ticket, sent: seq<Message>)
    returns (n: nat)
    requires InLoop(p, fid, t, fills, turns, now, sent)
    ensures SendTurns(p, fid, t, fills, n) == (Confirming(now), sent)
    ensures n >= turns && (now.next >= |now.blocks| ==> n > 0)
    ensures forall k | 0 <= k < n :: CanTurn(p, fid, t, fills, k)
  {
    hide FillOk;
    n := turns;
    if turns == 0 && now.next >= |now.blocks| {
      assert CanTurn(p, fid, t, fills, 0);
      n := 1;
      assert sent + [] == sent;
    }
  }

  ghost predicate InRequestLoop(fid: U32, t: Ticket, turns: nat, now: Ticket, sent: seq<Message>) {
    && now.status == SendingBlockRequests
    && RequestTurns(fid, t, turns) == (if turns == 0 then now else Confirming(now), sent)
    && forall n | 0 <= n < turns :: RequestTurns(fid, t, n).0.status == SendingBlockRequests
  }

  lemma RequestTaken(fid: U32, t: Ticket, turns: nat, now: Ticket, sent: seq<Message>)
    requires InRequestLoop(fid, t, turns, now, sent) && now.next < |now.blocks|
    ensures
      var b := now.blocks[now.next];
      InRequestLoop(fid, t, turns + 1, now.(next := now.next + 1), sent + [GetBlock(fid, b.localId, b.remoteId)])
  {
  }

  lemma RequestsLeft(fid: U32, t: Ticket, turns: nat, now: Ticket, sent: seq<Message>) returns (n: nat)
    requires InRequestLoop(fid, t, turns, now, sent)
    ensures RequestTurns(fid, t, n) == (Confirming(now), sent)
    ensures n >= turns && (now.next >= |now.blocks| ==> n > 0)
    ensures forall k | 0 <= k < n :: RequestTurns(fid, t, k).0.status == SendingBlockRequests
  {
    n := turns;
    if turns == 0 && now.next >= |now.blocks| {
      n := 1;
      assert sent + [] == sent;
    }
  }

  /** Each block that has to be sent has been filled and sealed. */
  ghost predicate FillsOk(p: Params, t: Ticket, fills: seq<Fill>) {
    |fills| == |t.blocks| &&
    forall i | 0 <= i < |fills| && NeedsSending(t.blocks[i]) :: FillOk(p, t.file, t.blocks[i], fills[i])
  }

  /** The ticket after a block was received. */
  function Received(t: Ticket, k: nat, data: seq<Byte>): Ticket
    requires k < |t.blocks|
  {
    t.(blocks := t.blocks[k := t.blocks[k].(length := Low16(|data|))], moved := Low32(t.moved - 1))
  }

  /** The one file that all tickets of an extraction open and write to. */
  class RecoveredFile {
    var content: seq<Byte>

    constructor ()
      ensures content == []
    {
      content := [];
    }

    /** `fopen` for writing. */
    method Open()
      modifies this
      ensures content == []
    {
      content := [];
    }

    /** `fseek` and `fwrite`. */
    method WriteBlock(offset: nat, data: seq<Byte>)
      modifies this
      ensures content == WriteAt(old(content), Write(offset, data))
    {
      content := WriteAt(content, Write(offset, data));
    }
  }

  /** The completed list stays within the numbers of blocks and ids. */
  ghost predicate CanStart(p: Params, file: seq<Byte>, list: seq<Block>, lastLocal: nat, sorted: seq<Block>) {
    && |file| < TWO32 && (list != [] ==> CanIndex(p.blockLength))
    && IsSorting(Reused(file, p.sha, list, p.blockLength), sorted)
    && InRange(sorted, |file|, p.blockLength)
    && var updated := Completed(sorted, |file|, p.blockLength);
       |updated| < TWO32 && lastLocal + Unsaved(updated) < TWO32
  }

  /** The list fits, whichever order sorting leaves. */
  ghost predicate ListFits(p: Params, file: seq<Byte>, list: seq<Block>, lastLocal: nat) {
    && |file| < TWO32 && (list != [] ==> CanIndex(p.blockLength)) && InRange(list, |file|, p.blockLength)
    && forall sorted |
         IsSorting(Reused(file, p.sha, list, p.blockLength), sorted) && InRange(sorted, |file|, p.blockLength) ::
         CanStart(p, file, list, lastLocal, sorted)
  }

  ghost function Started(p: Params, t: Ticket, lastLocal: nat, sorted: seq<Block>): Ticket
    requires |t.file| < TWO32 && InRange(sorted, |t.file|, p.blockLength)
    requires lastLocal + Unsaved(Completed(sorted, |t.file|, p.blockLength)) < TWO32
  {
    t.(blocks := WithIds(Completed(sorted, |t.file|, p.blockLength), lastLocal), status := SendingBlocks,
       next := 0, sorted := sorted)
  }

  class WorkTicket {
    const fileId: U32
    const action: Action
    var file: seq<Byte>
    var blocks: seq<Block>
    var status: Status
    var moved: U32
    var next: nat
    ghost var sorted: seq<Block>

    constructor (fileId: U32, action: Action, file: seq<Byte>, blocks: seq<Block>, status: Status,
                 ghost sorted: seq<Block>)
      ensures this.fileId == fileId && State() == Ticket(action, file, blocks, status, 0, 0, sorted)
    {
      this.fileId, this.action, this.file, this.blocks, this.status := fileId, action, file, blocks, status;
      moved, next := 0, 0;
      this.sorted := sorted;
    }

    ghost function State(): Ticket
      reads this
    {
      Ticket(action, file, blocks, status, moved, next, sorted)
    }

    lemma StateIs()
      ensures State() == Ticket(action, file, blocks, status, moved, next, sorted)
    {
    }

    /** `wt_find_block`. */
    method FindById(id: U32) returns (k: int)
      ensures k == FindBlock(blocks, id)
    {
      k := 0;
      assert blocks[0..] == blocks;
      while k < |blocks|
        invariant 0 <= k <= |blocks|
        invariant FindBlock(blocks, id) == var r := FindBlock(blocks[k..], id); if r < 0 then -1 else r + k
      {
        assert blocks[k..][0] == blocks[k] && blocks[k..][1..] == blocks[k + 1..];
        if blocks[k].localId == id {
          return;
        }
        k := k + 1;
      }
      k := -1;
    }

    /** A block was stored: its id is entered and the block no longer counted.  Tells whether
        it was the last one. */
    method Acknowledge(k: nat, archiveId: U32) returns (last: bool)
      requires k < |blocks|
      modifies `blocks, `moved
      ensures State() == Acked(old(State()), k, archiveId) && last == SendsList(State())
    {
      blocks := blocks[k := blocks[k].(remoteId := archiveId)];
      moved := Low32(moved - 1);
      last := moved == 0 && status == AwaitingBlockConfirms;
    }

    /** A block has come, as `accept_get_ack_block` and `install_block` take it: unless its
        digest shows an imposter it is written at its place.  Tells whether it was the last. */
    method InstallBlock(p: Params, k: nat, data: seq<Byte>, fp: RecoveredFile) returns (last: bool)
      requires k < |blocks|
      modifies `blocks, `moved, fp
      ensures State() == Received(old(State()), k, data)
      ensures fp.content == WriteAt(old(fp.content), Install(p, old(blocks[k]), data))
      ensures last == (p.sha(data[..Low16(|data|)]) == old(blocks[k].strong) && SendsList(State()))
    {
      moved := Low32(moved - 1);
      var b := blocks[k].(length := Low16(|data|));
      blocks := blocks[k := b];
      var kept := data[..b.length];
      if p.sha(kept) != b.strong {
        return false;
      }
      fp.WriteBlock(b.offset, kept);
      last := moved == 0 && status == AwaitingBlockConfirms;
    }

    /** `start_archive`: the new cover is computed and its blocks get their ids. */
    method StartArchive(p: Params, list: seq<Block>, ids: IdCounter, table: HashTable) returns (ghost order: seq<Block>)
      requires table.Valid() && table.buckets == null && (ids.found ==> ids.index != 0)
      requires ListFits(p, file, list, ids.Last()) && forall b :: b in list ==> !b.inCover
      modifies `blocks, `status, `next, `sorted, ids, table
      ensures table.Valid() && table.buckets == null && (ids.found ==> ids.index != 0)
      ensures CanStart(p, file, list, old(ids.Last()), order)
      ensures ids.Last() == old(ids.Last()) + Unsaved(Completed(order, |file|, p.blockLength))
      ensures State() == Started(p, old(State()), old(ids.Last()), order)
    {
      hide HashTable.Valid, InRange, Reused, IsSorting, Completed, WithIds, Unsaved;
      var sig := new Signature(list, |file|);
      order := sig.UpdateRemote(file, p.sha, p.blockLength, table);
      var recorded := sig.SaveLocal(ids);
      blocks, status, next, sorted := sig.blockList, SendingBlocks, 0, order;
    }

    /** `start_extract`. */
    method StartExtract(list: seq<Block>)
      modifies `blocks, `status
      ensures State() == old(State()).(blocks := list, status := SendingBlockRequests)
    {
      blocks, status := list, SendingBlockRequests;
    }

    /** `wt_send_blocks`: sends until the queue is long enough or all blocks are through.
        `fills` are what reading, compressing and encrypting the blocks comes to. */
    method SendBlocks(p: Params, fills: seq<Fill>, out: Output) returns (ghost turns: nat)
      requires out.Valid() && status == SendingBlocks && FillsOk(p, State(), fills)
      modifies this, out
      ensures out.Valid()
      ensures SendTurns(p, fileId, old(State()), fills, turns).0 == State()
      ensures out.sent == old(out.sent) + SendTurns(p, fileId, old(State()), fills, turns).1
      ensures forall n | 0 <= n < turns :: CanTurn(p, fileId, old(State()), fills, n)
      ensures next >= |blocks| || |out.queued| >= DESIRED_QUEUE_SIZE
      ensures |old(out.queued)| < 8192 || old(next) >= |old(blocks)| ==> turns > 0
      ensures StopsInTime(out, |old(out.sent)|, |old(out.queued)|)
    {
      hide InLoop, SendTurns, CanTurn, FillOk, Frame, Encode, Output.Valid;
      ghost var t, n, sent: seq<Message> := State(), 0, [];
      LoopEntered(p, fileId, t, fills);
      while |out.queued| < DESIRED_QUEUE_SIZE && next < |blocks|
        invariant status == SendingBlocks && |fills| == |blocks| == |t.blocks|
        invariant InLoop(p, fileId, t, fills, n, State(), sent)
        invariant out.Valid() && out.sent == old(out.sent) + sent
        invariant StopsInTime(out, |old(out.sent)|, |old(out.queued)|)
        invariant n == 0 ==> out.queued == old(out.queued) && next == old(next)
        decreases |blocks| - next
      {
        TurnTaken(p, fileId, t, fills, n, State(), sent);
        ghost var q := Turned(p, fileId, State(), fills[next]);
        var i := next;
        next := next + 1;
        if blocks[i].inCover && blocks[i].remoteId == 0 {
          FillFits(p, file, blocks[i], fills[i]);
          blocks := blocks[i := Filled(p, file, blocks[i], fills[i])];
          out.Send(PutBlock(fileId, blocks[i].localId, fills[i].payload));
          moved := Low32(moved + 1);
        }
        assert State() == q.0;
        n, sent := n + 1, sent + q.1;
      }
      turns := LoopLeft(p, fileId, t, fills, n, State(), sent);
      if next >= |blocks| {
        status := AwaitingBlockConfirms;
      }
    }

    /** `wt_send_block_requests`. */
    method SendBlockRequests(out: Output) returns (ghost turns: nat)
      requires out.Valid() && status == SendingBlockRequests
      modifies this, out
      ensures out.Valid()
      ensures RequestTurns(fileId, old(State()), turns).0 == State()
      ensures out.sent == old(out.sent) + RequestTurns(fileId, old(State()), turns).1
      ensures forall n | 0 <= n < turns :: RequestTurns(fileId, old(State()), n).0.status == SendingBlockRequests
      ensures next >= |blocks| || |out.queued| >= DESIRED_QUEUE_SIZE
      ensures |old(out.queued)| < 8192 || old(next) >= |old(blocks)| ==> turns > 0
      ensures StopsInTime(out, |old(out.sent)|, |old(out.queued)|)
    {
      hide RequestTurns, Frame, Encode, Output.Valid;
      ghost var t, n, sent: seq<Message> := State(), 0, [];
      RequestsEntered(fileId, t);
      while |out.queued| < DESIRED_QUEUE_SIZE && next < |blocks|
        invariant status == SendingBlockRequests
        invariant InRequestLoop(fileId, t, n, State(), sent)
        invariant out.Valid() && out.sent == old(out.sent) + sent
        invariant StopsInTime(out, |old(out.sent)|, |old(out.queued)|)
        invariant n == 0 ==> out.queued == old(out.queued) && next == old(next)
        decreases |blocks| - next
      {
        RequestTaken(fileId, t, n, State(), sent);
        var b := blocks[next];
        next := next + 1;
        out.Send(GetBlock(fileId, b.localId, b.remoteId));
        n, sent := n + 1, sent + [GetBlock(fileId, b.localId, b.remoteId)];
      }
      turns := RequestsLeft(fileId, t, n, State(), sent);
      if next >= |blocks| {
        status := AwaitingBlockConfirms;
      }
    }
  }

  lemma LoopEntered(p: Params, fid: U32, t: Ticket, fills: seq<Fill>)
    requires t.status == SendingBlocks && FillsOk(p, t, fills)
    ensures InLoop(p, fid, t, fills, 0, t, [])
  {
  }

  lemma RequestsEntered(fid: U32, t: Ticket)
    requires t.status == SendingBlockRequests
    ensures InRequestLoop(fid, t, 0, t, [])
  {
  }

  lemma FillFits(p: Params, file: seq<Byte>, b: Block, fill: Fill)
    requires FillOk(p, file, b, fill)
    ensures |fill.payload| < TWO32 - 13
  {
  }
}
