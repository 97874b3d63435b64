/** The backup protocol as steps: work tickets of version-1/workticket.c, the client's and
    the server's handlers of version-1/protocol.c and version-1/remote.c, and how tickets
    enter in version-1/archive.c and version-1/extract.c.  Messages travel over two reliable
    first-in first-out channels, one each way. */
module Protocol {
  import opened Bytes
  import opened Blocks
  import opened CoverLaws
  import opened Covering
  import opened Ids
  import opened Matching
  import opened Messages
  import opened Options
  import opened Restore
  import opened Signatures
  import opened WeakChecksum

  /** `unseal` stands for decrypting, then decompressing, which ends the client when it fails;
      `sha` for SHA-1. */
  datatype Params = Params(unseal: seq<Byte> -> Option<seq<Byte>>, sha: Digest, blockLength: U16)

  predicate Opens(p: Params, payload: seq<Byte>) {
    p.unseal(payload).Some?
  }

  function Plain(p: Params, payload: seq<Byte>): seq<Byte> {
    if Opens(p, payload) then p.unseal(payload).value else []
  }

  /** The payload is one that compressing and encrypting `plain` may give (encryption is
      random), and short enough to be sent. */
  ghost predicate Seals(p: Params, payload: seq<Byte>, plain: seq<Byte>) {
    p.unseal(payload) == Some(plain) && 0 < |payload| < TWO32 - 13
  }

  datatype Action = Archive | Extract

  datatype Status =
    | AwaitingBlockList
    | SendingBlocks
    | SendingBlockRequests
    | AwaitingBlockConfirms
    | AwaitingBlockListConfirm

  /** A work ticket.  `file` is the file being archived, empty for an extraction.  `sorted` is
      history: the reused part of the list, before new blocks were appended. */
  datatype Ticket = Ticket(action: Action, file: seq<Byte>, blocks: seq<Block>, status: Status,
                           moved: U32, next: nat, sorted: seq<Block>)

  /** The summary of an archived file; all but the id of its block list is history. */
  datatype Saved = Saved(listRemoteId: U32, file: seq<Byte>, blocks: seq<Block>, sorted: seq<Block>)

  /** One block written while extracting: of which file, where in its list, and what. */
  datatype Placed = Placed(fileId: U32, index: nat, write: Write)

  /** All tickets that extract write to the one file `recovered`.  `opener`, the last of them
      to open it, and `log`, what has been written since then, are history. */
  datatype Client = Client(mode: Action, tickets: map<U32, Ticket>, walking: bool, byes: nat,
                           lastLocal: nat, saved: map<U32, Saved>,
                           recovered: seq<Byte>, opener: U32, log: seq<Placed>)

  datatype Server = Server(store: map<U32, seq<Byte>>, last: nat)

  datatype Sys = Sys(client: Client, server: Server, c2s: seq<Message>, s2c: seq<Message>)

  // ---- the client sends ----

  predicate NeedsSending(b: Block) {
    b.inCover && b.remoteId == 0
  }

  /** What filling and sealing a block came to: the sealed data, the bytes of the buffer
      behind a short read, and the weak checksum. */
  datatype Fill = Fill(payload: seq<Byte>, junk: seq<Byte>, weak: U32)

  ghost predicate FillOk(p: Params, file: seq<Byte>, b: Block, fill: Fill) {
    var read := Slice(file, b.offset, b.length);
    && b.length > 0 && b.localId != 0
    && |read| + |fill.junk| == b.length
    && Seals(p, fill.payload, read + fill.junk)
    && (ReadFor(|read|) <= b.length ==> fill.weak == WeakOf(read + fill.junk, |read|))
  }

  /** cover_fill_block: the checksums are those of the bytes read. */
  function Filled(p: Params, file: seq<Byte>, b: Block, fill: Fill): Block {
    b.(weak := fill.weak, strong := p.sha(Slice(file, b.offset, b.length)))
  }

  ghost predicate CanSendOne(p: Params, t: Ticket, fill: Fill) {
    t.status == SendingBlocks &&
    (t.next < |t.blocks| && NeedsSending(t.blocks[t.next]) ==> FillOk(p, t.file, t.blocks[t.next], fill))
  }

  function Confirming(t: Ticket): Ticket {
    if t.next >= |t.blocks| then t.(status := AwaitingBlockConfirms) else t
  }

  /** One turn of the loop of wt_send_blocks, and the test behind the loop. */
  function SendOne(p: Params, fid: U32, t: Ticket, fill: Fill): (Ticket, seq<Message>) {
    if t.next >= |t.blocks| then (Confirming(t), [])
    else
      var b := t.blocks[t.next];
      if !NeedsSending(b) then (Confirming(t.(next := t.next + 1)), [])
      else
        var blocks := t.blocks[t.next := Filled(p, t.file, b, fill)];
        (Confirming(t.(blocks := blocks, next := t.next + 1, moved := Low32(t.moved + 1))),
         [PutBlock(fid, b.localId, fill.payload)])
  }

  /** One turn of the loop of wt_send_block_requests: every listed block is asked for, and
      the requests are not counted. */
  function RequestOne(fid: U32, t: Ticket): (Ticket, seq<Message>) {
    if t.next >= |t.blocks| then (Confirming(t), [])
    else
      var b := t.blocks[t.next];
      (Confirming(t.(next := t.next + 1)), [GetBlock(fid, b.localId, b.remoteId)])
  }

  // ---- the server ----

  /** What the server answers a request with: nothing for an unknown id, and of a record as
      much as its 16-bit length tells. */
  function Answer(store: map<U32, seq<Byte>>, archiveId: U32): seq<Byte> {
    if archiveId == 0 || archiveId !in store then []
    else store[archiveId][..Low16(|store[archiveId]|)]
  }

  ghost predicate CanServe(v: Server, m: Message) {
    m.PutBlock? ==> v.last + 1 < TWO32
  }

  function ServeOne(v: Server, m: Message): (Server, seq<Message>)
    requires CanServe(v, m)
  {
    match m
    case PutBlock(f, b, payload) =>
      (Server(v.store[v.last + 1 := payload], v.last + 1), [PutAck(f, b, v.last + 1)])
    case GetBlock(f, b, a) => (v, [GetAck(f, b, Answer(v.store, a))])
    case Bye(_, _) => (v, [Bye(0, 0)])
    case _ => (v, [])
  }

  // ---- the client receives ----

  ghost predicate ListPayloadOk(p: Params, blocks: seq<Block>, payload: seq<Byte>) {
    AllStorable(blocks) && |blocks| < TWO32 && Seals(p, payload, EncodeList(blocks))
  }

  /** The ticket after a block was acknowledged, before the test for the last one. */
  function Acked(t: Ticket, k: nat, archiveId: U32): Ticket
    requires k < |t.blocks|
  {
    t.(blocks := t.blocks[k := t.blocks[k].(remoteId := archiveId)], moved := Low32(t.moved - 1))
  }

  predicate SendsList(t: Ticket) {
    t.moved == 0 && t.status == AwaitingBlockConfirms
  }

  ghost predicate CanAcceptPutAck(p: Params, c: Client, f: U32, b: U32, a: U32, listPayload: seq<Byte>) {
    && f in c.tickets && c.tickets[f].action == Archive
    && var t := c.tickets[f];
       var k := FindBlock(t.blocks, b);
       (b != 0 && k >= 0 && SendsList(Acked(t, k, a)) ==> ListPayloadOk(p, Acked(t, k, a).blocks, listPayload))
  }

  /** The client says goodbye when no ticket is left and the walk over the files is over. */
  function Farewell(c: Client): (Client, seq<Message>) {
    if c.tickets == map[] && !c.walking then (c.(byes := c.byes + 1), [Bye(0, 0)]) else (c, [])
  }

  /** accept_put_ack; id zero stands for the block list. */
  function AcceptPutAck(c: Client, f: U32, b: U32, a: U32, listPayload: seq<Byte>): (Client, seq<Message>)
    requires f in c.tickets
  {
    var t := c.tickets[f];
    if b == 0 then
      Farewell(c.(saved := c.saved[f := Saved(a, t.file, t.blocks, t.sorted)], tickets := c.tickets - {f}))
    else
      var k := FindBlock(t.blocks, b);
      if k < 0 then (c, [])
      else
        var t' := Acked(t, k, a);
        if SendsList(t') then
          (c.(tickets := c.tickets[f := t'.(status := AwaitingBlockListConfirm)]), [PutBlock(f, 0, listPayload)])
        else (c.(tickets := c.tickets[f := t']), [])
  }

  /** What install_block writes: nothing when the digest shows an imposter. */
  function Install(p: Params, b: Block, plain: seq<Byte>): Write {
    var data := plain[..Low16(|plain|)];
    Write(b.offset, if p.sha(data) == b.strong then data else [])
  }

  /** Blocks of all files go to the same file. */
  function Place(c: Client, f: U32, k: nat, w: Write): Client {
    c.(recovered := WriteAt(c.recovered, w), log := c.log + [Placed(f, k, w)])
  }

  /** accept_get_ack_block and install_block.  An imposter is not followed by the test for
      the last block. */
  function AcceptGetAckBlock(p: Params, c: Client, f: U32, b: U32, payload: seq<Byte>): Client
    requires f in c.tickets
  {
    var t := c.tickets[f];
    var k := FindBlock(t.blocks, b);
    if payload == [] || k < 0 then c
    else
      var plain := Plain(p, payload);
      var w := Install(p, t.blocks[k], plain);
      var t' := t.(blocks := t.blocks[k := t.blocks[k].(length := Low16(|plain|))],
                   moved := Low32(t.moved - 1));
      var imposter := p.sha(plain[..Low16(|plain|)]) != t.blocks[k].strong;
      Place(c.(tickets := if !imposter && SendsList(t') then c.tickets - {f} else c.tickets[f := t']), f, k, w)
  }

  /** A received block can be opened; otherwise the client exits. */
  predicate CanAcceptBlock(p: Params, c: Client, f: U32, b: U32, payload: seq<Byte>) {
    f in c.tickets && (payload != [] && FindBlock(c.tickets[f].blocks, b) >= 0 ==> Opens(p, payload))
  }

  /** A received list can be worked on: it opens, decodes and, as asserted, is not empty; for a
      backup, `sorted` and new ids complete it. */
  ghost predicate CanAcceptList(p: Params, c: Client, f: U32, payload: seq<Byte>, sorted: seq<Block>) {
    && f in c.tickets
    && (payload != [] ==>
          && Opens(p, payload) && DecodeList(Plain(p, payload)).Some?
          && var list := DecodeList(Plain(p, payload)).value;
          && list != []
          && (c.mode == Archive ==>
                && |c.tickets[f].file| < TWO32 && CanIndex(p.blockLength)
                && IsSorting(Reused(c.tickets[f].file, p.sha, list, p.blockLength), sorted)
                && InRange(sorted, |c.tickets[f].file|, p.blockLength)
                && var updated := Completed(sorted, |c.tickets[f].file|, p.blockLength);
                   |updated| < TWO32 && c.lastLocal + Unsaved(updated) < TWO32))
  }

  /** accept_get_ack_block_list, with start_archive or start_extract. */
  ghost function AcceptList(p: Params, c: Client, f: U32, payload: seq<Byte>, sorted: seq<Block>): Client
    requires CanAcceptList(p, c, f, payload, sorted)
  {
    if payload == [] then c
    else
      var t := c.tickets[f];
      var list := DecodeList(Plain(p, payload)).value;
      if c.mode == Extract then
        c.(tickets := c.tickets[f := t.(blocks := list, status := SendingBlockRequests)])
      else
        var updated := Completed(sorted, |t.file|, p.blockLength);
        c.(tickets := c.tickets[f := t.(blocks := WithIds(updated, c.lastLocal), status := SendingBlocks,
                                        next := 0, sorted := sorted)],
           lastLocal := c.lastLocal + Unsaved(updated))
  }

  ghost predicate CanReceive(p: Params, c: Client, m: Message, sorted: seq<Block>, listPayload: seq<Byte>) {
    match m
    case PutAck(f, b, a) => CanAcceptPutAck(p, c, f, b, a, listPayload)
    case GetAck(f, b, payload) =>
      if b == 0 then CanAcceptList(p, c, f, payload, sorted) else CanAcceptBlock(p, c, f, b, payload)
    case _ => true
  }

  ghost function ReceiveOne(p: Params, c: Client, m: Message, sorted: seq<Block>, listPayload: seq<Byte>)
    : (Client, seq<Message>)
    requires CanReceive(p, c, m, sorted, listPayload)
  {
    match m
    case PutAck(f, b, a) => AcceptPutAck(c, f, b, a, listPayload)
    case GetAck(f, b, payload) =>
      (if b != 0 then AcceptGetAckBlock(p, c, f, b, payload) else AcceptList(p, c, f, payload, sorted), [])
    case _ => (c, [])
  }

  // ---- tickets enter ----

  const MAX_WORK_LIST: nat := 20

  /** archive_it waits while the work list is full; extract_it does not. */
  predicate WorkListFull(c: Client) {
    |c.tickets| > MAX_WORK_LIST
  }

  /** archive_file of a file not archived before: no block list has to be waited for. */
  ghost predicate CanArchiveNew(p: Params, c: Client, f: U32, file: seq<Byte>) {
    && c.mode == Archive && c.walking && !WorkListFull(c)
    && f != 0 && f !in c.tickets && f !in c.saved && |file| < TWO32 && p.blockLength > 0
    && |Completed([], |file|, p.blockLength)| < TWO32
    && c.lastLocal + Unsaved(Completed([], |file|, p.blockLength)) < TWO32
  }

  function ArchiveNew(p: Params, c: Client, f: U32, file: seq<Byte>): Client
    requires CanArchiveNew(p, c, f, file)
  {
    var list := Completed([], |file|, p.blockLength);
    c.(tickets := c.tickets[f := Ticket(Archive, file, WithIds(list, c.lastLocal), SendingBlocks, 0, 0, [])],
       lastLocal := c.lastLocal + Unsaved(list))
  }

  ghost predicate CanAskForList(c: Client, f: U32, file: seq<Byte>) {
    && c.walking && f != 0 && f !in c.tickets && f in c.saved && |file| < TWO32
    && (if c.mode == Extract then file == [] else !WorkListFull(c))
  }

  /** Opening the recovered file for writing empties it. */
  function Opening(c: Client, f: U32): Client {
    if c.mode == Extract then c.(recovered := [], opener := f, log := []) else c
  }

  /** archive_file of a file archived before, or extract_file: the block list is asked for. */
  function AskForList(c: Client, f: U32, file: seq<Byte>): (Client, seq<Message>)
    requires f in c.saved
  {
    (Opening(c.(tickets := c.tickets[f := Ticket(c.mode, file, [], AwaitingBlockList, 0, 0, [])]), f),
     [GetBlock(f, 0, c.saved[f].listRemoteId)])
  }

  // ---- the system ----

  datatype Step =
    | StartNew(fid: U32, file: seq<Byte>)
    | StartOld(fid: U32, file: seq<Byte>)
    | SendBlock(fid: U32, fill: Fill)
    | RequestBlock(fid: U32)
    | Serve
    | Receive(sorted: seq<Block>, listPayload: seq<Byte>)
    | WalkDone
    | Restart(mode: Action)  // the client is run again; what was under way is lost

  ghost predicate Enabled(p: Params, s: Sys, e: Step) {
    match e
    case StartNew(f, file) => CanArchiveNew(p, s.client, f, file)
    case StartOld(f, file) => CanAskForList(s.client, f, file)
    case SendBlock(f, fill) => f in s.client.tickets && CanSendOne(p, s.client.tickets[f], fill)
    case RequestBlock(f) => f in s.client.tickets && s.client.tickets[f].status == SendingBlockRequests
    case Serve => s.c2s != [] && CanServe(s.server, s.c2s[0])
    case Receive(sorted, payload) => s.s2c != [] && CanReceive(p, s.client, s.s2c[0], sorted, payload)
    case WalkDone => s.client.walking
    case Restart(_) => true
  }

  function WithTicket(s: Sys, f: U32, r: (Ticket, seq<Message>)): Sys {
    s.(client := s.client.(tickets := s.client.tickets[f := r.0]), c2s := s.c2s + r.1)
  }

  ghost function Next(p: Params, s: Sys, e: Step): Sys
    requires Enabled(p, s, e)
  {
    match e
    case StartNew(f, file) => s.(client := ArchiveNew(p, s.client, f, file))
    case StartOld(f, file) => var r := AskForList(s.client, f, file); s.(client := r.0, c2s := s.c2s + r.1)
    case SendBlock(f, fill) => WithTicket(s, f, SendOne(p, f, s.client.tickets[f], fill))
    case RequestBlock(f) => WithTicket(s, f, RequestOne(f, s.client.tickets[f]))
    case Serve =>
      var r := ServeOne(s.server, s.c2s[0]);
      s.(server := r.0, c2s := s.c2s[1..], s2c := s.s2c + r.1)
    case Receive(sorted, payload) =>
      var r := ReceiveOne(p, s.client, s.s2c[0], sorted, payload);
      s.(client := r.0, s2c := s.s2c[1..], c2s := s.c2s + r.1)
    case WalkDone => var r := Farewell(s.client.(walking := false)); s.(client := r.0, c2s := s.c2s + r.1)
    case Restart(mode) =>
      s.(client := s.client.(mode := mode, tickets := map[], walking := true, byes := 0), c2s := [], s2c := [])
  }

  ghost predicate IsInitial(s: Sys) {
    && s.client.tickets == map[] && s.client.walking && s.client.byes == 0
    && s.client.lastLocal == 0 && s.client.saved == map[]
    && s.client.recovered == [] && s.client.opener == 0 && s.client.log == []
    && s.server == Server(map[], 0) && s.c2s == [] && s.s2c == []
  }

  ghost predicate IsRun(p: Params, states: seq<Sys>, steps: seq<Step>) {
    && |states| == |steps| + 1 && IsInitial(states[0])
    && forall i | 0 <= i < |steps| ::
         Enabled(p, states[i], steps[i]) && states[i + 1] == Next(p, states[i], steps[i])
  }
}
