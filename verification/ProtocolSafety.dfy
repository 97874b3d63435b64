/** What every step of the protocol keeps, and so every run of it: the server stores what
    the client believes it stores, acknowledgements are counted exactly, and each of them is
    routed to the block it acknowledges. */
module ProtocolSafety {
  import opened Bytes
  import opened Blocks
  import opened CoverLaws
  import opened Covering
  import opened Ids
  import opened Messages
  import opened Protocol
  import opened Signatures
  import opened WeakChecksum

  ghost predicate GoodParams(p: Params) {
    && CanIndex(p.blockLength)
    && (forall x: seq<Byte> :: |p.sha(x)| == STRONG_LENGTH)
    && (forall x: seq<Byte>, n: nat | n < |x| && Opens(p, x) :: !Opens(p, x[..n]))
  }

  // ---- what is under way for a file ----

  /** A request under way, or its answer: what the server stores or will store, or what it
      answers or will answer. */
  datatype Item = Put(blockId: U32, payload: seq<Byte>) | Get(blockId: U32, data: seq<Byte>)

  predicate IsFor(m: Message, f: U32) {
    !m.Bye? && m.fileId == f
  }

  function ItemOf(m: Message, store: map<U32, seq<Byte>>): Item
    requires !m.Bye?
  {
    match m
    case PutBlock(_, b, payload) => Put(b, payload)
    case PutAck(_, b, a) => Put(b, if a in store then store[a] else [])
    case GetBlock(_, b, a) => Get(b, Answer(store, a))
    case GetAck(_, b, payload) => Get(b, payload)
  }

  function ItemFor(m: Message, store: map<U32, seq<Byte>>, f: U32): seq<Item> {
    if IsFor(m, f) then [ItemOf(m, store)] else []
  }

  function Items(ms: seq<Message>, store: map<U32, seq<Byte>>, f: U32): seq<Item> {
    if ms == [] then [] else ItemFor(ms[0], store, f) + Items(ms[1..], store, f)
  }

  /** In the order in which the client will learn of them. */
  function UnderWay(s: Sys, f: U32): seq<Item> {
    Items(s.s2c, s.server.store, f) + Items(s.c2s, s.server.store, f)
  }

  lemma ItemsFirst(ms: seq<Message>, store: map<U32, seq<Byte>>, f: U32)
    ensures Items([], store, f) == []
    ensures ms != [] ==> Items(ms, store, f) == ItemFor(ms[0], store, f) + Items(ms[1..], store, f)
  {
  }

  lemma {:induction false} ItemsConcat(a: seq<Message>, b: seq<Message>, store: map<U32, seq<Byte>>, f: U32)
    ensures Items(a + b, store, f) == Items(a, store, f) + Items(b, store, f)
  {
    hide ItemFor, Items;
    ItemsFirst(a, store, f);
    ItemsFirst(a + b, store, f);
    if a == [] {
      assert a + b == b;
      assert [] + Items(b, store, f) == Items(b, store, f);
    } else {
      ItemsConcat(a[1..], b, store, f);
      assert (a + b)[0] == a[0] && (a + b)[1..] == a[1..] + b;
      var x, y, z := ItemFor(a[0], store, f), Items(a[1..], store, f), Items(b, store, f);
      assert x + (y + z) == (x + y) + z;
    }
  }

  ghost predicate Extends(store: map<U32, seq<Byte>>, store': map<U32, seq<Byte>>) {
    forall a :: a in store ==> a in store' && store'[a] == store[a]
  }

  /** Every id mentioned by a message is one under which the server stores something. */
  ghost predicate Mentioned(ms: seq<Message>, store: map<U32, seq<Byte>>) {
    forall m :: m in ms && (m.PutAck? || m.GetBlock?) ==> m.archiveId in store
  }

  /** What the client puts on the way: data that fits a record, and requests for what the
      server has. */
  ghost predicate FromClient(ms: seq<Message>, store: map<U32, seq<Byte>>) {
    forall m :: m in ms ==>
      m.Bye? || (m.PutBlock? && m.payload != []) || (m.GetBlock? && m.archiveId in store)
  }

  ghost predicate FromServer(ms: seq<Message>, store: map<U32, seq<Byte>>) {
    forall m :: m in ms ==> m.Bye? || (m.PutAck? && m.archiveId in store) || m.GetAck?
  }

  lemma {:induction false} ItemsKept(ms: seq<Message>, store: map<U32, seq<Byte>>, store': map<U32, seq<Byte>>, f: U32)
    requires Extends(store, store') && Mentioned(ms, store)
    ensures Items(ms, store', f) == Items(ms, store, f)
  {
    if ms != [] {
      assert ms[0] in ms;
      ItemsKept(ms[1..], store, store', f);
    }
  }

  // ---- what a block promises ----

  /** The server has data of the block's length under its remote id, and the strong checksum
      is that of the data, or of its beginning where the file ended. */
  ghost predicate IsStored(p: Params, store: map<U32, seq<Byte>>, b: Block) {
    && b.remoteId != 0 && b.remoteId in store
    && Opens(p, store[b.remoteId]) && |Plain(p, store[b.remoteId])| == b.length
    && exists n :: 0 <= n <= b.length && p.sha(Plain(p, store[b.remoteId])[..n]) == b.strong
  }

  /** The weak checksum is that of the block's part of the file, if that is all there and made of
      whole words. */
  ghost predicate IsWeak(file: seq<Byte>, b: Block) {
    b.length % 4 == 0 && b.End() <= |file| ==> b.weak == Weak(file[b.offset..b.End()])
  }

  /** The strong checksum of a cover block is that of its part of the file; the weak one of a
      whole block agrees with that of its part in the low half, which is compared. */
  ghost predicate IsTrue(p: Params, file: seq<Byte>, b: Block) {
    b.inCover ==>
      && b.strong == p.sha(Slice(file, b.offset, b.length))
      && (b.length == p.blockLength && b.length % 4 == 0 && b.End() <= |file| ==>
            Low16(b.weak) == Low16(Weak(file[b.offset..b.End()])))
  }

  /** The blocks of a list behind its first ones have been sent with their weak checksum, once
      they are stored. */
  ghost predicate NewWeak(file: seq<Byte>, bs: seq<Block>, first: nat) {
    forall i :: first <= i < |bs| && bs[i].remoteId != 0 ==> IsWeak(file, bs[i])
  }

  ghost predicate GoodIds(bs: seq<Block>, lastLocal: nat) {
    AllSaved(bs) && DistinctIds(bs) && IdsUpTo(bs, lastLocal) && |bs| < TWO32
  }

  /** A list whose blocks are all stored: what may be stored itself. */
  ghost predicate StoredList(p: Params, store: map<U32, seq<Byte>>, file: seq<Byte>, bs: seq<Block>, lastLocal: nat) {
    && GoodIds(bs, lastLocal) && AllStorable(bs)
    && forall b :: b in bs ==> IsStored(p, store, b) && IsTrue(p, file, b)
  }

  /** The same blocks at the same places, in the cover or not. */
  ghost predicate SameCover(bs: seq<Block>, cs: seq<Block>) {
    && |bs| == |cs|
    && forall i :: 0 <= i < |bs| ==>
         bs[i].offset == cs[i].offset && bs[i].length == cs[i].length && bs[i].inCover == cs[i].inCover
  }

  /** The list is a completion of `sorted`, the reused blocks of which lie in the file. */
  ghost predicate Planned(p: Params, file: seq<Byte>, bs: seq<Block>, sorted: seq<Block>) {
    && p.blockLength > 0 && |file| < TWO32 && InRange(sorted, |file|, p.blockLength) && SortedByOffset(sorted)
    && (forall b :: b in sorted ==> FoundIn(b, |file|, p.blockLength))
    && SameCover(bs, Completed(sorted, |file|, p.blockLength))
  }

  // ---- what a ticket promises ----

  /** The blocks of a list beginning that have been sent and not yet acknowledged. */
  function Unacked(bs: seq<Block>): seq<Block> {
    if bs == [] then []
    else Unacked(bs[..|bs| - 1]) + if NeedsSending(bs[|bs| - 1]) then [bs[|bs| - 1]] else []
  }

  /** The item carries the block's sealed data. */
  ghost predicate Carries(p: Params, file: seq<Byte>, b: Block, item: Item) {
    && item.Put? && item.blockId == b.localId && item.payload != [] && Opens(p, item.payload)
    && |Plain(p, item.payload)| == b.length
    && Slice(file, b.offset, b.length) <= Plain(p, item.payload)
    && b.strong == p.sha(Slice(file, b.offset, b.length)) && IsWeak(file, b)
  }

  ghost predicate CarriesAll(p: Params, file: seq<Byte>, bs: seq<Block>, items: seq<Item>) {
    |items| == |bs| && forall i :: 0 <= i < |bs| ==> Carries(p, file, bs[i], items[i])
  }

  /** A block is stored, or it is in the cover and still has to be sent or acknowledged. */
  ghost predicate Accounted(p: Params, store: map<U32, seq<Byte>>, file: seq<Byte>, b: Block) {
    if b.remoteId != 0 then IsStored(p, store, b) && IsTrue(p, file, b) && Storable(b)
    else b.inCover && b.length > 0
  }

  /** The list of a ticket that archives: the reused blocks come first, all stored; the new
      ones behind them are unstored at least until they have been sent. */
  ghost predicate BlocksInv(p: Params, store: map<U32, seq<Byte>>, lastLocal: nat, t: Ticket) {
    && GoodIds(t.blocks, lastLocal) && t.next <= |t.blocks|
    && (forall b :: b in t.blocks ==> Accounted(p, store, t.file, b) && Storable(b))
    && Planned(p, t.file, t.blocks, t.sorted)
    && (forall i :: 0 <= i < |t.sorted| ==> t.blocks[i].remoteId != 0)
    && (forall i :: |t.sorted| <= i < |t.blocks| && i >= t.next ==> t.blocks[i].remoteId == 0)
    && NewWeak(t.file, t.blocks, |t.sorted|)
  }

  /** What is under way are the blocks sent and not acknowledged, in order, and that many are
      counted; once the list is under way, nothing else is, and all blocks are stored.  A
      ticket without new blocks never gets there. */
  ghost predicate WayInv(p: Params, t: Ticket, way: seq<Item>)
    requires t.next <= |t.blocks|
  {
    if t.status == AwaitingBlockListConfirm then
      && t.next == |t.blocks| && t.moved == 0
      && |t.sorted| < |t.blocks| && (forall b :: b in t.blocks ==> b.remoteId != 0)
      && |way| == 1 && way[0].Put? && way[0].blockId == 0
      && Seals(p, way[0].payload, EncodeListOf(t.blocks))
    else
      && (t.status == SendingBlocks || t.status == AwaitingBlockConfirms)
      && (t.status == AwaitingBlockConfirms ==> t.next == |t.blocks|)
      && t.moved == |way| && CarriesAll(p, t.file, Unacked(t.blocks[..t.next]), way)
      && (t.status == AwaitingBlockConfirms && way == [] ==> |t.sorted| == |t.blocks|)
      && (t.status == SendingBlocks && t.next == |t.blocks| ==> t.blocks == [])
  }

  /** A ticket that is sending blocks, waits for them to be acknowledged, or has. */
  ghost predicate ArchiveInv(p: Params, store: map<U32, seq<Byte>>, lastLocal: nat, t: Ticket, way: seq<Item>) {
    BlocksInv(p, store, lastLocal, t) && WayInv(p, t, way)
  }

  ghost predicate HasList(p: Params, c: Client, store: map<U32, seq<Byte>>, f: U32) {
    && f in c.saved && c.saved[f].listRemoteId != 0 && c.saved[f].listRemoteId in store
    && Seals(p, store[c.saved[f].listRemoteId], EncodeListOf(c.saved[f].blocks))
  }

  ghost function EncodeListOf(bs: seq<Block>): seq<Byte> {
    if AllStorable(bs) && |bs| < TWO32 then EncodeList(bs) else []
  }

  /** A record is given back whole. */
  predicate Fits(store: map<U32, seq<Byte>>, a: U32) {
    a in store && |store[a]| < TWO16
  }

  /** The answer for a record that does not fit holds nothing: it is taken for missing. */
  predicate Missing(store: map<U32, seq<Byte>>, a: U32) {
    Answer(store, a) == []
  }

  /** The places of the blocks whose answers hold something. */
  function Delivered(store: map<U32, seq<Byte>>, bs: seq<Block>): (places: seq<nat>)
    ensures |places| <= |bs| && forall i :: 0 <= i < |places| ==> places[i] < |bs|
  {
    if bs == [] then []
    else
      var n := |bs| - 1;
      Delivered(store, bs[..n]) + if Missing(store, bs[n].remoteId) then [] else [n]
  }

  lemma {:induction false} DeliveredKept(store: map<U32, seq<Byte>>, store': map<U32, seq<Byte>>, bs: seq<Block>)
    requires Extends(store, store') && forall b :: b in bs ==> b.remoteId in store
    ensures Delivered(store', bs) == Delivered(store, bs)
  {
    if bs != [] {
      DeliveredKept(store, store', bs[..|bs| - 1]);
      assert bs[|bs| - 1] in bs;
    }
  }

  /** Of a record that opens the answer is the whole, nothing, or a part that does not open:
      it depends on the length alone. */
  lemma WholeOrCut(p: Params, store: map<U32, seq<Byte>>, a: U32)
    requires GoodParams(p) && a in store && a != 0 && store[a] != [] && Opens(p, store[a])
    ensures Opens(p, Answer(store, a)) <==> Fits(store, a)
    ensures Fits(store, a) ==> Answer(store, a) == store[a] && !Missing(store, a)
    ensures Missing(store, a) <==> |store[a]| % TWO16 == 0
  {
    var x := store[a];
    assert x[..|x|] == x;
    if |x| >= TWO16 {
      assert Low16(|x|) < |x|;
    }
  }

  /** A ticket that waits for the stored list: the server will answer with what it gives back
      of that list; if that is nothing, the ticket goes on waiting. */
  ghost predicate AskingInv(p: Params, c: Client, store: map<U32, seq<Byte>>, f: U32, t: Ticket, way: seq<Item>) {
    && HasList(p, c, store, f) && t.blocks == [] && t.next == 0 && t.moved == 0 && |t.file| < TWO32
    && var a := c.saved[f].listRemoteId;
       way == [Get(0, Answer(store, a))] || (way == [] && Missing(store, a))
  }

  /** A ticket that asks for blocks or waits for them: its list came whole, and so did each
      answer that held something.  The count, never raised by a request, runs below zero; so it
      cannot tell when the last block has come. */
  ghost predicate ExtractInv(p: Params, c: Client, store: map<U32, seq<Byte>>, f: U32, t: Ticket, way: seq<Item>) {
    && HasList(p, c, store, f) && Fits(store, c.saved[f].listRemoteId)
    && t.blocks == PersistentAll(c.saved[f].blocks)
    && |way| <= t.next <= |t.blocks| < TWO32
    && (t.status == SendingBlockRequests || t.status == AwaitingBlockConfirms)
    && (t.status == AwaitingBlockConfirms ==> t.next == |t.blocks|)
    && (forall b :: b in t.blocks ==> b.remoteId in store)
    && var k := t.next - |way|;
       && t.moved == Low32(-|Delivered(store, t.blocks[..k])|)
       && (forall i :: 0 <= i < k ==> Missing(store, t.blocks[i].remoteId) || Fits(store, t.blocks[i].remoteId))
       && forall i :: 0 <= i < |way| ==>
            way[i] == Get(t.blocks[k + i].localId, Answer(store, t.blocks[k + i].remoteId))
  }

  ghost predicate TicketInv(p: Params, c: Client, store: map<U32, seq<Byte>>, f: U32, way: seq<Item>) {
    if f !in c.tickets then way == []
    else
      var t := c.tickets[f];
      && f != 0 && t.action == c.mode
      && if t.status == AwaitingBlockList then AskingInv(p, c, store, f, t, way)
         else if t.action == Archive then ArchiveInv(p, store, c.lastLocal, t, way)
         else ExtractInv(p, c, store, f, t, way)
  }

  ghost predicate ServerInv(v: Server) {
    && v.last < TWO32
    && forall a :: a in v.store ==> 0 < a <= v.last && v.store[a] != []
  }

  /** Every summary leads to a stored list, all of whose blocks are stored. */
  ghost predicate SavedInv(p: Params, c: Client, store: map<U32, seq<Byte>>) {
    forall f :: f in c.saved ==>
      && HasList(p, c, store, f) && |c.saved[f].sorted| < |c.saved[f].blocks|
      && StoredList(p, store, c.saved[f].file, c.saved[f].blocks, c.lastLocal)
      && Planned(p, c.saved[f].file, c.saved[f].blocks, c.saved[f].sorted)
      && NewWeak(c.saved[f].file, c.saved[f].blocks, |c.saved[f].sorted|)
  }

  /** Goodbye has been said, once, exactly if nothing is left to do. */
  ghost predicate ByeInv(c: Client) {
    c.byes <= 1 && (c.byes == 1 <==> c.tickets == map[] && !c.walking)
  }

  ghost predicate Inv(p: Params, s: Sys) {
    && ServerInv(s.server) && FromServer(s.s2c, s.server.store) && FromClient(s.c2s, s.server.store)
    && s.client.lastLocal < TWO32
    && SavedInv(p, s.client, s.server.store) && ByeInv(s.client)
    && forall f: U32 :: TicketInv(p, s.client, s.server.store, f, UnderWay(s, f))
  }
}
