/** How one ticket fares: sending, being acknowledged, asking and receiving keep what the
    ticket promises in `ProtocolSafety`. */
module ProtocolTickets {
  import opened Bytes
  import opened Blocks
  import opened CoverLaws
  import opened Covering
  import opened Ids
  import opened Messages
  import opened Protocol
  import opened ProtocolSafety
  import opened Restore
  import opened WeakChecksum

  // ---- blocks sent and not acknowledged ----

  lemma {:induction false} UnackedCount(bs: seq<Block>)
    ensures |Unacked(bs)| <= |bs|
    ensures Unacked(bs) == [] <==> forall i :: 0 <= i < |bs| ==> !NeedsSending(bs[i])
  {
    if bs != [] {
      UnackedCount(bs[..|bs| - 1]);
    }
  }

  lemma UnackedNext(bs: seq<Block>, n: nat)
    requires n < |bs|
    ensures Unacked(bs[..n + 1]) == Unacked(bs[..n]) + if NeedsSending(bs[n]) then [bs[n]] else []
  {
    assert bs[..n + 1][..n] == bs[..n];
  }

  /** The block acknowledged first was sent first; without it the others remain. */
  lemma {:induction false} UnackedHead(bs: seq<Block>, archiveId: U32) returns (j: nat)
    requires Unacked(bs) != [] && archiveId != 0
    ensures j < |bs| && NeedsSending(bs[j]) && Unacked(bs)[0] == bs[j]
    ensures Unacked(bs[j := bs[j].(remoteId := archiveId)]) == Unacked(bs)[1..]
  {
    var n := |bs| - 1;
    var front := bs[..n];
    if Unacked(front) != [] {
      j := UnackedHead(front, archiveId);
      var bs' := bs[j := bs[j].(remoteId := archiveId)];
      assert bs'[..n] == front[j := front[j].(remoteId := archiveId)] && bs'[n] == bs[n];
    } else {
      j := n;
      assert bs[j := bs[j].(remoteId := archiveId)][..n] == front;
    }
  }

  // ---- sending ----

  lemma SendTicket(p: Params, store: map<U32, seq<Byte>>, lastLocal: nat, f: U32, t: Ticket, fill: Fill, way: seq<Item>)
    requires GoodParams(p) && ArchiveInv(p, store, lastLocal, t, way) && CanSendOne(p, t, fill)
    ensures
      var r := SendOne(p, f, t, fill);
      && ArchiveInv(p, store, lastLocal, r.0, way + Items(r.1, store, f))
      && r.0.action == t.action && FromClient(r.1, store)
  {
    hide BlocksInv, WayInv, FillOk;
    GoodOf(p, store, lastLocal, t);
    if t.next < |t.blocks| && NeedsSending(t.blocks[t.next]) {
      SendNewBlocks(p, store, lastLocal, f, t, fill);
      SendNewWay(p, store, f, t, fill, way);
    } else {
      SendNothing(p, store, lastLocal, f, t, fill, way);
    }
  }

  /** The turns that send nothing: behind the last block, or at one already stored. */
  lemma SendNothing(p: Params, store: map<U32, seq<Byte>>, lastLocal: nat, f: U32, t: Ticket, fill: Fill,
                    way: seq<Item>)
    requires ArchiveInv(p, store, lastLocal, t, way) && t.status == SendingBlocks
    requires t.next < |t.blocks| ==> !NeedsSending(t.blocks[t.next])
    ensures
      var r := SendOne(p, f, t, fill);
      && ArchiveInv(p, store, lastLocal, r.0, way + Items(r.1, store, f))
      && r.0.status in {SendingBlocks, AwaitingBlockConfirms} && r.1 == []
  {
    hide BlocksInv, CarriesAll, Seals, EncodeListOf, Slice;
    assert way + [] == way;
    PlanLength(p, store, lastLocal, t);
    if t.next < |t.blocks| {
      PassedBlocks(p, store, lastLocal, t);
      UnackedNext(t.blocks, t.next);
      var sent := Unacked(t.blocks[..t.next]);
      assert sent + [] == sent;
    } else {
      SameBlocksInv(p, store, lastLocal, t, SendOne(p, f, t, fill).0.status);
    }
  }

  /** Passing a block that is stored already keeps what the list promises. */
  lemma PassedBlocks(p: Params, store: map<U32, seq<Byte>>, lastLocal: nat, t: Ticket)
    requires BlocksInv(p, store, lastLocal, t) && t.next < |t.blocks| && !NeedsSending(t.blocks[t.next])
    ensures t.next < |t.sorted| && BlocksInv(p, store, lastLocal, Confirming(t.(next := t.next + 1)))
  {
    hide Planned, IsStored, IsTrue, GoodIds;
    var b := t.blocks[t.next];
    assert b in t.blocks;
    assert Accounted(p, store, t.file, b);
  }

  lemma PlanLength(p: Params, store: map<U32, seq<Byte>>, lastLocal: nat, t: Ticket)
    requires BlocksInv(p, store, lastLocal, t)
    ensures |t.sorted| <= |t.blocks| && t.next <= |t.blocks|
  {
  }

  /** The turn that sends a block: what it does to the list. */
  lemma SendNewBlocks(p: Params, store: map<U32, seq<Byte>>, lastLocal: nat, f: U32, t: Ticket, fill: Fill)
    requires GoodParams(p) && BlocksInv(p, store, lastLocal, t)
    requires t.next < |t.blocks| && NeedsSending(t.blocks[t.next])
    ensures BlocksInv(p, store, lastLocal, SendOne(p, f, t, fill).0)
  {
    hide Planned, IsStored, IsTrue, GoodIds;
    var n, b := t.next, t.blocks[t.next];
    var filled := Filled(p, t.file, b, fill);
    var blocks := t.blocks[n := filled];
    assert b in t.blocks;
    SameIds(t.blocks, blocks, lastLocal);
    SamePlan(p, t.file, t.blocks, blocks, t.sorted);
    forall c | c in blocks ensures Accounted(p, store, t.file, c) && Storable(c) {
      assert c == filled || c in t.blocks;
    }
  }

  /** The turn that sends a block: what is then under way. */
  lemma SendNewWay(p: Params, store: map<U32, seq<Byte>>, f: U32, t: Ticket, fill: Fill, way: seq<Item>)
    requires t.next < |t.blocks| < TWO32 && NeedsSending(t.blocks[t.next])
    requires WayInv(p, t, way) && CanSendOne(p, t, fill)
    ensures
      var r := SendOne(p, f, t, fill);
      WayInv(p, r.0, way + Items(r.1, store, f)) && FromClient(r.1, store)
  {
    hide EncodeListOf, Carries, Unacked, Filled, Items;
    var n, b := t.next, t.blocks[t.next];
    var filled := Filled(p, t.file, b, fill);
    var r := SendOne(p, f, t, fill);
    OnePut(f, b.localId, fill.payload, store);
    FilledCarries(p, t.file, b, fill);
    UnackedNext(r.0.blocks, n);
    assert t.blocks[..n] == r.0.blocks[..n];
    UnackedCount(t.blocks[..n]);
    assert Items(r.1, store, f) == [Put(b.localId, fill.payload)];
  }

  lemma OnePut(f: U32, id: U32, payload: seq<Byte>, store: map<U32, seq<Byte>>)
    ensures Items([PutBlock(f, id, payload)], store, f) == [Put(id, payload)]
  {
    var ms := [PutBlock(f, id, payload)];
    assert ms[1..] == [];
  }

  lemma OneGet(f: U32, id: U32, a: U32, store: map<U32, seq<Byte>>)
    ensures Items([GetBlock(f, id, a)], store, f) == [Get(id, Answer(store, a))]
  {
    var ms := [GetBlock(f, id, a)];
    assert ms[1..] == [];
  }

  lemma NoItems(store: map<U32, seq<Byte>>, f: U32)
    ensures Items([], store, f) == []
  {
  }

  lemma FilledCarries(p: Params, file: seq<Byte>, b: Block, fill: Fill)
    requires FillOk(p, file, b, fill) && NeedsSending(b)
    ensures fill.payload != [] && NeedsSending(Filled(p, file, b, fill))
    ensures Carries(p, file, Filled(p, file, b, fill), Put(b.localId, fill.payload))
  {
  }

  lemma SameIds(bs: seq<Block>, cs: seq<Block>, lastLocal: nat)
    requires GoodIds(bs, lastLocal) && |cs| == |bs|
    requires forall i :: 0 <= i < |bs| ==> cs[i].localId == bs[i].localId
    ensures GoodIds(cs, lastLocal)
  {
    forall c | c in cs ensures c.localId != 0 && c.localId <= lastLocal {
      var i :| 0 <= i < |cs| && cs[i] == c;
      assert bs[i] in bs;
    }
  }

  lemma SamePlan(p: Params, file: seq<Byte>, bs: seq<Block>, cs: seq<Block>, sorted: seq<Block>)
    requires Planned(p, file, bs, sorted) && SameCover(cs, bs)
    ensures Planned(p, file, cs, sorted)
  {
    hide Completed, InRange, SortedByOffset;
  }

  // ---- acknowledgements of blocks ----

  /** An acknowledged block: it was sent, it is the one the acknowledgement names, and it is
      taken off those under way. */
  lemma AckedWay(p: Params, lastLocal: nat, t: Ticket, way: seq<Item>, a: U32) returns (k: nat)
    requires t.next <= |t.blocks| && WayInv(p, t, way) && t.status != AwaitingBlockListConfirm
    requires GoodIds(t.blocks, lastLocal) && way != [] && a != 0
    ensures way[0].Put? && way[0].blockId != 0 && k < t.next && FindBlock(t.blocks, way[0].blockId) == k
    ensures NeedsSending(t.blocks[k]) && Carries(p, t.file, t.blocks[k], way[0])
    ensures Acked(t, k, a).moved == |way| - 1
    ensures CarriesAll(p, t.file, Unacked(Acked(t, k, a).blocks[..t.next]), way[1..])
  {
    hide EncodeListOf, Carries, IdsUpTo, DistinctIds;
    var sent := t.blocks[..t.next];
    assert Carries(p, t.file, Unacked(sent)[0], way[0]);
    k := UnackedHead(sent, a);
    var b := t.blocks[k];
    assert b in t.blocks;
    CarriesId(p, t.file, b, way[0]);
    FindBlockExact(t.blocks, way[0].blockId);
    assert Acked(t, k, a).blocks[..t.next] == sent[k := b.(remoteId := a)];
    UnackedCount(sent);
  }

  lemma CarriesId(p: Params, file: seq<Byte>, b: Block, item: Item)
    requires Carries(p, file, b, item)
    ensures item.Put? && item.blockId == b.localId
  {
  }

  /** The server stores the acknowledged block; the list keeps its order and ids. */
  lemma AckedBlocks(p: Params, store: map<U32, seq<Byte>>, lastLocal: nat, t: Ticket, k: nat, item: Item, a: U32)
    requires BlocksInv(p, store, lastLocal, t) && k < t.next && NeedsSending(t.blocks[k])
    requires Carries(p, t.file, t.blocks[k], item) && a != 0 && a in store && store[a] == item.payload
    ensures BlocksInv(p, store, lastLocal, Acked(t, k, a))
    ensures IsStored(p, store, Acked(t, k, a).blocks[k]) && k >= |t.sorted|
  {
    hide Planned, IsStored, IsTrue, GoodIds, Carries, NewWeak;
    var b := t.blocks[k];
    var b' := b.(remoteId := a);
    var blocks := t.blocks[k := b'];
    assert b in t.blocks;
    AckedStored(p, store, t.file, b, item, a);
    AckedWeak(p, t.file, t.blocks, |t.sorted|, k, item, a);
    SameIds(t.blocks, blocks, lastLocal);
    SamePlan(p, t.file, t.blocks, blocks, t.sorted);
    forall c | c in blocks ensures Accounted(p, store, t.file, c) && Storable(c) {
      assert c == b' || c in t.blocks;
    }
  }

  lemma AckedWeak(p: Params, file: seq<Byte>, bs: seq<Block>, first: nat, k: nat, item: Item, a: U32)
    requires k < |bs| && NewWeak(file, bs, first) && Carries(p, file, bs[k], item)
    ensures NewWeak(file, bs[k := bs[k].(remoteId := a)], first)
  {
    hide Weak;
  }

  lemma AckedStored(p: Params, store: map<U32, seq<Byte>>, file: seq<Byte>, b: Block, item: Item, a: U32)
    requires Carries(p, file, b, item) && a != 0 && a in store && store[a] == item.payload
    ensures IsStored(p, store, b.(remoteId := a)) && IsTrue(p, file, b.(remoteId := a))
  {
    var plain, part := Plain(p, store[a]), Slice(file, b.offset, b.length);
    assert plain[..|part|] == part;
  }

  /** The acknowledgement of a block, together: either more are awaited, or it was the last
      one, every block is stored and the list goes out. */
  lemma AckedTicket(p: Params, store: map<U32, seq<Byte>>, lastLocal: nat, t: Ticket, way: seq<Item>, a: U32,
                    payload: seq<Byte>) returns (k: nat)
    requires ArchiveInv(p, store, lastLocal, t, way) && t.status != AwaitingBlockListConfirm
    requires way != [] && a != 0 && a in store && way[0] == Put(way[0].blockId, store[a])
    requires
      var k := FindBlock(t.blocks, way[0].blockId);
      k >= 0 && SendsList(Acked(t, k, a)) ==> ListPayloadOk(p, Acked(t, k, a).blocks, payload)
    ensures way[0].blockId != 0 && k < |t.blocks| && FindBlock(t.blocks, way[0].blockId) == k
    ensures
      var t' := Acked(t, k, a);
      if SendsList(t') then
        && way[1..] == []
        && ArchiveInv(p, store, lastLocal, t'.(status := AwaitingBlockListConfirm), [Put(0, payload)])
      else ArchiveInv(p, store, lastLocal, t', way[1..])
  {
    hide Planned, IsStored, IsTrue, Carries, CarriesAll, BlocksInv, Seals, FindBlock, Unacked;
    GoodOf(p, store, lastLocal, t);
    k := AckedWay(p, lastLocal, t, way, a);
    AckedBlocks(p, store, lastLocal, t, k, way[0], a);
    var t' := Acked(t, k, a);
    if SendsList(t') {
      assert t'.blocks[..t.next] == t'.blocks;
      CarriesCount(p, t.file, Unacked(t'.blocks), way[1..]);
      AllAcked(p, store, lastLocal, t');
      SameBlocksInv(p, store, lastLocal, t', AwaitingBlockListConfirm);
    }
  }

  lemma SameBlocksInv(p: Params, store: map<U32, seq<Byte>>, lastLocal: nat, t: Ticket, status: Status)
    requires BlocksInv(p, store, lastLocal, t)
    ensures BlocksInv(p, store, lastLocal, t.(status := status))
  {
  }

  lemma GoodOf(p: Params, store: map<U32, seq<Byte>>, lastLocal: nat, t: Ticket)
    requires BlocksInv(p, store, lastLocal, t)
    ensures GoodIds(t.blocks, lastLocal) && t.next <= |t.blocks| < TWO32
  {
  }

  lemma CarriesCount(p: Params, file: seq<Byte>, bs: seq<Block>, items: seq<Item>)
    requires CarriesAll(p, file, bs, items)
    ensures |items| == |bs|
  {
  }

  lemma AllAcked(p: Params, store: map<U32, seq<Byte>>, lastLocal: nat, t: Ticket)
    requires BlocksInv(p, store, lastLocal, t) && Unacked(t.blocks) == []
    ensures forall b :: b in t.blocks ==> b.remoteId != 0
  {
    UnackedCount(t.blocks);
    forall b | b in t.blocks ensures b.remoteId != 0 {
      var i :| 0 <= i < |t.blocks| && t.blocks[i] == b;
      assert !NeedsSending(t.blocks[i]);
    }
  }

  // ---- asking for blocks ----

  lemma RequestTicket(p: Params, c: Client, store: map<U32, seq<Byte>>, f: U32, t: Ticket, way: seq<Item>)
    requires ExtractInv(p, c, store, f, t, way) && t.status == SendingBlockRequests
    ensures
      var r := RequestOne(f, t);
      && ExtractInv(p, c, store, f, r.0, way + Items(r.1, store, f))
      && r.0.action == t.action && FromClient(r.1, store)
  {
    hide HasList, PersistentAll, Answer, Delivered, Missing, Fits, Items;
    var r := RequestOne(f, t);
    if t.next < |t.blocks| {
      var b := t.blocks[t.next];
      assert b in t.blocks;
      OneGet(f, b.localId, b.remoteId, store);
    } else {
      NoItems(store, f);
      assert way + [] == way;
    }
  }

  /** The ticket after the first block under way has been installed. */
  function InstalledOne(t: Ticket): Ticket {
    t.(moved := Low32(t.moved - 1))
  }

  /** The next block of the list is the one that the first item under way answers. */
  lemma NextAnswered(p: Params, c: Client, store: map<U32, seq<Byte>>, f: U32, t: Ticket, way: seq<Item>)
    requires ExtractInv(p, c, store, f, t, way) && way != []
    ensures
      var k := t.next - |way|;
      && 0 <= k < t.next <= |t.blocks| && t.blocks[k] in t.blocks && t.blocks[k].remoteId in store
      && way[0] == Get(t.blocks[k].localId, Answer(store, t.blocks[k].remoteId))
      && Delivered(store, t.blocks[..k + 1]) ==
         Delivered(store, t.blocks[..k]) + if Missing(store, t.blocks[k].remoteId) then [] else [k]
  {
    hide HasList, PersistentAll, Answer, Missing;
    var k: nat := t.next - |way|;
    assert t.blocks[k] in t.blocks;
    assert t.blocks[..k + 1][..k] == t.blocks[..k];
    assert way[0] == Get(t.blocks[k + 0].localId, Answer(store, t.blocks[k + 0].remoteId));
  }

  /** The ticket after the first item under way: an answer that holds nothing leaves it. */
  function AfterAnswer(store: map<U32, seq<Byte>>, t: Ticket, k: nat): Ticket
    requires k < |t.blocks|
  {
    if Missing(store, t.blocks[k].remoteId) then t else InstalledOne(t)
  }

  lemma AnsweredInv(p: Params, c: Client, store: map<U32, seq<Byte>>, f: U32, t: Ticket, way: seq<Item>)
    requires ExtractInv(p, c, store, f, t, way) && way != []
    requires var k := t.next - |way|;
      0 <= k < |t.blocks| && (Missing(store, t.blocks[k].remoteId) || Fits(store, t.blocks[k].remoteId))
    ensures
      var t' := AfterAnswer(store, t, t.next - |way|);
      ExtractInv(p, c, store, f, t', way[1..]) && (t' != t ==> t'.moved != 0)
  {
    hide HasList, PersistentAll, Answer, Missing, Fits, Delivered;
    var k: nat := t.next - |way|;
    NextAnswered(p, c, store, f, t, way);
    CountBelowZero(|Delivered(store, t.blocks[..k])|);
    forall i | 0 <= i < |way| - 1
      ensures way[1..][i] == Get(t.blocks[k + 1 + i].localId, Answer(store, t.blocks[k + 1 + i].remoteId))
    {
      assert way[1 + i] == Get(t.blocks[k + (1 + i)].localId, Answer(store, t.blocks[k + (1 + i)].remoteId));
    }
  }

  /** What the client makes of the answer for a block of a ticket that extracts. */
  function AfterBlock(p: Params, c: Client, store: map<U32, seq<Byte>>, f: U32, k: nat): Client
    requires f in c.tickets && k < |c.tickets[f].blocks| && c.tickets[f].blocks[k].remoteId in store
  {
    var t := c.tickets[f];
    var b := t.blocks[k];
    if Missing(store, b.remoteId) then c
    else Place(c.(tickets := c.tickets[f := InstalledOne(t)]), f, k, Install(p, b, Plain(p, store[b.remoteId])))
  }

  /** A block that comes is installed at its place; the count goes below zero and never tells
      that the ticket is done, which so is never removed.  An answer that holds nothing changes
      nothing. */
  lemma InstalledTicket(p: Params, c: Client, store: map<U32, seq<Byte>>, f: U32, t: Ticket, way: seq<Item>)
    requires GoodParams(p) && f in c.tickets && c.tickets[f] == t && ExtractInv(p, c, store, f, t, way) && way != []
    requires GoodIds(t.blocks, c.lastLocal)
    requires forall b :: b in t.blocks ==> IsStored(p, store, b)
    requires forall a :: a in store ==> a != 0 && store[a] != []
    requires CanAcceptBlock(p, c, f, way[0].blockId, way[0].data)
    ensures way[0].Get? && way[0].blockId != 0 && 0 <= t.next - |way| < |t.blocks|
    ensures t.blocks[t.next - |way|].remoteId in store
    ensures
      var k := t.next - |way|;
      && AcceptGetAckBlock(p, c, f, way[0].blockId, way[0].data) == AfterBlock(p, c, store, f, k)
      && ExtractInv(p, c, store, f, AfterAnswer(store, t, k), way[1..])
      && (Missing(store, t.blocks[k].remoteId) || Fits(store, t.blocks[k].remoteId))
  {
    hide IdsUpTo, DistinctIds, ExtractInv, Answer, Fits, Missing, Opens, Delivered, AcceptGetAckBlock, AfterBlock,
         AfterAnswer, IsStored;
    NextAnswered(p, c, store, f, t, way);
    var k: nat := t.next - |way|;
    var b := t.blocks[k];
    FindBlockExact(t.blocks, b.localId);
    WholeRecord(p, c, store, f, k);
    AnsweredInv(p, c, store, f, t, way);
    BelowZero(store, t, k);
    AnswerMade(p, c, store, f, k);
  }

  lemma BelowZero(store: map<U32, seq<Byte>>, t: Ticket, k: nat)
    requires k < |t.blocks| && (AfterAnswer(store, t, k) != t ==> AfterAnswer(store, t, k).moved != 0)
    ensures !Missing(store, t.blocks[k].remoteId) ==> InstalledOne(t).moved != 0
  {
    hide Missing;
  }

  lemma WholeRecord(p: Params, c: Client, store: map<U32, seq<Byte>>, f: U32, k: nat)
    requires GoodParams(p) && f in c.tickets && k < |c.tickets[f].blocks|
    requires
      var b := c.tickets[f].blocks[k];
      && FindBlock(c.tickets[f].blocks, b.localId) == k && IsStored(p, store, b) && store[b.remoteId] != []
      && CanAcceptBlock(p, c, f, b.localId, Answer(store, b.remoteId))
    ensures
      var a := c.tickets[f].blocks[k].remoteId;
      Missing(store, a) || Fits(store, a)
  {
    hide FindBlock, Answer, Fits, Opens;
    WholeOrCut(p, store, c.tickets[f].blocks[k].remoteId);
  }

  /** What the handler does with the answer for a stored block. */
  lemma AnswerMade(p: Params, c: Client, store: map<U32, seq<Byte>>, f: U32, k: nat)
    requires GoodParams(p) && f in c.tickets && k < |c.tickets[f].blocks|
    requires
      var b := c.tickets[f].blocks[k];
      && FindBlock(c.tickets[f].blocks, b.localId) == k && IsStored(p, store, b) && store[b.remoteId] != []
      && CanAcceptBlock(p, c, f, b.localId, Answer(store, b.remoteId))
      && (!Missing(store, b.remoteId) ==> InstalledOne(c.tickets[f]).moved != 0)
    ensures
      var b := c.tickets[f].blocks[k];
      AcceptGetAckBlock(p, c, f, b.localId, Answer(store, b.remoteId)) == AfterBlock(p, c, store, f, k)
  {
    hide FindBlock, Answer, Fits, Opens, Plain, WriteAt;
    var t, b := c.tickets[f], c.tickets[f].blocks[k];
    WholeOrCut(p, store, b.remoteId);
    var plain := Plain(p, store[b.remoteId]);
    assert plain[..Low16(|plain|)] == plain;
    assert t.blocks[k := b.(length := Low16(|plain|))] == t.blocks;
  }

  lemma FirstStored(p: Params, c: Client, store: map<U32, seq<Byte>>, f: U32, t: Ticket, way: seq<Item>)
    requires ExtractInv(p, c, store, f, t, way) && way != []
    ensures |way| <= t.next <= |t.blocks|
  {
  }

  lemma CountBelowZero(k: nat)
    requires k + 1 < TWO32
    ensures Low32(Low32(0 - k) - 1) == Low32(0 - (k + 1)) != 0
  {
    assert Low32(0 - (k + 1)) == TWO32 - (k + 1);
  }
}
