/** Where each field lies, byte by byte, in what goes over the wire and into the databases: all
    numbers with the highest byte first (version-1/ios.c, version-1/protocol.c,
    version-1/block.c, version-1/requests.c, version-1/remote.c, version-1/summary.c). */
module Layouts {
  import opened Bytes
  import opened Blocks
  import opened Framing
  import opened Messages
  import R = Records

  /** The four bytes from `i` on are this number, the highest one first. */
  predicate Is32(s: seq<Byte>, i: nat, x: int) {
    && i + 4 <= |s|
    && var a: int, b: int, c: int := s[i], s[i + 1], s[i + 2];
       x == a * 0x100_0000 + b * 0x1_0000 + c * 0x100 + s[i + 3]
  }

  predicate Is16(s: seq<Byte>, i: nat, x: int) {
    i + 2 <= |s| && var a: int := s[i]; x == a * 0x100 + s[i + 1]
  }

  lemma HighestFirst(x: U32, y: U16)
    ensures Is32(Be32(x), 0, x) && Is16(Be16(y), 0, y)
  {
    ValueOfBe(x, y);
  }

  lemma Is32Within(s: seq<Byte>, i: nat, x: U32)
    requires i + 4 <= |s| && s[i..i + 4] == Be32(x)
    ensures Is32(s, i, x)
  {
    HighestFirst(x, 0);
    var w := s[i..i + 4];
    assert w[0] == s[i] && w[1] == s[i + 1] && w[2] == s[i + 2] && w[3] == s[i + 3];
  }

  lemma Is16Within(s: seq<Byte>, i: nat, y: U16)
    requires i + 2 <= |s| && s[i..i + 2] == Be16(y)
    ensures Is16(s, i, y)
  {
    HighestFirst(0, y);
    var w := s[i..i + 2];
    assert w[0] == s[i] && w[1] == s[i + 1];
  }

  // ---- packets ----

  lemma FrameLayout(p: Packet)
    requires WellFormed(p)
    ensures |Frame(p)| == 4 + |p| && Is32(Frame(p), 0, |p|) && Frame(p)[4..] == p
  {
    hide Be32;
    assert Frame(p)[0..4] == Be32(|p|);
    Is32Within(Frame(p), 0, |p|);
  }

  /** A command, the file id, the block id, a third number, and data. */
  predicate IsPacket(s: seq<Byte>, command: Byte, f: U32, b: U32, n: int, data: seq<Byte>) {
    && |s| == 13 + |data| && s[0] == command
    && Is32(s, 1, f) && Is32(s, 5, b) && Is32(s, 9, n) && s[13..] == data
  }

  lemma ThreeNumbers(c: Byte, f: U32, b: U32, n: U32, data: seq<Byte>)
    ensures IsPacket([c] + Be32(f) + Be32(b) + Be32(n) + data, c, f, b, n, data)
  {
    hide Be32, Is32;
    var s := [c] + Be32(f) + Be32(b) + Be32(n) + data;
    assert s[1..5] == Be32(f) && s[5..9] == Be32(b) && s[9..13] == Be32(n);
    Is32Within(s, 1, f);
    Is32Within(s, 5, b);
    Is32Within(s, 9, n);
  }

  /** Every message as a packet. */
  lemma PacketLayout(m: Message)
    requires Sendable(m)
    ensures
      var s := Encode(m);
      match m
      case Bye(v, e) => |s| == 4 && s[0] == 2 && s[1] == v && Is16(s, 2, e)
      case PutBlock(f, b, p) => IsPacket(s, 3, f, b, |p|, p)
      case PutAck(f, b, a) => IsPacket(s, 4, f, b, a, [])
      case GetBlock(f, b, a) => IsPacket(s, 5, f, b, a, [])
      case GetAck(f, b, p) => IsPacket(s, 6, f, b, |p|, p)
  {
    hide Be32, Be16, Is16, IsPacket;
    match m {
      case Bye(v, e) =>
        assert Encode(m)[2..4] == Be16(e);
        Is16Within(Encode(m), 2, e);
      case PutBlock(f, b, p) =>
        ThreeNumbers(3, f, b, |p|, p);
      case PutAck(f, b, a) =>
        ThreeNumbers(4, f, b, a, []);
        assert Encode(m) + [] == Encode(m);
      case GetBlock(f, b, a) =>
        ThreeNumbers(5, f, b, a, []);
        assert Encode(m) + [] == Encode(m);
      case GetAck(f, b, p) =>
        ThreeNumbers(6, f, b, |p|, p);
    }
  }

  // ---- lists and records ----

  /** An entry of a stored list: 39 bytes. */
  predicate IsEntry(s: seq<Byte>, b: Block) {
    && |s| == 39
    && Is32(s, 0, b.localId) && s[4] == b.version && Is32(s, 5, b.remoteId) && Is32(s, 9, b.offset)
    && Is16(s, 13, b.length) && Is32(s, 15, b.weak) && s[19..] == b.strong
  }

  lemma EntryLayout(b: Block)
    requires Messages.Storable(b)
    ensures IsEntry(EncodeBlock(b), b)
  {
    hide Be32, Be16, Is32, Is16;
    var s := EncodeBlock(b);
    FieldsOf(Be32(b.localId), b.version, Be32(b.remoteId), Be32(b.offset), Be16(b.length), Be32(b.weak), b.strong);
    Is32Within(s, 0, b.localId);
    Is32Within(s, 5, b.remoteId);
    Is32Within(s, 9, b.offset);
    Is16Within(s, 13, b.length);
    Is32Within(s, 15, b.weak);
  }

  /** A stored list: the number of its entries, then these. */
  lemma ListLayout(bs: seq<Block>, i: nat)
    requires AllStorable(bs) && |bs| < TWO32 && i < |bs|
    ensures
      var s := EncodeList(bs);
      && |s| == 4 + 39 * |bs| && Is32(s, 0, |bs|) && IsEntry(s[4 + 39 * i..4 + 39 * i + 39], bs[i])
  {
    hide Be32, Is32, EncodeBlock, IsEntry;
    var s := EncodeList(bs);
    assert s[0..4] == Be32(|bs|);
    Is32Within(s, 0, |bs|);
    EntryAt(bs, i);
    var entries := EncodeBlocks(bs);
    assert s == Be32(|bs|) + entries;
    assert s[4 + 39 * i..4 + 39 * i + 39] == entries[39 * i..39 * i + 39];
    assert bs[i] in bs;
    EntryLayout(bs[i]);
  }

  lemma {:induction false} EntryAt(bs: seq<Block>, i: nat)
    requires AllStorable(bs) && i < |bs|
    ensures EncodeBlocks(bs)[39 * i..39 * i + 39] == EncodeBlock(bs[i])
  {
    hide EncodeBlock;
    var first, rest := EncodeBlock(bs[0]), EncodeBlocks(bs[1..]);
    assert EncodeBlocks(bs) == first + rest;
    if i > 0 {
      EntryAt(bs[1..], i - 1);
      assert (first + rest)[39 * i..39 * i + 39] == rest[39 * (i - 1)..39 * (i - 1) + 39];
    }
  }

  /** A record of the block store: a version, what 16 bits tell of the length, and the data. */
  lemma RecordLayout(payload: seq<Byte>)
    ensures
      var s := Record(payload);
      |s| == 3 + |payload| && s[0] == 0 && Is16(s, 1, |payload| % 0x1_0000) && s[3..] == payload
  {
    hide Be16;
    var s := Record(payload);
    assert s[1..3] == Be16(Low16(|payload|));
    Is16Within(s, 1, Low16(|payload|));
  }

  // ---- summaries and greetings ----

  lemma {:induction false} WordsLayout(ws: seq<U32>, i: nat)
    requires i < |ws|
    ensures Is32(R.Words(ws), 4 * i, ws[i])
  {
    hide Be32;
    var n := |ws| - 1;
    var s, front := R.Words(ws), R.Words(ws[..n]);
    assert s == front + Be32(ws[n]);
    if i == n {
      assert s[4 * i..4 * i + 4] == Be32(ws[n]);
      Is32Within(s, 4 * i, ws[n]);
    } else {
      WordsLayout(ws[..n], i);
    }
  }

  lemma Is32Inside(s: seq<Byte>, from: nat, part: seq<Byte>, i: nat, x: U32)
    requires from + |part| <= |s| && s[from..from + |part|] == part && Is32(part, i, x)
    ensures Is32(s, from + i, x)
  {
    assert forall k | i <= k < i + 4 :: part[k] == s[from..from + |part|][k] == s[from + k];
  }

  /** A summary: 73 bytes. */
  lemma SummaryLayout(a: R.Summary)
    requires R.Storable(a)
    ensures
      var s := R.EncodeSummary(a);
      && |s| == 73 && s[0] == a.version && Is32(s, 1, a.fileId) && Is32(s, 5, a.summaryTime) && Is32(s, 9, a.modTime)
      && Is32(s, 13, a.fileLength) && Is32(s, 17, a.inodeNumber) && Is32(s, 21, a.permissions)
      && s[25..45] == a.fileSha1 && s[45..65] == a.blockListSha1
      && Is32(s, 65, a.blockListLength) && Is32(s, 69, a.blockListRemoteId)
  {
    hide R.Words, Is32;
    var s, ns, ls := R.EncodeSummary(a), R.Numbers(a), [a.blockListLength, a.blockListRemoteId];
    assert s[1..1 + |R.Words(ns)|] == R.Words(ns) && s[65..65 + |R.Words(ls)|] == R.Words(ls);
    forall i: nat | i < 6 ensures Is32(s, 1 + 4 * i, ns[i]) {
      WordsLayout(ns, i);
      Is32Inside(s, 1, R.Words(ns), 4 * i, ns[i]);
    }
    forall i: nat | i < 2 ensures Is32(s, 65 + 4 * i, ls[i]) {
      WordsLayout(ls, i);
      Is32Inside(s, 65, R.Words(ls), 4 * i, ls[i]);
    }
    assert Is32(s, 1 + 4 * 0, ns[0]) && Is32(s, 1 + 4 * 1, ns[1]) && Is32(s, 1 + 4 * 2, ns[2]);
    assert Is32(s, 1 + 4 * 3, ns[3]) && Is32(s, 1 + 4 * 4, ns[4]) && Is32(s, 1 + 4 * 5, ns[5]);
    assert Is32(s, 65 + 4 * 0, ls[0]) && Is32(s, 65 + 4 * 1, ls[1]);
  }

  /** The greeting, and its answer. */
  lemma HelloLayout(h: R.Hello)
    requires R.IsText(h.message)
    ensures
      var s := R.EncodeHello(h);
      && |s| == 15 + |h.message| && s[0] == 0 && s[1] == h.version && Is32(s, 2, h.archiveId)
      && Is32(s, 6, h.archivePass) && s[10] == h.create && Is32(s, 11, |h.message|) && s[15..] == h.message
  {
    hide Be32, Is32;
    var s := R.EncodeHello(h);
    assert s[2..6] == Be32(h.archiveId) && s[6..10] == Be32(h.archivePass) && s[11..15] == Be32(|h.message|);
    Is32Within(s, 2, h.archiveId);
    Is32Within(s, 6, h.archivePass);
    Is32Within(s, 11, |h.message|);
  }

  lemma HelloAckLayout(a: R.HelloAck)
    requires R.IsText(a.message)
    ensures
      var s := R.EncodeHelloAck(a);
      && |s| == 12 + |a.message| && s[0] == 1 && s[1] == a.version && Is16(s, 2, a.error)
      && Is32(s, 4, a.archiveId) && Is32(s, 8, |a.message|) && s[12..] == a.message
  {
    hide Be32, Be16, Is32, Is16;
    var s := R.EncodeHelloAck(a);
    assert s[2..4] == Be16(a.error) && s[4..8] == Be32(a.archiveId) && s[8..12] == Be32(|a.message|);
    Is16Within(s, 2, a.error);
    Is32Within(s, 4, a.archiveId);
    Is32Within(s, 8, |a.message|);
  }
}
