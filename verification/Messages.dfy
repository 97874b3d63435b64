/** What is written to the wire and to the block store: the messages of
    version-1/protocol.c, the block lists of version-1/requests.c and version-1/block.c,
    and the server's records of version-1/remote.c. */
module Messages {
  import opened Bytes
  import opened Blocks
  import opened Framing
  import opened IosBuffer
  import opened Options

  const BLOCK_SIZE: nat := 39

  datatype Message =
    | Bye(version: Byte, error: U16)
    | PutBlock(fileId: U32, blockId: U32, payload: seq<Byte>)
    | PutAck(fileId: U32, blockId: U32, archiveId: U32)
    | GetBlock(fileId: U32, blockId: U32, archiveId: U32)
    | GetAck(fileId: U32, blockId: U32, payload: seq<Byte>)

  /** Short enough for its length to be sent, and for the frame's. */
  predicate Sendable(m: Message) {
    (m.PutBlock? || m.GetAck?) ==> |m.payload| + 13 < TWO32
  }

  function Encode(m: Message): (packet: Packet)
    requires Sendable(m)
    ensures WellFormed(packet) && Known(packet)
  {
    match m
    case Bye(v, e) => [2, v] + Be16(e)
    case PutBlock(f, b, p) => [3] + Be32(f) + Be32(b) + Be32(|p|) + p
    case PutAck(f, b, a) => [4] + Be32(f) + Be32(b) + Be32(a)
    case GetBlock(f, b, a) => [5] + Be32(f) + Be32(b) + Be32(a)
    case GetAck(f, b, p) => [6] + Be32(f) + Be32(b) + Be32(|p|) + p
  }

  /** The `receive_` functions; nothing where a read runs past the end of the packet. */
  function Decode(packet: Packet): Option<Message> {
    if packet == [] then None
    else if packet[0] == 2 then
      if |packet| < 4 then None else Some(Bye(packet[1], Value16(packet[2..4])))
    else if !(3 <= packet[0] <= 6) || |packet| < 13 then None
    else
      var f, b, n := Value32(packet[1..5]), Value32(packet[5..9]), Value32(packet[9..13]);
      if packet[0] == 4 then Some(PutAck(f, b, n))
      else if packet[0] == 5 then Some(GetBlock(f, b, n))
      else if |packet| < 13 + n then None
      else if packet[0] == 3 then Some(PutBlock(f, b, packet[13..13 + n]))
      else Some(GetAck(f, b, packet[13..13 + n]))
  }

  lemma ThreeWords(c: Byte, f: U32, b: U32, n: U32, rest: seq<Byte>)
    ensures
      var packet := [c] + Be32(f) + Be32(b) + Be32(n) + rest;
      && packet[0] == c && |packet| == 13 + |rest| && packet[13..] == rest
      && Value32(packet[1..5]) == f && Value32(packet[5..9]) == b && Value32(packet[9..13]) == n
  {
    hide Be32, Value32;
    var packet := [c] + Be32(f) + Be32(b) + Be32(n) + rest;
    assert packet[1..5] == Be32(f) && packet[5..9] == Be32(b) && packet[9..13] == Be32(n);
    ValueOfBe(f, 0);
    ValueOfBe(b, 0);
    ValueOfBe(n, 0);
  }

  /** A message is received as it was sent. */
  lemma MessageRoundTrip(m: Message)
    requires Sendable(m)
    ensures Decode(Encode(m)) == Some(m)
  {
    hide Be32, Value32, Be16, Value16;
    match m {
      case Bye(v, e) =>
        var packet := [2, v] + Be16(e);
        assert packet[2..4] == Be16(e);
        ValueOfBe(0, e);
      case PutBlock(f, b, p) =>
        ThreeWords(3, f, b, |p|, p);
        assert Encode(m)[13..13 + |p|] == Encode(m)[13..];
      case PutAck(f, b, a) =>
        ThreeWords(4, f, b, a, []);
        assert Encode(m) + [] == Encode(m);
      case GetBlock(f, b, a) =>
        ThreeWords(5, f, b, a, []);
        assert Encode(m) + [] == Encode(m);
      case GetAck(f, b, p) =>
        ThreeWords(6, f, b, |p|, p);
        assert Encode(m)[13..13 + |p|] == Encode(m)[13..];
    }
  }

  /** The fields of a block that its entry in a stored list keeps. */
  function Persistent(b: Block): Block {
    b.(inCover := false)
  }

  function PersistentAll(bs: seq<Block>): (r: seq<Block>)
    ensures |r| == |bs|
  {
    seq(|bs|, i requires 0 <= i < |bs| => Persistent(bs[i]))
  }

  predicate Storable(b: Block) {
    |b.strong| == STRONG_LENGTH
  }

  ghost predicate AllStorable(bs: seq<Block>) {
    forall b :: b in bs ==> Storable(b)
  }

  function EncodeBlock(b: Block): (s: seq<Byte>)
    requires Storable(b)
    ensures |s| == BLOCK_SIZE
  {
    Be32(b.localId) + [b.version] + Be32(b.remoteId) + Be32(b.offset) + Be16(b.length) + Be32(b.weak) + b.strong
  }

  function DecodeBlock(s: seq<Byte>): Block
    requires |s| == BLOCK_SIZE
  {
    Block(Value32(s[0..4]), s[4], Value32(s[9..13]), Value16(s[13..15]), Value32(s[15..19]), s[19..39],
          Value32(s[5..9]), false)
  }

  /** The fields of an entry lie at fixed places. */
  lemma FieldsOf(id: seq<Byte>, version: Byte, remote: seq<Byte>, offset: seq<Byte>, length: seq<Byte>,
                 weak: seq<Byte>, strong: seq<Byte>)
    requires |id| == |remote| == |offset| == |weak| == 4 && |length| == 2 && |strong| == STRONG_LENGTH
    ensures
      var s := id + [version] + remote + offset + length + weak + strong;
      && |s| == BLOCK_SIZE && s[0..4] == id && s[4] == version && s[5..9] == remote && s[9..13] == offset
      && s[13..15] == length && s[15..19] == weak && s[19..39] == strong
  {
    var a := id + [version];
    var b := a + remote;
    var c := b + offset;
    var d := c + length;
    var e := d + weak;
    var s := e + strong;
    assert s[..19] == e && e[..15] == d && d[..13] == c && c[..9] == b && b[..5] == a;
    assert s[0..4] == a[..4] == id;
    assert s[5..9] == b[5..9] == remote;
    assert s[9..13] == c[9..13] == offset;
    assert s[13..15] == d[13..15] == length;
    assert s[15..19] == e[15..19] == weak;
    assert s[19..39] == strong;
  }

  lemma BlockRoundTrip(b: Block)
    requires Storable(b)
    ensures DecodeBlock(EncodeBlock(b)) == Persistent(b)
  {
    hide Be32, Value32, Be16, Value16;
    FieldsOf(Be32(b.localId), b.version, Be32(b.remoteId), Be32(b.offset), Be16(b.length), Be32(b.weak), b.strong);
    ValueOfBe(b.localId, b.length);
    ValueOfBe(b.remoteId, 0);
    ValueOfBe(b.offset, 0);
    ValueOfBe(b.weak, 0);
  }

  ghost function EncodeBlocks(bs: seq<Block>): (s: seq<Byte>)
    requires AllStorable(bs)
    ensures |s| == BLOCK_SIZE * |bs|
  {
    if bs == [] then [] else EncodeBlock(bs[0]) + EncodeBlocks(bs[1..])
  }

  function DecodeBlocks(n: nat, s: seq<Byte>): (bs: seq<Block>)
    requires |s| >= BLOCK_SIZE * n
    ensures |bs| == n
  {
    if n == 0 then [] else [DecodeBlock(s[..BLOCK_SIZE])] + DecodeBlocks(n - 1, s[BLOCK_SIZE..])
  }

  /** A list as it is stored: the number of entries, then the entries. */
  ghost function EncodeList(bs: seq<Block>): (s: seq<Byte>)
    requires AllStorable(bs) && |bs| < TWO32
    ensures |s| == 4 + BLOCK_SIZE * |bs|
  {
    Be32(|bs|) + EncodeBlocks(bs)
  }

  function DecodeList(s: seq<Byte>): Option<seq<Block>> {
    if |s| < 4 || |s| < 4 + BLOCK_SIZE * Value32(s[..4]) then None
    else Some(DecodeBlocks(Value32(s[..4]), s[4..]))
  }

  lemma {:induction false} BlocksRoundTrip(bs: seq<Block>)
    requires AllStorable(bs)
    ensures DecodeBlocks(|bs|, EncodeBlocks(bs)) == PersistentAll(bs)
  {
    hide EncodeBlock, DecodeBlock, Persistent;
    if bs != [] {
      var s := EncodeBlocks(bs);
      assert bs[0] in bs;
      BlockRoundTrip(bs[0]);
      assert s[..BLOCK_SIZE] == EncodeBlock(bs[0]) && s[BLOCK_SIZE..] == EncodeBlocks(bs[1..]);
      BlocksRoundTrip(bs[1..]);
      assert PersistentAll(bs) == [Persistent(bs[0])] + PersistentAll(bs[1..]);
    }
  }

  /** A stored list is read back with every field that is kept. */
  lemma ListRoundTrip(bs: seq<Block>)
    requires AllStorable(bs) && |bs| < TWO32
    ensures DecodeList(EncodeList(bs)) == Some(PersistentAll(bs))
  {
    hide Be32, Value32, EncodeBlocks, DecodeBlocks;
    var s := EncodeList(bs);
    ValueOfBe(|bs|, 0);
    assert s[..4] == Be32(|bs|) && s[4..] == EncodeBlocks(bs);
    BlocksRoundTrip(bs);
  }

  /** A record of the server's store: version, 16-bit length, data. */
  function Record(payload: seq<Byte>): seq<Byte> {
    [0] + Be16(Low16(|payload|)) + payload
  }

  /** What a record is read back as. */
  function Fetched(record: seq<Byte>): seq<Byte>
    requires |record| >= 3 && |record| >= 3 + Value16(record[1..3])
  {
    record[3..3 + Value16(record[1..3])]
  }

  /** The length is kept in 16 bits: exactly payloads below 65536 bytes come back whole, of
      longer ones a beginning. */
  lemma RecordExact(payload: seq<Byte>)
    ensures var r := Record(payload);
      |r| >= 3 && |r| >= 3 + Value16(r[1..3]) && Fetched(r) == payload[..Low16(|payload|)] &&
      (Fetched(r) == payload <==> |payload| < TWO16)
  {
    hide Be16, Value16;
    var r, n := Record(payload), Low16(|payload|);
    ValueOfBe(0, n);
    assert r[1..3] == Be16(n) && r[3..] == payload;
    assert r[3..3 + n] == payload[..n];
  }

  /** `block_list_to_stream`. */
  method BlockListToStream(blocks: seq<Block>) returns (ios: IosBuf)
    requires AllStorable(blocks) && |blocks| < TWO32
    ensures fresh(ios) && ios.Valid() && ios.readPtr == 0
    ensures ios.Contents() == EncodeList(blocks)
  {
    hide Be32, Be16, EncodeBlock;
    ios := new IosBuf();
    ios.AppendInt32(|blocks|);
    var i := 0;
    assert blocks[0..] == blocks;
    while i < |blocks|
      invariant 0 <= i <= |blocks| && fresh(ios) && fresh(ios.buf) && ios.Valid() && ios.readPtr == 0
      invariant ios.Contents() + EncodeBlocks(blocks[i..]) == EncodeList(blocks)
    {
      assert blocks[i] in blocks && blocks[i..][1..] == blocks[i + 1..];
      ghost var before := ios.Contents();
      BlockToStream(blocks[i], ios);
      assert before + (EncodeBlock(blocks[i]) + EncodeBlocks(blocks[i + 1..]))
          == before + EncodeBlock(blocks[i]) + EncodeBlocks(blocks[i + 1..]);
      i := i + 1;
    }
    assert blocks[i..] == [];
  }

  /** The id and `db_block_to_stream_no_data`. */
  method BlockToStream(b: Block, ios: IosBuf)
    requires Storable(b) && ios.Valid()
    modifies ios, ios.buf
    ensures ios.Valid() && (ios.buf == old(ios.buf) || fresh(ios.buf)) && (old(ios.readPtr) == 0 ==> ios.readPtr == 0)
    ensures ios.Contents() == old(ios.Contents()) + EncodeBlock(b)
  {
    hide Be32, Be16, EncodeBlock;
    EncodeParts(ios.Contents(), b);
    IdsToStream(b, ios);
    ios.AppendInt32(b.offset);
    ios.AppendInt16(b.length);
    SumsToStream(b, ios);
  }

  lemma EncodeParts(before: seq<Byte>, b: Block)
    requires Storable(b)
    ensures before + (Be32(b.localId) + [b.version] + Be32(b.remoteId)) + Be32(b.offset) + Be16(b.length)
            + (Be32(b.weak) + b.strong) == before + EncodeBlock(b)
  {
  }

  method IdsToStream(b: Block, ios: IosBuf)
    requires ios.Valid()
    modifies ios, ios.buf
    ensures ios.Valid() && (ios.buf == old(ios.buf) || fresh(ios.buf)) && (old(ios.readPtr) == 0 ==> ios.readPtr == 0)
    ensures ios.Contents() == old(ios.Contents()) + (Be32(b.localId) + [b.version] + Be32(b.remoteId))
  {
    hide Be32;
    ghost var before := ios.Contents();
    ios.AppendInt32(b.localId);
    ios.Append([b.version]);
    ios.AppendInt32(b.remoteId);
    assert ios.Contents() == before + (Be32(b.localId) + [b.version] + Be32(b.remoteId));
  }

  method SumsToStream(b: Block, ios: IosBuf)
    requires ios.Valid()
    modifies ios, ios.buf
    ensures ios.Valid() && (ios.buf == old(ios.buf) || fresh(ios.buf)) && (old(ios.readPtr) == 0 ==> ios.readPtr == 0)
    ensures ios.Contents() == old(ios.Contents()) + (Be32(b.weak) + b.strong)
  {
    hide Be32;
    ghost var before := ios.Contents();
    ios.AppendInt32(b.weak);
    ios.Append(b.strong);
    assert ios.Contents() == before + (Be32(b.weak) + b.strong);
  }

  /** `db_block_from_stream_no_data`, with the id before it. */
  method BlockFromStream(ios: IosBuf) returns (b: Block)
    requires ios.Valid() && |ios.Contents()| >= BLOCK_SIZE
    modifies ios
    ensures ios.Valid() && ios.buf == old(ios.buf)
    ensures b == DecodeBlock(old(ios.Contents())[..BLOCK_SIZE])
    ensures ios.Contents() == old(ios.Contents())[BLOCK_SIZE..]
  {
    hide Value32, Value16;
    ghost var s := ios.Contents();
    var id, version, remoteId := IdsFromStream(ios);
    var offset := ios.ReadInt32();
    var length := ios.ReadInt16();
    assert ios.Contents() == s[15..];
    var weak := ios.ReadInt32();
    var ok, strong := ios.Read(20);
    b := Block(id, version, offset, length, weak, strong, remoteId, false);
    Fields(s);
  }

  method IdsFromStream(ios: IosBuf) returns (id: U32, version: Byte, remoteId: U32)
    requires ios.Valid() && |ios.Contents()| >= 9
    modifies ios
    ensures ios.Valid() && ios.buf == old(ios.buf)
    ensures id == Value32(old(ios.Contents())[0..4]) && version == old(ios.Contents())[4]
    ensures remoteId == Value32(old(ios.Contents())[5..9]) && ios.Contents() == old(ios.Contents())[9..]
  {
    hide Value32;
    ghost var s := ios.Contents();
    id := ios.ReadInt32();
    var ok, bytes := ios.Read(1);
    version := bytes[0];
    assert ios.Contents() == s[5..] && s[5..][..4] == s[5..9];
    remoteId := ios.ReadInt32();
  }

  /** Where in a stream the fields of its first block are. */
  lemma Fields(s: seq<Byte>)
    requires |s| >= BLOCK_SIZE
    ensures
      var r := s[..BLOCK_SIZE];
      && r[0..4] == s[0..4] && r[4] == s[4] && r[5..9] == s[5..9]
      && r[9..13] == s[9..][..4] && r[13..15] == s[9..][4..][..2]
      && r[15..19] == s[15..][..4] && r[19..39] == s[15..][4..][..20]
      && s[15..][4..][20..] == s[BLOCK_SIZE..]
  {
  }

  /** `block_list_from_stream`. */
  method BlockListFromStream(ios: IosBuf) returns (blocks: seq<Block>)
    requires ios.Valid() && DecodeList(ios.Contents()).Some?
    modifies ios
    ensures Some(blocks) == DecodeList(old(ios.Contents()))
  {
    hide DecodeBlock, DecodeBlocks, Value32;
    ghost var all := DecodeList(ios.Contents()).value;
    var len := ios.ReadInt32();
    blocks := [];
    var i := 0;
    while i < len
      invariant 0 <= i <= len && ios.Valid()
      invariant |ios.Contents()| >= BLOCK_SIZE * (len - i)
      invariant blocks + DecodeBlocks(len - i, ios.Contents()) == all
    {
      ghost var s := ios.Contents();
      NextBlock(len - i, s, blocks);
      var dbb := BlockFromStream(ios);
      blocks := blocks + [dbb];
      i := i + 1;
    }
    assert blocks + DecodeBlocks(0, ios.Contents()) == blocks;
  }

  lemma NextBlock(n: nat, s: seq<Byte>, done: seq<Block>)
    requires n > 0 && |s| >= BLOCK_SIZE * n
    ensures |s| - BLOCK_SIZE >= BLOCK_SIZE * (n - 1)
    ensures done + DecodeBlocks(n, s)
         == (done + [DecodeBlock(s[..BLOCK_SIZE])]) + DecodeBlocks(n - 1, s[BLOCK_SIZE..])
  {
    hide DecodeBlock;
  }
}
