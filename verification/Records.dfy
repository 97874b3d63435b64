/** Records that are written field by field: the summaries of version-1/summary.c, and the
    greeting of version-1/protocol.c with its answer, which is not read as it is written. */
module Records {
  import opened Bytes
  import opened IosBuffer
  import opened Options

  const SUM_LENGTH: nat := 20
  const SUMMARY_SIZE: nat := 73

  /** A `DBSummary` without its key. */
  datatype Summary = Summary(
    version: Byte, fileId: U32, summaryTime: U32, modTime: U32, fileLength: U32, inodeNumber: U32,
    permissions: U32, fileSha1: seq<Byte>, blockListSha1: seq<Byte>, blockListLength: U32, blockListRemoteId: U32)

  predicate Storable(s: Summary) {
    |s.fileSha1| == SUM_LENGTH && |s.blockListSha1| == SUM_LENGTH
  }

  function Words(ws: seq<U32>): (s: seq<Byte>)
    ensures |s| == 4 * |ws|
  {
    if ws == [] then [] else Words(ws[..|ws| - 1]) + Be32(ws[|ws| - 1])
  }

  /** The numbers of a summary behind its version. */
  function Numbers(s: Summary): seq<U32> {
    [s.fileId, s.summaryTime, s.modTime, s.fileLength, s.inodeNumber, s.permissions]
  }

  function EncodeSummary(s: Summary): (r: seq<Byte>)
    requires Storable(s)
    ensures |r| == SUMMARY_SIZE
  {
    [s.version] + Words(Numbers(s)) + (s.fileSha1 + s.blockListSha1) + Words([s.blockListLength, s.blockListRemoteId])
  }

  function WordAt(s: seq<Byte>, i: nat): U32
    requires 4 * i + 4 <= |s|
  {
    Value32(s[4 * i..4 * i + 4])
  }

  function DecodeSummary(r: seq<Byte>): Summary
    requires |r| == SUMMARY_SIZE
  {
    var n, l := r[1..25], r[65..];
    Summary(r[0], WordAt(n, 0), WordAt(n, 1), WordAt(n, 2), WordAt(n, 3), WordAt(n, 4), WordAt(n, 5),
            r[25..45], r[45..65], WordAt(l, 0), WordAt(l, 1))
  }

  lemma {:induction false} WordsAt(ws: seq<U32>, i: nat)
    requires i < |ws|
    ensures WordAt(Words(ws), i) == ws[i]
  {
    hide Be32, Value32;
    var n := |ws| - 1;
    var front := Words(ws[..n]);
    if i == n {
      ValueOfBe(ws[n], 0);
      assert Words(ws)[4 * i..4 * i + 4] == Be32(ws[n]);
    } else {
      WordsAt(ws[..n], i);
      assert Words(ws)[4 * i..4 * i + 4] == front[4 * i..4 * i + 4];
    }
  }

  /** A summary is read back with every field. */
  lemma SummaryRoundTrip(s: Summary)
    requires Storable(s)
    ensures DecodeSummary(EncodeSummary(s)) == s
  {
    hide Words, WordAt;
    var r, ns, ls := EncodeSummary(s), Numbers(s), [s.blockListLength, s.blockListRemoteId];
    assert r[1..25] == Words(ns) && r[65..] == Words(ls);
    assert r[25..45] == s.fileSha1 && r[45..65] == s.blockListSha1;
    WordsAt(ns, 0);
    WordsAt(ns, 1);
    WordsAt(ns, 2);
    WordsAt(ns, 3);
    WordsAt(ns, 4);
    WordsAt(ns, 5);
    WordsAt(ls, 0);
    WordsAt(ls, 1);
  }

  lemma WordsNext(before: seq<Byte>, ws: seq<U32>, w: U32)
    ensures (before + Words(ws)) + Be32(w) == before + Words(ws + [w])
    ensures before + Words([]) == before
  {
    assert (ws + [w])[..|ws|] == ws;
  }

  /** So many `ios_append_int32` one after the other. */
  method AppendWords(ios: IosBuf, ws: seq<U32>)
    requires ios.Valid()
    modifies ios, ios.buf
    ensures ios.Valid() && (ios.buf == old(ios.buf) || fresh(ios.buf)) && (old(ios.readPtr) == 0 ==> ios.readPtr == 0)
    ensures ios.Contents() == old(ios.Contents()) + Words(ws)
  {
    hide Be32, Words;
    ghost var before := ios.Contents();
    var i := 0;
    WordsNext(before, [], 0);
    while i < |ws|
      invariant 0 <= i <= |ws| && ios.Valid() && (ios.buf == old(ios.buf) || fresh(ios.buf))
      invariant old(ios.readPtr) == 0 ==> ios.readPtr == 0
      invariant ios.Contents() == before + Words(ws[..i])
    {
      WordsNext(before, ws[..i], ws[i]);
      assert ws[..i] + [ws[i]] == ws[..i + 1];
      ios.AppendInt32(ws[i]);
      i := i + 1;
    }
    assert ws[..i] == ws;
  }

  /** `db_summary_to_stream`. */
  method SummaryToStream(ios: IosBuf, s: Summary)
    requires Storable(s) && ios.Valid()
    modifies ios, ios.buf
    ensures ios.Valid() && (ios.buf == old(ios.buf) || fresh(ios.buf)) && (old(ios.readPtr) == 0 ==> ios.readPtr == 0)
    ensures ios.Contents() == old(ios.Contents()) + EncodeSummary(s)
  {
    hide Words;
    ghost var before := ios.Contents();
    ios.Append([s.version]);
    AppendWords(ios, Numbers(s));
    ios.Append(s.fileSha1);
    ios.Append(s.blockListSha1);
    AppendWords(ios, [s.blockListLength, s.blockListRemoteId]);
    SummaryParts(before, s);
  }

  lemma SummaryParts(before: seq<Byte>, s: Summary)
    requires Storable(s)
    ensures before + [s.version] + Words(Numbers(s)) + s.fileSha1 + s.blockListSha1
            + Words([s.blockListLength, s.blockListRemoteId]) == before + EncodeSummary(s)
  {
  }

  lemma NextWordAt(s: seq<Byte>, i: nat)
    requires 4 * i + 4 <= |s|
    ensures Value32(s[4 * i..][..4]) == WordAt(s, i) && s[4 * i..][4..] == s[4 * (i + 1)..]
  {
    assert s[4 * i..][..4] == s[4 * i..4 * i + 4];
  }

  /** So many `ios_read_int32` one after the other. */
  method ReadWords(ios: IosBuf, n: nat) returns (ws: seq<U32>)
    requires ios.Valid() && |ios.Contents()| >= 4 * n
    modifies ios
    ensures ios.Valid() && ios.buf == old(ios.buf)
    ensures |ws| == n && forall i | 0 <= i < n :: ws[i] == WordAt(old(ios.Contents()), i)
    ensures ios.Contents() == old(ios.Contents())[4 * n..]
  {
    hide Value32, WordAt;
    ghost var s := ios.Contents();
    ws := [];
    while |ws| < n
      invariant |ws| <= n && ios.Valid() && ios.buf == old(ios.buf)
      invariant ios.Contents() == s[4 * |ws|..]
      invariant forall i | 0 <= i < |ws| :: ws[i] == WordAt(s, i)
    {
      NextWordAt(s, |ws|);
      var w := ios.ReadInt32();
      ws := ws + [w];
    }
  }

  /** `db_summary_from_stream`. */
  method SummaryFromStream(ios: IosBuf) returns (s: Summary)
    requires ios.Valid() && |ios.Contents()| >= SUMMARY_SIZE
    modifies ios
    ensures ios.Valid() && ios.buf == old(ios.buf)
    ensures s == DecodeSummary(old(ios.Contents())[..SUMMARY_SIZE])
    ensures ios.Contents() == old(ios.Contents())[SUMMARY_SIZE..]
  {
    hide WordAt, DecodeSummary;
    ghost var r := ios.Contents();
    Drops(r);
    var ok, version := ios.Read(1);
    var ns := ReadWords(ios, 6);
    assert ios.Contents() == r[25..];
    var fileSha1, blockListSha1 := ReadSums(ios);
    assert ios.Contents() == r[65..];
    var ls := ReadWords(ios, 2);
    s := Summary(version[0], ns[0], ns[1], ns[2], ns[3], ns[4], ns[5], fileSha1, blockListSha1, ls[0], ls[1]);
    SummaryIs(r, ns, ls);
  }

  /** Where the parts of a summary lie in a stream. */
  lemma Drops(r: seq<Byte>)
    requires |r| >= SUMMARY_SIZE
    ensures r[1..][24..] == r[25..] && r[25..][40..] == r[65..] && r[65..][8..] == r[SUMMARY_SIZE..]
    ensures r[25..][..20] == r[25..45] && r[25..][20..40] == r[45..65]
  {
    SubSlice(r, 25, |r|, 0, 20);
    SubSlice(r, 25, |r|, 20, 40);
    assert r[25..|r|] == r[25..] && r[25..][..20] == r[25..][0..20];
  }

  method ReadSums(ios: IosBuf) returns (first: seq<Byte>, second: seq<Byte>)
    requires ios.Valid() && |ios.Contents()| >= 40
    modifies ios
    ensures ios.Valid() && ios.buf == old(ios.buf)
    ensures first == old(ios.Contents())[..20] && second == old(ios.Contents())[20..40]
    ensures ios.Contents() == old(ios.Contents())[40..]
  {
    ghost var r := ios.Contents();
    var ok, bytes := ios.Read(SUM_LENGTH);
    var ok1, bytes1 := ios.Read(SUM_LENGTH);
    first, second := bytes, bytes1;
    assert r[20..][..20] == r[20..40] && r[20..][20..] == r[40..];
  }

  lemma SummaryIs(r: seq<Byte>, ns: seq<U32>, ls: seq<U32>)
    requires |r| >= SUMMARY_SIZE && |ns| == 6 && |ls| == 2
    requires forall i | 0 <= i < 6 :: ns[i] == WordAt(r[1..], i)
    requires forall i | 0 <= i < 2 :: ls[i] == WordAt(r[65..], i)
    ensures DecodeSummary(r[..SUMMARY_SIZE]) ==
      Summary(r[0], ns[0], ns[1], ns[2], ns[3], ns[4], ns[5], r[25..45], r[45..65], ls[0], ls[1])
  {
    hide WordAt;
    SummaryFields(r);
  }

  lemma SummaryFields(r: seq<Byte>)
    requires |r| >= SUMMARY_SIZE
    ensures
      var p := r[..SUMMARY_SIZE];
      && (forall i: nat | i < 6 :: WordAt(r[1..], i) == WordAt(p[1..25], i))
      && (forall i: nat | i < 2 :: WordAt(r[65..], i) == WordAt(p[65..], i))
      && p[0] == r[0] && p[25..45] == r[25..45] && p[45..65] == r[45..65] && r[65..][8..] == r[SUMMARY_SIZE..]
  {
    var p := r[..SUMMARY_SIZE];
    forall i: nat | i < 6 ensures WordAt(r[1..], i) == WordAt(p[1..25], i) {
      SameWord(r, p, 1, 25, i);
    }
    forall i: nat | i < 2 ensures WordAt(r[65..], i) == WordAt(p[65..], i) {
      SameWord(r, p, 65, SUMMARY_SIZE, i);
      assert p[65..SUMMARY_SIZE] == p[65..];
    }
  }

  lemma SameWord(r: seq<Byte>, p: seq<Byte>, from: nat, to: nat, i: nat)
    requires p <= r && from <= to <= |p| && 4 * i + 4 <= to - from
    ensures WordAt(r[from..], i) == WordAt(p[from..to], i)
  {
    var a, b := 4 * i, 4 * i + 4;
    SubSlice(p, from, to, a, b);
    SubSlice(r, from, |r|, a, b);
    assert r[from..|r|] == r[from..];
    assert p[from + a..from + b] == r[from + a..from + b];
  }

  // ---- the greeting ----

  /** Text without its terminator, as `ios_append_string` writes it. */
  predicate IsText(s: seq<Byte>) {
    |s| < TWO32 && 0 !in s
  }

  /** What `g_strndup` makes of bytes: they end before the first zero. */
  function UpToZero(s: seq<Byte>): (r: seq<Byte>)
    ensures r <= s
  {
    if s == [] || s[0] == 0 then [] else [s[0]] + UpToZero(s[1..])
  }

  lemma {:induction false} WholeText(s: seq<Byte>)
    requires 0 !in s
    ensures UpToZero(s) == s
  {
    if s != [] {
      WholeText(s[1..]);
    }
  }

  function EncodeText(s: seq<Byte>): seq<Byte>
    requires IsText(s)
  {
    Be32(|s|) + s
  }

  /** `ios_read_str`: NULL for length zero; failure where the bytes run out, as the read of
      them returns NULL. */
  function DecodeText(s: seq<Byte>): Option<Option<seq<Byte>>> {
    if |s| < 4 then None
    else
      var n := Value32(s[..4]);
      if n == 0 then Some(None)
      else if |s| < 4 + n then None
      else Some(Some(UpToZero(s[4..4 + n])))
  }

  lemma TextRoundTrip(s: seq<Byte>)
    requires IsText(s)
    ensures DecodeText(EncodeText(s)) == Some(if s == [] then None else Some(s))
  {
    hide Be32, Value32;
    ValueOfBe(|s|, 0);
    WholeText(s);
    var r := EncodeText(s);
    assert r[..4] == Be32(|s|) && r[4..4 + |s|] == s;
  }

  datatype Hello = Hello(version: Byte, archiveId: U32, archivePass: U32, create: Byte, message: seq<Byte>)

  function EncodeHello(h: Hello): seq<Byte>
    requires IsText(h.message)
  {
    [0, h.version] + Be32(h.archiveId) + Be32(h.archivePass) + [h.create] + EncodeText(h.message)
  }

  /** `receive_hello`; the message may come out as NULL. */
  function DecodeHello(s: seq<Byte>): Option<(Hello, bool)> {
    if |s| < 11 || s[0] != 0 then None
    else
      match DecodeText(s[11..])
      case None => None
      case Some(text) =>
        var message := if text.Some? then text.value else [];
        Some((Hello(s[1], Value32(s[2..6]), Value32(s[6..10]), s[10], message), text.Some?))
  }

  /** A greeting is read back; its message is there, and not NULL, exactly if it is not empty. */
  lemma HelloRoundTrip(h: Hello)
    requires IsText(h.message)
    ensures DecodeHello(EncodeHello(h)) == Some((h, h.message != []))
  {
    hide Be32, Value32, DecodeText, EncodeText;
    var s := EncodeHello(h);
    ValueOfBe(h.archiveId, 0);
    ValueOfBe(h.archivePass, 0);
    TextRoundTrip(h.message);
    assert s[2..6] == Be32(h.archiveId) && s[6..10] == Be32(h.archivePass) && s[10] == h.create;
    assert s[11..] == EncodeText(h.message);
  }

  datatype HelloAck = HelloAck(version: Byte, error: U16, archiveId: U32, message: seq<Byte>)

  function EncodeHelloAck(a: HelloAck): seq<Byte>
    requires IsText(a.message)
  {
    [1, a.version] + Be16(a.error) + Be32(a.archiveId) + EncodeText(a.message)
  }

  /** `receive_hello_ack`: the id is not read, so that it is taken for the length. */
  function ReadMessage(s: seq<Byte>): Option<Option<seq<Byte>>> {
    if |s| < 4 then None else DecodeText(s[4..])
  }

  /** The message of the answer is not read back as it was written: its length is read as
      part of it, and the id as its length.  So it comes out as NULL when the id is zero, and
      the read fails when the id is more than there is; otherwise the text is as many bytes,
      from the length on, as the id says, up to a zero.  Of a message below 2^24 bytes that
      is the empty text. */
  lemma HelloAckMisread(a: HelloAck)
    requires IsText(a.message)
    ensures ReadMessage(EncodeHelloAck(a)) ==
      if a.archiveId == 0 then Some(None)
      else if a.archiveId > 4 + |a.message| then None
      else Some(Some(UpToZero(EncodeText(a.message)[..a.archiveId])))
    ensures |a.message| < 0x100_0000 && 0 < a.archiveId <= 4 + |a.message| ==>
      UpToZero(EncodeText(a.message)[..a.archiveId]) == []
  {
    MisreadText(a);
    if |a.message| < 0x100_0000 && 0 < a.archiveId <= 4 + |a.message| {
      assert EncodeText(a.message)[..a.archiveId][0] == Be32(|a.message|)[0] == 0;
    }
  }

  lemma MisreadText(a: HelloAck)
    requires IsText(a.message)
    ensures ReadMessage(EncodeHelloAck(a)) ==
      if a.archiveId == 0 then Some(None)
      else if a.archiveId > 4 + |a.message| then None
      else Some(Some(UpToZero(EncodeText(a.message)[..a.archiveId])))
  {
    hide Be32, Be16, Value32, UpToZero;
    ValueOfBe(a.archiveId, 0);
    var text := EncodeText(a.message);
    var rest := EncodeHelloAck(a)[4..];
    assert rest == Be32(a.archiveId) + text && rest[..4] == Be32(a.archiveId);
    if 0 < a.archiveId <= |text| {
      assert rest[4..4 + a.archiveId] == text[..a.archiveId];
    }
  }
}
