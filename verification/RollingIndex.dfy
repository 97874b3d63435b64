/** Indexing a file by the weak checksum of each of its windows, `WCsum_make_hash` of
    version-1/checksum.c.  Two block buffers are swapped while the window moves on by one
    32-bit word at a time; four passes start at the offsets 0 to 3. */
module RollingIndex {
  import opened Bytes
  import opened HashTables
  import opened WeakChecksum

  ghost function WindowEntry(file: seq<Byte>, blockLen: nat, offset: nat): Entry
    requires blockLen % 4 == 0 && offset + blockLen <= |file| < TWO32
  {
    Entry(Weak(file[offset..offset + blockLen]), offset)
  }

  /** The entries of the windows at `offset`, `offset + 4` and so on. */
  ghost function Pass(file: seq<Byte>, blockLen: nat, offset: nat): seq<Entry>
    requires 0 < blockLen && blockLen % 4 == 0 && |file| < TWO32
    decreases |file| - offset
  {
    if offset + blockLen > |file| then []
    else [WindowEntry(file, blockLen, offset)] + Pass(file, blockLen, offset + 4)
  }

  /** Everything that the four passes insert, in order. */
  ghost function Index(file: seq<Byte>, blockLen: nat): seq<Entry>
    requires 0 < blockLen && blockLen % 4 == 0 && |file| < TWO32
  {
    Pass(file, blockLen, 0) + Pass(file, blockLen, 1) + Pass(file, blockLen, 2) + Pass(file, blockLen, 3)
  }

  lemma {:induction false} PassAt(file: seq<Byte>, blockLen: nat, offset: nat)
    requires 0 < blockLen && blockLen % 4 == 0 && |file| < TWO32
    ensures forall k: nat :: k < |Pass(file, blockLen, offset)| <==> offset + 4 * k + blockLen <= |file|
    ensures forall k: nat | k < |Pass(file, blockLen, offset)| ::
      Pass(file, blockLen, offset)[k] == WindowEntry(file, blockLen, offset + 4 * k)
    decreases |file| - offset
  {
    if offset + blockLen <= |file| {
      PassAt(file, blockLen, offset + 4);
      var rest := Pass(file, blockLen, offset + 4);
      forall k: nat
        ensures k < |[WindowEntry(file, blockLen, offset)] + rest| <==> offset + 4 * k + blockLen <= |file|
      {
        assert k > 0 ==> (k - 1 < |rest| <==> offset + 4 + 4 * (k - 1) + blockLen <= |file|);
      }
      forall k: nat | 0 < k < |rest| + 1
        ensures rest[k - 1] == WindowEntry(file, blockLen, offset + 4 * k)
      {
        assert offset + 4 + 4 * (k - 1) == offset + 4 * k;
      }
    }
  }

  ghost predicate HasOffset(log: seq<Entry>, o: nat) {
    exists i :: 0 <= i < |log| && log[i].value == o
  }

  /** The order in which the passes come by the windows. */
  ghost predicate Before(o: nat, p: nat) {
    o % 4 < p % 4 || (o % 4 == p % 4 && o < p)
  }

  /** The log has exactly the windows at the offsets of the first `passes` residues modulo
      4: one entry for each, in the order of the passes and holding the checksum of that
      window, and no other entry. */
  ghost predicate ExactFor(file: seq<Byte>, blockLen: nat, log: seq<Entry>, passes: nat)
    requires 0 < blockLen && blockLen % 4 == 0 && |file| < TWO32
  {
    && (forall o: nat | o % 4 < passes && o + blockLen <= |file| :: HasOffset(log, o))
    && (forall i, j | 0 <= i < j < |log| :: Before(log[i].value, log[j].value))
    && (forall e | e in log ::
          e.value % 4 < passes && e.value + blockLen <= |file| && e == WindowEntry(file, blockLen, e.value))
  }

  lemma PassExact(file: seq<Byte>, blockLen: nat, log: seq<Entry>, pass: nat)
    requires 0 < blockLen && blockLen % 4 == 0 && |file| < TWO32 && pass < 4
    requires ExactFor(file, blockLen, log, pass)
    ensures ExactFor(file, blockLen, log + Pass(file, blockLen, pass), pass + 1)
  {
    hide Pass, Weak;
    var added := Pass(file, blockLen, pass);
    var all := log + added;
    PassAt(file, blockLen, pass);
    forall o: nat | o % 4 < pass + 1 && o + blockLen <= |file| ensures HasOffset(all, o) {
      PassHas(file, blockLen, log, added, pass, o);
    }
    forall e | e in all
      ensures e.value % 4 < pass + 1 && e.value + blockLen <= |file| && e == WindowEntry(file, blockLen, e.value)
    {
      if e !in log {
        var k: nat :| k < |added| && added[k] == e;
        Residue(pass, k);
      }
    }
    PassInOrder(log, added, pass);
  }

  lemma PassHas(file: seq<Byte>, blockLen: nat, log: seq<Entry>, added: seq<Entry>, pass: nat, o: nat)
    requires o % 4 <= pass && o + blockLen <= |file|
    requires o % 4 < pass ==> HasOffset(log, o)
    requires forall k: nat :: k < |added| <==> pass + 4 * k + blockLen <= |file|
    requires forall k: nat | k < |added| :: added[k].value == pass + 4 * k
    ensures HasOffset(log + added, o)
  {
    var all := log + added;
    if o % 4 < pass {
      var i :| 0 <= i < |log| && log[i].value == o;
      assert all[i].value == o;
    } else {
      var k := o / 4;
      assert o == pass + 4 * k;
      assert all[|log| + k] == added[k];
    }
  }

  lemma PassInOrder(log: seq<Entry>, added: seq<Entry>, pass: nat)
    requires pass < 4
    requires forall i, j | 0 <= i < j < |log| :: Before(log[i].value, log[j].value)
    requires forall e | e in log :: e.value % 4 < pass
    requires forall k: nat | k < |added| :: added[k].value == pass + 4 * k
    ensures forall i, j | 0 <= i < j < |log + added| :: Before((log + added)[i].value, (log + added)[j].value)
  {
    var all := log + added;
    forall i, j | 0 <= i < j < |all| ensures Before(all[i].value, all[j].value) {
      if |log| <= i {
        assert all[i] == added[i - |log|] && all[j] == added[j - |log|];
        Residue(pass, i - |log|);
        Residue(pass, j - |log|);
      } else if |log| <= j {
        assert all[i] in log && all[j] == added[j - |log|];
        Residue(pass, j - |log|);
      }
    }
  }

  lemma Residue(pass: nat, k: nat)
    requires pass < 4
    ensures (pass + 4 * k) % 4 == pass
  {
  }

  /** Exactness: the index has one entry for each offset at which a whole window fits, that
      entry holds the checksum of that very window, and there is no other entry; the entries
      stand in the order of the passes. */
  lemma IndexExact(file: seq<Byte>, blockLen: nat)
    requires 0 < blockLen && blockLen % 4 == 0 && |file| < TWO32
    ensures ExactFor(file, blockLen, Index(file, blockLen), 4)
    ensures forall o: nat :: o + blockLen <= |file| <==> HasOffset(Index(file, blockLen), o)
  {
    var p0 := Pass(file, blockLen, 0);
    PassExact(file, blockLen, [], 0);
    assert [] + p0 == p0;
    PassExact(file, blockLen, p0, 1);
    PassExact(file, blockLen, p0 + Pass(file, blockLen, 1), 2);
    PassExact(file, blockLen, p0 + Pass(file, blockLen, 1) + Pass(file, blockLen, 2), 3);
    var index := Index(file, blockLen);
    forall o: nat | HasOffset(index, o) ensures o + blockLen <= |file| {
      var i :| 0 <= i < |index| && index[i].value == o;
      assert index[i] in index;
    }
  }

  /** The window at `offset` moves on by a word. */
  lemma Slide(file: seq<Byte>, blockLen: nat, offset: nat, old4: seq<Byte>, new4: seq<Byte>, csum: U32)
    requires 4 <= blockLen < 0x1_0000 && blockLen % 4 == 0 && offset + 4 + blockLen <= |file| < TWO32
    requires old4 == file[offset..offset + 4]
    requires new4 == file[offset + blockLen..offset + blockLen + 4]
    requires csum == Weak(file[offset..offset + blockLen])
    ensures WcsumUpdate(old4, new4, csum, blockLen) == Weak(file[offset + 4..offset + 4 + blockLen])
  {
    hide Weak, WcsumUpdate;
    var mid := file[offset + 4..offset + blockLen];
    assert |mid| == blockLen - 4;
    assert old4 + mid == file[offset..offset + blockLen];
    assert mid + new4 == file[offset + 4..offset + 4 + blockLen];
    RollingUpdate(old4, mid, new4);
  }

  /** WCsum_buffer_update: a buffer of the next bytes of the file, zeros past its end. */
  function BufferUpdate(file: seq<Byte>, pos: nat, len: nat): (b: seq<Byte>)
    ensures |b| == len
    ensures b[..|Slice(file, pos, len)|] == Slice(file, pos, len)
  {
    Slice(file, pos, len) + Zeros(len - |Slice(file, pos, len)|)
  }

  /** The two buffers around the window: the bytes up to `pos` have been read, the last
      `num` of them into `buf` and, once the window has left the first block, the block
      before them into `lastBuf`; the window ends `4 * words` bytes into `buf`. */
  ghost predicate Around(file: seq<Byte>, offset: nat, pos: nat, num: nat, words: nat,
                         buf: seq<Byte>, lastBuf: seq<Byte>)
  {
    && |buf| == |lastBuf|
    && 4 * words <= num <= |buf| && num <= pos <= |file|
    && offset + |buf| == pos - num + 4 * words
    && buf[..num] == file[pos - num..pos]
    && (num < |buf| ==> pos == |file|)
    && (4 * words < num ==> |buf| <= pos - num && lastBuf == file[pos - num - |buf|..pos - num])
  }

  lemma First(file: seq<Byte>, offset: nat, n: nat)
    requires n > 0 && |Slice(file, offset, 4 * n)| == 4 * n
    ensures
      var buf := BufferUpdate(file, offset, 4 * n);
      offset + 4 * n <= |file| && buf == file[offset..offset + 4 * n] &&
      Around(file, offset, offset + 4 * n, 4 * n, n, buf, Zeros(4 * n))
  {
    var buf := BufferUpdate(file, offset, 4 * n);
    assert buf[..4 * n] == buf;
  }

  /** The window has come to the end of what has been read.  After a short read it was the
      last one; otherwise the buffers are swapped, and `got` more bytes follow. */
  lemma Refill(file: seq<Byte>, offset: nat, pos: nat, num: nat, words: nat, n: nat,
               buf: seq<Byte>, lastBuf: seq<Byte>)
    requires n > 0 && |buf| == 4 * n && Around(file, offset, pos, num, words, buf, lastBuf) && 4 * words + 4 > num
    ensures num != |buf| ==> offset + 4 + |buf| > |file|
    ensures
      var got := |Slice(file, pos, |buf|)|;
      num == |buf| ==>
        if got < 4 then offset + 4 + |buf| > |file|
        else Around(file, offset, pos + got, got, 0, BufferUpdate(file, pos, |buf|), buf)
  {
    if num == |buf| {
      assert words == n && buf[..num] == buf;
    }
  }

  /** The next window lies across the two buffers. */
  lemma NextWord(file: seq<Byte>, offset: nat, pos: nat, num: nat, words: nat, n: nat,
                 buf: seq<Byte>, lastBuf: seq<Byte>, csum: U32)
    requires Around(file, offset, pos, num, words, buf, lastBuf) && 4 * words + 4 <= num
    requires |file| < TWO32 && |buf| == 4 * n && 0 < n < 0x4000
    requires csum == Weak(file[offset..offset + |buf|])
    ensures 4 * words + 4 <= |buf| == |lastBuf|
    ensures offset + 4 + |buf| <= |file| && Around(file, offset + 4, pos, num, words + 1, buf, lastBuf)
    ensures
      var i := 4 * words;
      WcsumUpdate(lastBuf[i..i + 4], buf[i..i + 4], csum, |buf|) == Weak(file[offset + 4..offset + 4 + |buf|])
  {
    hide Weak, WcsumUpdate;
    var i := 4 * words;
    var base: nat := pos - num;
    SubSlice(file, base - |buf|, base, i, i + 4);
    SubSlice(file, base, pos, i, i + 4);
    SubSlice(buf, 0, num, i, i + 4);
    Slide(file, |buf|, offset, lastBuf[i..i + 4], buf[i..i + 4], csum);
  }

  lemma PassStep(file: seq<Byte>, blockLen: nat, offset: nat, log: seq<Entry>)
    requires 0 < blockLen && blockLen % 4 == 0 && |file| < TWO32
    ensures offset + blockLen > |file| ==> log + Pass(file, blockLen, offset) == log
    ensures offset + blockLen <= |file| ==>
      log + Pass(file, blockLen, offset) ==
      log + [WindowEntry(file, blockLen, offset)] + Pass(file, blockLen, offset + 4)
    ensures offset + 4 + blockLen > |file| ==> Pass(file, blockLen, offset + 4) == []
  {
  }

  /** One pass.  Inserts nothing, and needs no pool, when even the first window is short. */
  method MakeHashSub(file: seq<Byte>, blockLen: U16, initOffset: U16, table: HashTable)
    requires table.Valid() && table.buckets != null && |file| < TWO32
    requires initOffset + blockLen <= |file| ==> table.pool
    requires blockLen >= 4 && blockLen % 4 == 0
    modifies table, table.buckets
    ensures table.Valid() && table.buckets == old(table.buckets) && table.pool == old(table.pool)
    ensures table.log == old(table.log) + Pass(file, blockLen, initOffset)
  {
    hide Weak, WcsumUpdate, BufferUpdate, Around, Pass, HashTable.Valid;
    var offset: nat := initOffset;
    var buf, lastBuf := BufferUpdate(file, offset, blockLen), Zeros(blockLen);
    var num: nat := |Slice(file, offset, blockLen)|;
    var pos: nat := offset + num;  // the file position
    if num < blockLen {
      PassStep(file, blockLen, offset, table.log);
      return;
    }
    ghost var n := blockLen / 4;
    First(file, offset, n);
    var csum := WcsumGet(buf, blockLen);
    assert buf[..blockLen] == buf;
    var words: nat := blockLen / 4;
    ghost var target := table.log + Pass(file, blockLen, offset);
    while true
      invariant table.Valid() && table.buckets == old(table.buckets) && table.pool == old(table.pool)
      invariant |buf| == |lastBuf| == blockLen == 4 * n && offset + blockLen <= |file|
      invariant Around(file, offset, pos, num, words, buf, lastBuf)
      invariant csum == Weak(file[offset..offset + blockLen])
      invariant table.log + Pass(file, blockLen, offset) == target
      decreases |file| - offset
    {
      PassStep(file, blockLen, offset, table.log);
      table.HashInsert(csum, offset);
      if 4 * words + 4 > num {
        Refill(file, offset, pos, num, words, n, buf, lastBuf);
        if num != blockLen {
          return;
        }
        buf, lastBuf := BufferUpdate(file, pos, blockLen), buf;
        num := |Slice(file, pos, blockLen)|;
        if num < 4 {
          return;
        }
        pos := pos + num;
        words := 0;
      }
      NextWord(file, offset, pos, num, words, n, buf, lastBuf, csum);
      csum := WcsumUpdate(lastBuf[4 * words..4 * words + 4], buf[4 * words..4 * words + 4], csum, blockLen);
      words := words + 1;
      offset := offset + 4;
    }
  }

  /** `WCsum_make_hash`.  A table that exists already is lost together with its pool, which is
      missed as soon as there is a window to insert. */
  method MakeHash(file: seq<Byte>, blockLen: U16, table: HashTable)
    requires table.Valid() && |file| < TWO32
    requires table.buckets == null || |file| < blockLen
    requires blockLen >= 4 && blockLen % 4 == 0
    modifies table
    ensures table.Valid() && fresh(table.buckets) && table.buckets != null
    ensures table.pool <==> old(table.buckets) == null
    ensures table.log == Index(file, blockLen)
  {
    hide Bucket, UsedBuckets, Pass;
    table.HashCreate();
    MakeHashSub(file, blockLen, 0, table);
    MakeHashSub(file, blockLen, 1, table);
    MakeHashSub(file, blockLen, 2, table);
    MakeHashSub(file, blockLen, 3, table);
  }
}
