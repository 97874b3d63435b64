/** Writing with holes for runs of zeros: `write_sparse`, `write_file` and `sparse_end` of
    version-1/fileio.c. */
module SparseWriter {
  import opened Bytes
  import opened Restore

  const SPARSE_WRITE_SIZE: nat := 1024

  /** A file being written, and the position of its descriptor. */
  class OutFile {
    var content: seq<Byte>
    var pos: nat

    constructor ()
      ensures content == [] && pos == 0
    {
      content, pos := [], 0;
    }

    /** What is written so far, a hole at the end included. */
    ghost function Logical(): seq<Byte>
      requires |content| <= pos
      reads this
    {
      UpTo(content, pos)
    }

    /** A seek before the beginning fails and leaves the position alone. */
    method Lseek(delta: int)
      modifies `pos
      ensures pos == if old(pos) + delta >= 0 then old(pos) + delta else old(pos)
    {
      if pos + delta >= 0 {
        pos := pos + delta;
      }
    }

    /** Any beginning of the data may be written, or nothing, with or without an error. */
    method Write(data: seq<Byte>) returns (n: int)
      modifies this
      ensures -1 <= n <= |data|
      ensures n <= 0 ==> content == old(content) && pos == old(pos)
      ensures n > 0 ==> pos == old(pos) + n && content == WriteAt(old(content), Restore.Write(old(pos), data[..n]))
    {
      n :| -1 <= n <= |data|;
      if n > 0 {
        content, pos := WriteAt(content, Restore.Write(pos, data[..n])), pos + n;
      }
    }
  }

  predicate AllZero(s: seq<Byte>) {
    forall k :: 0 <= k < |s| ==> s[k] == 0
  }

  /** What a file has up to a position at or behind its end, a hole included. */
  function UpTo(content: seq<Byte>, pos: nat): (s: seq<Byte>)
    requires |content| <= pos
    ensures |s| == pos
  {
    content + Zeros(pos - |content|)
  }

  lemma Appended(content: seq<Byte>, pos: nat, data: seq<Byte>)
    requires |content| <= pos && data != []
    ensures
      var content' := WriteAt(content, Restore.Write(pos, data));
      content' == UpTo(content, pos) + data && UpTo(content', pos + |data|) == content'
  {
    assert content[..|content|] == content;
  }

  lemma Skipped(content: seq<Byte>, pos: nat, zeros: seq<Byte>)
    requires |content| <= pos && AllZero(zeros)
    ensures UpTo(content, pos + |zeros|) == UpTo(content, pos) + zeros
  {
  }

  /** The runs of zeros at the beginning and at the end, found by two loops: the longest ones,
      of which that at the end is empty when the other is the whole buffer. */
  method ZeroRuns(buf: seq<Byte>) returns (l1: nat, l2: nat)
    ensures l1 + l2 <= |buf| && AllZero(buf[..l1]) && AllZero(buf[|buf| - l2..])
    ensures l1 < |buf| ==> l1 + l2 < |buf| && buf[l1] != 0 && buf[|buf| - l2 - 1] != 0
  {
    var len := |buf|;
    l1 := 0;
    while l1 < len && buf[l1] == 0
      invariant l1 <= len && AllZero(buf[..l1])
    {
      l1 := l1 + 1;
    }
    l2 := 0;
    while l2 < len - l1 && buf[len - (l2 + 1)] == 0
      invariant l1 + l2 <= len && AllZero(buf[len - l2..])
      invariant l1 < len ==> l1 + l2 < len
    {
      l2 := l2 + 1;
    }
  }

  /** What the runs tell of the buffer. */
  lemma RunsTell(buf: seq<Byte>, l1: nat, l2: nat)
    requires buf != [] && l1 + l2 <= |buf| && AllZero(buf[..l1]) && AllZero(buf[|buf| - l2..])
    requires l1 < |buf| ==> l1 + l2 < |buf| && buf[l1] != 0 && buf[|buf| - l2 - 1] != 0
    ensures AllZero(buf) <==> l1 == |buf|
    ensures buf[|buf| - 1] == 0 <==> l1 == |buf| || l2 > 0
  {
    if l1 == |buf| {
      assert buf[..l1] == buf;
    }
    if l2 > 0 {
      assert buf[|buf| - l2..][l2 - 1] == buf[|buf| - 1];
    }
  }

  lemma NoZeros(buf: seq<Byte>, n: nat)
    requires n <= |buf|
    ensures AllZero(buf[n..n]) && buf[..|buf|] == buf
  {
  }

  lemma PartOf(written: seq<Byte>, buf: seq<Byte>, at: nat, len1: nat, n: nat, more: nat)
    requires at + len1 <= |buf| && n <= more <= len1 && AllZero(buf[at..at + len1][n..more])
    ensures AllZero(buf[at + n..at + more])
    ensures (written + buf[..at]) + buf[at..at + len1][..more] == written + buf[..at + more]
  {
    var part := buf[at..at + len1];
    SubSlice(buf, at, at + len1, n, more);
    assert buf[..at] + part[..more] == buf[..at + more];
    assert (written + buf[..at]) + part[..more] == written + (buf[..at] + part[..more]);
  }

  /** A write behind the leading zeros, as far as it went. */
  lemma Written(content: seq<Byte>, pos: nat, before: seq<Byte>, buf: seq<Byte>, l1: nat, l2: nat, ret: nat)
    requires |content| <= pos && l1 + l2 <= |buf| && 0 < ret <= |buf| - l1 - l2
    requires UpTo(content, pos) == before + buf[..l1]
    ensures
      var data := buf[l1..|buf| - l2][..ret];
      var content' := WriteAt(content, Restore.Write(pos, data));
      && |content'| == pos + ret && UpTo(content', pos + ret) == before + buf[..l1 + ret]
      && content'[|content'| - 1] == buf[l1 + ret - 1]
  {
    hide UpTo, WriteAt;
    var data := buf[l1..|buf| - l2][..ret];
    Appended(content, pos, data);
    assert buf[..l1] + data == buf[..l1 + ret];
    assert (before + buf[..l1]) + data == before + (buf[..l1] + data);
  }

  /** The trailing zeros stay a hole. */
  lemma AllWritten(content: seq<Byte>, pos: nat, before: seq<Byte>, buf: seq<Byte>, l2: nat)
    requires |content| == pos && l2 <= |buf| && AllZero(buf[|buf| - l2..])
    requires UpTo(content, pos) == before + buf[..|buf| - l2]
    ensures UpTo(content, pos + l2) == before + buf
  {
    Skipped(content, pos, buf[|buf| - l2..]);
    hide UpTo;
    assert buf[..|buf| - l2] + buf[|buf| - l2..] == buf;
    assert (before + buf[..|buf| - l2]) + buf[|buf| - l2..] == before + (buf[..|buf| - l2] + buf[|buf| - l2..]);
  }

  /** The static variables of version-1/fileio.c: they outlive the file. */
  class Sparse {
    var lastByte: Byte
    var lastSparse: bool

    constructor ()
      ensures lastByte == 0 && !lastSparse
    {
      lastByte, lastSparse := 0, false;
    }

    /** The file holds, or will hold, exactly what was written. */
    ghost predicate Faithful(f: OutFile, written: seq<Byte>)
      reads this, f
    {
      && |f.content| <= f.pos && f.Logical() == written
      && (|f.content| < f.pos ==> lastSparse)
      && (written != [] ==> lastByte == written[|written| - 1])
    }

    /** Any buffer is written as far as the result says; after a failure the position may be
        further on, over zeros of the buffer. */
    method WriteSparse(f: OutFile, buf: seq<Byte>) returns (r: int, ghost reached: nat)
      requires buf != [] && |f.content| <= f.pos
      modifies this, f
      ensures r <= |buf| && Max(r, 0) <= reached <= |buf|
      ensures (r > 0 ==> reached == r) && AllZero(buf[Max(r, 0)..reached])
      ensures |f.content| <= f.pos && f.Logical() == old(f.Logical()) + buf[..reached]
      ensures lastByte == buf[|buf| - 1] && (lastSparse <==> old(lastSparse) || buf[|buf| - 1] == 0)
      ensures r == |buf| && |f.content| < f.pos ==> lastSparse
      ensures AllZero(buf) ==> r == |buf| && f.content == old(f.content)
      ensures r == |buf| && !AllZero(buf) ==>
        && old(f.pos) < |f.content| <= f.pos && AllZero(buf[|f.content| - old(f.pos)..])
        && f.content[|f.content| - 1] != 0
    {
      hide UpTo, WriteAt, AllZero;
      var len := |buf|;
      ghost var before := f.Logical();
      var l1, l2 := ZeroRuns(buf);
      RunsTell(buf, l1, l2);
      lastByte := buf[len - 1];
      if l1 == len || l2 > 0 {
        lastSparse := true;
      }
      Skipped(f.content, f.pos, buf[..l1]);
      NoZeros(buf, l1);
      if l1 > 0 {
        f.Lseek(l1);
      }
      if l1 == len {
        return len, len;
      }
      ghost var content, pos := f.content, f.pos;
      var ret := f.Write(buf[l1..len - l2]);
      if ret == -1 || ret == 0 {
        return ret, l1;
      }
      Written(content, pos, before, buf, l1, l2, ret);
      NoZeros(buf, l1 + ret);
      if ret != len - (l1 + l2) {
        return l1 + ret, l1 + ret;
      }
      AllWritten(f.content, f.pos, before, buf, l2);
      if l2 > 0 {
        f.Lseek(l2);
      }
      NoZeros(buf, len);
      return len, len;
    }

    /** A call that says it has written the whole buffer has, whatever the partial writes; one
        that says less has written a beginning at least that long, and if longer, by zeros. */
    method WriteFile(f: OutFile, buf: seq<Byte>, ghost written: seq<Byte>) returns (ret: int, ghost reached: nat)
      requires Faithful(f, written)
      modifies this, f
      ensures Max(ret, 0) <= reached <= |buf| && AllZero(buf[Max(ret, 0)..reached])
      ensures |f.content| <= f.pos && f.Logical() == written + buf[..reached]
      ensures ret == |buf| ==> Faithful(f, written + buf)
      ensures old(lastSparse) ==> lastSparse
    {
      hide UpTo, AllZero;
      ret, reached := 0, 0;
      while ret < |buf|
        invariant 0 <= ret == reached <= |buf|
        invariant |f.content| <= f.pos && f.Logical() == written + buf[..ret]
        invariant ret == 0 ==> Faithful(f, written)
        invariant ret == |buf| > 0 ==> lastByte == buf[|buf| - 1] && (|f.content| < f.pos ==> lastSparse)
        invariant old(lastSparse) ==> lastSparse
      {
        var len1 := Min(|buf| - ret, SPARSE_WRITE_SIZE);
        var part := buf[ret..ret + len1];
        var r1, more := WriteSparse(f, part);
        PartOf(written, buf, ret, len1, Max(r1, 0), more);
        reached := ret + more;
        if r1 <= 0 {
          return if ret > 0 then ret else r1, reached;
        }
        ret := ret + r1;
      }
      NoZeros(buf, |buf|);
      assert buf == [] ==> written + buf == written;
    }

    /** The end of a file.  All of it is there, its length included, exactly when something
        was written to it or no file before it ended in zeros: `lastSparse` is never taken
        back, and an empty file then gets a byte. */
    method SparseEnd(f: OutFile, ghost written: seq<Byte>) returns (ret: int)
      requires Faithful(f, written)
      modifies this, f
      ensures lastSparse == old(lastSparse) && -1 <= ret <= 0
      ensures ret == 0 ==> (f.content == written <==> written != [] || !lastSparse)
      ensures ret == 0 && written == [] && lastSparse ==> f.content == [lastByte]
      ensures !lastSparse ==> ret == 0
    {
      if lastSparse {
        f.Lseek(-1);
        ghost var content, pos := f.content, f.pos;
        var n := f.Write([lastByte]);
        if n == 1 {
          assert [lastByte][..1] == [lastByte];
          if |content| <= pos {
            Appended(content, pos, [lastByte]);
          }
          assert written != [] ==> f.content == written;
        }
        return if n == 1 then 0 else -1;
      }
      lastSparse := false;
      return 0;
    }
  }
}
