/** The sliding window over a file of version-1/fileio.c, `map_ptr`. */
module WindowCache {
  import opened Bytes

  const CHUNK_SIZE: nat := 32 * 1024
  const MAX_MAP_SIZE: nat := 256 * 1024

  /** An open file: what it holds now and where the next read begins.  As history, how many
      bytes have been asked for. */
  class Descriptor {
    const content: seq<Byte>
    var pos: nat
    ghost var asked: nat

    constructor (content: seq<Byte>)
      ensures this.content == content && pos == 0 && asked == 0
    {
      this.content, pos, asked := content, 0, 0;
    }

    method Lseek(to: nat)
      modifies `pos
      ensures pos == to
    {
      pos := to;
    }

    /** Reads are complete unless the file ends. */
    method Read(a: array<Byte>, at: nat, n: nat) returns (nread: nat)
      requires at + n <= a.Length
      modifies `pos, `asked, a
      ensures nread <= n && nread == Min(n, Max(0, |content| - old(pos)))
      ensures pos == old(pos) + nread && asked == old(asked) + n
      ensures forall k | at <= k < at + nread :: a[k] == ByteAt(content, old(pos) + (k - at))
      ensures forall k | 0 <= k < a.Length && !(at <= k < at + nread) :: a[k] == old(a[k])
    {
      nread := Min(n, Max(0, |content| - pos));
      forall k | 0 <= k < nread {
        a[at + k] := content[pos + k];
      }
      pos := pos + nread;
      asked := asked + n;
    }
  }

  /** A byte of the file, or zero where the file has become shorter than it was thought. */
  function ByteAt(content: seq<Byte>, i: nat): Byte {
    if i < |content| then content[i] else 0
  }

  function Region(content: seq<Byte>, offset: nat, n: nat): (s: seq<Byte>)
    ensures |s| == n
  {
    seq<Byte>(n, i requires 0 <= i => ByteAt(content, offset + i))
  }

  lemma RegionIsSlice(content: seq<Byte>, offset: nat, n: nat)
    requires offset + n <= |content|
    ensures Region(content, offset, n) == content[offset..offset + n]
  {
    var part := content[offset..offset + n];
    assert forall k | 0 <= k < n :: part[k] == ByteAt(content, offset + k);
  }

  /** Where the window is to begin: at the last chunk of 32768 bytes that begins 65536 bytes
      before the offset or earlier, or at the beginning of the file. */
  function WindowStart(offset: nat): (start: nat)
    ensures start % 32768 == 0 && (offset <= 65536 ==> start == 0)
    ensures offset > 65536 ==> 65536 <= offset - start < 65536 + 32768
  {
    var back := offset - 2 * CHUNK_SIZE;
    if back > 0 then back - back % CHUNK_SIZE else 0
  }

  /** A window holds 262144 bytes, less at the end of the file, and more if that is asked for. */
  function WindowSize(fileSize: nat, start: nat, end: nat): (size: nat)
    requires start <= end <= fileSize
    ensures start + size <= fileSize && start + size >= end
    ensures size <= 262144 || start + size == end
    ensures size >= 262144 || start + size == fileSize
  {
    Max(Min(MAX_MAP_SIZE, fileSize - start), end - start)
  }

  /** How many bytes at the beginning of the new window the old one has: they are not read
      again, if the new one reaches as far. */
  function Overlap(pOffset: nat, pLen: nat, start: nat, size: nat): (n: nat)
    ensures n <= size
    ensures n > 0 <==> pOffset <= start < pOffset + pLen <= start + size
    ensures n > 0 ==> start + n == pOffset + pLen
  {
    if pOffset <= start < pOffset + pLen <= start + size then pOffset + pLen - start else 0
  }

  class Map {
    const fd: Descriptor
    const fileSize: nat
    var p: array<Byte>   // its length is `p_size`
    var pOffset: nat
    var pLen: nat
    var pFdOffset: nat

    /** The window holds its part of the file, and the position of the descriptor is known. */
    ghost predicate Valid()
      reads this, p, fd
    {
      && pLen <= p.Length && pOffset + pLen <= fileSize
      && pFdOffset == fd.pos
      && Holds(pLen, pOffset)
    }

    ghost predicate Holds(n: nat, offset: nat)
      requires n <= p.Length
      reads this, p
    {
      forall k | 0 <= k < n :: p[k] == ByteAt(fd.content, offset + k)
    }

    /** `map_file`. */
    constructor (fd: Descriptor, len: nat)
      requires fd.pos == 0
      ensures Valid() && fresh(p) && this.fd == fd && fileSize == len && pLen == 0
    {
      this.fd, fileSize := fd, len;
      p := new Byte[0];
      pOffset, pLen, pFdOffset := 0, 0, 0;
    }

    /** Enough memory for the window, with what it holds. */
    method Reserve(size: nat)
      requires pLen <= p.Length
      modifies `p
      ensures p == old(p) || fresh(p)
      ensures size <= p.Length && pLen <= p.Length && p[..pLen] == old(p[..pLen])
    {
      if size > p.Length {
        var q := new Byte[size];
        forall k | 0 <= k < p.Length {
          q[k] := p[k];
        }
        p := q;
      }
    }

    /** The end of the window is read, zeros where the file ends too early. */
    method Fill(start: nat, at: nat, size: nat)
      requires at + size <= p.Length && pFdOffset == fd.pos && at <= start && Holds(at, start - at)
      modifies p, `pFdOffset, fd
      ensures pFdOffset == fd.pos && Holds(at + size, start - at) && fd.asked == old(fd.asked) + size
    {
      if pFdOffset != start {
        fd.Lseek(start);
        pFdOffset := start;
      }
      var nread := fd.Read(p, at, size);
      if nread != size {
        forall k | at + nread <= k < at + size {
          p[k] := 0;
        }
      }
      pFdOffset := pFdOffset + nread;
    }

    /** Bytes of the old window that the new one has too are moved to its beginning. */
    method Reuse(windowStart: nat) returns (readOffset: nat)
      requires Valid() && pOffset <= windowStart < pOffset + pLen
      modifies p
      ensures readOffset == pOffset + pLen - windowStart <= p.Length && Holds(readOffset, windowStart)
    {
      readOffset := pOffset + pLen - windowStart;
      forall k | 0 <= k < readOffset {
        p[k] := p[k + (pLen - readOffset)];
      }
    }

    /** The part of the file that lies in the window. */
    lemma InWindow(offset: nat, n: nat)
      requires Valid() && pOffset <= offset && offset + n <= pOffset + pLen
      ensures p[offset - pOffset..offset - pOffset + n] == Region(fd.content, offset, n)
    {
      var part := p[offset - pOffset..offset - pOffset + n];
      forall k | 0 <= k < n ensures part[k] == ByteAt(fd.content, offset + k) {
        assert part[k] == p[offset - pOffset + k];
      }
    }

    /** Slides the window to one that reaches beyond what it holds, or begins elsewhere; so
        there is always something to read. */
    method Slide(windowStart: nat, windowSize: nat)
      requires Valid() && 0 < windowSize && windowStart + windowSize <= fileSize
      requires windowStart < pOffset || windowStart + windowSize != pOffset + pLen
      modifies this, p, fd
      ensures Valid() && (p == old(p) || fresh(p))
      ensures pOffset == windowStart && pLen == windowSize
      ensures fd.asked == old(fd.asked) + windowSize - Overlap(old(pOffset), old(pLen), windowStart, windowSize)
    {
      Reserve(windowSize);
      var readStart, readSize, readOffset := windowStart, windowSize, 0;
      if windowStart >= pOffset && windowStart < pOffset + pLen && windowStart + windowSize >= pOffset + pLen {
        readStart := pOffset + pLen;
        readOffset := Reuse(windowStart);
        readSize := windowSize - readOffset;
      }
      assert readSize > 0;
      Fill(readStart, readOffset, readSize);
      pOffset, pLen := windowStart, windowSize;
    }

    /** The region asked for, clipped at the end of the file, lies in the window at `at`. */
    method MapPtr(offset: nat, length: nat) returns (at: nat, n: nat)
      requires Valid() && offset <= fileSize
      modifies this, p, fd
      ensures Valid() && (p == old(p) || fresh(p))
      ensures n == Min(length, fileSize - offset) && at + n <= p.Length
      ensures p[at..at + n] == Region(fd.content, offset, n)
      ensures
        if length == 0 || (old(pOffset) <= offset && offset + n <= old(pOffset) + old(pLen)) then
          pOffset == old(pOffset) && pLen == old(pLen) && fd.asked == old(fd.asked)
        else
          && pOffset == WindowStart(offset) && pLen == WindowSize(fileSize, pOffset, offset + n)
          && fd.asked == old(fd.asked) + pLen - Overlap(old(pOffset), old(pLen), pOffset, pLen)
    {
      if length == 0 {
        at, n := 0, 0;
        return;
      }
      n := Min(length, fileSize - offset);
      if !(offset >= pOffset && offset + n <= pOffset + pLen) {
        var windowStart := WindowStart(offset);
        Slide(windowStart, WindowSize(fileSize, windowStart, offset + n));
      }
      at := offset - pOffset;
      InWindow(offset, n);
    }
  }
}
