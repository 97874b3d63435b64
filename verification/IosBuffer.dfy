/** The growing buffer of version-1/ios.c: a queue of bytes in `buf[read_ptr..len]` that is
    compacted and enlarged when an append does not fit. */
module IosBuffer {
  import opened Bytes

  const IOS_MIN_SIZE: nat := 1024

  /** An append that leaves no room asks for a fifth more than will be in use. */
  function GrownSize(inUse: nat): nat {
    6 * inUse / 5
  }

  class IosBuf {
    var buf: array<Byte>   // its length is `alloc_len`
    var len: nat
    var readPtr: nat
    ghost var queued: nat  // bytes appended or consumed so far
    ghost var moved: nat   // bytes moved so far, within the buffer or to a larger one

    /** The last conjunct pays for the bytes moved: each byte appended or consumed puts by
        enough for the compaction and reallocation that it may bring about. */
    ghost predicate Valid()
      reads this
    {
      && readPtr <= len <= buf.Length
      && moved <= 12 * queued
      && moved + 2 * (6 * len + 5 * readPtr - 5 * buf.Length) <= 12 * queued
    }

    function Contents(): seq<Byte>
      reads this, buf
      requires Valid()
    {
      buf[readPtr..len]
    }

    constructor ()
      ensures Valid() && fresh(buf) && Contents() == []
      ensures readPtr == 0 && moved == 0 && queued == 0 && buf.Length == 1024
    {
      buf := new Byte[IOS_MIN_SIZE];
      len, readPtr, queued, moved := 0, 0, 0, 0;
    }

    /** `ios_grow`.  The bytes stay the same; what has been read is dropped. */
    method Grow(size: nat)
      requires readPtr <= len <= buf.Length
      modifies this, buf
      ensures readPtr == 0 && len == old(len - readPtr) <= buf.Length
      ensures buf == old(buf) || fresh(buf)
      ensures buf.Length == Max(size, old(buf.Length))
      ensures buf[..len] == old(buf[readPtr..len])
      ensures queued == old(queued) && moved <= old(moved) + 2 * len
      ensures old(readPtr) == 0 && old(buf.Length) >= size ==> moved == old(moved)
    {
      if readPtr > 0 {
        ghost var live := buf[readPtr..len];
        forall k | 0 <= k < len - readPtr {
          buf[k] := buf[readPtr + k];
        }
        len := len - readPtr;
        readPtr := 0;
        assert buf[..len] == live;
        moved := moved + len;
      }
      if buf.Length < size {
        var larger := new Byte[size];
        forall k | 0 <= k < len {
          larger[k] := buf[k];
        }
        assert larger[..len] == buf[..len];
        buf := larger;
        moved := moved + len;
      }
    }

    /** The first half of `ios_append`: room for `n` more bytes, paid for by them. */
    method Reserve(n: nat)
      requires Valid() && n > 0
      modifies this, buf
      ensures buf == old(buf) || fresh(buf)
      ensures readPtr <= len && len + n <= buf.Length
      ensures buf[readPtr..len] == old(Contents())
      ensures queued == old(queued) && (old(readPtr) == 0 ==> readPtr == 0)
      ensures moved <= 12 * (queued + n)
      ensures moved + 2 * (6 * (len + n) + 5 * readPtr - 5 * buf.Length) <= 12 * (queued + n)
    {
      if len + readPtr + n > buf.Length {
        Grow(GrownSize(len + n));
      }
    }

    /** `ios_append`: the bytes go to the end of the queue. */
    method Append(data: seq<Byte>)
      requires Valid()
      modifies this, buf
      ensures Valid() && (buf == old(buf) || fresh(buf))
      ensures Contents() == old(Contents()) + data
      ensures queued == old(queued) + |data|
      ensures old(readPtr) == 0 ==> readPtr == 0
    {
      if |data| == 0 {
        return;
      }
      Reserve(|data|);
      Place(buf, len, data);
      assert buf[readPtr..len + |data|] == buf[..len + |data|][readPtr..];
      len := len + |data|;
      queued := queued + |data|;
    }

    /** The `memmove` of `ios_append`. */
    static method Place(a: array<Byte>, at: nat, data: seq<Byte>)
      requires at + |data| <= a.Length
      modifies a
      ensures a[..at + |data|] == old(a[..at]) + data
    {
      forall k | at <= k < at + |data| {
        a[k] := data[k - at];
      }
    }

    /** `ios_append_ios`: the source's `read_ptr` is ignored, so what it has already
        delivered is appended again. */
    method AppendIos(src: IosBuf)
      requires Valid() && src.Valid() && src != this
      modifies this, buf
      ensures Valid() && (buf == old(buf) || fresh(buf))
      ensures Contents() == old(Contents()) + old(src.buf[..src.len])
      ensures Contents() == old(Contents()) + old(src.Contents()) <==> old(src.readPtr) == 0
    {
      ghost var mine, theirs, all := Contents(), src.Contents(), src.buf[..src.len];
      assert |all| == |theirs| + src.readPtr && (src.readPtr == 0 ==> all == theirs);
      Append(src.buf[..src.len]);
      assert |mine + all| == |mine + theirs| + src.readPtr;
    }

    /** `ios_read`: the first `n` bytes of the queue, or nothing (NULL) if it is shorter. */
    method Read(n: nat) returns (ok: bool, data: seq<Byte>)
      requires Valid()
      modifies this
      ensures Valid() && buf == old(buf)
      ensures ok <==> n <= |old(Contents())|
      ensures ok ==> data == old(Contents())[..n] && Contents() == old(Contents())[n..]
      ensures ok ==> queued == old(queued) + n
      ensures !ok ==> data == [] && Contents() == old(Contents()) && queued == old(queued)
    {
      if readPtr + n > len {
        return false, [];
      }
      SubSlice(buf[..], readPtr, len, 0, n);
      SubSlice(buf[..], readPtr, len, n, len - readPtr);
      data := buf[readPtr..readPtr + n];
      readPtr := readPtr + n;
      queued := queued + n;
      ok := true;
    }

    /** `ios_reset`. */
    method Reset()
      requires Valid()
      modifies this
      ensures Valid() && buf == old(buf) && Contents() == [] && queued == old(queued) && readPtr == 0
    {
      len, readPtr := 0, 0;
    }

    method SetBuffer(data: seq<Byte>)
      requires Valid()
      modifies this, buf
      ensures Valid() && (buf == old(buf) || fresh(buf))
      ensures Contents() == data && readPtr == 0
    {
      Reset();
      Append(data);
    }

    method BufferSize() returns (size: nat)
      requires Valid()
      ensures size == |Contents()|
    {
      size := len - readPtr;
    }

    method AppendInt32(num: U32)
      requires Valid()
      modifies this, buf
      ensures Valid() && (buf == old(buf) || fresh(buf))
      ensures Contents() == old(Contents()) + Be32(num)
      ensures old(readPtr) == 0 ==> readPtr == 0
    {
      Append(Be32(num));
    }

    method AppendInt16(num: U16)
      requires Valid()
      modifies this, buf
      ensures Valid() && (buf == old(buf) || fresh(buf))
      ensures Contents() == old(Contents()) + Be16(num)
      ensures old(readPtr) == 0 ==> readPtr == 0
    {
      Append(Be16(num));
    }

    /** `ios_int32_at` the start of the queue. */
    method PeekInt32() returns (num: U32)
      requires Valid() && |Contents()| >= 4
      ensures num == Value32(Contents()[..4])
    {
      num := Value32(buf[readPtr..readPtr + 4]);
      assert Contents()[..4] == buf[readPtr..readPtr + 4];
    }

    /** A read past the end trips the assertion of the original. */
    method ReadInt32() returns (num: U32)
      requires Valid() && |Contents()| >= 4
      modifies this
      ensures Valid() && buf == old(buf)
      ensures num == Value32(old(Contents())[..4]) && Contents() == old(Contents())[4..]
    {
      var ok, data := Read(4);
      num := Value32(data);
    }

    method ReadInt16() returns (num: U16)
      requires Valid() && |Contents()| >= 2
      modifies this
      ensures Valid() && buf == old(buf)
      ensures num == Value16(old(Contents())[..2]) && Contents() == old(Contents())[2..]
    {
      var ok, data := Read(2);
      num := Value16(data);
    }
  }
}
