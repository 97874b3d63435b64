/** Re-using the blocks of an older version of a file, `cover_hash` and `cover_save_local`
    of version-1/covering.c and `SCsum_match` of version-1/checksum.c.

    `sha` stands for SHA-1. */
module Matching {
  import opened Bytes
  import opened Blocks
  import opened HashTables
  import opened Options
  import opened RollingIndex
  import opened WeakChecksum

  type Digest = seq<Byte> -> seq<Byte>

  /** The first value in the log whose key agrees in the low 16 bits. */
  function FirstValue(log: seq<Entry>, key: U32): Option<U32> {
    if log == [] then None
    else if Low16(log[0].key) == Low16(key) then Some(log[0].value)
    else FirstValue(log[1..], key)
  }

  lemma {:induction false} FirstValueIs(log: seq<Entry>, key: U32)
    ensures FirstValue(log, key) == None <==> !HasKey(log, key)
    ensures forall i: nat | IsFirst(log, key, i) :: FirstValue(log, key) == Some(log[i].value)
    ensures HasKey(log, key) ==> exists i: nat :: IsFirst(log, key, i)
  {
    if log != [] {
      var rest := log[1..];
      FirstValueIs(rest, key);
      if Low16(log[0].key) == Low16(key) {
        assert IsFirst(log, key, 0);
      } else {
        forall i: nat | IsFirst(log, key, i) ensures FirstValue(log, key) == Some(log[i].value) {
          assert rest[i - 1] == log[i];
          assert IsFirst(rest, key, i - 1) by {
            assert forall j :: 0 <= j < i - 1 ==> rest[j] == log[j + 1];
          }
        }
        if HasKey(rest, key) {
          var i: nat :| IsFirst(rest, key, i);
          assert log[i + 1] == rest[i];
          assert IsFirst(log, key, i + 1) by {
            assert forall j :: 0 < j < i + 1 ==> log[j] == rest[j - 1];
          }
        } else {
          assert forall j :: 0 < j < |log| ==> log[j] == rest[j - 1];
        }
      }
    }
  }

  /** SCsum_match: the file has the block's strong checksum, over the block's length, at
      the offset; never when the file ends before. */
  predicate StrongMatch(file: seq<Byte>, sha: Digest, offset: nat, b: Block) {
    |Slice(file, offset, b.length)| == b.length && sha(Slice(file, offset, b.length)) == b.strong
  }

  /** A listed block after `cover_hash` has looked for it in the file. */
  function Matched(log: seq<Entry>, file: seq<Byte>, sha: Digest, b: Block): Block {
    match FirstValue(log, b.weak)
    case None => b
    case Some(o) =>
      if !StrongMatch(file, sha, o, b) then b
      else b.(inCover := true, offset := o, localId := if b.offset == o then b.localId else 0)
  }

  function MatchedAll(log: seq<Entry>, file: seq<Byte>, sha: Digest, bs: seq<Block>): (r: seq<Block>)
    ensures |r| == |bs|
  {
    seq(|bs|, i requires 0 <= i < |bs| => Matched(log, file, sha, bs[i]))
  }

  /** The window at `o` is the one the index offers for the weak checksum `key`: it agrees
      in the low 16 bits, and no window that a pass came by earlier does. */
  ghost predicate Offered(file: seq<Byte>, blockLen: nat, key: U32, o: nat)
    requires 0 < blockLen && blockLen % 4 == 0 && |file| < TWO32
  {
    && o + blockLen <= |file|
    && Low16(Weak(file[o..o + blockLen])) == Low16(key)
    && forall e: nat | e + blockLen <= |file| && Before(e, o) :: Low16(Weak(file[e..e + blockLen])) != Low16(key)
  }

  lemma Trichotomy(o: nat, p: nat)
    ensures o == p || Before(o, p) || Before(p, o)
  {
  }

  lemma OfferedOnce(file: seq<Byte>, blockLen: nat, key: U32, o: nat, p: nat)
    requires 0 < blockLen && blockLen % 4 == 0 && |file| < TWO32
    requires Offered(file, blockLen, key, o) && Offered(file, blockLen, key, p)
    ensures o == p
  {
    hide Weak, Before;
    Trichotomy(o, p);
  }

  lemma InOrder(log: seq<Entry>, i: nat, j: nat)
    requires forall i, j | 0 <= i < j < |log| :: Before(log[i].value, log[j].value)
    requires i < |log| && j < |log| && Before(log[j].value, log[i].value)
    ensures j < i
  {
  }

  /** Each window whose checksum agrees is indexed under the key. */
  lemma AgreeingIndexed(file: seq<Byte>, blockLen: nat, key: U32, o: nat) returns (j: nat)
    requires 0 < blockLen && blockLen % 4 == 0 && o + blockLen <= |file| < TWO32
    ensures j < |Index(file, blockLen)| && Index(file, blockLen)[j] == WindowEntry(file, blockLen, o)
    ensures Low16(Weak(file[o..o + blockLen])) == Low16(key) ==> HasKey(Index(file, blockLen), key)
  {
    hide Weak, Index;
    var log := Index(file, blockLen);
    IndexExact(file, blockLen);
    assert HasOffset(log, o);
    j :| 0 <= j < |log| && log[j].value == o;
    assert log[j] in log;
  }

  lemma FirstIsOffered(file: seq<Byte>, blockLen: nat, key: U32, o: nat)
    requires 0 < blockLen && blockLen % 4 == 0 && |file| < TWO32
    ensures FirstValue(Index(file, blockLen), key) == Some(o) <==> Offered(file, blockLen, key, o)
  {
    hide Weak, Index, Before;
    var log := Index(file, blockLen);
    FirstValueIs(log, key);
    IndexExact(file, blockLen);
    if HasKey(log, key) {
      var i: nat :| IsFirst(log, key, i);
      var v := log[i].value;
      assert log[i] in log;
      forall e: nat | e + blockLen <= |file| && Before(e, v)
        ensures Low16(Weak(file[e..e + blockLen])) != Low16(key)
      {
        var j := AgreeingIndexed(file, blockLen, key, e);
        InOrder(log, i, j);
      }
      assert Offered(file, blockLen, key, v);
      if Offered(file, blockLen, key, o) {
        OfferedOnce(file, blockLen, key, o, v);
      }
    } else if Offered(file, blockLen, key, o) {
      var j := AgreeingIndexed(file, blockLen, key, o);
    }
  }

  /** Matching, exactly.  A block is marked if and only if the window that the index offers for
      its weak checksum starts a stretch of the file, of the block's own length, with the
      block's strong checksum.  A marked block is moved there; its local record is kept exactly
      if it has not moved, and nothing else of it changes. */
  lemma MatchExact(file: seq<Byte>, blockLen: nat, sha: Digest, b: Block)
    requires 0 < blockLen && blockLen % 4 == 0 && |file| < TWO32 && !b.inCover
    ensures
      var m := Matched(Index(file, blockLen), file, sha, b);
      && (m.inCover <==>
            exists o: nat ::
              && Offered(file, blockLen, b.weak, o)
              && o + b.length <= |file| && sha(file[o..o + b.length]) == b.strong)
      && (m.inCover ==>
            && Offered(file, blockLen, b.weak, m.offset)
            && m.offset + b.length <= |file| && sha(file[m.offset..m.offset + b.length]) == b.strong
            && m.offset + blockLen <= |file|
            && m == b.(inCover := true, offset := m.offset, localId := if m.offset == b.offset then b.localId else 0))
      && (!m.inCover ==> m == b)
  {
    hide Weak, Index, Offered;
    var log := Index(file, blockLen);
    match FirstValue(log, b.weak) {
      case Some(v) =>
        FirstIsOffered(file, blockLen, b.weak, v);
        assert Offered(file, blockLen, b.weak, v);
        IsInside(file, blockLen, b.weak, v);
      case None =>
    }
    forall o: nat | Offered(file, blockLen, b.weak, o) ensures FirstValue(log, b.weak) == Some(o) {
      FirstIsOffered(file, blockLen, b.weak, o);
    }
  }

  lemma IsInside(file: seq<Byte>, blockLen: nat, key: U32, o: nat)
    requires 0 < blockLen && blockLen % 4 == 0 && |file| < TWO32 && Offered(file, blockLen, key, o)
    ensures o + blockLen <= |file|
  {
  }

  /** The part of the weak checksum that is compared is the plain sum of the words: windows
      with the same words in any other order are taken for equal. */
  lemma ComparedPart(w: seq<Byte>)
    requires |w| % 4 == 0
    ensures Low16(Weak(w)) == Low16(S1(w))
  {
    Halves(Low16(S2(w)), Low16(S1(w)));
  }
}
