/** Block records and file signatures, version-1/block.h and version-1/summary.h. */
module Blocks {
  import opened Bytes

  const STRONG_LENGTH: nat := 20

  /** A `DBBlock` without the fields that nothing ever reads (`block_queued`,
      `block_acked`) and without `data`, which lives only while a block is sent. */
  datatype Block = Block(
    localId: U32,        // zero: not yet saved locally
    version: Byte,
    offset: U32,
    length: U16,
    weak: U32,
    strong: seq<Byte>,
    remoteId: U32,       // zero: not yet in the remote block store
    inCover: bool)
  {
    function End(): nat {
      offset + length
    }

    predicate Contains(p: nat) {
      offset <= p < End()
    }
  }

  /** `db_block_new`: everything zero. */
  const BLANK_BLOCK: Block := Block(0, 0, 0, 0, 0, Zeros(STRONG_LENGTH), 0, false)

  /** A new block of the cover: only where it lies is known until it is sent. */
  function CoverBlock(offset: U32, length: U16): Block {
    BLANK_BLOCK.(offset := offset, length := length, inCover := true)
  }

  /** Some block of the new cover contains byte `p`. */
  ghost predicate Covers(bs: seq<Block>, p: nat) {
    exists b :: b in bs && b.inCover && b.Contains(p)
  }

  ghost predicate SortedByOffset(bs: seq<Block>) {
    forall i, j :: 0 <= i < j < |bs| ==> bs[i].offset <= bs[j].offset
  }

  /** `sorted` is one of the arrays that sorting `bs` by offset may leave. */
  ghost predicate IsSorting(bs: seq<Block>, sorted: seq<Block>) {
    multiset(sorted) == multiset(bs) && SortedByOffset(sorted)
  }

  lemma SortingSameBlocks(bs: seq<Block>, sorted: seq<Block>)
    requires IsSorting(bs, sorted)
    ensures |sorted| == |bs|
    ensures forall b :: b in sorted <==> b in bs
  {
    assert |multiset(sorted)| == |multiset(bs)|;
    forall b ensures b in sorted <==> b in bs {
      assert b in multiset(sorted) <==> b in multiset(bs);
    }
  }
}
