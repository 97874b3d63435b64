/** Primary keys: `db_get_next_index` of version-1/db_misc.c, the local ids that
    `cover_save_local` of version-1/covering.c hands out, and `wt_find_block` of
    version-1/workticket.c, which routes an acknowledgement by them. */
module Ids {
  import opened Bytes
  import opened Blocks

  /** The stored counter of one database; `found` unless no index was ever issued. */
  class IdCounter {
    var found: bool
    var index: U32

    constructor ()
      ensures !found && index == 0
    {
      found, index := false, 0;
    }

    /** The counter as a number: the last index issued. */
    function Last(): U32
      reads this
    {
      if found then index else 0
    }

    /** A stored zero trips the assertion of the original.  The index issued is one more
        than any before it, unless the counter wraps around: then it is zero. */
    method GetNextIndex() returns (id: U32)
      requires found ==> index != 0
      modifies this
      ensures found && Last() == id == index
      ensures id == 0 <==> old(Last()) == TWO32 - 1
      ensures id != 0 ==> id == old(Last()) + 1
    {
      var i: U32 := if found then index else 0;
      i := Low32(i + 1);
      found, index := true, i;
      id := i;
    }
  }

  function Unsaved(bs: seq<Block>): nat {
    if bs == [] then 0 else (if bs[0].localId == 0 then 1 else 0) + Unsaved(bs[1..])
  }

  lemma {:induction false} UnsavedAtMost(bs: seq<Block>)
    ensures Unsaved(bs) <= |bs|
  {
    if bs != [] {
      UnsavedAtMost(bs[1..]);
    }
  }

  /** The list after `cover_save_local`, the counter standing at `last`. */
  function WithIds(bs: seq<Block>, last: nat): (r: seq<Block>)
    requires last + Unsaved(bs) < TWO32
    ensures |r| == |bs|
  {
    if bs == [] then []
    else if bs[0].localId == 0 then [bs[0].(localId := last + 1)] + WithIds(bs[1..], last + 1)
    else [bs[0]] + WithIds(bs[1..], last)
  }

  /** No two blocks share an id other than zero. */
  ghost predicate DistinctIds(bs: seq<Block>) {
    forall i, j :: 0 <= i < j < |bs| && bs[i].localId != 0 ==> bs[i].localId != bs[j].localId
  }

  ghost predicate IdsUpTo(bs: seq<Block>, last: nat) {
    forall b :: b in bs ==> b.localId <= last
  }

  ghost predicate AllSaved(bs: seq<Block>) {
    forall b :: b in bs ==> b.localId != 0
  }

  lemma {:induction false} WithIdsAt(bs: seq<Block>, last: nat)
    requires last + Unsaved(bs) < TWO32
    ensures
      var r := WithIds(bs, last);
      && (forall i | 0 <= i < |bs| :: r[i] == bs[i].(localId := r[i].localId))
      && (forall i | 0 <= i < |bs| && bs[i].localId != 0 :: r[i].localId == bs[i].localId)
      && (forall i | 0 <= i < |bs| && bs[i].localId == 0 :: last < r[i].localId <= last + Unsaved(bs))
      && (forall i, j | 0 <= i < j < |bs| && bs[i].localId == 0 && bs[j].localId == 0 :: r[i].localId < r[j].localId)
  {
    if bs != [] {
      var b, rest := bs[0], bs[1..];
      var next := if b.localId == 0 then last + 1 else last;
      WithIdsAt(rest, next);
      var r := WithIds(bs, last);
      assert r[1..] == WithIds(rest, next);
      assert forall i | 0 < i < |bs| :: bs[i] == rest[i - 1] && r[i] == r[1..][i - 1];
    }
  }

  /** Fresh ids are distinct from each other and from the old ones: afterwards each block
      has an id, no two have the same, and nothing but missing ids has changed. */
  lemma SavedIds(bs: seq<Block>, last: nat)
    requires last + Unsaved(bs) < TWO32 && DistinctIds(bs) && IdsUpTo(bs, last)
    ensures
      var r := WithIds(bs, last);
      && AllSaved(r) && DistinctIds(r) && IdsUpTo(r, last + Unsaved(bs))
      && forall i | 0 <= i < |bs| :: r[i] == bs[i].(localId := r[i].localId)
  {
    WithIdsAt(bs, last);
    var r := WithIds(bs, last);
    assert forall i | 0 <= i < |bs| :: bs[i] in bs;
    forall i, j | 0 <= i < j < |r| ensures r[i].localId != r[j].localId {
      assert bs[i].localId <= last && bs[j].localId <= last;
    }
  }

  /** The blocks for which `cover_save_local` makes a record: those that had no id and are
      stored by the server already, with the ids that they have got. */
  function Recorded(bs: seq<Block>, saved: seq<Block>): seq<Block>
    requires |bs| == |saved|
  {
    var n := |bs| - 1;
    if bs == [] then []
    else Recorded(bs[..n], saved[..n]) + if bs[n].localId == 0 && bs[n].remoteId != 0 then [saved[n]] else []
  }

  lemma {:induction false} RecordedMembers(bs: seq<Block>, saved: seq<Block>, x: Block)
    requires |bs| == |saved|
    ensures x in Recorded(bs, saved) <==>
      exists i :: 0 <= i < |bs| && bs[i].localId == 0 && bs[i].remoteId != 0 && saved[i] == x
  {
    if bs != [] {
      var n := |bs| - 1;
      RecordedMembers(bs[..n], saved[..n], x);
      assert forall i :: 0 <= i < n ==> bs[..n][i] == bs[i] && saved[..n][i] == saved[i];
    }
  }

  /** Records are made of exactly the stored blocks whose ids are new. */
  lemma RecordedExact(bs: seq<Block>, last: nat, x: Block)
    requires last + Unsaved(bs) < TWO32 && IdsUpTo(bs, last)
    ensures
      var saved := WithIds(bs, last);
      x in Recorded(bs, saved) <==> x in saved && x.remoteId != 0 && x.localId > last
  {
    hide Recorded, WithIds, Unsaved;
    var saved := WithIds(bs, last);
    WithIdsAt(bs, last);
    RecordedMembers(bs, saved, x);
    if x in saved && x.remoteId != 0 && x.localId > last {
      var i :| 0 <= i < |saved| && saved[i] == x;
      assert bs[i] in bs;
    }
  }

  lemma RecordedNext(bs: seq<Block>, saved: seq<Block>, i: nat)
    requires i < |bs| == |saved|
    ensures Recorded(bs[..i + 1], saved[..i + 1]) ==
      Recorded(bs[..i], saved[..i]) + if bs[i].localId == 0 && bs[i].remoteId != 0 then [saved[i]] else []
  {
    assert bs[..i + 1][..i] == bs[..i] && saved[..i + 1][..i] == saved[..i];
  }

  /** wt_find_block: the first block with the id. */
  function FindBlock(bs: seq<Block>, id: U32): (r: int)
    ensures -1 <= r < |bs|
    ensures r >= 0 ==> bs[r].localId == id
  {
    if bs == [] then -1
    else if bs[0].localId == id then 0
    else var r := FindBlock(bs[1..], id); if r < 0 then -1 else r + 1
  }

  /** Routing is unambiguous: among distinct ids the search finds the very block whose id
      it is given, and an id that no block has is not found. */
  lemma {:induction false} FindBlockExact(bs: seq<Block>, id: U32)
    requires DistinctIds(bs) && id != 0
    ensures forall k | 0 <= k < |bs| :: FindBlock(bs, id) == k <==> bs[k].localId == id
    ensures FindBlock(bs, id) == -1 <==> forall b :: b in bs ==> b.localId != id
  {
    if bs != [] {
      var rest := bs[1..];
      assert forall k | 0 < k < |bs| :: bs[k] == rest[k - 1];
      FindBlockExact(rest, id);
      assert bs == [bs[0]] + rest;
    }
  }

  lemma {:induction false} TwiceIn(s: seq<Block>, b: Block)
    requires multiset(s)[b] >= 2
    ensures exists i, j :: 0 <= i < j < |s| && s[i] == b && s[j] == b
  {
    var n := |s| - 1;
    assert s == s[..n] + [s[n]];
    if s[n] == b {
      assert b in multiset(s[..n]);
      assert b in s[..n];
      var i :| 0 <= i < n && s[..n][i] == b;
      assert s[i] == b;
    } else {
      TwiceIn(s[..n], b);
      var i, j :| 0 <= i < j < n && s[..n][i] == b && s[..n][j] == b;
      assert s[i] == b && s[j] == b;
    }
  }

  lemma TwiceAt(s: seq<Block>, i: nat, j: nat)
    requires i < j < |s| && s[i] == s[j]
    ensures multiset(s)[s[i]] >= 2
  {
    assert s == s[..i] + [s[i]] + s[i + 1..];
    assert s[j] == s[i + 1..][j - i - 1];
    assert s[j] in multiset(s[i + 1..]);
  }

  lemma Whereabouts(bs: seq<Block>, sorted: seq<Block>, i: nat) returns (k: nat)
    requires (forall b :: b in sorted <==> b in bs) && i < |sorted|
    ensures k < |bs| && bs[k] == sorted[i]
  {
    var b := sorted[i];
    assert b in sorted;
    assert b in bs;
    k :| 0 <= k < |bs| && bs[k] == b;
  }

  /** Sorting keeps the ids distinct. */
  lemma SortingKeepsIds(bs: seq<Block>, sorted: seq<Block>, last: nat)
    requires IsSorting(bs, sorted) && DistinctIds(bs) && IdsUpTo(bs, last)
    ensures DistinctIds(sorted) && IdsUpTo(sorted, last)
  {
    SortingSameBlocks(bs, sorted);
    forall i, j | 0 <= i < j < |sorted| && sorted[i].localId != 0
      ensures sorted[i].localId != sorted[j].localId
    {
      if sorted[i] == sorted[j] {
        TwiceAt(sorted, i, j);
        TwiceIn(bs, sorted[i]);
      } else {
        var k := Whereabouts(bs, sorted, i);
        var l := Whereabouts(bs, sorted, j);
        assert k != l;
      }
    }
  }
}
