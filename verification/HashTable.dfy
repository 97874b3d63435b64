/** The hash table of weak checksums, version-1/hash.c: 65536 buckets, each a list to
    which entries are appended, and a pool the entries are allocated from.

    `log` is a model field: the insertions made since `HashCreate`, in order. */
module HashTables {
  import opened Bytes

  const HASH_SIZE: nat := 0x1_0000

  /** An insertion as the caller asked for it. */
  datatype Entry = Entry(key: U32, value: U32)

  /** What a bucket holds: the key is cut to the bucket's index before it is stored. */
  datatype Stored = Stored(key: U16, value: U32)

  /** The bucket of index `h`: the entries of the log that hash to it, in order. */
  function Bucket(log: seq<Entry>, h: U16): seq<Stored> {
    if log == [] then []
    else
      var front, last := log[..|log| - 1], log[|log| - 1];
      Bucket(front, h) + if Low16(last.key) == h then [Stored(h, last.value)] else []
  }

  ghost function UsedBuckets(log: seq<Entry>): set<U16> {
    set e | e in log :: Low16(e.key)
  }

  /** Index of the earliest entry whose key agrees with `key` in its low 16 bits. */
  ghost predicate IsFirst(log: seq<Entry>, key: U32, i: nat) {
    && i < |log|
    && Low16(log[i].key) == Low16(key)
    && forall j :: 0 <= j < i ==> Low16(log[j].key) != Low16(key)
  }

  ghost predicate HasKey(log: seq<Entry>, key: U32) {
    exists i :: 0 <= i < |log| && Low16(log[i].key) == Low16(key)
  }

  /** A bucket is empty exactly when no entry hashes to it, and otherwise starts with the
      earliest one; in particular no inserted key is ever missed. */
  lemma {:induction false} BucketFirst(log: seq<Entry>, key: U32)
    ensures Bucket(log, Low16(key)) != [] <==> HasKey(log, key)
    ensures forall i: nat :: IsFirst(log, key, i) ==>
      Bucket(log, Low16(key)) != [] && Bucket(log, Low16(key))[0] == Stored(Low16(key), log[i].value)
    ensures HasKey(log, key) ==> exists i: nat :: IsFirst(log, key, i)
  {
    var h := Low16(key);
    if log != [] {
      var n := |log| - 1;
      var front, last := log[..n], log[n];
      BucketFirst(front, key);
      if HasKey(front, key) {
        var i: nat :| IsFirst(front, key, i);
        assert IsFirst(log, key, i);
      } else if Low16(last.key) == h {
        forall j | 0 <= j < n ensures Low16(log[j].key) != h {
          assert front[j] == log[j];
        }
        assert IsFirst(log, key, n);
      } else {
        forall j | 0 <= j < |log| ensures Low16(log[j].key) != h {
          assert j < n ==> front[j] == log[j];
        }
      }
      forall i: nat | IsFirst(log, key, i)
        ensures Bucket(log, h) != [] && Bucket(log, h)[0] == Stored(h, log[i].value)
      {
        assert i < n ==> IsFirst(front, key, i);
        assert forall j :: 0 <= j < n ==> front[j] == log[j];
      }
    }
  }

  lemma BucketEntries(log: seq<Entry>, h: U16)
    ensures forall s :: s in Bucket(log, h) ==> s.key == h
  {
  }

  class HashTable {
    var buckets: array?<seq<Stored>>  // NULL until created
    var pool: bool                    // entry_pool is not NULL
    var entries: nat
    var collisions: nat
    ghost var log: seq<Entry>

    ghost predicate Valid()
      reads this, buckets
    {
      buckets != null ==>
        && buckets.Length == HASH_SIZE
        && (forall h: U16 :: buckets[h] == Bucket(log, h))
        && entries == |log|
        && collisions + |UsedBuckets(log)| == |log|
    }

    /** Ready for `HashInsert`: an insertion needs the pool. */
    ghost predicate Usable()
      reads this, buckets
    {
      Valid() && buckets != null && pool
    }

    constructor ()
      ensures Valid() && buckets == null && !pool
    {
      buckets, pool, entries, collisions, log := null, false, 0, 0, [];
    }

    /** Created over an existing table, the new table is left without a pool: the table is
        destroyed, pool and all, after the pool was found to exist. */
    method HashCreate()
      requires Valid()
      modifies this
      ensures Valid() && buckets != null && fresh(buckets) && log == []
      ensures Usable() <==> old(buckets) == null
    {
      if !pool {
        pool := true;
      }
      if buckets != null {
        HashDestroy();
      }
      buckets := new seq<Stored>[HASH_SIZE](_ => []);
      entries, collisions, log := 0, 0, [];
      assert UsedBuckets(log) == {};
    }

    /** Clearing the table asserts that there is a pool to free. */
    method HashDestroy()
      requires Valid() && (buckets != null ==> pool)
      modifies this
      ensures Valid() && buckets == null
      ensures pool <==> old(pool) && old(buckets) == null
    {
      if buckets == null {
        return;
      }
      pool := false;
      buckets := null;
    }

    method HashInsert(key: U32, value: U32)
      requires Usable()
      modifies this, buckets
      ensures Usable() && buckets == old(buckets)
      ensures log == old(log) + [Entry(key, value)]
    {
      var hashIndex := Low16(key);
      var thisBucket := buckets[hashIndex];
      entries := entries + 1;
      if thisBucket != [] {
        collisions := collisions + 1;
      }
      buckets[hashIndex] := thisBucket + [Stored(hashIndex, value)];
      Inserted(log, Entry(key, value));
      log := log + [Entry(key, value)];
    }

    /** Finds the earliest inserted value whose key agrees in the low 16 bits. */
    method HashFind(key: U32) returns (found: bool, value: U32)
      requires Valid() && buckets != null
      ensures found <==> HasKey(log, key)
      ensures found ==> exists i: nat :: IsFirst(log, key, i) && value == log[i].value
    {
      var hashIndex := Low16(key);
      var thisBucket := buckets[hashIndex];
      BucketFirst(log, key);
      BucketEntries(log, hashIndex);
      var listItem := FindCustom(thisBucket, hashIndex);
      if listItem != [] {
        return true, listItem[0].value;
      }
      return false, 0;
    }
  }

  /** The list from the first element with the given key on, as g_slist_find_custom. */
  function FindCustom(list: seq<Stored>, key: U16): seq<Stored> {
    if list == [] || list[0].key == key then list else FindCustom(list[1..], key)
  }

  lemma Inserted(log: seq<Entry>, e: Entry)
    ensures forall h: U16 | h != Low16(e.key) :: Bucket(log + [e], h) == Bucket(log, h)
    ensures Bucket(log + [e], Low16(e.key)) == Bucket(log, Low16(e.key)) + [Stored(Low16(e.key), e.value)]
    ensures |UsedBuckets(log + [e])| ==
      |UsedBuckets(log)| + (if Bucket(log, Low16(e.key)) == [] then 1 else 0)
  {
    assert (log + [e])[..|log|] == log;
    NewBucket(log, e);
    BucketFirst(log, e.key);
  }

  lemma NewBucket(log: seq<Entry>, e: Entry)
    ensures UsedBuckets(log + [e]) == UsedBuckets(log) + {Low16(e.key)}
    ensures Low16(e.key) in UsedBuckets(log) <==> HasKey(log, e.key)
  {
    var all := log + [e];
    forall h: U16 ensures h in UsedBuckets(all) <==> h in UsedBuckets(log) + {Low16(e.key)} {
      if h in UsedBuckets(all) {
        var x :| x in all && Low16(x.key) == h;
        assert x in log || x == e;
      }
      if h in UsedBuckets(log) {
        var x :| x in log && Low16(x.key) == h;
        assert x in all;
      }
      assert e in all;
    }
    if HasKey(log, e.key) {
      var i :| 0 <= i < |log| && Low16(log[i].key) == Low16(e.key);
      assert log[i] in log;
    }
  }
}
