/** The server's block store, version-1/remote.c, and its handlers in version-1/protocol.c.
    Each handler does what the step relation of `Protocol` says. */
module ServerSide {
  import opened Bytes
  import opened Ids
  import opened Messages
  import opened Options
  import opened Protocol
  import opened WorkTickets

  /** What was put into a record. */
  function Stored(record: seq<Byte>): seq<Byte>
    requires |record| >= 3
  {
    record[3..]
  }

  ghost predicate AreRecords(records: map<U32, seq<Byte>>) {
    forall a :: a in records ==> |records[a]| >= 3 && records[a] == Record(Stored(records[a]))
  }

  ghost function Contents(records: map<U32, seq<Byte>>): map<U32, seq<Byte>>
    requires AreRecords(records)
  {
    map a | a in records :: Stored(records[a])
  }

  class BlockStore {
    const out: Output
    const ids: IdCounter
    var records: map<U32, seq<Byte>>

    ghost predicate Valid()
      reads this, ids, out
    {
      out.Valid() && AreRecords(records) && (ids.found ==> ids.index != 0)
    }

    ghost function State(): Server
      reads this, ids, out
      requires Valid()
    {
      Server(Contents(records), ids.Last())
    }

    constructor (out: Output, ids: IdCounter)
      requires out.Valid() && (ids.found ==> ids.index != 0)
      ensures Valid() && this.out == out && this.ids == ids && State() == Server(map[], ids.Last())
    {
      this.out, this.ids := out, ids;
      records := map[];
    }

    /** `db_archive_add`, as long as the counter does not wrap around. */
    method ArchiveAdd(payload: seq<Byte>) returns (archiveId: U32)
      requires Valid() && ids.Last() + 1 < TWO32
      modifies this, ids
      ensures Valid() && archiveId != 0 && archiveId == old(ids.Last()) + 1 == ids.Last()
      ensures State() == Server(old(State()).store[archiveId := payload], archiveId)
    {
      hide Record;
      archiveId := ids.GetNextIndex();
      RecordHolds(payload);
      records := records[archiveId := Record(payload)];
      assert Contents(records) == old(State()).store[archiveId := payload];
    }

    /** `db_archive_fetch`: of what was stored, as much as its 16-bit length tells. */
    method ArchiveFetch(archiveId: U32) returns (r: Option<seq<Byte>>)
      requires Valid()
      ensures
        var store := State().store;
        r == if archiveId in store then Some(store[archiveId][..Low16(|store[archiveId]|)]) else None
    {
      hide Record, Fetched;
      if archiveId !in records {
        return None;
      }
      RecordExact(Stored(records[archiveId]));
      r := Some(Fetched(records[archiveId]));
    }

    /** `accept_put_block`. */
    method AcceptPutBlock(f: U32, b: U32, payload: seq<Byte>)
      requires Valid() && CanServe(State(), PutBlock(f, b, payload))
      modifies this, ids, out
      ensures Valid()
      ensures
        var r := ServeOne(old(State()), PutBlock(f, b, payload));
        State() == r.0 && out.sent == old(out.sent) + r.1
    {
      hide Contents, AreRecords, Output.Valid;
      var archiveId := ArchiveAdd(payload);
      out.Send(PutAck(f, b, archiveId));
    }

    /** `accept_get_block`: an unknown id is answered without data. */
    method AcceptGetBlock(f: U32, b: U32, archiveId: U32)
      requires Valid()
      modifies out
      ensures Valid()
      ensures
        var r := ServeOne(old(State()), GetBlock(f, b, archiveId));
        State() == r.0 && out.sent == old(out.sent) + r.1
    {
      hide Contents, AreRecords, Output.Valid;
      if archiveId == 0 {
        out.Send(GetAck(f, b, []));
        return;
      }
      var r := ArchiveFetch(archiveId);
      match r {
        case None => out.Send(GetAck(f, b, []));
        case Some(data) => out.Send(GetAck(f, b, data));
      }
    }
  }

  lemma RecordHolds(payload: seq<Byte>)
    ensures |Record(payload)| >= 3 && Stored(Record(payload)) == payload
  {
  }
}
