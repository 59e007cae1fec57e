/** The cached album collection in the document database, reduced to the three
    calls the revalidation handler makes on it: `find({})`, `insertMany` and
    `deleteMany({ id: { $in: ids } })`. Whether the driver call succeeds is not
    something the model can know, so each call is told its outcome. */
module Store {
  import opened Common
  import opened Release

  /** A write the handler issued against the collection, in issue order. */
  datatype Write =
    | InsertMany(batch: seq<RawReleaseWithMasterData>)
    | DeleteMany(ids: seq<int>)

  /** What is left of `records` after deleting every record whose id is in `ids`:
      exactly the others, in their stored order. */
  function Without(records: seq<RawReleaseWithMasterData>, ids: seq<int>): (r: seq<RawReleaseWithMasterData>)
    ensures IsSubsequence(r, records)
    ensures forall i :: 0 <= i < |r| ==> r[i].Id() !in ids
    ensures forall i :: 0 <= i < |records| && records[i].Id() !in ids ==> records[i] in r
    ensures forall x :: multiset(r)[x] == if x.Id() !in ids then multiset(records)[x] else 0
  {
    FilterCount((x: RawReleaseWithMasterData) => x.Id() !in ids, records);
    Filter((x: RawReleaseWithMasterData) => x.Id() !in ids, records)
  }

  class AlbumStore {
    /** The documents of the albums collection, in insertion order. */
    var records: seq<RawReleaseWithMasterData>
    /** Every write issued against the collection, successful or not. */
    var writes: seq<Write>

    constructor (initial: seq<RawReleaseWithMasterData>)
      ensures records == initial && writes == []
    {
      records := initial;
      writes := [];
    }

    /** `find({}).toArray()`: every stored album, or a failure when the read fails. */
    method FindAll(succeeds: bool) returns (r: Result<seq<RawReleaseWithMasterData>, string>)
      ensures r.Success? <==> succeeds
      ensures r.Success? ==> r.value == records
    {
      if succeeds {
        r := Success(records);
      } else {
        r := Failure("Could not get collections from database");
      }
    }

    /** `insertMany(batch)`: appends the batch when the driver succeeds. */
    method InsertMany(batch: seq<RawReleaseWithMasterData>, succeeds: bool) returns (ok: bool)
      modifies this
      ensures ok == succeeds
      ensures writes == old(writes) + [Write.InsertMany(batch)]
      ensures records == if succeeds then old(records) + batch else old(records)
    {
      writes := writes + [Write.InsertMany(batch)];
      if succeeds {
        records := records + batch;
      }
      ok := succeeds;
    }

    /** `deleteMany({ id: { $in: ids } })`: removes every record with a listed id
        when the driver succeeds. */
    method DeleteByIds(ids: seq<int>, succeeds: bool) returns (ok: bool)
      modifies this
      ensures ok == succeeds
      ensures writes == old(writes) + [DeleteMany(ids)]
      ensures records == if succeeds then Without(old(records), ids) else old(records)
    {
      writes := writes + [DeleteMany(ids)];
      if succeeds {
        records := Without(records, ids);
      }
      ok := succeeds;
    }
  }
}
