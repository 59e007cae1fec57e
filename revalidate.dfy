/** The revalidation endpoint (`handler` in src/pages/api/revalidate.ts): check the
    shared secret, read the stored albums and fetch the collection, enrich the new
    albums, then insert the new ones and delete the vanished ones, each write only
    when it has something to do. Everything outside the process (configuration,
    the database driver, the catalog API) is an `Environment` value. */
module Revalidate {
  import opened Common
  import opened Release
  import opened Remote
  import opened Store
  import opened Reconcile

  /** `req.query.secret`: absent, given once, or given several times (an array). */
  datatype QueryValue = Missing | Single(value: string) | Repeated(values: seq<string>)

  /** The three answers the handler can give. */
  datatype Response = InvalidToken | ErrorRevalidating | Revalidated
  {
    function Status(): (code: int)
      ensures code == 401 <==> this == InvalidToken
      ensures code == 500 <==> this == ErrorRevalidating
      ensures code == 200 <==> this == Revalidated
    {
      match this
      case InvalidToken => 401
      case ErrorRevalidating => 500
      case Revalidated => 200
    }
  }

  /** What the world outside the handler does during one call. */
  datatype Environment = Environment(
    revalidateToken: Option<string>,     // REVALIDATE_TOKEN
    releasesEndpoint: Option<string>,    // DISCOGS_ENDPOINT_RELEASES
    connects: bool,                      // connectToDatabase resolves
    readSucceeds: bool,                  // find({}).toArray() resolves
    releasesReply: Reply<Raw>,           // what fetch returns for the collection URL
    masterData: MasterDataSource,        // what fetch returns for each master URL
    insertSucceeds: bool,                // insertMany resolves
    deleteSucceeds: bool)                // deleteMany resolves

  /** `req.query.secret !== process.env.REVALIDATE_TOKEN` is false, under JavaScript's
      strict equality: an array never equals a string or `undefined`, and a missing
      secret equals an unset token. */
  predicate SecretMatches(secret: QueryValue, token: Option<string>) {
    match secret
    case Missing => token.None?
    case Single(s) => token == Some(s)
    case Repeated(_) => false
  }

  /** With a configured token, exactly that token given once is accepted. */
  lemma ConfiguredTokenAcceptsOnlyItself(secret: QueryValue, token: Option<string>)
    requires token.Some?
    ensures SecretMatches(secret, token) <==> secret == Single(token.value)
  {
  }

  /** With no token configured, a request that carries no secret is accepted. */
  lemma UnsetTokenAcceptsMissingSecret(secret: QueryValue, token: Option<string>)
    requires token.None?
    ensures SecretMatches(secret, token) <==> secret == Missing
  {
  }

  /** `fetchAlbums`: request the configured endpoint (the empty URL when unset) and
      take the `releases` of the decoded body. */
  function FetchAlbums(env: Environment): (r: Result<seq<RawRelease>, RequestError>)
    ensures r.Success? <==> Request(EndpointUrl(env), env.releasesReply).Success?
    ensures r.Success? ==> r.value == env.releasesReply.json.value.releases
  {
    match Request(EndpointUrl(env), env.releasesReply)
    case Failure(e) => Failure(e)
    case Success(raw) => Success(raw.releases)
  }

  function EndpointUrl(env: Environment): string {
    if env.releasesEndpoint.Some? then env.releasesEndpoint.value else ""
  }

  /** The call gets past the secret, the connection and both reads, so it computes
      the writes. */
  predicate ReachesWrites(secret: QueryValue, env: Environment) {
    && SecretMatches(secret, env.revalidateToken)
    && env.connects
    && env.readSucceeds
    && FetchAlbums(env).Success?
  }

  /** The writes issued for a given insert set and delete list: each at most once,
      and only when its list is non-empty. */
  function IssuedWrites(toInsert: seq<RawReleaseWithMasterData>, toDelete: seq<int>): (w: seq<Write>)
    ensures Write.InsertMany(toInsert) in w <==> |toInsert| > 0
    ensures DeleteMany(toDelete) in w <==> |toDelete| > 0
    ensures forall i :: 0 <= i < |w| ==> w[i] == Write.InsertMany(toInsert) || w[i] == DeleteMany(toDelete)
    ensures |w| == (if |toInsert| > 0 then 1 else 0) + (if |toDelete| > 0 then 1 else 0)
  {
    (if |toInsert| > 0 then [Write.InsertMany(toInsert)] else [])
    + (if |toDelete| > 0 then [DeleteMany(toDelete)] else [])
  }

  /** Lines 83-94: issue `insertMany` for a non-empty insert set and `deleteMany`
      for a non-empty delete list; report whether every issued write went through. */
  method WriteChanges(store: AlbumStore, toInsert: seq<RawReleaseWithMasterData>, toDelete: seq<int>, env: Environment)
    returns (ok: bool)
    modifies store
    ensures store.writes == old(store.writes) + IssuedWrites(toInsert, toDelete)
    ensures var inserted := |toInsert| > 0 && env.insertSucceeds;
            var deleted := |toDelete| > 0 && env.deleteSucceeds;
            var afterInsert := if inserted then old(store.records) + toInsert else old(store.records);
            store.records == (if deleted then Without(afterInsert, toDelete) else afterInsert)
    ensures ok <==> (|toInsert| == 0 || env.insertSucceeds) && (|toDelete| == 0 || env.deleteSucceeds)
  {
    var insertOk, deleteOk := true, true;
    if |toInsert| > 0 {
      insertOk := store.InsertMany(toInsert, env.insertSucceeds);
    }
    if |toDelete| > 0 {
      deleteOk := store.DeleteByIds(toDelete, env.deleteSucceeds);
    }
    ok := insertOk && deleteOk;
  }

  method Handler(secret: QueryValue, env: Environment, store: AlbumStore) returns (response: Response)
    modifies store
    // 401 exactly for a wrong secret
    ensures response == InvalidToken <==> !SecretMatches(secret, env.revalidateToken)
    // a wrong secret, a failed connection or a failed read: 500 (or 401) and the store untouched
    ensures !ReachesWrites(secret, env) ==>
              && store.records == old(store.records)
              && store.writes == old(store.writes)
              && (SecretMatches(secret, env.revalidateToken) ==> response == ErrorRevalidating)
    ensures ReachesWrites(secret, env) ==>
              var stored := old(store.records);
              var fetched := FetchAlbums(env).value;
              var toInsert := AlbumsToInsert(fetched, stored, env.masterData);
              var toDelete := AlbumIdsToRemove(stored, fetched);
              var inserted := |toInsert| > 0 && env.insertSucceeds;
              var deleted := |toDelete| > 0 && env.deleteSucceeds;
              var afterInsert := if inserted then stored + toInsert else stored;
              // writes are issued only for non-empty lists
              && store.writes == old(store.writes) + IssuedWrites(toInsert, toDelete)
              // each write that went through is applied, a failed one changes nothing
              && store.records == (if deleted then Without(afterInsert, toDelete) else afterInsert)
              // any failed write turns the answer into 500
              && (response == Revalidated <==> (|toInsert| == 0 || env.insertSucceeds) && (|toDelete| == 0 || env.deleteSucceeds))
              && (response != Revalidated ==> response == ErrorRevalidating)
              // on success the store holds the still-fetched albums, then the new ones
              && (response == Revalidated ==> store.records == KeptAlbums(stored, fetched) + toInsert)
    // idempotence: identical id sets mean no writes at all
    ensures ReachesWrites(secret, env) &&
            (forall albumId :: IsStored(old(store.records), albumId) <==> IsFetched(FetchAlbums(env).value, albumId)) ==>
              && store.writes == old(store.writes)
              && store.records == old(store.records)
              && response == Revalidated
  {
    if !SecretMatches(secret, env.revalidateToken) {
      return InvalidToken;
    }
    if !env.connects {
      return ErrorRevalidating;
    }
    var storedAlbums := store.FindAll(env.readSucceeds);
    var fetchedAlbums := FetchAlbums(env);
    if storedAlbums.Failure? || fetchedAlbums.Failure? {
      return ErrorRevalidating;
    }
    var stored, fetched := storedAlbums.value, fetchedAlbums.value;

    var toInsert := AlbumsToInsert(fetched, stored, env.masterData);
    var toDelete := AlbumIdsToRemove(stored, fetched);

    ghost var sameIds := forall albumId :: IsStored(stored, albumId) <==> IsFetched(fetched, albumId);
    if sameIds {
      NoWritesWhenIdsCoincide(stored, fetched, env.masterData);
    }

    var written := WriteChanges(store, toInsert, toDelete, env);
    if !written {
      return ErrorRevalidating;
    }
    ReconciledCollection(stored, fetched, env.masterData);
    if toDelete == [] {
      FilterKeepsAll((x: RawReleaseWithMasterData) => x.Id() !in toDelete, stored + toInsert);
    }
    return Revalidated;
  }
}
