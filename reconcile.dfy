/** The pure part of the revalidation handler (src/pages/api/revalidate.ts): which
    fetched albums are new, how each new album gets its master data (or is dropped
    for this round), which stored albums are gone, and what the collection looks
    like once both writes have gone through. Albums are matched on `id` only. */
module Reconcile {
  import opened Common
  import opened Release
  import opened Remote
  import opened Store

  /** `storedAlbums.find(({ id }) => id === albumId)` finds a document. */
  predicate IsStored(stored: seq<RawReleaseWithMasterData>, albumId: int) {
    exists k :: 0 <= k < |stored| && stored[k].Id() == albumId
  }

  /** `fetchedAlbums.find(({ id }) => id === albumId)` finds a release. */
  predicate IsFetched(fetched: seq<RawRelease>, albumId: int) {
    exists k :: 0 <= k < |fetched| && fetched[k].id == albumId
  }

  /** The fetched albums whose id is not stored yet, in fetched order. */
  function AlbumsToEnrich(fetched: seq<RawRelease>, stored: seq<RawReleaseWithMasterData>): (r: seq<RawRelease>)
    ensures IsSubsequence(r, fetched)
    ensures forall i :: 0 <= i < |r| ==> r[i] in fetched && !IsStored(stored, r[i].id)
    ensures forall i :: 0 <= i < |fetched| && !IsStored(stored, fetched[i].id) ==> fetched[i] in r
  {
    Filter((album: RawRelease) => !IsStored(stored, album.id), fetched)
  }

  /** `!album.basic_information.master_url` is false: the URL is neither null nor empty. */
  predicate HasMasterUrl(album: RawRelease) {
    album.basicInformation.masterUrl.Some? && album.basicInformation.masterUrl.value != ""
  }

  function MasterUrl(album: RawRelease): string
    requires HasMasterUrl(album)
  {
    album.basicInformation.masterUrl.value
  }

  /** What the master-data endpoint answers for each URL. */
  type MasterDataSource = string -> Reply<RawMasterData>

  /** `fetchMasterDataForAlbum`: an album without a master URL gets undefined master
      data and no request; otherwise the album is kept, with the decoded master data
      attached, only when the request succeeds. The album itself is never altered. */
  function FetchMasterDataForAlbum(album: RawRelease, source: MasterDataSource): (r: Option<RawReleaseWithMasterData>)
    ensures r.Some? ==> r.value.release == album
    ensures !HasMasterUrl(album) ==> r == Some(RawReleaseWithMasterData(album, None))
    ensures HasMasterUrl(album) ==>
              var reply := source(MasterUrl(album));
              && (r.Some? <==> reply.Response? && IsOk(reply.status) && reply.json.Some?)
              && (r.Some? ==> r.value.masterData == reply.json)
  {
    if !HasMasterUrl(album) then
      Some(RawReleaseWithMasterData(album, None))
    else
      match Request(MasterUrl(album), source(MasterUrl(album)))
      case Failure(_) => None
      case Success(masterData) => Some(RawReleaseWithMasterData(album, Some(masterData)))
  }

  /** The fetched releases inside a list of enriched albums. */
  function Releases(albums: seq<RawReleaseWithMasterData>): (r: seq<RawRelease>)
    ensures |r| == |albums|
    ensures forall i :: 0 <= i < |albums| ==> r[i] == albums[i].release
  {
    seq(|albums|, i requires 0 <= i < |albums| => albums[i].release)
  }

  /** Lines 36-72: enrich every album, then `.filter(Boolean)` drops the ones whose
      master data could not be fetched. The survivors keep their relative order. */
  function AlbumsWithMasterData(albums: seq<RawRelease>, source: MasterDataSource): (r: seq<RawReleaseWithMasterData>)
    ensures IsSubsequence(Releases(r), albums)
    ensures forall i :: 0 <= i < |r| ==> FetchMasterDataForAlbum(r[i].release, source) == Some(r[i])
    ensures forall i :: 0 <= i < |albums| && FetchMasterDataForAlbum(albums[i], source).Some? ==>
              FetchMasterDataForAlbum(albums[i], source).value in r
    decreases |albums|
  {
    if albums == [] then []
    else
      var rest := AlbumsWithMasterData(albums[1..], source);
      assert forall i :: 1 <= i < |albums| ==> albums[i] == albums[1..][i - 1];
      match FetchMasterDataForAlbum(albums[0], source)
      case None =>
        assert IsSubsequence(Releases(rest), albums[1..]);
        rest
      case Some(enriched) =>
        var names := Releases([enriched] + rest);
        assert names == [albums[0]] + Releases(rest);
        assert names[0] == albums[0] && names[1..] == Releases(rest);
        assert forall i :: 1 <= i < |[enriched] + rest| ==> ([enriched] + rest)[i] == rest[i - 1];
        [enriched] + rest
  }

  /** The albums the handler inserts: the new ones that could be enriched. */
  function AlbumsToInsert(fetched: seq<RawRelease>, stored: seq<RawReleaseWithMasterData>, source: MasterDataSource): seq<RawReleaseWithMasterData>
  {
    AlbumsWithMasterData(AlbumsToEnrich(fetched, stored), source)
  }

  /** The ids of every stored album in stored order. */
  function Ids(albums: seq<RawReleaseWithMasterData>): (r: seq<int>)
    ensures |r| == |albums|
    ensures forall i :: 0 <= i < |albums| ==> r[i] == albums[i].Id()
  {
    seq(|albums|, i requires 0 <= i < |albums| => albums[i].Id())
  }

  /** The test an id must fail to stay in the collection: no fetched album has it. */
  function NotFetched(fetched: seq<RawRelease>): int -> bool {
    (albumId: int) => !IsFetched(fetched, albumId)
  }

  /** Lines 75-78, the `reduce` over the stored albums: the id of every stored album
      that is missing from the fetched list, in stored order and once per stored
      album (an id shared by two stored albums is listed twice). */
  function AlbumIdsToRemove(stored: seq<RawReleaseWithMasterData>, fetched: seq<RawRelease>): (r: seq<int>)
    ensures forall albumId :: albumId in r <==> IsStored(stored, albumId) && !IsFetched(fetched, albumId)
    ensures IsSubsequence(r, Ids(stored))
    ensures r == Filter(NotFetched(fetched), Ids(stored))
    decreases |stored|
  {
    if stored == [] then []
    else
      var prev := stored[..|stored| - 1];
      var album := stored[|stored| - 1];
      var acc := AlbumIdsToRemove(prev, fetched);
      assert Ids(stored) == Ids(prev) + [album.Id()];
      assert forall albumId :: IsStored(stored, albumId) <==> IsStored(prev, albumId) || album.Id() == albumId by {
        forall albumId | IsStored(stored, albumId) ensures IsStored(prev, albumId) || album.Id() == albumId {
          var k :| 0 <= k < |stored| && stored[k].Id() == albumId;
          if k < |prev| {
            assert prev[k] == stored[k];
          }
        }
        forall albumId | IsStored(prev, albumId) ensures IsStored(stored, albumId) {
          var k :| 0 <= k < |prev| && prev[k].Id() == albumId;
          assert stored[k] == prev[k];
        }
      }
      FilterSnoc(NotFetched(fetched), Ids(prev), album.Id());
      SubsequenceSnoc(acc, Ids(prev), album.Id());
      if IsFetched(fetched, album.Id()) then
        acc
      else
        acc + [album.Id()]
  }

  /** The stored albums whose id is still in the fetched list, untouched and in order. */
  function KeptAlbums(stored: seq<RawReleaseWithMasterData>, fetched: seq<RawRelease>): (r: seq<RawReleaseWithMasterData>)
    ensures IsSubsequence(r, stored)
    ensures forall i :: 0 <= i < |r| ==> IsFetched(fetched, r[i].Id())
    ensures forall i :: 0 <= i < |stored| && IsFetched(fetched, stored[i].Id()) ==> stored[i] in r
    ensures forall x :: multiset(r)[x] == if IsFetched(fetched, x.Id()) then multiset(stored)[x] else 0
  {
    FilterCount((album: RawReleaseWithMasterData) => IsFetched(fetched, album.Id()), stored);
    Filter((album: RawReleaseWithMasterData) => IsFetched(fetched, album.Id()), stored)
  }

  /** Master data is handled album by album: enriching a concatenation enriches each part. */
  lemma {:induction false} AlbumsWithMasterDataConcat(a: seq<RawRelease>, b: seq<RawRelease>, source: MasterDataSource)
    ensures AlbumsWithMasterData(a + b, source) == AlbumsWithMasterData(a, source) + AlbumsWithMasterData(b, source)
    decreases |a|
  {
    if a == [] {
      assert a + b == b;
    } else {
      assert (a + b)[0] == a[0];
      assert (a + b)[1..] == a[1..] + b;
      AlbumsWithMasterDataConcat(a[1..], b, source);
    }
  }

  /** A failed master-data request drops that album and changes nothing for the others;
      the round itself still produces the rest. */
  lemma FailedMasterDataDropsOnlyThatAlbum(before: seq<RawRelease>, album: RawRelease, after: seq<RawRelease>, source: MasterDataSource)
    requires HasMasterUrl(album)
    requires Request(MasterUrl(album), source(MasterUrl(album))).Failure?
    ensures AlbumsWithMasterData(before + [album] + after, source)
         == AlbumsWithMasterData(before, source) + AlbumsWithMasterData(after, source)
  {
    assert FetchMasterDataForAlbum(album, source).None?;
    assert AlbumsWithMasterData([album], source) == [] by {
      assert [album][1..] == [];
      assert AlbumsWithMasterData([album], source) == AlbumsWithMasterData([], source);
    }
    AlbumsWithMasterDataConcat(before + [album], after, source);
    AlbumsWithMasterDataConcat(before, [album], source);
    assert AlbumsWithMasterData(before + [album], source) == AlbumsWithMasterData(before, source);
  }

  /** Only master URLs are ever requested: two sources that agree on the URLs of the
      albums that have one give the same enrichment, whatever they answer elsewhere.
      In particular an album without a master URL never causes a request. */
  lemma {:induction false} MasterDataReadOnlyAtMasterUrls(albums: seq<RawRelease>, s1: MasterDataSource, s2: MasterDataSource)
    requires forall i :: 0 <= i < |albums| && HasMasterUrl(albums[i]) ==> s1(MasterUrl(albums[i])) == s2(MasterUrl(albums[i]))
    ensures AlbumsWithMasterData(albums, s1) == AlbumsWithMasterData(albums, s2)
    decreases |albums|
  {
    if albums != [] {
      assert forall i :: 0 <= i < |albums[1..]| ==> albums[1..][i] == albums[i + 1];
      MasterDataReadOnlyAtMasterUrls(albums[1..], s1, s2);
    }
  }

  /** Every inserted album is a fetched album (with only master data added) whose id
      was not stored, and inserted albums keep their fetched order. */
  lemma InsertedAlbumsAreNewFetchedAlbums(fetched: seq<RawRelease>, stored: seq<RawReleaseWithMasterData>, source: MasterDataSource)
    ensures IsSubsequence(Releases(AlbumsToInsert(fetched, stored, source)), fetched)
    ensures forall e :: e in AlbumsToInsert(fetched, stored, source) ==>
              e.release in fetched && IsFetched(fetched, e.Id()) && !IsStored(stored, e.Id())
  {
    var toEnrich := AlbumsToEnrich(fetched, stored);
    var toInsert := AlbumsToInsert(fetched, stored, source);
    SubsequenceTransitive(Releases(toInsert), toEnrich, fetched);
    forall e | e in toInsert
      ensures e.release in fetched && IsFetched(fetched, e.Id()) && !IsStored(stored, e.Id())
    {
      var i :| 0 <= i < |toInsert| && toInsert[i] == e;
      SubsequenceMembers(Releases(toInsert), toEnrich, i);
      var j :| 0 <= j < |fetched| && fetched[j] == e.release;
    }
  }

  /** Every element of a subsequence occurs in the longer sequence. */
  lemma {:induction false} SubsequenceMembers<T>(xs: seq<T>, ys: seq<T>, i: nat)
    requires IsSubsequence(xs, ys) && i < |xs|
    ensures xs[i] in ys
    decreases |ys|
  {
    if xs[0] == ys[0] && IsSubsequence(xs[1..], ys[1..]) {
      if i > 0 {
        SubsequenceMembers(xs[1..], ys[1..], i - 1);
      }
    } else {
      SubsequenceMembers(xs, ys[1..], i);
    }
  }

  /** Deleting the computed ids leaves exactly the stored albums that are still fetched. */
  lemma DeletingRemovedIdsKeepsFetchedAlbums(stored: seq<RawReleaseWithMasterData>, fetched: seq<RawRelease>)
    ensures Without(stored, AlbumIdsToRemove(stored, fetched)) == KeptAlbums(stored, fetched)
  {
    var ids := AlbumIdsToRemove(stored, fetched);
    forall x | x in stored
      ensures (x.Id() !in ids) == IsFetched(fetched, x.Id())
    {
      var k :| 0 <= k < |stored| && stored[k] == x;
      assert IsStored(stored, x.Id());
    }
    FilterCongruent((x: RawReleaseWithMasterData) => x.Id() !in ids,
                    (album: RawReleaseWithMasterData) => IsFetched(fetched, album.Id()), stored);
  }

  /** After both writes the collection holds the kept albums followed by the inserted
      ones, and the two writes commute: no inserted id is among the deleted ids. */
  lemma ReconciledCollection(stored: seq<RawReleaseWithMasterData>, fetched: seq<RawRelease>, source: MasterDataSource)
    ensures var toInsert := AlbumsToInsert(fetched, stored, source);
            var toDelete := AlbumIdsToRemove(stored, fetched);
            && Without(stored + toInsert, toDelete) == KeptAlbums(stored, fetched) + toInsert
            && Without(stored, toDelete) + toInsert == KeptAlbums(stored, fetched) + toInsert
  {
    var toInsert := AlbumsToInsert(fetched, stored, source);
    var toDelete := AlbumIdsToRemove(stored, fetched);
    var notDeleted := (x: RawReleaseWithMasterData) => x.Id() !in toDelete;
    InsertedAlbumsAreNewFetchedAlbums(fetched, stored, source);
    FilterConcat(notDeleted, stored, toInsert);
    FilterKeepsAll(notDeleted, toInsert);
    DeletingRemovedIdsKeepsFetchedAlbums(stored, fetched);
  }

  /** Nothing is new when every fetched id is already stored. */
  lemma NothingToEnrichWhenAllStored(fetched: seq<RawRelease>, stored: seq<RawReleaseWithMasterData>)
    requires forall j :: 0 <= j < |fetched| ==> IsStored(stored, fetched[j].id)
    ensures AlbumsToEnrich(fetched, stored) == []
  {
    FilterDropsAll((album: RawRelease) => !IsStored(stored, album.id), fetched);
  }

  /** Nothing is removed when every stored id is still fetched. */
  lemma {:induction false} NothingToRemoveWhenAllFetched(stored: seq<RawReleaseWithMasterData>, fetched: seq<RawRelease>)
    requires forall k :: 0 <= k < |stored| ==> IsFetched(fetched, stored[k].Id())
    ensures AlbumIdsToRemove(stored, fetched) == []
    decreases |stored|
  {
    if stored != [] {
      var prev := stored[..|stored| - 1];
      assert forall k :: 0 <= k < |prev| ==> prev[k] == stored[k];
      NothingToRemoveWhenAllFetched(prev, fetched);
      assert IsFetched(fetched, stored[|stored| - 1].Id());
    }
  }

  /** Idempotence: when the stored ids and the fetched ids coincide, nothing is
      inserted and nothing is deleted. */
  lemma NoWritesWhenIdsCoincide(stored: seq<RawReleaseWithMasterData>, fetched: seq<RawRelease>, source: MasterDataSource)
    requires forall albumId :: IsStored(stored, albumId) <==> IsFetched(fetched, albumId)
    ensures AlbumsToInsert(fetched, stored, source) == []
    ensures AlbumIdsToRemove(stored, fetched) == []
  {
    forall j | 0 <= j < |fetched| ensures IsStored(stored, fetched[j].id) {
      assert IsFetched(fetched, fetched[j].id);
    }
    NothingToEnrichWhenAllStored(fetched, stored);
    forall k | 0 <= k < |stored| ensures IsFetched(fetched, stored[k].Id()) {
      assert IsStored(stored, stored[k].Id());
    }
    NothingToRemoveWhenAllFetched(stored, fetched);
  }

  /** After a successful round, a second round with the same fetched list deletes nothing. */
  lemma SecondRoundDeletesNothing(stored: seq<RawReleaseWithMasterData>, fetched: seq<RawRelease>, source: MasterDataSource)
    ensures AlbumIdsToRemove(KeptAlbums(stored, fetched) + AlbumsToInsert(fetched, stored, source), fetched) == []
  {
    var kept := KeptAlbums(stored, fetched);
    var toInsert := AlbumsToInsert(fetched, stored, source);
    InsertedAlbumsAreNewFetchedAlbums(fetched, stored, source);
    forall i | 0 <= i < |toInsert| ensures IsFetched(fetched, toInsert[i].Id()) {
      assert toInsert[i] in toInsert;
    }
    AllFetchedConcat(kept, toInsert, fetched);
    NothingToRemoveWhenAllFetched(kept + toInsert, fetched);
  }

  lemma AllFetchedConcat(a: seq<RawReleaseWithMasterData>, b: seq<RawReleaseWithMasterData>, fetched: seq<RawRelease>)
    requires forall k :: 0 <= k < |a| ==> IsFetched(fetched, a[k].Id())
    requires forall k :: 0 <= k < |b| ==> IsFetched(fetched, b[k].Id())
    ensures forall k :: 0 <= k < |a + b| ==> IsFetched(fetched, (a + b)[k].Id())
  {
    forall k | 0 <= k < |a + b| ensures IsFetched(fetched, (a + b)[k].Id()) {
      if k < |a| {
        assert (a + b)[k] == a[k];
      } else {
        assert (a + b)[k] == b[k - |a|];
      }
    }
  }

  /** An id is stored in a concatenation exactly when it is stored in one of the parts. */
  lemma IsStoredConcat(a: seq<RawReleaseWithMasterData>, b: seq<RawReleaseWithMasterData>, albumId: int)
    ensures IsStored(a + b, albumId) <==> IsStored(a, albumId) || IsStored(b, albumId)
  {
    if IsStored(a + b, albumId) {
      var k :| 0 <= k < |a + b| && (a + b)[k].Id() == albumId;
      if k >= |a| {
        assert b[k - |a|] == (a + b)[k];
      }
    }
    if IsStored(a, albumId) {
      var k :| 0 <= k < |a| && a[k].Id() == albumId;
      assert (a + b)[k] == a[k];
    }
    if IsStored(b, albumId) {
      var k :| 0 <= k < |b| && b[k].Id() == albumId;
      assert (a + b)[|a| + k] == b[k];
    }
  }

  /** When every new album could be enriched, a second round with the same fetched
      list inserts nothing: every fetched id is now stored. */
  lemma SecondRoundInsertsNothing(stored: seq<RawReleaseWithMasterData>, fetched: seq<RawRelease>, source: MasterDataSource)
    requires forall album :: album in AlbumsToEnrich(fetched, stored) ==> FetchMasterDataForAlbum(album, source).Some?
    ensures AlbumsToInsert(fetched, KeptAlbums(stored, fetched) + AlbumsToInsert(fetched, stored, source), source) == []
  {
    var kept := KeptAlbums(stored, fetched);
    var toInsert := AlbumsToInsert(fetched, stored, source);
    var toEnrich := AlbumsToEnrich(fetched, stored);
    forall j | 0 <= j < |fetched| ensures IsStored(kept + toInsert, fetched[j].id) {
      var album := fetched[j];
      IsStoredConcat(kept, toInsert, album.id);
      if IsStored(stored, album.id) {
        var k :| 0 <= k < |stored| && stored[k].Id() == album.id;
        assert IsFetched(fetched, stored[k].Id());
        var m :| 0 <= m < |kept| && kept[m] == stored[k];
        assert IsStored(kept, album.id);
      } else {
        assert album in toEnrich;
        var e := FetchMasterDataForAlbum(album, source).value;
        var i :| 0 <= i < |toEnrich| && toEnrich[i] == album;
        var m :| 0 <= m < |toInsert| && toInsert[m] == e;
        assert IsStored(toInsert, album.id);
      }
    }
    NothingToEnrichWhenAllStored(fetched, kept + toInsert);
  }
}
