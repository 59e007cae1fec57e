/** The collection page (src/pages/index.tsx): the album filter behind the search
    box, the page's filtered-list state, and how a failed load becomes page props.
    Albums have the display shape of src/api/albums/albums.Album.ts. */
module AlbumFilter {
  import opened Common
  import opened Text

  datatype Track = Track(title: string, position: string, duration: string)

  datatype Video = Video(url: string, title: string)

  /** A formatted album as the page receives it. */
  datatype AlbumType = AlbumType(
    id: int,
    artist: string,
    title: string,
    printedYear: int,
    releasedYear: int,
    thumbnail: string,
    coverImage: string,
    format: string,
    numberOfDiscs: string,
    recordLabel: string,         // `label`, a reserved word here
    labelCategoryNumber: string,
    genres: seq<string>,
    tracks: seq<Track>,
    videos: seq<Video>)

  /** What the filter box reports: the typed text and whether track titles count. */
  datatype FilterOptions = FilterOptions(query: string, includeTrack: bool)

  /** Some track title contains `lowerQuery` once lowered (`album.tracks.some(...)`). */
  predicate TrackMatches(album: AlbumType, lowerQuery: string) {
    exists i :: 0 <= i < |album.tracks| && Includes(ToLower(album.tracks[i].title), lowerQuery)
  }

  /** `filterAlbum`: the lowered artist or title contains the lowered query, or track
      titles are included and one of them does. */
  predicate MatchesQuery(album: AlbumType, query: string, includeTrack: bool) {
    var q := ToLower(query);
    var matchArtist := Includes(ToLower(album.artist), q);
    var matchTitle := Includes(ToLower(album.title), q);
    var matchTrack := if includeTrack then TrackMatches(album, q) else false;
    matchArtist || matchTitle || matchTrack
  }

  /** `handleFilterAlbums`: the empty query shows every album; any other query keeps,
      in their original order, exactly the albums it matches, every copy of each. */
  function FilterAlbums(albums: seq<AlbumType>, options: FilterOptions): (r: seq<AlbumType>)
    ensures options.query == "" ==> r == albums
    ensures IsSubsequence(r, albums)
    ensures options.query != "" ==>
              forall i :: 0 <= i < |r| ==>
                var q := ToLower(options.query);
                || Includes(ToLower(r[i].artist), q)
                || Includes(ToLower(r[i].title), q)
                || (options.includeTrack && TrackMatches(r[i], q))
    ensures options.query != "" ==>
              forall i :: 0 <= i < |albums| ==>
                var q := ToLower(options.query);
                (|| Includes(ToLower(albums[i].artist), q)
                 || Includes(ToLower(albums[i].title), q)
                 || (options.includeTrack && TrackMatches(albums[i], q))) ==> albums[i] in r
    ensures forall a :: multiset(r)[a] ==
              if options.query == "" || MatchesQuery(a, options.query, options.includeTrack) then multiset(albums)[a] else 0
  {
    if options.query == "" then
      SubsequenceReflexive(albums);
      albums
    else
      FilterCount((album: AlbumType) => MatchesQuery(album, options.query, options.includeTrack), albums);
      Filter((album: AlbumType) => MatchesQuery(album, options.query, options.includeTrack), albums)
  }

  /** The page's state: the albums it was rendered with and the ones it shows. */
  datatype HomeState = HomeState(albums: seq<AlbumType>, filteredAlbums: seq<AlbumType>)

  /** `useState(albums)`: at first every album is shown. */
  function InitialState(albums: seq<AlbumType>): (state: HomeState)
    ensures state.albums == albums && state.filteredAlbums == albums
  {
    HomeState(albums, albums)
  }

  /** `setFilteredAlbums(...)`: the shown list is replaced by a filter of the ORIGINAL
      albums, exactly the ones `FilterAlbums` keeps; the albums themselves never change. */
  function HandleFilterAlbums(state: HomeState, options: FilterOptions): (next: HomeState)
    ensures next.albums == state.albums
    ensures IsSubsequence(next.filteredAlbums, state.albums)
    ensures options.query == "" ==> next.filteredAlbums == state.albums
    ensures next.filteredAlbums == FilterAlbums(state.albums, options)
  {
    HomeState(state.albums, FilterAlbums(state.albums, options))
  }

  /** Filtering is not cumulative: the last query alone decides what is shown. */
  lemma FilteringIsNotCumulative(state: HomeState, first: FilterOptions, second: FilterOptions)
    ensures HandleFilterAlbums(HandleFilterAlbums(state, first), second) == HandleFilterAlbums(state, second)
  {
  }

  /** The empty query is contained in every lowered string, so the early return for it
      shows the same list that the general filter would. */
  lemma EmptyQueryShortcutAgreesWithFilter(albums: seq<AlbumType>, includeTrack: bool)
    ensures Filter((album: AlbumType) => MatchesQuery(album, "", includeTrack), albums) == albums
  {
    forall album | album in albums ensures MatchesQuery(album, "", includeTrack) {
      EmptyIsIncluded(ToLower(album.artist));
    }
    FilterKeepsAll((album: AlbumType) => MatchesQuery(album, "", includeTrack), albums);
  }

  /** Including track titles only adds albums: the result without them is a
      subsequence of the result with them. */
  lemma IncludeTrackOnlyWidens(albums: seq<AlbumType>, query: string)
    ensures IsSubsequence(FilterAlbums(albums, FilterOptions(query, false)),
                          FilterAlbums(albums, FilterOptions(query, true)))
  {
    if query == "" {
      SubsequenceReflexive(albums);
    } else {
      FilterWeaker((album: AlbumType) => MatchesQuery(album, query, false),
                   (album: AlbumType) => MatchesQuery(album, query, true), albums);
    }
  }

  /** Matching ignores the case of the query. */
  lemma MatchIgnoresQueryCase(album: AlbumType, query: string, includeTrack: bool)
    ensures MatchesQuery(album, ToLower(query), includeTrack) == MatchesQuery(album, query, includeTrack)
  {
    ToLowerIdempotent(query);
  }

  datatype LoadStatus = Resolved | Rejected

  /** The props the page is rendered with. */
  datatype Props = Props(albums: seq<AlbumType>, status: LoadStatus)

  /** `getServerSideProps`: a failed load gives no albums and the rejected status;
      a successful one passes the albums through unchanged. */
  function ServerSideProps(loaded: Result<seq<AlbumType>, string>): (props: Props)
    ensures props.status == Rejected <==> loaded.Failure?
    ensures loaded.Failure? ==> props.albums == []
    ensures loaded.Success? ==> props.albums == loaded.value
  {
    match loaded
    case Failure(_) => Props([], Rejected)
    case Success(albums) => Props(albums, Resolved)
  }
}
