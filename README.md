# Vinyl collection: cache reconciliation, album filter and unused-export report

A Dafny model of the logic in a Next.js site that shows a record collection
fetched from the Discogs API and cached in a MongoDB collection. Three parts are
modelled.

- **The revalidation endpoint** (`src/pages/api/revalidate.ts`). The endpoint checks
  the shared secret, then reads the cached albums and fetches the collection. It
  selects the fetched albums whose id is not cached yet, and tries to attach master
  data to each one. An album whose master data cannot be fetched is dropped for this
  round. It computes the ids of the cached albums that are no longer fetched. It
  then issues `insertMany` and `deleteMany`, each only when its list is non-empty.
  It answers 401 for a wrong secret, 500 for any failure and 200 otherwise.
  - The pure steps are functions in module `Reconcile`, and `Remote` covers the HTTP
    status check and the request headers.
  - The cache is the class `Store.AlbumStore`, whose `records` and write log are
    updated in place.
  - The handler is the method `Revalidate.Handler`.
  - The outside world (configuration, the driver's outcomes, the API's replies) is
    one `Environment` value per call.
- **The collection page** (`src/pages/index.tsx`). The search box filters the
  albums on the lowered artist, title and optionally track titles (`AlbumFilter`).
  A failed server-side load becomes empty props with the `rejected` status.
- **The unused-export script** (`find-unused-exports.js`). The analyser's listing
  of unused exports per file is reduced to a report. Next.js page files lose their
  framework entry points, and page files with nothing left are dropped. The exit
  code is 0 exactly when the report is empty (`UnusedExports`).

Shared pieces:
- `Common`: `Option`, `Result`, an order-preserving `Filter` and `IsSubsequence`.
- `Text`: substring search `Includes` and an ASCII `ToLower`.
- `Release`: the record types of `src/shared/Release.ts`.

## Model

| member | source | states |
|---|---|---|
| Reconcile.AlbumsToEnrich | src/pages/api/revalidate.ts:32-34 | the albums selected for enrichment are an order-preserving subsequence of the fetched list; each is fetched and has an id absent from the stored albums; every fetched album with an unstored id is selected |
| Reconcile.FetchMasterDataForAlbum | src/pages/api/revalidate.ts:39-69 | a result is always the album itself with only master data added; an album whose master URL is null or empty is kept with no master data; otherwise it is kept exactly when the master request answers an ok status with a JSON body, and that body is the attached master data |
| Reconcile.AlbumsWithMasterData | src/pages/api/revalidate.ts:36-72 | after `.filter(Boolean)` the enriched albums keep the order of the input albums; each is the successful enrichment of its album, and every album whose enrichment succeeds is present |
| Reconcile.AlbumIdsToRemove | src/pages/api/revalidate.ts:75-78 | an id is in the delete list exactly when some stored album has it and no fetched album does; the list is exactly the stored ids, in stored order and with repeats, that no fetched album has |
| Reconcile.KeptAlbums | src/pages/api/revalidate.ts:75-94 | the stored albums whose id is still fetched, in stored order and with every copy of each; no other stored album survives |
| Reconcile.AlbumsWithMasterDataConcat | src/pages/api/revalidate.ts:36-72 | enrichment is done per album: enriching a concatenation concatenates the results |
| Reconcile.FailedMasterDataDropsOnlyThatAlbum | src/pages/api/revalidate.ts:54-63 | an album whose master request fails is left out, and the result is exactly what the other albums give on their own |
| Reconcile.MasterDataReadOnlyAtMasterUrls | src/pages/api/revalidate.ts:42-53 | only master URLs are requested: replies at any other URL, including for albums without a master URL, cannot change the result |
| Reconcile.InsertedAlbumsAreNewFetchedAlbums | src/pages/api/revalidate.ts:32-72 | every inserted album is a fetched album whose id was not stored, and inserted albums keep their fetched order |
| Reconcile.DeletingRemovedIdsKeepsFetchedAlbums | src/pages/api/revalidate.ts:90-93 | deleting the computed ids leaves exactly the stored albums that are still fetched |
| Reconcile.ReconciledCollection | src/pages/api/revalidate.ts:83-94 | after both writes the collection is the kept stored albums followed by the inserted ones, and the two writes commute |
| Reconcile.NothingToEnrichWhenAllStored | src/pages/api/revalidate.ts:32-34 | when every fetched id is stored, nothing is selected for enrichment |
| Reconcile.NothingToRemoveWhenAllFetched | src/pages/api/revalidate.ts:75-78 | when every stored id is fetched, the delete list is empty |
| Reconcile.NoWritesWhenIdsCoincide | src/pages/api/revalidate.ts:85-93 | when stored and fetched ids coincide, both the insert set and the delete list are empty |
| Reconcile.SecondRoundDeletesNothing | src/pages/api/revalidate.ts:75-94 | a second round against the same fetched list after a successful one deletes nothing |
| Reconcile.SecondRoundInsertsNothing | src/pages/api/revalidate.ts:32-94 | when every new album could be enriched, a second round against the same fetched list inserts nothing |
| Remote.Request | src/pages/api/revalidate.ts:114-140 | a request succeeds exactly when a response arrives with a 2xx status and a decodable JSON body, whose value is then the result; a non-2xx status is reported as a status error for that URL |
| Remote.Headers | src/pages/api/revalidate.ts:142-157 | four distinct headers: JSON `Accept` and `Content-Type`, and `User-Agent` and `Authorization` set to the configured values or to the empty string when unset |
| Store.Without | src/pages/api/revalidate.ts:90-93 | `deleteMany({ id: { $in: ids } })` keeps exactly the records whose id is not listed, every copy of each, in their order |
| Store.AlbumStore.FindAll | src/api/albums/albums.ts:9-22 | the read succeeds exactly when the driver does, and then returns every stored album |
| Store.AlbumStore.InsertMany | src/pages/api/revalidate.ts:85-88 | the write is logged; on success the batch is appended to the records, on failure the records are unchanged |
| Store.AlbumStore.DeleteByIds | src/pages/api/revalidate.ts:90-93 | the write is logged; on success the records lose exactly the listed ids, on failure they are unchanged |
| Revalidate.Response.Status | src/pages/api/revalidate.ts:18-20 | the three answers map one-to-one to the status codes 401, 500 and 200 |
| Revalidate.ConfiguredTokenAcceptsOnlyItself | src/pages/api/revalidate.ts:18-20 | with a configured token, only that token given once passes the strict inequality check |
| Revalidate.UnsetTokenAcceptsMissingSecret | src/pages/api/revalidate.ts:18-20 | with no token configured, exactly the requests without a secret pass |
| Revalidate.FetchAlbums | src/pages/api/revalidate.ts:103-112 | the collection fetch succeeds exactly when the request to the configured endpoint does, and then yields its `releases` |
| Revalidate.IssuedWrites | src/pages/api/revalidate.ts:83-94 | `insertMany` is issued exactly when the insert set is non-empty, `deleteMany` exactly when the delete list is non-empty, each at most once, and nothing else |
| Revalidate.WriteChanges | src/pages/api/revalidate.ts:83-94 | the store's write log gains the issued writes; the records reflect the writes that went through; success means every issued write went through |
| Revalidate.Handler | src/pages/api/revalidate.ts:14-101 | 401 exactly for a wrong secret; a wrong secret, failed connection or failed read leaves the store untouched and a failure gives 500; otherwise the issued writes and resulting records are as computed, 200 exactly when every issued write succeeds, and then the store holds the still-fetched albums followed by the new ones; with coinciding ids no write is issued and the answer is 200 |
| Text.IncludesIffOccursAt | src/pages/index.tsx:24-34 | `includes` holds exactly when the needle occurs at some position of the string |
| Text.ToLower | src/pages/index.tsx:24-34 | lowering keeps the length, lowers each ASCII capital and leaves no capital |
| Text.ToLowerIdempotent | src/pages/index.tsx:24-34 | lowering twice is lowering once |
| AlbumFilter.FilterAlbums | src/pages/index.tsx:18-42 | the empty query gives every album; otherwise the result is an order-preserving subsequence, and an album is in it exactly when its lowered artist or title contains the lowered query, or track titles are included and one of them does; a kept album appears as many times as in the input, a dropped one never |
| AlbumFilter.InitialState | src/pages/index.tsx:16 | the page first shows every album |
| AlbumFilter.HandleFilterAlbums | src/pages/index.tsx:18-42 | the albums never change; the shown list is exactly what `FilterAlbums` keeps of the original albums, so a subsequence of them, and all of them for the empty query |
| AlbumFilter.FilteringIsNotCumulative | src/pages/index.tsx:23 | filtering twice shows what the second query alone shows |
| AlbumFilter.EmptyQueryShortcutAgreesWithFilter | src/pages/index.tsx:19-21 | the early return for the empty query shows the same list the general filter would |
| AlbumFilter.IncludeTrackOnlyWidens | src/pages/index.tsx:32-38 | the result without track titles is a subsequence of the result with them |
| AlbumFilter.MatchIgnoresQueryCase | src/pages/index.tsx:24-34 | the case of the query does not matter |
| AlbumFilter.ServerSideProps | src/pages/index.tsx:75-94 | a failed load gives no albums and the rejected status; a successful one passes the albums through with the resolved status |
| UnusedExports.IsSomeStringFromListIncludedInString | find-unused-exports.js:77-81 | true exactly when some string of the list occurs in the given string; false for the empty list |
| UnusedExports.PageExports | find-unused-exports.js:32-34 | a page loses exactly its `getStaticProps`, `getServerSideProps` and `default` exports; the others keep their order |
| UnusedExports.EntryFor | find-unused-exports.js:26-53 | a file adds at most one entry, under its own name and with a subsequence of its exports; it adds none exactly when it is a page with nothing left |
| UnusedExports.Report | find-unused-exports.js:25-54 | at most one entry per file, and the entry names follow the order of the files |
| UnusedExports.ReportConcat | find-unused-exports.js:25-54 | the report of a concatenation is the concatenation of the reports |
| UnusedExports.ReportEntriesComeFromFiles | find-unused-exports.js:25-54 | each entry carries the name of some input file and a subsequence of that file's exports |
| UnusedExports.ReportAround | find-unused-exports.js:25-54 | the report is the report of the files before a given file, then what it adds, then the report of the files after it |
| UnusedExports.ReportOmitsUnlistedName | find-unused-exports.js:25-54 | no entry carries a name that no input file has |
| UnusedExports.PageFileWithNothingLeftIsOmitted | find-unused-exports.js:36-44 | a page file whose only unused exports are framework entry points has no entry |
| UnusedExports.PageFileReportsRemainingExports | find-unused-exports.js:31-44 | a page file with some other unused export has an entry holding exactly its non-framework exports |
| UnusedExports.OtherFileReportedAsGiven | find-unused-exports.js:47-53 | any other file has an entry holding its exports exactly as given |
| UnusedExports.ExitCode | find-unused-exports.js:56-75 | the exit code is 0 for an empty report and 1 otherwise |
| UnusedExports.ExitCodeZeroIffNothingToReport | find-unused-exports.js:25-75 | the script exits with 0 exactly when every listed file is a page whose unused exports are all framework entry points |

## Left out

- The network: `fetch`, `response.text()` and `response.json()` are a `Reply` value (no response, or a status with an optional decoded body). Master-data replies are a function from URL to `Reply`.
- The shape of decoded bodies. A decoded collection body is taken to be a `Raw` and a decoded master-data body a `RawMasterData`; the source attaches whatever valid JSON a 2xx master-data reply holds, of any shape, and the model has no value for JSON of another shape. A body that is not valid JSON is the `None` body of a `Reply`.
- The text of a non-2xx response and of every error message, VError chaining and all logging. Errors are plain datatypes.
- `Promise.all` concurrency. The two reads, the per-album master requests and the two writes are taken in source order. `Reconcile.ReconciledCollection` shows that the insert and the delete commute, so their order does not change the final collection.
- `res.revalidate("/")`. A failure there would also end in 500; the model's 200 does not account for it.
- The MongoDB driver and connection (`src/db/db.connect.ts`). Each driver call's outcome is a boolean in `Environment`. A write either applies entirely or changes nothing; partial `insertMany` or `deleteMany` is not modelled.
- A collection body without a `releases` field. The body is always decoded as a `Raw`.
- JavaScript `toLowerCase` beyond ASCII. `Text.ToLower` lowers only `A`-`Z`.
- The fields of the Discogs records that the logic never reads. Their types are kept as plain values.
- The album formatter and sort step (`getAlbums`), which is not part of this model. Its result is the input of `AlbumFilter.ServerSideProps`.
- The React rendering, styling and the debounced filter input.
- The console output of `find-unused-exports.js` and the call of `process.exit`. `UnusedExports.ExitCode` gives the code. The analyser `ts-unused-exports` is not part of this model; its result is the input listing, as file names with their unused exports in key order.
