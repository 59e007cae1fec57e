/** The catalog's record shapes (src/shared/Release.ts). The reconciliation reads
    only `id` and `basic_information.master_url`; the other fields are plain values
    that a cached document carries as fetched. Kept: every field of a collection
    entry; of its basic information the ids, master URL, images, title, year,
    formats, labels, artists and genres; of a label its name, catalog number and
    id; of an artist its name and id; of master data its id, title, year, genres,
    tracklist (position, title, duration) and videos (URI, title). Not kept: every
    `resource_url`, `styles`, the label entity types, the artist credits, and the
    master's release links, prices, images, artists, notes and data quality. */
module Release {
  import opened Common

  datatype Format = Format(name: string, qty: string, text: Option<string>, descriptions: seq<string>)

  datatype Label = Label(name: string, catno: string, id: int)

  datatype Artist = Artist(name: string, id: int)

  /** `basic_information` of a collection entry; `master_url` is `string | null`. */
  datatype BasicInformation = BasicInformation(
    id: int,
    masterId: int,
    masterUrl: Option<string>,
    thumb: string,
    coverImage: string,
    title: string,
    year: int,
    formats: seq<Format>,
    labels: seq<Label>,
    artists: seq<Artist>,
    genres: seq<string>)

  datatype TrackEntry = TrackEntry(position: string, title: string, duration: string)

  datatype VideoEntry = VideoEntry(uri: string, title: string)

  /** Supplementary data fetched from a release's `master_url`. */
  datatype RawMasterData = RawMasterData(
    id: int,
    title: string,
    year: int,
    genres: seq<string>,
    tracklist: seq<TrackEntry>,
    videos: seq<VideoEntry>)

  /** One entry of the remote collection; `id` is its identity. */
  datatype RawRelease = RawRelease(
    id: int,
    instanceId: int,
    dateAdded: string,
    rating: int,
    basicInformation: BasicInformation,
    folderId: int)

  /** `{ ...release, masterData }`: a collection entry with its master data attached,
      or `undefined` master data. This is the shape cached in the database. */
  datatype RawReleaseWithMasterData = RawReleaseWithMasterData(release: RawRelease, masterData: Option<RawMasterData>)
  {
    function Id(): int { release.id }
  }

  /** The body of the collection endpoint. */
  datatype Raw = Raw(releases: seq<RawRelease>)
}
