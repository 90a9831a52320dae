/** The relational store shared by both pipelines: one row type per table,
    the whole store as a value, and the mutable store whose fields are the
    tables. */
module Tables {
  import opened Wrappers

  /** Table `plays`, keyed by `played_at`. */
  datatype Play = Play(playedAt: int, trackId: string)

  /** Table `song_data`, keyed by `track_id`; `isrc` may be NULL. */
  datatype Song = Song(
    trackId: string, songName: string, featuredArtists: string,
    albumName: string, releaseDate: string, durationSec: int,
    artistId: string, url: string, isrc: Option<string>)

  /** Table `artist_data`, keyed by `artist_id`. */
  datatype Artist = Artist(artistId: string, artistName: string)

  /** Table `genres`, keyed by the pair. */
  datatype GenrePair = GenrePair(artistId: string, genre: string)

  /** A floating-point probability; it is carried through, never computed on. */
  datatype Prob = Prob(bits: int)

  /** Table `acousticbrainz_data`, keyed by `isrc`, `mbid` unique. */
  datatype FeatureRow = FeatureRow(
    isrc: string, mbid: string,
    danceability: Option<string>,
    instrumentality: Option<string>, instrumentalityProb: Option<Prob>,
    gender: Option<string>, genderProb: Option<Prob>,
    timbre: Option<string>, tonality: Option<string>)

  /** A wall-clock reading, opaque to the model. */
  type Stamp = int

  /** Table `failed_isrcs`: ISRCs that resolved to no recording. */
  datatype FailedIsrc = FailedIsrc(isrc: string, lastAttempt: Stamp)

  /** Table `invalid_mbids`: recordings without feature data. */
  datatype InvalidMbid = InvalidMbid(mbid: string, isrc: string, lastAttempt: Stamp)

  /** The contents of every table at one moment. */
  datatype Db = Db(
    plays: seq<Play>, songs: seq<Song>, artists: seq<Artist>,
    genres: seq<GenrePair>, features: seq<FeatureRow>,
    failedIsrcs: seq<FailedIsrc>, invalidMbids: seq<InvalidMbid>)

  /** The persistent store. Rows are only ever appended. */
  class Store {
    var plays: seq<Play>
    var songs: seq<Song>
    var artists: seq<Artist>
    var genres: seq<GenrePair>
    var features: seq<FeatureRow>
    var failedIsrcs: seq<FailedIsrc>
    var invalidMbids: seq<InvalidMbid>

    function Snapshot(): Db
      reads this
    {
      Db(plays, songs, artists, genres, features, failedIsrcs, invalidMbids)
    }

    /** Opens a store holding `db`. */
    constructor (db: Db)
      ensures Snapshot() == db
    {
      plays, songs, artists, genres := db.plays, db.songs, db.artists, db.genres;
      features, failedIsrcs, invalidMbids := db.features, db.failedIsrcs, db.invalidMbids;
    }
  }

  function TrackIds(songs: seq<Song>): set<string> {
    set s | s in songs :: s.trackId
  }

  function ArtistIds(artists: seq<Artist>): set<string> {
    set a | a in artists :: a.artistId
  }

  function PersistedMbids(rows: seq<FeatureRow>): set<string> {
    set r | r in rows :: r.mbid
  }

  function InvalidIds(rows: seq<InvalidMbid>): set<string> {
    set v | v in rows :: v.mbid
  }
}
