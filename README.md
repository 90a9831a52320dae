# Spotify listening history and AcousticBrainz enrichment, modelled in Dafny

This project models the core of a small ETL system that keeps a listening-history database up to date. It has two pipelines.

- **Sync (`spotify_etl.py`).** The Spotify "recently played" reply becomes one row per play. The genres of each artist become `(artist_id, genre)` pairs. The batch is validated. It is then merged into the tables `plays`, `song_data`, `artist_data` and `genres`, behind a `played_at` watermark and with keep-first deduplication against what is already stored.
- **Enrichment (`ab_etl.py`).** It selects the ISRCs that still need audio features. It resolves each ISRC to a MusicBrainz recording id (MBID), retrying on HTTP 429, and fetches each MBID's high-level features from AcousticBrainz, again retrying on 429. The payloads become feature rows. The results are appended to `acousticbrainz_data`, with negative caches in `failed_isrcs` and `invalid_mbids`.

## How the model is built

- **The database.** `Tables.Db` holds the seven tables as sequences of rows. `Tables.Store` is the mutable store: a class with one field per table.
- **State-changing operations.** They are methods, with a loop wherever the source loops; `SpotifySync.Load` and `SpotifySync.Append` have none and follow the source's sequence of filters and appends. Each method is proved equal to a specification function:
  - `SpotifySync.Load` and `SpotifySync.Append` are proved against `SpotifySync.LoadSpec`;
  - `AcousticBrainz.Load` against `AcousticBrainz.LoadSpec`;
  - `SpotifySync.FlattenItems`, `SpotifySync.CollectGenres`, `AcousticBrainz.IsrcToMbid`, `AcousticBrainz.Extract` and `AcousticBrainz.Transform` against `RowsOf`, `GenresOf`, `ResolveSpec`, `ExtractSpec` and `TransformSpec`.
- **Lemmas.** They state what the source promises about those specification functions.
- **HTTP replies.** Each request gets a script: the finite sequence of replies the server would give, one per attempt (`Http.Response`). The retry loop acts on the first reply that is not a 429 (`Http.Settled`). A script must contain such a reply, otherwise the source would loop forever.
- **Nullable values.** SQL NULL and Python `None` become `Option`. A missing or falsy track id, artist id or MBID is the empty string. `played_at` is an integer, taken as totally ordered.
- **Rounding.** `round(duration_ms / 1000)` uses Python's round-half-to-even (`SpotifySync.RoundMillis`).

Main results:
- **Sync.** Loading is idempotent: a second load of the same batch changes nothing. No key violation arises for a genre batch without repeated pairs, and only plays strictly later than the watermark are appended, in ascending order. Tracks, artists and genre pairs are appended only when new, the first occurrence winning; the genre pairs come grouped by artist, in the order the batch first mentions the artists.
- **Enrichment.** Every looked-up ISRC lands in exactly one of the MBID list and the failed list. The mbid→isrc mapping is last-write-wins. `extract`, `transform` and `load` are classified exactly by status code and filter. `load` runs in one transaction: when one of its inserts would repeat a table key, nothing is stored (`AcousticBrainz.LoadSpec`), and a load never leaves a key twice (`AcousticBrainz.LoadKeepsEnrichmentKeys`). A pass over distinct missing ISRCs commits when no two of its lookups find the same recording and no invalid MBID is already recorded (`AcousticBrainz.PassCommits`). It then settles every ISRC whose lookup found nothing and every ISRC whose new recording is found by no later ISRC (`AcousticBrainz.PassProgress`). A pass never leaves an ISRC with both a feature row and a `failed_isrcs` row (`AcousticBrainz.PassExclusive`). A "shadowed" ISRC, whose recording a later ISRC also finds, provably stays missing and is looked up again on the next run (`AcousticBrainz.PassShadowed`). The Findings show two passes that break these conditions and, as written, store none of their results, on every run.

## Model

| member | source | states |
|---|---|---|
| Tables.Store.constructor | spotify_etl.py:62-102 | a store holds exactly the tables it is created with |
| Http.SettleIndex | ab_etl.py:58-78 | the retry loop makes one attempt per 429 reply, then acts on the first reply that is not a 429 |
| Http.Settled | ab_etl.py:58-78 | the reply acted on is not a 429 and comes from the script |
| Seqs.Distinct | spotify_etl.py:143-147 | the distinct elements (dictionary keys): no repeats, same members |
| Seqs.DistinctFirstSeen | spotify_etl.py:143-147 | first-seen order (dictionary key order): an element listed before another occurs in the input before every occurrence of the other |
| Seqs.Exclude | spotify_etl.py:225 | `~isin` filtering: keeps exactly the elements whose key is not in the given set |
| Seqs.DedupFrom | spotify_etl.py:226 | keep-first `drop_duplicates`: survivors come from the input, no key twice, every key not yet seen represented |
| Seqs.DedupKeepsFirst | spotify_etl.py:226 | the row kept for a key is the first row carrying it |
| Seqs.ExcludeNoDup | spotify_etl.py:241 | filtering a sequence without repeats leaves one without repeats |
| Seqs.ExcludeColumnNoDup | ab_etl.py:188 | filtering rows keeps a column without repeats free of repeats |
| Seqs.KeysFresh | ab_etl.py:179-218 | an insert violates no key: the rows repeat no key among themselves or with the table (predicate) |
| Seqs.KeysFreshAppend | ab_etl.py:179-218 | rows without a repeated key and sharing no key with the table append to a table without a repeated key |
| SpotifySync.RoundMillis | spotify_etl.py:125 | the seconds are within half a second of the milliseconds, and ties go to the even value |
| SpotifySync.FirstSeparator | spotify_etl.py:132 | the first position of ", ", or the length when there is none |
| SpotifySync.Split | spotify_etl.py:132 | splitting on ", " yields at least one piece |
| SpotifySync.Join | spotify_etl.py:132 | `", ".join`: the names with ", " between consecutive ones (specification function, no contract of its own; `SplitJoin` is its inverse) |
| SpotifySync.SplitJoin | spotify_etl.py:132 | joining names that contain no ", " with ", " can be undone by splitting |
| SpotifySync.RowOf | spotify_etl.py:121-133 | the row of one item with a track id (specification function; its meaning is stated by `RowFields`) |
| SpotifySync.RowFields | spotify_etl.py:121-133 | a row carries the item's ids and time; primary artist and artist id from the first artist or ""; featured artists "" for at most one artist, otherwise the other names joined, stated as a round trip (splitting at ", " gives the other names back) for names without ", "; duration 0 when missing, otherwise rounded seconds |
| SpotifySync.RowsOf | spotify_etl.py:114-133 | no more rows than items, and no row without a track id |
| SpotifySync.RowsOfAppend | spotify_etl.py:114-121 | the rows of two replies concatenated are the concatenated rows |
| SpotifySync.RowsInOrder | spotify_etl.py:114-121 | each item contributes its own row in place when it has a track id, and nothing otherwise |
| SpotifySync.FlattenItems | spotify_etl.py:114-133 | the first loop builds exactly the rows of the reply and their artist-id column |
| SpotifySync.FirstMissing | spotify_etl.py:143-147 | none exactly when every artist has information; otherwise the first artist without any |
| SpotifySync.FirstMissingAfter | spotify_etl.py:144-146 | the lookup fails at the first artist without information after a prefix whose artists all have some |
| SpotifySync.GenresOfArtist | spotify_etl.py:162 | exactly the pairs of one artist with each of its genres |
| SpotifySync.PairsOf | spotify_etl.py:162-163 | a pair is produced exactly when its artist is listed and the genre is one of that artist's |
| SpotifySync.PairsOfAgree | spotify_etl.py:143-147 | the pairs depend only on the genres of the listed artists |
| SpotifySync.GenresOf | spotify_etl.py:143-163 | the genre pairs of the batch's distinct artists, or the first artist without information (specification function; stated by `GenresOfMeaning` and `GenresOfOrder`) |
| SpotifySync.GenresOfMeaning | spotify_etl.py:143-163 | the genre output succeeds exactly when every batch artist has information, and is then exactly the batch artists' pairs; otherwise it names the first artist without information |
| SpotifySync.PairsOfNoDup | spotify_etl.py:162-163 | distinct artists with repeat-free genre lists give no pair twice |
| SpotifySync.GenresOfNoDup | spotify_etl.py:143-163 | the genre output holds no pair twice when no artist repeats a genre |
| SpotifySync.PairsOfGroupedAt | spotify_etl.py:162-163 | for distinct listed artists, the artist of an earlier pair is listed no later than the artist of a later pair |
| SpotifySync.PairsOfGrouped | spotify_etl.py:162-163 | the pairs come artist by artist, in the order the artists are listed |
| SpotifySync.GenresOfOrder | spotify_etl.py:143-163 | the genre output is grouped by artist, the artists in the order the batch first mentions them |
| SpotifySync.GenresOfOrderAt | spotify_etl.py:143-163 | for one pair of output positions: the earlier pair's artist occurs in the batch no later than any occurrence of the later pair's artist |
| SpotifySync.CollectGenres | spotify_etl.py:143-163 | the genre loop and the flattening compute the specified genre output, or fail at the first artist without information |
| SpotifySync.TransformSpec | spotify_etl.py:104-164 | the rows of the reply and the genre output of their artists, or the error naming an artist without information (specification function) |
| SpotifySync.Transform | spotify_etl.py:104-164 | `_transform` returns the rows and genre pairs of the reply, or the error for an artist without information |
| SpotifySync.TransformArtistless | spotify_etl.py:133-146 | a track with an id but no artists gets the artist id "", which the lookup never answers for, so the transform fails |
| SpotifySync.UniqueTimes | spotify_etl.py:172 | true exactly when no two rows share a `played_at` |
| SpotifySync.Validate | spotify_etl.py:166-177 | false exactly for an empty batch; an error exactly when a `played_at` repeats; true otherwise |
| SpotifySync.Latest | spotify_etl.py:188-193 | none for an empty plays table, otherwise the greatest `played_at`, which some play has |
| SpotifySync.AfterWatermark | spotify_etl.py:209-213 | keeps exactly the rows strictly later than the watermark; all rows when there is none; none when no row is later |
| SpotifySync.Insert | spotify_etl.py:214 | inserting into an ascending sequence keeps it ascending and adds exactly the element |
| SpotifySync.SortByTime | spotify_etl.py:214 | the result is ascending by time and a permutation of the input |
| SpotifySync.NewSongRows | spotify_etl.py:223-226 | rows whose track is not persisted, no track twice, every new track represented |
| SpotifySync.NewArtistRows | spotify_etl.py:232-235 | rows whose artist is not persisted, no artist twice, every new artist represented |
| SpotifySync.NewGenres | spotify_etl.py:240-241 | exactly the batch pairs not already persisted |
| SpotifySync.Survivors | spotify_etl.py:207-214 | exactly the batch rows later than the watermark, in ascending time order; none when no row is later |
| SpotifySync.Merge | spotify_etl.py:219-243 | the four appends of a load that goes ahead (specification function; stated by the `Merge…` lemmas) |
| SpotifySync.LoadSpec | spotify_etl.py:179-249 | the store after `_load` and the outcome it reports: unchanged for an empty, rejected or stale batch, otherwise merged (specification function; stated by `LoadCases` and the `Load…` lemmas) |
| SpotifySync.Load | spotify_etl.py:179-249 | `_load` leaves the store and reports the outcome the merge specification gives |
| SpotifySync.Append | spotify_etl.py:219-243 | the four appends change the store to the merge of the survivors and report the four counts |
| SpotifySync.LoadCases | spotify_etl.py:181-218 | a load either merges validated survivors or leaves the store unchanged |
| SpotifySync.MergePlays | spotify_etl.py:219 | appended plays are exactly the survivors' plays, strictly ascending, each later than the watermark |
| SpotifySync.LoadWatermark | spotify_etl.py:207-219 | old plays kept; appended plays strictly later than the watermark, strictly ascending, from the batch; every later batch play appended when loaded; no change otherwise |
| SpotifySync.LoadNoSurvivors | spotify_etl.py:181-218 | an empty batch, or one with no play later than the watermark, changes no table |
| SpotifySync.ExcludeThenDedup | spotify_etl.py:225-226 | filtering out persisted ids and then deduplicating is deduplication that treats persisted ids as seen |
| SpotifySync.MergeSongsFrom | spotify_etl.py:223-229 | appended tracks come from survivors and none is already persisted |
| SpotifySync.MergeSongsDistinct | spotify_etl.py:226-229 | no track id is appended twice |
| SpotifySync.MergeSongsFirst | spotify_etl.py:225-229 | each new track id gets the track of its first survivor |
| SpotifySync.MergeArtists | spotify_etl.py:232-236 | each appended artist row (id and name) is the artist of an appended track, its id not persisted; no id twice; every appended track with an unpersisted artist id has its artist appended |
| SpotifySync.NewArtistsOf | spotify_etl.py:232-236 | the artist rows made from track rows are unpersisted, each the artist (id and name) of one of the rows, one per id, and cover every unpersisted artist id of the rows |
| SpotifySync.MergeArtistsFirst | spotify_etl.py:234-236 | each new artist id gets the name from the first appended track that carries it |
| SpotifySync.LoadNewSongs | spotify_etl.py:223-229 | appended tracks come only from plays later than the watermark and are new; the enrichment tables are untouched |
| SpotifySync.LoadSongsDistinct | spotify_etl.py:226-229 | a load appends no track id twice |
| SpotifySync.LoadSongsFirst | spotify_etl.py:225-229 | a load appends, for each new track id, the track of its earliest surviving play |
| SpotifySync.LoadNewArtists | spotify_etl.py:232-236 | each appended artist row (id and name) is the artist of a newly appended track, its id not persisted; no id twice; every appended track with an unpersisted artist id has its artist appended |
| SpotifySync.LoadArtistsFirst | spotify_etl.py:234-236 | a load gives each new artist id the name from the first appended track that carries it |
| SpotifySync.MergeGenres | spotify_etl.py:240-242 | appended pairs are exactly the batch pairs not persisted |
| SpotifySync.LoadNewGenres | spotify_etl.py:240-242 | a load appends exactly the batch pairs not persisted, and none when it does not go ahead |
| SpotifySync.MergeCoversBatch | spotify_etl.py:207-219 | after a merge no batch play is later than the new watermark |
| SpotifySync.LoadIdempotent | spotify_etl.py:179-243 | loading the same batch twice changes nothing the second time and reports nothing loaded |
| SpotifySync.FreshPlayKeys | spotify_etl.py:219 | plays later than every persisted one, with distinct times among themselves, keep `played_at` unique when appended |
| SpotifySync.MergePlayKeys | spotify_etl.py:219 | appending validated survivors keeps `played_at` unique |
| SpotifySync.MergeSongKeys | spotify_etl.py:223-229 | appending new tracks keeps `track_id` unique |
| SpotifySync.MergeArtistKeys | spotify_etl.py:232-236 | appending new artists keeps `artist_id` unique |
| SpotifySync.MergeGenreKeys | spotify_etl.py:240-242 | appending new pairs keeps pairs unique |
| SpotifySync.KeysUnique | spotify_etl.py:62-102 | the declared keys hold: `played_at`, `track_id`, `artist_id` and the (artist, genre) pair are each unique (predicate; the `genres` foreign key is not part of it) |
| SpotifySync.LoadKeepsKeysUnique | spotify_etl.py:179-243 | for a genre batch without repeated pairs, a load preserves the uniqueness of the four table keys |
| AcousticBrainz.MissingIsrcs | ab_etl.py:32-48 | exactly the non-null ISRCs of `song_data` absent from all three result tables, without duplicates |
| AcousticBrainz.FirstMatch | ab_etl.py:61-68 | the recording a settled lookup picks: the first listed by a 200 reply, none otherwise (specification function) |
| AcousticBrainz.ResolveSpec | ab_etl.py:50-81 | the MBID list, failed list and mapping of `isrc_to_mbid` (specification function; stated by the `Resolve…` lemmas) |
| AcousticBrainz.IsrcToMbid | ab_etl.py:50-81 | the lookup loop with its retry loop computes the specified MBID list, failed list and mapping |
| AcousticBrainz.ResolvePartition | ab_etl.py:56-78 | MBIDs plus failures equal the number of ISRCs; the mapping's keys are exactly the MBIDs found |
| AcousticBrainz.ResolveFailed | ab_etl.py:61-78 | an ISRC is failed exactly when a lookup of it settled without a recording, by a 200 listing none or by an other status |
| AcousticBrainz.ResolveMbids | ab_etl.py:61-68 | the MBID list holds exactly the first recordings of the lookups that found one |
| AcousticBrainz.ResolveLastWriteWins | ab_etl.py:66-68 | a mapped MBID maps to the ISRC of the last lookup that found it |
| AcousticBrainz.ResolveOwner | ab_etl.py:66-68 | the last lookup to find a recording owns its mapping entry |
| AcousticBrainz.ResolveFailedUnmapped | ab_etl.py:61-78 | with distinct ISRCs, no failed ISRC is a value of the mapping |
| AcousticBrainz.ResolveShadowed | ab_etl.py:61-78 | an ISRC whose recording a later ISRC also finds is neither failed nor mapped |
| AcousticBrainz.ResolveFailedDistinct | ab_etl.py:61-78 | distinct ISRCs give a failed list without repeats |
| AcousticBrainz.ResolveMbidsDistinct | ab_etl.py:61-68 | when no two lookups find the same recording, the MBID list has no repeats |
| AcousticBrainz.ResolveForLoad | ab_etl.py:50-81 | for distinct missing ISRCs the mapping gives distinct MBIDs distinct unsettled ISRCs, and the failed ISRCs are distinct and unsettled |
| AcousticBrainz.ExtractScan | ab_etl.py:87-110 | the payloads stored and the MBIDs answered 404, in request order (specification function; stated by the `Scan…` lemmas) |
| AcousticBrainz.ExtractSpec | ab_etl.py:83-112 | the outcome of `extract`, its invalid list deduplicated (specification function; stated by `ExtractOutcome`) |
| AcousticBrainz.Extract | ab_etl.py:83-112 | the fetch loop with its retry loop computes the specified payloads and invalid list |
| AcousticBrainz.ScanDataKeys | ab_etl.py:95-98 | a payload is stored exactly for the non-empty MBIDs one of whose fetches settled with 200 |
| AcousticBrainz.ScanDataLast | ab_etl.py:95-98 | the stored payload is the body of the last 200 that MBID received |
| AcousticBrainz.ScanInvalid | ab_etl.py:102-105 | an MBID is reported invalid exactly when one of its fetches settled with 404 |
| AcousticBrainz.ExtractOutcome | ab_etl.py:87-110 | 200 stores, 404 marks invalid, other statuses store nothing; the invalid list has no repeats; the empty MBID is skipped |
| AcousticBrainz.HighLevel | ab_etl.py:127 | the high-level part of an MBID's payload, empty when the payload or its high-level part is missing |
| AcousticBrainz.ValueOf | ab_etl.py:131-137 | a classifier's `value`, null when the classifier is missing |
| AcousticBrainz.ProbabilityOf | ab_etl.py:133-135 | a classifier's `probability`, null when the classifier is missing |
| AcousticBrainz.FeaturesOf | ab_etl.py:127-139 | a record carries the given ISRC and MBID, and a classifier missing from the payload leaves its fields null |
| AcousticBrainz.TransformSpec | ab_etl.py:114-141 | one record per usable MBID occurrence, in list order (specification function; stated by `TransformMbids`, `TransformRows`, `TransformEmits`) |
| AcousticBrainz.Transform | ab_etl.py:114-141 | the transform loop computes the specified records |
| AcousticBrainz.UsableMbids | ab_etl.py:117-125 | exactly the MBIDs that are non-empty, not invalid and mapped to a non-empty ISRC |
| AcousticBrainz.TransformMbids | ab_etl.py:116-140 | one record per usable MBID, in input order |
| AcousticBrainz.TransformRows | ab_etl.py:126-140 | each record's ISRC is its MBID's mapped ISRC, its fields read from that MBID's payload; all null when the payload was never fetched |
| AcousticBrainz.TransformEmits | ab_etl.py:116-140 | every usable MBID of the list gets a record with its mapped ISRC |
| AcousticBrainz.UsableMbidsDistinct | ab_etl.py:117-125 | an MBID list without repeats has usable MBIDs without repeats |
| AcousticBrainz.TransformForLoad | ab_etl.py:116-140 | for an MBID list without repeats, the records have distinct MBIDs, each with its mapped ISRC |
| AcousticBrainz.FailedRows | ab_etl.py:195-199 | one stamped row per failed ISRC, in order (specification function; stated by the failed-row clause of `LoadAppends` and by `LoadSettles`) |
| AcousticBrainz.InvalidRows | ab_etl.py:204-213 | a stamped row with the mapped ISRC for exactly the invalid MBIDs that have a mapping entry |
| AcousticBrainz.EnrichmentKeysUnique | ab_etl.py:148-173 | the declared keys hold: `isrc` and `mbid` of `acousticbrainz_data`, `isrc` of `failed_isrcs`, `mbid` of `invalid_mbids` are each unique (predicate) |
| AcousticBrainz.Commits | ab_etl.py:179-221 | none of the three inserts repeats a key of its table, keys as declared at ab_etl.py:149-150, 162 and 168 (predicate) |
| AcousticBrainz.NewFeatures | ab_etl.py:185-188 | the feature records whose MBID is not yet persisted (specification function; stated by `LoadAppends`) |
| AcousticBrainz.LoadCommits | ab_etl.py:179-221 | `load`'s transaction commits: its three inserts, as `load` builds them, violate no key (predicate; sufficient conditions in `LoadCommitsWhen`) |
| AcousticBrainz.LoadSpec | ab_etl.py:175-221 | the three appends of `load` when none repeats a key of `acousticbrainz_data` (isrc, mbid), `failed_isrcs` (isrc) or `invalid_mbids` (mbid); otherwise the transaction rolls back and nothing changes (specification function; stated by `LoadAppends`) |
| AcousticBrainz.Load | ab_etl.py:175-221 | `load` changes the store exactly as the load specification says, writing nothing when an insert violates a key |
| AcousticBrainz.CollectInvalid | ab_etl.py:204-213 | the loop builds exactly the invalid-MBID rows |
| AcousticBrainz.LoadAppends | ab_etl.py:179-221 | only appends, and nothing without a commit; on commit, feature rows exactly those whose MBID is not persisted, every failed ISRC stamped, invalid rows exactly for mapped MBIDs; empty inputs leave tables unchanged; Spotify tables untouched |
| AcousticBrainz.LoadSettles | ab_etl.py:175-218 | no ISRC becomes missing again; on commit, failed ISRCs, ISRCs of appended features and mapped ISRCs of invalid MBIDs are no longer missing |
| AcousticBrainz.LoadKeepsEnrichmentKeys | ab_etl.py:148-221 | a load never leaves a key of the three enrichment tables twice |
| AcousticBrainz.InvalidRowsKeys | ab_etl.py:204-213 | distinct invalid MBIDs give invalid-MBID rows with distinct keys |
| AcousticBrainz.LoadCommitsWhen | ab_etl.py:179-221 | `load` commits for records with distinct MBIDs carrying their mapped ISRCs, an injective mapping onto unsettled ISRCs, distinct unsettled failed ISRCs and distinct unrecorded invalid MBIDs |
| AcousticBrainz.Pass | ab_etl.py:223-240 | one run: lookup, fetch, transform and load composed (specification function; stated by the `Pass…` lemmas) |
| AcousticBrainz.PassCommits | ab_etl.py:223-240 | a pass over distinct missing ISRCs commits when no two lookups find the same recording and no invalid MBID is already recorded |
| AcousticBrainz.PassProgress | ab_etl.py:223-240 | under `PassCommits`' conditions, one pass settles an ISRC with no recording, and one whose recording is new and non-empty and found by no later ISRC |
| AcousticBrainz.CachesExclusive | ab_etl.py:32-48 | no ISRC has both a feature row and a `failed_isrcs` row (predicate) |
| AcousticBrainz.PassExclusive | ab_etl.py:175-240 | a pass over distinct missing ISRCs keeps `acousticbrainz_data` and `failed_isrcs` exclusive: no ISRC has a row in both |
| AcousticBrainz.PassShadowed | ab_etl.py:223-240 | an ISRC whose recording a later ISRC of the same pass also finds stays missing after the pass |
| AcousticBrainz.SharedRecordingRollsBack | ab_etl.py:116-221 | as written, two ISRCs resolving to one recording make `load` roll back, so the store is unchanged and every ISRC of the pass stays missing |
| AcousticBrainz.RecordedInvalidRollsBack | ab_etl.py:168-221 | as written, a recording already recorded invalid and answered 404 again makes `load` roll back, so its ISRC stays missing |
| AcousticBrainz.CorrectedPass | ab_etl.py:116-221 | the pass as evidently intended: one record per recording, and no second row for an MBID already recorded invalid (specification function; stated by `CorrectedPassCommits` and `CorrectedPassProgress`) |
| AcousticBrainz.CorrectedPassCommits | ab_etl.py:116-221 | the corrected pass, one record per recording and no second row for a recorded invalid MBID, always commits on distinct missing ISRCs |
| AcousticBrainz.CorrectedPassProgress | ab_etl.py:223-240 | the corrected pass settles an ISRC with no recording, and one whose recording is new and found by no later ISRC, whatever recordings other lookups share |

## Left out

- HTTP requests, timeouts, `time.sleep`, tqdm progress bars and printed diagnostics are left out. Replies are scripted inputs, and a lookup that never stops answering 429 (where the source loops forever) is excluded by precondition.
- Exceptions raised by `requests` or the JSON decoder are left out. They propagate to `run` and abort the pass.
- Spotify OAuth, the browser and the local callback server (`localserver.py`) are left out: they are interactive. The "recently played" call and the artist lookup are foreign calls, and their results are inputs.
  - A raised artist lookup is modelled as no artist information.
  - An artist without a `genres` entry must be given as having the empty list.
- The SQL engine and the schema are not modelled; tables are plain sequences. The enrichment `load`'s transaction and the key constraints of its three tables are modelled: an insert that would repeat a key rolls the whole load back. The Spotify `_load`'s constraints are not modelled; there `SpotifySync.LoadKeepsKeysUnique` shows that no key violation arises for a genre batch without repeated pairs.
- The foreign key from `genres` to `artist_data` is not modelled, and the model can leave it dangling: the genre pairs of every batch artist are appended, while only artists of surviving plays get an `artist_data` row. SQLite does not enforce foreign keys unless asked to, so nothing raises.
- `played_at` timestamps are integers. ISO 8601 parsing and the comparison of a stored string with a parsed datetime are not modelled.
- Probabilities are opaque values (`Prob`) that are never computed on.
- `last_attempt` wall-clock stamps are one opaque `Stamp` per load. The source reads the clock again for each invalid-MBID row.
- AcousticBrainz.MissingIsrcs: the result is a set, not the list the source returns, because the order of `list(set(...))` is unspecified in Python. `extract`'s invalid list, also built by `list(set(...))`, uses first-seen order, and no property depends on that order.
- SpotifySync.RowFields: the featured-artists join is stated only through its inverse, on artist names that contain no ", "; for a name such as "Earth, Wind & Fire" the contract says nothing about `featuredArtists`, though the source joins the names all the same. Stating the join itself would only repeat the body of `RowOf`.
- AcousticBrainz.PassProgress: it promises progress only for passes that commit (no two lookups sharing a recording, no invalid MBID recorded before); the other passes store nothing, as the Findings show.
- `sql_to_excel.py` and `main.py` are not part of this model: they hold spreadsheet export and an interactive prompt.
- The `run` methods are modelled only as the composition `AcousticBrainz.Pass`, which the pass lemmas use. Their try/except/finally plumbing and engine disposal are left out.
- SpotifySync.Load: the try/except around the whole merge is modelled only for the duplicate-`played_at` exception raised by validation, which happens before any write (outcome `Rejected`, store unchanged). Database errors raised after some appends, which would leave earlier appends in place because they go through the engine, are not modelled.

## Findings

| source | as written | input that shows it | evidently intended | confidence | as-written member | corrected member |
|---|---|---|---|---|---|---|
| ab_etl.py:116-139 | `transform` emits one record per occurrence of an MBID in the list, so two ISRCs resolving to one recording give two records with the same `isrc` and `mbid`; their insert violates the key of `acousticbrainz_data`, the transaction rolls back, and the error is caught and printed, so no result of the pass is stored and each later run repeats the same rollback | songs with ISRCs "A", "B", "C"; "A" and "B" both resolve to recording "M", "C" is not found; the fetch of "M" answers 200 | one record per recording (the MBID list deduplicated, `AcousticBrainz.CorrectedPass`), so the pass commits and settles "B" and "C" | not executed | AcousticBrainz.SharedRecordingRollsBack | AcousticBrainz.CorrectedPass (stated by CorrectedPassCommits, CorrectedPassProgress) |
| ab_etl.py:204-217 | `load` inserts an `invalid_mbids` row for every MBID answered 404, including one already recorded there, whose key `mbid` it repeats; the transaction rolls back and the ISRC never settles | `invalid_mbids` holds "M" (recorded for ISRC "B"); the missing ISRC "A" resolves to "M", whose fetch answers 404 again | skip MBIDs already recorded invalid, as feature rows already persisted are skipped (`AcousticBrainz.CorrectedPass`), so the pass commits | not executed | AcousticBrainz.RecordedInvalidRollsBack | AcousticBrainz.CorrectedPass (stated by CorrectedPassCommits, CorrectedPassProgress) |
