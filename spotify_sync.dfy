/** The listening-history sync: flattening the "recently played" reply into
    play/track rows and (artist, genre) pairs, validating a batch, and the
    incremental merge into the store behind a single played-at watermark. */
module SpotifySync {
  import opened Wrappers
  import opened Seqs
  import opened Tables

  // ---------------------------------------------------------------------
  // The reply of the "recently played" endpoint

  datatype RawArtist = RawArtist(id: string, name: string)

  /** A track object; `id == ""` stands for a missing or empty track id and
      `durationMs == None` for a missing `duration_ms`. */
  datatype RawTrack = RawTrack(
    id: string, name: string, albumName: string, releaseDate: string,
    durationMs: Option<int>, url: string, isrc: Option<string>,
    artists: seq<RawArtist>)

  /** One play item; a missing `track` object is a track without id. */
  datatype Item = Item(playedAt: int, track: RawTrack)

  /** One row of the transformed batch. */
  datatype TrackRow = TrackRow(
    playedAt: int, songName: string, artistName: string,
    featuredArtists: string, albumName: string, releaseDate: string,
    durationSec: int, trackId: string, artistId: string, url: string,
    isrc: Option<string>)

  function RowPlayedAt(r: TrackRow): int { r.playedAt }
  function RowTrackId(r: TrackRow): string { r.trackId }
  function RowArtistId(r: TrackRow): string { r.artistId }

  // ---------------------------------------------------------------------
  // Row flattening

  /** `round(ms / 1000)`: the nearest whole second, ties to the even one. */
  function RoundMillis(ms: int): (s: int)
    ensures -500 <= 1000 * s - ms <= 500
    ensures (1000 * s - ms == 500 || 1000 * s - ms == -500) ==> s % 2 == 0
  {
    var q, rem := ms / 1000, ms % 1000;
    if rem < 500 then q
    else if rem > 500 then q + 1
    else if q % 2 == 0 then q else q + 1
  }

  const Separator: string := ", "

  /** `", ".join(names)`. */
  function Join(names: seq<string>): string
    decreases |names|
  {
    if |names| == 0 then ""
    else if |names| == 1 then names[0]
    else names[0] + Separator + Join(names[1..])
  }

  predicate SeparatorAt(s: string, i: int) {
    0 <= i && i + 1 < |s| && s[i] == ',' && s[i + 1] == ' '
  }

  ghost predicate FreeOfSeparator(s: string) {
    forall i :: !SeparatorAt(s, i)
  }

  /** The position of the first ", " in `s`, or `|s|` when there is none. */
  function FirstSeparator(s: string): (k: nat)
    ensures k <= |s|
    ensures k < |s| ==> SeparatorAt(s, k)
    ensures forall i :: 0 <= i < k ==> !SeparatorAt(s, i)
    decreases |s|
  {
    if |s| < 2 then |s|
    else if SeparatorAt(s, 0) then 0
    else
      var k := FirstSeparator(s[1..]);
      assert forall i :: 1 <= i < 1 + k ==> !SeparatorAt(s, i) by {
        forall i | 1 <= i < 1 + k ensures !SeparatorAt(s, i) {
          assert !SeparatorAt(s[1..], i - 1);
        }
      }
      assert k < |s| - 1 ==> SeparatorAt(s, k + 1);
      1 + k
  }

  /** The inverse of Join: the pieces of `s` between occurrences of ", ". */
  function Split(s: string): (r: seq<string>)
    ensures |r| > 0
    decreases |s|
  {
    var k := FirstSeparator(s);
    if k == |s| then [s] else [s[..k]] + Split(s[k + 2..])
  }

  /** Joining names that contain no separator can be undone. */
  lemma {:induction false} SplitJoin(names: seq<string>)
    requires |names| > 0
    requires forall i :: 0 <= i < |names| ==> FreeOfSeparator(names[i])
    ensures Split(Join(names)) == names
    decreases |names|
  {
    if |names| == 1 {
      assert FirstSeparator(names[0]) == |names[0]|;
    } else {
      var x, rest := names[0], names[1..];
      var s := x + Separator + Join(rest);
      assert Join(names) == s;
      var k := FirstSeparator(s);
      assert SeparatorAt(s, |x|);
      forall i | 0 <= i < |x|
        ensures !SeparatorAt(s, i)
      {
        if i + 1 < |x| {
          assert s[i] == x[i] && s[i + 1] == x[i + 1];
          assert !SeparatorAt(x, i);
        } else {
          assert s[i + 1] == ',';
        }
      }
      assert k == |x|;
      assert s[..k] == x;
      assert s[k + 2..] == Join(rest);
      SplitJoin(rest);
      assert names == [x] + rest;
    }
  }

  function ArtistName(a: RawArtist): string { a.name }

  /** The row of one item that has a track id. */
  function RowOf(item: Item): TrackRow {
    var t := item.track;
    var names := MapSeq(t.artists, ArtistName);
    TrackRow(
      item.playedAt, t.name,
      if |names| > 0 then names[0] else "",
      if |names| > 1 then Join(names[1..]) else "",
      t.albumName, t.releaseDate,
      RoundMillis(t.durationMs.GetOr(0)),
      t.id,
      if |t.artists| > 0 then t.artists[0].id else "",
      t.url, t.isrc)
  }

  /** What the row of an item says about its artists and its duration. */
  lemma RowFields(item: Item)
    ensures var r, t := RowOf(item), item.track;
      && r.trackId == t.id && r.playedAt == item.playedAt && r.isrc == t.isrc
      && (|t.artists| == 0 ==> r.artistName == "" && r.artistId == "")
      && (|t.artists| > 0 ==> r.artistName == t.artists[0].name && r.artistId == t.artists[0].id)
      && (|t.artists| <= 1 ==> r.featuredArtists == "")
      && ((|t.artists| > 1 && forall i :: 0 <= i < |t.artists| ==> FreeOfSeparator(t.artists[i].name))
          ==> Split(r.featuredArtists) == MapSeq(t.artists[1..], ArtistName))
      && (t.durationMs.None? ==> r.durationSec == 0)
      && (t.durationMs.Some? ==> -500 <= 1000 * r.durationSec - t.durationMs.value <= 500)
  {
    var t := item.track;
    var names := MapSeq(t.artists, ArtistName);
    if |t.artists| > 1 && forall i :: 0 <= i < |t.artists| ==> FreeOfSeparator(t.artists[i].name) {
      assert names[1..] == MapSeq(t.artists[1..], ArtistName);
      SplitJoin(names[1..]);
    }
  }

  predicate HasTrackId(item: Item) { item.track.id != "" }

  /** The rows of a reply: one per item with a track id, in order. */
  function RowsOf(items: seq<Item>): (r: seq<TrackRow>)
    ensures |r| <= |items|
    ensures forall k :: 0 <= k < |r| ==> r[k].trackId != ""
    decreases |items|
  {
    if |items| == 0 then []
    else
      var last := items[|items| - 1];
      RowsOf(items[..|items| - 1]) + if HasTrackId(last) then [RowOf(last)] else []
  }

  lemma {:induction false} RowsOfAppend(a: seq<Item>, b: seq<Item>)
    ensures RowsOf(a + b) == RowsOf(a) + RowsOf(b)
    decreases |b|
  {
    if |b| == 0 {
      assert a + b == a;
    } else {
      var b' := b[..|b| - 1];
      assert (a + b)[..|a + b| - 1] == a + b';
      RowsOfAppend(a, b');
    }
  }

  /** Each item contributes, in place, its own row when it has a track id
      and nothing otherwise. */
  lemma RowsInOrder(before: seq<Item>, item: Item, after: seq<Item>)
    ensures RowsOf(before + [item] + after)
         == RowsOf(before) + (if HasTrackId(item) then [RowOf(item)] else []) + RowsOf(after)
  {
    RowsOfAppend(before + [item], after);
    RowsOfAppend(before, [item]);
    assert [item][..0] == [];
  }

  // ---------------------------------------------------------------------
  // Genre pairs

  /** The first id of `ids` that has no artist information, if any. */
  function FirstMissing(ids: seq<string>, info: map<string, seq<string>>): (r: Option<string>)
    ensures r.None? <==> forall i :: 0 <= i < |ids| ==> ids[i] in info
    ensures r.Some? ==> exists i :: 0 <= i < |ids| && ids[i] == r.value && r.value !in info
                                    && forall j :: 0 <= j < i ==> ids[j] in info
    decreases |ids|
  {
    if |ids| == 0 then None
    else
      var prefix := ids[..|ids| - 1];
      var p := FirstMissing(prefix, info);
      if p.Some? then
        assert exists i :: 0 <= i < |ids| && ids[i] == p.value && p.value !in info
                        && forall j :: 0 <= j < i ==> ids[j] in info by {
          var i :| 0 <= i < |prefix| && prefix[i] == p.value && p.value !in info
                   && forall j :: 0 <= j < i ==> prefix[j] in info;
          assert forall j :: 0 <= j < i ==> ids[j] == prefix[j];
        }
        p
      else if ids[|ids| - 1] !in info then Some(ids[|ids| - 1])
      else None
  }

  /** The first artist without information is the one after a prefix whose
      artists all have some. */
  lemma {:induction false} FirstMissingAfter(ids: seq<string>, info: map<string, seq<string>>, k: int)
    requires 0 <= k < |ids| && ids[k] !in info
    requires FirstMissing(ids[..k], info) == None
    ensures FirstMissing(ids, info) == Some(ids[k])
    decreases |ids|
  {
    var n := |ids| - 1;
    if k < n {
      assert ids[..n][..k] == ids[..k];
      FirstMissingAfter(ids[..n], info, k);
    } else {
      assert ids[..n] == ids[..k];
    }
  }

  function GenresOfArtist(a: string, genres: seq<string>): (r: seq<GenrePair>)
    ensures forall p :: p in r <==> p.artistId == a && p.genre in genres
  {
    var r := seq(|genres|, j requires 0 <= j < |genres| => GenrePair(a, genres[j]));
    assert forall p: GenrePair :: p.artistId == a && p.genre in genres ==> p in r by {
      forall p: GenrePair | p.artistId == a && p.genre in genres ensures p in r {
        var j :| 0 <= j < |genres| && genres[j] == p.genre;
        assert r[j] == p;
      }
    }
    r
  }

  /** One pair per genre of each artist, artist by artist in the order of `ids`. */
  function PairsOf(ids: seq<string>, genres: map<string, seq<string>>): (r: seq<GenrePair>)
    requires forall a :: a in ids ==> a in genres
    ensures forall p :: p in r <==> p.artistId in ids && p.genre in genres[p.artistId]
    decreases |ids|
  {
    if |ids| == 0 then []
    else
      var a := ids[|ids| - 1];
      assert forall b :: b in ids <==> b in ids[..|ids| - 1] || b == a;
      PairsOf(ids[..|ids| - 1], genres) + GenresOfArtist(a, genres[a])
  }

  lemma {:induction false} PairsOfAgree(ids: seq<string>, m: map<string, seq<string>>, m': map<string, seq<string>>)
    requires forall a :: a in ids ==> a in m && a in m' && m[a] == m'[a]
    ensures PairsOf(ids, m) == PairsOf(ids, m')
    decreases |ids|
  {
    if |ids| > 0 {
      PairsOfAgree(ids[..|ids| - 1], m, m');
    }
  }

  /** The genre pairs of the batch's artists (`ids`, possibly repeated), or
      the first artist with no information. */
  function GenresOf(ids: seq<string>, info: map<string, seq<string>>): Result<seq<GenrePair>, string> {
    match FirstMissing(ids, info)
    case Some(a) => Err(a)
    case None => Ok(PairsOf(Distinct(ids), info))
  }

  /** The genre output holds exactly the pairs of the batch's artists, and
      fails exactly when an artist has no information, naming the first. */
  lemma GenresOfMeaning(ids: seq<string>, info: map<string, seq<string>>)
    ensures GenresOf(ids, info).Ok? <==> forall i :: 0 <= i < |ids| ==> ids[i] in info
    ensures GenresOf(ids, info).Ok? ==>
      forall p :: p in GenresOf(ids, info).value <==> p.artistId in ids && p.genre in info[p.artistId]
    ensures GenresOf(ids, info).Err? ==>
      exists i :: 0 <= i < |ids| && ids[i] == GenresOf(ids, info).error && ids[i] !in info
                  && forall j :: 0 <= j < i ==> ids[j] in info
  {
  }

  /** With repetition-free genre lists, no pair occurs twice. */
  lemma {:induction false} PairsOfNoDup(ids: seq<string>, genres: map<string, seq<string>>)
    requires forall a :: a in ids ==> a in genres && NoDup(genres[a])
    requires NoDup(ids)
    ensures NoDup(PairsOf(ids, genres))
    decreases |ids|
  {
    if |ids| > 0 {
      var a := ids[|ids| - 1];
      var prefix := ids[..|ids| - 1];
      assert forall b :: b in prefix ==> b in ids;
      PairsOfNoDup(prefix, genres);
      var left, right := PairsOf(prefix, genres), GenresOfArtist(a, genres[a]);
      assert a !in prefix;
      forall i, j | 0 <= i < |left| && 0 <= j < |right| ensures left[i] != right[j] {
        assert left[i] in left && right[j] in right;
      }
      NoDupAppend(left, right);
    }
  }

  lemma GenresOfNoDup(ids: seq<string>, info: map<string, seq<string>>)
    requires forall a :: a in info ==> NoDup(info[a])
    ensures GenresOf(ids, info).Ok? ==> NoDup(GenresOf(ids, info).value)
  {
    if GenresOf(ids, info).Ok? {
      PairsOfNoDup(Distinct(ids), info);
    }
  }

  /** With distinct artists, the artist of the pair at `p` is listed no
      later than that of a later pair at `q`. */
  lemma {:induction false} PairsOfGroupedAt(ids: seq<string>, genres: map<string, seq<string>>, p: int, q: int, b: int)
    requires forall a :: a in ids ==> a in genres
    requires NoDup(ids)
    requires 0 <= p < q < |PairsOf(ids, genres)| && 0 <= b < |ids| && PairsOf(ids, genres)[q].artistId == ids[b]
    ensures PairsOf(ids, genres)[p].artistId in ids[..b + 1]
    decreases |ids|
  {
    var n := |ids| - 1;
    var pre := ids[..n];
    var left := PairsOf(pre, genres);
    var last := GenresOfArtist(ids[n], genres[ids[n]]);
    var r := PairsOf(ids, genres);
    assert r == left + last;
    if q < |left| {
      assert r[p] == left[p] && r[q] == left[q];
      assert left[q] in left;
      var b' :| 0 <= b' < n && pre[b'] == left[q].artistId;
      assert ids[b'] == ids[b];
      assert b' == b;
      assert NoDup(pre) by {
        assert forall i :: 0 <= i < n ==> pre[i] == ids[i];
      }
      PairsOfGroupedAt(pre, genres, p, q, b);
      assert pre[..b + 1] == ids[..b + 1];
    } else {
      assert r[q] == last[q - |left|];
      assert ids[b] == ids[n];
      assert b == n;
      assert ids[..b + 1] == ids;
      if p < |left| {
        assert r[p] == left[p] && left[p] in left;
      } else {
        assert r[p] == last[p - |left|];
      }
    }
  }

  /** With distinct artists, the pairs come artist by artist in the order of
      `ids`: the artist of a pair is never listed after the artist of a
      later pair. */
  lemma PairsOfGrouped(ids: seq<string>, genres: map<string, seq<string>>)
    requires forall a :: a in ids ==> a in genres
    requires NoDup(ids)
    ensures var r := PairsOf(ids, genres);
      forall p, q, b :: 0 <= p < q < |r| && 0 <= b < |ids| && r[q].artistId == ids[b] ==>
        r[p].artistId in ids[..b + 1]
  {
    var r := PairsOf(ids, genres);
    forall p, q, b | 0 <= p < q < |r| && 0 <= b < |ids| && r[q].artistId == ids[b]
      ensures r[p].artistId in ids[..b + 1]
    {
      PairsOfGroupedAt(ids, genres, p, q, b);
    }
  }

  /** The genre output is grouped by artist, the artists in the order the
      batch first mentions them: the artist of an earlier pair occurs in the
      batch no later than any occurrence of the artist of a later pair. */
  lemma GenresOfOrder(ids: seq<string>, info: map<string, seq<string>>)
    ensures GenresOf(ids, info).Ok? ==>
      var r := GenresOf(ids, info).value;
      forall p, q, k :: 0 <= p < q < |r| && 0 <= k < |ids| && ids[k] == r[q].artistId ==>
        r[p].artistId in ids[..k + 1]
  {
    if GenresOf(ids, info).Ok? {
      var r := GenresOf(ids, info).value;
      forall p, q, k | 0 <= p < q < |r| && 0 <= k < |ids| && ids[k] == r[q].artistId
        ensures r[p].artistId in ids[..k + 1]
      {
        GenresOfOrderAt(ids, info, p, q, k);
      }
    }
  }

  lemma GenresOfOrderAt(ids: seq<string>, info: map<string, seq<string>>, p: int, q: int, k: int)
    requires GenresOf(ids, info).Ok?
    requires 0 <= p < q < |GenresOf(ids, info).value| && 0 <= k < |ids|
    requires ids[k] == GenresOf(ids, info).value[q].artistId
    ensures GenresOf(ids, info).value[p].artistId in ids[..k + 1]
  {
    var order := Distinct(ids);
    var r := GenresOf(ids, info).value;
    assert r == PairsOf(order, info);
    assert r[q] in r;
    var b :| 0 <= b < |order| && order[b] == r[q].artistId;
    PairsOfGroupedAt(order, info, p, q, b);
    var a :| 0 <= a <= b && order[a] == r[p].artistId;
    assert ids[..k + 1][k] == ids[k];
    if a < b {
      DistinctFirstSeen(ids);
      assert order[a] in ids[..k];
      assert forall x :: x in ids[..k] ==> x in ids[..k + 1];
    }
  }

  // ---------------------------------------------------------------------
  // The transform step

  datatype TransformError = NoArtistInfo(artistId: string)

  /** `artistInfo` is the artist lookup's reply (artist id to its genres), or
      None when the lookup raised; then no artist has information. */
  function TransformSpec(items: seq<Item>, artistInfo: Option<map<string, seq<string>>>)
    : Result<(seq<TrackRow>, seq<GenrePair>), TransformError>
  {
    var rows := RowsOf(items);
    match GenresOf(MapSeq(rows, RowArtistId), artistInfo.GetOr(map[]))
    case Err(a) => Err(NoArtistInfo(a))
    case Ok(pairs) => Ok((rows, pairs))
  }

  /** The first loop of the transform: one row per item with a track id,
      and the primary artist of each row. */
  method FlattenItems(items: seq<Item>) returns (rows: seq<TrackRow>, artistIds: seq<string>)
    ensures rows == RowsOf(items)
    ensures artistIds == MapSeq(rows, RowArtistId)
  {
    rows, artistIds := [], [];
    var i := 0;
    while i < |items|
      invariant 0 <= i <= |items|
      invariant rows == RowsOf(items[..i])
      invariant artistIds == MapSeq(rows, RowArtistId)
    {
      var item := items[i];
      if item.track.id != "" {
        var row := RowOf(item);
        rows := rows + [row];
        artistIds := artistIds + [row.artistId];
      }
      assert items[..i + 1][..i] == items[..i];
      i := i + 1;
    }
    assert items[..|items|] == items;
  }

  /** The second loop of the transform: the genres of each batch artist, kept
      in a dictionary in first-seen order, then flattened to pairs. */
  method CollectGenres(artistIds: seq<string>, info: map<string, seq<string>>)
    returns (r: Result<seq<GenrePair>, string>)
    ensures r == GenresOf(artistIds, info)
  {
    var genres: map<string, seq<string>> := map[];
    var order: seq<string> := [];
    var k := 0;
    while k < |artistIds|
      invariant 0 <= k <= |artistIds|
      invariant FirstMissing(artistIds[..k], info) == None
      invariant order == Distinct(artistIds[..k])
      invariant forall a :: a in genres <==> a in order
      invariant forall a :: a in genres ==> a in info && genres[a] == info[a]
    {
      var a := artistIds[k];
      if a !in info {
        FirstMissingAfter(artistIds, info, k);
        return Err(a);
      }
      if a !in genres {
        order := order + [a];
      }
      genres := genres[a := info[a]];
      assert artistIds[..k + 1][..k] == artistIds[..k];
      k := k + 1;
    }
    assert artistIds[..k] == artistIds;
    PairsOfAgree(order, genres, info);
    r := Ok(PairsOf(order, genres));
  }

  /** `_transform`: the rows of the reply and the genre pairs of its artists,
      or the artist whose information is missing. */
  method Transform(items: seq<Item>, artistInfo: Option<map<string, seq<string>>>)
    returns (r: Result<(seq<TrackRow>, seq<GenrePair>), TransformError>)
    requires artistInfo.Some? ==> "" !in artistInfo.value
    ensures r == TransformSpec(items, artistInfo)
  {
    var rows, artistIds := FlattenItems(items);
    var info := if artistInfo.Some? then artistInfo.value else map[];
    var genres := CollectGenres(artistIds, info);
    match genres
    case Err(a) => r := Err(NoArtistInfo(a));
    case Ok(pairs) => r := Ok((rows, pairs));
  }

  /** A track without artists makes the transform fail: its artist id is
      empty, and the artist lookup never answers for the empty id. */
  lemma TransformArtistless(items: seq<Item>, artistInfo: Option<map<string, seq<string>>>, k: int)
    requires artistInfo.Some? ==> "" !in artistInfo.value
    requires 0 <= k < |items| && HasTrackId(items[k]) && |items[k].track.artists| == 0
    ensures TransformSpec(items, artistInfo).Err?
  {
    assert items == items[..k] + [items[k]] + items[k + 1..];
    RowsInOrder(items[..k], items[k], items[k + 1..]);
    var rows := RowsOf(items);
    var idx := |RowsOf(items[..k])|;
    assert rows[idx] == RowOf(items[k]);
    assert MapSeq(rows, RowArtistId)[idx] == "";
    GenresOfMeaning(MapSeq(rows, RowArtistId), artistInfo.GetOr(map[]));
  }

  // ---------------------------------------------------------------------
  // Validation

  datatype ValidationError = DuplicatePlayedAt

  function UniqueTimes(rows: seq<TrackRow>): (b: bool)
    ensures b <==> forall i, j :: 0 <= i < j < |rows| ==> rows[i].playedAt != rows[j].playedAt
    decreases |rows|
  {
    if |rows| == 0 then true
    else
      assert forall j :: 1 <= j < |rows| ==> rows[j] == rows[1..][j - 1];
      rows[0].playedAt !in MapSeq(rows[1..], RowPlayedAt) && UniqueTimes(rows[1..])
  }

  /** False for an empty batch, an error for a repeated `played_at`, true otherwise. */
  function Validate(rows: seq<TrackRow>): (r: Result<bool, ValidationError>)
    ensures r == Ok(false) <==> |rows| == 0
    ensures r == Ok(true) <==>
      |rows| > 0 && forall i, j :: 0 <= i < j < |rows| ==> rows[i].playedAt != rows[j].playedAt
    ensures r.Err? <==>
      exists i, j :: 0 <= i < j < |rows| && rows[i].playedAt == rows[j].playedAt
  {
    if |rows| == 0 then Ok(false)
    else if UniqueTimes(rows) then Ok(true)
    else Err(DuplicatePlayedAt)
  }

  // ---------------------------------------------------------------------
  // The merge into the store

  /** The latest persisted `played_at`, None for an empty table. */
  function Latest(plays: seq<Play>): (r: Option<int>)
    ensures r.None? <==> |plays| == 0
    ensures r.Some? ==> forall p :: p in plays ==> p.playedAt <= r.value
    ensures r.Some? ==> exists p :: p in plays && p.playedAt == r.value
    decreases |plays|
  {
    if |plays| == 0 then None
    else
      assert forall p :: p in plays <==> p == plays[0] || p in plays[1..];
      match Latest(plays[1..])
      case None => Some(plays[0].playedAt)
      case Some(m) => Some(if plays[0].playedAt > m then plays[0].playedAt else m)
  }

  predicate Later(t: int, watermark: Option<int>) {
    watermark.None? || t > watermark.value
  }

  /** The rows strictly later than the watermark, in order. */
  function AfterWatermark(rows: seq<TrackRow>, watermark: Option<int>): (r: seq<TrackRow>)
    ensures forall x :: x in r <==> x in rows && Later(x.playedAt, watermark)
    ensures watermark.None? ==> r == rows
    ensures (forall x :: x in rows ==> !Later(x.playedAt, watermark)) ==> r == []
    decreases |rows|
  {
    if |rows| == 0 then []
    else
      assert rows == [rows[0]] + rows[1..];
      var rest := AfterWatermark(rows[1..], watermark);
      if Later(rows[0].playedAt, watermark) then [rows[0]] + rest else rest
  }

  ghost predicate Ascending(rows: seq<TrackRow>) {
    forall i, j :: 0 <= i < j < |rows| ==> rows[i].playedAt <= rows[j].playedAt
  }

  function Insert(x: TrackRow, s: seq<TrackRow>): (r: seq<TrackRow>)
    requires Ascending(s)
    ensures |r| == |s| + 1 && (r[0] == x || (|s| > 0 && r[0] == s[0]))
    ensures Ascending(r)
    ensures multiset(r) == multiset(s) + multiset{x}
    decreases |s|
  {
    if |s| == 0 || x.playedAt <= s[0].playedAt then [x] + s
    else
      assert s == [s[0]] + s[1..];
      var rest := Insert(x, s[1..]);
      var r := [s[0]] + rest;
      assert Ascending(r) by {
        forall i, j | 0 <= i < j < |r|
          ensures r[i].playedAt <= r[j].playedAt
        {
          assert r[j] == rest[j - 1];
          if i == 0 {
            assert s[0].playedAt <= rest[0].playedAt <= rest[j - 1].playedAt;
          } else {
            assert r[i] == rest[i - 1];
          }
        }
      }
      assert multiset(r) == multiset{s[0]} + multiset(rest);
      r
  }

  /** `sort_values(by="datetime", ascending=True)`. */
  function SortByTime(rows: seq<TrackRow>): (r: seq<TrackRow>)
    ensures Ascending(r)
    ensures multiset(r) == multiset(rows)
    decreases |rows|
  {
    if |rows| == 0 then []
    else
      assert rows == [rows[0]] + rows[1..];
      Insert(rows[0], SortByTime(rows[1..]))
  }

  function PlayOf(r: TrackRow): Play { Play(r.playedAt, r.trackId) }

  function SongOf(r: TrackRow): Song {
    Song(r.trackId, r.songName, r.featuredArtists, r.albumName, r.releaseDate,
         r.durationSec, r.artistId, r.url, r.isrc)
  }

  function ArtistOf(r: TrackRow): Artist { Artist(r.artistId, r.artistName) }

  /** The rows whose track is not persisted, first row per track id. */
  function NewSongRows(rows: seq<TrackRow>, persisted: set<string>): (r: seq<TrackRow>)
    ensures forall x :: x in r ==> x in rows && x.trackId !in persisted
    ensures NoDup(MapSeq(r, RowTrackId))
    ensures forall x :: x in rows && x.trackId !in persisted ==> x.trackId in MapSeq(r, RowTrackId)
  {
    DedupFrom(Exclude(rows, RowTrackId, persisted), RowTrackId, {})
  }

  /** The rows whose artist is not persisted, first row per artist id. */
  function NewArtistRows(rows: seq<TrackRow>, persisted: set<string>): (r: seq<TrackRow>)
    ensures forall x :: x in r ==> x in rows && x.artistId !in persisted
    ensures NoDup(MapSeq(r, RowArtistId))
    ensures forall x :: x in rows && x.artistId !in persisted ==> x.artistId in MapSeq(r, RowArtistId)
  {
    DedupFrom(Exclude(rows, RowArtistId, persisted), RowArtistId, {})
  }

  function PairItself(p: GenrePair): GenrePair { p }

  /** The pairs not already persisted. */
  function NewGenres(pairs: seq<GenrePair>, existing: seq<GenrePair>): (r: seq<GenrePair>)
    ensures forall p :: p in r <==> p in pairs && p !in existing
  {
    Exclude(pairs, PairItself, set p | p in existing)
  }

  /** What `_load` reports. */
  datatype LoadOutcome =
    | EmptyBatch                       // the batch itself is empty
    | NothingNew                       // no play is later than the watermark
    | Rejected                         // a repeated played_at; the error is caught and reported
    | Loaded(plays: nat, songs: nat, artists: nat, genres: nat)

  /** The batch rows later than the watermark, in ascending time order. */
  function Survivors(db: Db, df: seq<TrackRow>): (r: seq<TrackRow>)
    ensures forall x :: x in r <==> x in df && Later(x.playedAt, Latest(db.plays))
    ensures Ascending(r)
    ensures (forall x :: x in df ==> !Later(x.playedAt, Latest(db.plays))) ==> r == []
  {
    var r := SortByTime(AfterWatermark(df, Latest(db.plays)));
    assert forall x :: x in r <==> x in multiset(r);
    r
  }

  /** The appends of a load that goes ahead with the rows `survivors`. */
  function Merge(db: Db, survivors: seq<TrackRow>, genresDf: seq<GenrePair>): Db {
    var songRows := NewSongRows(survivors, TrackIds(db.songs));
    var artistRows := NewArtistRows(songRows, ArtistIds(db.artists));
    db.(plays := db.plays + MapSeq(survivors, PlayOf),
        songs := db.songs + MapSeq(songRows, SongOf),
        artists := db.artists + MapSeq(artistRows, ArtistOf),
        genres := db.genres + NewGenres(genresDf, db.genres))
  }

  /** The store after `_load(df, genres_df)`, and what it reports. */
  function LoadSpec(db: Db, df: seq<TrackRow>, genresDf: seq<GenrePair>): (Db, LoadOutcome) {
    if |df| == 0 then (db, EmptyBatch)
    else
      var survivors := Survivors(db, df);
      match Validate(survivors)
      case Err(_) => (db, Rejected)
      case Ok(false) => (db, NothingNew)
      case Ok(true) =>
        var songRows := NewSongRows(survivors, TrackIds(db.songs));
        var artistRows := NewArtistRows(songRows, ArtistIds(db.artists));
        (Merge(db, survivors, genresDf),
         Loaded(|survivors|, |songRows|, |artistRows|, |NewGenres(genresDf, db.genres)|))
  }

  method Load(store: Store, df: seq<TrackRow>, genresDf: seq<GenrePair>) returns (outcome: LoadOutcome)
    modifies store
    ensures (store.Snapshot(), outcome) == LoadSpec(old(store.Snapshot()), df, genresDf)
  {
    if |df| == 0 {
      return EmptyBatch;
    }
    ghost var db := store.Snapshot();
    var latest := Latest(store.plays);
    var newDf := AfterWatermark(df, latest);
    newDf := SortByTime(newDf);
    assert newDf == Survivors(db, df);
    var valid := Validate(newDf);
    if valid.Err? {
      return Rejected;
    }
    if !valid.value {
      return NothingNew;
    }
    outcome := Append(store, newDf, genresDf);
  }

  /** The appends of `_load` once the batch has been validated: the plays,
      then the new tracks among them, then the new artists among those, then
      the new genre pairs. */
  method Append(store: Store, survivors: seq<TrackRow>, genresDf: seq<GenrePair>) returns (outcome: LoadOutcome)
    modifies store
    ensures store.Snapshot() == Merge(old(store.Snapshot()), survivors, genresDf)
    ensures var songRows := NewSongRows(survivors, TrackIds(old(store.songs)));
      outcome == Loaded(|survivors|, |songRows|, |NewArtistRows(songRows, ArtistIds(old(store.artists)))|,
                        |NewGenres(genresDf, old(store.genres))|)
  {
    var newDf := survivors;
    store.plays := store.plays + MapSeq(newDf, PlayOf);
    var numberOfPlays := |newDf|;
    newDf := NewSongRows(newDf, TrackIds(store.songs));
    store.songs := store.songs + MapSeq(newDf, SongOf);
    var numberOfSongs := |newDf|;
    newDf := NewArtistRows(newDf, ArtistIds(store.artists));
    store.artists := store.artists + MapSeq(newDf, ArtistOf);
    var numberOfArtists := |newDf|;
    var genres := NewGenres(genresDf, store.genres);
    store.genres := store.genres + genres;
    outcome := Loaded(numberOfPlays, numberOfSongs, numberOfArtists, |genres|);
  }

  // ---------------------------------------------------------------------
  // Properties of the merge

  /** Which way a load goes: unchanged store, or the merge of the survivors. */
  lemma LoadCases(db: Db, df: seq<TrackRow>, genresDf: seq<GenrePair>)
    ensures LoadSpec(db, df, genresDf).1.Loaded? ==>
      && |df| > 0 && Validate(Survivors(db, df)) == Ok(true)
      && LoadSpec(db, df, genresDf).0 == Merge(db, Survivors(db, df), genresDf)
    ensures !LoadSpec(db, df, genresDf).1.Loaded? ==> LoadSpec(db, df, genresDf).0 == db
  {
  }

  /** The plays appended by a merge are those of the survivors. */
  lemma MergePlays(db: Db, survivors: seq<TrackRow>, genresDf: seq<GenrePair>, df: seq<TrackRow>)
    requires forall x :: x in survivors <==> x in df && Later(x.playedAt, Latest(db.plays))
    requires forall i, j :: 0 <= i < j < |survivors| ==> survivors[i].playedAt < survivors[j].playedAt
    ensures var db' := Merge(db, survivors, genresDf);
      var added := db'.plays[|db.plays|..];
      && |db'.plays| >= |db.plays| && db'.plays[..|db.plays|] == db.plays
      && (forall p :: p in added ==> Later(p.playedAt, Latest(db.plays)) && p in MapSeq(df, PlayOf))
      && (forall i, j :: 0 <= i < j < |added| ==> added[i].playedAt < added[j].playedAt)
      && (forall x :: x in df && Later(x.playedAt, Latest(db.plays)) ==> PlayOf(x) in added)
  {
    var db' := Merge(db, survivors, genresDf);
    var added := MapSeq(survivors, PlayOf);
    assert db'.plays == db.plays + added;
    assert db'.plays[|db.plays|..] == added;
    forall p | p in added ensures Later(p.playedAt, Latest(db.plays)) && p in MapSeq(df, PlayOf) {
      var i :| 0 <= i < |added| && added[i] == p;
      assert survivors[i] in survivors;
      MapSeqMember(df, PlayOf, survivors[i]);
    }
    forall x | x in df && Later(x.playedAt, Latest(db.plays)) ensures PlayOf(x) in added {
      MapSeqMember(survivors, PlayOf, x);
    }
  }

  /** The plays a load appends: strictly later than the watermark, strictly
      ascending, taken from the batch; when the load goes ahead, every play of
      the batch later than the watermark (every play, with no persisted
      plays) is among them. Any other outcome changes nothing. */
  lemma LoadWatermark(db: Db, df: seq<TrackRow>, genresDf: seq<GenrePair>)
    ensures var db' := LoadSpec(db, df, genresDf).0;
      var added := db'.plays[|db.plays|..];
      && |db'.plays| >= |db.plays| && db'.plays[..|db.plays|] == db.plays
      && (forall p :: p in added ==> Later(p.playedAt, Latest(db.plays)) && p in MapSeq(df, PlayOf))
      && (forall i, j :: 0 <= i < j < |added| ==> added[i].playedAt < added[j].playedAt)
    ensures LoadSpec(db, df, genresDf).1.Loaded? ==>
      forall x :: x in df && Later(x.playedAt, Latest(db.plays)) ==>
        PlayOf(x) in LoadSpec(db, df, genresDf).0.plays[|db.plays|..]
    ensures !LoadSpec(db, df, genresDf).1.Loaded? ==> LoadSpec(db, df, genresDf).0 == db
  {
    LoadCases(db, df, genresDf);
    if LoadSpec(db, df, genresDf).1.Loaded? {
      var survivors := Survivors(db, df);
      MergePlays(db, survivors, genresDf, df);
    }
  }

  /** A batch that is empty, or none of whose plays is later than the
      watermark, leaves every table as it was. */
  lemma LoadNoSurvivors(db: Db, df: seq<TrackRow>, genresDf: seq<GenrePair>)
    requires forall x :: x in df ==> !Later(x.playedAt, Latest(db.plays))
    ensures LoadSpec(db, df, genresDf).0 == db
    ensures LoadSpec(db, df, genresDf).1 == if |df| == 0 then EmptyBatch else NothingNew
  {
    assert Survivors(db, df) == [];
  }

  /** Pandas' filter-then-drop_duplicates is keep-first deduplication that
      treats the persisted keys as already seen. */
  lemma {:induction false} ExcludeThenDedup<K>(s: seq<TrackRow>, key: TrackRow -> K, persisted: set<K>, seen: set<K>)
    ensures DedupFrom(Exclude(s, key, persisted), key, seen) == DedupFrom(s, key, persisted + seen)
    decreases |s|
  {
    if |s| > 0 {
      if key(s[0]) in persisted || key(s[0]) in seen {
        ExcludeThenDedup(s[1..], key, persisted, seen);
      } else {
        ExcludeThenDedup(s[1..], key, persisted, seen + {key(s[0])});
        assert persisted + (seen + {key(s[0])}) == persisted + seen + {key(s[0])};
      }
    }
  }

  /** The tracks a merge appends: none already persisted, each from a
      survivor. */
  lemma MergeSongsFrom(db: Db, survivors: seq<TrackRow>, genresDf: seq<GenrePair>)
    ensures var db' := Merge(db, survivors, genresDf);
      && |db'.songs| >= |db.songs| && db'.songs[..|db.songs|] == db.songs
      && forall s :: s in db'.songs[|db.songs|..] ==> (s.trackId !in TrackIds(db.songs)
           && exists x :: x in survivors && SongOf(x) == s)
  {
    var db' := Merge(db, survivors, genresDf);
    var songRows := NewSongRows(survivors, TrackIds(db.songs));
    var songs := MapSeq(songRows, SongOf);
    assert db'.songs[|db.songs|..] == songs;
    forall s | s in songs
      ensures s.trackId !in TrackIds(db.songs) && exists x :: x in survivors && SongOf(x) == s
    {
      var i :| 0 <= i < |songs| && songs[i] == s;
      assert songRows[i] in songRows;
    }
  }

  /** A merge appends one track per track id. */
  lemma MergeSongsDistinct(db: Db, survivors: seq<TrackRow>, genresDf: seq<GenrePair>)
    ensures var songs := Merge(db, survivors, genresDf).songs[|db.songs|..];
      forall i, j :: 0 <= i < j < |songs| ==> songs[i].trackId != songs[j].trackId
  {
    var songRows := NewSongRows(survivors, TrackIds(db.songs));
    var songs := MapSeq(songRows, SongOf);
    assert Merge(db, survivors, genresDf).songs[|db.songs|..] == songs;
    forall i, j | 0 <= i < j < |songs| ensures songs[i].trackId != songs[j].trackId {
      assert MapSeq(songRows, RowTrackId)[i] == songs[i].trackId;
      assert MapSeq(songRows, RowTrackId)[j] == songs[j].trackId;
    }
  }

  /** For every track id not yet persisted, a merge appends the track of its
      first survivor. */
  lemma MergeSongsFirst(db: Db, survivors: seq<TrackRow>, genresDf: seq<GenrePair>)
    ensures forall i :: 0 <= i < |survivors| && survivors[i].trackId !in TrackIds(db.songs)
                        && (forall j :: 0 <= j < i ==> survivors[j].trackId != survivors[i].trackId)
                        ==> SongOf(survivors[i]) in Merge(db, survivors, genresDf).songs[|db.songs|..]
  {
    var songRows := NewSongRows(survivors, TrackIds(db.songs));
    var songs := MapSeq(songRows, SongOf);
    assert Merge(db, survivors, genresDf).songs[|db.songs|..] == songs;
    ExcludeThenDedup(survivors, RowTrackId, TrackIds(db.songs), {});
    assert TrackIds(db.songs) + {} == TrackIds(db.songs);
    forall i | 0 <= i < |survivors| && survivors[i].trackId !in TrackIds(db.songs)
               && (forall j :: 0 <= j < i ==> survivors[j].trackId != survivors[i].trackId)
      ensures SongOf(survivors[i]) in songs
    {
      DedupKeepsFirst(survivors, RowTrackId, TrackIds(db.songs), i);
      MapSeqMember(songRows, SongOf, survivors[i]);
    }
  }

  /** The artists a merge appends: none already persisted, one per artist
      id, each the artist of a row whose track the same merge appends; and
      every appended track whose artist is not persisted has its artist
      appended. */
  lemma MergeArtists(db: Db, survivors: seq<TrackRow>, genresDf: seq<GenrePair>)
    ensures var db' := Merge(db, survivors, genresDf);
      var songRows := NewSongRows(survivors, TrackIds(db.songs));
      var songs, artists := db'.songs[|db.songs|..], db'.artists[|db.artists|..];
      && |db'.artists| >= |db.artists| && db'.artists[..|db.artists|] == db.artists
      && songs == MapSeq(songRows, SongOf)
      && (forall a :: a in artists ==> (a.artistId !in ArtistIds(db.artists)
            && exists k :: 0 <= k < |songRows| && ArtistOf(songRows[k]) == a))
      && (forall i, j :: 0 <= i < j < |artists| ==> artists[i].artistId != artists[j].artistId)
      && (forall s :: s in songs && s.artistId !in ArtistIds(db.artists) ==> s.artistId in ArtistIds(artists))
  {
    var db' := Merge(db, survivors, genresDf);
    var songRows := NewSongRows(survivors, TrackIds(db.songs));
    var artistRows := NewArtistRows(songRows, ArtistIds(db.artists));
    var songs, artists := MapSeq(songRows, SongOf), MapSeq(artistRows, ArtistOf);
    assert db'.songs[|db.songs|..] == songs;
    assert db'.artists[|db.artists|..] == artists;
    NewArtistsOf(songRows, ArtistIds(db.artists));
  }

  /** The artist rows made from some track rows: none persisted, each the
      artist of one of the rows, one per id, and covering every artist id of
      the rows that is not persisted. */
  lemma NewArtistsOf(songRows: seq<TrackRow>, persisted: set<string>)
    ensures var artists := MapSeq(NewArtistRows(songRows, persisted), ArtistOf);
      && (forall a :: a in artists ==> (a.artistId !in persisted
            && exists k :: 0 <= k < |songRows| && ArtistOf(songRows[k]) == a))
      && (forall i, j :: 0 <= i < j < |artists| ==> artists[i].artistId != artists[j].artistId)
      && (forall s :: s in MapSeq(songRows, SongOf) && s.artistId !in persisted ==> s.artistId in ArtistIds(artists))
  {
    var artistRows := NewArtistRows(songRows, persisted);
    var songs, artists := MapSeq(songRows, SongOf), MapSeq(artistRows, ArtistOf);
    forall a | a in artists
      ensures a.artistId !in persisted && exists k :: 0 <= k < |songRows| && ArtistOf(songRows[k]) == a
    {
      var i :| 0 <= i < |artists| && artists[i] == a;
      assert artistRows[i] in artistRows;
    }
    forall i, j | 0 <= i < j < |artists| ensures artists[i].artistId != artists[j].artistId {
      assert MapSeq(artistRows, RowArtistId)[i] == artists[i].artistId;
      assert MapSeq(artistRows, RowArtistId)[j] == artists[j].artistId;
    }
    forall s | s in songs && s.artistId !in persisted
      ensures s.artistId in ArtistIds(artists)
    {
      var k :| 0 <= k < |songs| && songs[k] == s;
      assert songRows[k] in songRows;
      var l :| 0 <= l < |artistRows| && MapSeq(artistRows, RowArtistId)[l] == s.artistId;
      assert artists[l] in artists;
    }
  }

  /** For every artist id not yet persisted, a merge appends the artist of
      the first new-track row that carries it. */
  lemma MergeArtistsFirst(db: Db, survivors: seq<TrackRow>, genresDf: seq<GenrePair>)
    ensures var songRows := NewSongRows(survivors, TrackIds(db.songs));
      forall k :: 0 <= k < |songRows| && songRows[k].artistId !in ArtistIds(db.artists)
                  && (forall j :: 0 <= j < k ==> songRows[j].artistId != songRows[k].artistId)
                  ==> ArtistOf(songRows[k]) in Merge(db, survivors, genresDf).artists[|db.artists|..]
  {
    var songRows := NewSongRows(survivors, TrackIds(db.songs));
    var artistRows := NewArtistRows(songRows, ArtistIds(db.artists));
    var artists := MapSeq(artistRows, ArtistOf);
    assert Merge(db, survivors, genresDf).artists[|db.artists|..] == artists;
    ExcludeThenDedup(songRows, RowArtistId, ArtistIds(db.artists), {});
    assert ArtistIds(db.artists) + {} == ArtistIds(db.artists);
    forall k | 0 <= k < |songRows| && songRows[k].artistId !in ArtistIds(db.artists)
               && (forall j :: 0 <= j < k ==> songRows[j].artistId != songRows[k].artistId)
      ensures ArtistOf(songRows[k]) in artists
    {
      DedupKeepsFirst(songRows, RowArtistId, ArtistIds(db.artists), k);
      MapSeqMember(artistRows, ArtistOf, songRows[k]);
    }
  }

  /** The tracks a load appends come only from plays later than the
      watermark and none is already persisted; the enrichment tables stay as
      they were. */
  lemma LoadNewSongs(db: Db, df: seq<TrackRow>, genresDf: seq<GenrePair>)
    ensures var db' := LoadSpec(db, df, genresDf).0;
      && |db'.songs| >= |db.songs| && db'.songs[..|db.songs|] == db.songs
      && db'.features == db.features && db'.failedIsrcs == db.failedIsrcs
      && db'.invalidMbids == db.invalidMbids
    ensures forall s :: s in LoadSpec(db, df, genresDf).0.songs[|db.songs|..] ==>
      s.trackId !in TrackIds(db.songs)
      && exists x :: x in df && Later(x.playedAt, Latest(db.plays)) && SongOf(x) == s
  {
    LoadCases(db, df, genresDf);
    if LoadSpec(db, df, genresDf).1.Loaded? {
      var survivors := Survivors(db, df);
      MergeSongsFrom(db, survivors, genresDf);
      var songs := Merge(db, survivors, genresDf).songs[|db.songs|..];
      forall s | s in songs
        ensures exists x :: x in df && Later(x.playedAt, Latest(db.plays)) && SongOf(x) == s
      {
        var x :| x in survivors && SongOf(x) == s;
        assert x in df && Later(x.playedAt, Latest(db.plays));
      }
    }
  }

  /** A load appends one track per track id. */
  lemma LoadSongsDistinct(db: Db, df: seq<TrackRow>, genresDf: seq<GenrePair>)
    ensures var songs := LoadSpec(db, df, genresDf).0.songs[|db.songs|..];
      forall i, j :: 0 <= i < j < |songs| ==> songs[i].trackId != songs[j].trackId
  {
    LoadCases(db, df, genresDf);
    if LoadSpec(db, df, genresDf).1.Loaded? {
      MergeSongsDistinct(db, Survivors(db, df), genresDf);
    }
  }

  /** When a load goes ahead, every track id not yet persisted gets the track
      of its first play in time order. */
  lemma LoadSongsFirst(db: Db, df: seq<TrackRow>, genresDf: seq<GenrePair>)
    ensures var survivors := Survivors(db, df);
      LoadSpec(db, df, genresDf).1.Loaded? ==>
        forall i :: 0 <= i < |survivors| && survivors[i].trackId !in TrackIds(db.songs)
                    && (forall j :: 0 <= j < i ==> survivors[j].trackId != survivors[i].trackId)
                    ==> SongOf(survivors[i]) in LoadSpec(db, df, genresDf).0.songs[|db.songs|..]
  {
    LoadCases(db, df, genresDf);
    if LoadSpec(db, df, genresDf).1.Loaded? {
      MergeSongsFirst(db, Survivors(db, df), genresDf);
    }
  }

  /** The artists a load appends: none already persisted, one per artist
      id, each the artist of a row whose track the same load appends; every
      appended track whose artist is not persisted has its artist appended. */
  lemma LoadNewArtists(db: Db, df: seq<TrackRow>, genresDf: seq<GenrePair>)
    ensures var db' := LoadSpec(db, df, genresDf).0;
      |db'.artists| >= |db.artists| && db'.artists[..|db.artists|] == db.artists
    ensures var db' := LoadSpec(db, df, genresDf).0;
      var songRows := NewSongRows(Survivors(db, df), TrackIds(db.songs));
      var songs, artists := db'.songs[|db.songs|..], db'.artists[|db.artists|..];
      && (forall a :: a in artists ==> (a.artistId !in ArtistIds(db.artists)
            && exists k :: 0 <= k < |songRows| && ArtistOf(songRows[k]) == a))
      && (forall i, j :: 0 <= i < j < |artists| ==> artists[i].artistId != artists[j].artistId)
      && (forall s :: s in songs && s.artistId !in ArtistIds(db.artists) ==> s.artistId in ArtistIds(artists))
  {
    LoadCases(db, df, genresDf);
    if LoadSpec(db, df, genresDf).1.Loaded? {
      MergeArtists(db, Survivors(db, df), genresDf);
    } else {
      assert LoadSpec(db, df, genresDf).0.songs[|db.songs|..] == [];
    }
  }

  /** When a load goes ahead, every artist id not yet persisted gets the
      artist of the first appended track row that carries it. */
  lemma LoadArtistsFirst(db: Db, df: seq<TrackRow>, genresDf: seq<GenrePair>)
    ensures var songRows := NewSongRows(Survivors(db, df), TrackIds(db.songs));
      LoadSpec(db, df, genresDf).1.Loaded? ==>
        forall k :: 0 <= k < |songRows| && songRows[k].artistId !in ArtistIds(db.artists)
                    && (forall j :: 0 <= j < k ==> songRows[j].artistId != songRows[k].artistId)
                    ==> ArtistOf(songRows[k]) in LoadSpec(db, df, genresDf).0.artists[|db.artists|..]
  {
    LoadCases(db, df, genresDf);
    if LoadSpec(db, df, genresDf).1.Loaded? {
      MergeArtistsFirst(db, Survivors(db, df), genresDf);
    }
  }

  /** The genre pairs a merge appends are exactly those of the batch not
      already persisted. */
  lemma MergeGenres(db: Db, survivors: seq<TrackRow>, genresDf: seq<GenrePair>)
    ensures var db' := Merge(db, survivors, genresDf);
      && |db'.genres| >= |db.genres| && db'.genres[..|db.genres|] == db.genres
      && forall p :: p in db'.genres[|db.genres|..] <==> p in genresDf && p !in db.genres
  {
    assert Merge(db, survivors, genresDf).genres[|db.genres|..] == NewGenres(genresDf, db.genres);
  }

  /** The genre pairs a load appends are exactly those of the batch not
      already persisted, and only when the load goes ahead. */
  lemma LoadNewGenres(db: Db, df: seq<TrackRow>, genresDf: seq<GenrePair>)
    ensures var db' := LoadSpec(db, df, genresDf).0;
      |db'.genres| >= |db.genres| && db'.genres[..|db.genres|] == db.genres
    ensures forall p :: p in LoadSpec(db, df, genresDf).0.genres[|db.genres|..] <==>
      LoadSpec(db, df, genresDf).1.Loaded? && p in genresDf && p !in db.genres
  {
    LoadCases(db, df, genresDf);
    if LoadSpec(db, df, genresDf).1.Loaded? {
      MergeGenres(db, Survivors(db, df), genresDf);
    } else {
      assert LoadSpec(db, df, genresDf).0.genres[|db.genres|..] == [];
    }
  }

  /** After a merge of the plays later than the watermark, no play of the
      batch is later than the new watermark. */
  lemma MergeCoversBatch(db: Db, survivors: seq<TrackRow>, genresDf: seq<GenrePair>, df: seq<TrackRow>)
    requires forall x :: x in df && Later(x.playedAt, Latest(db.plays)) ==> x in survivors
    ensures forall x :: x in df ==> !Later(x.playedAt, Latest(Merge(db, survivors, genresDf).plays))
  {
    var ps := Merge(db, survivors, genresDf).plays;
    assert ps == db.plays + MapSeq(survivors, PlayOf);
    forall x | x in df
      ensures !Later(x.playedAt, Latest(ps))
    {
      if Later(x.playedAt, Latest(db.plays)) {
        MapSeqMember(survivors, PlayOf, x);
        assert PlayOf(x) in ps;
      } else {
        var p :| p in db.plays && p.playedAt == Latest(db.plays).value;
        assert p in ps;
      }
    }
  }

  /** Loading the same batch a second time changes nothing and reports no
      new rows. */
  lemma LoadIdempotent(db: Db, df: seq<TrackRow>, genresDf: seq<GenrePair>)
    ensures var db' := LoadSpec(db, df, genresDf).0;
      LoadSpec(db', df, genresDf).0 == db' && !LoadSpec(db', df, genresDf).1.Loaded?
  {
    LoadCases(db, df, genresDf);
    if LoadSpec(db, df, genresDf).1.Loaded? {
      var survivors := Survivors(db, df);
      MergeCoversBatch(db, survivors, genresDf, df);
      LoadNoSurvivors(Merge(db, survivors, genresDf), df, genresDf);
    }
  }

  function PlayTime(p: Play): int { p.playedAt }
  function SongTrackId(s: Song): string { s.trackId }
  function ArtistKey(a: Artist): string { a.artistId }

  /** The keys the tables declare: `played_at`, `track_id`, `artist_id` and
      the (artist, genre) pair. */
  ghost predicate KeysUnique(db: Db) {
    && NoDup(MapSeq(db.plays, PlayTime))
    && NoDup(MapSeq(db.songs, SongTrackId))
    && NoDup(MapSeq(db.artists, ArtistKey))
    && NoDup(db.genres)
  }

  /** Plays strictly later than every persisted one, with distinct times
      among themselves, keep the `played_at` key unique. */
  lemma FreshPlayKeys(plays: seq<Play>, survivors: seq<TrackRow>)
    requires NoDup(MapSeq(plays, PlayTime))
    requires forall x :: x in survivors ==> Later(x.playedAt, Latest(plays))
    requires forall i, j :: 0 <= i < j < |survivors| ==> survivors[i].playedAt != survivors[j].playedAt
    ensures NoDup(MapSeq(plays + MapSeq(survivors, PlayOf), PlayTime))
  {
    var added := MapSeq(survivors, PlayOf);
    var times := MapSeq(added, PlayTime);
    forall i, j | 0 <= i < j < |times| ensures times[i] != times[j] {
      assert times[i] == survivors[i].playedAt && times[j] == survivors[j].playedAt;
    }
    forall x, y | x in plays && y in added ensures PlayTime(x) != PlayTime(y) {
      var j :| 0 <= j < |added| && added[j] == y;
      assert survivors[j] in survivors;
    }
    KeysAppend(plays, added, PlayTime);
  }

  lemma MergePlayKeys(db: Db, survivors: seq<TrackRow>, genresDf: seq<GenrePair>)
    requires NoDup(MapSeq(db.plays, PlayTime))
    requires forall x :: x in survivors ==> Later(x.playedAt, Latest(db.plays))
    requires forall i, j :: 0 <= i < j < |survivors| ==> survivors[i].playedAt != survivors[j].playedAt
    ensures NoDup(MapSeq(Merge(db, survivors, genresDf).plays, PlayTime))
  {
    FreshPlayKeys(db.plays, survivors);
    assert Merge(db, survivors, genresDf).plays == db.plays + MapSeq(survivors, PlayOf);
  }

  lemma MergeSongKeys(db: Db, survivors: seq<TrackRow>, genresDf: seq<GenrePair>)
    requires NoDup(MapSeq(db.songs, SongTrackId))
    ensures NoDup(MapSeq(Merge(db, survivors, genresDf).songs, SongTrackId))
  {
    var songRows := NewSongRows(survivors, TrackIds(db.songs));
    var added := MapSeq(songRows, SongOf);
    assert MapSeq(added, SongTrackId) == MapSeq(songRows, RowTrackId);
    forall x, y | x in db.songs && y in added ensures SongTrackId(x) != SongTrackId(y) {
      var j :| 0 <= j < |added| && added[j] == y;
      assert songRows[j] in songRows;
    }
    KeysAppend(db.songs, added, SongTrackId);
  }

  lemma MergeArtistKeys(db: Db, survivors: seq<TrackRow>, genresDf: seq<GenrePair>)
    requires NoDup(MapSeq(db.artists, ArtistKey))
    ensures NoDup(MapSeq(Merge(db, survivors, genresDf).artists, ArtistKey))
  {
    var songRows := NewSongRows(survivors, TrackIds(db.songs));
    var artistRows := NewArtistRows(songRows, ArtistIds(db.artists));
    var added := MapSeq(artistRows, ArtistOf);
    assert MapSeq(added, ArtistKey) == MapSeq(artistRows, RowArtistId);
    forall x, y | x in db.artists && y in added ensures ArtistKey(x) != ArtistKey(y) {
      var j :| 0 <= j < |added| && added[j] == y;
      assert artistRows[j] in artistRows;
    }
    KeysAppend(db.artists, added, ArtistKey);
  }

  lemma MergeGenreKeys(db: Db, survivors: seq<TrackRow>, genresDf: seq<GenrePair>)
    requires NoDup(db.genres) && NoDup(genresDf)
    ensures NoDup(Merge(db, survivors, genresDf).genres)
  {
    var added := NewGenres(genresDf, db.genres);
    ExcludeNoDup(genresDf, PairItself, set p | p in db.genres);
    forall i, j | 0 <= i < |db.genres| && 0 <= j < |added| ensures db.genres[i] != added[j] {
      assert added[j] in added;
    }
    NoDupAppend(db.genres, added);
  }

  /** A load never produces a second row for a key, given a genre batch
      without repeated pairs (which the transform delivers, GenresOfNoDup). */
  lemma LoadKeepsKeysUnique(db: Db, df: seq<TrackRow>, genresDf: seq<GenrePair>)
    requires KeysUnique(db)
    requires NoDup(genresDf)
    ensures KeysUnique(LoadSpec(db, df, genresDf).0)
  {
    LoadCases(db, df, genresDf);
    if LoadSpec(db, df, genresDf).1.Loaded? {
      var survivors := Survivors(db, df);
      MergePlayKeys(db, survivors, genresDf);
      MergeSongKeys(db, survivors, genresDf);
      MergeArtistKeys(db, survivors, genresDf);
      MergeGenreKeys(db, survivors, genresDf);
    }
  }
}
