/** The enrichment pipeline: choosing the ISRCs still to classify, resolving
    each ISRC to a recording id (MBID), fetching the audio features of each
    MBID, flattening them into feature rows, and appending the results and
    both negative caches to the store. */
module AcousticBrainz {
  import opened Wrappers
  import opened Seqs
  import opened Tables
  import opened Http

  // ---------------------------------------------------------------------
  // ISRCs still to classify

  /** The ISRCs that already have a row in one of the three result tables. */
  function SettledIsrcs(db: Db): set<string> {
    (set a | a in db.features :: a.isrc)
    + (set f | f in db.failedIsrcs :: f.isrc)
    + (set m | m in db.invalidMbids :: m.isrc)
  }

  /** `get_missing_isrc`: the non-null ISRCs of `song_data` that no row of
      `acousticbrainz_data`, `failed_isrcs` or `invalid_mbids` carries. */
  function MissingIsrcs(db: Db): (r: set<string>)
    ensures forall x :: x in r <==> (exists s :: s in db.songs && s.isrc == Some(x)) && x !in SettledIsrcs(db)
  {
    set s | s in db.songs && s.isrc.Some?
              && (forall a :: a in db.features ==> a.isrc != s.isrc.value)
              && (forall f :: f in db.failedIsrcs ==> f.isrc != s.isrc.value)
              && (forall m :: m in db.invalidMbids ==> m.isrc != s.isrc.value)
            :: s.isrc.value
  }

  // ---------------------------------------------------------------------
  // ISRC to MBID

  /** A lookup reply; its body lists the ids of the returned recordings. */
  type LookupReply = Response<seq<string>>

  /** The recording a settled lookup picks: the first one listed, if the
      reply is a 200 that lists any. */
  function FirstMatch(script: seq<LookupReply>): Option<string>
    requires Settles(script)
  {
    var reply := Settled(script);
    if reply.status == OK && |reply.body| > 0 then Some(reply.body[0]) else None
  }

  datatype Resolution = Resolution(mbids: seq<string>, failed: seq<string>, mapping: map<string, string>)

  /** The outcome of `isrc_to_mbid` when the lookup of `isrcs[i]` is answered
      by `scripts[i]`. */
  function ResolveSpec(isrcs: seq<string>, scripts: seq<seq<LookupReply>>): Resolution
    requires |scripts| == |isrcs| && AllSettle(scripts)
    decreases |isrcs|
  {
    if |isrcs| == 0 then Resolution([], [], map[])
    else
      var n := |isrcs| - 1;
      var prev := ResolveSpec(isrcs[..n], scripts[..n]);
      match FirstMatch(scripts[n])
      case Some(mbid) => Resolution(prev.mbids + [mbid], prev.failed, prev.mapping[mbid := isrcs[n]])
      case None => Resolution(prev.mbids, prev.failed + [isrcs[n]], prev.mapping)
  }

  method IsrcToMbid(isrcs: seq<string>, scripts: seq<seq<LookupReply>>)
    returns (mbids: seq<string>, failed: seq<string>, mapping: map<string, string>)
    requires |scripts| == |isrcs| && AllSettle(scripts)
    ensures Resolution(mbids, failed, mapping) == ResolveSpec(isrcs, scripts)
  {
    mbids, failed, mapping := [], [], map[];
    var i := 0;
    while i < |isrcs|
      invariant 0 <= i <= |isrcs|
      invariant Resolution(mbids, failed, mapping) == ResolveSpec(isrcs[..i], scripts[..i])
    {
      var isrc := isrcs[i];
      var script := scripts[i];
      ghost var before := Resolution(mbids, failed, mapping);
      var attempt := 0;
      while true
        invariant 0 <= attempt <= SettleIndex(script)
        invariant Resolution(mbids, failed, mapping) == before
        decreases SettleIndex(script) - attempt
      {
        var response := script[attempt];
        if response.status == OK {
          if |response.body| > 0 {
            var mbid := response.body[0];
            mbids := mbids + [mbid];
            mapping := mapping[mbid := isrc];
          } else {
            failed := failed + [isrc];
          }
          break;
        }
        if response.status == TOO_MANY_REQUESTS {
          attempt := attempt + 1;
        } else {
          failed := failed + [isrc];
          break;
        }
      }
      assert isrcs[..i + 1][..i] == isrcs[..i];
      assert scripts[..i + 1][..i] == scripts[..i];
      i := i + 1;
    }
    assert isrcs[..i] == isrcs && scripts[..i] == scripts;
  }

  // ---------------------------------------------------------------------
  // Audio features

  /** One classifier of the high-level payload: its `value` and `probability`. */
  datatype Classifier = Classifier(value: Option<string>, probability: Option<Prob>)

  /** A feature payload; `highlevel` maps classifier names to classifiers. */
  datatype Payload = Payload(highlevel: Option<map<string, Classifier>>)

  type FeatureReply = Response<Payload>

  /** Every non-empty MBID's request is answered by its script, which settles. */
  ghost predicate FetchesSettle(mbids: seq<string>, scripts: seq<seq<FeatureReply>>) {
    |scripts| == |mbids| && forall i :: 0 <= i < |mbids| && mbids[i] != "" ==> Settles(scripts[i])
  }

  datatype Extraction = Extraction(data: map<string, Payload>, invalid: seq<string>)

  /** The payloads stored and the MBIDs answered 404, in request order, before
      the invalid list is deduplicated. */
  function ExtractScan(mbids: seq<string>, scripts: seq<seq<FeatureReply>>): Extraction
    requires FetchesSettle(mbids, scripts)
    decreases |mbids|
  {
    if |mbids| == 0 then Extraction(map[], [])
    else
      var n := |mbids| - 1;
      var prev := ExtractScan(mbids[..n], scripts[..n]);
      var mbid := mbids[n];
      if mbid == "" then prev
      else
        var reply := Settled(scripts[n]);
        if reply.status == OK then Extraction(prev.data[mbid := reply.body], prev.invalid)
        else if reply.status == NOT_FOUND then Extraction(prev.data, prev.invalid + [mbid])
        else prev
  }

  /** The outcome of `extract`. */
  function ExtractSpec(mbids: seq<string>, scripts: seq<seq<FeatureReply>>): Extraction
    requires FetchesSettle(mbids, scripts)
  {
    var scan := ExtractScan(mbids, scripts);
    Extraction(scan.data, Distinct(scan.invalid))
  }

  method Extract(mbids: seq<string>, scripts: seq<seq<FeatureReply>>)
    returns (data: map<string, Payload>, invalid: seq<string>)
    requires FetchesSettle(mbids, scripts)
    ensures Extraction(data, invalid) == ExtractSpec(mbids, scripts)
  {
    data, invalid := map[], [];
    var i := 0;
    while i < |mbids|
      invariant 0 <= i <= |mbids|
      invariant Extraction(data, invalid) == ExtractScan(mbids[..i], scripts[..i])
    {
      assert mbids[..i + 1][..i] == mbids[..i];
      assert scripts[..i + 1][..i] == scripts[..i];
      var mbid := mbids[i];
      if mbid == "" {
        i := i + 1;
        continue;
      }
      var script := scripts[i];
      ghost var before := Extraction(data, invalid);
      var attempt := 0;
      while true
        invariant 0 <= attempt <= SettleIndex(script)
        invariant Extraction(data, invalid) == before
        decreases SettleIndex(script) - attempt
      {
        var res := script[attempt];
        if res.status == OK {
          data := data[mbid := res.body];
          break;
        } else if res.status == TOO_MANY_REQUESTS {
          attempt := attempt + 1;
        } else if res.status == NOT_FOUND {
          invalid := invalid + [mbid];
          break;
        } else {
          break;
        }
      }
      i := i + 1;
    }
    assert mbids[..i] == mbids && scripts[..i] == scripts;
    invalid := Distinct(invalid);
  }

  // ---------------------------------------------------------------------
  // Feature rows

  /** `raw_data.get(mbid, {}).get("highlevel", {})`. */
  function HighLevel(raw: map<string, Payload>, mbid: string): map<string, Classifier> {
    if mbid in raw && raw[mbid].highlevel.Some? then raw[mbid].highlevel.value else map[]
  }

  /** `hl.get(name, {}).get("value")`. */
  function ValueOf(hl: map<string, Classifier>, name: string): Option<string> {
    if name in hl then hl[name].value else None
  }

  /** `hl.get(name, {}).get("probability")`. */
  function ProbabilityOf(hl: map<string, Classifier>, name: string): Option<Prob> {
    if name in hl then hl[name].probability else None
  }

  /** The feature record of one MBID; a classifier missing from the payload
      leaves its fields null. */
  function FeaturesOf(isrc: string, mbid: string, hl: map<string, Classifier>): (r: FeatureRow)
    ensures r.isrc == isrc && r.mbid == mbid
    ensures "danceability" !in hl ==> r.danceability.None?
    ensures "voice_instrumental" !in hl ==> r.instrumentality.None? && r.instrumentalityProb.None?
    ensures "gender" !in hl ==> r.gender.None? && r.genderProb.None?
    ensures "timbre" !in hl ==> r.timbre.None?
    ensures "tonal_atonal" !in hl ==> r.tonality.None?
  {
    FeatureRow(
      isrc, mbid,
      ValueOf(hl, "danceability"),
      ValueOf(hl, "voice_instrumental"), ProbabilityOf(hl, "voice_instrumental"),
      ValueOf(hl, "gender"), ProbabilityOf(hl, "gender"),
      ValueOf(hl, "timbre"),
      ValueOf(hl, "tonal_atonal"))
  }

  /** An MBID that gets a feature record: not empty, not invalid, and mapped
      to a non-empty ISRC. */
  predicate Usable(mbid: string, invalid: seq<string>, mapping: map<string, string>) {
    mbid != "" && mbid !in invalid && mbid in mapping && mapping[mbid] != ""
  }

  /** The output of `transform`. */
  function TransformSpec(raw: map<string, Payload>, mbids: seq<string>, invalid: seq<string>,
                         mapping: map<string, string>): seq<FeatureRow>
    decreases |mbids|
  {
    if |mbids| == 0 then []
    else
      var n := |mbids| - 1;
      var mbid := mbids[n];
      TransformSpec(raw, mbids[..n], invalid, mapping)
        + if Usable(mbid, invalid, mapping) then [FeaturesOf(mapping[mbid], mbid, HighLevel(raw, mbid))] else []
  }

  method Transform(raw: map<string, Payload>, mbids: seq<string>, invalid: seq<string>,
                   mapping: map<string, string>) returns (output: seq<FeatureRow>)
    ensures output == TransformSpec(raw, mbids, invalid, mapping)
  {
    output := [];
    var i := 0;
    while i < |mbids|
      invariant 0 <= i <= |mbids|
      invariant output == TransformSpec(raw, mbids[..i], invalid, mapping)
    {
      assert mbids[..i + 1][..i] == mbids[..i];
      var mbid := mbids[i];
      i := i + 1;
      if mbid == "" {
        continue;
      }
      if mbid in invalid {
        continue;
      }
      if mbid !in mapping || mapping[mbid] == "" {
        continue;
      }
      var isrc := mapping[mbid];
      var abData := HighLevel(raw, mbid);
      output := output + [FeaturesOf(isrc, mbid, abData)];
    }
    assert mbids[..i] == mbids;
  }

  // ---------------------------------------------------------------------
  // Appending the results

  function FeatureMbid(r: FeatureRow): string { r.mbid }

  /** One `failed_isrcs` row per failed ISRC. */
  function FailedRows(failed: seq<string>, stamp: Stamp): seq<FailedIsrc> {
    seq(|failed|, i requires 0 <= i < |failed| => FailedIsrc(failed[i], stamp))
  }

  /** The `invalid_mbids` rows: one per invalid MBID that has a mapping entry,
      carrying the mapped ISRC. */
  function InvalidRows(invalid: seq<string>, mapping: map<string, string>, stamp: Stamp): (r: seq<InvalidMbid>)
    ensures forall row :: row in r ==>
      row.mbid in invalid && row.mbid in mapping && row.isrc == mapping[row.mbid] && row.lastAttempt == stamp
    ensures forall m :: m in invalid && m in mapping ==> InvalidMbid(m, mapping[m], stamp) in r
    decreases |invalid|
  {
    if |invalid| == 0 then []
    else
      var n := |invalid| - 1;
      var m := invalid[n];
      assert forall x :: x in invalid <==> x in invalid[..n] || x == m;
      InvalidRows(invalid[..n], mapping, stamp)
        + if m in mapping then [InvalidMbid(m, mapping[m], stamp)] else []
  }

  function FeatureIsrc(r: FeatureRow): string { r.isrc }
  function FailedKey(f: FailedIsrc): string { f.isrc }
  function InvalidKey(v: InvalidMbid): string { v.mbid }

  /** The keys the enrichment tables declare: `isrc` (primary) and `mbid`
      (unique) in `acousticbrainz_data`, `isrc` in `failed_isrcs`, `mbid` in
      `invalid_mbids`. */
  ghost predicate EnrichmentKeysUnique(db: Db) {
    && NoDup(MapSeq(db.features, FeatureIsrc))
    && NoDup(MapSeq(db.features, FeatureMbid))
    && NoDup(MapSeq(db.failedIsrcs, FailedKey))
    && NoDup(MapSeq(db.invalidMbids, InvalidKey))
  }

  /** None of the three inserts of a load violates a key: otherwise the
      database raises, and the transaction rolls every insert back. */
  predicate Commits(db: Db, features: seq<FeatureRow>, failed: seq<FailedIsrc>, invalid: seq<InvalidMbid>) {
    && KeysFresh(db.features, features, FeatureIsrc)
    && KeysFresh(db.features, features, FeatureMbid)
    && KeysFresh(db.failedIsrcs, failed, FailedKey)
    && KeysFresh(db.invalidMbids, invalid, InvalidKey)
  }

  /** The rows `load` inserts into the three tables. */
  function NewFeatures(db: Db, df: seq<FeatureRow>): seq<FeatureRow> {
    Exclude(df, FeatureMbid, PersistedMbids(db.features))
  }

  /** The transaction of `load(df, failed_mbids, failed_isrcs, mapping)`
      commits. */
  predicate LoadCommits(db: Db, df: seq<FeatureRow>, invalid: seq<string>, failed: seq<string>,
                        mapping: map<string, string>, stamp: Stamp) {
    Commits(db, NewFeatures(db, df), FailedRows(failed, stamp), InvalidRows(invalid, mapping, stamp))
  }

  /** The store after `load(df, failed_mbids, failed_isrcs, mapping)`; `stamp`
      is the clock reading the rows are stamped with. The three appends run
      in one transaction: all of them happen, or, when one violates a key,
      none. */
  function LoadSpec(db: Db, df: seq<FeatureRow>, invalid: seq<string>, failed: seq<string>,
                    mapping: map<string, string>, stamp: Stamp): Db
  {
    if LoadCommits(db, df, invalid, failed, mapping, stamp) then
      db.(features := db.features + NewFeatures(db, df),
          failedIsrcs := db.failedIsrcs + FailedRows(failed, stamp),
          invalidMbids := db.invalidMbids + InvalidRows(invalid, mapping, stamp))
    else db
  }

  /** `load`: the inserts work on the transaction's view of the tables; an
      insert that violates a key raises, the rest is skipped, and the store
      keeps its old contents. */
  method Load(store: Store, df: seq<FeatureRow>, invalid: seq<string>, failed: seq<string>,
              mapping: map<string, string>, stamp: Stamp)
    modifies store
    ensures store.Snapshot() == LoadSpec(old(store.Snapshot()), df, invalid, failed, mapping, stamp)
  {
    ghost var db := store.Snapshot();
    var features, failedIsrcs, invalidMbids := store.features, store.failedIsrcs, store.invalidMbids;
    var ok := true;
    if |df| > 0 {
      var newDf := Exclude(df, FeatureMbid, PersistedMbids(features));
      if |newDf| > 0 {
        ok := KeysFresh(features, newDf, FeatureIsrc) && KeysFresh(features, newDf, FeatureMbid);
        features := features + newDf;
      }
    }
    assert ok == (KeysFresh(db.features, NewFeatures(db, df), FeatureIsrc)
                  && KeysFresh(db.features, NewFeatures(db, df), FeatureMbid));
    assert features == db.features + NewFeatures(db, df);
    ghost var okFeatures := ok;
    if ok && |failed| > 0 {
      var isrcDf := FailedRows(failed, stamp);
      ok := KeysFresh(failedIsrcs, isrcDf, FailedKey);
      failedIsrcs := failedIsrcs + isrcDf;
    }
    assert okFeatures ==> ok == KeysFresh(db.failedIsrcs, FailedRows(failed, stamp), FailedKey);
    assert okFeatures ==> failedIsrcs == db.failedIsrcs + FailedRows(failed, stamp);
    ghost var okFailed := ok;
    if ok && |invalid| > 0 {
      var mbidData := CollectInvalid(invalid, mapping, stamp);
      if |mbidData| > 0 {
        ok := KeysFresh(invalidMbids, mbidData, InvalidKey);
        invalidMbids := invalidMbids + mbidData;
      }
    }
    assert okFailed ==> ok == KeysFresh(db.invalidMbids, InvalidRows(invalid, mapping, stamp), InvalidKey);
    assert okFailed ==> invalidMbids == db.invalidMbids + InvalidRows(invalid, mapping, stamp);
    assert ok == LoadCommits(db, df, invalid, failed, mapping, stamp);
    if ok {
      store.features, store.failedIsrcs, store.invalidMbids := features, failedIsrcs, invalidMbids;
    }
  }

  /** The loop of `load` that builds the `invalid_mbids` rows. */
  method CollectInvalid(invalid: seq<string>, mapping: map<string, string>, stamp: Stamp)
    returns (mbidData: seq<InvalidMbid>)
    ensures mbidData == InvalidRows(invalid, mapping, stamp)
  {
    mbidData := [];
    var i := 0;
    while i < |invalid|
      invariant 0 <= i <= |invalid|
      invariant mbidData == InvalidRows(invalid[..i], mapping, stamp)
    {
      assert invalid[..i + 1][..i] == invalid[..i];
      var mbid := invalid[i];
      if mbid in mapping {
        var isrc := mapping[mbid];
        mbidData := mbidData + [InvalidMbid(mbid, isrc, stamp)];
      }
      i := i + 1;
    }
    assert invalid[..i] == invalid;
  }

  // ---------------------------------------------------------------------
  // Properties of the MBID lookup

  /** Every ISRC lands in exactly one of the two lists, and the mapping is
      keyed by the MBIDs found. */
  lemma {:induction false} ResolvePartition(isrcs: seq<string>, scripts: seq<seq<LookupReply>>)
    requires |scripts| == |isrcs| && AllSettle(scripts)
    ensures |ResolveSpec(isrcs, scripts).mbids| + |ResolveSpec(isrcs, scripts).failed| == |isrcs|
    ensures forall m :: m in ResolveSpec(isrcs, scripts).mapping <==> m in ResolveSpec(isrcs, scripts).mbids
    decreases |isrcs|
  {
    if |isrcs| > 0 {
      var n := |isrcs| - 1;
      ResolvePartition(isrcs[..n], scripts[..n]);
    }
  }

  /** An ISRC is failed exactly when one of its lookups settled without a
      recording: a 200 listing none, or a status other than 200 and 429. */
  lemma {:induction false} ResolveFailed(isrcs: seq<string>, scripts: seq<seq<LookupReply>>)
    requires |scripts| == |isrcs| && AllSettle(scripts)
    ensures forall x :: x in ResolveSpec(isrcs, scripts).failed <==>
      exists i :: 0 <= i < |isrcs| && isrcs[i] == x && FirstMatch(scripts[i]).None?
    decreases |isrcs|
  {
    if |isrcs| > 0 {
      var n := |isrcs| - 1;
      var pi, ps := isrcs[..n], scripts[..n];
      ResolveFailed(pi, ps);
      forall x
        ensures x in ResolveSpec(isrcs, scripts).failed <==>
          exists i :: 0 <= i < |isrcs| && isrcs[i] == x && FirstMatch(scripts[i]).None?
      {
        if exists i :: 0 <= i < |isrcs| && isrcs[i] == x && FirstMatch(scripts[i]).None? {
          var i :| 0 <= i < |isrcs| && isrcs[i] == x && FirstMatch(scripts[i]).None?;
          if i < n {
            assert pi[i] == x && ps[i] == scripts[i];
          }
        }
        if x in ResolveSpec(pi, ps).failed {
          var i :| 0 <= i < n && pi[i] == x && FirstMatch(ps[i]).None?;
          assert isrcs[i] == x && scripts[i] == ps[i];
        }
      }
    }
  }

  /** The MBID list holds the first recording of every lookup that found
      one, and nothing else. */
  lemma {:induction false} ResolveMbids(isrcs: seq<string>, scripts: seq<seq<LookupReply>>)
    requires |scripts| == |isrcs| && AllSettle(scripts)
    ensures forall m :: m in ResolveSpec(isrcs, scripts).mbids <==>
      exists i :: 0 <= i < |isrcs| && FirstMatch(scripts[i]) == Some(m)
    decreases |isrcs|
  {
    if |isrcs| > 0 {
      var n := |isrcs| - 1;
      var pi, ps := isrcs[..n], scripts[..n];
      ResolveMbids(pi, ps);
      forall m
        ensures m in ResolveSpec(isrcs, scripts).mbids <==>
          exists i :: 0 <= i < |isrcs| && FirstMatch(scripts[i]) == Some(m)
      {
        if exists i :: 0 <= i < |isrcs| && FirstMatch(scripts[i]) == Some(m) {
          var i :| 0 <= i < |isrcs| && FirstMatch(scripts[i]) == Some(m);
          if i < n {
            assert ps[i] == scripts[i];
          }
        }
        if m in ResolveSpec(pi, ps).mbids {
          var i :| 0 <= i < n && FirstMatch(ps[i]) == Some(m);
          assert scripts[i] == ps[i];
        }
      }
    }
  }

  /** Last write wins: an MBID maps to the ISRC of the last lookup that
      found it. */
  lemma {:induction false} ResolveLastWriteWins(isrcs: seq<string>, scripts: seq<seq<LookupReply>>, m: string)
    requires |scripts| == |isrcs| && AllSettle(scripts)
    requires m in ResolveSpec(isrcs, scripts).mapping
    ensures exists i :: (0 <= i < |isrcs| && FirstMatch(scripts[i]) == Some(m)
                         && ResolveSpec(isrcs, scripts).mapping[m] == isrcs[i]
                         && forall j :: i < j < |isrcs| ==> FirstMatch(scripts[j]) != Some(m))
    decreases |isrcs|
  {
    var n := |isrcs| - 1;
    var pi, ps := isrcs[..n], scripts[..n];
    if FirstMatch(scripts[n]) == Some(m) {
      assert ResolveSpec(isrcs, scripts).mapping[m] == isrcs[n];
    } else {
      ResolveLastWriteWins(pi, ps, m);
      var i :| 0 <= i < n && FirstMatch(ps[i]) == Some(m)
        && ResolveSpec(pi, ps).mapping[m] == pi[i]
        && forall j :: i < j < n ==> FirstMatch(ps[j]) != Some(m);
      assert scripts[i] == ps[i] && isrcs[i] == pi[i];
      forall j | i < j < |isrcs|
        ensures FirstMatch(scripts[j]) != Some(m)
      {
        if j < n {
          assert scripts[j] == ps[j];
        }
      }
    }
  }

  /** The last lookup to find a recording owns it in the mapping. */
  lemma {:induction false} ResolveOwner(isrcs: seq<string>, scripts: seq<seq<LookupReply>>, i: int, m: string)
    requires |scripts| == |isrcs| && AllSettle(scripts)
    requires 0 <= i < |isrcs| && FirstMatch(scripts[i]) == Some(m)
    requires forall j :: i < j < |isrcs| ==> FirstMatch(scripts[j]) != Some(m)
    ensures m in ResolveSpec(isrcs, scripts).mapping && ResolveSpec(isrcs, scripts).mapping[m] == isrcs[i]
    decreases |isrcs|
  {
    var n := |isrcs| - 1;
    if i < n {
      ResolveOwner(isrcs[..n], scripts[..n], i, m);
    }
  }

  /** With distinct ISRCs (the lookup is fed a set), a failed ISRC is never
      a value of the mapping. */
  lemma ResolveFailedUnmapped(isrcs: seq<string>, scripts: seq<seq<LookupReply>>)
    requires |scripts| == |isrcs| && AllSettle(scripts)
    requires NoDup(isrcs)
    ensures forall m :: m in ResolveSpec(isrcs, scripts).mapping ==>
      ResolveSpec(isrcs, scripts).mapping[m] !in ResolveSpec(isrcs, scripts).failed
  {
    var r := ResolveSpec(isrcs, scripts);
    ResolveFailed(isrcs, scripts);
    forall m | m in r.mapping
      ensures r.mapping[m] !in r.failed
    {
      ResolveLastWriteWins(isrcs, scripts, m);
      var i :| 0 <= i < |isrcs| && FirstMatch(scripts[i]) == Some(m) && r.mapping[m] == isrcs[i];
      forall k | 0 <= k < |isrcs| && isrcs[k] == r.mapping[m]
        ensures FirstMatch(scripts[k]).Some?
      {
        assert k == i;
      }
    }
  }

  /** An ISRC whose recording is also found by a later ISRC is in neither
      output: not failed and not a value of the mapping. */
  lemma ResolveShadowed(isrcs: seq<string>, scripts: seq<seq<LookupReply>>, i: int, j: int, m: string)
    requires |scripts| == |isrcs| && AllSettle(scripts)
    requires NoDup(isrcs)
    requires 0 <= i < j < |isrcs|
    requires FirstMatch(scripts[i]) == Some(m) && FirstMatch(scripts[j]) == Some(m)
    ensures isrcs[i] !in ResolveSpec(isrcs, scripts).failed
    ensures forall k :: k in ResolveSpec(isrcs, scripts).mapping ==> ResolveSpec(isrcs, scripts).mapping[k] != isrcs[i]
  {
    var r := ResolveSpec(isrcs, scripts);
    ResolveFailed(isrcs, scripts);
    forall k | 0 <= k < |isrcs| && isrcs[k] == isrcs[i]
      ensures FirstMatch(scripts[k]).Some?
    {
      assert k == i;
    }
    forall k | k in r.mapping
      ensures r.mapping[k] != isrcs[i]
    {
      ResolveLastWriteWins(isrcs, scripts, k);
      var l :| 0 <= l < |isrcs| && FirstMatch(scripts[l]) == Some(k) && r.mapping[k] == isrcs[l]
        && forall j' :: l < j' < |isrcs| ==> FirstMatch(scripts[j']) != Some(k);
      assert l != i by {
        if k == m {
          assert j <= l;
        }
      }
    }
  }

  // ---------------------------------------------------------------------
  // Properties of the feature fetch

  /** The MBIDs with a payload are the non-empty ones some request of which
      settled with a 200. */
  lemma {:induction false} ScanDataKeys(mbids: seq<string>, scripts: seq<seq<FeatureReply>>)
    requires FetchesSettle(mbids, scripts)
    ensures forall m :: m in ExtractScan(mbids, scripts).data <==>
      exists i :: 0 <= i < |mbids| && mbids[i] != "" && mbids[i] == m && Settled(scripts[i]).status == OK
    decreases |mbids|
  {
    if |mbids| > 0 {
      var n := |mbids| - 1;
      var pm, ps := mbids[..n], scripts[..n];
      ScanDataKeys(pm, ps);
      forall m
        ensures m in ExtractScan(mbids, scripts).data <==>
          exists i :: 0 <= i < |mbids| && mbids[i] != "" && mbids[i] == m && Settled(scripts[i]).status == OK
      {
        if exists i :: 0 <= i < |mbids| && mbids[i] != "" && mbids[i] == m && Settled(scripts[i]).status == OK {
          var i :| 0 <= i < |mbids| && mbids[i] != "" && mbids[i] == m && Settled(scripts[i]).status == OK;
          if i < n {
            assert pm[i] == mbids[i] && ps[i] == scripts[i];
          }
        }
        if m in ExtractScan(pm, ps).data {
          var i :| 0 <= i < n && pm[i] != "" && pm[i] == m && Settled(ps[i]).status == OK;
          assert mbids[i] == pm[i] && scripts[i] == ps[i];
        }
      }
    }
  }

  /** A stored payload is the body of the last 200 its MBID received. */
  lemma {:induction false} ScanDataLast(mbids: seq<string>, scripts: seq<seq<FeatureReply>>, m: string)
    requires FetchesSettle(mbids, scripts)
    requires m in ExtractScan(mbids, scripts).data
    ensures exists i :: (0 <= i < |mbids| && mbids[i] != "" && mbids[i] == m && Settled(scripts[i]).status == OK
                         && ExtractScan(mbids, scripts).data[m] == Settled(scripts[i]).body
                         && forall j :: i < j < |mbids| && mbids[j] == m ==> Settled(scripts[j]).status != OK)
    decreases |mbids|
  {
    var n := |mbids| - 1;
    var pm, ps := mbids[..n], scripts[..n];
    if !(mbids[n] != "" && mbids[n] == m && Settled(scripts[n]).status == OK) {
      ScanDataLast(pm, ps, m);
      var i :| 0 <= i < n && pm[i] != "" && pm[i] == m && Settled(ps[i]).status == OK
        && ExtractScan(pm, ps).data[m] == Settled(ps[i]).body
        && forall j :: i < j < n && pm[j] == m ==> Settled(ps[j]).status != OK;
      assert mbids[i] == pm[i] && scripts[i] == ps[i];
      forall j | i < j < |mbids| && mbids[j] == m
        ensures Settled(scripts[j]).status != OK
      {
        if j < n {
          assert pm[j] == mbids[j] && ps[j] == scripts[j];
        }
      }
    }
  }

  /** The MBIDs reported invalid (before deduplication) are the non-empty
      ones some request of which settled with a 404. */
  lemma {:induction false} ScanInvalid(mbids: seq<string>, scripts: seq<seq<FeatureReply>>)
    requires FetchesSettle(mbids, scripts)
    ensures forall m :: m in ExtractScan(mbids, scripts).invalid <==>
      exists i :: 0 <= i < |mbids| && mbids[i] != "" && mbids[i] == m && Settled(scripts[i]).status == NOT_FOUND
    decreases |mbids|
  {
    if |mbids| > 0 {
      var n := |mbids| - 1;
      var pm, ps := mbids[..n], scripts[..n];
      ScanInvalid(pm, ps);
      forall m
        ensures m in ExtractScan(mbids, scripts).invalid <==>
          exists i :: 0 <= i < |mbids| && mbids[i] != "" && mbids[i] == m && Settled(scripts[i]).status == NOT_FOUND
      {
        if exists i :: 0 <= i < |mbids| && mbids[i] != "" && mbids[i] == m && Settled(scripts[i]).status == NOT_FOUND {
          var i :| 0 <= i < |mbids| && mbids[i] != "" && mbids[i] == m && Settled(scripts[i]).status == NOT_FOUND;
          if i < n {
            assert pm[i] == mbids[i] && ps[i] == scripts[i];
          }
        }
        if m in ExtractScan(pm, ps).invalid {
          var i :| 0 <= i < n && pm[i] != "" && pm[i] == m && Settled(ps[i]).status == NOT_FOUND;
          assert mbids[i] == pm[i] && scripts[i] == ps[i];
        }
      }
    }
  }

  /** `extract` by status: a 200 stores the payload, a 404 marks the MBID
      invalid, anything else stores nothing, and the invalid list holds no
      MBID twice. */
  lemma ExtractOutcome(mbids: seq<string>, scripts: seq<seq<FeatureReply>>)
    requires FetchesSettle(mbids, scripts)
    ensures forall m :: m in ExtractSpec(mbids, scripts).data <==>
      exists i :: 0 <= i < |mbids| && mbids[i] != "" && mbids[i] == m && Settled(scripts[i]).status == OK
    ensures forall m :: m in ExtractSpec(mbids, scripts).invalid <==>
      exists i :: 0 <= i < |mbids| && mbids[i] != "" && mbids[i] == m && Settled(scripts[i]).status == NOT_FOUND
    ensures NoDup(ExtractSpec(mbids, scripts).invalid)
    ensures "" !in ExtractSpec(mbids, scripts).data && "" !in ExtractSpec(mbids, scripts).invalid
  {
    ScanDataKeys(mbids, scripts);
    ScanInvalid(mbids, scripts);
  }

  // ---------------------------------------------------------------------
  // Properties of the feature rows

  /** The usable MBIDs, in order: a reference definition of which MBIDs
      `transform` emits. */
  function UsableMbids(mbids: seq<string>, invalid: seq<string>, mapping: map<string, string>): (r: seq<string>)
    ensures forall m :: m in r <==> m in mbids && Usable(m, invalid, mapping)
    decreases |mbids|
  {
    if |mbids| == 0 then []
    else
      var n := |mbids| - 1;
      assert forall x :: x in mbids <==> x in mbids[..n] || x == mbids[n];
      UsableMbids(mbids[..n], invalid, mapping) + if Usable(mbids[n], invalid, mapping) then [mbids[n]] else []
  }

  /** One record per usable MBID, in input order. */
  lemma {:induction false} TransformMbids(raw: map<string, Payload>, mbids: seq<string>, invalid: seq<string>,
                                          mapping: map<string, string>)
    ensures MapSeq(TransformSpec(raw, mbids, invalid, mapping), FeatureMbid) == UsableMbids(mbids, invalid, mapping)
    decreases |mbids|
  {
    if |mbids| > 0 {
      var n := |mbids| - 1;
      TransformMbids(raw, mbids[..n], invalid, mapping);
      var prev := TransformSpec(raw, mbids[..n], invalid, mapping);
      var tail := if Usable(mbids[n], invalid, mapping) then [FeaturesOf(mapping[mbids[n]], mbids[n], HighLevel(raw, mbids[n]))] else [];
      MapSeqAppend(prev, tail, FeatureMbid);
    }
  }

  /** Every record carries its MBID's mapped ISRC and the classifier values
      of that MBID's payload; a record whose payload is missing, or has no
      high-level part, has every feature null. */
  lemma {:induction false} TransformRows(raw: map<string, Payload>, mbids: seq<string>, invalid: seq<string>,
                                         mapping: map<string, string>)
    ensures forall r :: r in TransformSpec(raw, mbids, invalid, mapping) ==>
      Usable(r.mbid, invalid, mapping) && r.isrc == mapping[r.mbid]
      && r == FeaturesOf(r.isrc, r.mbid, HighLevel(raw, r.mbid))
    ensures forall r :: r in TransformSpec(raw, mbids, invalid, mapping) && (r.mbid !in raw || raw[r.mbid].highlevel.None?) ==>
      r.danceability.None? && r.instrumentality.None? && r.instrumentalityProb.None?
      && r.gender.None? && r.genderProb.None? && r.timbre.None? && r.tonality.None?
    decreases |mbids|
  {
    if |mbids| > 0 {
      TransformRows(raw, mbids[..|mbids| - 1], invalid, mapping);
    }
  }

  /** A usable MBID of the list gets a record carrying its mapped ISRC. */
  lemma {:induction false} TransformEmits(raw: map<string, Payload>, mbids: seq<string>, invalid: seq<string>,
                                          mapping: map<string, string>, m: string)
    requires m in mbids && Usable(m, invalid, mapping)
    ensures exists r :: r in TransformSpec(raw, mbids, invalid, mapping) && r.mbid == m && r.isrc == mapping[m]
    decreases |mbids|
  {
    var n := |mbids| - 1;
    var out := TransformSpec(raw, mbids, invalid, mapping);
    if mbids[n] == m {
      assert out[|out| - 1].mbid == m;
    } else {
      assert m in mbids[..n];
      TransformEmits(raw, mbids[..n], invalid, mapping, m);
      var r :| r in TransformSpec(raw, mbids[..n], invalid, mapping) && r.mbid == m && r.isrc == mapping[m];
      assert r in out;
    }
  }

  // ---------------------------------------------------------------------
  // Properties of the load

  /** `load` only appends. When its transaction commits: the feature rows
      whose MBID is not yet persisted (all of them), one stamped row per
      failed ISRC, and a stamped row carrying the mapped ISRC for exactly the
      invalid MBIDs that have a mapping entry. Otherwise nothing changes. The
      Spotify tables are untouched either way. */
  lemma LoadAppends(db: Db, df: seq<FeatureRow>, invalid: seq<string>, failed: seq<string>,
                    mapping: map<string, string>, stamp: Stamp)
    ensures var d := LoadSpec(db, df, invalid, failed, mapping, stamp);
      d.plays == db.plays && d.songs == db.songs && d.artists == db.artists && d.genres == db.genres
    ensures !LoadCommits(db, df, invalid, failed, mapping, stamp) ==>
      LoadSpec(db, df, invalid, failed, mapping, stamp) == db
    ensures var d := LoadSpec(db, df, invalid, failed, mapping, stamp);
      LoadCommits(db, df, invalid, failed, mapping, stamp) ==>
      && |db.features| <= |d.features| && d.features[..|db.features|] == db.features
      && forall r :: r in d.features[|db.features|..] <==> r in df && r.mbid !in PersistedMbids(db.features)
    ensures var d := LoadSpec(db, df, invalid, failed, mapping, stamp);
      LoadCommits(db, df, invalid, failed, mapping, stamp) ==>
      && |d.failedIsrcs| == |db.failedIsrcs| + |failed| && d.failedIsrcs[..|db.failedIsrcs|] == db.failedIsrcs
      && forall i :: 0 <= i < |failed| ==> d.failedIsrcs[|db.failedIsrcs| + i] == FailedIsrc(failed[i], stamp)
    ensures var d := LoadSpec(db, df, invalid, failed, mapping, stamp);
      LoadCommits(db, df, invalid, failed, mapping, stamp) ==>
      && |db.invalidMbids| <= |d.invalidMbids| && d.invalidMbids[..|db.invalidMbids|] == db.invalidMbids
      && forall row :: row in d.invalidMbids[|db.invalidMbids|..] <==>
           row.mbid in invalid && row.mbid in mapping && row.isrc == mapping[row.mbid] && row.lastAttempt == stamp
    ensures |df| == 0 ==> LoadSpec(db, df, invalid, failed, mapping, stamp).features == db.features
    ensures |invalid| == 0 ==> LoadSpec(db, df, invalid, failed, mapping, stamp).invalidMbids == db.invalidMbids
  {
    var d := LoadSpec(db, df, invalid, failed, mapping, stamp);
    if LoadCommits(db, df, invalid, failed, mapping, stamp) {
      assert d.features[|db.features|..] == NewFeatures(db, df);
      assert d.invalidMbids[|db.invalidMbids|..] == InvalidRows(invalid, mapping, stamp);
    }
  }

  /** Loading never makes an ISRC missing again; a load that commits settles
      every failed ISRC, the ISRC of every appended feature row and the
      mapped ISRC of every recorded invalid MBID. */
  lemma LoadSettles(db: Db, df: seq<FeatureRow>, invalid: seq<string>, failed: seq<string>,
                    mapping: map<string, string>, stamp: Stamp)
    ensures MissingIsrcs(LoadSpec(db, df, invalid, failed, mapping, stamp)) <= MissingIsrcs(db)
    ensures LoadCommits(db, df, invalid, failed, mapping, stamp) ==>
      forall x :: x in failed ==> x !in MissingIsrcs(LoadSpec(db, df, invalid, failed, mapping, stamp))
    ensures LoadCommits(db, df, invalid, failed, mapping, stamp) ==>
      forall r :: r in df && r.mbid !in PersistedMbids(db.features) ==>
        r.isrc !in MissingIsrcs(LoadSpec(db, df, invalid, failed, mapping, stamp))
    ensures LoadCommits(db, df, invalid, failed, mapping, stamp) ==>
      forall m :: m in invalid && m in mapping ==>
        mapping[m] !in MissingIsrcs(LoadSpec(db, df, invalid, failed, mapping, stamp))
  {
    var d := LoadSpec(db, df, invalid, failed, mapping, stamp);
    if LoadCommits(db, df, invalid, failed, mapping, stamp) {
      assert SettledIsrcs(db) <= SettledIsrcs(d);
      forall x | x in failed
        ensures x in SettledIsrcs(d)
      {
        var i :| 0 <= i < |failed| && failed[i] == x;
        assert d.failedIsrcs[|db.failedIsrcs| + i] == FailedIsrc(x, stamp);
      }
      forall r | r in df && r.mbid !in PersistedMbids(db.features)
        ensures r.isrc in SettledIsrcs(d)
      {
        assert r in d.features;
      }
      forall m | m in invalid && m in mapping
        ensures mapping[m] in SettledIsrcs(d)
      {
        assert InvalidMbid(m, mapping[m], stamp) in d.invalidMbids;
      }
    }
  }

  /** A load never leaves a second row for a key of the enrichment tables. */
  lemma LoadKeepsEnrichmentKeys(db: Db, df: seq<FeatureRow>, invalid: seq<string>, failed: seq<string>,
                                mapping: map<string, string>, stamp: Stamp)
    requires EnrichmentKeysUnique(db)
    ensures EnrichmentKeysUnique(LoadSpec(db, df, invalid, failed, mapping, stamp))
  {
    if LoadCommits(db, df, invalid, failed, mapping, stamp) {
      var feats := NewFeatures(db, df);
      KeysFreshAppend(db.features, feats, FeatureIsrc);
      KeysFreshAppend(db.features, feats, FeatureMbid);
      KeysFreshAppend(db.failedIsrcs, FailedRows(failed, stamp), FailedKey);
      KeysFreshAppend(db.invalidMbids, InvalidRows(invalid, mapping, stamp), InvalidKey);
    }
  }

  /** Recording ids with distinct recorded ISRCs: no two MBIDs of the mapping
      share an ISRC. */
  ghost predicate Injective(mapping: map<string, string>) {
    forall m1, m2 :: m1 in mapping && m2 in mapping && mapping[m1] == mapping[m2] ==> m1 == m2
  }

  /** The invalid-MBID rows of distinct MBIDs have distinct keys. */
  lemma {:induction false} InvalidRowsKeys(invalid: seq<string>, mapping: map<string, string>, stamp: Stamp)
    requires NoDup(invalid)
    ensures NoDup(MapSeq(InvalidRows(invalid, mapping, stamp), InvalidKey))
    decreases |invalid|
  {
    if |invalid| > 0 {
      var n := |invalid| - 1;
      var m := invalid[n];
      var prev := InvalidRows(invalid[..n], mapping, stamp);
      var tail := if m in mapping then [InvalidMbid(m, mapping[m], stamp)] else [];
      InvalidRowsKeys(invalid[..n], mapping, stamp);
      forall x, y | x in prev && y in tail
        ensures InvalidKey(x) != InvalidKey(y)
      {
        var k :| 0 <= k < n && invalid[..n][k] == x.mbid;
        assert invalid[k] == x.mbid;
      }
      KeysAppend(prev, tail, InvalidKey);
    }
  }

  /** Sufficient conditions for `load` to commit: feature records with
      distinct MBIDs, each carrying its MBID's mapped ISRC; a mapping that
      gives distinct MBIDs distinct ISRCs, none of them settled; distinct
      failed ISRCs, none settled; distinct invalid MBIDs, none recorded. */
  lemma LoadCommitsWhen(db: Db, df: seq<FeatureRow>, invalid: seq<string>, failed: seq<string>,
                        mapping: map<string, string>, stamp: Stamp)
    requires NoDup(MapSeq(df, FeatureMbid))
    requires forall r :: r in df ==> r.mbid in mapping && r.isrc == mapping[r.mbid]
    requires Injective(mapping)
    requires forall m :: m in mapping ==> mapping[m] !in SettledIsrcs(db)
    requires NoDup(failed) && forall x :: x in failed ==> x !in SettledIsrcs(db)
    requires NoDup(invalid) && forall m :: m in invalid ==> m !in InvalidIds(db.invalidMbids)
    ensures LoadCommits(db, df, invalid, failed, mapping, stamp)
  {
    var feats := NewFeatures(db, df);
    ExcludeColumnNoDup(df, FeatureMbid, PersistedMbids(db.features), FeatureMbid);
    assert KeysFresh(db.features, feats, FeatureMbid) by {
      forall i, j | 0 <= i < j < |feats|
        ensures FeatureMbid(feats[i]) != FeatureMbid(feats[j])
      {
        assert MapSeq(feats, FeatureMbid)[i] != MapSeq(feats, FeatureMbid)[j];
      }
    }
    assert KeysFresh(db.features, feats, FeatureIsrc) by {
      forall i, j | 0 <= i < j < |feats|
        ensures FeatureIsrc(feats[i]) != FeatureIsrc(feats[j])
      {
        assert feats[i] in df && feats[j] in df;
      }
      forall x, y | x in db.features && y in feats
        ensures FeatureIsrc(x) != FeatureIsrc(y)
      {
        assert x.isrc in SettledIsrcs(db);
      }
    }
    var fails := FailedRows(failed, stamp);
    assert KeysFresh(db.failedIsrcs, fails, FailedKey) by {
      forall x, y | x in db.failedIsrcs && y in fails
        ensures FailedKey(x) != FailedKey(y)
      {
        var k :| 0 <= k < |fails| && fails[k] == y;
        assert failed[k] in failed && x.isrc in SettledIsrcs(db);
      }
    }
    var invs := InvalidRows(invalid, mapping, stamp);
    InvalidRowsKeys(invalid, mapping, stamp);
    assert KeysFresh(db.invalidMbids, invs, InvalidKey) by {
      forall i, j | 0 <= i < j < |invs|
        ensures InvalidKey(invs[i]) != InvalidKey(invs[j])
      {
        assert MapSeq(invs, InvalidKey)[i] != MapSeq(invs, InvalidKey)[j];
      }
    }
  }

  // ---------------------------------------------------------------------
  // One enrichment pass

  /** The store after one pass (`run`): the lookups of `isrcs` are answered
      by `lookups`, the fetches of the resulting MBID list by `fetches`. */
  function Pass(db: Db, isrcs: seq<string>, lookups: seq<seq<LookupReply>>,
                fetches: seq<seq<FeatureReply>>, stamp: Stamp): Db
    requires |lookups| == |isrcs| && AllSettle(lookups)
    requires FetchesSettle(ResolveSpec(isrcs, lookups).mbids, fetches)
  {
    var res := ResolveSpec(isrcs, lookups);
    var ext := ExtractSpec(res.mbids, fetches);
    var df := TransformSpec(ext.data, res.mbids, ext.invalid, res.mapping);
    LoadSpec(db, df, ext.invalid, res.failed, res.mapping, stamp)
  }

  /** The ISRCs `run` looks up: distinct (a set) and all missing. */
  ghost predicate PassInput(db: Db, isrcs: seq<string>) {
    NoDup(isrcs) && forall k :: 0 <= k < |isrcs| ==> isrcs[k] in MissingIsrcs(db)
  }

  /** No two lookups of the pass find the same recording. */
  ghost predicate NoSharedRecording(isrcs: seq<string>, lookups: seq<seq<LookupReply>>)
    requires |lookups| == |isrcs| && AllSettle(lookups)
  {
    forall j, k :: 0 <= j < k < |isrcs| && FirstMatch(lookups[j]).Some? ==> FirstMatch(lookups[j]) != FirstMatch(lookups[k])
  }

  /** What the lookup of distinct, missing ISRCs gives the load: an
      injective mapping whose ISRCs are unsettled, and distinct unsettled
      failed ISRCs. */
  lemma ResolveForLoad(db: Db, isrcs: seq<string>, lookups: seq<seq<LookupReply>>)
    requires |lookups| == |isrcs| && AllSettle(lookups)
    requires PassInput(db, isrcs)
    ensures Injective(ResolveSpec(isrcs, lookups).mapping)
    ensures forall m :: m in ResolveSpec(isrcs, lookups).mapping ==>
      ResolveSpec(isrcs, lookups).mapping[m] !in SettledIsrcs(db)
    ensures NoDup(ResolveSpec(isrcs, lookups).failed)
    ensures forall x :: x in ResolveSpec(isrcs, lookups).failed ==> x !in SettledIsrcs(db)
  {
    var res := ResolveSpec(isrcs, lookups);
    forall m | m in res.mapping
      ensures exists i :: 0 <= i < |isrcs| && FirstMatch(lookups[i]) == Some(m) && res.mapping[m] == isrcs[i]
    {
      ResolveLastWriteWins(isrcs, lookups, m);
    }
    forall m1, m2 | m1 in res.mapping && m2 in res.mapping && res.mapping[m1] == res.mapping[m2]
      ensures m1 == m2
    {
      var i1 :| 0 <= i1 < |isrcs| && FirstMatch(lookups[i1]) == Some(m1) && res.mapping[m1] == isrcs[i1];
      var i2 :| 0 <= i2 < |isrcs| && FirstMatch(lookups[i2]) == Some(m2) && res.mapping[m2] == isrcs[i2];
      assert i1 == i2;
    }
    ResolveFailed(isrcs, lookups);
    ResolveFailedDistinct(isrcs, lookups);
  }

  /** With distinct ISRCs, no ISRC is failed twice. */
  lemma {:induction false} ResolveFailedDistinct(isrcs: seq<string>, scripts: seq<seq<LookupReply>>)
    requires |scripts| == |isrcs| && AllSettle(scripts)
    requires NoDup(isrcs)
    ensures NoDup(ResolveSpec(isrcs, scripts).failed)
    decreases |isrcs|
  {
    if |isrcs| > 0 {
      var n := |isrcs| - 1;
      var pi, ps := isrcs[..n], scripts[..n];
      assert NoDup(pi) by {
        assert forall i :: 0 <= i < n ==> pi[i] == isrcs[i];
      }
      ResolveFailedDistinct(pi, ps);
      ResolveFailed(pi, ps);
      if FirstMatch(scripts[n]).None? {
        var prev := ResolveSpec(pi, ps).failed;
        forall k | 0 <= k < |prev|
          ensures prev[k] != isrcs[n]
        {
          assert prev[k] in prev;
          var i :| 0 <= i < n && pi[i] == prev[k] && FirstMatch(ps[i]).None?;
          assert isrcs[i] == prev[k];
        }
        NoDupAppend(prev, [isrcs[n]]);
      }
    }
  }

  /** When no two lookups share a recording, the MBID list has no repeats. */
  lemma {:induction false} ResolveMbidsDistinct(isrcs: seq<string>, scripts: seq<seq<LookupReply>>)
    requires |scripts| == |isrcs| && AllSettle(scripts)
    requires NoSharedRecording(isrcs, scripts)
    ensures NoDup(ResolveSpec(isrcs, scripts).mbids)
    decreases |isrcs|
  {
    if |isrcs| > 0 {
      var n := |isrcs| - 1;
      var pi, ps := isrcs[..n], scripts[..n];
      assert NoSharedRecording(pi, ps) by {
        assert forall i :: 0 <= i < n ==> ps[i] == scripts[i];
      }
      ResolveMbidsDistinct(pi, ps);
      ResolveMbids(pi, ps);
      if FirstMatch(scripts[n]).Some? {
        var m := FirstMatch(scripts[n]).value;
        forall i | 0 <= i < n
          ensures FirstMatch(ps[i]) != Some(m)
        {
          assert ps[i] == scripts[i];
        }
        NoDupAppend(ResolveSpec(pi, ps).mbids, [m]);
      }
    }
  }

  /** The transform's records, for an MBID list without repeats, carry
      distinct MBIDs, each with its mapped ISRC. */
  lemma TransformForLoad(raw: map<string, Payload>, mbids: seq<string>, invalid: seq<string>,
                         mapping: map<string, string>)
    requires NoDup(mbids)
    ensures NoDup(MapSeq(TransformSpec(raw, mbids, invalid, mapping), FeatureMbid))
    ensures forall r :: r in TransformSpec(raw, mbids, invalid, mapping) ==>
      r.mbid in mapping && r.isrc == mapping[r.mbid]
  {
    TransformMbids(raw, mbids, invalid, mapping);
    TransformRows(raw, mbids, invalid, mapping);
    UsableMbidsDistinct(mbids, invalid, mapping);
  }

  lemma {:induction false} UsableMbidsDistinct(mbids: seq<string>, invalid: seq<string>, mapping: map<string, string>)
    requires NoDup(mbids)
    ensures NoDup(UsableMbids(mbids, invalid, mapping))
    decreases |mbids|
  {
    if |mbids| > 0 {
      var n := |mbids| - 1;
      var pre := mbids[..n];
      assert NoDup(pre) by {
        assert forall i :: 0 <= i < n ==> pre[i] == mbids[i];
      }
      UsableMbidsDistinct(pre, invalid, mapping);
      var tail := if Usable(mbids[n], invalid, mapping) then [mbids[n]] else [];
      forall i, j | 0 <= i < |UsableMbids(pre, invalid, mapping)| && 0 <= j < |tail|
        ensures UsableMbids(pre, invalid, mapping)[i] != tail[j]
      {
        assert UsableMbids(pre, invalid, mapping)[i] in pre;
      }
      NoDupAppend(UsableMbids(pre, invalid, mapping), tail);
    }
  }

  /** A pass over distinct missing ISRCs, no two of which find the same
      recording, and none of whose invalid MBIDs is already recorded,
      commits its load. */
  lemma PassCommits(db: Db, isrcs: seq<string>, lookups: seq<seq<LookupReply>>,
                    fetches: seq<seq<FeatureReply>>, stamp: Stamp)
    requires |lookups| == |isrcs| && AllSettle(lookups)
    requires FetchesSettle(ResolveSpec(isrcs, lookups).mbids, fetches)
    requires PassInput(db, isrcs) && NoSharedRecording(isrcs, lookups)
    requires forall m :: m in ExtractSpec(ResolveSpec(isrcs, lookups).mbids, fetches).invalid ==>
      m !in InvalidIds(db.invalidMbids)
    ensures var res := ResolveSpec(isrcs, lookups);
      var ext := ExtractSpec(res.mbids, fetches);
      LoadCommits(db, TransformSpec(ext.data, res.mbids, ext.invalid, res.mapping), ext.invalid, res.failed, res.mapping, stamp)
  {
    var res := ResolveSpec(isrcs, lookups);
    var ext := ExtractSpec(res.mbids, fetches);
    ResolveForLoad(db, isrcs, lookups);
    ResolveMbidsDistinct(isrcs, lookups);
    TransformForLoad(ext.data, res.mbids, ext.invalid, res.mapping);
    ExtractOutcome(res.mbids, fetches);
    LoadCommitsWhen(db, TransformSpec(ext.data, res.mbids, ext.invalid, res.mapping), ext.invalid, res.failed, res.mapping, stamp);
  }

  /** A pass whose load commits settles an ISRC whose lookup found no
      recording, and one whose recording (non-empty, not yet persisted) is
      then either invalid or classified. The load commits when no two
      lookups share a recording and no invalid MBID is already recorded. */
  lemma PassProgress(db: Db, isrcs: seq<string>, lookups: seq<seq<LookupReply>>,
                     fetches: seq<seq<FeatureReply>>, stamp: Stamp, i: int)
    requires |lookups| == |isrcs| && AllSettle(lookups)
    requires FetchesSettle(ResolveSpec(isrcs, lookups).mbids, fetches)
    requires PassInput(db, isrcs) && NoSharedRecording(isrcs, lookups)
    requires forall m :: m in ExtractSpec(ResolveSpec(isrcs, lookups).mbids, fetches).invalid ==>
      m !in InvalidIds(db.invalidMbids)
    requires 0 <= i < |isrcs|
    requires FirstMatch(lookups[i]).Some? ==>
      isrcs[i] != "" && FirstMatch(lookups[i]).value != "" && FirstMatch(lookups[i]).value !in PersistedMbids(db.features)
    ensures isrcs[i] !in MissingIsrcs(Pass(db, isrcs, lookups, fetches, stamp))
  {
    var res := ResolveSpec(isrcs, lookups);
    var ext := ExtractSpec(res.mbids, fetches);
    var df := TransformSpec(ext.data, res.mbids, ext.invalid, res.mapping);
    PassCommits(db, isrcs, lookups, fetches, stamp);
    LoadSettles(db, df, ext.invalid, res.failed, res.mapping, stamp);
    match FirstMatch(lookups[i])
    case None =>
      ResolveFailed(isrcs, lookups);
      assert isrcs[i] in res.failed;
    case Some(m) =>
      ResolveOwner(isrcs, lookups, i, m);
      ResolveMbids(isrcs, lookups);
      if m !in ext.invalid {
        TransformEmits(ext.data, res.mbids, ext.invalid, res.mapping, m);
      }
  }

  /** The two result tables exclude each other: no ISRC has both a feature
      row and a `failed_isrcs` row. */
  ghost predicate CachesExclusive(db: Db) {
    forall a, f :: a in db.features && f in db.failedIsrcs ==> a.isrc != f.isrc
  }

  /** A pass over distinct missing ISRCs keeps the feature table and the
      failed-ISRC cache exclusive: it never both classifies and fails an
      ISRC, nor fails one already classified or classifies one already
      failed. */
  lemma PassExclusive(db: Db, isrcs: seq<string>, lookups: seq<seq<LookupReply>>,
                      fetches: seq<seq<FeatureReply>>, stamp: Stamp)
    requires |lookups| == |isrcs| && AllSettle(lookups)
    requires FetchesSettle(ResolveSpec(isrcs, lookups).mbids, fetches)
    requires PassInput(db, isrcs) && CachesExclusive(db)
    ensures CachesExclusive(Pass(db, isrcs, lookups, fetches, stamp))
  {
    var res := ResolveSpec(isrcs, lookups);
    var ext := ExtractSpec(res.mbids, fetches);
    var df := TransformSpec(ext.data, res.mbids, ext.invalid, res.mapping);
    var d := LoadSpec(db, df, ext.invalid, res.failed, res.mapping, stamp);
    if LoadCommits(db, df, ext.invalid, res.failed, res.mapping, stamp) {
      LoadAppends(db, df, ext.invalid, res.failed, res.mapping, stamp);
      TransformRows(ext.data, res.mbids, ext.invalid, res.mapping);
      ResolveFailed(isrcs, lookups);
      ResolveFailedUnmapped(isrcs, lookups);
      // every ISRC the pass writes is one of its missing ISRCs
      forall x | x in res.failed
        ensures x !in SettledIsrcs(db)
      {
        var k :| 0 <= k < |isrcs| && isrcs[k] == x && FirstMatch(lookups[k]).None?;
      }
      forall m | m in res.mapping
        ensures res.mapping[m] !in SettledIsrcs(db)
      {
        ResolveLastWriteWins(isrcs, lookups, m);
      }
      forall a, f | a in d.features && f in d.failedIsrcs
        ensures a.isrc != f.isrc
      {
        var newA := a !in db.features;
        var newF := f !in db.failedIsrcs;
        if newA {
          assert a in d.features[|db.features|..];
          assert a in df && a.isrc == res.mapping[a.mbid];
        }
        if newF {
          var k :| 0 <= k < |d.failedIsrcs| && d.failedIsrcs[k] == f;
          var j := k - |db.failedIsrcs|;
          assert d.failedIsrcs[|db.failedIsrcs| + j] == FailedIsrc(res.failed[j], stamp);
          assert f.isrc in res.failed;
        }
        if !newA && newF {
          assert a.isrc in SettledIsrcs(db);
        } else if newA && !newF {
          assert f.isrc in SettledIsrcs(db);
        }
      }
    }
  }

  /** An ISRC whose recording is also found by a later ISRC of the same pass
      stays missing: the pass records nothing for it, so the next pass looks
      it up again. */
  lemma PassShadowed(db: Db, isrcs: seq<string>, lookups: seq<seq<LookupReply>>,
                     fetches: seq<seq<FeatureReply>>, stamp: Stamp, i: int, j: int, m: string)
    requires |lookups| == |isrcs| && AllSettle(lookups)
    requires FetchesSettle(ResolveSpec(isrcs, lookups).mbids, fetches)
    requires NoDup(isrcs) && 0 <= i < j < |isrcs|
    requires FirstMatch(lookups[i]) == Some(m) && FirstMatch(lookups[j]) == Some(m)
    requires isrcs[i] in MissingIsrcs(db)
    ensures isrcs[i] in MissingIsrcs(Pass(db, isrcs, lookups, fetches, stamp))
  {
    var res := ResolveSpec(isrcs, lookups);
    var ext := ExtractSpec(res.mbids, fetches);
    var df := TransformSpec(ext.data, res.mbids, ext.invalid, res.mapping);
    var d := LoadSpec(db, df, ext.invalid, res.failed, res.mapping, stamp);
    var x := isrcs[i];
    ResolveShadowed(isrcs, lookups, i, j, m);
    TransformRows(ext.data, res.mbids, ext.invalid, res.mapping);
    LoadAppends(db, df, ext.invalid, res.failed, res.mapping, stamp);
    if LoadCommits(db, df, ext.invalid, res.failed, res.mapping, stamp) {
      assert x !in SettledIsrcs(d) by {
        forall a | a in d.features
          ensures a.isrc != x
        {
          if a !in db.features {
            assert a in d.features[|db.features|..];
          }
        }
        forall f | f in d.failedIsrcs
          ensures f.isrc != x
        {
          if f !in db.failedIsrcs {
            var k :| 0 <= k < |d.failedIsrcs| && d.failedIsrcs[k] == f;
            assert d.failedIsrcs[|db.failedIsrcs| + (k - |db.failedIsrcs|)] == FailedIsrc(res.failed[k - |db.failedIsrcs|], stamp);
          }
        }
        forall v | v in d.invalidMbids
          ensures v.isrc != x
        {
          if v !in db.invalidMbids {
            assert v in d.invalidMbids[|db.invalidMbids|..];
          }
        }
      }
    }
  }

  // ---------------------------------------------------------------------
  // Rolled-back passes, and the pass that avoids them

  /** Two songs whose ISRCs `"A"` and `"B"` both resolve to recording `"M"`,
      and a third whose ISRC `"C"` is unknown to the lookup. */
  function SharedRecordingDb(): Db {
    Db([], [Song("t1", "", "", "", "", 0, "", "", Some("A")),
            Song("t2", "", "", "", "", 0, "", "", Some("B")),
            Song("t3", "", "", "", "", 0, "", "", Some("C"))],
       [], [], [], [], [])
  }

  function SharedLookups(): seq<seq<LookupReply>> {
    [[Response(OK, ["M"])], [Response(OK, ["M"])], [Response(NOT_FOUND, [])]]
  }

  function PayloadFetches(n: nat): seq<seq<FeatureReply>> {
    seq(n, i => [Response(OK, Payload(None))])
  }

  /** As written, the two records of `"M"` that `transform` emits carry the
      same ISRC and MBID; their insert violates the key of
      `acousticbrainz_data`, the whole load rolls back, and all three ISRCs,
      even the failed `"C"`, stay missing. Nothing in the store changes, so
      every later run repeats this. */
  lemma SharedRecordingRollsBack()
    ensures AllSettle(SharedLookups())
    ensures ResolveSpec(["A", "B", "C"], SharedLookups()).mbids == ["M", "M"]
    ensures FetchesSettle(["M", "M"], PayloadFetches(2))
    ensures Pass(SharedRecordingDb(), ["A", "B", "C"], SharedLookups(), PayloadFetches(2), 0) == SharedRecordingDb()
    ensures "A" in MissingIsrcs(SharedRecordingDb()) && "B" in MissingIsrcs(SharedRecordingDb())
    ensures "C" in MissingIsrcs(SharedRecordingDb())
  {
    var db := SharedRecordingDb();
    SharedResolve();
    SharedExtract();
    SharedLoad();
    var res := Resolution(["M", "M"], ["C"], map["M" := "B"]);
    var df := TransformSpec(map["M" := Payload(None)], res.mbids, [], res.mapping);
    assert Pass(db, ["A", "B", "C"], SharedLookups(), PayloadFetches(2), 0) == LoadSpec(db, df, [], res.failed, res.mapping, 0);
    SharedMissing();
  }

  lemma SharedMissing()
    ensures "A" in MissingIsrcs(SharedRecordingDb()) && "B" in MissingIsrcs(SharedRecordingDb())
    ensures "C" in MissingIsrcs(SharedRecordingDb())
  {
    var db := SharedRecordingDb();
    assert db.songs[0] in db.songs && db.songs[1] in db.songs && db.songs[2] in db.songs;
  }

  lemma SharedLoad()
    ensures !LoadCommits(SharedRecordingDb(), TransformSpec(map["M" := Payload(None)], ["M", "M"], [], map["M" := "B"]),
                         [], ["C"], map["M" := "B"], 0)
  {
    var db := SharedRecordingDb();
    var data := map["M" := Payload(None)];
    var mapping := map["M" := "B"];
    var df := TransformSpec(data, ["M", "M"], [], mapping);
    var row := FeaturesOf("B", "M", HighLevel(data, "M"));
    assert ["M", "M"][..1] == ["M"] && ["M"][..0] == [];
    assert TransformSpec(data, ["M"], [], mapping) == [row];
    assert df == [row, row];
    assert NewFeatures(db, df) == [row, row];
    assert FeatureIsrc(NewFeatures(db, df)[0]) == FeatureIsrc(NewFeatures(db, df)[1]);
  }

  lemma SharedResolve()
    ensures AllSettle(SharedLookups())
    ensures ResolveSpec(["A", "B", "C"], SharedLookups()) == Resolution(["M", "M"], ["C"], map["M" := "B"])
  {
    var isrcs := ["A", "B", "C"];
    var lookups := SharedLookups();
    forall i | 0 <= i < 3
      ensures Settles(lookups[i]) && SettleIndex(lookups[i]) == 0
    {
      assert lookups[i][0].status != TOO_MANY_REQUESTS;
    }
    assert FirstMatch(lookups[0]) == Some("M") && FirstMatch(lookups[1]) == Some("M");
    assert FirstMatch(lookups[2]) == None;
    assert isrcs[..2] == ["A", "B"] && isrcs[..2][..1] == ["A"] && isrcs[..2][..1][..0] == [];
    assert lookups[..2] == [lookups[0], lookups[1]] && lookups[..2][..1] == [lookups[0]];
    assert lookups[..2][..1][..0] == [];
    assert ResolveSpec(["A"], [lookups[0]]) == Resolution(["M"], [], map["M" := "A"]);
    assert ResolveSpec(["A", "B"], [lookups[0], lookups[1]]) == Resolution(["M", "M"], [], map["M" := "B"]);
  }

  lemma SharedExtract()
    ensures FetchesSettle(["M", "M"], PayloadFetches(2))
    ensures ExtractSpec(["M", "M"], PayloadFetches(2)) == Extraction(map["M" := Payload(None)], [])
  {
    var mbids := ["M", "M"];
    var fetches := PayloadFetches(2);
    forall i | 0 <= i < 2
      ensures Settles(fetches[i]) && SettleIndex(fetches[i]) == 0
    {
      assert fetches[i][0].status != TOO_MANY_REQUESTS;
    }
    assert mbids[..1] == ["M"] && fetches[..1] == [fetches[0]] && mbids[..1][..0] == [];
    assert ExtractScan(["M"], [fetches[0]]) == Extraction(map["M" := Payload(None)], []);
    assert ExtractScan(mbids, fetches) == Extraction(map["M" := Payload(None)], []);
  }

  /** A store in which recording `"M"` was already found invalid for ISRC
      `"B"`, and a song with ISRC `"A"` still missing. */
  function RecordedInvalidDb(): Db {
    Db([], [Song("t1", "", "", "", "", 0, "", "", Some("A"))], [], [], [], [], [InvalidMbid("M", "B", 0)])
  }

  function NotFoundFetch(): seq<seq<FeatureReply>> {
    [[Response(NOT_FOUND, Payload(None))]]
  }

  /** As written, when `"A"` resolves to the already recorded `"M"` and the
      fetch answers 404 again, the new `invalid_mbids` row repeats the key
      `"M"`; the load rolls back and `"A"` stays missing, on this and every
      later run. */
  lemma RecordedInvalidRollsBack()
    ensures AllSettle(RecordedLookup())
    ensures ResolveSpec(["A"], RecordedLookup()).mbids == ["M"]
    ensures FetchesSettle(["M"], NotFoundFetch())
    ensures Pass(RecordedInvalidDb(), ["A"], RecordedLookup(), NotFoundFetch(), 1) == RecordedInvalidDb()
    ensures "A" in MissingIsrcs(RecordedInvalidDb())
  {
    var db := RecordedInvalidDb();
    RecordedResolve();
    RecordedExtract();
    RecordedLoad();
    var res := Resolution(["M"], [], map["M" := "A"]);
    var df := TransformSpec(map[], res.mbids, ["M"], res.mapping);
    assert Pass(db, ["A"], RecordedLookup(), NotFoundFetch(), 1) == LoadSpec(db, df, ["M"], res.failed, res.mapping, 1);
    RecordedMissing();
  }

  lemma RecordedMissing()
    ensures "A" in MissingIsrcs(RecordedInvalidDb())
  {
    assert RecordedInvalidDb().songs[0].isrc == Some("A");
  }

  function RecordedLookup(): seq<seq<LookupReply>> {
    [[Response(OK, ["M"])]]
  }

  lemma RecordedResolve()
    ensures AllSettle(RecordedLookup())
    ensures ResolveSpec(["A"], RecordedLookup()) == Resolution(["M"], [], map["M" := "A"])
  {
    var lookups := RecordedLookup();
    assert Settles(lookups[0]) by {
      assert lookups[0][0].status != TOO_MANY_REQUESTS;
    }
    assert SettleIndex(lookups[0]) == 0;
    assert ["A"][..0] == [] && lookups[..0] == [];
  }

  lemma RecordedExtract()
    ensures FetchesSettle(["M"], NotFoundFetch())
    ensures ExtractSpec(["M"], NotFoundFetch()) == Extraction(map[], ["M"])
  {
    var fetches := NotFoundFetch();
    assert Settles(fetches[0]) by {
      assert fetches[0][0].status != TOO_MANY_REQUESTS;
    }
    assert SettleIndex(fetches[0]) == 0;
    assert Settled(fetches[0]).status == NOT_FOUND;
    assert ["M"][..0] == [] && fetches[..0] == [];
    assert ExtractScan(["M"], fetches) == Extraction(map[], ["M"]);
    assert Distinct(["M"]) == ["M"];
  }

  lemma RecordedLoad()
    ensures !LoadCommits(RecordedInvalidDb(), TransformSpec(map[], ["M"], ["M"], map["M" := "A"]),
                         ["M"], [], map["M" := "A"], 1)
  {
    var db := RecordedInvalidDb();
    assert ["M"][..0] == [];
    assert TransformSpec(map[], ["M"], ["M"], map["M" := "A"]) == [];
    var invs := InvalidRows(["M"], map["M" := "A"], 1);
    assert invs == [InvalidMbid("M", "A", 1)];
    assert InvalidKey(db.invalidMbids[0]) == InvalidKey(invs[0]);
  }

  function Itself(m: string): string { m }

  /** The pass as evidently intended: `transform` emits one record per
      recording (the MBID list deduplicated), and `load` skips invalid MBIDs
      already recorded, as it skips feature rows already persisted. */
  function CorrectedPass(db: Db, isrcs: seq<string>, lookups: seq<seq<LookupReply>>,
                         fetches: seq<seq<FeatureReply>>, stamp: Stamp): Db
    requires |lookups| == |isrcs| && AllSettle(lookups)
    requires FetchesSettle(ResolveSpec(isrcs, lookups).mbids, fetches)
  {
    var res := ResolveSpec(isrcs, lookups);
    var ext := ExtractSpec(res.mbids, fetches);
    var df := TransformSpec(ext.data, Distinct(res.mbids), ext.invalid, res.mapping);
    LoadSpec(db, df, Exclude(ext.invalid, Itself, InvalidIds(db.invalidMbids)), res.failed, res.mapping, stamp)
  }

  /** The corrected pass over distinct missing ISRCs always commits. */
  lemma CorrectedPassCommits(db: Db, isrcs: seq<string>, lookups: seq<seq<LookupReply>>,
                             fetches: seq<seq<FeatureReply>>, stamp: Stamp)
    requires |lookups| == |isrcs| && AllSettle(lookups)
    requires FetchesSettle(ResolveSpec(isrcs, lookups).mbids, fetches)
    requires PassInput(db, isrcs)
    ensures var res := ResolveSpec(isrcs, lookups);
      var ext := ExtractSpec(res.mbids, fetches);
      LoadCommits(db, TransformSpec(ext.data, Distinct(res.mbids), ext.invalid, res.mapping),
                  Exclude(ext.invalid, Itself, InvalidIds(db.invalidMbids)), res.failed, res.mapping, stamp)
  {
    var res := ResolveSpec(isrcs, lookups);
    var ext := ExtractSpec(res.mbids, fetches);
    var invalid := Exclude(ext.invalid, Itself, InvalidIds(db.invalidMbids));
    ResolveForLoad(db, isrcs, lookups);
    TransformForLoad(ext.data, Distinct(res.mbids), ext.invalid, res.mapping);
    ExtractOutcome(res.mbids, fetches);
    ExcludeNoDup(ext.invalid, Itself, InvalidIds(db.invalidMbids));
    LoadCommitsWhen(db, TransformSpec(ext.data, Distinct(res.mbids), ext.invalid, res.mapping), invalid, res.failed, res.mapping, stamp);
  }

  /** The corrected pass settles an ISRC whose lookup found no recording, and
      one whose recording (non-empty, found by no later ISRC, neither
      persisted nor recorded invalid) is then either invalid or classified,
      whatever recordings the other lookups share. */
  lemma CorrectedPassProgress(db: Db, isrcs: seq<string>, lookups: seq<seq<LookupReply>>,
                              fetches: seq<seq<FeatureReply>>, stamp: Stamp, i: int)
    requires |lookups| == |isrcs| && AllSettle(lookups)
    requires FetchesSettle(ResolveSpec(isrcs, lookups).mbids, fetches)
    requires PassInput(db, isrcs) && 0 <= i < |isrcs|
    requires FirstMatch(lookups[i]).Some? ==>
      var m := FirstMatch(lookups[i]).value;
      && isrcs[i] != "" && m != "" && m !in PersistedMbids(db.features) && m !in InvalidIds(db.invalidMbids)
      && forall j :: i < j < |isrcs| ==> FirstMatch(lookups[j]) != Some(m)
    ensures isrcs[i] !in MissingIsrcs(CorrectedPass(db, isrcs, lookups, fetches, stamp))
  {
    var res := ResolveSpec(isrcs, lookups);
    var ext := ExtractSpec(res.mbids, fetches);
    var list := Distinct(res.mbids);
    var df := TransformSpec(ext.data, list, ext.invalid, res.mapping);
    var invalid := Exclude(ext.invalid, Itself, InvalidIds(db.invalidMbids));
    CorrectedPassCommits(db, isrcs, lookups, fetches, stamp);
    LoadSettles(db, df, invalid, res.failed, res.mapping, stamp);
    match FirstMatch(lookups[i])
    case None =>
      ResolveFailed(isrcs, lookups);
      assert isrcs[i] in res.failed;
    case Some(m) =>
      ResolveOwner(isrcs, lookups, i, m);
      ResolveMbids(isrcs, lookups);
      if m in ext.invalid {
        assert m in invalid;
      } else {
        TransformEmits(ext.data, list, ext.invalid, res.mapping, m);
      }
  }
}
