/** The recommender entry point: validate alpha and the inputs, score every
    catalog track against the listening history, rank by the blended score and
    return the first ten. */
module Recommender {
  import opened Catalog
  import opened DistanceEngine
  import opened RankingSelector

  /** Every vector has the same length, as the columns of one table do. */
  predicate Rectangular(vs: seq<Vector>)
  {
    forall i, j | 0 <= i < |vs| && 0 <= j < |vs| :: |vs[i]| == |vs[j]|
  }

  /** The number of columns of a table given as rows; zero for an empty table. */
  function Width(vs: seq<Vector>): nat
  {
    if vs == [] then 0 else |vs[0]|
  }

  function Tracks(history: seq<HistoryTrack>): (ts: seq<Track>)
    ensures |ts| == |history|
    ensures forall j | 0 <= j < |history| :: ts[j] == history[j].track
  {
    seq(|history|, j requires 0 <= j < |history| => history[j].track)
  }

  function TagVectors(tracks: seq<Track>): (vs: seq<Vector>)
    ensures |vs| == |tracks|
    ensures forall i | 0 <= i < |tracks| :: vs[i] == tracks[i].tagVector
  {
    seq(|tracks|, i requires 0 <= i < |tracks| => tracks[i].tagVector)
  }

  function AudioVectors(tracks: seq<Track>): (vs: seq<Vector>)
    ensures |vs| == |tracks|
    ensures forall i | 0 <= i < |tracks| :: vs[i] == tracks[i].audio.AsVector()
  {
    seq(|tracks|, i requires 0 <= i < |tracks| => tracks[i].audio.AsVector())
  }

  /** The scored table before ranking: one row per catalog track, in catalog
      order, carrying the identity unchanged, the mean tag distance to the
      history as relevance, the mean halved audio distance as novelty, and their
      blend as the novelty-relevance score. */
  function ScoreCatalog(catalog: seq<Track>, history: seq<HistoryTrack>, alpha: real, cosine: Metric)
    : (rows: seq<Recommendation>)
    requires |history| > 0
    ensures |rows| == |catalog|
    ensures forall i | 0 <= i < |catalog| :: rows[i].identity == catalog[i].identity
    ensures forall i | 0 <= i < |catalog| ::
      rows[i].relevance == Mean(DistancesTo(catalog[i].tagVector, TagVectors(Tracks(history)), cosine))
    ensures forall i | 0 <= i < |catalog| ::
      rows[i].novelty == Mean(DistancesTo(catalog[i].audio.AsVector(), AudioVectors(Tracks(history)), cosine)) / 2.0
    ensures forall i | 0 <= i < |catalog| ::
      rows[i].nrScore == BlendScore(alpha, rows[i].novelty, rows[i].relevance)
  {
    var historyTags, historyAudio := TagVectors(Tracks(history)), AudioVectors(Tracks(history));
    var relevance := Relevance(TagVectors(catalog), historyTags, cosine);
    var novelty := Novelty(AudioVectors(catalog), historyAudio, cosine);
    var rows := seq(|catalog|, i requires 0 <= i < |catalog| =>
      Recommendation(catalog[i].identity, relevance[i], novelty[i],
                     BlendScore(alpha, novelty[i], relevance[i])));
    assert forall i | 0 <= i < |catalog| ::
      rows[i].relevance == Mean(DistancesTo(catalog[i].tagVector, historyTags, cosine)) by {
      forall i | 0 <= i < |catalog|
        ensures rows[i].relevance == Mean(DistancesTo(catalog[i].tagVector, historyTags, cosine))
      {
        assert TagVectors(catalog)[i] == catalog[i].tagVector;
      }
    }
    assert forall i | 0 <= i < |catalog| ::
      rows[i].novelty == Mean(DistancesTo(catalog[i].audio.AsVector(), historyAudio, cosine)) / 2.0 by {
      forall i | 0 <= i < |catalog|
        ensures rows[i].novelty == Mean(DistancesTo(catalog[i].audio.AsVector(), historyAudio, cosine)) / 2.0
      {
        assert AudioVectors(catalog)[i] == catalog[i].audio.AsVector();
      }
    }
    rows
  }

  /** The inputs on which Recommend returns rows. */
  predicate Accepted(catalog: seq<Track>, history: seq<HistoryTrack>, alpha: real)
  {
    && 0.0 <= alpha <= 1.0
    && |catalog| > 0 && |history| > 0
    && Width(TagVectors(catalog)) > 0
    && Width(TagVectors(catalog)) == Width(TagVectors(Tracks(history)))
  }

  /** The ten best-scored catalog tracks, highest score first, or why there are
      none. Alpha is checked before anything is scored; the input checks follow
      the order in which the distance library inspects its two tables. Rows
      with equal scores keep their catalog order. The tag blocks are required
      to be rectangular, as the columns of a table are, so that `Width` is the
      width of the whole block; no proof depends on it. */
  function Recommend(catalog: seq<Track>, history: seq<HistoryTrack>, alpha: real, cosine: Metric)
    : (r: Result<seq<Recommendation>>)
    requires Rectangular(TagVectors(catalog)) && Rectangular(TagVectors(Tracks(history)))
    ensures !(0.0 <= alpha <= 1.0) ==> r == Err(InvalidAlpha)
    ensures 0.0 <= alpha <= 1.0 && |catalog| == 0 ==> r == Err(EmptyCatalog)
    ensures 0.0 <= alpha <= 1.0 && |catalog| > 0 && Width(TagVectors(catalog)) == 0 ==> r == Err(NoTagFeatures)
    ensures 0.0 <= alpha <= 1.0 && Width(TagVectors(catalog)) > 0 && |history| == 0 ==> r == Err(EmptyHistory)
    ensures (0.0 <= alpha <= 1.0 && Width(TagVectors(catalog)) > 0 && |history| > 0
             && Width(TagVectors(Tracks(history))) == 0) ==> r == Err(NoTagFeatures)
    ensures (0.0 <= alpha <= 1.0 && Width(TagVectors(catalog)) > 0 && Width(TagVectors(Tracks(history))) > 0
             && Width(TagVectors(catalog)) != Width(TagVectors(Tracks(history)))) ==> r == Err(DimensionMismatch)
    ensures r.Ok? <==> Accepted(catalog, history, alpha)
    ensures r.Ok? ==> |r.value| == Min(TopCount, |catalog|)
    ensures r.Ok? ==> RankedByScore(r.value)
    ensures r.Ok? ==> multiset(r.value) <= multiset(ScoreCatalog(catalog, history, alpha, cosine))
    ensures r.Ok? ==>
      forall x | x in multiset(ScoreCatalog(catalog, history, alpha, cosine)) - multiset(r.value) ::
        x.nrScore <= r.value[|r.value| - 1].nrScore
  {
    if !(0.0 <= alpha <= 1.0) then Err(InvalidAlpha)
    else if |catalog| == 0 then Err(EmptyCatalog)
    else if Width(TagVectors(catalog)) == 0 then Err(NoTagFeatures)
    else if |history| == 0 then Err(EmptyHistory)
    else if Width(TagVectors(Tracks(history))) == 0 then Err(NoTagFeatures)
    else if Width(TagVectors(catalog)) != Width(TagVectors(Tracks(history))) then Err(DimensionMismatch)
    else
      Ok(TakeTop(SortByScore(ScoreCatalog(catalog, history, alpha, cosine)), TopCount))
  }

  /** Three rows whose scores rank the second, then the third, then the first. */
  lemma SortThree(r0: Recommendation, r1: Recommendation, r2: Recommendation)
    requires r1.nrScore >= r2.nrScore > r0.nrScore
    ensures SortByScore([r0, r1, r2]) == [r1, r2, r0]
  {
    assert [r0, r1, r2][1..] == [r1, r2];
    assert [r1, r2][1..] == [r2];
    assert [r2][1..] == [];
    assert SortByScore([r2]) == [r2];
    assert SortByScore([r1, r2]) == [r1, r2];
    assert InsertByScore(r0, [r2]) == [r2, r0];
  }

  /** On accepted input the result is the top of the ranked scored table. */
  lemma RecommendAccepts(catalog: seq<Track>, history: seq<HistoryTrack>, alpha: real, cosine: Metric)
    requires Rectangular(TagVectors(catalog)) && Rectangular(TagVectors(Tracks(history)))
    requires Accepted(catalog, history, alpha)
    ensures Recommend(catalog, history, alpha, cosine)
            == Ok(TakeTop(SortByScore(ScoreCatalog(catalog, history, alpha, cosine)), TopCount))
  {
  }

  /** Every returned row is a row of the scored table. */
  lemma ReturnedRowsAreScored(catalog: seq<Track>, history: seq<HistoryTrack>, alpha: real, cosine: Metric,
                              x: Recommendation)
    requires Rectangular(TagVectors(catalog)) && Rectangular(TagVectors(Tracks(history)))
    requires Accepted(catalog, history, alpha)
    requires x in Recommend(catalog, history, alpha, cosine).value
    ensures exists i | 0 <= i < |catalog| :: ScoreCatalog(catalog, history, alpha, cosine)[i] == x
  {
    var top := Recommend(catalog, history, alpha, cosine).value;
    assert x in multiset(top);
    assert x in multiset(ScoreCatalog(catalog, history, alpha, cosine));
  }

  /** In every returned row the score blends its two parts: it is the relevance
      distance when alpha is 0, the novelty when alpha is 1, and lies between
      the two otherwise. */
  lemma ReturnedScoresBlend(catalog: seq<Track>, history: seq<HistoryTrack>, alpha: real, cosine: Metric)
    requires Rectangular(TagVectors(catalog)) && Rectangular(TagVectors(Tracks(history)))
    requires Accepted(catalog, history, alpha)
    ensures forall x | x in Recommend(catalog, history, alpha, cosine).value ::
      && (alpha == 0.0 ==> x.nrScore == x.relevance)
      && (alpha == 1.0 ==> x.nrScore == x.novelty)
      && Least(x.novelty, x.relevance) <= x.nrScore <= Greatest(x.novelty, x.relevance)
  {
    var top := Recommend(catalog, history, alpha, cosine).value;
    var rows := ScoreCatalog(catalog, history, alpha, cosine);
    forall x | x in top
      ensures alpha == 0.0 ==> x.nrScore == x.relevance
      ensures alpha == 1.0 ==> x.nrScore == x.novelty
      ensures Least(x.novelty, x.relevance) <= x.nrScore <= Greatest(x.novelty, x.relevance)
    {
      ReturnedRowsAreScored(catalog, history, alpha, cosine, x);
      var i :| 0 <= i < |catalog| && rows[i] == x;
      assert x.nrScore == BlendScore(alpha, x.novelty, x.relevance);
    }
  }

  /** Rows with equal scores come back in catalog order: for every score, the
      returned rows that have it are the first of the catalog's rows that have it. */
  lemma ReturnedTiesKeepCatalogOrder(catalog: seq<Track>, history: seq<HistoryTrack>, alpha: real,
                                     cosine: Metric, v: real)
    requires Rectangular(TagVectors(catalog)) && Rectangular(TagVectors(Tracks(history)))
    requires Accepted(catalog, history, alpha)
    ensures WithScore(Recommend(catalog, history, alpha, cosine).value, v)
            <= WithScore(ScoreCatalog(catalog, history, alpha, cosine), v)
  {
    var rows := ScoreCatalog(catalog, history, alpha, cosine);
    var sorted := SortByScore(rows);
    SortKeepsTieOrder(rows, v);
    WithScoreOfPrefix(sorted, Min(TopCount, |sorted|), v);
  }

  /** When the distance library keeps cosine distances in [0, 2], every scored
      row has relevance in [0, 2] and novelty in [0, 1]. */
  lemma ScoredRowsWithinRange(catalog: seq<Track>, history: seq<HistoryTrack>, alpha: real, cosine: Metric)
    requires |history| > 0
    requires WithinCosineRange(cosine)
    ensures forall i | 0 <= i < |catalog| ::
      && 0.0 <= ScoreCatalog(catalog, history, alpha, cosine)[i].relevance <= 2.0
      && 0.0 <= ScoreCatalog(catalog, history, alpha, cosine)[i].novelty <= 1.0
  {
    var historyTracks := Tracks(history);
    ScoresWithinRange(TagVectors(catalog), TagVectors(historyTracks),
                      AudioVectors(catalog), AudioVectors(historyTracks), cosine);
  }

  /** When the distance library keeps cosine distances in [0, 2], every returned
      row has relevance in [0, 2], novelty in [0, 1] and a score in [0, 2]. */
  lemma ReturnedScoresWithinRange(catalog: seq<Track>, history: seq<HistoryTrack>, alpha: real, cosine: Metric)
    requires Rectangular(TagVectors(catalog)) && Rectangular(TagVectors(Tracks(history)))
    requires WithinCosineRange(cosine)
    requires Accepted(catalog, history, alpha)
    ensures forall x | x in Recommend(catalog, history, alpha, cosine).value ::
      0.0 <= x.relevance <= 2.0 && 0.0 <= x.novelty <= 1.0 && 0.0 <= x.nrScore <= 2.0
  {
    var top := Recommend(catalog, history, alpha, cosine).value;
    var rows := ScoreCatalog(catalog, history, alpha, cosine);
    ScoredRowsWithinRange(catalog, history, alpha, cosine);
    ReturnedScoresBlend(catalog, history, alpha, cosine);
    forall x | x in top
      ensures 0.0 <= x.relevance <= 2.0 && 0.0 <= x.novelty <= 1.0
    {
      ReturnedRowsAreScored(catalog, history, alpha, cosine, x);
    }
  }

  // Three catalog tracks against a one-track history, all with silent audio.
  const Silent: AudioFeatures := AudioFeatures(0.0, 0.0, 0.0, 0.0, 0.0, 0.0, 0.0)
  const FirstId: Identity := Identity("1", "first", "artist", "", 2000, "rock")
  const SecondId: Identity := Identity("2", "second", "artist", "", 2000, "jazz")
  const ThirdId: Identity := Identity("3", "third", "artist", "", 2000, "rock jazz")
  const SampleCatalog: seq<Track> :=
    [Track(FirstId, [1.0, 0.0], Silent), Track(SecondId, [0.0, 1.0], Silent), Track(ThirdId, [1.0, 1.0], Silent)]
  const SampleHistory: seq<HistoryTrack> := [HistoryTrack(Track(FirstId, [1.0, 0.0], Silent), 5)]

  lemma SampleIsValid()
    ensures Rectangular(TagVectors(SampleCatalog)) && Rectangular(TagVectors(Tracks(SampleHistory)))
    ensures Width(TagVectors(SampleCatalog)) == 2 && Width(TagVectors(Tracks(SampleHistory))) == 2
  {
    assert TagVectors(SampleCatalog) == [[1.0, 0.0], [0.0, 1.0], [1.0, 1.0]];
    assert TagVectors(Tracks(SampleHistory)) == [[1.0, 0.0]];
  }

  /** Tag distances 0, 1 and c from the history give relevance 0, 1 and c, and
      with alpha = 0 the same scores. */
  lemma SampleScores(cosine: Metric, c: real)
    requires cosine([1.0, 0.0], [1.0, 0.0]) == 0.0
    requires cosine([0.0, 1.0], [1.0, 0.0]) == 1.0
    requires cosine([1.0, 1.0], [1.0, 0.0]) == c
    ensures var rows := ScoreCatalog(SampleCatalog, SampleHistory, 0.0, cosine);
      && |rows| == 3
      && rows[0].identity == FirstId && rows[0].relevance == 0.0 && rows[0].nrScore == 0.0
      && rows[1].identity == SecondId && rows[1].relevance == 1.0 && rows[1].nrScore == 1.0
      && rows[2].identity == ThirdId && rows[2].relevance == c && rows[2].nrScore == c
  {
    var historyTags := TagVectors(Tracks(SampleHistory));
    assert historyTags == [[1.0, 0.0]];
    assert DistancesTo([1.0, 0.0], historyTags, cosine) == [0.0];
    assert DistancesTo([0.0, 1.0], historyTags, cosine) == [1.0];
    assert DistancesTo([1.0, 1.0], historyTags, cosine) == [c];
    MeanOfOne(0.0);
    MeanOfOne(1.0);
    MeanOfOne(c);
  }

  /** With tag distance c strictly between 0 and 1, the ranking at alpha = 0 is
      the second track, the third, then the first. */
  lemma SampleRanking(cosine: Metric, c: real)
    requires cosine([1.0, 0.0], [1.0, 0.0]) == 0.0
    requires cosine([0.0, 1.0], [1.0, 0.0]) == 1.0
    requires cosine([1.0, 1.0], [1.0, 0.0]) == c && 0.0 < c < 1.0
    ensures var rows := ScoreCatalog(SampleCatalog, SampleHistory, 0.0, cosine);
      |rows| == 3 && TakeTop(SortByScore(rows), TopCount) == [rows[1], rows[2], rows[0]]
  {
    var rows := ScoreCatalog(SampleCatalog, SampleHistory, 0.0, cosine);
    SampleScores(cosine, c);
    var r0, r1, r2 := rows[0], rows[1], rows[2];
    assert rows == [r0, r1, r2];
    SortThree(r0, r1, r2);
  }

  /** Relevance is a distance and the ranking puts the highest score first, so
      with alpha = 0 the tracks whose tags differ most from the history come
      first. Catalog tags [0, 1], [1, 1] and [1, 0] against a history tagged
      [1, 0] (cosine distances 1, 1 - cos 45 degrees and 0) come back in that order. */
  lemma DissimilarTagsRankFirst(cosine: Metric, c: real)
    requires cosine([1.0, 0.0], [1.0, 0.0]) == 0.0
    requires cosine([0.0, 1.0], [1.0, 0.0]) == 1.0
    requires cosine([1.0, 1.0], [1.0, 0.0]) == c && 0.0 < c < 1.0
    ensures var r := Recommend(SampleCatalog, SampleHistory, 0.0, cosine);
      && r.Ok? && |r.value| == 3
      && r.value[0].identity == SecondId && r.value[0].relevance == 1.0
      && r.value[1].identity == ThirdId && r.value[1].relevance == c
      && r.value[2].identity == FirstId && r.value[2].relevance == 0.0
  {
    SampleIsValid();
    RecommendAccepts(SampleCatalog, SampleHistory, 0.0, cosine);
    SampleRanking(cosine, c);
    SampleScores(cosine, c);
  }
}
