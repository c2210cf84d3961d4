# Novelty-relevance playlist recommender

A model of `nr_rec`, the recommender behind the "Adventure Playlist" page. Given
the catalog of tracks, the listener's history and a blend parameter `alpha`, it
scores every catalog track on two signals and returns the ten best:

- **relevance**: the mean cosine distance from the track's tag-count vector to
  the tag vectors of every history track. It is a distance, so a larger value
  means the track's tags are *less* like the history's;
- **novelty**: the mean cosine distance between the seven audio features
  (danceability, energy, speechiness, instrumentalness, liveness, valence,
  scaled tempo), each distance halved first;
- **nr_score** `= alpha * novelty + (1 - alpha) * relevance`.

Rows are sorted by `nr_score`, highest first, and the first ten are kept. Because
relevance is a distance and the sort is descending, with `alpha = 0` the tracks
whose tags differ most from the history come first. The model keeps this
direction (`Recommender.DissimilarTagsRankFirst` shows it on three tracks).

Modules:

- `Catalog` (catalog.dfy): the records. The identity columns (`track_id`, name,
  artist, Spotify preview URL, year, tags text) are an opaque `Identity` copied
  into the output unchanged. The seven audio features are a datatype with seven
  fields, so "exactly seven, in this order" holds by construction. Errors are a
  `Result` datatype.
- `DistanceEngine` (distance_engine.dfy): pairwise distance matrices, halving,
  row means, and the bounds they keep.
- `RankingSelector` (ranking_selector.dfy): the blend, a stable sort by score
  (highest first), and the top-k cut.
- `Recommender` (recommender.dfy): validation, the scored table and the entry
  point `Recommend`.

Cosine distance is the parameter `cosine: Metric`. The library that computes it
clips the result into [0, 2]; the lemmas that need this take
`WithinCosineRange(cosine)` as a precondition. Scores are `real`.

Errors, in the order the code meets them: `alpha` outside [0, 1] is rejected
before anything is scored (`InvalidAlpha`). The distance library then rejects an
empty catalog table, a catalog tag block with no columns, an empty history
table, a history tag block with no columns, and tag blocks of different widths
(`EmptyCatalog`, `NoTagFeatures`, `EmptyHistory`, `NoTagFeatures`,
`DimensionMismatch`). The code has no error types of its own: it uses an
assertion for `alpha`, and the library raises a value error for the rest.

Three points about how the model relates to the code:

- Tie order. The code's default sort is not stable and promises no order among
  equal scores. The model fixes catalog order for ties
  (`RankingSelector.SortKeepsTieOrder`, `Recommender.ReturnedTiesKeepCatalogOrder`).
- Zero vectors. The code defines no fallback distance for zero vectors; the
  library handles them, so the model leaves this to `cosine`.
- Empty catalog. The library rejects an empty catalog table, so the model
  returns `EmptyCatalog`.

## Model

| member | source | states |
|---|---|---|
| `Catalog.AudioFeatures.AsVector` | streamlit/app.py:69-73 | the audio vector holds exactly the seven features, in the code's order: danceability, energy, speechiness, instrumentalness, liveness, valence, scaled tempo |
| `DistanceEngine.PairwiseDistances` | streamlit/app.py:65 | the matrix has one row per catalog vector and one column per history vector, and entry (i, j) is the distance between catalog vector i and history vector j |
| `DistanceEngine.Halved` | streamlit/app.py:74 | every entry is the original divided by 2, and distances in [0, 2] become entries in [0, 1] |
| `DistanceEngine.RowMeans` | streamlit/app.py:66-75 | one arithmetic mean per row (the `mean(axis=1)` at lines 66 and 75), needing non-empty rows: each value times its row's length is the row's sum |
| `DistanceEngine.MeanWithin` | streamlit/app.py:66 | the mean of a non-empty row lies between any lower and upper bound of its entries |
| `DistanceEngine.RowMeansWithin` | streamlit/app.py:75 | the per-row means of a matrix whose rows are non-empty keep the bounds of its entries |
| `DistanceEngine.MeanOfHalved` | streamlit/app.py:74-75 | the mean of a row whose entries are each divided by 2 is the row's mean divided by 2 |
| `DistanceEngine.Relevance` | streamlit/app.py:63-66 | one value per catalog track, equal to the mean of its distances to all history tracks; needs a non-empty history |
| `DistanceEngine.Novelty` | streamlit/app.py:70-75 | one value per catalog track, equal to the mean of its audio distances to all history tracks divided by 2; needs a non-empty history |
| `DistanceEngine.ScoresWithinRange` | streamlit/app.py:65-75 | with distances in [0, 2], every relevance lies in [0, 2] and every novelty in [0, 1] |
| `RankingSelector.BlendScore` | streamlit/app.py:79 | alpha = 0 gives the relevance, alpha = 1 gives the novelty, and any alpha in [0, 1] gives a score between the two |
| `RankingSelector.InsertByScore` | streamlit/app.py:82 | inserting a row adds exactly that row to the multiset of rows |
| `RankingSelector.InsertKeepsRanked` | streamlit/app.py:82 | inserting a row into a ranking gives a ranking |
| `RankingSelector.SortByScore` | streamlit/app.py:82 | the result is a permutation of the rows (same multiset) whose scores never increase from one position to any later one |
| `RankingSelector.SortKeepsTieOrder` | streamlit/app.py:82 | for every score value, the rows with that score appear in the same order as in the input |
| `RankingSelector.TakeTop` | streamlit/app.py:82 | keeps min(k, n) rows, a sub-multiset of the input; taken from a ranking, the rows kept are ranked and every row left out scores at most as much as the last row kept |
| `Recommender.ScoreCatalog` | streamlit/app.py:59-79 | one row per catalog track, in catalog order, with its identity unchanged, relevance equal to the mean tag distance to the history, novelty equal to the mean audio distance divided by 2, and nr_score the blend of the two whose properties `BlendScore` states |
| `Recommender.Recommend` | streamlit/app.py:36-85 | alpha outside [0, 1] gives InvalidAlpha and no rows; each input error in the library's order gives its error; otherwise the result has exactly min(10, N) rows, ranked by nr_score, drawn without repetition from the scored table, and every scored row left out scores at most as much as the last row returned |
| `Recommender.ReturnedRowsAreScored` | streamlit/app.py:60-82 | every returned row is the scored row of some catalog index |
| `Recommender.ReturnedScoresBlend` | streamlit/app.py:79 | in every returned row, nr_score equals relevance when alpha = 0, equals novelty when alpha = 1, and lies between them |
| `Recommender.ReturnedTiesKeepCatalogOrder` | streamlit/app.py:82 | for every score value, the returned rows with that score are the first catalog rows with that score, in catalog order |
| `Recommender.ScoredRowsWithinRange` | streamlit/app.py:63-76 | with distances in [0, 2], every scored row has relevance in [0, 2] and novelty in [0, 1] |
| `Recommender.ReturnedScoresWithinRange` | streamlit/app.py:63-82 | with distances in [0, 2], every returned row has relevance in [0, 2], novelty in [0, 1] and nr_score in [0, 2] |
| `Recommender.DissimilarTagsRankFirst` | streamlit/app.py:63-82 | with alpha = 0, catalog tags [0, 1], [1, 1], [1, 0] against a history tagged [1, 0] come back in that order, the most distant first |

## Left out

- Page setup, sliders, tables and audio players (streamlit/app.py:13-19, 89-136): presentation only.
- Reading the two CSV files and sorting the history by play count (streamlit/app.py:26-30, 119-136): file input and display. `HistoryTrack` keeps the play count, and the recommender never reads it.
- The column offsets that cut the tag block out of each table (streamlit/app.py:63-64): a file-layout detail. Tag vectors are given directly.
- Recommend: requires each tag block to be rectangular (every row of one table the same width), as the columns of a table always are; ragged input cannot reach the code. The requirement makes `Width` the width of the whole block; no proof depends on it.
- The default `alpha=0.5` of `nr_rec` (streamlit/app.py:36): `Recommend` always takes `alpha` explicitly; the only caller (streamlit/app.py:100) passes it.
- Cosine distance itself (square roots, rounding, the library's handling of zero vectors): a foreign library, modelled as the parameter `cosine`. The [0, 2] range it guarantees is a precondition of the range lemmas.
- Floating point: scores are `real`, so rounding and the library's rejection of NaN and infinite values are not modelled.
- The number-type check on `alpha` (streamlit/app.py:56): the parameter is a `real` by type.
- SortByScore: the code's default sort is not stable, so it promises no order among equal scores; the model fixes catalog order for ties.
