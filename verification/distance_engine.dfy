/** The distance half of the recommender: a catalog-by-history matrix of
    pairwise distances, reduced to one average per catalog row. The tag block
    gives the relevance distance; the audio block, halved, gives the novelty. */
module DistanceEngine {
  import opened Catalog

  /** A pairwise distance between two vectors. The recommender uses cosine
      distance, whose square root and floating-point rounding live in a library
      outside this model, so the metric is a parameter. */
  type Metric = (Vector, Vector) -> real

  /** Rows are catalog tracks, columns are history tracks. */
  type Matrix = seq<seq<real>>

  /** The library clips cosine distances into [0, 2]. */
  ghost predicate WithinCosineRange(metric: Metric)
  {
    forall u, v :: 0.0 <= metric(u, v) <= 2.0
  }

  predicate HasShape(m: Matrix, rows: nat, cols: nat)
  {
    |m| == rows && forall i | 0 <= i < |m| :: |m[i]| == cols
  }

  /** Every entry of m lies in [lo, hi]. */
  ghost predicate EntriesWithin(m: Matrix, lo: real, hi: real)
  {
    forall i, j | 0 <= i < |m| && 0 <= j < |m[i]| :: lo <= m[i][j] <= hi
  }

  /** One row of the pairwise matrix: the distances from x to every ys[j]. */
  function DistancesTo(x: Vector, ys: seq<Vector>, metric: Metric): (row: seq<real>)
    ensures |row| == |ys|
  {
    seq(|ys|, j requires 0 <= j < |ys| => metric(x, ys[j]))
  }

  /** The |xs| by |ys| matrix of distances; entry (i, j) compares xs[i] with ys[j]. */
  function PairwiseDistances(xs: seq<Vector>, ys: seq<Vector>, metric: Metric): (m: Matrix)
    ensures HasShape(m, |xs|, |ys|)
    ensures forall i, j | 0 <= i < |xs| && 0 <= j < |ys| :: m[i][j] == metric(xs[i], ys[j])
  {
    seq(|xs|, i requires 0 <= i < |xs| => DistancesTo(xs[i], ys, metric))
  }

  /** Every entry divided by two; this maps cosine distances, which lie in
      [0, 2], into [0, 1]. */
  function Halved(m: Matrix): (h: Matrix)
    ensures |h| == |m|
    ensures forall i | 0 <= i < |m| :: |h[i]| == |m[i]|
    ensures forall i, j | 0 <= i < |m| && 0 <= j < |m[i]| :: h[i][j] == m[i][j] / 2.0
    ensures EntriesWithin(m, 0.0, 2.0) ==> EntriesWithin(h, 0.0, 1.0)
  {
    seq(|m|, i requires 0 <= i < |m| => seq(|m[i]|, j requires 0 <= j < |m[i]| => m[i][j] / 2.0))
  }

  function Sum(s: seq<real>): real
  {
    if s == [] then 0.0 else s[0] + Sum(s[1..])
  }

  /** The arithmetic mean; undefined for an empty sequence. */
  function Mean(s: seq<real>): real
    requires |s| > 0
  {
    Sum(s) / (|s| as real)
  }

  lemma MeanOfOne(x: real)
    ensures Mean([x]) == x
  {
    assert [x][1..] == [];
    assert Sum([x]) == x + Sum([]);
  }

  lemma {:induction false} SumWithin(s: seq<real>, lo: real, hi: real)
    requires forall k | 0 <= k < |s| :: lo <= s[k] <= hi
    ensures (|s| as real) * lo <= Sum(s) <= (|s| as real) * hi
  {
    if s != [] {
      SumWithin(s[1..], lo, hi);
      var n := |s[1..]| as real;
      assert (|s| as real) * lo == n * lo + lo;
      assert (|s| as real) * hi == n * hi + hi;
    }
  }

  /** A mean lies between any bounds of its entries. */
  lemma MeanWithin(s: seq<real>, lo: real, hi: real)
    requires |s| > 0
    requires forall k | 0 <= k < |s| :: lo <= s[k] <= hi
    ensures lo <= Mean(s) <= hi
  {
    SumWithin(s, lo, hi);
    var n := |s| as real;
    assert Mean(s) * n == Sum(s);
  }

  /** The mean of each row, as the reduction over the history axis: each value
      times the row's length gives back the row's sum. */
  function RowMeans(m: Matrix): (r: seq<real>)
    requires forall i | 0 <= i < |m| :: |m[i]| > 0
    ensures |r| == |m|
    ensures forall i | 0 <= i < |m| :: r[i] * (|m[i]| as real) == Sum(m[i])
  {
    seq(|m|, i requires 0 <= i < |m| => Mean(m[i]))
  }

  /** Row means keep the bounds of the entries they average. */
  lemma RowMeansWithin(m: Matrix, lo: real, hi: real)
    requires forall i | 0 <= i < |m| :: |m[i]| > 0
    requires EntriesWithin(m, lo, hi)
    ensures forall i | 0 <= i < |m| :: lo <= RowMeans(m)[i] <= hi
  {
    forall i | 0 <= i < |m|
      ensures lo <= RowMeans(m)[i] <= hi
    {
      MeanWithin(m[i], lo, hi);
    }
  }

  /** The relevance distance of every catalog row: the mean cosine distance from
      its tag vector to the tag vectors of the history. */
  function Relevance(catalogTags: seq<Vector>, historyTags: seq<Vector>, cosine: Metric): (rel: seq<real>)
    requires |historyTags| > 0
    ensures |rel| == |catalogTags|
    ensures forall i | 0 <= i < |catalogTags| ::
      rel[i] == Mean(DistancesTo(catalogTags[i], historyTags, cosine))
  {
    RowMeans(PairwiseDistances(catalogTags, historyTags, cosine))
  }

  /** The novelty of every catalog row: the mean of the halved cosine distances
      from its audio vector to the audio vectors of the history. */
  function Novelty(catalogAudio: seq<Vector>, historyAudio: seq<Vector>, cosine: Metric): (nov: seq<real>)
    requires |historyAudio| > 0
    ensures |nov| == |catalogAudio|
    ensures forall i | 0 <= i < |catalogAudio| ::
      nov[i] == Mean(DistancesTo(catalogAudio[i], historyAudio, cosine)) / 2.0
  {
    var nov := RowMeans(Halved(PairwiseDistances(catalogAudio, historyAudio, cosine)));
    assert forall i | 0 <= i < |catalogAudio| ::
      nov[i] == Mean(DistancesTo(catalogAudio[i], historyAudio, cosine)) / 2.0 by {
      forall i | 0 <= i < |catalogAudio|
        ensures nov[i] == Mean(DistancesTo(catalogAudio[i], historyAudio, cosine)) / 2.0
      {
        MeanOfHalved(DistancesTo(catalogAudio[i], historyAudio, cosine),
                     Halved(PairwiseDistances(catalogAudio, historyAudio, cosine))[i]);
      }
    }
    nov
  }

  lemma {:induction false} SumOfHalved(s: seq<real>, h: seq<real>)
    requires |h| == |s|
    requires forall k | 0 <= k < |s| :: h[k] == s[k] / 2.0
    ensures Sum(h) == Sum(s) / 2.0
  {
    if s != [] {
      SumOfHalved(s[1..], h[1..]);
    }
  }

  /** Halving every entry halves the mean. */
  lemma MeanOfHalved(s: seq<real>, h: seq<real>)
    requires |s| > 0 && |h| == |s|
    requires forall k | 0 <= k < |s| :: h[k] == s[k] / 2.0
    ensures Mean(h) == Mean(s) / 2.0
  {
    SumOfHalved(s, h);
  }

  /** With distances in [0, 2], relevance lies in [0, 2] and novelty in [0, 1]. */
  lemma ScoresWithinRange(catalogTags: seq<Vector>, historyTags: seq<Vector>,
                          catalogAudio: seq<Vector>, historyAudio: seq<Vector>, cosine: Metric)
    requires |historyTags| > 0 && |historyAudio| > 0
    requires WithinCosineRange(cosine)
    ensures forall i | 0 <= i < |catalogTags| :: 0.0 <= Relevance(catalogTags, historyTags, cosine)[i] <= 2.0
    ensures forall i | 0 <= i < |catalogAudio| :: 0.0 <= Novelty(catalogAudio, historyAudio, cosine)[i] <= 1.0
  {
    var tagDistances := PairwiseDistances(catalogTags, historyTags, cosine);
    RowMeansWithin(tagDistances, 0.0, 2.0);
    var audioDistances := PairwiseDistances(catalogAudio, historyAudio, cosine);
    RowMeansWithin(Halved(audioDistances), 0.0, 1.0);
  }
}
