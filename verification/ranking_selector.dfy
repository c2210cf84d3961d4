/** The ranking half of the recommender: blend novelty and relevance into one
    score, order the rows by that score from highest to lowest, keep the first ten. */
module RankingSelector {
  import opened Catalog

  /** How many recommendations a call returns at most. */
  const TopCount: nat := 10

  function Min(a: int, b: int): int
  {
    if a <= b then a else b
  }

  function Least(a: real, b: real): real
  {
    if a <= b then a else b
  }

  function Greatest(a: real, b: real): real
  {
    if a <= b then b else a
  }

  /** The novelty-relevance score: alpha weighs novelty, 1 - alpha weighs the
      relevance distance. For alpha in [0, 1] it is a convex combination, so it
      lies between the two scores it blends. */
  function BlendScore(alpha: real, novelty: real, relevance: real): (s: real)
    ensures alpha == 0.0 ==> s == relevance
    ensures alpha == 1.0 ==> s == novelty
    ensures 0.0 <= alpha <= 1.0 ==> Least(novelty, relevance) <= s <= Greatest(novelty, relevance)
  {
    var s := alpha * novelty + (1.0 - alpha) * relevance;
    assert s == relevance + alpha * (novelty - relevance);
    if 0.0 <= alpha <= 1.0 then
      FractionWithin(alpha, novelty - relevance);
      s
    else
      s
  }

  /** A fraction of a gap lies between zero and the whole gap. */
  lemma FractionWithin(alpha: real, d: real)
    requires 0.0 <= alpha <= 1.0
    ensures Least(0.0, d) <= alpha * d <= Greatest(0.0, d)
  {
    var rest := 1.0 - alpha;
    if d >= 0.0 {
      assert 0.0 <= alpha * d;
      assert 0.0 <= rest * d;
      assert d - alpha * d == rest * d;
    } else {
      var gap := 0.0 - d;
      assert 0.0 <= alpha * gap;
      assert 0.0 <= rest * gap;
      assert alpha * d - d == rest * gap;
    }
  }

  /** Scores never increase from one position to any later one. */
  ghost predicate RankedByScore(s: seq<Recommendation>)
  {
    forall a, b | 0 <= a < b < |s| :: s[a].nrScore >= s[b].nrScore
  }

  /** Puts x in front of the first row whose score is not above its own. */
  function InsertByScore(x: Recommendation, s: seq<Recommendation>): (r: seq<Recommendation>)
    ensures multiset(r) == multiset(s) + multiset{x}
  {
    if s == [] || x.nrScore >= s[0].nrScore then
      [x] + s
    else
      assert s == [s[0]] + s[1..];
      [s[0]] + InsertByScore(x, s[1..])
  }

  /** No row of s scores above v. */
  ghost predicate ScoresAtMost(s: seq<Recommendation>, v: real)
  {
    forall k | 0 <= k < |s| :: s[k].nrScore <= v
  }

  /** A ranking stays a ranking under a head that scores at least as much as
      all of it. */
  lemma RankedCons(h: Recommendation, t: seq<Recommendation>)
    requires RankedByScore(t) && ScoresAtMost(t, h.nrScore)
    ensures RankedByScore([h] + t)
  {
    var r := [h] + t;
    forall a, b | 0 <= a < b < |r|
      ensures r[a].nrScore >= r[b].nrScore
    {
      assert r[b] == t[b - 1];
      if a > 0 {
        assert r[a] == t[a - 1];
      }
    }
  }

  lemma {:induction false} InsertScoresAtMost(x: Recommendation, s: seq<Recommendation>, v: real)
    requires x.nrScore <= v && ScoresAtMost(s, v)
    ensures ScoresAtMost(InsertByScore(x, s), v)
  {
    if s != [] && x.nrScore < s[0].nrScore {
      InsertScoresAtMost(x, s[1..], v);
      var rest := InsertByScore(x, s[1..]);
      assert InsertByScore(x, s) == [s[0]] + rest;
      assert forall k | 0 < k <= |rest| :: ([s[0]] + rest)[k] == rest[k - 1];
    }
  }

  /** Inserting into a ranking gives a ranking. */
  lemma {:induction false} InsertKeepsRanked(x: Recommendation, s: seq<Recommendation>)
    requires RankedByScore(s)
    ensures RankedByScore(InsertByScore(x, s))
  {
    if s == [] || x.nrScore >= s[0].nrScore {
      RankedCons(x, s);
    } else {
      var tail := s[1..];
      assert RankedByScore(tail);
      assert ScoresAtMost(tail, s[0].nrScore);
      InsertKeepsRanked(x, tail);
      InsertScoresAtMost(x, tail, s[0].nrScore);
      RankedCons(s[0], InsertByScore(x, tail));
    }
  }

  /** The rows ordered by score, highest first. Rows with equal scores keep
      their catalog order (see SortKeepsTieOrder). */
  function SortByScore(s: seq<Recommendation>): (r: seq<Recommendation>)
    ensures multiset(r) == multiset(s)
    ensures |r| == |s|
    ensures RankedByScore(r)
  {
    if s == [] then []
    else
      assert s == [s[0]] + s[1..];
      var rest := SortByScore(s[1..]);
      InsertKeepsRanked(s[0], rest);
      InsertByScore(s[0], rest)
  }

  /** The rows whose score is exactly v, in their order in s. */
  function WithScore(s: seq<Recommendation>, v: real): seq<Recommendation>
  {
    if s == [] then []
    else if s[0].nrScore == v then [s[0]] + WithScore(s[1..], v)
    else WithScore(s[1..], v)
  }

  lemma {:induction false} InsertKeepsTieOrder(x: Recommendation, s: seq<Recommendation>, v: real)
    ensures WithScore(InsertByScore(x, s), v) == WithScore([x] + s, v)
  {
    assert ([x] + s)[1..] == s;
    if s == [] || x.nrScore >= s[0].nrScore {
    } else {
      InsertKeepsTieOrder(x, s[1..], v);
      var rest := InsertByScore(x, s[1..]);
      assert ([s[0]] + rest)[1..] == rest;
      assert ([x] + s[1..])[1..] == s[1..];
    }
  }

  /** Sorting is stable: for every score, the rows that have it appear in the
      same relative order as in the input. */
  lemma {:induction false} SortKeepsTieOrder(s: seq<Recommendation>, v: real)
    ensures WithScore(SortByScore(s), v) == WithScore(s, v)
  {
    if s != [] {
      SortKeepsTieOrder(s[1..], v);
      InsertKeepsTieOrder(s[0], SortByScore(s[1..]), v);
      assert s == [s[0]] + s[1..];
      assert ([s[0]] + SortByScore(s[1..]))[1..] == SortByScore(s[1..]);
    }
  }

  /** Filtering a prefix gives a prefix of the filtered whole. */
  lemma {:induction false} WithScoreOfPrefix(s: seq<Recommendation>, n: nat, v: real)
    requires n <= |s|
    ensures WithScore(s[..n], v) <= WithScore(s, v)
  {
    if n > 0 {
      WithScoreOfPrefix(s[1..], n - 1, v);
      assert s[..n][1..] == s[1..][..n - 1];
    }
  }

  /** The first k rows of a ranking, or all of them when there are fewer. Taken
      from a ranking, they are the k best: every row left out scores at most as
      much as the last one kept. */
  function TakeTop(ranked: seq<Recommendation>, k: nat): (top: seq<Recommendation>)
    ensures |top| == Min(k, |ranked|)
    ensures multiset(top) <= multiset(ranked)
    ensures RankedByScore(ranked) ==> RankedByScore(top)
    ensures RankedByScore(ranked) && |top| > 0 ==>
      forall x | x in multiset(ranked) - multiset(top) :: x.nrScore <= top[|top| - 1].nrScore
  {
    var n := Min(k, |ranked|);
    assert ranked == ranked[..n] + ranked[n..];
    assert multiset(ranked) == multiset(ranked[..n]) + multiset(ranked[n..]);
    assert forall x | x in multiset(ranked) - multiset(ranked[..n]) :: x in ranked[n..] by {
      forall x | x in multiset(ranked) - multiset(ranked[..n]) ensures x in ranked[n..] {
        assert x in multiset(ranked[n..]);
      }
    }
    ranked[..n]
  }
}
