/** Explainable ranking: the additive score of one search candidate. */
module Ranking {
  import opened Prelude
  import opened Schema

  datatype Depth = Default | Shallow | Standard | Deep

  function CandidateLimit(depth: Depth, resultLimit: int): int {
    var wanted := if resultLimit <= 0 then 10 else resultLimit;
    var limit := wanted * (match depth case Shallow => 1 case Deep => 8 case _ => 3);
    if limit < wanted then wanted else if limit > 500 then 500 else limit
  }

  /** Widening never starves the final result, up to the cap of 500 candidates. */
  lemma CandidatesCoverTheResult(depth: Depth, resultLimit: int)
    requires resultLimit > 0
    ensures CandidateLimit(depth, resultLimit) >= resultLimit <==> resultLimit <= 500
  {
  }

  datatype Score = Score(total: real, keyword: real, vector: real, recency: real, tier: real,
                         pinned: real, importance: real, access: real)

  datatype Candidate = Candidate(ftsRank: real, keywordMatched: bool, similarity: Option<real>, item: Item,
                                 accessCount: int, now: Instant)

  function Abs(x: real): real { if x < 0.0 then -x else x }

  function KeywordScore(rank: real): real { 10.0 / (1.0 + Abs(rank)) }

  function VectorScore(similarity: real): real {
    if similarity <= 0.0 then 0.0 else (if similarity > 1.0 then 1.0 else similarity) * 6.0
  }

  function RecencyScore(age: int): real {
    if age < 0 then 4.0
    else if age <= DAY then 4.0
    else if age <= 7 * DAY then 3.0
    else if age <= 30 * DAY then 2.0
    else if age <= 90 * DAY then 1.0
    else 0.0
  }

  function TierScore(tier: Tier): real {
    match tier
    case Working => 4.0
    case Hot => 3.0
    case Warm => 2.0
    case Cold => 1.0
    case _ => 0.0
  }

  function ImportanceScore(importance: int): real {
    if importance < 0 then 0.0 else (if importance > 100 then 100 else importance) as real / 25.0
  }

  function AccessScore(count: int): real {
    if count < 0 then 0.0 else (if count > 10 then 10 else count) as real * 0.5
  }

  function LastActivity(item: Item): Instant {
    if item.lastAccessedAt.Some? && item.lastAccessedAt.value > item.updatedAt then item.lastAccessedAt.value
    else item.updatedAt
  }

  function ScoreCandidate(c: Candidate): Score {
    var keyword := if c.keywordMatched || c.ftsRank != 0.0 then KeywordScore(c.ftsRank) else 0.0;
    var vector := if c.similarity.Some? then VectorScore(c.similarity.value) else 0.0;
    var recency := RecencyScore(c.now - LastActivity(c.item));
    var tier := TierScore(c.item.tier);
    var pinned := if c.item.pinned then 3.0 else 0.0;
    var importance := ImportanceScore(c.item.importance);
    var access := AccessScore(c.accessCount);
    Score(keyword + vector + recency + tier + pinned + importance + access,
          keyword, vector, recency, tier, pinned, importance, access)
  }

  lemma KeywordScoreRange(rank: real)
    ensures 0.0 < KeywordScore(rank) <= 10.0
  {
    var d := 1.0 + Abs(rank);
    assert d >= 1.0;
    assert (10.0 / d) * d == 10.0;
  }

  lemma VectorScoreIsMonotone(x: real, y: real)
    requires x <= y
    ensures VectorScore(x) <= VectorScore(y)
    ensures 0.0 <= VectorScore(x) <= 6.0
  {
  }

  lemma AccessScoreIsMonotone(x: int, y: int)
    requires x <= y
    ensures AccessScore(x) <= AccessScore(y)
    ensures 0.0 <= AccessScore(x) <= 5.0
  {
  }

  /** Every component keeps to its share, so no single signal can decide more than its cap. */
  lemma ScoreIsBounded(c: Candidate)
    ensures var s := ScoreCandidate(c);
      && 0.0 <= s.keyword <= 10.0 && 0.0 <= s.vector <= 6.0 && 0.0 <= s.recency <= 4.0
      && 0.0 <= s.tier <= 4.0 && 0.0 <= s.pinned <= 3.0 && 0.0 <= s.importance <= 4.0
      && 0.0 <= s.access <= 5.0 && 0.0 <= s.total <= 36.0
  {
    KeywordScoreRange(c.ftsRank);
    AccessScoreIsMonotone(c.accessCount, c.accessCount);
    if c.similarity.Some? {
      VectorScoreIsMonotone(c.similarity.value, c.similarity.value);
    }
  }

  // ----- What each signal is worth -----

  predicate TierAtLeast(a: Tier, b: Tier) {
    || a == b || a == Working || b == Archive
    || (a == Hot && b != Working)
    || (a == Warm && b == Cold)
  }

  /** The later of the last update and the last read. */
  predicate LastSeen(item: Item, at: Instant) {
    && (at == item.updatedAt || item.lastAccessedAt == Some(at))
    && item.updatedAt <= at && (item.lastAccessedAt.Some? ==> item.lastAccessedAt.value <= at)
  }

  predicate Matched(c: Candidate) { c.keywordMatched || c.ftsRank != 0.0 }

  /** `d` is no worse than `c` in any signal: matched whenever `c` is, with a rank no further from
      zero; no less similar; seen, placed, pinned, weighted and read no less. */
  ghost predicate NoWorse(c: Candidate, d: Candidate) {
    && (Matched(c) ==> Matched(d) && Abs(d.ftsRank) <= Abs(c.ftsRank))
    && (c.similarity.Some? ==> d.similarity.Some? && d.similarity.value >= c.similarity.value)
    && (exists x, y :: LastSeen(c.item, x) && LastSeen(d.item, y) && d.now - y <= c.now - x)
    && TierAtLeast(d.item.tier, c.item.tier) && (c.item.pinned ==> d.item.pinned)
    && d.item.importance >= c.item.importance && d.accessCount >= c.accessCount
  }

  /** The total rises with every signal. */
  lemma NoWorseScoresNoLower(c: Candidate, d: Candidate)
    requires NoWorse(c, d)
    ensures ScoreCandidate(c).total <= ScoreCandidate(d).total
  {
    KeywordScoreRange(d.ftsRank);
    if Matched(c) {
      KeywordScoreFalls(d.ftsRank, c.ftsRank);
    }
    if c.similarity.Some? {
      VectorScoreIsMonotone(c.similarity.value, d.similarity.value);
    } else if d.similarity.Some? {
      VectorScoreIsMonotone(d.similarity.value, d.similarity.value);
    }
    AccessScoreIsMonotone(c.accessCount, d.accessCount);
    assert RecencyScore(c.now - LastActivity(c.item)) <= RecencyScore(d.now - LastActivity(d.item));
    assert TierScore(c.item.tier) <= TierScore(d.item.tier);
    assert ImportanceScore(c.item.importance) <= ImportanceScore(d.item.importance);
    hide KeywordScore, VectorScore, RecencyScore, TierScore, ImportanceScore, AccessScore, LastActivity;
  }

  lemma KeywordScoreFalls(a: real, b: real)
    requires Abs(a) <= Abs(b)
    ensures KeywordScore(a) >= KeywordScore(b)
  {
    InverseFalls(1.0 + Abs(a), 1.0 + Abs(b));
  }

  lemma InverseFalls(x: real, y: real)
    requires 0.0 < x <= y
    ensures 10.0 / x >= 10.0 / y
  {
    var q := 10.0 / y;
    assert q * y == 10.0 && q > 0.0;
    assert q * x <= q * y;
    assert (10.0 / x) * x == 10.0;
  }

  /** What one step is worth: a matched rank r gives 10 / (1 + |r|), a full similarity 6, each of 1, 7, 30
      and 90 days passed since the memory was last seen costs one of four points, so does each tier
      below working, a pin gives 3, 25 points of importance one, and two of the first ten reads one. */
  lemma WhatASignalIsWorth(c: Candidate, seen: Instant)
    requires LastSeen(c.item, seen)
    ensures
      var s := ScoreCandidate(c);
      var day := 24 * 60 * 60 * 1_000_000_000;
      var passed := n => if c.now - seen > n * day then 1.0 else 0.0;
      && s.total == s.keyword + s.vector + s.recency + s.tier + s.pinned + s.importance + s.access
      && (if Matched(c) then s.keyword * (1.0 + Abs(c.ftsRank)) == 10.0 else s.keyword == 0.0)
      && (c.similarity.None? ==> s.vector == 0.0)
      && (c.similarity.Some? && 0.0 <= c.similarity.value <= 1.0 ==> s.vector == 6.0 * c.similarity.value)
      && s.recency == 4.0 - passed(1) - passed(7) - passed(30) - passed(90)
      && (c.item.tier == Working ==> s.tier == 4.0) && (c.item.tier == Hot ==> s.tier == 3.0) && (c.item.tier == Warm ==> s.tier == 2.0)
      && (c.item.tier == Cold ==> s.tier == 1.0) && (c.item.tier == Archive ==> s.tier == 0.0)
      && s.pinned == (if c.item.pinned then 3.0 else 0.0)
      && (0 <= c.item.importance <= 100 ==> s.importance * 25.0 == c.item.importance as real)
      && (0 <= c.accessCount <= 10 ==> s.access * 2.0 == c.accessCount as real)
      && (c.accessCount > 10 ==> s.access == 5.0)
  {
    var d := 1.0 + Abs(c.ftsRank);
    assert (10.0 / d) * d == 10.0;
  }
}
