/** What the order of search results means, said of scores, update times and similarities. */
module Ranked {
  import opened Prelude
  import opened Schema
  import opened Ranking
  import opened Search

  /** The totals never rise along the answer, and among equal totals the latest update comes first. */
  predicate BestFirst(xs: seq<SearchResult>) {
    forall i, j :: 0 <= i < j < |xs| ==>
      && xs[i].score.total >= xs[j].score.total
      && (xs[i].score.total == xs[j].score.total ==> xs[i].item.updatedAt >= xs[j].item.updatedAt)
  }

  predicate NoBetter(x: SearchResult, xs: seq<SearchResult>) {
    forall i :: 0 <= i < |xs| ==>
      && x.score.total <= xs[i].score.total
      && (x.score.total == xs[i].score.total ==> x.item.updatedAt <= xs[i].item.updatedAt)
  }

  predicate ClosestFirst(xs: seq<SearchResult>) {
    forall i, j :: 0 <= i < j < |xs| ==>
      && Nearness(xs[i]) >= Nearness(xs[j])
      && (Nearness(xs[i]) == Nearness(xs[j]) ==> xs[i].item.updatedAt >= xs[j].item.updatedAt)
  }

  predicate NoCloser(x: SearchResult, xs: seq<SearchResult>) {
    forall i :: 0 <= i < |xs| ==>
      && Nearness(x) <= Nearness(xs[i])
      && (Nearness(x) == Nearness(xs[i]) ==> x.item.updatedAt <= xs[i].item.updatedAt)
  }

  /** The similarity, and -1 without one. */
  function Nearness(r: SearchResult): (n: real) {
    match r.similarity
    case Some(s) => s
    case None => -1.0
  }

  /** A search answers with as many merged results as the limit allows, the highest totals first, and
      leaves out none with a greater total, nor with an equal total and a later update. */
  lemma AnswerIsRankedByScore(backend: Backend, fts: seq<SearchResult>, vectors: Option<seq<SearchResult>>,
                              candidateLimit: nat, limit: nat, now: Instant)
    ensures
      var merged := MergeAll(fts + Kept(backend, vectors, candidateLimit, now), now);
      var answer := SearchOutcome(backend, fts, vectors, candidateLimit, limit, now);
      && BestFirst(answer) && multiset(answer) <= multiset(merged)
      && |answer| == (if |merged| > limit then limit else |merged|)
      && forall x :: x in multiset(merged) - multiset(answer) ==> NoBetter(x, answer)
  {
    var merged := MergeAll(fts + Kept(backend, vectors, candidateLimit, now), now);
    hide MergeAll, Kept, StableSort, Take, WeakOrder;
    RankingOrders();
    SortedPrefixIsTop(RanksBefore, merged, limit);
  }

  /** The JSON backend keeps the most similar merged candidates, closest first; the sqlite-vec backend
      keeps those its query returned first. */
  lemma KeptAreTheClosest(backend: Backend, rows: seq<SearchResult>, candidateLimit: nat, now: Instant)
    ensures
      var merged := MergeAll(rows, now);
      var kept := VectorCandidates(backend, rows, candidateLimit, now);
      && |kept| == (if |merged| > candidateLimit then candidateLimit else |merged|) && multiset(kept) <= multiset(merged)
      && (backend == SqliteVec ==> kept == merged[..|kept|])
      && (backend != SqliteVec ==> ClosestFirst(kept) && forall x :: x in multiset(merged) - multiset(kept) ==> NoCloser(x, kept))
  {
    var merged := MergeAll(rows, now);
    var kept := VectorCandidates(backend, rows, candidateLimit, now);
    hide MergeAll, StableSort, WeakOrder, IsTopOf, ClosestFirst, NoCloser;
    if backend == SqliteVec {
      hide VectorCandidates;
      assert kept == Take(merged, candidateLimit) by { FirstOfMerged(rows, candidateLimit, now); }
      PrefixAndRest(merged, |kept|);
    } else {
      RankingOrders();
      SortedPrefixIsTop(CloserThan, merged, candidateLimit);
      TopIsClosest(kept, merged, candidateLimit);
    }
  }

  lemma FirstOfMerged(rows: seq<SearchResult>, candidateLimit: nat, now: Instant)
    ensures VectorCandidates(SqliteVec, rows, candidateLimit, now) == Take(MergeAll(rows, now), candidateLimit)
  {
  }

  lemma TopIsClosest(kept: seq<SearchResult>, merged: seq<SearchResult>, limit: nat)
    requires IsTopOf(CloserThan, kept, merged, limit)
    ensures ClosestFirst(kept) && forall x :: x in multiset(merged) - multiset(kept) ==> NoCloser(x, kept)
    ensures |kept| == (if |merged| > limit then limit else |merged|) && multiset(kept) <= multiset(merged)
  {
  }

  // ----- From the rows SQLite returned -----

  /** `id` is the memory of one of the results. */
  predicate Includes(xs: seq<SearchResult>, id: string) { exists i :: 0 <= i < |xs| && xs[i].memoryId == id }

  lemma InBothParts(xs: seq<SearchResult>, ys: seq<SearchResult>, i: nat)
    requires multiset(xs) <= multiset(ys) && i < |ys|
    ensures ys[i] in xs || ys[i] in multiset(ys) - multiset(xs)
  {
    assert ys[i] in multiset(ys);
    if ys[i] !in xs { assert multiset(xs)[ys[i]] == 0; }
  }

  /** No row is passed over for a worse one: a memory with a row either is in the answer, or the answer
      is full of memories with totals at least that row's. */
  lemma NoBetterRowIsPassedOver(backend: Backend, fts: seq<SearchResult>, vectors: Option<seq<SearchResult>>,
                                candidateLimit: nat, limit: nat, now: Instant, k: nat)
    requires Snapshot(fts + Kept(backend, vectors, candidateLimit, now)) && k < |fts + Kept(backend, vectors, candidateLimit, now)|
    ensures
      var row := (fts + Kept(backend, vectors, candidateLimit, now))[k];
      var answer := SearchOutcome(backend, fts, vectors, candidateLimit, limit, now);
      || Includes(answer, row.memoryId)
      || (|answer| == limit && forall i :: 0 <= i < |answer| ==> answer[i].score.total >= ScoreOf(row, now).total)
  {
    var rows := fts + Kept(backend, vectors, candidateLimit, now);
    var merged := MergeAll(rows, now);
    var answer := SearchOutcome(backend, fts, vectors, candidateLimit, limit, now);
    AnswerIsRankedByScore(backend, fts, vectors, candidateLimit, limit, now);
    hide MergeAll, Kept, SearchOutcome, Snapshot, ScoreOf, BestFirst;
    var j := MergedTotalCoversItsRow(rows, now, k);
    InBothParts(answer, merged, j);
    if merged[j] in answer {
      var i :| 0 <= i < |answer| && answer[i] == merged[j];
      assert answer[i].memoryId == rows[k].memoryId;
    } else {
      assert NoBetter(merged[j], answer);
      SomeLeftOut(answer, merged, j);
    }
  }

  lemma MergedTotalCoversItsRow(rows: seq<SearchResult>, now: Instant, k: nat) returns (j: nat)
    requires Snapshot(rows) && k < |rows|
    ensures
      var merged := MergeAll(rows, now);
      j < |merged| && merged[j].memoryId == rows[k].memoryId && merged[j].score.total >= ScoreOf(rows[k], now).total
  {
    hide MergeAll, IsJoin, ScoreOf, RowsOf, Combine;
    MergeIsJoin(rows, now);
    hide Snapshot;
    j := IndexOf(MergeAll(rows, now), rows[k].memoryId);
    var own := RowsOf(rows, rows[k].memoryId);
    RowsOfAreRows(rows, rows[k].memoryId);
    var m: nat :| m < |own| && own[m] == rows[k];
    JoinDominatesItsRows(MergeAll(rows, now)[j], own, m, now);
  }

  lemma SomeLeftOut(answer: seq<SearchResult>, merged: seq<SearchResult>, j: nat)
    requires multiset(answer) <= multiset(merged) && j < |merged| && merged[j] !in answer
    ensures |answer| < |merged|
  {
    assert merged[j] in multiset(merged) - multiset(answer);
    assert |multiset(merged) - multiset(answer)| == |merged| - |answer|;
  }

  /** The row's memory is among the results, at least as near as the row. */
  predicate AsNear(results: seq<SearchResult>, row: SearchResult) {
    var j := IndexOf(results, row.memoryId);
    && j < |results|
    && (row.similarity.Some? ==> results[j].similarity.Some? && results[j].similarity.value >= row.similarity.value)
  }

  /** Each merged result is as near as the nearest of its rows. */
  lemma {:induction false} MergedIsAsNearAsItsRows(rows: seq<SearchResult>, now: Instant, k: nat)
    requires k < |rows|
    ensures AsNear(MergeAll(rows, now), rows[k])
  {
    hide Absorb, AsNear, IndexOf;
    var n := |rows| - 1;
    var before := MergeAll(rows[..n], now);
    assert MergeAll(rows, now) == Absorb(before, rows[n], now);
    if k < n {
      MergedIsAsNearAsItsRows(rows[..n], now, k);
      assert rows[..n][k] == rows[k];
      StaysAsNear(before, rows[k], rows[n], now);
    } else {
      TakenInAsNear(before, rows[n], now);
    }
  }

  lemma StaysAsNear(results: seq<SearchResult>, seen: SearchResult, row: SearchResult, now: Instant)
    requires AsNear(results, seen)
    ensures AsNear(Absorb(results, row, now), seen)
  {
    var j := IndexOf(results, seen.memoryId);
    var i := IndexOf(results, row.memoryId);
    var after := Absorb(results, row, now);
    AbsorbKeepsIds(results, row, now);
    if i < |results| {
      CombinedFields(results[i], row, now);
      assert i != j ==> after[j] == results[j];
    }
    hide Combine, ScoreOf, Scored, Absorb;
    assert after[j].memoryId == results[j].memoryId;
    assert forall m :: 0 <= m < j ==> after[m].memoryId == results[m].memoryId;
  }

  lemma TakenInAsNear(results: seq<SearchResult>, row: SearchResult, now: Instant)
    ensures AsNear(Absorb(results, row, now), row)
  {
    var i := IndexOf(results, row.memoryId);
    var after := Absorb(results, row, now);
    AbsorbKeepsIds(results, row, now);
    if i < |results| {
      CombinedFields(results[i], row, now);
    }
    ScoredKeepsId(row, now);
    assert i < |after| && after[i].memoryId == row.memoryId && (i == |results| ==> after[i] == Scored(row, now));
    hide Combine, ScoreOf, Absorb;
    assert forall m :: 0 <= m < i ==> after[m].memoryId == results[m].memoryId;
  }

  /** No vector row is passed over for a less similar one by the JSON backend. */
  lemma NoCloserRowIsPassedOver(backend: Backend, rows: seq<SearchResult>, candidateLimit: nat, now: Instant, k: nat)
    requires backend != SqliteVec && k < |rows| && rows[k].similarity.Some?
    ensures
      var kept := VectorCandidates(backend, rows, candidateLimit, now);
      || Includes(kept, rows[k].memoryId)
      || (|kept| == candidateLimit && forall i :: 0 <= i < |kept| ==> Nearness(kept[i]) >= rows[k].similarity.value)
  {
    var merged := MergeAll(rows, now);
    var kept := VectorCandidates(backend, rows, candidateLimit, now);
    KeptAreTheClosest(backend, rows, candidateLimit, now);
    MergedIsAsNearAsItsRows(rows, now, k);
    hide MergeAll, VectorCandidates, ClosestFirst;
    var j := IndexOf(merged, rows[k].memoryId);
    InBothParts(kept, merged, j);
    if merged[j] in kept {
      var i :| 0 <= i < |kept| && kept[i] == merged[j];
      assert kept[i].memoryId == rows[k].memoryId;
    } else {
      assert NoCloser(merged[j], kept);
      SomeLeftOut(kept, merged, j);
    }
  }

  // ----- What a merged result shows -----

  /** Without a keyword row, the chunk and snippet shown are those of the last row that has a snippet,
      or of the first row if none has. */
  ghost predicate ShowsLastSnippet(e: SearchResult, rows: seq<SearchResult>) {
    exists i :: 0 <= i < |rows| && IsLastSnippet(rows, i) && rows[i].chunkId == e.chunkId && rows[i].snippet == e.snippet
  }

  predicate IsLastSnippet(rows: seq<SearchResult>, i: nat)
    requires i < |rows|
  {
    (rows[i].snippet != "" || i == 0) && forall j :: i < j < |rows| ==> rows[j].snippet == ""
  }

  ghost predicate CountsMostReads(e: SearchResult, rows: seq<SearchResult>) {
    && (forall i :: 0 <= i < |rows| ==> rows[i].accessCount <= e.accessCount)
    && (exists i :: 0 <= i < |rows| && rows[i].accessCount == e.accessCount)
  }

  ghost predicate IsNearest(e: SearchResult, rows: seq<SearchResult>) {
    && (forall i :: 0 <= i < |rows| && rows[i].similarity.Some? ==> e.similarity.Some? && rows[i].similarity.value <= e.similarity.value)
    && (exists i :: 0 <= i < |rows| && rows[i].similarity == e.similarity)
  }

  /** The reads and the similarity of a result are the largest of its rows. */
  ghost predicate ShowsItsRows(e: SearchResult, rows: seq<SearchResult>) {
    && CountsMostReads(e, rows) && IsNearest(e, rows)
    && (!SomeKeywordRow(rows) ==> ShowsLastSnippet(e, rows))
  }

  ghost predicate EachShowsItsRows(merged: seq<SearchResult>, rows: seq<SearchResult>) {
    forall k :: 0 <= k < |merged| ==> ShowsItsRows(merged[k], RowsOf(rows, merged[k].memoryId))
  }

  lemma RowShowsItself(row: SearchResult, now: Instant)
    ensures ShowsItsRows(Scored(row, now), [row])
  {
    hide ScoreOf;
    var rows := [row];
    assert rows[0] == row && IsLastSnippet(rows, 0);
  }

  /** What combining does to the fields shown. */
  predicate Shows(e: SearchResult, row: SearchResult, c: SearchResult) {
    && c.accessCount == (if row.accessCount > e.accessCount then row.accessCount else e.accessCount)
    && c.similarity == Closer(e.similarity, row.similarity)
    && (!e.keywordMatched && !row.keywordMatched ==>
          var shown := if row.snippet != "" then row else e;
          c.snippet == shown.snippet && c.chunkId == shown.chunkId)
  }

  lemma CombineShows(e: SearchResult, row: SearchResult, now: Instant)
    requires e.score == ScoreOf(e, now) && (!e.keywordMatched ==> e.ftsRank == 0.0) && (!row.keywordMatched ==> row.ftsRank == 0.0)
    ensures Shows(e, row, Combine(e, Scored(row, now), now))
  {
    CombinedFields(e, row, now);
    UnmatchedScoresNothing(e, row, now);
    if !e.keywordMatched && !row.keywordMatched {
      SnippetOfUnmatched(e, row, now);
    }
    hide Combine, ScoreOf, Scored;
  }

  lemma ShownGrows(e: SearchResult, c: SearchResult, rows: seq<SearchResult>, row: SearchResult)
    requires Shows(e, row, c) && ShowsItsRows(e, rows) && (e.keywordMatched <==> SomeKeywordRow(rows))
    ensures ShowsItsRows(c, rows + [row])
  {
    KeywordRowsGrow(rows, row);
    hide IsLastSnippet, SomeKeywordRow, CountsMostReads, IsNearest, ShowsLastSnippet;
    MostReadsGrow(e, c, rows, row);
    NearestGrows(e, c, rows, row);
    if !SomeKeywordRow(rows + [row]) {
      LastSnippetGrows(e, c, rows, row);
    }
  }

  lemma UnmatchedScoresNothing(e: SearchResult, row: SearchResult, now: Instant)
    requires e.score == ScoreOf(e, now) && (!e.keywordMatched ==> e.ftsRank == 0.0) && (!row.keywordMatched ==> row.ftsRank == 0.0)
    ensures !row.keywordMatched ==> ScoreOf(row, now).keyword <= e.score.keyword
  {
    KeywordScoreRange(e.ftsRank);
  }

  lemma SnippetOfUnmatched(e: SearchResult, row: SearchResult, now: Instant)
    requires !e.keywordMatched && ScoreOf(row, now).keyword <= e.score.keyword
    ensures
      var c := Combine(e, Scored(row, now), now);
      var shown := if row.snippet != "" then row else e;
      c.snippet == shown.snippet && c.chunkId == shown.chunkId
  {
    hide ScoreOf;
  }

  lemma MostReadsGrow(e: SearchResult, c: SearchResult, rows: seq<SearchResult>, row: SearchResult)
    requires CountsMostReads(e, rows) && c.accessCount == if row.accessCount > e.accessCount then row.accessCount else e.accessCount
    ensures CountsMostReads(c, rows + [row])
  {
    var all := rows + [row];
    assert all[|rows|] == row;
    var i :| 0 <= i < |rows| && rows[i].accessCount == e.accessCount;
    assert all[i] == rows[i];
  }

  lemma NearestGrows(e: SearchResult, c: SearchResult, rows: seq<SearchResult>, row: SearchResult)
    requires IsNearest(e, rows) && c.similarity == Closer(e.similarity, row.similarity)
    ensures IsNearest(c, rows + [row])
  {
    var all := rows + [row];
    assert all[|rows|] == row;
    var i :| 0 <= i < |rows| && rows[i].similarity == e.similarity;
    assert all[i] == rows[i];
  }

  lemma LastSnippetGrows(e: SearchResult, c: SearchResult, rows: seq<SearchResult>, row: SearchResult)
    requires ShowsLastSnippet(e, rows)
    requires
      var shown := if row.snippet != "" then row else e;
      c.snippet == shown.snippet && c.chunkId == shown.chunkId
    ensures ShowsLastSnippet(c, rows + [row])
  {
    var all := rows + [row];
    assert all[|rows|] == row;
    if row.snippet != "" {
      assert IsLastSnippet(all, |rows|);
    } else {
      var i :| 0 <= i < |rows| && IsLastSnippet(rows, i) && rows[i].chunkId == e.chunkId && rows[i].snippet == e.snippet;
      assert all[i] == rows[i] && IsLastSnippet(all, i);
    }
  }

  /** Each merged result shows its rows, besides scoring them as Search.MergeIsJoin says. */
  lemma {:induction false} MergeShowsItsRows(rows: seq<SearchResult>, now: Instant)
    requires Snapshot(rows)
    ensures EachShowsItsRows(MergeAll(rows, now), rows)
  {
    hide *;
    if rows != [] {
      var n := |rows| - 1;
      PrefixIsASnapshot(rows);
      MergeShowsItsRows(rows[..n], now);
      MergeIsJoin(rows[..n], now);
      OneMoreShown(rows, now);
    } else {
      NothingMerged(now);
    }
  }

  lemma NothingMerged(now: Instant)
    ensures EachShowsItsRows(MergeAll([], now), [])
  {
  }

  lemma PrefixIsASnapshot(rows: seq<SearchResult>)
    requires Snapshot(rows) && rows != []
    ensures Snapshot(rows[..|rows| - 1])
    ensures !rows[|rows| - 1].keywordMatched ==> rows[|rows| - 1].ftsRank == 0.0
  {
  }

  lemma OneMoreShown(rows: seq<SearchResult>, now: Instant)
    requires rows != []
    requires !rows[|rows| - 1].keywordMatched ==> rows[|rows| - 1].ftsRank == 0.0
    requires
      var before := MergeAll(rows[..|rows| - 1], now);
      EachIsJoin(before, rows[..|rows| - 1], now) && EachShowsItsRows(before, rows[..|rows| - 1])
    ensures EachShowsItsRows(MergeAll(rows, now), rows)
  {
    var n := |rows| - 1;
    var row := rows[n];
    var before := MergeAll(rows[..n], now);
    var i := IndexOf(before, row.memoryId);
    assert MergeAll(rows, now) == Absorb(before, row, now);
    hide ShowsItsRows, Combine, Scored, IsJoin, ScoreOf, RowsOf, MergeAll;
    if i < |before| {
      assert ShowsItsRows(before[i], RowsOf(rows[..n], row.memoryId));
      ShownAgain(before[i], RowsOf(rows[..n], row.memoryId), row, now);
      CombineKeepsId(before[i], Scored(row, now), now);
      hide EachShowsItsRows, EachIsJoin;
      ReplacedShow(before, rows, i, Combine(before[i], Scored(row, now), now));
    } else {
      NoneYet(before, rows[..n], row.memoryId, now);
      RowShowsItself(row, now);
      ScoredKeepsId(row, now);
      hide EachShowsItsRows, EachIsJoin;
      AddedShow(before, rows, Scored(row, now));
    }
  }

  lemma ReplacedShow(before: seq<SearchResult>, rows: seq<SearchResult>, i: nat, c: SearchResult)
    requires rows != [] && EachShowsItsRows(before, rows[..|rows| - 1]) && DistinctIds(before) && i < |before|
    requires before[i].memoryId == c.memoryId == rows[|rows| - 1].memoryId
    requires ShowsItsRows(c, RowsOf(rows[..|rows| - 1], c.memoryId) + [rows[|rows| - 1]])
    ensures EachShowsItsRows(before[i := c], rows)
  {
    hide ShowsItsRows, RowsOf;
    var after := before[i := c];
    forall k | 0 <= k < |after|
      ensures ShowsItsRows(after[k], RowsOf(rows, after[k].memoryId))
    {
      RowsOfLast(rows, after[k].memoryId);
    }
  }

  lemma AddedShow(before: seq<SearchResult>, rows: seq<SearchResult>, c: SearchResult)
    requires rows != [] && EachShowsItsRows(before, rows[..|rows| - 1]) && c.memoryId == rows[|rows| - 1].memoryId
    requires forall k :: 0 <= k < |before| ==> before[k].memoryId != c.memoryId
    requires RowsOf(rows[..|rows| - 1], c.memoryId) == [] && ShowsItsRows(c, [rows[|rows| - 1]])
    ensures EachShowsItsRows(before + [c], rows)
  {
    hide ShowsItsRows, RowsOf;
    var after := before + [c];
    forall k | 0 <= k < |after|
      ensures ShowsItsRows(after[k], RowsOf(rows, after[k].memoryId))
    {
      RowsOfLast(rows, after[k].memoryId);
      assert [] + [rows[|rows| - 1]] == [rows[|rows| - 1]];
    }
  }

  lemma RowsOfLast(rows: seq<SearchResult>, id: string)
    requires rows != []
    ensures
      var n := |rows| - 1;
      RowsOf(rows, id) == if rows[n].memoryId == id then RowsOf(rows[..n], id) + [rows[n]] else RowsOf(rows[..n], id)
  {
  }

  lemma ShownAgain(e: SearchResult, rows: seq<SearchResult>, row: SearchResult, now: Instant)
    requires IsJoin(e, rows, now) && ShowsItsRows(e, rows) && (!row.keywordMatched ==> row.ftsRank == 0.0)
    ensures ShowsItsRows(Combine(e, Scored(row, now), now), rows + [row])
  {
    CombineShows(e, row, now);
    hide Shows, ShowsItsRows, Combine, IsMaximum, ShowsBestKeywordRow, NoSimilarity, SomeKeywordRow, ScoreOf;
    ShownGrows(e, Combine(e, Scored(row, now), now), rows, row);
  }

  /** A memory without a result has no row. */
  lemma NoneYet(results: seq<SearchResult>, rows: seq<SearchResult>, id: string, now: Instant)
    requires EachIsJoin(results, rows, now) && IndexOf(results, id) == |results|
    ensures RowsOf(rows, id) == []
  {
    hide IsJoin, RowsOf;
    RowsOfAreRows(rows, id);
    forall i | 0 <= i < |rows|
      ensures rows[i].memoryId != id
    {
      assert IndexOf(results, rows[i].memoryId) < |results|;
    }
  }

  /** How many candidates the two queries are asked for: as many as results at the shallow depth, three
      times as many by default and eight times at the deep one, but never more than 500. */
  lemma CandidatesByDepth(depth: Depth, limit: int)
    ensures
      var results := if limit > 0 then limit else 10;
      var times := match depth case Shallow => 1 case Default => 3 case Standard => 3 case Deep => 8;
      var wanted := CandidateLimit(depth, limit);
      wanted <= 500 && wanted <= times * results && (wanted < times * results ==> wanted == 500)
  {
  }
}
