/** Merging keyword and vector candidates by memory, and ranking the result. The rows of the FTS
    query and of the vector query are inputs, in the order SQLite returned them. */
module Search {
  import opened Prelude
  import opened Schema
  import opened Ranking

  datatype SearchResult = SearchResult(item: Item, memoryId: string, chunkId: string, snippet: string,
                                       ftsRank: real, keywordMatched: bool, accessCount: int,
                                       similarity: Option<real>, score: Score)

  function ScoreOf(r: SearchResult, now: Instant): Score {
    ScoreCandidate(Candidate(r.ftsRank, r.keywordMatched, r.similarity, r.item, r.accessCount, now))
  }

  function Scored(r: SearchResult, now: Instant): SearchResult { r.(score := ScoreOf(r, now)) }

  function Combine(left: SearchResult, right: SearchResult, now: Instant): SearchResult {
    var c1 := if right.score.keyword > left.score.keyword
              then left.(chunkId := right.chunkId, snippet := right.snippet, ftsRank := right.ftsRank,
                         keywordMatched := right.keywordMatched)
              else left;
    var c2 := if !c1.keywordMatched && right.snippet != "" then c1.(chunkId := right.chunkId, snippet := right.snippet) else c1;
    var c3 := if right.similarity.Some? && (c2.similarity.None? || right.similarity.value > c2.similarity.value)
              then c2.(similarity := right.similarity) else c2;
    var c4 := if right.accessCount > c3.accessCount then c3.(accessCount := right.accessCount) else c3;
    Scored(c4, now)
  }

  // ----- Merging -----

  function IndexOf(results: seq<SearchResult>, id: string): (i: nat)
    ensures i <= |results|
    ensures i < |results| ==> results[i].memoryId == id
    ensures forall j :: 0 <= j < i ==> results[j].memoryId != id
  {
    if results == [] then 0
    else
      var n := |results| - 1;
      var i := IndexOf(results[..n], id);
      if i < n then i else if results[n].memoryId == id then n else |results|
  }

  /** One row joins the results gathered so far. */
  function Absorb(results: seq<SearchResult>, row: SearchResult, now: Instant): seq<SearchResult> {
    var i := IndexOf(results, row.memoryId);
    if i < |results| then results[i := Combine(results[i], Scored(row, now), now)] else results + [Scored(row, now)]
  }

  function MergeAll(rows: seq<SearchResult>, now: Instant): seq<SearchResult> {
    if rows == [] then [] else Absorb(MergeAll(rows[..|rows| - 1], now), rows[|rows| - 1], now)
  }

  predicate DistinctIds(results: seq<SearchResult>) {
    forall i, j :: 0 <= i < j < |results| ==> results[i].memoryId != results[j].memoryId
  }

  /** The result slice and its index by memory id, both updated in place. */
  class Merger {
    var results: seq<SearchResult>
    var byMemoryId: map<string, nat>

    ghost predicate Valid()
      reads this
    {
      && DistinctIds(results)
      && (forall id :: id in byMemoryId ==> byMemoryId[id] < |results| && results[byMemoryId[id]].memoryId == id)
      && (forall i :: 0 <= i < |results| ==> results[i].memoryId in byMemoryId)
    }

    constructor ()
      ensures Valid() && results == []
    {
      results, byMemoryId := [], map[];
    }

    method Merge(row: SearchResult, now: Instant)
      requires Valid()
      modifies this
      ensures Valid() && results == Absorb(old(results), row, now)
    {
      var result := Scored(row, now);
      ScoredKeepsId(row, now);
      hide Scored, Combine;
      if result.memoryId in byMemoryId {
        var existing := byMemoryId[result.memoryId];
        CombineKeepsId(results[existing], result, now);
        assert IndexOf(results, row.memoryId) == existing;
        results := results[existing := Combine(results[existing], result, now)];
        return;
      }
      assert IndexOf(results, row.memoryId) == |results|;
      byMemoryId := byMemoryId[result.memoryId := |results|];
      results := results + [result];
    }

    method MergeRows(rows: seq<SearchResult>, now: Instant)
      requires Valid()
      modifies this
      ensures Valid() && results == AbsorbAll(old(results), rows, now)
    {
      for k := 0 to |rows|
        invariant Valid() && results == AbsorbAll(old(results), rows[..k], now)
      {
        assert rows[..k + 1][..k] == rows[..k];
        Merge(rows[k], now);
      }
      assert rows[..|rows|] == rows;
    }
  }

  lemma CombineKeepsId(left: SearchResult, right: SearchResult, now: Instant)
    ensures Combine(left, right, now).memoryId == left.memoryId
  {
    hide ScoreOf;
  }

  lemma ScoredKeepsId(row: SearchResult, now: Instant)
    ensures Scored(row, now).memoryId == row.memoryId
  {
    hide ScoreOf;
  }

  function AbsorbAll(results: seq<SearchResult>, rows: seq<SearchResult>, now: Instant): seq<SearchResult> {
    if rows == [] then results else Absorb(AbsorbAll(results, rows[..|rows| - 1], now), rows[|rows| - 1], now)
  }

  lemma {:induction false} AbsorbAllIsMergeAll(before: seq<SearchResult>, rows: seq<SearchResult>, now: Instant)
    ensures AbsorbAll(MergeAll(before, now), rows, now) == MergeAll(before + rows, now)
  {
    hide Absorb;
    if rows == [] {
      assert before + rows == before;
    } else {
      var n := |rows| - 1;
      var all := before + rows;
      assert all[..|all| - 1] == before + rows[..n];
      AbsorbAllIsMergeAll(before, rows[..n], now);
    }
  }

  // ----- The merge is a join -----

  /** Rows of one snapshot: one item per memory, and a rank only on keyword rows. */
  ghost predicate Snapshot(rows: seq<SearchResult>) {
    && (forall i, j :: 0 <= i < |rows| && 0 <= j < |rows| && rows[i].memoryId == rows[j].memoryId ==> rows[i].item == rows[j].item)
    && (forall i :: 0 <= i < |rows| && !rows[i].keywordMatched ==> rows[i].ftsRank == 0.0)
  }

  function RowsOf(rows: seq<SearchResult>, id: string): seq<SearchResult> {
    if rows == [] then []
    else
      var rest := RowsOf(rows[..|rows| - 1], id);
      if rows[|rows| - 1].memoryId == id then rest + [rows[|rows| - 1]] else rest
  }

  /** The three signals that differ between the rows of one memory. */
  datatype Signal = KeywordSignal | VectorSignal | AccessSignal

  function Signals(s: Score, k: Signal): real {
    match k
    case KeywordSignal => s.keyword
    case VectorSignal => s.vector
    case AccessSignal => s.access
  }

  ghost predicate IsMaximum(e: SearchResult, rows: seq<SearchResult>, k: Signal, now: Instant) {
    && (forall i :: 0 <= i < |rows| ==> Signals(ScoreOf(rows[i], now), k) <= Signals(e.score, k))
    && (exists i :: 0 <= i < |rows| && Signals(ScoreOf(rows[i], now), k) == Signals(e.score, k))
  }

  ghost predicate ShowsBestKeywordRow(e: SearchResult, rows: seq<SearchResult>, now: Instant) {
    exists i :: 0 <= i < |rows| && rows[i].keywordMatched && rows[i].chunkId == e.chunkId && rows[i].snippet == e.snippet
                && ScoreOf(rows[i], now).keyword == e.score.keyword
  }

  predicate SomeKeywordRow(rows: seq<SearchResult>) { exists i :: 0 <= i < |rows| && rows[i].keywordMatched }

  predicate NoSimilarity(rows: seq<SearchResult>) { forall i :: 0 <= i < |rows| ==> rows[i].similarity.None? }

  /** What a merged result says about the rows of its memory. */
  ghost predicate IsJoin(e: SearchResult, rows: seq<SearchResult>, now: Instant) {
    && rows != []
    && (forall i :: 0 <= i < |rows| ==> rows[i].memoryId == e.memoryId && rows[i].item == e.item)
    && e.score == ScoreOf(e, now)
    && IsMaximum(e, rows, KeywordSignal, now)
    && IsMaximum(e, rows, VectorSignal, now)
    && IsMaximum(e, rows, AccessSignal, now)
    && (e.keywordMatched <==> SomeKeywordRow(rows))
    && (e.keywordMatched ==> ShowsBestKeywordRow(e, rows, now))
    && (!e.keywordMatched ==> e.ftsRank == 0.0)
    && (e.similarity.None? <==> NoSimilarity(rows))
  }

  lemma SingleRowIsItsOwnJoin(row: SearchResult, now: Instant)
    requires !row.keywordMatched ==> row.ftsRank == 0.0
    ensures IsJoin(Scored(row, now), [row], now)
  {
    var rows := [row];
    assert rows[0] == row;
    assert row.keywordMatched ==> rows[0].keywordMatched;
  }

  /** `c` is `e` with `row` taken in: each signal is the larger of the two, and the chunk and snippet
      shown are those of the better keyword row. */
  predicate TakesIn(e: SearchResult, row: SearchResult, c: SearchResult, now: Instant) {
    var r := ScoreOf(row, now);
    && c.item == e.item && c.memoryId == e.memoryId && c.score == ScoreOf(c, now)
    && (forall k :: Signals(c.score, k) == if Signals(r, k) > Signals(e.score, k) then Signals(r, k) else Signals(e.score, k))
    && (c.keywordMatched <==> e.keywordMatched || row.keywordMatched)
    && (!c.keywordMatched ==> c.ftsRank == 0.0)
    && (c.similarity.None? <==> e.similarity.None? && row.similarity.None?)
    && (e.keywordMatched && r.keyword <= e.score.keyword ==> c.chunkId == e.chunkId && c.snippet == e.snippet)
    && (r.keyword > e.score.keyword ==> row.keywordMatched && c.chunkId == row.chunkId && c.snippet == row.snippet)
  }

  /** How one combination moves the signals. */
  lemma CombineTakesMaxima(e: SearchResult, row: SearchResult, now: Instant)
    requires e.score == ScoreOf(e, now) && e.item == row.item && e.memoryId == row.memoryId
    requires !e.keywordMatched ==> e.ftsRank == 0.0
    requires !row.keywordMatched ==> row.ftsRank == 0.0
    ensures TakesIn(e, row, Combine(e, Scored(row, now), now), now)
  {
    var c := Combine(e, Scored(row, now), now);
    hide ScoreOf, Scored;
    CombinedFields(e, row, now);
    hide Combine;
    SignalsOf(e, now);
    SignalsOf(row, now);
    SignalsOf(c, now);
    KeywordScoreRange(e.ftsRank);
    KeywordScoreRange(row.ftsRank);
    BetterSimilarity(e.similarity, row.similarity);
    BetterAccess(e.accessCount, row.accessCount);
    hide KeywordScore, AccessScore;
  }

  /** The three signals of a row, each from its own fields. */
  lemma SignalsOf(r: SearchResult, now: Instant)
    ensures ScoreOf(r, now).keyword == if r.keywordMatched || r.ftsRank != 0.0 then KeywordScore(r.ftsRank) else 0.0
    ensures ScoreOf(r, now).vector == VectorSignalOf(r.similarity)
    ensures ScoreOf(r, now).access == AccessScore(r.accessCount)
  {
  }

  function VectorSignalOf(similarity: Option<real>): real { if similarity.Some? then VectorScore(similarity.value) else 0.0 }

  function Closer(a: Option<real>, b: Option<real>): Option<real> {
    if b.Some? && (a.None? || b.value > a.value) then b else a
  }

  lemma BetterSimilarity(a: Option<real>, b: Option<real>)
    ensures
      var (x, y) := (VectorSignalOf(a), VectorSignalOf(b));
      VectorSignalOf(Closer(a, b)) == if y > x then y else x
  {
    if a.Some? && b.Some? {
      if b.value > a.value {
        VectorScoreIsMonotone(a.value, b.value);
      } else {
        VectorScoreIsMonotone(b.value, a.value);
      }
    }
  }

  lemma BetterAccess(a: int, b: int)
    ensures
      var (x, y) := (AccessScore(a), AccessScore(b));
      AccessScore(if b > a then b else a) == if y > x then y else x
  {
    if b > a {
      AccessScoreIsMonotone(a, b);
    } else {
      AccessScoreIsMonotone(b, a);
    }
  }

  lemma CombinedFields(e: SearchResult, row: SearchResult, now: Instant)
    ensures
      var (c, better) := (Combine(e, Scored(row, now), now), ScoreOf(row, now).keyword > e.score.keyword);
      && c.item == e.item && c.memoryId == e.memoryId && c.score == ScoreOf(c, now)
      && c.similarity == Closer(e.similarity, row.similarity)
      && c.accessCount == (if row.accessCount > e.accessCount then row.accessCount else e.accessCount)
      && c.ftsRank == (if better then row.ftsRank else e.ftsRank)
      && c.keywordMatched == (if better then row.keywordMatched else e.keywordMatched)
      && (better ==> c.snippet == row.snippet && c.chunkId == row.chunkId)
      && (!better && e.keywordMatched ==> c.snippet == e.snippet && c.chunkId == e.chunkId)
  {
    hide ScoreCandidate;
  }

  lemma MaximumGrows(e: SearchResult, c: SearchResult, rows: seq<SearchResult>, row: SearchResult, k: Signal, now: Instant)
    requires IsMaximum(e, rows, k, now)
    requires
      var (old', new') := (Signals(e.score, k), Signals(ScoreOf(row, now), k));
      Signals(c.score, k) == if new' > old' then new' else old'
    ensures IsMaximum(c, rows + [row], k, now)
  {
    hide ScoreOf;
    var all := rows + [row];
    assert all[|rows|] == row;
    var i :| 0 <= i < |rows| && Signals(ScoreOf(rows[i], now), k) == Signals(e.score, k);
    assert all[i] == rows[i];
    forall j | 0 <= j < |all|
      ensures Signals(ScoreOf(all[j], now), k) <= Signals(c.score, k)
    {
      if j < |rows| { assert all[j] == rows[j]; }
    }
  }

  lemma JoinGrows(e: SearchResult, rows: seq<SearchResult>, row: SearchResult, now: Instant)
    requires IsJoin(e, rows, now) && row.memoryId == e.memoryId && row.item == e.item
    requires !row.keywordMatched ==> row.ftsRank == 0.0
    ensures IsJoin(Combine(e, Scored(row, now), now), rows + [row], now)
  {
    CombineTakesMaxima(e, row, now);
    var c := Combine(e, Scored(row, now), now);
    hide *;
    SignalsGrow(e, c, rows, row, now);
    BestRowGrows(e, c, rows, row, now);
    KeywordRowsGrow(rows, row);
    SimilaritiesGrow(rows, row);
    PartsMakeTheJoin(e, c, rows, row, now);
  }

  lemma SignalsGrow(e: SearchResult, c: SearchResult, rows: seq<SearchResult>, row: SearchResult, now: Instant)
    requires IsJoin(e, rows, now) && TakesIn(e, row, c, now)
    ensures IsMaximum(c, rows + [row], KeywordSignal, now)
    ensures IsMaximum(c, rows + [row], VectorSignal, now)
    ensures IsMaximum(c, rows + [row], AccessSignal, now)
  {
    hide IsMaximum, ScoreOf, ShowsBestKeywordRow, Signals;
    MaximumGrows(e, c, rows, row, KeywordSignal, now);
    MaximumGrows(e, c, rows, row, VectorSignal, now);
    MaximumGrows(e, c, rows, row, AccessSignal, now);
  }

  lemma PartsMakeTheJoin(e: SearchResult, c: SearchResult, rows: seq<SearchResult>, row: SearchResult, now: Instant)
    requires IsJoin(e, rows, now) && TakesIn(e, row, c, now) && row.memoryId == e.memoryId && row.item == e.item
    requires IsMaximum(c, rows + [row], KeywordSignal, now) && IsMaximum(c, rows + [row], VectorSignal, now)
    requires IsMaximum(c, rows + [row], AccessSignal, now)
    requires c.keywordMatched ==> ShowsBestKeywordRow(c, rows + [row], now)
    requires SomeKeywordRow(rows + [row]) <==> row.keywordMatched || SomeKeywordRow(rows)
    requires NoSimilarity(rows + [row]) <==> row.similarity.None? && NoSimilarity(rows)
    ensures IsJoin(c, rows + [row], now)
  {
    hide IsMaximum, ScoreOf, ShowsBestKeywordRow, SomeKeywordRow, NoSimilarity, Signals;
  }

  lemma KeywordRowsGrow(rows: seq<SearchResult>, row: SearchResult)
    ensures SomeKeywordRow(rows + [row]) <==> row.keywordMatched || SomeKeywordRow(rows)
  {
    var all := rows + [row];
    assert all[|rows|] == row && forall i :: 0 <= i < |rows| ==> all[i] == rows[i];
  }

  lemma SimilaritiesGrow(rows: seq<SearchResult>, row: SearchResult)
    ensures NoSimilarity(rows + [row]) <==> row.similarity.None? && NoSimilarity(rows)
  {
    var all := rows + [row];
    assert all[|rows|] == row && forall i :: 0 <= i < |rows| ==> all[i] == rows[i];
  }

  lemma BestRowGrows(e: SearchResult, c: SearchResult, rows: seq<SearchResult>, row: SearchResult, now: Instant)
    requires IsJoin(e, rows, now) && TakesIn(e, row, c, now)
    ensures c.keywordMatched ==> ShowsBestKeywordRow(c, rows + [row], now)
  {
    FirstKeywordRowWins(e, row, now);
    hide ScoreOf, IsMaximum, SomeKeywordRow, NoSimilarity;
    var all := rows + [row];
    assert Signals(c.score, KeywordSignal) == c.score.keyword;
    assert all[|rows|] == row;
    if ScoreOf(row, now).keyword > e.score.keyword {
      assert all[|rows|].keywordMatched;
    } else if c.keywordMatched {
      var i :| 0 <= i < |rows| && rows[i].keywordMatched && rows[i].chunkId == e.chunkId && rows[i].snippet == e.snippet
               && ScoreOf(rows[i], now).keyword == e.score.keyword;
      assert all[i] == rows[i] && all[i].keywordMatched;
    }
  }

  /** A keyword row always beats a result that no keyword matched. */
  lemma FirstKeywordRowWins(e: SearchResult, row: SearchResult, now: Instant)
    requires e.score == ScoreOf(e, now) && (!e.keywordMatched ==> e.ftsRank == 0.0)
    ensures !e.keywordMatched && row.keywordMatched ==> ScoreOf(row, now).keyword > e.score.keyword
  {
    KeywordScoreRange(row.ftsRank);
  }

  ghost predicate EachIsJoin(results: seq<SearchResult>, rows: seq<SearchResult>, now: Instant) {
    && DistinctIds(results)
    && (forall i :: 0 <= i < |results| ==> IsJoin(results[i], RowsOf(rows, results[i].memoryId), now))
    && (forall i :: 0 <= i < |rows| ==> IndexOf(results, rows[i].memoryId) < |results|)
  }

  /** Merging is a join: each memory appears once, as the join of exactly its own rows. */
  lemma {:induction false} MergeIsJoin(rows: seq<SearchResult>, now: Instant)
    requires Snapshot(rows)
    ensures EachIsJoin(MergeAll(rows, now), rows, now)
  {
    if rows != [] {
      var n := |rows| - 1;
      MergeIsJoin(rows[..n], now);
      AbsorbKeepsJoins(MergeAll(rows[..n], now), rows, now);
    }
  }

  lemma {:induction false} RowsOfAreRows(rows: seq<SearchResult>, id: string)
    ensures forall i :: 0 <= i < |RowsOf(rows, id)| ==> RowsOf(rows, id)[i] in rows && RowsOf(rows, id)[i].memoryId == id
    ensures forall r :: r in rows && r.memoryId == id ==> r in RowsOf(rows, id)
    ensures (forall i :: 0 <= i < |rows| ==> rows[i].memoryId != id) <==> RowsOf(rows, id) == []
  {
    if rows != [] {
      var n := |rows| - 1;
      RowsOfAreRows(rows[..n], id);
      assert rows == rows[..n] + [rows[n]];
    }
  }

  lemma AbsorbKeepsJoins(results: seq<SearchResult>, rows: seq<SearchResult>, now: Instant)
    requires rows != [] && Snapshot(rows) && EachIsJoin(results, rows[..|rows| - 1], now)
    ensures EachIsJoin(Absorb(results, rows[|rows| - 1], now), rows, now)
  {
    var n := |rows| - 1;
    var row := rows[n];
    hide IsJoin, Combine, ScoreOf, RowsOf, Absorb;
    AbsorbKeepsIds(results, row, now);
    AbsorbedAreJoins(results, rows, now);
    AbsorbCoversRows(results, rows, now);
  }

  lemma AbsorbedAreJoins(results: seq<SearchResult>, rows: seq<SearchResult>, now: Instant)
    requires rows != [] && Snapshot(rows) && EachIsJoin(results, rows[..|rows| - 1], now)
    ensures
      var after := Absorb(results, rows[|rows| - 1], now);
      forall k :: 0 <= k < |after| ==> IsJoin(after[k], RowsOf(rows, after[k].memoryId), now)
  {
    hide IsJoin, Combine, ScoreOf;
    var n := |rows| - 1;
    var row := rows[n];
    var after := Absorb(results, row, now);
    var i := IndexOf(results, row.memoryId);
    RowsOfAreRows(rows[..n], row.memoryId);
    if i < |results| {
      JoinsItsRow(results[i], rows, now);
    } else {
      assert forall k :: 0 <= k < n ==> rows[..n][k] == rows[k] && rows[k].memoryId != row.memoryId;
      assert RowsOf(rows, row.memoryId) == [row];
      SingleRowIsItsOwnJoin(row, now);
    }
    AbsorbKeepsIds(results, row, now);
    forall k | 0 <= k < |after|
      ensures IsJoin(after[k], RowsOf(rows, after[k].memoryId), now)
    {
      if k != i {
        assert after[k] == results[k];
      }
    }
  }

  lemma AbsorbCoversRows(results: seq<SearchResult>, rows: seq<SearchResult>, now: Instant)
    requires rows != [] && EachIsJoin(results, rows[..|rows| - 1], now)
    ensures
      var after := Absorb(results, rows[|rows| - 1], now);
      forall k :: 0 <= k < |rows| ==> IndexOf(after, rows[k].memoryId) < |after|
  {
    hide IsJoin, Combine, ScoreOf, RowsOf;
    var n := |rows| - 1;
    var row := rows[n];
    var after := Absorb(results, row, now);
    AbsorbKeepsIds(results, row, now);
    forall k | 0 <= k < |rows|
      ensures IndexOf(after, rows[k].memoryId) < |after|
    {
      if k < n {
        assert rows[..n][k] == rows[k];
        var j := IndexOf(results, rows[k].memoryId);
        assert after[j].memoryId == rows[k].memoryId;
      } else {
        assert after[IndexOf(results, row.memoryId)].memoryId == row.memoryId;
      }
    }
  }

  lemma AbsorbKeepsIds(results: seq<SearchResult>, row: SearchResult, now: Instant)
    ensures |Absorb(results, row, now)| >= |results|
    ensures forall i :: 0 <= i < |results| ==> Absorb(results, row, now)[i].memoryId == results[i].memoryId
    ensures DistinctIds(results) ==> DistinctIds(Absorb(results, row, now))
  {
  }

  lemma JoinsItsRow(e: SearchResult, rows: seq<SearchResult>, now: Instant)
    requires rows != [] && Snapshot(rows) && e.memoryId == rows[|rows| - 1].memoryId
    requires IsJoin(e, RowsOf(rows[..|rows| - 1], e.memoryId), now)
    ensures IsJoin(Combine(e, Scored(rows[|rows| - 1], now), now), RowsOf(rows, e.memoryId), now)
  {
    hide Combine, ScoreOf;
    var n := |rows| - 1;
    var own := RowsOf(rows[..n], e.memoryId);
    RowsOfAreRows(rows[..n], e.memoryId);
    assert own[0] in rows[..n];
    JoinGrows(e, own, rows[n], now);
  }

  // ----- What a join promises -----

  lemma TotalIsTheSum(r: SearchResult, now: Instant)
    ensures
      var s := ScoreOf(r, now);
      s.total == s.keyword + s.vector + s.access + Unvarying(r.item, now)
  {
  }

  /** The part of the total that depends on the memory alone. */
  function Unvarying(item: Item, now: Instant): real {
    RecencyScore(now - LastActivity(item)) + TierScore(item.tier) + (if item.pinned then 3.0 else 0.0)
    + ImportanceScore(item.importance)
  }

  /** A joined total is never below the total of any of its rows. */
  lemma JoinDominatesItsRows(e: SearchResult, rows: seq<SearchResult>, i: nat, now: Instant)
    requires IsJoin(e, rows, now) && i < |rows|
    ensures ScoreOf(rows[i], now).total <= e.score.total
  {
    TotalIsTheSum(e, now);
    TotalIsTheSum(rows[i], now);
    hide ScoreOf, Unvarying;
    assert Signals(ScoreOf(rows[i], now), KeywordSignal) <= Signals(e.score, KeywordSignal);
    assert Signals(ScoreOf(rows[i], now), VectorSignal) <= Signals(e.score, VectorSignal);
    assert Signals(ScoreOf(rows[i], now), AccessSignal) <= Signals(e.score, AccessSignal);
  }

  /** The joined score depends on which rows there are, not on their order or number. */
  lemma JoinIgnoresRowOrder(d: SearchResult, xs: seq<SearchResult>, e: SearchResult, ys: seq<SearchResult>, now: Instant)
    requires IsJoin(d, xs, now) && IsJoin(e, ys, now)
    requires forall r :: r in xs <==> r in ys
    ensures d.score == e.score
  {
    assert xs[0] in ys;
    MaximaAgree(d, xs, e, ys, KeywordSignal, now);
    MaximaAgree(d, xs, e, ys, VectorSignal, now);
    MaximaAgree(d, xs, e, ys, AccessSignal, now);
    TotalIsTheSum(d, now);
    TotalIsTheSum(e, now);
  }

  lemma MaximaAgree(d: SearchResult, xs: seq<SearchResult>, e: SearchResult, ys: seq<SearchResult>, k: Signal, now: Instant)
    requires IsMaximum(d, xs, k, now) && IsMaximum(e, ys, k, now)
    requires forall r :: r in xs <==> r in ys
    ensures Signals(d.score, k) == Signals(e.score, k)
  {
    hide ScoreOf, Signals;
    var i :| 0 <= i < |xs| && Signals(ScoreOf(xs[i], now), k) == Signals(d.score, k);
    var j :| 0 <= j < |ys| && Signals(ScoreOf(ys[j], now), k) == Signals(e.score, k);
    assert xs[i] in ys && ys[j] in xs;
  }

  /** A vector candidate that was itself merged from `vs` stands for all of them. */
  lemma JoinOfJoins(v: SearchResult, vs: seq<SearchResult>, e: SearchResult, fs: seq<SearchResult>, k: Signal, now: Instant)
    requires IsJoin(v, vs, now) && IsJoin(e, fs + [v], now)
    ensures IsMaximum(e, fs + vs, k, now)
  {
    hide ScoreOf, Signals;
    assert IsMaximum(v, vs, k, now) && IsMaximum(e, fs + [v], k, now);
    var inner := fs + [v];
    var all := fs + vs;
    assert inner[|fs|] == v;
    assert Signals(ScoreOf(inner[|fs|], now), k) <= Signals(e.score, k);
    forall i | 0 <= i < |all|
      ensures Signals(ScoreOf(all[i], now), k) <= Signals(e.score, k)
    {
      if i < |fs| { assert all[i] == inner[i]; } else { assert all[i] == vs[i - |fs|]; }
    }
    var i :| 0 <= i < |inner| && Signals(ScoreOf(inner[i], now), k) == Signals(e.score, k);
    if i < |fs| {
      assert all[i] == inner[i];
    } else {
      var j :| 0 <= j < |vs| && Signals(ScoreOf(vs[j], now), k) == Signals(v.score, k);
      assert all[|fs| + j] == vs[j];
    }
  }

  /** Reordering the rows, or repeating some, changes no memory's score. */
  lemma MergeIgnoresRowOrder(xs: seq<SearchResult>, ys: seq<SearchResult>, i: nat, j: nat, now: Instant)
    requires Snapshot(xs) && Snapshot(ys) && forall r :: r in xs <==> r in ys
    requires i < |MergeAll(xs, now)| && j < |MergeAll(ys, now)|
    requires MergeAll(xs, now)[i].memoryId == MergeAll(ys, now)[j].memoryId
    ensures MergeAll(xs, now)[i].score == MergeAll(ys, now)[j].score
  {
    var (d, e) := (MergeAll(xs, now)[i], MergeAll(ys, now)[j]);
    MergeIsJoin(xs, now);
    MergeIsJoin(ys, now);
    hide IsJoin, MergeAll, Snapshot;
    RowsOfAreRows(xs, d.memoryId);
    RowsOfAreRows(ys, d.memoryId);
    JoinIgnoresRowOrder(d, RowsOf(xs, d.memoryId), e, RowsOf(ys, d.memoryId), now);
  }

  // ----- Ranking -----

  predicate RanksBefore(x: SearchResult, y: SearchResult) {
    if x.score.total == y.score.total then x.item.updatedAt > y.item.updatedAt else x.score.total > y.score.total
  }

  function SimilarityOr(r: SearchResult): real { if r.similarity.Some? then r.similarity.value else -1.0 }

  predicate CloserThan(x: SearchResult, y: SearchResult) {
    if SimilarityOr(x) == SimilarityOr(y) then x.item.updatedAt > y.item.updatedAt else SimilarityOr(x) > SimilarityOr(y)
  }

  /** A strict order whose ties are transitive. */
  ghost predicate WeakOrder(before: (SearchResult, SearchResult) -> bool) {
    && (forall x, y :: before(x, y) ==> !before(y, x))
    && (forall x, y, z :: !before(y, x) && !before(z, y) ==> !before(z, x))
  }

  lemma RankingOrders()
    ensures WeakOrder(RanksBefore) && WeakOrder(CloserThan)
  {
  }

  function Insert(before: (SearchResult, SearchResult) -> bool, sorted: seq<SearchResult>, x: SearchResult): seq<SearchResult> {
    if sorted == [] then [x]
    else
      var n := |sorted| - 1;
      if before(x, sorted[n]) then Insert(before, sorted[..n], x) + [sorted[n]] else sorted + [x]
  }

  /** sort.SliceStable: an element never passes one it ties with. */
  function StableSort(before: (SearchResult, SearchResult) -> bool, xs: seq<SearchResult>): seq<SearchResult> {
    if xs == [] then [] else Insert(before, StableSort(before, xs[..|xs| - 1]), xs[|xs| - 1])
  }

  ghost predicate Sorted(before: (SearchResult, SearchResult) -> bool, xs: seq<SearchResult>) {
    forall i, j :: 0 <= i < j < |xs| ==> !before(xs[j], xs[i])
  }

  lemma {:induction false} InsertPermutes(before: (SearchResult, SearchResult) -> bool, sorted: seq<SearchResult>, x: SearchResult)
    ensures multiset(Insert(before, sorted, x)) == multiset(sorted) + multiset{x}
  {
    if sorted != [] {
      var n := |sorted| - 1;
      assert sorted == sorted[..n] + [sorted[n]];
      if before(x, sorted[n]) {
        InsertPermutes(before, sorted[..n], x);
      }
    }
  }

  lemma {:induction false} InsertSorts(before: (SearchResult, SearchResult) -> bool, sorted: seq<SearchResult>, x: SearchResult)
    requires WeakOrder(before) && Sorted(before, sorted)
    ensures Sorted(before, Insert(before, sorted, x))
  {
    if sorted != [] {
      var n := |sorted| - 1;
      if before(x, sorted[n]) {
        InsertSorts(before, sorted[..n], x);
        InsertPermutes(before, sorted[..n], x);
        var rest := Insert(before, sorted[..n], x);
        forall i | 0 <= i < |rest|
          ensures !before(sorted[n], rest[i])
        {
          assert rest[i] in multiset(rest);
          if rest[i] != x { assert rest[i] in sorted[..n]; }
        }
      } else {
        forall i | 0 <= i < |sorted|
          ensures !before(x, sorted[i])
        {
          assert i < n ==> !before(sorted[n], sorted[i]);
        }
      }
    }
  }

  lemma {:induction false} StableSortSorts(before: (SearchResult, SearchResult) -> bool, xs: seq<SearchResult>)
    requires WeakOrder(before)
    ensures Sorted(before, StableSort(before, xs))
    ensures multiset(StableSort(before, xs)) == multiset(xs)
    ensures |StableSort(before, xs)| == |xs|
  {
    if xs != [] {
      var n := |xs| - 1;
      StableSortSorts(before, xs[..n]);
      InsertSorts(before, StableSort(before, xs[..n]), xs[n]);
      InsertPermutes(before, StableSort(before, xs[..n]), xs[n]);
      assert xs == xs[..n] + [xs[n]];
      assert |multiset(StableSort(before, xs))| == |multiset(xs)|;
    }
  }

  function Ties(before: (SearchResult, SearchResult) -> bool, xs: seq<SearchResult>, t: SearchResult): seq<SearchResult> {
    if xs == [] then []
    else
      var x := xs[|xs| - 1];
      Ties(before, xs[..|xs| - 1], t) + if !before(x, t) && !before(t, x) then [x] else []
  }

  lemma TiesAppend(before: (SearchResult, SearchResult) -> bool, xs: seq<SearchResult>, x: SearchResult, t: SearchResult)
    ensures Ties(before, xs + [x], t) == Ties(before, xs, t) + if !before(x, t) && !before(t, x) then [x] else []
  {
    assert (xs + [x])[..|xs|] == xs;
  }

  lemma {:induction false} InsertKeepsTies(before: (SearchResult, SearchResult) -> bool, sorted: seq<SearchResult>, x: SearchResult, t: SearchResult)
    requires WeakOrder(before)
    ensures Ties(before, Insert(before, sorted, x), t) == Ties(before, sorted + [x], t)
  {
    TiesAppend(before, sorted, x, t);
    if sorted != [] {
      var n := |sorted| - 1;
      if before(x, sorted[n]) {
        InsertKeepsTies(before, sorted[..n], x, t);
        TiesAppend(before, sorted[..n], x, t);
        TiesAppend(before, Insert(before, sorted[..n], x), sorted[n], t);
      }
    }
  }

  /** Sorting is stable: those that tie with a given result come out in the order they went in. */
  lemma {:induction false} StableSortKeepsTies(before: (SearchResult, SearchResult) -> bool, xs: seq<SearchResult>, t: SearchResult)
    requires WeakOrder(before)
    ensures Ties(before, StableSort(before, xs), t) == Ties(before, xs, t)
  {
    if xs != [] {
      var n := |xs| - 1;
      hide WeakOrder, Insert;
      StableSortKeepsTies(before, xs[..n], t);
      InsertKeepsTies(before, StableSort(before, xs[..n]), xs[n], t);
      TiesAppend(before, StableSort(before, xs[..n]), xs[n], t);
      TiesAppend(before, xs[..n], xs[n], t);
      assert xs == xs[..n] + [xs[n]];
    }
  }

  function Take(xs: seq<SearchResult>, limit: nat): seq<SearchResult> {
    if |xs| > limit then xs[..limit] else xs
  }

  /** The vector candidates handed to the final merge, for either backend. */
  function VectorCandidates(backend: Backend, rows: seq<SearchResult>, candidateLimit: nat, now: Instant): seq<SearchResult> {
    var merged := MergeAll(rows, now);
    Take(if backend == SqliteVec then merged else StableSort(CloserThan, merged), candidateLimit)
  }

  function SearchOutcome(backend: Backend, fts: seq<SearchResult>, vectors: Option<seq<SearchResult>>,
                         candidateLimit: nat, limit: nat, now: Instant): seq<SearchResult> {
    Take(StableSort(RanksBefore, MergeAll(fts + Kept(backend, vectors, candidateLimit, now), now)), limit)
  }

  method SearchVectorCandidates(backend: Backend, rows: seq<SearchResult>, candidateLimit: nat, now: Instant)
    returns (results: seq<SearchResult>)
    ensures results == VectorCandidates(backend, rows, candidateLimit, now)
  {
    var merger := new Merger();
    merger.MergeRows(rows, now);
    AbsorbAllIsMergeAll([], rows, now);
    assert [] + rows == rows;
    results := merger.results;
    if backend != SqliteVec {
      results := StableSort(CloserThan, results);
    }
    if |results| > candidateLimit {
      results := results[..candidateLimit];
    }
  }

  /** `fts` and `vectors` are what SQLite answered; None when vector search is off or failed. */
  method SearchMemories(backend: Backend, fts: seq<SearchResult>, vectors: Option<seq<SearchResult>>,
                        depth: Depth, limit: int, now: Instant) returns (r: Result<seq<SearchResult>, Error>)
    ensures limit <= 0 ==> r == Err(Invalid)
    ensures limit > 0 ==> CandidateLimit(depth, limit) >= 0
                          && r == Ok(SearchOutcome(backend, fts, vectors, CandidateLimit(depth, limit), limit, now))
  {
    if limit <= 0 {
      return Err(Invalid);
    }
    var merger := new Merger();
    merger.MergeRows(fts, now);
    AbsorbAllIsMergeAll([], fts, now);
    assert [] + fts == fts;
    if vectors.Some? {
      var kept := SearchVectorCandidates(backend, vectors.value, CandidateLimit(depth, limit), now);
      AbsorbAllIsMergeAll(fts, kept, now);
      merger.MergeRows(kept, now);
    } else {
      assert fts + [] == fts;
    }
    var results := StableSort(RanksBefore, merger.results);
    if |results| > limit {
      results := results[..limit];
    }
    return Ok(results);
  }

  function Kept(backend: Backend, vectors: Option<seq<SearchResult>>, candidateLimit: nat, now: Instant): seq<SearchResult> {
    if vectors.Some? then VectorCandidates(backend, vectors.value, candidateLimit, now) else []
  }

  /** `answer` is the first `limit` of `merged` in the given order, and nothing left out comes before it. */
  ghost predicate IsTopOf(before: (SearchResult, SearchResult) -> bool, answer: seq<SearchResult>, merged: seq<SearchResult>, limit: nat) {
    && Sorted(before, answer)
    && |answer| == (if |merged| > limit then limit else |merged|)
    && multiset(answer) <= multiset(merged)
    && (forall x, i :: x in multiset(merged) - multiset(answer) && 0 <= i < |answer| ==> !before(x, answer[i]))
  }

  lemma SortedPrefixIsTop(before: (SearchResult, SearchResult) -> bool, merged: seq<SearchResult>, limit: nat)
    requires WeakOrder(before)
    ensures IsTopOf(before, Take(StableSort(before, merged), limit), merged, limit)
  {
    hide StableSort, WeakOrder, Sorted;
    StableSortSorts(before, merged);
    var sorted := StableSort(before, merged);
    var answer := Take(sorted, limit);
    assert answer == sorted[..|answer|];
    PrefixAndRest(sorted, |answer|);
    PrefixRanksFirst(before, sorted, |answer|);
    TopByIndex(before, answer, merged, sorted[|answer|..], limit);
  }

  lemma TopByIndex(before: (SearchResult, SearchResult) -> bool, answer: seq<SearchResult>, merged: seq<SearchResult>,
                   rest: seq<SearchResult>, limit: nat)
    requires Sorted(before, answer) && |answer| == (if |merged| > limit then limit else |merged|)
    requires multiset(merged) == multiset(answer) + multiset(rest)
    requires forall x, i :: x in multiset(rest) && 0 <= i < |answer| ==> !before(x, answer[i])
    ensures IsTopOf(before, answer, merged, limit)
  {
    assert multiset(merged) - multiset(answer) == multiset(rest);
  }

  lemma PrefixAndRest(xs: seq<SearchResult>, k: nat)
    requires k <= |xs|
    ensures multiset(xs) == multiset(xs[..k]) + multiset(xs[k..])
    ensures multiset(xs) - multiset(xs[..k]) == multiset(xs[k..])
  {
    assert xs == xs[..k] + xs[k..];
  }

  lemma PrefixRanksFirst(before: (SearchResult, SearchResult) -> bool, sorted: seq<SearchResult>, k: nat)
    requires Sorted(before, sorted) && k <= |sorted|
    ensures forall x, i :: x in multiset(sorted[k..]) && 0 <= i < k ==> !before(x, sorted[i])
    ensures Sorted(before, sorted[..k])
  {
    forall x, i | x in multiset(sorted[k..]) && 0 <= i < k
      ensures !before(x, sorted[i])
    {
      assert x in sorted[k..];
      var j :| 0 <= j < |sorted[k..]| && sorted[k..][j] == x;
      assert sorted[k + j] == x;
    }
  }

  lemma PlaceInMerged(answer: seq<SearchResult>, merged: seq<SearchResult>, limit: nat, i: nat) returns (j: nat)
    requires IsTopOf(RanksBefore, answer, merged, limit) && i < |answer|
    ensures j < |merged| && merged[j] == answer[i]
  {
    assert answer[i] in multiset(answer) && answer[i] in multiset(merged);
    j :| 0 <= j < |merged| && merged[j] == answer[i];
  }

  /** The answer holds the best merged candidates: each memory at most once, as the join of its
      own candidates. */
  lemma SearchReturnsTheBest(backend: Backend, fts: seq<SearchResult>, vectors: Option<seq<SearchResult>>,
                             candidateLimit: nat, limit: nat, now: Instant)
    requires Snapshot(fts + Kept(backend, vectors, candidateLimit, now))
    ensures
      var rows := fts + Kept(backend, vectors, candidateLimit, now);
      var answer := SearchOutcome(backend, fts, vectors, candidateLimit, limit, now);
      && IsTopOf(RanksBefore, answer, MergeAll(rows, now), limit)
      && DistinctIds(MergeAll(rows, now))
      && (forall i :: 0 <= i < |answer| ==> IsJoin(answer[i], RowsOf(rows, answer[i].memoryId), now))
  {
    var rows := fts + Kept(backend, vectors, candidateLimit, now);
    var merged := MergeAll(rows, now);
    var answer := SearchOutcome(backend, fts, vectors, candidateLimit, limit, now);
    RankingOrders();
    SortedPrefixIsTop(RanksBefore, merged, limit);
    MergeIsJoin(rows, now);
    hide IsJoin, Snapshot, Sorted, StableSort, WeakOrder, RanksBefore, MergeAll, IsTopOf, RowsOf, DistinctIds, IndexOf;
    forall i | 0 <= i < |answer|
      ensures IsJoin(answer[i], RowsOf(rows, answer[i].memoryId), now)
    {
      var j := PlaceInMerged(answer, merged, limit, i);
      assert IsJoin(merged[j], RowsOf(rows, merged[j].memoryId), now);
    }
  }

  // ----- From the raw rows to the answer -----

  lemma KeptAreMerged(backend: Backend, rows: seq<SearchResult>, candidateLimit: nat, now: Instant)
    requires Snapshot(rows)
    ensures
      var kept := VectorCandidates(backend, rows, candidateLimit, now);
      && DistinctIds(kept)
      && forall i :: 0 <= i < |kept| ==> IsJoin(kept[i], RowsOf(rows, kept[i].memoryId), now)
  {
    hide MergeAll, IsJoin, Snapshot, StableSort, Sorted, WeakOrder, CloserThan;
    MergeIsJoin(rows, now);
    var merged := MergeAll(rows, now);
    RankingOrders();
    StableSortSorts(CloserThan, merged);
    PermutedJoins(merged, StableSort(CloserThan, merged), rows, now);
  }

  lemma PermutedJoins(xs: seq<SearchResult>, ys: seq<SearchResult>, rows: seq<SearchResult>, now: Instant)
    requires DistinctIds(xs) && multiset(xs) == multiset(ys)
    requires forall i :: 0 <= i < |xs| ==> IsJoin(xs[i], RowsOf(rows, xs[i].memoryId), now)
    ensures DistinctIds(ys)
    ensures forall i :: 0 <= i < |ys| ==> IsJoin(ys[i], RowsOf(rows, ys[i].memoryId), now)
  {
    hide IsJoin, DistinctIds;
    forall i | 0 <= i < |ys|
      ensures IsJoin(ys[i], RowsOf(rows, ys[i].memoryId), now)
    {
      assert ys[i] in multiset(ys);
      var j :| 0 <= j < |xs| && xs[j] == ys[i];
    }
    PermutedIdsAreDistinct(xs, ys);
  }

  lemma PermutedIdsAreDistinct(xs: seq<SearchResult>, ys: seq<SearchResult>)
    requires DistinctIds(xs) && multiset(xs) == multiset(ys)
    ensures DistinctIds(ys)
  {
    forall i, j | 0 <= i < j < |ys|
      ensures ys[i].memoryId != ys[j].memoryId
    {
      assert ys[i] in multiset(xs) && ys[j] in multiset(xs);
      var k, l :| 0 <= k < |xs| && 0 <= l < |xs| && xs[k] == ys[i] && xs[l] == ys[j];
      if ys[i] == ys[j] {
        TwiceInside(ys, i, j);
        OnceInside(xs, k);
      }
    }
  }

  lemma TwiceInside(xs: seq<SearchResult>, i: nat, j: nat)
    requires i < j < |xs| && xs[i] == xs[j]
    ensures multiset(xs)[xs[i]] >= 2
  {
    assert xs == xs[..i] + [xs[i]] + xs[i + 1..j] + [xs[j]] + xs[j + 1..];
  }

  lemma OnceInside(xs: seq<SearchResult>, k: nat)
    requires DistinctIds(xs) && k < |xs|
    ensures multiset(xs)[xs[k]] == 1
  {
    assert xs == xs[..k] + [xs[k]] + xs[k + 1..];
    assert xs[k] !in xs[..k] && xs[k] !in xs[k + 1..];
  }

  lemma KeptRowsFormASnapshot(backend: Backend, fts: seq<SearchResult>, vectors: seq<SearchResult>, candidateLimit: nat, now: Instant)
    requires Snapshot(fts + vectors)
    ensures Snapshot(fts + VectorCandidates(backend, vectors, candidateLimit, now))
  {
    var raw := fts + vectors;
    assert forall i :: 0 <= i < |vectors| ==> raw[|fts| + i] == vectors[i];
    assert forall i :: 0 <= i < |fts| ==> raw[i] == fts[i];
    assert Snapshot(vectors);
    KeptAreMerged(backend, vectors, candidateLimit, now);
    var kept := VectorCandidates(backend, vectors, candidateLimit, now);
    hide VectorCandidates;
    var all := fts + kept;
    forall i | 0 <= i < |all|
      ensures exists j :: 0 <= j < |raw| && raw[j].memoryId == all[i].memoryId && raw[j].item == all[i].item
      ensures !all[i].keywordMatched ==> all[i].ftsRank == 0.0
    {
      if i < |fts| {
        assert raw[i] == all[i];
      } else {
        var e := kept[i - |fts|];
        var own := RowsOf(vectors, e.memoryId);
        RowsOfAreRows(vectors, e.memoryId);
        assert IsJoin(e, own, now);
        assert own[0] in vectors;
        var j :| 0 <= j < |vectors| && vectors[j] == own[0];
        assert raw[|fts| + j] == own[0];
      }
    }
  }

  lemma {:induction false} RowsOfAppend(xs: seq<SearchResult>, ys: seq<SearchResult>, id: string)
    ensures RowsOf(xs + ys, id) == RowsOf(xs, id) + RowsOf(ys, id)
  {
    var all := xs + ys;
    if ys == [] {
      assert all == xs;
    } else {
      var n := |ys| - 1;
      assert all[..|all| - 1] == xs + ys[..n];
      RowsOfAppend(xs, ys[..n], id);
    }
  }

  lemma {:induction false} RowsOfDistinct(rows: seq<SearchResult>, i: nat)
    requires DistinctIds(rows) && i < |rows|
    ensures RowsOf(rows, rows[i].memoryId) == [rows[i]]
  {
    var n := |rows| - 1;
    if i == n {
      RowsOfAreRows(rows[..n], rows[n].memoryId);
    } else {
      RowsOfDistinct(rows[..n], i);
    }
  }

  lemma JoinIsMaximum(e: SearchResult, rows: seq<SearchResult>, k: Signal, now: Instant)
    requires IsJoin(e, rows, now)
    ensures IsMaximum(e, rows, k, now)
  {
    hide IsMaximum, ScoreOf;
  }

  /** Over the raw rows of one snapshot: each answer's keyword, vector and access scores are the
      maxima over its memory's keyword rows, and over its vector rows too when its memory is among
      the kept vector candidates. */
  lemma AnswerTakesMaximaOverRawRows(backend: Backend, fts: seq<SearchResult>, vectors: seq<SearchResult>,
                                     candidateLimit: nat, limit: nat, now: Instant, i: nat, k: Signal)
    requires Snapshot(fts + vectors)
    requires i < |SearchOutcome(backend, fts, Some(vectors), candidateLimit, limit, now)|
    ensures
      var e := SearchOutcome(backend, fts, Some(vectors), candidateLimit, limit, now)[i];
      var kept := VectorCandidates(backend, vectors, candidateLimit, now);
      var own := if IndexOf(kept, e.memoryId) < |kept| then RowsOf(vectors, e.memoryId) else [];
      IsMaximum(e, RowsOf(fts, e.memoryId) + own, k, now)
  {
    var raw := fts + vectors;
    assert forall i :: 0 <= i < |vectors| ==> raw[|fts| + i] == vectors[i];
    assert Snapshot(vectors);
    KeptRowsFormASnapshot(backend, fts, vectors, candidateLimit, now);
    KeptAreMerged(backend, vectors, candidateLimit, now);
    SearchReturnsTheBest(backend, fts, Some(vectors), candidateLimit, limit, now);
    var e := SearchOutcome(backend, fts, Some(vectors), candidateLimit, limit, now)[i];
    var kept := VectorCandidates(backend, vectors, candidateLimit, now);
    hide VectorCandidates, SearchOutcome, Snapshot, IsTopOf, IsJoin, IsMaximum, MergeAll, RanksBefore;
    RowsOfAppend(fts, kept, e.memoryId);
    JoinIsMaximum(e, RowsOf(fts, e.memoryId) + RowsOf(kept, e.memoryId), k, now);
    var j := IndexOf(kept, e.memoryId);
    if j < |kept| {
      RowsOfDistinct(kept, j);
      JoinOfJoins(kept[j], RowsOf(vectors, e.memoryId), e, RowsOf(fts, e.memoryId), k, now);
    } else {
      RowsOfAreRows(kept, e.memoryId);
      assert RowsOf(fts, e.memoryId) + [] == RowsOf(fts, e.memoryId);
    }
  }
}
