/** Applying an accepted import: it cannot fail, and it adds exactly the rows of the file. */
module ImportApply {
  import opened Prelude
  import opened Schema
  import opened Keywords
  import opened Ordering
  import opened Repository
  import opened Ndjson
  import opened Parser
  import opened Import

  // ----- Conflicts -----

  predicate EventIdUsed(db: Tables, id: int) { exists i :: 0 <= i < |db.events| && db.events[i].id == id }

  predicate AccessIdUsed(db: Tables, id: int) { exists i :: 0 <= i < |db.access| && db.access[i].id == id }

  ghost predicate NoConflicts(db: Tables, data: ExportData) {
    && (forall i :: 0 <= i < |data.items| ==> data.items[i].id !in db.items)
    && (forall i :: 0 <= i < |data.chunks| ==> data.chunks[i].id !in db.chunks)
    && (forall i :: 0 <= i < |data.events| ==> !EventIdUsed(db, data.events[i].id))
    && (forall i :: 0 <= i < |data.policies| ==> data.policies[i].id !in db.policies)
    && (forall i :: 0 <= i < |data.access| ==> !AccessIdUsed(db, data.access[i].id))
  }

  method EnsureNoImportConflicts(db: Tables, data: ExportData) returns (r: Result<(), Refusal>)
    ensures r.Ok? <==> NoConflicts(db, data)
    ensures r.Err? ==> r == Err(Conflict)
  {
    for k := 0 to |data.items|
      invariant forall i :: 0 <= i < k ==> data.items[i].id !in db.items
    {
      if data.items[k].id in db.items { return Err(Conflict); }
    }
    for k := 0 to |data.chunks|
      invariant forall i :: 0 <= i < k ==> data.chunks[i].id !in db.chunks
    {
      if data.chunks[k].id in db.chunks { return Err(Conflict); }
    }
    for k := 0 to |data.events|
      invariant forall i :: 0 <= i < k ==> !EventIdUsed(db, data.events[i].id)
    {
      if EventIdUsed(db, data.events[k].id) { return Err(Conflict); }
    }
    for k := 0 to |data.policies|
      invariant forall i :: 0 <= i < k ==> data.policies[i].id !in db.policies
    {
      if data.policies[k].id in db.policies { return Err(Conflict); }
    }
    for k := 0 to |data.access|
      invariant forall i :: 0 <= i < k ==> !AccessIdUsed(db, data.access[i].id)
    {
      if AccessIdUsed(db, data.access[k].id) { return Err(Conflict); }
    }
    return Ok(());
  }

  // ----- The statements, table by table -----

  function ImportItemsOn(db: Tables, items: seq<Item>): Result<Tables, Error> {
    if items == [] then Ok(db)
    else
      var before :- ImportItemsOn(db, items[..|items| - 1]);
      CreateItemOn(before, items[|items| - 1])
  }

  function ImportChunksOn(db: Tables, chunks: seq<Chunk>): Result<Tables, Error> {
    if chunks == [] then Ok(db)
    else
      var before :- ImportChunksOn(db, chunks[..|chunks| - 1]);
      AddChunkOn(before, chunks[|chunks| - 1])
  }

  function RowsFor(keywords: seq<Keyword>, id: string): seq<Keyword> {
    if keywords == [] then []
    else
      var last := keywords[|keywords| - 1];
      RowsFor(keywords[..|keywords| - 1], id) + if last.memoryId == id then [last] else []
  }

  /** Keywords memory by memory; Go's map iteration decides the order of the memories. */
  function ImportKeywordsOn(t: Texts, db: Tables, keywords: seq<Keyword>, order: seq<string>): Result<Tables, Error> {
    if order == [] then Ok(db)
    else
      var before :- ImportKeywordsOn(t, db, keywords, order[..|order| - 1]);
      ReplaceKeywordsOn(t, before, order[|order| - 1], RowsFor(keywords, order[|order| - 1]))
  }

  function ImportEventsOn(db: Tables, events: seq<Event>): Result<Tables, Error> {
    if events == [] then Ok(db)
    else
      var before :- ImportEventsOn(db, events[..|events| - 1]);
      InsertEvent(before, StoredEvent(events[|events| - 1]))
  }

  function StoredEvent(e: Event): Event { if e.payload == Text("") then e.(payload := NoDetail) else e }

  function ImportPoliciesOn(db: Tables, policies: seq<PolicyRow>): Result<Tables, Error> {
    if policies == [] then Ok(db)
    else
      var before :- ImportPoliciesOn(db, policies[..|policies| - 1]);
      CreatePolicyOn(before, policies[|policies| - 1])
  }

  function ImportAccessOn(db: Tables, access: seq<Access>): Result<Tables, Error> {
    if access == [] then Ok(db)
    else
      var before :- ImportAccessOn(db, access[..|access| - 1]);
      InsertAccess(before, access[|access| - 1])
  }

  function ImportOn(t: Texts, db: Tables, data: ExportData, order: seq<string>): Result<Tables, Error> {
    var items :- ImportItemsOn(db, data.items);
    var chunks :- ImportChunksOn(items, data.chunks);
    var keywords :- ImportKeywordsOn(t, chunks, data.keywords, order);
    var events :- ImportEventsOn(keywords, data.events);
    var policies :- ImportPoliciesOn(events, data.policies);
    ImportAccessOn(policies, data.access)
  }

  predicate HasKeywords(keywords: seq<Keyword>, id: string) { exists i :: 0 <= i < |keywords| && keywords[i].memoryId == id }

  /** Each memory that has keywords, once. */
  ghost predicate OrdersMemories(keywords: seq<Keyword>, order: seq<string>) {
    && (forall id :: id in order <==> HasKeywords(keywords, id))
    && (forall i, j :: 0 <= i < j < |order| ==> order[i] != order[j])
  }

  // ----- What is added -----

  /** Old rows as they were, new rows as in the file, nothing else. */
  ghost predicate Merged<K(!new), V(!new)>(before: map<K, V>, after: map<K, V>, rows: seq<V>, key: V -> K) {
    && (forall k :: k in before ==> k in after && after[k] == before[k])
    && (forall i :: 0 <= i < |rows| ==> key(rows[i]) in after && after[key(rows[i])] == rows[i])
    && (forall k :: k in after ==> k in before || exists i :: 0 <= i < |rows| && key(rows[i]) == k)
  }

  ghost predicate ChunksMerged(before: map<string, ChunkRow>, after: map<string, ChunkRow>, chunks: seq<Chunk>) {
    && (forall c :: c in before ==> c in after && after[c] == before[c])
    && (forall i :: 0 <= i < |chunks| ==> chunks[i].id in after && after[chunks[i].id].chunk == chunks[i])
    && (forall c :: c in after ==> c in before || exists i :: 0 <= i < |chunks| && chunks[i].id == c)
  }

  function ItemKey(item: Item): string { item.id }
  function PolicyKey(p: PolicyRow): string { p.id }
  function KeyOf(k: Keyword): KeywordKey { KeywordKey(k.memoryId, k.index) }

  /** The old store and the file, side by side: no table loses or changes a row, each gains exactly
      the rows of the file, and the embedding index is untouched. */
  ghost predicate Imported(before: Tables, data: ExportData, after: Tables) {
    && SchemaOk(after)
    && Merged(before.items, after.items, data.items, ItemKey)
    && ChunksMerged(before.chunks, after.chunks, data.chunks)
    && Merged(before.keywords, after.keywords, data.keywords, KeyOf)
    && after.events == before.events + data.events
    && Merged(before.policies, after.policies, data.policies, PolicyKey)
    && after.access == before.access + data.access
    && after.backend == before.backend && after.embeddings == before.embeddings
    && after.statuses == before.statuses && after.vec == before.vec
  }

  lemma MergedGrows<K(!new), V(!new)>(before: map<K, V>, mid: map<K, V>, rows: seq<V>, key: V -> K)
    requires rows != [] && Merged(before, mid, rows[..|rows| - 1], key) && key(rows[|rows| - 1]) !in mid
    ensures Merged(before, mid[key(rows[|rows| - 1]) := rows[|rows| - 1]], rows, key)
  {
    var n := |rows| - 1;
    var after := mid[key(rows[n]) := rows[n]];
    forall i | 0 <= i < |rows|
      ensures key(rows[i]) in after && after[key(rows[i])] == rows[i]
    {
      if i < n {
        assert rows[..n][i] == rows[i];
      }
    }
    forall k | k in after
      ensures k in before || exists i :: 0 <= i < |rows| && key(rows[i]) == k
    {
      if k != key(rows[n]) && k !in before {
        var i :| 0 <= i < |rows[..n]| && key(rows[..n][i]) == k;
        assert rows[i] == rows[..n][i];
      }
    }
  }

  lemma NotMergedYet<K(!new), V(!new)>(before: map<K, V>, mid: map<K, V>, rows: seq<V>, key: V -> K, k: K)
    requires Merged(before, mid, rows, key) && k !in before && forall i :: 0 <= i < |rows| ==> key(rows[i]) != k
    ensures k !in mid
  {
  }

  // ----- Items -----

  lemma {:induction false} ItemsImported(t: Texts, db: Tables, items: seq<Item>)
    requires SchemaOk(db) && ItemsAccepted(t, items) && t.Lawful()
    requires forall i :: 0 <= i < |items| ==> items[i].id !in db.items
    ensures ImportItemsOn(db, items).Ok?
    ensures
      var after := ImportItemsOn(db, items).value;
      SchemaOk(after) && after == db.(items := after.items) && Merged(db.items, after.items, items, ItemKey)
  {
    if items != [] {
      var n := |items| - 1;
      FewerItems(t, items);
      LastItemUnfolds(db, items);
      NothingMerged(db.items, ItemKey);
      hide *;
      ItemsImported(t, db, items[..n]);
      var mid := ImportItemsOn(db, items[..n]).value;
      NotMergedYet(db.items, mid.items, items[..n], ItemKey, ItemKey(items[n]));
      OneItemImported(t, mid, items[n]);
      MergedGrows(db.items, mid.items, items, ItemKey);
    } else {
      hide SchemaOk;
      NothingMerged(db.items, ItemKey);
    }
  }

  lemma NothingMerged<K(!new), V(!new)>(m: map<K, V>, key: V -> K)
    ensures Merged(m, m, [], key)
  {
  }

  lemma FewerItems(t: Texts, items: seq<Item>)
    requires items != [] && ItemsAccepted(t, items)
    ensures ItemsAccepted(t, items[..|items| - 1]) && ItemRowAccepted(t, items[|items| - 1])
    ensures forall i :: 0 <= i < |items| - 1 ==>
              items[..|items| - 1][i] == items[i] && ItemKey(items[..|items| - 1][i]) != ItemKey(items[|items| - 1])
    ensures forall item :: ItemKey(item) == item.id
  {
    hide ItemRowAccepted;
  }

  lemma LastItemUnfolds(db: Tables, items: seq<Item>)
    requires items != []
    ensures
      var before := ImportItemsOn(db, items[..|items| - 1]);
      ImportItemsOn(db, items) == if before.Ok? then CreateItemOn(before.value, items[|items| - 1]) else before
  {
    hide CreateItemOn;
  }

  lemma OneItemImported(t: Texts, mid: Tables, item: Item)
    requires SchemaOk(mid) && ItemRowAccepted(t, item) && t.Lawful() && item.id !in mid.items
    ensures CreateItemOn(mid, item) == Ok(mid.(items := mid.items[item.id := item]))
    ensures SchemaOk(mid.(items := mid.items[item.id := item]))
  {
    assert item.metadata != "" by { TrimmedNothing(t, item.metadata); }
    hide SchemaOk, Texts.Lawful, ObjectText;
    assert item.(metadata := DefaultJson(item.metadata)) == item;
    InsertItemKeepsSchema(mid, item);
  }

  lemma TrimmedNothing(t: Texts, s: string)
    requires t.Lawful() && t.trim(s) != ""
    ensures s != ""
  {
  }

  // ----- Chunks -----

  lemma {:induction false} ChunksImported(db: Tables, ids: set<string>, chunks: seq<Chunk>)
    requires SchemaOk(db) && ChunksAccepted(ids, chunks) && ids <= db.items.Keys
    requires forall i :: 0 <= i < |chunks| ==> chunks[i].id !in db.chunks
    requires forall c :: c in db.chunks ==> db.chunks[c].chunk.memoryId !in ids
    ensures ImportChunksOn(db, chunks).Ok?
    ensures
      var after := ImportChunksOn(db, chunks).value;
      && SchemaOk(after) && after == db.(chunks := after.chunks, fts := after.fts)
      && ChunksMerged(db.chunks, after.chunks, chunks)
  {
    if chunks != [] {
      var n := |chunks| - 1;
      FewerChunks(ids, chunks);
      ChunksImported(db, ids, chunks[..n]);
      var mid := ImportChunksOn(db, chunks[..n]).value;
      ChunkIsNew(db, mid, ids, chunks);
      hide AddChunkOn, SchemaOk, ChunksMerged, ChunksAccepted;
      OneChunkImported(mid, chunks[n]);
      ChunksGrow(db, mid, AddChunkOn(mid, chunks[n]).value, chunks);
    }
  }

  lemma FewerChunks(ids: set<string>, chunks: seq<Chunk>)
    requires chunks != [] && ChunksAccepted(ids, chunks)
    ensures ChunksAccepted(ids, chunks[..|chunks| - 1])
    ensures forall i :: 0 <= i < |chunks| - 1 ==> chunks[..|chunks| - 1][i] == chunks[i]
  {
  }

  lemma ChunkIsNew(db: Tables, mid: Tables, ids: set<string>, chunks: seq<Chunk>)
    requires chunks != [] && ChunksAccepted(ids, chunks) && ids <= mid.items.Keys
    requires ChunksMerged(db.chunks, mid.chunks, chunks[..|chunks| - 1])
    requires forall i :: 0 <= i < |chunks| ==> chunks[i].id !in db.chunks
    requires forall c :: c in db.chunks ==> db.chunks[c].chunk.memoryId !in ids
    ensures
      var c := chunks[|chunks| - 1];
      ValidChunk(c) && c.id !in mid.chunks && c.memoryId in mid.items && !ChunkSlotTaken(mid.chunks, c.memoryId, c.index)
  {
    var n := |chunks| - 1;
    assert forall i :: 0 <= i < n ==> chunks[..n][i] == chunks[i];
    forall d | d in mid.chunks
      ensures !(mid.chunks[d].chunk.memoryId == chunks[n].memoryId && mid.chunks[d].chunk.index == chunks[n].index)
    {
      if d !in db.chunks {
        var i :| 0 <= i < |chunks[..n]| && chunks[..n][i].id == d;
        assert !SameSlot(chunks[i], chunks[n]);
      }
    }
  }

  lemma OneChunkImported(mid: Tables, c: Chunk)
    requires SchemaOk(mid) && ValidChunk(c) && c.id !in mid.chunks && c.memoryId in mid.items
    requires !ChunkSlotTaken(mid.chunks, c.memoryId, c.index)
    ensures AddChunkOn(mid, c).Ok?
    ensures
      var after := AddChunkOn(mid, c).value;
      && SchemaOk(after)
      && after == mid.(chunks := mid.chunks[c.id := ChunkRow(NextRowid(mid.chunks), c)], fts := after.fts)
  {
    NextRowidIsFree(mid);
    hide SchemaOk, NextRowid, ChunkSlotTaken;
    InsertChunkKeepsSchema(mid, c);
  }

  lemma ChunksGrow(db: Tables, mid: Tables, after: Tables, chunks: seq<Chunk>)
    requires chunks != [] && ChunksMerged(db.chunks, mid.chunks, chunks[..|chunks| - 1])
    requires chunks[|chunks| - 1].id !in mid.chunks
    requires after.chunks == mid.chunks[chunks[|chunks| - 1].id := ChunkRow(NextRowid(mid.chunks), chunks[|chunks| - 1])]
    ensures ChunksMerged(db.chunks, after.chunks, chunks)
  {
    hide NextRowid;
    var n := |chunks| - 1;
    forall i | 0 <= i < |chunks|
      ensures chunks[i].id in after.chunks && after.chunks[chunks[i].id].chunk == chunks[i]
    {
      if i < n {
        assert chunks[..n][i] == chunks[i];
      }
    }
    forall c | c in after.chunks
      ensures c in db.chunks || exists i :: 0 <= i < |chunks| && chunks[i].id == c
    {
      if c != chunks[n].id && c !in db.chunks {
        var i :| 0 <= i < |chunks[..n]| && chunks[..n][i].id == c;
        assert chunks[i].id == c;
      }
    }
  }

  // ----- Keywords -----

  lemma {:induction false} RowsForMembers(keywords: seq<Keyword>, id: string)
    ensures forall r :: r in RowsFor(keywords, id) <==> r in keywords && r.memoryId == id
  {
    if keywords != [] {
      var n := |keywords| - 1;
      RowsForMembers(keywords[..n], id);
      assert keywords == keywords[..n] + [keywords[n]];
    }
  }

  /** No two rows share their index or their normalized form. */
  ghost predicate RowsDistinct(rows: seq<Keyword>) {
    forall i, j :: 0 <= i < j < |rows| ==> !SameIndex(rows[i], rows[j]) && !SameWord(rows[i], rows[j])
  }

  lemma {:induction false} RowsForDistinct(keywords: seq<Keyword>, id: string)
    requires RowsDistinct(keywords)
    ensures RowsDistinct(RowsFor(keywords, id))
  {
    if keywords != [] {
      var n := |keywords| - 1;
      ShorterIsDistinct(keywords);
      RowsForDistinct(keywords[..n], id);
      var before := RowsFor(keywords[..n], id);
      RowsForMembers(keywords[..n], id);
      assert RowsFor(keywords, id) == before + (if keywords[n].memoryId == id then [keywords[n]] else []);
      hide RowsFor;
      LongerIsDistinct(before, keywords);
    }
  }

  lemma ShorterIsDistinct(keywords: seq<Keyword>)
    requires RowsDistinct(keywords) && keywords != []
    ensures RowsDistinct(keywords[..|keywords| - 1])
  {
  }

  lemma LongerIsDistinct(before: seq<Keyword>, keywords: seq<Keyword>)
    requires RowsDistinct(keywords) && keywords != [] && RowsDistinct(before)
    requires forall r :: r in before ==> r in keywords[..|keywords| - 1]
    ensures RowsDistinct(before + [keywords[|keywords| - 1]])
  {
    var n := |keywords| - 1;
    forall i | 0 <= i < |before|
      ensures !SameIndex(before[i], keywords[n]) && !SameWord(before[i], keywords[n])
    {
      assert before[i] in before && before[i] in keywords[..n];
      var j :| 0 <= j < n && keywords[..n][j] == before[i];
    }
  }

  ghost predicate RowsOf(t: Texts, id: string, rows: seq<Keyword>) {
    forall i :: 0 <= i < |rows| ==> rows[i].memoryId == id && ValidKeyword(t, rows[i])
  }

  lemma {:induction false} RowsImported(t: Texts, db: Tables, id: string, rows: seq<Keyword>)
    requires SchemaOk(db) && id in db.items && RowsOf(t, id, rows) && RowsDistinct(rows)
    requires forall k :: k in db.keywords ==> k.memoryId != id
    ensures AddKeywordsOn(t, db, id, rows).Ok?
    ensures
      var after := AddKeywordsOn(t, db, id, rows).value;
      SchemaOk(after) && after == db.(keywords := after.keywords) && Merged(db.keywords, after.keywords, rows, KeyOf)
  {
    if rows != [] {
      var n := |rows| - 1;
      FewerRows(t, id, rows);
      hide RowsDistinct, RowsOf, Merged, SchemaOk, ValidKeyword, InsertKeyword;
      RowsImported(t, db, id, rows[..n]);
      var mid := AddKeywordsOn(t, db, id, rows[..n]).value;
      RowIsNew(t, db, mid, id, rows);
      OneRowImported(mid, rows[n]);
      assert rows[n].(memoryId := id) == rows[n];
      MergedGrows(db.keywords, mid.keywords, rows, KeyOf);
    }
  }

  lemma FewerRows(t: Texts, id: string, rows: seq<Keyword>)
    requires rows != [] && RowsOf(t, id, rows) && RowsDistinct(rows)
    ensures RowsOf(t, id, rows[..|rows| - 1]) && RowsDistinct(rows[..|rows| - 1])
  {
    assert forall i :: 0 <= i < |rows| - 1 ==> rows[..|rows| - 1][i] == rows[i];
  }

  lemma RowIsNew(t: Texts, db: Tables, mid: Tables, id: string, rows: seq<Keyword>)
    requires rows != [] && RowsOf(t, id, rows) && RowsDistinct(rows)
    requires Merged(db.keywords, mid.keywords, rows[..|rows| - 1], KeyOf) && mid == db.(keywords := mid.keywords) && id in db.items
    requires forall k :: k in db.keywords ==> k.memoryId != id
    ensures
      var r := rows[|rows| - 1];
      && r.memoryId == id && ValidKeyword(t, r) && KeyOf(r) !in mid.keywords && id in mid.items
      && !NormalizedTaken(mid.keywords, id, r.normalized)
  {
    var n := |rows| - 1;
    forall k | k in mid.keywords && k.memoryId == id
      ensures k != KeyOf(rows[n]) && mid.keywords[k].normalized != rows[n].normalized
    {
      var i :| 0 <= i < |rows[..n]| && KeyOf(rows[..n][i]) == k;
      assert rows[..n][i] == rows[i];
      assert !SameIndex(rows[i], rows[n]) && !SameWord(rows[i], rows[n]);
    }
  }

  lemma OneRowImported(mid: Tables, r: Keyword)
    requires SchemaOk(mid) && r.memoryId in mid.items && KeyOf(r) !in mid.keywords && r.index >= 0
    requires !NormalizedTaken(mid.keywords, r.memoryId, r.normalized)
    ensures InsertKeyword(mid, r) == Ok(mid.(keywords := mid.keywords[KeyOf(r) := r]))
    ensures SchemaOk(mid.(keywords := mid.keywords[KeyOf(r) := r]))
  {
    hide SchemaOk, NormalizedTaken;
    InsertKeywordKeepsSchema(mid, r);
  }

  /** The keywords of the memories done so far are in; all other rows are as before. */
  ghost predicate KeywordsSoFar(before: map<KeywordKey, Keyword>, after: map<KeywordKey, Keyword>, keywords: seq<Keyword>, done: seq<string>) {
    && (forall k :: k in before ==> k in after && after[k] == before[k])
    && (forall i :: 0 <= i < |keywords| && keywords[i].memoryId in done ==>
          KeyOf(keywords[i]) in after && after[KeyOf(keywords[i])] == keywords[i])
    && (forall k :: k in after ==> k in before || exists i :: 0 <= i < |keywords| && keywords[i].memoryId in done && KeyOf(keywords[i]) == k)
  }

  lemma OneMemoryMore(before: map<KeywordKey, Keyword>, mid: map<KeywordKey, Keyword>, after: map<KeywordKey, Keyword>,
                      keywords: seq<Keyword>, done: seq<string>, id: string)
    requires KeywordsSoFar(before, mid, keywords, done) && Merged(mid, after, RowsFor(keywords, id), KeyOf)
    ensures KeywordsSoFar(before, after, keywords, done + [id])
  {
    RowsForMembers(keywords, id);
    var rows := RowsFor(keywords, id);
    hide RowsFor;
    forall i | 0 <= i < |keywords| && keywords[i].memoryId in done + [id]
      ensures KeyOf(keywords[i]) in after && after[KeyOf(keywords[i])] == keywords[i]
    {
      if keywords[i].memoryId == id {
        assert keywords[i] in rows;
        var j :| 0 <= j < |rows| && rows[j] == keywords[i];
      }
    }
    forall k | k in after && k !in before
      ensures exists i :: 0 <= i < |keywords| && keywords[i].memoryId in done + [id] && KeyOf(keywords[i]) == k
    {
      if k !in mid {
        var j :| 0 <= j < |rows| && KeyOf(rows[j]) == k;
        assert rows[j] in keywords;
        var i :| 0 <= i < |keywords| && keywords[i] == rows[j];
      }
    }
  }

  lemma {:induction false} KeywordsImportedSoFar(t: Texts, db: Tables, ids: set<string>, keywords: seq<Keyword>, order: seq<string>)
    requires SchemaOk(db) && KeywordsAccepted(t, ids, keywords) && ids <= db.items.Keys && "" !in ids
    requires forall k :: k in db.keywords ==> k.memoryId !in ids
    requires forall id :: id in order ==> id in ids
    requires forall i, j :: 0 <= i < j < |order| ==> order[i] != order[j]
    ensures ImportKeywordsOn(t, db, keywords, order).Ok?
    ensures
      var after := ImportKeywordsOn(t, db, keywords, order).value;
      && SchemaOk(after) && after == db.(keywords := after.keywords)
      && KeywordsSoFar(db.keywords, after.keywords, keywords, order)
  {
    if order != [] {
      var (n, id) := (|order| - 1, order[|order| - 1]);
      FewerMemories(order);
      hide SchemaOk, KeywordsAccepted, Merged, RowsFor, KeywordsSoFar, ReplaceKeywordsOn;
      KeywordsImportedSoFar(t, db, ids, keywords, order[..n]);
      var mid := ImportKeywordsOn(t, db, keywords, order[..n]).value;
      NoneOfThisMemoryYet(db.keywords, mid.keywords, keywords, order[..n], id);
      OneMemoryImported(t, mid, ids, keywords, id);
      OneMemoryMore(db.keywords, mid.keywords, ImportKeywordsOn(t, db, keywords, order).value.keywords, keywords, order[..n], id);
    }
  }

  lemma FewerMemories(order: seq<string>)
    requires order != [] && forall i, j :: 0 <= i < j < |order| ==> order[i] != order[j]
    ensures
      var (before, last) := (order[..|order| - 1], order[|order| - 1]);
      && order == before + [last] && last in order && last !in before && (forall id :: id in before ==> id in order)
      && forall i, j :: 0 <= i < j < |before| ==> before[i] != before[j]
  {
  }

  lemma NoneOfThisMemoryYet(before: map<KeywordKey, Keyword>, after: map<KeywordKey, Keyword>, keywords: seq<Keyword>, done: seq<string>, id: string)
    requires KeywordsSoFar(before, after, keywords, done) && id !in done && forall k :: k in before ==> k.memoryId != id
    ensures forall k :: k in after ==> k.memoryId != id
  {
  }

  lemma OneMemoryImported(t: Texts, mid: Tables, ids: set<string>, keywords: seq<Keyword>, id: string)
    requires SchemaOk(mid) && KeywordsAccepted(t, ids, keywords) && id in mid.items && id != ""
    requires forall k :: k in mid.keywords ==> k.memoryId != id
    ensures
      var replaced := ReplaceKeywordsOn(t, mid, id, RowsFor(keywords, id));
      && replaced.Ok? && SchemaOk(replaced.value) && replaced.value == mid.(keywords := replaced.value.keywords)
      && Merged(mid.keywords, replaced.value.keywords, RowsFor(keywords, id), KeyOf)
  {
    SeenMapsFindDuplicates(t, ids, keywords);
    RowsForDistinct(keywords, id);
    RowsForMembers(keywords, id);
    var rows := RowsFor(keywords, id);
    forall i | 0 <= i < |rows|
      ensures rows[i].memoryId == id && ValidKeyword(t, rows[i])
    {
      assert rows[i] in rows;
      var j :| 0 <= j < |keywords| && keywords[j] == rows[i];
      assert KeywordRowAccepted(t, ids, keywords[j]);
    }
    hide SchemaOk, KeywordsAccepted, Merged, RowsFor, ValidKeyword;
    assert DeleteKeywords(mid, id) == mid by {
      assert DeleteKeywords(mid, id).keywords == mid.keywords;
    }
    RowsImported(t, mid, id, rows);
  }

  /** Whatever the order of the memories, all keyword rows of the file are in. */
  lemma KeywordsImported(t: Texts, db: Tables, ids: set<string>, keywords: seq<Keyword>, order: seq<string>)
    requires SchemaOk(db) && KeywordsAccepted(t, ids, keywords) && ids <= db.items.Keys && "" !in ids
    requires forall k :: k in db.keywords ==> k.memoryId !in ids
    requires OrdersMemories(keywords, order)
    ensures ImportKeywordsOn(t, db, keywords, order).Ok?
    ensures
      var after := ImportKeywordsOn(t, db, keywords, order).value;
      && SchemaOk(after) && after == db.(keywords := after.keywords)
      && Merged(db.keywords, after.keywords, keywords, KeyOf)
  {
    OrderIsWithin(t, ids, keywords, order);
    hide *;
    KeywordsImportedSoFar(t, db, ids, keywords, order);
    AllMemoriesDone(db.keywords, ImportKeywordsOn(t, db, keywords, order).value.keywords, keywords, order);
  }

  lemma OrderIsWithin(t: Texts, ids: set<string>, keywords: seq<Keyword>, order: seq<string>)
    requires KeywordsAccepted(t, ids, keywords) && OrdersMemories(keywords, order)
    ensures forall id :: id in order ==> id in ids
    ensures forall i, j :: 0 <= i < j < |order| ==> order[i] != order[j]
  {
    forall id | id in order
      ensures id in ids
    {
      var i :| 0 <= i < |keywords| && keywords[i].memoryId == id;
      assert KeywordRowAccepted(t, ids, keywords[i]);
    }
  }

  lemma AllMemoriesDone(before: map<KeywordKey, Keyword>, after: map<KeywordKey, Keyword>, keywords: seq<Keyword>, order: seq<string>)
    requires KeywordsSoFar(before, after, keywords, order) && OrdersMemories(keywords, order)
    ensures Merged(before, after, keywords, KeyOf)
  {
  }

  // ----- Events, policies, access log -----

  lemma {:induction false} EventsImported(t: Texts, db: Tables, ids: set<string>, events: seq<Event>)
    requires SchemaOk(db) && EventsAccepted(t, ids, events) && ids <= db.items.Keys && t.Lawful()
    requires forall i :: 0 <= i < |events| ==> !EventIdUsed(db, events[i].id)
    ensures ImportEventsOn(db, events).Ok?
    ensures
      var after := ImportEventsOn(db, events).value;
      && SchemaOk(after) && after == db.(events := after.events, lastEventId := after.lastEventId)
      && after.events == db.events + events
  {
    if events != [] {
      var n := |events| - 1;
      FewerEvents(t, ids, events);
      LastEventUnfolds(db, events);
      assert db.events + events[..n] + [events[n]] == db.events + events;
      hide *;
      EventsImported(t, db, ids, events[..n]);
      var mid := ImportEventsOn(db, events[..n]).value;
      EventIdIsNew(db, mid, events);
      OneEventImported(t, mid, ids, events[n]);
    } else {
      assert db.events + [] == db.events;
    }
  }

  lemma LastEventUnfolds(db: Tables, events: seq<Event>)
    requires events != []
    ensures
      var before := ImportEventsOn(db, events[..|events| - 1]);
      ImportEventsOn(db, events) == if before.Ok? then InsertEvent(before.value, StoredEvent(events[|events| - 1])) else before
  {
    hide InsertEvent, StoredEvent;
  }

  lemma FewerEvents(t: Texts, ids: set<string>, events: seq<Event>)
    requires EventsAccepted(t, ids, events) && events != []
    ensures EventsAccepted(t, ids, events[..|events| - 1]) && EventRowAccepted(t, ids, events[|events| - 1])
    ensures forall i :: 0 <= i < |events| - 1 ==> events[..|events| - 1][i] == events[i] && events[i].id != events[|events| - 1].id
  {
    hide EventRowAccepted;
    assert forall i :: 0 <= i < |events| - 1 ==> events[..|events| - 1][i] == events[i];
  }

  lemma EventIdIsNew(db: Tables, mid: Tables, events: seq<Event>)
    requires events != [] && mid.events == db.events + events[..|events| - 1]
    requires !EventIdUsed(db, events[|events| - 1].id)
    requires forall i :: 0 <= i < |events| - 1 ==> events[i].id != events[|events| - 1].id
    ensures !EventIdUsed(mid, events[|events| - 1].id)
  {
    var n := |events| - 1;
    forall i | 0 <= i < |mid.events|
      ensures mid.events[i].id != events[n].id
    {
      if i < |db.events| {
        assert mid.events[i] == db.events[i];
      } else {
        assert mid.events[i] == events[i - |db.events|];
      }
    }
  }

  lemma OneEventImported(t: Texts, mid: Tables, ids: set<string>, e: Event)
    requires SchemaOk(mid) && EventRowAccepted(t, ids, e) && ids <= mid.items.Keys && t.Lawful() && !EventIdUsed(mid, e.id)
    ensures
      var after := InsertEvent(mid, StoredEvent(e));
      && after.Ok? && SchemaOk(after.value)
      && after.value == mid.(events := mid.events + [e], lastEventId := after.value.lastEventId)
  {
    assert StoredEvent(e) == e;
    hide SchemaOk, Texts.Lawful, StoredEvent;
    InsertEventKeepsSchema(mid, e);
  }

  lemma {:induction false} PoliciesImported(t: Texts, db: Tables, policies: seq<PolicyRow>)
    requires SchemaOk(db) && PoliciesAccepted(t, policies) && t.Lawful()
    requires forall i :: 0 <= i < |policies| ==> policies[i].id !in db.policies
    ensures ImportPoliciesOn(db, policies).Ok?
    ensures
      var after := ImportPoliciesOn(db, policies).value;
      SchemaOk(after) && after == db.(policies := after.policies) && Merged(db.policies, after.policies, policies, PolicyKey)
  {
    if policies != [] {
      var n := |policies| - 1;
      FewerPolicies(t, policies);
      LastPolicyUnfolds(db, policies);
      hide *;
      PoliciesImported(t, db, policies[..n]);
      var mid := ImportPoliciesOn(db, policies[..n]).value;
      NotMergedYet(db.policies, mid.policies, policies[..n], PolicyKey, PolicyKey(policies[n]));
      OnePolicyImported(t, mid, policies[n]);
      MergedGrows(db.policies, mid.policies, policies, PolicyKey);
    } else {
      hide SchemaOk;
      NothingMerged(db.policies, PolicyKey);
    }
  }

  lemma FewerPolicies(t: Texts, policies: seq<PolicyRow>)
    requires policies != [] && PoliciesAccepted(t, policies)
    ensures PoliciesAccepted(t, policies[..|policies| - 1]) && PolicyRowAccepted(t, policies[|policies| - 1])
    ensures forall i :: 0 <= i < |policies| - 1 ==>
              policies[..|policies| - 1][i] == policies[i] && PolicyKey(policies[..|policies| - 1][i]) != PolicyKey(policies[|policies| - 1])
    ensures forall p :: PolicyKey(p) == p.id
  {
    hide PolicyRowAccepted;
  }

  lemma LastPolicyUnfolds(db: Tables, policies: seq<PolicyRow>)
    requires policies != []
    ensures
      var before := ImportPoliciesOn(db, policies[..|policies| - 1]);
      ImportPoliciesOn(db, policies) == if before.Ok? then CreatePolicyOn(before.value, policies[|policies| - 1]) else before
  {
    hide CreatePolicyOn;
  }

  lemma OnePolicyImported(t: Texts, mid: Tables, p: PolicyRow)
    requires SchemaOk(mid) && PolicyRowAccepted(t, p) && t.Lawful() && p.id !in mid.policies
    ensures CreatePolicyOn(mid, p) == Ok(mid.(policies := mid.policies[p.id := p]))
    ensures SchemaOk(mid.(policies := mid.policies[p.id := p]))
  {
    TrimmedNothing(t, p.scope);
    TrimmedNothing(t, p.rules);
    hide Texts.Lawful, ItemsOk, ChunksOk, FtsExact, KeywordsOk, EventsOk, AccessOk, EmbeddingsOk, StatusesOk;
    assert p.(scope := DefaultJson(p.scope), rules := DefaultJson(p.rules)) == p;
  }

  lemma {:induction false} AccessImported(db: Tables, ids: set<string>, access: seq<Access>)
    requires SchemaOk(db) && AccessAccepted(ids, access) && ids <= db.items.Keys
    requires forall i :: 0 <= i < |access| ==> !AccessIdUsed(db, access[i].id)
    ensures ImportAccessOn(db, access).Ok?
    ensures
      var after := ImportAccessOn(db, access).value;
      && SchemaOk(after) && after == db.(access := after.access, lastAccessId := after.lastAccessId)
      && after.access == db.access + access
  {
    if access != [] {
      var n := |access| - 1;
      FewerAccesses(ids, access);
      assert db.access + access[..n] + [access[n]] == db.access + access;
      hide SchemaOk, AccessAccepted, AccessIdUsed, AccessRowAccepted, InsertAccess;
      AccessImported(db, ids, access[..n]);
      var mid := ImportAccessOn(db, access[..n]).value;
      AccessIdIsNew(db, mid, access);
      OneAccessImported(mid, ids, access[n]);
    } else {
      assert db.access + [] == db.access;
    }
  }

  lemma FewerAccesses(ids: set<string>, access: seq<Access>)
    requires AccessAccepted(ids, access) && access != []
    ensures AccessAccepted(ids, access[..|access| - 1]) && AccessRowAccepted(ids, access[|access| - 1])
    ensures forall i :: 0 <= i < |access| - 1 ==> access[..|access| - 1][i] == access[i] && access[i].id != access[|access| - 1].id
  {
    hide AccessRowAccepted;
    assert forall i :: 0 <= i < |access| - 1 ==> access[..|access| - 1][i] == access[i];
  }

  lemma OneAccessImported(mid: Tables, ids: set<string>, a: Access)
    requires SchemaOk(mid) && AccessRowAccepted(ids, a) && ids <= mid.items.Keys && !AccessIdUsed(mid, a.id)
    ensures
      var after := InsertAccess(mid, a);
      && after.Ok? && SchemaOk(after.value)
      && after.value == mid.(access := mid.access + [a], lastAccessId := after.value.lastAccessId)
  {
    hide SchemaOk;
    InsertAccessKeepsSchema(mid, a);
  }

  lemma AccessIdIsNew(db: Tables, mid: Tables, access: seq<Access>)
    requires access != [] && mid.access == db.access + access[..|access| - 1]
    requires !AccessIdUsed(db, access[|access| - 1].id)
    requires forall i :: 0 <= i < |access| - 1 ==> access[i].id != access[|access| - 1].id
    ensures !AccessIdUsed(mid, access[|access| - 1].id)
  {
    var n := |access| - 1;
    forall i | 0 <= i < |mid.access|
      ensures mid.access[i].id != access[n].id
    {
      if i < |db.access| {
        assert mid.access[i] == db.access[i];
      } else {
        assert mid.access[i] == access[i - |db.access|];
      }
    }
  }

  // ----- Validation suffices -----

  lemma ReferencesAreFresh(t: Texts, db: Tables, data: ExportData)
    requires SchemaOk(db) && ItemsAccepted(t, data.items) && NoConflicts(db, data)
    ensures
      var ids := ItemIds(data.items);
      && "" !in ids
      && (forall c :: c in db.chunks ==> db.chunks[c].chunk.memoryId !in ids)
      && (forall k :: k in db.keywords ==> k.memoryId !in ids)
  {
    hide FtsExact;
  }

  /** If validation and the conflict check accept a file, applying it violates no key, uniqueness,
      foreign-key or check constraint, in whatever order the keywords are written, and leaves
      exactly the old rows and the file's rows. */
  lemma ValidationSuffices(t: Texts, db: Tables, data: ExportData, order: seq<string>)
    requires SchemaOk(db) && RowsAccepted(t, data) && NoConflicts(db, data) && OrdersMemories(data.keywords, order) && t.Lawful()
    ensures ImportOn(t, db, data, order).Ok?
    ensures Imported(db, data, ImportOn(t, db, data, order).value)
  {
    var ids := ItemIds(data.items);
    ReferencesAreFresh(t, db, data);
    FreshRows(db, data);
    StagesInOrder(t, db, data, order);
    SplitAcceptance(t, data);
    hide *;
    ItemsImported(t, db, data.items);
    var items := ImportItemsOn(db, data.items).value;
    IdsAreIn(db.items, items.items, data.items);
    ChunksImported(items, ids, data.chunks);
    var chunks := ImportChunksOn(items, data.chunks).value;
    KeywordsImported(t, chunks, ids, data.keywords, order);
    var keywords := ImportKeywordsOn(t, chunks, data.keywords, order).value;
    SameLogsSameUse(db, keywords);
    EventsImported(t, keywords, ids, data.events);
    var events := ImportEventsOn(keywords, data.events).value;
    PoliciesImported(t, events, data.policies);
    var policies := ImportPoliciesOn(events, data.policies).value;
    SameLogsSameUse(db, policies);
    AccessImported(policies, ids, data.access);
    EverythingIsIn(db, data, ImportAccessOn(policies, data.access).value);
  }

  lemma SplitAcceptance(t: Texts, data: ExportData)
    requires RowsAccepted(t, data)
    ensures
      var ids := ItemIds(data.items);
      && ItemsAccepted(t, data.items) && ChunksAccepted(ids, data.chunks) && KeywordsAccepted(t, ids, data.keywords)
      && EventsAccepted(t, ids, data.events) && PoliciesAccepted(t, data.policies) && AccessAccepted(ids, data.access)
  {
  }

  lemma FreshRows(db: Tables, data: ExportData)
    requires NoConflicts(db, data)
    ensures forall i :: 0 <= i < |data.items| ==> data.items[i].id !in db.items
    ensures forall i :: 0 <= i < |data.chunks| ==> data.chunks[i].id !in db.chunks
    ensures forall i :: 0 <= i < |data.events| ==> !EventIdUsed(db, data.events[i].id)
    ensures forall i :: 0 <= i < |data.policies| ==> data.policies[i].id !in db.policies
    ensures forall i :: 0 <= i < |data.access| ==> !AccessIdUsed(db, data.access[i].id)
  {
  }

  lemma StagesInOrder(t: Texts, db: Tables, data: ExportData, order: seq<string>)
    ensures
      var items := ImportItemsOn(db, data.items);
      items.Ok? ==>
        var chunks := ImportChunksOn(items.value, data.chunks);
        chunks.Ok? ==>
          var keywords := ImportKeywordsOn(t, chunks.value, data.keywords, order);
          keywords.Ok? ==>
            var events := ImportEventsOn(keywords.value, data.events);
            events.Ok? ==>
              var policies := ImportPoliciesOn(events.value, data.policies);
              policies.Ok? ==> ImportOn(t, db, data, order) == ImportAccessOn(policies.value, data.access)
  {
    hide ImportItemsOn, ImportChunksOn, ImportKeywordsOn, ImportEventsOn, ImportPoliciesOn, ImportAccessOn;
  }

  lemma IdsAreIn(before: map<string, Item>, after: map<string, Item>, items: seq<Item>)
    requires Merged(before, after, items, ItemKey)
    ensures ItemIds(items) <= after.Keys
  {
  }

  lemma SameLogsSameUse(db: Tables, later: Tables)
    ensures later.events == db.events ==> forall id :: EventIdUsed(later, id) <==> EventIdUsed(db, id)
    ensures later.access == db.access ==> forall id :: AccessIdUsed(later, id) <==> AccessIdUsed(db, id)
  {
  }

  lemma EverythingIsIn(db: Tables, data: ExportData, after: Tables)
    requires SchemaOk(after)
    requires Merged(db.items, after.items, data.items, ItemKey) && ChunksMerged(db.chunks, after.chunks, data.chunks)
    requires Merged(db.keywords, after.keywords, data.keywords, KeyOf) && Merged(db.policies, after.policies, data.policies, PolicyKey)
    requires after.events == db.events + data.events && after.access == db.access + data.access
    requires after.backend == db.backend && after.embeddings == db.embeddings && after.statuses == db.statuses && after.vec == db.vec
    ensures Imported(db, data, after)
  {
    hide SchemaOk, Merged, ChunksMerged;
  }
}
