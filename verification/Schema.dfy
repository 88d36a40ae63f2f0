/** The SQLite schema: rows, tables, the constraints the migrations declare, and the statements
    the repositories execute, each as a function on the tables. A statement that would violate a
    key, uniqueness, foreign-key or check constraint fails and changes nothing; deletes cascade;
    the triggers on memory_chunks maintain memory_fts. */
module Schema {
  import opened Prelude

  // ----- Rows -----

  /** A tier as stored and passed around: text that may or may not name a known tier. */
  datatype Tier = Working | Hot | Warm | Cold | Archive | Other(name: string) {
    predicate Valid() { !Other? }
  }

  const DAY: int := 86_400_000_000_000

  /** An instant in nanoseconds; 0 is Go's zero time, which counts as "not set". */
  type Instant = int

  datatype Item = Item(id: string, title: string, body: string, source: string, metadata: string,
                       tier: Tier, importance: int, pinned: bool, createdAt: Instant, updatedAt: Instant,
                       lastAccessedAt: Option<Instant>, archivedAt: Option<Instant>, deletedAt: Option<Instant>)

  datatype Chunk = Chunk(id: string, memoryId: string, index: int, content: string, createdAt: Instant)

  datatype Keyword = Keyword(memoryId: string, index: int, keyword: string, normalized: string,
                             createdAt: Instant, updatedAt: Instant)

  datatype Action = Promoted | Demoted | Archived | Deleted

  /** A lifecycle change, as reported and as stored in an event payload. */
  datatype Change = Change(memoryId: string, action: Action, from: Tier, to: Option<Tier>, policyId: string)

  /** JSON text of an event payload, by the shapes the service writes; Text is any other text. */
  datatype Payload = NoDetail | PinnedTo(pinned: bool) | SoftDelete | Lifecycle(change: Change) | Text(text: string)

  datatype Event = Event(id: int, memoryId: Option<string>, eventType: string, payload: Payload, createdAt: Instant)

  datatype Access = Access(id: int, memoryId: string, accessType: string, tokenId: Option<string>, createdAt: Instant)

  datatype PolicyRow = PolicyRow(id: string, name: string, scope: string, rules: string, enabled: bool,
                                 createdAt: Instant, updatedAt: Instant)

  datatype Backend = SqliteJson | SqliteVec | OtherBackend(name: string)

  datatype Embedding = Embedding(memoryId: string, vector: seq<real>, contentHash: string, rowid: int,
                                 createdAt: Instant, updatedAt: Instant)

  datatype Status = Pending | Indexed | Failed | Skipped

  datatype IndexStatus = IndexStatus(memoryId: string, status: Status, contentHash: string, errorSummary: string,
                                     attempts: int, createdAt: Instant, updatedAt: Instant)

  datatype ChunkRow = ChunkRow(rowid: int, chunk: Chunk)

  datatype FtsRow = FtsRow(content: string, memoryId: string, chunkId: string)

  datatype KeywordKey = KeywordKey(memoryId: string, index: int)

  // ----- Tables -----

  /** The database. `events` and `access` are in insertion order; `lastEventId` and `lastAccessId`
      are the AUTOINCREMENT counters. The embedding tables hold the rows of the one configured
      target, so the chunk id is their key; `vec` is that target's vec0 table. */
  datatype Tables = Tables(
    items: map<string, Item>,
    chunks: map<string, ChunkRow>,
    fts: map<int, FtsRow>,
    keywords: map<KeywordKey, Keyword>,
    events: seq<Event>,
    lastEventId: int,
    policies: map<string, PolicyRow>,
    access: seq<Access>,
    lastAccessId: int,
    backend: Option<Backend>,
    embeddings: map<string, Embedding>,
    statuses: map<string, IndexStatus>,
    vec: map<int, seq<real>>)

  const EMPTY: Tables :=
    Tables(map[], map[], map[], map[], [], 0, map[], [], 0, None, map[], map[], map[])

  datatype Error = Invalid | NotFound | Constraint | Unavailable | Cancelled

  // ----- Constraints -----

  ghost predicate ItemsOk(items: map<string, Item>) {
    forall id :: id in items ==>
      && items[id].id == id
      && items[id].tier.Valid()
      && 0 <= items[id].importance <= 100
  }

  predicate SameSlot(c: Chunk, d: Chunk) { c.memoryId == d.memoryId && c.index == d.index }

  ghost predicate ChunksOk(ids: set<string>, chunks: map<string, ChunkRow>) {
    && (forall c :: c in chunks ==>
          && chunks[c].chunk.id == c
          && chunks[c].chunk.memoryId in ids
          && chunks[c].chunk.index >= 0)
    && (forall c, d :: c in chunks && d in chunks && SameSlot(chunks[c].chunk, chunks[d].chunk) ==> c == d)
  }

  function Projection(chunk: Chunk): FtsRow { FtsRow(chunk.content, chunk.memoryId, chunk.id) }

  /** memory_fts holds exactly the projection of memory_chunks, row by row. */
  ghost predicate FtsExact(chunks: map<string, ChunkRow>, fts: map<int, FtsRow>) {
    && (forall c :: c in chunks ==> chunks[c].rowid in fts && fts[chunks[c].rowid] == Projection(chunks[c].chunk))
    && (forall r :: r in fts ==> fts[r].chunkId in chunks && chunks[fts[r].chunkId].rowid == r)
  }

  predicate SameWord(j: Keyword, k: Keyword) { j.memoryId == k.memoryId && j.normalized == k.normalized }

  ghost predicate KeywordsOk(ids: set<string>, keywords: map<KeywordKey, Keyword>) {
    && (forall k :: k in keywords ==>
          && keywords[k].memoryId == k.memoryId && keywords[k].index == k.index
          && k.memoryId in ids
          && k.index >= 0)
    && (forall j, k :: j in keywords && k in keywords && SameWord(keywords[j], keywords[k]) ==> j == k)
  }

  ghost predicate EventsOk(ids: set<string>, events: seq<Event>, last: int) {
    && (forall i :: 0 <= i < |events| ==>
          events[i].id <= last && (events[i].memoryId.Some? ==> events[i].memoryId.value in ids))
    && (forall i, j :: 0 <= i < j < |events| ==> events[i].id != events[j].id)
  }

  ghost predicate AccessOk(ids: set<string>, access: seq<Access>, last: int) {
    && (forall i :: 0 <= i < |access| ==> access[i].id <= last && access[i].memoryId in ids)
    && (forall i, j :: 0 <= i < j < |access| ==> access[i].id != access[j].id)
  }

  ghost predicate PoliciesOk(policies: map<string, PolicyRow>) {
    forall p :: p in policies ==> policies[p].id == p
  }

  ghost predicate EmbeddingsOk(ids: set<string>, chunks: map<string, ChunkRow>, backend: Option<Backend>, embeddings: map<string, Embedding>) {
    && (forall c :: c in embeddings ==>
          c in chunks && embeddings[c].memoryId in ids && backend.Some?)
    && (forall c, d :: c in embeddings && d in embeddings && embeddings[c].rowid == embeddings[d].rowid ==> c == d)
  }

  ghost predicate StatusesOk(ids: set<string>, chunks: map<string, ChunkRow>, statuses: map<string, IndexStatus>) {
    forall c :: c in statuses ==>
      c in chunks && statuses[c].memoryId in ids && statuses[c].attempts >= 0
  }

  ghost predicate SchemaOk(db: Tables) {
    && ItemsOk(db.items)
    && ChunksOk(db.items.Keys, db.chunks)
    && FtsExact(db.chunks, db.fts)
    && KeywordsOk(db.items.Keys, db.keywords)
    && EventsOk(db.items.Keys, db.events, db.lastEventId)
    && PoliciesOk(db.policies)
    && AccessOk(db.items.Keys, db.access, db.lastAccessId)
    && EmbeddingsOk(db.items.Keys, db.chunks, db.backend, db.embeddings)
    && StatusesOk(db.items.Keys, db.chunks, db.statuses)
  }

  // ----- Row ids -----

  lemma {:induction false} LargestRowid(chunks: map<string, ChunkRow>, ids: set<string>) returns (c: string)
    requires ids != {} && ids <= chunks.Keys
    ensures c in ids && forall d :: d in ids ==> chunks[d].rowid <= chunks[c].rowid
  {
    var x :| x in ids;
    c := x;
    var rest := ids - {x};
    assert forall d :: d in ids ==> d == x || d in rest;
    if rest != {} {
      var top := LargestRowid(chunks, rest);
      if chunks[c].rowid < chunks[top].rowid {
        c := top;
      }
    }
  }

  lemma LargestRowidExists(chunks: map<string, ChunkRow>)
    requires chunks != map[]
    ensures
      var used := set c | c in chunks :: chunks[c].rowid;
      exists r :: r in used && forall s :: s in used ==> s <= r
  {
    assert chunks.Keys != {};
    var c := LargestRowid(chunks, chunks.Keys);
    var used := set c | c in chunks :: chunks[c].rowid;
    assert chunks[c].rowid in used;
  }

  /** The row id SQLite gives the next chunk: one more than the largest in use. */
  function NextRowid(chunks: map<string, ChunkRow>): (next: int)
    ensures forall c :: c in chunks ==> chunks[c].rowid < next
  {
    if chunks == map[] then 1
    else
      LargestRowidExists(chunks);
      var used := set c | c in chunks :: chunks[c].rowid;
      assert forall c :: c in chunks ==> chunks[c].rowid in used;
      var r :| r in used && forall s :: s in used ==> s <= r;
      r + 1
  }

  function Max(x: int, y: int): int { if x < y then y else x }

  // ----- Statements -----

  function InsertItem(db: Tables, item: Item): Result<Tables, Error> {
    if item.id in db.items || !item.tier.Valid() || !(0 <= item.importance <= 100) then Err(Constraint)
    else Ok(db.(items := db.items[item.id := item]))
  }

  function UpdateItemRow(db: Tables, id: string, item: Item): Result<Tables, Error> {
    if id !in db.items then Err(NotFound)
    else if !item.tier.Valid() || !(0 <= item.importance <= 100) then Err(Constraint)
    else Ok(db.(items := db.items[id := item]))
  }

  predicate ChunkSlotTaken(chunks: map<string, ChunkRow>, memoryId: string, index: int) {
    exists c :: c in chunks && chunks[c].chunk.memoryId == memoryId && chunks[c].chunk.index == index
  }

  function InsertChunk(db: Tables, chunk: Chunk): Result<Tables, Error> {
    var rowid := NextRowid(db.chunks);
    if chunk.id in db.chunks || chunk.memoryId !in db.items || chunk.index < 0
       || ChunkSlotTaken(db.chunks, chunk.memoryId, chunk.index) || rowid in db.fts then Err(Constraint)
    else Ok(db.(chunks := db.chunks[chunk.id := ChunkRow(rowid, chunk)], fts := db.fts[rowid := Projection(chunk)]))
  }

  function ChunksOf(chunks: map<string, ChunkRow>, memoryId: string): set<string> {
    set c | c in chunks && chunks[c].chunk.memoryId == memoryId
  }

  function RowidsIn(chunks: map<string, ChunkRow>, ids: set<string>): set<int> {
    set c | c in ids && c in chunks :: chunks[c].rowid
  }

  /** DELETE FROM memory_chunks: the trigger drops the memory_fts rows, the foreign keys the
      embeddings and their status. */
  function DeleteChunks(db: Tables, memoryId: string): Tables {
    var gone := ChunksOf(db.chunks, memoryId);
    db.(chunks := db.chunks - gone, fts := db.fts - RowidsIn(db.chunks, gone),
        embeddings := db.embeddings - gone, statuses := db.statuses - gone)
  }

  predicate NormalizedTaken(keywords: map<KeywordKey, Keyword>, memoryId: string, normalized: string) {
    exists k :: k in keywords && k.memoryId == memoryId && keywords[k].normalized == normalized
  }

  function InsertKeyword(db: Tables, k: Keyword): Result<Tables, Error> {
    var key := KeywordKey(k.memoryId, k.index);
    if key in db.keywords || k.memoryId !in db.items || k.index < 0
       || NormalizedTaken(db.keywords, k.memoryId, k.normalized) then Err(Constraint)
    else Ok(db.(keywords := db.keywords[key := k]))
  }

  function DeleteKeywords(db: Tables, memoryId: string): Tables {
    db.(keywords := map k | k in db.keywords && k.memoryId != memoryId :: db.keywords[k])
  }

  function InsertEvent(db: Tables, e: Event): Result<Tables, Error> {
    if (exists i :: 0 <= i < |db.events| && db.events[i].id == e.id)
       || (e.memoryId.Some? && e.memoryId.value !in db.items) then Err(Constraint)
    else Ok(db.(events := db.events + [e], lastEventId := Max(db.lastEventId, e.id)))
  }

  function InsertAccess(db: Tables, a: Access): Result<Tables, Error> {
    if (exists i :: 0 <= i < |db.access| && db.access[i].id == a.id) || a.memoryId !in db.items then Err(Constraint)
    else Ok(db.(access := db.access + [a], lastAccessId := Max(db.lastAccessId, a.id)))
  }

  function InsertPolicy(db: Tables, p: PolicyRow): Result<Tables, Error> {
    if p.id in db.policies then Err(Constraint) else Ok(db.(policies := db.policies[p.id := p]))
  }

  predicate RowidTaken(embeddings: map<string, Embedding>, chunkId: string, rowid: int) {
    exists c :: c in embeddings && c != chunkId && embeddings[c].rowid == rowid
  }

  /** INSERT ... ON CONFLICT(chunk, provider, model) DO UPDATE: the creation time survives. */
  function PutEmbedding(db: Tables, chunkId: string, e: Embedding): Result<Tables, Error> {
    if chunkId !in db.chunks || e.memoryId !in db.items || db.backend.None? || RowidTaken(db.embeddings, chunkId, e.rowid) then Err(Constraint)
    else
      var kept := if chunkId in db.embeddings then e.(createdAt := db.embeddings[chunkId].createdAt) else e;
      Ok(db.(embeddings := db.embeddings[chunkId := kept]))
  }

  /** The status upsert: attempts accumulate and the creation time survives. */
  function PutStatus(db: Tables, chunkId: string, s: IndexStatus): Result<Tables, Error> {
    if chunkId !in db.chunks || s.memoryId !in db.items || s.attempts < 0 then Err(Constraint)
    else
      var kept := if chunkId in db.statuses
                  then s.(createdAt := db.statuses[chunkId].createdAt, attempts := db.statuses[chunkId].attempts + s.attempts)
                  else s;
      Ok(db.(statuses := db.statuses[chunkId := kept]))
  }

  // ----- Every statement keeps every constraint -----

  lemma InsertItemKeepsSchema(db: Tables, item: Item)
    requires SchemaOk(db) && InsertItem(db, item).Ok?
    ensures SchemaOk(InsertItem(db, item).value)
  {
    var ids := db.items.Keys;
    assert InsertItem(db, item).value.items.Keys == ids + {item.id};
  }

  lemma UpdateItemKeepsSchema(db: Tables, id: string, item: Item)
    requires SchemaOk(db) && item.id == id && UpdateItemRow(db, id, item).Ok?
    ensures SchemaOk(UpdateItemRow(db, id, item).value)
    ensures UpdateItemRow(db, id, item).value.items.Keys == db.items.Keys
  {
    hide ChunksOk, FtsExact, KeywordsOk, EventsOk, PoliciesOk, AccessOk, EmbeddingsOk, StatusesOk;
    assert UpdateItemRow(db, id, item).value.items.Keys == db.items.Keys;
  }

  lemma AddedChunkFits(ids: set<string>, chunks: map<string, ChunkRow>, row: ChunkRow)
    requires ChunksOk(ids, chunks)
    requires row.chunk.id !in chunks && row.chunk.memoryId in ids && row.chunk.index >= 0
    requires !ChunkSlotTaken(chunks, row.chunk.memoryId, row.chunk.index)
    ensures ChunksOk(ids, chunks[row.chunk.id := row])
  {
  }

  lemma InsertChunkProjects(db: Tables, chunk: Chunk)
    requires SchemaOk(db) && InsertChunk(db, chunk).Ok?
    ensures FtsExact(InsertChunk(db, chunk).value.chunks, InsertChunk(db, chunk).value.fts)
  {
  }

  lemma InsertChunkKeepsSchema(db: Tables, chunk: Chunk)
    requires SchemaOk(db) && InsertChunk(db, chunk).Ok?
    ensures SchemaOk(InsertChunk(db, chunk).value)
  {
    var after := InsertChunk(db, chunk).value;
    InsertChunkProjects(db, chunk);
    AddedChunkFits(db.items.Keys, db.chunks, after.chunks[chunk.id]);
    hide FtsExact, NextRowid, ChunksOk;
    assert EmbeddingsOk(after.items.Keys, after.chunks, after.backend, after.embeddings);
  }

  lemma DeleteChunksKeepsSchema(db: Tables, memoryId: string)
    requires SchemaOk(db)
    ensures SchemaOk(DeleteChunks(db, memoryId))
    ensures !ChunkSlotTaken(DeleteChunks(db, memoryId).chunks, memoryId, 0)
  {
    var gone := ChunksOf(db.chunks, memoryId);
    ChunksFollowDeletion(db.items.Keys, db.chunks, memoryId);
    FtsFollowsDeletion(db.chunks, db.fts, gone);
    DerivedFollowDeletion(db.items.Keys, db, gone);
    hide ItemsOk, ChunksOk, FtsExact, KeywordsOk, EventsOk, PoliciesOk, AccessOk, EmbeddingsOk, StatusesOk, ChunksOf, ChunkSlotTaken;
  }

  lemma ChunksFollowDeletion(ids: set<string>, chunks: map<string, ChunkRow>, memoryId: string)
    requires ChunksOk(ids, chunks)
    ensures ChunksOk(ids, chunks - ChunksOf(chunks, memoryId))
    ensures !ChunkSlotTaken(chunks - ChunksOf(chunks, memoryId), memoryId, 0)
    ensures forall c :: c in chunks ==> chunks[c].chunk.id == c
  {
  }

  lemma DerivedFollowDeletion(ids: set<string>, db: Tables, gone: set<string>)
    requires EmbeddingsOk(ids, db.chunks, db.backend, db.embeddings) && StatusesOk(ids, db.chunks, db.statuses)
    ensures EmbeddingsOk(ids, db.chunks - gone, db.backend, db.embeddings - gone)
    ensures StatusesOk(ids, db.chunks - gone, db.statuses - gone)
  {
  }

  lemma FtsFollowsDeletion(chunks: map<string, ChunkRow>, fts: map<int, FtsRow>, gone: set<string>)
    requires FtsExact(chunks, fts) && forall c :: c in chunks ==> chunks[c].chunk.id == c
    ensures FtsExact(chunks - gone, fts - RowidsIn(chunks, gone))
  {
    forall c, d | c in chunks && d in chunks && chunks[c].rowid == chunks[d].rowid
      ensures c == d
    {
      assert fts[chunks[c].rowid].chunkId == c;
    }
  }

  /** With the schema intact, the row id SQLite picks is free in memory_fts too. */
  lemma NextRowidIsFree(db: Tables)
    requires SchemaOk(db)
    ensures NextRowid(db.chunks) !in db.fts
  {
    assert forall r :: r in db.fts ==> db.fts[r].chunkId in db.chunks;
  }

  lemma InsertKeywordKeepsSchema(db: Tables, k: Keyword)
    requires SchemaOk(db) && InsertKeyword(db, k).Ok?
    ensures SchemaOk(InsertKeyword(db, k).value)
  {
    hide ItemsOk, ChunksOk, FtsExact, EventsOk, PoliciesOk, AccessOk, EmbeddingsOk, StatusesOk;
  }

  lemma DeleteKeywordsKeepsSchema(db: Tables, memoryId: string)
    requires SchemaOk(db)
    ensures SchemaOk(DeleteKeywords(db, memoryId))
  {
    hide ItemsOk, ChunksOk, FtsExact, EventsOk, PoliciesOk, AccessOk, EmbeddingsOk, StatusesOk;
  }

  lemma InsertEventKeepsSchema(db: Tables, e: Event)
    requires SchemaOk(db) && InsertEvent(db, e).Ok?
    ensures SchemaOk(InsertEvent(db, e).value)
  {
    hide ItemsOk, ChunksOk, FtsExact, KeywordsOk, PoliciesOk, AccessOk, EmbeddingsOk, StatusesOk;
  }

  lemma InsertAccessKeepsSchema(db: Tables, a: Access)
    requires SchemaOk(db) && InsertAccess(db, a).Ok?
    ensures SchemaOk(InsertAccess(db, a).value)
  {
    hide ItemsOk, ChunksOk, FtsExact, KeywordsOk, EventsOk, PoliciesOk, EmbeddingsOk, StatusesOk;
  }

  lemma PutEmbeddingKeepsSchema(db: Tables, chunkId: string, e: Embedding)
    requires SchemaOk(db) && PutEmbedding(db, chunkId, e).Ok?
    ensures SchemaOk(PutEmbedding(db, chunkId, e).value)
  {
    hide ItemsOk, ChunksOk, FtsExact, KeywordsOk, EventsOk, PoliciesOk, AccessOk, StatusesOk;
  }

  lemma PutStatusKeepsSchema(db: Tables, chunkId: string, s: IndexStatus)
    requires SchemaOk(db) && PutStatus(db, chunkId, s).Ok?
    ensures SchemaOk(PutStatus(db, chunkId, s).value)
  {
    hide ItemsOk, ChunksOk, FtsExact, KeywordsOk, EventsOk, PoliciesOk, AccessOk, EmbeddingsOk;
  }
}
