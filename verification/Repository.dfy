/** The repositories: validation in front of the statements of Schema, and the Store that executes
    them. Each method is proved against the function of the same name with suffix `On`, which maps
    the tables before to the tables after. When a method fails the tables are what the statements
    so far have made of them; the surrounding transaction is rolled back by its caller. */
module Repository {
  import opened Prelude
  import opened Schema
  import opened Keywords
  import opened Ordering

  datatype MemoryUpdate = MemoryUpdate(
    title: Option<string>, body: Option<string>, source: Option<string>, metadata: Option<string>,
    tier: Option<Tier>, importance: Option<int>, pinned: Option<bool>, lastAccessedAt: Option<Instant>,
    archivedAt: Option<Instant>, deletedAt: Option<Instant>, clearArchivedAt: bool, updatedAt: Instant)

  function NoUpdate(now: Instant): MemoryUpdate {
    MemoryUpdate(None, None, None, None, None, None, None, None, None, None, false, now)
  }

  datatype Target = Target(provider: string, model: string, dimensions: int, scope: string)

  function DefaultJson(s: string): string { if s == "" then "{}" else s }

  // ----- Validation -----

  predicate ValidItem(item: Item) {
    && item.id != "" && item.body != "" && item.tier.Valid() && 0 <= item.importance <= 100
    && item.createdAt != 0 && item.updatedAt != 0
  }

  predicate ValidChunk(c: Chunk) {
    c.id != "" && c.memoryId != "" && c.index >= 0 && c.content != "" && c.createdAt != 0
  }

  predicate ValidKeyword(t: Texts, k: Keyword) {
    && k.memoryId != "" && k.index >= 0 && t.trim(k.keyword) != "" && t.trim(k.normalized) != ""
    && k.createdAt != 0 && k.updatedAt != 0
  }

  predicate ValidTarget(t: Texts, target: Target) {
    && t.trim(target.provider) != "" && t.trim(target.model) != "" && target.dimensions > 0
    && (target.scope == "body" || target.scope == "title_keywords")
  }

  predicate ValidAccess(a: Access) { a.memoryId != "" && a.accessType != "" && a.createdAt != 0 }

  predicate ValidPolicy(p: PolicyRow) { p.id != "" && p.name != "" && p.createdAt != 0 && p.updatedAt != 0 }

  predicate ValidUpdate(u: MemoryUpdate) {
    && u.updatedAt != 0
    && (u.body.Some? ==> u.body.value != "")
    && (u.tier.Some? ==> u.tier.value.Valid())
    && (u.importance.Some? ==> 0 <= u.importance.value <= 100)
  }

  // ----- Items -----

  function CreateItemOn(db: Tables, item: Item): Result<Tables, Error> {
    if !ValidItem(item) then Err(Invalid) else InsertItem(db, item.(metadata := DefaultJson(item.metadata)))
  }

  function GetItemOn(db: Tables, id: string): Result<Item, Error> {
    if id == "" then Err(Invalid) else if id !in db.items then Err(NotFound) else Ok(db.items[id])
  }

  function Or<T>(change: Option<T>, current: T): T { if change.Some? then change.value else current }

  /** The row after an update; clearing archived_at wins over setting it. */
  function Patched(item: Item, u: MemoryUpdate): Item {
    item.(title := Or(u.title, item.title),
          body := Or(u.body, item.body),
          source := Or(u.source, item.source),
          metadata := if u.metadata.Some? then DefaultJson(u.metadata.value) else item.metadata,
          tier := Or(u.tier, item.tier),
          importance := Or(u.importance, item.importance),
          pinned := Or(u.pinned, item.pinned),
          updatedAt := u.updatedAt,
          lastAccessedAt := if u.lastAccessedAt.Some? then u.lastAccessedAt else item.lastAccessedAt,
          archivedAt := if u.clearArchivedAt then None else if u.archivedAt.Some? then u.archivedAt else item.archivedAt,
          deletedAt := if u.deletedAt.Some? then u.deletedAt else item.deletedAt)
  }

  function UpdateItemOn(db: Tables, id: string, u: MemoryUpdate): Result<Tables, Error> {
    if id == "" || !ValidUpdate(u) then Err(Invalid)
    else if id !in db.items then Err(NotFound)
    else UpdateItemRow(db, id, Patched(db.items[id], u))
  }

  // ----- Chunks and keywords -----

  function AddChunkOn(db: Tables, c: Chunk): Result<Tables, Error> {
    if !ValidChunk(c) then Err(Invalid) else InsertChunk(db, c)
  }

  function VecRowids(embeddings: map<string, Embedding>, memoryId: string): set<int> {
    set c | c in embeddings && embeddings[c].memoryId == memoryId :: embeddings[c].rowid
  }

  /** The vec0 rows of a memory's embeddings go before its chunks do. */
  function DeleteVecRowsOn(db: Tables, memoryId: string): Tables {
    if db.backend == Some(SqliteVec) then db.(vec := db.vec - VecRowids(db.embeddings, memoryId)) else db
  }

  function AddChunksOn(db: Tables, memoryId: string, chunks: seq<Chunk>): Result<Tables, Error> {
    if chunks == [] then Ok(db)
    else
      var n := |chunks| - 1;
      var before :- AddChunksOn(db, memoryId, chunks[..n]);
      if chunks[n].memoryId != memoryId then Err(Invalid) else AddChunkOn(before, chunks[n])
  }

  function ReplaceChunksOn(db: Tables, memoryId: string, chunks: seq<Chunk>): Result<Tables, Error> {
    if memoryId == "" then Err(Invalid)
    else AddChunksOn(DeleteChunks(DeleteVecRowsOn(db, memoryId), memoryId), memoryId, chunks)
  }

  function AddKeywordsOn(t: Texts, db: Tables, memoryId: string, keywords: seq<Keyword>): Result<Tables, Error> {
    if keywords == [] then Ok(db)
    else
      var n := |keywords| - 1;
      var before :- AddKeywordsOn(t, db, memoryId, keywords[..n]);
      var k := keywords[n].(memoryId := memoryId);
      if !ValidKeyword(t, k) then Err(Invalid) else InsertKeyword(before, k)
  }

  function ReplaceKeywordsOn(t: Texts, db: Tables, memoryId: string, keywords: seq<Keyword>): Result<Tables, Error> {
    if memoryId == "" then Err(Invalid) else AddKeywordsOn(t, DeleteKeywords(db, memoryId), memoryId, keywords)
  }

  predicate ByIndex(j: KeywordKey, k: KeywordKey) {
    if j.index == k.index then TextLess(j.memoryId, k.memoryId) else j.index < k.index
  }

  function KeysOf(keywords: map<KeywordKey, Keyword>, memoryId: string): set<KeywordKey> {
    set k | k in keywords && k.memoryId == memoryId
  }

  lemma IndexOrdersKeys(keys: set<KeywordKey>)
    ensures Orders(ByIndex, keys)
  {
    forall j: KeywordKey, k: KeywordKey
      ensures !ByIndex(j, j) && (j == k || ByIndex(j, k) || ByIndex(k, j))
    {
      TextLessIsTotal(j.memoryId, k.memoryId);
      TextLessIsTotal(j.memoryId, j.memoryId);
    }
    forall i, j, k | ByIndex(i, j) && ByIndex(j, k)
      ensures ByIndex(i, k)
    {
      if i.index == j.index == k.index {
        TextLessIsTransitive(i.memoryId, j.memoryId, k.memoryId);
      }
    }
  }

  function WordsAt(keywords: map<KeywordKey, Keyword>, keys: seq<KeywordKey>): seq<string>
    requires forall i :: 0 <= i < |keys| ==> keys[i] in keywords
  {
    seq(|keys|, i requires 0 <= i < |keys| => keywords[keys[i]].keyword)
  }

  /** The stored keywords of a memory, in display order. */
  ghost function WordsOf(keywords: map<KeywordKey, Keyword>, memoryId: string): seq<string> {
    IndexOrdersKeys(KeysOf(keywords, memoryId));
    var keys := Listing(ByIndex, KeysOf(keywords, memoryId));
    assert forall i :: 0 <= i < |keys| ==> keys[i] in keys;
    WordsAt(keywords, keys)
  }

  // ----- Logs and policies -----

  function RecordEventOn(db: Tables, memoryId: string, eventType: string, payload: Payload, createdAt: Instant): Result<Tables, Error> {
    if eventType == "" || createdAt == 0 then Err(Invalid)
    else InsertEvent(db, Event(db.lastEventId + 1, if memoryId == "" then None else Some(memoryId), eventType, payload, createdAt))
  }

  function RecordAccessOn(db: Tables, memoryId: string, accessType: string, createdAt: Instant): Result<Tables, Error> {
    var a := Access(db.lastAccessId + 1, memoryId, accessType, None, createdAt);
    if !ValidAccess(a) then Err(Invalid) else InsertAccess(db, a)
  }

  function AccessesSince(access: seq<Access>, memoryId: string, since: Instant): nat {
    if access == [] then 0
    else
      var a := access[|access| - 1];
      AccessesSince(access[..|access| - 1], memoryId, since) + (if a.memoryId == memoryId && a.createdAt >= since then 1 else 0)
  }

  function CreatePolicyOn(db: Tables, p: PolicyRow): Result<Tables, Error> {
    if !ValidPolicy(p) then Err(Invalid)
    else InsertPolicy(db, p.(scope := DefaultJson(p.scope), rules := DefaultJson(p.rules)))
  }

  function EnabledPolicies(policies: map<string, PolicyRow>): set<PolicyRow> {
    set p | p in policies && policies[p].enabled :: policies[p]
  }

  predicate Earlier(s: Instant, x: string, t: Instant, y: string) { if s == t then TextLess(x, y) else s < t }

  predicate ByCreation(p: PolicyRow, q: PolicyRow) { Earlier(p.createdAt, p.id, q.createdAt, q.id) }

  lemma EarlierOrders(s: Instant, x: string, t: Instant, y: string, u: Instant, z: string)
    ensures !Earlier(s, x, s, x)
    ensures Earlier(s, x, t, y) && Earlier(t, y, u, z) ==> Earlier(s, x, u, z)
    ensures (s == t && x == y) || Earlier(s, x, t, y) || Earlier(t, y, s, x)
  {
    TextLessIsTotal(x, x);
    TextLessIsTotal(x, y);
    if TextLess(x, y) && TextLess(y, z) {
      TextLessIsTransitive(x, y, z);
    }
  }

  lemma CreationOrdersPolicies(policies: map<string, PolicyRow>, rows: set<PolicyRow>)
    requires PoliciesOk(policies) && forall p :: p in rows ==> p.id in policies && policies[p.id] == p
    ensures Orders(ByCreation, rows)
  {
    forall p: PolicyRow, q: PolicyRow, r: PolicyRow
      ensures !ByCreation(p, p)
      ensures ByCreation(p, q) && ByCreation(q, r) ==> ByCreation(p, r)
      ensures p in rows && q in rows ==> p == q || ByCreation(p, q) || ByCreation(q, p)
    {
      EarlierOrders(p.createdAt, p.id, q.createdAt, q.id, r.createdAt, r.id);
    }
  }

  // ----- The embedding index -----

  function UpsertVectorMetadataOn(t: Texts, db: Tables, target: Target, backend: Backend, now: Instant): Result<Tables, Error> {
    if !ValidTarget(t, target) || backend.OtherBackend? || now == 0 then Err(Invalid)
    else Ok(db.(backend := Some(backend)))
  }

  function UpsertEmbeddingOn(t: Texts, db: Tables, target: Target, chunkId: string, e: Embedding): Result<Tables, Error> {
    if chunkId == "" || e.memoryId == "" || !ValidTarget(t, target) || |e.vector| != target.dimensions
       || t.trim(e.contentHash) == "" || e.rowid == 0 || e.createdAt == 0 || e.updatedAt == 0 then Err(Invalid)
    else
      var stored :- PutEmbedding(db, chunkId, e);
      if stored.backend == Some(SqliteVec) then Ok(stored.(vec := stored.vec[e.rowid := e.vector])) else Ok(stored)
  }

  function UpsertStatusOn(t: Texts, db: Tables, target: Target, chunkId: string, s: IndexStatus): Result<Tables, Error> {
    if chunkId == "" || s.memoryId == "" || !ValidTarget(t, target) || s.attempts < 0 || s.createdAt == 0 || s.updatedAt == 0
    then Err(Invalid)
    else PutStatus(db, chunkId, s)
  }

  // ----- The store -----

  function WithoutChunks(db: Tables, gone: set<string>): Tables {
    db.(chunks := db.chunks - gone, fts := db.fts - RowidsIn(db.chunks, gone),
        embeddings := db.embeddings - gone, statuses := db.statuses - gone)
  }

  lemma OneChunkLess(db: Tables, gone: set<string>, c: string)
    requires c in db.chunks && c !in gone
    ensures
      var mid := WithoutChunks(db, gone);
      WithoutChunks(db, gone + {c})
      == mid.(chunks := mid.chunks - {c}, embeddings := mid.embeddings - {c}, statuses := mid.statuses - {c},
              fts := mid.fts - {db.chunks[c].rowid})
  {
    assert RowidsIn(db.chunks, gone + {c}) == RowidsIn(db.chunks, gone) + {db.chunks[c].rowid};
    var (mid, after) := (WithoutChunks(db, gone), WithoutChunks(db, gone + {c}));
    assert after.chunks == mid.chunks - {c} && after.embeddings == mid.embeddings - {c} && after.statuses == mid.statuses - {c};
    assert after.fts == mid.fts - {db.chunks[c].rowid};
  }

  class Store {
    var db: Tables

    constructor ()
      ensures db == EMPTY
    {
      db := EMPTY;
    }

    /** Ends a transaction that failed: everything is as it was when it began. */
    method Rollback(saved: Tables)
      modifies this
      ensures db == saved
    {
      db := saved;
    }

    method Execute(r: Result<Tables, Error>) returns (e: Result<(), Error>)
      modifies this
      ensures r.Ok? ==> e == Ok(()) && db == r.value
      ensures r.Err? ==> e == Err(r.error) && db == old(db)
    {
      if r.Err? {
        return Err(r.error);
      }
      db := r.value;
      return Ok(());
    }

    method CreateItem(item: Item) returns (e: Result<(), Error>)
      modifies this
      ensures e.Ok? ==> CreateItemOn(old(db), item) == Ok(db)
      ensures e.Err? ==> CreateItemOn(old(db), item) == Err(e.error)
    {
      if !ValidItem(item) {
        return Err(Invalid);
      }
      e := Execute(InsertItem(db, item.(metadata := DefaultJson(item.metadata))));
    }

    method UpdateItem(id: string, u: MemoryUpdate) returns (e: Result<(), Error>)
      modifies this
      ensures e.Ok? ==> UpdateItemOn(old(db), id, u) == Ok(db)
      ensures e.Err? ==> UpdateItemOn(old(db), id, u) == Err(e.error)
    {
      if id == "" || !ValidUpdate(u) {
        return Err(Invalid);
      }
      if id !in db.items {
        return Err(NotFound);
      }
      e := Execute(UpdateItemRow(db, id, Patched(db.items[id], u)));
    }

    method AddChunk(c: Chunk) returns (e: Result<(), Error>)
      modifies this
      ensures e.Ok? ==> AddChunkOn(old(db), c) == Ok(db)
      ensures e.Err? ==> AddChunkOn(old(db), c) == Err(e.error)
    {
      if !ValidChunk(c) {
        return Err(Invalid);
      }
      e := InsertChunkRow(c);
    }

    /** Trigger memory_chunks_ai. */
    method AfterChunkInsert(row: ChunkRow)
      modifies this
      ensures db == old(db).(fts := old(db).fts[row.rowid := Projection(row.chunk)])
    {
      db := db.(fts := db.fts[row.rowid := FtsRow(row.chunk.content, row.chunk.memoryId, row.chunk.id)]);
    }

    /** Trigger memory_chunks_ad. */
    method AfterChunkDelete(row: ChunkRow)
      modifies this
      ensures db == old(db).(fts := old(db).fts - {row.rowid})
    {
      db := db.(fts := db.fts - {row.rowid});
    }

    method InsertChunkRow(chunk: Chunk) returns (e: Result<(), Error>)
      modifies this
      ensures e.Ok? ==> InsertChunk(old(db), chunk) == Ok(db)
      ensures e.Err? ==> InsertChunk(old(db), chunk) == Err(e.error) && db == old(db)
    {
      hide NextRowid, ChunkSlotTaken;
      var row := ChunkRow(NextRowid(db.chunks), chunk);
      if chunk.id in db.chunks || chunk.memoryId !in db.items || chunk.index < 0
         || ChunkSlotTaken(db.chunks, chunk.memoryId, chunk.index) || row.rowid in db.fts {
        return Err(Constraint);
      }
      db := db.(chunks := db.chunks[chunk.id := row]);
      AfterChunkInsert(row);
      return Ok(());
    }

    /** DELETE FROM memory_chunks, row by row: cascades, then the trigger for that row. */
    method DeleteChunkRows(memoryId: string)
      modifies this
      ensures db == DeleteChunks(old(db), memoryId)
    {
      ghost var start := db;
      var rest := ChunksOf(db.chunks, memoryId);
      ghost var done: set<string> := {};
      while rest != {}
        invariant done + rest == ChunksOf(start.chunks, memoryId) && done !! rest
        invariant db == WithoutChunks(start, done)
        decreases rest
      {
        var c :| c in rest;
        var row := db.chunks[c];
        db := db.(chunks := db.chunks - {c}, embeddings := db.embeddings - {c}, statuses := db.statuses - {c});
        AfterChunkDelete(row);
        OneChunkLess(start, done, c);
        rest, done := rest - {c}, done + {c};
      }
    }

    method DeleteVecRows(memoryId: string)
      modifies this
      ensures db == DeleteVecRowsOn(old(db), memoryId)
    {
      var pending: set<int> := {};
      if db.backend == Some(SqliteVec) {
        pending := VecRowids(db.embeddings, memoryId);
      }
      db := db.(vec := db.vec - pending);
    }

    method ReplaceChunks(memoryId: string, chunks: seq<Chunk>) returns (e: Result<(), Error>)
      modifies this
      ensures e.Ok? ==> ReplaceChunksOn(old(db), memoryId, chunks) == Ok(db)
      ensures e.Err? ==> ReplaceChunksOn(old(db), memoryId, chunks) == Err(e.error)
    {
      if memoryId == "" {
        return Err(Invalid);
      }
      DeleteVecRows(memoryId);
      DeleteChunkRows(memoryId);
      ghost var emptied := db;
      for k := 0 to |chunks|
        invariant AddChunksOn(emptied, memoryId, chunks[..k]) == Ok(db)
      {
        assert chunks[..k + 1][..k] == chunks[..k];
        if chunks[k].memoryId != memoryId {
          AddChunksStops(emptied, memoryId, chunks, k + 1);
          return Err(Invalid);
        }
        e := AddChunk(chunks[k]);
        if e.Err? {
          AddChunksStops(emptied, memoryId, chunks, k + 1);
          return;
        }
      }
      assert chunks[..|chunks|] == chunks;
      return Ok(());
    }

    method ReplaceKeywords(t: Texts, memoryId: string, keywords: seq<Keyword>) returns (e: Result<(), Error>)
      modifies this
      ensures e.Ok? ==> ReplaceKeywordsOn(t, old(db), memoryId, keywords) == Ok(db)
      ensures e.Err? ==> ReplaceKeywordsOn(t, old(db), memoryId, keywords) == Err(e.error)
    {
      if memoryId == "" {
        return Err(Invalid);
      }
      db := DeleteKeywords(db, memoryId);
      ghost var emptied := db;
      hide ValidKeyword, InsertKeyword, DeleteKeywords;
      for k := 0 to |keywords|
        invariant AddKeywordsOn(t, emptied, memoryId, keywords[..k]) == Ok(db)
      {
        var keyword := keywords[k].(memoryId := memoryId);
        NextKeywordAdded(t, emptied, memoryId, keywords, k);
        if !ValidKeyword(t, keyword) {
          AddKeywordsStops(t, emptied, memoryId, keywords, k + 1);
          return Err(Invalid);
        }
        e := Execute(InsertKeyword(db, keyword));
        if e.Err? {
          AddKeywordsStops(t, emptied, memoryId, keywords, k + 1);
          return;
        }
      }
      assert keywords[..|keywords|] == keywords;
      return Ok(());
    }

    method ListKeywords(memoryId: string) returns (words: seq<string>)
      ensures words == WordsOf(db.keywords, memoryId)
    {
      var keys := KeysOf(db.keywords, memoryId);
      IndexOrdersKeys(keys);
      var list := List(ByIndex, keys);
      ListingIsUnique(ByIndex, keys, list, Listing(ByIndex, keys));
      assert forall i :: 0 <= i < |list| ==> list[i] in list;
      words := WordsAt(db.keywords, list);
    }

    method RecordEvent(memoryId: string, eventType: string, payload: Payload, createdAt: Instant) returns (e: Result<(), Error>)
      modifies this
      ensures e.Ok? ==> RecordEventOn(old(db), memoryId, eventType, payload, createdAt) == Ok(db)
      ensures e.Err? ==> RecordEventOn(old(db), memoryId, eventType, payload, createdAt) == Err(e.error)
    {
      if eventType == "" || createdAt == 0 {
        return Err(Invalid);
      }
      var owner := if memoryId == "" then None else Some(memoryId);
      e := Execute(InsertEvent(db, Event(db.lastEventId + 1, owner, eventType, payload, createdAt)));
    }

    method RecordAccess(memoryId: string, accessType: string, createdAt: Instant) returns (e: Result<(), Error>)
      modifies this
      ensures e.Ok? ==> RecordAccessOn(old(db), memoryId, accessType, createdAt) == Ok(db)
      ensures e.Err? ==> RecordAccessOn(old(db), memoryId, accessType, createdAt) == Err(e.error)
    {
      var a := Access(db.lastAccessId + 1, memoryId, accessType, None, createdAt);
      if !ValidAccess(a) {
        return Err(Invalid);
      }
      e := Execute(InsertAccess(db, a));
    }

    /** The enabled policies in the order the lifecycle consults them. */
    method ListEnabled() returns (rows: seq<PolicyRow>)
      requires PoliciesOk(db.policies)
      ensures IsListing(ByCreation, EnabledPolicies(db.policies), rows)
    {
      var enabled := EnabledPolicies(db.policies);
      CreationOrdersPolicies(db.policies, enabled);
      rows := List(ByCreation, enabled);
    }

    method CreatePolicy(p: PolicyRow) returns (e: Result<(), Error>)
      modifies this
      ensures e.Ok? ==> CreatePolicyOn(old(db), p) == Ok(db)
      ensures e.Err? ==> CreatePolicyOn(old(db), p) == Err(e.error)
    {
      if !ValidPolicy(p) {
        return Err(Invalid);
      }
      e := Execute(InsertPolicy(db, p.(scope := DefaultJson(p.scope), rules := DefaultJson(p.rules))));
    }

    method UpsertVectorMetadata(t: Texts, target: Target, backend: Backend, now: Instant) returns (e: Result<(), Error>)
      modifies this
      ensures e.Ok? ==> UpsertVectorMetadataOn(t, old(db), target, backend, now) == Ok(db)
      ensures e.Err? ==> UpsertVectorMetadataOn(t, old(db), target, backend, now) == Err(e.error)
    {
      if !ValidTarget(t, target) || backend.OtherBackend? || now == 0 {
        return Err(Invalid);
      }
      db := db.(backend := Some(backend));
      return Ok(());
    }

    method UpsertEmbedding(t: Texts, target: Target, chunkId: string, embedding: Embedding) returns (e: Result<(), Error>)
      modifies this
      ensures e.Ok? ==> UpsertEmbeddingOn(t, old(db), target, chunkId, embedding) == Ok(db)
      ensures e.Err? ==> UpsertEmbeddingOn(t, old(db), target, chunkId, embedding) == Err(e.error)
    {
      if chunkId == "" || embedding.memoryId == "" || !ValidTarget(t, target) || |embedding.vector| != target.dimensions
         || t.trim(embedding.contentHash) == "" || embedding.rowid == 0 || embedding.createdAt == 0 || embedding.updatedAt == 0 {
        return Err(Invalid);
      }
      e := Execute(PutEmbedding(db, chunkId, embedding));
      if e.Ok? && db.backend == Some(SqliteVec) {
        var vec := db.vec - {embedding.rowid};
        vec := vec[embedding.rowid := embedding.vector];
        assert vec == db.vec[embedding.rowid := embedding.vector];
        db := db.(vec := vec);
      }
    }

    method UpsertStatus(t: Texts, target: Target, chunkId: string, s: IndexStatus) returns (e: Result<(), Error>)
      modifies this
      ensures e.Ok? ==> UpsertStatusOn(t, old(db), target, chunkId, s) == Ok(db)
      ensures e.Err? ==> UpsertStatusOn(t, old(db), target, chunkId, s) == Err(e.error)
    {
      if chunkId == "" || s.memoryId == "" || !ValidTarget(t, target) || s.attempts < 0 || s.createdAt == 0 || s.updatedAt == 0 {
        return Err(Invalid);
      }
      e := Execute(PutStatus(db, chunkId, s));
    }
  }

  lemma {:induction false} AddChunksStops(db: Tables, memoryId: string, chunks: seq<Chunk>, k: nat)
    requires k <= |chunks| && AddChunksOn(db, memoryId, chunks[..k]).Err?
    ensures AddChunksOn(db, memoryId, chunks) == Err(AddChunksOn(db, memoryId, chunks[..k]).error)
  {
    hide AddChunkOn;
    if k < |chunks| {
      var n := |chunks| - 1;
      assert chunks[..n][..k] == chunks[..k];
      AddChunksStops(db, memoryId, chunks[..n], k);
    } else {
      assert chunks[..k] == chunks;
    }
  }

  lemma NextKeywordAdded(t: Texts, db: Tables, memoryId: string, keywords: seq<Keyword>, k: nat)
    requires k < |keywords| && AddKeywordsOn(t, db, memoryId, keywords[..k]).Ok?
    ensures
      var (before, keyword) := (AddKeywordsOn(t, db, memoryId, keywords[..k]).value, keywords[k].(memoryId := memoryId));
      AddKeywordsOn(t, db, memoryId, keywords[..k + 1])
      == if !ValidKeyword(t, keyword) then Err(Invalid) else InsertKeyword(before, keyword)
  {
    hide ValidKeyword, InsertKeyword;
    assert keywords[..k + 1][..k] == keywords[..k];
  }

  lemma {:induction false} AddKeywordsStops(t: Texts, db: Tables, memoryId: string, keywords: seq<Keyword>, k: nat)
    requires k <= |keywords| && AddKeywordsOn(t, db, memoryId, keywords[..k]).Err?
    ensures AddKeywordsOn(t, db, memoryId, keywords) == Err(AddKeywordsOn(t, db, memoryId, keywords[..k]).error)
  {
    hide InsertKeyword, ValidKeyword;
    if k < |keywords| {
      var n := |keywords| - 1;
      assert keywords[..n][..k] == keywords[..k];
      AddKeywordsStops(t, db, memoryId, keywords[..n], k);
    } else {
      assert keywords[..k] == keywords;
    }
  }
}
