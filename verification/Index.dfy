/** The indexes derived from the memories: chunks, memory_fts, embeddings, their status and the
    vec0 mirror. What each service operation keeps of them, with an embedder that may fail. */
module Index {
  import opened Prelude
  import opened Schema
  import opened Keywords
  import opened Ordering
  import opened Repository
  import opened Lifecycle
  import opened LifecycleLaws
  import opened Service
  import opened Words
  import opened Writes

  // ----- The invariants -----

  /** Each memory has exactly one chunk (the slot is unique by the schema), holding its body. */
  ghost predicate ChunksExact(items: map<string, Item>, chunks: map<string, ChunkRow>) {
    && "" !in chunks
    && (forall c :: c in chunks ==>
          && chunks[c].chunk.memoryId in items
          && chunks[c].chunk.index == 0
          && chunks[c].chunk.content == items[chunks[c].chunk.memoryId].body
          && chunks[c].chunk.createdAt != 0)
    && (forall id :: id in items ==> ChunkSlotTaken(chunks, id, 0))
  }

  /** Index rows name the memory of their chunk and were written for the configured target. */
  ghost predicate EntriesBelong(cfg: Config, chunks: map<string, ChunkRow>, backend: Option<Backend>,
                                embeddings: map<string, Embedding>, statuses: map<string, IndexStatus>) {
    && (backend.Some? ==> backend.value == cfg.backend)
    && (forall c :: c in embeddings ==>
          && c in chunks && embeddings[c].memoryId == chunks[c].chunk.memoryId
          && embeddings[c].rowid == RowidOf(cfg, c)
          && |embeddings[c].vector| == cfg.target.dimensions
          && cfg.vectorEnabled && ValidTarget(cfg.texts, cfg.target) && !cfg.backend.OtherBackend?)
    && (forall c :: c in statuses ==>
          && c in chunks && statuses[c].memoryId == chunks[c].chunk.memoryId
          && cfg.vectorEnabled && ValidTarget(cfg.texts, cfg.target))
  }

  /** With sqlite-vec, the vec0 rows are exactly the (vector_rowid, vector) pairs of the embeddings. */
  ghost predicate VecExact(backend: Option<Backend>, embeddings: map<string, Embedding>, vec: map<int, seq<real>>) {
    if backend == Some(SqliteVec) then
      && (forall c :: c in embeddings ==> embeddings[c].rowid in vec && vec[embeddings[c].rowid] == embeddings[c].vector)
      && (forall r :: r in vec ==> HasRowid(embeddings, r))
    else vec == map[]
  }

  ghost predicate HasRowid(embeddings: map<string, Embedding>, r: int) {
    exists c :: c in embeddings && embeddings[c].rowid == r
  }

  ghost function CurrentDocument(cfg: Config, db: Tables, id: string): Option<string> {
    Document(cfg.texts, Title(db, id), WordsOf(db.keywords, id))
  }

  ghost predicate TextsBounded(cfg: Config, db: Tables) {
    forall id :: id in db.items ==> Clean(cfg.texts, WordsOf(db.keywords, id)) && !TooLong(CurrentDocument(cfg, db, id))
  }

  ghost predicate Sound(cfg: Config, db: Tables) {
    && SchemaOk(db)
    && Named(db.items)
    && ChunksExact(db.items, db.chunks)
    && EntriesBelong(cfg, db.chunks, db.backend, db.embeddings, db.statuses)
    && VecExact(db.backend, db.embeddings, db.vec)
    && TextsBounded(cfg, db)
  }

  /** Status `indexed` means: there is an embedding, and it is of the current title and keywords;
      status `failed` means there is a document to embed. */
  ghost predicate StatusAgrees(cfg: Config, db: Tables, c: string) {
    c in db.statuses ==>
      var document := CurrentDocument(cfg, db, db.statuses[c].memoryId);
      && (db.statuses[c].status == Indexed ==>
            && c in db.embeddings
            && db.embeddings[c].contentHash == db.statuses[c].contentHash
            && document.Some? && db.embeddings[c].contentHash == cfg.texts.hash(document.value))
      && (db.statuses[c].status == Failed ==> document.Some?)
  }

  ghost predicate IndexSound(cfg: Config, db: Tables) { forall c :: c in db.statuses ==> StatusAgrees(cfg, db, c) }

  ghost predicate KeepsEntry(before: Tables, after: Tables, c: string) {
    && c in before.statuses && c in after.statuses && after.statuses[c] == before.statuses[c]
    && (c in after.embeddings <==> c in before.embeddings)
    && (c in before.embeddings ==> after.embeddings[c] == before.embeddings[c])
  }

  lemma EntryAgrees(cfg: Config, before: Tables, after: Tables, c: string)
    requires KeepsEntry(before, after, c) && StatusAgrees(cfg, before, c)
    ensures Backed(after, c)
    ensures CurrentDocument(cfg, after, before.statuses[c].memoryId) == CurrentDocument(cfg, before, before.statuses[c].memoryId)
            ==> StatusAgrees(cfg, after, c)
  {
    hide CurrentDocument;
  }

  // ----- One index write -----

  ghost predicate OnlyIndexMoved(before: Tables, after: Tables) {
    after == before.(backend := after.backend, embeddings := after.embeddings, statuses := after.statuses, vec := after.vec)
  }

  lemma PersistEffect(cfg: Config, db: Tables, c: string, memoryId: string, hash: string, vector: seq<real>, now: Instant)
    requires PersistEmbeddingOn(cfg, db, c, memoryId, hash, vector, now).Ok?
    ensures
      var after := PersistEmbeddingOn(cfg, db, c, memoryId, hash, vector, now).value;
      && c in after.embeddings && c in after.statuses
      && after == db.(backend := Some(cfg.backend), embeddings := db.embeddings[c := after.embeddings[c]],
                      statuses := db.statuses[c := after.statuses[c]],
                      vec := if cfg.backend == SqliteVec then db.vec[RowidOf(cfg, c) := vector] else db.vec)
      && after.embeddings[c] == Embedding(memoryId, vector, hash, RowidOf(cfg, c), after.embeddings[c].createdAt, now)
      && after.statuses[c].memoryId == memoryId && after.statuses[c].status == Indexed && after.statuses[c].contentHash == hash
      && c in db.chunks && memoryId in db.items && !RowidTaken(db.embeddings, c, RowidOf(cfg, c))
      && |vector| == cfg.target.dimensions && ValidTarget(cfg.texts, cfg.target) && !cfg.backend.OtherBackend?
  {
  }

  lemma PersistKeepsSchema(cfg: Config, db: Tables, c: string, memoryId: string, hash: string, vector: seq<real>, now: Instant)
    requires SchemaOk(db) && PersistEmbeddingOn(cfg, db, c, memoryId, hash, vector, now).Ok?
    ensures SchemaOk(PersistEmbeddingOn(cfg, db, c, memoryId, hash, vector, now).value)
  {
    var described := UpsertVectorMetadataOn(cfg.texts, db, cfg.target, cfg.backend, now).value;
    MetadataKeepsSchema(cfg, db, now);
    var e := Embedding(memoryId, vector, hash, RowidOf(cfg, c), now, now);
    var embedded := UpsertEmbeddingOn(cfg.texts, described, cfg.target, c, e).value;
    hide SchemaOk, ValidTarget, PutEmbedding, PutStatus, UpsertVectorMetadataOn;
    PutEmbeddingKeepsSchema(described, c, e);
    VecIsOutsideTheSchema(PutEmbedding(described, c, e).value, embedded.vec);
    PutStatusKeepsSchema(embedded, c, StatusRow(memoryId, Indexed, hash, "", 1, now));
  }

  lemma MetadataKeepsSchema(cfg: Config, db: Tables, now: Instant)
    requires SchemaOk(db) && UpsertVectorMetadataOn(cfg.texts, db, cfg.target, cfg.backend, now).Ok?
    ensures SchemaOk(UpsertVectorMetadataOn(cfg.texts, db, cfg.target, cfg.backend, now).value)
  {
    hide ItemsOk, ChunksOk, FtsExact, KeywordsOk, EventsOk, PoliciesOk, AccessOk, StatusesOk;
  }

  lemma VecIsOutsideTheSchema(db: Tables, vec: map<int, seq<real>>)
    requires SchemaOk(db)
    ensures SchemaOk(db.(vec := vec))
  {
    hide ItemsOk, ChunksOk, FtsExact, KeywordsOk, EventsOk, PoliciesOk, AccessOk, EmbeddingsOk, StatusesOk;
  }

  lemma StatusEffect(cfg: Config, db: Tables, c: string, row: IndexStatus)
    requires UpsertStatusOn(cfg.texts, db, cfg.target, c, row).Ok?
    ensures
      var after := UpsertStatusOn(cfg.texts, db, cfg.target, c, row).value;
      && c in after.statuses && after == db.(statuses := db.statuses[c := after.statuses[c]])
      && after.statuses[c].memoryId == row.memoryId && after.statuses[c].status == row.status
      && after.statuses[c].contentHash == row.contentHash
      && c in db.chunks && row.memoryId in db.items && ValidTarget(cfg.texts, cfg.target)
  {
  }

  /** Recording one outcome after another for the same chunk. */
  function RecordedAll(t: Texts, db: Tables, target: Target, c: string, rows: seq<IndexStatus>): Result<Tables, Error> {
    if rows == [] then Ok(db)
    else
      var before :- RecordedAll(t, db, target, c, rows[..|rows| - 1]);
      UpsertStatusOn(t, before, target, c, rows[|rows| - 1])
  }

  function Attempts(rows: seq<IndexStatus>): int {
    if rows == [] then 0 else Attempts(rows[..|rows| - 1]) + rows[|rows| - 1].attempts
  }

  /** Over any series of recorded outcomes the attempts add up and the creation time is that of the
      first, while the rest of the row is the last outcome's; no other row and no other table moves. */
  lemma {:induction false} AttemptsAddUp(t: Texts, db: Tables, target: Target, c: string, rows: seq<IndexStatus>)
    requires rows != [] && RecordedAll(t, db, target, c, rows).Ok?
    ensures
      var after := RecordedAll(t, db, target, c, rows).value;
      && c in after.statuses && after == db.(statuses := db.statuses[c := after.statuses[c]])
      && after.statuses[c].attempts == Attempts(rows) + (if c in db.statuses then db.statuses[c].attempts else 0)
      && after.statuses[c].createdAt == (if c in db.statuses then db.statuses[c] else rows[0]).createdAt
      && after.statuses[c] == rows[|rows| - 1].(attempts := after.statuses[c].attempts, createdAt := after.statuses[c].createdAt)
  {
    hide ValidTarget;
    if |rows| > 1 {
      AttemptsAddUp(t, db, target, c, rows[..|rows| - 1]);
    } else {
      assert RecordedAll(t, db, target, c, rows[..0]) == Ok(db);
    }
  }

  ghost predicate ChunkOfMemory(db: Tables, c: string, memoryId: string) {
    c in db.chunks && db.chunks[c].chunk.memoryId == memoryId && memoryId in db.items
  }

  /** The memory part of the invariants only needs the tables an index write leaves alone. */
  lemma IndexWriteKeepsTexts(cfg: Config, before: Tables, after: Tables)
    requires Sound(cfg, before) && OnlyIndexMoved(before, after)
    ensures Named(after.items) && ChunksExact(after.items, after.chunks) && TextsBounded(cfg, after)
    ensures forall id :: CurrentDocument(cfg, after, id) == CurrentDocument(cfg, before, id)
  {
    hide SchemaOk, ChunksExact, EntriesBelong, VecExact, Document, WordsOf, Clean;
    assert after.items == before.items && after.keywords == before.keywords && after.chunks == before.chunks;
    forall id | id in after.items
      ensures Clean(cfg.texts, WordsOf(after.keywords, id)) && !TooLong(CurrentDocument(cfg, after, id))
    {
      assert CurrentDocument(cfg, after, id) == CurrentDocument(cfg, before, id);
    }
  }

  lemma EntriesGrow(cfg: Config, chunks: map<string, ChunkRow>, backend: Option<Backend>, embeddings: map<string, Embedding>,
                    statuses: map<string, IndexStatus>, c: string, e: Embedding, row: IndexStatus)
    requires EntriesBelong(cfg, chunks, backend, embeddings, statuses)
    requires c in chunks && row.memoryId == chunks[c].chunk.memoryId && cfg.vectorEnabled && ValidTarget(cfg.texts, cfg.target)
    ensures EntriesBelong(cfg, chunks, backend, embeddings, statuses[c := row])
    ensures e.memoryId == row.memoryId && e.rowid == RowidOf(cfg, c) && |e.vector| == cfg.target.dimensions && !cfg.backend.OtherBackend?
            ==> EntriesBelong(cfg, chunks, Some(cfg.backend), embeddings[c := e], statuses[c := row])
  {
    hide ValidTarget, RowidOf;
  }

  lemma PersistKeepsSound(cfg: Config, db: Tables, c: string, memoryId: string, hash: string, vector: seq<real>, now: Instant)
    requires Sound(cfg, db) && ChunkOfMemory(db, c, memoryId) && cfg.vectorEnabled
    requires PersistEmbeddingOn(cfg, db, c, memoryId, hash, vector, now).Ok?
    ensures Sound(cfg, PersistEmbeddingOn(cfg, db, c, memoryId, hash, vector, now).value)
  {
    hide PersistEmbeddingOn, SchemaOk, EmbeddingsOk, EntriesBelong, VecExact, Named, ChunksExact, TextsBounded, ValidTarget, RowidOf, RowidTaken, CurrentDocument;
    var after := PersistEmbeddingOn(cfg, db, c, memoryId, hash, vector, now).value;
    PersistEffect(cfg, db, c, memoryId, hash, vector, now);
    PersistKeepsSchema(cfg, db, c, memoryId, hash, vector, now);
    IndexWriteKeepsTexts(cfg, db, after);
    EntriesGrow(cfg, db.chunks, db.backend, db.embeddings, db.statuses, c, after.embeddings[c], after.statuses[c]);
    SchemaHasEmbeddings(db);
    PersistMirrors(cfg, db, c, after);
  }

  lemma PersistMirrors(cfg: Config, db: Tables, c: string, after: Tables)
    requires EmbeddingsOk(db.items.Keys, db.chunks, db.backend, db.embeddings) && VecExact(db.backend, db.embeddings, db.vec)
    requires EntriesBelong(cfg, db.chunks, db.backend, db.embeddings, db.statuses)
    requires c in after.embeddings && after.embeddings[c].rowid == RowidOf(cfg, c)
    requires after.backend == Some(cfg.backend) && after.embeddings == db.embeddings[c := after.embeddings[c]]
    requires after.vec == if cfg.backend == SqliteVec then db.vec[RowidOf(cfg, c) := after.embeddings[c].vector] else db.vec
    requires !RowidTaken(db.embeddings, c, RowidOf(cfg, c))
    ensures VecExact(after.backend, after.embeddings, after.vec)
  {
    hide RowidOf, ValidTarget;
    if cfg.backend == SqliteVec {
      forall r | r in after.vec
        ensures HasRowid(after.embeddings, r)
      {
        if r != RowidOf(cfg, c) {
          assert HasRowid(db.embeddings, r);
          var d :| d in db.embeddings && db.embeddings[d].rowid == r;
          assert d != c;
          assert d in after.embeddings && after.embeddings[d].rowid == r;
        } else {
          assert after.embeddings[c].rowid == r;
        }
      }
    }
  }

  lemma StatusKeepsSound(cfg: Config, db: Tables, c: string, row: IndexStatus)
    requires Sound(cfg, db) && ChunkOfMemory(db, c, row.memoryId) && cfg.vectorEnabled
    requires UpsertStatusOn(cfg.texts, db, cfg.target, c, row).Ok?
    ensures Sound(cfg, UpsertStatusOn(cfg.texts, db, cfg.target, c, row).value)
  {
    hide PutStatus, SchemaOk, EntriesBelong, VecExact, Named, ChunksExact, TextsBounded, ValidTarget, RowidOf, CurrentDocument;
    var after := UpsertStatusOn(cfg.texts, db, cfg.target, c, row).value;
    StatusEffect(cfg, db, c, row);
    PutStatusKeepsSchema(db, c, row);
    IndexWriteKeepsTexts(cfg, db, after);
    var e := Embedding(row.memoryId, [], "", 0, 0, 0);
    EntriesGrow(cfg, db.chunks, db.backend, db.embeddings, db.statuses, c, e, after.statuses[c]);
  }

  /** What one index write comes to. */
  ghost predicate IndexWritten(cfg: Config, db: Tables, c: string, memoryId: string, document: Option<string>, env: IndexEnv,
                               after: Tables, status: Option<Status>) {
    match status
    case Some(Indexed) =>
      // the embedding is the embedder's answer for the document, and its status says so
      && document.Some? && env.outcome.Embedded? && env.durable
      && c in after.embeddings && c in after.statuses
      && after.embeddings[c].vector == env.outcome.vector && after.embeddings[c].contentHash == cfg.texts.hash(document.value)
      && after.embeddings[c].memoryId == after.statuses[c].memoryId == memoryId
      && after.statuses[c].status == Indexed && after.statuses[c].contentHash == cfg.texts.hash(document.value)
      && after.embeddings == db.embeddings[c := after.embeddings[c]]
      && after.statuses == db.statuses[c := after.statuses[c]]
    case _ =>
      // the old embedding, if there is one, stays as it was
      && after.embeddings == db.embeddings && after.vec == db.vec && after.backend == db.backend
      && (after == db
          || (c in after.statuses && after.statuses[c].status == (if document.Some? then Failed else Skipped)
              && after.statuses[c].memoryId == memoryId && env.durable
              && after.statuses == db.statuses[c := after.statuses[c]]))
  }

  lemma IndexOnWrites(cfg: Config, db: Tables, title: string, words: seq<string>, c: string, memoryId: string, env: IndexEnv, now: Instant)
    ensures
      var (after, status) := IndexOn(cfg, db, title, words, c, memoryId, env, now);
      && OnlyIndexMoved(db, after)
      && IndexWritten(cfg, db, c, memoryId, Document(cfg.texts, title, words), env, after, status)
      && (status == Some(Skipped) ==> Document(cfg.texts, title, words).None?)
      && (status.None? <==> !cfg.vectorEnabled)
      && (!env.durable ==> after == db)
  {
    var document := Document(cfg.texts, title, words);
    hide IndexOn, Document, Failure, OnlyIndexMoved, IndexWritten;
    if cfg.vectorEnabled && document.Some? && Failure(cfg, document.value, env.outcome).None? {
      EmbeddingHasOutcome(cfg, db, title, words, c, memoryId, env, now);
    } else {
      RecordHasOutcome(cfg, db, title, words, c, memoryId, env, now);
    }
  }

  ghost predicate HasOutcome(cfg: Config, db: Tables, document: Option<string>, c: string, memoryId: string, env: IndexEnv,
                             after: Tables, status: Option<Status>) {
    && OnlyIndexMoved(db, after)
    && IndexWritten(cfg, db, c, memoryId, document, env, after, status)
    && (status == Some(Skipped) ==> document.None?)
    && (status.None? <==> !cfg.vectorEnabled)
    && (!env.durable ==> after == db)
  }

  lemma EmbeddingHasOutcome(cfg: Config, db: Tables, title: string, words: seq<string>, c: string, memoryId: string, env: IndexEnv, now: Instant)
    requires cfg.vectorEnabled && Document(cfg.texts, title, words).Some?
    requires Failure(cfg, Document(cfg.texts, title, words).value, env.outcome).None?
    ensures
      var (after, status) := IndexOn(cfg, db, title, words, c, memoryId, env, now);
      HasOutcome(cfg, db, Document(cfg.texts, title, words), c, memoryId, env, after, status)
  {
    hide PersistEmbeddingOn, Document, OnlyIndexMoved, ValidTarget;
    PersistWrites(cfg, db, c, memoryId, cfg.texts.hash(Document(cfg.texts, title, words).value), env, now);
  }

  lemma RecordHasOutcome(cfg: Config, db: Tables, title: string, words: seq<string>, c: string, memoryId: string, env: IndexEnv, now: Instant)
    requires cfg.vectorEnabled && Document(cfg.texts, title, words).Some? ==>
               Failure(cfg, Document(cfg.texts, title, words).value, env.outcome).Some?
    ensures
      var (after, status) := IndexOn(cfg, db, title, words, c, memoryId, env, now);
      HasOutcome(cfg, db, Document(cfg.texts, title, words), c, memoryId, env, after, status)
  {
    hide RecordStatusOn, Document, Failure, OnlyIndexMoved;
    var document := Document(cfg.texts, title, words);
    if document.Some? {
      var failure := Failure(cfg, document.value, env.outcome);
      if failure.Some? {
        RecordWrites(cfg, db, c, StatusRow(memoryId, Failed, cfg.texts.hash(document.value), failure.value, 1, now), env.durable);
      }
    } else {
      RecordWrites(cfg, db, c, StatusRow(memoryId, Skipped, "", "", 0, now), env.durable);
    }
    NothingMoved(db);
  }

  lemma NothingMoved(db: Tables)
    ensures OnlyIndexMoved(db, db)
  {
  }

  lemma PersistWrites(cfg: Config, db: Tables, c: string, memoryId: string, hash: string, env: IndexEnv, now: Instant)
    requires env.outcome.Embedded?
    ensures
      var persisted := PersistEmbeddingOn(cfg, db, c, memoryId, hash, env.outcome.vector, now);
      var (after, status) := if !env.durable || persisted.Err? then (db, Some(Failed)) else (persisted.value, Some(Indexed));
      && OnlyIndexMoved(db, after)
      && (status == Some(Indexed) ==>
            && env.durable && c in after.embeddings && c in after.statuses
            && after.embeddings[c].vector == env.outcome.vector && after.embeddings[c].contentHash == hash
            && after.embeddings[c].memoryId == after.statuses[c].memoryId == memoryId
            && after.statuses[c].status == Indexed && after.statuses[c].contentHash == hash
            && after.embeddings == db.embeddings[c := after.embeddings[c]]
            && after.statuses == db.statuses[c := after.statuses[c]])
  {
    if PersistEmbeddingOn(cfg, db, c, memoryId, hash, env.outcome.vector, now).Ok? {
      PersistEffect(cfg, db, c, memoryId, hash, env.outcome.vector, now);
    }
  }

  lemma RecordWrites(cfg: Config, db: Tables, c: string, row: IndexStatus, durable: bool)
    ensures
      var after := RecordStatusOn(cfg, db, c, row, durable);
      && OnlyIndexMoved(db, after)
      && after.embeddings == db.embeddings && after.vec == db.vec && after.backend == db.backend
      && (after == db
          || (c in after.statuses && after.statuses[c].status == row.status && after.statuses[c].memoryId == row.memoryId && durable
              && after.statuses == db.statuses[c := after.statuses[c]]))
  {
    if durable && UpsertStatusOn(cfg.texts, db, cfg.target, c, row).Ok? {
      StatusEffect(cfg, db, c, row);
    }
  }

  lemma RecordKeepsSound(cfg: Config, db: Tables, c: string, row: IndexStatus, durable: bool)
    requires Sound(cfg, db) && ChunkOfMemory(db, c, row.memoryId) && cfg.vectorEnabled
    ensures Sound(cfg, RecordStatusOn(cfg, db, c, row, durable))
  {
    if durable && UpsertStatusOn(cfg.texts, db, cfg.target, c, row).Ok? {
      StatusKeepsSound(cfg, db, c, row);
    }
  }

  /** Whatever the embedder answers, and whether or not the write persists. */
  lemma IndexKeepsSound(cfg: Config, db: Tables, title: string, words: seq<string>, c: string, memoryId: string, env: IndexEnv, now: Instant)
    requires Sound(cfg, db) && ChunkOfMemory(db, c, memoryId)
    ensures Sound(cfg, IndexOn(cfg, db, title, words, c, memoryId, env, now).0)
  {
    hide Sound, ChunkOfMemory, PersistEmbeddingOn, RecordStatusOn, Document, Failure;
    var document := Document(cfg.texts, title, words);
    if cfg.vectorEnabled && document.Some? {
      var hash := cfg.texts.hash(document.value);
      var failure := Failure(cfg, document.value, env.outcome);
      if failure.Some? {
        RecordKeepsSound(cfg, db, c, StatusRow(memoryId, Failed, hash, failure.value, 1, now), env.durable);
      } else if PersistEmbeddingOn(cfg, db, c, memoryId, hash, env.outcome.vector, now).Ok? {
        PersistKeepsSound(cfg, db, c, memoryId, hash, env.outcome.vector, now);
      }
    } else if cfg.vectorEnabled {
      RecordKeepsSound(cfg, db, c, StatusRow(memoryId, Skipped, "", "", 0, now), env.durable);
    }
  }

  lemma IndexKeepsAgreement(cfg: Config, db: Tables, title: string, words: seq<string>, c: string, memoryId: string,
                            env: IndexEnv, now: Instant, other: string)
    requires other != c && StatusAgrees(cfg, db, other)
    ensures StatusAgrees(cfg, IndexOn(cfg, db, title, words, c, memoryId, env, now).0, other)
  {
    IndexOnWrites(cfg, db, title, words, c, memoryId, env, now);
    hide IndexOn, Document, WordsOf;
  }

  /** A chunk that was ever embedded can be embedded again: its row id is still its own. */
  lemma ReembeddingSucceeds(cfg: Config, db: Tables, c: string, memoryId: string, hash: string, vector: seq<real>, now: Instant)
    requires Sound(cfg, db) && ChunkOfMemory(db, c, memoryId) && c in db.embeddings
    requires |vector| == cfg.target.dimensions && cfg.texts.trim(hash) != "" && now != 0
    ensures PersistEmbeddingOn(cfg, db, c, memoryId, hash, vector, now).Ok?
  {
    RowidIsItsOwn(cfg, db, c);
    FreeRowidSuffices(cfg, db, c, memoryId, hash, vector, now);
  }

  lemma RowidIsItsOwn(cfg: Config, db: Tables, c: string)
    requires Sound(cfg, db) && c in db.embeddings
    ensures !RowidTaken(db.embeddings, c, RowidOf(cfg, c)) && ValidTarget(cfg.texts, cfg.target) && !cfg.backend.OtherBackend?
  {
    SchemaHasEmbeddings(db);
    hide SchemaOk, ChunksExact, TextsBounded, VecExact, ValidTarget, RowidOf;
    assert db.embeddings[c].rowid == RowidOf(cfg, c);
  }

  lemma FreeRowidSuffices(cfg: Config, db: Tables, c: string, memoryId: string, hash: string, vector: seq<real>, now: Instant)
    requires Sound(cfg, db) && ChunkOfMemory(db, c, memoryId) && !RowidTaken(db.embeddings, c, RowidOf(cfg, c))
    requires ValidTarget(cfg.texts, cfg.target) && !cfg.backend.OtherBackend?
    requires |vector| == cfg.target.dimensions && cfg.texts.trim(hash) != "" && now != 0
    ensures PersistEmbeddingOn(cfg, db, c, memoryId, hash, vector, now).Ok?
  {
    hide TextsBounded, VecExact, FtsExact, ValidTarget, RowidTaken, EntriesBelong;
    assert c != "" && memoryId != "";
    assert RowidOf(cfg, c) != 0;
  }

  lemma SchemaHasEmbeddings(db: Tables)
    requires SchemaOk(db)
    ensures EmbeddingsOk(db.items.Keys, db.chunks, db.backend, db.embeddings)
  {
  }

  lemma RecordingSucceeds(cfg: Config, db: Tables, c: string, row: IndexStatus)
    requires Sound(cfg, db) && ChunkOfMemory(db, c, row.memoryId) && (c in db.embeddings || c in db.statuses)
    requires row.attempts >= 0 && row.createdAt != 0 && row.updatedAt != 0
    ensures UpsertStatusOn(cfg.texts, db, cfg.target, c, row).Ok?
    ensures
      var after := UpsertStatusOn(cfg.texts, db, cfg.target, c, row).value;
      c in after.statuses && after.statuses[c].status == row.status
  {
    hide TextsBounded, VecExact, FtsExact, ValidTarget;
    assert c != "" && row.memoryId != "";
  }

  /** Status `indexed` is never left on a chunk without its embedding. */
  ghost predicate Backed(db: Tables, c: string) { c in db.statuses && db.statuses[c].status == Indexed ==> c in db.embeddings }

  /** After an index write for the current title and keywords that persists, the chunk's status
      tells the truth, whatever it said before. */
  lemma IndexSettles(cfg: Config, db: Tables, c: string, memoryId: string, env: IndexEnv, now: Instant)
    requires Sound(cfg, db) && ChunkOfMemory(db, c, memoryId) && cfg.texts.Lawful() && cfg.vectorEnabled
    requires env.durable && now != 0 && Backed(db, c)
    ensures StatusAgrees(cfg, IndexOn(cfg, db, Title(db, memoryId), WordsOf(db.keywords, memoryId), c, memoryId, env, now).0, c)
  {
    var title, words := Title(db, memoryId), WordsOf(db.keywords, memoryId);
    var (after, status) := IndexOn(cfg, db, title, words, c, memoryId, env, now);
    hide *;
    IndexOnWrites(cfg, db, title, words, c, memoryId, env, now);
    StatusOwner(cfg, db, c, memoryId);
    DocumentRead(cfg, db, memoryId);
    SameTextsSameDocument(cfg, db, after, memoryId);
    if status != Some(Indexed) && c in db.statuses && (c in db.embeddings || Document(cfg.texts, title, words).None?) {
      UnindexedIsRecorded(cfg, db, c, memoryId, env, now);
    }
    WrittenStatusAgrees(cfg, db, after, c, memoryId, Document(cfg.texts, title, words), env, status);
  }

  lemma WrittenStatusAgrees(cfg: Config, db: Tables, after: Tables, c: string, memoryId: string, document: Option<string>,
                            env: IndexEnv, status: Option<Status>)
    requires IndexWritten(cfg, db, c, memoryId, document, env, after, status) && Backed(db, c)
    requires document == CurrentDocument(cfg, after, memoryId)
    requires c in db.statuses ==> db.statuses[c].memoryId == memoryId
    requires status != Some(Indexed) && c in db.statuses && (c in db.embeddings || document.None?) ==>
               c in after.statuses && after.statuses[c].status == if document.Some? then Failed else Skipped
    ensures StatusAgrees(cfg, after, c)
  {
    hide CurrentDocument;
  }

  lemma DocumentRead(cfg: Config, db: Tables, id: string)
    ensures CurrentDocument(cfg, db, id) == Document(cfg.texts, Title(db, id), WordsOf(db.keywords, id))
  {
  }

  lemma SameTextsSameDocument(cfg: Config, before: Tables, after: Tables, id: string)
    requires OnlyIndexMoved(before, after)
    ensures CurrentDocument(cfg, after, id) == CurrentDocument(cfg, before, id)
  {
    hide WordsOf, Document;
  }

  /** A write that persists and does not embed leaves a status that says why. */
  lemma UnindexedIsRecorded(cfg: Config, db: Tables, c: string, memoryId: string, env: IndexEnv, now: Instant)
    requires Sound(cfg, db) && ChunkOfMemory(db, c, memoryId) && cfg.texts.Lawful() && cfg.vectorEnabled
    requires env.durable && now != 0 && c in db.statuses && (c in db.embeddings || CurrentDocument(cfg, db, memoryId).None?)
    requires IndexOn(cfg, db, Title(db, memoryId), WordsOf(db.keywords, memoryId), c, memoryId, env, now).1 != Some(Indexed)
    ensures
      var after := IndexOn(cfg, db, Title(db, memoryId), WordsOf(db.keywords, memoryId), c, memoryId, env, now).0;
      c in after.statuses && after.statuses[c].status == if CurrentDocument(cfg, db, memoryId).Some? then Failed else Skipped
  {
    hide Texts.Lawful, Sound, Document, WordsOf, Failure, PersistEmbeddingOn, UpsertStatusOn;
    var document := CurrentDocument(cfg, db, memoryId);
    if document.None? {
      RecordingSucceeds(cfg, db, c, StatusRow(memoryId, Skipped, "", "", 0, now));
    } else {
      var hash := cfg.texts.hash(document.value);
      var failure := Failure(cfg, document.value, env.outcome);
      if failure.Some? {
        RecordingSucceeds(cfg, db, c, StatusRow(memoryId, Failed, hash, failure.value, 1, now));
      } else {
        NoFailureMeansFit(cfg, document.value, env.outcome);
        HashIsNotBlank(cfg.texts, document.value);
        ReembeddingSucceeds(cfg, db, c, memoryId, hash, env.outcome.vector, now);
        assert false;
      }
    }
  }

  lemma StatusOwner(cfg: Config, db: Tables, c: string, memoryId: string)
    requires Sound(cfg, db) && ChunkOfMemory(db, c, memoryId)
    ensures c in db.statuses ==> db.statuses[c].memoryId == memoryId
  {
    hide SchemaOk, TextsBounded, VecExact, ChunksExact;
  }

  lemma HashIsNotBlank(t: Texts, s: string)
    requires t.Lawful()
    ensures t.trim(t.hash(s)) != ""
  {
  }

  lemma NoFailureMeansFit(cfg: Config, document: string, outcome: EmbedOutcome)
    requires Failure(cfg, document, outcome).None?
    ensures outcome.Embedded? && |outcome.vector| == cfg.target.dimensions
  {
  }

  // ----- Save -----

  /** Where neither the title nor the keyword rows change, the document does not. */
  lemma DocumentsStay(cfg: Config, before: Tables, after: Tables, id: string)
    requires OthersKeepRows(before.keywords, after.keywords, id)
    requires forall other :: other in before.items && other != id ==>
               other in after.items && after.items[other].title == before.items[other].title
    ensures forall other :: other in before.items && other != id ==>
              WordsOf(after.keywords, other) == WordsOf(before.keywords, other)
              && CurrentDocument(cfg, after, other) == CurrentDocument(cfg, before, other)
  {
    hide WordsOf, Document, OthersKeepRows;
    OthersKeepWords(before.keywords, after.keywords, id);
  }

  lemma SavedIsSound(cfg: Config, db: Tables, item: Item, chunkId: string, words: seq<string>, after: Tables)
    requires Sound(cfg, db) && SchemaOk(after) && Saved(cfg, db, item, chunkId, words, after)
    requires FreshIds(db, item, chunkId) && item.createdAt != 0 && Clean(cfg.texts, words)
    requires !TooLong(Document(cfg.texts, item.title, words))
    ensures Sound(cfg, after)
    ensures IndexSound(cfg, db) ==> IndexSound(cfg, after)
  {
    hide SchemaOk, NextRowid, VecExact, ChunksExact, TextsBounded, EntriesBelong, IndexSound;
    SavedChunkIsExact(db, after, item, chunkId);
    SavedTextIsBounded(cfg, db, item, chunkId, words, after);
    MoreChunksKeepEntries(cfg, db.chunks, after.chunks, db.backend, db.embeddings, db.statuses);
    if IndexSound(cfg, db) {
      SavedKeepsAgreement(cfg, db, item, chunkId, words, after);
    }
  }

  lemma MoreChunksKeepEntries(cfg: Config, before: map<string, ChunkRow>, after: map<string, ChunkRow>, backend: Option<Backend>,
                              embeddings: map<string, Embedding>, statuses: map<string, IndexStatus>)
    requires EntriesBelong(cfg, before, backend, embeddings, statuses)
    requires forall c :: c in before ==> c in after && after[c] == before[c]
    ensures EntriesBelong(cfg, after, backend, embeddings, statuses)
  {
    hide ValidTarget, RowidOf;
  }

  lemma SavedTextIsBounded(cfg: Config, db: Tables, item: Item, chunkId: string, words: seq<string>, after: Tables)
    requires TextsBounded(cfg, db) && Saved(cfg, db, item, chunkId, words, after) && item.id !in db.items
    requires Clean(cfg.texts, words) && !TooLong(Document(cfg.texts, item.title, words))
    ensures TextsBounded(cfg, after)
  {
    hide NextRowid, WordsOf, Document, Clean, RowsAre, OthersKeepRows;
    DocumentsStay(cfg, db, after, item.id);
  }

  lemma SavedKeepsAgreement(cfg: Config, db: Tables, item: Item, chunkId: string, words: seq<string>, after: Tables)
    requires SchemaOk(db) && IndexSound(cfg, db) && Saved(cfg, db, item, chunkId, words, after) && item.id !in db.items
    ensures IndexSound(cfg, after)
  {
    SavedLeavesEntries(cfg, db, item, chunkId, words, after);
    hide *;
    DocumentsStay(cfg, db, after, item.id);
    AgreementStays(cfg, db, after, item.id);
  }

  lemma SavedLeavesEntries(cfg: Config, db: Tables, item: Item, chunkId: string, words: seq<string>, after: Tables)
    requires SchemaOk(db) && Saved(cfg, db, item, chunkId, words, after) && item.id !in db.items
    ensures OthersKeepRows(db.keywords, after.keywords, item.id)
    ensures forall other :: other in db.items && other != item.id ==>
              other in after.items && after.items[other].title == db.items[other].title
    ensures after.statuses == db.statuses && after.embeddings == db.embeddings
    ensures forall c :: c in db.statuses ==> db.statuses[c].memoryId in db.items && db.statuses[c].memoryId != item.id
  {
    assert StatusesOk(db.items.Keys, db.chunks, db.statuses);
    hide SchemaOk, NextRowid, WordsOf, RowsAre, OthersKeepRows;
  }

  lemma AgreementStays(cfg: Config, before: Tables, after: Tables, id: string)
    requires IndexSound(cfg, before) && after.statuses == before.statuses && after.embeddings == before.embeddings
    requires forall c :: c in before.statuses ==> before.statuses[c].memoryId in before.items && before.statuses[c].memoryId != id
    requires forall other :: other in before.items && other != id ==> CurrentDocument(cfg, after, other) == CurrentDocument(cfg, before, other)
    ensures IndexSound(cfg, after)
  {
    hide CurrentDocument, StatusAgrees;
    forall c | c in after.statuses
      ensures StatusAgrees(cfg, after, c)
    {
      EntryAgrees(cfg, before, after, c);
    }
  }

  lemma SavedChunkIsExact(db: Tables, after: Tables, item: Item, chunkId: string)
    requires ChunksExact(db.items, db.chunks) && FreshIds(db, item, chunkId) && item.createdAt != 0
    requires after.items == db.items[item.id := StoredItem(item)]
    requires after.chunks == db.chunks[chunkId := ChunkRow(NextRowid(db.chunks), FirstChunkOf(item, chunkId))]
    ensures ChunksExact(after.items, after.chunks)
  {
    hide NextRowid;
    assert after.chunks[chunkId].chunk.memoryId == item.id && after.chunks[chunkId].chunk.index == 0;
    forall id | id in after.items
      ensures ChunkSlotTaken(after.chunks, id, 0)
    {
      if id != item.id {
        assert ChunkSlotTaken(db.chunks, id, 0);
        var c :| c in db.chunks && db.chunks[c].chunk.memoryId == id && db.chunks[c].chunk.index == 0;
        assert after.chunks[c] == db.chunks[c];
      }
    }
  }

  lemma SaveRequestIsClean(cfg: Config, input: SaveInput, itemId: string, now: Instant)
    requires cfg.texts.Lawful() && SaveRequest(cfg, input, itemId, now).Ok?
    ensures
      var (item, words) := SaveRequest(cfg, input, itemId, now).value;
      WellFormed(item) && Clean(cfg.texts, words) && !TooLong(Document(cfg.texts, item.title, words))
      && item.id == itemId && item.createdAt == now
  {
    NormalizedIsClean(cfg.texts, input.keywords);
  }

  /** Saving keeps every index in step, even when the index write is lost: the chunk is new. */
  lemma SaveKeepsIndexes(cfg: Config, db: Tables, input: SaveInput, itemId: string, chunkId: string, env: IndexEnv, now: Instant)
    requires Sound(cfg, db) && cfg.texts.Lawful()
    ensures Sound(cfg, SaveOn(cfg, db, input, itemId, chunkId, env, now).0)
    ensures IndexSound(cfg, db) ==> IndexSound(cfg, SaveOn(cfg, db, input, itemId, chunkId, env, now).0)
  {
    hide Sound, SaveTxOn, IndexOn, SaveRequest, IndexSound, Texts.Lawful, Clean, Document;
    var request := SaveRequest(cfg, input, itemId, now);
    if request.Ok? {
      var (item, words) := request.value;
      SaveRequestIsClean(cfg, input, itemId, now);
      SoundHasSchema(cfg, db);
      SaveSucceedsExactlyWhen(cfg, db, item, chunkId, words);
      var saved := SaveTxOn(cfg, db, item, chunkId, words);
      if saved.Ok? {
        SavedIsSound(cfg, db, item, chunkId, words, saved.value);
        IndexAfterSave(cfg, db, item, chunkId, words, saved.value, env, now);
      }
    }
  }

  lemma SoundHasSchema(cfg: Config, db: Tables)
    requires Sound(cfg, db)
    ensures SchemaOk(db) && Named(db.items) && ChunksOk(db.items.Keys, db.chunks) && PoliciesOk(db.policies)
  {
  }

  lemma IndexAfterSave(cfg: Config, db: Tables, item: Item, chunkId: string, words: seq<string>, saved: Tables, env: IndexEnv, now: Instant)
    requires Sound(cfg, db) && Sound(cfg, saved) && Saved(cfg, db, item, chunkId, words, saved) && FreshIds(db, item, chunkId)
    requires cfg.texts.Lawful() && now == item.createdAt != 0
    ensures Sound(cfg, IndexOn(cfg, saved, item.title, words, chunkId, item.id, env, now).0)
    ensures IndexSound(cfg, saved) ==> IndexSound(cfg, IndexOn(cfg, saved, item.title, words, chunkId, item.id, env, now).0)
  {
    SavedChunkIsNew(cfg, db, item, chunkId, words, saved);
    hide Sound, IndexOn, Saved, WordsOf, Texts.Lawful, Document, StatusAgrees, Title, ChunkOfMemory, FreshIds, Backed;
    IndexKeepsSound(cfg, saved, item.title, words, chunkId, item.id, env, now);
    if IndexSound(cfg, saved) {
      IndexKeepsIndexSound(cfg, saved, chunkId, item.id, env, now);
    }
  }

  lemma SavedChunkIsNew(cfg: Config, db: Tables, item: Item, chunkId: string, words: seq<string>, saved: Tables)
    requires Sound(cfg, db) && Saved(cfg, db, item, chunkId, words, saved) && FreshIds(db, item, chunkId)
    ensures chunkId !in saved.statuses && Backed(saved, chunkId)
    ensures ChunkOfMemory(saved, chunkId, item.id) && Title(saved, item.id) == item.title
    ensures WordsOf(saved.keywords, item.id) == words
    ensures StatusAgrees(cfg, saved, chunkId)
  {
    hide WordsOf, RowsAre, OthersKeepRows, NextRowid, TextsBounded, VecExact, ChunksExact, FtsExact;
    assert StatusesOk(db.items.Keys, db.chunks, db.statuses);
  }

  /** One index write for a chunk whose status is not yet trusted, everything else being in order. */
  lemma IndexKeepsIndexSound(cfg: Config, db: Tables, c: string, memoryId: string, env: IndexEnv, now: Instant)
    requires Sound(cfg, db) && ChunkOfMemory(db, c, memoryId) && cfg.texts.Lawful()
    requires forall other :: other in db.statuses && other != c ==> StatusAgrees(cfg, db, other)
    requires StatusAgrees(cfg, db, c) || (env.durable && now != 0 && Backed(db, c))
    ensures IndexSound(cfg, IndexOn(cfg, db, Title(db, memoryId), WordsOf(db.keywords, memoryId), c, memoryId, env, now).0)
  {
    hide Sound, IndexOn, WordsOf, Texts.Lawful, Document, StatusAgrees, ChunkOfMemory, Backed, Title;
    var title, words := Title(db, memoryId), WordsOf(db.keywords, memoryId);
    var after := IndexOn(cfg, db, title, words, c, memoryId, env, now).0;
    IndexOnWrites(cfg, db, title, words, c, memoryId, env, now);
    forall other | other in after.statuses
      ensures StatusAgrees(cfg, after, other)
    {
      if other != c {
        assert other in db.statuses;
        IndexKeepsAgreement(cfg, db, title, words, c, memoryId, env, now, other);
      } else {
        WriteSettlesOrKeeps(cfg, db, c, memoryId, env, now);
      }
    }
  }

  lemma WriteSettlesOrKeeps(cfg: Config, db: Tables, c: string, memoryId: string, env: IndexEnv, now: Instant)
    requires Sound(cfg, db) && ChunkOfMemory(db, c, memoryId) && cfg.texts.Lawful()
    requires StatusAgrees(cfg, db, c) || (env.durable && now != 0 && Backed(db, c))
    ensures StatusAgrees(cfg, IndexOn(cfg, db, Title(db, memoryId), WordsOf(db.keywords, memoryId), c, memoryId, env, now).0, c)
  {
    if StatusAgrees(cfg, db, c) {
      AgreementSurvives(cfg, db, c, memoryId, env, now);
    } else if cfg.vectorEnabled {
      IndexSettles(cfg, db, c, memoryId, env, now);
    }
  }

  lemma AgreementSurvives(cfg: Config, db: Tables, c: string, memoryId: string, env: IndexEnv, now: Instant)
    requires StatusAgrees(cfg, db, c)
    ensures StatusAgrees(cfg, IndexOn(cfg, db, Title(db, memoryId), WordsOf(db.keywords, memoryId), c, memoryId, env, now).0, c)
  {
    var title, words := Title(db, memoryId), WordsOf(db.keywords, memoryId);
    IndexOnWrites(cfg, db, title, words, c, memoryId, env, now);
    hide IndexOn, Document, WordsOf;
  }
}