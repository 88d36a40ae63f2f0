/** What one index write records, what backfill lists, and why a failed index write is made good. */
module Retry {
  import opened Prelude
  import opened Schema
  import opened Keywords
  import opened Ordering
  import opened Repository
  import opened Lifecycle
  import opened Service
  import opened Words
  import opened Writes
  import opened Index
  import opened IndexUpdate
  import opened Requests
  import opened Backfill

  // ----- One index write, row by row -----

  /** The one status row written: attempts add up, the creation time stays, the rest is this outcome's. */
  predicate Recorded(db: Tables, after: Tables, c: string, memoryId: string, status: Status, hash: string, summary: string,
                     tries: int, now: Instant) {
    var (attempts, created) := if c in db.statuses then (db.statuses[c].attempts, db.statuses[c].createdAt) else (0, now);
    after.statuses == db.statuses[c := IndexStatus(memoryId, status, hash, summary, attempts + tries, created, now)]
  }

  /** The embedder's answer fits the document and the target. */
  predicate Fits(cfg: Config, document: string, outcome: EmbedOutcome) {
    |document| <= 4096 && outcome.Embedded? && |outcome.vector| == cfg.target.dimensions && outcome.encodable
  }

  /** What is recorded as the reason: of the embedder's own message, its first 512 characters. */
  predicate Explains(summary: string, cfg: Config, document: string, outcome: EmbedOutcome) {
    if |document| > 4096 then summary == "title and keywords document is too long"
    else if outcome.EmbedError? then summary <= outcome.message && |summary| == (if |outcome.message| > 512 then 512 else |outcome.message|)
    else if |outcome.vector| != cfg.target.dimensions then summary == "embedding provider returned the wrong number of dimensions"
    else summary == "embedding vector must be JSON encodable"
  }

  predicate CanWrite(cfg: Config, db: Tables, c: string, memoryId: string, env: IndexEnv, now: Instant) {
    && cfg.vectorEnabled && ValidTarget(cfg.texts, cfg.target) && env.durable && now != 0
    && c != "" && c in db.chunks && memoryId != "" && memoryId in db.items
  }

  /** A write without an embedding leaves one status row and nothing else: skipped without a title and
      keywords, else failed with the reason, the document's hash and one more attempt. */
  lemma UnfitIsRecorded(cfg: Config, db: Tables, title: string, words: seq<string>, c: string, memoryId: string, env: IndexEnv, now: Instant)
    requires CanWrite(cfg, db, c, memoryId, env, now)
    ensures
      var (after, status) := IndexOn(cfg, db, title, words, c, memoryId, env, now);
      match Document(cfg.texts, title, words)
      case None => status == Some(Skipped) && after == db.(statuses := after.statuses) && Recorded(db, after, c, memoryId, Skipped, "", "", 0, now)
      case Some(document) =>
        !Fits(cfg, document, env.outcome) ==>
          && status == Some(Failed) && after == db.(statuses := after.statuses)
          && exists summary :: Explains(summary, cfg, document, env.outcome)
                               && Recorded(db, after, c, memoryId, Failed, cfg.texts.hash(document), summary, 1, now)
  {
    hide PersistEmbeddingOn, ValidTarget;
    var document := Document(cfg.texts, title, words);
    hide Document;
    if document.Some? && !Fits(cfg, document.value, env.outcome) {
      var message := Failure(cfg, document.value, env.outcome).value;
      assert Explains(message, cfg, document.value, env.outcome);
      hide Failure, Explains;
      assert Recorded(db, IndexOn(cfg, db, title, words, c, memoryId, env, now).0, c, memoryId, Failed, cfg.texts.hash(document.value), message, 1, now);
    }
  }

  /** A write with an embedding stores the embedder's vector under the document's hash and the chunk's
      row id, keeping the time the chunk was first embedded, and one status row; it fails, and changes
      nothing, exactly if the vector store is of an unknown kind or the row id belongs to another chunk. */
  lemma FitIsIndexed(cfg: Config, db: Tables, title: string, words: seq<string>, c: string, memoryId: string, env: IndexEnv, now: Instant)
    requires CanWrite(cfg, db, c, memoryId, env, now) && cfg.texts.Lawful()
    requires Document(cfg.texts, title, words).Some? && Fits(cfg, Document(cfg.texts, title, words).value, env.outcome)
    ensures
      var (after, status) := IndexOn(cfg, db, title, words, c, memoryId, env, now);
      var hash := cfg.texts.hash(Document(cfg.texts, title, words).value);
      var created := if c in db.embeddings then db.embeddings[c].createdAt else now;
      && status == (if cfg.backend.OtherBackend? || RowidTaken(db.embeddings, c, RowidOf(cfg, c)) then Some(Failed) else Some(Indexed))
      && (status == Some(Failed) ==> after == db)
      && (status == Some(Indexed) ==>
            && after == db.(backend := Some(cfg.backend), embeddings := after.embeddings, statuses := after.statuses, vec := after.vec)
            && after.embeddings == db.embeddings[c := Embedding(memoryId, env.outcome.vector, hash, RowidOf(cfg, c), created, now)]
            && after.vec == (if cfg.backend == SqliteVec then db.vec[RowidOf(cfg, c) := env.outcome.vector] else db.vec)
            && Recorded(db, after, c, memoryId, Indexed, hash, "", 1, now))
  {
    var document := Document(cfg.texts, title, words).value;
    HashIsNotBlank(cfg.texts, document);
    assert RowidOf(cfg, c) != 0;
    hide Document, ValidTarget, Texts.Lawful, RowidTaken, RowidOf;
    PersistIsExact(cfg, db, c, memoryId, cfg.texts.hash(document), env.outcome.vector, now);
    hide PersistEmbeddingOn;
  }

  lemma PersistIsExact(cfg: Config, db: Tables, c: string, memoryId: string, hash: string, vector: seq<real>, now: Instant)
    requires ValidTarget(cfg.texts, cfg.target) && now != 0 && c != "" && c in db.chunks && memoryId != "" && memoryId in db.items
    requires |vector| == cfg.target.dimensions && cfg.texts.trim(hash) != "" && RowidOf(cfg, c) != 0
    ensures
      var r := PersistEmbeddingOn(cfg, db, c, memoryId, hash, vector, now);
      var created := if c in db.embeddings then db.embeddings[c].createdAt else now;
      && (r.Err? <==> cfg.backend.OtherBackend? || RowidTaken(db.embeddings, c, RowidOf(cfg, c)))
      && (r.Ok? ==>
            && r.value == db.(backend := Some(cfg.backend), embeddings := r.value.embeddings, statuses := r.value.statuses, vec := r.value.vec)
            && r.value.embeddings == db.embeddings[c := Embedding(memoryId, vector, hash, RowidOf(cfg, c), created, now)]
            && r.value.vec == (if cfg.backend == SqliteVec then db.vec[RowidOf(cfg, c) := vector] else db.vec)
            && Recorded(db, r.value, c, memoryId, Indexed, hash, "", 1, now))
  {
    hide ValidTarget, RowidTaken, RowidOf;
  }

  // ----- What backfill lists -----

  /** A chunk of a live memory that is not embedded, or whose last index write failed; with `force`
      any chunk of a live memory. */
  predicate NeedsIndexing(db: Tables, c: string, force: bool) {
    && c in db.chunks && db.chunks[c].chunk.memoryId in db.items
    && db.items[db.chunks[c].chunk.memoryId].deletedAt == None
    && (!force && c in db.embeddings ==> c in db.statuses && db.statuses[c].status == Failed)
  }

  /** Created earlier, or at the same time with the smaller id. */
  predicate Older(c: Chunk, d: Chunk) {
    c.createdAt < d.createdAt || (c.createdAt == d.createdAt && TextLess(c.id, d.id))
  }

  /** Backfill lists chunks that need indexing and no others, oldest first; it leaves one out only
      when the list is full of older ones. */
  lemma ListIsExact(db: Tables, force: bool, limit: nat)
    requires ChunksOk(db.items.Keys, db.chunks)
    ensures
      var list := Candidates(db, force, limit);
      && |list| <= limit
      && (forall i :: 0 <= i < |list| ==> NeedsIndexing(db, list[i].id, force) && db.chunks[list[i].id].chunk == list[i])
      && (forall i, j :: 0 <= i < j < |list| ==> Older(list[i], list[j]))
      && (forall c :: NeedsIndexing(db, c, force) ==>
            db.chunks[c].chunk in list || (|list| == limit && forall i :: 0 <= i < |list| ==> Older(list[i], db.chunks[c].chunk)))
  {
    AgeOrdersChunks(CandidateChunks(db, force));
    CandidatesAreChunks(db, force, limit);
    var all := Listing(ByAge, CandidateChunks(db, force));
    var list := Candidates(db, force, limit);
    forall i | 0 <= i < |list|
      ensures NeedsIndexing(db, list[i].id, force) && db.chunks[list[i].id].chunk == list[i]
    {
      CandidateNeedsIndexing(db, force, list[i]);
    }
    forall c | NeedsIndexing(db, c, force) && db.chunks[c].chunk !in list
      ensures |list| == limit && forall i :: 0 <= i < |list| ==> Older(list[i], db.chunks[c].chunk)
    {
      assert IsCandidate(db, c, force);
      var chunk := db.chunks[c].chunk;
      assert chunk in CandidateChunks(db, force);
      hide IsCandidate, CandidateChunks, NeedsIndexing, ChunksOk;
      assert chunk in all;
      var k :| 0 <= k < |all| && all[k] == chunk;
      assert forall i :: 0 <= i < |list| ==> list[i] == all[i];
    }
  }

  lemma CandidateNeedsIndexing(db: Tables, force: bool, chunk: Chunk)
    requires ChunksOk(db.items.Keys, db.chunks) && chunk in CandidateChunks(db, force)
    ensures NeedsIndexing(db, chunk.id, force) && db.chunks[chunk.id].chunk == chunk
  {
  }

  /** A backfill scans at most its limit, 100 unless one is given, and less only if that is all there is. */
  lemma BackfillScansUpToItsLimit(cfg: Config, db: Tables, limit: int, force: bool, envs: string -> IndexEnv, clock: nat -> Instant, c: string)
    requires Sound(cfg, db) && cfg.texts.Lawful() && ChunksOk(db.items.Keys, db.chunks) && NeedsIndexing(db, c, force)
    ensures
      var list := Candidates(db, force, NormalizeBackfillLimit(limit));
      var scanned := BackfillOn(cfg, db, list, envs, clock).1.scanned;
      var most := if limit > 0 then limit else 100;
      && scanned == |list| <= most && (db.chunks[c].chunk in list || scanned == most)
  {
    hide Sound, Texts.Lawful, BackfillOn, ChunksOk, NeedsIndexing, Candidates;
    ListIsExact(db, force, NormalizeBackfillLimit(limit));
    CandidatesAreChunks(db, force, NormalizeBackfillLimit(limit));
    BackfillKeepsIndexes(cfg, db, Candidates(db, force, NormalizeBackfillLimit(limit)), envs, clock);
  }

  /** With truthful statuses, once nothing is left to list every chunk of a live memory has an
      embedding, none has failed, and those called indexed have that of the present title and keywords. */
  lemma NothingLeftMeansIndexed(cfg: Config, db: Tables, limit: nat, c: string)
    requires Sound(cfg, db) && IndexSound(cfg, db) && ChunksOk(db.items.Keys, db.chunks)
    requires limit > 0 && Candidates(db, false, limit) == []
    requires c in db.chunks && db.chunks[c].chunk.memoryId in db.items && db.items[db.chunks[c].chunk.memoryId].deletedAt.None?
    ensures c in db.embeddings
    ensures c in db.statuses ==> db.statuses[c].status != Failed
    ensures c in db.statuses && db.statuses[c].status == Indexed ==>
              var document := CurrentDocument(cfg, db, db.chunks[c].chunk.memoryId);
              document.Some? && db.embeddings[c].contentHash == cfg.texts.hash(document.value)
  {
    ListIsExact(db, false, limit);
    StatusesNameMemories(cfg, db);
    hide Sound, ChunksOk, CurrentDocument, Candidates;
    assert !NeedsIndexing(db, c, false);
    AgreesAnywhere(cfg, db, c);
  }

  /** With room for them, every chunk that needs indexing is listed; with `force` that is every chunk
      of every live memory. */
  lemma WithRoomAllAreListed(db: Tables, force: bool, limit: nat, c: string)
    requires ChunksOk(db.items.Keys, db.chunks) && |db.chunks| <= limit && c in db.chunks
    requires db.chunks[c].chunk.memoryId in db.items && db.items[db.chunks[c].chunk.memoryId].deletedAt.None?
    requires force || c !in db.embeddings || (c in db.statuses && db.statuses[c].status == Failed)
    ensures db.chunks[c].chunk in Candidates(db, force, limit)
  {
    ListIsExact(db, force, limit);
    CandidatesAreChunks(db, force, limit);
    var list := Candidates(db, force, limit);
    hide Candidates, ChunksOk, Distinct, Older;
    assert NeedsIndexing(db, c, force);
    if db.chunks[c].chunk !in list {
      assert forall i :: 0 <= i < |list| ==> list[i].id in db.chunks && list[i].id != c;
      OneMoreThanListed(db.chunks.Keys, list, c);
    }
  }

  lemma OneMoreThanListed(ids: set<string>, list: seq<Chunk>, c: string)
    requires Distinct(list) && c in ids && forall i :: 0 <= i < |list| ==> list[i].id in ids && list[i].id != c
    ensures |ids| > |list|
  {
    hide Distinct;
    var listed := set i | 0 <= i < |list| :: list[i].id;
    DistinctIdsCount(list);
    assert c !in listed;
    FewerKeys(listed + {c}, ids);
  }

  lemma FewerKeys(a: set<string>, b: set<string>)
    requires a <= b
    ensures |a| <= |b|
  {
    if a != b {
      assert a + (b - a) == b;
    }
  }

  lemma {:induction false} DistinctIdsCount(list: seq<Chunk>)
    requires Distinct(list)
    ensures |set i | 0 <= i < |list| :: list[i].id| == |list|
  {
    if list != [] {
      var n := |list| - 1;
      DistinctIdsCount(list[..n]);
      var before := set i | 0 <= i < n :: list[..n][i].id;
      assert (set i | 0 <= i < |list| :: list[i].id) == before + {list[n].id};
    }
  }

  // ----- A failed update is made good -----

  /** An update of a memory's texts whose embedding fails, and whose failure is recorded, leaves the
      memory's chunk waiting for backfill. */
  lemma FailedUpdateWaits(cfg: Config, db: Tables, input: UpdateInput, chunkId: string, env: IndexEnv, now: Instant)
    requires Sound(cfg, db) && cfg.texts.Lawful() && ChunksOk(db.items.Keys, db.chunks)
    requires UpdateTxOn(cfg, db, input, chunkId, now).Ok? && Reindexes(input)
    requires cfg.vectorEnabled && ValidTarget(cfg.texts, cfg.target) && env.durable
    requires
      var document := CurrentDocument(cfg, UpdateTxOn(cfg, db, input, chunkId, now).value.db, input.id);
      document.Some? && !Fits(cfg, document.value, env.outcome)
    ensures
      var after := UpdateOn(cfg, db, input, chunkId, env, now).0;
      var c := FinalChunk(db, input, chunkId);
      && c.Some? && c.value in after.statuses && after.statuses[c.value].status == Failed
      && NeedsIndexing(after, c.value, false) && after.chunks[c.value].chunk.memoryId == input.id
      && CurrentDocument(cfg, after, input.id) == CurrentDocument(cfg, UpdateTxOn(cfg, db, input, chunkId, now).value.db, input.id)
  {
    UpdatedMemoryIsLive(cfg, db, input, chunkId, now);
    hide *;
    var u := UpdateTxOn(cfg, db, input, chunkId, now).value;
    UpdateUnfolds(cfg, db, input, chunkId, env, now);
    FailedIndexWaits(cfg, u.db, FinalChunk(db, input, chunkId).value, input.id, env, now);
  }

  lemma UpdatedMemoryIsLive(cfg: Config, db: Tables, input: UpdateInput, chunkId: string, now: Instant)
    requires Sound(cfg, db) && cfg.texts.Lawful() && UpdateTxOn(cfg, db, input, chunkId, now).Ok?
    ensures
      var after := UpdateTxOn(cfg, db, input, chunkId, now).value.db;
      input.id in after.items && after.items[input.id].deletedAt.None?
  {
    SoundHasSchema(cfg, db);
    UpdateSucceedsExactlyWhen(cfg, db, input, chunkId, now);
    hide UpdateTxOn, Sound, WordsOf, Document, UpdateWords, WordsReplaced, BodyReplaced, ChunkIdFree, SchemaOk, Texts.Lawful;
  }

  lemma FailedIndexWaits(cfg: Config, db: Tables, c: string, memoryId: string, env: IndexEnv, now: Instant)
    requires Sound(cfg, db) && ChunkOfMemory(db, c, memoryId) && db.items[memoryId].deletedAt.None?
    requires cfg.vectorEnabled && ValidTarget(cfg.texts, cfg.target) && env.durable && now != 0
    requires CurrentDocument(cfg, db, memoryId).Some? && !Fits(cfg, CurrentDocument(cfg, db, memoryId).value, env.outcome)
    ensures
      var after := IndexOn(cfg, db, Title(db, memoryId), WordsOf(db.keywords, memoryId), c, memoryId, env, now).0;
      && c in after.statuses && after.statuses[c].status == Failed
      && NeedsIndexing(after, c, false) && after.chunks[c].chunk.memoryId == memoryId
      && CurrentDocument(cfg, after, memoryId) == CurrentDocument(cfg, db, memoryId)
  {
    var after := IndexOn(cfg, db, Title(db, memoryId), WordsOf(db.keywords, memoryId), c, memoryId, env, now).0;
    DocumentRead(cfg, db, memoryId);
    ChunksAreNamed(cfg, db, c, memoryId);
    UnfitIsRecorded(cfg, db, Title(db, memoryId), WordsOf(db.keywords, memoryId), c, memoryId, env, now);
    SameTextsSameDocument(cfg, db, after, memoryId);
    hide IndexOn, CurrentDocument, WordsOf, Sound, ValidTarget, Document, Fits, Explains;
  }

  lemma ChunksAreNamed(cfg: Config, db: Tables, c: string, memoryId: string)
    requires Sound(cfg, db) && ChunkOfMemory(db, c, memoryId)
    ensures c != "" && memoryId != ""
  {
    SoundHasSchema(cfg, db);
    hide Sound;
  }

  /** A healthy backfill that lists a waiting chunk of a memory with a title or keywords leaves it
      indexed, with the embedding of the present title and keywords. */
  lemma RetryHeals(cfg: Config, db: Tables, force: bool, limit: nat, envs: string -> IndexEnv, clock: nat -> Instant, c: string)
    requires Sound(cfg, db) && IndexSound(cfg, db) && cfg.texts.Lawful() && Ready(cfg, db) && ChunksOk(db.items.Keys, db.chunks)
    requires AllHealthy(cfg, Candidates(db, force, limit), envs, clock)
    requires NeedsIndexing(db, c, force) && db.chunks[c].chunk in Candidates(db, force, limit)
    requires CurrentDocument(cfg, db, db.chunks[c].chunk.memoryId).Some?
    ensures
      var after := BackfillOn(cfg, db, Candidates(db, force, limit), envs, clock).0;
      var hash := cfg.texts.hash(CurrentDocument(cfg, db, db.chunks[c].chunk.memoryId).value);
      && c in after.embeddings && after.embeddings[c].contentHash == hash
      && c in after.statuses && after.statuses[c].status == Indexed && after.statuses[c].contentHash == hash
  {
    var list := Candidates(db, force, limit);
    var after := BackfillOn(cfg, db, list, envs, clock).0;
    var memoryId := db.chunks[c].chunk.memoryId;
    ChunkKnowsItsId(db, c);
    var i :| 0 <= i < |list| && list[i] == db.chunks[c].chunk;
    hide *;
    CandidatesAreChunks(db, force, limit);
    BackfillKeepsIndexes(cfg, db, list, envs, clock);
    HealthyBackfillDrains(cfg, db, list, envs, clock);
    DrainedIsIndexed(cfg, db, list, after, i);
    SameTextsSameDocument(cfg, db, after, memoryId);
    IndexedTellsTheTruth(cfg, after, c);
    ChunksStay(cfg, db, after, c);
  }

  /** The two together: an update of the texts whose embedding failed, followed by a healthy backfill
      with room for every chunk, leaves the memory indexed under its new title and keywords. */
  lemma FailedUpdateIsMadeGood(cfg: Config, db: Tables, input: UpdateInput, chunkId: string, env: IndexEnv, now: Instant,
                               limit: nat, envs: string -> IndexEnv, clock: nat -> Instant)
    requires Sound(cfg, db) && IndexSound(cfg, db) && cfg.texts.Lawful() && ChunksOk(db.items.Keys, db.chunks)
    requires UpdateTxOn(cfg, db, input, chunkId, now).Ok? && Reindexes(input) && env.durable
    requires
      var document := CurrentDocument(cfg, UpdateTxOn(cfg, db, input, chunkId, now).value.db, input.id);
      document.Some? && !Fits(cfg, document.value, env.outcome)
    requires
      var failed := UpdateOn(cfg, db, input, chunkId, env, now).0;
      && Ready(cfg, failed) && ChunksOk(failed.items.Keys, failed.chunks) && |failed.chunks| <= limit
      && AllHealthy(cfg, Candidates(failed, false, limit), envs, clock)
    ensures
      var failed := UpdateOn(cfg, db, input, chunkId, env, now).0;
      var after := BackfillOn(cfg, failed, Candidates(failed, false, limit), envs, clock).0;
      var document := CurrentDocument(cfg, UpdateTxOn(cfg, db, input, chunkId, now).value.db, input.id);
      var c := FinalChunk(db, input, chunkId);
      && c.Some? && document.Some?
      && c.value in after.statuses && after.statuses[c.value].status == Indexed
      && c.value in after.embeddings && after.embeddings[c.value].contentHash == cfg.texts.hash(document.value)
  {
    var failed := UpdateOn(cfg, db, input, chunkId, env, now).0;
    ReadyMeans(cfg, failed);
    hide *;
    UpdateKeepsIndexes(cfg, db, input, chunkId, env, now);
    FailedUpdateWaits(cfg, db, input, chunkId, env, now);
    var c := FinalChunk(db, input, chunkId).value;
    NeedMeans(failed, c);
    WithRoomAllAreListed(failed, false, limit, c);
    RetryHeals(cfg, failed, false, limit, envs, clock, c);
  }

  lemma ReadyMeans(cfg: Config, db: Tables)
    requires Ready(cfg, db)
    ensures cfg.vectorEnabled && ValidTarget(cfg.texts, cfg.target)
  {
  }

  lemma NeedMeans(db: Tables, c: string)
    requires NeedsIndexing(db, c, false)
    ensures c in db.chunks && db.chunks[c].chunk.memoryId in db.items && db.items[db.chunks[c].chunk.memoryId].deletedAt.None?
    ensures c !in db.embeddings || (c in db.statuses && db.statuses[c].status == Failed)
  {
  }

  lemma ChunkKnowsItsId(db: Tables, c: string)
    requires ChunksOk(db.items.Keys, db.chunks) && c in db.chunks
    ensures db.chunks[c].chunk.id == c
  {
  }

  lemma DrainedIsIndexed(cfg: Config, start: Tables, list: seq<Chunk>, after: Tables, i: nat)
    requires Drained(cfg, start, list, after) && i < |list| && CurrentDocument(cfg, start, list[i].memoryId).Some?
    ensures list[i].id in after.embeddings && list[i].id in after.statuses && after.statuses[list[i].id].status == Indexed
  {
    hide CurrentDocument;
    assert Documented(cfg, start, list[i]);
  }

  lemma IndexedTellsTheTruth(cfg: Config, db: Tables, c: string)
    requires IndexSound(cfg, db) && c in db.statuses && db.statuses[c].status == Indexed
    ensures
      var document := CurrentDocument(cfg, db, db.statuses[c].memoryId);
      && c in db.embeddings && document.Some? && db.embeddings[c].contentHash == cfg.texts.hash(document.value)
      && db.statuses[c].contentHash == db.embeddings[c].contentHash
  {
    AgreesAnywhere(cfg, db, c);
    hide CurrentDocument;
  }

  lemma ChunksStay(cfg: Config, before: Tables, after: Tables, c: string)
    requires OnlyIndexMoved(before, after) && Sound(cfg, after) && c in before.chunks
    ensures c in after.statuses ==> after.statuses[c].memoryId == before.chunks[c].chunk.memoryId
  {
    StatusesNameMemories(cfg, after);
    hide Sound;
  }
}
