/** Update and the derived indexes: what replacing the text of a memory does to its chunk, its
    index entries and its vec0 rows, and when a lost index write leaves a stale `indexed`. */
module IndexUpdate {
  import opened Prelude
  import opened Schema
  import opened Keywords
  import opened Ordering
  import opened Repository
  import opened Lifecycle
  import opened LifecycleLaws
  import opened Service
  import opened Words
  import opened Writes
  import opened Index

  // ----- Replacing the body -----

  predicate IsChunkOf(db: Tables, c: string, id: string) { c in db.chunks && db.chunks[c].chunk.memoryId == id }

  /** The old chunk makes room for the new one. */
  ghost predicate ChunkSwapped(db: Tables, id: string, chunk: Chunk, after: map<string, ChunkRow>) {
    && chunk.id in after && after[chunk.id].chunk == chunk
    && (forall c :: c != chunk.id ==> (c in after <==> c in db.chunks && !IsChunkOf(db, c, id)))
    && (forall c :: c in after && c != chunk.id ==> after[c] == db.chunks[c])
  }

  ghost predicate EntriesDropped<V>(db: Tables, id: string, before: map<string, V>, after: map<string, V>) {
    && (forall c :: c in after <==> c in before && !IsChunkOf(db, c, id))
    && (forall c :: c in after ==> after[c] == before[c])
  }

  lemma EmptiedDropsEntries(db: Tables, id: string)
    ensures
      var after := Emptied(db, id);
      && EntriesDropped(db, id, db.chunks, after.chunks)
      && EntriesDropped(db, id, db.embeddings, after.embeddings)
      && EntriesDropped(db, id, db.statuses, after.statuses)
      && after.backend == db.backend && after.vec == DeleteVecRowsOn(db, id).vec
  {
    hide RowidsIn, VecRowids;
  }

  lemma BodyReplacedLeaves(db: Tables, id: string, chunk: Chunk)
    ensures
      var after := BodyReplaced(db, id, chunk);
      && ChunkSwapped(db, id, chunk, after.chunks)
      && EntriesDropped(db, id, db.embeddings, after.embeddings)
      && EntriesDropped(db, id, db.statuses, after.statuses)
      && after.backend == db.backend && after.vec == DeleteVecRowsOn(db, id).vec
  {
    EmptiedDropsEntries(db, id);
    hide NextRowid, Emptied, DeleteVecRowsOn, IsChunkOf;
  }

  lemma ReplacedChunkIsExact(items: map<string, Item>, db: Tables, id: string, chunk: Chunk, after: map<string, ChunkRow>)
    requires ChunksExact(db.items, db.chunks) && id in db.items && ChunkIdFree(db, id, chunk.id)
    requires chunk.memoryId == id && chunk.index == 0 && chunk.createdAt != 0
    requires items.Keys == db.items.Keys && items[id].body == chunk.content
    requires forall other :: other in items && other != id ==> items[other].body == db.items[other].body
    requires ChunkSwapped(db, id, chunk, after)
    ensures ChunksExact(items, after)
  {
    forall other | other in items
      ensures ChunkSlotTaken(after, other, 0)
    {
      if other != id {
        assert ChunkSlotTaken(db.chunks, other, 0);
        var c :| c in db.chunks && db.chunks[c].chunk.memoryId == other && db.chunks[c].chunk.index == 0;
        assert c in after && after[c] == db.chunks[c];
      }
    }
  }

  lemma ReplacedEntriesBelong(cfg: Config, db: Tables, id: string, chunk: Chunk, after: Tables)
    requires EntriesBelong(cfg, db.chunks, db.backend, db.embeddings, db.statuses) && ChunkIdFree(db, id, chunk.id)
    requires ChunkSwapped(db, id, chunk, after.chunks) && after.backend == db.backend
    requires EntriesDropped(db, id, db.embeddings, after.embeddings) && EntriesDropped(db, id, db.statuses, after.statuses)
    ensures EntriesBelong(cfg, after.chunks, after.backend, after.embeddings, after.statuses)
    ensures chunk.id !in after.statuses && chunk.id !in after.embeddings
  {
    hide ValidTarget, RowidOf, DeleteVecRowsOn;
  }

  lemma ReplacedVecIsExact(cfg: Config, db: Tables, id: string, after: Tables)
    requires EmbeddingsOk(db.items.Keys, db.chunks, db.backend, db.embeddings) && VecExact(db.backend, db.embeddings, db.vec)
    requires EntriesBelong(cfg, db.chunks, db.backend, db.embeddings, db.statuses)
    requires EntriesDropped(db, id, db.embeddings, after.embeddings)
    requires after.backend == db.backend && after.vec == DeleteVecRowsOn(db, id).vec
    ensures VecExact(after.backend, after.embeddings, after.vec)
  {
    hide ValidTarget, RowidOf;
    if db.backend == Some(SqliteVec) {
      forall r | r in after.vec
        ensures HasRowid(after.embeddings, r)
      {
        assert HasRowid(db.embeddings, r);
        var c :| c in db.embeddings && db.embeddings[c].rowid == r;
        assert r in db.vec && r !in VecRowids(db.embeddings, id);
        assert c in after.embeddings && after.embeddings[c].rowid == r;
      }
    }
  }

  // ----- The update transaction -----

  lemma OtherDocumentsStay(cfg: Config, db: Tables, input: UpdateInput, chunkId: string, now: Instant, u: Updated)
    requires Admissible(cfg, db, input, chunkId, now) && Rewritten(cfg, db, input, chunkId, now, u)
    ensures forall other :: other in db.items && other != input.id ==>
              WordsOf(u.db.keywords, other) == WordsOf(db.keywords, other)
              && CurrentDocument(cfg, u.db, other) == CurrentDocument(cfg, db, other)
    ensures Title(u.db, input.id) == Or(input.title, db.items[input.id].title)
    ensures WordsOf(u.db.keywords, input.id) == u.words
    ensures u.db.items.Keys == db.items.Keys
  {
    hide WordsOf, Document, CurrentDocument, RowsAre, OthersKeepRows, BodyReplaced, ValidUpdate, ChunkIdFree, UpdateWords;
    assert OthersKeepRows(db.keywords, u.db.keywords, input.id) by {
      NothingReplaced(db.keywords, input.id);
    }
    DocumentsStay(cfg, db, u.db, input.id);
  }

  lemma RewrittenTextIsBounded(cfg: Config, db: Tables, input: UpdateInput, chunkId: string, now: Instant, u: Updated)
    requires TextsBounded(cfg, db) && Admissible(cfg, db, input, chunkId, now) && Rewritten(cfg, db, input, chunkId, now, u)
    requires UpdateWords(cfg, input, WordsOf(db.keywords, input.id)) == Ok(u.words) && cfg.texts.Lawful()
    ensures TextsBounded(cfg, u.db)
  {
    hide WordsOf, Document, Clean, Rewritten, Texts.Lawful, ValidUpdate, ChunkIdFree, UpdateWords;
    OtherDocumentsStay(cfg, db, input, chunkId, now, u);
    UpdateWordsAreClean(cfg, db, input, u.words);
  }

  lemma UpdateWordsAreClean(cfg: Config, db: Tables, input: UpdateInput, words: seq<string>)
    requires Clean(cfg.texts, WordsOf(db.keywords, input.id)) && cfg.texts.Lawful()
    requires UpdateWords(cfg, input, WordsOf(db.keywords, input.id)) == Ok(words)
    ensures Clean(cfg.texts, words)
  {
    hide WordsOf, Clean, Texts.Lawful;
    if input.keywords.Some? {
      NormalizedIsClean(cfg.texts, input.keywords.value);
    }
  }

  lemma NothingReplaced(keywords: map<KeywordKey, Keyword>, id: string)
    ensures OthersKeepRows(keywords, keywords, id)
  {
  }

  lemma RewrittenIsSound(cfg: Config, db: Tables, input: UpdateInput, chunkId: string, now: Instant, u: Updated)
    requires Sound(cfg, db) && SchemaOk(u.db) && cfg.texts.Lawful()
    requires Admissible(cfg, db, input, chunkId, now) && Rewritten(cfg, db, input, chunkId, now, u)
    requires UpdateWords(cfg, input, WordsOf(db.keywords, input.id)) == Ok(u.words)
    ensures Sound(cfg, u.db)
  {
    hide SchemaOk, ChunksExact, EntriesBelong, VecExact, TextsBounded, WordsReplaced, BodyReplaced, WordsOf, Document, Texts.Lawful,
      UpdateWords;
    RewrittenTextIsBounded(cfg, db, input, chunkId, now, u);
    if input.body.Some? {
      var chunk := Chunk(chunkId, input.id, 0, input.body.value, now);
      var replaced := BodyReplaced(db, input.id, chunk);
      BodyTouchesTextOnly(db, input.id, chunk);
      BodyReplacedLeaves(db, input.id, chunk);
      hide ChunkSwapped, EntriesDropped, EmbeddingsOk, DeleteVecRowsOn;
      ReplacedChunkIsExact(u.db.items, db, input.id, chunk, replaced.chunks);
      ReplacedEntriesBelong(cfg, db, input.id, chunk, replaced);
      SchemaHasEmbeddings(db);
      ReplacedVecIsExact(cfg, db, input.id, replaced);
    } else {
      SameBodiesSameChunks(db.items, u.db.items, db.chunks);
    }
  }

  lemma SameBodiesSameChunks(before: map<string, Item>, after: map<string, Item>, chunks: map<string, ChunkRow>)
    requires ChunksExact(before, chunks) && after.Keys == before.Keys
    requires forall id :: id in before ==> after[id].body == before[id].body
    ensures ChunksExact(after, chunks)
  {
  }

  // ----- The chunk that is indexed -----

  lemma FirstChunkIsTheOnlyOne(db: Tables, id: string)
    requires SchemaOk(db) && ChunksExact(db.items, db.chunks) && id in db.items
    ensures
      var c := FirstChunk(db, id);
      && c.Some? && c.value.id in db.chunks && db.chunks[c.value.id].chunk == c.value && c.value.id != ""
      && c.value.memoryId == id
      && forall d :: d in db.chunks && db.chunks[d].chunk.memoryId == id ==> d == c.value.id
  {
    assert ChunkSlotTaken(db.chunks, id, 0);
    var c :| c in db.chunks && db.chunks[c].chunk.memoryId == id && db.chunks[c].chunk.index == 0;
    hide SchemaOk, ChunkSlotTaken;
    assert ChunksOk(db.items.Keys, db.chunks) by { SchemaHasChunks(db); }
    SlotsOrderChunks(db.chunks, id);
    var list := ChunkList(db.chunks, id);
    assert db.chunks[c].chunk in ChunkSet(db.chunks, id);
    assert db.chunks[c].chunk in list;
    assert list[0] in list && list[0] in ChunkSet(db.chunks, id);
    forall d | d in db.chunks && db.chunks[d].chunk.memoryId == id
      ensures d == list[0].id
    {
      assert SameSlot(db.chunks[d].chunk, db.chunks[list[0].id].chunk);
    }
  }

  lemma SchemaHasChunks(db: Tables)
    requires SchemaOk(db)
    ensures ChunksOk(db.items.Keys, db.chunks)
  {
  }

  lemma FinalChunkIsOwn(cfg: Config, db: Tables, input: UpdateInput, chunkId: string, now: Instant, u: Updated)
    requires Sound(cfg, db) && Admissible(cfg, db, input, chunkId, now) && Rewritten(cfg, db, input, chunkId, now, u)
    ensures
      var c := FinalChunk(db, input, chunkId);
      c.Some? && c.value != "" && ChunkOfMemory(u.db, c.value, input.id)
  {
    hide WordsOf, Document, UpdateWords, WordsReplaced, NextRowid, TextsBounded, ValidUpdate, VecExact, EntriesBelong;
    FirstChunkIsTheOnlyOne(db, input.id);
  }

  ghost predicate RestAgrees(cfg: Config, db: Tables, c: string) {
    Backed(db, c) && forall other :: other in db.statuses && other != c ==> StatusAgrees(cfg, db, other)
  }

  /** After the transaction only the memory's own chunk may be out of step. */
  lemma RewrittenLeavesOthersAgreeing(cfg: Config, db: Tables, input: UpdateInput, chunkId: string, now: Instant, u: Updated)
    requires Sound(cfg, db) && IndexSound(cfg, db)
    requires Admissible(cfg, db, input, chunkId, now) && Rewritten(cfg, db, input, chunkId, now, u)
    requires FinalChunk(db, input, chunkId).Some?
    ensures RestAgrees(cfg, u.db, FinalChunk(db, input, chunkId).value)
  {
    SoundHasSchema(cfg, db);
    var own := FinalChunk(db, input, chunkId).value;
    hide *;
    forall c | c in u.db.statuses
      ensures Backed(u.db, c)
      ensures c != own ==> StatusAgrees(cfg, u.db, c)
    {
      EntryOfAnother(cfg, db, input, chunkId, now, u, c);
    }
    AllButOneAgree(cfg, u.db, own);
  }

  lemma AllButOneAgree(cfg: Config, db: Tables, c: string)
    requires forall other :: other in db.statuses ==> Backed(db, other)
    requires forall other :: other in db.statuses && other != c ==> StatusAgrees(cfg, db, other)
    ensures RestAgrees(cfg, db, c)
  {
    hide StatusAgrees;
  }

  lemma EntryOfAnother(cfg: Config, db: Tables, input: UpdateInput, chunkId: string, now: Instant, u: Updated, c: string)
    requires Sound(cfg, db) && IndexSound(cfg, db) && ChunksOk(db.items.Keys, db.chunks)
    requires Admissible(cfg, db, input, chunkId, now) && Rewritten(cfg, db, input, chunkId, now, u)
    requires FinalChunk(db, input, chunkId).Some? && c in u.db.statuses
    ensures Backed(u.db, c)
    ensures c != FinalChunk(db, input, chunkId).value ==> StatusAgrees(cfg, u.db, c)
  {
    OwnEntries(cfg, db, input, chunkId, now, u);
    OtherDocumentsStay(cfg, db, input, chunkId, now, u);
    assert KeepsEntry(db, u.db, c);
    assert StatusAgrees(cfg, db, c);
    EntryAgrees(cfg, db, u.db, c);
    hide CurrentDocument, WordsOf, Admissible, Rewritten, Sound, FirstChunk, StatusAgrees, ChunksOk, KeepsEntry, Backed, IndexSound;
  }

  lemma ReplacedKeepsEntries(cfg: Config, db: Tables, id: string, chunk: Chunk)
    requires EntriesBelong(cfg, db.chunks, db.backend, db.embeddings, db.statuses) && ChunkIdFree(db, id, chunk.id)
    ensures
      var after := BodyReplaced(db, id, chunk);
      && chunk.id !in after.statuses
      && forall c :: c in after.statuses ==> KeepsEntry(db, after, c) && db.statuses[c].memoryId != id
  {
    BodyReplacedLeaves(db, id, chunk);
    hide BodyReplaced, ValidTarget, RowidOf;
  }

  /** The index entries an update leaves: all of them without a new body, those of the other
      memories with one. */
  lemma OwnEntries(cfg: Config, db: Tables, input: UpdateInput, chunkId: string, now: Instant, u: Updated)
    requires Sound(cfg, db)
    requires Admissible(cfg, db, input, chunkId, now) && Rewritten(cfg, db, input, chunkId, now, u)
    ensures FirstChunk(db, input.id).Some?
    ensures input.body.None? ==> u.db.statuses == db.statuses && u.db.embeddings == db.embeddings && u.db.chunks == db.chunks
    ensures input.body.Some? ==> chunkId !in u.db.statuses
    ensures forall c :: c in u.db.statuses ==>
              KeepsEntry(db, u.db, c) && db.statuses[c].memoryId in db.items
              && (input.body.Some? || c != FirstChunk(db, input.id).value.id ==> db.statuses[c].memoryId != input.id)
  {
    FirstChunkIsTheOnlyOne(db, input.id);
    StatusesNameMemories(cfg, db);
    TablesAfterUpdate(cfg, db, input, chunkId, now, u);
    hide *;
    if input.body.Some? {
      var chunk := Chunk(chunkId, input.id, 0, input.body.value, now);
      ReplacedKeepsEntries(cfg, db, input.id, chunk);
      SameEntriesKept(db, BodyReplaced(db, input.id, chunk), u.db);
    } else {
      SameEntriesKept(db, db, u.db);
    }
  }

  lemma SameEntriesKept(before: Tables, a: Tables, b: Tables)
    requires a.statuses == b.statuses && a.embeddings == b.embeddings
    ensures forall c :: KeepsEntry(before, a, c) ==> KeepsEntry(before, b, c)
    ensures forall c :: c in before.statuses ==> KeepsEntry(before, before, c)
  {
  }

  lemma TablesAfterUpdate(cfg: Config, db: Tables, input: UpdateInput, chunkId: string, now: Instant, u: Updated)
    requires Admissible(cfg, db, input, chunkId, now) && Rewritten(cfg, db, input, chunkId, now, u)
    ensures input.body.Some? ==> ChunkIdFree(db, input.id, chunkId)
    ensures
      var base := if input.body.Some? then BodyReplaced(db, input.id, Chunk(chunkId, input.id, 0, input.body.value, now)) else db;
      u.db.statuses == base.statuses && u.db.embeddings == base.embeddings && u.db.chunks == base.chunks
  {
    hide WordsOf, WordsReplaced, ValidUpdate, Document, UpdateWords, BodyReplaced, ChunkIdFree, UpdatedItem;
  }

  lemma StatusesNameMemories(cfg: Config, db: Tables)
    requires Sound(cfg, db)
    ensures EntriesBelong(cfg, db.chunks, db.backend, db.embeddings, db.statuses)
    ensures forall c :: c in db.statuses ==>
              db.statuses[c].memoryId in db.items && c in db.chunks && db.chunks[c].chunk.memoryId == db.statuses[c].memoryId
  {
    hide ValidTarget, RowidOf;
    assert StatusesOk(db.items.Keys, db.chunks, db.statuses);
  }

  // ----- The whole update -----

  lemma UpdateUnfolds(cfg: Config, db: Tables, input: UpdateInput, chunkId: string, env: IndexEnv, now: Instant)
    requires Sound(cfg, db) && cfg.texts.Lawful() && UpdateTxOn(cfg, db, input, chunkId, now).Ok?
    ensures
      var u := UpdateTxOn(cfg, db, input, chunkId, now).value;
      var c := FinalChunk(db, input, chunkId);
      && Sound(cfg, u.db) && Admissible(cfg, db, input, chunkId, now) && Rewritten(cfg, db, input, chunkId, now, u)
      && UpdateWords(cfg, input, WordsOf(db.keywords, input.id)) == Ok(u.words)
      && c.Some? && ChunkOfMemory(u.db, c.value, input.id) && now != 0
      && UpdateOn(cfg, db, input, chunkId, env, now).0
         == (if Reindexes(input) then IndexOn(cfg, u.db, Title(u.db, input.id), WordsOf(u.db.keywords, input.id), c.value, input.id, env, now).0
             else u.db)
  {
    SoundHasSchema(cfg, db);
    UpdateSucceedsExactlyWhen(cfg, db, input, chunkId, now);
    var u := UpdateTxOn(cfg, db, input, chunkId, now).value;
    RewrittenIsSound(cfg, db, input, chunkId, now, u);
    FinalChunkIsOwn(cfg, db, input, chunkId, now, u);
    OtherDocumentsStay(cfg, db, input, chunkId, now, u);
    AdmissibleHasClock(cfg, db, input, chunkId, now);
    hide UpdateTxOn, Sound, Rewritten, Admissible, WordsOf, IndexOn, FinalChunk, UpdateWords, SchemaOk, Texts.Lawful, ChunksOk;
  }

  lemma AdmissibleHasClock(cfg: Config, db: Tables, input: UpdateInput, chunkId: string, now: Instant)
    requires Admissible(cfg, db, input, chunkId, now)
    ensures now != 0 && input.id != "" && input.id in db.items
  {
    hide WordsOf, UpdateWords, Document, ChunkIdFree;
  }

  /** An update keeps the chunk, memory_fts and vec0 exact whatever happens to the index write; when
      that write persists, `indexed` keeps telling the truth. */
  lemma UpdateKeepsIndexes(cfg: Config, db: Tables, input: UpdateInput, chunkId: string, env: IndexEnv, now: Instant)
    requires Sound(cfg, db) && cfg.texts.Lawful()
    ensures ChunksOk(db.items.Keys, db.chunks) && Sound(cfg, UpdateOn(cfg, db, input, chunkId, env, now).0)
    ensures IndexSound(cfg, db) && env.durable ==> IndexSound(cfg, UpdateOn(cfg, db, input, chunkId, env, now).0)
  {
    SoundHasSchema(cfg, db);
    if UpdateTxOn(cfg, db, input, chunkId, now).Ok? {
      hide *;
      UpdateUnfolds(cfg, db, input, chunkId, env, now);
      var u := UpdateTxOn(cfg, db, input, chunkId, now).value;
      var c := FinalChunk(db, input, chunkId).value;
      var (title, words) := (Title(u.db, input.id), WordsOf(u.db.keywords, input.id));
      IndexKeepsSound(cfg, u.db, title, words, c, input.id, env, now);
      if IndexSound(cfg, db) && env.durable {
        RewrittenLeavesOthersAgreeing(cfg, db, input, chunkId, now, u);
        RestAgreesMeans(cfg, u.db, c);
        if Reindexes(input) {
          IndexKeepsIndexSound(cfg, u.db, c, input.id, env, now);
        } else {
          AgreesUnlessStale(cfg, db, input, chunkId, now, u);
          QuietUpdateIsNotStale(cfg, db, input, chunkId, now, u);
        }
      }
    } else {
      hide UpdateTxOn, Sound, IndexSound;
    }
  }

  lemma RestAgreesMeans(cfg: Config, db: Tables, c: string)
    requires RestAgrees(cfg, db, c)
    ensures Backed(db, c)
    ensures forall other :: other in db.statuses && other != c ==> StatusAgrees(cfg, db, other)
    ensures StatusAgrees(cfg, db, c) <==> IndexSound(cfg, db)
  {
    hide StatusAgrees, Backed;
    if StatusAgrees(cfg, db, c) {
    } else {
      NoStatusAgrees(cfg, db, c);
    }
  }

  lemma NoStatusAgrees(cfg: Config, db: Tables, c: string)
    ensures c !in db.statuses ==> StatusAgrees(cfg, db, c)
  {
  }

  /** The document the memory will have, by its new title and keywords. */
  ghost function NewDocument(cfg: Config, db: Tables, input: UpdateInput): Option<string>
    requires input.id in db.items && UpdateWords(cfg, input, WordsOf(db.keywords, input.id)).Ok?
  {
    Document(cfg.texts, Or(input.title, db.items[input.id].title), UpdateWords(cfg, input, WordsOf(db.keywords, input.id)).value)
  }

  /** The chunk stays and its status does not fit the new document: `indexed` under another hash, or
      `indexed` or `failed` with nothing left to embed. */
  ghost predicate WouldGoStale(cfg: Config, db: Tables, input: UpdateInput)
    requires ChunksOk(db.items.Keys, db.chunks)
    requires input.id in db.items && UpdateWords(cfg, input, WordsOf(db.keywords, input.id)).Ok?
  {
    && input.body.None? && FirstChunk(db, input.id).Some?
    && var c := FirstChunk(db, input.id).value.id;
    && c in db.statuses
    && var document := NewDocument(cfg, db, input);
    || (db.statuses[c].status == Indexed && !(document.Some? && cfg.texts.hash(document.value) == db.statuses[c].contentHash))
    || (db.statuses[c].status == Failed && document.None?)
  }

  lemma AgreesUnlessStale(cfg: Config, db: Tables, input: UpdateInput, chunkId: string, now: Instant, u: Updated)
    requires Sound(cfg, db) && IndexSound(cfg, db) && ChunksOk(db.items.Keys, db.chunks)
    requires Admissible(cfg, db, input, chunkId, now) && Rewritten(cfg, db, input, chunkId, now, u)
    requires UpdateWords(cfg, input, WordsOf(db.keywords, input.id)) == Ok(u.words)
    ensures FinalChunk(db, input, chunkId).Some?
    ensures StatusAgrees(cfg, u.db, FinalChunk(db, input, chunkId).value) <==> !WouldGoStale(cfg, db, input)
  {
    OwnEntries(cfg, db, input, chunkId, now, u);
    OtherDocumentsStay(cfg, db, input, chunkId, now, u);
    FirstChunkIsTheOnlyOne(db, input.id);
    StatusesNameMemories(cfg, db);
    var c := FinalChunk(db, input, chunkId).value;
    DocumentRead(cfg, u.db, input.id);
    NewDocumentRead(cfg, db, input, u.words);
    hide WordsOf, Admissible, Rewritten, Sound, FirstChunk, Document, EntriesBelong, SchemaOk, ChunksOk, CurrentDocument, NewDocument, UpdateWords,
      IndexSound;
    if input.body.None? && c in db.statuses {
      assert KeepsEntry(db, u.db, c);
      AgreesNow(cfg, db, c);
      hide KeepsEntry;
      EntryDescribes(cfg, db, u.db, c, NewDocument(cfg, db, input));
    }
  }

  lemma AgreesNow(cfg: Config, db: Tables, c: string)
    requires IndexSound(cfg, db) && c in db.statuses
    ensures StatusAgrees(cfg, db, c)
  {
    hide StatusAgrees;
  }

  /** A status kept over a change of document. */
  lemma EntryDescribes(cfg: Config, before: Tables, after: Tables, c: string, document: Option<string>)
    requires KeepsEntry(before, after, c) && StatusAgrees(cfg, before, c)
    requires CurrentDocument(cfg, after, before.statuses[c].memoryId) == document
    ensures StatusAgrees(cfg, after, c) <==>
            !(before.statuses[c].status == Indexed && !(document.Some? && cfg.texts.hash(document.value) == before.statuses[c].contentHash))
            && !(before.statuses[c].status == Failed && document.None?)
  {
    hide CurrentDocument;
  }

  lemma NewDocumentRead(cfg: Config, db: Tables, input: UpdateInput, words: seq<string>)
    requires input.id in db.items && UpdateWords(cfg, input, WordsOf(db.keywords, input.id)) == Ok(words)
    ensures NewDocument(cfg, db, input) == Document(cfg.texts, Or(input.title, db.items[input.id].title), words)
  {
    hide WordsOf, UpdateWords, Document;
  }

  lemma QuietUpdateIsNotStale(cfg: Config, db: Tables, input: UpdateInput, chunkId: string, now: Instant, u: Updated)
    requires Sound(cfg, db) && IndexSound(cfg, db) && ChunksOk(db.items.Keys, db.chunks)
    requires Admissible(cfg, db, input, chunkId, now) && !Reindexes(input)
    ensures !WouldGoStale(cfg, db, input)
  {
    FirstChunkIsTheOnlyOne(db, input.id);
    StatusesNameMemories(cfg, db);
    assert NewDocument(cfg, db, input) == CurrentDocument(cfg, db, input.id);
    hide WordsOf, Sound, FirstChunk, Document, EntriesBelong, SchemaOk, ChunksOk, ChunkIdFree;
    var c := FirstChunk(db, input.id).value.id;
    if c in db.statuses {
      assert StatusAgrees(cfg, db, c);
    }
  }

  /** When the index write of an update is lost, a status goes stale exactly if the chunk stays and
      was indexed for another document, or indexed or failed where there is now none. */
  lemma LostWriteGoesStaleExactlyWhen(cfg: Config, db: Tables, input: UpdateInput, chunkId: string, env: IndexEnv, now: Instant)
    requires Sound(cfg, db) && IndexSound(cfg, db) && cfg.texts.Lawful() && ChunksOk(db.items.Keys, db.chunks)
    requires UpdateTxOn(cfg, db, input, chunkId, now).Ok? && !env.durable
    ensures input.id in db.items && UpdateWords(cfg, input, WordsOf(db.keywords, input.id)).Ok?
    ensures IndexSound(cfg, UpdateOn(cfg, db, input, chunkId, env, now).0) <==> !WouldGoStale(cfg, db, input)
  {
    UpdateUnfolds(cfg, db, input, chunkId, env, now);
    var u := UpdateTxOn(cfg, db, input, chunkId, now).value;
    var c := FinalChunk(db, input, chunkId).value;
    AdmissibleHasClock(cfg, db, input, chunkId, now);
    RewrittenLeavesOthersAgreeing(cfg, db, input, chunkId, now, u);
    RestAgreesMeans(cfg, u.db, c);
    AgreesUnlessStale(cfg, db, input, chunkId, now, u);
    IndexOnWrites(cfg, u.db, Title(u.db, input.id), WordsOf(u.db.keywords, input.id), c, input.id, env, now);
    hide *;
  }
}
