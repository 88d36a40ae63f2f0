/** What the tables hold of a memory's body and keywords, said row by row: after a save, after an
    update, and over every history. */
module Contents {
  import opened Prelude
  import opened Schema
  import opened Keywords
  import opened Ordering
  import opened Repository
  import opened Lifecycle
  import opened LifecycleLaws
  import opened Service
  import opened Words
  import opened Writes
  import opened Index
  import opened IndexUpdate
  import opened Requests
  import opened Backfill
  import opened History

  /** The keywords of a memory, numbered from zero, each with its trimmed lower-case form. */
  ghost predicate KeywordsStored(t: Texts, keywords: map<KeywordKey, Keyword>, id: string, words: seq<string>, now: Instant) {
    && (forall i :: 0 <= i < |words| ==>
          && KeywordKey(id, i) in keywords
          && keywords[KeywordKey(id, i)] == Keyword(id, i, words[i], t.lower(t.trim(words[i])), now, now))
    && (forall k: KeywordKey :: k in keywords && k.memoryId == id ==> 0 <= k.index < |words|)
  }

  lemma RowsStoreKeywords(t: Texts, keywords: map<KeywordKey, Keyword>, id: string, words: seq<string>, now: Instant)
    requires RowsAre(keywords, id, KeywordRows(t, id, words, now))
    ensures KeywordsStored(t, keywords, id, words, now)
  {
    assert forall i :: 0 <= i < |words| ==> KeywordRows(t, id, words, now)[i] == Keyword(id, i, words[i], t.Normalized(words[i]), now, now);
  }

  /** The body as one chunk of the memory, and as the row of that chunk in memory_fts. */
  predicate BodyStored(db: Tables, id: string, chunkId: string, body: string, now: Instant) {
    && chunkId in db.chunks && db.chunks[chunkId].chunk == Chunk(chunkId, id, 0, body, now)
    && db.chunks[chunkId].rowid in db.fts && db.fts[db.chunks[chunkId].rowid] == FtsRow(body, id, chunkId)
  }

  /** Save stores the body as the memory's chunk and memory_fts row, and the keywords it returns. */
  lemma SaveStoresTheTexts(cfg: Config, db: Tables, input: SaveInput, itemId: string, chunkId: string, env: IndexEnv, now: Instant)
    requires SchemaOk(db) && cfg.texts.Lawful() && SaveOn(cfg, db, input, itemId, chunkId, env, now).1.Ok?
    ensures
      var (after, r) := SaveOn(cfg, db, input, itemId, chunkId, env, now);
      && BodyStored(after, itemId, chunkId, input.body, now)
      && KeywordsStored(cfg.texts, after.keywords, itemId, r.value.keywords, now)
      && after.chunks == db.chunks[chunkId := after.chunks[chunkId]] && OthersKeepRows(db.keywords, after.keywords, itemId)
  {
    hide SchemaOk, SaveTxOn, IndexOn, Texts.Lawful, Clean, Document, WordsOf, RowsAre, KeywordsStored, OthersKeepRows, NextRowid, KeywordRows;
    var (item, words) := SaveRequest(cfg, input, itemId, now).value;
    GoodSavesAreRequests(cfg, input, itemId, now);
    SaveRequestIsClean(cfg, input, itemId, now);
    hide SaveRequest;
    SaveSucceedsExactlyWhen(cfg, db, item, chunkId, words);
    var saved := SaveTxOn(cfg, db, item, chunkId, words).value;
    IndexOnWrites(cfg, saved, item.title, words, chunkId, itemId, env, now);
    hide IndexWritten;
    RowsStoreKeywords(cfg.texts, saved.keywords, itemId, words, now);
  }

  /** The chunk and memory_fts row are replaced if the request names a body and the keywords if it names
      those, and otherwise left; the texts of other memories stay. */
  ghost predicate TextsAsAsked(t: Texts, before: Tables, input: UpdateInput, chunkId: string, now: Instant, after: Tables) {
    && (if input.body.Some? then BodyStored(after, input.id, chunkId, input.body.value, now)
        else after.chunks == before.chunks && after.fts == before.fts)
    && (forall c :: c in before.chunks && before.chunks[c].chunk.memoryId != input.id ==>
          c in after.chunks && after.chunks[c] == before.chunks[c])
    && (if input.keywords.Some?
        then KeywordsStored(t, after.keywords, input.id, WordsOf(after.keywords, input.id), now)
             && OthersKeepRows(before.keywords, after.keywords, input.id)
        else after.keywords == before.keywords)
  }

  lemma UpdateStoresTheTexts(cfg: Config, db: Tables, input: UpdateInput, chunkId: string, env: IndexEnv, now: Instant)
    requires Sound(cfg, db) && cfg.texts.Lawful() && ChunksOk(db.items.Keys, db.chunks) && UpdateTxOn(cfg, db, input, chunkId, now).Ok?
    ensures TextsAsAsked(cfg.texts, db, input, chunkId, now, UpdateOn(cfg, db, input, chunkId, env, now).0)
  {
    hide *;
    var u := UpdateTxOn(cfg, db, input, chunkId, now).value;
    UpdateUnfolds(cfg, db, input, chunkId, env, now);
    TextsOfUpdate(cfg, db, input, chunkId, now, u);
    IndexMovesNoText(cfg, u.db, Title(u.db, input.id), WordsOf(u.db.keywords, input.id), FinalChunk(db, input, chunkId).value, input.id, env, now);
    SameTextsStored(cfg.texts, db, input, chunkId, now, u.db, UpdateOn(cfg, db, input, chunkId, env, now).0);
  }

  lemma SameTextsStored(t: Texts, db: Tables, input: UpdateInput, chunkId: string, now: Instant, before: Tables, after: Tables)
    requires after.chunks == before.chunks && after.fts == before.fts && after.keywords == before.keywords
    requires TextsAsAsked(t, db, input, chunkId, now, before)
    ensures TextsAsAsked(t, db, input, chunkId, now, after)
  {
    hide KeywordsStored, WordsOf, OthersKeepRows;
  }

  lemma IndexMovesNoText(cfg: Config, db: Tables, title: string, words: seq<string>, c: string, memoryId: string, env: IndexEnv, now: Instant)
    ensures
      var after := IndexOn(cfg, db, title, words, c, memoryId, env, now).0;
      after.chunks == db.chunks && after.fts == db.fts && after.keywords == db.keywords
  {
    hide IndexOn, IndexWritten;
    IndexOnWrites(cfg, db, title, words, c, memoryId, env, now);
  }

  lemma TextsOfUpdate(cfg: Config, db: Tables, input: UpdateInput, chunkId: string, now: Instant, u: Updated)
    requires Admissible(cfg, db, input, chunkId, now) && Rewritten(cfg, db, input, chunkId, now, u)
    ensures TextsAsAsked(cfg.texts, db, input, chunkId, now, u.db)
  {
    hide WordsOf, Document, UpdateWords, NextRowid, ValidUpdate, UpdatedItem, RowsAre, OthersKeepRows, KeywordRows, KeywordsStored;
    if input.keywords.Some? {
      RowsStoreKeywords(cfg.texts, u.db.keywords, input.id, u.words, now);
    }
  }

  // ----- Every history -----

  /** Each memory has one chunk, which holds its body, and one row in memory_fts, which holds it too and
      names that memory and that chunk; and there are no other chunks and rows. */
  ghost predicate BodiesAreSearchable(db: Tables) {
    && (forall id :: id in db.items ==> HasOneChunk(db, id))
    && (forall c :: c in db.chunks ==> db.chunks[c].chunk.memoryId in db.items)
    && (forall r :: r in db.fts ==> db.fts[r].memoryId in db.items && db.fts[r].content == db.items[db.fts[r].memoryId].body
                                    && db.fts[r].chunkId in db.chunks && db.chunks[db.fts[r].chunkId].chunk.memoryId == db.fts[r].memoryId)
    && (forall q, r :: q in db.fts && r in db.fts && q != r ==> db.fts[q].memoryId != db.fts[r].memoryId)
  }

  ghost predicate HasOneChunk(db: Tables, id: string)
    requires id in db.items
  {
    exists c :: OnlyChunk(db, id, c)
  }

  predicate OnlyChunk(db: Tables, id: string, c: string)
    requires id in db.items
  {
    && c in db.chunks && db.chunks[c].chunk.content == db.items[id].body
    && db.chunks[c].rowid in db.fts && db.fts[db.chunks[c].rowid] == FtsRow(db.items[id].body, id, c)
    && forall d :: d in db.chunks && db.chunks[d].chunk.memoryId == id ==> d == c
  }

  lemma SoundMeansSearchable(cfg: Config, db: Tables)
    requires Sound(cfg, db)
    ensures BodiesAreSearchable(db)
  {
    SoundHasSchema(cfg, db);
    assert ChunksOk(db.items.Keys, db.chunks) && FtsExact(db.chunks, db.fts) && ChunksExact(db.items, db.chunks);
    hide *;
    ChunksMeanSearchable(db);
  }

  lemma ChunksMeanSearchable(db: Tables)
    requires ChunksOk(db.items.Keys, db.chunks) && FtsExact(db.chunks, db.fts) && ChunksExact(db.items, db.chunks)
    ensures BodiesAreSearchable(db)
  {
    forall id | id in db.items
      ensures HasOneChunk(db, id)
    {
      assert ChunkSlotTaken(db.chunks, id, 0);
      var c :| c in db.chunks && db.chunks[c].chunk.memoryId == id && db.chunks[c].chunk.index == 0;
      assert OnlyChunk(db, id, c);
    }
    forall q, r | q in db.fts && r in db.fts && q != r
      ensures db.fts[q].memoryId != db.fts[r].memoryId
    {
      assert SameSlot(db.chunks[db.fts[q].chunkId].chunk, db.chunks[db.fts[r].chunkId].chunk) <==> db.fts[q].memoryId == db.fts[r].memoryId;
    }
  }

  /** So a keyword search sees every memory's present body, and nothing else, after every history. */
  lemma BodiesAreSearchableOverEveryHistory(cfg: Config, ops: seq<Op>, states: seq<Tables>, k: nat)
    requires IsHistory(cfg, ops, states) && cfg.texts.Lawful() && Sound(cfg, states[0]) && k < |states|
    ensures BodiesAreSearchable(states[k])
  {
    hide Sound, BodiesAreSearchable, Texts.Lawful, IndexSound, IsHistory;
    IndexesAgreeOverEveryHistory(cfg, ops, states);
    SoundMeansSearchable(cfg, states[k]);
  }
}
