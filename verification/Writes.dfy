/** What Save and Update write, table by table, and exactly when they succeed. */
module Writes {
  import opened Prelude
  import opened Schema
  import opened Keywords
  import opened Ordering
  import opened Repository
  import opened Lifecycle
  import opened Service
  import opened Words

  // ----- Save -----

  function StoredItem(item: Item): Item { item.(metadata := DefaultJson(item.metadata)) }

  function FirstChunkOf(item: Item, chunkId: string): Chunk { Chunk(chunkId, item.id, 0, item.body, item.createdAt) }

  /** A saved memory is one item, one chunk, its keywords in order and one event; no other row moves. */
  ghost predicate Saved(cfg: Config, before: Tables, item: Item, chunkId: string, words: seq<string>, after: Tables) {
    && after == before.(items := before.items[item.id := StoredItem(item)],
                        chunks := before.chunks[chunkId := ChunkRow(NextRowid(before.chunks), FirstChunkOf(item, chunkId))],
                        fts := before.fts[NextRowid(before.chunks) := Projection(FirstChunkOf(item, chunkId))],
                        keywords := after.keywords,
                        events := before.events + [Event(before.lastEventId + 1, Some(item.id), "created", NoDetail, item.createdAt)],
                        lastEventId := before.lastEventId + 1)
    && RowsAre(after.keywords, item.id, KeywordRows(cfg.texts, item.id, words, item.createdAt))
    && OthersKeepRows(before.keywords, after.keywords, item.id)
    && WordsOf(after.keywords, item.id) == words
  }

  predicate WellFormed(item: Item) {
    item.body != "" && item.tier.Valid() && 0 <= item.importance <= 100 && item.createdAt == item.updatedAt
  }

  predicate FreshIds(db: Tables, item: Item, chunkId: string) {
    item.id != "" && item.id !in db.items && chunkId != "" && chunkId !in db.chunks
  }

  lemma ItemAndChunkAdded(db: Tables, item: Item, chunkId: string)
    requires SchemaOk(db) && WellFormed(item)
    ensures
      var created := CreateItemOn(db, item);
      var chunked := if created.Ok? then AddChunkOn(created.value, FirstChunkOf(item, chunkId)) else created;
      && (chunked.Ok? <==> FreshIds(db, item, chunkId) && item.createdAt != 0)
      && (chunked.Ok? ==>
            && SchemaOk(chunked.value)
            && chunked.value == db.(items := db.items[item.id := StoredItem(item)],
                                    chunks := db.chunks[chunkId := ChunkRow(NextRowid(db.chunks), FirstChunkOf(item, chunkId))],
                                    fts := db.fts[NextRowid(db.chunks) := Projection(FirstChunkOf(item, chunkId))]))
  {
    var created := CreateItemOn(db, item);
    if created.Ok? {
      InsertItemKeepsSchema(db, StoredItem(item));
      hide SchemaOk, NextRowid;
      NextRowidIsFree(created.value);
      SlotIsFree(db, item.id);
      if AddChunkOn(created.value, FirstChunkOf(item, chunkId)).Ok? {
        InsertChunkKeepsSchema(created.value, FirstChunkOf(item, chunkId));
      }
    }
  }

  lemma SlotIsFree(db: Tables, id: string)
    requires SchemaOk(db) && id !in db.items
    ensures !ChunkSlotTaken(db.chunks, id, 0)
  {
  }

  lemma EventRecorded(db: Tables, id: string, eventType: string, payload: Payload, now: Instant)
    requires SchemaOk(db) && id in db.items && id != "" && eventType != ""
    ensures
      var recorded := RecordEventOn(db, id, eventType, payload, now);
      && (recorded.Ok? <==> now != 0)
      && (recorded.Ok? ==>
            && SchemaOk(recorded.value)
            && recorded.value == db.(events := db.events + [Event(db.lastEventId + 1, Some(id), eventType, payload, now)],
                                     lastEventId := db.lastEventId + 1))
  {
    var e := Event(db.lastEventId + 1, Some(id), eventType, payload, now);
    assert EventsOk(db.items.Keys, db.events, db.lastEventId);
    if now != 0 {
      InsertEventKeepsSchema(db, e);
    }
  }

  lemma SaveSucceedsExactlyWhen(cfg: Config, db: Tables, item: Item, chunkId: string, words: seq<string>)
    requires SchemaOk(db) && cfg.texts.Lawful() && Clean(cfg.texts, words) && WellFormed(item)
    ensures SaveTxOn(cfg, db, item, chunkId, words).Ok? <==> FreshIds(db, item, chunkId) && item.createdAt != 0
    ensures SaveTxOn(cfg, db, item, chunkId, words).Ok? ==>
              var after := SaveTxOn(cfg, db, item, chunkId, words).value;
              SchemaOk(after) && Saved(cfg, db, item, chunkId, words, after)
  {
    hide SchemaOk, CreateItemOn, AddChunkOn, ReplaceKeywordsOn, RecordEventOn, NextRowid, RowsAre, OthersKeepRows, WordsOf, Clean, Texts.Lawful;
    ItemAndChunkAdded(db, item, chunkId);
    var created := CreateItemOn(db, item);
    if created.Ok? && AddChunkOn(created.value, FirstChunkOf(item, chunkId)).Ok? {
      var chunked := AddChunkOn(created.value, FirstChunkOf(item, chunkId)).value;
      var rows := KeywordRows(cfg.texts, item.id, words, item.createdAt);
      ReplacedWordsAreListed(cfg.texts, chunked, item.id, words, item.createdAt);
      ReplaceKeywordsKeepsSchema(cfg.texts, chunked, item.id, rows);
      var tagged := ReplaceKeywordsOn(cfg.texts, chunked, item.id, rows).value;
      EventRecorded(tagged, item.id, "created", NoDetail, item.createdAt);
    }
  }

  // ----- Update -----

  function Emptied(db: Tables, id: string): Tables { DeleteChunks(DeleteVecRowsOn(db, id), id) }

  /** The body's chunk replaced: the old chunk goes, with its memory_fts, embedding, status and vec0
      rows, and the new one comes in. */
  function BodyReplaced(db: Tables, id: string, chunk: Chunk): Tables {
    var emptied := Emptied(db, id);
    var rowid := NextRowid(emptied.chunks);
    emptied.(chunks := emptied.chunks[chunk.id := ChunkRow(rowid, chunk)], fts := emptied.fts[rowid := Projection(chunk)])
  }

  predicate ChunkIdFree(db: Tables, id: string, chunkId: string) {
    chunkId != "" && (chunkId in db.chunks ==> db.chunks[chunkId].chunk.memoryId == id)
  }

  lemma EmptiedKeepsSchema(db: Tables, id: string)
    requires SchemaOk(db)
    ensures SchemaOk(Emptied(db, id)) && !ChunkSlotTaken(Emptied(db, id).chunks, id, 0)
    ensures Emptied(db, id).items == db.items
  {
    var cleared := DeleteVecRowsOn(db, id);
    assert SchemaOk(cleared);
    DeleteChunksKeepsSchema(cleared, id);
  }

  lemma OneChunkAdded(db: Tables, id: string, chunk: Chunk)
    requires id != "" && chunk.memoryId == id
    ensures ReplaceChunksOn(db, id, [chunk]) == AddChunkOn(Emptied(db, id), chunk)
  {
    hide AddChunkOn, DeleteChunks, DeleteVecRowsOn;
    assert [chunk][..0] == [];
    assert AddChunksOn(Emptied(db, id), id, [chunk][..0]) == Ok(Emptied(db, id));
  }

  lemma BodyReplacedExactlyWhen(db: Tables, id: string, chunk: Chunk)
    requires SchemaOk(db) && id != "" && id in db.items
    requires chunk.memoryId == id && chunk.index == 0 && chunk.content != "" && chunk.createdAt != 0
    ensures ReplaceChunksOn(db, id, [chunk]).Ok? <==> ChunkIdFree(db, id, chunk.id)
    ensures ReplaceChunksOn(db, id, [chunk]).Ok? ==>
              ReplaceChunksOn(db, id, [chunk]).value == BodyReplaced(db, id, chunk) && SchemaOk(BodyReplaced(db, id, chunk))
  {
    OneChunkAdded(db, id, chunk);
    EmptiedKeepsSchema(db, id);
    NextRowidIsFree(Emptied(db, id));
    IdIsFreeInEmptied(db, id, chunk.id);
    hide SchemaOk, NextRowid, Emptied, ChunkSlotTaken, ChunkIdFree, ReplaceChunksOn;
    if AddChunkOn(Emptied(db, id), chunk).Ok? {
      InsertChunkKeepsSchema(Emptied(db, id), chunk);
    }
  }

  lemma IdIsFreeInEmptied(db: Tables, id: string, chunkId: string)
    ensures ChunkIdFree(db, id, chunkId) <==> chunkId != "" && chunkId !in Emptied(db, id).chunks
  {
    hide RowidsIn, VecRowids;
  }

  /** What the source checks of an update before it is written. */
  ghost predicate Admissible(cfg: Config, db: Tables, input: UpdateInput, chunkId: string, now: Instant) {
    && input.id != "" && input.id in db.items && db.items[input.id].deletedAt.None?
    && UpdateWords(cfg, input, WordsOf(db.keywords, input.id)).Ok?
    && !TooLong(Document(cfg.texts, Or(input.title, db.items[input.id].title), UpdateWords(cfg, input, WordsOf(db.keywords, input.id)).value))
    && UpdateMetadata(input).Ok?
    && ValidUpdate(RowUpdate(input, UpdateMetadata(input).value, now))
    && (input.body.Some? ==> ChunkIdFree(db, input.id, chunkId))
  }

  function UpdatedItem(item: Item, input: UpdateInput, now: Instant): Item
    requires UpdateMetadata(input).Ok?
  {
    Patched(item, RowUpdate(input, UpdateMetadata(input).value, now))
  }

  ghost predicate WordsReplaced(cfg: Config, before: map<KeywordKey, Keyword>, input: UpdateInput, now: Instant,
                                after: map<KeywordKey, Keyword>, words: seq<string>) {
    && WordsOf(after, input.id) == words
    && (if input.keywords.Some?
        then RowsAre(after, input.id, KeywordRows(cfg.texts, input.id, words, now)) && OthersKeepRows(before, after, input.id)
        else after == before)
  }

  /** An update rewrites one item, optionally its keywords and its chunk, and appends one event. */
  ghost predicate Rewritten(cfg: Config, before: Tables, input: UpdateInput, chunkId: string, now: Instant, u: Updated)
    requires UpdateMetadata(input).Ok? && input.id in before.items
  {
    var base := if input.body.Some? then BodyReplaced(before, input.id, Chunk(chunkId, input.id, 0, input.body.value, now)) else before;
    && WordsReplaced(cfg, before.keywords, input, now, u.db.keywords, u.words)
    && u.db == base.(items := before.items[input.id := UpdatedItem(before.items[input.id], input, now)],
                     keywords := u.db.keywords,
                     events := before.events + [Event(before.lastEventId + 1, Some(input.id), "updated", NoDetail, now)],
                     lastEventId := before.lastEventId + 1)
  }

  lemma ItemRewritten(db: Tables, id: string, u: MemoryUpdate)
    requires SchemaOk(db) && id != "" && id in db.items
    ensures UpdateItemOn(db, id, u).Ok? <==> ValidUpdate(u)
    ensures UpdateItemOn(db, id, u).Ok? ==>
              && SchemaOk(UpdateItemOn(db, id, u).value)
              && UpdateItemOn(db, id, u).value == db.(items := db.items[id := Patched(db.items[id], u)])
  {
    if ValidUpdate(u) {
      assert ItemsOk(db.items);
      UpdateItemKeepsSchema(db, id, Patched(db.items[id], u));
    }
  }

  lemma WordsRewritten(cfg: Config, db: Tables, input: UpdateInput, words: seq<string>, now: Instant)
    requires SchemaOk(db) && cfg.texts.Lawful() && input.id != "" && input.id in db.items && now != 0
    requires UpdateWords(cfg, input, WordsOf(db.keywords, input.id)) == Ok(words)
    ensures
      var tagged := if input.keywords.Some?
                    then ReplaceKeywordsOn(cfg.texts, db, input.id, KeywordRows(cfg.texts, input.id, words, now)) else Ok(db);
      && tagged.Ok? && SchemaOk(tagged.value) && tagged.value == db.(keywords := tagged.value.keywords)
      && WordsReplaced(cfg, db.keywords, input, now, tagged.value.keywords, words)
  {
    if input.keywords.Some? {
      NormalizedIsClean(cfg.texts, input.keywords.value);
      ReplacedWordsAreListed(cfg.texts, db, input.id, words, now);
      ReplaceKeywordsKeepsSchema(cfg.texts, db, input.id, KeywordRows(cfg.texts, input.id, words, now));
    }
  }

  lemma TextRewritten(cfg: Config, db: Tables, input: UpdateInput, chunkId: string, words: seq<string>, now: Instant)
    requires SchemaOk(db) && cfg.texts.Lawful() && input.id != "" && input.id in db.items && now != 0
    requires UpdateWords(cfg, input, WordsOf(db.keywords, input.id)) == Ok(words)
    requires input.body.Some? ==> input.body.value != ""
    ensures
      var replaced := ReplaceTextOn(cfg, db, input, chunkId, words, now);
      && (replaced.Ok? <==> (input.body.Some? ==> ChunkIdFree(db, input.id, chunkId)))
      && (replaced.Ok? ==>
            && SchemaOk(replaced.value)
            && WordsReplaced(cfg, db.keywords, input, now, replaced.value.keywords, words)
            && replaced.value
               == (if input.body.Some? then BodyReplaced(db, input.id, Chunk(chunkId, input.id, 0, input.body.value, now)) else db)
                  .(keywords := replaced.value.keywords))
  {
    hide SchemaOk, Texts.Lawful, ReplaceKeywordsOn, ReplaceChunksOn, WordsOf, WordsReplaced, UpdateWords, BodyReplaced;
    WordsRewritten(cfg, db, input, words, now);
    var tagged := if input.keywords.Some?
                  then ReplaceKeywordsOn(cfg.texts, db, input.id, KeywordRows(cfg.texts, input.id, words, now)) else Ok(db);
    if input.body.Some? {
      var chunk := Chunk(chunkId, input.id, 0, input.body.value, now);
      BodyReplacedExactlyWhen(tagged.value, input.id, chunk);
      BodyIgnoresTheRest(db, db.items, tagged.value.keywords, input.id, chunk);
      BodyTouchesTextOnly(db, input.id, chunk);
      BodyTouchesTextOnly(tagged.value, input.id, chunk);
    }
  }

  lemma VecRowsIgnoreTheRest(db: Tables, items: map<string, Item>, keywords: map<KeywordKey, Keyword>, id: string)
    ensures DeleteVecRowsOn(db.(items := items, keywords := keywords), id)
            == DeleteVecRowsOn(db, id).(items := items, keywords := keywords)
  {
    hide VecRowids;
    if db.backend == Some(SqliteVec) {
    } else {
    }
  }

  lemma ChunksIgnoreTheRest(db: Tables, items: map<string, Item>, keywords: map<KeywordKey, Keyword>, id: string)
    ensures DeleteChunks(db.(items := items, keywords := keywords), id)
            == DeleteChunks(db, id).(items := items, keywords := keywords)
  {
    hide ChunksOf, RowidsIn;
  }

  lemma BodyIgnoresTheRest(db: Tables, items: map<string, Item>, keywords: map<KeywordKey, Keyword>, id: string, chunk: Chunk)
    ensures
      var other := db.(items := items, keywords := keywords);
      && BodyReplaced(other, id, chunk) == BodyReplaced(db, id, chunk).(items := items, keywords := keywords)
      && ChunkIdFree(other, id, chunk.id) == ChunkIdFree(db, id, chunk.id)
  {
    hide NextRowid, Projection, DeleteVecRowsOn, DeleteChunks;
    VecRowsIgnoreTheRest(db, items, keywords, id);
    ChunksIgnoreTheRest(DeleteVecRowsOn(db, id), items, keywords, id);
  }

  lemma BodyTouchesTextOnly(db: Tables, id: string, chunk: Chunk)
    ensures
      var after := BodyReplaced(db, id, chunk);
      after == db.(chunks := after.chunks, fts := after.fts, embeddings := after.embeddings, statuses := after.statuses, vec := after.vec)
  {
    EmptiedTouchesTextOnly(db, id);
    hide Emptied, NextRowid, Projection;
  }

  lemma EmptiedTouchesTextOnly(db: Tables, id: string)
    ensures
      var after := Emptied(db, id);
      after == db.(chunks := after.chunks, fts := after.fts, embeddings := after.embeddings, statuses := after.statuses, vec := after.vec)
  {
    hide ChunksOf, RowidsIn, VecRowids;
  }

  lemma UpdateSucceedsExactlyWhen(cfg: Config, db: Tables, input: UpdateInput, chunkId: string, now: Instant)
    requires SchemaOk(db) && cfg.texts.Lawful()
    ensures UpdateTxOn(cfg, db, input, chunkId, now).Ok? <==> Admissible(cfg, db, input, chunkId, now)
    ensures UpdateTxOn(cfg, db, input, chunkId, now).Ok? ==>
              var u := UpdateTxOn(cfg, db, input, chunkId, now).value;
              && SchemaOk(u.db) && Rewritten(cfg, db, input, chunkId, now, u)
              && UpdateWords(cfg, input, WordsOf(db.keywords, input.id)) == Ok(u.words)
  {
    hide SchemaOk, Texts.Lawful, ReplaceTextOn, UpdateItemOn, RecordEventOn, WordsOf, WordsReplaced, UpdateWords, BodyReplaced,
      UpdateMetadata, Document, ChunkIdFree, Patched;
    if input.id != "" && input.id in db.items && db.items[input.id].deletedAt.None?
       && UpdateWords(cfg, input, WordsOf(db.keywords, input.id)).Ok? && UpdateMetadata(input).Ok? {
      var words := UpdateWords(cfg, input, WordsOf(db.keywords, input.id)).value;
      var u := RowUpdate(input, UpdateMetadata(input).value, now);
      ItemRewritten(db, input.id, u);
      if ValidUpdate(u) {
        var patched := UpdateItemOn(db, input.id, u).value;
        TextRewritten(cfg, patched, input, chunkId, words, now);
        var chunk := Chunk(chunkId, input.id, 0, Or(input.body, ""), now);
        BodyIgnoresTheRest(db, patched.items, db.keywords, input.id, chunk);
        var replaced := ReplaceTextOn(cfg, patched, input, chunkId, words, now);
        if replaced.Ok? {
          BodyTouchesTextOnly(patched, input.id, chunk);
          EventRecorded(replaced.value, input.id, "updated", NoDetail, now);
        }
      }
    }
  }
}
