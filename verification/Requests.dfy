/** Save and Update, said of the requests themselves: which are accepted, and what they leave. */
module Requests {
  import opened Prelude
  import opened Schema
  import opened Keywords
  import opened Repository
  import opened Service
  import opened Words
  import opened Writes
  import opened Index
  import opened IndexUpdate

  // ----- Save -----

  /** A save that is in order, ids and clock aside. */
  predicate GoodSave(cfg: Config, input: SaveInput) {
    && input.body != "" && (input.tier.Some? ==> input.tier.value.Valid()) && 0 <= input.importance <= 100
    && !input.metadata.Unencodable? && GoodKeywords(cfg.texts, input.keywords)
    && NormalizeKeywords(cfg.texts, input.keywords).Ok?
    && ShortDocument(cfg, input.title, NormalizeKeywords(cfg.texts, input.keywords).value)
  }

  predicate ShortDocument(cfg: Config, title: string, words: seq<string>) {
    var document := Document(cfg.texts, title, words);
    document.Some? ==> |document.value| <= 4096
  }

  lemma GoodSavesAreRequests(cfg: Config, input: SaveInput, itemId: string, now: Instant)
    ensures SaveRequest(cfg, input, itemId, now).Ok? <==> GoodSave(cfg, input)
    ensures SaveRequest(cfg, input, itemId, now).Ok? ==>
              SaveRequest(cfg, input, itemId, now).value.0 == AskedRow(input, itemId, now)
              && Ok(SaveRequest(cfg, input, itemId, now).value.1) == NormalizeKeywords(cfg.texts, input.keywords)
  {
    KeywordsAcceptedExactlyWhen(cfg.texts, input.keywords);
    hide NormalizeKeywords, Document, GoodKeywords;
  }

  /** A save is accepted exactly when it is in order, its ids are fresh and the clock is set. It then
      adds the one row it asked for, an empty metadata text becoming `{}`, and logs one event;
      refused, it changes nothing. What it returns is that row and the keywords as they are listed. */
  lemma SaveIsAcceptedExactlyWhen(cfg: Config, db: Tables, input: SaveInput, itemId: string, chunkId: string, env: IndexEnv, now: Instant)
    requires SchemaOk(db) && cfg.texts.Lawful()
    ensures
      var (after, r) := SaveOn(cfg, db, input, itemId, chunkId, env, now);
      && (r.Ok? <==> GoodSave(cfg, input) && itemId != "" && itemId !in db.items && chunkId != "" && chunkId !in db.chunks && now != 0)
      && (r.Err? ==> after == db)
      && (r.Ok? ==>
            var row := AskedRow(input, itemId, now);
            && after.items == db.items[itemId := if row.metadata == "" then row.(metadata := "{}") else row]
            && after.events == db.events + [Event(db.lastEventId + 1, Some(itemId), "created", NoDetail, now)]
            && r.value.item == row && r.value.keywords == WordsOf(after.keywords, itemId))
  {
    GoodSavesAreRequests(cfg, input, itemId, now);
    hide GoodSave, SchemaOk, SaveRequest, SaveTxOn, IndexOn, Texts.Lawful, Clean, Document, WordsOf, RowsAre, OthersKeepRows, NextRowid, KeywordRows;
    var request := SaveRequest(cfg, input, itemId, now);
    if request.Ok? {
      var (item, words) := request.value;
      SaveRequestIsClean(cfg, input, itemId, now);
      SaveSucceedsExactlyWhen(cfg, db, item, chunkId, words);
      if SaveTxOn(cfg, db, item, chunkId, words).Ok? {
        var saved := SaveTxOn(cfg, db, item, chunkId, words).value;
        IndexOnWrites(cfg, saved, item.title, words, chunkId, itemId, env, now);
        hide IndexWritten;
      }
    }
  }

  // ----- Update -----

  /** The title and keywords an update leaves. */
  ghost function NewTitle(db: Tables, input: UpdateInput): string
    requires input.id in db.items
  {
    match input.title case Some(title) => title case None => db.items[input.id].title
  }

  ghost function NewWords(cfg: Config, db: Tables, input: UpdateInput): Result<seq<string>, Error> {
    match input.keywords case Some(words) => NormalizeKeywords(cfg.texts, words) case None => Ok(WordsOf(db.keywords, input.id))
  }

  /** An update that is in order, for a live memory, with a chunk id no other memory has. */
  ghost predicate GoodUpdate(cfg: Config, db: Tables, input: UpdateInput, chunkId: string, now: Instant) {
    && input.id != "" && input.id in db.items && db.items[input.id].deletedAt.None? && now != 0
    && (input.body.Some? ==> input.body.value != "")
    && (input.tier.Some? ==> input.tier.value.Valid())
    && (input.importance.Some? ==> 0 <= input.importance.value <= 100)
    && input.metadata != Some(Unencodable)
    && (input.keywords.Some? ==> GoodKeywords(cfg.texts, input.keywords.value))
    && NewWords(cfg, db, input).Ok? && ShortDocument(cfg, NewTitle(db, input), NewWords(cfg, db, input).value)
    && (input.body.Some? ==> chunkId != "" && (chunkId in db.chunks ==> db.chunks[chunkId].chunk.memoryId == input.id))
  }

  lemma GoodUpdatesAreAdmissible(cfg: Config, db: Tables, input: UpdateInput, chunkId: string, now: Instant)
    ensures GoodUpdate(cfg, db, input, chunkId, now) <==> Admissible(cfg, db, input, chunkId, now)
    ensures Admissible(cfg, db, input, chunkId, now) ==>
              ChangedAsAsked(db.items[input.id], input, UpdatedItem(db.items[input.id], input, now), now)
  {
    if input.keywords.Some? {
      KeywordsAcceptedExactlyWhen(cfg.texts, input.keywords.value);
    }
    hide NormalizeKeywords, Document, GoodKeywords, WordsOf;
  }

  /** An update is accepted exactly when it is in order. It then rewrites the one row as asked, field
      by field, and logs one event; refused, it changes nothing. */
  lemma UpdateIsAcceptedExactlyWhen(cfg: Config, db: Tables, input: UpdateInput, chunkId: string, env: IndexEnv, now: Instant)
    requires SchemaOk(db) && cfg.texts.Lawful()
    ensures ChunksOk(db.items.Keys, db.chunks)
    ensures
      var (after, r) := UpdateOn(cfg, db, input, chunkId, env, now);
      && (r.Ok? <==> GoodUpdate(cfg, db, input, chunkId, now))
      && (r.Err? ==> after == db)
      && (r.Ok? ==>
            && after.items == db.items[input.id := r.value.item] && ChangedAsAsked(db.items[input.id], input, r.value.item, now)
            && after.events == db.events + [Event(db.lastEventId + 1, Some(input.id), "updated", NoDetail, now)]
            && Ok(r.value.keywords) == NewWords(cfg, db, input) && r.value.keywords == WordsOf(after.keywords, input.id))
  {
    SchemaHasChunks(db);
    GoodUpdatesAreAdmissible(cfg, db, input, chunkId, now);
    UpdateSucceedsExactlyWhen(cfg, db, input, chunkId, now);
    hide SchemaOk, GoodUpdate, UpdateTxOn, Texts.Lawful, Document, WordsOf, IndexOn, Admissible, ChangedAsAsked, FinalChunk;
    if UpdateTxOn(cfg, db, input, chunkId, now).Ok? {
      UpdateResult(cfg, db, input, chunkId, env, now);
    }
  }

  lemma UpdateResult(cfg: Config, db: Tables, input: UpdateInput, chunkId: string, env: IndexEnv, now: Instant)
    requires SchemaOk(db) && ChunksOk(db.items.Keys, db.chunks) && UpdateTxOn(cfg, db, input, chunkId, now).Ok?
    requires Admissible(cfg, db, input, chunkId, now) && UpdateWords(cfg, input, WordsOf(db.keywords, input.id)) == Ok(UpdateTxOn(cfg, db, input, chunkId, now).value.words)
    requires Rewritten(cfg, db, input, chunkId, now, UpdateTxOn(cfg, db, input, chunkId, now).value)
    ensures
      var (after, r) := UpdateOn(cfg, db, input, chunkId, env, now);
      && r.Ok? && r.value.item == UpdatedItem(db.items[input.id], input, now) && after.items == db.items[input.id := r.value.item]
      && after.events == db.events + [Event(db.lastEventId + 1, Some(input.id), "updated", NoDetail, now)]
      && Ok(r.value.keywords) == NewWords(cfg, db, input) && r.value.keywords == WordsOf(after.keywords, input.id)
  {
    var u := UpdateTxOn(cfg, db, input, chunkId, now).value;
    BodyTouchesTextOnly(db, input.id, Chunk(chunkId, input.id, 0, Or(input.body, ""), now));
    var c := FinalChunk(db, input, chunkId);
    hide UpdateTxOn, SchemaOk, ChunksOk, IndexOn, WordsOf, UpdatedItem, BodyReplaced, FinalChunk, NormalizeKeywords, Document, ValidUpdate,
      ChunkIdFree, RowsAre, OthersKeepRows, KeywordRows;
    if c.Some? {
      IndexOnWrites(cfg, u.db, u.db.items[input.id].title, u.words, c.value, input.id, env, now);
      hide IndexWritten;
    }
  }
}
