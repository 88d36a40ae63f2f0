/** Every store the service reaches holds only rows that an import accepts, policies aside. */
module Exportable {
  import opened Prelude
  import opened Schema
  import opened Keywords
  import opened Ordering
  import opened Repository
  import opened Lifecycle
  import opened LifecycleLaws
  import opened Service
  import opened Words
  import opened Writes
  import opened Index
  import opened IndexUpdate
  import opened ServiceLaws
  import opened Backfill
  import opened History
  import opened Ndjson
  import opened Parser
  import opened Import
  import opened ImportApply
  import opened Export
  import opened RoundTrip

  /** json.Marshal of a map gives an object; newID gives ids without NUL. */
  predicate MetadataIsObject(t: Texts, m: Metadata) { m.Encodable? ==> ObjectText(t, m.json) }

  predicate WellMade(t: Texts, op: Op) {
    match op
    case SaveOp(input, itemId, _, _, _) => '\0' !in itemId && MetadataIsObject(t, input.metadata)
    case UpdateOp(input, _, _, _) => input.metadata.Some? ==> MetadataIsObject(t, input.metadata.value)
    case _ => true
  }

  // ----- Changes of one row, and logs -----

  lemma ValidityReadsDurableTables(t: Texts, a: Tables, b: Tables)
    requires RowsValid(t, a)
    requires b.items == a.items && b.chunks == a.chunks && b.keywords == a.keywords && b.policies == a.policies
    requires b.events == a.events && b.lastEventId == a.lastEventId && b.access == a.access && b.lastAccessId == a.lastAccessId
    ensures RowsValid(t, b)
  {
    hide ItemRowAccepted, ValidChunk, ValidKeyword, EventValid, ValidAccess, ValidPolicy;
  }

  /** One item rewritten and one event logged. */
  lemma RowAndEvent(t: Texts, before: Tables, after: Tables, item: Item, e: Event)
    requires RowsValid(t, before) && ItemRowAccepted(t, item) && EventValid(t, e) && item.id in before.items
    requires after == before.(items := before.items[item.id := item], events := before.events + [e], lastEventId := before.lastEventId + 1)
    ensures RowsValid(t, after)
  {
    hide ItemRowAccepted, ValidChunk, ValidKeyword, EventValid, ValidAccess, ValidPolicy;
  }

  lemma PatchedStaysAccepted(t: Texts, item: Item, u: MemoryUpdate)
    requires ItemRowAccepted(t, item) && ValidUpdate(u) && t.Lawful()
    requires u.metadata.Some? ==> ObjectText(t, u.metadata.value)
    ensures ItemRowAccepted(t, Patched(item, u)) && Patched(item, u).id == item.id
  {
    if u.metadata.Some? {
      TrimmedNothing(t, u.metadata.value);
    }
    hide Texts.Lawful, ObjectText;
  }

  lemma LogIsPositive(t: Texts, db: Tables)
    requires RowsValid(t, db)
    ensures db.lastEventId >= 0 && db.lastAccessId >= 0
  {
    hide ItemRowAccepted, ValidChunk, ValidKeyword, EventValid, ValidAccess, ValidPolicy;
  }

  lemma RowIsAccepted(t: Texts, db: Tables, id: string)
    requires RowsValid(t, db) && id in db.items
    ensures ItemRowAccepted(t, db.items[id]) && '\0' !in id
  {
    hide ItemRowAccepted, ValidChunk, ValidKeyword, LogsValid, ValidPolicy;
  }

  // ----- The calls -----

  lemma MarkStaysValid(t: Texts, db: Tables, id: string, u: MemoryUpdate, eventType: string, payload: Payload, now: Instant)
    requires RowsValid(t, db) && SchemaOk(db) && t.Lawful() && eventType != "" && u.updatedAt == now && u.metadata.None?
    requires !payload.Text? && !payload.Lifecycle?
    ensures RowsValid(t, OrElse(MarkOn(db, id, u, eventType, payload, now), db))
  {
    MarkSucceedsExactlyWhen(db, id, u, eventType, payload, now);
    hide RowsValid, SchemaOk, Live, ValidUpdate, MarkOn, Marked, Texts.Lawful;
    if MarkOn(db, id, u, eventType, payload, now).Ok? {
      LiveAndUpdatable(db, id, u);
      MarkedStaysValid(t, db, id, u, eventType, payload, now);
    }
  }

  lemma LiveAndUpdatable(db: Tables, id: string, u: MemoryUpdate)
    requires SchemaOk(db) && Live(db, id) && ValidUpdate(u)
    ensures id in db.items && id != "" && db.items[id].id == id && u.updatedAt != 0
  {
  }

  lemma MarkedStaysValid(t: Texts, db: Tables, id: string, u: MemoryUpdate, eventType: string, payload: Payload, now: Instant)
    requires RowsValid(t, db) && id in db.items && id != "" && db.items[id].id == id && ValidUpdate(u) && u.metadata.None? && t.Lawful()
    requires eventType != "" && now != 0 && !payload.Text? && !payload.Lifecycle?
    ensures RowsValid(t, Marked(db, id, u, eventType, payload, now))
  {
    LogIsPositive(t, db);
    RowIsAccepted(t, db, id);
    hide RowsValid, ValidUpdate, Patched, Texts.Lawful, ItemRowAccepted;
    PatchedStaysAccepted(t, db.items[id], u);
    RowAndEvent(t, db, Marked(db, id, u, eventType, payload, now), Patched(db.items[id], u),
                Event(db.lastEventId + 1, Some(id), eventType, payload, now));
  }

  /** What a decision writes is valid, and its event is canonical. */
  lemma ChangeIsValid(t: Texts, item: Item, d: Decision, policyId: string, eventId: int, now: Instant)
    requires ItemRowAccepted(t, item) && d.Changes() && (d.Promote? || d.Demote? ==> d.to.Valid()) && now != 0 && eventId > 0
    ensures ValidUpdate(UpdateFor(item, d, now)) && UpdateFor(item, d, now).metadata.None?
    ensures
      var change := ChangeFor(item, d, policyId);
      EventValid(t, Event(eventId, Some(item.id), EventName(change.action), Lifecycle(change), now))
  {
    hide ObjectText;
  }

  lemma MoveStaysValid(t: Texts, db: Tables, item: Item, d: Decision, policyId: string, now: Instant)
    requires RowsValid(t, db) && t.Lawful() && item.id in db.items && db.items[item.id] == item && item.id != ""
    requires now != 0 && (d.Promote? || d.Demote? ==> d.to.Valid())
    ensures RowsValid(t, OneMore(db, item, d, policyId, now))
  {
    if d.Changes() {
      var change := ChangeFor(item, d, policyId);
      var e := Event(db.lastEventId + 1, Some(item.id), EventName(change.action), Lifecycle(change), now);
      assert OneMore(db, item, d, policyId, now) == db.(items := db.items[item.id := Patched(item, UpdateFor(item, d, now))],
                                                        events := db.events + [e], lastEventId := db.lastEventId + 1);
      hide *;
      LogIsPositive(t, db);
      RowIsAccepted(t, db, item.id);
      ChangeIsValid(t, item, d, policyId, db.lastEventId + 1, now);
      PatchedStaysAccepted(t, item, UpdateFor(item, d, now));
      RowAndEvent(t, db, OneMore(db, item, d, policyId, now), Patched(item, UpdateFor(item, d, now)), e);
    }
  }

  lemma TouchedStaysValid(t: Texts, db: Tables, id: string, now: Instant)
    requires RowsValid(t, db) && t.Lawful() && id in db.items && id != "" && now != 0
    ensures RowsValid(t, Touched(db, id, now))
  {
    RowIsAccepted(t, db, id);
    ValidKeywordsOf(t, db);
    var touched := db.items[id].(lastAccessedAt := Some(now), updatedAt := now);
    assert ItemRowAccepted(t, touched);
    TouchedLogsValid(t, db, Touched(db, id, now));
    hide ItemRowAccepted, ValidChunk, ValidKeyword, LogsValid, ValidPolicy, Texts.Lawful, RowsValid;
    ItemsWithOneMore(t, db, id, touched);
    ValidTogether(t, Touched(db, id, now));
  }

  lemma TouchedLogsValid(t: Texts, db: Tables, after: Tables)
    requires RowsValid(t, db) && after.events == db.events && after.lastEventId == db.lastEventId
    requires |after.access| == |db.access| + 1 && after.access[..|db.access|] == db.access && after.lastAccessId == db.lastAccessId + 1
    requires after.access[|db.access|].id == after.lastAccessId && ValidAccess(after.access[|db.access|])
    ensures LogsValid(t, after)
  {
    hide ItemRowAccepted, ValidChunk, ValidKeyword, EventValid, ValidAccess, ValidPolicy;
    forall i | 0 <= i < |after.access|
      ensures after.access[i].id > 0 && ValidAccess(after.access[i])
    {
      assert i < |db.access| ==> after.access[i] == after.access[..|db.access|][i];
    }
  }

  lemma GetStaysValid(t: Texts, db: Tables, id: string, policies: Result<seq<Policy>, Error>, now: Instant)
    requires RowsValid(t, db) && SchemaOk(db) && t.Lawful()
    ensures RowsValid(t, GetOn(db, id, policies, now))
  {
    GetSucceedsExactlyWhen(db, id, policies, now);
    if GetTxOn(db, id, policies, now).Ok? {
      assert db.items[id].id == id;
      hide SchemaOk, GetTxOn, RowsValid, PolicyFor, OneMore, Texts.Lawful;
      TouchedStaysValid(t, db, id, now);
      var touched := Touched(db, id, now);
      var d := GetDecision(db, id, policies.value, now).value;
      GetDecisionIsValid(db, id, policies.value, now);
      MoveStaysValid(t, touched, touched.items[id], d, PolicyFor(db.items[id].(lastAccessedAt := Some(now)), policies.value).id, now);
    } else {
      hide SchemaOk, GetTxOn, RowsValid;
    }
  }

  lemma GetDecisionIsValid(db: Tables, id: string, policies: seq<Policy>, now: Instant)
    requires id in db.items && GetDecision(db, id, policies, now).Ok?
    ensures
      var d := GetDecision(db, id, policies, now).value;
      d.Promote? || d.Demote? ==> d.to.Valid()
  {
    hide PolicyFor;
  }

  lemma {:induction false} RunStaysValid(t: Texts, db: Tables, batch: seq<Item>, policies: seq<Policy>, now: Instant)
    requires RowsValid(t, db) && SchemaOk(db) && Named(db.items) && Snapshot(db, batch) && t.Lawful()
    requires RunOn(db, batch, policies, now).Ok?
    ensures RowsValid(t, RunOn(db, batch, policies, now).value.0)
  {
    if batch != [] {
      var n := |batch| - 1;
      LastRunStep(db, batch, policies, now);
      ShorterSnapshot(db, batch);
      hide *;
      RunStaysValid(t, db, batch[..n], policies, now);
      RunIsPointwise(db, batch[..n], policies, now);
      RunKeepsSchema(db, batch[..n], policies, now);
      var mid := RunOn(db, batch[..n], policies, now).value.0;
      StillStored(db, batch, policies, now, mid);
      OneStepStaysValid(t, mid, batch[n], policies, RunOn(db, batch, policies, now).value.0, now);
    } else {
      hide RowsValid, SchemaOk;
    }
  }

  lemma OneStepStaysValid(t: Texts, mid: Tables, item: Item, policies: seq<Policy>, after: Tables, now: Instant)
    requires RowsValid(t, mid) && SchemaOk(mid) && IsStored(mid, item) && t.Lawful()
    requires CarryOut(mid, item, DecisionFor(mid.access, item, policies, now), PolicyFor(item, policies).id, now) == Ok(after)
    ensures RowsValid(t, after)
  {
    var d := DecisionFor(mid.access, item, policies, now);
    var policyId := PolicyFor(item, policies).id;
    SchemaOfSteps(mid);
    StoredById(mid, item);
    hide *;
    DecisionsNameValidTiers(mid.access, item, policies, now);
    CarryOutSucceeds(mid, item, d, policyId, now);
    CarriedIsOneMore(mid, item, d, policyId, now);
    if d.Changes() {
      MoveStaysValid(t, mid, item, d, policyId, now);
    } else {
      StandingStill(mid, item, d, policyId, now);
    }
  }

  lemma SchemaOfSteps(db: Tables)
    requires SchemaOk(db)
    ensures EventsOk(db.items.Keys, db.events, db.lastEventId) && ItemsOk(db.items)
  {
  }

  lemma StandingStill(db: Tables, item: Item, d: Decision, policyId: string, now: Instant)
    requires !d.Changes()
    ensures OneMore(db, item, d, policyId, now) == db
  {
  }

  // ----- Save -----

  lemma KeywordRowsAreValid(t: Texts, id: string, words: seq<string>, now: Instant)
    requires t.Lawful() && Clean(t, words) && id != "" && now != 0
    ensures forall i :: 0 <= i < |words| ==> ValidKeyword(t, KeywordRows(t, id, words, now)[i])
  {
    forall i | 0 <= i < |words|
      ensures ValidKeyword(t, KeywordRows(t, id, words, now)[i])
    {
      WordIsValid(t, id, words, now, i);
    }
  }

  lemma KeywordsStayValid(t: Texts, before: map<KeywordKey, Keyword>, after: map<KeywordKey, Keyword>, id: string, rows: seq<Keyword>)
    requires forall k :: k in before ==> ValidKeyword(t, before[k])
    requires RowsAre(after, id, rows) && OthersKeepRows(before, after, id)
    requires forall i :: 0 <= i < |rows| ==> ValidKeyword(t, rows[i])
    ensures forall k :: k in after ==> ValidKeyword(t, after[k])
  {
    hide ValidKeyword;
    forall k | k in after
      ensures ValidKeyword(t, after[k])
    {
      if k.memoryId == id {
        assert k == KeywordKey(id, k.index);
      }
    }
  }

  lemma SavedStaysValid(cfg: Config, db: Tables, item: Item, chunkId: string, words: seq<string>, after: Tables)
    requires RowsValid(cfg.texts, db) && Saved(cfg, db, item, chunkId, words, after) && cfg.texts.Lawful() && Clean(cfg.texts, words)
    requires FreshIds(db, item, chunkId) && item.createdAt != 0 && WellFormed(item) && ObjectText(cfg.texts, item.metadata) && '\0' !in item.id
    ensures RowsValid(cfg.texts, after)
  {
    var t := cfg.texts;
    var rows := KeywordRows(t, item.id, words, item.createdAt);
    var e := Event(db.lastEventId + 1, Some(item.id), "created", NoDetail, item.createdAt);
    KeywordRowsAreValid(t, item.id, words, item.createdAt);
    TrimmedNothing(t, item.metadata);
    ValidKeywordsOf(t, db);
    LogIsPositive(t, db);
    RowCount(t, item.id, words, item.createdAt);
    assert ItemRowAccepted(t, StoredItem(item)) && ValidChunk(FirstChunkOf(item, chunkId)) && EventValid(t, e);
    hide RowsValid, Texts.Lawful, Clean, WordsOf, NextRowid, RowsAre, OthersKeepRows, ObjectText, ValidKeyword, KeywordRows, FirstChunkOf,
      ItemRowAccepted, ValidChunk, EventValid, LogsValid, ValidPolicy;
    KeywordsStayValid(t, db.keywords, after.keywords, item.id, rows);
    SavedLogsValid(t, db, after, e);
    ItemsWithOneMore(t, db, item.id, StoredItem(item));
    ValidTogether(t, after);
  }

  lemma ItemsWithOneMore(t: Texts, db: Tables, id: string, item: Item)
    requires RowsValid(t, db) && ItemRowAccepted(t, item) && '\0' !in id
    ensures
      var after := db.items[id := item];
      forall other :: other in after ==> ItemRowAccepted(t, after[other]) && '\0' !in other
    ensures forall p :: p in db.policies ==> ValidPolicy(db.policies[p])
  {
    hide ItemRowAccepted, ValidChunk, ValidKeyword, LogsValid, ValidPolicy;
  }

  lemma SavedLogsValid(t: Texts, db: Tables, after: Tables, e: Event)
    requires RowsValid(t, db) && after.events == db.events + [e] && EventValid(t, e)
    requires after.lastEventId == db.lastEventId + 1 && after.access == db.access && after.lastAccessId == db.lastAccessId
    ensures LogsValid(t, after) && db.lastEventId >= 0
  {
    hide ItemRowAccepted, ValidChunk, ValidKeyword, EventValid, ValidAccess, ValidPolicy;
  }

  lemma RequestedMetadata(cfg: Config, input: SaveInput, itemId: string, now: Instant)
    requires SaveRequest(cfg, input, itemId, now).Ok? && MetadataIsObject(cfg.texts, input.metadata) && cfg.texts.Lawful()
    ensures ObjectText(cfg.texts, SaveRequest(cfg, input, itemId, now).value.0.metadata)
  {
  }

  lemma SaveStaysValid(cfg: Config, db: Tables, input: SaveInput, itemId: string, chunkId: string, env: IndexEnv, now: Instant)
    requires RowsValid(cfg.texts, db) && SchemaOk(db) && cfg.texts.Lawful()
    requires '\0' !in itemId && MetadataIsObject(cfg.texts, input.metadata)
    ensures RowsValid(cfg.texts, SaveOn(cfg, db, input, itemId, chunkId, env, now).0)
  {
    hide RowsValid, SchemaOk, SaveTxOn, SaveRequest, IndexOn, Texts.Lawful, Clean, Document, Saved, ObjectText, WellFormed, FreshIds;
    var request := SaveRequest(cfg, input, itemId, now);
    if request.Ok? {
      var (item, words) := request.value;
      SaveRequestIsClean(cfg, input, itemId, now);
      RequestedMetadata(cfg, input, itemId, now);
      SaveSucceedsExactlyWhen(cfg, db, item, chunkId, words);
      var saved := SaveTxOn(cfg, db, item, chunkId, words);
      if saved.Ok? {
        SavedStaysValid(cfg, db, item, chunkId, words, saved.value);
        IndexStaysValid(cfg, saved.value, item.title, words, chunkId, item.id, env, now);
      }
    }
  }

  lemma IndexStaysValid(cfg: Config, db: Tables, title: string, words: seq<string>, c: string, memoryId: string, env: IndexEnv, now: Instant)
    requires RowsValid(cfg.texts, db)
    ensures RowsValid(cfg.texts, IndexOn(cfg, db, title, words, c, memoryId, env, now).0)
  {
    hide RowsValid, IndexOn, IndexWritten;
    IndexOnWrites(cfg, db, title, words, c, memoryId, env, now);
    ValidityReadsDurableTables(cfg.texts, db, IndexOn(cfg, db, title, words, c, memoryId, env, now).0);
  }

  // ----- Update -----

  lemma UpdatedRowIsAccepted(cfg: Config, db: Tables, input: UpdateInput, chunkId: string, now: Instant)
    requires RowsValid(cfg.texts, db) && cfg.texts.Lawful() && Admissible(cfg, db, input, chunkId, now)
    requires input.metadata.Some? ==> MetadataIsObject(cfg.texts, input.metadata.value)
    ensures UpdateMetadata(input).Ok? && input.id in db.items
    ensures ItemRowAccepted(cfg.texts, UpdatedItem(db.items[input.id], input, now))
    ensures UpdatedItem(db.items[input.id], input, now).id == db.items[input.id].id
  {
    RowIsAccepted(cfg.texts, db, input.id);
    var u := RowUpdate(input, UpdateMetadata(input).value, now);
    hide RowsValid, WordsOf, UpdateWords, Document, ValidUpdate, ChunkIdFree, Patched, ItemRowAccepted;
    PatchedStaysAccepted(cfg.texts, db.items[input.id], u);
  }

  lemma UpdatedKeywordsAreValid(cfg: Config, db: Tables, input: UpdateInput, now: Instant, after: map<KeywordKey, Keyword>, words: seq<string>)
    requires forall k :: k in db.keywords ==> ValidKeyword(cfg.texts, db.keywords[k])
    requires WordsReplaced(cfg, db.keywords, input, now, after, words) && cfg.texts.Lawful() && Clean(cfg.texts, words) && input.id != "" && now != 0
    ensures forall k :: k in after ==> ValidKeyword(cfg.texts, after[k])
  {
    hide ValidKeyword, Texts.Lawful, Clean, WordsOf, KeywordRows, RowsAre, OthersKeepRows;
    if input.keywords.Some? {
      var rows := KeywordRows(cfg.texts, input.id, words, now);
      KeywordRowsAreValid(cfg.texts, input.id, words, now);
      RowCount(cfg.texts, input.id, words, now);
      KeywordsStayValid(cfg.texts, db.keywords, after, input.id, rows);
    }
  }

  lemma RowCount(t: Texts, id: string, words: seq<string>, now: Instant)
    ensures |KeywordRows(t, id, words, now)| == |words|
  {
  }

  lemma ValidKeywordsOf(t: Texts, db: Tables)
    requires RowsValid(t, db)
    ensures forall k :: k in db.keywords ==> ValidKeyword(t, db.keywords[k])
    ensures forall c :: c in db.chunks ==> ValidChunk(db.chunks[c].chunk)
  {
    hide ItemRowAccepted, ValidChunk, ValidKeyword, LogsValid, ValidPolicy;
  }

  lemma ReplacedChunksAreValid(db: Tables, input: UpdateInput, chunkId: string, now: Instant)
    requires forall c :: c in db.chunks ==> ValidChunk(db.chunks[c].chunk)
    requires input.id != "" && chunkId != "" && now != 0 && input.body.Some? && input.body.value != ""
    ensures
      var after := BodyReplaced(db, input.id, Chunk(chunkId, input.id, 0, input.body.value, now)).chunks;
      forall c :: c in after ==> ValidChunk(after[c].chunk)
  {
    BodyReplacedLeaves(db, input.id, Chunk(chunkId, input.id, 0, input.body.value, now));
    hide BodyReplaced;
  }

  /** Rows valid table by table. */
  lemma ValidTogether(t: Texts, db: Tables)
    requires forall id :: id in db.items ==> ItemRowAccepted(t, db.items[id]) && '\0' !in id
    requires forall c :: c in db.chunks ==> ValidChunk(db.chunks[c].chunk)
    requires forall k :: k in db.keywords ==> ValidKeyword(t, db.keywords[k])
    requires LogsValid(t, db) && forall p :: p in db.policies ==> ValidPolicy(db.policies[p])
    ensures RowsValid(t, db)
  {
    hide ItemRowAccepted, ValidChunk, ValidKeyword, LogsValid, ValidPolicy;
  }

  lemma RewrittenStaysValid(cfg: Config, db: Tables, input: UpdateInput, chunkId: string, now: Instant, u: Updated)
    requires RowsValid(cfg.texts, db) && cfg.texts.Lawful() && Clean(cfg.texts, u.words) && now != 0
    requires Admissible(cfg, db, input, chunkId, now) && Rewritten(cfg, db, input, chunkId, now, u)
    requires input.metadata.Some? ==> MetadataIsObject(cfg.texts, input.metadata.value)
    ensures RowsValid(cfg.texts, u.db)
  {
    var item := UpdatedItem(db.items[input.id], input, now);
    UpdatedRowIsAccepted(cfg, db, input, chunkId, now);
    ValidKeywordsOf(cfg.texts, db);
    RewrittenTables(cfg, db, input, chunkId, now, u);
    UpdatedKeywordsAreValid(cfg, db, input, now, u.db.keywords, u.words);
    RowIsAccepted(cfg.texts, db, input.id);
    ItemsWithOneMore(cfg.texts, db, input.id, item);
    if input.body.Some? {
      ReplacedChunksAreValid(db, input, chunkId, now);
    }
    hide *;
    LoggedUpdateIsValid(cfg.texts, db, u.db, input.id, now);
    ValidTogether(cfg.texts, u.db);
  }

  lemma LoggedUpdateIsValid(t: Texts, db: Tables, after: Tables, id: string, now: Instant)
    requires RowsValid(t, db) && id != "" && now != 0
    requires after.events == db.events + [Event(db.lastEventId + 1, Some(id), "updated", NoDetail, now)]
    requires after.lastEventId == db.lastEventId + 1 && after.access == db.access && after.lastAccessId == db.lastAccessId
    ensures LogsValid(t, after)
  {
    LogIsPositive(t, db);
    hide RowsValid, LogsValid;
    SavedLogsValid(t, db, after, Event(db.lastEventId + 1, Some(id), "updated", NoDetail, now));
  }

  lemma RewrittenTables(cfg: Config, db: Tables, input: UpdateInput, chunkId: string, now: Instant, u: Updated)
    requires Admissible(cfg, db, input, chunkId, now) && Rewritten(cfg, db, input, chunkId, now, u)
    ensures input.id != "" && input.id in db.items && UpdateMetadata(input).Ok?
    ensures input.body.Some? ==> input.body.value != "" && chunkId != ""
    ensures u.db.items == db.items[input.id := UpdatedItem(db.items[input.id], input, now)]
    ensures u.db.chunks == if input.body.Some? then BodyReplaced(db, input.id, Chunk(chunkId, input.id, 0, input.body.value, now)).chunks else db.chunks
    ensures WordsReplaced(cfg, db.keywords, input, now, u.db.keywords, u.words) && u.db.policies == db.policies
    ensures u.db.events == db.events + [Event(db.lastEventId + 1, Some(input.id), "updated", NoDetail, now)]
    ensures u.db.lastEventId == db.lastEventId + 1 && u.db.access == db.access && u.db.lastAccessId == db.lastAccessId
  {
    BodyTouchesTextOnly(db, input.id, Chunk(chunkId, input.id, 0, Or(input.body, ""), now));
    hide WordsOf, WordsReplaced, BodyReplaced, UpdateWords, Document, UpdatedItem, UpdateMetadata;
  }

  lemma UpdateStaysValid(cfg: Config, db: Tables, input: UpdateInput, chunkId: string, env: IndexEnv, now: Instant)
    requires RowsValid(cfg.texts, db) && Sound(cfg, db) && cfg.texts.Lawful() && ChunksOk(db.items.Keys, db.chunks)
    requires input.metadata.Some? ==> MetadataIsObject(cfg.texts, input.metadata.value)
    ensures RowsValid(cfg.texts, UpdateOn(cfg, db, input, chunkId, env, now).0)
  {
    if UpdateTxOn(cfg, db, input, chunkId, now).Ok? {
      hide *;
      UpdateUnfolds(cfg, db, input, chunkId, env, now);
      var u := UpdateTxOn(cfg, db, input, chunkId, now).value;
      var c := FinalChunk(db, input, chunkId).value;
      AdmissibleHasClock(cfg, db, input, chunkId, now);
      CleanWordsOf(cfg, db, input.id);
      UpdateWordsAreClean(cfg, db, input, u.words);
      RewrittenStaysValid(cfg, db, input, chunkId, now, u);
      IndexStaysValid(cfg, u.db, Title(u.db, input.id), WordsOf(u.db.keywords, input.id), c, input.id, env, now);
    } else {
      hide UpdateTxOn, Sound, RowsValid;
    }
  }

  lemma CleanWordsOf(cfg: Config, db: Tables, id: string)
    requires Sound(cfg, db) && id in db.items
    ensures Clean(cfg.texts, WordsOf(db.keywords, id))
  {
    hide SchemaOk, ChunksExact, EntriesBelong, VecExact, CurrentDocument, WordsOf, Clean;
  }

  // ----- Every history -----

  lemma PolicyStaysValid(t: Texts, db: Tables, row: PolicyRow)
    requires RowsValid(t, db)
    ensures RowsValid(t, OrElse(CreatePolicyOn(db, row), db))
  {
    hide ItemRowAccepted, ValidChunk, ValidKeyword, EventValid, ValidAccess;
  }

  lemma BackfillStaysValid(cfg: Config, db: Tables, force: bool, limit: nat, envs: string -> IndexEnv, clock: nat -> Instant)
    requires RowsValid(cfg.texts, db) && Sound(cfg, db) && cfg.texts.Lawful() && ChunksOk(db.items.Keys, db.chunks)
    ensures RowsValid(cfg.texts, BackfillOn(cfg, db, Candidates(db, force, limit), envs, clock).0)
  {
    hide RowsValid, Sound, Texts.Lawful, BackfillOn, Candidates, ChunksOk;
    CandidatesAreChunks(db, force, limit);
    BackfillKeepsIndexes(cfg, db, Candidates(db, force, limit), envs, clock);
    ValidityReadsDurableTables(cfg.texts, db, BackfillOn(cfg, db, Candidates(db, force, limit), envs, clock).0);
  }

  lemma LifecycleStaysValid(cfg: Config, db: Tables, limit: nat, batch: seq<Item>, now: Instant)
    requires RowsValid(cfg.texts, db) && SchemaOk(db) && Named(db.items) && PoliciesOk(db.policies) && IsBatch(db, limit, batch)
    requires cfg.texts.Lawful()
    ensures RowsValid(cfg.texts, OrElse(LifecycleOn(cfg, db, batch, now), db))
  {
    hide SchemaOk, RunOn, LoadPolicies, PolicyRows, RowsValid, Texts.Lawful;
    if LifecycleOn(cfg, db, batch, now).Ok? {
      RunStaysValid(cfg.texts, db, batch, StoredPolicies(cfg, db).value, now);
    }
  }

  lemma StepStaysValid(cfg: Config, db: Tables, op: Op)
    requires Sound(cfg, db) && RowsValid(cfg.texts, db) && cfg.texts.Lawful() && Possible(db, op) && WellMade(cfg.texts, op)
    ensures ChunksOk(db.items.Keys, db.chunks) && PoliciesOk(db.policies) && RowsValid(cfg.texts, Apply(cfg, db, op))
  {
    SoundHasSchema(cfg, db);
    hide Sound, RowsValid, SchemaOk, Apply, Possible, WellMade, Texts.Lawful, PoliciesOk, ChunksOk, Named;
    if op.SaveOp? || op.UpdateOp? {
      WriteStaysValid(cfg, db, op);
    } else if op.BackfillOp? || op.LifecycleOp? {
      BatchStaysValid(cfg, db, op);
    } else {
      ShortStepStaysValid(cfg, db, op);
    }
  }

  lemma WriteStaysValid(cfg: Config, db: Tables, op: Op)
    requires Sound(cfg, db) && RowsValid(cfg.texts, db) && SchemaOk(db) && cfg.texts.Lawful() && WellMade(cfg.texts, op)
    requires ChunksOk(db.items.Keys, db.chunks) && PoliciesOk(db.policies) && (op.SaveOp? || op.UpdateOp?)
    ensures RowsValid(cfg.texts, Apply(cfg, db, op))
  {
    hide Sound, RowsValid, SchemaOk, SaveOn, UpdateOn, Texts.Lawful, PoliciesOk, ChunksOk;
    match op
    case SaveOp(input, itemId, chunkId, env, now) => SaveStaysValid(cfg, db, input, itemId, chunkId, env, now);
    case UpdateOp(input, chunkId, env, now) => UpdateStaysValid(cfg, db, input, chunkId, env, now);
  }

  lemma BatchStaysValid(cfg: Config, db: Tables, op: Op)
    requires Sound(cfg, db) && RowsValid(cfg.texts, db) && SchemaOk(db) && Named(db.items) && cfg.texts.Lawful() && Possible(db, op)
    requires ChunksOk(db.items.Keys, db.chunks) && PoliciesOk(db.policies) && (op.BackfillOp? || op.LifecycleOp?)
    ensures RowsValid(cfg.texts, Apply(cfg, db, op))
  {
    hide Sound, RowsValid, SchemaOk, BackfillOn, LifecycleOn, Texts.Lawful, Candidates, PoliciesOk, ChunksOk, IsBatch, Named;
    match op
    case BackfillOp(limit, force, envs, clock) => BackfillStaysValid(cfg, db, force, NormalizeBackfillLimit(limit), envs, clock);
    case LifecycleOp(limit, batch, cancelled, now) => LifecycleStaysValid(cfg, db, NormalizeLifecycleLimit(limit), batch, now);
  }

  lemma ShortStepStaysValid(cfg: Config, db: Tables, op: Op)
    requires RowsValid(cfg.texts, db) && SchemaOk(db) && cfg.texts.Lawful()
    requires ChunksOk(db.items.Keys, db.chunks) && PoliciesOk(db.policies) && (op.GetOp? || op.PinOp? || op.DeleteOp? || op.PolicyOp?)
    ensures RowsValid(cfg.texts, Apply(cfg, db, op))
  {
    hide RowsValid, SchemaOk, GetOn, MarkOn, CreatePolicyOn, Texts.Lawful, PoliciesOk, ChunksOk, StoredPolicies;
    match op
    case GetOp(id, now) => GetStaysValid(cfg.texts, db, id, StoredPolicies(cfg, db), now);
    case PinOp(id, pinned, now) => MarkStaysValid(cfg.texts, db, id, Pinning(pinned, now), "pinned", PinnedTo(pinned), now);
    case DeleteOp(id, confirm, now) => MarkStaysValid(cfg.texts, db, id, Deletion(now), "deleted", SoftDelete, now);
    case PolicyOp(row) => PolicyStaysValid(cfg.texts, db, row);
  }

  lemma {:induction false} EveryHistoryIsExportable(cfg: Config, ops: seq<Op>, states: seq<Tables>)
    requires IsHistory(cfg, ops, states) && cfg.texts.Lawful()
    requires Sound(cfg, states[0]) && RowsValid(cfg.texts, states[0])
    requires forall k :: 0 <= k < |ops| ==> WellMade(cfg.texts, ops[k])
    ensures forall k :: 0 <= k < |states| ==> RowsValid(cfg.texts, states[k])
  {
    hide Sound, IndexSound, Apply, Texts.Lawful, RowsValid, WellMade, SchemaOk;
    if ops != [] {
      var n := |ops| - 1;
      HistoryPrefix(cfg, ops, states);
      IndexesAgreeOverEveryHistory(cfg, ops, states);
      assert Sound(cfg, states[n]);
      hide IsHistory;
      assert forall k :: 0 <= k < n ==> ops[..n][k] == ops[k];
      EveryHistoryIsExportable(cfg, ops[..n], states[..n + 1]);
      assert forall k :: 0 <= k <= n ==> states[..n + 1][k] == states[k];
      assert RowsValid(cfg.texts, states[n]);
      SoundHasSchema(cfg, states[n]);
      StepStaysValid(cfg, states[n], ops[n]);
    }
  }

  lemma SoundStatesHaveSchema(cfg: Config, states: seq<Tables>)
    requires forall k :: 0 <= k < |states| ==> Sound(cfg, states[k])
    ensures forall k :: 0 <= k < |states| ==> SchemaOk(states[k])
  {
    forall k | 0 <= k < |states|
      ensures SchemaOk(states[k])
    {
      assert Sound(cfg, states[k]);
    }
  }

  lemma EmptyIsValid(t: Texts)
    ensures RowsValid(t, EMPTY)
  {
  }

  /** What the service ever stores can be moved: after any history from an empty store, the export
      parses and, if the policies' JSON texts are objects, is accepted by an empty store, and the
      imported store exports to the same lines. */
  lemma EveryHistoryCanBeMoved(cfg: Config, env: Env, ops: seq<Op>, states: seq<Tables>, pamieVersion: string, now: Instant, ends: seq<string>)
    requires IsHistory(cfg, ops, states) && states[0] == EMPTY && env.texts == cfg.texts && cfg.texts.Lawful() && env.codec.Faithful(env.texts)
    requires forall k :: 0 <= k < |ops| ==> WellMade(cfg.texts, ops[k])
    requires now != 0 && Terminated(ends)
    ensures SchemaOk(states[|ops|])
    ensures |ends| == |FileLines(env.codec, ExportOf(states[|ops|]), Heading(env, pamieVersion, now))| ==>
              var db := states[|ops|];
              var data := ExportOf(db);
              var m := ManifestFor(env.codec, data, Heading(env, pamieVersion, now));
              && ParseOn(env.codec, Join(FileLines(env.codec, data, Heading(env, pamieVersion, now)), ends)) == Ok((m, data))
              && ManifestAccepted(env, m, CountsOf(data)) && NoConflicts(EMPTY, data)
              && (RowsAccepted(env.texts, data) <==> PoliciesAreObjects(env.texts, db.policies))
              && forall after :: Imported(EMPTY, data, after) ==>
                   && SchemaOk(after) && ExportOf(after) == data
                   && Encoded(env.codec, EntriesOf(ExportOf(after))) == Encoded(env.codec, EntriesOf(data))
  {
    hide *;
    EmptyIsSound(cfg);
    EmptyIsValid(cfg.texts);
    StatesOf(cfg, ops, states);
    IndexesAgreeOverEveryHistory(cfg, ops, states);
    SoundStatesHaveSchema(cfg, states);
    EveryHistoryIsExportable(cfg, ops, states);
    if |ends| == |FileLines(env.codec, ExportOf(states[|ops|]), Heading(env, pamieVersion, now))| {
      ExportRestores(env, states[|ops|], pamieVersion, now, ends);
    }
  }

  lemma StatesOf(cfg: Config, ops: seq<Op>, states: seq<Tables>)
    requires IsHistory(cfg, ops, states)
    ensures |states| == |ops| + 1
  {
  }
}
