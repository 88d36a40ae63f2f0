/** What Get, Pin, Delete and lifecycle runs write: rows of items and logs, never text or index. */
module ServiceLaws {
  import opened Prelude
  import opened Schema
  import opened Keywords
  import opened Ordering
  import opened Repository
  import opened Lifecycle
  import opened LifecycleLaws
  import opened Service
  import opened Words
  import opened Writes
  import opened Index
  import opened IndexUpdate

  // ----- Pin and Delete -----

  function Marked(db: Tables, id: string, u: MemoryUpdate, eventType: string, payload: Payload, now: Instant): Tables
    requires id in db.items
  {
    db.(items := db.items[id := Patched(db.items[id], u)],
        events := db.events + [Event(db.lastEventId + 1, Some(id), eventType, payload, now)],
        lastEventId := db.lastEventId + 1)
  }

  predicate Live(db: Tables, id: string) { id != "" && id in db.items && db.items[id].deletedAt.None? }

  lemma MarkSucceedsExactlyWhen(db: Tables, id: string, u: MemoryUpdate, eventType: string, payload: Payload, now: Instant)
    requires SchemaOk(db) && eventType != "" && u.updatedAt == now
    ensures MarkOn(db, id, u, eventType, payload, now).Ok? <==> Live(db, id) && ValidUpdate(u)
    ensures MarkOn(db, id, u, eventType, payload, now).Ok? ==>
              MarkOn(db, id, u, eventType, payload, now).value == Marked(db, id, u, eventType, payload, now)
              && SchemaOk(Marked(db, id, u, eventType, payload, now))
  {
    hide SchemaOk, UpdateItemOn, RecordEventOn, Patched;
    if Live(db, id) {
      ItemRewritten(db, id, u);
      if ValidUpdate(u) {
        EventRecorded(UpdateItemOn(db, id, u).value, id, eventType, payload, now);
      }
    }
  }

  function Deletion(now: Instant): MemoryUpdate { NoUpdate(now).(deletedAt := Some(now)) }

  function Pinning(pinned: bool, now: Instant): MemoryUpdate { NoUpdate(now).(pinned := Some(pinned)) }

  /** Deleting succeeds exactly for a live memory. It sets the deletion time and the update time,
      records one event, and that is all; a second delete finds nothing. */
  lemma DeleteSucceedsExactlyWhen(db: Tables, id: string, now: Instant)
    requires SchemaOk(db)
    ensures DeleteTxOn(db, id, now).Ok? <==> Live(db, id) && now != 0
    ensures DeleteTxOn(db, id, now).Ok? ==>
              var after := DeleteTxOn(db, id, now).value;
              && after == Marked(db, id, Deletion(now), "deleted", SoftDelete, now) && SchemaOk(after)
              && after.items[id] == db.items[id].(deletedAt := Some(now), updatedAt := now)
              && DeleteTxOn(after, id, now) == Err(NotFound)
  {
    MarkSucceedsExactlyWhen(db, id, Deletion(now), "deleted", SoftDelete, now);
  }

  /** Pinning succeeds exactly for a live memory; it sets the pin as asked and the update time, and
      records one event. Setting the pin back restores everything but the update time. */
  lemma PinSucceedsExactlyWhen(db: Tables, id: string, pinned: bool, now: Instant)
    requires SchemaOk(db)
    ensures PinTxOn(db, id, pinned, now).Ok? <==> Live(db, id) && now != 0
    ensures PinTxOn(db, id, pinned, now).Ok? ==>
              var after := PinTxOn(db, id, pinned, now).value;
              && after == Marked(db, id, Pinning(pinned, now), "pinned", PinnedTo(pinned), now) && SchemaOk(after)
              && after.items == db.items[id := db.items[id].(pinned := pinned, updatedAt := now)]
              && PinTxOn(after, id, db.items[id].pinned, now).Ok?
              && PinTxOn(after, id, db.items[id].pinned, now).value.items[id] == db.items[id].(updatedAt := now)
  {
    MarkSucceedsExactlyWhen(db, id, Pinning(pinned, now), "pinned", PinnedTo(pinned), now);
    if PinTxOn(db, id, pinned, now).Ok? {
      var after := PinTxOn(db, id, pinned, now).value;
      MarkSucceedsExactlyWhen(after, id, Pinning(db.items[id].pinned, now), "pinned", PinnedTo(db.items[id].pinned), now);
      hide SchemaOk, MarkOn;
    }
  }

  // ----- Get -----

  function Touched(db: Tables, id: string, now: Instant): Tables
    requires id in db.items
  {
    db.(items := db.items[id := db.items[id].(lastAccessedAt := Some(now), updatedAt := now)],
        access := db.access + [Access(db.lastAccessId + 1, id, "get", None, now)],
        lastAccessId := db.lastAccessId + 1)
  }

  lemma TouchSucceedsExactlyWhen(db: Tables, id: string, now: Instant)
    requires SchemaOk(db) && id != "" && id in db.items
    ensures TouchOn(db, id, now).Ok? <==> now != 0
    ensures TouchOn(db, id, now).Ok? ==> TouchOn(db, id, now).value == Touched(db, id, now) && SchemaOk(Touched(db, id, now))
  {
    ItemRewritten(db, id, NoUpdate(now).(lastAccessedAt := Some(now)));
    var a := Access(db.lastAccessId + 1, id, "get", None, now);
    assert AccessOk(db.items.Keys, db.access, db.lastAccessId);
    hide SchemaOk, UpdateItemOn;
    if now != 0 {
      var touched := UpdateItemOn(db, id, NoUpdate(now).(lastAccessedAt := Some(now))).value;
      assert AccessOk(touched.items.Keys, touched.access, touched.lastAccessId);
      InsertAccessKeepsSchema(touched, a);
    }
  }

  /** What reading a memory decides: promote it or not. */
  function GetDecision(db: Tables, id: string, policies: seq<Policy>, now: Instant): Result<Decision, Error>
    requires id in db.items
  {
    var item := db.items[id].(lastAccessedAt := Some(now));
    var promotion :- PromotionFor(Touched(db, id, now).access, item, PolicyFor(item, policies).rules, now);
    Ok(if promotion.Some? then Promote(promotion.value) else Keep)
  }

  ghost function AfterGet(db: Tables, id: string, policies: seq<Policy>, now: Instant): Tables
    requires id in db.items && GetDecision(db, id, policies, now).Ok?
  {
    var touched := Touched(db, id, now);
    OneMore(touched, touched.items[id], GetDecision(db, id, policies, now).value,
            PolicyFor(db.items[id].(lastAccessedAt := Some(now)), policies).id, now)
  }

  lemma OnlyIdAndTierCount(db: Tables, a: Item, b: Item, to: Tier, policyId: string, now: Instant)
    requires a.id == b.id && a.tier == b.tier
    ensures CarryOut(db, a, Promote(to), policyId, now) == CarryOut(db, b, Promote(to), policyId, now)
  {
  }

  lemma PromotionTargetsAreValid(access: seq<Access>, item: Item, r: Rules, now: Instant)
    requires PromotionFor(access, item, r, now).Ok? && PromotionFor(access, item, r, now).value.Some?
    ensures PromotionFor(access, item, r, now).value.value.Valid()
  {
  }

  lemma PromotionCarriedOut(touched: Tables, item: Item, to: Tier, policyId: string, now: Instant)
    requires SchemaOk(touched) && item.id != "" && item.id in touched.items && to.Valid() && now != 0
    requires touched.items[item.id].id == item.id && touched.items[item.id].tier == item.tier
    ensures CarryOut(touched, item, Promote(to), policyId, now)
            == Ok(OneMore(touched, touched.items[item.id], Promote(to), policyId, now))
    ensures SchemaOk(OneMore(touched, touched.items[item.id], Promote(to), policyId, now))
  {
    var stored := touched.items[item.id];
    OnlyIdAndTierCount(touched, item, stored, to, policyId, now);
    CarryOutSucceeds(touched, stored, Promote(to), policyId, now);
    CarryOutEffect(touched, stored, Promote(to), policyId, now);
    CarryOutKeepsSchema(touched, stored, Promote(to), policyId, now);
    hide SchemaOk, CarryOut;
  }

  /** Reading succeeds exactly for a live memory whose policies load and whose promotion window
      does not start at the zero time; it touches the memory and promotes it by at most one tier. */
  lemma GetSucceedsExactlyWhen(db: Tables, id: string, policies: Result<seq<Policy>, Error>, now: Instant)
    requires SchemaOk(db)
    ensures GetTxOn(db, id, policies, now).Ok?
            <==> Live(db, id) && now != 0 && policies.Ok? && GetDecision(db, id, policies.value, now).Ok?
    ensures GetTxOn(db, id, policies, now).Ok? ==>
              GetTxOn(db, id, policies, now).value.0 == AfterGet(db, id, policies.value, now)
              && SchemaOk(AfterGet(db, id, policies.value, now))
    ensures GetTxOn(db, id, policies, now).Ok? ==>
              var promoted := GetDecision(db, id, policies.value, now).value.Promote?;
              id in AfterGet(db, id, policies.value, now).items
              && GetTxOn(db, id, policies, now).value.1
                 == (if promoted then AfterGet(db, id, policies.value, now).items[id] else db.items[id]).(lastAccessedAt := Some(now))
  {
    hide SchemaOk, TouchOn, CarryOut, PolicyFor, PromotionFor, OneMore;
    if Live(db, id) {
      TouchSucceedsExactlyWhen(db, id, now);
      if now != 0 && policies.Ok? {
        PromotionOnGet(db, id, policies.value, now);
      }
    }
  }

  lemma PromotionOnGet(db: Tables, id: string, policies: seq<Policy>, now: Instant)
    requires SchemaOk(db) && Live(db, id) && now != 0
    ensures
      var item := db.items[id].(lastAccessedAt := Some(now));
      var policy := PolicyFor(item, policies);
      var touched := Touched(db, id, now);
      var promotion := PromotionFor(touched.access, item, policy.rules, now);
      && SchemaOk(touched)
      && (promotion.Ok? ==>
            && SchemaOk(AfterGet(db, id, policies, now)) && id in AfterGet(db, id, policies, now).items
            && (if promotion.value.Some? then
                  CarryOut(touched, item, Promote(promotion.value.value), policy.id, now) == Ok(AfterGet(db, id, policies, now))
                else touched == AfterGet(db, id, policies, now)))
  {
    TouchSucceedsExactlyWhen(db, id, now);
    var item := db.items[id].(lastAccessedAt := Some(now));
    var touched := Touched(db, id, now);
    assert db.items[id].id == id;
    hide SchemaOk, TouchOn, PolicyFor, CarryOut;
    var promotion := PromotionFor(touched.access, item, PolicyFor(item, policies).rules, now);
    if promotion.Ok? && promotion.value.Some? {
      PromotionTargetsAreValid(touched.access, item, PolicyFor(item, policies).rules, now);
      hide PromotionFor;
      PromotionCarriedOut(touched, item, promotion.value.value, PolicyFor(item, policies).id, now);
    }
  }

  // ----- Nothing of this is text -----

  /** Items keep their ids, titles and bodies, and no index or keyword row moves. */
  ghost predicate TextsUntouched(before: Tables, after: Tables) {
    && after == before.(items := after.items, events := after.events, lastEventId := after.lastEventId,
                        access := after.access, lastAccessId := after.lastAccessId)
    && after.items.Keys == before.items.Keys
    && forall id :: id in before.items ==>
         after.items[id].title == before.items[id].title && after.items[id].body == before.items[id].body
  }

  lemma UntouchedTextsKeepIndexes(cfg: Config, before: Tables, after: Tables)
    requires Sound(cfg, before) && SchemaOk(after) && TextsUntouched(before, after)
    ensures Sound(cfg, after)
    ensures IndexSound(cfg, before) <==> IndexSound(cfg, after)
  {
    hide SchemaOk, WordsOf, Document, Clean, VecExact, EntriesBelong;
    forall id
      ensures CurrentDocument(cfg, after, id) == CurrentDocument(cfg, before, id)
    {
    }
    assert ChunksExact(after.items, after.chunks);
    SameDocumentsSameAgreement(cfg, before, after);
  }

  lemma SameDocumentsSameAgreement(cfg: Config, before: Tables, after: Tables)
    requires after.statuses == before.statuses && after.embeddings == before.embeddings
    requires forall id :: CurrentDocument(cfg, after, id) == CurrentDocument(cfg, before, id)
    ensures IndexSound(cfg, before) <==> IndexSound(cfg, after)
  {
    hide CurrentDocument;
    forall c
      ensures StatusAgrees(cfg, before, c) <==> StatusAgrees(cfg, after, c)
    {
    }
  }

  lemma GetLeavesTextsUntouched(db: Tables, id: string, policies: seq<Policy>, now: Instant)
    requires id in db.items && GetDecision(db, id, policies, now).Ok? && db.items[id].id == id
    ensures TextsUntouched(db, AfterGet(db, id, policies, now))
  {
    hide PolicyFor, GetDecision, OneMore;
    var touched := Touched(db, id, now);
    var item := db.items[id].(lastAccessedAt := Some(now));
    OneMoreLeavesTextsUntouched(touched, touched.items[id], GetDecision(db, id, policies, now).value, PolicyFor(item, policies).id, now);
  }

  lemma OneMoreLeavesTextsUntouched(mid: Tables, item: Item, d: Decision, policyId: string, now: Instant)
    requires item.id in mid.items && mid.items[item.id] == item
    ensures TextsUntouched(mid, OneMore(mid, item, d, policyId, now))
  {
    PatchKeepsIdentity(item, d, now);
    hide After, ChangeFor;
  }

  lemma MarkLeavesTextsUntouched(db: Tables, id: string, u: MemoryUpdate, eventType: string, payload: Payload, now: Instant)
    requires id in db.items && u.title.None? && u.body.None?
    ensures TextsUntouched(db, Marked(db, id, u, eventType, payload, now))
  {
  }

  lemma RunLeavesTextsUntouched(db: Tables, batch: seq<Item>, policies: seq<Policy>, now: Instant)
    requires SchemaOk(db) && Named(db.items) && Snapshot(db, batch) && RunOn(db, batch, policies, now).Ok?
    ensures TextsUntouched(db, RunOn(db, batch, policies, now).value.0)
    ensures SchemaOk(RunOn(db, batch, policies, now).value.0)
  {
    RunIsPointwise(db, batch, policies, now);
    RunKeepsSchema(db, batch, policies, now);
    var after := RunOn(db, batch, policies, now).value.0;
    hide RunOn, EventsFor, SchemaOk, Decide;
    forall id | id in db.items
      ensures after.items[id].title == db.items[id].title && after.items[id].body == db.items[id].body
    {
      if i :| 0 <= i < |batch| && batch[i].id == id {
        assert IsLive(db, batch[i]);
        PatchKeepsIdentity(batch[i], DecisionFor(db.access, batch[i], policies, now), now);
      }
    }
  }

  // ----- What is saved can be read -----

  lemma OnlyChunkListed(chunks: map<string, ChunkRow>, memoryId: string, c: string)
    requires (forall d :: d in chunks ==> chunks[d].chunk.id == d) && c in chunks && chunks[c].chunk.memoryId == memoryId
    requires forall d :: d in chunks && chunks[d].chunk.memoryId == memoryId ==> d == c
    ensures ChunkList(chunks, memoryId) == [chunks[c].chunk]
  {
    SlotsOrderChunks(chunks, memoryId);
    var only := [chunks[c].chunk];
    assert chunks[c].chunk in ChunkSet(chunks, memoryId);
    hide BySlot;
    assert IsListing(BySlot, ChunkSet(chunks, memoryId), only);
    ListingIsUnique(BySlot, ChunkSet(chunks, memoryId), only, ChunkList(chunks, memoryId));
  }

  lemma SavedChunkIsListed(cfg: Config, db: Tables, item: Item, chunkId: string, words: seq<string>, after: Tables)
    requires SchemaOk(db) && SchemaOk(after) && Saved(cfg, db, item, chunkId, words, after) && FreshIds(db, item, chunkId)
    ensures ChunksOk(after.items.Keys, after.chunks) && ChunkList(after.chunks, item.id) == [FirstChunkOf(item, chunkId)]
  {
    SchemaHasChunks(db);
    SchemaHasChunks(after);
    hide SchemaOk, WordsOf, RowsAre, OthersKeepRows, NextRowid;
    OnlyChunkListed(after.chunks, item.id, chunkId);
  }

  /** What a reader sees of an item, whatever its tier and times. */
  predicate SameContent(a: Item, b: Item) {
    && a.id == b.id && a.title == b.title && a.body == b.body && a.source == b.source && a.metadata == b.metadata
    && a.importance == b.importance && a.pinned == b.pinned && a.createdAt == b.createdAt
  }

  lemma TouchKeepsContent(db: Tables, id: string, now: Instant)
    requires TouchOn(db, id, now).Ok?
    ensures id in db.items && id in TouchOn(db, id, now).value.items
    ensures SameContent(TouchOn(db, id, now).value.items[id], db.items[id])
    ensures TouchOn(db, id, now).value.items[id].tier == db.items[id].tier
  {
  }

  lemma PromotionKeepsContent(touched: Tables, item: Item, to: Tier, policyId: string, now: Instant)
    requires CarryOut(touched, item, Promote(to), policyId, now).Ok?
    ensures item.id in touched.items && item.id in CarryOut(touched, item, Promote(to), policyId, now).value.items
    ensures SameContent(CarryOut(touched, item, Promote(to), policyId, now).value.items[item.id], touched.items[item.id])
    ensures CarryOut(touched, item, Promote(to), policyId, now).value.items[item.id].tier == to
  {
  }

  lemma PromotionGoesOneUp(access: seq<Access>, item: Item, r: Rules, now: Instant)
    requires PromotionFor(access, item, r, now).Ok? && PromotionFor(access, item, r, now).value.Some?
    ensures Rank(PromotionFor(access, item, r, now).value.value) == Rank(item.tier) + 1
  {
  }

  lemma GetReturnsTheItem(db: Tables, id: string, policies: Result<seq<Policy>, Error>, now: Instant)
    requires GetTxOn(db, id, policies, now).Ok? && id in db.items && db.items[id].id == id
    ensures SameContent(GetTxOn(db, id, policies, now).value.1, db.items[id])
    ensures GetTxOn(db, id, policies, now).value.1.lastAccessedAt == Some(now)
    ensures
      var tier := GetTxOn(db, id, policies, now).value.1.tier;
      tier == db.items[id].tier || Rank(tier) == Rank(db.items[id].tier) + 1
  {
    TouchKeepsContent(db, id, now);

    var item := db.items[id].(lastAccessedAt := Some(now));
    var touched := TouchOn(db, id, now).value;
    var policy := PolicyFor(item, policies.value);
    var promotion := PromotionFor(touched.access, item, policy.rules, now).value;
    if promotion.Some? {
      PromotionKeepsContent(touched, item, promotion.value, policy.id, now);
      PromotionGoesOneUp(touched.access, item, policy.rules, now);
    }
    hide PolicyFor, PromotionFor, TouchOn, CarryOut, Rank;
  }

  /** A memory that was saved reads back with the title, body, source, metadata, importance and pin
      it was saved with, in the tier asked for or, if reading promotes it, the one above, one chunk holding the body, and the normalized keywords in order. */
  lemma GetReadsBackWhatWasSaved(cfg: Config, db: Tables, input: SaveInput, itemId: string, chunkId: string, env: IndexEnv,
                                 savedAt: Instant, policies: Result<seq<Policy>, Error>, now: Instant)
    requires Sound(cfg, db) && cfg.texts.Lawful()
    requires SaveOn(cfg, db, input, itemId, chunkId, env, savedAt).1.Ok?
    requires GetTxOn(SaveOn(cfg, db, input, itemId, chunkId, env, savedAt).0, itemId, policies, now).Ok?
    ensures
      var after := SaveOn(cfg, db, input, itemId, chunkId, env, savedAt).0;
      var got := GetTxOn(after, itemId, policies, now).value.1;
      && got.title == input.title && got.body == input.body && got.source == input.source
      && Ok(got.metadata) == StoredMetadata(input.metadata)
      && got.importance == input.importance && got.pinned == input.pinned && got.createdAt == savedAt
      && itemId in after.items && after.items[itemId].tier == (if input.tier.Some? then input.tier.value else Working)
      && (got.tier == after.items[itemId].tier || Rank(got.tier) == Rank(after.items[itemId].tier) + 1)
      && ChunksOk(after.items.Keys, after.chunks)
      && ChunkList(after.chunks, itemId) == [Chunk(chunkId, itemId, 0, input.body, savedAt)]
      && Ok(WordsOf(after.keywords, itemId)) == NormalizeKeywords(cfg.texts, input.keywords)
  {
    var (item, words) := SaveRequest(cfg, input, itemId, savedAt).value;
    SaveRequestIsClean(cfg, input, itemId, savedAt);
    SavedRequest(cfg, input, itemId, savedAt);
    SoundHasSchema(cfg, db);
    SaveSucceedsExactlyWhen(cfg, db, item, chunkId, words);
    var saved := SaveTxOn(cfg, db, item, chunkId, words).value;
    SavedChunkIsListed(cfg, db, item, chunkId, words, saved);
    IndexOnWrites(cfg, saved, item.title, words, chunkId, itemId, env, savedAt);
    var after := SaveOn(cfg, db, input, itemId, chunkId, env, savedAt).0;
    assert after == IndexOn(cfg, saved, item.title, words, chunkId, itemId, env, savedAt).0;
    hide GetTxOn, IndexOn, SaveTxOn, SaveRequest, Sound, SchemaOk, ChunksOk, WordsOf, RowsAre, OthersKeepRows, NextRowid, ChunkList,
      Texts.Lawful, Clean, Document, IndexWritten, NormalizeKeywords;
    assert StoredItem(item).id == itemId && after.items[itemId] == StoredItem(item);
    GetReturnsTheItem(after, itemId, policies, now);
  }

  function StoredMetadata(m: Metadata): Result<string, Error> {
    var json :- MarshalMetadata(m);
    Ok(DefaultJson(json))
  }

  lemma SavedRequest(cfg: Config, input: SaveInput, itemId: string, now: Instant)
    requires SaveRequest(cfg, input, itemId, now).Ok?
    ensures
      var (item, words) := SaveRequest(cfg, input, itemId, now).value;
      && item.title == input.title && item.body == input.body && item.source == input.source
      && Ok(item.metadata) == MarshalMetadata(input.metadata) && item.importance == input.importance && item.pinned == input.pinned
      && item.tier == (if input.tier.Some? then input.tier.value else Working)
      && NormalizeKeywords(cfg.texts, input.keywords) == Ok(words)
  {
    hide NormalizeKeywords, Document;
  }
}
