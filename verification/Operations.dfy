/** The service methods, step by step against the store. Each is proved to leave exactly the tables,
    and return exactly the result, that its function in module Service describes. */
module Operations {
  import opened Prelude
  import opened Schema
  import opened Keywords
  import opened Ordering
  import opened Repository
  import opened Lifecycle
  import opened Service

  class MemoryService {
    const store: Store
    const cfg: Config

    constructor (store: Store, cfg: Config)
      ensures this.store == store && this.cfg == cfg
    {
      this.store, this.cfg := store, cfg;
    }

    // ----- The embedding index -----

    method RecordStatus(chunkId: string, row: IndexStatus, durable: bool)
      modifies store
      ensures store.db == RecordStatusOn(cfg, old(store.db), chunkId, row, durable)
    {
      var saved := store.db;
      var e := store.UpsertStatus(cfg.texts, cfg.target, chunkId, row);
      if e.Err? || !durable {
        store.Rollback(saved);
      }
    }

    method PersistEmbedding(chunkId: string, memoryId: string, hash: string, vector: seq<real>, now: Instant) returns (e: Result<(), Error>)
      modifies store
      ensures e.Ok? ==> PersistEmbeddingOn(cfg, old(store.db), chunkId, memoryId, hash, vector, now) == Ok(store.db)
      ensures e.Err? ==> PersistEmbeddingOn(cfg, old(store.db), chunkId, memoryId, hash, vector, now).Err?
    {
      var embedding := Embedding(memoryId, vector, hash, RowidOf(cfg, chunkId), now, now);
      e := store.UpsertVectorMetadata(cfg.texts, cfg.target, cfg.backend, now);
      if e.Err? { return; }
      e := store.UpsertEmbedding(cfg.texts, cfg.target, chunkId, embedding);
      if e.Err? { return; }
      e := store.UpsertStatus(cfg.texts, cfg.target, chunkId, StatusRow(memoryId, Indexed, hash, "", 1, now));
    }

    method IndexMemoryEmbedding(title: string, words: seq<string>, chunkId: string, memoryId: string, env: IndexEnv, now: Instant)
      returns (status: Option<Status>)
      modifies store
      ensures (store.db, status) == IndexOn(cfg, old(store.db), title, words, chunkId, memoryId, env, now)
    {
      if !cfg.vectorEnabled {
        return None;
      }
      var document := BuildDocument(cfg.texts, title, words);
      if document.None? {
        RecordStatus(chunkId, StatusRow(memoryId, Skipped, "", "", 0, now), env.durable);
        return Some(Skipped);
      }
      var hash := cfg.texts.hash(document.value);
      if |document.value| > MAX_DOCUMENT_RUNES {
        RecordStatus(chunkId, StatusRow(memoryId, Failed, hash, TOO_LONG, 1, now), env.durable);
        return Some(Failed);
      }
      if env.outcome.EmbedError? {
        RecordStatus(chunkId, StatusRow(memoryId, Failed, hash, Summarize(env.outcome.message), 1, now), env.durable);
        return Some(Failed);
      }
      if |env.outcome.vector| != cfg.target.dimensions {
        RecordStatus(chunkId, StatusRow(memoryId, Failed, hash, WRONG_DIMENSIONS, 1, now), env.durable);
        return Some(Failed);
      }
      if !env.outcome.encodable {
        RecordStatus(chunkId, StatusRow(memoryId, Failed, hash, NOT_ENCODABLE, 1, now), env.durable);
        return Some(Failed);
      }
      var saved := store.db;
      var e := PersistEmbedding(chunkId, memoryId, hash, env.outcome.vector, now);
      if e.Err? || !env.durable {
        store.Rollback(saved);
        return Some(Failed);
      }
      return Some(Indexed);
    }

    // ----- Save -----

    method ToRows(memoryId: string, words: seq<string>, now: Instant) returns (rows: seq<Keyword>)
      ensures rows == KeywordRows(cfg.texts, memoryId, words, now)
    {
      rows := [];
      for i := 0 to |words|
        invariant rows == KeywordRows(cfg.texts, memoryId, words, now)[..i]
      {
        rows := rows + [Keyword(memoryId, i, words[i], cfg.texts.Normalized(words[i]), now, now)];
      }
    }

    method SaveTx(item: Item, chunkId: string, words: seq<string>) returns (e: Result<(), Error>)
      modifies store
      ensures e.Ok? ==> SaveTxOn(cfg, old(store.db), item, chunkId, words) == Ok(store.db)
      ensures e.Err? ==> SaveTxOn(cfg, old(store.db), item, chunkId, words) == Err(e.error)
    {
      var rows := ToRows(item.id, words, item.createdAt);
      e := store.CreateItem(item);
      if e.Err? { return; }
      e := store.AddChunk(Chunk(chunkId, item.id, 0, item.body, item.createdAt));
      if e.Err? { return; }
      e := store.ReplaceKeywords(cfg.texts, item.id, rows);
      if e.Err? { return; }
      e := store.RecordEvent(item.id, "created", NoDetail, item.createdAt);
    }

    method Save(input: SaveInput, itemId: string, chunkId: string, env: IndexEnv, now: Instant) returns (r: Result<Memory, Error>)
      modifies store
      ensures (store.db, r) == SaveOn(cfg, old(store.db), input, itemId, chunkId, env, now)
      ensures r.Ok? ==> r.value.item == AskedRow(input, itemId, now)
    {
      var tier := if input.tier.None? then Working else input.tier.value;
      if input.body == "" || !tier.Valid() || !(0 <= input.importance <= 100) {
        return Err(Invalid);
      }
      var metadata := MarshalMetadata(input.metadata);
      if metadata.Err? {
        return Err(metadata.error);
      }
      var words := NormalizeAll(cfg.texts, input.keywords);
      if words.Err? {
        return Err(words.error);
      }
      var document := BuildDocument(cfg.texts, input.title, words.value);
      if TooLong(document) {
        return Err(Invalid);
      }
      var item := Item(itemId, input.title, input.body, input.source, metadata.value, tier, input.importance, input.pinned,
                       now, now, None, None, None);
      assert SaveRequest(cfg, input, itemId, now) == Ok((item, words.value));
      var saved := store.db;
      var e := SaveTx(item, chunkId, words.value);
      if e.Err? {
        store.Rollback(saved);
        return Err(e.error);
      }
      var status := IndexMemoryEmbedding(item.title, words.value, chunkId, item.id, env, now);
      return Ok(Memory(item, words.value));
    }

    // ----- Lifecycle steps -----

    method CarryOutChange(item: Item, d: Decision, policyId: string, now: Instant) returns (e: Result<(), Error>)
      requires d.Changes()
      modifies store
      ensures e.Ok? ==> CarryOut(old(store.db), item, d, policyId, now) == Ok(store.db)
      ensures e.Err? ==> CarryOut(old(store.db), item, d, policyId, now) == Err(e.error)
    {
      e := store.UpdateItem(item.id, UpdateFor(item, d, now));
      if e.Err? { return; }
      var change := ChangeFor(item, d, policyId);
      e := store.RecordEvent(item.id, EventName(change.action), Lifecycle(change), now);
    }

    method LoadPoliciesFromStore() returns (r: Result<seq<Policy>, Error>)
      requires PoliciesOk(store.db.policies)
      ensures r == LoadPolicies(cfg.codec, PolicyRows(store.db))
    {
      var rows := store.ListEnabled();
      CreationOrdersPolicies(store.db.policies, EnabledPolicies(store.db.policies));
      ListingIsUnique(ByCreation, EnabledPolicies(store.db.policies), rows, PolicyRows(store.db));
      r := LoadLifecyclePolicies(cfg.codec, rows);
    }

    method EvaluateItem(item: Item, policies: seq<Policy>, now: Instant) returns (r: Result<Decision, Error>)
      modifies store
      ensures r.Ok? ==>
                Decide(old(store.db).access, item, policies, now) == Ok(r.value)
                && CarryOut(old(store.db), item, r.value, PolicyFor(item, policies).id, now) == Ok(store.db)
      ensures r.Err? ==>
                Decide(old(store.db).access, item, policies, now) == Err(r.error)
                || (Decide(old(store.db).access, item, policies, now).Ok?
                    && CarryOut(old(store.db), item, Decide(old(store.db).access, item, policies, now).value,
                                PolicyFor(item, policies).id, now) == Err(r.error))
    {
      var policy := PolicyForItem(item, policies);
      var promotion := PromotionFor(store.db.access, item, policy.rules, now);
      if promotion.Err? {
        return Err(promotion.error);
      }
      var d := if promotion.value.Some? then Promote(promotion.value.value) else DecideByAge(item, policy.rules, now);
      if d.Changes() {
        var e := CarryOutChange(item, d, policy.id, now);
        if e.Err? {
          return Err(e.error);
        }
      }
      return Ok(d);
    }

    /** The oldest live memories, up to `limit`; ties fall as SQLite pleases. */
    method ListActive(limit: nat) returns (batch: seq<Item>)
      requires ItemsOk(store.db.items)
      ensures IsBatch(store.db, limit, batch)
    {
      batch := [];
      var rest := set id | id in store.db.items && store.db.items[id].deletedAt.None?;
      while rest != {} && |batch| < limit
        invariant IsOldest(store.db, batch, rest) && |batch| <= limit
        decreases rest
      {
        ghost var least := OldestOf(store.db.items, rest);
        var id :| id in rest && forall other :: other in rest ==> store.db.items[id].updatedAt <= store.db.items[other].updatedAt;
        NextOldest(store.db, batch, rest, id);
        batch, rest := batch + [store.db.items[id]], rest - {id};
      }
    }

    /** One scheduled run. `cancelledAt` is the batch position at which the context is found
        cancelled; past the end of the batch it never is. */
    method RunLifecycle(limit: int, cancelledAt: nat, now: Instant) returns (r: Result<Report, Error>, ghost batch: seq<Item>)
      requires SchemaOk(store.db)
      modifies store
      ensures r.Err? ==> store.db == old(store.db)
      ensures
        var policies := LoadPolicies(cfg.codec, PolicyRows(old(store.db)));
        && (policies.Ok? ==> IsBatch(old(store.db), NormalizeLifecycleLimit(limit), batch))
        && (r.Ok? <==> policies.Ok? && cancelledAt >= |batch| && RunOn(old(store.db), batch, policies.value, now).Ok?)
        && (r.Ok? ==> RunOn(old(store.db), batch, policies.value, now) == Ok((store.db, r.value)))
    {
      var before := store.db;
      batch := [];
      var policies := LoadPoliciesFromStore();
      if policies.Err? {
        return Err(policies.error), batch;
      }
      var items := ListActive(NormalizeLifecycleLimit(limit));
      batch := items;
      var report := Report(0, 0, 0, 0, 0, 0, 0, []);
      assert items[..0] == [];
      for k := 0 to |items|
        invariant k <= cancelledAt && RunOn(before, items[..k], policies.value, now) == Ok((store.db, report))
      {
        hide RunOn, Decide, CarryOut, PolicyFor, SchemaOk, IsBatch, Tally;
        if k == cancelledAt {
          store.Rollback(before);
          return Err(Cancelled), batch;
        }
        ghost var mid := store.db;
        OneMoreEvaluated(before, items, policies.value, now, k, mid, report);
        var d := EvaluateItem(items[k], policies.value, now);
        if d.Err? {
          store.Rollback(before);
          RunStops(before, items, policies.value, now, k + 1);
          return Err(d.error), batch;
        }
        report := Tally(report, items[k], d.value, PolicyFor(items[k], policies.value).id).(evaluated := k + 1);
      }
      assert items[..|items|] == items;
      return Ok(report), batch;
    }

    // ----- Get -----

    method GetTx(id: string, now: Instant) returns (r: Result<Item, Error>)
      requires SchemaOk(store.db)
      modifies store
      ensures
        var policies := LoadPolicies(cfg.codec, PolicyRows(old(store.db)));
        && (r.Ok? ==> GetTxOn(old(store.db), id, policies, now) == Ok((store.db, r.value)))
        && (r.Err? ==> GetTxOn(old(store.db), id, policies, now) == Err(r.error))
    {
      var stored := GetItemOn(store.db, id);
      if stored.Err? {
        return Err(stored.error);
      }
      if stored.value.deletedAt.Some? {
        return Err(NotFound);
      }
      var item := stored.value.(lastAccessedAt := Some(now));
      var e := store.UpdateItem(id, NoUpdate(now).(lastAccessedAt := Some(now)));
      if e.Err? {
        return Err(e.error);
      }
      e := store.RecordAccess(id, "get", now);
      if e.Err? {
        return Err(e.error);
      }
      var policies := LoadPoliciesFromStore();
      if policies.Err? {
        return Err(policies.error);
      }
      var policy := PolicyForItem(item, policies.value);
      var promotion := PromotionFor(store.db.access, item, policy.rules, now);
      if promotion.Err? {
        return Err(promotion.error);
      }
      if promotion.value.Some? {
        e := CarryOutChange(item, Promote(promotion.value.value), policy.id, now);
        if e.Err? {
          return Err(e.error);
        }
        var reread := GetItemOn(store.db, id);
        if reread.Err? {
          return Err(reread.error);
        }
        item := reread.value.(lastAccessedAt := Some(now));
      }
      return Ok(item);
    }

    /** Returns the memory, its chunks by index and its keywords in display order. */
    method Get(id: string, now: Instant) returns (r: Result<(Item, seq<Chunk>, seq<string>), Error>)
      requires SchemaOk(store.db)
      modifies store
      ensures
        var tx := GetTxOn(old(store.db), id, LoadPolicies(cfg.codec, PolicyRows(old(store.db))), now);
        && store.db == GetOn(old(store.db), id, LoadPolicies(cfg.codec, PolicyRows(old(store.db))), now)
        && (tx.Err? ==> r == Err(tx.error))
        && (tx.Ok? ==> r == Ok((tx.value.1, ChunkList(old(store.db).chunks, id), WordsOf(old(store.db).keywords, id))))
    {
      var saved := store.db;
      var got := GetTx(id, now);
      if got.Err? {
        store.Rollback(saved);
        return Err(got.error);
      }
      GetLeavesTextAlone(saved, id, LoadPolicies(cfg.codec, PolicyRows(saved)), now);
      var chunks := ListChunks(id);
      var words := store.ListKeywords(id);
      return Ok((got.value, chunks, words));
    }

    method ListChunks(memoryId: string) returns (chunks: seq<Chunk>)
      requires forall c :: c in store.db.chunks ==> store.db.chunks[c].chunk.id == c
      ensures chunks == ChunkList(store.db.chunks, memoryId)
    {
      SlotsOrderChunks(store.db.chunks, memoryId);
      chunks := List(BySlot, ChunkSet(store.db.chunks, memoryId));
      ListingIsUnique(BySlot, ChunkSet(store.db.chunks, memoryId), chunks, ChunkList(store.db.chunks, memoryId));
    }

    // ----- Update -----

    method ReplaceText(input: UpdateInput, chunkId: string, words: seq<string>, now: Instant) returns (e: Result<(), Error>)
      modifies store
      ensures e.Ok? ==> ReplaceTextOn(cfg, old(store.db), input, chunkId, words, now) == Ok(store.db)
      ensures e.Err? ==> ReplaceTextOn(cfg, old(store.db), input, chunkId, words, now) == Err(e.error)
    {
      if input.keywords.Some? {
        var rows := ToRows(input.id, words, now);
        e := store.ReplaceKeywords(cfg.texts, input.id, rows);
        if e.Err? { return; }
      }
      if input.body.Some? {
        e := store.ReplaceChunks(input.id, [Chunk(chunkId, input.id, 0, input.body.value, now)]);
        if e.Err? { return; }
      }
      return Ok(());
    }

    method UpdateTx(input: UpdateInput, chunkId: string, now: Instant) returns (r: Result<seq<string>, Error>)
      modifies store
      ensures r.Ok? ==> UpdateTxOn(cfg, old(store.db), input, chunkId, now) == Ok(Updated(store.db, r.value))
      ensures r.Err? ==> UpdateTxOn(cfg, old(store.db), input, chunkId, now) == Err(r.error)
    {
      var current := GetItemOn(store.db, input.id);
      if current.Err? {
        return Err(current.error);
      }
      if current.value.deletedAt.Some? {
        return Err(NotFound);
      }
      var words := store.ListKeywords(input.id);
      if input.keywords.Some? {
        var normalized := NormalizeAll(cfg.texts, input.keywords.value);
        if normalized.Err? {
          return Err(normalized.error);
        }
        words := normalized.value;
      }
      var document := BuildDocument(cfg.texts, Or(input.title, current.value.title), words);
      if TooLong(document) {
        return Err(Invalid);
      }
      var metadata := UpdateMetadata(input);
      if metadata.Err? {
        return Err(metadata.error);
      }
      var e := store.UpdateItem(input.id, RowUpdate(input, metadata.value, now));
      if e.Err? {
        return Err(e.error);
      }
      e := ReplaceText(input, chunkId, words, now);
      if e.Err? {
        return Err(e.error);
      }
      e := store.RecordEvent(input.id, "updated", NoDetail, now);
      if e.Err? {
        return Err(e.error);
      }
      return Ok(words);
    }

    method Update(input: UpdateInput, chunkId: string, env: IndexEnv, now: Instant) returns (r: Result<Memory, Error>)
      requires SchemaOk(store.db)
      modifies store
      ensures (store.db, r) == UpdateOn(cfg, old(store.db), input, chunkId, env, now)
      ensures r.Ok? ==> input.id in old(store.db).items && ChangedAsAsked(old(store.db).items[input.id], input, r.value.item, now)
    {
      if input.id == "" {
        return Err(Invalid);
      }
      var saved := store.db;
      var words := UpdateTx(input, chunkId, now);
      if words.Err? {
        store.Rollback(saved);
        return Err(words.error);
      }
      if input.id !in store.db.items {
        return Err(NotFound);
      }
      var item := store.db.items[input.id];
      var finalChunk := None;
      if input.body.Some? {
        finalChunk := Some(chunkId);
      } else {
        UpdateKeepsChunksWithoutBody(cfg, saved, input, chunkId, now);
        var chunks := ListChunks(input.id);
        if |chunks| > 0 {
          finalChunk := Some(chunks[0].id);
        }
      }
      UpdatedRowIsAsAsked(cfg, saved, input, chunkId, now);
      hide ChangedAsAsked, UpdateTxOn, IndexOn, FinalChunk;
      if Reindexes(input) && finalChunk.Some? && finalChunk.value != "" {
        var status := IndexMemoryEmbedding(item.title, words.value, finalChunk.value, input.id, env, now);
      }
      return Ok(Memory(item, words.value));
    }

    // ----- Delete and Pin -----

    method Mark(id: string, u: MemoryUpdate, eventType: string, payload: Payload, now: Instant) returns (r: Result<(), Error>)
      modifies store
      ensures store.db == OrElse(MarkOn(old(store.db), id, u, eventType, payload, now), old(store.db))
      ensures r.Ok? <==> MarkOn(old(store.db), id, u, eventType, payload, now).Ok?
      ensures r.Err? ==> MarkOn(old(store.db), id, u, eventType, payload, now) == Err(r.error)
    {
      var saved := store.db;
      var current := GetItemOn(store.db, id);
      if current.Err? {
        return Err(current.error);
      }
      if current.value.deletedAt.Some? {
        return Err(NotFound);
      }
      r := store.UpdateItem(id, u);
      if r.Err? {
        store.Rollback(saved);
        return;
      }
      r := store.RecordEvent(id, eventType, payload, now);
      if r.Err? {
        store.Rollback(saved);
      }
    }

    method Delete(id: string, confirm: bool, now: Instant) returns (r: Result<(), Error>)
      modifies store
      ensures !confirm ==> r == Err(Invalid) && store.db == old(store.db)
      ensures confirm ==> store.db == OrElse(DeleteTxOn(old(store.db), id, now), old(store.db))
      ensures confirm ==> (r.Ok? <==> DeleteTxOn(old(store.db), id, now).Ok?)
      ensures r.Ok? ==> id in old(store.db).items
                        && store.db.items == old(store.db).items[id := old(store.db).items[id].(deletedAt := Some(now), updatedAt := now)]
    {
      if !confirm {
        return Err(Invalid);
      }
      r := Mark(id, NoUpdate(now).(deletedAt := Some(now)), "deleted", SoftDelete, now);
    }

    method Pin(id: string, pinned: bool, now: Instant) returns (r: Result<(), Error>)
      modifies store
      ensures store.db == OrElse(PinTxOn(old(store.db), id, pinned, now), old(store.db))
      ensures r.Ok? <==> PinTxOn(old(store.db), id, pinned, now).Ok?
      ensures r.Ok? ==> id in old(store.db).items
                        && store.db.items == old(store.db).items[id := old(store.db).items[id].(pinned := pinned, updatedAt := now)]
    {
      r := Mark(id, NoUpdate(now).(pinned := Some(pinned)), "pinned", PinnedTo(pinned), now);
    }

    // ----- Backfill -----

    method ListCandidates(force: bool, limit: nat) returns (r: Result<seq<Chunk>, Error>)
      requires SchemaOk(store.db)
      ensures r.Ok? <==> && limit > 0 && cfg.target.dimensions > 0
                         && cfg.texts.trim(cfg.target.provider) != "" && cfg.texts.trim(cfg.target.model) != ""
                         && (cfg.target.scope == "body" || cfg.target.scope == "title_keywords")
      ensures !ValidTarget(cfg.texts, cfg.target) || limit == 0 ==> r == Err(Invalid)
      ensures ValidTarget(cfg.texts, cfg.target) && limit > 0 ==> r == Ok(Candidates(store.db, force, limit))
    {
      if !ValidTarget(cfg.texts, cfg.target) || limit == 0 {
        return Err(Invalid);
      }
      var chunks := CandidateChunks(store.db, force);
      AgeOrdersChunks(chunks);
      var all := List(ByAge, chunks);
      ListingIsUnique(ByAge, chunks, all, Listing(ByAge, chunks));
      return Ok(if |all| > limit then all[..limit] else all);
    }

    method BackfillEmbeddings(limit: int, force: bool, envs: string -> IndexEnv, clock: nat -> Instant) returns (r: Result<BackfillResult, Error>)
      requires SchemaOk(store.db)
      modifies store
      ensures !cfg.vectorEnabled ==> r == Err(Unavailable) && store.db == old(store.db)
      ensures cfg.vectorEnabled && !ValidTarget(cfg.texts, cfg.target) ==> r == Err(Invalid) && store.db == old(store.db)
      ensures cfg.vectorEnabled && ValidTarget(cfg.texts, cfg.target) ==>
                r.Ok? && (store.db, r.value)
                         == BackfillOn(cfg, old(store.db), Candidates(old(store.db), force, NormalizeBackfillLimit(limit)), envs, clock)
    {
      if !cfg.vectorEnabled {
        return Err(Unavailable);
      }
      var candidates := ListCandidates(force, NormalizeBackfillLimit(limit));
      if candidates.Err? {
        return Err(candidates.error);
      }
      var list := candidates.value;
      var titles, texts := ReadCandidates(list);
      var result := IndexCandidates(list, titles, texts, envs, clock);
      return Ok(result);
    }

    method ReadCandidates(list: seq<Chunk>) returns (titles: seq<string>, texts: seq<seq<string>>)
      ensures TextsRead(store.db, list, titles, texts)
    {
      titles, texts := [], [];
      for k := 0 to |list|
        invariant |titles| == |texts| == k
        invariant TextsRead(store.db, list[..k], titles, texts)
      {
        var words := store.ListKeywords(list[k].memoryId);
        titles, texts := titles + [Title(store.db, list[k].memoryId)], texts + [words];
      }
      assert list[..|list|] == list;
    }

    method IndexCandidates(list: seq<Chunk>, titles: seq<string>, texts: seq<seq<string>>, envs: string -> IndexEnv, clock: nat -> Instant)
      returns (result: BackfillResult)
      requires TextsRead(store.db, list, titles, texts)
      modifies store
      ensures (store.db, result) == BackfillOn(cfg, old(store.db), list, envs, clock)
    {
      hide IndexOn, WordsOf, BackfillOn, Title;
      ghost var start := store.db;
      NothingIndexed(cfg, start, list, envs, clock);
      result := BackfillResult(0, 0, 0, 0);
      for k := 0 to |list|
        invariant (store.db, result) == BackfillOn(cfg, start, list[..k], envs, clock)
      {
        var c := list[k];
        ghost var before := store.db;
        OneMoreCounted(cfg, start, before, result, list, k, envs, clock);
        var status := IndexMemoryEmbedding(titles[k], texts[k], c.id, c.memoryId, envs(c.id), clock(k));
        result := result.(scanned := k + 1);
        if status == Some(Indexed) {
          result := result.(indexed := result.indexed + 1);
        } else if status == Some(Skipped) {
          result := result.(skipped := result.skipped + 1);
        } else if status == Some(Failed) {
          result := result.(failed := result.failed + 1);
        }
      }
      assert list[..|list|] == list;
    }
  }

  lemma OneMoreEvaluated(db: Tables, batch: seq<Item>, policies: seq<Policy>, now: Instant, k: nat, mid: Tables, r: Report)
    requires k < |batch| && RunOn(db, batch[..k], policies, now) == Ok((mid, r))
    ensures
      var policyId := PolicyFor(batch[k], policies).id;
      var d := Decide(mid.access, batch[k], policies, now);
      var after := if d.Ok? then CarryOut(mid, batch[k], d.value, policyId, now) else Err(d.error);
      RunOn(db, batch[..k + 1], policies, now)
      == if after.Err? then Err(after.error) else Ok((after.value, Tally(r, batch[k], d.value, policyId).(evaluated := k + 1)))
  {
    hide Decide, CarryOut, PolicyFor, Tally;
    assert batch[..k + 1][..k] == batch[..k];
  }

  lemma {:induction false} RunStops(db: Tables, batch: seq<Item>, policies: seq<Policy>, now: Instant, k: nat)
    requires k <= |batch| && RunOn(db, batch[..k], policies, now).Err?
    ensures RunOn(db, batch, policies, now).Err?
  {
    hide Decide, CarryOut, PolicyFor;
    if k < |batch| {
      var n := |batch| - 1;
      assert batch[..n][..k] == batch[..k];
      RunStops(db, batch[..n], policies, now, k);
    } else {
      assert batch[..k] == batch;
    }
  }

  lemma NothingIndexed(cfg: Config, start: Tables, list: seq<Chunk>, envs: string -> IndexEnv, clock: nat -> Instant)
    ensures BackfillOn(cfg, start, list[..0], envs, clock) == (start, BackfillResult(0, 0, 0, 0))
  {
  }

  lemma OneMoreCounted(cfg: Config, start: Tables, before: Tables, r: BackfillResult, list: seq<Chunk>, k: nat, envs: string -> IndexEnv, clock: nat -> Instant)
    requires k < |list| && (before, r) == BackfillOn(cfg, start, list[..k], envs, clock)
    ensures
      var c := list[k];
      var (after, status) := IndexOn(cfg, before, Title(start, c.memoryId), WordsOf(start.keywords, c.memoryId), c.id, c.memoryId, envs(c.id), clock(k));
      BackfillOn(cfg, start, list[..k + 1], envs, clock)
      == (after, BackfillResult(k + 1, r.indexed + (if status == Some(Indexed) then 1 else 0),
                                r.failed + (if status == Some(Failed) then 1 else 0), r.skipped + (if status == Some(Skipped) then 1 else 0)))
  {
    hide IndexOn, WordsOf, Title;
    assert list[..k + 1][..k] == list[..k];
  }

  /** The titles and keywords of the candidates, as read before the first is indexed. */
  ghost predicate TextsRead(db: Tables, list: seq<Chunk>, titles: seq<string>, texts: seq<seq<string>>) {
    && |titles| == |texts| == |list|
    && forall i :: 0 <= i < |list| ==> titles[i] == Title(db, list[i].memoryId) && texts[i] == WordsOf(db.keywords, list[i].memoryId)
  }

  /** Reading a memory changes neither chunks nor keywords. */
  lemma GetLeavesTextAlone(db: Tables, id: string, policies: Result<seq<Policy>, Error>, now: Instant)
    requires GetTxOn(db, id, policies, now).Ok?
    ensures GetTxOn(db, id, policies, now).value.0.chunks == db.chunks
    ensures GetTxOn(db, id, policies, now).value.0.keywords == db.keywords
  {
    hide PolicyFor, PromotionFor, Patched, ValidUpdate, UpdateFor, ChangeFor, EventName;
  }

  lemma UpdateKeepsChunksWithoutBody(cfg: Config, db: Tables, input: UpdateInput, chunkId: string, now: Instant)
    requires UpdateTxOn(cfg, db, input, chunkId, now).Ok? && input.body.None?
    ensures UpdateTxOn(cfg, db, input, chunkId, now).value.db.chunks == db.chunks
  {
    if input.keywords.Some? {
      var words := UpdateWords(cfg, input, WordsOf(db.keywords, input.id)).value;
      var rows := KeywordRows(cfg.texts, input.id, words, now);
      var metadata := UpdateMetadata(input).value;
      var patched := UpdateItemOn(db, input.id, RowUpdate(input, metadata, now)).value;
      AddKeywordsFrame(cfg.texts, DeleteKeywords(patched, input.id), input.id, rows);
    }
  }

  lemma UpdatedRowIsAsAsked(cfg: Config, db: Tables, input: UpdateInput, chunkId: string, now: Instant)
    requires UpdateTxOn(cfg, db, input, chunkId, now).Ok?
    ensures
      var after := UpdateTxOn(cfg, db, input, chunkId, now).value.db;
      input.id in db.items && input.id in after.items && ChangedAsAsked(db.items[input.id], input, after.items[input.id], now)
  {
    var words := UpdateWords(cfg, input, WordsOf(db.keywords, input.id)).value;
    var patched := UpdateItemOn(db, input.id, RowUpdate(input, UpdateMetadata(input).value, now)).value;
    assert ChangedAsAsked(db.items[input.id], input, patched.items[input.id], now);
    hide ChangedAsAsked, ReplaceTextOn, WordsOf, UpdateWords, UpdateItemOn, Document;
    TextKeepsItems(cfg, patched, input, chunkId, words, now);
  }

  lemma TextKeepsItems(cfg: Config, db: Tables, input: UpdateInput, chunkId: string, words: seq<string>, now: Instant)
    requires ReplaceTextOn(cfg, db, input, chunkId, words, now).Ok?
    ensures ReplaceTextOn(cfg, db, input, chunkId, words, now).value.items == db.items
  {
    hide AddKeywordsOn, AddChunkOn, NextRowid, ChunksOf, RowidsIn, VecRowids;
    if input.keywords.Some? {
      AddKeywordsFrame(cfg.texts, DeleteKeywords(db, input.id), input.id, KeywordRows(cfg.texts, input.id, words, now));
    }
    if input.body.Some? {
      var tagged := if input.keywords.Some? then ReplaceKeywordsOn(cfg.texts, db, input.id, KeywordRows(cfg.texts, input.id, words, now)).value else db;
      OneChunkKeepsItems(tagged, input.id, Chunk(chunkId, input.id, 0, input.body.value, now));
    }
  }

  lemma OneChunkKeepsItems(db: Tables, id: string, chunk: Chunk)
    requires ReplaceChunksOn(db, id, [chunk]).Ok?
    ensures ReplaceChunksOn(db, id, [chunk]).value.items == db.items
  {
    var emptied := DeleteChunks(DeleteVecRowsOn(db, id), id);
    hide NextRowid, ChunksOf, RowidsIn, VecRowids, ChunkSlotTaken;
    assert [chunk][..0] == [] && AddChunksOn(emptied, id, []) == Ok(emptied);
    assert AddChunksOn(emptied, id, [chunk]) == AddChunkOn(emptied, chunk);
  }

  lemma {:induction false} AddKeywordsFrame(t: Texts, db: Tables, memoryId: string, keywords: seq<Keyword>)
    requires AddKeywordsOn(t, db, memoryId, keywords).Ok?
    ensures AddKeywordsOn(t, db, memoryId, keywords).value == db.(keywords := AddKeywordsOn(t, db, memoryId, keywords).value.keywords)
  {
    if keywords != [] {
      AddKeywordsFrame(t, db, memoryId, keywords[..|keywords| - 1]);
    }
  }

  /** `batch` holds the oldest live memories in order, and `rest` are the other live ones. */
  ghost predicate IsOldest(db: Tables, batch: seq<Item>, rest: set<string>) {
    && (forall id :: id in rest ==> id in db.items && db.items[id].deletedAt.None?)
    && (forall i :: 0 <= i < |batch| ==> IsLive(db, batch[i]) && batch[i].id !in rest)
    && (forall i, j :: 0 <= i < j < |batch| ==> batch[i].id != batch[j].id && batch[i].updatedAt <= batch[j].updatedAt)
    && (forall i, id :: 0 <= i < |batch| && id in rest ==> batch[i].updatedAt <= db.items[id].updatedAt)
    && (forall id :: id in db.items && db.items[id].deletedAt.None? ==> id in rest || db.items[id] in batch)
  }

  lemma NextOldest(db: Tables, batch: seq<Item>, rest: set<string>, id: string)
    requires ItemsOk(db.items) && IsOldest(db, batch, rest) && id in rest
    requires forall other :: other in rest ==> db.items[id].updatedAt <= db.items[other].updatedAt
    ensures IsOldest(db, batch + [db.items[id]], rest - {id})
  {
  }

  lemma {:induction false} OldestOf(items: map<string, Item>, ids: set<string>) returns (id: string)
    requires ids != {} && ids <= items.Keys
    ensures id in ids && forall other :: other in ids ==> items[id].updatedAt <= items[other].updatedAt
  {
    var x :| x in ids;
    id := x;
    var rest := ids - {x};
    assert forall other :: other in ids ==> other == x || other in rest;
    if rest != {} {
      var oldest := OldestOf(items, rest);
      if items[oldest].updatedAt < items[x].updatedAt {
        id := oldest;
      }
    }
  }
}
