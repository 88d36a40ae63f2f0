/** Whole histories of the memory service: any sequence of saves, updates, reads, pins, deletions,
    backfills, lifecycle runs and new policies, whatever their inputs and however the embedder,
    the clock and the index writes behave. */
module History {
  import opened Prelude
  import opened Schema
  import opened Keywords
  import opened Ordering
  import opened Repository
  import opened Lifecycle
  import opened LifecycleLaws
  import opened Service
  import opened Words
  import opened Writes
  import opened Index
  import opened IndexUpdate
  import opened ServiceLaws
  import opened Backfill

  datatype Op =
    | SaveOp(saved: SaveInput, itemId: string, chunkId: string, env: IndexEnv, now: Instant)
    | UpdateOp(changed: UpdateInput, chunkId: string, env: IndexEnv, now: Instant)
    | GetOp(id: string, now: Instant)
    | PinOp(id: string, pinned: bool, now: Instant)
    | DeleteOp(id: string, confirm: bool, now: Instant)
    | BackfillOp(limit: int, force: bool, envs: string -> IndexEnv, clock: nat -> Instant)
    | LifecycleOp(limit: int, batch: seq<Item>, cancelled: bool, now: Instant)
    | PolicyOp(row: PolicyRow)

  ghost function StoredPolicies(cfg: Config, db: Tables): Result<seq<Policy>, Error>
    requires PoliciesOk(db.policies)
  {
    LoadPolicies(cfg.codec, PolicyRows(db))
  }

  ghost function LifecycleOn(cfg: Config, db: Tables, batch: seq<Item>, now: Instant): Result<Tables, Error>
    requires PoliciesOk(db.policies)
  {
    var policies :- StoredPolicies(cfg, db);
    var (after, _) :- RunOn(db, batch, policies, now);
    Ok(after)
  }

  /** The tables after one call; a call that fails leaves them alone. */
  ghost function Apply(cfg: Config, db: Tables, op: Op): Tables
    requires ChunksOk(db.items.Keys, db.chunks) && PoliciesOk(db.policies)
  {
    match op
    case SaveOp(input, itemId, chunkId, env, now) => SaveOn(cfg, db, input, itemId, chunkId, env, now).0
    case UpdateOp(input, chunkId, env, now) => UpdateOn(cfg, db, input, chunkId, env, now).0
    case GetOp(id, now) => GetOn(db, id, StoredPolicies(cfg, db), now)
    case PinOp(id, pinned, now) => OrElse(PinTxOn(db, id, pinned, now), db)
    case DeleteOp(id, confirm, now) => if confirm then OrElse(DeleteTxOn(db, id, now), db) else db
    case BackfillOp(limit, force, envs, clock) =>
      if cfg.vectorEnabled && ValidTarget(cfg.texts, cfg.target)
      then BackfillOn(cfg, db, Candidates(db, force, NormalizeBackfillLimit(limit)), envs, clock).0 else db
    case LifecycleOp(_, batch, cancelled, now) => if cancelled then db else OrElse(LifecycleOn(cfg, db, batch, now), db)
    case PolicyOp(row) => OrElse(CreatePolicyOn(db, row), db)
  }

  /** A lifecycle run sees a batch that ListActive may return. */
  ghost predicate Possible(db: Tables, op: Op) {
    op.LifecycleOp? ==> IsBatch(db, NormalizeLifecycleLimit(op.limit), op.batch)
  }

  ghost predicate Follows(cfg: Config, db: Tables, op: Op, after: Tables) {
    SchemaOk(db) ==> Possible(db, op) && after == Apply(cfg, db, op)
  }

  /** `states` are the tables before, between and after the calls `ops`. */
  ghost predicate IsHistory(cfg: Config, ops: seq<Op>, states: seq<Tables>) {
    && |states| == |ops| + 1
    && forall k :: 0 <= k < |ops| ==> Follows(cfg, states[k], ops[k], states[k + 1])
  }

  lemma HistoryPrefix(cfg: Config, ops: seq<Op>, states: seq<Tables>)
    requires IsHistory(cfg, ops, states) && ops != []
    ensures
      var n := |ops| - 1;
      |states| == n + 2 && IsHistory(cfg, ops[..n], states[..n + 1]) && Follows(cfg, states[n], ops[n], states[n + 1])
  {
    hide Follows;
  }

  // ----- The derived indexes, over every history -----

  lemma EmptyIsSound(cfg: Config)
    ensures Sound(cfg, EMPTY) && IndexSound(cfg, EMPTY)
  {
    hide WordsOf, Document, Clean;
  }

  lemma RunSound(cfg: Config, db: Tables, limit: nat, batch: seq<Item>, now: Instant)
    requires Sound(cfg, db) && PoliciesOk(db.policies) && IsBatch(db, limit, batch)
    ensures Sound(cfg, OrElse(LifecycleOn(cfg, db, batch, now), db))
    ensures IndexSound(cfg, db) <==> IndexSound(cfg, OrElse(LifecycleOn(cfg, db, batch, now), db))
  {
    if LifecycleOn(cfg, db, batch, now).Ok? {
      SucceededRunSound(cfg, db, limit, batch, now);
    } else {
      hide Sound, IndexSound;
    }
  }

  lemma SucceededRunSound(cfg: Config, db: Tables, limit: nat, batch: seq<Item>, now: Instant)
    requires Sound(cfg, db) && PoliciesOk(db.policies) && IsBatch(db, limit, batch) && LifecycleOn(cfg, db, batch, now).Ok?
    ensures Sound(cfg, LifecycleOn(cfg, db, batch, now).value)
    ensures IndexSound(cfg, db) <==> IndexSound(cfg, LifecycleOn(cfg, db, batch, now).value)
  {
    var policies := StoredPolicies(cfg, db).value;
    assert Snapshot(db, batch);
    SoundHasSchema(cfg, db);
    hide Sound, IndexSound, RunOn, SchemaOk, IsBatch, StoredPolicies;
    RunLeavesTextsUntouched(db, batch, policies, now);
    UntouchedTextsKeepIndexes(cfg, db, RunOn(db, batch, policies, now).value.0);
  }

  lemma PolicySound(cfg: Config, db: Tables, row: PolicyRow)
    requires Sound(cfg, db)
    ensures Sound(cfg, OrElse(CreatePolicyOn(db, row), db))
    ensures IndexSound(cfg, db) <==> IndexSound(cfg, OrElse(CreatePolicyOn(db, row), db))
  {
    var after := OrElse(CreatePolicyOn(db, row), db);
    SoundHasSchema(cfg, db);
    PolicyKeepsSchema(db, row);
    hide *;
    PolicyLeavesTexts(cfg, db, after);
  }

  lemma PolicyKeepsSchema(db: Tables, row: PolicyRow)
    requires SchemaOk(db)
    ensures
      var after := OrElse(CreatePolicyOn(db, row), db);
      SchemaOk(after) && after == db.(policies := after.policies)
  {
    hide ItemsOk, ChunksOk, FtsExact, KeywordsOk, EventsOk, AccessOk, EmbeddingsOk, StatusesOk;
  }

  lemma PolicyLeavesTexts(cfg: Config, db: Tables, after: Tables)
    requires Sound(cfg, db) && SchemaOk(after) && after == db.(policies := after.policies)
    ensures Sound(cfg, after)
    ensures IndexSound(cfg, db) <==> IndexSound(cfg, after)
  {
    hide SchemaOk, WordsOf, Document, Clean, VecExact, EntriesBelong, ChunksExact;
    forall id
      ensures CurrentDocument(cfg, after, id) == CurrentDocument(cfg, db, id)
    {
    }
    SameDocumentsSameAgreement(cfg, db, after);
  }

  lemma GetSound(cfg: Config, db: Tables, id: string, now: Instant)
    requires Sound(cfg, db) && PoliciesOk(db.policies)
    ensures Sound(cfg, GetOn(db, id, StoredPolicies(cfg, db), now))
    ensures IndexSound(cfg, db) <==> IndexSound(cfg, GetOn(db, id, StoredPolicies(cfg, db), now))
  {
    var policies := StoredPolicies(cfg, db);
    if GetTxOn(db, id, policies, now).Ok? {
      SoundHasSchema(cfg, db);
      GetSucceedsExactlyWhen(db, id, policies, now);
      assert db.items[id].id == id;
      GetLeavesTextsUntouched(db, id, policies.value, now);
      hide Sound, IndexSound, GetTxOn, SchemaOk, AfterGet, StoredPolicies;
      UntouchedTextsKeepIndexes(cfg, db, AfterGet(db, id, policies.value, now));
    } else {
      hide Sound, IndexSound, GetTxOn;
    }
  }

  lemma MarkSound(cfg: Config, db: Tables, id: string, u: MemoryUpdate, eventType: string, payload: Payload, now: Instant)
    requires Sound(cfg, db) && eventType != "" && u.updatedAt == now && u.title.None? && u.body.None?
    ensures Sound(cfg, OrElse(MarkOn(db, id, u, eventType, payload, now), db))
    ensures IndexSound(cfg, db) <==> IndexSound(cfg, OrElse(MarkOn(db, id, u, eventType, payload, now), db))
  {
    hide Sound, IndexSound, MarkOn, SchemaOk, Marked;
    SoundHasSchema(cfg, db);
    MarkSucceedsExactlyWhen(db, id, u, eventType, payload, now);
    if MarkOn(db, id, u, eventType, payload, now).Ok? {
      MarkLeavesTextsUntouched(db, id, u, eventType, payload, now);
      UntouchedTextsKeepIndexes(cfg, db, Marked(db, id, u, eventType, payload, now));
    }
  }

  lemma BackfillSound(cfg: Config, db: Tables, force: bool, limit: nat, envs: string -> IndexEnv, clock: nat -> Instant)
    requires Sound(cfg, db) && ChunksOk(db.items.Keys, db.chunks) && cfg.texts.Lawful()
    ensures Sound(cfg, BackfillOn(cfg, db, Candidates(db, force, limit), envs, clock).0)
    ensures IndexSound(cfg, db) ==> IndexSound(cfg, BackfillOn(cfg, db, Candidates(db, force, limit), envs, clock).0)
  {
    hide *;
    CandidatesAreChunks(db, force, limit);
    BackfillKeepsIndexes(cfg, db, Candidates(db, force, limit), envs, clock);
  }

  /** Only an update depends on its index write reaching the disk. */
  predicate Persists(op: Op) { op.UpdateOp? ==> op.env.durable }

  lemma StepKeepsSound(cfg: Config, db: Tables, op: Op)
    requires Sound(cfg, db) && cfg.texts.Lawful() && Possible(db, op)
    ensures ChunksOk(db.items.Keys, db.chunks) && PoliciesOk(db.policies)
    ensures Sound(cfg, Apply(cfg, db, op))
    ensures IndexSound(cfg, db) && Persists(op) ==> IndexSound(cfg, Apply(cfg, db, op))
  {
    SoundHasSchema(cfg, db);
    hide Sound, IndexSound, Apply, Texts.Lawful, SchemaOk, PoliciesOk, ChunksOk;
    if op.SaveOp? || op.UpdateOp? {
      WriteKeepsSound(cfg, db, op);
    } else if op.BackfillOp? || op.LifecycleOp? {
      BatchKeepsSound(cfg, db, op);
    } else {
      ShortStepKeepsSound(cfg, db, op);
    }
  }

  lemma WriteKeepsSound(cfg: Config, db: Tables, op: Op)
    requires Sound(cfg, db) && cfg.texts.Lawful() && PoliciesOk(db.policies) && ChunksOk(db.items.Keys, db.chunks)
    requires op.SaveOp? || op.UpdateOp?
    ensures Sound(cfg, Apply(cfg, db, op)) && (IndexSound(cfg, db) && Persists(op) ==> IndexSound(cfg, Apply(cfg, db, op)))
  {
    hide Sound, IndexSound, SaveOn, UpdateOn, Texts.Lawful, PoliciesOk, ChunksOk;
    match op
    case SaveOp(input, itemId, chunkId, env, now) => SaveKeepsIndexes(cfg, db, input, itemId, chunkId, env, now);
    case UpdateOp(input, chunkId, env, now) => UpdateKeepsIndexes(cfg, db, input, chunkId, env, now);
  }

  lemma BatchKeepsSound(cfg: Config, db: Tables, op: Op)
    requires Sound(cfg, db) && cfg.texts.Lawful() && PoliciesOk(db.policies) && ChunksOk(db.items.Keys, db.chunks) && Possible(db, op)
    requires op.BackfillOp? || op.LifecycleOp?
    ensures Sound(cfg, Apply(cfg, db, op)) && (IndexSound(cfg, db) ==> IndexSound(cfg, Apply(cfg, db, op)))
  {
    hide Sound, IndexSound, BackfillOn, LifecycleOn, IsBatch, Texts.Lawful, Candidates, PoliciesOk, ChunksOk, OrElse, ValidTarget;
    match op
    case BackfillOp(limit, force, envs, clock) => BackfillSound(cfg, db, force, NormalizeBackfillLimit(limit), envs, clock);
    case LifecycleOp(limit, batch, cancelled, now) => RunSound(cfg, db, NormalizeLifecycleLimit(limit), batch, now);
  }

  lemma ShortStepKeepsSound(cfg: Config, db: Tables, op: Op)
    requires Sound(cfg, db) && cfg.texts.Lawful() && PoliciesOk(db.policies) && ChunksOk(db.items.Keys, db.chunks)
    requires op.GetOp? || op.PinOp? || op.DeleteOp? || op.PolicyOp?
    ensures Sound(cfg, Apply(cfg, db, op)) && (IndexSound(cfg, db) ==> IndexSound(cfg, Apply(cfg, db, op)))
  {
    hide Sound, IndexSound, GetOn, MarkOn, CreatePolicyOn, Texts.Lawful, StoredPolicies, PoliciesOk, ChunksOk, OrElse;
    match op
    case GetOp(id, now) => GetSound(cfg, db, id, now);
    case PinOp(id, pinned, now) => MarkSound(cfg, db, id, Pinning(pinned, now), "pinned", PinnedTo(pinned), now);
    case DeleteOp(id, confirm, now) => MarkSound(cfg, db, id, Deletion(now), "deleted", SoftDelete, now);
    case PolicyOp(row) => PolicySound(cfg, db, row);
  }

  /** Over every history: each memory has exactly one chunk with its body, memory_fts is exactly the
      projection of the chunks, the vec0 rows are exactly those of the embeddings, and all rows meet
      the schema. If in addition the index writes of updates persist, `indexed` always means that
      the embedding is that of the current title and keywords. */
  lemma {:induction false} IndexesAgreeOverEveryHistory(cfg: Config, ops: seq<Op>, states: seq<Tables>)
    requires IsHistory(cfg, ops, states) && cfg.texts.Lawful()
    requires Sound(cfg, states[0])
    ensures forall k :: 0 <= k < |states| ==> Sound(cfg, states[k])
    ensures IndexSound(cfg, states[0]) && (forall k :: 0 <= k < |ops| ==> Persists(ops[k])) ==>
              forall k :: 0 <= k < |states| ==> IndexSound(cfg, states[k])
  {
    hide Sound, IndexSound, Apply, Texts.Lawful;
    if ops != [] {
      var n := |ops| - 1;
      HistoryPrefix(cfg, ops, states);
      hide IsHistory;
      IndexesAgreeOverEveryHistory(cfg, ops[..n], states[..n + 1]);
      assert forall k :: 0 <= k <= n ==> states[..n + 1][k] == states[k];
      assert forall k :: 0 <= k < n ==> ops[..n][k] == ops[k];
      assert Sound(cfg, states[n]);
      SoundHasSchema(cfg, states[n]);
      hide SchemaOk;
      StepKeepsSound(cfg, states[n], ops[n]);
    }
  }
}
