/** Over every history: the log only grows, and each lifecycle change in it was due when it was made. */
module Earned {
  import opened Prelude
  import opened Schema
  import opened Keywords
  import opened Ordering
  import opened Repository
  import opened Lifecycle
  import opened LifecycleLaws
  import opened Service
  import opened Words
  import opened Writes
  import opened Index
  import opened IndexUpdate
  import opened ServiceLaws
  import opened Decisions
  import opened Backfill
  import opened History

  // ----- What it means for a change to be due -----

  /** `r` are the rules of the policy named: an enabled one that does not exclude the memory, or the
      built-in one. */
  predicate NamedRules(codec: PolicyCodec, policies: map<string, PolicyRow>, policyId: string, item: Item, r: Rules) {
    || (policyId == BUILTIN.id && r == BUILTIN.rules)
    || (policyId in policies && policies[policyId].enabled
        && match ParsePolicy(codec, policies[policyId])
           case Ok(p) => p.rules == r && !Excluded(p.scope, item)
           case Err(_) => false)
  }

  /** What the change needs of the memory's row before it and of the reads after it. */
  predicate Due(item: Item, access: seq<Access>, c: Change, r: Rules, now: Instant) {
    match c.action
    case Promoted => EarnsPromotion(access, item, r, now) && c.to == Some(OneUp(item.tier))
    case Demoted => !Guarded(r, item) && Overdue(item, r, now) && c.to == Some(OneDown(item.tier)) && item.tier != Cold
    case Archived => !Guarded(r, item) && Overdue(item, r, now) && item.tier == Cold && c.to == Some(Archive)
    case Deleted => !Guarded(r, item) && LongArchived(item, r, now) && c.to == None
  }

  predicate NamesAction(eventType: string, a: Action) {
    match a
    case Promoted => eventType == "lifecycle_promoted"
    case Demoted => eventType == "lifecycle_demoted"
    case Archived => eventType == "lifecycle_archived"
    case Deleted => eventType == "lifecycle_deleted"
  }

  /** The lifecycle event `e`, logged between the tables `before` and `after`, was due under rules `r`. */
  predicate IsEarned(codec: PolicyCodec, before: Tables, after: Tables, e: Event, r: Rules) {
    && e.payload.Lifecycle? && e.memoryId == Some(e.payload.change.memoryId)
    && var c := e.payload.change;
    && NamesAction(e.eventType, c.action)
    && c.memoryId in before.items && before.items[c.memoryId].deletedAt.None? && c.from == before.items[c.memoryId].tier
    && NamedRules(codec, before.policies, c.policyId, before.items[c.memoryId], r)
    && Due(before.items[c.memoryId], after.access, c, r, e.createdAt)
  }

  ghost predicate SomehowEarned(codec: PolicyCodec, before: Tables, after: Tables, e: Event) {
    exists r :: IsEarned(codec, before, after, e, r)
  }

  /** One call appends to the log, and the lifecycle events among what it appends are earned. */
  ghost predicate StepEarns(codec: PolicyCodec, before: Tables, after: Tables) {
    && |before.events| <= |after.events| && after.events[..|before.events|] == before.events
    && forall k :: |before.events| <= k < |after.events| && after.events[k].payload.Lifecycle? ==>
         SomehowEarned(codec, before, after, after.events[k])
  }

  // ----- Calls without lifecycle events -----

  lemma SameLogEarns(codec: PolicyCodec, before: Tables, after: Tables)
    requires after.events == before.events
    ensures StepEarns(codec, before, after)
  {
    hide SomehowEarned;
  }

  lemma QuietEventEarns(codec: PolicyCodec, before: Tables, after: Tables, e: Event)
    requires after.events == before.events + [e] && !e.payload.Lifecycle?
    ensures StepEarns(codec, before, after)
  {
    hide SomehowEarned;
  }

  lemma SaveEarns(cfg: Config, db: Tables, input: SaveInput, itemId: string, chunkId: string, env: IndexEnv, now: Instant)
    requires SchemaOk(db) && cfg.texts.Lawful()
    ensures StepEarns(cfg.codec, db, SaveOn(cfg, db, input, itemId, chunkId, env, now).0)
  {
    hide SchemaOk, SaveTxOn, SaveRequest, IndexOn, Texts.Lawful, Clean, Document, WordsOf, RowsAre, OthersKeepRows, NextRowid, StepEarns;
    var after := SaveOn(cfg, db, input, itemId, chunkId, env, now).0;
    SameLogEarns(cfg.codec, db, db);
    var request := SaveRequest(cfg, input, itemId, now);
    if request.Ok? {
      var (item, words) := request.value;
      SaveRequestIsClean(cfg, input, itemId, now);
      SaveSucceedsExactlyWhen(cfg, db, item, chunkId, words);
      var saved := SaveTxOn(cfg, db, item, chunkId, words);
      if saved.Ok? {
        IndexOnWrites(cfg, saved.value, item.title, words, chunkId, item.id, env, now);
        hide IndexWritten;
        QuietEventEarns(cfg.codec, db, after, Event(db.lastEventId + 1, Some(item.id), "created", NoDetail, item.createdAt));
      }
    }
  }

  lemma UpdateEarns(cfg: Config, db: Tables, input: UpdateInput, chunkId: string, env: IndexEnv, now: Instant)
    requires Sound(cfg, db) && cfg.texts.Lawful() && ChunksOk(db.items.Keys, db.chunks)
    ensures StepEarns(cfg.codec, db, UpdateOn(cfg, db, input, chunkId, env, now).0)
  {
    if UpdateTxOn(cfg, db, input, chunkId, now).Ok? {
      hide *;
      UpdateUnfolds(cfg, db, input, chunkId, env, now);
      var u := UpdateTxOn(cfg, db, input, chunkId, now).value;
      var c := FinalChunk(db, input, chunkId).value;
      UpdateLogsOneEvent(cfg, db, input, chunkId, now, u);
      IndexingLogsNothing(cfg, u.db, Title(u.db, input.id), WordsOf(u.db.keywords, input.id), c, input.id, env, now);
      QuietEventEarns(cfg.codec, db, UpdateOn(cfg, db, input, chunkId, env, now).0, Event(db.lastEventId + 1, Some(input.id), "updated", NoDetail, now));
    } else {
      hide UpdateTxOn, Sound, StepEarns;
      SameLogEarns(cfg.codec, db, db);
    }
  }

  lemma UpdateLogsOneEvent(cfg: Config, db: Tables, input: UpdateInput, chunkId: string, now: Instant, u: Updated)
    requires Admissible(cfg, db, input, chunkId, now) && Rewritten(cfg, db, input, chunkId, now, u)
    ensures u.db.events == db.events + [Event(db.lastEventId + 1, Some(input.id), "updated", NoDetail, now)]
  {
    hide WordsOf, Document, UpdateWords, WordsReplaced, BodyReplaced, ValidUpdate, ChunkIdFree, UpdatedItem;
  }

  lemma IndexingLogsNothing(cfg: Config, db: Tables, title: string, words: seq<string>, c: string, memoryId: string, env: IndexEnv, now: Instant)
    ensures IndexOn(cfg, db, title, words, c, memoryId, env, now).0.events == db.events
  {
    hide IndexOn, IndexWritten;
    IndexOnWrites(cfg, db, title, words, c, memoryId, env, now);
  }

  lemma MarkEarns(codec: PolicyCodec, db: Tables, id: string, u: MemoryUpdate, eventType: string, payload: Payload, now: Instant)
    requires SchemaOk(db) && eventType != "" && u.updatedAt == now && !payload.Lifecycle?
    ensures StepEarns(codec, db, OrElse(MarkOn(db, id, u, eventType, payload, now), db))
  {
    hide SchemaOk, MarkOn, StepEarns, Patched;
    SameLogEarns(codec, db, db);
    MarkSucceedsExactlyWhen(db, id, u, eventType, payload, now);
    if MarkOn(db, id, u, eventType, payload, now).Ok? {
      QuietEventEarns(codec, db, Marked(db, id, u, eventType, payload, now), Event(db.lastEventId + 1, Some(id), eventType, payload, now));
    }
  }

  lemma PolicyEarns(codec: PolicyCodec, db: Tables, row: PolicyRow)
    ensures StepEarns(codec, db, OrElse(CreatePolicyOn(db, row), db))
  {
    hide StepEarns;
    SameLogEarns(codec, db, OrElse(CreatePolicyOn(db, row), db));
  }

  lemma BackfillEarns(cfg: Config, db: Tables, force: bool, limit: nat, envs: string -> IndexEnv, clock: nat -> Instant)
    requires Sound(cfg, db) && cfg.texts.Lawful() && ChunksOk(db.items.Keys, db.chunks)
    ensures StepEarns(cfg.codec, db, BackfillOn(cfg, db, Candidates(db, force, limit), envs, clock).0)
  {
    hide Sound, Texts.Lawful, BackfillOn, Candidates, ChunksOk, StepEarns;
    CandidatesAreChunks(db, force, limit);
    BackfillKeepsIndexes(cfg, db, Candidates(db, force, limit), envs, clock);
    SameLogEarns(cfg.codec, db, BackfillOn(cfg, db, Candidates(db, force, limit), envs, clock).0);
  }

  // ----- The policy named -----

  lemma ConsultedRulesAreNamed(codec: PolicyCodec, db: Tables, item: Item)
    requires PoliciesOk(db.policies) && LoadPolicies(codec, PolicyRows(db)).Ok?
    ensures
      var p := PolicyFor(item, LoadPolicies(codec, PolicyRows(db)).value);
      NamedRules(codec, db.policies, p.id, item, p.rules)
  {
    var rows := PolicyRows(db);
    var policies := LoadPolicies(codec, rows).value;
    ScopesAreRespected(item, policies);
    var i: nat :| ConsultedAt(item, policies, i);
    CreationOrdersPolicies(db.policies, EnabledPolicies(db.policies));
    hide PolicyFor, LoadPolicies, Excluded, ParsePolicy;
    if i < |policies| {
      LoadedPoliciesAreParsed(codec, rows, i);
      assert rows[i] in rows && rows[i] in EnabledPolicies(db.policies);
      ParsedPolicyKeepsItsId(codec, rows[i]);
    }
  }

  lemma ParsedPolicyKeepsItsId(codec: PolicyCodec, row: PolicyRow)
    requires ParsePolicy(codec, row).Ok?
    ensures ParsePolicy(codec, row).value.id == row.id
  {
  }

  /** The same row but for the time of its last read is covered alike. */
  lemma TouchingKeepsScopes(codec: PolicyCodec, policies: map<string, PolicyRow>, policyId: string, item: Item, r: Rules, now: Instant)
    ensures NamedRules(codec, policies, policyId, item.(lastAccessedAt := Some(now)), r) <==> NamedRules(codec, policies, policyId, item, r)
  {
    hide ParsePolicy;
  }

  // ----- Reading -----

  lemma PromotionEventIsEarned(codec: PolicyCodec, before: Tables, after: Tables, item: Item, policyId: string, r: Rules, id: int, now: Instant)
    requires item.id in before.items && before.items[item.id] == item && item.deletedAt.None?
    requires NamedRules(codec, before.policies, policyId, item, r) && EarnsPromotion(after.access, item, r, now)
    ensures
      var change := ChangeFor(item, Promote(OneUp(item.tier)), policyId);
      SomehowEarned(codec, before, after, Event(id, Some(item.id), EventName(change.action), Lifecycle(change), now))
  {
    var change := ChangeFor(item, Promote(OneUp(item.tier)), policyId);
    hide NamedRules, ReadsIn;
    assert IsEarned(codec, before, after, Event(id, Some(item.id), EventName(change.action), Lifecycle(change), now), r);
  }

  lemma GetEarns(codec: PolicyCodec, db: Tables, id: string, now: Instant)
    requires SchemaOk(db) && PoliciesOk(db.policies)
    ensures StepEarns(codec, db, GetOn(db, id, LoadPolicies(codec, PolicyRows(db)), now))
  {
    var policies := LoadPolicies(codec, PolicyRows(db));
    GetSucceedsExactlyWhen(db, id, policies, now);
    if GetTxOn(db, id, policies, now).Ok? {
      assert db.items[id].id == id;
      ConsultedRulesAreNamed(codec, db, db.items[id].(lastAccessedAt := Some(now)));
      hide *;
      ReadEarns(codec, db, id, policies.value, now);
      GetOfTx(db, id, policies, now);
    } else {
      hide SchemaOk, GetTxOn, LoadPolicies, PolicyRows, StepEarns;
      SameLogEarns(codec, db, db);
    }
  }

  lemma GetOfTx(db: Tables, id: string, policies: Result<seq<Policy>, Error>, now: Instant)
    requires GetTxOn(db, id, policies, now).Ok?
    ensures GetOn(db, id, policies, now) == GetTxOn(db, id, policies, now).value.0
    ensures id in db.items && db.items[id].deletedAt.None?
  {
    hide TouchOn, CarryOut, PolicyFor, PromotionFor;
  }

  lemma ReadEarns(codec: PolicyCodec, db: Tables, id: string, policies: seq<Policy>, now: Instant)
    requires id in db.items && db.items[id].id == id && GetDecision(db, id, policies, now).Ok? && db.items[id].deletedAt.None?
    requires
      var p := PolicyFor(db.items[id].(lastAccessedAt := Some(now)), policies);
      NamedRules(codec, db.policies, p.id, db.items[id].(lastAccessedAt := Some(now)), p.rules)
    ensures StepEarns(codec, db, AfterGet(db, id, policies, now))
  {
    var item := db.items[id].(lastAccessedAt := Some(now));
    var p := PolicyFor(item, policies);
    var touched := Touched(db, id, now);
    var after := AfterGet(db, id, policies, now);
    TouchingKeepsScopes(codec, db.policies, p.id, db.items[id], p.rules, now);
    AccessesAreCounted(touched.access, id, now - p.rules.promoteAccessWindow);
    hide PolicyFor, AccessesSince, ReadsIn, NamedRules, StepEarns;
    assert GetDecision(db, id, policies, now).value == (if EarnsPromotion(touched.access, item, p.rules, now) then Promote(OneUp(item.tier)) else Keep);
    hide PromotionFor, GetDecision;
    assert EarnsPromotion(touched.access, db.items[id], p.rules, now) <==> EarnsPromotion(touched.access, item, p.rules, now);
    if EarnsPromotion(touched.access, item, p.rules, now) {
      var change := ChangeFor(item, Promote(OneUp(item.tier)), p.id);
      var e := Event(db.lastEventId + 1, Some(id), EventName(change.action), Lifecycle(change), now);
      assert after.events == db.events + [e] && after.access == touched.access;
      hide EarnsPromotion;
      PromotionEventIsEarned(codec, db, after, db.items[id], p.id, p.rules, db.lastEventId + 1, now);
      EarnedEventEarns(codec, db, after, e);
    } else {
      SameLogEarns(codec, db, after);
    }
  }

  lemma EarnedEventEarns(codec: PolicyCodec, before: Tables, after: Tables, e: Event)
    requires after.events == before.events + [e] && SomehowEarned(codec, before, after, e)
    ensures StepEarns(codec, before, after)
  {
    hide SomehowEarned;
  }

  // ----- Runs -----

  lemma {:induction false} EventsComeFromTheBatch(access: seq<Access>, batch: seq<Item>, policies: seq<Policy>, now: Instant, firstId: int, k: nat)
    returns (i: nat)
    requires k < |EventsFor(access, batch, policies, now, firstId)|
    ensures i < |batch|
    ensures
      var d := DecisionFor(access, batch[i], policies, now);
      d.Changes() && var change := ChangeFor(batch[i], d, PolicyFor(batch[i], policies).id);
      EventsFor(access, batch, policies, now, firstId)[k]
      == Event(firstId + k, Some(batch[i].id), EventName(change.action), Lifecycle(change), now)
  {
    hide DecisionFor, PolicyFor, ChangeFor, EventName;
    var n := |batch| - 1;
    var before := EventsFor(access, batch[..n], policies, now, firstId);
    if k < |before| {
      i := EventsComeFromTheBatch(access, batch[..n], policies, now, firstId, k);
    } else {
      i := n;
    }
  }

  lemma BatchEventIsEarned(codec: PolicyCodec, db: Tables, after: Tables, item: Item, policies: seq<Policy>, id: int, now: Instant)
    requires IsLive(db, item) && after.access == db.access
    requires NamedRules(codec, db.policies, PolicyFor(item, policies).id, item, PolicyFor(item, policies).rules)
    requires DecisionFor(db.access, item, policies, now).Changes()
    ensures
      var change := ChangeFor(item, DecisionFor(db.access, item, policies, now), PolicyFor(item, policies).id);
      SomehowEarned(codec, db, after, Event(id, Some(item.id), EventName(change.action), Lifecycle(change), now))
  {
    var p := PolicyFor(item, policies);
    var d := DecisionFor(db.access, item, policies, now);
    DecisionIsExact(db.access, item, policies, now);
    TargetsAreNeighbours(db.access, item, policies, now);
    var change := ChangeFor(item, d, p.id);
    hide NamedRules, PolicyFor, DecisionFor, Decide, EarnsPromotion, Overdue, LongArchived, Guarded;
    assert IsEarned(codec, db, after, Event(id, Some(item.id), EventName(change.action), Lifecycle(change), now), p.rules);
  }

  lemma RunEarns(cfg: Config, db: Tables, limit: nat, batch: seq<Item>, now: Instant)
    requires SchemaOk(db) && Named(db.items) && PoliciesOk(db.policies) && IsBatch(db, limit, batch)
    ensures StepEarns(cfg.codec, db, OrElse(LifecycleOn(cfg, db, batch, now), db))
  {
    if LifecycleOn(cfg, db, batch, now).Ok? {
      RunLogs(cfg, db, limit, batch, now);
      hide LifecycleOn, StepEarns, SchemaOk, IsBatch, EventsFor;
      RunEventsAreEarned(cfg, db, LifecycleOn(cfg, db, batch, now).value, batch, StoredPolicies(cfg, db).value, now);
    } else {
      hide StepEarns, SchemaOk, LifecycleOn;
      SameLogEarns(cfg.codec, db, db);
    }
  }

  lemma RunLogs(cfg: Config, db: Tables, limit: nat, batch: seq<Item>, now: Instant)
    requires SchemaOk(db) && Named(db.items) && PoliciesOk(db.policies) && IsBatch(db, limit, batch)
    requires LifecycleOn(cfg, db, batch, now).Ok?
    ensures Snapshot(db, batch) && StoredPolicies(cfg, db).Ok?
    ensures
      var after := LifecycleOn(cfg, db, batch, now).value;
      && after.events == db.events + EventsFor(db.access, batch, StoredPolicies(cfg, db).value, now, db.lastEventId + 1)
      && after.access == db.access
  {
    hide SchemaOk, RunOn, EventsFor, ItemsStepped, StoredPolicies;
    assert Snapshot(db, batch);
    RunIsPointwise(db, batch, StoredPolicies(cfg, db).value, now);
  }

  lemma RunEventsAreEarned(cfg: Config, db: Tables, after: Tables, batch: seq<Item>, policies: seq<Policy>, now: Instant)
    requires PoliciesOk(db.policies) && StoredPolicies(cfg, db) == Ok(policies) && Snapshot(db, batch) && after.access == db.access
    requires after.events == db.events + EventsFor(db.access, batch, policies, now, db.lastEventId + 1)
    ensures StepEarns(cfg.codec, db, after)
  {
    hide EventsFor, SomehowEarned, StoredPolicies, Snapshot;
    forall k | |db.events| <= k < |after.events|
      ensures SomehowEarned(cfg.codec, db, after, after.events[k])
    {
      RunEventIsEarned(cfg, db, after, batch, policies, now, k - |db.events|);
    }
  }

  lemma RunEventIsEarned(cfg: Config, db: Tables, after: Tables, batch: seq<Item>, policies: seq<Policy>, now: Instant, k: nat)
    requires PoliciesOk(db.policies) && StoredPolicies(cfg, db) == Ok(policies) && Snapshot(db, batch) && after.access == db.access
    requires k < |EventsFor(db.access, batch, policies, now, db.lastEventId + 1)|
    ensures SomehowEarned(cfg.codec, db, after, EventsFor(db.access, batch, policies, now, db.lastEventId + 1)[k])
  {
    var i := EventsComeFromTheBatch(db.access, batch, policies, now, db.lastEventId + 1, k);
    assert IsLive(db, batch[i]);
    ConsultedRulesAreNamed(cfg.codec, db, batch[i]);
    hide EventsFor, SomehowEarned, NamedRules, PolicyFor, DecisionFor, ChangeFor, EventName, LoadPolicies, PolicyRows;
    BatchEventIsEarned(cfg.codec, db, after, batch[i], policies, db.lastEventId + 1 + k, now);
  }

  // ----- Every history -----

  lemma EveryStepEarns(cfg: Config, db: Tables, op: Op)
    requires Sound(cfg, db) && cfg.texts.Lawful() && Possible(db, op)
    ensures ChunksOk(db.items.Keys, db.chunks) && PoliciesOk(db.policies) && StepEarns(cfg.codec, db, Apply(cfg, db, op))
  {
    SoundHasSchema(cfg, db);
    SameLogEarns(cfg.codec, db, db);
    hide Sound, SchemaOk, Apply, Possible, Texts.Lawful, PoliciesOk, ChunksOk, Named, StepEarns;
    if op.SaveOp? || op.UpdateOp? {
      WriteStepEarns(cfg, db, op);
    } else if op.BackfillOp? || op.LifecycleOp? {
      BatchStepEarns(cfg, db, op);
    } else {
      ShortStepEarns(cfg, db, op);
    }
  }

  lemma WriteStepEarns(cfg: Config, db: Tables, op: Op)
    requires Sound(cfg, db) && SchemaOk(db) && cfg.texts.Lawful()
    requires ChunksOk(db.items.Keys, db.chunks) && PoliciesOk(db.policies) && (op.SaveOp? || op.UpdateOp?)
    ensures StepEarns(cfg.codec, db, Apply(cfg, db, op))
  {
    hide Sound, SchemaOk, SaveOn, UpdateOn, Texts.Lawful, PoliciesOk, ChunksOk, StepEarns;
    match op
    case SaveOp(input, itemId, chunkId, env, now) => SaveEarns(cfg, db, input, itemId, chunkId, env, now);
    case UpdateOp(input, chunkId, env, now) => UpdateEarns(cfg, db, input, chunkId, env, now);
  }

  lemma BatchStepEarns(cfg: Config, db: Tables, op: Op)
    requires Sound(cfg, db) && SchemaOk(db) && Named(db.items) && cfg.texts.Lawful() && Possible(db, op) && StepEarns(cfg.codec, db, db)
    requires ChunksOk(db.items.Keys, db.chunks) && PoliciesOk(db.policies) && (op.BackfillOp? || op.LifecycleOp?)
    ensures StepEarns(cfg.codec, db, Apply(cfg, db, op))
  {
    hide Sound, SchemaOk, BackfillOn, LifecycleOn, Texts.Lawful, Candidates, PoliciesOk, ChunksOk, IsBatch, Named, StepEarns, OrElse, ValidTarget;
    match op
    case BackfillOp(limit, force, envs, clock) => BackfillEarns(cfg, db, force, NormalizeBackfillLimit(limit), envs, clock);
    case LifecycleOp(limit, batch, cancelled, now) => RunEarns(cfg, db, NormalizeLifecycleLimit(limit), batch, now);
  }

  lemma ShortStepEarns(cfg: Config, db: Tables, op: Op)
    requires SchemaOk(db) && StepEarns(cfg.codec, db, db)
    requires ChunksOk(db.items.Keys, db.chunks) && PoliciesOk(db.policies) && (op.GetOp? || op.PinOp? || op.DeleteOp? || op.PolicyOp?)
    ensures StepEarns(cfg.codec, db, Apply(cfg, db, op))
  {
    hide SchemaOk, GetOn, MarkOn, CreatePolicyOn, PoliciesOk, ChunksOk, StepEarns, OrElse, LoadPolicies, PolicyRows;
    match op
    case GetOp(id, now) => GetEarns(cfg.codec, db, id, now);
    case PinOp(id, pinned, now) => MarkEarns(cfg.codec, db, id, Pinning(pinned, now), "pinned", PinnedTo(pinned), now);
    case DeleteOp(id, confirm, now) => MarkEarns(cfg.codec, db, id, Deletion(now), "deleted", SoftDelete, now);
    case PolicyOp(row) => PolicyEarns(cfg.codec, db, row);
  }

  /** Call `j` of the history logged event `k`, and it was due then. */
  ghost predicate EarnedInCall(cfg: Config, states: seq<Tables>, k: nat, j: nat) {
    && j + 1 < |states| && |states[j].events| <= k < |states[j + 1].events|
    && SomehowEarned(cfg.codec, states[j], states[j + 1], states[j + 1].events[k])
  }

  /** Event `k` of the last log was logged, as it stands there, by a call in which it was due. */
  ghost predicate EarnedOnTheWay(cfg: Config, states: seq<Tables>, k: nat)
    requires states != [] && k < |states[|states| - 1].events|
  {
    exists j :: EarnedInCall(cfg, states, k, j) && states[j + 1].events[k] == states[|states| - 1].events[k]
  }

  /** Over every history, events once logged stay as they are, and each lifecycle event logged on the
      way was due in the call that logged it: a promotion had the reads, a demotion or archiving the
      idle time, a deletion the time in the archive, that the policy it names asks for in the tier the
      memory was in, the policy was enabled or is the built-in one, and did not exclude the memory,
      and the memory was live and, promotions aside, not guarded. */
  lemma {:induction false} EveryMoveIsEarned(cfg: Config, ops: seq<Op>, states: seq<Tables>)
    requires IsHistory(cfg, ops, states) && cfg.texts.Lawful() && Sound(cfg, states[0])
    ensures
      var (first, last) := (states[0].events, states[|ops|].events);
      && |first| <= |last| && last[..|first|] == first
      && forall k :: |first| <= k < |last| && last[k].payload.Lifecycle? ==> EarnedOnTheWay(cfg, states, k)
  {
    if ops != [] {
      var n := |ops| - 1;
      HistoryPrefix(cfg, ops, states);
      IndexesAgreeOverEveryHistory(cfg, ops, states);
      assert Sound(cfg, states[n]);
      SoundHasSchema(cfg, states[n]);
      FollowsApplies(cfg, states[n], ops[n], states[n + 1]);
      hide *;
      EveryMoveIsEarned(cfg, ops[..n], states[..n + 1]);
      EveryStepEarns(cfg, states[n], ops[n]);
      OneMoreCall(cfg, states, n);
    }
  }

  lemma FollowsApplies(cfg: Config, db: Tables, op: Op, after: Tables)
    requires SchemaOk(db) && Follows(cfg, db, op, after) && ChunksOk(db.items.Keys, db.chunks) && PoliciesOk(db.policies)
    ensures Possible(db, op) && after == Apply(cfg, db, op)
  {
    hide SchemaOk, Apply, Possible;
  }

  lemma OneMoreCall(cfg: Config, states: seq<Tables>, n: nat)
    requires |states| == n + 2 && StepEarns(cfg.codec, states[n], states[n + 1])
    requires
      var (first, last) := (states[0].events, states[n].events);
      && |first| <= |last| && last[..|first|] == first
      && forall k :: |first| <= k < |last| && last[k].payload.Lifecycle? ==> EarnedOnTheWay(cfg, states[..n + 1], k)
    ensures
      var (first, last) := (states[0].events, states[n + 1].events);
      && |first| <= |last| && last[..|first|] == first
      && forall k :: |first| <= k < |last| && last[k].payload.Lifecycle? ==> EarnedOnTheWay(cfg, states, k)
  {
    hide SomehowEarned;
    var (first, mid, last) := (states[0].events, states[n].events, states[n + 1].events);
    forall k | |first| <= k < |last| && last[k].payload.Lifecycle?
      ensures EarnedOnTheWay(cfg, states, k)
    {
      if k < |mid| {
        assert mid[k] == last[..|mid|][k] == last[k];
        var j: nat :| EarnedInCall(cfg, states[..n + 1], k, j) && states[..n + 1][j + 1].events[k] == mid[k];
        assert EarnedInCall(cfg, states, k, j) && states[j + 1].events[k] == last[k];
      } else {
        assert EarnedInCall(cfg, states, k, n);
      }
    }
  }
}
