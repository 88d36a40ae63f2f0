/** What the event log says, over every history: deleted rows never change again, lifecycle events
    chain from tier to tier, and the lifecycle deletes only what it archived long enough before. */
module Traces {
  import opened Prelude
  import opened Schema
  import opened Keywords
  import opened Ordering
  import opened Repository
  import opened Lifecycle
  import opened LifecycleLaws
  import opened Service
  import opened Words
  import opened Writes
  import opened Index
  import opened IndexUpdate
  import opened ServiceLaws
  import opened Backfill
  import opened History

  // ----- Reading the log -----

  /** A lifecycle change of memory `id`. */
  predicate Moves(e: Event, id: string) { e.payload.Lifecycle? && e.memoryId == Some(id) }

  /** The last change of tier of a memory, by the log. */
  function LastMove(events: seq<Event>, id: string): Option<Event> {
    if events == [] then None
    else
      var e := events[|events| - 1];
      if Moves(e, id) && e.payload.change.action != Deleted then Some(e) else LastMove(events[..|events| - 1], id)
  }

  /** A memory is only in the archive with a time if the last change of its tier put it there then. */
  predicate ArchivedByLog(events: seq<Event>, item: Item) {
    item.archivedAt.Some? ==>
      && item.tier == Archive
      && var last := LastMove(events, item.id);
      && last.Some? && last.value.payload.Lifecycle? && last.value.payload.change.action == Archived
      && last.value.createdAt == item.archivedAt.value
  }

  /** The delete threshold a stored policy sets. */
  function DeleteThreshold(codec: PolicyCodec, row: PolicyRow): Option<int> {
    match ParsePolicy(codec, row)
    case Ok(p) => if p.rules.deleteArchivedAfter > 0 then Some(p.rules.deleteArchivedAfter) else None
    case Err(_) => None
  }

  predicate IsDeletion(e: Event) { e.payload.Lifecycle? && e.payload.change.action == Deleted && e.memoryId.Some? }

  /** A deletion follows the memory's own archiving, with no promotion in between, by at least the
      threshold that the policy named in the event sets; that policy is enabled. */
  predicate Justified(codec: PolicyCodec, policies: map<string, PolicyRow>, earlier: seq<Event>, e: Event)
    requires IsDeletion(e)
  {
    var last := LastMove(earlier, e.memoryId.value);
    var policyId := e.payload.change.policyId;
    && last.Some? && last.value.payload.Lifecycle? && last.value.payload.change.action == Archived
    && policyId in policies && policies[policyId].enabled
    && DeleteThreshold(codec, policies[policyId]).Some?
    && last.value.createdAt + DeleteThreshold(codec, policies[policyId]).value <= e.createdAt
  }

  ghost predicate DeletionsJustified(codec: PolicyCodec, policies: map<string, PolicyRow>, events: seq<Event>) {
    forall k :: 0 <= k < |events| && IsDeletion(events[k]) ==> Justified(codec, policies, events[..k], events[k])
  }

  predicate OneTierApart(change: Change) {
    match change.action
    case Promoted => change.to.Some? && Rank(change.to.value) == Rank(change.from) + 1
    case Demoted => change.to.Some? && Rank(change.to.value) == Rank(change.from) - 1
    case Archived => change.to == Some(Archive) && change.from == Cold
    case Deleted => change.to.None? && change.from == Archive
  }

  /** Read backwards from `tier`, the memory's changes fit together, each one tier apart. */
  predicate Chained(events: seq<Event>, id: string, tier: Tier) {
    events == []
    || var e := events[|events| - 1];
       var earlier := events[..|events| - 1];
       if !Moves(e, id) then Chained(earlier, id, tier)
       else
         var change := e.payload.change;
         && OneTierApart(change)
         && (if change.to.Some? then change.to.value else change.from) == tier
         && Chained(earlier, id, change.from)
  }

  ghost predicate Traced(codec: PolicyCodec, db: Tables) {
    && (forall id :: id in db.items ==> db.items[id].id == id && ArchivedByLog(db.events, db.items[id]))
    && (forall id :: id in db.items ==> Chained(db.events, id, db.items[id].tier))
    && (forall i, id :: 0 <= i < |db.events| && db.events[i].memoryId == Some(id) ==> id in db.items)
    && DeletionsJustified(codec, db.policies, db.events)
  }

  // ----- Events that are not lifecycle changes -----

  lemma QuietEvent(events: seq<Event>, e: Event, id: string, tier: Tier)
    requires !Moves(e, id)
    ensures LastMove(events + [e], id) == LastMove(events, id)
    ensures Chained(events + [e], id, tier) <==> Chained(events, id, tier)
  {
    assert (events + [e])[..|events|] == events;
  }

  lemma NoDeletionAdded(codec: PolicyCodec, policies: map<string, PolicyRow>, events: seq<Event>, e: Event)
    requires DeletionsJustified(codec, policies, events)
    requires IsDeletion(e) ==> Justified(codec, policies, events, e)
    ensures DeletionsJustified(codec, policies, events + [e])
  {
    hide Justified;
    var all := events + [e];
    forall k | 0 <= k < |all| && IsDeletion(all[k])
      ensures Justified(codec, policies, all[..k], all[k])
    {
      if k < |events| {
        assert all[..k] == events[..k];
      } else {
        assert all[..k] == events;
      }
    }
  }

  lemma {:induction false} UnknownNeverMoved(events: seq<Event>, id: string, tier: Tier)
    requires forall i :: 0 <= i < |events| ==> events[i].memoryId != Some(id)
    ensures Chained(events, id, tier)
  {
    if events != [] {
      UnknownNeverMoved(events[..|events| - 1], id, tier);
    }
  }

  /** An item keeps what the log explains. */
  predicate SameState(before: Item, after: Item) {
    after.id == before.id && after.tier == before.tier && after.archivedAt == before.archivedAt
  }

  ghost predicate QuietItems(before: map<string, Item>, after: map<string, Item>) {
    && (forall id :: id in before ==> id in after && SameState(before[id], after[id]))
    && (forall id :: id in after && id !in before ==> after[id].id == id && after[id].archivedAt.None?)
  }

  lemma QuietItemsStayTraced(codec: PolicyCodec, before: Tables, after: Tables)
    requires Traced(codec, before) && QuietItems(before.items, after.items)
    requires after.events == before.events && after.policies == before.policies
    ensures Traced(codec, after)
  {
    hide DeletionsJustified, LastMove, Chained;
    forall id | id in after.items
      ensures Chained(after.events, id, after.items[id].tier)
    {
      if id !in before.items {
        UnknownNeverMoved(after.events, id, after.items[id].tier);
      }
    }
  }

  lemma QuietEventStaysTraced(codec: PolicyCodec, before: Tables, after: Tables, e: Event)
    requires Traced(codec, before) && after.items == before.items && after.policies == before.policies
    requires after.events == before.events + [e] && !e.payload.Lifecycle?
    requires e.memoryId.Some? ==> e.memoryId.value in before.items
    ensures Traced(codec, after)
  {
    NoDeletionAdded(codec, before.policies, before.events, e);
    hide DeletionsJustified, LastMove, Chained;
    forall id | id in after.items
      ensures ArchivedByLog(after.events, after.items[id]) && Chained(after.events, id, after.items[id].tier)
    {
      QuietEvent(before.events, e, id, after.items[id].tier);
    }
  }

  // ----- One lifecycle change -----

  /** A change the engine may decide on, and the policy it names. */
  predicate Warranted(codec: PolicyCodec, policies: map<string, PolicyRow>, item: Item, d: Decision, policyId: string, now: Instant) {
    match d
    case Promote(to) => PromotionTarget(item.tier) == Some(to)
    case Demote(to) => (item.tier == Working && to == Hot) || (item.tier == Hot && to == Warm) || (item.tier == Warm && to == Cold)
    case ToArchive => item.tier == Cold
    case Delete =>
      && item.tier == Archive && item.archivedAt.Some? && policyId in policies && policies[policyId].enabled
      && DeleteThreshold(codec, policies[policyId]).Some?
      && item.archivedAt.value + DeleteThreshold(codec, policies[policyId]).value <= now
    case _ => true
  }

  function MoveEvent(db: Tables, item: Item, d: Decision, policyId: string, now: Instant): Event
    requires d.Changes()
  {
    var change := ChangeFor(item, d, policyId);
    Event(db.lastEventId + 1, Some(item.id), EventName(change.action), Lifecycle(change), now)
  }

  lemma OwnMoveIsLogged(codec: PolicyCodec, db: Tables, item: Item, d: Decision, policyId: string, now: Instant)
    requires d.Changes() && Warranted(codec, db.policies, item, d, policyId, now)
    requires ArchivedByLog(db.events, item) && Chained(db.events, item.id, item.tier)
    ensures
      var e := MoveEvent(db, item, d, policyId, now);
      var after := After(item, d, now);
      && after.id == item.id
      && ArchivedByLog(db.events + [e], after) && Chained(db.events + [e], item.id, after.tier)
      && (IsDeletion(e) ==> Justified(codec, db.policies, db.events, e))
  {
    var e := MoveEvent(db, item, d, policyId, now);
    assert (db.events + [e])[..|db.events|] == db.events;
  }

  lemma MoveStaysTraced(codec: PolicyCodec, db: Tables, item: Item, d: Decision, policyId: string, now: Instant)
    requires Traced(codec, db) && item.id in db.items && db.items[item.id] == item
    requires Warranted(codec, db.policies, item, d, policyId, now)
    ensures Traced(codec, OneMore(db, item, d, policyId, now))
  {
    if d.Changes() {
      var e := MoveEvent(db, item, d, policyId, now);
      var after := OneMore(db, item, d, policyId, now);
      assert after.events == db.events + [e];
      OwnMoveIsLogged(codec, db, item, d, policyId, now);
      NoDeletionAdded(codec, db.policies, db.events, e);
      hide DeletionsJustified, LastMove, Chained, After, ArchivedByLog, Justified, Warranted, ChangeFor;
      forall id | id in after.items
        ensures after.items[id].id == id && ArchivedByLog(after.events, after.items[id]) && Chained(after.events, id, after.items[id].tier)
      {
        if id != item.id {
          OthersNotMoved(db.events, e, db.items[id], id);
        }
      }
    }
  }

  lemma OthersNotMoved(events: seq<Event>, e: Event, item: Item, id: string)
    requires !Moves(e, id) && item.id == id && ArchivedByLog(events, item) && Chained(events, id, item.tier)
    ensures ArchivedByLog(events + [e], item) && Chained(events + [e], id, item.tier)
  {
    QuietEvent(events, e, id, item.tier);
  }

  // ----- The calls -----

  lemma TraceReadsThreeTables(codec: PolicyCodec, a: Tables, b: Tables)
    requires Traced(codec, a) && b.items == a.items && b.events == a.events && b.policies == a.policies
    ensures Traced(codec, b)
  {
    hide DeletionsJustified, LastMove, Chained, ArchivedByLog;
  }

  /** Items that keep their state, then one event that is no lifecycle change. */
  lemma QuietCallStaysTraced(codec: PolicyCodec, before: Tables, after: Tables, e: Event)
    requires Traced(codec, before) && QuietItems(before.items, after.items) && after.policies == before.policies
    requires after.events == before.events + [e] && !e.payload.Lifecycle?
    requires e.memoryId.Some? ==> e.memoryId.value in after.items
    ensures Traced(codec, after)
  {
    hide Traced, QuietItems;
    var mid := before.(items := after.items);
    QuietItemsStayTraced(codec, before, mid);
    QuietEventStaysTraced(codec, mid, after, e);
  }

  lemma SavedStaysTraced(cfg: Config, before: Tables, item: Item, chunkId: string, words: seq<string>, after: Tables)
    requires Traced(cfg.codec, before) && Saved(cfg, before, item, chunkId, words, after)
    requires item.id !in before.items && item.archivedAt.None?
    ensures Traced(cfg.codec, after)
  {
    hide Traced, WordsOf, RowsAre, OthersKeepRows, NextRowid;
    QuietCallStaysTraced(cfg.codec, before, after, Event(before.lastEventId + 1, Some(item.id), "created", NoDetail, item.createdAt));
  }

  lemma SaveStaysTraced(cfg: Config, db: Tables, input: SaveInput, itemId: string, chunkId: string, env: IndexEnv, now: Instant)
    requires Traced(cfg.codec, db) && SchemaOk(db) && cfg.texts.Lawful()
    ensures Traced(cfg.codec, SaveOn(cfg, db, input, itemId, chunkId, env, now).0)
  {
    hide Traced, SchemaOk, SaveTxOn, SaveRequest, IndexOn, Texts.Lawful, Clean, Document;
    var request := SaveRequest(cfg, input, itemId, now);
    if request.Ok? {
      var (item, words) := request.value;
      SaveRequestIsClean(cfg, input, itemId, now);
      SavedItemIsActive(cfg, input, itemId, now);
      SaveSucceedsExactlyWhen(cfg, db, item, chunkId, words);
      var saved := SaveTxOn(cfg, db, item, chunkId, words);
      if saved.Ok? {
        hide Saved;
        SavedStaysTraced(cfg, db, item, chunkId, words, saved.value);
        IndexOnWrites(cfg, saved.value, item.title, words, chunkId, item.id, env, now);
        TraceReadsThreeTables(cfg.codec, saved.value, IndexOn(cfg, saved.value, item.title, words, chunkId, item.id, env, now).0);
      }
    }
  }

  lemma SavedItemIsActive(cfg: Config, input: SaveInput, itemId: string, now: Instant)
    requires SaveRequest(cfg, input, itemId, now).Ok?
    ensures SaveRequest(cfg, input, itemId, now).value.0.archivedAt.None?
  {
  }

  lemma RewrittenStaysTraced(cfg: Config, db: Tables, input: UpdateInput, chunkId: string, now: Instant, u: Updated)
    requires Traced(cfg.codec, db) && input.tier.None?
    requires Admissible(cfg, db, input, chunkId, now) && Rewritten(cfg, db, input, chunkId, now, u)
    ensures Traced(cfg.codec, u.db)
  {
    var chunk := Chunk(chunkId, input.id, 0, Or(input.body, ""), now);
    BodyTouchesTextOnly(db, input.id, chunk);
    hide Traced, WordsReplaced, BodyReplaced, UpdateWords, WordsOf, Document, ValidUpdate, ChunkIdFree;
    assert SameState(db.items[input.id], u.db.items[input.id]);
    QuietCallStaysTraced(cfg.codec, db, u.db, Event(db.lastEventId + 1, Some(input.id), "updated", NoDetail, now));
  }

  lemma UpdateStaysTraced(cfg: Config, db: Tables, input: UpdateInput, chunkId: string, env: IndexEnv, now: Instant)
    requires Traced(cfg.codec, db) && Sound(cfg, db) && cfg.texts.Lawful() && input.tier.None?
    requires ChunksOk(db.items.Keys, db.chunks)
    ensures Traced(cfg.codec, UpdateOn(cfg, db, input, chunkId, env, now).0)
  {
    if UpdateTxOn(cfg, db, input, chunkId, now).Ok? {
      hide *;
      UpdateUnfolds(cfg, db, input, chunkId, env, now);
      var u := UpdateTxOn(cfg, db, input, chunkId, now).value;
      RewrittenStaysTraced(cfg, db, input, chunkId, now, u);
      var c := FinalChunk(db, input, chunkId).value;
      var (title, words) := (Title(u.db, input.id), WordsOf(u.db.keywords, input.id));
      IndexStaysTraced(cfg, u.db, title, words, c, input.id, env, now);
    } else {
      hide UpdateTxOn, Traced;
    }
  }

  lemma IndexStaysTraced(cfg: Config, db: Tables, title: string, words: seq<string>, c: string, memoryId: string, env: IndexEnv, now: Instant)
    requires Traced(cfg.codec, db)
    ensures Traced(cfg.codec, IndexOn(cfg, db, title, words, c, memoryId, env, now).0)
  {
    hide IndexOn, Traced;
    IndexOnWrites(cfg, db, title, words, c, memoryId, env, now);
    TraceReadsThreeTables(cfg.codec, db, IndexOn(cfg, db, title, words, c, memoryId, env, now).0);
  }

  lemma MarkStaysTraced(codec: PolicyCodec, db: Tables, id: string, u: MemoryUpdate, eventType: string, payload: Payload, now: Instant)
    requires Traced(codec, db) && SchemaOk(db) && eventType != "" && u.updatedAt == now
    requires u.tier.None? && u.archivedAt.None? && !u.clearArchivedAt && !payload.Lifecycle?
    ensures Traced(codec, OrElse(MarkOn(db, id, u, eventType, payload, now), db))
  {
    hide Traced, MarkOn, SchemaOk;
    MarkSucceedsExactlyWhen(db, id, u, eventType, payload, now);
    if MarkOn(db, id, u, eventType, payload, now).Ok? {
      QuietCallStaysTraced(codec, db, Marked(db, id, u, eventType, payload, now), Event(db.lastEventId + 1, Some(id), eventType, payload, now));
    }
  }

  lemma GetStaysTraced(codec: PolicyCodec, db: Tables, id: string, policies: Result<seq<Policy>, Error>, now: Instant)
    requires Traced(codec, db) && SchemaOk(db)
    ensures Traced(codec, GetOn(db, id, policies, now))
  {
    if GetTxOn(db, id, policies, now).Ok? {
      GetSucceedsExactlyWhen(db, id, policies, now);
      ReadingStaysTraced(codec, db, id, policies.value, now);
    }
  }

  lemma ReadingStaysTraced(codec: PolicyCodec, db: Tables, id: string, policies: seq<Policy>, now: Instant)
    requires Traced(codec, db) && id in db.items && GetDecision(db, id, policies, now).Ok?
    ensures Traced(codec, AfterGet(db, id, policies, now))
  {
    var touched := Touched(db, id, now);
    assert Traced(codec, touched) by {
      hide Traced;
      QuietItemsStayTraced(codec, db, touched);
    }
    assert db.items[id].id == id;
    var d := GetDecision(db, id, policies, now).value;
    var policyId := PolicyFor(db.items[id].(lastAccessedAt := Some(now)), policies).id;
    hide Traced, PolicyFor;
    assert Warranted(codec, touched.policies, touched.items[id], d, policyId, now);
    hide GetDecision;
    MoveStaysTraced(codec, touched, touched.items[id], d, policyId, now);
  }

  // ----- Lifecycle runs -----

  lemma ConsultedPolicyIsStored(codec: PolicyCodec, db: Tables, item: Item)
    requires PoliciesOk(db.policies) && LoadPolicies(codec, PolicyRows(db)).Ok?
    ensures
      var p := PolicyFor(item, LoadPolicies(codec, PolicyRows(db)).value);
      p.rules.deleteArchivedAfter > 0 ==>
        p.id in db.policies && db.policies[p.id].enabled
        && DeleteThreshold(codec, db.policies[p.id]) == Some(p.rules.deleteArchivedAfter)
  {
    var rows := PolicyRows(db);
    var policies := LoadPolicies(codec, rows).value;
    PolicyForIsFirstMatch(item, policies);
    var p := PolicyFor(item, policies);
    CreationOrdersPolicies(db.policies, EnabledPolicies(db.policies));
    hide PolicyFor, Matches, LoadPolicies;
    if p.rules.deleteArchivedAfter > 0 {
      var i :| 0 <= i < |policies| && p == policies[i];
      LoadedPoliciesAreParsed(codec, rows, i);
      assert rows[i] in rows && rows[i] in EnabledPolicies(db.policies);
    }
  }

  lemma DecisionsAreWarranted(codec: PolicyCodec, db: Tables, access: seq<Access>, item: Item, now: Instant)
    requires PoliciesOk(db.policies) && LoadPolicies(codec, PolicyRows(db)).Ok?
    ensures
      var policies := LoadPolicies(codec, PolicyRows(db)).value;
      Warranted(codec, db.policies, item, DecisionFor(access, item, policies, now), PolicyFor(item, policies).id, now)
  {
    ConsultedPolicyIsStored(codec, db, item);
    hide PolicyFor, LoadPolicies, PolicyRows, DeleteThreshold;
  }

  lemma {:induction false} RunStaysTraced(codec: PolicyCodec, db: Tables, batch: seq<Item>, now: Instant)
    requires Traced(codec, db) && SchemaOk(db) && Named(db.items) && Snapshot(db, batch) && PoliciesOk(db.policies)
    requires LoadPolicies(codec, PolicyRows(db)).Ok?
    requires RunOn(db, batch, LoadPolicies(codec, PolicyRows(db)).value, now).Ok?
    ensures
      var after := RunOn(db, batch, LoadPolicies(codec, PolicyRows(db)).value, now).value.0;
      Traced(codec, after) && after.policies == db.policies
  {
    if batch != [] {
      var policies := LoadPolicies(codec, PolicyRows(db)).value;
      var n := |batch| - 1;
      LastRunStep(db, batch, policies, now);
      ShorterSnapshot(db, batch);
      hide *;
      RunStaysTraced(codec, db, batch[..n], now);
      RunIsPointwise(db, batch[..n], policies, now);
      var mid := RunOn(db, batch[..n], policies, now).value.0;
      StillStored(db, batch, policies, now, mid);
      OneMoreIsCarriedOut(codec, db, mid, batch[n], RunOn(db, batch, policies, now).value.0, now);
    }
  }

  lemma OneMoreIsCarriedOut(codec: PolicyCodec, db: Tables, mid: Tables, item: Item, after: Tables, now: Instant)
    requires Traced(codec, mid) && IsStored(mid, item) && mid.policies == db.policies
    requires PoliciesOk(db.policies) && LoadPolicies(codec, PolicyRows(db)).Ok?
    requires
      var policies := LoadPolicies(codec, PolicyRows(db)).value;
      CarryOut(mid, item, DecisionFor(mid.access, item, policies, now), PolicyFor(item, policies).id, now) == Ok(after)
    ensures Traced(codec, after) && after.policies == db.policies
  {
    var policies := LoadPolicies(codec, PolicyRows(db)).value;
    var d := DecisionFor(mid.access, item, policies, now);
    var policyId := PolicyFor(item, policies).id;
    CarriedIsOneMore(mid, item, d, policyId, now);
    StoredById(mid, item);
    hide *;
    DecisionsAreWarranted(codec, db, mid.access, item, now);
    MoveStaysTraced(codec, mid, item, d, policyId, now);
  }

  lemma PolicyStaysTraced(codec: PolicyCodec, db: Tables, row: PolicyRow)
    requires Traced(codec, db) && CreatePolicyOn(db, row).Ok?
    ensures Traced(codec, CreatePolicyOn(db, row).value)
  {
    var after := CreatePolicyOn(db, row).value;
    hide LastMove, Chained, ArchivedByLog, DeleteThreshold;
    forall k | 0 <= k < |after.events| && IsDeletion(after.events[k])
      ensures Justified(codec, after.policies, after.events[..k], after.events[k])
    {
      assert Justified(codec, db.policies, db.events[..k], db.events[k]);
    }
  }

  // ----- Every history -----

  predicate KeepsTiers(op: Op) { op.UpdateOp? ==> op.changed.tier.None? }

  lemma StepStaysTraced(cfg: Config, db: Tables, op: Op)
    requires Sound(cfg, db) && Traced(cfg.codec, db) && cfg.texts.Lawful() && Possible(db, op) && KeepsTiers(op)
    ensures ChunksOk(db.items.Keys, db.chunks) && PoliciesOk(db.policies) && Traced(cfg.codec, Apply(cfg, db, op))
  {
    SoundHasSchema(cfg, db);
    hide Sound, Traced, SchemaOk, Apply, Possible, KeepsTiers, Texts.Lawful, PoliciesOk, ChunksOk, Named;
    if op.SaveOp? || op.UpdateOp? {
      WriteStaysTraced(cfg, db, op);
    } else if op.BackfillOp? || op.LifecycleOp? {
      BatchStaysTraced(cfg, db, op);
    } else {
      ShortStepStaysTraced(cfg, db, op);
    }
  }

  lemma WriteStaysTraced(cfg: Config, db: Tables, op: Op)
    requires Sound(cfg, db) && Traced(cfg.codec, db) && SchemaOk(db) && cfg.texts.Lawful() && KeepsTiers(op)
    requires ChunksOk(db.items.Keys, db.chunks) && PoliciesOk(db.policies) && (op.SaveOp? || op.UpdateOp?)
    ensures Traced(cfg.codec, Apply(cfg, db, op))
  {
    hide Sound, Traced, SchemaOk, SaveOn, UpdateOn, Texts.Lawful, PoliciesOk, ChunksOk;
    match op
    case SaveOp(input, itemId, chunkId, env, now) => SaveStaysTraced(cfg, db, input, itemId, chunkId, env, now);
    case UpdateOp(input, chunkId, env, now) => UpdateStaysTraced(cfg, db, input, chunkId, env, now);
  }

  lemma BatchStaysTraced(cfg: Config, db: Tables, op: Op)
    requires Sound(cfg, db) && Traced(cfg.codec, db) && SchemaOk(db) && Named(db.items) && cfg.texts.Lawful() && Possible(db, op)
    requires ChunksOk(db.items.Keys, db.chunks) && PoliciesOk(db.policies) && (op.BackfillOp? || op.LifecycleOp?)
    ensures Traced(cfg.codec, Apply(cfg, db, op))
  {
    hide Sound, Traced, SchemaOk, BackfillOn, Texts.Lawful, RunOn, LoadPolicies, PolicyRows, Candidates, PoliciesOk, ChunksOk;
    match op
    case BackfillOp(limit, force, envs, clock) =>
      var list := Candidates(db, force, NormalizeBackfillLimit(limit));
      CandidatesAreChunks(db, force, NormalizeBackfillLimit(limit));
      BackfillKeepsIndexes(cfg, db, list, envs, clock);
      TraceReadsThreeTables(cfg.codec, db, BackfillOn(cfg, db, list, envs, clock).0);
    case LifecycleOp(limit, batch, cancelled, now) =>
      if LifecycleOn(cfg, db, batch, now).Ok? {
        RunStaysTraced(cfg.codec, db, batch, now);
      }
  }

  lemma ShortStepStaysTraced(cfg: Config, db: Tables, op: Op)
    requires Traced(cfg.codec, db) && SchemaOk(db)
    requires ChunksOk(db.items.Keys, db.chunks) && PoliciesOk(db.policies) && (op.GetOp? || op.PinOp? || op.DeleteOp? || op.PolicyOp?)
    ensures Traced(cfg.codec, Apply(cfg, db, op))
  {
    hide Traced, SchemaOk, GetOn, MarkOn, CreatePolicyOn, StoredPolicies, PoliciesOk, ChunksOk;
    match op
    case GetOp(id, now) => GetStaysTraced(cfg.codec, db, id, StoredPolicies(cfg, db), now);
    case PinOp(id, pinned, now) => MarkStaysTraced(cfg.codec, db, id, Pinning(pinned, now), "pinned", PinnedTo(pinned), now);
    case DeleteOp(id, confirm, now) => MarkStaysTraced(cfg.codec, db, id, Deletion(now), "deleted", SoftDelete, now);
    case PolicyOp(row) =>
      if CreatePolicyOn(db, row).Ok? {
        PolicyStaysTraced(cfg.codec, db, row);
      }
  }

  lemma EmptyIsTraced(codec: PolicyCodec)
    ensures Traced(codec, EMPTY)
  {
  }

  lemma {:induction false} LogExplainsEveryHistory(cfg: Config, ops: seq<Op>, states: seq<Tables>)
    requires IsHistory(cfg, ops, states) && cfg.texts.Lawful()
    requires Sound(cfg, states[0]) && Traced(cfg.codec, states[0])
    requires forall k :: 0 <= k < |ops| ==> KeepsTiers(ops[k])
    ensures forall k :: 0 <= k < |states| ==> Traced(cfg.codec, states[k])
  {
    hide Sound, IndexSound, Apply, Texts.Lawful, Traced, KeepsTiers;
    if ops != [] {
      var n := |ops| - 1;
      HistoryPrefix(cfg, ops, states);
      IndexesAgreeOverEveryHistory(cfg, ops, states);
      assert Sound(cfg, states[n]);
      hide IsHistory;
      assert forall k :: 0 <= k < n ==> ops[..n][k] == ops[k];
      LogExplainsEveryHistory(cfg, ops[..n], states[..n + 1]);
      assert forall k :: 0 <= k <= n ==> states[..n + 1][k] == states[k];
      assert Traced(cfg.codec, states[n]);
      SoundHasSchema(cfg, states[n]);
      hide SchemaOk;
      StepStaysTraced(cfg, states[n], ops[n]);
    }
  }

  // ----- What the log then says -----

  lemma {:induction false} LastMoveIsLast(events: seq<Event>, id: string)
    requires LastMove(events, id).Some?
    ensures exists j :: IsLastMoveAt(events, id, j) && events[j] == LastMove(events, id).value
  {
    var n := |events| - 1;
    if Moves(events[n], id) && events[n].payload.change.action != Deleted {
      assert IsLastMoveAt(events, id, n);
    } else {
      LastMoveIsLast(events[..n], id);
      var j :| IsLastMoveAt(events[..n], id, j) && events[..n][j] == LastMove(events[..n], id).value;
      assert forall i :: 0 <= i < n ==> events[..n][i] == events[i];
      assert IsLastMoveAt(events, id, j);
    }
  }

  predicate ChangesTier(e: Event, id: string) { Moves(e, id) && e.payload.change.action != Deleted }

  predicate IsLastMoveAt(events: seq<Event>, id: string, j: int) {
    && 0 <= j < |events| && ChangesTier(events[j], id)
    && forall i :: j < i < |events| ==> !ChangesTier(events[i], id)
  }

  /** Event `k` deletes a memory that event `j` archived, long enough before, with no change of tier between. */
  predicate ArchivedBefore(codec: PolicyCodec, db: Tables, k: int, j: int)
    requires 0 <= k < |db.events| && IsDeletion(db.events[k])
  {
    var id := db.events[k].memoryId.value;
    var policyId := db.events[k].payload.change.policyId;
    && 0 <= j < k && Moves(db.events[j], id) && db.events[j].payload.change.action == Archived
    && (forall i :: j < i < k ==> !ChangesTier(db.events[i], id))
    && policyId in db.policies && db.policies[policyId].enabled && DeleteThreshold(codec, db.policies[policyId]).Some?
    && db.events[j].createdAt + DeleteThreshold(codec, db.policies[policyId]).value <= db.events[k].createdAt
  }

  /** Over any history without tier-setting updates, every lifecycle deletion follows the memory's
      own archive event by at least the positive threshold of the enabled policy it names, with no
      promotion in between. */
  lemma EveryDeletionFollowsItsArchiving(cfg: Config, ops: seq<Op>, states: seq<Tables>, k: nat)
    requires IsHistory(cfg, ops, states) && cfg.texts.Lawful()
    requires Sound(cfg, states[0]) && Traced(cfg.codec, states[0])
    requires forall k :: 0 <= k < |ops| ==> KeepsTiers(ops[k])
    requires k < |states[|ops|].events| && IsDeletion(states[|ops|].events[k])
    ensures exists j :: ArchivedBefore(cfg.codec, states[|ops|], k, j)
  {
    LogExplainsEveryHistory(cfg, ops, states);
    var db := states[|ops|];
    assert Traced(cfg.codec, db);
    hide *;
    var j := JustifyingEvent(cfg.codec, db, k);
  }

  lemma JustifyingEvent(codec: PolicyCodec, db: Tables, k: nat) returns (j: nat)
    requires Traced(codec, db) && k < |db.events| && IsDeletion(db.events[k])
    ensures ArchivedBefore(codec, db, k, j)
  {
    hide Chained, ArchivedByLog, DeleteThreshold, LastMove;
    var id := db.events[k].memoryId.value;
    assert Justified(codec, db.policies, db.events[..k], db.events[k]);
    LastMoveIsLast(db.events[..k], id);
    j :| IsLastMoveAt(db.events[..k], id, j) && db.events[..k][j] == LastMove(db.events[..k], id).value;
    assert forall i :: 0 <= i < k ==> db.events[..k][i] == db.events[i];
  }

  /** If no enabled policy sets a delete threshold, the lifecycle has never deleted anything. */
  lemma NoThresholdNoDeletion(cfg: Config, ops: seq<Op>, states: seq<Tables>)
    requires IsHistory(cfg, ops, states) && cfg.texts.Lawful()
    requires Sound(cfg, states[0]) && Traced(cfg.codec, states[0])
    requires forall k :: 0 <= k < |ops| ==> KeepsTiers(ops[k])
    requires forall p :: p in states[|ops|].policies && states[|ops|].policies[p].enabled ==>
               DeleteThreshold(cfg.codec, states[|ops|].policies[p]).None?
    ensures forall k :: 0 <= k < |states[|ops|].events| ==> !IsDeletion(states[|ops|].events[k])
  {
    var db := states[|ops|];
    hide IsHistory, Sound, KeepsTiers, DeleteThreshold, LastMove, Chained, Traced;
    forall k | 0 <= k < |db.events|
      ensures !IsDeletion(db.events[k])
    {
      if IsDeletion(db.events[k]) {
        EveryDeletionFollowsItsArchiving(cfg, ops, states, k);
      }
    }
  }

  /** A service that starts on an empty database: its log explains every tier and archive time, and
      every lifecycle deletion was preceded by the memory's own archiving. */
  lemma HistoriesFromEmptyAreExplained(cfg: Config, ops: seq<Op>, states: seq<Tables>)
    requires IsHistory(cfg, ops, states) && states[0] == EMPTY && cfg.texts.Lawful()
    requires forall k :: 0 <= k < |ops| ==> KeepsTiers(ops[k])
    ensures forall k :: 0 <= k < |states| ==> Traced(cfg.codec, states[k])
    ensures
      var db := states[|ops|];
      forall k :: 0 <= k < |db.events| && IsDeletion(db.events[k]) ==> exists j :: ArchivedBefore(cfg.codec, db, k, j)
  {
    EmptyIsSound(cfg);
    EmptyIsTraced(cfg.codec);
    LogExplainsEveryHistory(cfg, ops, states);
    var db := states[|ops|];
    hide IsHistory, Sound, Traced, KeepsTiers, ArchivedBefore, Texts.Lawful, IsDeletion;
    forall k | 0 <= k < |db.events| && IsDeletion(db.events[k])
      ensures exists j :: ArchivedBefore(cfg.codec, db, k, j)
    {
      EveryDeletionFollowsItsArchiving(cfg, ops, states, k);
    }
  }

  /** The tier a change leaves the memory in. */
  function Landing(change: Change): Tier { if change.to.Some? then change.to.value else change.from }

  predicate NextMove(events: seq<Event>, id: string, i: int, j: int) {
    && 0 <= i < j < |events| && Moves(events[i], id) && Moves(events[j], id)
    && forall m :: i < m < j ==> !Moves(events[m], id)
  }

  lemma {:induction false} ChainReachesBack(events: seq<Event>, id: string, tier: Tier, j: nat)
    requires Chained(events, id, tier) && j < |events| && Moves(events[j], id)
    ensures Chained(events[..j], id, events[j].payload.change.from) && OneTierApart(events[j].payload.change)
    ensures (forall m :: j < m < |events| ==> !Moves(events[m], id)) ==> Landing(events[j].payload.change) == tier
  {
    var n := |events| - 1;
    if j < n {
      var e := events[n];
      ChainReachesBack(events[..n], id, if Moves(e, id) then e.payload.change.from else tier, j);
      assert events[..n][..j] == events[..j];
    }
  }

  /** Over any history without tier-setting updates, each lifecycle change of a memory starts from
      the tier the one before left it in, and the last one leaves it in its current tier. */
  lemma LifecycleEventsChain(cfg: Config, ops: seq<Op>, states: seq<Tables>, id: string)
    requires IsHistory(cfg, ops, states) && cfg.texts.Lawful()
    requires Sound(cfg, states[0]) && Traced(cfg.codec, states[0])
    requires forall k :: 0 <= k < |ops| ==> KeepsTiers(ops[k])
    requires id in states[|ops|].items
    ensures
      var events := states[|ops|].events;
      && (forall i, j :: NextMove(events, id, i, j) ==> events[j].payload.change.from == Landing(events[i].payload.change))
      && (forall j :: 0 <= j < |events| && Moves(events[j], id) ==> OneTierApart(events[j].payload.change))
      && (forall j :: 0 <= j < |events| && Moves(events[j], id) && (forall m :: j < m < |events| ==> !Moves(events[m], id)) ==>
            Landing(events[j].payload.change) == states[|ops|].items[id].tier)
  {
    LogExplainsEveryHistory(cfg, ops, states);
    var (events, tier) := (states[|ops|].events, states[|ops|].items[id].tier);
    assert Traced(cfg.codec, states[|ops|]);
    assert Chained(events, id, tier);
    hide IsHistory, Sound, Traced, KeepsTiers, Chained, OneTierApart, Landing;
    forall j | 0 <= j < |events| && Moves(events[j], id)
      ensures OneTierApart(events[j].payload.change)
      ensures (forall m :: j < m < |events| ==> !Moves(events[m], id)) ==> Landing(events[j].payload.change) == tier
      ensures forall i :: NextMove(events, id, i, j) ==> events[j].payload.change.from == Landing(events[i].payload.change)
    {
      ChainReachesBack(events, id, tier, j);
      forall i | NextMove(events, id, i, j)
        ensures events[j].payload.change.from == Landing(events[i].payload.change)
      {
        assert forall m :: 0 <= m < j ==> events[..j][m] == events[m];
        ChainReachesBack(events[..j], id, events[j].payload.change.from, i);
      }
    }
  }

  // ----- Deleted rows -----

  ghost predicate KeepsRow(before: Tables, after: Tables, id: string) {
    id in before.items && id in after.items && after.items[id] == before.items[id]
  }

  lemma RunLeavesDeletedAlone(db: Tables, batch: seq<Item>, policies: seq<Policy>, now: Instant, id: string)
    requires SchemaOk(db) && Named(db.items) && Snapshot(db, batch) && RunOn(db, batch, policies, now).Ok?
    requires id in db.items && db.items[id].deletedAt.Some?
    ensures KeepsRow(db, RunOn(db, batch, policies, now).value.0, id)
  {
    RunIsPointwise(db, batch, policies, now);
    hide RunOn, EventsFor, SchemaOk, Stepped;
    forall i | 0 <= i < |batch|
      ensures batch[i].id != id
    {
      assert IsLive(db, batch[i]);
    }
  }

  lemma SaveLeavesDeletedAlone(cfg: Config, db: Tables, input: SaveInput, itemId: string, chunkId: string, env: IndexEnv, now: Instant, id: string)
    requires SchemaOk(db) && cfg.texts.Lawful() && id in db.items
    ensures KeepsRow(db, SaveOn(cfg, db, input, itemId, chunkId, env, now).0, id)
  {
    hide SchemaOk, SaveTxOn, SaveRequest, IndexOn, Texts.Lawful, Clean, Document, WordsOf, RowsAre, OthersKeepRows, NextRowid;
    var request := SaveRequest(cfg, input, itemId, now);
    if request.Ok? {
      var (item, words) := request.value;
      SaveRequestIsClean(cfg, input, itemId, now);
      SaveSucceedsExactlyWhen(cfg, db, item, chunkId, words);
      var saved := SaveTxOn(cfg, db, item, chunkId, words);
      if saved.Ok? {
        IndexOnWrites(cfg, saved.value, item.title, words, chunkId, item.id, env, now);
      }
    }
  }

  lemma UpdateLeavesDeletedAlone(cfg: Config, db: Tables, input: UpdateInput, chunkId: string, env: IndexEnv, now: Instant, id: string)
    requires Sound(cfg, db) && cfg.texts.Lawful() && id in db.items && db.items[id].deletedAt.Some?
    requires ChunksOk(db.items.Keys, db.chunks)
    ensures KeepsRow(db, UpdateOn(cfg, db, input, chunkId, env, now).0, id)
  {
    if UpdateTxOn(cfg, db, input, chunkId, now).Ok? {
      hide *;
      UpdateUnfolds(cfg, db, input, chunkId, env, now);
      var u := UpdateTxOn(cfg, db, input, chunkId, now).value;
      var c := FinalChunk(db, input, chunkId).value;
      var (title, words) := (Title(u.db, input.id), WordsOf(u.db.keywords, input.id));
      RewritingLeavesDeletedAlone(cfg, db, input, chunkId, now, u, id);
      IndexingLeavesItemsAlone(cfg, db, id, u.db, title, words, c, input.id, env, now);
    } else {
      hide UpdateTxOn, Sound;
    }
  }

  lemma RewritingLeavesDeletedAlone(cfg: Config, db: Tables, input: UpdateInput, chunkId: string, now: Instant, u: Updated, id: string)
    requires Admissible(cfg, db, input, chunkId, now) && Rewritten(cfg, db, input, chunkId, now, u)
    requires id in db.items && db.items[id].deletedAt.Some?
    ensures KeepsRow(db, u.db, id)
  {
    hide WordsOf, Document, UpdateWords, WordsReplaced, BodyReplaced, ValidUpdate, ChunkIdFree, UpdatedItem;
  }

  lemma IndexingLeavesItemsAlone(cfg: Config, before: Tables, id: string, db: Tables, title: string, words: seq<string>, c: string, memoryId: string, env: IndexEnv, now: Instant)
    ensures KeepsRow(before, db, id) ==> KeepsRow(before, IndexOn(cfg, db, title, words, c, memoryId, env, now).0, id)
  {
    hide IndexOn, IndexWritten;
    IndexOnWrites(cfg, db, title, words, c, memoryId, env, now);
  }

  lemma BackfillLeavesItemsAlone(cfg: Config, db: Tables, force: bool, limit: nat, envs: string -> IndexEnv, clock: nat -> Instant, id: string)
    requires Sound(cfg, db) && cfg.texts.Lawful() && ChunksOk(db.items.Keys, db.chunks) && id in db.items
    ensures KeepsRow(db, BackfillOn(cfg, db, Candidates(db, force, limit), envs, clock).0, id)
  {
    hide Sound, Texts.Lawful, BackfillOn, Candidates, ChunksOk;
    CandidatesAreChunks(db, force, limit);
    BackfillKeepsIndexes(cfg, db, Candidates(db, force, limit), envs, clock);
  }

  lemma LifecycleLeavesDeletedAlone(cfg: Config, db: Tables, limit: nat, batch: seq<Item>, now: Instant, id: string)
    requires SchemaOk(db) && Named(db.items) && PoliciesOk(db.policies) && IsBatch(db, limit, batch)
    requires id in db.items && db.items[id].deletedAt.Some?
    ensures KeepsRow(db, OrElse(LifecycleOn(cfg, db, batch, now), db), id)
  {
    hide SchemaOk, RunOn, LoadPolicies, PolicyRows;
    if LifecycleOn(cfg, db, batch, now).Ok? {
      RunLeavesDeletedAlone(db, batch, StoredPolicies(cfg, db).value, now, id);
    }
  }

  lemma StepLeavesDeletedAlone(cfg: Config, db: Tables, op: Op, id: string)
    requires Sound(cfg, db) && cfg.texts.Lawful() && Possible(db, op) && id in db.items && db.items[id].deletedAt.Some?
    ensures ChunksOk(db.items.Keys, db.chunks) && PoliciesOk(db.policies)
    ensures KeepsRow(db, Apply(cfg, db, op), id)
  {
    SoundHasSchema(cfg, db);
    hide *;
    if op.SaveOp? || op.UpdateOp? {
      WriteLeavesDeletedAlone(cfg, db, op, id);
    } else if op.BackfillOp? || op.LifecycleOp? {
      BatchLeavesDeletedAlone(cfg, db, op, id);
    } else {
      ShortStepLeavesDeletedAlone(cfg, db, op, id);
    }
  }

  lemma WriteLeavesDeletedAlone(cfg: Config, db: Tables, op: Op, id: string)
    requires Sound(cfg, db) && cfg.texts.Lawful() && SchemaOk(db) && PoliciesOk(db.policies) && ChunksOk(db.items.Keys, db.chunks)
    requires id in db.items && db.items[id].deletedAt.Some? && (op.SaveOp? || op.UpdateOp?)
    ensures KeepsRow(db, Apply(cfg, db, op), id)
  {
    hide Sound, SchemaOk, SaveOn, UpdateOn, Texts.Lawful, PoliciesOk, ChunksOk, KeepsRow;
    match op
    case SaveOp(input, itemId, chunkId, env, now) => SaveLeavesDeletedAlone(cfg, db, input, itemId, chunkId, env, now, id);
    case UpdateOp(input, chunkId, env, now) => UpdateLeavesDeletedAlone(cfg, db, input, chunkId, env, now, id);
  }

  lemma BatchLeavesDeletedAlone(cfg: Config, db: Tables, op: Op, id: string)
    requires Sound(cfg, db) && cfg.texts.Lawful() && SchemaOk(db) && PoliciesOk(db.policies) && ChunksOk(db.items.Keys, db.chunks)
    requires Named(db.items) && Possible(db, op)
    requires id in db.items && db.items[id].deletedAt.Some? && (op.BackfillOp? || op.LifecycleOp?)
    ensures KeepsRow(db, Apply(cfg, db, op), id)
  {
    hide Sound, SchemaOk, BackfillOn, Texts.Lawful, LifecycleOn, Candidates, PoliciesOk, ChunksOk, StoredPolicies, IsBatch, KeepsRow, OrElse, ValidTarget;
    RowKeptByNothing(db, id);
    match op
    case BackfillOp(limit, force, envs, clock) => BackfillLeavesItemsAlone(cfg, db, force, NormalizeBackfillLimit(limit), envs, clock, id);
    case LifecycleOp(limit, batch, cancelled, now) => LifecycleLeavesDeletedAlone(cfg, db, NormalizeLifecycleLimit(limit), batch, now, id);
  }

  lemma ShortStepLeavesDeletedAlone(cfg: Config, db: Tables, op: Op, id: string)
    requires SchemaOk(db) && PoliciesOk(db.policies) && ChunksOk(db.items.Keys, db.chunks)
    requires id in db.items && db.items[id].deletedAt.Some? && (op.GetOp? || op.PinOp? || op.DeleteOp? || op.PolicyOp?)
    ensures KeepsRow(db, Apply(cfg, db, op), id)
  {
    hide SchemaOk, GetOn, MarkOn, PoliciesOk, ChunksOk, StoredPolicies, KeepsRow, CreatePolicyOn, OrElse;
    match op
    case GetOp(other, now) => GetLeavesDeletedAlone(db, other, StoredPolicies(cfg, db), now, id);
    case PinOp(other, pinned, now) => MarkLeavesDeletedAlone(db, other, Pinning(pinned, now), "pinned", PinnedTo(pinned), now, id);
    case DeleteOp(other, confirm, now) =>
      RowKeptByNothing(db, id);
      MarkLeavesDeletedAlone(db, other, Deletion(now), "deleted", SoftDelete, now, id);
    case PolicyOp(row) => PolicyLeavesItemsAlone(db, row, id);
  }

  lemma PolicyLeavesItemsAlone(db: Tables, row: PolicyRow, id: string)
    requires id in db.items
    ensures KeepsRow(db, OrElse(CreatePolicyOn(db, row), db), id)
  {
  }

  lemma RowKeptByNothing(db: Tables, id: string)
    requires id in db.items
    ensures KeepsRow(db, db, id)
  {
  }

  lemma GetLeavesDeletedAlone(db: Tables, id: string, policies: Result<seq<Policy>, Error>, now: Instant, other: string)
    requires SchemaOk(db) && other in db.items && db.items[other].deletedAt.Some?
    ensures KeepsRow(db, GetOn(db, id, policies, now), other)
  {
    GetSucceedsExactlyWhen(db, id, policies, now);
    if GetTxOn(db, id, policies, now).Ok? {
      assert db.items[id].id == id;
      hide SchemaOk, GetTxOn, GetDecision, PolicyFor, After, ChangeFor;
    }
  }

  lemma MarkLeavesDeletedAlone(db: Tables, id: string, u: MemoryUpdate, eventType: string, payload: Payload, now: Instant, other: string)
    requires SchemaOk(db) && eventType != "" && u.updatedAt == now && other in db.items && db.items[other].deletedAt.Some?
    ensures KeepsRow(db, OrElse(MarkOn(db, id, u, eventType, payload, now), db), other)
  {
    hide SchemaOk, MarkOn;
    MarkSucceedsExactlyWhen(db, id, u, eventType, payload, now);
  }

  /** Once a memory is deleted, by the user or the lifecycle, its row never changes again. */
  lemma {:induction false} DeletedRowsNeverChange(cfg: Config, ops: seq<Op>, states: seq<Tables>, k: nat, id: string)
    requires IsHistory(cfg, ops, states) && cfg.texts.Lawful() && Sound(cfg, states[0])
    requires k < |states| && id in states[k].items && states[k].items[id].deletedAt.Some?
    ensures id in states[|ops|].items && states[|ops|].items[id] == states[k].items[id]
  {
    if k < |ops| {
      hide Sound, Apply, Texts.Lawful;
      var n := |ops| - 1;
      HistoryPrefix(cfg, ops, states);
      IndexesAgreeOverEveryHistory(cfg, ops, states);
      hide IsHistory;
      DeletedRowsNeverChange(cfg, ops[..n], states[..n + 1], k, id);
      assert Sound(cfg, states[n]);
      SoundHasSchema(cfg, states[n]);
      hide SchemaOk;
      StepLeavesDeletedAlone(cfg, states[n], ops[n], id);
    }
  }
}
