/** What lifecycle runs guarantee: the batch loop against a pointwise step, protection, the
    fixpoint at a fixed clock, and ageing. */
module LifecycleLaws {
  import opened Prelude
  import opened Schema
  import opened Repository
  import opened Lifecycle

  // ----- The loop is a pointwise step -----

  /** A batch: distinct live memories as they are stored. */
  ghost predicate Snapshot(db: Tables, batch: seq<Item>) {
    && (forall i :: 0 <= i < |batch| ==> IsLive(db, batch[i]))
    && (forall i, j :: 0 <= i < j < |batch| ==> batch[i].id != batch[j].id)
  }

  ghost predicate Named(items: map<string, Item>) { "" !in items }

  /** The decision for a memory, Keep when the run would fail on it. */
  function DecisionFor(access: seq<Access>, item: Item, policies: seq<Policy>, now: Instant): Decision {
    match Decide(access, item, policies, now)
    case Ok(d) => d
    case Err(_) => Keep
  }

  function Stepped(access: seq<Access>, item: Item, policies: seq<Policy>, now: Instant): Item {
    After(item, DecisionFor(access, item, policies, now), now)
  }

  /** The events a batch appends, in batch order. */
  function EventsFor(access: seq<Access>, batch: seq<Item>, policies: seq<Policy>, now: Instant, firstId: int): seq<Event> {
    if batch == [] then []
    else
      var n := |batch| - 1;
      var before := EventsFor(access, batch[..n], policies, now, firstId);
      var d := DecisionFor(access, batch[n], policies, now);
      if !d.Changes() then before
      else
        var change := ChangeFor(batch[n], d, PolicyFor(batch[n], policies).id);
        before + [Event(firstId + |before|, Some(batch[n].id), EventName(change.action), Lifecycle(change), now)]
  }

  /** Each batch member takes its own step, from its state at the start, and nothing else moves. */
  ghost predicate ItemsStepped(before: map<string, Item>, access: seq<Access>, batch: seq<Item>, policies: seq<Policy>,
                               now: Instant, after: map<string, Item>) {
    && after.Keys == before.Keys
    && (forall i :: 0 <= i < |batch| ==>
          batch[i].id in after && after[batch[i].id] == Stepped(access, batch[i], policies, now))
    && (forall id :: id in before && (forall i :: 0 <= i < |batch| ==> batch[i].id != id) ==> after[id] == before[id])
  }

  /** A run steps the batch, appends one event per change, and touches no other table. */
  ghost predicate IsPointwiseStep(before: Tables, batch: seq<Item>, policies: seq<Policy>, now: Instant, after: Tables) {
    && ItemsStepped(before.items, before.access, batch, policies, now, after.items)
    && after.events == before.events + EventsFor(before.access, batch, policies, now, before.lastEventId + 1)
    && after == before.(items := after.items, events := after.events, lastEventId := after.lastEventId)
  }

  lemma PatchKeepsIdentity(item: Item, d: Decision, now: Instant)
    ensures After(item, d, now).id == item.id
    ensures After(item, d, now).title == item.title && After(item, d, now).body == item.body
    ensures item.tier.Valid() && (d.Promote? || d.Demote? ==> d.to.Valid()) ==> After(item, d, now).tier.Valid()
  {
  }

  lemma DecisionsNameValidTiers(access: seq<Access>, item: Item, policies: seq<Policy>, now: Instant)
    ensures
      var d := DecisionFor(access, item, policies, now);
      d.Promote? || d.Demote? ==> d.to.Valid()
  {
  }

  /** The statements of one change, when they succeed. */
  lemma CarryOutEffect(db: Tables, item: Item, d: Decision, policyId: string, now: Instant)
    requires d.Changes() && CarryOut(db, item, d, policyId, now).Ok?
    requires item.id in db.items && db.items[item.id] == item && item.id != ""
    ensures
      var change := ChangeFor(item, d, policyId);
      CarryOut(db, item, d, policyId, now).value
      == db.(items := db.items[item.id := After(item, d, now)],
             events := db.events + [Event(db.lastEventId + 1, Some(item.id), EventName(change.action), Lifecycle(change), now)],
             lastEventId := db.lastEventId + 1)
  {
  }

  lemma CarryOutSucceeds(db: Tables, item: Item, d: Decision, policyId: string, now: Instant)
    requires EventsOk(db.items.Keys, db.events, db.lastEventId) && ItemsOk(db.items)
    requires item.id in db.items && db.items[item.id] == item && item.id != ""
    requires d.Promote? || d.Demote? ==> d.to.Valid()
    ensures CarryOut(db, item, d, policyId, now).Ok? <==> d.Changes() ==> now != 0
    ensures CarryOut(db, item, d, policyId, now).Err? ==> CarryOut(db, item, d, policyId, now).error == Invalid
  {
  }

  lemma {:induction false} RunIsPointwise(db: Tables, batch: seq<Item>, policies: seq<Policy>, now: Instant)
    requires SchemaOk(db) && Named(db.items) && Snapshot(db, batch)
    requires RunOn(db, batch, policies, now).Ok?
    ensures IsPointwiseStep(db, batch, policies, now, RunOn(db, batch, policies, now).value.0)
    ensures RunOn(db, batch, policies, now).value.0.lastEventId
            == db.lastEventId + |EventsFor(db.access, batch, policies, now, db.lastEventId + 1)|
  {
    if batch != [] {
      var n := |batch| - 1;
      RunIsPointwise(db, batch[..n], policies, now);
      PointwiseStepGrows(db, batch, policies, now);
    }
  }

  /** The tables after one more batch member has been carried out on `mid`. */
  ghost function OneMore(mid: Tables, item: Item, d: Decision, policyId: string, now: Instant): Tables {
    if !d.Changes() then mid
    else
      var change := ChangeFor(item, d, policyId);
      mid.(items := mid.items[item.id := After(item, d, now)],
           events := mid.events + [Event(mid.lastEventId + 1, Some(item.id), EventName(change.action), Lifecycle(change), now)],
           lastEventId := mid.lastEventId + 1)
  }

  lemma PointwiseStepGrows(db: Tables, batch: seq<Item>, policies: seq<Policy>, now: Instant)
    requires Named(db.items) && Snapshot(db, batch) && batch != []
    requires RunOn(db, batch, policies, now).Ok?
    requires RunOn(db, batch[..|batch| - 1], policies, now).Ok?
    requires
      var mid := RunOn(db, batch[..|batch| - 1], policies, now).value.0;
      && IsPointwiseStep(db, batch[..|batch| - 1], policies, now, mid)
      && mid.lastEventId == db.lastEventId + |EventsFor(db.access, batch[..|batch| - 1], policies, now, db.lastEventId + 1)|
    ensures
      var after := RunOn(db, batch, policies, now).value.0;
      && IsPointwiseStep(db, batch, policies, now, after)
      && after.lastEventId == db.lastEventId + |EventsFor(db.access, batch, policies, now, db.lastEventId + 1)|
  {
    var n := |batch| - 1;
    var item := batch[n];
    var mid := RunOn(db, batch[..n], policies, now).value.0;
    LastRunStep(db, batch, policies, now);
    var d := DecisionFor(mid.access, item, policies, now);
    hide Decide, DecisionFor, PolicyFor, After, ChangeFor, EventName, EventsFor, RunOn, CarryOut;
    assert forall i :: 0 <= i < n ==> batch[..n][i] == batch[i];
    assert IsLive(db, item) && mid.items[item.id] == item;
    if d.Changes() {
      CarryOutEffect(mid, item, d, PolicyFor(item, policies).id, now);
    } else {
      KeepingChangesNothing(mid, item, d, PolicyFor(item, policies).id, now);
    }
    StepOfOneMore(db, batch, policies, now, mid);
  }

  lemma LastRunStep(db: Tables, batch: seq<Item>, policies: seq<Policy>, now: Instant)
    requires batch != [] && RunOn(db, batch, policies, now).Ok?
    ensures
      var item := batch[|batch| - 1];
      RunOn(db, batch[..|batch| - 1], policies, now).Ok?
      && var mid := RunOn(db, batch[..|batch| - 1], policies, now).value.0;
      && Decide(mid.access, item, policies, now).Ok?
      && CarryOut(mid, item, DecisionFor(mid.access, item, policies, now), PolicyFor(item, policies).id, now)
         == Ok(RunOn(db, batch, policies, now).value.0)
  {
    hide Decide, PolicyFor, CarryOut;
  }

  lemma KeepingChangesNothing(db: Tables, item: Item, d: Decision, policyId: string, now: Instant)
    requires !d.Changes()
    ensures CarryOut(db, item, d, policyId, now) == Ok(db)
  {
  }

  lemma StepOfOneMore(db: Tables, batch: seq<Item>, policies: seq<Policy>, now: Instant, mid: Tables)
    requires Snapshot(db, batch) && batch != []
    requires IsPointwiseStep(db, batch[..|batch| - 1], policies, now, mid)
    requires mid.lastEventId == db.lastEventId + |EventsFor(db.access, batch[..|batch| - 1], policies, now, db.lastEventId + 1)|
    ensures
      var item := batch[|batch| - 1];
      var after := OneMore(mid, item, DecisionFor(db.access, item, policies, now), PolicyFor(item, policies).id, now);
      && IsPointwiseStep(db, batch, policies, now, after)
      && after.lastEventId == db.lastEventId + |EventsFor(db.access, batch, policies, now, db.lastEventId + 1)|
  {
    hide DecisionFor, PolicyFor, After, ChangeFor, EventName, Stepped, ItemsStepped;
    var n := |batch| - 1;
    var item := batch[n];
    var d := DecisionFor(db.access, item, policies, now);
    var after := OneMore(mid, item, d, PolicyFor(item, policies).id, now);
    ItemsOneMore(db, batch, policies, now, mid.items);
    var earlier := EventsFor(db.access, batch[..n], policies, now, db.lastEventId + 1);
    if d.Changes() {
      var e := after.events[|mid.events|];
      assert db.events + earlier + [e] == db.events + (earlier + [e]);
    }
  }

  lemma ItemsOneMore(db: Tables, batch: seq<Item>, policies: seq<Policy>, now: Instant, mid: map<string, Item>)
    requires Snapshot(db, batch) && batch != []
    requires ItemsStepped(db.items, db.access, batch[..|batch| - 1], policies, now, mid)
    ensures
      var item := batch[|batch| - 1];
      var d := DecisionFor(db.access, item, policies, now);
      ItemsStepped(db.items, db.access, batch, policies, now, if d.Changes() then mid[item.id := After(item, d, now)] else mid)
  {
    hide DecisionFor, Patched, UpdateFor;
    var n := |batch| - 1;
    var item := batch[n];
    var d := DecisionFor(db.access, item, policies, now);
    var after := if d.Changes() then mid[item.id := After(item, d, now)] else mid;
    assert IsLive(db, item);
    assert forall i :: 0 <= i < n ==> batch[..n][i] == batch[i];
    assert mid[item.id] == item;
    assert after.Keys == mid.Keys;
    assert Stepped(db.access, item, policies, now) == After(item, d, now);
    forall i | 0 <= i < |batch|
      ensures batch[i].id in after && after[batch[i].id] == Stepped(db.access, batch[i], policies, now)
    {
      if i < n {
        assert batch[..n][i].id in mid;
      }
    }
  }

  // ----- When a run succeeds, and what it reports -----

  lemma CarryOutKeepsSchema(db: Tables, item: Item, d: Decision, policyId: string, now: Instant)
    requires SchemaOk(db) && CarryOut(db, item, d, policyId, now).Ok?
    requires IsStored(db, item)
    ensures SchemaOk(CarryOut(db, item, d, policyId, now).value)
  {
    hide SchemaOk, UpdateItemOn, RecordEventOn, UpdateFor, ChangeFor, EventName;
    if d.Changes() {
      var u := UpdateFor(item, d, now);
      RewriteKeepsSchema(db, item.id, u);
      var change := ChangeFor(item, d, policyId);
      RecordKeepsSchema(UpdateItemOn(db, item.id, u).value, item.id, EventName(change.action), Lifecycle(change), now);
    }
  }

  ghost predicate IsStored(db: Tables, item: Item) {
    item.id in db.items && db.items[item.id] == item && item.id != ""
  }

  lemma RewriteKeepsSchema(db: Tables, id: string, u: MemoryUpdate)
    requires SchemaOk(db) && UpdateItemOn(db, id, u).Ok?
    ensures SchemaOk(UpdateItemOn(db, id, u).value)
  {
    assert ItemsOk(db.items);
    hide SchemaOk, ItemsOk, ValidUpdate;
    ItemKeepsItsId(db.items, id);
    UpdateItemKeepsSchema(db, id, Patched(db.items[id], u));
  }

  lemma ItemKeepsItsId(items: map<string, Item>, id: string)
    requires ItemsOk(items) && id in items
    ensures items[id].id == id
  {
  }

  lemma RecordKeepsSchema(db: Tables, id: string, eventType: string, payload: Payload, now: Instant)
    requires SchemaOk(db) && RecordEventOn(db, id, eventType, payload, now).Ok?
    ensures SchemaOk(RecordEventOn(db, id, eventType, payload, now).value)
  {
    hide SchemaOk, InsertEvent;
    InsertEventKeepsSchema(db, Event(db.lastEventId + 1, if id == "" then None else Some(id), eventType, payload, now));
  }

  lemma {:induction false} RunKeepsSchema(db: Tables, batch: seq<Item>, policies: seq<Policy>, now: Instant)
    requires SchemaOk(db) && Named(db.items) && Snapshot(db, batch) && RunOn(db, batch, policies, now).Ok?
    ensures SchemaOk(RunOn(db, batch, policies, now).value.0)
  {
    if batch != [] {
      var n := |batch| - 1;
      LastRunStep(db, batch, policies, now);
      RunKeepsSchema(db, batch[..n], policies, now);
      RunIsPointwise(db, batch[..n], policies, now);
      var mid := RunOn(db, batch[..n], policies, now).value.0;
      hide RunOn, Decide, SchemaOk, CarryOut;
      StillStored(db, batch, policies, now, mid);
      CarryOutKeepsSchema(mid, batch[n], DecisionFor(mid.access, batch[n], policies, now), PolicyFor(batch[n], policies).id, now);
    }
  }

  lemma StillStored(db: Tables, batch: seq<Item>, policies: seq<Policy>, now: Instant, mid: Tables)
    requires Named(db.items) && Snapshot(db, batch) && batch != []
    requires IsPointwiseStep(db, batch[..|batch| - 1], policies, now, mid)
    ensures IsStored(mid, batch[|batch| - 1])
  {
    var n := |batch| - 1;
    assert IsLive(db, batch[n]);
    assert forall i :: 0 <= i < n ==> batch[..n][i] == batch[i];
  }

  lemma ShorterSnapshot(db: Tables, batch: seq<Item>)
    requires Snapshot(db, batch) && batch != []
    ensures Snapshot(db, batch[..|batch| - 1])
  {
  }

  lemma StoredById(mid: Tables, item: Item)
    requires IsStored(mid, item)
    ensures item.id in mid.items && mid.items[item.id] == item
  {
  }

  lemma CarriedIsOneMore(mid: Tables, item: Item, d: Decision, policyId: string, now: Instant)
    requires IsStored(mid, item) && CarryOut(mid, item, d, policyId, now).Ok?
    ensures CarryOut(mid, item, d, policyId, now).value == OneMore(mid, item, d, policyId, now)
    ensures OneMore(mid, item, d, policyId, now).policies == mid.policies
  {
    if d.Changes() {
      CarryOutEffect(mid, item, d, policyId, now);
    } else {
      KeepingChangesNothing(mid, item, d, policyId, now);
    }
    hide CarryOut, After, ChangeFor;
  }

  /** A run fails on a memory only when the clock reads zero, or its promotion window starts there. */
  predicate Runnable(access: seq<Access>, item: Item, policies: seq<Policy>, now: Instant) {
    Decide(access, item, policies, now).Ok? && (DecisionFor(access, item, policies, now).Changes() ==> now != 0)
  }

  ghost predicate AllRunnable(access: seq<Access>, batch: seq<Item>, policies: seq<Policy>, now: Instant) {
    forall i :: 0 <= i < |batch| ==> Runnable(access, batch[i], policies, now)
  }

  lemma AllRunnableSplits(access: seq<Access>, batch: seq<Item>, policies: seq<Policy>, now: Instant)
    requires batch != []
    ensures AllRunnable(access, batch, policies, now)
            <==> AllRunnable(access, batch[..|batch| - 1], policies, now) && Runnable(access, batch[|batch| - 1], policies, now)
  {
    hide Runnable;
    assert forall i :: 0 <= i < |batch| - 1 ==> batch[..|batch| - 1][i] == batch[i];
  }

  lemma {:induction false} RunSucceedsExactlyWhen(db: Tables, batch: seq<Item>, policies: seq<Policy>, now: Instant)
    requires SchemaOk(db) && Named(db.items) && Snapshot(db, batch)
    ensures RunOn(db, batch, policies, now).Ok? <==> AllRunnable(db.access, batch, policies, now)
  {
    if batch != [] {
      var n := |batch| - 1;
      assert Snapshot(db, batch[..n]);
      RunUnfolds(db, batch, policies, now);
      hide Decide, CarryOut, SchemaOk, RunOn, AllRunnable, Runnable, EventsFor, ItemsStepped, PolicyFor, Snapshot, Named;
      RunSucceedsExactlyWhen(db, batch[..n], policies, now);
      AllRunnableSplits(db.access, batch, policies, now);
      if RunOn(db, batch[..n], policies, now).Ok? {
        RunIsPointwise(db, batch[..n], policies, now);
        RunKeepsSchema(db, batch[..n], policies, now);
        var mid := RunOn(db, batch[..n], policies, now).value.0;
        StillStored(db, batch, policies, now, mid);
        NextStepSucceeds(mid, batch[n], policies, now);
      }
    }
  }

  lemma RunUnfolds(db: Tables, batch: seq<Item>, policies: seq<Policy>, now: Instant)
    requires batch != []
    ensures
      var item := batch[|batch| - 1];
      var before := RunOn(db, batch[..|batch| - 1], policies, now);
      RunOn(db, batch, policies, now).Ok? <==>
        before.Ok? && Decide(before.value.0.access, item, policies, now).Ok?
        && CarryOut(before.value.0, item, Decide(before.value.0.access, item, policies, now).value, PolicyFor(item, policies).id, now).Ok?
  {
    hide Decide, CarryOut, PolicyFor;
  }

  lemma NextStepSucceeds(mid: Tables, item: Item, policies: seq<Policy>, now: Instant)
    requires SchemaOk(mid) && IsStored(mid, item)
    ensures (Decide(mid.access, item, policies, now).Ok?
             && CarryOut(mid, item, Decide(mid.access, item, policies, now).value, PolicyFor(item, policies).id, now).Ok?)
            <==> Runnable(mid.access, item, policies, now)
  {
    if Decide(mid.access, item, policies, now).Ok? {
      DecisionsNameValidTiers(mid.access, item, policies, now);
      var d := DecisionFor(mid.access, item, policies, now);
      hide Decide, CarryOut;
      CarryOutSucceeds(mid, item, d, PolicyFor(item, policies).id, now);
    }
  }

  /** The order of the batch does not matter: the memories come out the same. */
  lemma RunIgnoresBatchOrder(db: Tables, xs: seq<Item>, ys: seq<Item>, policies: seq<Policy>, now: Instant)
    requires SchemaOk(db) && Named(db.items) && Snapshot(db, xs) && Snapshot(db, ys)
    requires forall item :: item in xs <==> item in ys
    requires RunOn(db, xs, policies, now).Ok?
    ensures RunOn(db, ys, policies, now).Ok?
    ensures RunOn(db, ys, policies, now).value.0.items == RunOn(db, xs, policies, now).value.0.items
  {
    RunSucceedsExactlyWhen(db, xs, policies, now);
    RunSucceedsExactlyWhen(db, ys, policies, now);
    assert AllRunnable(db.access, ys, policies, now) by {
      forall i | 0 <= i < |ys|
        ensures Runnable(db.access, ys[i], policies, now)
      {
        assert ys[i] in xs;
      }
    }
    RunIsPointwise(db, xs, policies, now);
    RunIsPointwise(db, ys, policies, now);
    hide RunOn, Decide, Stepped, SchemaOk;
    SameStepsSameItems(db.items, db.access, xs, ys, policies, now, RunOn(db, xs, policies, now).value.0.items,
                       RunOn(db, ys, policies, now).value.0.items);
  }

  lemma SameStepsSameItems(items: map<string, Item>, access: seq<Access>, xs: seq<Item>, ys: seq<Item>, policies: seq<Policy>,
                           now: Instant, a: map<string, Item>, b: map<string, Item>)
    requires ItemsStepped(items, access, xs, policies, now, a) && ItemsStepped(items, access, ys, policies, now, b)
    requires forall item :: item in xs <==> item in ys
    ensures a == b
  {
    hide Stepped;
    forall id | id in a
      ensures a[id] == b[id]
    {
      if i :| 0 <= i < |xs| && xs[i].id == id {
        assert xs[i] in ys;
        var j :| 0 <= j < |ys| && ys[j] == xs[i];
      } else {
        forall j | 0 <= j < |ys|
          ensures ys[j].id != id
        {
          assert ys[j] in xs;
          var k :| 0 <= k < |xs| && xs[k] == ys[j];
        }
      }
    }
  }

  function DecisionsFor(access: seq<Access>, batch: seq<Item>, policies: seq<Policy>, now: Instant): seq<Decision> {
    if batch == [] then []
    else DecisionsFor(access, batch[..|batch| - 1], policies, now) + [DecisionFor(access, batch[|batch| - 1], policies, now)]
  }

  function NumberOf(ds: seq<Decision>, p: Decision -> bool): nat {
    if ds == [] then 0 else NumberOf(ds[..|ds| - 1], p) + Count(p(ds[|ds| - 1]))
  }

  /** The report counts each kind of decision once per batch member; its changes are one per
      changed memory, as many as the events of the run. */
  ghost predicate Reports(r: Report, access: seq<Access>, batch: seq<Item>, policies: seq<Policy>, now: Instant) {
    var ds := DecisionsFor(access, batch, policies, now);
    && r.evaluated == |batch|
    && r.promoted == NumberOf(ds, (d: Decision) => d.Promote?)
    && r.demoted == NumberOf(ds, (d: Decision) => d.Demote?)
    && r.archived == NumberOf(ds, (d: Decision) => d.ToArchive?)
    && r.deleted == NumberOf(ds, (d: Decision) => d.Delete?)
    && r.skippedPinned == NumberOf(ds, (d: Decision) => d.SkipPinned?)
    && r.skippedImportant == NumberOf(ds, (d: Decision) => d.SkipImportant?)
    && |r.changes| == r.promoted + r.demoted + r.archived + r.deleted
    && |EventsFor(access, batch, policies, now, 0)| == |r.changes|
    && forall i :: 0 <= i < |r.changes| ==> EventsFor(access, batch, policies, now, 0)[i].payload == Lifecycle(r.changes[i])
  }

  lemma NumberOfAppend(ds: seq<Decision>, d: Decision, p: Decision -> bool)
    ensures NumberOf(ds + [d], p) == NumberOf(ds, p) + Count(p(d))
  {
    assert (ds + [d])[..|ds|] == ds;
  }

  lemma {:induction false} ReportIsExact(db: Tables, batch: seq<Item>, policies: seq<Policy>, now: Instant)
    requires SchemaOk(db) && Named(db.items) && Snapshot(db, batch) && RunOn(db, batch, policies, now).Ok?
    ensures Reports(RunOn(db, batch, policies, now).value.1, db.access, batch, policies, now)
  {
    if batch != [] {
      var n := |batch| - 1;
      LastRunStep(db, batch, policies, now);
      ReportIsExact(db, batch[..n], policies, now);
      RunIsPointwise(db, batch[..n], policies, now);
      ReportGrows(RunOn(db, batch[..n], policies, now).value.1, db.access, batch, policies, now);
      hide Decide, CarryOut, Reports, SchemaOk;
      var d := DecisionFor(db.access, batch[n], policies, now);
      assert RunOn(db, batch, policies, now).value.1
          == Tally(RunOn(db, batch[..n], policies, now).value.1, batch[n], d, PolicyFor(batch[n], policies).id).(evaluated := |batch|);
    }
  }

  lemma ReportGrows(r: Report, access: seq<Access>, batch: seq<Item>, policies: seq<Policy>, now: Instant)
    requires batch != [] && Reports(r, access, batch[..|batch| - 1], policies, now)
    ensures
      var item := batch[|batch| - 1];
      Reports(Tally(r, item, DecisionFor(access, item, policies, now), PolicyFor(item, policies).id).(evaluated := |batch|),
              access, batch, policies, now)
  {
    hide DecisionFor, PolicyFor, NumberOf;
    var n := |batch| - 1;
    var d := DecisionFor(access, batch[n], policies, now);
    var ds := DecisionsFor(access, batch[..n], policies, now);
    NumberOfAppend(ds, d, (d: Decision) => d.Promote?);
    NumberOfAppend(ds, d, (d: Decision) => d.Demote?);
    NumberOfAppend(ds, d, (d: Decision) => d.ToArchive?);
    NumberOfAppend(ds, d, (d: Decision) => d.Delete?);
    NumberOfAppend(ds, d, (d: Decision) => d.SkipPinned?);
    NumberOfAppend(ds, d, (d: Decision) => d.SkipImportant?);
  }

  // ----- One step of one memory -----

  function Rank(tier: Tier): int {
    match tier
    case Working => 4
    case Hot => 3
    case Warm => 2
    case Cold => 1
    case _ => 0
  }

  /** Nothing has been written, created or read about the memory for `span`. */
  predicate IdleFor(item: Item, span: int, now: Instant) {
    && item.updatedAt + span <= now && item.createdAt + span <= now
    && (item.lastAccessedAt.Some? ==> item.lastAccessedAt.value + span <= now)
  }

  /** A memory moves by at most one tier: up only by promotion, down only when it has been idle for
      as long as the rules ask of its tier; deletion leaves the tier. */
  lemma StepMovesAtMostOneTier(access: seq<Access>, item: Item, policies: seq<Policy>, now: Instant)
    requires item.tier.Valid()
    ensures
      var d := DecisionFor(access, item, policies, now);
      var after := Stepped(access, item, policies, now);
      && (d.Promote? ==> Rank(after.tier) == Rank(item.tier) + 1)
      && (d.Demote? || d.ToArchive? ==> Rank(after.tier) == Rank(item.tier) - 1)
      && (d.Delete? ==> after.tier == item.tier == Archive && after.deletedAt == Some(now))
      && (!d.Changes() ==> after == item)
      && (d.Changes() && item.deletedAt.None? ==> after != item)
      && (d.ToArchive? <==> after.tier == Archive && item.tier != Archive)
      && (Rank(after.tier) < Rank(item.tier) ==>
            var r := PolicyFor(item, policies).rules;
            && (item.tier == Working ==> IdleFor(item, r.demoteWorkingAfter, now))
            && (item.tier == Hot ==> IdleFor(item, r.demoteHotAfter, now))
            && (item.tier == Warm ==> IdleFor(item, r.demoteWarmAfter, now))
            && (item.tier == Cold ==> IdleFor(item, r.archiveColdAfter, now)))
  {
    hide PolicyFor;
  }

  // ----- Protection -----

  predicate Unprotected(r: Rules, item: Item) { !PinProtects(item, r) && !ImportanceProtects(item, r) }

  function WithoutProtection(r: Rules): Rules { r.(protectPinned := false, protectImportanceAtOrAbove := 0) }

  /** A skip is counted exactly for a protected, unpromoted memory that the same rules without
      their protections would demote, archive or delete; pinning is checked first. */
  lemma SkipsAreMissedChanges(access: seq<Access>, item: Item, policies: seq<Policy>, now: Instant)
    requires Decide(access, item, policies, now).Ok?
    ensures
      var r := PolicyFor(item, policies).rules;
      var d := DecisionFor(access, item, policies, now);
      var missed := !d.Promote? && DecideByAge(item, WithoutProtection(r), now).Changes();
      && (d.SkipPinned? <==> missed && PinProtects(item, r))
      && (d.SkipImportant? <==> missed && !PinProtects(item, r) && ImportanceProtects(item, r))
      && (missed && Unprotected(r, item) ==> d == DecideByAge(item, WithoutProtection(r), now))
  {
    var r := PolicyFor(item, policies).rules;
    hide PolicyFor;
    assert PromotionFor(access, item, r, now).Ok?;
    assert DueForDeletion(item, WithoutProtection(r), now) == DueForDeletion(item, r, now);
  }

  predicate AllProtectPinned(policies: seq<Policy>) {
    forall i :: 0 <= i < |policies| ==> policies[i].rules.protectPinned
  }

  lemma PinnedNeverFalls(access: seq<Access>, item: Item, policies: seq<Policy>, now: Instant)
    requires item.pinned && AllProtectPinned(policies) && item.tier.Valid()
    ensures
      var after := Stepped(access, item, policies, now);
      Rank(after.tier) >= Rank(item.tier) && after.pinned && after.deletedAt == item.deletedAt && after.tier.Valid()
  {
    PolicyForIsFirstMatch(item, policies);
    StepMovesAtMostOneTier(access, item, policies, now);
  }

  /** One scheduled run: what ListActive returned, the policies in force and the clock. */
  datatype Run = Run(batch: seq<Item>, policies: seq<Policy>, now: Instant)

  /** The tables after a history of runs; a failed run is rolled back. */
  ghost function AfterRuns(db: Tables, runs: seq<Run>): Tables {
    if runs == [] then db
    else
      var before := AfterRuns(db, runs[..|runs| - 1]);
      var run := runs[|runs| - 1];
      match RunOn(before, run.batch, run.policies, run.now)
      case Ok((after, _)) => after
      case Err(_) => before
  }

  ghost predicate BatchesAreSnapshots(db: Tables, runs: seq<Run>) {
    forall k :: 0 <= k < |runs| ==> Snapshot(AfterRuns(db, runs[..k]), runs[k].batch)
  }

  ghost predicate AllRunsProtectPinned(runs: seq<Run>) {
    forall k :: 0 <= k < |runs| ==> AllProtectPinned(runs[k].policies)
  }

  lemma {:induction false} RunsKeepSchema(db: Tables, runs: seq<Run>)
    requires SchemaOk(db) && Named(db.items) && BatchesAreSnapshots(db, runs)
    ensures SchemaOk(AfterRuns(db, runs)) && AfterRuns(db, runs).items.Keys == db.items.Keys
    ensures AfterRuns(db, runs).access == db.access
  {
    if runs != [] {
      hide RunOn, SchemaOk;
      var n := |runs| - 1;
      PrefixIsSnapshot(db, runs);
      RunsKeepSchema(db, runs[..n]);
      var before := AfterRuns(db, runs[..n]);
      assert Snapshot(before, runs[n].batch);
      if RunOn(before, runs[n].batch, runs[n].policies, runs[n].now).Ok? {
        RunKeepsSchema(before, runs[n].batch, runs[n].policies, runs[n].now);
        RunIsPointwise(before, runs[n].batch, runs[n].policies, runs[n].now);
      }
    }
  }

  lemma PrefixIsSnapshot(db: Tables, runs: seq<Run>)
    requires BatchesAreSnapshots(db, runs) && runs != []
    ensures BatchesAreSnapshots(db, runs[..|runs| - 1])
  {
    var n := |runs| - 1;
    forall k | 0 <= k < n
      ensures Snapshot(AfterRuns(db, runs[..n][..k]), runs[..n][k].batch)
    {
      assert runs[..n][..k] == runs[..k];
    }
  }

  /** Over any history of runs whose policies all protect pinned memories, a pinned memory's tier
      never falls and the lifecycle never deletes it. */
  lemma {:induction false} PinnedIsSafeOverRuns(db: Tables, runs: seq<Run>, id: string)
    requires SchemaOk(db) && Named(db.items) && BatchesAreSnapshots(db, runs) && AllRunsProtectPinned(runs)
    requires id in db.items && db.items[id].pinned
    ensures
      var after := AfterRuns(db, runs).items;
      id in after && after[id].pinned && Rank(after[id].tier) >= Rank(db.items[id].tier)
      && after[id].deletedAt == db.items[id].deletedAt
  {
    if runs != [] {
      hide RunOn, SchemaOk, Stepped;
      var n := |runs| - 1;
      PrefixIsSnapshot(db, runs);
      assert forall k :: 0 <= k < n ==> runs[..n][k] == runs[k];
      PinnedIsSafeOverRuns(db, runs[..n], id);
      RunsKeepSchema(db, runs[..n]);
      var before := AfterRuns(db, runs[..n]);
      var run := runs[n];
      assert Snapshot(before, run.batch);
      if RunOn(before, run.batch, run.policies, run.now).Ok? {
        RunIsPointwise(before, run.batch, run.policies, run.now);
        PinnedIsSafeInOneRun(before, run, id, AfterRuns(db, runs));
      }
    }
  }

  lemma PinnedIsSafeInOneRun(before: Tables, run: Run, id: string, after: Tables)
    requires SchemaOk(before) && Snapshot(before, run.batch) && AllProtectPinned(run.policies)
    requires IsPointwiseStep(before, run.batch, run.policies, run.now, after)
    requires id in before.items && before.items[id].pinned
    ensures id in after.items && after.items[id].pinned && after.items[id].deletedAt == before.items[id].deletedAt
    ensures Rank(after.items[id].tier) >= Rank(before.items[id].tier)
  {
    hide Stepped, EventsFor, Rank;
    if i :| 0 <= i < |run.batch| && run.batch[i].id == id {
      assert IsLive(before, run.batch[i]);
      PinnedNeverFalls(before.access, run.batch[i], run.policies, run.now);
    }
  }
}
