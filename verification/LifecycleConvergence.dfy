/** Where repeated lifecycle runs lead when every live memory fits in one batch: to a fixpoint
    when the clock stands still, and into the archive when time passes without access. */
module LifecycleConvergence {
  import opened Prelude
  import opened Schema
  import opened Repository
  import opened Lifecycle
  import opened LifecycleLaws

  // ----- A batch that covers everything -----

  function Live(items: map<string, Item>): set<string> {
    set id | id in items && items[id].deletedAt.None?
  }

  function LiveStep(access: seq<Access>, item: Item, policies: seq<Policy>, now: Instant): Item {
    if item.deletedAt.None? then Stepped(access, item, policies, now) else item
  }

  function IdsOf(batch: seq<Item>): set<string> { set i | 0 <= i < |batch| :: batch[i].id }

  lemma {:induction false} DistinctIdsCount(batch: seq<Item>)
    requires forall i, j :: 0 <= i < j < |batch| ==> batch[i].id != batch[j].id
    ensures |IdsOf(batch)| == |batch|
  {
    if batch != [] {
      var n := |batch| - 1;
      DistinctIdsCount(batch[..n]);
      assert IdsOf(batch) == IdsOf(batch[..n]) + {batch[n].id};
      assert batch[n].id !in IdsOf(batch[..n]);
    }
  }

  lemma SubsetIsSmaller(xs: set<string>, ys: set<string>)
    requires xs <= ys
    ensures |xs| <= |ys|
  {
    assert ys == xs + (ys - xs);
  }

  /** With no more live memories than the limit, the batch holds them all. */
  lemma SmallStoresAreCovered(db: Tables, limit: nat, batch: seq<Item>, id: string)
    requires ItemsOk(db.items) && IsBatch(db, limit, batch) && |Live(db.items)| <= limit
    requires id in Live(db.items)
    ensures db.items[id] in batch
  {
    if db.items[id] !in batch {
      DistinctIdsCount(batch);
      var ids := IdsOf(batch) + {id};
      forall i | 0 <= i < |batch|
        ensures batch[i].id != id && batch[i].id in Live(db.items)
      {
        assert IsLive(db, batch[i]);
      }
      assert |ids| == |batch| + 1 && ids <= Live(db.items);
      SubsetIsSmaller(ids, Live(db.items));
    }
  }

  lemma FullRunStepsEveryone(db: Tables, limit: nat, batch: seq<Item>, policies: seq<Policy>, now: Instant, id: string)
    requires SchemaOk(db) && Named(db.items) && IsBatch(db, limit, batch) && |Live(db.items)| <= limit
    requires RunOn(db, batch, policies, now).Ok? && id in db.items
    ensures
      var after := RunOn(db, batch, policies, now).value.0;
      && after.access == db.access && after.items.Keys == db.items.Keys
      && after.items[id] == LiveStep(db.access, db.items[id], policies, now)
      && SchemaOk(after)
  {
    hide RunOn, Stepped, EventsFor;
    assert Snapshot(db, batch);
    RunIsPointwise(db, batch, policies, now);
    RunKeepsSchema(db, batch, policies, now);
    if id in Live(db.items) {
      SmallStoresAreCovered(db, limit, batch, id);
      var i :| 0 <= i < |batch| && batch[i] == db.items[id];
    } else {
      forall i | 0 <= i < |batch|
        ensures batch[i].id != id
      {
        assert IsLive(db, batch[i]);
      }
    }
  }

  // ----- Histories of full runs -----

  /** Every run sees all live memories and succeeds. */
  ghost predicate FullRuns(db: Tables, limit: nat, runs: seq<Run>) {
    forall k :: 0 <= k < |runs| ==> FullRun(AfterRuns(db, runs[..k]), limit, runs[k])
  }

  ghost predicate FullRun(db: Tables, limit: nat, run: Run) {
    IsBatch(db, limit, run.batch) && RunOn(db, run.batch, run.policies, run.now).Ok?
  }

  /** One memory's way through a history of runs. */
  ghost function Journey(access: seq<Access>, item: Item, runs: seq<Run>): Item {
    if runs == [] then item
    else LiveStep(access, Journey(access, item, runs[..|runs| - 1]), runs[|runs| - 1].policies, runs[|runs| - 1].now)
  }

  lemma FullRunsPrefix(db: Tables, limit: nat, runs: seq<Run>, n: nat)
    requires FullRuns(db, limit, runs) && n <= |runs|
    ensures FullRuns(db, limit, runs[..n])
  {
    forall k | 0 <= k < n
      ensures FullRun(AfterRuns(db, runs[..n][..k]), limit, runs[..n][k])
    {
      assert runs[..n][..k] == runs[..k];
    }
  }

  lemma {:induction false} RunsFollowJourneys(db: Tables, limit: nat, runs: seq<Run>)
    requires SchemaOk(db) && Named(db.items) && FullRuns(db, limit, runs) && |Live(db.items)| <= limit
    ensures SchemaOk(AfterRuns(db, runs)) && AfterRuns(db, runs).access == db.access
    ensures AfterRuns(db, runs).items.Keys == db.items.Keys
    ensures forall id :: id in db.items ==> AfterRuns(db, runs).items[id] == Journey(db.access, db.items[id], runs)
    ensures |Live(AfterRuns(db, runs).items)| <= limit
  {
    hide RunOn, LiveStep, SchemaOk, IsBatch;
    if runs != [] {
      var n := |runs| - 1;
      FullRunsPrefix(db, limit, runs, n);
      RunsFollowJourneys(db, limit, runs[..n]);
      var before := AfterRuns(db, runs[..n]);
      assert FullRun(before, limit, runs[n]);
      LastRunDecides(db, limit, runs);
      FullRunKeepsOthers(before, limit, runs[n]);
      hide AfterRuns, FullRuns, FullRun;
      forall id | id in db.items
        ensures AfterRuns(db, runs).items[id] == Journey(db.access, db.items[id], runs)
      {
        LastRunSteps(db, limit, runs, id);
      }
    }
  }

  lemma LastRunDecides(db: Tables, limit: nat, runs: seq<Run>)
    requires runs != [] && FullRuns(db, limit, runs)
    ensures
      var run := runs[|runs| - 1];
      var outcome := RunOn(AfterRuns(db, runs[..|runs| - 1]), run.batch, run.policies, run.now);
      outcome.Ok? && AfterRuns(db, runs) == outcome.value.0
  {
    hide RunOn, IsBatch;
    assert FullRun(AfterRuns(db, runs[..|runs| - 1]), limit, runs[|runs| - 1]);
  }

  lemma LastRunSteps(db: Tables, limit: nat, runs: seq<Run>, id: string)
    requires runs != [] && FullRuns(db, limit, runs) && id in db.items && Named(db.items)
    requires
      var before := AfterRuns(db, runs[..|runs| - 1]);
      && SchemaOk(before) && before.access == db.access && before.items.Keys == db.items.Keys && |Live(before.items)| <= limit
      && before.items[id] == Journey(db.access, db.items[id], runs[..|runs| - 1])
    ensures id in AfterRuns(db, runs).items && AfterRuns(db, runs).items[id] == Journey(db.access, db.items[id], runs)
  {
    hide RunOn, LiveStep, SchemaOk, IsBatch;
    var run := runs[|runs| - 1];
    var before := AfterRuns(db, runs[..|runs| - 1]);
    LastRunDecides(db, limit, runs);
    assert FullRun(before, limit, run);
    FullRunStepsEveryone(before, limit, run.batch, run.policies, run.now, id);
  }

  lemma FullRunKeepsOthers(before: Tables, limit: nat, run: Run)
    requires SchemaOk(before) && Named(before.items) && |Live(before.items)| <= limit && FullRun(before, limit, run)
    ensures
      var after := RunOn(before, run.batch, run.policies, run.now).value.0;
      SchemaOk(after) && after.access == before.access && after.items.Keys == before.items.Keys && |Live(after.items)| <= limit
  {
    hide RunOn, Stepped, EventsFor;
    var after := RunOn(before, run.batch, run.policies, run.now).value.0;
    assert Snapshot(before, run.batch);
    RunIsPointwise(before, run.batch, run.policies, run.now);
    RunKeepsSchema(before, run.batch, run.policies, run.now);
    forall id | id in Live(after.items)
      ensures id in Live(before.items)
    {
      FullRunStepsEveryone(before, limit, run.batch, run.policies, run.now, id);
    }
    SubsetIsSmaller(Live(after.items), Live(before.items));
  }

  // ----- Fixpoint at a fixed clock -----

  /** Promotions a tier still allows. */
  function Height(tier: Tier): nat {
    match tier
    case Archive => 3
    case Cold => 2
    case Warm => 1
    case _ => 0
  }

  predicate Fresh(item: Item, now: Instant) {
    item.updatedAt >= now && (item.tier == Archive && item.archivedAt.Some? ==> item.archivedAt.value >= now)
  }

  lemma PolicyIsPositive(item: Item, policies: seq<Policy>)
    requires AllPositive(policies)
    ensures Positive(PolicyFor(item, policies).rules)
  {
    PolicyForIsFirstMatch(item, policies);
  }

  /** A memory that can only be promoted from here on, at most `h` times, or not change at all. */
  predicate Calm(access: seq<Access>, item: Item, policies: seq<Policy>, now: Instant, h: nat) {
    item.deletedAt.Some? || !DecisionFor(access, item, policies, now).Changes() || (Fresh(item, now) && Height(item.tier) <= h)
  }

  lemma CalmOnlyPromotes(access: seq<Access>, item: Item, policies: seq<Policy>, now: Instant, h: nat)
    requires AllPositive(policies) && Calm(access, item, policies, now, h) && item.deletedAt.None?
    ensures
      var d := DecisionFor(access, item, policies, now);
      !d.Demote? && !d.ToArchive? && !d.Delete? && (h == 0 ==> !d.Changes())
  {
    PolicyIsPositive(item, policies);
    hide PolicyFor;
  }

  lemma CalmGrowsCalmer(access: seq<Access>, item: Item, policies: seq<Policy>, now: Instant, h: nat)
    requires AllPositive(policies) && Calm(access, item, policies, now, h)
    ensures Calm(access, LiveStep(access, item, policies, now), policies, now, if h == 0 then 0 else h - 1)
    ensures h == 0 ==> LiveStep(access, item, policies, now) == item
  {
    if item.deletedAt.None? {
      CalmOnlyPromotes(access, item, policies, now, h);
    }
  }

  lemma FirstRunCalms(access: seq<Access>, item: Item, policies: seq<Policy>, now: Instant)
    requires AllPositive(policies)
    ensures Calm(access, LiveStep(access, item, policies, now), policies, now, 3)
  {
  }

  ghost predicate FixedClock(runs: seq<Run>, policies: seq<Policy>, now: Instant) {
    forall k :: 0 <= k < |runs| ==> runs[k].policies == policies && runs[k].now == now
  }

  lemma {:induction false} JourneyCalms(access: seq<Access>, item: Item, runs: seq<Run>, policies: seq<Policy>, now: Instant)
    requires AllPositive(policies) && FixedClock(runs, policies, now) && runs != []
    ensures Calm(access, Journey(access, item, runs), policies, now, if |runs| >= 4 then 0 else 4 - |runs|)
    ensures |runs| > 4 ==> Journey(access, item, runs) == Journey(access, item, runs[..|runs| - 1])
  {
    var n := |runs| - 1;
    if n == 0 {
      assert runs[..0] == [];
      FirstRunCalms(access, item, policies, now);
    } else {
      JourneyCalms(access, item, runs[..n], policies, now);
      CalmGrowsCalmer(access, Journey(access, item, runs[..n]), policies, now, if n >= 4 then 0 else 4 - n);
    }
  }

  /** At a fixed clock, at most the first four runs change anything: every later run leaves the
      whole database as it was, even when policies scoped by tier change hands as memories move. */
  lemma FixpointAfterFourRuns(db: Tables, limit: nat, runs: seq<Run>, policies: seq<Policy>, now: Instant)
    requires SchemaOk(db) && Named(db.items) && FullRuns(db, limit, runs) && |Live(db.items)| <= limit
    requires AllPositive(policies) && FixedClock(runs, policies, now) && |runs| > 4
    ensures AfterRuns(db, runs) == AfterRuns(db, runs[..|runs| - 1])
  {
    hide RunOn, SchemaOk, IsBatch, Calm;
    var n := |runs| - 1;
    FullRunsPrefix(db, limit, runs, n);
    RunsFollowJourneys(db, limit, runs[..n]);
    RunsFollowJourneys(db, limit, runs);
    var (before, after) := (AfterRuns(db, runs[..n]), AfterRuns(db, runs));
    assert FullRun(before, limit, runs[n]);
    forall id | id in db.items
      ensures after.items[id] == before.items[id]
    {
      JourneyCalms(db.access, db.items[id], runs, policies, now);
    }
    assert after.items == before.items;
    UnchangedItemsMeanNoChange(before, limit, runs[n]);
  }

  lemma UnchangedItemsMeanNoChange(db: Tables, limit: nat, run: Run)
    requires SchemaOk(db) && Named(db.items) && FullRun(db, limit, run)
    requires RunOn(db, run.batch, run.policies, run.now).value.0.items == db.items
    ensures RunOn(db, run.batch, run.policies, run.now).value.0 == db
  {
    hide RunOn, Stepped, EventsFor;
    assert Snapshot(db, run.batch);
    RunIsPointwise(db, run.batch, run.policies, run.now);
    forall i | 0 <= i < |run.batch|
      ensures !DecisionFor(db.access, run.batch[i], run.policies, run.now).Changes()
    {
      assert IsLive(db, run.batch[i]);
      StepMovesAtMostOneTier(db.access, run.batch[i], run.policies, run.now);
    }
    QuietBatchHasNoEvents(db.access, run.batch, run.policies, run.now, db.lastEventId + 1);
    assert db.events + [] == db.events;
  }

  lemma {:induction false} QuietBatchHasNoEvents(access: seq<Access>, batch: seq<Item>, policies: seq<Policy>, now: Instant, firstId: int)
    requires forall i :: 0 <= i < |batch| ==> !DecisionFor(access, batch[i], policies, now).Changes()
    ensures EventsFor(access, batch, policies, now, firstId) == []
  {
    if batch != [] {
      hide DecisionFor;
      var n := |batch| - 1;
      assert forall i :: 0 <= i < n ==> batch[..n][i] == batch[i];
      QuietBatchHasNoEvents(access, batch[..n], policies, now, firstId);
    }
  }

  /** At a fixed clock no run after the first demotes, archives or deletes: its report says so. */
  lemma LaterRunsOnlyPromote(db: Tables, limit: nat, runs: seq<Run>, policies: seq<Policy>, now: Instant)
    requires SchemaOk(db) && Named(db.items) && FullRuns(db, limit, runs) && |Live(db.items)| <= limit
    requires AllPositive(policies) && FixedClock(runs, policies, now) && |runs| > 1
    ensures
      var last := runs[|runs| - 1];
      var outcome := RunOn(AfterRuns(db, runs[..|runs| - 1]), last.batch, policies, now);
      outcome.Ok? && outcome.value.1.demoted == 0 && outcome.value.1.archived == 0 && outcome.value.1.deleted == 0
  {
    hide RunOn, SchemaOk, IsBatch, Calm;
    var n := |runs| - 1;
    var run := runs[n];
    FullRunsPrefix(db, limit, runs, n);
    RunsFollowJourneys(db, limit, runs[..n]);
    var before := AfterRuns(db, runs[..n]);
    assert FullRun(before, limit, run);
    BatchOfFullRun(before, limit, run);
    ReportIsExact(before, run.batch, policies, now);
    forall i | 0 <= i < |run.batch|
      ensures
        var d := DecisionFor(before.access, run.batch[i], policies, now);
        !d.Demote? && !d.ToArchive? && !d.Delete?
    {
      assert IsLive(before, run.batch[i]);
      var id := run.batch[i].id;
      JourneyCalms(db.access, db.items[id], runs[..n], policies, now);
      CalmOnlyPromotes(db.access, run.batch[i], policies, now, if n >= 4 then 0 else 4 - n);
    }
    NoneOfKind(before.access, run.batch, policies, now, (d: Decision) => d.Demote?);
    NoneOfKind(before.access, run.batch, policies, now, (d: Decision) => d.ToArchive?);
    NoneOfKind(before.access, run.batch, policies, now, (d: Decision) => d.Delete?);
  }

  lemma BatchOfFullRun(db: Tables, limit: nat, run: Run)
    requires FullRun(db, limit, run)
    ensures Snapshot(db, run.batch)
  {
  }

  lemma {:induction false} NoneOfKind(access: seq<Access>, batch: seq<Item>, policies: seq<Policy>, now: Instant, p: Decision -> bool)
    requires forall i :: 0 <= i < |batch| ==> !p(DecisionFor(access, batch[i], policies, now))
    ensures NumberOf(DecisionsFor(access, batch, policies, now), p) == 0
  {
    if batch != [] {
      hide DecisionFor;
      var n := |batch| - 1;
      assert forall i :: 0 <= i < n ==> batch[..n][i] == batch[i];
      NoneOfKind(access, batch[..n], policies, now, p);
      NumberOfAppend(DecisionsFor(access, batch[..n], policies, now), DecisionFor(access, batch[n], policies, now), p);
    }
  }

  // ----- Ageing -----

  /** The rules that apply to a memory when it is in `tier`. */
  function RulesAt(policies: seq<Policy>, item: Item, tier: Tier): Rules { PolicyFor(item.(tier := tier), policies).rules }

  /** How long a memory may be idle in `tier` before it goes down. */
  function IdleLimit(r: Rules, tier: Tier): int {
    match tier
    case Working => r.demoteWorkingAfter
    case Hot => r.demoteHotAfter
    case Warm => r.demoteWarmAfter
    case _ => r.archiveColdAfter
  }

  /** Scopes look at the tier, the source and the pin alone. */
  lemma {:induction false} SameScopesSamePolicy(a: Item, b: Item, policies: seq<Policy>)
    requires a.tier == b.tier && a.source == b.source && a.pinned == b.pinned
    ensures PolicyFor(a, policies) == PolicyFor(b, policies)
  {
    if policies != [] {
      SameScopesSamePolicy(a, b, policies[1..]);
    }
  }

  /** `now` is so long after `since` that the memory goes down whatever its tier, each tier by the
      policy that applies there. */
  ghost predicate LongAfter(policies: seq<Policy>, item: Item, since: Instant, now: Instant) {
    forall tier: Tier :: tier.Valid() && tier != Archive ==> since + IdleLimit(RulesAt(policies, item, tier), tier) <= now
  }

  /** No policy that applies outside the archive protects the memory. */
  ghost predicate NeverProtected(policies: seq<Policy>, item: Item) {
    forall tier: Tier :: tier.Valid() && tier != Archive ==> Unprotected(RulesAt(policies, item, tier), item)
  }

  ghost predicate TooFewAccesses(access: seq<Access>, id: string, r: Rules, now: Instant) {
    AccessesSince(access, id, now - r.promoteAccessWindow) < r.promoteAccessCount
  }

  /** Too few accesses for the policy of any tier to promote the memory from there. */
  ghost predicate Forgotten(access: seq<Access>, policies: seq<Policy>, item: Item, now: Instant) {
    forall tier: Tier :: PromotionTarget(tier).Some? ==> TooFewAccesses(access, item.id, RulesAt(policies, item, tier), now)
  }

  /** A forgotten memory goes down exactly one tier per run; in the archive it stays or is deleted. */
  lemma AgeingStep(access: seq<Access>, item: Item, policies: seq<Policy>, now: Instant)
    requires AllPositive(policies) && item.tier.Valid() && item.deletedAt.None?
    requires Decide(access, item, policies, now).Ok?
    requires NeverProtected(policies, item) && Forgotten(access, policies, item, now)
    requires item.tier == Archive || LongAfter(policies, item, LastActivity(item), now)
    ensures
      var after := LiveStep(access, item, policies, now);
      && after.tier.Valid() && after.pinned == item.pinned && after.importance == item.importance && after.id == item.id && after.source == item.source
      && (item.tier == Archive ==> after.tier == Archive)
      && (item.tier != Archive ==>
            after.deletedAt.None? && Rank(after.tier) == Rank(item.tier) - 1 && LastActivity(after) == now)
  {
    var r := PolicyFor(item, policies).rules;
    PolicyIsPositive(item, policies);
    assert item.(tier := item.tier) == item;
    assert RulesAt(policies, item, item.tier) == r;
    hide PolicyFor, RulesAt;
    assert item.tier != Archive ==> Unprotected(r, item);
    assert PromotionTarget(item.tier).Some? ==> TooFewAccesses(access, item.id, r, now);
    assert item.tier != Archive ==> LastActivity(item) + IdleLimit(r, item.tier) <= now;
    hide NeverProtected, Forgotten, LongAfter, AllPositive;
    AgeingDecision(access, item, r, now);
  }

  /** What the rules say of a memory that is idle, forgotten and unprotected. */
  lemma AgeingDecision(access: seq<Access>, item: Item, r: Rules, now: Instant)
    requires item.tier.Valid() && PromotionFor(access, item, r, now).Ok?
    requires item.tier != Archive ==> Unprotected(r, item) && LastActivity(item) + IdleLimit(r, item.tier) <= now
    requires PromotionTarget(item.tier).Some? ==> TooFewAccesses(access, item.id, r, now)
    ensures PromotionFor(access, item, r, now) == Ok(None)
    ensures
      var d := DecideByAge(item, r, now);
      match item.tier
      case Working => d == Demote(Hot)
      case Hot => d == Demote(Warm)
      case Warm => d == Demote(Cold)
      case Cold => d == ToArchive
      case _ => !d.Promote? && !d.Demote? && !d.ToArchive?
  {
    hide LastActivity;
  }

  /** Runs of the same policies, each long after the one before, the first after the last activity
      of the memory. */
  ghost predicate WellSpacedRuns(item: Item, runs: seq<Run>, policies: seq<Policy>) {
    && (forall k :: 0 <= k < |runs| ==> runs[k].policies == policies)
    && (forall k :: 0 < k < |runs| ==> LongAfter(policies, item, runs[k - 1].now, runs[k].now))
    && (runs != [] ==> LongAfter(policies, item, LastActivity(item), runs[0].now))
  }

  ghost predicate StaysForgotten(access: seq<Access>, item: Item, runs: seq<Run>, policies: seq<Policy>) {
    forall k :: 0 <= k < |runs| ==> Forgotten(access, policies, item, runs[k].now)
  }

  /** How far a memory has aged after `k` runs. */
  ghost predicate Aged(item: Item, start: Item, k: nat, lastRun: Instant) {
    && item.tier.Valid() && item.pinned == start.pinned && item.importance == start.importance && item.id == start.id && item.source == start.source
    && (item.deletedAt.None? || item.tier == Archive)
    && (item.tier == Archive || (Rank(item.tier) == Rank(start.tier) - k && (k > 0 ==> LastActivity(item) == lastRun)))
    && (k == 0 ==> item == start)
  }

  lemma {:induction false} JourneyAges(db: Tables, limit: nat, runs: seq<Run>, policies: seq<Policy>, id: string)
    requires SchemaOk(db) && Named(db.items) && FullRuns(db, limit, runs) && |Live(db.items)| <= limit
    requires AllPositive(policies) && id in Live(db.items)
    requires WellSpacedRuns(db.items[id], runs, policies) && StaysForgotten(db.access, db.items[id], runs, policies)
    requires NeverProtected(policies, db.items[id])
    ensures Aged(Journey(db.access, db.items[id], runs), db.items[id], |runs|, if runs == [] then 0 else runs[|runs| - 1].now)
  {
    if runs != [] {
      hide RunOn, SchemaOk, LongAfter, Forgotten;
      var n := |runs| - 1;
      FullRunsPrefix(db, limit, runs, n);
      SpacingPrefix(db.access, db.items[id], runs, policies);
      JourneyAges(db, limit, runs[..n], policies, id);
      var item := Journey(db.access, db.items[id], runs[..n]);
      RunsFollowJourneys(db, limit, runs[..n]);
      AgeOnce(db, limit, runs, policies, id, item);
    }
  }

  lemma SpacingPrefix(access: seq<Access>, item: Item, runs: seq<Run>, policies: seq<Policy>)
    requires runs != [] && WellSpacedRuns(item, runs, policies) && StaysForgotten(access, item, runs, policies)
    ensures WellSpacedRuns(item, runs[..|runs| - 1], policies) && StaysForgotten(access, item, runs[..|runs| - 1], policies)
  {
    hide LongAfter, Forgotten;
    var n := |runs| - 1;
    assert forall k :: 0 <= k < n ==> runs[..n][k] == runs[k];
  }

  lemma AgeOnce(db: Tables, limit: nat, runs: seq<Run>, policies: seq<Policy>, id: string, item: Item)
    requires runs != [] && SchemaOk(AfterRuns(db, runs[..|runs| - 1])) && FullRuns(db, limit, runs)
    requires AllPositive(policies) && id in Live(db.items)
    requires WellSpacedRuns(db.items[id], runs, policies) && StaysForgotten(db.access, db.items[id], runs, policies)
    requires NeverProtected(policies, db.items[id]) && Named(db.items)
    requires
      var before := AfterRuns(db, runs[..|runs| - 1]);
      before.access == db.access && before.items.Keys == db.items.Keys && before.items[id] == item && |Live(before.items)| <= limit
    requires Aged(item, db.items[id], |runs| - 1, if |runs| == 1 then 0 else runs[|runs| - 2].now)
    ensures
      var after := LiveStep(db.access, item, runs[|runs| - 1].policies, runs[|runs| - 1].now);
      && Aged(after, db.items[id], |runs|, runs[|runs| - 1].now)
      && (item.tier != Archive ==> Rank(after.tier) == Rank(item.tier) - 1)
  {
    hide RunOn, SchemaOk, LongAfter, Forgotten, IsBatch, Decide, LastActivity, NeverProtected;
    var n := |runs| - 1;
    var run := runs[n];
    assert FullRun(AfterRuns(db, runs[..n]), limit, run);
    if item.deletedAt.None? {
      FullRunDecides(AfterRuns(db, runs[..n]), limit, run, id);
      hide AfterRuns, FullRuns;
      assert Forgotten(db.access, policies, db.items[id], run.now);
      assert n > 0 ==> LongAfter(policies, db.items[id], runs[n - 1].now, run.now);
      RulesAreInherited(db.access, policies, db.items[id], item, LastActivity(item), run.now);
      AgeingStep(db.access, item, policies, run.now);
    }
  }

  lemma RulesAreInherited(access: seq<Access>, policies: seq<Policy>, start: Item, item: Item, since: Instant, now: Instant)
    requires item.id == start.id && item.source == start.source && item.pinned == start.pinned && item.importance == start.importance
    ensures NeverProtected(policies, start) ==> NeverProtected(policies, item)
    ensures Forgotten(access, policies, start, now) ==> Forgotten(access, policies, item, now)
    ensures LongAfter(policies, start, since, now) ==> LongAfter(policies, item, since, now)
  {
    forall tier: Tier
      ensures RulesAt(policies, item, tier) == RulesAt(policies, start, tier)
    {
      SameScopesSamePolicy(item.(tier := tier), start.(tier := tier), policies);
    }
    hide RulesAt;
  }

  lemma FullRunDecides(db: Tables, limit: nat, run: Run, id: string)
    requires SchemaOk(db) && Named(db.items) && FullRun(db, limit, run) && |Live(db.items)| <= limit
    requires id in db.items && db.items[id].deletedAt.None?
    ensures Decide(db.access, db.items[id], run.policies, run.now).Ok?
    ensures db.items[id].id == id
  {
    hide RunOn, Decide;
    SmallStoresAreCovered(db, limit, run.batch, id);
    var i :| 0 <= i < |run.batch| && run.batch[i] == db.items[id];
    BatchOfFullRun(db, limit, run);
    RunSucceedsExactlyWhen(db, run.batch, run.policies, run.now);
    assert Runnable(db.access, run.batch[i], run.policies, run.now);
  }

  /** Four well-spaced runs without access leave every unprotected memory archived or deleted. */
  lemma FourRunsArchiveTheForgotten(db: Tables, limit: nat, runs: seq<Run>, policies: seq<Policy>, id: string)
    requires SchemaOk(db) && Named(db.items) && FullRuns(db, limit, runs) && |Live(db.items)| <= limit
    requires AllPositive(policies) && id in Live(db.items)
    requires WellSpacedRuns(db.items[id], runs, policies) && StaysForgotten(db.access, db.items[id], runs, policies)
    requires NeverProtected(policies, db.items[id]) && |runs| >= 4
    ensures id in AfterRuns(db, runs).items && AfterRuns(db, runs).items[id].tier == Archive
  {
    hide RunOn, SchemaOk, FullRuns, WellSpacedRuns, StaysForgotten, NeverProtected, AfterRuns, Journey, Aged, Live;
    LiveIsStored(db.items, id);
    JourneyAges(db, limit, runs, policies, id);
    RunsFollowJourneys(db, limit, runs);
    AgedOut(Journey(db.access, db.items[id], runs), db.items[id], |runs|, runs[|runs| - 1].now);
  }

  lemma LiveIsStored(items: map<string, Item>, id: string)
    requires id in Live(items)
    ensures id in items
  {
  }

  lemma AgedOut(item: Item, start: Item, k: nat, lastRun: Instant)
    requires Aged(item, start, k, lastRun) && k >= 4
    ensures item.tier == Archive
  {
  }

  /** And each single run on the way lowers it by exactly one tier. */
  lemma EachRunLowersTheForgotten(db: Tables, limit: nat, runs: seq<Run>, policies: seq<Policy>, id: string)
    requires SchemaOk(db) && Named(db.items) && FullRuns(db, limit, runs) && |Live(db.items)| <= limit
    requires AllPositive(policies) && id in Live(db.items)
    requires WellSpacedRuns(db.items[id], runs, policies) && StaysForgotten(db.access, db.items[id], runs, policies)
    requires NeverProtected(policies, db.items[id]) && runs != []
    requires id in AfterRuns(db, runs[..|runs| - 1]).items && AfterRuns(db, runs[..|runs| - 1]).items[id].tier != Archive
    ensures id in AfterRuns(db, runs).items
    ensures Rank(AfterRuns(db, runs).items[id].tier) == Rank(AfterRuns(db, runs[..|runs| - 1]).items[id].tier) - 1
  {
    hide RunOn, SchemaOk, FullRuns, WellSpacedRuns, StaysForgotten, NeverProtected;
    var n := |runs| - 1;
    FullRunsPrefix(db, limit, runs, n);
    SpacingPrefix(db.access, db.items[id], runs, policies);
    JourneyAges(db, limit, runs[..n], policies, id);
    RunsFollowJourneys(db, limit, runs[..n]);
    RunsFollowJourneys(db, limit, runs);
    AgeOnce(db, limit, runs, policies, id, Journey(db.access, db.items[id], runs[..n]));
  }
}
