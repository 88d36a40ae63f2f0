/** When the engine promotes, demotes, archives, deletes or leaves alone, said of the memory's own
    fields, its reads and the days a policy names. */
module Decisions {
  import opened Prelude
  import opened Schema
  import opened Ordering
  import opened Repository
  import opened Lifecycle
  import opened LifecycleLaws
  import opened Service
  import opened ServiceLaws

  // ----- Counting reads -----

  /** The reads of memory `id` at or after `since`. */
  function ReadsIn(access: seq<Access>, id: string, since: Instant): set<nat> {
    set i | 0 <= i < |access| && access[i].memoryId == id && access[i].createdAt >= since
  }

  /** What the engine counts are the reads of this memory in the window, each once. */
  lemma {:induction false} AccessesAreCounted(access: seq<Access>, id: string, since: Instant)
    ensures AccessesSince(access, id, since) == |ReadsIn(access, id, since)|
  {
    if access != [] {
      var n := |access| - 1;
      hide ReadsIn;
      AccessesAreCounted(access[..n], id, since);
      LastRead(access, id, since);
    }
  }

  lemma LastRead(access: seq<Access>, id: string, since: Instant)
    requires access != []
    ensures
      var n := |access| - 1;
      |ReadsIn(access, id, since)|
      == |ReadsIn(access[..n], id, since)| + if access[n].memoryId == id && access[n].createdAt >= since then 1 else 0
  {
    var n := |access| - 1;
    var before := ReadsIn(access[..n], id, since);
    var own := access[n].memoryId == id && access[n].createdAt >= since;
    assert n !in before;
    forall i
      ensures i in ReadsIn(access, id, since) <==> i in before || (own && i == n)
    {
      assert 0 <= i < n ==> access[..n][i] == access[i];
    }
    assert ReadsIn(access, id, since) == if own then before + {n} else before;
  }

  // ----- The decision table -----

  /** Pinned or important enough to be left alone. */
  predicate Guarded(r: Rules, item: Item) {
    (r.protectPinned && item.pinned) || 0 < r.protectImportanceAtOrAbove <= item.importance
  }

  /** Read often enough, in a tier it can leave upwards. */
  predicate EarnsPromotion(access: seq<Access>, item: Item, r: Rules, now: Instant) {
    && (item.tier == Archive || item.tier == Cold || item.tier == Warm)
    && r.promoteAccessCount > 0
    && |ReadsIn(access, item.id, now - r.promoteAccessWindow)| >= r.promoteAccessCount
  }

  /** The memory has been idle as long as `r` asks of its tier. */
  predicate Overdue(item: Item, r: Rules, now: Instant) {
    match item.tier
    case Working => IdleFor(item, r.demoteWorkingAfter, now)
    case Hot => IdleFor(item, r.demoteHotAfter, now)
    case Warm => IdleFor(item, r.demoteWarmAfter, now)
    case Cold => IdleFor(item, r.archiveColdAfter, now)
    case _ => false
  }

  predicate LongArchived(item: Item, r: Rules, now: Instant) {
    && item.tier == Archive && item.archivedAt.Some? && r.deleteArchivedAfter > 0
    && item.archivedAt.value + r.deleteArchivedAfter <= now
  }

  /** Each change happens exactly when it is due: promotion first, then nothing to a guarded memory,
      then deletion, archiving and demotion. */
  lemma DecisionIsExact(access: seq<Access>, item: Item, policies: seq<Policy>, now: Instant)
    requires Decide(access, item, policies, now).Ok?
    ensures
      var r := PolicyFor(item, policies).rules;
      var d := Decide(access, item, policies, now).value;
      var falls := !EarnsPromotion(access, item, r, now) && !Guarded(r, item);
      && (d.Promote? <==> EarnsPromotion(access, item, r, now))
      && (d.Delete? <==> falls && LongArchived(item, r, now))
      && (d.ToArchive? <==> falls && item.tier == Cold && Overdue(item, r, now))
      && (d.Demote? <==> falls && item.tier != Cold && Overdue(item, r, now))
  {
    var r := PolicyFor(item, policies).rules;
    AccessesAreCounted(access, item.id, now - r.promoteAccessWindow);
    hide PolicyFor, AccessesSince, ReadsIn;
  }

  /** No decision is made exactly when reads would be counted, the memory not being in the top two tiers,
      from the zero time on or for a memory without an id. */
  lemma NoDecisionExactlyWhen(access: seq<Access>, item: Item, policies: seq<Policy>, now: Instant)
    ensures
      var r := PolicyFor(item, policies).rules;
      Decide(access, item, policies, now).Err?
      <==> && r.promoteAccessCount > 0 && item.tier != Working && item.tier != Hot && item.tier.Valid()
           && (item.id == "" || now == r.promoteAccessWindow)
  {
    hide PolicyFor, AccessesSince;
  }

  // ----- Which rules apply -----

  const HOURS_24: int := 24 * 60 * 60 * 1_000_000_000

  /** Policy `i` is the one consulted, or the built-in one is when `i` is past the end; all before it
      exclude the memory. */
  predicate ConsultedAt(item: Item, policies: seq<Policy>, i: nat) {
    && i <= |policies|
    && (if i < |policies| then PolicyFor(item, policies) == policies[i] && !Excluded(policies[i].scope, item)
        else PolicyFor(item, policies) == BUILTIN)
    && forall j :: 0 <= j < i ==> Excluded(policies[j].scope, item)
  }

  /** The policy consulted is the first that does not exclude the memory by its tier, its source, or
      because it is pinned. */
  lemma {:induction false} ScopesAreRespected(item: Item, policies: seq<Policy>)
    ensures exists i: nat :: ConsultedAt(item, policies, i)
  {
    if policies == [] {
      assert ConsultedAt(item, policies, 0);
    } else if Excluded(policies[0].scope, item) {
      ScopesAreRespected(item, policies[1..]);
      var i: nat :| ConsultedAt(item, policies[1..], i);
      assert PolicyFor(item, policies) == PolicyFor(item, policies[1..]);
      hide PolicyFor, Excluded;
      forall j | 0 <= j < i + 1
        ensures Excluded(policies[j].scope, item)
      {
        if j > 0 { assert policies[1..][j - 1] == policies[j]; }
      }
      assert i < |policies[1..]| ==> policies[1..][i] == policies[i + 1];
      assert ConsultedAt(item, policies, i + 1);
    } else {
      assert ConsultedAt(item, policies, 0);
    }
  }

  predicate Excluded(s: Scope, item: Item) {
    || (s.tiers != [] && forall i :: 0 <= i < |s.tiers| ==> s.tiers[i] != item.tier)
    || (s.sources != [] && forall i :: 0 <= i < |s.sources| ==> s.sources[i] != item.source)
    || (s.includePinned.Some? && !s.includePinned.value && item.pinned)
  }

  /** `span` is `days` days if that is positive, else the default. */
  predicate InDays(span: int, days: int, fallback: int) {
    if days > 0 then span == days * HOURS_24 else span == fallback * HOURS_24
  }

  /** The rules a policy's overrides stand for: each names its own threshold, in days, and zero or
      less leaves the default of 1, 7, 30 and 90 days, of 3 reads in 7 days, of guarding pinned
      memories and importance 90, and of never deleting. */
  predicate RulesInDays(r: Rules, o: Overrides) {
    && InDays(r.demoteWorkingAfter, o.demoteWorkingAfterDays, 1)
    && InDays(r.demoteHotAfter, o.demoteHotAfterDays, 7)
    && InDays(r.demoteWarmAfter, o.demoteWarmAfterDays, 30)
    && InDays(r.archiveColdAfter, o.archiveColdAfterDays, 90)
    && InDays(r.deleteArchivedAfter, o.deleteArchivedAfterDays, 0)
    && InDays(r.promoteAccessWindow, o.promoteAccessWindowDays, 7)
    && r.promoteAccessCount == (if o.promoteAccessCount > 0 then o.promoteAccessCount else 3)
    && (r.protectPinned <==> o.protectPinned != Some(false))
    && r.protectImportanceAtOrAbove == (if o.protectImportanceAtOrAbove > 0 then o.protectImportanceAtOrAbove else 90)
  }

  /** Every memory is judged by rules in days: those of the enabled policy consulted, or the defaults. */
  lemma RulesAreInDays(codec: PolicyCodec, rows: seq<PolicyRow>, item: Item)
    requires LoadPolicies(codec, rows).Ok?
    ensures
      var p := PolicyFor(item, LoadPolicies(codec, rows).value);
      || (p.id == "builtin-default" && RulesInDays(p.rules, Overrides(0, 0, 0, 0, 0, 0, 0, None, 0)))
      || exists i :: 0 <= i < |rows| && p.id == rows[i].id && OverridesOf(codec, rows[i]).Some?
                     && RulesInDays(p.rules, OverridesOf(codec, rows[i]).value)
  {
    var policies := LoadPolicies(codec, rows).value;
    PolicyForIsFirstMatch(item, policies);
    if i :| 0 <= i < |policies| && PolicyFor(item, policies) == policies[i] {
      LoadedPoliciesAreParsed(codec, rows, i);
      hide LoadPolicies, PolicyFor;
      assert OverridesOf(codec, rows[i]).Some? && RulesInDays(policies[i].rules, OverridesOf(codec, rows[i]).value);
    }
  }

  /** What a stored policy's rules decode to; no text at all overrides nothing. */
  function OverridesOf(codec: PolicyCodec, row: PolicyRow): Option<Overrides> {
    if row.rules == "" then Some(Overrides(0, 0, 0, 0, 0, 0, 0, None, 0)) else codec.rules(row.rules)
  }

  // ----- Reading a memory -----

  /** Reading a memory moves it up one tier exactly when its reads in the window, this one included,
      are enough; the row is otherwise the one before, with both times of activity now. What Get
      returns is the row it promoted, or else the row before with the new time of reading. */
  lemma GetPromotesExactlyWhen(db: Tables, id: string, policies: seq<Policy>, now: Instant)
    requires SchemaOk(db) && GetTxOn(db, id, Ok(policies), now).Ok?
    ensures
      var after := GetTxOn(db, id, Ok(policies), now).value.0;
      id in db.items && ReadRow(db, id, PolicyFor(db.items[id].(lastAccessedAt := Some(now)), policies).rules, now, after)
    ensures
      var (after, item) := GetTxOn(db, id, Ok(policies), now).value;
      item == if after.items[id].tier != db.items[id].tier then after.items[id] else db.items[id].(lastAccessedAt := Some(now))
  {
    GetSucceedsExactlyWhen(db, id, Ok(policies), now);
    assert db.items[id].id == id;
    hide SchemaOk, GetTxOn, PolicyFor;
    ReadRowOf(db, id, policies, now);
  }

  /** The row and the reads after a read. */
  predicate ReadRow(db: Tables, id: string, r: Rules, now: Instant, after: Tables)
    requires id in db.items
  {
    var item := db.items[id];
    && after.access == db.access + [Access(db.lastAccessId + 1, id, "get", None, now)]
    && after.items == db.items[id :=
         if EarnsPromotion(after.access, item, r, now)
         then item.(tier := OneUp(item.tier), archivedAt := if item.tier == Archive then None else item.archivedAt,
                    lastAccessedAt := Some(now), updatedAt := now)
         else item.(lastAccessedAt := Some(now), updatedAt := now)]
  }

  lemma ReadRowOf(db: Tables, id: string, policies: seq<Policy>, now: Instant)
    requires id in db.items && db.items[id].id == id && GetDecision(db, id, policies, now).Ok?
    ensures ReadRow(db, id, PolicyFor(db.items[id].(lastAccessedAt := Some(now)), policies).rules, now, AfterGet(db, id, policies, now))
    ensures GetDecision(db, id, policies, now).value.Promote? <==> AfterGet(db, id, policies, now).items[id].tier != db.items[id].tier
    ensures AfterGet(db, id, policies, now).items[id].lastAccessedAt == Some(now)
  {
    var item := db.items[id].(lastAccessedAt := Some(now));
    var r := PolicyFor(item, policies).rules;
    var access := Touched(db, id, now).access;
    AccessesAreCounted(access, id, now - r.promoteAccessWindow);
    hide PolicyFor, AccessesSince, ReadsIn, ChangeFor, EventName;
    assert GetDecision(db, id, policies, now).value == (if EarnsPromotion(access, item, r, now) then Promote(OneUp(item.tier)) else Keep);
    hide PromotionFor, GetDecision, EarnsPromotion;
  }

  // ----- What a run leaves of a memory -----

  function OneUp(tier: Tier): Tier {
    match tier
    case Archive => Cold
    case Cold => Warm
    case Warm => Hot
    case _ => tier
  }

  function OneDown(tier: Tier): Tier {
    match tier
    case Working => Hot
    case Hot => Warm
    case Warm => Cold
    case _ => tier
  }

  lemma TargetsAreNeighbours(access: seq<Access>, item: Item, policies: seq<Policy>, now: Instant)
    ensures
      var d := DecisionFor(access, item, policies, now);
      (d.Promote? ==> d.to == OneUp(item.tier)) && (d.Demote? ==> d.to == OneDown(item.tier) && item.tier != Cold)
  {
    hide PolicyFor, AccessesSince;
  }

  /** The row that a run under rules `r` leaves of `item`: up one tier when earned, else untouched when
      guarded, else deleted, archived or down one tier when it is time; nothing but the fields named. */
  function RowAfterRun(item: Item, access: seq<Access>, r: Rules, now: Instant): Item {
    if EarnsPromotion(access, item, r, now) then
      item.(tier := OneUp(item.tier), archivedAt := if item.tier == Archive then None else item.archivedAt, updatedAt := now)
    else if Guarded(r, item) then item
    else if LongArchived(item, r, now) then item.(deletedAt := Some(now), updatedAt := now)
    else if !Overdue(item, r, now) then item
    else if item.tier == Cold then item.(tier := Archive, archivedAt := Some(now), updatedAt := now)
    else item.(tier := OneDown(item.tier), updatedAt := now)
  }

  /** A run leaves each memory of its batch as the decision table says under the rules of its policy,
      and every other memory, and the reads, as they were. */
  lemma RunFollowsTheTable(db: Tables, batch: seq<Item>, policies: seq<Policy>, now: Instant)
    requires SchemaOk(db) && Named(db.items) && Snapshot(db, batch) && RunOn(db, batch, policies, now).Ok?
    ensures
      var after := RunOn(db, batch, policies, now).value.0;
      && after.access == db.access && after.items.Keys == db.items.Keys
      && (forall i :: 0 <= i < |batch| ==>
            after.items[batch[i].id] == RowAfterRun(batch[i], db.access, PolicyFor(batch[i], policies).rules, now))
      && (forall id :: id in db.items && db.items[id] !in batch ==> after.items[id] == db.items[id])
  {
    RunIsPointwise(db, batch, policies, now);
    var after := RunOn(db, batch, policies, now).value.0;
    RunSucceedsExactlyWhen(db, batch, policies, now);
    hide RunOn, EventsFor, SchemaOk, RowAfterRun;
    forall i | 0 <= i < |batch|
      ensures after.items[batch[i].id] == RowAfterRun(batch[i], db.access, PolicyFor(batch[i], policies).rules, now)
    {
      DecisionMakesTheRow(db.access, batch[i], policies, now);
    }
  }

  lemma DecisionMakesTheRow(access: seq<Access>, item: Item, policies: seq<Policy>, now: Instant)
    requires Decide(access, item, policies, now).Ok?
    ensures After(item, DecisionFor(access, item, policies, now), now) == RowAfterRun(item, access, PolicyFor(item, policies).rules, now)
  {
    DecisionIsExact(access, item, policies, now);
    TargetsAreNeighbours(access, item, policies, now);
    hide Decide, PolicyFor, EarnsPromotion, Overdue, LongArchived, Guarded;
  }

  // ----- Which memories a run looks at -----

  /** A run looks at live memories, each once, at most 500 unless a limit is given and never more than
      5000; a live memory is passed over only when the run is full of memories updated no later. */
  lemma RunTakesTheOldest(db: Tables, limit: int, batch: seq<Item>, id: string)
    requires IsBatch(db, NormalizeLifecycleLimit(limit), batch) && id in db.items
    ensures
      var most := if limit <= 0 then 500 else if limit > 5000 then 5000 else limit;
      && |batch| <= most
      && (forall i :: 0 <= i < |batch| ==> batch[i].deletedAt.None? && batch[i].id in db.items && batch[i] == db.items[batch[i].id])
      && (forall i, j :: 0 <= i < j < |batch| ==> batch[i].id != batch[j].id)
      && (db.items[id].deletedAt.None? && |batch| < most ==> db.items[id] in batch)
      && (forall i :: 0 <= i < |batch| && db.items[id].deletedAt.None? && db.items[id].updatedAt < batch[i].updatedAt ==> db.items[id] in batch)
  {
  }

  // ----- Creating a policy -----

  /** A policy is stored exactly if it is named, timed and new; missing JSON texts become `{}`. */
  lemma PolicyIsStoredExactlyWhen(db: Tables, p: PolicyRow)
    ensures CreatePolicyOn(db, p).Ok?
            <==> p.id != "" && p.name != "" && p.createdAt != 0 && p.updatedAt != 0 && p.id !in db.policies
    ensures CreatePolicyOn(db, p).Ok? ==>
              CreatePolicyOn(db, p).value
              == db.(policies := db.policies[p.id := p.(scope := if p.scope == "" then "{}" else p.scope,
                                                        rules := if p.rules == "" then "{}" else p.rules)])
  {
  }
}
