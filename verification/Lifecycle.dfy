/** The lifecycle engine: retention policies, the decision for one memory, and the batch run. */
module Lifecycle {
  import opened Prelude
  import opened Schema
  import opened Repository

  const DEFAULT_LIMIT := 500
  const MAX_LIMIT := 5000

  // ----- Policies -----

  datatype Rules = Rules(demoteWorkingAfter: int, demoteHotAfter: int, demoteWarmAfter: int, archiveColdAfter: int,
                         deleteArchivedAfter: int, promoteAccessCount: int, promoteAccessWindow: int,
                         protectPinned: bool, protectImportanceAtOrAbove: int)

  /** rules_json: a value of 0 leaves the default in place. */
  datatype Overrides = Overrides(demoteWorkingAfterDays: int, demoteHotAfterDays: int, demoteWarmAfterDays: int,
                                 archiveColdAfterDays: int, deleteArchivedAfterDays: int, promoteAccessCount: int,
                                 promoteAccessWindowDays: int, protectPinned: Option<bool>, protectImportanceAtOrAbove: int)

  datatype Scope = Scope(tiers: seq<Tier>, sources: seq<string>, includePinned: Option<bool>)

  datatype Policy = Policy(id: string, name: string, scope: Scope, rules: Rules)

  const DEFAULT_RULES := Rules(DAY, 7 * DAY, 30 * DAY, 90 * DAY, 0, 3, 7 * DAY, true, 90)

  const EVERYTHING := Scope([], [], None)

  const NO_OVERRIDES := Overrides(0, 0, 0, 0, 0, 0, 0, None, 0)

  const BUILTIN := Policy("builtin-default", "Built-in default lifecycle policy", EVERYTHING, DEFAULT_RULES)

  function Days(n: int): int { n * 86_400_000_000_000 }

  function MergeRules(base: Rules, o: Overrides): Rules {
    Rules(if o.demoteWorkingAfterDays > 0 then Days(o.demoteWorkingAfterDays) else base.demoteWorkingAfter,
          if o.demoteHotAfterDays > 0 then Days(o.demoteHotAfterDays) else base.demoteHotAfter,
          if o.demoteWarmAfterDays > 0 then Days(o.demoteWarmAfterDays) else base.demoteWarmAfter,
          if o.archiveColdAfterDays > 0 then Days(o.archiveColdAfterDays) else base.archiveColdAfter,
          if o.deleteArchivedAfterDays > 0 then Days(o.deleteArchivedAfterDays) else base.deleteArchivedAfter,
          if o.promoteAccessCount > 0 then o.promoteAccessCount else base.promoteAccessCount,
          if o.promoteAccessWindowDays > 0 then Days(o.promoteAccessWindowDays) else base.promoteAccessWindow,
          if o.protectPinned.Some? then o.protectPinned.value else base.protectPinned,
          if o.protectImportanceAtOrAbove > 0 then o.protectImportanceAtOrAbove else base.protectImportanceAtOrAbove)
  }

  /** How the JSON of a policy row decodes; None when it does not. */
  datatype PolicyCodec = PolicyCodec(scope: string -> Option<Scope>, rules: string -> Option<Overrides>)

  function ParsePolicy(codec: PolicyCodec, row: PolicyRow): Result<Policy, Error> {
    var scope := if row.scope == "" then Some(EVERYTHING) else codec.scope(row.scope);
    var rules := if row.rules == "" then Some(NO_OVERRIDES) else codec.rules(row.rules);
    if scope.None? || rules.None? then Err(Invalid)
    else Ok(Policy(row.id, row.name, scope.value, MergeRules(DEFAULT_RULES, rules.value)))
  }

  function LoadPolicies(codec: PolicyCodec, rows: seq<PolicyRow>): (r: Result<seq<Policy>, Error>)
    ensures r.Err? ==> r.error == Invalid
  {
    if rows == [] then Ok([])
    else
      var n := |rows| - 1;
      var before :- LoadPolicies(codec, rows[..n]);
      var policy :- ParsePolicy(codec, rows[n]);
      Ok(before + [policy])
  }

  lemma {:induction false} LoadStopsAtFirstError(codec: PolicyCodec, rows: seq<PolicyRow>, k: nat)
    requires k <= |rows| && LoadPolicies(codec, rows[..k]).Err?
    ensures LoadPolicies(codec, rows).Err?
  {
    if k < |rows| {
      var n := |rows| - 1;
      assert rows[..n][..k] == rows[..k];
      LoadStopsAtFirstError(codec, rows[..n], k);
    } else {
      assert rows[..k] == rows;
    }
  }

  method LoadLifecyclePolicies(codec: PolicyCodec, rows: seq<PolicyRow>) returns (r: Result<seq<Policy>, Error>)
    ensures r == LoadPolicies(codec, rows)
  {
    var out: seq<Policy> := [];
    for k := 0 to |rows|
      invariant LoadPolicies(codec, rows[..k]) == Ok(out)
    {
      assert rows[..k + 1][..k] == rows[..k];
      var parsed := ParsePolicy(codec, rows[k]);
      if parsed.Err? {
        LoadStopsAtFirstError(codec, rows, k + 1);
        return Err(Invalid);
      }
      out := out + [parsed.value];
    }
    assert rows[..|rows|] == rows;
    return Ok(out);
  }

  /** Rules whose thresholds all lie ahead; deletion is off or lies ahead too. */
  predicate Positive(r: Rules) {
    && r.demoteWorkingAfter > 0 && r.demoteHotAfter > 0 && r.demoteWarmAfter > 0 && r.archiveColdAfter > 0
    && r.deleteArchivedAfter >= 0 && r.promoteAccessCount > 0 && r.promoteAccessWindow > 0
  }

  predicate AllPositive(policies: seq<Policy>) {
    forall i :: 0 <= i < |policies| ==> Positive(policies[i].rules)
  }

  /** Whatever a stored policy says, its merged thresholds are positive, and it deletes only when
      it names a positive delete threshold itself. */
  lemma {:induction false} LoadedPoliciesArePositive(codec: PolicyCodec, rows: seq<PolicyRow>)
    requires LoadPolicies(codec, rows).Ok?
    ensures AllPositive(LoadPolicies(codec, rows).value)
    ensures |LoadPolicies(codec, rows).value| == |rows|
    ensures forall i :: 0 <= i < |rows| ==>
              LoadPolicies(codec, rows).value[i].id == rows[i].id
              && (LoadPolicies(codec, rows).value[i].rules.deleteArchivedAfter > 0
                  ==> codec.rules(rows[i].rules).Some? && codec.rules(rows[i].rules).value.deleteArchivedAfterDays > 0)
  {
    if rows != [] {
      LoadedPoliciesArePositive(codec, rows[..|rows| - 1]);
    }
  }

  lemma {:induction false} LoadedPoliciesAreParsed(codec: PolicyCodec, rows: seq<PolicyRow>, i: nat)
    requires LoadPolicies(codec, rows).Ok? && i < |LoadPolicies(codec, rows).value|
    ensures i < |rows| && ParsePolicy(codec, rows[i]) == Ok(LoadPolicies(codec, rows).value[i])
  {
    LoadedPoliciesArePositive(codec, rows);
    if i < |rows| - 1 {
      LoadedPoliciesArePositive(codec, rows[..|rows| - 1]);
      LoadedPoliciesAreParsed(codec, rows[..|rows| - 1], i);
    }
  }

  predicate Matches(s: Scope, item: Item) {
    && (s.tiers == [] || item.tier in s.tiers)
    && (s.sources == [] || item.source in s.sources)
    && !(s.includePinned == Some(false) && item.pinned)
  }

  function PolicyFor(item: Item, policies: seq<Policy>): Policy {
    if policies == [] then BUILTIN
    else if Matches(policies[0].scope, item) then policies[0]
    else PolicyFor(item, policies[1..])
  }

  method PolicyForItem(item: Item, policies: seq<Policy>) returns (p: Policy)
    ensures p == PolicyFor(item, policies)
  {
    for k := 0 to |policies|
      invariant PolicyFor(item, policies) == PolicyFor(item, policies[k..])
    {
      if Matches(policies[k].scope, item) {
        return policies[k];
      }
      assert policies[k..][1..] == policies[k + 1..];
    }
    return BUILTIN;
  }

  /** The first policy in order whose scope matches, else the built-in one. */
  lemma {:induction false} PolicyForIsFirstMatch(item: Item, policies: seq<Policy>)
    ensures
      || (PolicyFor(item, policies) == BUILTIN && forall i :: 0 <= i < |policies| ==> !Matches(policies[i].scope, item))
      || exists i :: 0 <= i < |policies| && PolicyFor(item, policies) == policies[i] && Matches(policies[i].scope, item)
                     && forall j :: 0 <= j < i ==> !Matches(policies[j].scope, item)
  {
    if policies != [] && !Matches(policies[0].scope, item) {
      PolicyForIsFirstMatch(item, policies[1..]);
      if i :| 0 <= i < |policies[1..]| && PolicyFor(item, policies[1..]) == policies[1..][i] && Matches(policies[1..][i].scope, item)
              && forall j :: 0 <= j < i ==> !Matches(policies[1..][j].scope, item) {
        assert policies[i + 1] == policies[1..][i];
        forall j | 0 <= j < i + 1
          ensures !Matches(policies[j].scope, item)
        {
          if j > 0 { assert policies[1..][j - 1] == policies[j]; }
        }
      } else {
        forall j | 0 <= j < |policies|
          ensures !Matches(policies[j].scope, item)
        {
          if j > 0 { assert policies[1..][j - 1] == policies[j]; }
        }
      }
    }
  }

  // ----- The decision for one memory -----

  function LastActivity(item: Item): Instant {
    var latest := if item.lastAccessedAt.Some? && item.lastAccessedAt.value > item.updatedAt
                  then item.lastAccessedAt.value else item.updatedAt;
    if item.createdAt > latest then item.createdAt else latest
  }

  function PromotionTarget(tier: Tier): Option<Tier> {
    match tier
    case Archive => Some(Cold)
    case Cold => Some(Warm)
    case Warm => Some(Hot)
    case _ => None
  }

  function DemotionTarget(item: Item, r: Rules, now: Instant): Option<Tier> {
    var idle := LastActivity(item);
    match item.tier
    case Working => if now >= idle + r.demoteWorkingAfter then Some(Hot) else None
    case Hot => if now >= idle + r.demoteHotAfter then Some(Warm) else None
    case Warm => if now >= idle + r.demoteWarmAfter then Some(Cold) else None
    case _ => None
  }

  predicate DueForDeletion(item: Item, r: Rules, now: Instant) {
    item.tier == Archive && r.deleteArchivedAfter > 0 && item.archivedAt.Some?
    && now >= item.archivedAt.value + r.deleteArchivedAfter
  }

  predicate DueForArchive(item: Item, r: Rules, now: Instant) {
    item.tier == Cold && now >= LastActivity(item) + r.archiveColdAfter
  }

  predicate WouldChangeByAge(item: Item, r: Rules, now: Instant) {
    DueForDeletion(item, r, now) || DueForArchive(item, r, now) || DemotionTarget(item, r, now).Some?
  }

  datatype Decision = Keep | SkipPinned | SkipImportant | Promote(to: Tier) | Demote(to: Tier) | ToArchive | Delete {
    predicate Changes() { Promote? || Demote? || ToArchive? || Delete? }
  }

  function PromotionFor(access: seq<Access>, item: Item, r: Rules, now: Instant): Result<Option<Tier>, Error> {
    var target := PromotionTarget(item.tier);
    if r.promoteAccessCount <= 0 || target.None? then Ok(None)
    else if item.id == "" || now - r.promoteAccessWindow == 0 then Err(Invalid)
    else if AccessesSince(access, item.id, now - r.promoteAccessWindow) < r.promoteAccessCount then Ok(None)
    else Ok(target)
  }

  predicate PinProtects(item: Item, r: Rules) { r.protectPinned && item.pinned }

  predicate ImportanceProtects(item: Item, r: Rules) {
    r.protectImportanceAtOrAbove > 0 && item.importance >= r.protectImportanceAtOrAbove
  }

  function DecideByAge(item: Item, r: Rules, now: Instant): Decision {
    if PinProtects(item, r) then (if WouldChangeByAge(item, r, now) then SkipPinned else Keep)
    else if ImportanceProtects(item, r) then (if WouldChangeByAge(item, r, now) then SkipImportant else Keep)
    else if DueForDeletion(item, r, now) then Delete
    else if DueForArchive(item, r, now) then ToArchive
    else
      match DemotionTarget(item, r, now)
      case Some(tier) => Demote(tier)
      case None => Keep
  }

  function Decide(access: seq<Access>, item: Item, policies: seq<Policy>, now: Instant): Result<Decision, Error> {
    var r := PolicyFor(item, policies).rules;
    var promotion :- PromotionFor(access, item, r, now);
    if promotion.Some? then Ok(Promote(promotion.value)) else Ok(DecideByAge(item, r, now))
  }

  // ----- Carrying a decision out -----

  function UpdateFor(item: Item, d: Decision, now: Instant): MemoryUpdate
    requires d.Changes()
  {
    match d
    case Promote(to) => NoUpdate(now).(tier := Some(to), clearArchivedAt := item.tier == Archive)
    case Demote(to) => NoUpdate(now).(tier := Some(to))
    case ToArchive => NoUpdate(now).(tier := Some(Archive), archivedAt := Some(now))
    case Delete => NoUpdate(now).(deletedAt := Some(now))
  }

  function ChangeFor(item: Item, d: Decision, policyId: string): Change
    requires d.Changes()
  {
    match d
    case Promote(to) => Change(item.id, Promoted, item.tier, Some(to), policyId)
    case Demote(to) => Change(item.id, Demoted, item.tier, Some(to), policyId)
    case ToArchive => Change(item.id, Archived, item.tier, Some(Archive), policyId)
    case Delete => Change(item.id, Deleted, item.tier, None, policyId)
  }

  function EventName(a: Action): string {
    "lifecycle_" + match a case Promoted => "promoted" case Demoted => "demoted" case Archived => "archived" case Deleted => "deleted"
  }

  /** The memory after a decision. */
  function After(item: Item, d: Decision, now: Instant): Item {
    if d.Changes() then Patched(item, UpdateFor(item, d, now)) else item
  }

  function CarryOut(db: Tables, item: Item, d: Decision, policyId: string, now: Instant): Result<Tables, Error> {
    if !d.Changes() then Ok(db)
    else
      var updated :- UpdateItemOn(db, item.id, UpdateFor(item, d, now));
      var change := ChangeFor(item, d, policyId);
      RecordEventOn(updated, item.id, EventName(change.action), Lifecycle(change), now)
  }

  datatype Report = Report(evaluated: nat, promoted: nat, demoted: nat, archived: nat, deleted: nat,
                           skippedPinned: nat, skippedImportant: nat, changes: seq<Change>)

  function Count(b: bool): nat { if b then 1 else 0 }

  function Tally(r: Report, item: Item, d: Decision, policyId: string): Report {
    r.(promoted := r.promoted + Count(d.Promote?),
       demoted := r.demoted + Count(d.Demote?),
       archived := r.archived + Count(d.ToArchive?),
       deleted := r.deleted + Count(d.Delete?),
       skippedPinned := r.skippedPinned + Count(d.SkipPinned?),
       skippedImportant := r.skippedImportant + Count(d.SkipImportant?),
       changes := if d.Changes() then r.changes + [ChangeFor(item, d, policyId)] else r.changes)
  }

  /** The batch run over memories `batch`, read before the first change. */
  function RunOn(db: Tables, batch: seq<Item>, policies: seq<Policy>, now: Instant): Result<(Tables, Report), Error> {
    if batch == [] then Ok((db, Report(0, 0, 0, 0, 0, 0, 0, [])))
    else
      var n := |batch| - 1;
      var before :- RunOn(db, batch[..n], policies, now);
      var d :- Decide(before.0.access, batch[n], policies, now);
      var policyId := PolicyFor(batch[n], policies).id;
      var after :- CarryOut(before.0, batch[n], d, policyId, now);
      Ok((after, Tally(before.1, batch[n], d, policyId).(evaluated := |batch|)))
  }

  function NormalizeLifecycleLimit(limit: int): nat {
    if limit <= 0 then DEFAULT_LIMIT else if limit > MAX_LIMIT then MAX_LIMIT else limit
  }

  /** The rows ListActive may return: up to `limit` live memories, oldest update first; which of
      several equally old ones come first is left to SQLite. */
  ghost predicate IsBatch(db: Tables, limit: nat, batch: seq<Item>) {
    && (forall i :: 0 <= i < |batch| ==> IsLive(db, batch[i]))
    && (forall i, j :: 0 <= i < j < |batch| ==> batch[i].id != batch[j].id && batch[i].updatedAt <= batch[j].updatedAt)
    && |batch| <= limit
    && (forall id :: id in db.items && db.items[id].deletedAt.None? && db.items[id] !in batch ==>
          |batch| == limit && forall i :: 0 <= i < |batch| ==> batch[i].updatedAt <= db.items[id].updatedAt)
  }

  predicate IsLive(db: Tables, item: Item) {
    item.id in db.items && db.items[item.id] == item && item.deletedAt.None?
  }
}
