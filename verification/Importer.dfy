/** ImportNDJSON against the store: parse, validate, check for conflicts, then apply in one
    transaction that a dry run or a failure rolls back. */
module Importer {
  import opened Prelude
  import opened Schema
  import opened Keywords
  import opened Ordering
  import opened Repository
  import opened Ndjson
  import opened Parser
  import opened Import
  import opened ImportApply

  lemma {:induction false} ItemsStop(db: Tables, items: seq<Item>, k: nat)
    requires k <= |items| && ImportItemsOn(db, items[..k]).Err?
    ensures ImportItemsOn(db, items) == ImportItemsOn(db, items[..k])
  {
    hide CreateItemOn;
    var n := |items| - 1;
    if k <= n {
      assert items[..n][..k] == items[..k];
      ItemsStop(db, items[..n], k);
    } else {
      assert items[..k] == items;
    }
  }

  lemma {:induction false} ChunksStop(db: Tables, chunks: seq<Chunk>, k: nat)
    requires k <= |chunks| && ImportChunksOn(db, chunks[..k]).Err?
    ensures ImportChunksOn(db, chunks) == ImportChunksOn(db, chunks[..k])
  {
    hide AddChunkOn;
    var n := |chunks| - 1;
    if k <= n {
      assert chunks[..n][..k] == chunks[..k];
      ChunksStop(db, chunks[..n], k);
    } else {
      assert chunks[..k] == chunks;
    }
  }

  lemma {:induction false} KeywordsStop(t: Texts, db: Tables, keywords: seq<Keyword>, order: seq<string>, k: nat)
    requires k <= |order| && ImportKeywordsOn(t, db, keywords, order[..k]).Err?
    ensures ImportKeywordsOn(t, db, keywords, order) == ImportKeywordsOn(t, db, keywords, order[..k])
  {
    hide ReplaceKeywordsOn, RowsFor;
    var n := |order| - 1;
    if k <= n {
      assert order[..n][..k] == order[..k];
      KeywordsStop(t, db, keywords, order[..n], k);
    } else {
      assert order[..k] == order;
    }
  }

  lemma {:induction false} EventsStop(db: Tables, events: seq<Event>, k: nat)
    requires k <= |events| && ImportEventsOn(db, events[..k]).Err?
    ensures ImportEventsOn(db, events) == ImportEventsOn(db, events[..k])
  {
    hide InsertEvent;
    var n := |events| - 1;
    if k <= n {
      assert events[..n][..k] == events[..k];
      EventsStop(db, events[..n], k);
    } else {
      assert events[..k] == events;
    }
  }

  lemma {:induction false} PoliciesStop(db: Tables, policies: seq<PolicyRow>, k: nat)
    requires k <= |policies| && ImportPoliciesOn(db, policies[..k]).Err?
    ensures ImportPoliciesOn(db, policies) == ImportPoliciesOn(db, policies[..k])
  {
    hide CreatePolicyOn;
    var n := |policies| - 1;
    if k <= n {
      assert policies[..n][..k] == policies[..k];
      PoliciesStop(db, policies[..n], k);
    } else {
      assert policies[..k] == policies;
    }
  }

  lemma {:induction false} AccessStop(db: Tables, access: seq<Access>, k: nat)
    requires k <= |access| && ImportAccessOn(db, access[..k]).Err?
    ensures ImportAccessOn(db, access) == ImportAccessOn(db, access[..k])
  {
    hide InsertAccess;
    var n := |access| - 1;
    if k <= n {
      assert access[..n][..k] == access[..k];
      AccessStop(db, access[..n], k);
    } else {
      assert access[..k] == access;
    }
  }

  lemma {:induction false} SomeOrder(ids: set<string>) returns (order: seq<string>)
    ensures forall id :: id in order <==> id in ids
    ensures forall i, j :: 0 <= i < j < |order| ==> order[i] != order[j]
  {
    order := [];
    if ids != {} {
      var id :| id in ids;
      var rest := SomeOrder(ids - {id});
      order := [id] + rest;
      assert forall i :: 0 < i < |order| ==> order[i] == rest[i - 1] && rest[i - 1] in rest;
      assert forall x :: x in order <==> x == id || x in rest;
    }
  }

  /** The rows of each memory, in file order. */
  ghost predicate IsGrouping(keywords: seq<Keyword>, groups: map<string, seq<Keyword>>) {
    && (forall id :: id in groups <==> HasKeywords(keywords, id))
    && (forall id :: id in groups ==> groups[id] == RowsFor(keywords, id))
  }

  lemma {:induction false} NoRows(keywords: seq<Keyword>, id: string)
    requires !HasKeywords(keywords, id)
    ensures RowsFor(keywords, id) == []
  {
    if keywords != [] {
      var n := |keywords| - 1;
      assert keywords[n].memoryId != id;
      NoRows(keywords[..n], id);
    }
  }

  lemma OneMoreHas(keywords: seq<Keyword>, k: nat)
    requires k < |keywords|
    ensures forall id :: HasKeywords(keywords[..k + 1], id) <==> HasKeywords(keywords[..k], id) || id == keywords[k].memoryId
  {
    forall id
      ensures HasKeywords(keywords[..k + 1], id) <==> HasKeywords(keywords[..k], id) || id == keywords[k].memoryId
    {
      if HasKeywords(keywords[..k], id) {
        var i :| 0 <= i < k && keywords[..k][i].memoryId == id;
        assert keywords[..k + 1][i].memoryId == id;
      }
      assert keywords[..k + 1][k] == keywords[k];
    }
  }

  lemma GroupingGrows(keywords: seq<Keyword>, k: nat, groups: map<string, seq<Keyword>>)
    requires k < |keywords| && IsGrouping(keywords[..k], groups)
    ensures
      var id := keywords[k].memoryId;
      IsGrouping(keywords[..k + 1], groups[id := (if id in groups then groups[id] else []) + [keywords[k]]])
  {
    var id := keywords[k].memoryId;
    OneMoreHas(keywords, k);
    if id !in groups {
      NoRows(keywords[..k], id);
    }
    assert keywords[..k + 1][..k] == keywords[..k];
    hide HasKeywords;
  }

  lemma NextMemory(t: Texts, db: Tables, keywords: seq<Keyword>, order: seq<string>, id: string)
    ensures
      var before := ImportKeywordsOn(t, db, keywords, order);
      ImportKeywordsOn(t, db, keywords, order + [id])
      == if before.Ok? then ReplaceKeywordsOn(t, before.value, id, RowsFor(keywords, id)) else before
  {
    hide ReplaceKeywordsOn, RowsFor;
    assert (order + [id])[..|order|] == order;
  }

  /** The order in which the memories would have come had `id` not failed. */
  lemma FullOrder(t: Texts, db: Tables, keywords: seq<Keyword>, order: seq<string>, id: string, others: seq<string>) returns (full: seq<string>)
    requires ImportKeywordsOn(t, db, keywords, order + [id]).Err?
    requires forall i, j :: 0 <= i < j < |order| ==> order[i] != order[j]
    requires forall i, j :: 0 <= i < j < |others| ==> others[i] != others[j]
    requires id !in order && id !in others && forall x :: x in order ==> x !in others
    ensures forall x :: x in full <==> x in order || x == id || x in others
    ensures forall i, j :: 0 <= i < j < |full| ==> full[i] != full[j]
    ensures ImportKeywordsOn(t, db, keywords, full) == ImportKeywordsOn(t, db, keywords, order + [id])
  {
    hide ImportKeywordsOn;
    full := order + [id] + others;
    var k := |order| + 1;
    assert full[..k] == order + [id];
    KeywordsStop(t, db, keywords, full, k);
    forall i, j | 0 <= i < j < |full|
      ensures full[i] != full[j]
    {
      if i < |order| {
        assert full[i] in order;
        if j >= k {
          assert full[j] == others[j - k] && full[j] in others;
        }
      } else if i == |order| {
        assert full[j] == others[j - k] && full[j] in others;
      } else {
        assert full[i] == others[i - k] && full[j] == others[j - k];
      }
    }
  }

  predicate Outcome(before: Result<Tables, Error>, e: Result<(), Error>, after: Tables) {
    if e.Ok? then before == Ok(after) else before == Err(e.error)
  }

  class NdjsonImport {
    const store: Store
    const env: Env

    constructor (store: Store, env: Env)
      ensures this.store == store && this.env == env
    {
      this.store, this.env := store, env;
    }

    method ApplyItems(items: seq<Item>) returns (e: Result<(), Error>)
      modifies store
      ensures Outcome(ImportItemsOn(old(store.db), items), e, store.db)
    {
      ghost var start := store.db;
      for k := 0 to |items|
        invariant ImportItemsOn(start, items[..k]) == Ok(store.db)
      {
        assert items[..k + 1][..k] == items[..k];
        e := store.CreateItem(items[k]);
        if e.Err? {
          ItemsStop(start, items, k + 1);
          return;
        }
      }
      assert items[..|items|] == items;
      return Ok(());
    }

    method ApplyChunks(chunks: seq<Chunk>) returns (e: Result<(), Error>)
      modifies store
      ensures Outcome(ImportChunksOn(old(store.db), chunks), e, store.db)
    {
      ghost var start := store.db;
      for k := 0 to |chunks|
        invariant ImportChunksOn(start, chunks[..k]) == Ok(store.db)
      {
        assert chunks[..k + 1][..k] == chunks[..k];
        e := store.AddChunk(chunks[k]);
        if e.Err? {
          ChunksStop(start, chunks, k + 1);
          return;
        }
      }
      assert chunks[..|chunks|] == chunks;
      return Ok(());
    }

    method GroupKeywords(keywords: seq<Keyword>) returns (groups: map<string, seq<Keyword>>)
      ensures IsGrouping(keywords, groups)
    {
      groups := map[];
      for k := 0 to |keywords|
        invariant IsGrouping(keywords[..k], groups)
      {
        var id := keywords[k].memoryId;
        GroupingGrows(keywords, k, groups);
        var rows := if id in groups then groups[id] else [];
        groups := groups[id := rows + [keywords[k]]];
      }
      assert keywords[..|keywords|] == keywords;
    }

    /** Memory by memory, in whatever order the map yields them. */
    method ApplyKeywords(keywords: seq<Keyword>) returns (e: Result<(), Error>, ghost order: seq<string>)
      modifies store
      ensures OrdersMemories(keywords, order)
      ensures Outcome(ImportKeywordsOn(env.texts, old(store.db), keywords, order), e, store.db)
    {
      ghost var start := store.db;
      var groups := GroupKeywords(keywords);
      hide HasKeywords, ReplaceKeywordsOn, RowsFor;
      var rest := groups.Keys;
      order := [];
      while rest != {}
        invariant rest <= groups.Keys
        invariant forall id :: id in groups <==> id in order || id in rest
        invariant forall id :: id in order ==> id !in rest
        invariant forall i, j :: 0 <= i < j < |order| ==> order[i] != order[j]
        invariant ImportKeywordsOn(env.texts, start, keywords, order) == Ok(store.db)
        decreases rest
      {
        hide ImportKeywordsOn;
        var id :| id in rest;
        NextMemory(env.texts, start, keywords, order, id);
        e := store.ReplaceKeywords(env.texts, id, groups[id]);
        if e.Err? {
          ghost var others := SomeOrder(rest - {id});
          order := FullOrder(env.texts, start, keywords, order, id, others);
          return;
        }
        rest, order := rest - {id}, order + [id];
      }
      return Ok(()), order;
    }

    method ApplyEvents(events: seq<Event>) returns (e: Result<(), Error>)
      modifies store
      ensures Outcome(ImportEventsOn(old(store.db), events), e, store.db)
    {
      ghost var start := store.db;
      for k := 0 to |events|
        invariant ImportEventsOn(start, events[..k]) == Ok(store.db)
      {
        assert events[..k + 1][..k] == events[..k];
        e := store.Execute(InsertEvent(store.db, StoredEvent(events[k])));
        if e.Err? {
          EventsStop(start, events, k + 1);
          return;
        }
      }
      assert events[..|events|] == events;
      return Ok(());
    }

    method ApplyPolicies(policies: seq<PolicyRow>) returns (e: Result<(), Error>)
      modifies store
      ensures Outcome(ImportPoliciesOn(old(store.db), policies), e, store.db)
    {
      ghost var start := store.db;
      for k := 0 to |policies|
        invariant ImportPoliciesOn(start, policies[..k]) == Ok(store.db)
      {
        assert policies[..k + 1][..k] == policies[..k];
        e := store.CreatePolicy(policies[k]);
        if e.Err? {
          PoliciesStop(start, policies, k + 1);
          return;
        }
      }
      assert policies[..|policies|] == policies;
      return Ok(());
    }

    method ApplyAccess(access: seq<Access>) returns (e: Result<(), Error>)
      modifies store
      ensures Outcome(ImportAccessOn(old(store.db), access), e, store.db)
    {
      ghost var start := store.db;
      for k := 0 to |access|
        invariant ImportAccessOn(start, access[..k]) == Ok(store.db)
      {
        assert access[..k + 1][..k] == access[..k];
        e := store.Execute(InsertAccess(store.db, access[k]));
        if e.Err? {
          AccessStop(start, access, k + 1);
          return;
        }
      }
      assert access[..|access|] == access;
      return Ok(());
    }

    method ApplyImport(data: ExportData) returns (e: Result<(), Error>, ghost order: seq<string>)
      modifies store
      ensures OrdersMemories(data.keywords, order)
      ensures Outcome(ImportOn(env.texts, old(store.db), data, order), e, store.db)
    {
      hide ImportItemsOn, ImportChunksOn, ImportKeywordsOn, ImportEventsOn, ImportPoliciesOn, ImportAccessOn, OrdersMemories;
      order := AnyOrder(data.keywords);
      e := ApplyItems(data.items);
      if e.Err? { return; }
      e := ApplyChunks(data.chunks);
      if e.Err? { return; }
      e, order := ApplyKeywords(data.keywords);
      if e.Err? { return; }
      e := ApplyEvents(data.events);
      if e.Err? { return; }
      e := ApplyPolicies(data.policies);
      if e.Err? { return; }
      e := ApplyAccess(data.access);
    }

    /** Accepts exactly the files that parse, validate and conflict with nothing. A refused file and
        a dry run leave the store as it was; a committed import adds exactly the rows of the file. */
    method ImportNDJSON(input: string, dryRun: bool) returns (r: Result<Counts, Refusal>)
      requires SchemaOk(store.db) && env.texts.Lawful()
      modifies store
      ensures
        var parsed := ParseOn(env.codec, input);
        r.Ok? <==> parsed.Ok? && ManifestAccepted(env, parsed.value.0, CountsOf(parsed.value.1))
                   && RowsAccepted(env.texts, parsed.value.1) && NoConflicts(old(store.db), parsed.value.1)
      ensures r.Err? || dryRun ==> store.db == old(store.db)
      ensures r.Ok? ==> r.value == CountsOf(ParseOn(env.codec, input).value.1)
      ensures r.Ok? && !dryRun ==> Imported(old(store.db), ParseOn(env.codec, input).value.1, store.db)
      ensures SchemaOk(store.db)
    {
      hide SchemaOk, ManifestAccepted, RowsAccepted, NoConflicts, ImportOn, OrdersMemories, Texts.Lawful, ParseOn;
      var parsed := ParseNDJSONExport(env.codec, input);
      if parsed.Err? {
        return Err(Unparsed(parsed.error));
      }
      var (manifest, data) := parsed.value;
      var checked := ValidateImportData(env, manifest, data);
      if checked.Err? {
        return Err(checked.error);
      }
      checked := EnsureNoImportConflicts(store.db, data);
      if checked.Err? {
        return Err(checked.error);
      }
      var saved := store.db;
      var applied, order := ApplyImport(data);
      if applied.Err? {
        store.Rollback(saved);
        r := Err(Storage(applied.error));
        ValidationSuffices(env.texts, saved, data, order);
        return;
      }
      ValidationSuffices(env.texts, saved, data, order);
      if dryRun {
        store.Rollback(saved);
      }
      return Ok(CountsOf(data));
    }
  }

  lemma AnyOrder(keywords: seq<Keyword>) returns (order: seq<string>)
    ensures OrdersMemories(keywords, order)
  {
    order := SomeOrder(set i | 0 <= i < |keywords| :: keywords[i].memoryId);
  }
}
