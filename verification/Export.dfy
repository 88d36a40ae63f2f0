/** Exporting the store: the six ordered reads, the file, and the round trip through an import into
    an empty store. */
module Export {
  import opened Prelude
  import opened Schema
  import opened Keywords
  import opened Ordering
  import opened Repository
  import opened Ndjson
  import opened Parser
  import opened Import
  import opened ImportApply

  // ----- ORDER BY -----

  function ItemRows(items: map<string, Item>): set<Item> { set id | id in items :: items[id] }

  function ChunkRows(chunks: map<string, ChunkRow>): set<Chunk> { set c | c in chunks :: chunks[c].chunk }

  function KeywordSet(keywords: map<KeywordKey, Keyword>): set<Keyword> { set k | k in keywords :: keywords[k] }

  function PolicySet(policies: map<string, PolicyRow>): set<PolicyRow> { set p | p in policies :: policies[p] }

  function EventSet(events: seq<Event>): set<Event> { set e | e in events }

  function AccessSet(access: seq<Access>): set<Access> { set a | a in access }

  predicate ItemBefore(a: Item, b: Item) { Earlier(a.createdAt, a.id, b.createdAt, b.id) }

  predicate ChunkBefore(a: Chunk, b: Chunk) {
    if a.memoryId != b.memoryId then TextLess(a.memoryId, b.memoryId)
    else if a.index != b.index then a.index < b.index
    else TextLess(a.id, b.id)
  }

  predicate KeywordBefore(a: Keyword, b: Keyword) {
    if a.memoryId != b.memoryId then TextLess(a.memoryId, b.memoryId) else a.index < b.index
  }

  predicate EventBefore(a: Event, b: Event) { if a.createdAt != b.createdAt then a.createdAt < b.createdAt else a.id < b.id }

  predicate AccessBefore(a: Access, b: Access) { if a.createdAt != b.createdAt then a.createdAt < b.createdAt else a.id < b.id }

  lemma ItemsAreOrdered(items: map<string, Item>)
    requires ItemsOk(items)
    ensures Orders(ItemBefore, ItemRows(items))
  {
    forall a: Item, b: Item, c: Item
      ensures !ItemBefore(a, a)
      ensures ItemBefore(a, b) && ItemBefore(b, c) ==> ItemBefore(a, c)
      ensures a.id != b.id ==> ItemBefore(a, b) || ItemBefore(b, a)
    {
      EarlierOrders(a.createdAt, a.id, b.createdAt, b.id, c.createdAt, c.id);
    }
  }

  lemma TextOrders(a: string, b: string, c: string)
    ensures !TextLess(a, a)
    ensures TextLess(a, b) && TextLess(b, c) ==> TextLess(a, c)
    ensures a == b || TextLess(a, b) || TextLess(b, a)
    ensures !(TextLess(a, b) && TextLess(b, a))
  {
    TextLessIsTotal(a, a);
    TextLessIsTotal(a, b);
    if TextLess(a, b) && TextLess(b, c) {
      TextLessIsTransitive(a, b, c);
    }
  }

  lemma ChunksAreOrdered(ids: set<string>, chunks: map<string, ChunkRow>)
    requires ChunksOk(ids, chunks)
    ensures Orders(ChunkBefore, ChunkRows(chunks))
  {
    hide TextLess;
    forall a: Chunk, b: Chunk, c: Chunk
      ensures !ChunkBefore(a, a)
      ensures ChunkBefore(a, b) && ChunkBefore(b, c) ==> ChunkBefore(a, c)
      ensures a.id != b.id ==> ChunkBefore(a, b) || ChunkBefore(b, a)
    {
      TextOrders(a.memoryId, b.memoryId, c.memoryId);
      TextOrders(b.memoryId, c.memoryId, a.memoryId);
      TextOrders(a.id, b.id, c.id);
    }
  }

  lemma KeywordsAreOrdered(ids: set<string>, keywords: map<KeywordKey, Keyword>)
    requires KeywordsOk(ids, keywords)
    ensures Orders(KeywordBefore, KeywordSet(keywords))
  {
    hide TextLess;
    forall a: Keyword, b: Keyword, c: Keyword
      ensures !KeywordBefore(a, a)
      ensures KeywordBefore(a, b) && KeywordBefore(b, c) ==> KeywordBefore(a, c)
      ensures KeywordKey(a.memoryId, a.index) != KeywordKey(b.memoryId, b.index) ==> KeywordBefore(a, b) || KeywordBefore(b, a)
    {
      TextOrders(a.memoryId, b.memoryId, c.memoryId);
      TextOrders(b.memoryId, c.memoryId, a.memoryId);
    }
  }

  lemma EventsAreOrdered(ids: set<string>, events: seq<Event>, last: int)
    requires EventsOk(ids, events, last)
    ensures Orders(EventBefore, EventSet(events))
  {
    forall a, b | a in EventSet(events) && b in EventSet(events) && a.id == b.id
      ensures a == b
    {
      var i :| 0 <= i < |events| && events[i] == a;
      var j :| 0 <= j < |events| && events[j] == b;
      assert !(i < j) && !(j < i);
    }
  }

  lemma PoliciesAreOrdered(policies: map<string, PolicyRow>)
    requires PoliciesOk(policies)
    ensures Orders(ByCreation, PolicySet(policies))
  {
    CreationOrdersPolicies(policies, PolicySet(policies));
  }

  lemma AccessIsOrdered(ids: set<string>, access: seq<Access>, last: int)
    requires AccessOk(ids, access, last)
    ensures Orders(AccessBefore, AccessSet(access))
  {
    forall a, b | a in AccessSet(access) && b in AccessSet(access) && a.id == b.id
      ensures a == b
    {
      var i :| 0 <= i < |access| && access[i] == a;
      var j :| 0 <= j < |access| && access[j] == b;
      assert !(i < j) && !(j < i);
    }
  }

  lemma AllAreOrdered(db: Tables)
    requires SchemaOk(db)
    ensures Orders(ItemBefore, ItemRows(db.items)) && Orders(ChunkBefore, ChunkRows(db.chunks))
    ensures Orders(KeywordBefore, KeywordSet(db.keywords)) && Orders(EventBefore, EventSet(db.events))
    ensures Orders(ByCreation, PolicySet(db.policies)) && Orders(AccessBefore, AccessSet(db.access))
  {
    assert ItemsOk(db.items) && ChunksOk(db.items.Keys, db.chunks) && KeywordsOk(db.items.Keys, db.keywords)
      && EventsOk(db.items.Keys, db.events, db.lastEventId) && PoliciesOk(db.policies)
      && AccessOk(db.items.Keys, db.access, db.lastAccessId);
    hide *;
    ItemsAreOrdered(db.items);
    ChunksAreOrdered(db.items.Keys, db.chunks);
    KeywordsAreOrdered(db.items.Keys, db.keywords);
    EventsAreOrdered(db.items.Keys, db.events, db.lastEventId);
    PoliciesAreOrdered(db.policies);
    AccessIsOrdered(db.items.Keys, db.access, db.lastAccessId);
  }

  /** All rows of the six durable tables, each table in its own order. */
  ghost function ExportOf(db: Tables): ExportData
    requires SchemaOk(db)
  {
    AllAreOrdered(db);
    ExportData(Listing(ItemBefore, ItemRows(db.items)), Listing(ChunkBefore, ChunkRows(db.chunks)),
               Listing(KeywordBefore, KeywordSet(db.keywords)), Listing(EventBefore, EventSet(db.events)),
               Listing(ByCreation, PolicySet(db.policies)), Listing(AccessBefore, AccessSet(db.access)))
  }

  // ----- Writing the file -----

  class Exporter {
    const store: Store
    const env: Env

    constructor (store: Store, env: Env)
      ensures this.store == store && this.env == env
    {
      this.store, this.env := store, env;
    }

    method ReadExportData() returns (data: ExportData)
      requires SchemaOk(store.db)
      ensures data == ExportOf(store.db)
    {
      AllAreOrdered(store.db);
      var items := List(ItemBefore, ItemRows(store.db.items));
      var chunks := List(ChunkBefore, ChunkRows(store.db.chunks));
      var keywords := List(KeywordBefore, KeywordSet(store.db.keywords));
      var events := List(EventBefore, EventSet(store.db.events));
      var policies := List(ByCreation, PolicySet(store.db.policies));
      var access := List(AccessBefore, AccessSet(store.db.access));
      data := ExportData(items, chunks, keywords, events, policies, access);
      ExportIsDetermined(store.db, data);
    }

    /** Writes the manifest line and the record lines, each ended by a newline. `clock` is used when
        no export time is given. */
    method ExportNDJSON(pamieVersion: string, now: Instant, clock: Instant) returns (file: string, manifest: Manifest)
      requires SchemaOk(store.db)
      ensures manifest == ManifestFor(env.codec, ExportOf(store.db), Heading(env, pamieVersion, if now == 0 then clock else now))
      ensures file == Lines(FileLines(env.codec, ExportOf(store.db), manifest))
    {
      var data := ReadExportData();
      var lines, sum := MarshalRecordLines(env.codec, data);
      var at := if now == 0 then clock else now;
      manifest := ManifestFor(env.codec, data, Heading(env, pamieVersion, at));
      file := env.codec.encodeManifest(manifest) + "\n";
      for k := 0 to |lines|
        invariant file == Lines([env.codec.encodeManifest(manifest)] + lines[..k])
      {
        ghost var sofar := [env.codec.encodeManifest(manifest)] + lines[..k];
        LinesAppend(sofar, lines[k]);
        assert sofar + [lines[k]] == [env.codec.encodeManifest(manifest)] + lines[..k + 1];
        file := file + lines[k];
        file := file + "\n";
      }
      assert lines[..|lines|] == lines;
      assert ManifestFor(env.codec, data, manifest) == manifest;
    }
  }

  /** The manifest without its counts and checksum. */
  function Heading(env: Env, pamieVersion: string, at: Instant): Manifest {
    var version := env.texts.trim(pamieVersion);
    Manifest(EXPORT_FORMAT, EXPORT_VERSION, env.schemaVersion, at, if version == "" then "unknown" else version,
             Counts(0, 0, 0, 0, 0, 0), "")
  }

  lemma ExportIsDetermined(db: Tables, data: ExportData)
    requires SchemaOk(db)
    requires IsListing(ItemBefore, ItemRows(db.items), data.items) && IsListing(ChunkBefore, ChunkRows(db.chunks), data.chunks)
    requires IsListing(KeywordBefore, KeywordSet(db.keywords), data.keywords) && IsListing(EventBefore, EventSet(db.events), data.events)
    requires IsListing(ByCreation, PolicySet(db.policies), data.policies) && IsListing(AccessBefore, AccessSet(db.access), data.access)
    ensures data == ExportOf(db)
  {
    AllAreOrdered(db);
    hide SchemaOk, IsListing, Orders;
    ListingIsUnique(ItemBefore, ItemRows(db.items), data.items, ExportOf(db).items);
    ListingIsUnique(ChunkBefore, ChunkRows(db.chunks), data.chunks, ExportOf(db).chunks);
    ListingIsUnique(KeywordBefore, KeywordSet(db.keywords), data.keywords, ExportOf(db).keywords);
    ListingIsUnique(EventBefore, EventSet(db.events), data.events, ExportOf(db).events);
    ListingIsUnique(ByCreation, PolicySet(db.policies), data.policies, ExportOf(db).policies);
    ListingIsUnique(AccessBefore, AccessSet(db.access), data.access, ExportOf(db).access);
  }

  // ----- What an export may hold -----

  /** Rows as the repositories let them in; memory ids have no NUL. */
  ghost predicate RowsValid(t: Texts, db: Tables) {
    && (forall id :: id in db.items ==> ItemRowAccepted(t, db.items[id]) && '\0' !in id)
    && (forall c :: c in db.chunks ==> ValidChunk(db.chunks[c].chunk))
    && (forall k :: k in db.keywords ==> ValidKeyword(t, db.keywords[k]))
    && LogsValid(t, db)
    && (forall p :: p in db.policies ==> ValidPolicy(db.policies[p]))
  }

  ghost predicate LogsValid(t: Texts, db: Tables) {
    && (forall i :: 0 <= i < |db.events| ==> EventValid(t, db.events[i]))
    && (forall i :: 0 <= i < |db.access| ==> db.access[i].id > 0 && ValidAccess(db.access[i]))
    && db.lastEventId >= 0 && db.lastAccessId >= 0
  }

  predicate EventValid(t: Texts, e: Event) {
    e.id > 0 && e.eventType != "" && e.createdAt != 0 && ObjectPayload(t, e.payload) && PlainPayload(t, e.payload) && e.memoryId != Some("")
  }

  ghost predicate PoliciesAreObjects(t: Texts, policies: map<string, PolicyRow>) {
    forall p :: p in policies ==> ObjectText(t, policies[p].scope) && ObjectText(t, policies[p].rules)
  }

  lemma ListedOnce<T(!new)>(less: (T, T) -> bool, rows: set<T>, list: seq<T>)
    requires Orders(less, rows) && IsListing(less, rows, list)
    ensures forall i, j :: 0 <= i < j < |list| ==> list[i] != list[j]
    ensures forall i :: 0 <= i < |list| ==> list[i] in rows
  {
    forall i | 0 <= i < |list|
      ensures list[i] in rows
    {
      assert list[i] in list;
    }
    forall i, j | 0 <= i < j < |list|
      ensures list[i] != list[j]
    {
      assert less(list[i], list[j]);
    }
  }

  lemma ItemsPass(t: Texts, db: Tables)
    requires SchemaOk(db) && RowsValid(t, db)
    ensures ItemsAccepted(t, ExportOf(db).items) && ItemIds(ExportOf(db).items) == db.items.Keys
  {
    AllAreOrdered(db);
    var items := ExportOf(db).items;
    ListedOnce(ItemBefore, ItemRows(db.items), items);
    assert IsListing(ItemBefore, ItemRows(db.items), items);
    assert ItemsOk(db.items);
    hide SchemaOk, Orders, ExportOf, ItemRowAccepted, LogsValid, ValidChunk, ValidKeyword, ValidPolicy;
    forall id | id in db.items
      ensures id in ItemIds(items)
    {
      assert db.items[id] in ItemRows(db.items) && db.items[id] in items;
      var i :| 0 <= i < |items| && items[i] == db.items[id];
    }
  }

  lemma ChunksPass(t: Texts, db: Tables)
    requires SchemaOk(db) && RowsValid(t, db)
    ensures ChunksAccepted(db.items.Keys, ExportOf(db).chunks)
  {
    AllAreOrdered(db);
    var chunks := ExportOf(db).chunks;
    ListedOnce(ChunkBefore, ChunkRows(db.chunks), chunks);
    assert ChunksOk(db.items.Keys, db.chunks);
    hide SchemaOk, Orders, ExportOf, ValidChunk, LogsValid, ItemRowAccepted, ValidKeyword, ValidPolicy;
  }

  lemma KeywordsPass(t: Texts, db: Tables)
    requires SchemaOk(db) && RowsValid(t, db)
    ensures KeywordsAccepted(t, db.items.Keys, ExportOf(db).keywords)
  {
    AllAreOrdered(db);
    var keywords := ExportOf(db).keywords;
    ListedOnce(KeywordBefore, KeywordSet(db.keywords), keywords);
    assert KeywordsOk(db.items.Keys, db.keywords);
    SeenMapsFindDuplicates(t, db.items.Keys, keywords);
    hide SchemaOk, Orders, ExportOf, ValidKeyword, LogsValid, ItemRowAccepted, ValidChunk, ValidPolicy, KeywordsAccepted;
    assert KeywordsDistinct(keywords);
  }

  lemma LogsPass(t: Texts, db: Tables)
    requires SchemaOk(db) && RowsValid(t, db)
    ensures EventsAccepted(t, db.items.Keys, ExportOf(db).events) && AccessAccepted(db.items.Keys, ExportOf(db).access)
  {
    AllAreOrdered(db);
    var (events, access) := (ExportOf(db).events, ExportOf(db).access);
    ListedOnce(EventBefore, EventSet(db.events), events);
    ListedOnce(AccessBefore, AccessSet(db.access), access);
    assert EventsOk(db.items.Keys, db.events, db.lastEventId) && AccessOk(db.items.Keys, db.access, db.lastAccessId);
    hide SchemaOk, Orders, ExportOf, ItemRowAccepted, ValidChunk, ValidPolicy, ValidKeyword, ObjectPayload, ValidAccess;
    forall i | 0 <= i < |events|
      ensures EventRowAccepted(t, db.items.Keys, events[i])
    {
      assert events[i] in db.events;
    }
    forall i, j | 0 <= i < j < |events|
      ensures events[i].id != events[j].id
    {
      assert events[i] in db.events && events[j] in db.events;
      var k :| 0 <= k < |db.events| && db.events[k] == events[i];
      var l :| 0 <= l < |db.events| && db.events[l] == events[j];
    }
    forall i | 0 <= i < |access|
      ensures AccessRowAccepted(db.items.Keys, access[i])
    {
      assert access[i] in db.access;
    }
    forall i, j | 0 <= i < j < |access|
      ensures access[i].id != access[j].id
    {
      assert access[i] in db.access && access[j] in db.access;
      var k :| 0 <= k < |db.access| && db.access[k] == access[i];
      var l :| 0 <= l < |db.access| && db.access[l] == access[j];
    }
  }

  lemma ExportIsCanonical(t: Texts, db: Tables)
    requires SchemaOk(db) && RowsValid(t, db)
    ensures CanonicalData(t, ExportOf(db))
  {
    AllAreOrdered(db);
    var (items, events) := (ExportOf(db).items, ExportOf(db).events);
    ListedOnce(ItemBefore, ItemRows(db.items), items);
    ListedOnce(EventBefore, EventSet(db.events), events);
    hide SchemaOk, Orders, ExportOf, ObjectText, ValidChunk, ValidPolicy, ValidKeyword, ObjectPayload, ValidAccess, PlainPayload;
    forall i | 0 <= i < |events|
      ensures PlainPayload(t, events[i].payload)
    {
      assert events[i] in db.events;
    }
  }

  lemma PoliciesPassExactlyWhen(t: Texts, db: Tables)
    requires SchemaOk(db) && RowsValid(t, db)
    ensures PoliciesAccepted(t, ExportOf(db).policies) <==> PoliciesAreObjects(t, db.policies)
  {
    AllAreOrdered(db);
    var policies := ExportOf(db).policies;
    ListedOnce(ByCreation, PolicySet(db.policies), policies);
    assert PoliciesOk(db.policies);
    assert IsListing(ByCreation, PolicySet(db.policies), policies);
    hide SchemaOk, Orders, ExportOf, ItemRowAccepted, ValidChunk, ValidKeyword, LogsValid, ObjectText, ByCreation;
    if PoliciesAccepted(t, policies) {
      forall p | p in db.policies
        ensures ObjectText(t, db.policies[p].scope) && ObjectText(t, db.policies[p].rules)
      {
        assert db.policies[p] in PolicySet(db.policies) && db.policies[p] in policies;
        var i :| 0 <= i < |policies| && policies[i] == db.policies[p];
        assert PolicyRowAccepted(t, policies[i]);
      }
    }
  }

  /** The exported rows of a store of valid rows are accepted exactly when the JSON texts of its
      policies are objects: policies are stored without that check. */
  lemma ExportIsAcceptedExactlyWhen(t: Texts, db: Tables)
    requires SchemaOk(db) && RowsValid(t, db)
    ensures RowsAccepted(t, ExportOf(db)) <==> PoliciesAreObjects(t, db.policies)
  {
    hide *;
    ItemsPass(t, db);
    ChunksPass(t, db);
    KeywordsPass(t, db);
    LogsPass(t, db);
    PoliciesPassExactlyWhen(t, db);
    AcceptedTogether(t, ExportOf(db));
  }

  lemma AcceptedTogether(t: Texts, data: ExportData)
    ensures
      var ids := ItemIds(data.items);
      RowsAccepted(t, data) <==>
        ItemsAccepted(t, data.items) && ChunksAccepted(ids, data.chunks) && KeywordsAccepted(t, ids, data.keywords)
        && EventsAccepted(t, ids, data.events) && PoliciesAccepted(t, data.policies) && AccessAccepted(ids, data.access)
  {
  }
}
