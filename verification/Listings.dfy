/** What the listings hold and in which order, said of the columns they are sorted by. */
module Listings {
  import opened Prelude
  import opened Schema
  import opened Ordering
  import opened Repository
  import opened Service
  import opened Keywords
  import opened Ndjson
  import opened Parser
  import opened Import
  import opened Export

  /** `a` and `b` agree up to `k`, where `a` ends or has the smaller character. */
  predicate FirstDifference(a: string, b: string, k: nat) {
    && k <= |a| && k < |b| && a[..k] == b[..k]
    && (k < |a| ==> a[k] < b[k])
  }

  /** Text is compared character by character from the front, a proper prefix first. */
  lemma {:induction false} TextLessIsLexicographic(a: string, b: string)
    ensures TextLess(a, b) <==> exists k: nat :: FirstDifference(a, b, k)
  {
    if a != "" && b != "" && a[0] == b[0] {
      TextLessIsLexicographic(a[1..], b[1..]);
      assert a == [a[0]] + a[1..] && b == [b[0]] + b[1..];
      if k: nat :| FirstDifference(a[1..], b[1..], k) {
        assert a[..k + 1] == [a[0]] + a[1..][..k] && b[..k + 1] == [b[0]] + b[1..][..k];
        assert FirstDifference(a, b, k + 1);
      }
      if k: nat :| FirstDifference(a, b, k) {
        assert k > 0;
        assert a[1..][..k - 1] == a[..k][1..] && b[1..][..k - 1] == b[..k][1..];
        assert FirstDifference(a[1..], b[1..], k - 1);
      }
    } else if b != "" && (a == "" || a[0] < b[0]) {
      assert FirstDifference(a, b, 0);
    }
  }

  /** The enabled policies, oldest first, by id among those created together. */
  lemma EnabledPoliciesInOrder(db: Tables)
    requires PoliciesOk(db.policies)
    ensures
      var rows := PolicyRows(db);
      && (forall r :: r in rows <==> r.id in db.policies && db.policies[r.id] == r && r.enabled)
      && (forall i, j :: 0 <= i < j < |rows| ==>
            rows[i].createdAt < rows[j].createdAt || (rows[i].createdAt == rows[j].createdAt && TextLess(rows[i].id, rows[j].id)))
  {
    CreationOrdersPolicies(db.policies, EnabledPolicies(db.policies));
    var rows := PolicyRows(db);
    assert forall r :: r in rows <==> r in EnabledPolicies(db.policies);
  }

  /** The chunks of one memory, by index. */
  lemma ChunksInOrder(db: Tables, id: string)
    requires ChunksOk(db.items.Keys, db.chunks)
    ensures
      var list := ChunkList(db.chunks, id);
      && (forall c :: c in list <==> c.id in db.chunks && db.chunks[c.id].chunk == c && c.memoryId == id)
      && (forall i, j :: 0 <= i < j < |list| ==> list[i].index < list[j].index)
  {
    SlotsOrderChunks(db.chunks, id);
    var list := ChunkList(db.chunks, id);
    assert forall c :: c in list <==> c in ChunkSet(db.chunks, id);
    forall i, j | 0 <= i < j < |list|
      ensures list[i].index < list[j].index
    {
      assert list[i] in list && list[j] in list && BySlot(list[i], list[j]);
      TextLessIsTotal(list[i].id, list[i].id);
    }
  }

  // ----- Exports -----

  predicate TimeThenText(t: Instant, a: string, u: Instant, b: string) { t < u || (t == u && TextLess(a, b)) }

  predicate TimeThenNumber(t: Instant, a: int, u: Instant, b: int) { t < u || (t == u && a < b) }

  predicate TextThenPlace(a: string, i: int, b: string, j: int) { TextLess(a, b) || (a == b && i < j) }

  ghost predicate ItemsInOrder(db: Tables, rows: seq<Item>) {
    && (forall r :: r in rows <==> r.id in db.items && db.items[r.id] == r)
    && (forall i, j :: 0 <= i < j < |rows| ==> TimeThenText(rows[i].createdAt, rows[i].id, rows[j].createdAt, rows[j].id))
  }

  ghost predicate AllChunksInOrder(db: Tables, rows: seq<Chunk>) {
    && (forall r :: r in rows <==> r.id in db.chunks && db.chunks[r.id].chunk == r)
    && (forall i, j :: 0 <= i < j < |rows| ==> TextThenPlace(rows[i].memoryId, rows[i].index, rows[j].memoryId, rows[j].index))
  }

  ghost predicate KeywordsInOrder(db: Tables, rows: seq<Keyword>) {
    && (forall r :: r in rows <==> KeywordKey(r.memoryId, r.index) in db.keywords && db.keywords[KeywordKey(r.memoryId, r.index)] == r)
    && (forall i, j :: 0 <= i < j < |rows| ==> TextThenPlace(rows[i].memoryId, rows[i].index, rows[j].memoryId, rows[j].index))
  }

  ghost predicate PoliciesInOrder(db: Tables, rows: seq<PolicyRow>) {
    && (forall r :: r in rows <==> r.id in db.policies && db.policies[r.id] == r)
    && (forall i, j :: 0 <= i < j < |rows| ==> TimeThenText(rows[i].createdAt, rows[i].id, rows[j].createdAt, rows[j].id))
  }

  ghost predicate EventsInOrder(db: Tables, rows: seq<Event>) {
    && (forall r :: r in rows <==> r in db.events)
    && (forall i, j :: 0 <= i < j < |rows| ==> TimeThenNumber(rows[i].createdAt, rows[i].id, rows[j].createdAt, rows[j].id))
  }

  ghost predicate AccessInOrder(db: Tables, rows: seq<Access>) {
    && (forall r :: r in rows <==> r in db.access)
    && (forall i, j :: 0 <= i < j < |rows| ==> TimeThenNumber(rows[i].createdAt, rows[i].id, rows[j].createdAt, rows[j].id))
  }

  lemma ChunksAreListed(db: Tables, rows: seq<Chunk>)
    requires ChunksOk(db.items.Keys, db.chunks) && IsListing(ChunkBefore, ChunkRows(db.chunks), rows)
    ensures AllChunksInOrder(db, rows)
  {
    assert forall r :: r in rows <==> r in ChunkRows(db.chunks);
    forall i, j | 0 <= i < j < |rows|
      ensures TextThenPlace(rows[i].memoryId, rows[i].index, rows[j].memoryId, rows[j].index)
    {
      assert rows[i] in rows && rows[j] in rows && ChunkBefore(rows[i], rows[j]);
      TextLessIsTotal(rows[i].id, rows[i].id);
    }
  }

  /** An export holds every row of the six tables once: memories, events, policies and reads by time
      and then id, chunks and keywords by memory and then place. */
  lemma ExportInOrder(db: Tables)
    requires SchemaOk(db)
    ensures
      var data := ExportOf(db);
      && ItemsInOrder(db, data.items) && AllChunksInOrder(db, data.chunks) && KeywordsInOrder(db, data.keywords)
      && EventsInOrder(db, data.events) && PoliciesInOrder(db, data.policies) && AccessInOrder(db, data.access)
  {
    AllAreOrdered(db);
    var data := ExportOf(db);
    hide Orders, TextLess;
    ChunksAreListed(db, data.chunks);
    hide AllChunksInOrder;
    assert forall r :: r in data.items <==> r in ItemRows(db.items);
    assert forall r :: r in data.keywords <==> r in KeywordSet(db.keywords);
    assert forall r :: r in data.policies <==> r in PolicySet(db.policies);
    assert forall r :: r in data.events <==> r in EventSet(db.events);
    assert forall r :: r in data.access <==> r in AccessSet(db.access);
  }

  // ----- The exported file -----

  const RECORD_TYPES := ["memory_item", "memory_chunk", "memory_keyword", "memory_event", "retention_policy", "access_log"]

  function TypeIndex(e: Entry): (n: nat)
    ensures n < 6
  {
    match e
    case ItemEntry(_) => 0
    case ChunkEntry(_) => 1
    case KeywordEntry(_) => 2
    case EventEntry(_) => 3
    case PolicyEntry(_) => 4
    case AccessEntry(_) => 5
  }

  lemma RecordsNameTheirType(e: Entry)
    ensures RecordOf(e).kind == RECORD_TYPES[TypeIndex(e)]
  {
  }

  /** The records of an export come type by type, memories first, so that every row comes after the
      memory it belongs to. */
  lemma RecordsComeByType(data: ExportData)
    ensures ByType(EntriesOf(data), 0)
  {
    WrapHasType(data.access, x => AccessEntry(x), 5);
    WrapHasType(data.policies, x => PolicyEntry(x), 4);
    WrapHasType(data.events, x => EventEntry(x), 3);
    WrapHasType(data.keywords, x => KeywordEntry(x), 2);
    WrapHasType(data.chunks, x => ChunkEntry(x), 1);
    WrapHasType(data.items, x => ItemEntry(x), 0);
    hide TypeIndex, ByType, Wrap;
    SixTypesInOrder(Wrap(data.items, x => ItemEntry(x)), Wrap(data.chunks, x => ChunkEntry(x)), Wrap(data.keywords, x => KeywordEntry(x)),
                    Wrap(data.events, x => EventEntry(x)), Wrap(data.policies, x => PolicyEntry(x)), Wrap(data.access, x => AccessEntry(x)));
  }

  lemma SixTypesInOrder(items: seq<Entry>, chunks: seq<Entry>, keywords: seq<Entry>, events: seq<Entry>, policies: seq<Entry>, access: seq<Entry>)
    requires AllOfType(items, 0) && AllOfType(chunks, 1) && AllOfType(keywords, 2)
    requires AllOfType(events, 3) && AllOfType(policies, 4) && AllOfType(access, 5)
    ensures ByType(items + (chunks + (keywords + (events + (policies + access)))), 0)
  {
    TypeGoesFirst(access, [], 5);
    assert access + [] == access;
    hide AllOfType;
    hide ByType;
    TypeGoesFirst(policies, access, 4);
    TypeGoesFirst(events, policies + access, 3);
    TypeGoesFirst(keywords, events + (policies + access), 2);
    TypeGoesFirst(chunks, keywords + (events + (policies + access)), 1);
    TypeGoesFirst(items, chunks + (keywords + (events + (policies + access))), 0);
  }

  ghost predicate AllOfType(es: seq<Entry>, n: nat) { forall i :: 0 <= i < |es| ==> TypeIndex(es[i]) == n }

  lemma {:induction false} WrapHasType<T(!new)>(xs: seq<T>, entry: T -> Entry, n: nat)
    requires forall x :: TypeIndex(entry(x)) == n
    ensures AllOfType(Wrap(xs, entry), n)
  {
    if xs != [] {
      WrapHasType(xs[1..], entry, n);
    }
  }

  ghost predicate ByType(es: seq<Entry>, from: nat) {
    && (forall i :: 0 <= i < |es| ==> from <= TypeIndex(es[i]))
    && (forall i, j :: 0 <= i < j < |es| ==> TypeIndex(es[i]) <= TypeIndex(es[j]))
  }

  lemma TypeGoesFirst(own: seq<Entry>, rest: seq<Entry>, n: nat)
    requires AllOfType(own, n) && (ByType(rest, n) || ByType(rest, n + 1))
    ensures ByType(own + rest, n)
  {
  }

  /** The manifest of an export: its format and versions, when and by which program it was made, how many
      rows of each type follow, and the checksum of their lines. */
  lemma ManifestDescribesTheFile(env: Env, db: Tables, pamieVersion: string, at: Instant)
    requires SchemaOk(db)
    ensures
      var data := ExportOf(db);
      var version := if env.texts.trim(pamieVersion) == "" then "unknown" else env.texts.trim(pamieVersion);
      ManifestFor(env.codec, data, Heading(env, pamieVersion, at))
      == Manifest("pamie.ndjson", 1, env.schemaVersion, at, version,
                  Counts(|data.items|, |data.chunks|, |data.keywords|, |data.events|, |data.policies|, |data.access|),
                  env.codec.sha(Lines(Encoded(env.codec, EntriesOf(data)))))
  {
    hide ExportOf, EntriesOf, Encoded, Lines;
  }
}
