/** Importing an NDJSON file: validation of the parsed rows, the conflict check against the target
    database, and the append-only, transactional apply. */
module Import {
  import opened Prelude
  import opened Schema
  import opened Keywords
  import opened Ordering
  import opened Repository
  import opened Ndjson
  import opened Parser

  const EXPORT_FORMAT := "pamie.ndjson"
  const EXPORT_VERSION := 1
  const CHECKSUM_LENGTH := 64

  datatype Refusal = Unparsed(parse: ParseError) | WrongManifest | InvalidRow | MissingMemory | DuplicateRow | Conflict | Storage(error: Error)

  datatype Env = Env(texts: Texts, codec: Codec, schemaVersion: int)

  // ----- Validation -----

  predicate ManifestAccepted(env: Env, m: Manifest, counts: Counts) {
    && m.format == EXPORT_FORMAT && m.version == EXPORT_VERSION && m.schemaVersion == env.schemaVersion
    && m.exportedAt != 0 && env.texts.trim(m.pamieVersion) != ""
    && |m.checksum| == CHECKSUM_LENGTH && env.codec.isHex(m.checksum)
    && m.counts == counts
  }

  predicate ObjectText(t: Texts, s: string) { t.trim(s) != "" && t.isObject(s) }

  /** The shapes the service writes are objects; other text is looked at. */
  predicate ObjectPayload(t: Texts, p: Payload) { p.Text? ==> ObjectText(t, p.text) }

  predicate ItemRowAccepted(t: Texts, item: Item) { ValidItem(item) && ObjectText(t, item.metadata) }

  ghost predicate ItemsAccepted(t: Texts, items: seq<Item>) {
    && (forall i :: 0 <= i < |items| ==> ItemRowAccepted(t, items[i]))
    && (forall i, j :: 0 <= i < j < |items| ==> items[i].id != items[j].id)
  }

  function ItemIds(items: seq<Item>): set<string> { set i | 0 <= i < |items| :: items[i].id }

  function Digit(d: nat): char
    requires d < 10
  {
    ('0' as int + d) as char
  }

  function Decimal(n: nat): (s: string)
    ensures s != "" && '\0' !in s
  {
    if n < 10 then [Digit(n)] else Decimal(n / 10) + [Digit(n % 10)]
  }

  /** The seen-map keys join the memory id and the rest with a NUL. */
  function SlotKey(memoryId: string, index: nat): string { memoryId + "\0" + Decimal(index) }

  function WordKey(memoryId: string, normalized: string): string { memoryId + "\0" + normalized }

  ghost predicate ChunksAccepted(ids: set<string>, chunks: seq<Chunk>) {
    && (forall i :: 0 <= i < |chunks| ==> ValidChunk(chunks[i]) && chunks[i].memoryId in ids)
    && (forall i, j :: 0 <= i < j < |chunks| ==> chunks[i].id != chunks[j].id && !SameSlot(chunks[i], chunks[j]))
  }

  predicate KeywordRowAccepted(t: Texts, ids: set<string>, k: Keyword) { ValidKeyword(t, k) && k.memoryId in ids }

  predicate SameIndex(j: Keyword, k: Keyword) { j.memoryId == k.memoryId && j.index == k.index }

  ghost predicate KeywordsAccepted(t: Texts, ids: set<string>, keywords: seq<Keyword>) {
    && (forall i :: 0 <= i < |keywords| ==> KeywordRowAccepted(t, ids, keywords[i]))
    && (forall i, j :: 0 <= i < j < |keywords| ==>
          && !SameIndex(keywords[i], keywords[j])
          && WordKey(keywords[i].memoryId, keywords[i].normalized) != WordKey(keywords[j].memoryId, keywords[j].normalized))
  }

  predicate EventRowAccepted(t: Texts, ids: set<string>, e: Event) {
    && e.id > 0 && e.eventType != "" && e.createdAt != 0 && ObjectPayload(t, e.payload)
    && (e.memoryId.Some? ==> e.memoryId.value != "" && e.memoryId.value in ids)
  }

  ghost predicate EventsAccepted(t: Texts, ids: set<string>, events: seq<Event>) {
    && (forall i :: 0 <= i < |events| ==> EventRowAccepted(t, ids, events[i]))
    && (forall i, j :: 0 <= i < j < |events| ==> events[i].id != events[j].id)
  }

  predicate PolicyRowAccepted(t: Texts, p: PolicyRow) { ValidPolicy(p) && ObjectText(t, p.scope) && ObjectText(t, p.rules) }

  ghost predicate PoliciesAccepted(t: Texts, policies: seq<PolicyRow>) {
    && (forall i :: 0 <= i < |policies| ==> PolicyRowAccepted(t, policies[i]))
    && (forall i, j :: 0 <= i < j < |policies| ==> policies[i].id != policies[j].id)
  }

  predicate AccessRowAccepted(ids: set<string>, a: Access) { a.id > 0 && ValidAccess(a) && a.memoryId in ids }

  ghost predicate AccessAccepted(ids: set<string>, access: seq<Access>) {
    && (forall i :: 0 <= i < |access| ==> AccessRowAccepted(ids, access[i]))
    && (forall i, j :: 0 <= i < j < |access| ==> access[i].id != access[j].id)
  }

  ghost predicate RowsAccepted(t: Texts, data: ExportData) {
    var ids := ItemIds(data.items);
    && ItemsAccepted(t, data.items) && ChunksAccepted(ids, data.chunks) && KeywordsAccepted(t, ids, data.keywords)
    && EventsAccepted(t, ids, data.events) && PoliciesAccepted(t, data.policies) && AccessAccepted(ids, data.access)
  }

  // ----- The seen-map keys -----

  lemma {:induction false} DecimalIsInjective(i: nat, j: nat)
    requires Decimal(i) == Decimal(j)
    ensures i == j
  {
    var (s, t) := (Decimal(i), Decimal(j));
    assert s[|s| - 1] == t[|t| - 1];
    assert s[..|s| - 1] == t[..|t| - 1];
    if i >= 10 && j >= 10 {
      assert s[..|s| - 1] == Decimal(i / 10) && t[..|t| - 1] == Decimal(j / 10);
      DecimalIsInjective(i / 10, j / 10);
    }
  }

  lemma NoNulAfter(m: string, a: string)
    requires '\0' !in a
    ensures (m + "\0" + a)[|m|] == '\0' && forall k :: |m| < k < |m + "\0" + a| ==> (m + "\0" + a)[k] != '\0'
  {
    forall k | |m| < k < |m + "\0" + a|
      ensures (m + "\0" + a)[k] != '\0'
    {
      assert (m + "\0" + a)[k] == a[k - |m| - 1];
      assert a[k - |m| - 1] in a;
    }
  }

  lemma LastNulParts(m: string, a: string, n: string, b: string)
    requires m + "\0" + a == n + "\0" + b && '\0' !in a && '\0' !in b
    ensures m == n && a == b
  {
    var (s, t) := (m + "\0" + a, n + "\0" + b);
    NoNulAfter(m, a);
    NoNulAfter(n, b);
    assert |m| == |n|;
    assert m == s[..|m|] && n == t[..|n|];
    assert a == s[|m| + 1..] && b == t[|n| + 1..];
  }

  /** A number has no NUL, so the last NUL parts the key: index keys never collide. */
  lemma SlotKeysNeverCollide(m: string, i: nat, n: string, j: nat)
    ensures SlotKey(m, i) == SlotKey(n, j) <==> m == n && i == j
  {
    hide Decimal;
    if SlotKey(m, i) == SlotKey(n, j) {
      LastNulParts(m, Decimal(i), n, Decimal(j));
      DecimalIsInjective(i, j);
    }
  }

  /** No two keywords of a memory share their index or their normalized form. */
  ghost predicate KeywordsDistinct(keywords: seq<Keyword>) {
    forall i, j :: 0 <= i < j < |keywords| ==> !SameIndex(keywords[i], keywords[j]) && !SameWord(keywords[i], keywords[j])
  }

  /** The key of `j` reads as a key of `k` too: the id of `k` runs on past a NUL into the word of `j`. */
  predicate Confusable(j: Keyword, k: Keyword) {
    && j.memoryId + "\0" <= k.memoryId
    && j.normalized == k.memoryId[|j.memoryId| + 1..] + "\0" + k.normalized
  }

  lemma ConfusableShareKeys(j: Keyword, k: Keyword)
    requires Confusable(j, k)
    ensures WordKey(j.memoryId, j.normalized) == WordKey(k.memoryId, k.normalized) && !SameWord(j, k)
  {
    var m := j.memoryId + "\0";
    assert k.memoryId == m + k.memoryId[|m|..];
    assert |m| == |j.memoryId| + 1;
  }

  lemma SharedKeysAreConfusable(j: Keyword, k: Keyword)
    requires WordKey(j.memoryId, j.normalized) == WordKey(k.memoryId, k.normalized) && |j.memoryId| < |k.memoryId|
    ensures Confusable(j, k)
  {
    var s := WordKey(j.memoryId, j.normalized);
    var (m, n) := (j.memoryId, k.memoryId);
    assert s[..|m| + 1] == m + "\0";
    assert s[..|n|] == n && s[|n|..] == "\0" + k.normalized;
    assert s[..|n|][..|m| + 1] == s[..|m| + 1];
    assert s[|m| + 1..] == j.normalized;
    assert s[|m| + 1..] == s[..|n|][|m| + 1..] + s[|n|..];
    assert n[|m| + 1..] + ("\0" + k.normalized) == n[|m| + 1..] + "\0" + k.normalized;
  }

  /** Two keywords share their key exactly when they are the same word, or one can be taken for the other. */
  lemma WordKeysCollideExactlyWhen(j: Keyword, k: Keyword)
    ensures WordKey(j.memoryId, j.normalized) == WordKey(k.memoryId, k.normalized)
            <==> SameWord(j, k) || Confusable(j, k) || Confusable(k, j)
  {
    var (s, t) := (WordKey(j.memoryId, j.normalized), WordKey(k.memoryId, k.normalized));
    if Confusable(j, k) {
      ConfusableShareKeys(j, k);
    } else if Confusable(k, j) {
      ConfusableShareKeys(k, j);
    } else if s == t {
      hide Confusable;
      if |j.memoryId| < |k.memoryId| {
        SharedKeysAreConfusable(j, k);
      } else if |k.memoryId| < |j.memoryId| {
        SharedKeysAreConfusable(k, j);
      } else {
        assert j.memoryId == s[..|j.memoryId|] && k.memoryId == t[..|k.memoryId|];
        assert j.normalized == s[|j.memoryId| + 1..] && k.normalized == t[|k.memoryId| + 1..];
      }
    }
  }

  ghost predicate SomeConfusable(keywords: seq<Keyword>) {
    exists i, j :: 0 <= i < |keywords| && 0 <= j < |keywords| && Confusable(keywords[i], keywords[j])
  }

  ghost predicate KeywordRowsAccepted(t: Texts, ids: set<string>, keywords: seq<Keyword>) {
    forall i :: 0 <= i < |keywords| ==> KeywordRowAccepted(t, ids, keywords[i])
  }

  /** The seen-maps let exactly the lists through whose rows are valid and distinct, unless two rows
      can be taken for each other: then, and only then, they report a duplicate that is none. */
  lemma SeenMapsAcceptExactlyWhen(t: Texts, ids: set<string>, keywords: seq<Keyword>)
    ensures KeywordsAccepted(t, ids, keywords)
            <==> KeywordRowsAccepted(t, ids, keywords) && KeywordsDistinct(keywords) && !SomeConfusable(keywords)
  {
    hide WordKey, Confusable, KeywordRowAccepted, SameIndex, SameWord;
    forall i, j | 0 <= i < |keywords| && 0 <= j < |keywords|
      ensures WordKey(keywords[i].memoryId, keywords[i].normalized) == WordKey(keywords[j].memoryId, keywords[j].normalized)
              <==> SameWord(keywords[i], keywords[j]) || Confusable(keywords[i], keywords[j]) || Confusable(keywords[j], keywords[i])
      ensures !Confusable(keywords[i], keywords[i])
    {
      WordKeysCollideExactlyWhen(keywords[i], keywords[j]);
      NotConfusedWithItself(keywords[i]);
    }
  }

  lemma NotConfusedWithItself(k: Keyword)
    ensures !Confusable(k, k)
  {
    assert |k.memoryId + "\0"| > |k.memoryId|;
  }

  /** A file that breaks no constraint and is refused: memories "a" and "a\0b", with one keyword each. */
  lemma FalseDuplicateExample(t: Texts)
    requires t.trim("b\0c") != "" && t.trim("c") != ""
    ensures
      var keywords := [Keyword("a", 0, "b\0c", "b\0c", 1, 1), Keyword("a\0b", 0, "c", "c", 1, 1)];
      && KeywordRowsAccepted(t, {"a", "a\0b"}, keywords) && KeywordsDistinct(keywords)
      && !KeywordsAccepted(t, {"a", "a\0b"}, keywords)
  {
    var keywords := [Keyword("a", 0, "b\0c", "b\0c", 1, 1), Keyword("a\0b", 0, "c", "c", 1, 1)];
    assert WordKey("a", "b\0c") == "a\0b\0c" == WordKey("a\0b", "c");
    assert WordKey(keywords[0].memoryId, keywords[0].normalized) == WordKey(keywords[1].memoryId, keywords[1].normalized);
  }

  /** The seen-maps never let a duplicate through, and with NUL-free ids refuse nothing else. */
  lemma SeenMapsFindDuplicates(t: Texts, ids: set<string>, keywords: seq<Keyword>)
    ensures KeywordsAccepted(t, ids, keywords) ==> KeywordsDistinct(keywords)
    ensures (forall id :: id in ids ==> '\0' !in id) ==>
              (KeywordsAccepted(t, ids, keywords)
               <==> KeywordRowsAccepted(t, ids, keywords) && KeywordsDistinct(keywords))
  {
    SeenMapsAcceptExactlyWhen(t, ids, keywords);
    hide KeywordsDistinct, KeywordsAccepted, Confusable;
    forall i, j | 0 <= i < |keywords| && 0 <= j < |keywords| && Confusable(keywords[i], keywords[j])
      ensures '\0' in keywords[j].memoryId
    {
      ConfusionNeedsNul(keywords[i], keywords[j]);
    }
    assert KeywordRowsAccepted(t, ids, keywords) ==> forall i :: 0 <= i < |keywords| ==> keywords[i].memoryId in ids;
  }

  lemma ConfusionNeedsNul(j: Keyword, k: Keyword)
    requires Confusable(j, k)
    ensures '\0' in k.memoryId
  {
    var m := j.memoryId + "\0";
    assert m[|m| - 1] == '\0' && k.memoryId[|m| - 1] == m[|m| - 1];
  }

  // ----- Validating step by step -----

  method ValidateItems(t: Texts, items: seq<Item>) returns (r: Result<set<string>, Refusal>)
    ensures r.Ok? <==> ItemsAccepted(t, items)
    ensures r.Ok? ==> r.value == ItemIds(items)
    ensures r.Err? ==> !r.error.WrongManifest?
  {
    var ids: set<string> := {};
    for k := 0 to |items|
      invariant ItemsAccepted(t, items[..k]) && ids == ItemIds(items[..k])
    {
      assert items[..k + 1] == items[..k] + [items[k]];
      if !ItemRowAccepted(t, items[k]) {
        return Err(InvalidRow);
      }
      if items[k].id in ids {
        return Err(DuplicateRow);
      }
      ids := ids + {items[k].id};
    }
    assert items[..|items|] == items;
    return Ok(ids);
  }

  method ValidateChunks(memoryIds: set<string>, chunks: seq<Chunk>) returns (r: Result<(), Refusal>)
    ensures r.Ok? <==> ChunksAccepted(memoryIds, chunks)
    ensures r.Err? ==> !r.error.WrongManifest?
  {
    var ids: set<string>, slots: set<string> := {}, {};
    for k := 0 to |chunks|
      invariant ChunksAccepted(memoryIds, chunks[..k])
      invariant ids == set i | 0 <= i < k :: chunks[i].id
      invariant forall i :: 0 <= i < k ==> chunks[i].index >= 0
      invariant slots == set i | 0 <= i < k && chunks[i].index >= 0 :: SlotKey(chunks[i].memoryId, chunks[i].index)
    {
      hide SlotKey;
      var chunk := chunks[k];
      if !ValidChunk(chunk) {
        return Err(InvalidRow);
      }
      if chunk.memoryId !in memoryIds {
        return Err(MissingMemory);
      }
      if chunk.id in ids {
        return Err(DuplicateRow);
      }
      ids := ids + {chunk.id};
      var key := SlotKey(chunk.memoryId, chunk.index);
      forall i | 0 <= i < k
        ensures SlotKey(chunks[i].memoryId, chunks[i].index) == key <==> SameSlot(chunks[i], chunk)
      {
        SlotKeysNeverCollide(chunks[i].memoryId, chunks[i].index, chunk.memoryId, chunk.index);
      }
      if key in slots {
        return Err(DuplicateRow);
      }
      slots := slots + {key};
    }
    assert chunks[..|chunks|] == chunks;
    return Ok(());
  }

  /** What the seen-maps of the loop hold after `keywords`. */
  function SlotsOf(keywords: seq<Keyword>): set<string> {
    set i | 0 <= i < |keywords| && keywords[i].index >= 0 :: SlotKey(keywords[i].memoryId, keywords[i].index)
  }

  function WordKeysOf(keywords: seq<Keyword>): set<string> {
    set i | 0 <= i < |keywords| :: WordKey(keywords[i].memoryId, keywords[i].normalized)
  }

  /** A keyword with a valid row is new to the seen-maps, or the list is refused. */
  lemma NextKeyword(t: Texts, ids: set<string>, keywords: seq<Keyword>, k: nat)
    requires k < |keywords| && KeywordsAccepted(t, ids, keywords[..k])
    ensures KeywordsAccepted(t, ids, keywords) ==> KeywordRowAccepted(t, ids, keywords[k])
    ensures KeywordRowAccepted(t, ids, keywords[k]) ==>
              var slot, word := SlotKey(keywords[k].memoryId, keywords[k].index), WordKey(keywords[k].memoryId, keywords[k].normalized);
              if slot in SlotsOf(keywords[..k]) || word in WordKeysOf(keywords[..k]) then !KeywordsAccepted(t, ids, keywords)
              else (
                && KeywordsAccepted(t, ids, keywords[..k + 1])
                && SlotsOf(keywords[..k + 1]) == SlotsOf(keywords[..k]) + {slot}
                && WordKeysOf(keywords[..k + 1]) == WordKeysOf(keywords[..k]) + {word})
  {
    var (earlier, keyword) := (keywords[..k], keywords[k]);
    assert keywords[..k + 1] == earlier + [keyword];
    assert forall i :: 0 <= i < k ==> earlier[i] == keywords[i];
    if KeywordRowAccepted(t, ids, keyword) {
      SlotSeenBefore(t, ids, earlier, keyword);
      OneMoreSeen(earlier, keyword);
    }
    hide SlotKey, WordKey, SlotsOf, KeywordRowAccepted, SameIndex;
  }

  lemma SlotSeenBefore(t: Texts, ids: set<string>, earlier: seq<Keyword>, keyword: Keyword)
    requires KeywordsAccepted(t, ids, earlier) && keyword.index >= 0
    ensures SlotKey(keyword.memoryId, keyword.index) in SlotsOf(earlier) <==> exists i :: 0 <= i < |earlier| && SameIndex(earlier[i], keyword)
  {
    hide SlotKey, WordKey;
    assert forall i :: 0 <= i < |earlier| ==> KeywordRowAccepted(t, ids, earlier[i]);
    forall i | 0 <= i < |earlier|
      ensures earlier[i].index >= 0
      ensures SlotKey(earlier[i].memoryId, earlier[i].index) == SlotKey(keyword.memoryId, keyword.index) <==> SameIndex(earlier[i], keyword)
    {
      SlotKeysNeverCollide(earlier[i].memoryId, earlier[i].index, keyword.memoryId, keyword.index);
    }
  }

  lemma OneMoreSeen(earlier: seq<Keyword>, keyword: Keyword)
    requires keyword.index >= 0
    ensures SlotsOf(earlier + [keyword]) == SlotsOf(earlier) + {SlotKey(keyword.memoryId, keyword.index)}
    ensures WordKeysOf(earlier + [keyword]) == WordKeysOf(earlier) + {WordKey(keyword.memoryId, keyword.normalized)}
  {
    hide SlotKey, WordKey;
    var all := earlier + [keyword];
    assert all[|earlier|] == keyword && forall i :: 0 <= i < |earlier| ==> all[i] == earlier[i];
    assert SlotKey(all[|earlier|].memoryId, all[|earlier|].index) in SlotsOf(all);
    assert WordKey(all[|earlier|].memoryId, all[|earlier|].normalized) in WordKeysOf(all);
    forall i | 0 <= i < |earlier|
      ensures earlier[i].index >= 0 ==> SlotKey(earlier[i].memoryId, earlier[i].index) in SlotsOf(all)
      ensures WordKey(earlier[i].memoryId, earlier[i].normalized) in WordKeysOf(all)
    {
      assert all[i] == earlier[i];
    }
  }

  method ValidateKeywords(t: Texts, memoryIds: set<string>, keywords: seq<Keyword>) returns (r: Result<(), Refusal>)
    ensures r.Ok? <==> KeywordsAccepted(t, memoryIds, keywords)
    ensures r.Err? ==> !r.error.WrongManifest?
  {
    var slots: set<string>, words: set<string> := {}, {};
    for k := 0 to |keywords|
      invariant KeywordsAccepted(t, memoryIds, keywords[..k])
      invariant slots == SlotsOf(keywords[..k]) && words == WordKeysOf(keywords[..k])
    {
      hide SlotKey, WordKey, SlotsOf, WordKeysOf, KeywordsAccepted;
      var keyword := keywords[k];
      NextKeyword(t, memoryIds, keywords, k);
      if !ValidKeyword(t, keyword) {
        return Err(InvalidRow);
      }
      if keyword.memoryId !in memoryIds {
        return Err(MissingMemory);
      }
      var key := SlotKey(keyword.memoryId, keyword.index);
      if key in slots {
        return Err(DuplicateRow);
      }
      slots := slots + {key};
      var word := WordKey(keyword.memoryId, keyword.normalized);
      if word in words {
        return Err(DuplicateRow);
      }
      words := words + {word};
    }
    assert keywords[..|keywords|] == keywords;
    return Ok(());
  }

  method ValidateEvents(t: Texts, memoryIds: set<string>, events: seq<Event>) returns (r: Result<(), Refusal>)
    ensures r.Ok? <==> EventsAccepted(t, memoryIds, events)
    ensures r.Err? ==> !r.error.WrongManifest?
  {
    var ids: set<int> := {};
    for k := 0 to |events|
      invariant EventsAccepted(t, memoryIds, events[..k])
      invariant forall id :: id in ids <==> exists i :: 0 <= i < k && events[i].id == id
    {
      var event := events[k];
      if event.id <= 0 || event.eventType == "" || event.createdAt == 0 || !ObjectPayload(t, event.payload) {
        return Err(InvalidRow);
      }
      if event.memoryId.Some? {
        if event.memoryId.value == "" {
          return Err(InvalidRow);
        }
        if event.memoryId.value !in memoryIds {
          return Err(MissingMemory);
        }
      }
      if event.id in ids {
        return Err(DuplicateRow);
      }
      ids := ids + {event.id};
    }
    assert events[..|events|] == events;
    return Ok(());
  }

  method ValidatePolicies(t: Texts, policies: seq<PolicyRow>) returns (r: Result<(), Refusal>)
    ensures r.Ok? <==> PoliciesAccepted(t, policies)
    ensures r.Err? ==> !r.error.WrongManifest?
  {
    var ids: set<string> := {};
    for k := 0 to |policies|
      invariant PoliciesAccepted(t, policies[..k])
      invariant ids == set i | 0 <= i < k :: policies[i].id
    {
      if !PolicyRowAccepted(t, policies[k]) {
        return Err(InvalidRow);
      }
      if policies[k].id in ids {
        return Err(DuplicateRow);
      }
      ids := ids + {policies[k].id};
    }
    assert policies[..|policies|] == policies;
    return Ok(());
  }

  method ValidateAccess(memoryIds: set<string>, access: seq<Access>) returns (r: Result<(), Refusal>)
    ensures r.Ok? <==> AccessAccepted(memoryIds, access)
    ensures r.Err? ==> !r.error.WrongManifest?
  {
    var ids: set<int> := {};
    for k := 0 to |access|
      invariant AccessAccepted(memoryIds, access[..k])
      invariant forall id :: id in ids <==> exists i :: 0 <= i < k && access[i].id == id
    {
      var entry := access[k];
      if entry.id <= 0 || !ValidAccess(entry) {
        return Err(InvalidRow);
      }
      if entry.memoryId !in memoryIds {
        return Err(MissingMemory);
      }
      if entry.id in ids {
        return Err(DuplicateRow);
      }
      ids := ids + {entry.id};
    }
    assert access[..|access|] == access;
    return Ok(());
  }

  method ValidateImportData(env: Env, manifest: Manifest, data: ExportData) returns (r: Result<(), Refusal>)
    ensures r.Ok? <==> ManifestAccepted(env, manifest, CountsOf(data)) && RowsAccepted(env.texts, data)
    ensures r == Err(WrongManifest) <==> !ManifestAccepted(env, manifest, CountsOf(data))
  {
    hide ManifestAccepted, ItemsAccepted, ChunksAccepted, KeywordsAccepted, EventsAccepted, PoliciesAccepted, AccessAccepted;
    if !ManifestAccepted(env, manifest, CountsOf(data)) {
      return Err(WrongManifest);
    }
    var ids := ValidateItems(env.texts, data.items);
    if ids.Err? {
      return Err(ids.error);
    }
    r := ValidateChunks(ids.value, data.chunks);
    if r.Err? { return; }
    r := ValidateKeywords(env.texts, ids.value, data.keywords);
    if r.Err? { return; }
    r := ValidateEvents(env.texts, ids.value, data.events);
    if r.Err? { return; }
    r := ValidatePolicies(env.texts, data.policies);
    if r.Err? { return; }
    r := ValidateAccess(ids.value, data.access);
  }
}
