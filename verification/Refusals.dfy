/** Which files an import lets through, said of the manifest's fields, the counts and checksum of the
    records, and the fields of the rows. */
module Refusals {
  import opened Prelude
  import opened Schema
  import opened Keywords
  import opened Repository
  import opened Ndjson
  import opened Parser
  import opened Import
  import opened ImportApply

  /** A file of canonical records under any manifest and any line endings passes the parser and the
      manifest check exactly if the manifest is of format `pamie.ndjson`, version 1 and this schema,
      is dated and names a program version, and counts and checksums these very records. */
  lemma ManifestPassesExactlyWhen(env: Env, m: Manifest, es: seq<Entry>, ends: seq<string>)
    requires env.codec.Faithful(env.texts) && AllCanonical(env.texts, es) && Terminated(ends) && |ends| == |es| + 1
    ensures |Encoded(env.codec, es)| == |es|
    ensures
      var records := Encoded(env.codec, es);
      var rows := Grouped(es);
      var parsed := ParseOn(env.codec, Join([env.codec.encodeManifest(m)] + records, ends));
      && (parsed.Ok? ==> parsed.value == (m, rows))
      && (parsed.Ok? && ManifestAccepted(env, m, CountsOf(rows))
          <==> && m.checksum == env.codec.sha(Lines(records))
               && m.format == "pamie.ndjson" && m.version == 1 && m.schemaVersion == env.schemaVersion
               && m.exportedAt != 0 && env.texts.trim(m.pamieVersion) != ""
               && m.counts.items == |rows.items| && m.counts.chunks == |rows.chunks| && m.counts.keywords == |rows.keywords|
               && m.counts.events == |rows.events| && m.counts.policies == |rows.policies| && m.counts.access == |rows.access|)
  {
    var records := Encoded(env.codec, es);
    EncodedLength(env.codec, es);
    InterleavedStreamIsGrouped(env.texts, env.codec, m, es, ends);
    assert |env.codec.sha(Lines(records))| == 64 && env.codec.isHex(env.codec.sha(Lines(records)));
    hide ParseOn, Join, Encoded, Grouped, Terminated, AllCanonical, Codec.Faithful, Lines;
  }

  // ----- Rows -----

  /** The memories of the file. */
  predicate InFile(data: ExportData, id: string) { exists i :: 0 <= i < |data.items| && data.items[i].id == id }

  predicate JsonObject(t: Texts, s: string) { t.trim(s) != "" && t.isObject(s) }

  predicate WholeItem(t: Texts, r: Item) {
    && r.id != "" && r.body != "" && r.tier.Valid() && 0 <= r.importance <= 100 && r.createdAt != 0 && r.updatedAt != 0
    && JsonObject(t, r.metadata)
  }

  predicate WholeChunk(r: Chunk) { r.id != "" && r.memoryId != "" && r.index >= 0 && r.content != "" && r.createdAt != 0 }

  predicate WholeKeyword(t: Texts, r: Keyword) {
    && r.memoryId != "" && r.index >= 0 && t.trim(r.keyword) != "" && t.trim(r.normalized) != ""
    && r.createdAt != 0 && r.updatedAt != 0
  }

  predicate WholeEvent(t: Texts, r: Event) {
    && r.id > 0 && r.eventType != "" && r.createdAt != 0 && r.memoryId != Some("")
    && (r.payload.Text? ==> JsonObject(t, r.payload.text))
  }

  predicate WholePolicy(t: Texts, r: PolicyRow) {
    r.id != "" && r.name != "" && r.createdAt != 0 && r.updatedAt != 0 && JsonObject(t, r.scope) && JsonObject(t, r.rules)
  }

  predicate WholeAccess(r: Access) { r.id > 0 && r.memoryId != "" && r.accessType != "" && r.createdAt != 0 }

  /** Each row of the file by itself. */
  ghost predicate RowsAreWhole(t: Texts, data: ExportData) {
    && (forall r :: r in data.items ==> WholeItem(t, r)) && (forall r :: r in data.chunks ==> WholeChunk(r))
    && (forall r :: r in data.keywords ==> WholeKeyword(t, r)) && (forall r :: r in data.events ==> WholeEvent(t, r))
    && (forall r :: r in data.policies ==> WholePolicy(t, r)) && (forall r :: r in data.access ==> WholeAccess(r))
  }

  /** Rows belong to memories of the same file. */
  ghost predicate RowsHaveMemories(data: ExportData) {
    && (forall r :: r in data.chunks ==> InFile(data, r.memoryId))
    && (forall r :: r in data.keywords ==> InFile(data, r.memoryId))
    && (forall r :: r in data.events && r.memoryId.Some? ==> InFile(data, r.memoryId.value))
    && (forall r :: r in data.access ==> InFile(data, r.memoryId))
  }

  /** No two rows share a key, no two chunks or keywords a place in their memory, and no two keywords
      the key they are looked up by. */
  ghost predicate RowsAreDistinct(data: ExportData) {
    && (forall i, j :: 0 <= i < j < |data.items| ==> data.items[i].id != data.items[j].id)
    && (forall i, j :: 0 <= i < j < |data.chunks| ==>
          && data.chunks[i].id != data.chunks[j].id
          && !(data.chunks[i].memoryId == data.chunks[j].memoryId && data.chunks[i].index == data.chunks[j].index))
    && (forall i, j :: 0 <= i < j < |data.keywords| ==>
          && !(data.keywords[i].memoryId == data.keywords[j].memoryId && data.keywords[i].index == data.keywords[j].index)
          && data.keywords[i].memoryId + "\0" + data.keywords[i].normalized
             != data.keywords[j].memoryId + "\0" + data.keywords[j].normalized)
    && (forall i, j :: 0 <= i < j < |data.events| ==> data.events[i].id != data.events[j].id)
    && (forall i, j :: 0 <= i < j < |data.policies| ==> data.policies[i].id != data.policies[j].id)
    && (forall i, j :: 0 <= i < j < |data.access| ==> data.access[i].id != data.access[j].id)
  }

  /** The rows pass exactly if each is whole, belongs to a memory of the file, and is distinct. */
  lemma RowsPassExactlyWhen(t: Texts, data: ExportData)
    ensures RowsAccepted(t, data) <==> RowsAreWhole(t, data) && RowsHaveMemories(data) && RowsAreDistinct(data)
  {
    var ids := ItemIds(data.items);
    RowsByThemselves(t, ids);
    assert forall id :: id in ids <==> InFile(data, id);
    hide InFile, ItemIds, ItemRowAccepted, KeywordRowAccepted, EventRowAccepted, PolicyRowAccepted, AccessRowAccepted, ValidChunk,
      WholeItem, WholeChunk, WholeKeyword, WholeEvent, WholePolicy, WholeAccess;
  }

  lemma RowsByThemselves(t: Texts, ids: set<string>)
    ensures forall r :: ItemRowAccepted(t, r) <==> WholeItem(t, r)
    ensures forall r :: ValidChunk(r) <==> WholeChunk(r)
    ensures forall r :: KeywordRowAccepted(t, ids, r) <==> WholeKeyword(t, r) && r.memoryId in ids
    ensures forall r :: EventRowAccepted(t, ids, r) <==> WholeEvent(t, r) && (r.memoryId.Some? ==> r.memoryId.value in ids)
    ensures forall r :: PolicyRowAccepted(t, r) <==> WholePolicy(t, r)
    ensures forall r :: AccessRowAccepted(ids, r) <==> WholeAccess(r) && r.memoryId in ids
  {
  }
}
