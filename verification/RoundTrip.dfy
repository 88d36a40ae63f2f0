/** Export after any history of service calls, import into an empty store, export again: the same
    record lines in the same order. */
module RoundTrip {
  import opened Prelude
  import opened Schema
  import opened Keywords
  import opened Ordering
  import opened Repository
  import opened Ndjson
  import opened Parser
  import opened Import
  import opened ImportApply
  import opened Export

  lemma MergedFromNothing<K(!new), V(!new)>(after: map<K, V>, rows: seq<V>, key: V -> K)
    requires Merged(map[], after, rows, key)
    ensures (set k | k in after :: after[k]) == set x | x in rows
  {
    var values := set k | k in after :: after[k];
    forall x | x in rows
      ensures x in values
    {
      var i :| 0 <= i < |rows| && rows[i] == x;
      assert key(rows[i]) in after;
    }
    forall x | x in values
      ensures x in rows
    {
      var k :| k in after && after[k] == x;
      var i :| 0 <= i < |rows| && key(rows[i]) == k;
    }
  }

  lemma ChunksFromNothing(after: map<string, ChunkRow>, chunks: seq<Chunk>)
    requires ChunksMerged(map[], after, chunks)
    ensures ChunkRows(after) == set c | c in chunks
  {
    forall c | c in chunks
      ensures c in ChunkRows(after)
    {
      var i :| 0 <= i < |chunks| && chunks[i] == c;
      assert chunks[i].id in after;
    }
  }

  lemma ListedRows<T(!new)>(less: (T, T) -> bool, rows: set<T>, list: seq<T>)
    requires IsListing(less, rows, list)
    ensures (set x | x in list) == rows
  {
  }

  /** Importing an export into an empty store and exporting again gives the same rows in the same
      order, table by table. */
  lemma RestoredStoreExportsTheSame(db: Tables, after: Tables)
    requires SchemaOk(db) && Imported(EMPTY, ExportOf(db), after)
    ensures SchemaOk(after) && ExportOf(after) == ExportOf(db)
  {
    AllAreOrdered(db);
    var data := ExportOf(db);
    assert EMPTY.events + data.events == data.events && EMPTY.access + data.access == data.access;
    hide SchemaOk, Merged, ChunksMerged, Orders;
    MergedFromNothing(after.items, data.items, ItemKey);
    MergedFromNothing(after.keywords, data.keywords, KeyOf);
    MergedFromNothing(after.policies, data.policies, PolicyKey);
    ChunksFromNothing(after.chunks, data.chunks);
    hide IsListing, ChunkRows;
    ListedRows(ItemBefore, ItemRows(db.items), data.items);
    ListedRows(ChunkBefore, ChunkRows(db.chunks), data.chunks);
    ListedRows(KeywordBefore, KeywordSet(db.keywords), data.keywords);
    ListedRows(EventBefore, EventSet(db.events), data.events);
    ListedRows(ByCreation, PolicySet(db.policies), data.policies);
    ListedRows(AccessBefore, AccessSet(db.access), data.access);
    hide ExportOf;
    ExportIsDetermined(after, data);
  }

  lemma HeadingIsAccepted(env: Env, data: ExportData, pamieVersion: string, now: Instant)
    requires env.codec.Faithful(env.texts) && env.texts.Lawful() && now != 0
    ensures ManifestAccepted(env, ManifestFor(env.codec, data, Heading(env, pamieVersion, now)), CountsOf(data))
  {
    hide Encoded, EntriesOf, Lines;
    assert env.texts.trim(env.texts.trim(pamieVersion)) == env.texts.trim(pamieVersion);
  }

  lemma NothingConflictsWithEmpty(data: ExportData)
    ensures SchemaOk(EMPTY) && NoConflicts(EMPTY, data)
  {
  }

  /** The exported file, under any line endings, parses back to the exported rows; validation and
      the conflict check of an empty store accept it exactly when the JSON texts of the stored
      policies are objects; and whatever an import then makes of an empty store exports to the same
      rows, hence the same record lines and checksum. */
  lemma ExportRestores(env: Env, db: Tables, pamieVersion: string, now: Instant, ends: seq<string>)
    requires SchemaOk(db) && RowsValid(env.texts, db) && env.codec.Faithful(env.texts) && env.texts.Lawful() && now != 0
    requires Terminated(ends) && |ends| == |FileLines(env.codec, ExportOf(db), Heading(env, pamieVersion, now))|
    ensures
      var data := ExportOf(db);
      var m := ManifestFor(env.codec, data, Heading(env, pamieVersion, now));
      && ParseOn(env.codec, Join(FileLines(env.codec, data, Heading(env, pamieVersion, now)), ends)) == Ok((m, data))
      && ManifestAccepted(env, m, CountsOf(data)) && NoConflicts(EMPTY, data)
      && (RowsAccepted(env.texts, data) <==> PoliciesAreObjects(env.texts, db.policies))
      && forall after :: Imported(EMPTY, data, after) ==>
           && SchemaOk(after) && ExportOf(after) == data
           && Encoded(env.codec, EntriesOf(ExportOf(after))) == Encoded(env.codec, EntriesOf(data))
  {
    hide *;
    var data := ExportOf(db);
    ExportIsCanonical(env.texts, db);
    ParseInvertsExport(env.texts, env.codec, data, Heading(env, pamieVersion, now), ends);
    HeadingIsAccepted(env, data, pamieVersion, now);
    NothingConflictsWithEmpty(data);
    ExportIsAcceptedExactlyWhen(env.texts, db);
    forall after | Imported(EMPTY, data, after)
      ensures SchemaOk(after) && ExportOf(after) == data
    {
      RestoredStoreExportsTheSame(db, after);
    }
  }
}
