/** Backfill: every index stays in step, the counters add up, and with a healthy embedder the
    candidates drain. */
module Backfill {
  import opened Prelude
  import opened Schema
  import opened Keywords
  import opened Ordering
  import opened Repository
  import opened Lifecycle
  import opened LifecycleLaws
  import opened Service
  import opened Words
  import opened Writes
  import opened Index

  ghost predicate AreChunks(db: Tables, list: seq<Chunk>) {
    forall i :: 0 <= i < |list| ==> ChunkOfMemory(db, list[i].id, list[i].memoryId)
  }

  ghost predicate Distinct(list: seq<Chunk>) {
    forall i, j :: 0 <= i < j < |list| ==> list[i].id != list[j].id
  }

  lemma CandidatesAreChunks(db: Tables, force: bool, limit: nat)
    requires ChunksOk(db.items.Keys, db.chunks)
    ensures
      var list := Candidates(db, force, limit);
      && AreChunks(db, list) && Distinct(list)
      && |list| <= limit
      && forall i :: 0 <= i < |list| ==> list[i] in CandidateChunks(db, force)
  {
    AgeOrdersChunks(CandidateChunks(db, force));
    var all := Listing(ByAge, CandidateChunks(db, force));
    var list := Candidates(db, force, limit);
    forall i | 0 <= i < |list|
      ensures list[i] in CandidateChunks(db, force)
    {
      assert list[i] == all[i] && all[i] in all;
    }
    forall i, j | 0 <= i < j < |list|
      ensures list[i].id != list[j].id
    {
      assert ByAge(all[i], all[j]) && !ByAge(all[i], all[i]);
      assert all[i] in all && all[j] in all;
    }
  }

  lemma LastOfBackfill(cfg: Config, start: Tables, list: seq<Chunk>, envs: string -> IndexEnv, clock: nat -> Instant)
    requires list != []
    ensures
      var n := |list| - 1;
      var (before, r) := BackfillOn(cfg, start, list[..n], envs, clock);
      var c := list[n];
      var (after, status) := IndexOn(cfg, before, Title(start, c.memoryId), WordsOf(start.keywords, c.memoryId),
                                     c.id, c.memoryId, envs(c.id), clock(n));
      && BackfillOn(cfg, start, list, envs, clock).0 == after
      && BackfillOn(cfg, start, list, envs, clock).1
         == BackfillResult(|list|, r.indexed + (if status == Some(Indexed) then 1 else 0),
                           r.failed + (if status == Some(Failed) then 1 else 0), r.skipped + (if status == Some(Skipped) then 1 else 0))
  {
    hide IndexOn, WordsOf;
  }

  /** Backfill writes indexes only, keeps them in step even when writes are lost, and reports one
      outcome per chunk scanned. */
  lemma {:induction false} BackfillKeepsIndexes(cfg: Config, start: Tables, list: seq<Chunk>, envs: string -> IndexEnv, clock: nat -> Instant)
    requires Sound(cfg, start) && AreChunks(start, list) && cfg.texts.Lawful()
    ensures
      var (after, r) := BackfillOn(cfg, start, list, envs, clock);
      && OnlyIndexMoved(start, after) && Sound(cfg, after)
      && (IndexSound(cfg, start) ==> IndexSound(cfg, after))
      && r.scanned == |list|
      && (cfg.vectorEnabled ==> r.scanned == r.indexed + r.skipped + r.failed)
  {
    if list != [] {
      var n := |list| - 1;
      FirstChunks(start, list);
      hide *;
      BackfillKeepsIndexes(cfg, start, list[..n], envs, clock);
      LastOfBackfill(cfg, start, list, envs, clock);
      var before := BackfillOn(cfg, start, list[..n], envs, clock).0;
      OneMoreIndexed(cfg, start, before, list[n], envs(list[n].id), clock(n));
    } else {
      hide Sound, IndexSound, OnlyIndexMoved, IndexOn, WordsOf;
      EmptyBackfill(cfg, start, envs, clock);
    }
  }

  lemma FirstChunks(start: Tables, list: seq<Chunk>)
    requires list != [] && AreChunks(start, list)
    ensures AreChunks(start, list[..|list| - 1]) && ChunkOfMemory(start, list[|list| - 1].id, list[|list| - 1].memoryId)
  {
    hide ChunkOfMemory;
    assert forall i :: 0 <= i < |list| - 1 ==> list[..|list| - 1][i] == list[i];
  }

  lemma OneMoreIndexed(cfg: Config, start: Tables, before: Tables, c: Chunk, env: IndexEnv, now: Instant)
    requires Sound(cfg, before) && OnlyIndexMoved(start, before) && ChunkOfMemory(start, c.id, c.memoryId) && cfg.texts.Lawful()
    ensures
      var (after, status) := IndexOn(cfg, before, Title(start, c.memoryId), WordsOf(start.keywords, c.memoryId), c.id, c.memoryId, env, now);
      && OnlyIndexMoved(start, after) && Sound(cfg, after)
      && (IndexSound(cfg, before) ==> IndexSound(cfg, after))
      && (cfg.vectorEnabled ==> status == Some(Indexed) || status == Some(Skipped) || status == Some(Failed))
  {
    var (title, words) := (Title(before, c.memoryId), WordsOf(before.keywords, c.memoryId));
    assert title == Title(start, c.memoryId) && words == WordsOf(start.keywords, c.memoryId);
    OneStatus(cfg, before, title, words, c.id, c.memoryId, env, now);
    IndexKeepsSound(cfg, before, title, words, c.id, c.memoryId, env, now);
    IndexOnWrites(cfg, before, title, words, c.id, c.memoryId, env, now);
    hide IndexOn, WordsOf, Sound, Texts.Lawful, IndexWritten;
    if IndexSound(cfg, before) {
      AgreesAnywhere(cfg, before, c.id);
      IndexKeepsIndexSound(cfg, before, c.id, c.memoryId, env, now);
    }
  }

  lemma OneStatus(cfg: Config, db: Tables, title: string, words: seq<string>, c: string, memoryId: string, env: IndexEnv, now: Instant)
    ensures cfg.vectorEnabled ==> IndexOn(cfg, db, title, words, c, memoryId, env, now).1 in {Some(Indexed), Some(Skipped), Some(Failed)}
  {
    hide PersistEmbeddingOn, RecordStatusOn, Document, Failure;
  }

  lemma AgreesAnywhere(cfg: Config, db: Tables, c: string)
    requires IndexSound(cfg, db)
    ensures StatusAgrees(cfg, db, c)
  {
    hide CurrentDocument;
    if c in db.statuses {
      assert StatusAgrees(cfg, db, c);
    }
  }

  // ----- Draining -----

  /** Vector search is configured properly and no two chunks share a row id. */
  ghost predicate Ready(cfg: Config, db: Tables) {
    && cfg.vectorEnabled && ValidTarget(cfg.texts, cfg.target) && !cfg.backend.OtherBackend?
    && forall c, d :: c in db.chunks && d in db.chunks && RowidOf(cfg, c) == RowidOf(cfg, d) ==> c == d
  }

  /** The embedder answers properly and the write persists. */
  predicate Healthy(cfg: Config, env: IndexEnv, now: Instant) {
    && env.durable && now != 0
    && env.outcome.Embedded? && env.outcome.encodable && |env.outcome.vector| == cfg.target.dimensions
  }

  ghost predicate AllHealthy(cfg: Config, list: seq<Chunk>, envs: string -> IndexEnv, clock: nat -> Instant) {
    forall i :: 0 <= i < |list| ==> Healthy(cfg, envs(list[i].id), clock(i))
  }

  ghost predicate Documented(cfg: Config, db: Tables, c: Chunk) { CurrentDocument(cfg, db, c.memoryId).Some? }

  lemma FirstEmbeddingSucceeds(cfg: Config, db: Tables, c: string, memoryId: string, hash: string, vector: seq<real>, now: Instant)
    requires Sound(cfg, db) && ChunkOfMemory(db, c, memoryId) && Ready(cfg, db)
    requires |vector| == cfg.target.dimensions && cfg.texts.trim(hash) != "" && now != 0
    ensures PersistEmbeddingOn(cfg, db, c, memoryId, hash, vector, now).Ok?
  {
    OwnRowidIsFree(cfg, db, c);
    FreeRowidSuffices(cfg, db, c, memoryId, hash, vector, now);
  }

  lemma OwnRowidIsFree(cfg: Config, db: Tables, c: string)
    requires Sound(cfg, db) && Ready(cfg, db) && c in db.chunks
    ensures !RowidTaken(db.embeddings, c, RowidOf(cfg, c))
  {
    hide SchemaOk, TextsBounded, VecExact, ChunksExact, RowidOf, ValidTarget;
    assert forall d :: d in db.embeddings ==> db.embeddings[d].rowid == RowidOf(cfg, d) && d in db.chunks;
  }

  lemma SkipIsRecorded(cfg: Config, db: Tables, c: string, memoryId: string, now: Instant)
    requires Sound(cfg, db) && ChunkOfMemory(db, c, memoryId) && Ready(cfg, db) && now != 0
    ensures
      var r := UpsertStatusOn(cfg.texts, db, cfg.target, c, StatusRow(memoryId, Skipped, "", "", 0, now));
      r.Ok? && c in r.value.statuses && r.value.statuses[c].status == Skipped
  {
    hide TextsBounded, VecExact, FtsExact, ValidTarget;
    assert c != "" && memoryId != "";
  }

  lemma HealthyOutcome(cfg: Config, db: Tables, c: string, memoryId: string, env: IndexEnv, now: Instant)
    requires Sound(cfg, db) && ChunkOfMemory(db, c, memoryId) && Ready(cfg, db) && Healthy(cfg, env, now) && cfg.texts.Lawful()
    ensures
      var (after, status) := IndexOn(cfg, db, Title(db, memoryId), WordsOf(db.keywords, memoryId), c, memoryId, env, now);
      if CurrentDocument(cfg, db, memoryId).Some? then status == Some(Indexed)
      else status == Some(Skipped) && c in after.statuses && after.statuses[c].status == Skipped
  {
    var document := CurrentDocument(cfg, db, memoryId);
    var (title, words) := (Title(db, memoryId), WordsOf(db.keywords, memoryId));
    HealthyMeans(cfg, db, c, memoryId, env, now);
    hide *;
    BoundedDocument(cfg, db, memoryId);
    DocumentRead(cfg, db, memoryId);
    if document.Some? {
      HashIsNotBlank(cfg.texts, document.value);
      FirstEmbeddingSucceeds(cfg, db, c, memoryId, cfg.texts.hash(document.value), env.outcome.vector, now);
      EmbeddingIsIndexed(cfg, db, title, words, c, memoryId, env, now);
    } else {
      SkipIsRecorded(cfg, db, c, memoryId, now);
      NothingIsSkipped(cfg, db, title, words, c, memoryId, env, now);
    }
  }

  lemma HealthyMeans(cfg: Config, db: Tables, c: string, memoryId: string, env: IndexEnv, now: Instant)
    requires ChunkOfMemory(db, c, memoryId) && Ready(cfg, db) && Healthy(cfg, env, now)
    ensures cfg.vectorEnabled && memoryId in db.items && env.durable && now != 0
    ensures env.outcome.Embedded? && env.outcome.encodable && |env.outcome.vector| == cfg.target.dimensions
  {
  }

  lemma EmbeddingIsIndexed(cfg: Config, db: Tables, title: string, words: seq<string>, c: string, memoryId: string, env: IndexEnv, now: Instant)
    requires Healthy(cfg, env, now) && cfg.vectorEnabled
    requires Document(cfg.texts, title, words).Some? && !TooLong(Document(cfg.texts, title, words))
    requires PersistEmbeddingOn(cfg, db, c, memoryId, cfg.texts.hash(Document(cfg.texts, title, words).value), env.outcome.vector, now).Ok?
    ensures IndexOn(cfg, db, title, words, c, memoryId, env, now).1 == Some(Indexed)
  {
    hide Document, PersistEmbeddingOn, RecordStatusOn;
  }

  lemma NothingIsSkipped(cfg: Config, db: Tables, title: string, words: seq<string>, c: string, memoryId: string, env: IndexEnv, now: Instant)
    requires env.durable && cfg.vectorEnabled && Document(cfg.texts, title, words).None?
    requires
      var r := UpsertStatusOn(cfg.texts, db, cfg.target, c, StatusRow(memoryId, Skipped, "", "", 0, now));
      r.Ok? && c in r.value.statuses && r.value.statuses[c].status == Skipped
    ensures
      var (after, status) := IndexOn(cfg, db, title, words, c, memoryId, env, now);
      status == Some(Skipped) && c in after.statuses && after.statuses[c].status == Skipped
  {
    hide Document, UpsertStatusOn;
  }

  lemma BoundedDocument(cfg: Config, db: Tables, id: string)
    requires Sound(cfg, db) && id in db.items
    ensures !TooLong(CurrentDocument(cfg, db, id))
  {
    hide SchemaOk, ChunksExact, EntriesBelong, VecExact, CurrentDocument, WordsOf, Clean;
  }

  /** After a healthy run: what has a document is indexed, what has none is skipped, and chunks not
      listed are as they were. */
  ghost predicate Drained(cfg: Config, start: Tables, list: seq<Chunk>, after: Tables) {
    && (forall i :: 0 <= i < |list| && Documented(cfg, start, list[i]) ==> IsIndexed(after, list[i].id))
    && (forall i :: 0 <= i < |list| && !Documented(cfg, start, list[i]) ==> IsSkipped(start, after, list[i].id))
    && (forall d :: Unlisted(list, d) ==> SameEntry(start, after, d))
  }

  ghost predicate Unlisted(list: seq<Chunk>, d: string) { forall i :: 0 <= i < |list| ==> list[i].id != d }

  predicate IsIndexed(after: Tables, c: string) { c in after.embeddings && c in after.statuses && after.statuses[c].status == Indexed }

  predicate IsSkipped(start: Tables, after: Tables, c: string) {
    (c in after.embeddings <==> c in start.embeddings) && c in after.statuses && after.statuses[c].status == Skipped
  }

  predicate SameEntry(start: Tables, after: Tables, d: string) {
    && (d in after.embeddings <==> d in start.embeddings)
    && (d in after.statuses <==> d in start.statuses)
    && (d in start.statuses ==> after.statuses[d] == start.statuses[d])
  }

  lemma {:induction false} HealthyBackfillDrains(cfg: Config, start: Tables, list: seq<Chunk>, envs: string -> IndexEnv, clock: nat -> Instant)
    requires Sound(cfg, start) && AreChunks(start, list) && Distinct(list) && cfg.texts.Lawful()
    requires Ready(cfg, start) && AllHealthy(cfg, list, envs, clock)
    ensures
      var (after, r) := BackfillOn(cfg, start, list, envs, clock);
      Drained(cfg, start, list, after) && r.failed == 0 && r.indexed == CountDocumented(cfg, start, list)
  {
    hide *;
    if list != [] {
      var n := |list| - 1;
      FirstOfList(cfg, start, list, envs, clock);
      HealthyBackfillDrains(cfg, start, list[..n], envs, clock);
      BackfillKeepsIndexes(cfg, start, list[..n], envs, clock);
      LastOfBackfill(cfg, start, list, envs, clock);
      var before := BackfillOn(cfg, start, list[..n], envs, clock).0;
      OneMoreDrained(cfg, start, before, list, envs(list[n].id), clock(n));
    } else {
      EmptyBackfill(cfg, start, envs, clock);
    }
  }

  lemma EmptyBackfill(cfg: Config, start: Tables, envs: string -> IndexEnv, clock: nat -> Instant)
    ensures BackfillOn(cfg, start, [], envs, clock) == (start, BackfillResult(0, 0, 0, 0))
    ensures Drained(cfg, start, [], start) && CountDocumented(cfg, start, []) == 0
    ensures OnlyIndexMoved(start, start)
  {
    hide IndexOn, WordsOf, Documented;
  }

  lemma FirstOfList(cfg: Config, start: Tables, list: seq<Chunk>, envs: string -> IndexEnv, clock: nat -> Instant)
    requires list != [] && AreChunks(start, list) && Distinct(list) && AllHealthy(cfg, list, envs, clock)
    ensures
      var n := |list| - 1;
      && AreChunks(start, list[..n]) && Distinct(list[..n]) && AllHealthy(cfg, list[..n], envs, clock)
      && ChunkOfMemory(start, list[n].id, list[n].memoryId) && Healthy(cfg, envs(list[n].id), clock(n))
      && CountDocumented(cfg, start, list) == CountDocumented(cfg, start, list[..n]) + if Documented(cfg, start, list[n]) then 1 else 0
  {
    hide ChunkOfMemory, Healthy, Documented;
    assert forall i :: 0 <= i < |list| - 1 ==> list[..|list| - 1][i] == list[i];
  }

  ghost function CountDocumented(cfg: Config, db: Tables, list: seq<Chunk>): nat {
    if list == [] then 0
    else CountDocumented(cfg, db, list[..|list| - 1]) + if Documented(cfg, db, list[|list| - 1]) then 1 else 0
  }

  lemma OneMoreDrained(cfg: Config, start: Tables, before: Tables, list: seq<Chunk>, env: IndexEnv, now: Instant)
    requires list != [] && Sound(cfg, before) && OnlyIndexMoved(start, before) && cfg.texts.Lawful()
    requires ChunkOfMemory(start, list[|list| - 1].id, list[|list| - 1].memoryId) && Distinct(list)
    requires Ready(cfg, start) && Healthy(cfg, env, now) && Drained(cfg, start, list[..|list| - 1], before)
    ensures
      var c := list[|list| - 1];
      var (after, status) := IndexOn(cfg, before, Title(start, c.memoryId), WordsOf(start.keywords, c.memoryId), c.id, c.memoryId, env, now);
      Drained(cfg, start, list, after) && status == if Documented(cfg, start, c) then Some(Indexed) else Some(Skipped)
  {
    var c := list[|list| - 1];
    var (title, words) := (Title(before, c.memoryId), WordsOf(before.keywords, c.memoryId));
    assert title == Title(start, c.memoryId) && words == WordsOf(start.keywords, c.memoryId);
    assert Ready(cfg, before);
    SameTextsSameDocument(cfg, start, before, c.memoryId);
    HealthyOutcome(cfg, before, c.id, c.memoryId, env, now);
    IndexOnWrites(cfg, before, title, words, c.id, c.memoryId, env, now);
    DocumentRead(cfg, before, c.memoryId);
    var (after, status) := IndexOn(cfg, before, title, words, c.id, c.memoryId, env, now);
    hide IndexOn, WordsOf, Sound, Texts.Lawful, Ready, Document, CurrentDocument;
    DrainedGrows(cfg, start, before, list, after, env, status);
  }

  lemma DrainedGrows(cfg: Config, start: Tables, before: Tables, list: seq<Chunk>, after: Tables, env: IndexEnv, status: Option<Status>)
    requires list != [] && Distinct(list) && Drained(cfg, start, list[..|list| - 1], before)
    requires
      var c := list[|list| - 1];
      && IndexWritten(cfg, before, c.id, c.memoryId, CurrentDocument(cfg, start, c.memoryId), env, after, status)
      && (if Documented(cfg, start, c) then status == Some(Indexed)
          else status == Some(Skipped) && c.id in after.statuses && after.statuses[c.id].status == Skipped)
    ensures Drained(cfg, start, list, after)
  {
    hide CurrentDocument;
    hide Documented;
    var n := |list| - 1;
    assert forall i :: 0 <= i < n ==> list[..n][i] == list[i];
    assert forall d :: d != list[n].id ==> SameEntry(before, after, d);
    assert SameEntry(start, before, list[n].id) by { assert Unlisted(list[..n], list[n].id); }
    forall i | 0 <= i < |list|
      ensures if Documented(cfg, start, list[i]) then IsIndexed(after, list[i].id) else IsSkipped(start, after, list[i].id)
    {
      if i < n {
        assert SameEntry(before, after, list[i].id);
        assert list[..n][i] == list[i];
      }
    }
    forall d | Unlisted(list, d)
      ensures SameEntry(start, after, d)
    {
      assert Unlisted(list[..n], d) && d != list[n].id;
    }
  }

  // ----- Counting the candidates -----

  ghost function DocumentedOf(cfg: Config, db: Tables, list: seq<Chunk>): set<Chunk> {
    set i | 0 <= i < |list| && Documented(cfg, db, list[i]) :: list[i]
  }

  lemma {:induction false} DocumentedAreCounted(cfg: Config, db: Tables, list: seq<Chunk>)
    requires Distinct(list)
    ensures |DocumentedOf(cfg, db, list)| == CountDocumented(cfg, db, list)
  {
    hide Documented;
    if list != [] {
      var n := |list| - 1;
      LastOneDocumented(cfg, db, list);
      hide Distinct, DocumentedOf;
      DocumentedAreCounted(cfg, db, list[..n]);
    }
  }

  lemma LastOneDocumented(cfg: Config, db: Tables, list: seq<Chunk>)
    requires Distinct(list) && list != []
    ensures
      var (first, last) := (list[..|list| - 1], list[|list| - 1]);
      var before := DocumentedOf(cfg, db, first);
      && Distinct(first) && last !in before
      && DocumentedOf(cfg, db, list) == if Documented(cfg, db, last) then before + {last} else before
  {
    hide Documented;
    var (first, last) := (list[..|list| - 1], list[|list| - 1]);
    assert list == first + [last];
    DocumentedMembers(cfg, db, first);
    DocumentedMembers(cfg, db, list);
    forall c
      ensures c in DocumentedOf(cfg, db, list) <==> c in DocumentedOf(cfg, db, first) || (c == last && Documented(cfg, db, last))
    {
      if c in DocumentedOf(cfg, db, first) {
        var i :| 0 <= i < |first| && first[i] == c;
        assert list[i] == c;
      }
    }
  }

  /** With truthful statuses, a chunk that is a candidate and has no document was never embedded. */
  lemma SkippedStayCandidates(cfg: Config, db: Tables, c: Chunk)
    requires Sound(cfg, db) && IndexSound(cfg, db) && c in CandidateChunks(db, false) && !Documented(cfg, db, c)
    ensures c.id !in db.embeddings && c.id in db.chunks
  {
    assert StatusesOk(db.items.Keys, db.chunks, db.statuses);
    assert EntriesBelong(cfg, db.chunks, db.backend, db.embeddings, db.statuses);
    hide Sound, CurrentDocument, SchemaOk;
    if c.id in db.statuses {
      assert StatusAgrees(cfg, db, c.id);
    }
  }

  lemma CandidatesAfter(cfg: Config, start: Tables, list: seq<Chunk>, after: Tables)
    requires Sound(cfg, start) && IndexSound(cfg, start) && OnlyIndexMoved(start, after) && Drained(cfg, start, list, after)
    requires forall i :: 0 <= i < |list| ==> list[i] in CandidateChunks(start, false)
    ensures DocumentedOf(cfg, start, list) <= CandidateChunks(start, false)
    ensures CandidateChunks(after, false) == CandidateChunks(start, false) - DocumentedOf(cfg, start, list)
  {
    SoundHasSchema(cfg, start);
    forall c: Chunk | c.id in start.chunks && start.chunks[c.id].chunk == c
      ensures c in CandidateChunks(after, false) <==> c in CandidateChunks(start, false) && c !in DocumentedOf(cfg, start, list)
    {
      OneCandidateAfter(cfg, start, list, after, c);
    }
  }

  lemma OneCandidateAfter(cfg: Config, start: Tables, list: seq<Chunk>, after: Tables, c: Chunk)
    requires Sound(cfg, start) && IndexSound(cfg, start) && OnlyIndexMoved(start, after) && Drained(cfg, start, list, after)
    requires forall i :: 0 <= i < |list| ==> list[i] in CandidateChunks(start, false)
    requires ChunksOk(start.items.Keys, start.chunks) && c.id in start.chunks && start.chunks[c.id].chunk == c
    ensures c in CandidateChunks(after, false) <==> c in CandidateChunks(start, false) && c !in DocumentedOf(cfg, start, list)
  {
    hide Sound, IndexSound, Documented;
    CandidatesById(start, c);
    CandidatesById(after, c);
    if i :| 0 <= i < |list| && list[i].id == c.id {
      CandidatesById(start, list[i]);
      assert list[i] == c;
      if !Documented(cfg, start, c) {
        SkippedStayCandidates(cfg, start, c);
        assert IsSkipped(start, after, c.id);
      } else {
        assert IsIndexed(after, c.id);
      }
    } else {
      assert Unlisted(list, c.id);
      assert SameEntry(start, after, c.id);
    }
  }

  lemma CandidatesById(db: Tables, c: Chunk)
    requires ChunksOk(db.items.Keys, db.chunks)
    ensures c in CandidateChunks(db, false) <==> IsCandidate(db, c.id, false) && db.chunks[c.id].chunk == c
  {
  }

  /** A healthy run lowers the number of candidates by exactly the number it reports as indexed. */
  lemma HealthyRunLowersCandidates(cfg: Config, db: Tables, limit: nat, envs: string -> IndexEnv, clock: nat -> Instant)
    requires Sound(cfg, db) && IndexSound(cfg, db) && cfg.texts.Lawful() && Ready(cfg, db) && ChunksOk(db.items.Keys, db.chunks)
    requires AllHealthy(cfg, Candidates(db, false, limit), envs, clock)
    ensures
      var list := Candidates(db, false, limit);
      var (after, r) := BackfillOn(cfg, db, list, envs, clock);
      && CandidateChunks(after, false) == CandidateChunks(db, false) - DocumentedOf(cfg, db, list)
      && |CandidateChunks(after, false)| == |CandidateChunks(db, false)| - r.indexed
      && r.failed == 0 && r.indexed == CountDocumented(cfg, db, list)
      && Sound(cfg, after) && IndexSound(cfg, after) && OnlyIndexMoved(db, after)
  {
    hide *;
    var list := Candidates(db, false, limit);
    var (after, r) := BackfillOn(cfg, db, list, envs, clock);
    CandidatesAreChunks(db, false, limit);
    BackfillKeepsIndexes(cfg, db, list, envs, clock);
    HealthyBackfillDrains(cfg, db, list, envs, clock);
    CandidatesAfter(cfg, db, list, after);
    DocumentedAreCounted(cfg, db, list);
    var settled := DocumentedOf(cfg, db, list);
    assert CandidateChunks(db, false) == CandidateChunks(after, false) + settled;
  }

  lemma DocumentedMembers(cfg: Config, db: Tables, list: seq<Chunk>)
    ensures forall c :: c in DocumentedOf(cfg, db, list) ==> c in list && Documented(cfg, db, c)
    ensures forall i :: 0 <= i < |list| && Documented(cfg, db, list[i]) ==> list[i] in DocumentedOf(cfg, db, list)
  {
    hide Documented;
  }

  /** A healthy run that leaves the candidates as they were has met only memories without a title
      and keywords: `limit` of these, older than the rest, hold everything up. */
  lemma BackfillStallsExactlyWhen(cfg: Config, db: Tables, limit: nat, envs: string -> IndexEnv, clock: nat -> Instant)
    requires Sound(cfg, db) && IndexSound(cfg, db) && cfg.texts.Lawful() && Ready(cfg, db) && ChunksOk(db.items.Keys, db.chunks)
    requires AllHealthy(cfg, Candidates(db, false, limit), envs, clock)
    ensures
      var list := Candidates(db, false, limit);
      CandidateChunks(BackfillOn(cfg, db, list, envs, clock).0, false) == CandidateChunks(db, false)
      <==> forall i :: 0 <= i < |list| ==> !Documented(cfg, db, list[i])
  {
    hide *;
    HealthyRunLowersCandidates(cfg, db, limit, envs, clock);
    CandidatesAreChunks(db, false, limit);
    var list := Candidates(db, false, limit);
    DocumentedMembers(cfg, db, list);
  }

  // ----- Repeating it -----

  /** One run of backfill: what the embedder answers and what the clock says. */
  datatype Round = Round(envs: string -> IndexEnv, clock: nat -> Instant)

  ghost function RunRound(cfg: Config, db: Tables, limit: nat, round: Round): (Tables, BackfillResult)
    requires ChunksOk(db.items.Keys, db.chunks)
  {
    BackfillOn(cfg, db, Candidates(db, false, limit), round.envs, round.clock)
  }

  /** `states` are the tables before the first round, between the rounds, and after the last. */
  ghost predicate AreRounds(cfg: Config, limit: nat, rounds: seq<Round>, states: seq<Tables>)
    requires |states| == |rounds| + 1
  {
    forall k :: 0 <= k < |rounds| ==>
         && ChunksOk(states[k].items.Keys, states[k].chunks)
         && AllHealthy(cfg, Candidates(states[k], false, limit), rounds[k].envs, rounds[k].clock)
         && states[k + 1] == RunRound(cfg, states[k], limit, rounds[k]).0
  }

  /** Every candidate's memory has a title or a keyword. */
  ghost predicate AllDocumented(cfg: Config, db: Tables) {
    forall c :: c in CandidateChunks(db, false) ==> Documented(cfg, db, c)
  }

  lemma AllCounted(cfg: Config, db: Tables, list: seq<Chunk>)
    requires forall i :: 0 <= i < |list| ==> Documented(cfg, db, list[i])
    ensures CountDocumented(cfg, db, list) == |list|
  {
    hide Documented;
    if list != [] {
      AllCounted(cfg, db, list[..|list| - 1]);
    }
  }

  lemma BatchSize(db: Tables, force: bool, limit: nat)
    requires ChunksOk(db.items.Keys, db.chunks)
    ensures |Candidates(db, force, limit)| == if |CandidateChunks(db, force)| > limit then limit else |CandidateChunks(db, force)|
  {
    AgeOrdersChunks(CandidateChunks(db, force));
    var all := Listing(ByAge, CandidateChunks(db, force));
    ListingHasEachOnce(ByAge, CandidateChunks(db, force), all);
  }

  lemma {:induction false} ListingHasEachOnce<T(!new)>(less: (T, T) -> bool, rows: set<T>, list: seq<T>)
    requires Orders(less, rows) && IsListing(less, rows, list)
    ensures |list| == |rows|
    decreases |list|
  {
    if list != [] {
      TailIsListing(less, rows, list);
      assert list[0] in list;
      ListingHasEachOnce(less, rows - {list[0]}, list[1..]);
    }
  }

  lemma OneRound(cfg: Config, db: Tables, limit: nat, round: Round)
    requires Sound(cfg, db) && IndexSound(cfg, db) && cfg.texts.Lawful() && Ready(cfg, db) && ChunksOk(db.items.Keys, db.chunks)
    requires AllHealthy(cfg, Candidates(db, false, limit), round.envs, round.clock) && AllDocumented(cfg, db)
    ensures
      var (after, r) := RunRound(cfg, db, limit, round);
      var n := |CandidateChunks(db, false)|;
      && Sound(cfg, after) && IndexSound(cfg, after) && Ready(cfg, after) && AllDocumented(cfg, after)
      && r.scanned == r.indexed == (if n > limit then limit else n)
      && |CandidateChunks(after, false)| == n - r.indexed
  {
    var list := Candidates(db, false, limit);
    var after := RunRound(cfg, db, limit, round).0;
    assert RunRound(cfg, db, limit, round) == BackfillOn(cfg, db, list, round.envs, round.clock);
    hide *;
    HealthyRunLowersCandidates(cfg, db, limit, round.envs, round.clock);
    CandidatesAreChunks(db, false, limit);
    BackfillKeepsIndexes(cfg, db, list, round.envs, round.clock);
    BatchSize(db, false, limit);
    SameTextsStayReady(cfg, db, after);
    FewerStayDocumented(cfg, db, after);
    CandidatesAreDocumented(cfg, db, list);
    AllCounted(cfg, db, list);
  }

  lemma SameTextsStayReady(cfg: Config, db: Tables, after: Tables)
    requires OnlyIndexMoved(db, after) && Ready(cfg, db)
    ensures Ready(cfg, after)
    ensures forall c :: Documented(cfg, after, c) <==> Documented(cfg, db, c)
  {
    hide CurrentDocument, RowidOf, ValidTarget;
    forall c: Chunk
      ensures CurrentDocument(cfg, after, c.memoryId) == CurrentDocument(cfg, db, c.memoryId)
    {
      SameTextsSameDocument(cfg, db, after, c.memoryId);
    }
  }

  lemma FewerStayDocumented(cfg: Config, db: Tables, after: Tables)
    requires AllDocumented(cfg, db) && CandidateChunks(after, false) <= CandidateChunks(db, false)
    requires forall c :: Documented(cfg, after, c) <==> Documented(cfg, db, c)
    ensures AllDocumented(cfg, after)
  {
    hide Documented, CandidateChunks;
  }

  lemma CandidatesAreDocumented(cfg: Config, db: Tables, list: seq<Chunk>)
    requires AllDocumented(cfg, db) && forall i :: 0 <= i < |list| ==> list[i] in CandidateChunks(db, false)
    ensures forall i :: 0 <= i < |list| ==> Documented(cfg, db, list[i])
  {
    hide Documented, CandidateChunks;
  }

  function Left(n: nat, rounds: nat, limit: nat): nat {
    if n > rounds * limit then n - rounds * limit else 0
  }

  lemma OneLess(n: nat, k: nat, limit: nat)
    ensures Left(n, 0, limit) == n
    ensures
      var left := Left(n, k, limit);
      Left(n, k + 1, limit) == left - if left > limit then limit else left
  {
    assert (k + 1) * limit == k * limit + limit;
  }

  lemma LastRound(cfg: Config, limit: nat, rounds: seq<Round>, states: seq<Tables>)
    requires |states| == |rounds| + 1 && AreRounds(cfg, limit, rounds, states) && rounds != []
    ensures
      var k := |rounds| - 1;
      && AreRounds(cfg, limit, rounds[..k], states[..k + 1])
      && ChunksOk(states[k].items.Keys, states[k].chunks)
      && AllHealthy(cfg, Candidates(states[k], false, limit), rounds[k].envs, rounds[k].clock)
      && states[k + 1] == RunRound(cfg, states[k], limit, rounds[k]).0
  {
    hide ChunksOk, AllHealthy, RunRound, Candidates;
  }

  /** When every candidate's memory has a title or keyword, k rounds leave n - k * limit candidates, and
      none once k * limit reaches n; rounds after that scan nothing. */
  lemma {:induction false} BackfillEmptiesTheCandidates(cfg: Config, limit: nat, rounds: seq<Round>, states: seq<Tables>)
    requires |states| == |rounds| + 1 && AreRounds(cfg, limit, rounds, states) && cfg.texts.Lawful()
    requires Sound(cfg, states[0]) && IndexSound(cfg, states[0]) && Ready(cfg, states[0]) && AllDocumented(cfg, states[0])
    ensures
      var n, end := |CandidateChunks(states[0], false)|, states[|rounds|];
      && Sound(cfg, end) && IndexSound(cfg, end) && Ready(cfg, end) && AllDocumented(cfg, end)
      && |CandidateChunks(end, false)| == Left(n, |rounds|, limit)
  {
    hide *;
    if rounds != [] {
      var k := |rounds| - 1;
      LastRound(cfg, limit, rounds, states);
      BackfillEmptiesTheCandidates(cfg, limit, rounds[..k], states[..k + 1]);
      OneRound(cfg, states[k], limit, rounds[k]);
      OneLess(|CandidateChunks(states[0], false)|, k, limit);
    } else {
      OneLess(|CandidateChunks(states[0], false)|, 0, limit);
    }
  }

  /** A healthy round never takes up a chunk whose memory has no title and no keywords. */
  lemma UndocumentedStay(cfg: Config, db: Tables, limit: nat, round: Round)
    requires Sound(cfg, db) && IndexSound(cfg, db) && cfg.texts.Lawful() && Ready(cfg, db) && ChunksOk(db.items.Keys, db.chunks)
    requires AllHealthy(cfg, Candidates(db, false, limit), round.envs, round.clock)
    ensures
      var after := RunRound(cfg, db, limit, round).0;
      && Sound(cfg, after) && IndexSound(cfg, after) && Ready(cfg, after)
      && (forall c :: Documented(cfg, after, c) <==> Documented(cfg, db, c))
      && forall c :: c in CandidateChunks(db, false) && !Documented(cfg, db, c) ==> c in CandidateChunks(after, false)
  {
    var list := Candidates(db, false, limit);
    var after := RunRound(cfg, db, limit, round).0;
    assert RunRound(cfg, db, limit, round) == BackfillOn(cfg, db, list, round.envs, round.clock);
    hide *;
    HealthyRunLowersCandidates(cfg, db, limit, round.envs, round.clock);
    SameTextsStayReady(cfg, db, after);
    DocumentedMembers(cfg, db, list);
  }

  lemma {:induction false} UndocumentedStayCandidates(cfg: Config, limit: nat, rounds: seq<Round>, states: seq<Tables>)
    requires |states| == |rounds| + 1 && AreRounds(cfg, limit, rounds, states) && cfg.texts.Lawful()
    requires Sound(cfg, states[0]) && IndexSound(cfg, states[0]) && Ready(cfg, states[0])
    ensures
      var end := states[|rounds|];
      && Sound(cfg, end) && IndexSound(cfg, end) && Ready(cfg, end)
      && (forall c :: Documented(cfg, end, c) <==> Documented(cfg, states[0], c))
      && forall c :: c in CandidateChunks(states[0], false) && !Documented(cfg, states[0], c) ==> c in CandidateChunks(end, false)
  {
    hide *;
    if rounds != [] {
      var k := |rounds| - 1;
      LastRound(cfg, limit, rounds, states);
      UndocumentedStayCandidates(cfg, limit, rounds[..k], states[..k + 1]);
      UndocumentedStay(cfg, states[k], limit, rounds[k]);
    }
  }

  /** Enough healthy rounds empty the candidates exactly when every candidate's memory has a title
      or keyword; otherwise no number of rounds does. */
  lemma BackfillEmptiesExactlyWhen(cfg: Config, limit: nat, rounds: seq<Round>, states: seq<Tables>)
    requires |states| == |rounds| + 1 && AreRounds(cfg, limit, rounds, states) && cfg.texts.Lawful()
    requires Sound(cfg, states[0]) && IndexSound(cfg, states[0]) && Ready(cfg, states[0])
    ensures CandidateChunks(states[|rounds|], false) == {} ==> AllDocumented(cfg, states[0])
    ensures |CandidateChunks(states[0], false)| <= |rounds| * limit ==>
              (CandidateChunks(states[|rounds|], false) == {} <==> AllDocumented(cfg, states[0]))
  {
    hide Sound, IndexSound, Ready, AreRounds, Texts.Lawful, Documented, CandidateChunks;
    UndocumentedStayCandidates(cfg, limit, rounds, states);
    if AllDocumented(cfg, states[0]) {
      BackfillEmptiesTheCandidates(cfg, limit, rounds, states);
    }
  }

  lemma DrainedBackfillScansNothing(cfg: Config, limit: nat, rounds: seq<Round>, states: seq<Tables>, next: Round)
    requires |states| == |rounds| + 1 && AreRounds(cfg, limit, rounds, states) && cfg.texts.Lawful()
    requires Sound(cfg, states[0]) && IndexSound(cfg, states[0]) && Ready(cfg, states[0]) && AllDocumented(cfg, states[0])
    requires |CandidateChunks(states[0], false)| <= |rounds| * limit
    ensures
      var end := states[|rounds|];
      ChunksOk(end.items.Keys, end.chunks) && RunRound(cfg, end, limit, next) == (end, BackfillResult(0, 0, 0, 0))
  {
    BackfillEmptiesTheCandidates(cfg, limit, rounds, states);
    var end := states[|rounds|];
    SoundHasSchema(cfg, end);
    BatchSize(end, false, limit);
    hide Sound, IndexSound, Ready, AllDocumented, Candidates, CandidateChunks, AreRounds;
    assert Candidates(end, false, limit) == [];
  }
}