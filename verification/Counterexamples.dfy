/** Calls on an empty store that end in the three states the exact conditions single out: a status
    that is stale, a backfill that is stuck, and an export that no import accepts. */
module Counterexamples {
  import opened Prelude
  import opened Schema
  import opened Keywords
  import opened Ordering
  import opened Repository
  import opened Lifecycle
  import opened LifecycleLaws
  import opened Service
  import opened Words
  import opened Writes
  import opened Index
  import opened IndexUpdate
  import opened ServiceLaws
  import opened Backfill
  import opened History
  import opened Import
  import opened Export
  import opened Exportable

  // ----- A healthy save -----

  ghost predicate OutcomeOfSave(cfg: Config, db: Tables, item: Item, chunkId: string, words: seq<string>, after: Tables) {
    && Sound(cfg, after) && ChunksOk(after.items.Keys, after.chunks) && (IndexSound(cfg, db) ==> IndexSound(cfg, after))
    && after.items == db.items[item.id := StoredItem(item)]
    && after.chunks == db.chunks[chunkId := ChunkRow(NextRowid(db.chunks), FirstChunkOf(item, chunkId))]
    && WordsOf(after.keywords, item.id) == words && OthersKeepRows(db.keywords, after.keywords, item.id)
    && after.embeddings == (if chunkId in after.embeddings then db.embeddings[chunkId := after.embeddings[chunkId]] else db.embeddings)
  }

  /** Saving fresh ids succeeds whatever becomes of the index write. If that is healthy, the chunk is
      indexed when there is a document and skipped when there is none; if it is lost, neither. */
  lemma SaveSettles(cfg: Config, db: Tables, input: SaveInput, itemId: string, chunkId: string, env: IndexEnv, now: Instant)
    requires Sound(cfg, db) && cfg.texts.Lawful() && SaveRequest(cfg, input, itemId, now).Ok?
    requires FreshIds(db, SaveRequest(cfg, input, itemId, now).value.0, chunkId) && now != 0
    ensures
      var (item, words) := SaveRequest(cfg, input, itemId, now).value;
      var document := Document(cfg.texts, item.title, words);
      var (after, saved) := SaveOn(cfg, db, input, itemId, chunkId, env, now);
      && saved == Ok(Memory(item, words)) && OutcomeOfSave(cfg, db, item, chunkId, words, after)
      && (!env.durable ==> chunkId !in after.embeddings && chunkId !in after.statuses)
      && (Ready(cfg, after) && Healthy(cfg, env, now) ==>
            && chunkId in after.statuses && after.statuses[chunkId].status == (if document.Some? then Indexed else Skipped)
            && (chunkId in after.embeddings <==> document.Some?)
            && (document.Some? ==> after.statuses[chunkId].contentHash == cfg.texts.hash(document.value)))
  {
    var (item, words) := SaveRequest(cfg, input, itemId, now).value;
    SaveRequestIsClean(cfg, input, itemId, now);
    SoundHasSchema(cfg, db);
    SaveSucceedsExactlyWhen(cfg, db, item, chunkId, words);
    var saved := SaveTxOn(cfg, db, item, chunkId, words).value;
    var (after, status) := IndexOn(cfg, saved, item.title, words, chunkId, itemId, env, now);
    assert SaveOn(cfg, db, input, itemId, chunkId, env, now) == (after, Ok(Memory(item, words)));
    hide *;
    SavedIsSound(cfg, db, item, chunkId, words, saved);
    SavedChunkIsNew(cfg, db, item, chunkId, words, saved);
    SaveKeepsIndexes(cfg, db, input, itemId, chunkId, env, now);
    SoundHasSchema(cfg, after);
    IndexOnWrites(cfg, saved, item.title, words, chunkId, itemId, env, now);
    SavedThenIndexed(cfg, db, item, chunkId, words, saved, env, after, status);
    if Ready(cfg, after) && Healthy(cfg, env, now) {
      SameChunksSameReadiness(cfg, saved, after);
      HealthyOutcome(cfg, saved, chunkId, itemId, env, now);
      DocumentRead(cfg, saved, itemId);
      HealthyStatus(cfg, db, item, chunkId, words, saved, env, after, status);
    }
  }

  lemma SavedThenIndexed(cfg: Config, db: Tables, item: Item, chunkId: string, words: seq<string>, saved: Tables,
                         env: IndexEnv, after: Tables, status: Option<Status>)
    requires Sound(cfg, db) && FreshIds(db, item, chunkId) && Saved(cfg, db, item, chunkId, words, saved)
    requires OnlyIndexMoved(saved, after) && (!env.durable ==> after == saved)
    requires IndexWritten(cfg, saved, chunkId, item.id, Document(cfg.texts, item.title, words), env, after, status)
    requires Sound(cfg, after) && ChunksOk(after.items.Keys, after.chunks) && (IndexSound(cfg, db) ==> IndexSound(cfg, after))
    ensures OutcomeOfSave(cfg, db, item, chunkId, words, after)
    ensures !env.durable ==> chunkId !in after.embeddings && chunkId !in after.statuses
  {
    NothingIndexedYet(cfg, db, chunkId);
    hide Sound, IndexSound, ChunksOk, WordsOf, RowsAre, OthersKeepRows, NextRowid, Document, StoredItem, FirstChunkOf, Projection, KeywordRows;
  }

  lemma NothingIndexedYet(cfg: Config, db: Tables, chunkId: string)
    requires Sound(cfg, db) && chunkId !in db.chunks
    ensures chunkId !in db.embeddings && chunkId !in db.statuses
  {
    hide ItemsOk, ChunksOk, FtsExact, KeywordsOk, EventsOk, PoliciesOk, AccessOk, ChunksExact, EntriesBelong, VecExact, TextsBounded;
  }

  lemma SameChunksSameReadiness(cfg: Config, saved: Tables, after: Tables)
    requires OnlyIndexMoved(saved, after) && Ready(cfg, after)
    ensures Ready(cfg, saved)
  {
    hide ValidTarget, RowidOf;
  }

  lemma HealthyStatus(cfg: Config, db: Tables, item: Item, chunkId: string, words: seq<string>, saved: Tables,
                      env: IndexEnv, after: Tables, status: Option<Status>)
    requires Sound(cfg, db) && FreshIds(db, item, chunkId) && Saved(cfg, db, item, chunkId, words, saved)
    requires IndexWritten(cfg, saved, chunkId, item.id, Document(cfg.texts, item.title, words), env, after, status)
    requires
      if Document(cfg.texts, item.title, words).Some? then status == Some(Indexed)
      else status == Some(Skipped) && chunkId in after.statuses && after.statuses[chunkId].status == Skipped
    ensures
      var document := Document(cfg.texts, item.title, words);
      && chunkId in after.statuses && after.statuses[chunkId].status == (if document.Some? then Indexed else Skipped)
      && (chunkId in after.embeddings <==> document.Some?)
      && (document.Some? ==> after.statuses[chunkId].contentHash == cfg.texts.hash(document.value))
  {
    NothingIndexedYet(cfg, db, chunkId);
    hide Sound, IndexSound, ChunksOk, WordsOf, RowsAre, OthersKeepRows, NextRowid, Document, StoredItem, FirstChunkOf, Projection, KeywordRows;
  }

  // ----- The setting -----

  const TEXTS := Texts(s => s, s => s, _ => false, s => "#" + s, s => s == "{}", s => s == "{}")

  const CONFIG := Config(TEXTS, PolicyCodec(_ => None, _ => None), true, Target("local", "hash", 1, "title_keywords"), SqliteVec, s => |s|)

  /** The embedder answers; the transaction recording it does or does not reach the disk. */
  const HEALTHY := IndexEnv(Embedded([1.0], true), true)
  const LOST := IndexEnv(Embedded([1.0], true), false)

  function Note(title: string): SaveInput { SaveInput(title, "text", [], "", NoMetadata, None, 0, false) }

  function NoteItem(title: string, id: string, now: Instant): Item {
    Item(id, title, "text", "", "{}", Working, 0, false, now, now, None, None, None)
  }

  function Retitle(id: string, title: string): UpdateInput { UpdateInput(id, Some(title), None, None, None, None, None, None, None) }

  function Heading(title: string): string { "Title:" + " " + title }

  lemma SettingIsLawful()
    ensures TEXTS.Lawful() && ValidTarget(TEXTS, CONFIG.target) && CONFIG.texts.Lawful()
  {
  }

  lemma NoteDocument(title: string)
    ensures Document(TEXTS, title, []) == if title == "" then None else Some(Heading(title))
  {
    assert Filtered(TEXTS, []) == [];
  }

  lemma NoteIsAccepted(title: string, id: string, now: Instant)
    requires |title| <= 10
    ensures SaveRequest(CONFIG, Note(title), id, now) == Ok((NoteItem(title, id, now), []))
  {
    NoteDocument(title);
    assert Normalize(TEXTS, []) == Ok([]);
  }

  /** A healthy or lost save of a note under fresh ids. */
  lemma NoteIsSaved(db: Tables, title: string, id: string, chunkId: string, env: IndexEnv, now: Instant)
    requires Sound(CONFIG, db) && IndexSound(CONFIG, db) && |title| <= 10 && now != 0
    requires id != "" && id !in db.items && chunkId != "" && chunkId !in db.chunks
    ensures
      var (after, saved) := SaveOn(CONFIG, db, Note(title), id, chunkId, env, now);
      && saved.Ok? && OutcomeOfSave(CONFIG, db, NoteItem(title, id, now), chunkId, [], after) && IndexSound(CONFIG, after)
      && (!env.durable ==> chunkId !in after.embeddings && chunkId !in after.statuses)
      && (Ready(CONFIG, after) && env == HEALTHY ==>
            && chunkId in after.statuses && (chunkId in after.embeddings <==> title != "")
            && (title != "" ==> after.statuses[chunkId].status == Indexed && after.statuses[chunkId].contentHash == "#" + Heading(title)))
  {
    SettingIsLawful();
    NoteIsAccepted(title, id, now);
    NoteDocument(title);
    hide Sound, IndexSound, SaveOn, SaveRequest, Texts.Lawful, Document, OutcomeOfSave, Ready, NoteItem, Note, Heading;
    assert NoteItem(title, id, now).id == id by { NoteIds(title, id, now); }
    SaveSettles(CONFIG, db, Note(title), id, chunkId, env, now);
  }

  lemma NoteIds(title: string, id: string, now: Instant)
    ensures NoteItem(title, id, now).id == id && NoteItem(title, id, now).title == title
  {
  }

  // ----- A lost write leaves a stale status -----

  lemma OnlyNoteIsReady(db: Tables, after: Tables, item: Item, chunkId: string)
    requires db.chunks == map[] && OutcomeOfSave(CONFIG, db, item, chunkId, [], after)
    ensures Ready(CONFIG, after)
  {
    SettingIsLawful();
    hide Sound, IndexSound, ChunksOk, WordsOf, OthersKeepRows, NextRowid, StoredItem, FirstChunkOf, Projection, ValidTarget;
  }

  lemma RetitleIsAdmissible(db: Tables, id: string, title: string, now: Instant)
    requires id != "" && id in db.items && db.items[id].deletedAt.None? && WordsOf(db.keywords, id) == []
    requires |title| <= 10 && now != 0
    ensures Admissible(CONFIG, db, Retitle(id, title), "", now)
  {
    NoteDocument(title);
    hide WordsOf, Document;
  }

  /** A new title whose index write is lost leaves the status of the old title behind. */
  lemma LostRetitle(db: Tables, id: string, c: string, title: string, now: Instant)
    requires Sound(CONFIG, db) && IndexSound(CONFIG, db) && ChunkOfMemory(db, c, id) && id != "" && db.items[id].deletedAt.None?
    requires WordsOf(db.keywords, id) == [] && |title| <= 10 && now != 0
    requires c in db.statuses && db.statuses[c].status == Indexed && db.statuses[c].contentHash != "#" + Heading(title) && title != ""
    ensures ChunksOk(db.items.Keys, db.chunks)
    ensures
      var (after, updated) := UpdateOn(CONFIG, db, Retitle(id, title), "", LOST, now);
      updated.Ok? && after.statuses == db.statuses && !IndexSound(CONFIG, after)
  {
    SettingIsLawful();
    RetitleWouldGoStale(db, id, c, title);
    hide *;
    SoundHasSchema(CONFIG, db);
    RetitleIsAdmissible(db, id, title, now);
    UpdateSucceedsExactlyWhen(CONFIG, db, Retitle(id, title), "", now);
    LostWriteGoesStaleExactlyWhen(CONFIG, db, Retitle(id, title), "", LOST, now);
    LostWriteMovesNoStatus(db, id, title, now);
  }

  lemma RetitleWouldGoStale(db: Tables, id: string, c: string, title: string)
    requires Sound(CONFIG, db) && ChunkOfMemory(db, c, id) && WordsOf(db.keywords, id) == []
    requires c in db.statuses && db.statuses[c].status == Indexed && db.statuses[c].contentHash != "#" + Heading(title) && title != ""
    ensures ChunksOk(db.items.Keys, db.chunks) && WouldGoStale(CONFIG, db, Retitle(id, title))
  {
    TheOnlyChunk(db, id, c);
    NoteDocument(title);
    hide Sound, ChunksOk, FirstChunk, Document, WordsOf, Heading, NewDocument, UpdateWords;
    RetitleKeepsWords(id, title);
    NewDocumentRead(CONFIG, db, Retitle(id, title), []);
  }

  lemma RetitleKeepsWords(id: string, title: string)
    ensures forall words :: UpdateWords(CONFIG, Retitle(id, title), words) == Ok(words)
  {
  }

  lemma LostWriteMovesNoStatus(db: Tables, id: string, title: string, now: Instant)
    requires Sound(CONFIG, db) && UpdateTxOn(CONFIG, db, Retitle(id, title), "", now).Ok? && id != ""
    ensures ChunksOk(db.items.Keys, db.chunks)
    ensures
      var (after, updated) := UpdateOn(CONFIG, db, Retitle(id, title), "", LOST, now);
      updated.Ok? && after.statuses == db.statuses
  {
    SettingIsLawful();
    SoundHasSchema(CONFIG, db);
    UpdateUnfolds(CONFIG, db, Retitle(id, title), "", LOST, now);
    var u := UpdateTxOn(CONFIG, db, Retitle(id, title), "", now).value;
    var c := FinalChunk(db, Retitle(id, title), "").value;
    hide UpdateTxOn, Sound, SchemaOk, ChunksOk, FinalChunk, IndexOn, WordsOf, Admissible, Texts.Lawful, WordsReplaced, UpdatedItem;
    IndexOnWrites(CONFIG, u.db, Title(u.db, id), WordsOf(u.db.keywords, id), c, id, LOST, now);
  }

  lemma TheOnlyChunk(db: Tables, id: string, c: string)
    requires Sound(CONFIG, db) && ChunkOfMemory(db, c, id)
    ensures ChunksOk(db.items.Keys, db.chunks) && FirstChunk(db, id).Some? && FirstChunk(db, id).value.id == c
  {
    SoundHasSchema(CONFIG, db);
    FirstChunkIsTheOnlyOne(db, id);
    hide FirstChunk;
  }

  lemma SavedNoteIsThere(db: Tables, title: string, id: string, chunkId: string, now: Instant, after: Tables)
    requires OutcomeOfSave(CONFIG, db, NoteItem(title, id, now), chunkId, [], after)
    ensures ChunkOfMemory(after, chunkId, id) && after.items[id].deletedAt.None? && WordsOf(after.keywords, id) == []
    ensures Title(after, id) == title && Sound(CONFIG, after)
  {
    hide Sound, IndexSound, ChunksOk, WordsOf, OthersKeepRows, NextRowid;
  }

  lemma HeadingsDiffer()
    ensures "#" + Heading("a") != "#" + Heading("b")
  {
    assert ("#" + Heading("a"))[8] == 'a' && ("#" + Heading("b"))[8] == 'b';
  }

  /** From an empty store: a note is saved and indexed; its title changes and the index write of that
      is lost. The status still says `indexed`, for an embedding of the old title. */
  lemma LostWriteExample()
    ensures
      var saved := SaveOn(CONFIG, EMPTY, Note("a"), "m", "c", HEALTHY, 1).0;
      && ChunksOk(saved.items.Keys, saved.chunks) && IndexSound(CONFIG, saved)
      && var (after, updated) := UpdateOn(CONFIG, saved, Retitle("m", "b"), "", LOST, 2);
      && updated.Ok? && "c" in after.statuses && after.statuses["c"].status == Indexed && !IndexSound(CONFIG, after)
  {
    hide SaveOn, Sound, IndexSound, Ready, ChunksOk, WordsOf, OutcomeOfSave, UpdateOn, NoteItem, Note, SchemaOk, Heading;
    EmptyIsSound(CONFIG);
    NoteIsSaved(EMPTY, "a", "m", "c", HEALTHY, 1);
    var saved := SaveOn(CONFIG, EMPTY, Note("a"), "m", "c", HEALTHY, 1).0;
    OnlyNoteIsReady(EMPTY, saved, NoteItem("a", "m", 1), "c");
    SavedNoteIsThere(EMPTY, "a", "m", "c", 1, saved);
    HeadingsDiffer();
    hide *;
    LostRetitle(saved, "m", "c", "b", 2);
  }

  // ----- Backfill that is stuck -----

  function Name(k: nat): string { seq(k, _ => 'x') }

  function NoteChunk(k: nat): Chunk { Chunk(Name(k), Name(k), 0, "text", k) }

  function NoteChunks(n: nat): seq<Chunk> { seq(n, i requires 0 <= i < n => NoteChunk(i + 1)) }

  /** `n` notes without title and keywords, saved one after the other. */
  ghost function Untitled(n: nat): Tables {
    if n == 0 then EMPTY else SaveOn(CONFIG, Untitled(n - 1), Note(""), Name(n), Name(n), HEALTHY, n).0
  }

  ghost predicate IsNote(db: Tables, k: nat) {
    && Name(k) in db.chunks && db.chunks[Name(k)].chunk == NoteChunk(k)
    && Name(k) in db.items && db.items[Name(k)].deletedAt.None? && WordsOf(db.keywords, Name(k)) == []
  }

  /** Notes 1 to `n`, none of them embedded, those before `n` and perhaps it without a title. */
  ghost predicate IsShelf(db: Tables, n: nat, last: string) {
    && Sound(CONFIG, db) && IndexSound(CONFIG, db) && ChunksOk(db.items.Keys, db.chunks) && db.embeddings == map[]
    && (forall k :: 1 <= k <= n ==> IsNote(db, k) && Title(db, Name(k)) == if k == n then last else "")
    && (forall c :: c in db.chunks ==> 1 <= |c| <= n && c == Name(|c|))
    && (forall id :: id in db.items ==> 1 <= |id| <= n)
  }

  lemma EmptyShelf()
    ensures IsShelf(EMPTY, 0, "")
  {
    EmptyIsSound(CONFIG);
    hide Sound, IndexSound;
  }

  lemma ShelfIsReady(db: Tables, n: nat)
    requires forall c :: c in db.chunks ==> 1 <= |c| <= n && c == Name(|c|)
    ensures Ready(CONFIG, db)
  {
    SettingIsLawful();
    hide ValidTarget;
    forall c, d | c in db.chunks && d in db.chunks && RowidOf(CONFIG, c) == RowidOf(CONFIG, d)
      ensures c == d
    {
      assert CONFIG.rowidHash(c) == |c| && CONFIG.rowidHash(d) == |d|;
    }
  }

  /** The next note goes on the shelf, if it has no title or its index write is lost. */
  lemma ShelfGrows(db: Tables, n: nat, title: string, env: IndexEnv)
    requires IsShelf(db, n, "") && |title| <= 10 && (env == LOST || (env == HEALTHY && title == ""))
    ensures IsShelf(SaveOn(CONFIG, db, Note(title), Name(n + 1), Name(n + 1), env, n + 1).0, n + 1, title)
  {
    hide *;
    NextNoteIsSaved(db, n, title, env);
    ShelfWithNext(db, n, title, SaveOn(CONFIG, db, Note(title), Name(n + 1), Name(n + 1), env, n + 1).0);
  }

  lemma NextNoteIsSaved(db: Tables, n: nat, title: string, env: IndexEnv)
    requires IsShelf(db, n, "") && |title| <= 10 && (env == LOST || (env == HEALTHY && title == ""))
    ensures
      var (after, saved) := SaveOn(CONFIG, db, Note(title), Name(n + 1), Name(n + 1), env, n + 1);
      && saved.Ok? && OutcomeOfSave(CONFIG, db, NoteItem(title, Name(n + 1), n + 1), Name(n + 1), [], after)
      && IndexSound(CONFIG, after) && Name(n + 1) !in after.embeddings
  {
    var after := SaveOn(CONFIG, db, Note(title), Name(n + 1), Name(n + 1), env, n + 1).0;
    hide *;
    ShelfHasRoom(db, n, "");
    NoteIsSaved(db, title, Name(n + 1), Name(n + 1), env, n + 1);
    ShelvedChunks(db, n, title, after);
    ShelfIsReady(after, n + 1);
  }

  lemma ShelfWithNext(db: Tables, n: nat, title: string, after: Tables)
    requires IsShelf(db, n, "") && OutcomeOfSave(CONFIG, db, NoteItem(title, Name(n + 1), n + 1), Name(n + 1), [], after)
    requires IndexSound(CONFIG, after) && Name(n + 1) !in after.embeddings
    ensures IsShelf(after, n + 1, title)
  {
    hide *;
    ShelvedChunks(db, n, title, after);
    SavedNoteIsThere(db, title, Name(n + 1), Name(n + 1), n + 1, after);
    ShelvedNotes(db, n, title, after);
    SoundHasSchema(CONFIG, after);
    ShelfFromParts(after, n + 1, title);
  }

  lemma ShelfHasRoom(db: Tables, n: nat, last: string)
    requires IsShelf(db, n, last)
    ensures Sound(CONFIG, db) && IndexSound(CONFIG, db)
    ensures Name(n + 1) != "" && Name(n + 1) !in db.items && Name(n + 1) !in db.chunks
  {
    hide Sound, IndexSound, ChunksOk, IsNote;
  }

  lemma ShelfFromParts(db: Tables, n: nat, last: string)
    requires Sound(CONFIG, db) && IndexSound(CONFIG, db) && ChunksOk(db.items.Keys, db.chunks) && db.embeddings == map[]
    requires forall k :: 1 <= k <= n ==> IsNote(db, k) && Title(db, Name(k)) == if k == n then last else ""
    requires forall c :: c in db.chunks ==> 1 <= |c| <= n && c == Name(|c|)
    requires forall id :: id in db.items ==> 1 <= |id| <= n
    ensures IsShelf(db, n, last)
  {
    hide Sound, IndexSound, ChunksOk, IsNote;
  }

  lemma ShelvedChunks(db: Tables, n: nat, title: string, after: Tables)
    requires IsShelf(db, n, "") && OutcomeOfSave(CONFIG, db, NoteItem(title, Name(n + 1), n + 1), Name(n + 1), [], after)
    ensures forall c :: c in after.chunks ==> 1 <= |c| <= n + 1 && c == Name(|c|)
    ensures forall id :: id in after.items ==> 1 <= |id| <= n + 1
    ensures Name(n + 1) !in after.embeddings ==> after.embeddings == map[]
  {
    hide Sound, IndexSound, ChunksOk, WordsOf, OthersKeepRows, NextRowid, StoredItem, FirstChunkOf, IsNote;
  }

  lemma ShelvedNotes(db: Tables, n: nat, title: string, after: Tables)
    requires IsShelf(db, n, "") && OutcomeOfSave(CONFIG, db, NoteItem(title, Name(n + 1), n + 1), Name(n + 1), [], after)
    ensures forall k :: 1 <= k <= n + 1 ==> IsNote(after, k) && Title(after, Name(k)) == if k == n + 1 then title else ""
  {
    hide Sound, IndexSound, ChunksOk, WordsOf, OthersKeepRows, NextRowid;
    OthersKeepWords(db.keywords, after.keywords, Name(n + 1));
    forall k | 1 <= k <= n + 1
      ensures IsNote(after, k) && Title(after, Name(k)) == if k == n + 1 then title else ""
    {
      if k <= n {
        assert |Name(k)| != |Name(n + 1)|;
        assert IsNote(db, k);
      }
    }
  }

  lemma {:induction false} UntitledIsShelf(n: nat)
    ensures IsShelf(Untitled(n), n, "")
  {
    if n == 0 {
      EmptyShelf();
    } else {
      UntitledIsShelf(n - 1);
      hide IsShelf, SaveOn;
      ShelfGrows(Untitled(n - 1), n - 1, "", HEALTHY);
    }
  }

  /** The candidates of a shelf are all its chunks, in the order of saving. */
  lemma ShelfIsListedInOrder(db: Tables, n: nat, last: string, limit: nat)
    requires IsShelf(db, n, last) && limit <= n
    ensures ChunksOk(db.items.Keys, db.chunks)
    ensures Candidates(db, false, limit) == NoteChunks(limit)
    ensures forall k :: 1 <= k <= n ==> NoteChunk(k) in CandidateChunks(db, false)
  {
    hide *;
    ShelfIsAllCandidates(db, n, last);
    ShelfHasInvariants(db, n, last);
    NoteChunksInOrder(n);
    FirstNoteChunks(n, limit);
    OnlyListing(CandidateChunks(db, false), NoteChunks(n));
    CandidatesOfListing(db, limit, NoteChunks(n));
  }

  lemma FirstNoteChunks(n: nat, limit: nat)
    requires limit <= n
    ensures NoteChunks(n)[..limit] == NoteChunks(limit)
  {
    hide NoteChunk;
  }

  lemma OnlyListing(chunks: set<Chunk>, list: seq<Chunk>)
    requires forall c, d :: c in chunks && d in chunks && c.id == d.id ==> c == d
    requires Ascending(ByAge, list) && forall c :: c in list <==> c in chunks
    ensures Orders(ByAge, chunks) && Listing(ByAge, chunks) == list
  {
    AgeOrdersChunks(chunks);
    hide ByAge;
    ListingIsUnique(ByAge, chunks, list, Listing(ByAge, chunks));
  }

  lemma CandidatesOfListing(db: Tables, limit: nat, list: seq<Chunk>)
    requires ChunksOk(db.items.Keys, db.chunks) && limit <= |list|
    requires Orders(ByAge, CandidateChunks(db, false)) && Listing(ByAge, CandidateChunks(db, false)) == list
    ensures Candidates(db, false, limit) == list[..limit]
  {
    hide ByAge, CandidateChunks, ChunksOk, Orders;
    assert list[..|list|] == list;
  }

  lemma ShelfIsAllCandidates(db: Tables, n: nat, last: string)
    requires IsShelf(db, n, last)
    ensures forall c :: c in NoteChunks(n) <==> c in CandidateChunks(db, false)
    ensures forall k :: 1 <= k <= n ==> NoteChunk(k) in CandidateChunks(db, false)
    ensures forall c, d :: c in CandidateChunks(db, false) && d in CandidateChunks(db, false) && c.id == d.id ==> c == d
  {
    NoteChunksInOrder(n);
    hide *;
    forall k | 1 <= k <= n
      ensures NoteChunk(k) in CandidateChunks(db, false)
    {
      NoteIsCandidate(db, n, last, k);
    }
    forall c | c in CandidateChunks(db, false)
      ensures 1 <= |c.id| <= n && c == NoteChunk(|c.id|)
    {
      CandidateIsNote(db, n, last, c);
    }
    forall c
      ensures c in NoteChunks(n) <==> c in CandidateChunks(db, false)
    {
      if c in CandidateChunks(db, false) {
        assert NoteChunks(n)[|c.id| - 1] == c;
      }
    }
  }

  lemma NoteIsCandidate(db: Tables, n: nat, last: string, k: nat)
    requires IsShelf(db, n, last) && 1 <= k <= n
    ensures NoteChunk(k) in CandidateChunks(db, false)
  {
    hide Sound, IndexSound, ChunksOk, WordsOf;
    assert IsNote(db, k);
    assert IsCandidate(db, Name(k), false);
  }

  lemma CandidateIsNote(db: Tables, n: nat, last: string, c: Chunk)
    requires IsShelf(db, n, last) && c in CandidateChunks(db, false)
    ensures 1 <= |c.id| <= n && c == NoteChunk(|c.id|)
  {
    hide Sound, IndexSound, ChunksOk, WordsOf;
    var id :| id in db.chunks && c == db.chunks[id].chunk;
    assert IsNote(db, |id|);
  }

  lemma UntitledIsUndocumented(db: Tables, n: nat, last: string, k: nat)
    requires IsShelf(db, n, last) && 1 <= k <= n
    ensures Documented(CONFIG, db, NoteChunk(k)) <==> k == n && last != ""
  {
    hide Sound, IndexSound, ChunksOk, WordsOf, Document;
    assert IsNote(db, k);
    NoteDocument(if k == n then last else "");
  }

  lemma ShelfIsStuck(db: Tables, limit: nat, envs: string -> IndexEnv, clock: nat -> Instant)
    requires IsShelf(db, limit + 1, "t")
    ensures ChunksOk(db.items.Keys, db.chunks)
    ensures Documented(CONFIG, db, NoteChunk(limit + 1)) && NoteChunk(limit + 1) in CandidateChunks(db, false)
    ensures
      var list := Candidates(db, false, limit);
      && |list| == limit
      && (AllHealthy(CONFIG, list, envs, clock) ==> CandidateChunks(BackfillOn(CONFIG, db, list, envs, clock).0, false) == CandidateChunks(db, false))
  {
    SettingIsLawful();
    hide *;
    ShelfHasInvariants(db, limit + 1, "t");
    ShelfIsReady(db, limit + 1);
    ShelfIsListedInOrder(db, limit + 1, "t", limit);
    UntitledIsUndocumented(db, limit + 1, "t", limit + 1);
    NoteChunksInOrder(limit);
    if AllHealthy(CONFIG, Candidates(db, false, limit), envs, clock) {
      BackfillStallsExactlyWhen(CONFIG, db, limit, envs, clock);
      forall i | 0 <= i < limit
        ensures !Documented(CONFIG, db, NoteChunks(limit)[i])
      {
        UntitledIsUndocumented(db, limit + 1, "t", i + 1);
      }
    }
  }

  /** From an empty store, for every limit: `limit` notes without title and keywords, then one with a
      title whose index write is lost. No healthy backfill run takes up the titled note, though it is
      a candidate and has a document. */
  lemma StuckBackfillExample(limit: nat, envs: string -> IndexEnv, clock: nat -> Instant)
    ensures
      var (db, saved) := SaveOn(CONFIG, Untitled(limit), Note("t"), Name(limit + 1), Name(limit + 1), LOST, limit + 1);
      && saved.Ok? && ChunksOk(db.items.Keys, db.chunks)
      && NoteChunk(limit + 1) in CandidateChunks(db, false) && Documented(CONFIG, db, NoteChunk(limit + 1))
      && var list := Candidates(db, false, limit);
      && |list| == limit
      && (AllHealthy(CONFIG, list, envs, clock) ==> CandidateChunks(BackfillOn(CONFIG, db, list, envs, clock).0, false) == CandidateChunks(db, false))
  {
    hide *;
    UntitledIsShelf(limit);
    ShelfGrows(Untitled(limit), limit, "t", LOST);
    NextNoteIsSaved(Untitled(limit), limit, "t", LOST);
    ShelfIsStuck(SaveOn(CONFIG, Untitled(limit), Note("t"), Name(limit + 1), Name(limit + 1), LOST, limit + 1).0, limit, envs, clock);
  }

  lemma NoteChunksInOrder(n: nat)
    ensures |NoteChunks(n)| == n && (forall i :: 0 <= i < n ==> NoteChunks(n)[i] == NoteChunk(i + 1))
    ensures Ascending(ByAge, NoteChunks(n))
  {
  }

  lemma ShelfHasInvariants(db: Tables, n: nat, last: string)
    requires IsShelf(db, n, last)
    ensures Sound(CONFIG, db) && IndexSound(CONFIG, db) && ChunksOk(db.items.Keys, db.chunks)
    ensures forall c :: c in db.chunks ==> 1 <= |c| <= n && c == Name(|c|)
  {
    hide Sound, IndexSound, ChunksOk, IsNote;
  }

  // ----- An export that no import accepts -----

  const LIST_SCOPE := PolicyRow("p", "p", "[]", "{}", true, 1, 1)

  /** From an empty store: a policy is created whose scope is JSON but not an object. The export of
      that store is refused by the import's validation. */
  lemma RefusedExportExample()
    ensures
      var created := CreatePolicyOn(EMPTY, LIST_SCOPE);
      created.Ok? && SchemaOk(created.value) && RowsValid(TEXTS, created.value) && !RowsAccepted(TEXTS, ExportOf(created.value))
  {
    PolicyKeepsSchema(EMPTY, LIST_SCOPE);
    EmptyIsValid(TEXTS);
    PolicyStaysValid(TEXTS, EMPTY, LIST_SCOPE);
    var db := CreatePolicyOn(EMPTY, LIST_SCOPE).value;
    assert SchemaOk(EMPTY);
    hide SchemaOk, RowsValid, ExportOf;
    assert "p" in db.policies && db.policies["p"].scope == "[]" && !ObjectText(TEXTS, "[]");
    ExportIsAcceptedExactlyWhen(TEXTS, db);
  }
}
