/** The memory service: each operation as a function from the tables before to the tables after,
    and the method that carries it out against the store. Clock readings, random ids and what the
    embedder does are inputs. Every operation is one transaction; Save, Update and backfill then
    write the embedding index in a transaction of its own, which may fail to persist. */
module Service {
  import opened Prelude
  import opened Schema
  import opened Keywords
  import opened Ordering
  import opened Repository
  import opened Lifecycle

  const BACKFILL_LIMIT := 100
  const SUMMARY_RUNES := 512

  datatype Config = Config(texts: Texts, codec: PolicyCodec, vectorEnabled: bool, target: Target, backend: Backend,
                           rowidHash: string -> int)

  /** What the embedder answers for one document. */
  datatype EmbedOutcome = EmbedError(message: string) | Embedded(vector: seq<real>, encodable: bool)

  /** The circumstances of one index write: the embedder's answer, and whether the transaction
      that records the outcome reaches the disk. */
  datatype IndexEnv = IndexEnv(outcome: EmbedOutcome, durable: bool)

  datatype Memory = Memory(item: Item, keywords: seq<string>)

  datatype Metadata = NoMetadata | Encodable(json: string) | Unencodable

  datatype SaveInput = SaveInput(title: string, body: string, keywords: seq<string>, source: string, metadata: Metadata,
                                 tier: Option<Tier>, importance: int, pinned: bool)

  datatype UpdateInput = UpdateInput(id: string, title: Option<string>, body: Option<string>, keywords: Option<seq<string>>,
                                     source: Option<string>, metadata: Option<Metadata>, tier: Option<Tier>,
                                     importance: Option<int>, pinned: Option<bool>)

  function MarshalMetadata(m: Metadata): Result<string, Error> {
    match m
    case NoMetadata => Ok("{}")
    case Encodable(json) => Ok(json)
    case Unencodable => Err(Invalid)
  }

  function RowidOf(cfg: Config, chunkId: string): int {
    if cfg.rowidHash(chunkId) == 0 then 1 else cfg.rowidHash(chunkId)
  }

  function KeywordRows(t: Texts, memoryId: string, words: seq<string>, now: Instant): seq<Keyword> {
    seq(|words|, i requires 0 <= i < |words| => Keyword(memoryId, i, words[i], t.Normalized(words[i]), now, now))
  }

  predicate TooLong(document: Option<string>) { document.Some? && |document.value| > MAX_DOCUMENT_RUNES }

  // ----- The embedding index -----

  function Summarize(message: string): string {
    if |message| <= SUMMARY_RUNES then message else message[..SUMMARY_RUNES]
  }

  function StatusRow(memoryId: string, status: Status, hash: string, summary: string, attempts: int, now: Instant): IndexStatus {
    IndexStatus(memoryId, status, hash, summary, attempts, now, now)
  }

  function RecordStatusOn(cfg: Config, db: Tables, chunkId: string, row: IndexStatus, durable: bool): Tables {
    if !durable then db
    else
      match UpsertStatusOn(cfg.texts, db, cfg.target, chunkId, row)
      case Ok(after) => after
      case Err(_) => db
  }

  function PersistEmbeddingOn(cfg: Config, db: Tables, chunkId: string, memoryId: string, hash: string, vector: seq<real>, now: Instant): Result<Tables, Error> {
    var described :- UpsertVectorMetadataOn(cfg.texts, db, cfg.target, cfg.backend, now);
    var embedded :- UpsertEmbeddingOn(cfg.texts, described, cfg.target, chunkId,
                                      Embedding(memoryId, vector, hash, RowidOf(cfg, chunkId), now, now));
    UpsertStatusOn(cfg.texts, embedded, cfg.target, chunkId, StatusRow(memoryId, Indexed, hash, "", 1, now))
  }

  /** Why a document gets no embedding, if it gets none. */
  function Failure(cfg: Config, document: string, outcome: EmbedOutcome): (message: Option<string>)
    ensures message.None? ==> outcome.Embedded?
  {
    if |document| > MAX_DOCUMENT_RUNES then Some(TOO_LONG)
    else if outcome.EmbedError? then Some(Summarize(outcome.message))
    else if |outcome.vector| != cfg.target.dimensions then Some(WRONG_DIMENSIONS)
    else if !outcome.encodable then Some(NOT_ENCODABLE)
    else None
  }

  /** Indexes one memory: the tables after, and the status reported (None when vectors are off). */
  function IndexOn(cfg: Config, db: Tables, title: string, words: seq<string>, chunkId: string, memoryId: string,
                   env: IndexEnv, now: Instant): (Tables, Option<Status>) {
    if !cfg.vectorEnabled then (db, None)
    else
      match Document(cfg.texts, title, words)
      case None =>
        (RecordStatusOn(cfg, db, chunkId, StatusRow(memoryId, Skipped, "", "", 0, now), env.durable), Some(Skipped))
      case Some(document) =>
        var hash := cfg.texts.hash(document);
        match Failure(cfg, document, env.outcome)
        case Some(message) =>
          (RecordStatusOn(cfg, db, chunkId, StatusRow(memoryId, Failed, hash, message, 1, now), env.durable), Some(Failed))
        case None =>
          var persisted := PersistEmbeddingOn(cfg, db, chunkId, memoryId, hash, env.outcome.vector, now);
          if !env.durable || persisted.Err? then (db, Some(Failed)) else (persisted.value, Some(Indexed))
  }

  const TOO_LONG := "title and keywords document is too long"
  const WRONG_DIMENSIONS := "embedding provider returned the wrong number of dimensions"
  const NOT_ENCODABLE := "embedding vector must be JSON encodable"

  // ----- Save -----

  function SaveTxOn(cfg: Config, db: Tables, item: Item, chunkId: string, words: seq<string>): Result<Tables, Error> {
    var created :- CreateItemOn(db, item);
    var chunked :- AddChunkOn(created, Chunk(chunkId, item.id, 0, item.body, item.createdAt));
    var tagged :- ReplaceKeywordsOn(cfg.texts, chunked, item.id, KeywordRows(cfg.texts, item.id, words, item.createdAt));
    RecordEventOn(tagged, item.id, "created", NoDetail, item.createdAt)
  }

  /** The item and keywords a save request stands for, or why it is refused. */
  function SaveRequest(cfg: Config, input: SaveInput, itemId: string, now: Instant): Result<(Item, seq<string>), Error> {
    var tier := if input.tier.None? then Working else input.tier.value;
    if input.body == "" || !tier.Valid() || !(0 <= input.importance <= 100) then Err(Invalid)
    else
      var metadata :- MarshalMetadata(input.metadata);
      var words :- NormalizeKeywords(cfg.texts, input.keywords);
      if TooLong(Document(cfg.texts, input.title, words)) then Err(Invalid)
      else Ok((Item(itemId, input.title, input.body, input.source, metadata, tier, input.importance, input.pinned,
                    now, now, None, None, None), words))
  }

  /** The row that a save asks for. */
  function AskedRow(input: SaveInput, itemId: string, now: Instant): Item {
    Item(itemId, input.title, input.body, input.source,
         match input.metadata case NoMetadata => "{}" case Encodable(json) => json case Unencodable => "",
         match input.tier case None => Working case Some(tier) => tier,
         input.importance, input.pinned, now, now, None, None, None)
  }

  function SaveOn(cfg: Config, db: Tables, input: SaveInput, itemId: string, chunkId: string, env: IndexEnv, now: Instant)
    : (Tables, Result<Memory, Error>)
  {
    match SaveRequest(cfg, input, itemId, now)
    case Err(e) => (db, Err(e))
    case Ok((item, words)) =>
      match SaveTxOn(cfg, db, item, chunkId, words)
      case Err(e) => (db, Err(e))
      case Ok(saved) => (IndexOn(cfg, saved, item.title, words, chunkId, item.id, env, now).0, Ok(Memory(item, words)))
  }

  // ----- Get -----

  ghost function PolicyRows(db: Tables): seq<PolicyRow>
    requires PoliciesOk(db.policies)
  {
    CreationOrdersPolicies(db.policies, EnabledPolicies(db.policies));
    Listing(ByCreation, EnabledPolicies(db.policies))
  }

  function TouchOn(db: Tables, id: string, now: Instant): Result<Tables, Error> {
    var touched :- UpdateItemOn(db, id, NoUpdate(now).(lastAccessedAt := Some(now)));
    RecordAccessOn(touched, id, "get", now)
  }

  /** Reading a memory: the access is recorded, and may promote it. */
  function GetTxOn(db: Tables, id: string, policies: Result<seq<Policy>, Error>, now: Instant): Result<(Tables, Item), Error> {
    var stored :- GetItemOn(db, id);
    if stored.deletedAt.Some? then Err(NotFound)
    else
      var item := stored.(lastAccessedAt := Some(now));
      var touched :- TouchOn(db, id, now);
      var loaded :- policies;
      var policy := PolicyFor(item, loaded);
      var promotion :- PromotionFor(touched.access, item, policy.rules, now);
      if promotion.None? then Ok((touched, item))
      else
        var promoted :- CarryOut(touched, item, Promote(promotion.value), policy.id, now);
        var reread :- GetItemOn(promoted, id);
        Ok((promoted, reread.(lastAccessedAt := Some(now))))
  }

  function GetOn(db: Tables, id: string, policies: Result<seq<Policy>, Error>, now: Instant): Tables {
    match GetTxOn(db, id, policies, now)
    case Ok((after, _)) => after
    case Err(_) => db
  }

  // ----- Update -----

  predicate BySlot(c: Chunk, d: Chunk) {
    if c.index == d.index then TextLess(c.id, d.id) else c.index < d.index
  }

  function ChunkSet(chunks: map<string, ChunkRow>, memoryId: string): set<Chunk> {
    set c | c in chunks && chunks[c].chunk.memoryId == memoryId :: chunks[c].chunk
  }

  lemma SlotsOrderChunks(chunks: map<string, ChunkRow>, memoryId: string)
    requires forall c :: c in chunks ==> chunks[c].chunk.id == c
    ensures Orders(BySlot, ChunkSet(chunks, memoryId))
  {
    forall c: Chunk, d: Chunk, e: Chunk
      ensures !BySlot(c, c)
      ensures BySlot(c, d) && BySlot(d, e) ==> BySlot(c, e)
      ensures c.id != d.id ==> BySlot(c, d) || BySlot(d, c)
    {
      TextLessIsTotal(c.id, c.id);
      TextLessIsTotal(c.id, d.id);
      if TextLess(c.id, d.id) && TextLess(d.id, e.id) {
        TextLessIsTransitive(c.id, d.id, e.id);
      }
    }
  }

  /** The chunks of a memory by chunk_index. */
  ghost function ChunkList(chunks: map<string, ChunkRow>, memoryId: string): seq<Chunk>
    requires forall c :: c in chunks ==> chunks[c].chunk.id == c
  {
    SlotsOrderChunks(chunks, memoryId);
    Listing(BySlot, ChunkSet(chunks, memoryId))
  }

  ghost function FirstChunk(db: Tables, memoryId: string): Option<Chunk>
    requires ChunksOk(db.items.Keys, db.chunks)
  {
    var list := ChunkList(db.chunks, memoryId);
    if list == [] then None else Some(list[0])
  }

  predicate Reindexes(input: UpdateInput) { input.title.Some? || input.body.Some? || input.keywords.Some? }

  function UpdateWords(cfg: Config, input: UpdateInput, current: seq<string>): Result<seq<string>, Error> {
    if input.keywords.Some? then NormalizeKeywords(cfg.texts, input.keywords.value) else Ok(current)
  }

  function UpdateMetadata(input: UpdateInput): Result<Option<string>, Error> {
    if input.metadata.None? then Ok(None)
    else
      var json :- MarshalMetadata(input.metadata.value);
      Ok(Some(json))
  }

  function RowUpdate(input: UpdateInput, metadata: Option<string>, now: Instant): MemoryUpdate {
    MemoryUpdate(input.title, input.body, input.source, metadata, input.tier, input.importance, input.pinned,
                 None, None, None, false, now)
  }

  /** `after` is `before` with the fields the request names, and no other but the update time. */
  predicate ChangedAsAsked(before: Item, input: UpdateInput, after: Item, now: Instant) {
    && after.title == (match input.title case Some(title) => title case None => before.title)
    && after.body == (match input.body case Some(body) => body case None => before.body)
    && after.source == (match input.source case Some(source) => source case None => before.source)
    && after.metadata == (match input.metadata
                          case Some(Encodable(json)) => if json == "" then "{}" else json
                          case Some(_) => "{}"
                          case None => before.metadata)
    && after.tier == (match input.tier case Some(tier) => tier case None => before.tier)
    && after.importance == (match input.importance case Some(importance) => importance case None => before.importance)
    && after.pinned == (match input.pinned case Some(pinned) => pinned case None => before.pinned)
    && after.updatedAt == now
    && after.id == before.id && after.createdAt == before.createdAt && after.lastAccessedAt == before.lastAccessedAt
    && after.archivedAt == before.archivedAt && after.deletedAt == before.deletedAt
  }

  datatype Updated = Updated(db: Tables, words: seq<string>)

  function ReplaceTextOn(cfg: Config, db: Tables, input: UpdateInput, chunkId: string, words: seq<string>, now: Instant): Result<Tables, Error> {
    var tagged :- if input.keywords.Some?
                  then ReplaceKeywordsOn(cfg.texts, db, input.id, KeywordRows(cfg.texts, input.id, words, now))
                  else Ok(db);
    if input.body.Some? then ReplaceChunksOn(tagged, input.id, [Chunk(chunkId, input.id, 0, input.body.value, now)])
    else Ok(tagged)
  }

  ghost function UpdateTxOn(cfg: Config, db: Tables, input: UpdateInput, chunkId: string, now: Instant): Result<Updated, Error> {
    var current :- GetItemOn(db, input.id);
    if current.deletedAt.Some? then Err(NotFound)
    else
      var words :- UpdateWords(cfg, input, WordsOf(db.keywords, input.id));
      if TooLong(Document(cfg.texts, Or(input.title, current.title), words)) then Err(Invalid)
      else
        var metadata :- UpdateMetadata(input);
        var patched :- UpdateItemOn(db, input.id, RowUpdate(input, metadata, now));
        var replaced :- ReplaceTextOn(cfg, patched, input, chunkId, words, now);
        var recorded :- RecordEventOn(replaced, input.id, "updated", NoDetail, now);
        Ok(Updated(recorded, words))
  }

  /** The chunk an update leaves the memory with. */
  ghost function FinalChunk(db: Tables, input: UpdateInput, chunkId: string): Option<string>
    requires ChunksOk(db.items.Keys, db.chunks)
  {
    if input.body.Some? then Some(chunkId)
    else
      match FirstChunk(db, input.id)
      case Some(c) => Some(c.id)
      case None => None
  }

  ghost function UpdateOn(cfg: Config, db: Tables, input: UpdateInput, chunkId: string, env: IndexEnv, now: Instant)
    : (Tables, Result<Memory, Error>)
    requires ChunksOk(db.items.Keys, db.chunks)
  {
    if input.id == "" then (db, Err(Invalid))
    else
      match UpdateTxOn(cfg, db, input, chunkId, now)
      case Err(e) => (db, Err(e))
      case Ok(u) =>
        if input.id !in u.db.items then (u.db, Err(NotFound))
        else
          var item := u.db.items[input.id];
          var chunk := FinalChunk(db, input, chunkId);
          var after := if Reindexes(input) && chunk.Some? && chunk.value != ""
                       then IndexOn(cfg, u.db, item.title, u.words, chunk.value, input.id, env, now).0 else u.db;
          (after, Ok(Memory(item, u.words)))
  }

  // ----- Delete and Pin -----

  function MarkOn(db: Tables, id: string, u: MemoryUpdate, eventType: string, payload: Payload, now: Instant): Result<Tables, Error> {
    var current :- GetItemOn(db, id);
    if current.deletedAt.Some? then Err(NotFound)
    else
      var marked :- UpdateItemOn(db, id, u);
      RecordEventOn(marked, id, eventType, payload, now)
  }

  function DeleteTxOn(db: Tables, id: string, now: Instant): Result<Tables, Error> {
    MarkOn(db, id, NoUpdate(now).(deletedAt := Some(now)), "deleted", SoftDelete, now)
  }

  function PinTxOn(db: Tables, id: string, pinned: bool, now: Instant): Result<Tables, Error> {
    MarkOn(db, id, NoUpdate(now).(pinned := Some(pinned)), "pinned", PinnedTo(pinned), now)
  }

  function OrElse(r: Result<Tables, Error>, db: Tables): Tables { if r.Ok? then r.value else db }

  // ----- Backfill -----

  /** Chunks that still need indexing; with `force`, all chunks of memories not deleted. */
  predicate IsCandidate(db: Tables, c: string, force: bool) {
    && c in db.chunks
    && db.chunks[c].chunk.memoryId in db.items
    && db.items[db.chunks[c].chunk.memoryId].deletedAt.None?
    && (force || c !in db.embeddings || (c in db.statuses && db.statuses[c].status == Failed))
  }

  function CandidateChunks(db: Tables, force: bool): set<Chunk> {
    set c | c in db.chunks && IsCandidate(db, c, force) :: db.chunks[c].chunk
  }

  predicate ByAge(c: Chunk, d: Chunk) { Earlier(c.createdAt, c.id, d.createdAt, d.id) }

  lemma AgeOrdersChunks(chunks: set<Chunk>)
    requires forall c, d :: c in chunks && d in chunks && c.id == d.id ==> c == d
    ensures Orders(ByAge, chunks)
  {
    forall c: Chunk, d: Chunk, e: Chunk
      ensures !ByAge(c, c)
      ensures ByAge(c, d) && ByAge(d, e) ==> ByAge(c, e)
      ensures c.id == d.id || ByAge(c, d) || ByAge(d, c)
    {
      EarlierOrders(c.createdAt, c.id, d.createdAt, d.id, e.createdAt, e.id);
    }
  }

  ghost function Candidates(db: Tables, force: bool, limit: nat): seq<Chunk>
    requires ChunksOk(db.items.Keys, db.chunks)
  {
    AgeOrdersChunks(CandidateChunks(db, force));
    var all := Listing(ByAge, CandidateChunks(db, force));
    if |all| > limit then all[..limit] else all
  }

  function NormalizeBackfillLimit(limit: int): nat { if limit <= 0 then BACKFILL_LIMIT else limit }

  datatype BackfillResult = BackfillResult(scanned: nat, indexed: nat, failed: nat, skipped: nat)

  function Title(db: Tables, id: string): string { if id in db.items then db.items[id].title else "" }

  /** Indexing the candidates one after the other; titles and keywords were read before the first. */
  ghost function BackfillOn(cfg: Config, start: Tables, list: seq<Chunk>, envs: string -> IndexEnv, clock: nat -> Instant): (Tables, BackfillResult) {
    if list == [] then (start, BackfillResult(0, 0, 0, 0))
    else
      var n := |list| - 1;
      var (before, r) := BackfillOn(cfg, start, list[..n], envs, clock);
      var c := list[n];
      var (after, status) := IndexOn(cfg, before, Title(start, c.memoryId), WordsOf(start.keywords, c.memoryId),
                                     c.id, c.memoryId, envs(c.id), clock(n));
      (after, BackfillResult(|list|,
                             r.indexed + (if status == Some(Indexed) then 1 else 0),
                             r.failed + (if status == Some(Failed) then 1 else 0),
                             r.skipped + (if status == Some(Skipped) then 1 else 0)))
  }
}
