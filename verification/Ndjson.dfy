/** The NDJSON file: lines, records, the strict parser, and what survives a round trip. */
module Ndjson {
  import opened Prelude
  import opened Schema
  import opened Keywords

  // ----- Lines -----

  /** What ends a read or a parse; the error texts are not modelled. */
  datatype ParseError = EmptyFile | BlankLine | BadManifest | NotManifest | BadRecord | BadPayload | ChecksumMismatch

  datatype Read = EndOfFile | Blank | Line(line: string, rest: string)

  /** The input up to and including the first newline, and what follows. */
  function FirstBreak(input: string): (n: nat)
    ensures n <= |input|
    ensures forall i :: 0 <= i < n - 1 ==> input[i] != '\n'
    ensures n < |input| ==> n > 0 && input[n - 1] == '\n'
  {
    if input == "" then 0 else if input[0] == '\n' then 1 else 1 + FirstBreak(input[1..])
  }

  function WithoutSuffix(s: string, c: char): string {
    if s != "" && s[|s| - 1] == c then s[..|s| - 1] else s
  }

  function Trimmed(raw: string): string { WithoutSuffix(WithoutSuffix(raw, '\n'), '\r') }

  function ReadLine(blank: string -> bool, input: string): (r: Read)
    ensures r.Line? ==> |r.rest| < |input|
  {
    if input == "" then EndOfFile
    else
      var n := FirstBreak(input);
      var line := Trimmed(input[..n]);
      if blank(line) then Blank else Line(line, input[n..])
  }

  /** Reads to the end: all lines, or nothing when one of them is blank. */
  function ReadAll(blank: string -> bool, input: string): Option<seq<string>>
    decreases |input|
  {
    match ReadLine(blank, input)
    case EndOfFile => Some([])
    case Blank => None
    case Line(line, rest) =>
      match ReadAll(blank, rest)
      case Some(lines) => Some([line] + lines)
      case None => None
  }

  predicate Printable(blank: string -> bool, line: string) {
    !blank(line) && '\n' !in line && !(line != "" && line[|line| - 1] == '\r')
  }

  predicate IsBreak(s: string) { s == "\n" || s == "\r\n" }

  /** The last line may also end with the file, with or without a carriage return. */
  predicate IsEnding(s: string) { IsBreak(s) || s == "" || s == "\r" }

  /** Lines with whatever ends each of them. */
  function Join(lines: seq<string>, ends: seq<string>): string
    requires |ends| == |lines|
  {
    if lines == [] then "" else lines[0] + ends[0] + Join(lines[1..], ends[1..])
  }

  ghost predicate Terminated(ends: seq<string>) {
    forall i :: 0 <= i < |ends| ==> if i < |ends| - 1 then IsBreak(ends[i]) else IsEnding(ends[i])
  }

  lemma {:induction false} BreakFound(line: string, rest: string)
    requires '\n' !in line
    ensures FirstBreak(line + "\n" + rest) == |line| + 1
  {
    var input := line + "\n" + rest;
    if line != "" {
      assert input[0] == line[0] && line[0] in line;
      assert forall c :: c in line[1..] ==> c in line;
      BreakFound(line[1..], rest);
      assert input[1..] == line[1..] + "\n" + rest;
    }
  }

  lemma {:induction false} NoBreakFound(line: string)
    requires '\n' !in line
    ensures FirstBreak(line) == |line|
  {
    if line != "" {
      assert line[0] in line;
      assert forall c :: c in line[1..] ==> c in line;
      NoBreakFound(line[1..]);
    }
  }

  lemma EndingIsTrimmed(line: string, end: string)
    requires '\n' !in line && !(line != "" && line[|line| - 1] == '\r') && IsEnding(end)
    ensures Trimmed(line + end) == line
  {
    if end == "\r\n" {
      assert WithoutSuffix(line + end, '\n') == line + "\r";
    } else if end == "\n" {
      assert WithoutSuffix(line + end, '\n') == line;
    } else if end == "\r" {
      assert WithoutSuffix(line + end, '\n') == line + end;
      assert (line + "\r")[..|line|] == line;
    } else {
      assert line + end == line;
      assert line != "" ==> line[|line| - 1] in line;
    }
  }

  lemma FirstLineIsRead(blank: string -> bool, line: string, end: string, rest: string)
    requires Printable(blank, line) && blank("") && (IsBreak(end) || (IsEnding(end) && rest == ""))
    ensures ReadLine(blank, line + end + rest) == Line(line, rest)
  {
    var input := line + end + rest;
    assert line != "";
    EndingIsTrimmed(line, end);
    var n := |line| + |end|;
    assert input[..n] == line + end && input[n..] == rest;
    if end == "\n" {
      BreakFound(line, rest);
    } else if end == "\r\n" {
      assert input == (line + "\r") + "\n" + rest;
      BreakFound(line + "\r", rest);
    } else {
      assert input == line + end;
      NoBreakFound(line + end);
    }
  }

  /** Splitting inverts joining: LF or CRLF line by line, with or without a final newline. */
  lemma {:induction false} SplittingInvertsJoining(blank: string -> bool, lines: seq<string>, ends: seq<string>)
    requires |ends| == |lines| && Terminated(ends) && blank("")
    requires forall i :: 0 <= i < |lines| ==> Printable(blank, lines[i])
    ensures ReadAll(blank, Join(lines, ends)) == Some(lines)
  {
    if lines != [] {
      var rest := Join(lines[1..], ends[1..]);
      assert Join(lines, ends) == lines[0] + ends[0] + rest;
      assert ends[1..] == [] ==> rest == "";
      hide *;
      RestIsTerminated(ends);
      SplittingInvertsJoining(blank, lines[1..], ends[1..]);
      FirstLineIsRead(blank, lines[0], ends[0], rest);
      FirstOfAll(blank, Join(lines, ends), lines);
    }
  }

  lemma FirstOfAll(blank: string -> bool, input: string, lines: seq<string>)
    requires lines != [] && ReadLine(blank, input).Line? && ReadLine(blank, input).line == lines[0]
    requires ReadAll(blank, ReadLine(blank, input).rest) == Some(lines[1..])
    ensures ReadAll(blank, input) == Some(lines)
  {
    hide ReadLine;
    assert lines == [lines[0]] + lines[1..];
  }

  lemma RestIsTerminated(ends: seq<string>)
    requires Terminated(ends) && ends != []
    ensures Terminated(ends[1..])
    ensures IsBreak(ends[0]) || (IsEnding(ends[0]) && ends[1..] == [])
  {
  }

  /** What the exporter writes: every line ended by a newline. */
  function Lines(lines: seq<string>): string {
    if lines == [] then "" else lines[0] + "\n" + Lines(lines[1..])
  }

  lemma {:induction false} LinesAreJoined(lines: seq<string>)
    ensures Lines(lines) == Join(lines, seq(|lines|, _ => "\n"))
  {
    if lines != [] {
      LinesAreJoined(lines[1..]);
      assert seq(|lines|, _ => "\n")[1..] == seq(|lines| - 1, _ => "\n");
    }
  }

  /** Lines survive being written and read exactly when none is blank, contains a newline or ends
      in a carriage return. */
  lemma LinesSurviveExactlyWhen(blank: string -> bool, lines: seq<string>)
    requires blank("")
    ensures ReadAll(blank, Lines(lines)) == Some(lines) <==> forall i :: 0 <= i < |lines| ==> Printable(blank, lines[i])
  {
    hide Printable, ReadAll, Lines;
    if forall i :: 0 <= i < |lines| ==> Printable(blank, lines[i]) {
      LinesAreJoined(lines);
      SplittingInvertsJoining(blank, lines, seq(|lines|, _ => "\n"));
    }
    if ReadAll(blank, Lines(lines)) == Some(lines) {
      SurvivorsArePrintable(blank, lines);
    }
  }

  lemma {:induction false} SurvivorsArePrintable(blank: string -> bool, lines: seq<string>)
    requires blank("") && ReadAll(blank, Lines(lines)) == Some(lines)
    ensures forall i :: 0 <= i < |lines| ==> Printable(blank, lines[i])
  {
    hide Printable, ReadLine;
    if lines != [] {
      FirstSurvives(blank, lines);
      SurvivorsArePrintable(blank, lines[1..]);
      assert forall i :: 0 < i < |lines| ==> lines[i] == lines[1..][i - 1];
    }
  }

  lemma FirstSurvives(blank: string -> bool, lines: seq<string>)
    requires blank("") && lines != [] && ReadAll(blank, Lines(lines)) == Some(lines)
    ensures Printable(blank, lines[0]) && ReadAll(blank, Lines(lines[1..])) == Some(lines[1..])
  {
    hide Printable, ReadLine;
    var r := ReadLine(blank, Lines(lines));
    assert r.Line? && lines == [r.line] + ReadAll(blank, r.rest).value;
    assert lines[0] == r.line && lines[1..] == ReadAll(blank, r.rest).value;
    if Printable(blank, lines[0]) {
      FirstLineIsRead(blank, lines[0], "\n", Lines(lines[1..]));
    } else {
      UnprintableIsLost(blank, lines[0], Lines(lines[1..]));
    }
  }

  lemma UnprintableIsLost(blank: string -> bool, line: string, rest: string)
    requires !Printable(blank, line) && blank("")
    ensures
      var r := ReadLine(blank, line + "\n" + rest);
      r.Line? ==> r.line != line
  {
    var input := line + "\n" + rest;
    var n := FirstBreak(input);
    if '\n' in line {
      var i :| 0 <= i < |line| && line[i] == '\n';
      assert input[i] == '\n' && n <= i + 1;
      assert |Trimmed(input[..n])| < |line|;
    } else {
      BreakFound(line, rest);
      assert input[..n] == line + "\n";
      assert WithoutSuffix(line + "\n", '\n') == line;
    }
  }

  // ----- Records -----

  datatype ExportData = ExportData(items: seq<Item>, chunks: seq<Chunk>, keywords: seq<Keyword>, events: seq<Event>,
                                   policies: seq<PolicyRow>, access: seq<Access>)

  const NO_DATA := ExportData([], [], [], [], [], [])

  datatype Counts = Counts(items: int, chunks: int, keywords: int, events: int, policies: int, access: int)

  datatype Manifest = Manifest(format: string, version: int, schemaVersion: int, exportedAt: Instant, pamieVersion: string,
                               counts: Counts, checksum: string)

  /** A record line as decoded: a type name and up to six payloads. */
  datatype RecordLine = RecordLine(kind: string, item: Option<Item>, chunk: Option<Chunk>, keyword: Option<Keyword>,
                                   event: Option<Event>, policy: Option<PolicyRow>, access: Option<Access>)

  /** A tier that is not a known name spelled out. */
  predicate PlainTier(tier: Tier) { tier.Other? ==> tier.name !in {"working", "hot", "warm", "cold", "archive"} }

  /** A payload that is the only one for its JSON text. */
  predicate PlainPayload(t: Texts, p: Payload) {
    && (p.Text? ==> !t.isShape(p.text))
    && (p.Lifecycle? ==> p.change.from.Valid() && (p.change.to.Some? ==> p.change.to.value.Valid()))
  }

  predicate Canonical(t: Texts, r: RecordLine) {
    && (r.item.Some? ==> PlainTier(r.item.value.tier))
    && (r.event.Some? ==> PlainPayload(t, r.event.value.payload))
  }

  predicate CanonicalData(t: Texts, data: ExportData) {
    && (forall i :: 0 <= i < |data.items| ==> PlainTier(data.items[i].tier))
    && (forall i :: 0 <= i < |data.events| ==> PlainPayload(t, data.events[i].payload))
  }

  /** JSON, SHA-256 and TrimSpace as the file uses them. */
  datatype Codec = Codec(encode: RecordLine -> string, decode: string -> Option<RecordLine>,
                         encodeManifest: Manifest -> string, decodeManifest: string -> Option<(string, Manifest)>,
                         blank: string -> bool, sha: string -> string, isHex: string -> bool)
  {
    /** What the proofs need: decoding inverts encoding of canonical records, encoded lines are
        printable, and a digest is 64 hex digits. */
    ghost predicate Faithful(t: Texts) {
      && blank("")
      && (forall r :: (Canonical(t, r) ==> decode(encode(r)) == Some(r)) && Printable(blank, encode(r)))
      && (forall m :: decodeManifest(encodeManifest(m)) == Some(("manifest", m)) && Printable(blank, encodeManifest(m)))
      && (forall s :: |sha(s)| == 64 && isHex(sha(s)))
    }
  }

  function CountsOf(data: ExportData): Counts {
    Counts(|data.items|, |data.chunks|, |data.keywords|, |data.events|, |data.policies|, |data.access|)
  }

  function CountPayloads(r: RecordLine): nat {
    (if r.item.Some? then 1 else 0) + (if r.chunk.Some? then 1 else 0) + (if r.keyword.Some? then 1 else 0)
    + (if r.event.Some? then 1 else 0) + (if r.policy.Some? then 1 else 0) + (if r.access.Some? then 1 else 0)
  }

  function AppendRecord(data: ExportData, r: RecordLine): Result<ExportData, ParseError> {
    if CountPayloads(r) != 1 then Err(BadPayload)
    else if r.kind == "memory_item" then
      (if r.item.None? then Err(BadPayload) else Ok(data.(items := data.items + [r.item.value])))
    else if r.kind == "memory_chunk" then
      (if r.chunk.None? then Err(BadPayload) else Ok(data.(chunks := data.chunks + [r.chunk.value])))
    else if r.kind == "memory_keyword" then
      (if r.keyword.None? then Err(BadPayload) else Ok(data.(keywords := data.keywords + [r.keyword.value])))
    else if r.kind == "memory_event" then
      (if r.event.None? then Err(BadPayload) else Ok(data.(events := data.events + [r.event.value])))
    else if r.kind == "retention_policy" then
      (if r.policy.None? then Err(BadPayload) else Ok(data.(policies := data.policies + [r.policy.value])))
    else if r.kind == "access_log" then
      (if r.access.None? then Err(BadPayload) else Ok(data.(access := data.access + [r.access.value])))
    else Err(BadPayload)
  }

  /** A record as the exporter means it. */
  datatype Entry = ItemEntry(item: Item) | ChunkEntry(chunk: Chunk) | KeywordEntry(keyword: Keyword) | EventEntry(event: Event)
                 | PolicyEntry(policy: PolicyRow) | AccessEntry(access: Access)

  function RecordOf(e: Entry): RecordLine {
    match e
    case ItemEntry(x) => RecordLine("memory_item", Some(x), None, None, None, None, None)
    case ChunkEntry(x) => RecordLine("memory_chunk", None, Some(x), None, None, None, None)
    case KeywordEntry(x) => RecordLine("memory_keyword", None, None, Some(x), None, None, None)
    case EventEntry(x) => RecordLine("memory_event", None, None, None, Some(x), None, None)
    case PolicyEntry(x) => RecordLine("retention_policy", None, None, None, None, Some(x), None)
    case AccessEntry(x) => RecordLine("access_log", None, None, None, None, None, Some(x))
  }

  /** A record is accepted exactly when its one payload is the one its type names. */
  lemma AppendAcceptsExactlyEntries(data: ExportData, r: RecordLine)
    ensures AppendRecord(data, r).Ok? <==> exists e :: r == RecordOf(e)
  {
    if AppendRecord(data, r).Ok? {
      var e := if r.item.Some? then ItemEntry(r.item.value) else if r.chunk.Some? then ChunkEntry(r.chunk.value)
               else if r.keyword.Some? then KeywordEntry(r.keyword.value) else if r.event.Some? then EventEntry(r.event.value)
               else if r.policy.Some? then PolicyEntry(r.policy.value) else AccessEntry(r.access.value);
      assert r == RecordOf(e);
    }
  }

  ghost predicate AllCanonical(t: Texts, es: seq<Entry>) {
    forall i :: 0 <= i < |es| ==> Canonical(t, RecordOf(es[i]))
  }

  // ----- Grouping -----

  /** The payloads of one type, in file order. */
  function Pick<T>(es: seq<Entry>, payload: Entry -> Option<T>): seq<T> {
    if es == [] then []
    else (if payload(es[0]).Some? then [payload(es[0]).value] else []) + Pick(es[1..], payload)
  }

  function AsItem(e: Entry): Option<Item> { if e.ItemEntry? then Some(e.item) else None }
  function AsChunk(e: Entry): Option<Chunk> { if e.ChunkEntry? then Some(e.chunk) else None }
  function AsKeyword(e: Entry): Option<Keyword> { if e.KeywordEntry? then Some(e.keyword) else None }
  function AsEvent(e: Entry): Option<Event> { if e.EventEntry? then Some(e.event) else None }
  function AsPolicy(e: Entry): Option<PolicyRow> { if e.PolicyEntry? then Some(e.policy) else None }
  function AsAccess(e: Entry): Option<Access> { if e.AccessEntry? then Some(e.access) else None }

  function Grouped(es: seq<Entry>): ExportData {
    ExportData(Pick(es, AsItem), Pick(es, AsChunk), Pick(es, AsKeyword), Pick(es, AsEvent), Pick(es, AsPolicy), Pick(es, AsAccess))
  }

  function Plus(a: ExportData, b: ExportData): ExportData {
    ExportData(a.items + b.items, a.chunks + b.chunks, a.keywords + b.keywords, a.events + b.events,
               a.policies + b.policies, a.access + b.access)
  }

  lemma AppendGroups(data: ExportData, e: Entry, es: seq<Entry>)
    ensures AppendRecord(data, RecordOf(e)).Ok?
    ensures Plus(AppendRecord(data, RecordOf(e)).value, Grouped(es)) == Plus(data, Grouped([e] + es))
  {
    hide Pick;
    PickHead(e, es, AsItem);
    PickHead(e, es, AsChunk);
    PickHead(e, es, AsKeyword);
    PickHead(e, es, AsEvent);
    PickHead(e, es, AsPolicy);
    PickHead(e, es, AsAccess);
    var after := Plus(AppendRecord(data, RecordOf(e)).value, Grouped(es));
    var all := Plus(data, Grouped([e] + es));
    assert after.items == all.items && after.chunks == all.chunks && after.keywords == all.keywords;
    assert after.events == all.events && after.policies == all.policies && after.access == all.access;
  }

  lemma PickHead<T>(e: Entry, es: seq<Entry>, payload: Entry -> Option<T>)
    ensures Pick([e] + es, payload) == (if payload(e).Some? then [payload(e).value] else []) + Pick(es, payload)
  {
    assert ([e] + es)[1..] == es;
  }

  lemma {:induction false} PickAppend<T>(a: seq<Entry>, b: seq<Entry>, payload: Entry -> Option<T>)
    ensures Pick(a + b, payload) == Pick(a, payload) + Pick(b, payload)
  {
    if a == [] {
      assert a + b == b;
    } else {
      hide Pick;
      assert a + b == [a[0]] + (a[1..] + b) && a == [a[0]] + a[1..];
      PickHead(a[0], a[1..], payload);
      PickHead(a[0], a[1..] + b, payload);
      PickAppend(a[1..], b, payload);
    }
  }

  function Wrap<T>(xs: seq<T>, entry: T -> Entry): seq<Entry> {
    if xs == [] then [] else [entry(xs[0])] + Wrap(xs[1..], entry)
  }

  lemma {:induction false} PickOwn<T(!new)>(xs: seq<T>, entry: T -> Entry, payload: Entry -> Option<T>)
    requires forall x :: payload(entry(x)) == Some(x)
    ensures Pick(Wrap(xs, entry), payload) == xs
  {
    if xs != [] {
      PickOwn(xs[1..], entry, payload);
      assert Wrap(xs, entry)[1..] == Wrap(xs[1..], entry);
      assert xs == [xs[0]] + xs[1..];
    }
  }

  lemma {:induction false} PickOther<S(!new), T>(xs: seq<S>, entry: S -> Entry, payload: Entry -> Option<T>)
    requires forall x :: payload(entry(x)).None?
    ensures Pick(Wrap(xs, entry), payload) == []
  {
    if xs != [] {
      PickOther(xs[1..], entry, payload);
      assert Wrap(xs, entry)[1..] == Wrap(xs[1..], entry);
    }
  }

  /** The entries of an export: items, chunks, keywords, events, policies, access log. */
  function EntriesOf(data: ExportData): seq<Entry> {
    Wrap(data.items, x => ItemEntry(x))
    + (Wrap(data.chunks, x => ChunkEntry(x))
       + (Wrap(data.keywords, x => KeywordEntry(x))
          + (Wrap(data.events, x => EventEntry(x))
             + (Wrap(data.policies, x => PolicyEntry(x)) + Wrap(data.access, x => AccessEntry(x))))))
  }

  lemma PickFromParts<T>(data: ExportData, payload: Entry -> Option<T>)
    ensures Pick(EntriesOf(data), payload)
            == Pick(Wrap(data.items, x => ItemEntry(x)), payload)
               + (Pick(Wrap(data.chunks, x => ChunkEntry(x)), payload)
                  + (Pick(Wrap(data.keywords, x => KeywordEntry(x)), payload)
                     + (Pick(Wrap(data.events, x => EventEntry(x)), payload)
                        + (Pick(Wrap(data.policies, x => PolicyEntry(x)), payload)
                           + Pick(Wrap(data.access, x => AccessEntry(x)), payload)))))
  {
    hide Pick, Wrap;
    var access := Wrap(data.access, x => AccessEntry(x));
    var policies := Wrap(data.policies, x => PolicyEntry(x)) + access;
    var events := Wrap(data.events, x => EventEntry(x)) + policies;
    var keywords := Wrap(data.keywords, x => KeywordEntry(x)) + events;
    var chunks := Wrap(data.chunks, x => ChunkEntry(x)) + keywords;
    PickAppend(Wrap(data.policies, x => PolicyEntry(x)), access, payload);
    PickAppend(Wrap(data.events, x => EventEntry(x)), policies, payload);
    PickAppend(Wrap(data.keywords, x => KeywordEntry(x)), events, payload);
    PickAppend(Wrap(data.chunks, x => ChunkEntry(x)), keywords, payload);
    PickAppend(Wrap(data.items, x => ItemEntry(x)), chunks, payload);
  }

  lemma {:induction false} WrapKeeps<T(!new)>(t: Texts, xs: seq<T>, entry: T -> Entry)
    requires forall i :: 0 <= i < |xs| ==> Canonical(t, RecordOf(entry(xs[i])))
    ensures AllCanonical(t, Wrap(xs, entry))
  {
    if xs != [] {
      WrapKeeps(t, xs[1..], entry);
    }
  }

  lemma EntriesAreCanonical(t: Texts, data: ExportData)
    requires CanonicalData(t, data)
    ensures AllCanonical(t, EntriesOf(data))
  {
    WrapKeeps(t, data.items, x => ItemEntry(x));
    WrapKeeps(t, data.chunks, x => ChunkEntry(x));
    WrapKeeps(t, data.keywords, x => KeywordEntry(x));
    WrapKeeps(t, data.events, x => EventEntry(x));
    WrapKeeps(t, data.policies, x => PolicyEntry(x));
    WrapKeeps(t, data.access, x => AccessEntry(x));
    hide Canonical, Wrap, RecordOf;
  }

  /** Grouping the entries of an export gives the export back. */
  lemma GroupingInvertsListing(data: ExportData)
    ensures Grouped(EntriesOf(data)) == data
  {
    hide Pick, Wrap, EntriesOf;
    PickItems(data);
    PickChunks(data);
    PickKeywords(data);
    PickEvents(data);
    PickPolicies(data);
    PickAccess(data);
  }

  lemma PickItems(data: ExportData)
    ensures Pick(EntriesOf(data), AsItem) == data.items
  {
    PickFromParts(data, AsItem);
    hide Pick, Wrap, EntriesOf;
    PickOwn(data.items, x => ItemEntry(x), AsItem);
    PickOther(data.chunks, x => ChunkEntry(x), AsItem);
    PickOther(data.keywords, x => KeywordEntry(x), AsItem);
    PickOther(data.events, x => EventEntry(x), AsItem);
    PickOther(data.policies, x => PolicyEntry(x), AsItem);
    PickOther(data.access, x => AccessEntry(x), AsItem);
  }

  lemma PickChunks(data: ExportData)
    ensures Pick(EntriesOf(data), AsChunk) == data.chunks
  {
    PickFromParts(data, AsChunk);
    hide Pick, Wrap, EntriesOf;
    PickOther(data.items, x => ItemEntry(x), AsChunk);
    PickOwn(data.chunks, x => ChunkEntry(x), AsChunk);
    PickOther(data.keywords, x => KeywordEntry(x), AsChunk);
    PickOther(data.events, x => EventEntry(x), AsChunk);
    PickOther(data.policies, x => PolicyEntry(x), AsChunk);
    PickOther(data.access, x => AccessEntry(x), AsChunk);
  }

  lemma PickKeywords(data: ExportData)
    ensures Pick(EntriesOf(data), AsKeyword) == data.keywords
  {
    PickFromParts(data, AsKeyword);
    hide Pick, Wrap, EntriesOf;
    PickOther(data.items, x => ItemEntry(x), AsKeyword);
    PickOther(data.chunks, x => ChunkEntry(x), AsKeyword);
    PickOwn(data.keywords, x => KeywordEntry(x), AsKeyword);
    PickOther(data.events, x => EventEntry(x), AsKeyword);
    PickOther(data.policies, x => PolicyEntry(x), AsKeyword);
    PickOther(data.access, x => AccessEntry(x), AsKeyword);
  }

  lemma PickEvents(data: ExportData)
    ensures Pick(EntriesOf(data), AsEvent) == data.events
  {
    PickFromParts(data, AsEvent);
    hide Pick, Wrap, EntriesOf;
    PickOther(data.items, x => ItemEntry(x), AsEvent);
    PickOther(data.chunks, x => ChunkEntry(x), AsEvent);
    PickOther(data.keywords, x => KeywordEntry(x), AsEvent);
    PickOwn(data.events, x => EventEntry(x), AsEvent);
    PickOther(data.policies, x => PolicyEntry(x), AsEvent);
    PickOther(data.access, x => AccessEntry(x), AsEvent);
  }

  lemma PickPolicies(data: ExportData)
    ensures Pick(EntriesOf(data), AsPolicy) == data.policies
  {
    PickFromParts(data, AsPolicy);
    hide Pick, Wrap, EntriesOf;
    PickOther(data.items, x => ItemEntry(x), AsPolicy);
    PickOther(data.chunks, x => ChunkEntry(x), AsPolicy);
    PickOther(data.keywords, x => KeywordEntry(x), AsPolicy);
    PickOther(data.events, x => EventEntry(x), AsPolicy);
    PickOwn(data.policies, x => PolicyEntry(x), AsPolicy);
    PickOther(data.access, x => AccessEntry(x), AsPolicy);
  }

  lemma PickAccess(data: ExportData)
    ensures Pick(EntriesOf(data), AsAccess) == data.access
  {
    PickFromParts(data, AsAccess);
    hide Pick, Wrap, EntriesOf;
    PickOther(data.items, x => ItemEntry(x), AsAccess);
    PickOther(data.chunks, x => ChunkEntry(x), AsAccess);
    PickOther(data.keywords, x => KeywordEntry(x), AsAccess);
    PickOther(data.events, x => EventEntry(x), AsAccess);
    PickOther(data.policies, x => PolicyEntry(x), AsAccess);
    PickOwn(data.access, x => AccessEntry(x), AsAccess);
  }

  // ----- Writing -----

  function Encoded(codec: Codec, es: seq<Entry>): seq<string> {
    if es == [] then [] else [codec.encode(RecordOf(es[0]))] + Encoded(codec, es[1..])
  }

  function Checksum(codec: Codec, lines: seq<string>): string { codec.sha(Lines(lines)) }

  lemma {:induction false} EncodedAppend(codec: Codec, a: seq<Entry>, b: seq<Entry>)
    ensures Encoded(codec, a + b) == Encoded(codec, a) + Encoded(codec, b)
  {
    if a == [] {
      assert a + b == b;
    } else {
      assert (a + b)[1..] == a[1..] + b;
      EncodedAppend(codec, a[1..], b);
    }
  }

  lemma {:induction false} LinesAppend(lines: seq<string>, line: string)
    ensures Lines(lines + [line]) == Lines(lines) + line + "\n"
  {
    if lines == [] {
      assert (lines + [line])[1..] == [];
      assert lines + [line] == [line];
      assert line + "\n" + "" == line + "\n";
    } else {
      assert (lines + [line])[1..] == lines[1..] + [line];
      LinesAppend(lines[1..], line);
    }
  }

  method ChecksumRecordLines(codec: Codec, lines: seq<string>) returns (sum: string)
    ensures sum == Checksum(codec, lines)
  {
    var hashed := "";
    for k := 0 to |lines|
      invariant hashed == Lines(lines[..k])
    {
      LinesAppend(lines[..k], lines[k]);
      assert lines[..k + 1] == lines[..k] + [lines[k]];
      hashed := hashed + lines[k];
      hashed := hashed + "\n";
    }
    assert lines[..|lines|] == lines;
    sum := codec.sha(hashed);
  }

  method AppendLines<T>(codec: Codec, xs: seq<T>, entry: T -> Entry, written: seq<string>) returns (lines: seq<string>)
    ensures lines == written + Encoded(codec, Wrap(xs, entry))
  {
    lines := written;
    for k := 0 to |xs|
      invariant written + Encoded(codec, Wrap(xs, entry)) == lines + Encoded(codec, Wrap(xs[k..], entry))
    {
      var rest := Wrap(xs[k..], entry);
      assert xs[k..][1..] == xs[k + 1..];
      assert rest == [entry(xs[k])] + Wrap(xs[k + 1..], entry);
      assert rest[1..] == Wrap(xs[k + 1..], entry);
      lines := lines + [codec.encode(RecordOf(entry(xs[k])))];
    }
  }

  /** The record lines of an export, type by type, and their checksum. */
  method MarshalRecordLines(codec: Codec, data: ExportData) returns (lines: seq<string>, sum: string)
    ensures lines == Encoded(codec, EntriesOf(data)) && sum == Checksum(codec, lines)
  {
    EncodedByType(codec, data);
    hide *;
    lines := AppendLines(codec, data.items, x => ItemEntry(x), []);
    assert lines == Encoded(codec, Wrap(data.items, x => ItemEntry(x)));
    lines := AppendLines(codec, data.chunks, x => ChunkEntry(x), lines);
    lines := AppendLines(codec, data.keywords, x => KeywordEntry(x), lines);
    lines := AppendLines(codec, data.events, x => EventEntry(x), lines);
    lines := AppendLines(codec, data.policies, x => PolicyEntry(x), lines);
    lines := AppendLines(codec, data.access, x => AccessEntry(x), lines);
    sum := ChecksumRecordLines(codec, lines);
  }

  lemma EncodedByType(codec: Codec, data: ExportData)
    ensures Encoded(codec, EntriesOf(data))
            == Encoded(codec, Wrap(data.items, x => ItemEntry(x))) + Encoded(codec, Wrap(data.chunks, x => ChunkEntry(x)))
               + Encoded(codec, Wrap(data.keywords, x => KeywordEntry(x))) + Encoded(codec, Wrap(data.events, x => EventEntry(x)))
               + Encoded(codec, Wrap(data.policies, x => PolicyEntry(x))) + Encoded(codec, Wrap(data.access, x => AccessEntry(x)))
  {
    hide Encoded, Wrap;
    var access := Wrap(data.access, x => AccessEntry(x));
    var policies := Wrap(data.policies, x => PolicyEntry(x)) + access;
    var events := Wrap(data.events, x => EventEntry(x)) + policies;
    var keywords := Wrap(data.keywords, x => KeywordEntry(x)) + events;
    var chunks := Wrap(data.chunks, x => ChunkEntry(x)) + keywords;
    EncodedAppend(codec, Wrap(data.policies, x => PolicyEntry(x)), access);
    EncodedAppend(codec, Wrap(data.events, x => EventEntry(x)), policies);
    EncodedAppend(codec, Wrap(data.keywords, x => KeywordEntry(x)), events);
    EncodedAppend(codec, Wrap(data.chunks, x => ChunkEntry(x)), keywords);
    EncodedAppend(codec, Wrap(data.items, x => ItemEntry(x)), chunks);
  }
}
