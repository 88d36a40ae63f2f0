/** The strict parser of the NDJSON file. */
module Parser {
  import opened Prelude
  import opened Schema
  import opened Keywords
  import opened Ndjson

  class LineReader {
    var rest: string

    constructor (input: string)
      ensures rest == input
    {
      rest := input;
    }

    /** Reads one line; at the end of the file nothing is left. */
    method Next(blank: string -> bool) returns (r: Read)
      modifies this
      ensures r == ReadLine(blank, old(rest))
      ensures rest == old(rest)[FirstBreak(old(rest))..]
    {
      if rest == "" {
        return EndOfFile;
      }
      var n := 0;
      while n < |rest| && rest[n] != '\n'
        invariant 0 <= n <= |rest|
        invariant forall i :: 0 <= i < n ==> rest[i] != '\n'
      {
        n := n + 1;
      }
      if n < |rest| {
        n := n + 1;
      }
      BreakIsFirst(rest, n);
      var line := Trimmed(rest[..n]);
      rest := rest[n..];
      if blank(line) {
        return Blank;
      }
      return Line(line, rest);
    }
  }

  lemma BreakIsFirst(input: string, n: nat)
    requires n <= |input| && forall i :: 0 <= i < n - 1 ==> input[i] != '\n'
    requires if n < |input| then n > 0 && input[n - 1] == '\n' else true
    ensures n == FirstBreak(input)
  {
    var f := FirstBreak(input);
  }

  function ParseRecords(codec: Codec, input: string, data: ExportData, lines: seq<string>): Result<(ExportData, seq<string>), ParseError>
    decreases |input|
  {
    match ReadLine(codec.blank, input)
    case EndOfFile => Ok((data, lines))
    case Blank => Err(BlankLine)
    case Line(line, rest) =>
      match codec.decode(line)
      case None => Err(BadRecord)
      case Some(record) =>
        var more :- AppendRecord(data, record);
        ParseRecords(codec, rest, more, lines + [line])
  }

  function ParseOn(codec: Codec, input: string): Result<(Manifest, ExportData), ParseError> {
    match ReadLine(codec.blank, input)
    case EndOfFile => Err(EmptyFile)
    case Blank => Err(BlankLine)
    case Line(first, rest) =>
      match codec.decodeManifest(first)
      case None => Err(BadManifest)
      case Some((kind, manifest)) =>
        if kind != "manifest" then Err(NotManifest)
        else
          var parsed :- ParseRecords(codec, rest, NO_DATA, []);
          if manifest.checksum != Checksum(codec, parsed.1) then Err(ChecksumMismatch) else Ok((manifest, parsed.0))
  }

  method ParseNDJSONExport(codec: Codec, input: string) returns (r: Result<(Manifest, ExportData), ParseError>)
    ensures r == ParseOn(codec, input)
  {
    var reader := new LineReader(input);
    var read := reader.Next(codec.blank);
    if read.EndOfFile? {
      return Err(EmptyFile);
    }
    if read.Blank? {
      return Err(BlankLine);
    }
    var envelope := codec.decodeManifest(read.line);
    if envelope.None? {
      return Err(BadManifest);
    }
    if envelope.value.0 != "manifest" {
      return Err(NotManifest);
    }
    var manifest := envelope.value.1;
    ghost var records := reader.rest;
    var data, lines := NO_DATA, [];
    while true
      invariant ParseRecords(codec, records, NO_DATA, []) == ParseRecords(codec, reader.rest, data, lines)
      decreases |reader.rest|
    {
      read := reader.Next(codec.blank);
      if read.EndOfFile? {
        break;
      }
      if read.Blank? {
        return Err(BlankLine);
      }
      var record := codec.decode(read.line);
      if record.None? {
        return Err(BadRecord);
      }
      var more := AppendRecord(data, record.value);
      if more.Err? {
        return Err(more.error);
      }
      data, lines := more.value, lines + [read.line];
    }
    var sum := ChecksumRecordLines(codec, lines);
    if manifest.checksum != sum {
      return Err(ChecksumMismatch);
    }
    return Ok((manifest, data));
  }

  // ----- What it accepts -----

  /** Each line decodes to the record of its entry. */
  ghost predicate Decode(codec: Codec, lines: seq<string>, es: seq<Entry>) {
    |lines| == |es| && forall i :: 0 <= i < |lines| ==> codec.decode(lines[i]) == Some(RecordOf(es[i]))
  }

  lemma {:induction false} RecordsOfLines(codec: Codec, input: string, lines: seq<string>, es: seq<Entry>, data: ExportData, before: seq<string>)
    requires ReadAll(codec.blank, input) == Some(lines) && Decode(codec, lines, es)
    ensures ParseRecords(codec, input, data, before) == Ok((Plus(data, Grouped(es)), before + lines))
    decreases |input|
  {
    var r := ReadLine(codec.blank, input);
    hide Plus, Grouped, ReadLine, AppendRecord, RecordOf;
    if r.Line? {
      var rest := ReadAll(codec.blank, r.rest).value;
      assert lines == [r.line] + rest && lines[0] == r.line && lines[1..] == rest;
      assert es == [es[0]] + es[1..];
      AppendGroups(data, es[0], es[1..]);
      var more := AppendRecord(data, RecordOf(es[0])).value;
      RecordsOfLines(codec, r.rest, rest, es[1..], more, before + [r.line]);
      assert before + [r.line] + rest == before + lines;
    } else {
      PlusNothing(data);
      assert before + [] == before;
      assert es == [];
    }
  }

  lemma PlusNothing(data: ExportData)
    ensures Plus(data, Grouped([])) == data && Plus(NO_DATA, data) == data
  {
    assert data.items + [] == data.items && [] + data.items == data.items;
    assert data.chunks + [] == data.chunks && [] + data.chunks == data.chunks;
    assert data.keywords + [] == data.keywords && [] + data.keywords == data.keywords;
    assert data.events + [] == data.events && [] + data.events == data.events;
    assert data.policies + [] == data.policies && [] + data.policies == data.policies;
    assert data.access + [] == data.access && [] + data.access == data.access;
  }

  lemma {:induction false} AcceptedRecordsAreEntries(codec: Codec, input: string, data: ExportData, before: seq<string>)
    returns (lines: seq<string>, es: seq<Entry>)
    requires ParseRecords(codec, input, data, before).Ok?
    ensures ReadAll(codec.blank, input) == Some(lines) && Decode(codec, lines, es)
    decreases |input|
  {
    var r := ReadLine(codec.blank, input);
    hide ReadLine, AppendRecord, RecordOf;
    if r.Line? {
      var record := codec.decode(r.line).value;
      AppendAcceptsExactlyEntries(data, record);
      var e :| record == RecordOf(e);
      var moreLines, moreEntries := AcceptedRecordsAreEntries(codec, r.rest, AppendRecord(data, record).value, before + [r.line]);
      lines, es := [r.line] + moreLines, [e] + moreEntries;
    } else {
      lines, es := [], [];
    }
  }

  /** A file the parser accepts: a manifest line, then lines each holding exactly one record of the
      type it names, with the checksum the manifest states. */
  ghost predicate StrictFile(codec: Codec, lines: seq<string>, manifest: Manifest, es: seq<Entry>) {
    && lines != [] && codec.decodeManifest(lines[0]) == Some(("manifest", manifest))
    && Decode(codec, lines[1..], es)
    && manifest.checksum == Checksum(codec, lines[1..])
  }

  lemma StrictFileParses(codec: Codec, input: string, lines: seq<string>, manifest: Manifest, es: seq<Entry>)
    requires ReadAll(codec.blank, input) == Some(lines) && StrictFile(codec, lines, manifest, es)
    ensures ParseOn(codec, input) == Ok((manifest, Grouped(es)))
  {
    var r := ReadLine(codec.blank, input);
    hide ReadLine, Decode, Checksum, Grouped, Plus;
    assert r.Line?;
    var rest := ReadAll(codec.blank, r.rest).value;
    assert lines == [r.line] + rest && lines[1..] == rest;
    RecordsOfLines(codec, r.rest, rest, es, NO_DATA, []);
    PlusNothing(Grouped(es));
    assert [] + rest == rest;
  }

  ghost predicate ReadsAs(codec: Codec, input: string, manifest: Manifest, data: ExportData, es: seq<Entry>) {
    && ReadAll(codec.blank, input).Some?
    && StrictFile(codec, ReadAll(codec.blank, input).value, manifest, es)
    && data == Grouped(es)
  }

  lemma AcceptedFileReads(codec: Codec, input: string, manifest: Manifest, data: ExportData) returns (es: seq<Entry>)
    requires ParseOn(codec, input) == Ok((manifest, data))
    ensures ReadsAs(codec, input, manifest, data, es)
  {
    var r := ReadLine(codec.blank, input);
    hide ReadLine, Decode, Checksum, Grouped, Plus, ParseRecords, Codec.Faithful;
    var lines;
    lines, es := AcceptedRecordsAreEntries(codec, r.rest, NO_DATA, []);
    RecordsOfLines(codec, r.rest, lines, es, NO_DATA, []);
    PlusNothing(Grouped(es));
    assert [] + lines == lines;
    assert ([r.line] + lines)[1..] == lines;
  }

  /** Exactly the strict files parse, each to the stable per-type grouping of its records. */
  lemma ParsesExactlyStrictFiles(codec: Codec, input: string, manifest: Manifest, data: ExportData)
    ensures ParseOn(codec, input) == Ok((manifest, data)) <==> exists es :: ReadsAs(codec, input, manifest, data, es)
  {
    hide ParseOn;
    if ParseOn(codec, input) == Ok((manifest, data)) {
      var es := AcceptedFileReads(codec, input, manifest, data);
    }
    if es :| ReadsAs(codec, input, manifest, data, es) {
      StrictFileParses(codec, input, ReadAll(codec.blank, input).value, manifest, es);
    }
  }

  // ----- Round trips -----

  lemma {:induction false} EncodedDecodes(t: Texts, codec: Codec, es: seq<Entry>)
    requires codec.Faithful(t) && AllCanonical(t, es)
    ensures Decode(codec, Encoded(codec, es), es)
    ensures forall i :: 0 <= i < |es| ==> Printable(codec.blank, Encoded(codec, es)[i])
  {
    if es != [] {
      hide RecordOf, Printable, Canonical;
      EncodedDecodes(t, codec, es[1..]);
      assert forall i :: 0 < i < |es| ==> es[i] == es[1..][i - 1] && Encoded(codec, es)[i] == Encoded(codec, es[1..])[i - 1];
    }
  }

  /** Any interleaving of canonical records, under any line endings, parses to its stable grouping by type,
      provided the manifest has the checksum of the record lines; otherwise it is refused. */
  lemma InterleavedStreamIsGrouped(t: Texts, codec: Codec, manifest: Manifest, es: seq<Entry>, ends: seq<string>)
    requires codec.Faithful(t) && AllCanonical(t, es) && Terminated(ends) && |ends| == |es| + 1
    ensures |Encoded(codec, es)| == |es|
    ensures
      var lines := [codec.encodeManifest(manifest)] + Encoded(codec, es);
      ParseOn(codec, Join(lines, ends))
      == if manifest.checksum == Checksum(codec, Encoded(codec, es)) then Ok((manifest, Grouped(es))) else Err(ChecksumMismatch)
  {
    EncodedDecodes(t, codec, es);
    var records := Encoded(codec, es);
    var lines := [codec.encodeManifest(manifest)] + records;
    assert Printable(codec.blank, codec.encodeManifest(manifest))
           && codec.decodeManifest(codec.encodeManifest(manifest)) == Some(("manifest", manifest));
    FileIsRead(codec, codec.encodeManifest(manifest), records, ends);
    hide *;
    RecordsOfLines(codec, Join(records, ends[1..]), records, es, NO_DATA, []);
    PlusNothing(Grouped(es));
    assert [] + records == records;
    ReadFileParses(codec, Join(lines, ends), manifest, Join(records, ends[1..]), Grouped(es), records);
  }

  lemma ReadFileParses(codec: Codec, input: string, manifest: Manifest, rest: string, data: ExportData, records: seq<string>)
    requires ReadLine(codec.blank, input) == Line(codec.encodeManifest(manifest), rest)
    requires codec.decodeManifest(codec.encodeManifest(manifest)) == Some(("manifest", manifest))
    requires ParseRecords(codec, rest, NO_DATA, []) == Ok((data, records))
    ensures ParseOn(codec, input) == if manifest.checksum == Checksum(codec, records) then Ok((manifest, data)) else Err(ChecksumMismatch)
  {
    hide ReadLine, ParseRecords, Checksum;
  }

  lemma FileIsRead(codec: Codec, first: string, records: seq<string>, ends: seq<string>)
    requires codec.blank("") && Terminated(ends) && |ends| == |records| + 1
    requires Printable(codec.blank, first) && forall i :: 0 <= i < |records| ==> Printable(codec.blank, records[i])
    ensures ReadLine(codec.blank, Join([first] + records, ends)) == Line(first, Join(records, ends[1..]))
    ensures ReadAll(codec.blank, Join(records, ends[1..])) == Some(records)
  {
    assert ([first] + records)[1..] == records;
    hide Printable, ReadLine, IsBreak, IsEnding;
    RestIsTerminated(ends);
    SplittingInvertsJoining(codec.blank, records, ends[1..]);
    FirstLineIsRead(codec.blank, first, ends[0], Join(records, ends[1..]));
  }

  function ManifestFor(codec: Codec, data: ExportData, manifest: Manifest): Manifest {
    manifest.(counts := CountsOf(data), checksum := Checksum(codec, Encoded(codec, EntriesOf(data))))
  }

  /** The lines of an exported file. */
  function FileLines(codec: Codec, data: ExportData, manifest: Manifest): seq<string> {
    [codec.encodeManifest(ManifestFor(codec, data, manifest))] + Encoded(codec, EntriesOf(data))
  }

  /** Parsing inverts exporting, also when the line endings were changed in transit. */
  lemma ParseInvertsExport(t: Texts, codec: Codec, data: ExportData, manifest: Manifest, ends: seq<string>)
    requires codec.Faithful(t) && CanonicalData(t, data) && Terminated(ends) && |ends| == |FileLines(codec, data, manifest)|
    ensures ParseOn(codec, Join(FileLines(codec, data, manifest), ends)) == Ok((ManifestFor(codec, data, manifest), data))
  {
    var es := EntriesOf(data);
    hide Codec.Faithful, CanonicalData, AllCanonical, EntriesOf, Encoded, ParseOn, Join, Terminated, Grouped, Checksum;
    EncodedLength(codec, es);
    EntriesAreCanonical(t, data);
    InterleavedStreamIsGrouped(t, codec, ManifestFor(codec, data, manifest), es, ends);
    GroupingInvertsListing(data);
  }

  lemma EncodedLength(codec: Codec, es: seq<Entry>)
    ensures |Encoded(codec, es)| == |es|
  {
  }
}
