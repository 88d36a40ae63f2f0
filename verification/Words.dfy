/** Storing a memory's keywords: what is written is what is read back, and nobody else's change. */
module Words {
  import opened Prelude
  import opened Schema
  import opened Keywords
  import opened Ordering
  import opened Repository
  import opened Service

  /** The rows of memory `id` are `rows`, at indexes 0, 1, 2, ... */
  ghost predicate RowsAre(keywords: map<KeywordKey, Keyword>, id: string, rows: seq<Keyword>) {
    && (forall i :: 0 <= i < |rows| ==> KeywordKey(id, i) in keywords && keywords[KeywordKey(id, i)] == rows[i])
    && (forall k :: k in keywords && k.memoryId == id ==> 0 <= k.index < |rows|)
  }

  ghost predicate OthersKeepRows(before: map<KeywordKey, Keyword>, after: map<KeywordKey, Keyword>, id: string) {
    forall k: KeywordKey :: k.memoryId != id ==>
      (k in after <==> k in before) && (k in before && k in after ==> after[k] == before[k])
  }

  lemma ListedInOrder(keywords: map<KeywordKey, Keyword>, id: string, rows: seq<Keyword>)
    requires RowsAre(keywords, id, rows)
    ensures |WordsOf(keywords, id)| == |rows|
    ensures forall i :: 0 <= i < |rows| ==> WordsOf(keywords, id)[i] == rows[i].keyword
  {
    var keys := KeysOf(keywords, id);
    var list := seq(|rows|, i requires 0 <= i < |rows| => KeywordKey(id, i));
    IndexOrdersKeys(keys);
    forall k
      ensures k in list <==> k in keys
    {
      if k in keys {
        assert list[k.index] == k;
      }
    }
    ListingIsUnique(ByIndex, keys, list, Listing(ByIndex, keys));
  }

  /** What is listed depends on the memory's own rows only. */
  lemma WordsDependOnOwnRows(before: map<KeywordKey, Keyword>, after: map<KeywordKey, Keyword>, id: string)
    requires forall k: KeywordKey :: k.memoryId == id ==>
               (k in after <==> k in before) && (k in before && k in after ==> after[k].keyword == before[k].keyword)
    ensures WordsOf(after, id) == WordsOf(before, id)
  {
    assert KeysOf(after, id) == KeysOf(before, id);
    IndexOrdersKeys(KeysOf(before, id));
    var keys := Listing(ByIndex, KeysOf(before, id));
    assert forall i :: 0 <= i < |keys| ==> keys[i] in keys;
  }

  lemma OthersKeepWords(before: map<KeywordKey, Keyword>, after: map<KeywordKey, Keyword>, id: string)
    requires OthersKeepRows(before, after, id)
    ensures forall other :: other != id ==> WordsOf(after, other) == WordsOf(before, other)
  {
    forall other | other != id
      ensures WordsOf(after, other) == WordsOf(before, other)
    {
      WordsDependOnOwnRows(before, after, other);
    }
  }

  /** Adding `rows` to memory `id` succeeds, leaves it with exactly these rows, and changes nothing else. */
  ghost predicate AddsExactly(t: Texts, db: Tables, id: string, rows: seq<Keyword>) {
    var added := AddKeywordsOn(t, db, id, rows);
    && added.Ok? && added.value == db.(keywords := added.value.keywords)
    && RowsAre(added.value.keywords, id, rows)
    && OthersKeepRows(db.keywords, added.value.keywords, id)
  }

  lemma {:induction false} AddedRows(t: Texts, db: Tables, id: string, words: seq<string>, now: Instant)
    requires t.Lawful() && Clean(t, words) && id != "" && id in db.items && now != 0
    requires forall k :: k in db.keywords ==> k.memoryId != id
    ensures AddsExactly(t, db, id, KeywordRows(t, id, words, now))
  {
    if words != [] {
      PrefixIsClean(t, id, words, now);
      hide *;
      AddedRows(t, db, id, words[..|words| - 1], now);
      LastRowIsAdded(t, db, id, words, now);
    } else {
      NoRowsAreAdded(t, db, id);
    }
  }

  lemma NoRowsAreAdded(t: Texts, db: Tables, id: string)
    requires forall k :: k in db.keywords ==> k.memoryId != id
    ensures AddsExactly(t, db, id, [])
  {
  }

  /** One more word, when those before it are in. */
  lemma LastRowIsAdded(t: Texts, db: Tables, id: string, words: seq<string>, now: Instant)
    requires t.Lawful() && Clean(t, words) && words != [] && id != "" && id in db.items && now != 0
    requires AddsExactly(t, db, id, KeywordRows(t, id, words[..|words| - 1], now))
    ensures AddsExactly(t, db, id, KeywordRows(t, id, words, now))
  {
    var n := |words| - 1;
    var rows := KeywordRows(t, id, words, now);
    PrefixIsClean(t, id, words, now);
    RowsAtTheirPlace(t, id, words, now);
    var before := AddKeywordsOn(t, db, id, rows[..n]).value;
    hide Clean, Texts.Lawful, KeywordRows, RowsAre, OthersKeepRows, AddKeywordsOn, ValidKeyword, NormalizedTaken;
    LastWordIsNew(t, before.keywords, id, words, now);
    WordIsValid(t, id, words, now, n);
    RowIsAdded(before.keywords, db.keywords, id, rows);
    LastRowUnfolds(t, db, id, rows, before);
  }

  lemma PrefixIsClean(t: Texts, id: string, words: seq<string>, now: Instant)
    requires Clean(t, words) && words != []
    ensures Clean(t, words[..|words| - 1])
    ensures KeywordRows(t, id, words, now)[..|words| - 1] == KeywordRows(t, id, words[..|words| - 1], now)
  {
    assert forall i :: 0 <= i < |words| - 1 ==> words[..|words| - 1][i] == words[i];
  }

  lemma RowsAtTheirPlace(t: Texts, id: string, words: seq<string>, now: Instant)
    requires words != []
    ensures
      var rows := KeywordRows(t, id, words, now);
      && |rows| == |words|
      && rows[|words| - 1].memoryId == id && rows[|words| - 1].index == |words| - 1
      && rows[|words| - 1].normalized == t.Normalized(words[|words| - 1])
  {
  }

  lemma WordIsValid(t: Texts, id: string, words: seq<string>, now: Instant, i: nat)
    requires t.Lawful() && Clean(t, words) && i < |words| && id != "" && now != 0
    ensures ValidKeyword(t, KeywordRows(t, id, words, now)[i])
  {
    assert t.trim(words[i]) == words[i] && t.trim(t.lower(t.trim(words[i]))) != "";
  }

  lemma LastRowUnfolds(t: Texts, db: Tables, id: string, rows: seq<Keyword>, before: Tables)
    requires rows != [] && AddKeywordsOn(t, db, id, rows[..|rows| - 1]) == Ok(before) && before.items == db.items
    requires rows[|rows| - 1].memoryId == id && rows[|rows| - 1].index == |rows| - 1 && ValidKeyword(t, rows[|rows| - 1])
    requires KeywordKey(id, |rows| - 1) !in before.keywords && id in db.items
    requires !NormalizedTaken(before.keywords, id, rows[|rows| - 1].normalized)
    ensures AddKeywordsOn(t, db, id, rows) == Ok(before.(keywords := before.keywords[KeywordKey(id, |rows| - 1) := rows[|rows| - 1]]))
  {
    hide ValidKeyword, NormalizedTaken;
    assert rows[|rows| - 1].(memoryId := id) == rows[|rows| - 1];
  }

  lemma RowIsAdded(before: map<KeywordKey, Keyword>, start: map<KeywordKey, Keyword>, id: string, rows: seq<Keyword>)
    requires rows != [] && RowsAre(before, id, rows[..|rows| - 1]) && OthersKeepRows(start, before, id)
    ensures KeywordKey(id, |rows| - 1) !in before
    ensures
      var after := before[KeywordKey(id, |rows| - 1) := rows[|rows| - 1]];
      RowsAre(after, id, rows) && OthersKeepRows(start, after, id)
  {
  }

  lemma LastWordIsNew(t: Texts, keywords: map<KeywordKey, Keyword>, id: string, words: seq<string>, now: Instant)
    requires Clean(t, words) && words != []
    requires RowsAre(keywords, id, KeywordRows(t, id, words[..|words| - 1], now))
    ensures !NormalizedTaken(keywords, id, t.Normalized(words[|words| - 1]))
  {
    var n := |words| - 1;
    forall k | k in keywords && k.memoryId == id
      ensures keywords[k].normalized != t.Normalized(words[n])
    {
      assert k == KeywordKey(id, k.index);
      assert keywords[k].normalized == t.Normalized(words[k.index]);
    }
  }

  /** Replacing a clean list of keywords succeeds, and listing them gives the list back. */
  lemma ReplacedWordsAreListed(t: Texts, db: Tables, id: string, words: seq<string>, now: Instant)
    requires t.Lawful() && Clean(t, words) && id != "" && id in db.items && now != 0
    ensures
      var replaced := ReplaceKeywordsOn(t, db, id, KeywordRows(t, id, words, now));
      && replaced.Ok? && replaced.value == db.(keywords := replaced.value.keywords)
      && WordsOf(replaced.value.keywords, id) == words
      && RowsAre(replaced.value.keywords, id, KeywordRows(t, id, words, now))
      && OthersKeepRows(db.keywords, replaced.value.keywords, id)
  {
    var emptied := DeleteKeywords(db, id);
    AddedRows(t, emptied, id, words, now);
    var after := AddKeywordsOn(t, emptied, id, KeywordRows(t, id, words, now)).value;
    ListedInOrder(after.keywords, id, KeywordRows(t, id, words, now));
  }

  lemma {:induction false} AddKeywordsKeepsSchema(t: Texts, db: Tables, id: string, rows: seq<Keyword>)
    requires SchemaOk(db) && AddKeywordsOn(t, db, id, rows).Ok?
    ensures SchemaOk(AddKeywordsOn(t, db, id, rows).value)
  {
    hide SchemaOk, InsertKeyword, ValidKeyword;
    if rows != [] {
      var n := |rows| - 1;
      AddKeywordsKeepsSchema(t, db, id, rows[..n]);
      InsertKeywordKeepsSchema(AddKeywordsOn(t, db, id, rows[..n]).value, rows[n].(memoryId := id));
    }
  }

  lemma ReplaceKeywordsKeepsSchema(t: Texts, db: Tables, id: string, rows: seq<Keyword>)
    requires SchemaOk(db) && ReplaceKeywordsOn(t, db, id, rows).Ok?
    ensures SchemaOk(ReplaceKeywordsOn(t, db, id, rows).value)
  {
    DeleteKeywordsKeepsSchema(db, id);
    AddKeywordsKeepsSchema(t, DeleteKeywords(db, id), id, rows);
  }
}
