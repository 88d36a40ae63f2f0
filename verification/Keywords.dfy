/** Keyword normalization and the title/keywords document that is embedded. */
module Keywords {
  import opened Prelude
  import opened Schema

  const MAX_KEYWORDS := 64
  const MAX_KEYWORD_RUNES := 128
  const MAX_DOCUMENT_RUNES := 4096

  /** The text functions of Go's library that the model leaves open; `isShape` holds of the JSON texts
      that the service itself writes as event details. */
  datatype Texts = Texts(trim: string -> string, lower: string -> string, isControl: char -> bool,
                         hash: string -> string, isObject: string -> bool, isShape: string -> bool)
  {
    /** What the proofs need of them: TrimSpace is idempotent, ToLower blanks nothing out, a hash
        is never blank, and "{}" is a JSON object and not blank. */
    ghost predicate Lawful() {
      && trim("") == ""
      && (forall s :: trim(trim(s)) == trim(s))
      && (forall s :: trim(s) != "" ==> trim(lower(trim(s))) != "")
      && (forall s :: trim(hash(s)) != "")
      && isObject("{}") && trim("{}") == "{}" && trim("unknown") == "unknown"
    }

    function Normalized(keyword: string): string { lower(trim(keyword)) }
  }

  // ----- Normalization -----

  predicate HasControl(t: Texts, s: string) { exists i :: 0 <= i < |s| && t.isControl(s[i]) }

  predicate Seen(t: Texts, kept: seq<string>, key: string) {
    exists i :: 0 <= i < |kept| && t.lower(kept[i]) == key
  }

  function Normalize(t: Texts, keywords: seq<string>): (r: Result<seq<string>, Error>)
    ensures r.Err? ==> r.error == Invalid
  {
    if keywords == [] then Ok([])
    else
      var n := |keywords| - 1;
      var kept :- Normalize(t, keywords[..n]);
      var trimmed := t.trim(keywords[n]);
      if trimmed == "" then Ok(kept)
      else if |trimmed| > MAX_KEYWORD_RUNES || HasControl(t, trimmed) then Err(Invalid)
      else if Seen(t, kept, t.lower(trimmed)) then Ok(kept)
      else Ok(kept + [trimmed])
  }

  function NormalizeKeywords(t: Texts, keywords: seq<string>): Result<seq<string>, Error> {
    if |keywords| > MAX_KEYWORDS then Err(Invalid) else Normalize(t, keywords)
  }

  lemma {:induction false} NormalizeStopsAtFirstError(t: Texts, keywords: seq<string>, k: nat)
    requires k <= |keywords| && Normalize(t, keywords[..k]).Err?
    ensures Normalize(t, keywords) == Err(Invalid)
    decreases |keywords|
  {
    if k < |keywords| {
      var n := |keywords| - 1;
      assert keywords[..n][..k] == keywords[..k];
      NormalizeStopsAtFirstError(t, keywords[..n], k);
    } else {
      assert keywords[..k] == keywords;
    }
  }

  /** Few enough keywords, and each of them, if it is not blank, short and printable. */
  predicate GoodKeywords(t: Texts, keywords: seq<string>) {
    && |keywords| <= 64
    && forall i :: 0 <= i < |keywords| && t.trim(keywords[i]) != "" ==>
         |t.trim(keywords[i])| <= 128 && forall j :: 0 <= j < |t.trim(keywords[i])| ==> !t.isControl(t.trim(keywords[i])[j])
  }

  /** Exactly such lists are accepted; duplicates and blanks are no fault. */
  lemma KeywordsAcceptedExactlyWhen(t: Texts, keywords: seq<string>)
    ensures NormalizeKeywords(t, keywords).Ok? <==> GoodKeywords(t, keywords)
  {
    NormalizeAcceptsExactly(t, keywords);
    hide Normalize;
  }

  lemma {:induction false} NormalizeAcceptsExactly(t: Texts, keywords: seq<string>)
    ensures Normalize(t, keywords).Ok?
            <==> forall i :: 0 <= i < |keywords| && t.trim(keywords[i]) != "" ==>
                   |t.trim(keywords[i])| <= 128 && !HasControl(t, t.trim(keywords[i]))
  {
    if keywords != [] {
      var n := |keywords| - 1;
      NormalizeAcceptsExactly(t, keywords[..n]);
      hide HasControl, Seen;
      assert forall i :: 0 <= i < n ==> keywords[..n][i] == keywords[i];
    }
  }

  method NormalizeAll(t: Texts, keywords: seq<string>) returns (r: Result<seq<string>, Error>)
    ensures r == NormalizeKeywords(t, keywords)
  {
    if |keywords| > MAX_KEYWORDS {
      return Err(Invalid);
    }
    var normalized: seq<string> := [];
    var seen: set<string> := {};
    for k := 0 to |keywords|
      invariant Normalize(t, keywords[..k]) == Ok(normalized)
      invariant forall key :: key in seen <==> Seen(t, normalized, key)
    {
      assert keywords[..k + 1][..k] == keywords[..k];
      var trimmed := t.trim(keywords[k]);
      if trimmed != "" {
        var long := |trimmed| > MAX_KEYWORD_RUNES;
        var i := 0;
        while i < |trimmed| && !long
          invariant 0 <= i <= |trimmed|
          invariant !long ==> |trimmed| <= MAX_KEYWORD_RUNES
          invariant !long ==> forall j :: 0 <= j < i ==> !t.isControl(trimmed[j])
          invariant long ==> |trimmed| > MAX_KEYWORD_RUNES || HasControl(t, trimmed)
        {
          if t.isControl(trimmed[i]) {
            long := true;
          }
          i := i + 1;
        }
        if long {
          NormalizeStopsAtFirstError(t, keywords, k + 1);
          return Err(Invalid);
        }
        var key := t.lower(trimmed);
        if key !in seen {
          ghost var before := normalized;
          seen := seen + {key};
          normalized := normalized + [trimmed];
          SeenGrows(t, before, trimmed);
        }
      }
    }
    assert keywords[..|keywords|] == keywords;
    return Ok(normalized);
  }

  lemma SeenGrows(t: Texts, kept: seq<string>, trimmed: string)
    ensures forall key :: Seen(t, kept + [trimmed], key) <==> Seen(t, kept, key) || key == t.lower(trimmed)
  {
    var all := kept + [trimmed];
    assert all[|kept|] == trimmed;
    forall key
      ensures Seen(t, all, key) <==> Seen(t, kept, key) || key == t.lower(trimmed)
    {
      if Seen(t, kept, key) {
        var i :| 0 <= i < |kept| && t.lower(kept[i]) == key;
        assert all[i] == kept[i];
      }
    }
  }

  /** A stored keyword list: trimmed, not blank, short, printable, and distinct ignoring case. */
  ghost predicate Clean(t: Texts, keywords: seq<string>) {
    && (forall i :: 0 <= i < |keywords| ==>
          && t.trim(keywords[i]) == keywords[i] && keywords[i] != ""
          && |keywords[i]| <= MAX_KEYWORD_RUNES && !HasControl(t, keywords[i]))
    && (forall i, j :: 0 <= i < j < |keywords| ==> t.lower(keywords[i]) != t.lower(keywords[j]))
  }

  lemma {:induction false} NormalizedIsClean(t: Texts, keywords: seq<string>)
    requires t.Lawful() && Normalize(t, keywords).Ok?
    ensures Clean(t, Normalize(t, keywords).value)
    ensures |Normalize(t, keywords).value| <= |keywords|
  {
    if keywords != [] {
      NormalizedIsClean(t, keywords[..|keywords| - 1]);
    }
  }

  /** No word is lost: each keyword that is not blank survives up to case and spacing. */
  lemma {:induction false} NormalizeLosesNoWord(t: Texts, keywords: seq<string>, i: nat)
    requires Normalize(t, keywords).Ok? && i < |keywords| && t.trim(keywords[i]) != ""
    ensures Seen(t, Normalize(t, keywords).value, t.Normalized(keywords[i]))
  {
    var n := |keywords| - 1;
    var kept := Normalize(t, keywords[..n]).value;
    SeenGrows(t, kept, t.trim(keywords[n]));
    if i < n {
      NormalizeLosesNoWord(t, keywords[..n], i);
    }
  }

  /** The first keyword that spells its word, up to case and spacing. */
  predicate SpellsFirst(t: Texts, keywords: seq<string>, j: nat)
    requires j < |keywords|
  {
    && t.trim(keywords[j]) != ""
    && forall i :: 0 <= i < j && t.trim(keywords[i]) != "" ==> t.lower(t.trim(keywords[i])) != t.lower(t.trim(keywords[j]))
  }

  /** The words in their first spellings, without the space around them, in the order they came. */
  function FirstSpellings(t: Texts, keywords: seq<string>): seq<string> {
    if keywords == [] then []
    else
      var n := |keywords| - 1;
      FirstSpellings(t, keywords[..n]) + if SpellsFirst(t, keywords, n) then [t.trim(keywords[n])] else []
  }

  lemma {:induction false} NormalizeKeepsFirstSpellings(t: Texts, keywords: seq<string>)
    requires Normalize(t, keywords).Ok?
    ensures Normalize(t, keywords).value == FirstSpellings(t, keywords)
    ensures forall key :: Seen(t, Normalize(t, keywords).value, key)
                          <==> exists i :: 0 <= i < |keywords| && t.trim(keywords[i]) != "" && t.lower(t.trim(keywords[i])) == key
  {
    if keywords != [] {
      var n := |keywords| - 1;
      var (before, trimmed) := (Normalize(t, keywords[..n]).value, t.trim(keywords[n]));
      NormalizeKeepsFirstSpellings(t, keywords[..n]);
      assert forall i :: 0 <= i < n ==> keywords[..n][i] == keywords[i];
      SeenGrows(t, before, trimmed);
      hide Seen, HasControl;
      assert SpellsFirst(t, keywords, n) <==> trimmed != "" && !Seen(t, before, t.lower(trimmed));
    }
  }

  /** Normalizing what is already clean changes nothing, so saving a stored list again is safe. */
  lemma {:induction false} NormalizeKeepsCleanLists(t: Texts, keywords: seq<string>)
    requires Clean(t, keywords)
    ensures Normalize(t, keywords) == Ok(keywords)
  {
    if keywords != [] {
      var n := |keywords| - 1;
      assert forall i :: 0 <= i < n ==> keywords[..n][i] == keywords[i];
      NormalizeKeepsCleanLists(t, keywords[..n]);
      assert keywords == keywords[..n] + [keywords[n]];
    }
  }

  lemma NormalizeIsIdempotent(t: Texts, keywords: seq<string>)
    requires t.Lawful() && NormalizeKeywords(t, keywords).Ok?
    ensures NormalizeKeywords(t, NormalizeKeywords(t, keywords).value) == NormalizeKeywords(t, keywords)
  {
    NormalizedIsClean(t, keywords);
    NormalizeKeepsCleanLists(t, Normalize(t, keywords).value);
  }

  // ----- The embedding document -----

  function Filtered(t: Texts, keywords: seq<string>): seq<string> {
    if keywords == [] then []
    else
      var n := |keywords| - 1;
      var trimmed := t.trim(keywords[n]);
      if trimmed == "" then Filtered(t, keywords[..n]) else Filtered(t, keywords[..n]) + [trimmed]
  }

  function Bullets(keywords: seq<string>): string {
    if keywords == [] then "" else Bullets(keywords[..|keywords| - 1]) + "\n- " + keywords[|keywords| - 1]
  }

  /** Each word starts a line of its own. */
  lemma {:induction false} BulletsAreLines(words: seq<string>, more: seq<string>)
    ensures Bullets(words + more) == Bullets(words) + Bullets(more)
    ensures |more| == 1 ==> Bullets(more) == "\n- " + more[0]
  {
    if more == [] {
      assert words + more == words;
    } else {
      var n := |more| - 1;
      var all := words + more;
      assert all[..|all| - 1] == words + more[..n];
      BulletsAreLines(words, more[..n]);
      LastBullet(all);
      LastBullet(more);
      hide Bullets;
      AppendLast(Bullets(words), Bullets(more[..n]), "\n- ", more[n]);
    }
  }

  lemma LastBullet(words: seq<string>)
    requires words != []
    ensures Bullets(words) == Bullets(words[..|words| - 1]) + "\n- " + words[|words| - 1]
    ensures |words| == 1 ==> Bullets(words) == "\n- " + words[0]
  {
    assert |words| == 1 ==> Bullets(words[..0]) == "" && "" + "\n- " == "\n- ";
  }

  lemma AppendLast(a: string, b: string, c: string, d: string)
    ensures a + b + c + d == a + (b + c + d)
  {
  }

  /** The text that is embedded for a memory, or None when there is nothing to embed. */
  function Document(t: Texts, title: string, keywords: seq<string>): Option<string> {
    var heading := t.trim(title);
    var words := Filtered(t, keywords);
    if heading == "" && words == [] then None
    else
      var top := if heading == "" then "" else "Title:" + " " + heading;
      if words == [] then Some(top)
      else Some(top + (if |top| > 0 then "\n" else "") + "Keywords:" + Bullets(words))
  }

  method BuildDocument(t: Texts, title: string, keywords: seq<string>) returns (r: Option<string>)
    ensures r == Document(t, title, keywords)
  {
    var heading := t.trim(title);
    var filtered: seq<string> := [];
    for k := 0 to |keywords|
      invariant filtered == Filtered(t, keywords[..k])
    {
      assert keywords[..k + 1][..k] == keywords[..k];
      var trimmed := t.trim(keywords[k]);
      if trimmed != "" {
        filtered := filtered + [trimmed];
      }
    }
    assert keywords[..|keywords|] == keywords;
    if heading == "" && |filtered| == 0 {
      return None;
    }
    var builder := "";
    if heading != "" {
      builder := builder + "Title:";
      builder := builder + " ";
      builder := builder + heading;
    }
    ghost var top := builder;
    assert top == if heading == "" then "" else "Title:" + " " + heading;
    if |filtered| > 0 {
      if |builder| > 0 {
        builder := builder + "\n";
      }
      builder := builder + "Keywords:";
      ghost var start := builder;
      for k := 0 to |filtered|
        invariant builder == start + Bullets(filtered[..k])
      {
        assert filtered[..k + 1][..k] == filtered[..k];
        builder := builder + "\n- ";
        builder := builder + filtered[k];
        assert builder == start + (Bullets(filtered[..k]) + "\n- " + filtered[k]);
      }
      assert filtered[..|filtered|] == filtered;
      assert builder == top + (if |top| > 0 then "\n" else "") + "Keywords:" + Bullets(filtered);
    }
    return Some(builder);
  }

  lemma {:induction false} FilteredKeepsCleanLists(t: Texts, keywords: seq<string>)
    requires forall i :: 0 <= i < |keywords| ==> t.trim(keywords[i]) == keywords[i] && keywords[i] != ""
    ensures Filtered(t, keywords) == keywords
  {
    if keywords != [] {
      var n := |keywords| - 1;
      assert forall i :: 0 <= i < n ==> keywords[..n][i] == keywords[i];
      FilteredKeepsCleanLists(t, keywords[..n]);
      assert keywords == keywords[..n] + [keywords[n]];
    }
  }

  /** Only a memory with a blank title and no keyword that is not blank goes without a document;
      every keyword of a clean list is in the document, on a line of its own. */
  lemma DocumentCoversTheMemory(t: Texts, title: string, keywords: seq<string>)
    requires Clean(t, keywords)
    ensures Document(t, title, keywords).None? <==> t.trim(title) == "" && keywords == []
    ensures keywords == [] && t.trim(title) != "" ==> Document(t, title, keywords) == Some("Title: " + t.trim(title))
    ensures keywords != [] ==>
              var top := if t.trim(title) == "" then "" else "Title: " + t.trim(title) + "\n";
              Document(t, title, keywords) == Some(top + "Keywords:" + Bullets(keywords))
  {
    FilteredKeepsCleanLists(t, keywords);
    var heading := t.trim(title);
    if heading != "" {
      var top := "Title:" + " " + heading;
      assert top == "Title: " + heading;
      assert top + "\n" == "Title: " + heading + "\n";
      assert |top| > 0;
    } else {
      assert "" + "" == "";
    }
  }
}
