/** The text half of `GetEventBookmarkID`: the record id of an event is
    scraped from the text of its serialised bookmark. The serialisation
    itself is outside the model; a bookmark here is the decoded text, and
    `None` stands for a null bookmark. */
module Bookmark {
  import opened Wrappers
  import opened Strings

  const RecordIdPrefix: string := "RecordId='"

  /** A token is the record id when, trimmed, it starts with `RecordId='`. */
  predicate IsRecordIdToken(token: string) {
    StartsWith(Trim(token), RecordIdPrefix)
  }

  /** What is left of a token after `Replace("RecordId='", "")` and then
      `Replace("'", "")`; the untrimmed token is used. */
  function Residue(token: string): string {
    RemoveAll(RemoveAll(token, RecordIdPrefix), "'")
  }

  /** The string the parse is attempted on: the residue of the last
      record-id token, or empty when there is none. */
  function FoundText(tokens: seq<string>): string {
    if |tokens| == 0 then ""
    else
      var last := tokens[|tokens| - 1];
      if IsRecordIdToken(last) then Residue(last) else FoundText(tokens[..|tokens| - 1])
  }

  // A proof step for the token loop of `LastRecordIdText`: one more token unfolds `FoundText` once.
  lemma FoundTextAppend(tokens: seq<string>, t: string)
    ensures FoundText(tokens + [t]) == if IsRecordIdToken(t) then Residue(t) else FoundText(tokens)
  {
    assert (tokens + [t])[..|tokens|] == tokens;
  }

  /** The last record-id token decides what is parsed. */
  lemma {:induction false} FoundTextLast(tokens: seq<string>, k: nat)
    requires k < |tokens| && IsRecordIdToken(tokens[k])
    requires forall j :: k < j < |tokens| ==> !IsRecordIdToken(tokens[j])
    ensures FoundText(tokens) == Residue(tokens[k])
  {
    if k < |tokens| - 1 {
      FoundTextLast(tokens[..|tokens| - 1], k);
    }
  }

  /** Without a record-id token the empty string is parsed. */
  lemma {:induction false} FoundTextNone(tokens: seq<string>)
    requires forall j :: 0 <= j < |tokens| ==> !IsRecordIdToken(tokens[j])
    ensures FoundText(tokens) == ""
  {
    if |tokens| > 0 {
      FoundTextNone(tokens[..|tokens| - 1]);
    }
  }

  /** The record id of the bookmark text, 0 when it cannot be parsed. */
  function RecordIdOf(text: string): (id: nat)
    ensures id < ULongLimit
  {
    ParseULong(FoundText(Split(text, ' '))).GetOr(0)
  }

  function BookmarkRecordId(bookmark: Option<string>): (id: nat)
    ensures id < ULongLimit
    ensures bookmark.None? ==> id == 0
  {
    match bookmark
    case None => 0
    case Some(text) => RecordIdOf(text)
  }

  /** `GetEventBookmarkID`: a null bookmark gives 0; otherwise the text is
      split on spaces and the last record-id token's residue is parsed, an
      unparsable residue giving 0. */
  method GetEventBookmarkId(bookmark: Option<string>) returns (id: nat)
    ensures id == BookmarkRecordId(bookmark)
  {
    if bookmark.None? {
      return 0;
    }
    var elements := Split(bookmark.value, ' ');
    var found := LastRecordIdText(elements);
    RecordIdOfFound(bookmark.value, found);
    var parsed := ParseULong(found);
    if parsed.Some? {
      id := parsed.value;
    } else {
      id := 0;
    }
  }

  /** The loop over the tokens: each is checked in turn, the last match
      overwriting earlier ones. */
  method LastRecordIdText(elements: seq<string>) returns (found: string)
    ensures found == FoundText(elements)
  {
    found := "";
    for i := 0 to |elements|
      invariant found == FoundText(elements[..i])
    {
      assert elements[..i + 1] == elements[..i] + [elements[i]];
      FoundTextAppend(elements[..i], elements[i]);
      if IsRecordIdToken(elements[i]) {
        found := Residue(elements[i]);
      }
    }
    assert elements[..|elements|] == elements;
  }

  /** Without a record-id token the result is 0. */
  lemma NoRecordIdToken(text: string)
    requires forall j :: 0 <= j < |Split(text, ' ')| ==> !IsRecordIdToken(Split(text, ' ')[j])
    ensures RecordIdOf(text) == 0
  {
    FoundTextNone(Split(text, ' '));
    ParseEmpty();
  }

  lemma {:induction false} FoundLastToken(tokens: seq<string>, k: nat)
    requires k < |tokens|
    requires forall i :: 0 <= i < |tokens| ==> ' ' !in tokens[i]
    requires IsRecordIdToken(tokens[k])
    requires forall j :: k < j < |tokens| ==> !IsRecordIdToken(tokens[j])
    ensures FoundText(Split(Join(tokens, ' '), ' ')) == Residue(tokens[k])
  {
    SplitJoin(tokens, ' ');
    FoundTextLast(tokens, k);
  }

  // A proof step for `GetEventBookmarkId` and the lemmas below: `RecordIdOf` parses what `FoundText` returns.
  lemma RecordIdOfFound(text: string, found: string)
    requires FoundText(Split(text, ' ')) == found
    ensures RecordIdOf(text) == ParseULong(found).GetOr(0)
  {
  }

  /** For space-free tokens joined by spaces, the last record-id token
      decides the result; a residue that is not a 64-bit number gives 0. */
  lemma LastTokenWins(tokens: seq<string>, k: nat)
    requires k < |tokens|
    requires forall i :: 0 <= i < |tokens| ==> ' ' !in tokens[i]
    requires IsRecordIdToken(tokens[k])
    requires forall j :: k < j < |tokens| ==> !IsRecordIdToken(tokens[j])
    ensures RecordIdOf(Join(tokens, ' ')) == ParseULong(Residue(tokens[k])).GetOr(0)
  {
    FoundLastToken(tokens, k);
    RecordIdOfFound(Join(tokens, ' '), Residue(tokens[k]));
  }

  lemma ExampleDigits()
    ensures FormatULong(2895256966) == "2895256966"
  {
    assert FormatULong(2) == "2";
    assert FormatULong(28) == "28";
    assert FormatULong(289) == "289";
    assert FormatULong(2895) == "2895";
    assert FormatULong(28952) == "28952";
    assert FormatULong(289525) == "289525";
    assert FormatULong(2895256) == "2895256";
    assert FormatULong(28952569) == "28952569";
    assert FormatULong(289525696) == "289525696";
  }

  lemma ExampleStripPrefix()
    ensures RemoveAll("RecordId='2895256966'", RecordIdPrefix) == "2895256966'"
  {
    var rest := "2895256966'";
    assert RecordIdPrefix + rest == "RecordId='2895256966'";
    RemoveAllPrefix(RecordIdPrefix, rest);
    RemoveAllSkip(rest, "", RecordIdPrefix);
    assert rest + "" == rest;
  }

  lemma ExampleStripQuote()
    ensures RemoveAll("2895256966'", "'") == "2895256966"
  {
    var digits := "2895256966";
    assert digits + "'" == "2895256966'";
    RemoveAllSkip(digits, "'", "'");
    assert RemoveAll("'", "'") == "";
    assert digits + "" == digits;
  }

  lemma ExampleResidue()
    ensures Residue("RecordId='2895256966'") == "2895256966"
  {
    ExampleStripPrefix();
    ExampleStripQuote();
  }

  /** The tokens of the bookmark list shown in the original comments. */
  const ExampleTokens: seq<string> :=
    ["<Bookmark", "Channel='ForwardedEvents'", "RecordId='2895256966'", "IsCurrent='true'/>"]

  // The example lemmas take their strings as parameters so that the
  // verifier does not unfold the string functions on literals.

  lemma ExampleRecordIdToken(t: string)
    requires t == "RecordId='2895256966'"
    ensures IsRecordIdToken(t)
  {
    TrimUnchanged(t);
    assert t[..|RecordIdPrefix|] == RecordIdPrefix;
  }

  lemma ExampleLastToken(t: string)
    requires t == "IsCurrent='true'/>"
    ensures !IsRecordIdToken(t)
  {
    TrimUnchanged(t);
    assert t[0] != RecordIdPrefix[0];
  }

  lemma ExampleSpaceFree()
    ensures forall i :: 0 <= i < |ExampleTokens| ==> ' ' !in ExampleTokens[i]
  {
    assert ' ' !in ExampleTokens[0] && ' ' !in ExampleTokens[1];
    assert ' ' !in ExampleTokens[2] && ' ' !in ExampleTokens[3];
  }

  lemma ExampleTokenFacts()
    ensures forall i :: 0 <= i < |ExampleTokens| ==> ' ' !in ExampleTokens[i]
    ensures IsRecordIdToken(ExampleTokens[2]) && !IsRecordIdToken(ExampleTokens[3])
  {
    ExampleSpaceFree();
    ExampleRecordIdToken(ExampleTokens[2]);
    ExampleLastToken(ExampleTokens[3]);
  }

  /** That bookmark list yields record id 2895256966. */
  lemma ExampleBookmark()
    ensures RecordIdOf(Join(ExampleTokens, ' ')) == 2895256966
  {
    ExampleTokenFacts();
    FoundLastToken(ExampleTokens, 2);
    ExampleResidue();
    ExampleDigits();
    ParseFormat(2895256966);
    RecordIdOfFound(Join(ExampleTokens, ' '), FormatULong(2895256966));
  }
}
