/**
 * The strict classifier-answer parser, `parse_llm_response` of
 * jassist/voice_diary/route_transcription/db_interactions.py.
 *
 * The answer is cut at every blank line ("\n\n"); each non-blank piece,
 * stripped, is a block. A block yields one entry when it holds both a
 * `text:\s*"([^"]*)"` match and a `tag:\s*(\w+(?:\s+\w+)*)` match (the
 * leftmost of each); any other block is dropped without error.
 */
module StrictParser {
  import opened Wrappers
  import opened Text

  /** One `{text, tag}` record produced by a parser. */
  datatype Entry = Entry(text: string, tag: string)

  const BlankLine: string := "\n\n"

  /** The stripped, non-blank pieces, in order (the list comprehension at line 29). */
  function NonBlank(pieces: seq<string>): (r: seq<string>)
    ensures |r| <= |pieces|
    ensures forall k :: 0 <= k < |r| ==> r[k] != [] && IsStripped(r[k])
  {
    if pieces == [] then []
    else (if Strip(pieces[0]) == [] then [] else [Strip(pieces[0])]) + NonBlank(pieces[1..])
  }

  function Blocks(response: string): seq<string> {
    NonBlank(Split(response, BlankLine))
  }

  // ---------------------------------------------------------------------
  // The two regular expressions, as explicit leftmost-match scans.

  /** `"([^"]*)"` anchored at `j`: the text up to the next double quote. */
  function QuotedAt(s: string, j: nat): (r: Option<string>)
    requires j <= |s|
    ensures r.Some? ==> '"' !in r.value
  {
    if j < |s| && s[j] == '"' then
      match FindChar(s, '"', j + 1)
      case Some(e) => Some(s[j + 1..e])
      case None => None
    else None
  }

  /** `text:\s*"([^"]*)"` anchored at `i`. */
  function TextFieldAt(s: string, i: nat): (r: Option<string>)
    requires i <= |s|
  {
    if OccursAt(s, "text:", i) then QuotedAt(s, SkipSpaces(s, i + 5)) else None
  }

  /** `re.search` of the text pattern from index `i` on: the leftmost match wins. */
  function TextSearchFrom(s: string, i: nat): (r: Option<string>)
    requires i <= |s| + 1
    ensures r.Some? ==> '"' !in r.value
    ensures r.Some? ==>
      exists j :: i <= j <= |s| && TextFieldAt(s, j) == r && forall k :: i <= k < j ==> TextFieldAt(s, k).None?
    ensures r.None? ==> forall j :: i <= j <= |s| ==> TextFieldAt(s, j).None?
    decreases |s| + 1 - i
  {
    if i > |s| then None
    else match TextFieldAt(s, i)
      case Some(t) => Some(t)
      case None => TextSearchFrom(s, i + 1)
  }

  /** The end of `\w+(?:\s+\w+)*` matched greedily from a word character at `j`. */
  function WordsEnd(s: string, j: nat): (e: nat)
    requires j < |s| && IsWordChar(s[j])
    ensures j < e <= |s|
    ensures IsWordChar(s[e - 1]) && (e == |s| || !IsWordChar(s[e]))
    ensures forall k :: j <= k < e ==> IsWordChar(s[k]) || IsSpace(s[k])
    decreases |s| - j
  {
    var w := SkipWord(s, j);
    var k := SkipSpaces(s, w);
    if w < k < |s| && IsWordChar(s[k]) then WordsEnd(s, k) else w
  }

  /** `tag:\s*(\w+(?:\s+\w+)*)` anchored at `i`. */
  function TagFieldAt(s: string, i: nat): (r: Option<string>)
    requires i <= |s|
  {
    if OccursAt(s, "tag:", i) then
      var j := SkipSpaces(s, i + 4);
      if j < |s| && IsWordChar(s[j]) then Some(s[j..WordsEnd(s, j)]) else None
    else None
  }

  /** A tag value as the tag pattern captures it: word characters in runs
      separated by whitespace, starting and ending with a word character. */
  predicate IsWords(g: string) {
    && g != []
    && IsWordChar(g[0]) && IsWordChar(g[|g| - 1])
    && forall k :: 0 <= k < |g| ==> IsWordChar(g[k]) || IsSpace(g[k])
  }

  lemma WordsStripLower(g: string)
    requires IsWords(g)
    ensures Strip(g) == g
    ensures IsWords(Lower(g)) && IsLower(Lower(g))
  {
    assert !IsSpace(g[0]) && !IsSpace(g[|g| - 1]);
    StripFacts(g);
    var l := Lower(g);
    assert IsWordChar(l[0]) && IsWordChar(l[|l| - 1]);
    forall k | 0 <= k < |l| ensures (IsWordChar(l[k]) || IsSpace(l[k])) && !IsUpper(l[k]) {
      assert l[k] == LowerChar(g[k]);
    }
  }

  /** `re.search` of the tag pattern from index `i` on: the leftmost match wins. */
  function TagSearchFrom(s: string, i: nat): (r: Option<string>)
    requires i <= |s| + 1
    ensures r.Some? ==> IsWords(r.value)
    ensures r.Some? ==>
      exists j :: i <= j <= |s| && TagFieldAt(s, j) == r && forall k :: i <= k < j ==> TagFieldAt(s, k).None?
    ensures r.None? ==> forall j :: i <= j <= |s| ==> TagFieldAt(s, j).None?
    decreases |s| + 1 - i
  {
    if i > |s| then None
    else match TagFieldAt(s, i)
      case Some(g) => Some(g)
      case None => TagSearchFrom(s, i + 1)
  }

  // ---------------------------------------------------------------------
  // Blocks and entries.

  /** What the strict parser promises of every entry it returns: the text has
      no double quote and is stripped; the tag is non-empty, lower-case words. */
  predicate StrictShape(e: Entry) {
    && '"' !in e.text
    && IsStripped(e.text)
    && IsWords(e.tag)
    && IsLower(e.tag)
  }

  /** The entry one block contributes (lines 33-43). */
  function BlockEntry(block: string): (r: Option<Entry>)
    ensures r.Some? ==> StrictShape(r.value)
  {
    match (TextSearchFrom(block, 0), TagSearchFrom(block, 0))
    case (Some(t), Some(g)) =>
      WordsStripLower(g);
      StripKeeps(t, '"');
      StripStripped(t);
      Some(Entry(Strip(t), Lower(Strip(g))))
    case _ => None
  }

  /** A block with both matches yields their stripped text and lower-cased tag. */
  lemma BlockEntryOf(block: string, t: string, g: string)
    requires TextSearchFrom(block, 0) == Some(t) && TagSearchFrom(block, 0) == Some(g)
    ensures BlockEntry(block) == Some(Entry(Strip(t), Lower(Strip(g))))
  {
  }

  /** The entries of a list of blocks, in block order. */
  function Collect(blocks: seq<string>): (r: seq<Entry>)
    ensures |r| <= |blocks|
    ensures forall k :: 0 <= k < |r| ==> StrictShape(r[k])
  {
    if blocks == [] then []
    else
      var last := blocks[|blocks| - 1];
      Collect(blocks[..|blocks| - 1]) + (match BlockEntry(last) case Some(e) => [e] case None => [])
  }

  lemma CollectStep(blocks: seq<string>, i: nat)
    requires i < |blocks|
    ensures Collect(blocks[..i + 1]) == Collect(blocks[..i]) + (match BlockEntry(blocks[i]) case Some(e) => [e] case None => [])
  {
    assert blocks[..i + 1][..i] == blocks[..i];
  }

  /** What `parse_llm_response(response)` returns. */
  function StrictEntries(response: string): seq<Entry> {
    Collect(Blocks(response))
  }

  /** `parse_llm_response`: a loop over the blocks appending one entry per
      block that matches both patterns. */
  method ParseLlmResponse(response: string) returns (entries: seq<Entry>)
    ensures entries == StrictEntries(response)
    ensures |entries| <= |Blocks(response)|
    ensures forall k :: 0 <= k < |entries| ==> StrictShape(entries[k])
  {
    var blocks := Blocks(response);
    entries := [];
    for i := 0 to |blocks|
      invariant entries == Collect(blocks[..i])
    {
      CollectStep(blocks, i);
      var textMatch := TextSearchFrom(blocks[i], 0);
      var tagMatch := TagSearchFrom(blocks[i], 0);
      if textMatch.Some? && tagMatch.Some? {
        entries := entries + [Entry(Strip(textMatch.value), Lower(Strip(tagMatch.value)))];
      }
    }
    assert blocks[..|blocks|] == blocks;
  }

  // ---------------------------------------------------------------------
  // Properties.

  /** A strict tag never holds a colon, so it never passes the
      `"text:" in tag and "tag:" in tag` multi-entry test again. */
  lemma StrictTagHasNoMarkers(e: Entry)
    requires StrictShape(e)
    ensures !Contains(e.tag, "text:") && !Contains(e.tag, "tag:")
  {
    assert ':' !in e.tag by {
      forall k | 0 <= k < |e.tag| ensures e.tag[k] != ':' {
        assert IsWordChar(e.tag[k]) || IsSpace(e.tag[k]);
      }
    }
    AbsentCharNotContained(e.tag, "text:", 4);
    AbsentCharNotContained(e.tag, "tag:", 3);
  }

  lemma {:induction false} NonBlankAppend(x: seq<string>, y: seq<string>)
    ensures NonBlank(x + y) == NonBlank(x) + NonBlank(y)
  {
    if x == [] {
      assert x + y == y;
    } else {
      var h := if Strip(x[0]) == [] then [] else [Strip(x[0])];
      assert (x + y)[1..] == x[1..] + y;
      assert (x + y)[0] == x[0];
      assert NonBlank(x + y) == h + NonBlank(x[1..] + y);
      NonBlankAppend(x[1..], y);
    }
  }

  lemma {:induction false} CollectAppend(x: seq<string>, y: seq<string>)
    ensures Collect(x + y) == Collect(x) + Collect(y)
    decreases |y|
  {
    if y == [] {
      assert x + y == x;
    } else {
      assert (x + y)[..|x + y| - 1] == x + y[..|y| - 1];
      CollectAppend(x, y[..|y| - 1]);
    }
  }

  /** Entries come out in the order of their blocks: the entries of two
      answers joined by a blank line are the entries of the first followed by
      those of the second (provided the first does not end in a line break,
      which would shift the blank line). */
  lemma StrictEntriesAppend(a: string, b: string)
    requires a == [] || a[|a| - 1] != '\n'
    ensures StrictEntries(a + BlankLine + b) == StrictEntries(a) + StrictEntries(b)
  {
    forall j | 0 <= j < |a| < j + |BlankLine| ensures !OccursAt(a + BlankLine, BlankLine, j) {
      assert j == |a| - 1;
      assert (a + BlankLine)[j] == a[|a| - 1];
    }
    SplitAppend(a, BlankLine, b);
    NonBlankAppend(Split(a, BlankLine), Split(b, BlankLine));
    CollectAppend(Blocks(a), Blocks(b));
  }
}
