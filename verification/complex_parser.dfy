/**
 * The fallback parser `parse_complex_llm_response` of
 * jassist/voice_diary/route_transcription/route_transcription.py.
 *
 * The answer is cut at every blank line; a block counts when, stripped, it
 * has at least two lines. Within a block the last stripped line starting with
 * `text:` and the last one starting with `tag:` are kept; the text is what
 * follows `text:`, stripped and with one pair of surrounding double quotes
 * removed, and the tag is what follows `tag:`, stripped.
 */
module ComplexParser {
  import opened Wrappers
  import opened Text
  import opened StrictParser

  const LineBreak: string := "\n"

  /** The last stripped line among the first `n` lines that starts with `p`. */
  function LastWithin(lines: seq<string>, p: string, n: nat): (r: Option<string>)
    requires n <= |lines|
    ensures r.Some? ==> StartsWith(r.value, p)
  {
    if n == 0 then None
    else if StartsWith(Strip(lines[n - 1]), p) then Some(Strip(lines[n - 1]))
    else LastWithin(lines, p, n - 1)
  }

  /** The last stripped line of `lines` that starts with `p`. */
  function LastWith(lines: seq<string>, p: string): (r: Option<string>)
    ensures r.Some? ==> StartsWith(r.value, p)
  {
    LastWithin(lines, p, |lines|)
  }

  /** `text_content[1:-1]` when the content both starts and ends with a
      double quote (a lone quote gives the empty string), else the content. */
  function Unquote(c: string): (r: string)
    ensures |r| <= |c|
  {
    if c != [] && c[0] == '"' && c[|c| - 1] == '"' then
      (if |c| >= 2 then c[1..|c| - 1] else [])
    else c
  }

  /** Unquoting removes exactly one pair of surrounding double quotes: put
      back, they give the content again; content not enclosed in a pair is
      left as it is. */
  lemma UnquoteInverse(c: string)
    ensures |c| >= 2 && c[0] == '"' && c[|c| - 1] == '"' ==> "\"" + Unquote(c) + "\"" == c
    ensures |c| >= 2 && c[0] == '"' && c[|c| - 1] == '"' ==> |Unquote(c)| == |c| - 2
    ensures !(c != [] && c[0] == '"' && c[|c| - 1] == '"') ==> Unquote(c) == c
    ensures c == "\"" ==> Unquote(c) == []
  {
    if |c| >= 2 && c[0] == '"' && c[|c| - 1] == '"' {
      assert c == [c[0]] + c[1..|c| - 1] + [c[|c| - 1]];
    }
  }

  /** The entry one block contributes (lines 251-281). */
  function ComplexBlockEntry(block: string): (r: Option<Entry>)
  {
    var b := Strip(block);
    if b == [] then None
    else
      var lines := Split(b, LineBreak);
      if |lines| < 2 then None
      else match (LastWith(lines, "text:"), LastWith(lines, "tag:"))
        case (Some(tl), Some(gl)) => Some(Entry(Unquote(Strip(tl[5..])), Strip(gl[4..])))
        case _ => None
  }

  lemma ComplexBlockEntryOf(block: string, tl: string, gl: string)
    requires Strip(block) == block != [] && |Split(block, LineBreak)| >= 2
    requires LastWith(Split(block, LineBreak), "text:") == Some(tl)
    requires LastWith(Split(block, LineBreak), "tag:") == Some(gl)
    ensures ComplexBlockEntry(block) == Some(Entry(Unquote(Strip(tl[5..])), Strip(gl[4..])))
  {
  }

  /** What one block adds to the list: its entry, if any. */
  function BlockEntries(block: string): (r: seq<Entry>)
    ensures |r| <= 1 && forall k :: 0 <= k < |r| ==> ComplexShape(r[k])
  {
    var found := ComplexBlockEntry(block);
    if found.None? then []
    else
      ComplexEntryShape(block, found.value);
      [found.value]
  }

  function ComplexCollect(blocks: seq<string>): (r: seq<Entry>)
    ensures |r| <= |blocks|
    ensures forall k :: 0 <= k < |r| ==> ComplexShape(r[k])
  {
    if blocks == [] then []
    else ComplexCollect(blocks[..|blocks| - 1]) + BlockEntries(blocks[|blocks| - 1])
  }

  /** What `parse_complex_llm_response(response)` returns. */
  function ComplexEntries(response: string): seq<Entry> {
    ComplexCollect(Split(response, BlankLine))
  }

  lemma ComplexCollectStep(blocks: seq<string>, i: nat)
    requires i < |blocks|
    ensures ComplexCollect(blocks[..i + 1]) == ComplexCollect(blocks[..i]) + BlockEntries(blocks[i])
  {
    assert blocks[..i + 1][..i] == blocks[..i];
  }

  lemma TextLineIsNoTagLine(line: string)
    requires StartsWith(line, "text:")
    ensures !StartsWith(line, "tag:")
  {
    assert line[1] == "text:"[1];
  }

  /** The inner loop of lines 262-267: every stripped line starting with
      `text:` (or else with `tag:`) replaces the one kept before it. */
  method MarkedLines(lines: seq<string>) returns (textLine: Option<string>, tagLine: Option<string>)
    ensures textLine == LastWith(lines, "text:")
    ensures tagLine == LastWith(lines, "tag:")
  {
    textLine, tagLine := None, None;
    for j := 0 to |lines|
      invariant textLine == LastWithin(lines, "text:", j)
      invariant tagLine == LastWithin(lines, "tag:", j)
    {
      var line := Strip(lines[j]);
      if StartsWith(line, "text:") {
        TextLineIsNoTagLine(line);
        textLine := Some(line);
      } else if StartsWith(line, "tag:") {
        tagLine := Some(line);
      }
    }
  }

  /** `parse_complex_llm_response`: a loop over the blocks and, inside it, a
      loop over the lines of each block. */
  method ParseComplexLlmResponse(response: string) returns (entries: seq<Entry>)
    ensures entries == ComplexEntries(response)
    ensures |entries| <= |Split(response, BlankLine)|
    ensures forall k :: 0 <= k < |entries| ==> ComplexShape(entries[k])
  {
    var blocks := Split(response, BlankLine);
    entries := [];
    for i := 0 to |blocks|
      invariant entries == ComplexCollect(blocks[..i])
    {
      ComplexCollectStep(blocks, i);
      var found := ReadBlock(blocks[i]);
      entries := entries + found;
    }
    assert blocks[..|blocks|] == blocks;
  }

  /** One turn of the outer loop (lines 251-281): the entry of one block, if any. */
  method ReadBlock(block: string) returns (found: seq<Entry>)
    ensures found == BlockEntries(block)
  {
    var b := Strip(block);
    if b == [] {
      BlockEntriesOf(block, None);
      return [];
    }
    var lines := Split(b, LineBreak);
    if |lines| < 2 {
      BlockEntriesOf(block, None);
      return [];
    }
    var textLine, tagLine := MarkedLines(lines);
    ComplexBlockEntryLines(block, b, lines);
    if textLine.Some? && tagLine.Some? {
      var textContent := StripQuotes(Strip(textLine.value[5..]));
      var tagValue := Strip(tagLine.value[4..]);
      BlockEntriesOf(block, Some(Entry(textContent, tagValue)));
      found := [Entry(textContent, tagValue)];
    } else {
      BlockEntriesOf(block, None);
      found := [];
    }
  }

  /** Lines 271-273: the surrounding double quotes of the text, if both are there. */
  method StripQuotes(content: string) returns (textContent: string)
    ensures textContent == Unquote(content)
  {
    textContent := content;
    if textContent != [] && textContent[0] == '"' && textContent[|textContent| - 1] == '"' {
      textContent := if |textContent| >= 2 then textContent[1..|textContent| - 1] else [];
    }
  }

  lemma ComplexBlockEntryLines(block: string, b: string, lines: seq<string>)
    requires b == Strip(block) && b != [] && lines == Split(b, LineBreak) && |lines| >= 2
    ensures ComplexBlockEntry(block)
        == match (LastWith(lines, "text:"), LastWith(lines, "tag:"))
           case (Some(tl), Some(gl)) => Some(Entry(Unquote(Strip(tl[5..])), Strip(gl[4..])))
           case _ => None
  {
  }

  lemma BlockEntriesOf(block: string, found: Option<Entry>)
    requires ComplexBlockEntry(block) == found
    ensures BlockEntries(block) == match found case Some(e) => [e] case None => []
  {
  }

  // ---------------------------------------------------------------------
  // Properties.

  /** Line `i` is the last stripped line among the first `n` that starts with `p`. */
  predicate LastIndexWithin(lines: seq<string>, p: string, i: int, n: nat) {
    && 0 <= i < n <= |lines|
    && StartsWith(Strip(lines[i]), p)
    && forall j :: i < j < n ==> !StartsWith(Strip(lines[j]), p)
  }

  /** Line `i` is the last stripped line that starts with `p`. */
  predicate LastIndexWith(lines: seq<string>, p: string, i: int) {
    LastIndexWithin(lines, p, i, |lines|)
  }

  lemma {:induction false} LastWithinAt(lines: seq<string>, p: string, i: int, n: nat)
    requires LastIndexWithin(lines, p, i, n)
    ensures LastWithin(lines, p, n) == Some(Strip(lines[i]))
    decreases n
  {
    if i < n - 1 {
      assert !StartsWith(Strip(lines[n - 1]), p);
      LastWithinAt(lines, p, i, n - 1);
    }
  }

  lemma {:induction false} LastWithinFound(lines: seq<string>, p: string, n: nat) returns (i: nat)
    requires n <= |lines| && LastWithin(lines, p, n).Some?
    ensures LastIndexWithin(lines, p, i, n) && Strip(lines[i]) == LastWithin(lines, p, n).value
    decreases n
  {
    if StartsWith(Strip(lines[n - 1]), p) {
      i := n - 1;
    } else {
      i := LastWithinFound(lines, p, n - 1);
    }
  }

  lemma LastWithFound(lines: seq<string>, p: string) returns (i: nat)
    requires LastWith(lines, p).Some?
    ensures LastIndexWith(lines, p, i) && Strip(lines[i]) == LastWith(lines, p).value
  {
    i := LastWithinFound(lines, p, |lines|);
  }

  /** The last line wins: the line kept for `p` is `l` exactly when `l` is
      the stripped form of a line that starts with `p` and no later stripped
      line starts with `p`. */
  lemma LastWithIff(lines: seq<string>, p: string, l: string)
    ensures LastWith(lines, p) == Some(l) <==> exists i :: LastIndexWith(lines, p, i) && Strip(lines[i]) == l
  {
    if LastWith(lines, p) == Some(l) {
      var i := LastWithFound(lines, p);
    }
    if exists i :: LastIndexWith(lines, p, i) && Strip(lines[i]) == l {
      var i :| LastIndexWith(lines, p, i) && Strip(lines[i]) == l;
      LastWithinAt(lines, p, i, |lines|);
    }
  }

  /** What every fallback entry satisfies: both fields lie within one line
      and the tag is stripped. */
  predicate ComplexShape(e: Entry) {
    '\n' !in e.text && '\n' !in e.tag && IsStripped(e.tag)
  }

  lemma SliceKeeps(s: string, lo: nat, hi: nat, c: char)
    requires lo <= hi <= |s|
    ensures c in s[lo..hi] ==> c in s
  {
    if c in s[lo..hi] {
      var k :| 0 <= k < hi - lo && s[lo..hi][k] == c;
      assert s[lo + k] == c;
    }
  }

  lemma ComplexEntryShape(block: string, e: Entry)
    requires ComplexBlockEntry(block) == Some(e)
    ensures ComplexShape(e)
  {
    var b := Strip(block);
    var lines := Split(b, LineBreak);
    ComplexBlockEntryLines(block, b, lines);
    SplitPieces(b, LineBreak);
    var tl, gl := LastWith(lines, "text:").value, LastWith(lines, "tag:").value;
    var i := LastWithFound(lines, "text:");
    var j := LastWithFound(lines, "tag:");
    FieldWithinLine(lines[i], 5);
    FieldWithinLine(lines[j], 4);
    var c := Strip(tl[5..]);
    if |c| >= 2 {
      SliceKeeps(c, 1, |c| - 1, '\n');
    }
    StripStripped(gl[4..]);
  }

  /** What follows a marker on a line of a block stays within that line. */
  lemma FieldWithinLine(line: string, k: nat)
    requires !Contains(line, LineBreak) && k <= |Strip(line)|
    ensures '\n' !in Strip(Strip(line)[k..])
  {
    var l := Strip(line);
    PresentCharContained(line, '\n');
    StripKeeps(line, '\n');
    SliceKeeps(l, k, |l|, '\n');
    StripKeeps(l[k..], '\n');
  }
}
