/**
 * The answer format the classifier asks the language model for
 * (jassist/voice_diary/transcribe/classifier.py): one block per context,
 *
 *     text: "<text>"
 *     tag: <tag>
 *
 * with blocks separated by a blank line. The strict parser reads every
 * well-formed answer of this shape back into exactly the entries it renders.
 */
module StrictFormat {
  import opened Wrappers
  import opened Text
  import opened StrictParser

  const TextHead: string := "text: \""
  const TagHead: string := "\"\ntag: "

  /** One context in the requested format. */
  function Render(e: Entry): (s: string)
    ensures |s| == |e.text| + |e.tag| + 14
  {
    TextHead + e.text + TagHead + e.tag
  }

  /** All contexts, separated by blank lines. */
  function Format(es: seq<Entry>): string {
    if es == [] then ""
    else if |es| == 1 then Render(es[0])
    else Render(es[0]) + BlankLine + Format(es[1..])
  }

  /** An entry the format can carry unambiguously: the text has no double
      quote, is stripped and holds neither a blank line nor `tag:`; the tag
      is lower-case words holding no blank line. */
  predicate Renderable(e: Entry) {
    && StrictShape(e)
    && !Contains(e.text, BlankLine)
    && !Contains(e.text, "tag:")
    && !Contains(e.tag, BlankLine)
  }

  // ---------------------------------------------------------------------
  // The tag pattern on a rendered block.

  /** `\w+(?:\s+\w+)*` runs to the end of the string when the rest of it is words. */
  lemma {:induction false} WordsToEnd(s: string, j: nat)
    requires j < |s| && IsWords(s[j..])
    ensures WordsEnd(s, j) == |s|
    decreases |s| - j
  {
    assert forall k :: j <= k < |s| ==> s[k] == s[j..][k - j];
    var w := SkipWord(s, j);
    var k := SkipSpaces(s, w);
    if w < |s| {
      assert !IsWordChar(s[w]) && IsSpace(s[w]);
      assert w < k;
      assert IsWordChar(s[|s| - 1]) && !IsSpace(s[|s| - 1]);
      assert k < |s|;
      assert IsWordChar(s[k]);
      assert s[k..] == s[j..][k - j..];
      WordsToEnd(s, k);
    }
  }

  /** Scanning for `tag:` from `m` finds what scanning from `i` finds when
      no `tag:` starts in between. */
  lemma {:induction false} TagSearchSkips(s: string, m: nat, i: nat)
    requires m <= i <= |s|
    requires forall k :: m <= k < i ==> !OccursAt(s, "tag:", k)
    ensures TagSearchFrom(s, m) == TagSearchFrom(s, i)
    decreases i - m
  {
    if m < i {
      assert TagFieldAt(s, m).None?;
      TagSearchSkips(s, m + 1, i);
    }
  }

  /** Where each part of a rendered block sits. */
  lemma RenderLayout(t: string, g: string, s: string)
    requires s == TextHead + t + TagHead + g
    ensures forall k :: 0 <= k < 7 ==> s[k] == TextHead[k]
    ensures forall k :: 0 <= k < 7 ==> s[7 + |t| + k] == TagHead[k]
    ensures s[7..7 + |t|] == t && s[14 + |t|..] == g
  {
  }

  /** The first `tag:` of a rendered block is the one after the text. */
  lemma NoEarlyTag(t: string, g: string, s: string, k: nat)
    requires s == TextHead + t + TagHead + g
    requires !Contains(t, "tag:") && k < |t| + 9
    ensures !OccursAt(s, "tag:", k)
  {
    var n := |t|;
    RenderLayout(t, g, s);
    if k < 7 {
      if k == 0 || k == 3 {
        MismatchAt(s, "tag:", k, 1);
      } else {
        MismatchAt(s, "tag:", k, 0);
      }
    } else if k + 4 <= 7 + n {
      OccursAtSlice(s, "tag:", 7, 7 + n, k);
    } else if k <= 7 + n {
      assert s[7 + n] == TagHead[0];
      MismatchAt(s, "tag:", k, 7 + n - k);
    } else {
      assert s[k] == TagHead[1];
      MismatchAt(s, "tag:", k, 0);
    }
  }

  lemma TagOfRender(t: string, g: string, s: string)
    requires s == TextHead + t + TagHead + g
    requires !Contains(t, "tag:") && IsWords(g)
    ensures TagSearchFrom(s, 0) == Some(g)
  {
    var n := |t|;
    forall k | 0 <= k < n + 9 ensures !OccursAt(s, "tag:", k) {
      NoEarlyTag(t, g, s, k);
    }
    TagSearchSkips(s, 0, n + 9);
    TagFieldOfRender(t, g, s);
  }

  lemma TagFieldOfRender(t: string, g: string, s: string)
    requires s == TextHead + t + TagHead + g
    requires IsWords(g)
    ensures TagFieldAt(s, |t| + 9) == Some(g)
  {
    var n := |t|;
    RenderLayout(t, g, s);
    assert s[n + 9..n + 13] == TagHead[2..6] == "tag:";
    assert s[n + 13] == ' ';
    assert SkipSpaces(s, n + 13) == n + 14;
    WordsToEnd(s, n + 14);
    assert s[n + 14..|s|] == g;
  }

  // ---------------------------------------------------------------------
  // The text pattern on a rendered block.

  lemma TextOfRender(t: string, g: string, s: string)
    requires s == TextHead + t + TagHead + g
    requires '"' !in t
    ensures TextSearchFrom(s, 0) == Some(t)
  {
    var n := |t|;
    RenderLayout(t, g, s);
    assert s[..5] == TextHead[..5];
    assert s[5] == ' ' && s[6] == '"';
    assert SkipSpaces(s, 5) == 6;
    assert s[7 + n] == '"';
    forall k | 7 <= k < 7 + n ensures s[k] != '"' {
      assert s[k] == t[k - 7];
    }
    assert FindChar(s, '"', 7) == Some(7 + n);
  }

  // ---------------------------------------------------------------------
  // Blocks.

  lemma NoBlankLineInRender(t: string, g: string, s: string)
    requires s == TextHead + t + TagHead + g
    requires !Contains(t, BlankLine) && !Contains(g, BlankLine)
    requires t == [] || t[|t| - 1] != '\n'
    ensures !Contains(s, BlankLine)
  {
    forall i | 0 <= i && i + 2 <= |s| ensures !OccursAt(s, BlankLine, i) {
      NoBlankLineAt(t, g, s, i);
    }
  }

  /** No blank line starts at `i` in a rendered block. */
  lemma NoBlankLineAt(t: string, g: string, s: string, i: nat)
    requires s == TextHead + t + TagHead + g
    requires !Contains(t, BlankLine) && !Contains(g, BlankLine)
    requires t == [] || t[|t| - 1] != '\n'
    requires i + 2 <= |s|
    ensures !OccursAt(s, BlankLine, i)
  {
    var n := |t|;
    RenderLayout(t, g, s);
    if i < 7 {
      MismatchAt(s, BlankLine, i, 0);
    } else if i + 2 <= 7 + n {
      OccursAtSlice(s, BlankLine, 7, 7 + n, i);
    } else if i < 7 + n {
      assert s[i] == t[n - 1];
      MismatchAt(s, BlankLine, i, 0);
    } else if i == 8 + n {
      assert s[i + 1] == TagHead[2];
      MismatchAt(s, BlankLine, i, 1);
    } else if i < 14 + n {
      assert s[i] == TagHead[i - 7 - n];
      MismatchAt(s, BlankLine, i, 0);
    } else {
      OccursAtSlice(s, BlankLine, 14 + n, |s|, i);
      assert s[14 + n..|s|] == g;
    }
  }

  lemma BlocksOfRender(t: string, g: string, s: string)
    requires s == TextHead + t + TagHead + g
    requires !Contains(t, BlankLine) && !Contains(g, BlankLine)
    requires IsStripped(t) && IsWords(g)
    ensures Blocks(s) == [s]
  {
    assert t == [] || t[|t| - 1] != '\n';
    NoBlankLineInRender(t, g, s);
    assert Split(s, BlankLine) == [s];
    RenderStripped(t, g, s);
    NonBlankSingle(s);
  }

  /** A rendered block starts with `t` and ends with the last character of
      the tag, a word character: it is its own strip. */
  lemma RenderStripped(t: string, g: string, s: string)
    requires s == TextHead + t + TagHead + g
    requires IsWords(g)
    ensures s != [] && IsStripped(s)
    ensures IsWordChar(s[|s| - 1]) && s[|s| - 1] != '\n'
  {
    RenderLayout(t, g, s);
    assert s[0] == TextHead[0];
    assert s[|s| - 1] == g[|g| - 1];
    assert !IsSpace(g[|g| - 1]);
  }

  lemma NonBlankSingle(s: string)
    requires s != [] && IsStripped(s)
    ensures NonBlank([s]) == [s]
  {
    StripFacts(s);
    assert [s][1..] == [];
  }

  lemma BlockEntryOfRender(e: Entry)
    requires Renderable(e)
    ensures BlockEntry(Render(e)) == Some(e)
  {
    var s := Render(e);
    TextOfRender(e.text, e.tag, s);
    TagOfRender(e.text, e.tag, s);
    WordsStripLower(e.tag);
    StripFacts(e.text);
    LowerOfLower(e.tag);
    BlockEntryOf(s, e.text, e.tag);
  }

  /** A rendered context parses back to itself. */
  lemma RenderParses(e: Entry)
    requires Renderable(e)
    ensures StrictEntries(Render(e)) == [e]
  {
    BlocksOfRender(e.text, e.tag, Render(e));
    BlockEntryOfRender(e);
    assert [Render(e)][..0] == [];
  }

  /** Round trip: the strict parser reads a formatted answer back into the
      entries it was formatted from, in order. */
  lemma {:induction false} FormatParses(es: seq<Entry>)
    requires forall k :: 0 <= k < |es| ==> Renderable(es[k])
    ensures StrictEntries(Format(es)) == es
  {
    if es == [] {
      assert Split("", BlankLine) == [""];
      StripFacts("");
    } else if |es| == 1 {
      RenderParses(es[0]);
    } else {
      var s := Render(es[0]);
      assert s[|s| - 1] == es[0].tag[|es[0].tag| - 1];
      StrictEntriesAppend(s, Format(es[1..]));
      RenderParses(es[0]);
      FormatParses(es[1..]);
    }
  }
}
