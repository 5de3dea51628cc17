/**
 * The two parsers of a classifier answer agree on every answer written in
 * the format the classifier asks for, as long as no field spans a line
 * break: the fallback `parse_complex_llm_response` then returns exactly what
 * the strict `parse_llm_response` returns, which is the list of rendered
 * entries itself.
 */
module ParserAgreement {
  import opened Wrappers
  import opened Text
  import opened StrictParser
  import opened StrictFormat
  import opened ComplexParser

  /** The blocks of a formatted answer, one per entry. */
  function Renders(es: seq<Entry>): (r: seq<string>)
    ensures |r| == |es|
  {
    seq(|es|, i requires 0 <= i < |es| => Render(es[i]))
  }

  /** An entry the format carries on two lines. */
  predicate OnTwoLines(e: Entry) {
    Renderable(e) && '\n' !in e.text && '\n' !in e.tag
  }

  /** Cutting a formatted answer at its blank lines gives back the rendered blocks. */
  lemma {:induction false} SplitFormat(es: seq<Entry>)
    requires es != []
    requires forall k :: 0 <= k < |es| ==> Renderable(es[k])
    ensures Split(Format(es), BlankLine) == Renders(es)
  {
    var e := es[0];
    SplitRender(e);
    if |es| > 1 {
      var rest := es[1..];
      assert Format(es) == Render(e) + BlankLine + Format(rest);
      SplitRenderThen(e, Format(rest));
      forall k | 0 <= k < |rest| ensures Renderable(rest[k]) {
        assert rest[k] == es[k + 1];
      }
      SplitFormat(rest);
      RendersCons(es);
    }
  }

  lemma RendersCons(es: seq<Entry>)
    requires es != []
    ensures Renders(es) == [Render(es[0])] + Renders(es[1..])
  {
  }

  /** A rendered block holds no blank line. */
  lemma SplitRender(e: Entry)
    requires Renderable(e)
    ensures Split(Render(e), BlankLine) == [Render(e)]
  {
    var a := Render(e);
    NoBlankLineInRender(e.text, e.tag, a);
  }

  /** A rendered block followed by a blank line is cut off as one piece. */
  lemma SplitRenderThen(e: Entry, rest: string)
    requires Renderable(e)
    ensures Split(Render(e) + BlankLine + rest, BlankLine) == [Render(e)] + Split(rest, BlankLine)
  {
    var a := Render(e);
    SplitRender(e);
    RenderStripped(e.text, e.tag, a);
    forall j | 0 <= j < |a| < j + |BlankLine| ensures !OccursAt(a + BlankLine, BlankLine, j) {
      assert (a + BlankLine)[j] == a[|a| - 1];
      MismatchAt(a + BlankLine, BlankLine, j, 0);
    }
    SplitAppend(a, BlankLine, rest);
  }

  /** The two lines of a rendered block. */
  function TextLine(t: string): string { TextHead + t + "\"" }
  function TagLine(g: string): string { "tag: " + g }

  lemma SplitSingleLine(l: string)
    requires '\n' !in l
    ensures Split(l, LineBreak) == [l]
  {
    AbsentCharNotContained(l, LineBreak, 0);
  }

  lemma LinesOfRender(t: string, g: string, s: string)
    requires s == TextHead + t + TagHead + g
    requires IsWords(g) && '\n' !in t && '\n' !in g
    ensures Strip(s) == s != []
    ensures Split(s, LineBreak) == [TextLine(t), TagLine(g)]
  {
    RenderStripped(t, g, s);
    StripFacts(s);
    assert s == TextLine(t) + LineBreak + TagLine(g);
    SplitAppend(TextLine(t), LineBreak, TagLine(g));
    LinesAreSingle(t, g);
  }

  lemma LinesAreSingle(t: string, g: string)
    requires '\n' !in t && '\n' !in g
    ensures Split(TextLine(t), LineBreak) == [TextLine(t)]
    ensures Split(TagLine(g), LineBreak) == [TagLine(g)]
  {
    var l1, l2 := TextLine(t), TagLine(g);
    forall k | 0 <= k < |l1| ensures l1[k] != '\n' {
      if 7 <= k < 7 + |t| {
        assert l1[k] == t[k - 7];
      }
    }
    forall k | 0 <= k < |l2| ensures l2[k] != '\n' {
      if 5 <= k {
        assert l2[k] == g[k - 5];
      }
    }
    SplitSingleLine(l1);
    SplitSingleLine(l2);
  }

  lemma MarkedLinesOfRender(t: string, g: string)
    requires IsWords(g)
    ensures LastWith([TextLine(t), TagLine(g)], "text:") == Some(TextLine(t))
    ensures LastWith([TextLine(t), TagLine(g)], "tag:") == Some(TagLine(g))
  {
    var l1, l2 := TextLine(t), TagLine(g);
    TextLineMarked(t);
    TagLineMarked(g);
    LastWithOfTwo(l1, l2, "text:");
    LastWithOfTwo(l1, l2, "tag:");
  }

  /** `LastWith` on two lines: the second when it is marked, else the first. */
  lemma LastWithOfTwo(l1: string, l2: string, p: string)
    ensures LastWith([l1, l2], p)
        == if StartsWith(Strip(l2), p) then Some(Strip(l2))
           else if StartsWith(Strip(l1), p) then Some(Strip(l1))
           else None
  {
    var two := [l1, l2];
    assert two[1] == l2 && two[0] == l1;
    if !StartsWith(Strip(l2), p) {
      assert LastWith(two, p) == LastWithin(two, p, 1);
    }
  }

  lemma TextLineMarked(t: string)
    ensures var l := TextLine(t); Strip(l) == l && StartsWith(l, "text:")
  {
    var l := TextLine(t);
    assert l[0] == 't' && l[|l| - 1] == '"';
    StripFacts(l);
    assert l[..5] == "text:";
  }

  lemma TagLineMarked(g: string)
    requires IsWords(g)
    ensures var l := TagLine(g); Strip(l) == l && StartsWith(l, "tag:") && !StartsWith(l, "text:")
  {
    var l := TagLine(g);
    assert l[|l| - 1] == g[|g| - 1] && !IsSpace(g[|g| - 1]);
    assert l[0] == 't';
    StripFacts(l);
    MismatchAt(l, "text:", 0, 1);
    assert l[..4] == "tag:";
  }

  lemma FieldsOfRender(t: string, g: string)
    requires IsWords(g)
    ensures Unquote(Strip(TextLine(t)[5..])) == t
    ensures Strip(TagLine(g)[4..]) == g
  {
    TextFieldOfLine(t);
    TagFieldOfLine(g);
  }

  lemma TextFieldOfLine(t: string)
    ensures Unquote(Strip(TextLine(t)[5..])) == t
  {
    var q := "\"" + t + "\"";
    assert TextLine(t)[5..] == " " + q;
    StripAfterSpace(q);
    assert q[1..|q| - 1] == t;
  }

  lemma TagFieldOfLine(g: string)
    requires IsWords(g)
    ensures Strip(TagLine(g)[4..]) == g
  {
    assert TagLine(g)[4..] == " " + g;
    assert !IsSpace(g[0]) && !IsSpace(g[|g| - 1]);
    StripAfterSpace(g);
  }

  lemma ComplexOfRender(t: string, g: string)
    requires IsWords(g) && '\n' !in t && '\n' !in g
    ensures ComplexBlockEntry(Render(Entry(t, g))) == Some(Entry(t, g))
  {
    var s := Render(Entry(t, g));
    LinesOfRender(t, g, s);
    ComplexOfLines(t, g, s);
  }

  lemma ComplexOfLines(t: string, g: string, s: string)
    requires IsWords(g)
    requires Strip(s) == s != [] && Split(s, LineBreak) == [TextLine(t), TagLine(g)]
    ensures ComplexBlockEntry(s) == Some(Entry(t, g))
  {
    MarkedLinesOfRender(t, g);
    FieldsOfRender(t, g);
    ComplexBlockEntryOf(s, TextLine(t), TagLine(g));
  }

  lemma RendersSnoc(es: seq<Entry>)
    requires es != []
    ensures Renders(es) == Renders(es[..|es| - 1]) + [Render(es[|es| - 1])]
  {
    assert Renders(es)[..|es| - 1] == Renders(es[..|es| - 1]);
  }

  lemma ComplexCollectSnoc(blocks: seq<string>, last: string, e: Entry)
    requires ComplexBlockEntry(last) == Some(e)
    ensures ComplexCollect(blocks + [last]) == ComplexCollect(blocks) + [e]
  {
    assert (blocks + [last])[..|blocks|] == blocks;
  }

  lemma {:induction false} ComplexCollectRenders(es: seq<Entry>)
    requires forall k :: 0 <= k < |es| ==> OnTwoLines(es[k])
    ensures ComplexCollect(Renders(es)) == es
    decreases |es|
  {
    if es != [] {
      var n := |es|;
      var front, e := es[..n - 1], es[n - 1];
      assert OnTwoLines(e);
      forall k | 0 <= k < |front| ensures OnTwoLines(front[k]) {
        assert front[k] == es[k];
      }
      ComplexCollectRenders(front);
      ComplexOfRender(e.text, e.tag);
      RendersSnoc(es);
      ComplexCollectSnoc(Renders(front), Render(e), e);
      Snoc(es);
    }
  }

  lemma Snoc<T>(s: seq<T>)
    requires s != []
    ensures s == s[..|s| - 1] + [s[|s| - 1]]
  {
  }

  /** On an answer in the requested format whose fields each fit on one line,
      the fallback parser returns the entries the answer was formatted from,
      which is also what the strict parser returns. */
  lemma FormatAgreement(es: seq<Entry>)
    requires forall k :: 0 <= k < |es| ==> OnTwoLines(es[k])
    ensures ComplexEntries(Format(es)) == es
    ensures StrictEntries(Format(es)) == es
  {
    FormatParses(es);
    if es == [] {
      assert Split("", BlankLine) == [""];
      StripFacts("");
      assert ComplexBlockEntry("").None?;
      assert [""][..0] == [];
    } else {
      SplitFormat(es);
      ComplexCollectRenders(es);
    }
  }
}
