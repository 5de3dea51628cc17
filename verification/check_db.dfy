/**
 * `format_transcription_records` of
 * jassist/voice_diary/transcribe/db/check_db.py: the text shown for the most
 * recent transcription rows, one block of lines per row.
 */
module CheckDb {
  import opened Wrappers
  import opened Text

  /** One `(id, filename, tag, created_at)` row; `createdAt` is the timestamp
      as `str()` renders it. */
  datatype TranscriptionRecord = TranscriptionRecord(id: int, filename: string, tag: Option<string>, createdAt: string)

  const NoRecordsMessage: string := "No records found in the database."

  /** Python's `s * n` for a one-character string `s`. */
  function Repeat(c: char, n: nat): (r: string)
    ensures |r| == n && forall k :: 0 <= k < n ==> r[k] == c
  {
    if n == 0 then [] else [c] + Repeat(c, n - 1)
  }

  /** The width of the separator line. */
  const DashWidth: nat := 50

  /** The separator line, `"-" * 50`. */
  const Dashes: string := Repeat('-', DashWidth)

  /** `str(tag)` for a tag that may be NULL. */
  function TagText(tag: Option<string>): string {
    match tag
    case None => "None"
    case Some(t) => t
  }

  /** Lines, each followed by a line break. */
  function Terminated(lines: seq<string>): string {
    if lines == [] then "" else lines[0] + "\n" + Terminated(lines[1..])
  }

  function IdLine(r: TranscriptionRecord): string { "ID: " + IntToString(r.id) }
  function FilenameLine(r: TranscriptionRecord): string { "Filename: " + r.filename }
  function TagLine(r: TranscriptionRecord): string { "Tag: " + TagText(r.tag) }
  function CreatedLine(r: TranscriptionRecord): string { "Created at: " + r.createdAt }

  /** The five lines shown for one row. */
  function RecordLines(r: TranscriptionRecord): (lines: seq<string>)
    ensures |lines| == 5 && lines[4] == Dashes
  {
    [IdLine(r), FilenameLine(r), TagLine(r), CreatedLine(r), Dashes]
  }

  /** Blocks of lines laid one after another. */
  function Concat(blocks: seq<seq<string>>): seq<string> {
    if blocks == [] then [] else Concat(blocks[..|blocks| - 1]) + blocks[|blocks| - 1]
  }

  /** Every block holds five lines. */
  predicate Fives(blocks: seq<seq<string>>) {
    forall k :: 0 <= k < |blocks| ==> |blocks[k]| == 5
  }

  /** The block of lines of each row, in order. */
  function Blocks(rs: seq<TranscriptionRecord>): (blocks: seq<seq<string>>)
    ensures |blocks| == |rs| && Fives(blocks)
    ensures forall k :: 0 <= k < |rs| ==> blocks[k] == RecordLines(rs[k])
  {
    seq(|rs|, k requires 0 <= k < |rs| => RecordLines(rs[k]))
  }

  /** The lines of every row, one block after another. */
  function AllRecordLines(rs: seq<TranscriptionRecord>): (lines: seq<string>)
    ensures |lines| == 5 * |rs|
  {
    ConcatLength(Blocks(rs));
    Concat(Blocks(rs))
  }

  /** The header lines: an empty line, the count, a dash line. */
  function HeaderLines(n: nat): seq<string> {
    ["", "Found " + NatToString(n) + " transcription records:", Dashes]
  }

  function OutputLines(rs: seq<TranscriptionRecord>): (lines: seq<string>)
    ensures |lines| == 3 + 5 * |rs|
  {
    HeaderLines(|rs|) + AllRecordLines(rs)
  }

  /** What the function returns for the rows it is given (None or a list). */
  function Formatted(records: Option<seq<TranscriptionRecord>>): (r: string)
    ensures (records.None? || records.value == []) <==> r == NoRecordsMessage
  {
    if records.None? || records.value == [] then NoRecordsMessage
    else
      var r := Terminated(OutputLines(records.value));
      assert r[0] == '\n' != NoRecordsMessage[0];
      r
  }

  lemma {:induction false} TerminatedAppend(a: seq<string>, b: seq<string>)
    ensures Terminated(a + b) == Terminated(a) + Terminated(b)
    decreases |a|
  {
    if a == [] {
      assert a + b == b;
    } else {
      assert (a + b)[1..] == a[1..] + b;
      TerminatedAppend(a[1..], b);
    }
  }

  /** The header's text, with the count's digits left abstract. */
  lemma HeaderTextOf(digits: string)
    ensures Terminated(["", "Found " + digits + " transcription records:", Dashes])
        == "\nFound " + digits + " transcription records:\n" + Dashes + "\n"
  {
    var count := "Found " + digits + " transcription records:";
    TerminatedThree("", count, Dashes);
    assert "" + "\n" == "\n";
    CountLineText(digits);
  }

  lemma TerminatedThree(a: string, b: string, c: string)
    ensures Terminated([a, b, c]) == a + "\n" + b + "\n" + c + "\n"
  {
    TerminatedSnoc([], a);
    TerminatedSnoc([a], b);
    TerminatedSnoc([a, b], c);
    assert [] + [a] == [a];
    assert [a] + [b] == [a, b];
    assert [a, b] + [c] == [a, b, c];
  }

  lemma CountLineText(digits: string)
    ensures "\n" + ("Found " + digits + " transcription records:") + "\n"
        == "\nFound " + digits + " transcription records:\n"
  {
    assert "\n" + "Found " == "\nFound ";
    assert " transcription records:" + "\n" == " transcription records:\n";
    Regroup("\n", "Found ", digits, " transcription records:", "\n");
  }

  lemma Regroup(a: string, b: string, c: string, d: string, e: string)
    ensures a + (b + c + d) + e == (a + b) + c + (d + e)
  {
  }

  lemma HeaderText(n: nat)
    ensures Terminated(HeaderLines(n)) == "\nFound " + NatToString(n) + " transcription records:\n" + Dashes + "\n"
  {
    HeaderTextOf(NatToString(n));
  }

  lemma TerminatedSnoc(lines: seq<string>, line: string)
    ensures Terminated(lines + [line]) == Terminated(lines) + line + "\n"
  {
    TerminatedAppend(lines, [line]);
    assert [line][1..] == [];
  }

  /** `format_transcription_records(records)`: the header, then one block per
      row, accumulated line by line. */
  method FormatTranscriptionRecords(records: Option<seq<TranscriptionRecord>>) returns (output: string)
    ensures output == Formatted(records)
  {
    if records.None? || records.value == [] {
      return NoRecordsMessage;
    }
    var rs := records.value;
    output := "\nFound " + NatToString(|rs|) + " transcription records:\n";
    output := output + Dashes + "\n";
    ghost var head := HeaderLines(|rs|);
    HeaderText(|rs|);
    assert rs[..0] == [] && AllRecordLines([]) == [];
    assert head + AllRecordLines(rs[..0]) == head;
    for i := 0 to |rs|
      invariant output == Terminated(head + AllRecordLines(rs[..i]))
    {
      var row := rs[i];
      output := output + IdLine(row) + "\n";
      output := output + FilenameLine(row) + "\n";
      output := output + TagLine(row) + "\n";
      output := output + CreatedLine(row) + "\n";
      output := output + Dashes + "\n";
      RecordText(head + AllRecordLines(rs[..i]), row);
      NextRow(rs, i);
      AppendAssociates(head, AllRecordLines(rs[..i]), RecordLines(row));
    }
    assert rs[..|rs|] == rs;
  }

  /** The rows up to `i + 1` show the lines of the rows up to `i`, then row `i`'s. */
  lemma NextRow(rs: seq<TranscriptionRecord>, i: nat)
    requires i < |rs|
    ensures AllRecordLines(rs[..i + 1]) == AllRecordLines(rs[..i]) + RecordLines(rs[i])
  {
    var bs := Blocks(rs[..i + 1]);
    assert bs[..i] == Blocks(rs[..i]);
    assert bs[i] == RecordLines(rs[i]);
  }

  /** One row's block appended to the text, line by line. */
  lemma RecordText(front: seq<string>, r: TranscriptionRecord)
    ensures Terminated(front + RecordLines(r))
        == Terminated(front) + IdLine(r) + "\n" + FilenameLine(r) + "\n" + TagLine(r) + "\n"
           + CreatedLine(r) + "\n" + Dashes + "\n"
  {
    TerminatedFive(front, IdLine(r), FilenameLine(r), TagLine(r), CreatedLine(r), Dashes);
  }

  lemma TerminatedFive(front: seq<string>, a: string, b: string, c: string, d: string, e: string)
    ensures Terminated(front + [a, b, c, d, e])
        == Terminated(front) + a + "\n" + b + "\n" + c + "\n" + d + "\n" + e + "\n"
  {
    TerminatedSnoc(front, a);
    TerminatedSnoc(front + [a], b);
    TerminatedSnoc(front + [a] + [b], c);
    TerminatedSnoc(front + [a] + [b] + [c], d);
    TerminatedSnoc(front + [a] + [b] + [c] + [d], e);
    assert front + [a, b, c, d, e] == front + [a] + [b] + [c] + [d] + [e];
  }

  lemma {:induction false} ConcatLength(blocks: seq<seq<string>>)
    requires Fives(blocks)
    ensures |Concat(blocks)| == 5 * |blocks|
    decreases |blocks|
  {
    if blocks != [] {
      ConcatLength(blocks[..|blocks| - 1]);
    }
  }

  /** Line `j` of block `k` is line `5 k + j` of the whole. */
  lemma {:induction false} ConcatAt(blocks: seq<seq<string>>, k: nat, j: nat)
    requires Fives(blocks) && k < |blocks| && j < 5
    ensures 5 * k + j < |Concat(blocks)| && Concat(blocks)[5 * k + j] == blocks[k][j]
    decreases |blocks|
  {
    var n := |blocks|;
    var front := blocks[..n - 1];
    ConcatLength(front);
    ConcatLength(blocks);
    if k < n - 1 {
      ConcatAt(front, k, j);
    }
  }

  /** A line that each block holds once is held `|blocks|` times by the whole. */
  lemma {:induction false} ConcatCount(blocks: seq<seq<string>>, line: string)
    requires forall k :: 0 <= k < |blocks| ==> multiset(blocks[k])[line] == 1
    ensures multiset(Concat(blocks))[line] == |blocks|
    decreases |blocks|
  {
    if blocks != [] {
      ConcatCount(blocks[..|blocks| - 1], line);
    }
  }

  // ---------------------------------------------------------------------
  // Properties.

  /** A field shown on one line. */
  predicate OneLine(s: string) {
    '\n' !in s
  }

  predicate OneLineFields(r: TranscriptionRecord) {
    OneLine(r.filename) && OneLine(TagText(r.tag)) && OneLine(r.createdAt)
  }

  lemma RecordLinesAt(rs: seq<TranscriptionRecord>, k: nat, j: nat)
    requires k < |rs| && j < 5
    ensures AllRecordLines(rs)[5 * k + j] == RecordLines(rs[k])[j]
  {
    ConcatAt(Blocks(rs), k, j);
  }

  lemma NoLineBreak(s: string)
    requires OneLine(s)
    ensures !Contains(s, "\n")
  {
    AbsentCharNotContained(s, "\n", 0);
  }

  /** A line made of a one-line label and a one-line field is one line. */
  lemma LabelledOneLine(caption: string, field: string)
    requires OneLine(caption) && OneLine(field)
    ensures OneLine(caption + field)
  {
  }

  lemma RecordLinesSingle(r: TranscriptionRecord)
    requires OneLineFields(r)
    ensures forall m :: 0 <= m < 5 ==> OneLine(RecordLines(r)[m])
  {
    LabelledOneLine("ID: ", IntToString(r.id));
    LabelledOneLine("Filename: ", r.filename);
    LabelledOneLine("Tag: ", TagText(r.tag));
    LabelledOneLine("Created at: ", r.createdAt);
    DashesOneLine();
    FiveSingle(IdLine(r), FilenameLine(r), TagLine(r), CreatedLine(r), Dashes);
  }

  lemma FiveSingle(a: string, b: string, c: string, d: string, e: string)
    requires OneLine(a) && OneLine(b) && OneLine(c) && OneLine(d) && OneLine(e)
    ensures forall m :: 0 <= m < 5 ==> OneLine([a, b, c, d, e][m])
  {
  }

  lemma DashesOneLine()
    ensures OneLine(Dashes)
  {
  }

  lemma DigitsOneLine(n: nat)
    ensures OneLine(NatToString(n))
  {
  }

  lemma HeaderLinesSingle(n: nat)
    ensures forall m :: 0 <= m < 3 ==> OneLine(HeaderLines(n)[m])
  {
    DigitsOneLine(n);
    LabelledOneLine("Found ", NatToString(n));
    LabelledOneLine("Found " + NatToString(n), " transcription records:");
    DashesOneLine();
  }

  /** Every shown line is a single line when the row's fields are. */
  lemma AllLinesSingle(rs: seq<TranscriptionRecord>)
    requires forall k :: 0 <= k < |rs| ==> OneLineFields(rs[k])
    ensures forall j :: 0 <= j < |OutputLines(rs)| ==> OneLine(OutputLines(rs)[j])
  {
    var lines := OutputLines(rs);
    forall j | 0 <= j < |lines| ensures OneLine(lines[j]) {
      if j >= 3 {
        var k := (j - 3) / 5;
        RecordLinesAt(rs, k, j - 3 - 5 * k);
        assert lines[j] == AllRecordLines(rs)[j - 3];
        RecordLinesSingle(rs[k]);
      } else {
        HeaderLinesSingle(|rs|);
      }
    }
  }

  lemma {:induction false} JoinTerminated(lines: seq<string>)
    ensures Join(lines + [""], "\n") == Terminated(lines)
    decreases |lines|
  {
    if lines != [] {
      assert (lines + [""])[1..] == lines[1..] + [""];
      JoinTerminated(lines[1..]);
    }
  }

  /** When no field holds a line break, the text splits into the header
      lines, five lines per row and a final empty piece after the last break. */
  lemma FormattedLines(rs: seq<TranscriptionRecord>)
    requires rs != []
    requires forall k :: 0 <= k < |rs| ==> OneLineFields(rs[k])
    ensures Split(Formatted(Some(rs)), "\n") == OutputLines(rs) + [""]
  {
    var parts := OutputLines(rs) + [""];
    AllLinesSingle(rs);
    forall j | 0 <= j < |parts| ensures !Contains(parts[j], "\n") {
      if j < |parts| - 1 {
        NoLineBreak(parts[j]);
      } else {
        NoLineBreak("");
      }
    }
    JoinTerminated(OutputLines(rs));
    SplitJoin(parts, "\n");
  }

  lemma RecordDashLines(r: TranscriptionRecord)
    ensures multiset(RecordLines(r))[Dashes] == 1
  {
    assert Dashes[0] == '-';
    OnlyLast(IdLine(r), FilenameLine(r), TagLine(r), CreatedLine(r), Dashes);
  }

  lemma OnlyLast(a: string, b: string, c: string, d: string, e: string)
    requires a != e && b != e && c != e && d != e
    ensures multiset([a, b, c, d, e])[e] == 1
  {
  }

  /** There are exactly `N + 1` dash lines: one under the header and one
      closing each row's block. */
  lemma DashLineCount(rs: seq<TranscriptionRecord>)
    ensures multiset(AllRecordLines(rs))[Dashes] == |rs|
    ensures multiset(OutputLines(rs))[Dashes] == |rs| + 1
  {
    var blocks := Blocks(rs);
    forall k | 0 <= k < |blocks| ensures multiset(blocks[k])[Dashes] == 1 {
      RecordDashLines(rs[k]);
    }
    ConcatCount(blocks, Dashes);
    var h := HeaderLines(|rs|);
    assert Dashes[0] == '-' && h[1][0] == 'F';
    OnlyLastOfThree(h[0], h[1], Dashes);
  }

  lemma OnlyLastOfThree(a: string, b: string, c: string)
    requires a != c && b != c
    ensures multiset([a, b, c])[c] == 1
  {
  }

  /** The text opens with the count line and a dash line. */
  lemma FormattedHeader(rs: seq<TranscriptionRecord>)
    requires rs != []
    ensures var head := "\nFound " + NatToString(|rs|) + " transcription records:\n" + Dashes + "\n";
      |head| <= |Formatted(Some(rs))| && Formatted(Some(rs))[..|head|] == head
  {
    HeaderText(|rs|);
    TerminatedAppend(HeaderLines(|rs|), AllRecordLines(rs));
  }
}
