/**
 * The HTML the report emits: source lines prefixed with anchors (`highlight_file`),
 * the inline note for one issue (`make_issue_note`), and the per-file issue table
 * whose links point at those anchors (`write_issue_table_for_file`).
 */
module Render {
  import opened Wrappers
  import opened Firehose
  import opened Compare
  import opened Sorting
  import opened Issues
  import opened Seqs

  /** The decimal digit for `d`. */
  function DigitChar(d: nat): (c: char)
    requires d < 10
    ensures '0' <= c <= '9' && c as int - '0' as int == d
  {
    ('0' as int + d) as char
  }

  /** `s` consists of decimal digits. */
  predicate IsDigits(s: string)
  {
    forall k :: 0 <= k < |s| ==> '0' <= s[k] <= '9'
  }

  /** The decimal numeral of `n`, without leading zeros, as `'%i' % n` prints it. */
  function NatToString(n: nat): (s: string)
    ensures s != [] && IsDigits(s)
    ensures |s| == 1 || s[0] != '0'
  {
    if n < 10 then [DigitChar(n)] else NatToString(n / 10) + [DigitChar(n % 10)]
  }

  /** `'%i' % i`: a minus sign before negative numbers. */
  function IntToString(i: int): (r: string)
    ensures r != [] && (r[0] == '-' <==> i < 0)
  {
    if i < 0 then "-" + NatToString(-i) else NatToString(i)
  }

  /** The value of a string of decimal digits. */
  function DecimalValue(s: string): nat
    requires IsDigits(s)
  {
    if s == [] then 0
    else DecimalValue(s[..|s| - 1]) * 10 + (s[|s| - 1] as int - '0' as int)
  }

  /** Reading a printed integer back, the partner of `IntToString`. */
  function ParseInt(s: string): Option<int>
  {
    if s == [] then None
    else if s[0] == '-' then
      if s[1..] != [] && IsDigits(s[1..]) then Some(0 - DecimalValue(s[1..])) else None
    else if IsDigits(s) then Some(DecimalValue(s)) else None
  }

  lemma {:induction false} NatToStringRoundTrip(n: nat)
    ensures DecimalValue(NatToString(n)) == n
  {
    if n >= 10 {
      NatToStringRoundTrip(n / 10);
      var s := NatToString(n);
      assert s[..|s| - 1] == NatToString(n / 10);
    }
  }

  lemma IntToStringRoundTrip(i: int)
    ensures ParseInt(IntToString(i)) == Some(i)
  {
    if i < 0 {
      var digits := NatToString(-i);
      NatToStringRoundTrip(-i);
      ParseNegative(digits);
      assert IntToString(i) == "-" + digits;
    } else {
      var digits := NatToString(i);
      NatToStringRoundTrip(i);
      ParseNonNegative(digits);
      assert IntToString(i) == digits;
    }
  }

  lemma ParseNonNegative(s: string)
    requires s != [] && IsDigits(s)
    ensures ParseInt(s) == Some(DecimalValue(s))
  {
    assert '0' <= s[0] <= '9';
  }

  lemma ParseNegative(digits: string)
    requires digits != [] && IsDigits(digits)
    ensures ParseInt("-" + digits) == Some(0 - DecimalValue(digits))
  {
    assert ("-" + digits)[1..] == digits;
  }

  /** Distinct integers print differently. */
  lemma IntToStringInjective(i: int, j: int)
    ensures IntToString(i) == IntToString(j) ==> i == j
  {
    IntToStringRoundTrip(i);
    IntToStringRoundTrip(j);
  }

  /** The anchor name of line `n` of the file whose content has digest `digest`. */
  function AnchorId(digest: string, n: int): string
  {
    "file-" + digest + "-line-" + IntToString(n)
  }

  /** An anchor name starts with the file's prefix, and the line number reads back from the rest. */
  lemma AnchorIdReadsBack(digest: string, n: int)
    ensures StartsWith(AnchorId(digest, n), "file-" + digest + "-line-")
    ensures ParseInt(AnchorId(digest, n)[|"file-" + digest + "-line-"|..]) == Some(n)
  {
    IntToStringRoundTrip(n);
    SuffixOfConcat("file-" + digest + "-line-", IntToString(n));
  }

  /** The anchor element `highlight_file` puts before line `n`. */
  function AnchorTag(digest: string, n: int): string
  {
    "<a id=\"" + AnchorId(digest, n) + "\"/>"
  }

  /** The anchors of one file name their lines apart. */
  lemma AnchorTagInjective(digest: string, m: int, n: int)
    requires AnchorTag(digest, m) == AnchorTag(digest, n)
    ensures m == n
  {
    CancelAround("<a id=\"", AnchorId(digest, m), AnchorId(digest, n), "\"/>");
    CancelPrefix("file-" + digest + "-line-", IntToString(m), IntToString(n));
    IntToStringInjective(m, n);
  }

  /** Line `n` (1-based) of the highlighted output with its anchor. */
  function AnchoredLine(digest: string, n: int, line: string): string
  {
    AnchorTag(digest, n) + line + "\n"
  }

  /** `AnchoredLine` for the lines of the file with digest `digest`. */
  function LineAnchorer(digest: string): (nat, string) -> string
  {
    (n: nat, line: string) => AnchoredLine(digest, n, line)
  }

  /** The highlighted lines, numbered from 1, each with its anchor and a newline. */
  function Anchored(digest: string, lines: seq<string>): string
  {
    Flatten(Numbered(LineAnchorer(digest), lines))
  }

  /** No lines give no output; otherwise the output ends with the last line and its newline. */
  lemma AnchoredEnd(digest: string, lines: seq<string>)
    ensures lines == [] ==> Anchored(digest, lines) == ""
    ensures lines != [] ==> EndsWith(Anchored(digest, lines), lines[|lines| - 1] + "\n")
  {
    var blocks := Numbered(LineAnchorer(digest), lines);
    if lines != [] {
      var last := blocks[|blocks| - 1];
      assert last == AnchorTag(digest, |lines|) + (lines[|lines| - 1] + "\n");
      EndsWithConcat(Flatten(blocks[..|blocks| - 1]), last);
      EndsWithShorter(Flatten(blocks), AnchorTag(digest, |lines|), lines[|lines| - 1] + "\n");
    }
  }

  /** One more line adds its anchored piece at the end. */
  lemma AnchoredSnoc(digest: string, lines: seq<string>, i: nat)
    requires i < |lines|
    ensures Anchored(digest, lines[..i + 1]) == Anchored(digest, lines[..i]) + AnchoredLine(digest, i + 1, lines[i])
  {
    var f := LineAnchorer(digest);
    NumberedSnoc(f, lines, i);
    FlattenSnoc(Numbered(f, lines[..i]), f(i + 1, lines[i]));
  }

  /**
   * In the output, line `n` starts right after the output of the lines before it, with the
   * anchor named by `n` and followed by the line itself.
   */
  lemma AnchoredLineAt(digest: string, lines: seq<string>, n: int)
    requires 1 <= n <= |lines|
    ensures var out := Anchored(digest, lines);
      var off := |Anchored(digest, lines[..n - 1])|;
      var piece := AnchoredLine(digest, n, lines[n - 1]);
      off + |piece| <= |out| && out[off..off + |piece|] == piece
  {
    NumberedBlockAt(LineAnchorer(digest), lines, n);
  }

  /**
   * `SourceHighlighter.highlight_file`: nothing for a missing file; otherwise each line of
   * the highlighter's output, prefixed with its anchor. `highlighted` stands for
   * `self.highlight(code).splitlines()` of the file's content.
   */
  method HighlightFile(file_: Option<File>, highlighted: seq<string>) returns (result: string)
    ensures file_.None? ==> result == ""
    ensures file_.Some? ==> result == Anchored(file_.value.hexdigest, highlighted)
  {
    if file_.None? {
      return "";
    }
    var digest := file_.value.hexdigest;
    result := "";
    var i := 0;
    while i < |highlighted|
      invariant 0 <= i <= |highlighted|
      invariant result == Anchored(digest, highlighted[..i])
    {
      var line := highlighted[i];
      ghost var before := result;
      result := result + AnchorTag(digest, i + 1);
      result := result + line;
      result := result + "\n";
      assert result == before + AnchoredLine(digest, i + 1, line);
      AnchoredSnoc(digest, highlighted, i);
      i := i + 1;
    }
    assert highlighted[..i] == highlighted;
  }

  const NoteOpen: string := "<div class=\"inline-error-report\">"
  const NoteClose: string := "</div>"
  const NotesDivOpen: string := "   <div class=\"inline-error-report-notes\">"
  const TraceTodo: string := "<p>TODO: a detailed trace is available in the data model (not yet rendered in this report)</p>"

  function MessageDiv(text: string): string
  {
    "   <div class=\"inline-error-report-message\">" + text + "</div>"
  }

  function NotesDiv(text: string): string
  {
    NotesDivOpen + text + "</div>"
  }

  function GeneratorDiv(name: string): string
  {
    "   <div class=\"inline-error-report-generator\">(emitted by " + name + ")</div>"
  }

  /**
   * `make_issue_note`: the inline report for one issue. It opens with the message, shows
   * the notes div right after it exactly when the issue has notes, names the generator,
   * and carries the trace placeholder at its end exactly when the issue has a trace.
   */
  method MakeIssueNote(ai: AnalysisIssue) returns (html: string)
    ensures StartsWith(html, NoteOpen + MessageDiv(ai.Message()))
    ensures EndsWith(html, NoteClose)
    ensures ai.Notes().Some? <==> StartsWith(html[|NoteOpen + MessageDiv(ai.Message())|..], NotesDivOpen)
    ensures ai.Notes().Some? ==> StartsWith(html[|NoteOpen + MessageDiv(ai.Message())|..], NotesDiv(ai.Notes().value))
    ensures ai.Notes().Some? ==>
      StartsWith(html[|NoteOpen + MessageDiv(ai.Message())| + |NotesDiv(ai.Notes().value)|..], GeneratorDiv(ai.Generator().name))
    ensures ai.Notes().None? ==> StartsWith(html[|NoteOpen + MessageDiv(ai.Message())|..], GeneratorDiv(ai.Generator().name))
    ensures ai.TraceOf().Some? <==> EndsWith(html, TraceTodo + NoteClose)
    ensures ai.TraceOf().Some? ==> EndsWith(html, GeneratorDiv(ai.Generator().name) + TraceTodo + NoteClose)
    ensures ai.TraceOf().None? ==> EndsWith(html, GeneratorDiv(ai.Generator().name) + NoteClose)
    ensures |html| == |NoteOpen + MessageDiv(ai.Message())|
      + (if ai.Notes().Some? then |NotesDiv(ai.Notes().value)| else 0)
      + |GeneratorDiv(ai.Generator().name)|
      + (if ai.TraceOf().Some? then |TraceTodo| else 0) + |NoteClose|
  {
    html := NoteOpen;
    html := html + MessageDiv(ai.Message());
    ghost var head := html;
    var notes := "";
    if ai.Notes().Some? {
      notes := NotesDiv(ai.Notes().value);
    }
    var generator := GeneratorDiv(ai.Generator().name);
    var trace := "";
    if ai.TraceOf().Some? {
      trace := TraceTodo;
    }
    html := html + notes + generator + trace + NoteClose;
    NoteProperties(ai, head, notes, generator, trace, html);
  }

  lemma NoteProperties(ai: AnalysisIssue, head: string, notes: string, g: string, trace: string, html: string)
    requires head == NoteOpen + MessageDiv(ai.Message())
    requires notes == if ai.Notes().Some? then NotesDiv(ai.Notes().value) else ""
    requires g == GeneratorDiv(ai.Generator().name)
    requires trace == if ai.TraceOf().Some? then TraceTodo else ""
    requires html == head + notes + g + trace + NoteClose
    ensures StartsWith(html, head)
    ensures EndsWith(html, NoteClose)
    ensures ai.Notes().Some? <==> StartsWith(html[|head|..], NotesDivOpen)
    ensures ai.Notes().Some? ==> StartsWith(html[|head|..], NotesDiv(ai.Notes().value))
    ensures ai.Notes().Some? ==> StartsWith(html[|head| + |NotesDiv(ai.Notes().value)|..], g)
    ensures ai.Notes().None? ==> StartsWith(html[|head|..], g)
    ensures ai.TraceOf().Some? <==> EndsWith(html, TraceTodo + NoteClose)
    ensures ai.TraceOf().Some? ==> EndsWith(html, g + TraceTodo + NoteClose)
    ensures ai.TraceOf().None? ==> EndsWith(html, g + NoteClose)
    ensures |html| == |head| + (if ai.Notes().Some? then |NotesDiv(ai.Notes().value)| else 0)
      + |g| + (if ai.TraceOf().Some? then |TraceTodo| else 0) + |NoteClose|
  {
    var rest := notes + g + trace + NoteClose;
    ConcatAssoc5(head, notes, g, trace, NoteClose);
    AfterPrefix(html, head, rest);
    NotesProperties(ai, g, notes, trace + NoteClose, rest);
    if ai.Notes().Some? {
      DropTwice(html, |head|, |notes|);
    }
    TraceProperties(ai.TraceOf().Some?, ai.Generator().name, g, head + notes, html);
  }

  lemma NotesProperties(ai: AnalysisIssue, g: string, notes: string, tail: string, rest: string)
    requires g == GeneratorDiv(ai.Generator().name)
    requires notes == if ai.Notes().Some? then NotesDiv(ai.Notes().value) else ""
    requires rest == notes + g + tail
    ensures ai.Notes().Some? <==> StartsWith(rest, NotesDivOpen)
    ensures ai.Notes().Some? ==> StartsWith(rest, NotesDiv(ai.Notes().value))
    ensures ai.Notes().Some? ==> StartsWith(rest[|NotesDiv(ai.Notes().value)|..], g)
    ensures ai.Notes().None? ==> StartsWith(rest, g)
  {
    ConcatAssoc3(notes, g, tail);
    if ai.Notes().None? {
      assert notes + (g + tail) == g + tail;
      StartsWithConcat(g, tail);
      GeneratorDivIsNotNotes(ai.Generator().name);
      NotStartsWith(rest, NotesDivOpen, g, 35);
    } else {
      StartsWithConcat(notes, g + tail);
      SuffixOfConcat(notes, g + tail);
      StartsWithConcat(g, tail);
      assert notes == NotesDivOpen + (ai.Notes().value + "</div>");
      StartsWithShorter(rest, NotesDivOpen, ai.Notes().value + "</div>");
    }
  }

  lemma TraceProperties(hasTrace: bool, name: string, g: string, front: string, html: string)
    requires g == GeneratorDiv(name)
    requires html == front + g + (if hasTrace then TraceTodo else "") + NoteClose
    ensures EndsWith(html, NoteClose)
    ensures hasTrace <==> EndsWith(html, TraceTodo + NoteClose)
    ensures hasTrace ==> EndsWith(html, g + TraceTodo + NoteClose)
    ensures !hasTrace ==> EndsWith(html, g + NoteClose)
  {
    if !hasTrace {
      assert g + "" == g;
      ConcatAssoc3(front, g, NoteClose);
      EndsWithConcat(front, g + NoteClose);
      EndsWithShorter(html, g, NoteClose);
      TraceEndsWithP();
      GeneratorEndsWithV(name);
      NotEndsWith(html, TraceTodo + NoteClose, g + NoteClose, 7);
    } else {
      ConcatAssoc3(front + g, TraceTodo, NoteClose);
      EndsWithConcat(front + g, TraceTodo + NoteClose);
      EndsWithShorter(html, TraceTodo, NoteClose);
      ConcatAssoc4(front, g, TraceTodo, NoteClose);
      EndsWithConcat(front, g + TraceTodo + NoteClose);
    }
  }

  /** The generator div differs from the opening of the notes div at position 35. */
  lemma GeneratorDivIsNotNotes(name: string)
    ensures 35 < |NotesDivOpen| && 35 < |GeneratorDiv(name)|
    ensures NotesDivOpen[35] == 'n' && GeneratorDiv(name)[35] == 'g'
  {
  }

  /**
   * The trace placeholder and the generator div end differently before the closing div:
   * eight characters from the end, one has the `p` of `</p>`, the other the `v` of `</div>`.
   */
  lemma TraceEndsWithP()
    ensures 7 < |TraceTodo + NoteClose| && (TraceTodo + NoteClose)[|TraceTodo + NoteClose| - 1 - 7] == 'p'
  {
  }

  lemma GeneratorEndsWithV(name: string)
    ensures 7 < |GeneratorDiv(name) + NoteClose|
    ensures (GeneratorDiv(name) + NoteClose)[|GeneratorDiv(name) + NoteClose| - 1 - 7] == 'v'
  {
  }

  /** The file object the report writes to, as the sequence of strings written so far. */
  class OutputStream {
    var written: seq<string>

    constructor()
      ensures written == []
    {
      written := [];
    }

    /** `f.write(s)`. */
    method Write(s: string)
      modifies this
      ensures written == old(written) + [s]
    {
      written := written + [s];
    }
  }

  const TableHeader: seq<string> := [
    "    <table>\n",
    "    <tr>\n",
    "      <th>Location</th>\n",
    "      <th>Tool</th>\n",
    "      <th>Test ID</th>\n",
    "      <th>Function</th>\n",
    "      <th>Issue</th>\n",
    "    </tr>\n"]

  const TableClose: string := "    </table>\n"

  /** The start of the issue cell, up to the link target. */
  const LinkCellOpen: string := "      <td><a href=\""

  /** The table row of one issue of `file_`; its link targets the anchor of the issue's line. */
  function Row(file_: File, ai: AnalysisIssue): (r: seq<string>)
    ensures |r| == 7
  {
    [ "    <tr>\n",
      "      <td>" + ai.GivenPath() + ":" + IntToString(ai.Line()) + ":" + IntToString(ai.Column()) + "</td>\n",
      "      <td>" + ai.Generator().name + "</td>\n",
      "      <td>" + (if ai.TestId().Some? then ai.TestId().value else "") + "</td>\n",
      "      <td>" + (if ai.EnclosingFunction().Some? then ai.EnclosingFunction().value.name else "") + "</td>\n",
      LinkCellOpen + "#" + AnchorId(file_.hexdigest, ai.Line()) + "\">" + ai.Message() + "</a></td>\n",
      "    </tr>\n" ]
  }

  /** `Row` for the issues of `file_`. */
  function RowMaker(file_: File): AnalysisIssue -> seq<string>
  {
    ai => Row(file_, ai)
  }

  /** The rows of the issues `ais`, one after the other. */
  function Rows(file_: File, ais: seq<AnalysisIssue>): (r: seq<string>)
    ensures |r| == 7 * |ais|
  {
    FlattenLayout(Map(RowMaker(file_), ais));
    Flatten(Map(RowMaker(file_), ais))
  }

  /** Everything `write_issue_table_for_file` writes, for issues in the order given. */
  function Table(file_: File, ais: seq<AnalysisIssue>): (r: seq<string>)
    ensures |r| == 8 + 7 * |ais| + 1
    ensures r[|r| - 1] == TableClose
  {
    TableHeader + Rows(file_, ais) + [TableClose]
  }

  lemma RowsLayout(file_: File, ais: seq<AnalysisIssue>)
    ensures |Rows(file_, ais)| == 7 * |ais|
    ensures forall k :: 0 <= k < |ais| ==> Rows(file_, ais)[7 * k..7 * k + 7] == Row(file_, ais[k])
  {
    FlattenLayout(Map(RowMaker(file_), ais));
  }

  /**
   * The table is the 8 header lines, then 7 lines per issue in the order given, then the
   * closing line.
   */
  lemma TableLayout(file_: File, ais: seq<AnalysisIssue>)
    ensures |Table(file_, ais)| == 8 + 7 * |ais| + 1
    ensures Table(file_, ais)[..8] == TableHeader
    ensures forall k :: 0 <= k < |ais| ==> Table(file_, ais)[8 + 7 * k..8 + 7 * k + 7] == Row(file_, ais[k])
    ensures Table(file_, ais)[8 + 7 * |ais|] == TableClose
  {
    RowsLayout(file_, ais);
    Framed(TableHeader, Rows(file_, ais), TableClose, |ais|);
  }

  /**
   * The link of an issue's row names the very anchor that `HighlightFile` puts in front of
   * that line of the file, at the place where the line's output begins.
   */
  lemma LinkResolvesToAnchor(file_: File, ai: AnalysisIssue, highlighted: seq<string>)
    requires 1 <= ai.Line() <= |highlighted|
    ensures var id := AnchorId(file_.hexdigest, ai.Line());
      var href := LinkCellOpen + "#" + id;
      var out := Anchored(file_.hexdigest, highlighted);
      var off := |Anchored(file_.hexdigest, highlighted[..ai.Line() - 1])|;
      && StartsWith(Row(file_, ai)[5], href) && |href| < |Row(file_, ai)[5]| && Row(file_, ai)[5][|href|] == '"'
      && off + |AnchorTag(file_.hexdigest, ai.Line())| <= |out|
      && out[off..off + |AnchorTag(file_.hexdigest, ai.Line())|] == "<a id=\"" + id + "\"/>"
  {
    RowLinksTo(file_, ai);
    AnchorTagAt(file_.hexdigest, highlighted, ai.Line());
  }

  /** The issue cell of a row links to `#` followed by the anchor name of the issue's line. */
  lemma RowLinksTo(file_: File, ai: AnalysisIssue)
    ensures var href := LinkCellOpen + "#" + AnchorId(file_.hexdigest, ai.Line());
      && StartsWith(Row(file_, ai)[5], href) && |href| < |Row(file_, ai)[5]| && Row(file_, ai)[5][|href|] == '"'
  {
    PrefixOfFive(LinkCellOpen + "#", AnchorId(file_.hexdigest, ai.Line()), "\">", ai.Message(), "</a></td>\n");
  }

  /** The highlighted output holds the anchor of line `n` where that line's output begins. */
  lemma AnchorTagAt(d: string, highlighted: seq<string>, n: int)
    requires 1 <= n <= |highlighted|
    ensures var out := Anchored(d, highlighted);
      var off := |Anchored(d, highlighted[..n - 1])|;
      && off + |AnchorTag(d, n)| <= |out|
      && out[off..off + |AnchorTag(d, n)|] == AnchorTag(d, n)
  {
    AnchoredLineAt(d, highlighted, n);
    var tag := AnchorTag(d, n);
    assert AnchoredLine(d, n, highlighted[n - 1]) == tag + (highlighted[n - 1] + "\n");
    PrefixInSlice(Anchored(d, highlighted), |Anchored(d, highlighted[..n - 1])|, tag, highlighted[n - 1] + "\n");
  }

  /**
   * `write_issue_table_for_file`: writes the table for the issues `ais` of `file_`, the rows
   * in ascending (absolute path, line) order as `sorted(ais, AnalysisIssue.cmp)` gives them.
   */
  method WriteIssueTableForFile(f: OutputStream, file_: File, ais: set<AnalysisIssue>) returns (ghost order: seq<AnalysisIssue>)
    modifies f
    ensures Lists(order, ais) && SortedBy(order, CmpIssues)
    ensures f.written == old(f.written) + Table(file_, order)
  {
    WriteLines(f, TableHeader);
    CmpIssuesIsTotalPreorder();
    var sorted := SortedList(ais, CmpIssues);
    ghost var start := old(f.written) + TableHeader;
    var i := 0;
    while i < |sorted|
      invariant 0 <= i <= |sorted|
      invariant f.written == start + Rows(file_, sorted[..i])
    {
      var ai := sorted[i];
      WriteLines(f, Row(file_, ai));
      RowsStep(start, file_, sorted, i);
      i := i + 1;
    }
    assert sorted[..i] == sorted;
    f.Write(TableClose);
    order := sorted;
    TableAfter(old(f.written), file_, order);
  }

  /** Header, rows and closing line written after `w` leave `w` followed by the table. */
  lemma TableAfter(w: seq<string>, file_: File, ais: seq<AnalysisIssue>)
    ensures w + TableHeader + Rows(file_, ais) + [TableClose] == w + Table(file_, ais)
  {
    ConcatAssoc4(w, TableHeader, Rows(file_, ais), [TableClose]);
  }

  lemma RowsStep(start: seq<string>, file_: File, ais: seq<AnalysisIssue>, i: nat)
    requires i < |ais|
    ensures start + Rows(file_, ais[..i]) + Row(file_, ais[i]) == start + Rows(file_, ais[..i + 1])
  {
    var f := RowMaker(file_);
    ConcatAssoc3(start, Rows(file_, ais[..i]), Row(file_, ais[i]));
    MapSnoc(f, ais, i);
    FlattenSnoc(Map(f, ais[..i]), f(ais[i]));
  }

  /** Writes `lines` one call of `f.write` after the other. */
  method WriteLines(f: OutputStream, lines: seq<string>)
    modifies f
    ensures f.written == old(f.written) + lines
  {
    for k := 0 to |lines|
      invariant f.written == old(f.written) + lines[..k]
    {
      f.Write(lines[k]);
      assert lines[..k + 1] == lines[..k] + [lines[k]];
    }
    assert lines[..|lines|] == lines;
  }
}
