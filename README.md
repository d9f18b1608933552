# Reports layer of mock-with-analysis, in Dafny

This project models `reports/reports.py`, the layer of mock-with-analysis that turns
already-parsed firehose analyses into an HTML report. It covers five parts:

- **Path normalisation.** `get_filename` and `get_internal_filename` are modelled with Python's
  `str.strip(chars)`, which removes a *set* of characters from both ends (not a prefix),
  then `split('/')` and a POSIX `os.path.join`.
- **Issue ordering.** `AnalysisIssue` is a value pairing an analysis with one of its issues.
  Its property accessors are projections, and its `cmp` is the three-way comparison on
  (absolute path, line), with Python 2 `cmp` on strings and integers.
- **Aggregation.** `Model` is a class over the analyses it was built from. Its methods are the
  nested loop of `iter_analysis_issues`, the set-then-sort of `get_source_files` and
  `get_generators`, and the dictionary-of-sets loops of the two issue indices.
- **Anchored rendering.** `highlight_file` puts an anchor before each highlighted line.
  `write_issue_table_for_file` writes a header, one row per issue in sorted order, and a
  closing line to an output stream. Each row links to the anchor of its issue's line.
- **Issue note.** `make_issue_note` assembles the inline report, with an optional notes div
  and an optional trace placeholder.

Modules:

- `Wrappers`: `Option` for `None`, and `Outcome` for a call that raises.
- `Firehose`: the fields of the firehose data model that the report reads.
- `Compare`: Python 2 `cmp`, total preorders, sortedness, and "lists a set".
- `Sorting`: `sorted(list(s), cmp)` as a stable insertion sort.
- `Paths`: strip, split, join and the two filename functions.
- `Issues`: `AnalysisIssue` and its comparison.
- `Aggregation`: the `Model` class and the partition facts about its indices.
- `Seqs`: generic facts about sequences built from blocks.
- `Render`: integer printing, anchors, the highlighted file, the issue note and the issue table.

Some places where the model follows the code closely:

- **Strip.** `strip('/build/builddir/BUILD')` removes any of the characters
  `/ b u i l d r B U I L D` from both ends. The model proves the documented example.
  It also proves the consequence of character stripping: a file whose path below the tarball
  directory is spelt only with those characters (`.../pkg-1.0/lib/build`) loses that part too.
  The join is then left with no argument and raises (`Paths.LibBuildExample`).
- **Empty join.** With a single component, `os.path.join(*[])` raises. The model returns
  `Err(NothingToJoin)`.
- **Header length.** The table header is 8 lines long (`<table>`, `<tr>`, five `<th>` and
  `</tr>`). Each row is 7 lines.

## Model

| member | source | states |
|---|---|---|
| Paths.BuildRootCharSet | reports/reports.py:8 | the characters `strip` removes are exactly those of its argument `'/build/builddir/BUILD'` |
| Paths.LStrip | reports/reports.py:8 | the result is a suffix of the input; every removed character is in the set; the result does not start with one |
| Paths.RStrip | reports/reports.py:8 | the result is a prefix of the input; every removed character is in the set; the result does not end with one |
| Paths.Strip | reports/reports.py:8 | `s.strip(cs)` is no longer than `s` and neither starts nor ends with a character of `cs`; `StripCharacterization` pins it down |
| Paths.StripCharacterization | reports/reports.py:8 | a string is the result of `strip` exactly when it is what remains after cutting maximal runs of set characters from both ends |
| Paths.StripUnique | reports/reports.py:8 | any split into a run of set characters, a middle that neither starts nor ends with one, and a run of set characters has `strip` equal to that middle |
| Paths.GetFilename | reports/reports.py:7-8 | `get_filename` is the absolute path with maximal runs of build-root characters cut from both ends |
| Paths.Split | reports/reports.py:25 | `split('/')` gives at least one piece, no piece holds a slash, and it gives exactly one piece iff there is no slash |
| Paths.JoinSplit | reports/reports.py:25 | joining the pieces of `split('/')` with `/` gives back the string |
| Paths.SplitJoin | reports/reports.py:25 | splitting a `/`-join of slash-free pieces gives back the pieces |
| Paths.JoinStep | reports/reports.py:26 | one step of `os.path.join`: an absolute component replaces the path; otherwise the path is kept as a prefix; either way the result ends with the component |
| Paths.PosixJoin | reports/reports.py:26 | `os.path.join(*parts)` ends with the last component, and is that component alone when it is absolute |
| Paths.PosixJoinIsJoinSlash | reports/reports.py:26 | for non-empty slash-free components, `os.path.join` is `'/'.join` |
| Paths.SplitComponentsNonEmpty | reports/reports.py:25 | a path with no leading, trailing or doubled slash splits into non-empty components |
| Paths.GetInternalFilename | reports/reports.py:10-26 | the call fails (the join gets no argument) exactly when the stripped path has no slash |
| Paths.InternalFilenameDropsFirstComponent | reports/reports.py:24-26 | for a stripped path without doubled slashes, the internal filename is everything after its first slash |
| Paths.InternalFilenameIgnoresVersion | reports/reports.py:11-26 | a path of the form build root, version directory, `/`, rest gives `rest`, for any slash-free version directory whose first character is outside the build-root set, provided `rest` does not start with `/`, has no doubled slash and does not end with a build-root character (a version directory such as `build`, or a rest ending in such a character as in `lib/build`, is eaten by the strip) |
| Paths.StripBetween | reports/reports.py:24 | text framed by runs of stripped characters, and clean at both of its ends, is exactly what `strip` keeps |
| Paths.EthtoolExample | reports/reports.py:15-19 | `/builddir/build/BUILD/python-ethtool-0.7/python-ethtool/etherinfo.c` gives `python-ethtool/etherinfo.c` |
| Paths.StripSwallowsTrailingComponents | reports/reports.py:24-26 | trailing components spelt only with build-root characters are stripped away with the root, and the join then fails |
| Paths.LibBuildExample | reports/reports.py:24-26 | `/builddir/build/BUILD/pkg-1.0/lib/build` makes `get_internal_filename` fail |
| Compare.CmpInt | reports/reports.py:55-56 | `cmp` on integers is -1, 0 or 1 and its sign is that of the difference |
| Compare.CmpStr | reports/reports.py:51-52 | `cmp` on strings is -1, 0 or 1, and 0 exactly for equal strings |
| Compare.CmpStrIsLexicographic | reports/reports.py:51-52 | `cmp` on strings is negative exactly when the first is a proper prefix of the second or is smaller at the first difference |
| Compare.CmpStrAntisymmetric | reports/reports.py:51-52 | swapping the strings negates `cmp` |
| Compare.CmpStrTransitive | reports/reports.py:51-52 | "compares at most" on strings is transitive |
| Aggregation.CmpAbspath | reports/reports.py:141-142 | the sort key of `get_source_files` is 0 exactly for equal absolute paths and negative exactly when the first path is lexicographically smaller |
| Aggregation.CmpName | reports/reports.py:154-155 | the sort key of `get_generators` is 0 exactly for equal names and negative exactly when the first name is lexicographically smaller |
| Compare.ListsHasNoDuplicates | reports/reports.py:141 | a list of a set's elements has the set's size, the same members and no repeated element |
| Sorting.ListOf | reports/reports.py:141 | `list(s)` holds every element of the set exactly once |
| Sorting.Insert | reports/reports.py:141-142 | inserting into an ascending list keeps it ascending and adds exactly the new element |
| Sorting.InsertAtBoundary | reports/reports.py:141-142 | placing an element after those that do not exceed it and before the rest keeps the order ascending |
| Sorting.Sorted | reports/reports.py:141-142 | `sorted(xs, cmp)` is ascending for `cmp` and a permutation of `xs` |
| Sorting.SortedList | reports/reports.py:141-142 | `sorted(list(s), cmp)` is ascending and lists each element of the set exactly once |
| Issues.AnalysisIssue.Message | reports/reports.py:61-63 | `message` reads the issue's message |
| Issues.AnalysisIssue.Notes | reports/reports.py:65-67 | `notes` reads the issue's notes, `None` when there are none |
| Issues.AnalysisIssue.Generator | reports/reports.py:69-71 | `generator` reads the generator of the analysis's metadata |
| Issues.AnalysisIssue.TestId | reports/reports.py:73-75 | `testid` reads the issue's test id, `None` when there is none |
| Issues.AnalysisIssue.GivenPath | reports/reports.py:77-79 | `givenpath` reads the given path of the issue location's file |
| Issues.AnalysisIssue.AbsPath | reports/reports.py:81-83 | `abspath` reads the absolute path of the issue location's file |
| Issues.AnalysisIssue.InternalFilename | reports/reports.py:85-87 | `internal_filename` fails exactly when the stripped path of the issue's file has no slash |
| Issues.AnalysisIssue.EnclosingFunction | reports/reports.py:89-91 | `function` reads the function enclosing the issue's location, `None` when there is none |
| Issues.AnalysisIssue.Line | reports/reports.py:93-95 | `line` reads the line of the issue's location |
| Issues.AnalysisIssue.Column | reports/reports.py:97-99 | `column` reads the column of the issue's location |
| Issues.AnalysisIssue.FileOf | reports/reports.py:101-103 | `file_` reads the file of the issue's location |
| Issues.AnalysisIssue.TraceOf | reports/reports.py:105-107 | `trace` reads the issue's trace, `None` when there is none |
| Issues.AnalysisIssue.Cmp | reports/reports.py:50-59 | `AnalysisIssue.cmp` is -1, 0 or 1, and 0 exactly when the two issues share absolute path and line |
| Issues.CmpIsLexicographic | reports/reports.py:50-59 | `AnalysisIssue.cmp` is negative exactly when the path is smaller, or the paths are equal and the line is smaller |
| Issues.CmpAntisymmetric | reports/reports.py:50-59 | swapping the issues negates `AnalysisIssue.cmp` |
| Issues.CmpIssuesIsTotalPreorder | reports/reports.py:50-59 | `AnalysisIssue.cmp` is a total preorder, so sorting with it is well defined |
| Aggregation.IssuesIn | reports/reports.py:127-129 | the issues of one analysis are no more than its results, each paired with that analysis and taken from an `Issue` result |
| Aggregation.AllIssues | reports/reports.py:125-129 | every yielded pair carries one of the model's analyses |
| Aggregation.IssuesInMembership | reports/reports.py:127-129 | the issues of one analysis are exactly its `Issue` results, each paired with that analysis |
| Aggregation.AllIssuesSound | reports/reports.py:125-129 | every yielded pair is some analysis with one of its issue results |
| Aggregation.AllIssuesComplete | reports/reports.py:125-129 | every issue result of every analysis is yielded, paired with its analysis |
| Aggregation.AllIssuesMembership | reports/reports.py:125-129 | a pair is yielded iff its issue is an issue result of its analysis, and that analysis is one of the model's |
| Aggregation.Model.constructor | reports/reports.py:110-115 | the model holds the analyses it was given |
| Aggregation.Model.IterAnalysisIssues | reports/reports.py:125-129 | the nested loop yields the issue results in (analysis, result) order, skipping other result kinds |
| Aggregation.Model.GetSourceFiles | reports/reports.py:131-142 | the result lists every visited file exactly once, in ascending order of absolute path |
| Aggregation.Model.GetGenerators | reports/reports.py:144-155 | the result lists every generator that ran exactly once, in ascending order of name |
| Aggregation.AddToGroup | reports/reports.py:160-164 | the loop body adds the issue to the set of its key, creating that set if needed, and changes no other key |
| Aggregation.AddToGroupKeepsGrouping | reports/reports.py:159-164 | one more loop step keeps the map a grouping of the issues seen so far |
| Aggregation.Model.GetAnalysisIssuesBySource | reports/reports.py:157-165 | each issue is in the set of its own file, every set holds only issues of its file, and no set is empty |
| Aggregation.Model.GetAnalysisIssuesBySourceAndGenerator | reports/reports.py:167-175 | the same grouping, keyed by (file, generator object) |
| Aggregation.GroupingKeys | reports/reports.py:157-175 | the keys of an index are exactly the keys of the issues |
| Aggregation.GroupingPartitions | reports/reports.py:157-175 | the sets of an index together hold exactly the issues, and no issue lies in two sets |
| Aggregation.ByGeneratorRefinesBySource | reports/reports.py:157-175 | each (file, generator) set lies inside that file's set, and each file's set is the union of its (file, generator) sets |
| Aggregation.IssueFilesAreVisited | reports/reports.py:131-142 | the file of every issue is among the source files |
| Aggregation.IssueGeneratorsAreVisited | reports/reports.py:144-155 | the generator of every issue is among the generators |
| Render.DigitChar | reports/reports.py:204 | the digit character of `d` has value `d` |
| Render.NatToString | reports/reports.py:204 | `'%i'` of a natural number is a non-empty string of digits without a leading zero |
| Render.IntToString | reports/reports.py:204 | `'%i'` of an integer is non-empty and starts with a minus sign exactly for negative integers |
| Render.NatToStringRoundTrip | reports/reports.py:204 | reading back the printed digits gives the number |
| Render.IntToStringRoundTrip | reports/reports.py:204 | `'%i'` of any integer reads back as that integer |
| Render.IntToStringInjective | reports/reports.py:204 | distinct integers print differently |
| Render.AnchorId | reports/reports.py:204 | the anchor name `file-<digest>-line-<n>` of line n; `AnchorIdReadsBack` shows the line number reads back from it |
| Render.AnchorIdReadsBack | reports/reports.py:204 | an anchor name starts with `file-<digest>-line-`, and the rest reads back as the line number |
| Render.AnchorTag | reports/reports.py:204 | the anchor element before line n, `<a id="…"/>` around the anchor name; `AnchorTagInjective` shows it names one line only |
| Render.AnchorTagInjective | reports/reports.py:204 | two anchors of the same file are equal only for the same line number |
| Render.Anchored | reports/reports.py:203-206 | the highlighted lines numbered from 1, each after its anchor and before a newline; `AnchoredSnoc`, `AnchoredLineAt` and `AnchoredEnd` state its shape |
| Render.AnchoredEnd | reports/reports.py:203-206 | no lines give `''`; otherwise the output ends with the last line and a newline |
| Render.AnchoredSnoc | reports/reports.py:203-206 | one more highlighted line appends its anchor, the line and a newline |
| Render.AnchoredLineAt | reports/reports.py:203-206 | line `n` of the output starts right after the earlier lines, with anchor `n` followed by the line |
| Render.HighlightFile | reports/reports.py:197-207 | no file gives `''`; otherwise the output is, for k = 1..n, anchor k, line k and a newline |
| Render.MakeIssueNote | reports/reports.py:209-218 | the note opens with the report div and the message, and closes with `</div>`; the notes div follows the message iff there are notes; the generator div always follows, right after the message or after the notes div; the trace placeholder ends the note iff there is a trace, right after the generator div; otherwise the generator div ends it; its length is the sum of those pieces' lengths, so nothing else is in the note |
| Render.NoteProperties | reports/reports.py:210-217 | the same shape facts, the generator div included with or without notes and trace, stated about the assembled pieces, and the note's length is the sum of the pieces' lengths |
| Render.NotesProperties | reports/reports.py:212-214 | after the message there is the notes div iff there are notes, and the generator div follows it; without notes the generator div comes right after the message |
| Render.TraceProperties | reports/reports.py:214-217 | the note ends with the generator div, then the trace placeholder iff there is a trace, then `</div>` |
| Render.GeneratorDivIsNotNotes | reports/reports.py:213-214 | the generator div does not start like the notes div |
| Render.TraceEndsWithP | reports/reports.py:216-217 | the trace placeholder ends differently from the generator div |
| Render.GeneratorEndsWithV | reports/reports.py:214 | the generator div ends differently from the trace placeholder |
| Render.OutputStream.constructor | reports/reports.py:220 | a fresh stream has nothing written |
| Render.OutputStream.Write | reports/reports.py:221 | `f.write(s)` appends `s` and changes nothing else |
| Render.Row | reports/reports.py:230-241 | each issue row is 7 lines |
| Render.Rows | reports/reports.py:229-241 | the rows of the issues in the order given, 7 lines per issue |
| Render.Table | reports/reports.py:220-242 | everything the table writer writes: 8 + 7n + 1 lines, the last being the closing line |
| Render.RowsLayout | reports/reports.py:229-241 | the rows are 7 lines per issue, with issue k at lines 7k to 7k+6 |
| Render.TableLayout | reports/reports.py:220-242 | the table is the 8 header lines, then issue k's row at lines 8+7k to 8+7k+6, then the closing line |
| Render.RowLinksTo | reports/reports.py:238-240 | the issue cell links to `#` followed by the anchor name of the issue's line in this file |
| Render.AnchorTagAt | reports/reports.py:203-206 | the highlighted output holds the anchor of line n where that line's output begins |
| Render.LinkResolvesToAnchor | reports/reports.py:204 | for every issue whose line is in the file, its row's link names the anchor that `highlight_file` puts at that line |
| Render.WriteLines | reports/reports.py:221-228 | successive writes append the lines in order |
| Render.RowsStep | reports/reports.py:229-241 | one more loop step appends one more row |
| Render.TableAfter | reports/reports.py:220-242 | header, rows and closing line together make the table |
| Render.WriteIssueTableForFile | reports/reports.py:220-242 | the stream gains exactly the table, whose rows list every issue once, in ascending (absolute path, line) order |

## Left out

- `ResultsDir` (reports/reports.py:28-46): listing XML files and parsing them with firehose is I/O and foreign code. `Model` takes the parsed analyses as its constructor's argument, and `iter_analyses` is its `analyses` field.
- `Model.open_file` and `get_file_content` (reports/reports.py:117-123): file I/O. The file's content is not modelled.
- `SourceHighlighter.__init__` and `highlight` (reports/reports.py:177-195) call pygments. `HighlightFile` takes the list of highlighted lines as a parameter, standing for `self.highlight(code).splitlines()`.
- The firehose `Visitor` traversal (reports/reports.py:137-140, 150-153) is foreign code. `Firehose.VisitedFiles` and `Firehose.VisitedGenerators` take its visits to be the metadata's file and generator, and the files of result locations and trace states.
- Firehose equality is assumed to depend only on the modelled fields. The datatypes of `Firehose` keep only the fields the report reads, and compare by those. Python's sets and dict keys (reports/reports.py:135, 148, 162-164, 172-174) compare whatever firehose compares, such as an issue's cwe, severity or custom fields, a location's point or range, or a metadata's sut and stats. Two issues that differ only in such a field are one set member in the model, where Python would keep two and the table would show both rows.
- The digest `file_.hash_.hexdigest` is a string field of `File`; how it is computed is not modelled.
- Sorting.Sorted: promises only an ascending permutation. The order among issues that compare equal comes from Python's set iteration order, so no particular tie order is stated.
- Render.WriteIssueTableForFile: the returned order is a ghost value. Python's set iteration order, which decides ties, is not observable.
- The model stores `message.text` and `notes.text` (read at reports/reports.py:211, 213 and 240) as strings; the rest of the firehose `Message` and `Notes` objects is not modelled.
- `if ai.notes`, `if ai.trace` and `if ai.function` (reports/reports.py:212, 215, 237) are modelled as "is not `None`" (`Some?`): a firehose object that is present is taken to be truthy. The firehose classes are not part of this model, so a falsy `Notes`, `Trace` or `Function` object is not covered.
- `os.path.join` is modelled for POSIX, including its handling of empty and absolute components (`Paths.JoinStep`). The proved equalities require a path without doubled slashes.
- The stray trailing comma at reports/reports.py:237 builds a discarded tuple and has no effect.
- Integers are unbounded, as are Python's.
