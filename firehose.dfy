/**
 * The parts of the firehose analysis data model that the report layer reads.
 * Firehose itself (XML parsing, the Visitor machinery) is not part of this model;
 * these datatypes only carry the fields `reports/reports.py` looks at.
 * Firehose objects compare by value; the datatypes here compare by the fields they keep,
 * so equality is taken to depend on those fields only.
 */
module Firehose {
  import opened Wrappers

  /** A source file: path as given to the tool, absolute path, and the hex digest of its content. */
  datatype File = File(givenpath: string, abspath: string, hexdigest: string)

  /** The tool that produced an analysis. */
  datatype Generator = Generator(name: string, version: Option<string>)

  /** The function enclosing a location (firehose `Function`; its field is `location.function` there). */
  datatype Function = Function(name: string)

  /** A point in a source file. */
  datatype Location = Location(file: File, enclosing: Option<Function>, line: int, column: int)

  /** A trace through the code: the locations of its states. */
  datatype Trace = Trace(states: seq<Location>)

  datatype Issue = Issue(
    message: string,
    notes: Option<string>,
    testid: Option<string>,
    location: Location,
    trace: Option<Trace>)

  /** A result of an analysis: an issue, or one of the other result kinds (failures, infos). */
  datatype Result =
    | IssueResult(issue: Issue)
    | Failure(failureLocation: Option<Location>)
    | Info(infoLocation: Option<Location>)

  datatype Metadata = Metadata(generator: Generator, file: Option<File>)

  datatype Analysis = Analysis(metadata: Metadata, results: seq<Result>)

  /** The files that the visitor traversal of one result reaches. */
  function ResultFiles(r: Result): set<File>
  {
    match r
    case IssueResult(issue) =>
      {issue.location.file} +
      (if issue.trace.Some? then set k | 0 <= k < |issue.trace.value.states| :: issue.trace.value.states[k].file else {})
    case Failure(loc) => if loc.Some? then {loc.value.file} else {}
    case Info(loc) => if loc.Some? then {loc.value.file} else {}
  }

  /** The files that `Analysis.accept` hands to `visit_file`: the metadata's file and every file below the results. */
  function VisitedFiles(a: Analysis): set<File>
  {
    (if a.metadata.file.Some? then {a.metadata.file.value} else {}) +
    (set k, f | 0 <= k < |a.results| && f in ResultFiles(a.results[k]) :: f)
  }

  /** The generators that `Analysis.accept` hands to `visit_generator`: the one in the metadata. */
  function VisitedGenerators(a: Analysis): set<Generator>
  {
    {a.metadata.generator}
  }
}
