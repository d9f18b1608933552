/**
 * `AnalysisIssue`: an issue paired with the analysis that reported it, with the
 * projections the report reads and the three-way comparison it sorts by.
 * A namedtuple compares by its fields, so two field-identical pairs are the same value.
 */
module Issues {
  import opened Wrappers
  import opened Firehose
  import opened Compare
  import Paths

  datatype AnalysisIssue = AnalysisIssue(analysis: Analysis, issue: Issue)
  {
    function Message(): string { issue.message }
    function Notes(): Option<string> { issue.notes }
    function Generator(): Generator { analysis.metadata.generator }
    function TestId(): Option<string> { issue.testid }
    function GivenPath(): string { issue.location.file.givenpath }
    function AbsPath(): string { issue.location.file.abspath }
    function InternalFilename(): (r: Outcome<string, Paths.PathError>)
      ensures r.Err? <==> '/' !in Paths.GetFilename(FileOf())
    {
      Paths.GetInternalFilename(FileOf())
    }
    function EnclosingFunction(): Option<Function> { issue.location.enclosing }
    function Line(): int { issue.location.line }
    function Column(): int { issue.location.column }
    function FileOf(): File { issue.location.file }
    function TraceOf(): Option<Trace> { issue.trace }

    /** `AnalysisIssue.cmp`: by absolute path, then by line. */
    function Cmp(other: AnalysisIssue): (r: int)
      ensures -1 <= r <= 1
      ensures r == 0 <==> AbsPath() == other.AbsPath() && Line() == other.Line()
    {
      var c := CmpStr(AbsPath(), other.AbsPath());
      if c != 0 then c
      else
        var c' := CmpInt(Line(), other.Line());
        if c' != 0 then c' else 0
    }
  }

  /** The comparison as a two-argument function, as `sorted` receives it. */
  function CmpIssues(a: AnalysisIssue, b: AnalysisIssue): int
  {
    a.Cmp(b)
  }

  /** `cmp` orders issues lexicographically on (absolute path, line). */
  lemma CmpIsLexicographic(a: AnalysisIssue, b: AnalysisIssue)
    ensures a.Cmp(b) < 0 <==>
      LexLess(a.AbsPath(), b.AbsPath()) || (a.AbsPath() == b.AbsPath() && a.Line() < b.Line())
  {
    CmpStrIsLexicographic(a.AbsPath(), b.AbsPath());
  }

  lemma CmpAntisymmetric(a: AnalysisIssue, b: AnalysisIssue)
    ensures a.Cmp(b) == -b.Cmp(a)
  {
    CmpStrAntisymmetric(a.AbsPath(), b.AbsPath());
  }

  /** The comparison is a total preorder, so `sorted` with it yields an ascending list. */
  lemma CmpIssuesIsTotalPreorder()
    ensures IsTotalPreorder(CmpIssues)
  {
    forall a, b ensures CmpIssues(a, b) <= 0 || CmpIssues(b, a) <= 0 {
      CmpAntisymmetric(a, b);
    }
    forall a, b, c | CmpIssues(a, b) <= 0 && CmpIssues(b, c) <= 0 ensures CmpIssues(a, c) <= 0 {
      CmpStrAntisymmetric(a.AbsPath(), b.AbsPath());
      CmpStrAntisymmetric(b.AbsPath(), c.AbsPath());
      CmpStrTransitive(a.AbsPath(), b.AbsPath(), c.AbsPath());
      if CmpStr(a.AbsPath(), c.AbsPath()) == 0 && CmpStr(a.AbsPath(), b.AbsPath()) != 0 {
        CmpStrTransitive(c.AbsPath(), a.AbsPath(), b.AbsPath());
        CmpStrAntisymmetric(c.AbsPath(), a.AbsPath());
      }
    }
  }
}
