/**
 * The aggregation model (`Model`): the loaded analyses, the flattened stream of their
 * issues, the files and generators they mention, and the issue indices by file and by
 * (file, generator).
 */
module Aggregation {
  import opened Firehose
  import opened Compare
  import opened Sorting
  import opened Issues

  /** The issues among `results`, paired with `a`, in result order. */
  function IssuesIn(a: Analysis, results: seq<Result>): (r: seq<AnalysisIssue>)
    ensures |r| <= |results|
    ensures forall k :: 0 <= k < |r| ==> r[k].analysis == a && IssueResult(r[k].issue) in results
  {
    if results == [] then []
    else
      var last := results[|results| - 1];
      IssuesIn(a, results[..|results| - 1]) +
      (if last.IssueResult? then [AnalysisIssue(a, last.issue)] else [])
  }

  /** The issues of all analyses, in (analysis, result) order. */
  function AllIssues(analyses: seq<Analysis>): (r: seq<AnalysisIssue>)
    ensures forall k :: 0 <= k < |r| ==> r[k].analysis in analyses
  {
    if analyses == [] then []
    else
      var last := analyses[|analyses| - 1];
      AllIssues(analyses[..|analyses| - 1]) + IssuesIn(last, last.results)
  }

  /** Analysis `i` of `analyses` has `ai.issue` as its result `j`, and `ai` pairs them. */
  ghost predicate ReportedAt(analyses: seq<Analysis>, ai: AnalysisIssue, i: int, j: int)
  {
    && 0 <= i < |analyses| && 0 <= j < |analyses[i].results|
    && ai.analysis == analyses[i]
    && analyses[i].results[j] == IssueResult(ai.issue)
  }

  lemma {:induction false} IssuesInMembership(a: Analysis, results: seq<Result>, ai: AnalysisIssue)
    ensures ai in IssuesIn(a, results) <==>
      ai.analysis == a && exists j :: 0 <= j < |results| && results[j] == IssueResult(ai.issue)
  {
    if results != [] {
      var init := results[..|results| - 1];
      IssuesInMembership(a, init, ai);
      if ai.analysis == a && exists j :: 0 <= j < |results| && results[j] == IssueResult(ai.issue) {
        var j :| 0 <= j < |results| && results[j] == IssueResult(ai.issue);
        if j < |init| {
          assert init[j] == results[j];
        }
      }
    }
  }

  /** The flattened stream holds exactly the issue results of the analyses, each with its analysis. */
  lemma AllIssuesMembership(analyses: seq<Analysis>, ai: AnalysisIssue)
    ensures ai in AllIssues(analyses) <==> exists i, j :: ReportedAt(analyses, ai, i, j)
  {
    if ai in AllIssues(analyses) {
      var i, j := AllIssuesSound(analyses, ai);
    }
    if exists i, j :: ReportedAt(analyses, ai, i, j) {
      var i, j :| ReportedAt(analyses, ai, i, j);
      AllIssuesComplete(analyses, ai, i, j);
    }
  }

  lemma {:induction false} AllIssuesSound(analyses: seq<Analysis>, ai: AnalysisIssue) returns (i: int, j: int)
    requires ai in AllIssues(analyses)
    ensures ReportedAt(analyses, ai, i, j)
  {
    var n := |analyses| - 1;
    var init := analyses[..n];
    if ai in AllIssues(init) {
      i, j := AllIssuesSound(init, ai);
      assert analyses[i] == init[i];
    } else {
      IssuesInMembership(analyses[n], analyses[n].results, ai);
      i := n;
      j :| 0 <= j < |analyses[n].results| && analyses[n].results[j] == IssueResult(ai.issue);
    }
  }

  lemma {:induction false} AllIssuesComplete(analyses: seq<Analysis>, ai: AnalysisIssue, i: int, j: int)
    requires ReportedAt(analyses, ai, i, j)
    ensures ai in AllIssues(analyses)
  {
    var n := |analyses| - 1;
    var init := analyses[..n];
    if i < n {
      assert ReportedAt(init, ai, i, j);
      AllIssuesComplete(init, ai, i, j);
    } else {
      IssuesInMembership(analyses[n], analyses[n].results, ai);
    }
  }

  /** The distinct issues of a stream, as the `set` of the index builders collects them. */
  function IssueSet(issues: seq<AnalysisIssue>): set<AnalysisIssue>
  {
    set ai | ai in issues
  }

  /** Every file any analysis mentions. */
  function AllVisitedFiles(analyses: seq<Analysis>): set<File>
  {
    set a, f | a in analyses && f in VisitedFiles(a) :: f
  }

  /** Every generator any analysis mentions. */
  function AllVisitedGenerators(analyses: seq<Analysis>): set<Generator>
  {
    set a, g | a in analyses && g in VisitedGenerators(a) :: g
  }

  /** `cmp(f1.abspath, f2.abspath)`, the order of `get_source_files`. */
  function CmpAbspath(f1: File, f2: File): (r: int)
    ensures r == 0 <==> f1.abspath == f2.abspath
    ensures r < 0 <==> LexLess(f1.abspath, f2.abspath)
  {
    CmpStrIsLexicographic(f1.abspath, f2.abspath);
    CmpStr(f1.abspath, f2.abspath)
  }

  /** `cmp(g1.name, g2.name)`, the order of `get_generators`. */
  function CmpName(g1: Generator, g2: Generator): (r: int)
    ensures r == 0 <==> g1.name == g2.name
    ensures r < 0 <==> LexLess(g1.name, g2.name)
  {
    CmpStrIsLexicographic(g1.name, g2.name);
    CmpStr(g1.name, g2.name)
  }

  lemma CmpAbspathIsTotalPreorder()
    ensures IsTotalPreorder(CmpAbspath)
  {
    forall a, b ensures CmpAbspath(a, b) <= 0 || CmpAbspath(b, a) <= 0 {
      CmpStrAntisymmetric(a.abspath, b.abspath);
    }
    forall a, b, c | CmpAbspath(a, b) <= 0 && CmpAbspath(b, c) <= 0 ensures CmpAbspath(a, c) <= 0 {
      CmpStrTransitive(a.abspath, b.abspath, c.abspath);
    }
  }

  lemma CmpNameIsTotalPreorder()
    ensures IsTotalPreorder(CmpName)
  {
    forall a, b ensures CmpName(a, b) <= 0 || CmpName(b, a) <= 0 {
      CmpStrAntisymmetric(a.name, b.name);
    }
    forall a, b, c | CmpName(a, b) <= 0 && CmpName(b, c) <= 0 ensures CmpName(a, c) <= 0 {
      CmpStrTransitive(a.name, b.name, c.name);
    }
  }

  /** The index key of `get_analysis_issues_by_source`. */
  function FileKey(ai: AnalysisIssue): File
  {
    ai.FileOf()
  }

  /** The index key of `get_analysis_issues_by_source_and_generator`. */
  function FileGeneratorKey(ai: AnalysisIssue): (File, Generator)
  {
    (ai.FileOf(), ai.Generator())
  }

  /**
   * `m` groups `issues` by `key`: each issue sits in the set of its own key, every set
   * holds only issues of that key, and no set is empty.
   */
  ghost predicate IsGrouping<K>(m: map<K, set<AnalysisIssue>>, issues: set<AnalysisIssue>, key: AnalysisIssue -> K)
  {
    && (forall ai :: ai in issues ==> key(ai) in m && ai in m[key(ai)])
    && (forall k, ai :: k in m && ai in m[k] ==> ai in issues && key(ai) == k)
    && (forall k :: k in m ==> m[k] != {})
  }

  /** Adding one issue to a grouping, as the loop body of both index builders does. */
  function AddToGroup<K(==)>(m: map<K, set<AnalysisIssue>>, k: K, ai: AnalysisIssue): (m': map<K, set<AnalysisIssue>>)
    ensures m'.Keys == m.Keys + {k}
    ensures m'[k] == (if k in m then m[k] else {}) + {ai}
    ensures forall k' :: k' in m && k' != k ==> m'[k'] == m[k']
  {
    if k in m then m[k := m[k] + {ai}] else m[k := {ai}]
  }

  lemma AddToGroupKeepsGrouping<K>(m: map<K, set<AnalysisIssue>>, issues: set<AnalysisIssue>, key: AnalysisIssue -> K, ai: AnalysisIssue)
    requires IsGrouping(m, issues, key)
    ensures IsGrouping(AddToGroup(m, key(ai), ai), issues + {ai}, key)
  {
  }

  /** The keys of a grouping are exactly the keys of its issues. */
  lemma GroupingKeys<K>(m: map<K, set<AnalysisIssue>>, issues: set<AnalysisIssue>, key: AnalysisIssue -> K)
    requires IsGrouping(m, issues, key)
    ensures m.Keys == set ai | ai in issues :: key(ai)
  {
    forall k | k in m ensures exists ai :: ai in issues && key(ai) == k {
      var ai :| ai in m[k];
      assert ai in issues && key(ai) == k;
    }
  }

  /** Together the sets of a grouping hold exactly the grouped issues, each in one set only. */
  lemma GroupingPartitions<K>(m: map<K, set<AnalysisIssue>>, issues: set<AnalysisIssue>, key: AnalysisIssue -> K)
    requires IsGrouping(m, issues, key)
    ensures (set k, ai | k in m && ai in m[k] :: ai) == issues
    ensures forall k1, k2, ai :: k1 in m && k2 in m && ai in m[k1] && ai in m[k2] ==> k1 == k2
  {
    forall k1, k2, ai | k1 in m && k2 in m && ai in m[k1] && ai in m[k2] ensures k1 == k2 {
      assert key(ai) == k1 && key(ai) == k2;
    }
  }

  /**
   * Indexing by (file, generator) refines indexing by file: each finer set lies inside the
   * set of its file, and each file's set is the union of the finer sets of that file.
   */
  lemma ByGeneratorRefinesBySource(
    bySource: map<File, set<AnalysisIssue>>,
    byBoth: map<(File, Generator), set<AnalysisIssue>>,
    issues: set<AnalysisIssue>)
    requires IsGrouping(bySource, issues, FileKey)
    requires IsGrouping(byBoth, issues, FileGeneratorKey)
    ensures forall f, g :: (f, g) in byBoth ==> f in bySource && byBoth[(f, g)] <= bySource[f]
    ensures forall f :: f in bySource ==>
      bySource[f] == set k, ai | k in byBoth && k.0 == f && ai in byBoth[k] :: ai
  {
    forall f, g | (f, g) in byBoth ensures f in bySource && byBoth[(f, g)] <= bySource[f] {
      var ai :| ai in byBoth[(f, g)];
      assert FileGeneratorKey(ai) == (f, g) && FileKey(ai) == f;
      forall ai' | ai' in byBoth[(f, g)] ensures ai' in bySource[f] {
        assert FileGeneratorKey(ai') == (f, g) && FileKey(ai') == f;
      }
    }
    forall f | f in bySource
      ensures bySource[f] == set k, ai | k in byBoth && k.0 == f && ai in byBoth[k] :: ai
    {
      forall ai | ai in bySource[f]
        ensures ai in set k, ai | k in byBoth && k.0 == f && ai in byBoth[k] :: ai
      {
        assert FileGeneratorKey(ai) in byBoth && ai in byBoth[FileGeneratorKey(ai)];
      }
    }
  }

  /** Every issue's file is among the files the analyses mention. */
  lemma IssueFilesAreVisited(analyses: seq<Analysis>, ai: AnalysisIssue)
    requires ai in AllIssues(analyses)
    ensures ai.FileOf() in AllVisitedFiles(analyses)
  {
    AllIssuesMembership(analyses, ai);
    var i, j :| ReportedAt(analyses, ai, i, j);
    var a := analyses[i];
    assert ai.FileOf() in ResultFiles(a.results[j]);
    assert ai.FileOf() in VisitedFiles(a);
  }

  /** Every issue's generator is among the generators the analyses mention. */
  lemma IssueGeneratorsAreVisited(analyses: seq<Analysis>, ai: AnalysisIssue)
    requires ai in AllIssues(analyses)
    ensures ai.Generator() in AllVisitedGenerators(analyses)
  {
    AllIssuesMembership(analyses, ai);
    var i, j :| ReportedAt(analyses, ai, i, j);
    assert ai.Generator() in VisitedGenerators(analyses[i]);
  }

  /** The report's model over a results directory; the analyses are fixed once it is built. */
  class Model {
    const analyses: seq<Analysis>

    /** `Model(rdir)`, given the analyses `rdir.get_analyses()` parsed. */
    constructor(analyses: seq<Analysis>)
      ensures this.analyses == analyses
    {
      this.analyses := analyses;
    }

    /** `iter_analysis_issues`: one pair per issue result, analysis by analysis, result by result. */
    method IterAnalysisIssues() returns (issues: seq<AnalysisIssue>)
      ensures issues == AllIssues(analyses)
    {
      issues := [];
      var i := 0;
      while i < |analyses|
        invariant 0 <= i <= |analyses|
        invariant issues == AllIssues(analyses[..i])
      {
        var analysis := analyses[i];
        var j := 0;
        while j < |analysis.results|
          invariant 0 <= j <= |analysis.results|
          invariant issues == AllIssues(analyses[..i]) + IssuesIn(analysis, analysis.results[..j])
        {
          var result := analysis.results[j];
          if result.IssueResult? {
            issues := issues + [AnalysisIssue(analysis, result.issue)];
          }
          assert analysis.results[..j + 1][..j] == analysis.results[..j];
          j := j + 1;
        }
        assert analysis.results[..j] == analysis.results;
        assert analyses[..i + 1][..i] == analyses[..i];
        i := i + 1;
      }
      assert analyses[..i] == analyses;
    }

    /** `get_source_files`: every file mentioned, once each, sorted by absolute path. */
    method GetSourceFiles() returns (files: seq<File>)
      ensures Lists(files, AllVisitedFiles(analyses))
      ensures SortedBy(files, CmpAbspath)
    {
      var result: set<File> := {};
      var i := 0;
      while i < |analyses|
        invariant 0 <= i <= |analyses|
        invariant result == AllVisitedFiles(analyses[..i])
      {
        result := result + VisitedFiles(analyses[i]);
        assert analyses[..i + 1] == analyses[..i] + [analyses[i]];
        i := i + 1;
      }
      assert analyses[..i] == analyses;
      CmpAbspathIsTotalPreorder();
      files := SortedList(result, CmpAbspath);
    }

    /** `get_generators`: every generator that ran, once each, sorted by name. */
    method GetGenerators() returns (generators: seq<Generator>)
      ensures Lists(generators, AllVisitedGenerators(analyses))
      ensures SortedBy(generators, CmpName)
    {
      var result: set<Generator> := {};
      var i := 0;
      while i < |analyses|
        invariant 0 <= i <= |analyses|
        invariant result == AllVisitedGenerators(analyses[..i])
      {
        result := result + VisitedGenerators(analyses[i]);
        assert analyses[..i + 1] == analyses[..i] + [analyses[i]];
        i := i + 1;
      }
      assert analyses[..i] == analyses;
      CmpNameIsTotalPreorder();
      generators := SortedList(result, CmpName);
    }

    /** `get_analysis_issues_by_source`: the issues grouped by the file of their location. */
    method GetAnalysisIssuesBySource() returns (result: map<File, set<AnalysisIssue>>)
      ensures IsGrouping(result, IssueSet(AllIssues(analyses)), FileKey)
    {
      var issues := IterAnalysisIssues();
      result := map[];
      var i := 0;
      while i < |issues|
        invariant 0 <= i <= |issues|
        invariant IsGrouping(result, IssueSet(issues[..i]), FileKey)
      {
        var ai := issues[i];
        AddToGroupKeepsGrouping(result, IssueSet(issues[..i]), FileKey, ai);
        result := AddToGroup(result, FileKey(ai), ai);
        assert issues[..i + 1] == issues[..i] + [ai];
        assert IssueSet(issues[..i + 1]) == IssueSet(issues[..i]) + {ai};
        i := i + 1;
      }
      assert issues[..i] == issues;
    }

    /** `get_analysis_issues_by_source_and_generator`: the issues grouped by (file, generator). */
    method GetAnalysisIssuesBySourceAndGenerator() returns (result: map<(File, Generator), set<AnalysisIssue>>)
      ensures IsGrouping(result, IssueSet(AllIssues(analyses)), FileGeneratorKey)
    {
      var issues := IterAnalysisIssues();
      result := map[];
      var i := 0;
      while i < |issues|
        invariant 0 <= i <= |issues|
        invariant IsGrouping(result, IssueSet(issues[..i]), FileGeneratorKey)
      {
        var ai := issues[i];
        AddToGroupKeepsGrouping(result, IssueSet(issues[..i]), FileGeneratorKey, ai);
        result := AddToGroup(result, FileGeneratorKey(ai), ai);
        assert issues[..i + 1] == issues[..i] + [ai];
        assert IssueSet(issues[..i + 1]) == IssueSet(issues[..i]) + {ai};
        i := i + 1;
      }
      assert issues[..i] == issues;
    }
  }
}
