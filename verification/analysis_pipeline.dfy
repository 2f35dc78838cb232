/** The per-repository pipeline of `ProjectService` and its fan-in: each
    submitted URL is checked, cloned and analysed, any stage may drop it, and
    the surviving reports are gathered in submission order. The tasks run
    concurrently in the source, but the results are read back from the list
    of futures in the order the URLs were submitted, so a sequential map
    computes the same list. */
module AnalysisPipeline {
  import opened Errors
  import opened Quality

  /** The `AnalysisReport` entity: `analysisId` is null until the report is
      saved, and `rank` is recomputed on every read. */
  datatype AnalysisReport = AnalysisReport(
    projectUrl: string,
    qualityMetricsReport: QualityMetricNode,
    analysisId: Option<int>,
    rank: real)

  /** The collaborators the pipeline calls, none of which is part of this
      model: `GitHubService.isValidGitHubUrl`; the fresh `requestFolder/UUID`
      directory each clone goes into; `GitHubService.cloneRepository`, true
      when it does not throw `GitAPIException`; and
      `AnalysisService.analyzeProject`, empty for an unsupported language. */
  datatype Collaborators = Collaborators(
    isValidGitHubUrl: string -> bool,
    projectDirectory: (string, string) -> string,
    cloneRepository: (string, string) -> bool,
    analyzeProject: (string, string) -> Option<AnalysisReport>)

  /** `cloneProject`: the path of the clone, or nothing when the URL is
      rejected or the clone throws. The clone is only attempted for a URL
      that passed the check. */
  function CloneProject(c: Collaborators, requestFolder: string, projectUrl: string): (r: Option<string>)
    ensures r.Some? <==>
      c.isValidGitHubUrl(projectUrl) && c.cloneRepository(projectUrl, c.projectDirectory(requestFolder, projectUrl))
    ensures r.Some? ==> r.value == c.projectDirectory(requestFolder, projectUrl)
  {
    if !c.isValidGitHubUrl(projectUrl) then None
    else
      var projectFile := c.projectDirectory(requestFolder, projectUrl);
      if !c.cloneRepository(projectUrl, projectFile) then None
      else Some(projectFile)
  }

  /** `cloneAndAnalyzeProjectAsync`, run to completion: clone, then analyse
      the clone. */
  function CloneAndAnalyzeProject(c: Collaborators, requestFolder: string, projectUrl: string): (r: Option<AnalysisReport>)
    ensures !c.isValidGitHubUrl(projectUrl) ==> r == None
    ensures CloneProject(c, requestFolder, projectUrl).None? ==> r == None
    ensures CloneProject(c, requestFolder, projectUrl).Some? ==>
      r == c.analyzeProject(c.projectDirectory(requestFolder, projectUrl), projectUrl)
  {
    match CloneProject(c, requestFolder, projectUrl)
    case None => None
    case Some(projectPath) => c.analyzeProject(projectPath, projectUrl)
  }

  /** A rejected URL never reaches `cloneRepository` or `analyzeProject`:
      whatever those do, the URL yields no report. */
  lemma RejectedUrlIsNeverCloned(c: Collaborators, c': Collaborators, requestFolder: string, projectUrl: string)
    requires c'.isValidGitHubUrl == c.isValidGitHubUrl
    requires !c.isValidGitHubUrl(projectUrl)
    ensures CloneAndAnalyzeProject(c, requestFolder, projectUrl) == None
    ensures CloneAndAnalyzeProject(c', requestFolder, projectUrl) == None
  {
  }

  /** The futures list: one outcome per submitted URL, in submission order. */
  function Outcomes(c: Collaborators, requestFolder: string, projectUrls: seq<string>): (r: seq<Option<AnalysisReport>>)
    ensures |r| == |projectUrls|
    ensures forall i :: 0 <= i < |r| ==> r[i] == CloneAndAnalyzeProject(c, requestFolder, projectUrls[i])
  {
    seq(|projectUrls|, i requires 0 <= i < |projectUrls| => CloneAndAnalyzeProject(c, requestFolder, projectUrls[i]))
  }

  /** `filter(Optional::isPresent).map(Optional::get)`: the present values,
      in order. */
  function Present(outcomes: seq<Option<AnalysisReport>>): (r: seq<AnalysisReport>)
    ensures |r| <= |outcomes|
    ensures r == [] <==> forall i :: 0 <= i < |outcomes| ==> outcomes[i].None?
    ensures forall x :: x in r <==> Some(x) in outcomes
  {
    if outcomes == [] then []
    else
      var rest := Present(outcomes[1..]);
      assert forall i :: 1 <= i < |outcomes| ==> outcomes[i] == outcomes[1..][i - 1];
      assert forall o :: o in outcomes <==> o == outcomes[0] || o in outcomes[1..];
      match outcomes[0]
      case None => rest
      case Some(x) => [x] + rest
  }

  /** The positions at or after `from` that hold a value, in increasing
      order. */
  function PresentIndices(outcomes: seq<Option<AnalysisReport>>, from: nat): (idx: seq<int>)
    requires from <= |outcomes|
    ensures forall j :: 0 <= j < |idx| ==> from <= idx[j] < |outcomes| && outcomes[idx[j]].Some?
    ensures forall j, k :: 0 <= j < k < |idx| ==> idx[j] < idx[k]
    ensures forall i :: from <= i < |outcomes| && outcomes[i].Some? ==> i in idx
    decreases |outcomes| - from
  {
    if from == |outcomes| then []
    else (if outcomes[from].Some? then [from] else []) + PresentIndices(outcomes, from + 1)
  }

  /** One step of `Present` on a suffix. */
  lemma PresentStep(outcomes: seq<Option<AnalysisReport>>, from: nat)
    requires from < |outcomes|
    ensures Present(outcomes[from..]) ==
      (if outcomes[from].Some? then [outcomes[from].value] else []) + Present(outcomes[from + 1..])
  {
    assert outcomes[from..][1..] == outcomes[from + 1..];
    assert outcomes[from..][0] == outcomes[from];
  }

  /** One step of `PresentIndices`. */
  lemma PresentIndicesStep(outcomes: seq<Option<AnalysisReport>>, from: nat)
    requires from < |outcomes|
    ensures PresentIndices(outcomes, from) ==
      (if outcomes[from].Some? then [from] else []) + PresentIndices(outcomes, from + 1)
  {
  }

  /** As many reports as positions holding one. */
  lemma {:induction false} PresentCountsIndices(outcomes: seq<Option<AnalysisReport>>, from: nat)
    requires from <= |outcomes|
    ensures |Present(outcomes[from..])| == |PresentIndices(outcomes, from)|
    decreases |outcomes| - from
  {
    if from < |outcomes| {
      PresentCountsIndices(outcomes, from + 1);
      PresentStep(outcomes, from);
      PresentIndicesStep(outcomes, from);
    }
  }

  /** The `j`-th report is the value at the `j`-th position holding one. */
  lemma {:induction false} PresentAt(outcomes: seq<Option<AnalysisReport>>, from: nat, j: nat)
    requires from <= |outcomes|
    requires j < |Present(outcomes[from..])| && j < |PresentIndices(outcomes, from)|
    ensures Some(Present(outcomes[from..])[j]) == outcomes[PresentIndices(outcomes, from)[j]]
    decreases |outcomes| - from
  {
    PresentStep(outcomes, from);
    PresentIndicesStep(outcomes, from);
    if outcomes[from].None? {
      PresentAt(outcomes, from + 1, j);
    } else if j > 0 {
      PresentAt(outcomes, from + 1, j - 1);
    }
  }

  /** The fan-in keeps exactly the present outcomes, in submission order:
      the `j`-th report is the value at the `j`-th position holding one, so
      the number of reports is the number of URLs that passed all three
      stages. */
  lemma {:induction false} PresentIsOrderedSubsequence(outcomes: seq<Option<AnalysisReport>>, from: nat)
    requires from <= |outcomes|
    ensures var (r, idx) := (Present(outcomes[from..]), PresentIndices(outcomes, from));
      |r| == |idx| && forall j :: 0 <= j < |r| ==> Some(r[j]) == outcomes[idx[j]]
  {
    PresentCountsIndices(outcomes, from);
    forall j | 0 <= j < |Present(outcomes[from..])|
      ensures Some(Present(outcomes[from..])[j]) == outcomes[PresentIndices(outcomes, from)[j]]
    {
      PresentAt(outcomes, from, j);
    }
  }

  /** The reports the batch gathers: one per URL that passes all three
      stages, in submission order. */
  function CollectReports(c: Collaborators, requestFolder: string, projectUrls: seq<string>): (r: seq<AnalysisReport>)
    ensures |r| <= |projectUrls|
    ensures r == [] <==>
      forall i :: 0 <= i < |projectUrls| ==> CloneAndAnalyzeProject(c, requestFolder, projectUrls[i]).None?
    ensures forall x :: x in r ==>
      exists i :: 0 <= i < |projectUrls| && CloneAndAnalyzeProject(c, requestFolder, projectUrls[i]) == Some(x)
  {
    var outcomes := Outcomes(c, requestFolder, projectUrls);
    assert forall x :: Some(x) in outcomes ==>
      exists i :: 0 <= i < |projectUrls| && CloneAndAnalyzeProject(c, requestFolder, projectUrls[i]) == Some(x);
    Present(outcomes)
  }

  /** The batch's reports are the outcomes of the URLs that passed all three
      stages, as a subsequence in submission order: `idx` lists those URLs'
      positions, increasing, and the `j`-th report comes from the `j`-th of
      them. */
  lemma {:induction false} CollectReportsInSubmissionOrder(c: Collaborators, requestFolder: string, projectUrls: seq<string>)
    ensures var (r, idx) := (CollectReports(c, requestFolder, projectUrls),
                             PresentIndices(Outcomes(c, requestFolder, projectUrls), 0));
      && |r| == |idx|
      && (forall j, k :: 0 <= j < k < |idx| ==> idx[j] < idx[k])
      && (forall i :: 0 <= i < |projectUrls| ==>
            (CloneAndAnalyzeProject(c, requestFolder, projectUrls[i]).Some? <==> i in idx))
      && (forall j :: 0 <= j < |r| ==>
            0 <= idx[j] < |projectUrls| && CloneAndAnalyzeProject(c, requestFolder, projectUrls[idx[j]]) == Some(r[j]))
  {
    var outcomes := Outcomes(c, requestFolder, projectUrls);
    PresentIsOrderedSubsequence(outcomes, 0);
    assert outcomes[0..] == outcomes;
  }
}
