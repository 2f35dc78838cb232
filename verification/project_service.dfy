/** `ProjectService.processProject` and `findAnalysisResultByAnalysisId`: a
    batch submission that persists an analysis with its surviving reports,
    and the read that ranks them. Persistence is the sequence of writes made
    through `AnalysisService`; a read sees the rows those writes created. */
module ProjectService {
  import opened Errors
  import opened Quality
  import opened AnalysisPipeline
  import opened Ranking

  const ServerErrorMessage := "The server encountered an internal error and was unable to " +
    "complete your request. Please try again later."
  const NoUsableRepository := "We could not run the analysis. Please ensure that at least one " +
    "repository is public and uses a supported language."

  /** A submission; either list may be null. */
  datatype AnalysisRequest = AnalysisRequest(
    projectUrls: seq<string>,
    constraints: Option<seq<Constraint>>,
    preferences: Option<seq<Preference>>)

  /** One persistence call, as made. */
  datatype Write =
    | SaveAnalysis(analysisId: int, userId: int, createdDate: int)
    | SaveReport(report: AnalysisReport)
    | SaveConstraints(analysisId: int, constraints: seq<Constraint>)
    | SavePreferences(analysisId: int, preferences: seq<Preference>)

  /** What a submission can change: the folders on disk, the id the next
      saved analysis gets, and the persistence writes so far, oldest first. */
  datatype Server = Server(folders: set<string>, nextAnalysisId: int, writes: seq<Write>)

  /** Whether `File.mkdir` and `FileUtils.deleteDirectory` succeed, apart
      from `mkdir` failing on a folder that already exists. */
  datatype FileSystem = FileSystem(mkdirSucceeds: bool, deleteSucceeds: bool)

  /** `findAnalysisResultByAnalysisId` wraps the report list in a one-element
      list (`List.of(reportDTOS)`). */
  datatype AnalysisResult = AnalysisResult(reports: seq<seq<AnalysisReport>>)

  /*
   * What a read of one analysis id sees
   */

  /** The rows stored for one analysis id. */
  datatype Rows = Rows(analyses: nat, reports: seq<AnalysisReport>, constraints: seq<Constraint>, preferences: seq<Preference>)

  const NoRows := Rows(0, [], [], [])

  function Plus(x: Rows, y: Rows): Rows {
    Rows(x.analyses + y.analyses, x.reports + y.reports, x.constraints + y.constraints, x.preferences + y.preferences)
  }

  function RowsOfWrite(w: Write, id: int): Rows {
    match w
    case SaveAnalysis(a, _, _) => if a == id then Rows(1, [], [], []) else NoRows
    case SaveReport(r) => if r.analysisId == Some(id) then Rows(0, [r], [], []) else NoRows
    case SaveConstraints(a, cs) => if a == id then Rows(0, [], cs, []) else NoRows
    case SavePreferences(a, ps) => if a == id then Rows(0, [], [], ps) else NoRows
  }

  /** The rows for `id` that `writes` created, in the order written. */
  function RowsFor(writes: seq<Write>, id: int): Rows {
    if writes == [] then NoRows else Plus(RowsOfWrite(writes[0], id), RowsFor(writes[1..], id))
  }

  lemma PlusAssociative(x: Rows, y: Rows, z: Rows)
    ensures Plus(Plus(x, y), z) == Plus(x, Plus(y, z))
  {
    assert (x.reports + y.reports) + z.reports == x.reports + (y.reports + z.reports);
    assert (x.constraints + y.constraints) + z.constraints == x.constraints + (y.constraints + z.constraints);
    assert (x.preferences + y.preferences) + z.preferences == x.preferences + (y.preferences + z.preferences);
  }

  lemma EmptyAppend<T>(s: seq<T>)
    ensures [] + s == s
  {
  }

  /** Splitting off the head of a concatenation. */
  lemma TailOfAppend<T>(a: seq<T>, b: seq<T>)
    requires a != []
    ensures (a + b)[0] == a[0] && (a + b)[1..] == a[1..] + b
  {
  }

  lemma {:induction false} RowsForAppend(a: seq<Write>, b: seq<Write>, id: int)
    ensures RowsFor(a + b, id) == Plus(RowsFor(a, id), RowsFor(b, id))
  {
    if a == [] {
      assert a + b == b;
      var x := RowsFor(b, id);
      assert Plus(NoRows, x) == x by {
        assert [] + x.reports == x.reports;
        assert [] + x.constraints == x.constraints;
        assert [] + x.preferences == x.preferences;
      }
    } else {
      TailOfAppend(a, b);
      RowsForAppend(a[1..], b, id);
      PlusAssociative(RowsOfWrite(a[0], id), RowsFor(a[1..], id), RowsFor(b, id));
    }
  }

  /** The analysis id a write refers to, if any. */
  function IdOf(w: Write): Option<int> {
    match w
    case SaveAnalysis(a, _, _) => Some(a)
    case SaveReport(r) => r.analysisId
    case SaveConstraints(a, _) => Some(a)
    case SavePreferences(a, _) => Some(a)
  }

  /** Every write refers to an id below `bound`: the ids handed out so far. */
  predicate IdsBelow(writes: seq<Write>, bound: int) {
    forall i :: 0 <= i < |writes| ==> IdOf(writes[i]).None? || IdOf(writes[i]).value < bound
  }

  lemma {:induction false} NoRowsForUnusedId(writes: seq<Write>, bound: int, id: int)
    requires IdsBelow(writes, bound) && bound <= id
    ensures RowsFor(writes, id) == NoRows
  {
    if writes != [] {
      assert IdOf(writes[0]).None? || IdOf(writes[0]).value < bound;
      assert RowsOfWrite(writes[0], id) == NoRows;
      assert IdsBelow(writes[1..], bound) by {
        forall i | 0 <= i < |writes[1..]| ensures IdOf(writes[1..][i]).None? || IdOf(writes[1..][i]).value < bound {
          assert writes[1..][i] == writes[i + 1];
        }
      }
      NoRowsForUnusedId(writes[1..], bound, id);
      PlusNoRows(NoRows);
    }
  }

  /*
   * Persisting a batch
   */

  /** A list the source persists: non-null and non-empty. */
  predicate Submitted<T>(xs: Option<seq<T>>) {
    xs.Some? && xs.value != []
  }

  /** A report as `saveAllAnalysisReports` saves it: stamped with the id. */
  function Stamp(reports: seq<AnalysisReport>, id: int): (r: seq<AnalysisReport>)
    ensures |r| == |reports|
    ensures forall j :: 0 <= j < |r| ==> r[j] == reports[j].(analysisId := Some(id))
  {
    seq(|reports|, j requires 0 <= j < |reports| => reports[j].(analysisId := Some(id)))
  }

  /** `saveAllAnalysisReports`: one save per report, in list order. */
  function ReportWrites(reports: seq<AnalysisReport>, id: int): (r: seq<Write>)
    ensures |r| == |reports|
    ensures forall j :: 0 <= j < |r| ==> r[j] == SaveReport(reports[j].(analysisId := Some(id)))
  {
    if reports == [] then []
    else [SaveReport(reports[0].(analysisId := Some(id)))] + ReportWrites(reports[1..], id)
  }

  /** A read of `id` sees every report saved under it, in the order saved. */
  lemma {:induction false} RowsOfReportWrites(reports: seq<AnalysisReport>, id: int)
    ensures RowsFor(ReportWrites(reports, id), id) == Rows(0, Stamp(reports, id), [], [])
  {
    if reports != [] {
      var w := ReportWrites(reports, id);
      RowsOfReportWrites(reports[1..], id);
      assert w[1..] == ReportWrites(reports[1..], id);
      assert Stamp(reports, id) == [reports[0].(analysisId := Some(id))] + Stamp(reports[1..], id);
    }
  }

  /** `saveConstraint`: only a non-null, non-empty list is saved. */
  function ConstraintWrites(id: int, request: AnalysisRequest): (r: seq<Write>)
    ensures r == [] <==> !Submitted(request.constraints)
    ensures r != [] ==> r == [SaveConstraints(id, request.constraints.value)]
  {
    if Submitted(request.constraints) then [SaveConstraints(id, request.constraints.value)] else []
  }

  /** `savePreference`: only a non-null, non-empty list is saved. */
  function PreferenceWrites(id: int, request: AnalysisRequest): (r: seq<Write>)
    ensures r == [] <==> !Submitted(request.preferences)
    ensures r != [] ==> r == [SavePreferences(id, request.preferences.value)]
  {
    if Submitted(request.preferences) then [SavePreferences(id, request.preferences.value)] else []
  }

  /** Where the parts of an appended batch land. */
  lemma BatchLayout<T>(w0: seq<T>, a: T, b: seq<T>, c: seq<T>)
    ensures var w := w0 + ([a] + b + c);
      && |w| == |w0| + 1 + |b| + |c|
      && w[..|w0|] == w0
      && w[|w0|] == a
      && w[|w0| + 1..|w0| + 1 + |b|] == b
      && w[|w0| + 1 + |b|..] == c
  {
    var w := w0 + ([a] + b + c);
    assert w[|w0| + 1..|w0| + 1 + |b|] == b;
    assert w[|w0| + 1 + |b|..] == c;
  }

  /** The writes of one saved batch: the analysis, its stamped reports, then
      the submitted constraints and preferences. */
  function BatchWrites(id: int, userId: int, now: int, reports: seq<AnalysisReport>, request: AnalysisRequest): seq<Write> {
    [SaveAnalysis(id, userId, now)] + ReportWrites(reports, id) + (ConstraintWrites(id, request) + PreferenceWrites(id, request))
  }

  /** `saveAnalysisProcess`: the analysis first, under a fresh id, then every
      report stamped with that id, then the constraints and the preferences
      if any were submitted. Returns the new state and the id. */
  function SaveAnalysisProcess(srv: Server, userId: int, now: int, reports: seq<AnalysisReport>,
                               request: AnalysisRequest): (r: (Server, int))
    ensures r.1 == srv.nextAnalysisId && r.0.nextAnalysisId == srv.nextAnalysisId + 1
    ensures r.0.folders == srv.folders
    ensures var (w, n) := (r.0.writes, |srv.writes|);
      && |w| == n + 1 + |reports| + (if Submitted(request.constraints) then 1 else 0)
                                  + (if Submitted(request.preferences) then 1 else 0)
      && w[..n] == srv.writes
      && w[n] == SaveAnalysis(r.1, userId, now)
      && w[n + 1..n + 1 + |reports|] == ReportWrites(reports, r.1)
      && w[n + 1 + |reports|..] == ConstraintWrites(r.1, request) + PreferenceWrites(r.1, request)
  {
    var id := srv.nextAnalysisId;
    var tail := ConstraintWrites(id, request) + PreferenceWrites(id, request);
    var batch := BatchWrites(id, userId, now, reports, request);
    assert batch == [SaveAnalysis(id, userId, now)] + ReportWrites(reports, id) + tail;
    BatchLayout(srv.writes, SaveAnalysis(id, userId, now), ReportWrites(reports, id), tail);
    (Server(srv.folders, id + 1, srv.writes + batch), id)
  }

  lemma PlusNoRows(x: Rows)
    ensures Plus(NoRows, x) == x && Plus(x, NoRows) == x
  {
    assert [] + x.reports == x.reports && x.reports + [] == x.reports;
    assert [] + x.constraints == x.constraints && x.constraints + [] == x.constraints;
    assert [] + x.preferences == x.preferences && x.preferences + [] == x.preferences;
  }

  lemma RowsOfSingleton(w: Write, id: int)
    ensures RowsFor([w], id) == RowsOfWrite(w, id)
  {
    assert [w][1..] == [];
    PlusNoRows(RowsOfWrite(w, id));
  }

  lemma IdsBelowAppend(a: seq<Write>, b: seq<Write>, bound: int)
    requires IdsBelow(a, bound) && IdsBelow(b, bound)
    ensures IdsBelow(a + b, bound)
  {
    forall i | 0 <= i < |a + b| ensures IdOf((a + b)[i]).None? || IdOf((a + b)[i]).value < bound {
      if i >= |a| { assert (a + b)[i] == b[i - |a|]; }
    }
  }

  /** Summing the rows of a batch's four parts. */
  lemma PlusOfBatch(x: Rows, y: Rows, c: Rows, p: Rows)
    requires x == Rows(1, [], [], []) && y.analyses == 0 && y.constraints == [] && y.preferences == []
    requires c == Rows(0, [], c.constraints, []) && p == Rows(0, [], [], p.preferences)
    ensures Plus(Plus(x, y), Plus(c, p)) == Rows(1, y.reports, c.constraints, p.preferences)
  {
    assert [] + y.reports + ([] + []) == y.reports;
    assert [] + [] + (c.constraints + []) == c.constraints;
    assert [] + [] + ([] + p.preferences) == p.preferences;
  }

  /** The rows of one batch: one analysis, the reports, the submitted lists. */
  lemma RowsOfBatch(id: int, userId: int, now: int, reports: seq<AnalysisReport>, request: AnalysisRequest)
    ensures RowsFor(BatchWrites(id, userId, now, reports, request), id) == Rows(
        1,
        Stamp(reports, id),
        if Submitted(request.constraints) then request.constraints.value else [],
        if Submitted(request.preferences) then request.preferences.value else [])
  {
    var head := [SaveAnalysis(id, userId, now)];
    var (rw, cw, pw) := (ReportWrites(reports, id), ConstraintWrites(id, request), PreferenceWrites(id, request));
    RowsForAppend(head + rw, cw + pw, id);
    RowsForAppend(head, rw, id);
    RowsForAppend(cw, pw, id);
    RowsOfSingleton(head[0], id);
    RowsOfReportWrites(reports, id);
    if cw != [] { RowsOfSingleton(cw[0], id); }
    if pw != [] { RowsOfSingleton(pw[0], id); }
    PlusOfBatch(RowsFor(head, id), RowsFor(rw, id), RowsFor(cw, id), RowsFor(pw, id));
  }

  /** A batch only refers to its own id. */
  lemma IdsOfBatch(id: int, userId: int, now: int, reports: seq<AnalysisReport>, request: AnalysisRequest)
    ensures IdsBelow(BatchWrites(id, userId, now, reports, request), id + 1)
  {
    var head := [SaveAnalysis(id, userId, now)];
    var (rw, cw, pw) := (ReportWrites(reports, id), ConstraintWrites(id, request), PreferenceWrites(id, request));
    assert IdsBelow(rw, id + 1);
    IdsBelowAppend(head, rw, id + 1);
    IdsBelowAppend(cw, pw, id + 1);
    IdsBelowAppend(head + rw, cw + pw, id + 1);
  }

  /** A saved batch reads back as exactly one analysis with its stamped
      reports in order, the submitted constraints and the submitted
      preferences, provided the id was not in use before. */
  lemma {:induction false} SavedBatchReadsBack(srv: Server, userId: int, now: int, reports: seq<AnalysisReport>, request: AnalysisRequest)
    requires IdsBelow(srv.writes, srv.nextAnalysisId)
    ensures var (srv', id) := SaveAnalysisProcess(srv, userId, now, reports, request);
      && IdsBelow(srv'.writes, srv'.nextAnalysisId)
      && RowsFor(srv'.writes, id) == Rows(
           1,
           Stamp(reports, id),
           if Submitted(request.constraints) then request.constraints.value else [],
           if Submitted(request.preferences) then request.preferences.value else [])
  {
    var id := srv.nextAnalysisId;
    var batch := BatchWrites(id, userId, now, reports, request);
    RowsOfBatch(id, userId, now, reports, request);
    IdsOfBatch(id, userId, now, reports, request);
    NoRowsForUnusedId(srv.writes, id, id);
    RowsForAppend(srv.writes, batch, id);
    PlusNoRows(RowsFor(batch, id));
    assert IdsBelow(srv.writes, id + 1);
    IdsBelowAppend(srv.writes, batch, id + 1);
  }

  /** `processProject`, with the request folder's fresh name, the caller's
      user id and the clock as parameters. The folder is made first; if no
      URL yields a report the call fails before anything is persisted and
      before the folder is deleted; otherwise the batch is persisted, the
      folder deleted, and the new analysis id returned. */
  function ProcessProject(c: Collaborators, fs: FileSystem, srv: Server, request: AnalysisRequest,
                          requestFolder: string, userId: int, now: int): (r: Effect<Server, int>)
    ensures requestFolder in srv.folders || !fs.mkdirSucceeds ==>
      r == Effect(srv, Err(ServerError(ServerErrorMessage)))
    ensures r.result.Ok? <==>
      && requestFolder !in srv.folders && fs.mkdirSucceeds && fs.deleteSucceeds
      && exists i :: 0 <= i < |request.projectUrls| &&
           CloneAndAnalyzeProject(c, requestFolder, request.projectUrls[i]).Some?
    ensures requestFolder !in srv.folders && fs.mkdirSucceeds &&
            (forall i :: 0 <= i < |request.projectUrls| ==>
               CloneAndAnalyzeProject(c, requestFolder, request.projectUrls[i]).None?) ==>
      && r.result == Err(IllegalArgument(NoUsableRepository))
      && r.state == srv.(folders := srv.folders + {requestFolder})
    ensures requestFolder !in srv.folders && fs.mkdirSucceeds && !fs.deleteSucceeds &&
            CollectReports(c, requestFolder, request.projectUrls) != [] ==>
      && r.result == Err(ServerError(ServerErrorMessage))
      && requestFolder in r.state.folders
      && r.state.nextAnalysisId == srv.nextAnalysisId + 1
      && |r.state.writes| > |srv.writes|
    ensures r.result.Ok? ==>
      && r.result.value == srv.nextAnalysisId
      && r.state.folders == srv.folders
      && |r.state.writes| > |srv.writes|
      && r.state.writes[|srv.writes|] == SaveAnalysis(r.result.value, userId, now)
    ensures requestFolder !in srv.folders && fs.mkdirSucceeds && CollectReports(c, requestFolder, request.projectUrls) != [] ==>
      r.state.writes == srv.writes + BatchWrites(srv.nextAnalysisId, userId, now,
                                                 CollectReports(c, requestFolder, request.projectUrls), request)
  {
    if requestFolder in srv.folders || !fs.mkdirSucceeds then Effect(srv, Err(ServerError(ServerErrorMessage)))
    else
      var withFolder := srv.(folders := srv.folders + {requestFolder});
      var reports := CollectReports(c, requestFolder, request.projectUrls);
      if reports == [] then Effect(withFolder, Err(IllegalArgument(NoUsableRepository)))
      else
        var (saved, analysisId) := SaveAnalysisProcess(withFolder, userId, now, reports, request);
        if !fs.deleteSucceeds then Effect(saved, Err(ServerError(ServerErrorMessage)))
        else Effect(saved.(folders := saved.folders - {requestFolder}), Ok(analysisId))
  }

  /** `findAnalysisResultByAnalysisId`: the stored reports and preferences
      of the analysis, ranked and sorted. The stored constraints are not
      read. */
  function FindAnalysisResultByAnalysisId(srv: Server, analysisId: int, rankTree: RankTree): (r: AnalysisResult)
    ensures |r.reports| == 1
    ensures var (stored, preferences) := (RowsFor(srv.writes, analysisId).reports, RowsFor(srv.writes, analysisId).preferences);
      && multiset(r.reports[0]) == multiset(Rerank(stored, preferences, rankTree))
      && NonIncreasing(r.reports[0])
      && forall i :: 0 <= i < |r.reports[0]| ==>
           r.reports[0][i].rank == rankTree(r.reports[0][i].qualityMetricsReport, preferences)
  {
    var rows := RowsFor(srv.writes, analysisId);
    AnalysisResult([RankReports(rows.reports, rows.preferences, rankTree)])
  }

  /** The writes with every constraint save removed. */
  function WithoutConstraints(writes: seq<Write>): (r: seq<Write>)
    ensures forall w :: w in r ==> !w.SaveConstraints?
  {
    if writes == [] then []
    else (if writes[0].SaveConstraints? then [] else [writes[0]]) + WithoutConstraints(writes[1..])
  }

  lemma PlusDropsConstraints(h: Rows, x: Rows)
    requires h.constraints == []
    ensures Plus(h, x.(constraints := [])) == Plus(h, x).(constraints := [])
  {
  }

  lemma {:induction false} WithoutConstraintsKeepsOtherRows(writes: seq<Write>, id: int)
    ensures RowsFor(WithoutConstraints(writes), id) == RowsFor(writes, id).(constraints := [])
  {
    if writes != [] {
      var rest := WithoutConstraints(writes[1..]);
      WithoutConstraintsKeepsOtherRows(writes[1..], id);
      var h := RowsOfWrite(writes[0], id);
      if writes[0].SaveConstraints? {
        assert WithoutConstraints(writes) == [] + rest;
        EmptyAppend(rest);
        assert h.reports == [] && h.preferences == [] && h.analyses == 0;
      } else {
        assert WithoutConstraints(writes) == [writes[0]] + rest;
        RowsForAppend([writes[0]], rest, id);
        RowsOfSingleton(writes[0], id);
        assert RowsFor(writes, id) == Plus(h, RowsFor(writes[1..], id));
        PlusDropsConstraints(h, RowsFor(writes[1..], id));
      }
    }
  }

  /** Stored constraints play no part in a read: dropping every constraint
      save gives the same result. */
  lemma {:induction false} ResultIgnoresConstraints(srv: Server, analysisId: int, rankTree: RankTree)
    ensures FindAnalysisResultByAnalysisId(srv.(writes := WithoutConstraints(srv.writes)), analysisId, rankTree)
         == FindAnalysisResultByAnalysisId(srv, analysisId, rankTree)
  {
    WithoutConstraintsKeepsOtherRows(srv.writes, analysisId);
  }

  /** Submit then read: a successful submission returns an id under which
      exactly one analysis is stored, together with the surviving reports in
      submission order and the submitted constraints and preferences; reading
      it back yields those reports, re-ranked by the stored preferences,
      highest rank first. */
  lemma {:induction false} SubmitThenRead(c: Collaborators, fs: FileSystem, srv: Server, request: AnalysisRequest,
                       requestFolder: string, userId: int, now: int, rankTree: RankTree)
    requires IdsBelow(srv.writes, srv.nextAnalysisId)
    requires ProcessProject(c, fs, srv, request, requestFolder, userId, now).result.Ok?
    ensures var r := ProcessProject(c, fs, srv, request, requestFolder, userId, now);
      var id := r.result.value;
      var reports := Stamp(CollectReports(c, requestFolder, request.projectUrls), id);
      var preferences := if Submitted(request.preferences) then request.preferences.value else [];
      && IdsBelow(r.state.writes, r.state.nextAnalysisId)
      && RowsFor(r.state.writes, id) == Rows(
           1, reports, if Submitted(request.constraints) then request.constraints.value else [], preferences)
      && multiset(FindAnalysisResultByAnalysisId(r.state, id, rankTree).reports[0])
         == multiset(Rerank(reports, preferences, rankTree))
  {
    var withFolder := srv.(folders := srv.folders + {requestFolder});
    var reports := CollectReports(c, requestFolder, request.projectUrls);
    SavedBatchReadsBack(withFolder, userId, now, reports, request);
  }
}
