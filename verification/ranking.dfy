/** The read side of `ProjectService`: every loaded report is given a fresh
    rank for the stored preferences, and the reports are stably sorted by
    rank, highest first. */
module Ranking {
  import opened Quality
  import opened AnalysisPipeline

  /** `RankingService.rankTree`, which is not part of this model. */
  type RankTree = (QualityMetricNode, seq<Preference>) -> real

  /** The `peek` that sets every report's rank from its quality tree and the
      preferences; nothing else about a report changes. */
  function Rerank(reports: seq<AnalysisReport>, preferences: seq<Preference>, rankTree: RankTree): (r: seq<AnalysisReport>)
    ensures |r| == |reports|
    ensures forall i :: 0 <= i < |r| ==>
      r[i] == reports[i].(rank := rankTree(reports[i].qualityMetricsReport, preferences))
  {
    seq(|reports|, i requires 0 <= i < |reports| =>
      reports[i].(rank := rankTree(reports[i].qualityMetricsReport, preferences)))
  }

  /** Ranks never increase along the sequence. */
  predicate NonIncreasing(s: seq<AnalysisReport>) {
    forall i, j :: 0 <= i < j < |s| ==> s[i].rank >= s[j].rank
  }

  /** The reports of rank `v`, in their order in `s`. A sort is stable when
      it keeps each of these subsequences as it was. */
  function WithRank(s: seq<AnalysisReport>, v: real): seq<AnalysisReport> {
    if s == [] then []
    else (if s[0].rank == v then [s[0]] else []) + WithRank(s[1..], v)
  }

  /** Puts `x` in front of the first report whose rank is not above its own. */
  function Insert(x: AnalysisReport, s: seq<AnalysisReport>): (r: seq<AnalysisReport>)
    ensures |r| == |s| + 1
    ensures multiset(r) == multiset(s) + multiset{x}
    ensures forall i :: 0 <= i < |r| ==> r[i] == x || r[i] in s
  {
    if s == [] || x.rank >= s[0].rank then [x] + s
    else
      assert s == [s[0]] + s[1..];
      [s[0]] + Insert(x, s[1..])
  }

  /** Inserting into a sorted sequence keeps it sorted. */
  lemma {:induction false} InsertKeepsOrder(x: AnalysisReport, s: seq<AnalysisReport>)
    requires NonIncreasing(s)
    ensures NonIncreasing(Insert(x, s))
  {
    if s != [] && x.rank < s[0].rank {
      var rest := Insert(x, s[1..]);
      InsertKeepsOrder(x, s[1..]);
      forall i | 0 <= i < |rest| ensures s[0].rank >= rest[i].rank {
        if rest[i] != x {
          var k :| 0 <= k < |s[1..]| && s[1..][k] == rest[i];
          assert s[k + 1] == rest[i];
        }
      }
      assert Insert(x, s) == [s[0]] + rest;
    }
  }

  /** Inserting `x` in front of the reports it does not outrank keeps every
      equal-rank group in order, with `x` joining its group first. */
  lemma {:induction false} InsertIsStable(x: AnalysisReport, s: seq<AnalysisReport>, v: real)
    ensures WithRank(Insert(x, s), v) == (if x.rank == v then [x] else []) + WithRank(s, v)
  {
    if s == [] || x.rank >= s[0].rank {
      assert ([x] + s)[1..] == s;
    } else {
      var rest := Insert(x, s[1..]);
      InsertIsStable(x, s[1..], v);
      assert Insert(x, s) == [s[0]] + rest;
      assert ([s[0]] + rest)[1..] == rest;
      var own := if x.rank == v then [x] else [];
      var head := if s[0].rank == v then [s[0]] else [];
      assert WithRank(Insert(x, s), v) == head + WithRank(rest, v);
      Regroup(head, own, WithRank(s[1..], v));
    }
  }

  /** Two pieces of which one is empty can trade places. */
  lemma Regroup<T>(head: seq<T>, own: seq<T>, rest: seq<T>)
    requires head == [] || own == []
    ensures head + (own + rest) == own + (head + rest)
  {
    if head == [] {
      assert [] + (own + rest) == own + rest && [] + rest == rest;
    } else {
      assert [] + rest == rest && head + ([] + rest) == head + rest;
    }
  }

  /** `sorted(Comparator.comparing(getRank).reversed())`: an insertion sort
      producing a permutation of its input whose ranks never increase. */
  function SortByRankDescending(s: seq<AnalysisReport>): (r: seq<AnalysisReport>)
    ensures |r| == |s|
    ensures multiset(r) == multiset(s)
    ensures NonIncreasing(r)
  {
    if s == [] then []
    else
      assert s == [s[0]] + s[1..];
      var rest := SortByRankDescending(s[1..]);
      InsertKeepsOrder(s[0], rest);
      Insert(s[0], rest)
  }

  /** The sort is stable: reports of equal rank keep their input order. */
  lemma {:induction false} SortIsStable(s: seq<AnalysisReport>, v: real)
    ensures WithRank(SortByRankDescending(s), v) == WithRank(s, v)
  {
    if s != [] {
      SortIsStable(s[1..], v);
      InsertIsStable(s[0], SortByRankDescending(s[1..]), v);
    }
  }

  /** The read side of `findAnalysisResultByAnalysisId`: re-rank, then sort. */
  function RankReports(reports: seq<AnalysisReport>, preferences: seq<Preference>, rankTree: RankTree)
    : (r: seq<AnalysisReport>)
    ensures multiset(r) == multiset(Rerank(reports, preferences, rankTree))
    ensures NonIncreasing(r)
    ensures forall i :: 0 <= i < |r| ==> r[i].rank == rankTree(r[i].qualityMetricsReport, preferences)
  {
    var ranked := Rerank(reports, preferences, rankTree);
    var sorted := SortByRankDescending(ranked);
    assert forall i :: 0 <= i < |sorted| ==> sorted[i] in multiset(ranked);
    sorted
  }

  /** The read side keeps every re-ranked report exactly once, orders them by
      rank highest first, and among equal ranks keeps the load order. */
  lemma {:induction false} RankReportsIsStableSort(reports: seq<AnalysisReport>, preferences: seq<Preference>, rankTree: RankTree, v: real)
    ensures var ranked := Rerank(reports, preferences, rankTree);
      WithRank(RankReports(reports, preferences, rankTree), v) == WithRank(ranked, v)
  {
    SortIsStable(Rerank(reports, preferences, rankTree), v);
  }
}
