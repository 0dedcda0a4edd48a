/**
 * The counts components/dashboard/DashboardStats.tsx shows for a day:
 * submitted and not-submitted users and the submission rate in percent.
 */
module DashboardStats {
  import opened Values
  import opened Reports

  /** `summaries.filter(s => s.has_submitted == flag)`, in order. */
  function WithSubmitted(summaries: seq<ReportSummary>, flag: bool): (r: seq<ReportSummary>)
    ensures forall i :: 0 <= i < |r| ==> r[i].hasSubmitted == flag
    ensures forall s :: s in r <==> s in summaries && s.hasSubmitted == flag
  {
    if summaries == [] then []
    else
      var rest := WithSubmitted(summaries[..|summaries| - 1], flag);
      var last := summaries[|summaries| - 1];
      assert forall s :: s in summaries <==> s in summaries[..|summaries| - 1] || s == last;
      if last.hasSubmitted == flag then rest + [last] else rest
  }

  function Submitted(summaries: seq<ReportSummary>): seq<ReportSummary> {
    WithSubmitted(summaries, true)
  }

  function NotSubmitted(summaries: seq<ReportSummary>): seq<ReportSummary> {
    WithSubmitted(summaries, false)
  }

  /** The submitted and not-submitted lists split the summaries: each summary is in exactly one. */
  lemma {:induction false} SubmittedPartition(summaries: seq<ReportSummary>)
    ensures multiset(Submitted(summaries)) + multiset(NotSubmitted(summaries)) == multiset(summaries)
    ensures |Submitted(summaries)| + |NotSubmitted(summaries)| == |summaries|
    decreases |summaries|
  {
    if summaries != [] {
      var init, last := summaries[..|summaries| - 1], summaries[|summaries| - 1];
      SubmittedPartition(init);
      assert summaries == init + [last];
      assert multiset(summaries) == multiset(init) + multiset{last};
      if last.hasSubmitted {
        assert Submitted(summaries) == Submitted(init) + [last];
        assert NotSubmitted(summaries) == NotSubmitted(init);
      } else {
        assert Submitted(summaries) == Submitted(init);
        assert NotSubmitted(summaries) == NotSubmitted(init) + [last];
      }
    }
  }

  /** Filtering distributes over concatenation, so both lists keep the order of the summaries. */
  lemma {:induction false} WithSubmittedAppend(a: seq<ReportSummary>, b: seq<ReportSummary>, flag: bool)
    ensures WithSubmitted(a + b, flag) == WithSubmitted(a, flag) + WithSubmitted(b, flag)
    decreases |b|
  {
    if b == [] {
      assert a + b == a;
    } else {
      assert (a + b)[..|a + b| - 1] == a + b[..|b| - 1];
      WithSubmittedAppend(a, b[..|b| - 1], flag);
    }
  }

  /** `totalUsers > 0 ? Math.round(submittedCount / totalUsers * 100) : 0`. */
  function SubmissionRate(submittedCount: nat, totalUsers: nat): (rate: int)
    requires submittedCount <= totalUsers
    ensures 0 <= rate <= 100
    ensures totalUsers == 0 ==> rate == 0
    ensures totalUsers > 0 ==>
      rate as real <= (submittedCount as real) / (totalUsers as real) * 100.0 + 0.5
      < rate as real + 1.0
    ensures totalUsers > 0 && submittedCount == totalUsers ==> rate == 100
  {
    if totalUsers > 0 then
      var x := (submittedCount as real) / (totalUsers as real) * 100.0;
      assert 0.0 <= (submittedCount as real) / (totalUsers as real) <= 1.0;
      RoundWithin(x, 0, 100);
      assert submittedCount == totalUsers ==> (submittedCount as real) / (totalUsers as real) == 1.0;
      Round(x)
    else 0
  }

  /** The figures the stats panel shows. */
  datatype Stats = Stats(totalUsers: nat, submittedCount: nat, notSubmittedCount: nat, submissionRate: int)

  function StatsOf(summaries: seq<ReportSummary>): (st: Stats)
    ensures st.submittedCount + st.notSubmittedCount == st.totalUsers == |summaries|
    ensures 0 <= st.submissionRate <= 100
    ensures summaries == [] ==> st.submissionRate == 0
    ensures (forall i :: 0 <= i < |summaries| ==> summaries[i].hasSubmitted) && summaries != [] ==> st.submissionRate == 100
    ensures st.submittedCount == |Submitted(summaries)| && st.notSubmittedCount == |NotSubmitted(summaries)|
    ensures st.submissionRate == SubmissionRate(st.submittedCount, st.totalUsers)
  {
    SubmittedPartition(summaries);
    var submitted := |Submitted(summaries)|;
    AllSubmitted(summaries);
    Stats(|summaries|, submitted, |NotSubmitted(summaries)|, SubmissionRate(submitted, |summaries|))
  }

  /** When every user has submitted, the submitted list is all of them. */
  lemma {:induction false} AllSubmitted(summaries: seq<ReportSummary>)
    ensures (forall i :: 0 <= i < |summaries| ==> summaries[i].hasSubmitted) ==> Submitted(summaries) == summaries
    decreases |summaries|
  {
    if summaries != [] {
      AllSubmitted(summaries[..|summaries| - 1]);
    }
  }
}
