/** The report of a pipeline run counts what its jobs say. */
module PipelineReport {
  import opened Frame
  import opened L1
  import opened L1Runs
  import opened Pipeline
  import opened PipelineLedger
  import opened PipelineSafety

  function Sum(s: seq<nat>): nat {
    if s == [] then 0 else Sum(s[..|s| - 1]) + s[|s| - 1]
  }

  predicate Certified(c: Config, b: nat)
    requires b < |c.jobs|
  {
    c.jobs[b].phase == "certification" && !IsBad(c, b)
  }

  /** What the report should say after the first `k` jobs: the valid transfers of the certification jobs
      whose proof is good, how many of these jobs there are, and how many have a bad one. */
  function ValidTransfers(c: Config, k: nat): nat
    requires k <= |c.jobs|
  {
    Sum(seq(k, b requires 0 <= b < k => if Certified(c, b) then |NonZero(c.jobs[b].txs)| else 0))
  }

  function CertifiedJobs(c: Config, k: nat): nat
    requires k <= |c.jobs|
  {
    |set b | 0 <= b < k && Certified(c, b)|
  }

  function BadJobs(c: Config, k: nat): nat
    requires k <= |c.jobs|
  {
    |set b | 0 <= b < k && c.jobs[b].phase == "certification" && IsBad(c, b)|
  }

  lemma ValidNext(c: Config, k: nat)
    requires k < |c.jobs|
    ensures ValidTransfers(c, k + 1)
         == ValidTransfers(c, k) + if Certified(c, k) then |NonZero(c.jobs[k].txs)| else 0
  {
    var s := seq(k + 1, b requires 0 <= b < k + 1 => if Certified(c, b) then |NonZero(c.jobs[b].txs)| else 0);
    assert s[..k] == seq(k, b requires 0 <= b < k => if Certified(c, b) then |NonZero(c.jobs[b].txs)| else 0);
  }

  lemma JobsNext(c: Config, k: nat)
    requires k < |c.jobs|
    ensures CertifiedJobs(c, k + 1) == CertifiedJobs(c, k) + if Certified(c, k) then 1 else 0
    ensures BadJobs(c, k + 1)
         == BadJobs(c, k) + if c.jobs[k].phase == "certification" && IsBad(c, k) then 1 else 0
  {
    hide IsBad;
    OneMore((set b | 0 <= b < k && Certified(c, b)), (set b | 0 <= b < k + 1 && Certified(c, b)), k);
    OneMore((set b | 0 <= b < k && c.jobs[b].phase == "certification" && IsBad(c, b)),
            (set b | 0 <= b < k + 1 && c.jobs[b].phase == "certification" && IsBad(c, b)), k);
  }

  lemma OneMore(s: set<int>, s': set<int>, k: int)
    requires k !in s
    requires forall b: int | b != k :: b in s <==> b in s'
    ensures |s'| == |s| + if k in s' then 1 else 0
  {
    var t := s' - {k};
    forall b: int ensures b in t <==> b in s {
      if b != k { assert b in s <==> b in s'; }
    }
    assert t == s;
    if k in s' { assert s' == t + {k}; } else { assert s' == t; }
  }

  lemma TotalsNext(applied: seq<Request>, req: Request)
    ensures var before, after := CertifiedTotals(applied), CertifiedTotals(applied + [req]);
            && after.0 == before.0 + (if req.phase == "certification" then req.txCount else 0)
            && after.1 == before.1 + (if req.phase == "certification" then 1 else 0)
  {
    assert (applied + [req])[..|applied|] == applied;
  }

  lemma GoodNext(c: Config, k: nat)
    requires ConfigOk(c) && k < |c.jobs|
    ensures RequestAt(c, k).phase == c.jobs[k].phase && RequestAt(c, k).txCount == |NonZero(c.jobs[k].txs)|
    ensures GoodRequests(c, k + 1) == GoodRequests(c, k) + if IsBad(c, k) then [] else [RequestAt(c, k)]
  {
    hide RequestAt, PayloadOK, ProofOK;
    RequestIsGood(c, k);
    RequestCount(c, k);
  }

  /** One more job, as the report counts it. */
  lemma CountedNext(c: Config, k: nat)
    requires ConfigOk(c) && k < |c.jobs|
    ensures var before, after := CertifiedTotals(GoodRequests(c, k)), CertifiedTotals(GoodRequests(c, k + 1));
            && after.0 == before.0 + (if Certified(c, k) then |NonZero(c.jobs[k].txs)| else 0)
            && after.1 == before.1 + (if Certified(c, k) then 1 else 0)
  {
    hide RequestAt, NonZero, ConfigOk, GoodRequests, CertifiedTotals;
    GoodNext(c, k);
    var reqs := GoodRequests(c, k);
    if IsBad(c, k) {
      assert reqs + [] == reqs;
    } else {
      TotalsNext(reqs, RequestAt(c, k));
    }
  }

  lemma {:induction false} GoodTotals(c: Config, k: nat)
    requires ConfigOk(c) && k <= |c.jobs|
    ensures CertifiedTotals(GoodRequests(c, k)).0 == ValidTransfers(c, k)
    ensures CertifiedTotals(GoodRequests(c, k)).1 == CertifiedJobs(c, k)
  {
    hide GoodRequests, ValidTransfers, CertifiedJobs, BadJobs, CertifiedTotals, NonZero, ConfigOk, Certified;
    if k == 0 {
      NoJobs(c);
      NoRequests(c);
    } else {
      GoodTotals(c, k - 1);
      ValidNext(c, k - 1);
      JobsNext(c, k - 1);
      CountedNext(c, k - 1);
    }
  }

  lemma NoRequests(c: Config)
    requires ConfigOk(c)
    ensures GoodRequests(c, 0) == []
  {
  }

  lemma NoJobs(c: Config)
    ensures ValidTransfers(c, 0) == CertifiedJobs(c, 0) == BadJobs(c, 0) == 0 && CertifiedTotals([]) == (0, 0)
  {
  }

  lemma {:induction false} OnlyBadFail(c: Config, reqs: seq<Request>)
    requires ConfigOk(c) && AreRequests(c, reqs)
    ensures Failures(c.oracle, reqs) == BadJobs(c, |reqs|)
    decreases |reqs|
  {
    hide RequestAt, BadJobs, ValidTransfers, CertifiedJobs, PayloadOK, ProofOK, Run, ConfigOk;
    if reqs == [] {
      NoJobs(c);
    } else {
      var n := |reqs| - 1;
      forall k | 0 <= k < n ensures RequestEntry(c, k, reqs[..n][k]) {
        assert RequestEntry(c, k, reqs[k]);
      }
      OnlyBadFail(c, reqs[..n]);
      AppliedAreGood(c, reqs[..n]);
      assert RequestEntry(c, n, reqs[n]);
      RequestIsGood(c, n);
      JobsNext(c, n);
    }
  }

  /** At every moment of every run, the report's totals are those of the jobs submitted so far: it counts
      certified transfers and blocks exactly for the certification jobs with a good proof, and a proof
      failure exactly for each with a bad one. */
  lemma ReportIsTheJobs(c: Config, moves: seq<Move>)
    requires ConfigOk(c)
    ensures var s := Exec(c, moves);
            var k := |s.submitted|;
            && k <= |c.jobs|
            && LogTotals(s.l1.blockLog) == (ValidTransfers(c, k), CertifiedJobs(c, k), BadJobs(c, k))
  {
    hide Exec, LogTotals, ValidTransfers, CertifiedJobs, BadJobs, Failures, CertifiedTotals;
    var s := Exec(c, moves);
    SubmittedAreRequests(c, moves);
    AppliedAreGood(c, s.submitted);
    ReportAgreesWithLedger(c.oracle, s.submitted);
    GoodTotals(c, |s.submitted|);
    OnlyBadFail(c, s.submitted);
  }
}
