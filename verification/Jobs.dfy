/** The table of jobs that a build makes from its schedule, and the table of images that it makes from its results. */
module Jobs {
  import opened Wrappers
  import opened Orders
  import opened Platforms
  import opened Builders
  import opened Scheduling

  /** A job records the platform it was made for, that platform's parts, and the builder to use. */
  datatype Job = Job(platform: string, target: Target, builder: string)

  datatype JobError = UnknownBuilder(builder: string)

  function JobFor(platform: string, builder: string, norm: Normalizer): Job {
    Job(platform, norm(RawTarget(platform)), builder)
  }

  /** Of the platforms that share builder b, the one at index k comes last. */
  ghost predicate LastFor(schedule: Schedule, order: seq<string>, b: string, k: nat) {
    && k < |order| && order[k] in schedule && schedule[order[k]] == b
    && forall j :: k < j < |order| ==> order[j] !in schedule || schedule[order[j]] != b
  }

  /** The table has, for each builder in use, the job of the last platform that uses it. */
  ghost predicate IsJobTable(schedule: Schedule, order: seq<string>, norm: Normalizer, jobs: map<string, Job>) {
    && (forall b :: b in jobs <==> exists p :: p in schedule && schedule[p] == b)
    && forall b, k: nat :: b in jobs && LastFor(schedule, order, b, k) ==> jobs[b] == JobFor(order[k], b, norm)
  }

  /** Jobs are stored under the name of their builder, so later ones replace earlier ones. */
  method MakeJobs(schedule: Schedule, order: seq<string>, builders: set<string>, norm: Normalizer)
    returns (r: Result<map<string, Job>, JobError>)
    requires Enumerates(order, schedule.Keys)
    ensures r.Ok? <==> schedule.Values <= builders
    ensures r.Ok? ==> IsJobTable(schedule, order, norm, r.value)
    ensures r.Err? ==> r.error.builder in schedule.Values && r.error.builder !in builders
  {
    hide JobFor;
    var jobs: map<string, Job> := map[];
    for i := 0 to |order|
      invariant forall j :: 0 <= j < i ==> schedule[order[j]] in builders
      invariant forall b :: b in jobs <==> exists j :: 0 <= j < i && schedule[order[j]] == b
      invariant forall b, k: nat :: b in jobs && LastFor(schedule, order[..i], b, k) ==>
                jobs[b] == JobFor(order[k], b, norm)
    {
      var platform := order[i];
      var builderName := schedule[platform];
      if builderName !in builders {
        assert platform in schedule && schedule[platform] in schedule.Values;
        return Err(UnknownBuilder(builderName));
      }
      ghost var before := jobs;
      jobs := jobs[builderName := JobFor(platform, builderName, norm)];
      forall b, k: nat | b in jobs && LastFor(schedule, order[..i + 1], b, k)
        ensures jobs[b] == JobFor(order[k], b, norm)
      {
        LastAmongMore(schedule, order, i, b, k);
      }
    }
    assert order[..|order|] == order;
    assert forall p :: p in schedule ==> p in order;
    return Ok(jobs);
  }

  lemma LastAmongMore(schedule: Schedule, order: seq<string>, i: nat, b: string, k: nat)
    requires i < |order| && order[i] in schedule && LastFor(schedule, order[..i + 1], b, k)
    ensures schedule[order[i]] == b ==> k == i
    ensures schedule[order[i]] != b ==> LastFor(schedule, order[..i], b, k)
  {
    assert order[..i + 1][i] == order[i];
    assert order[..i + 1][k] == order[k];
    forall j | k < j < i
      ensures order[..i][j] !in schedule || schedule[order[..i][j]] != b
    {
      assert order[..i + 1][j] == order[j];
    }
  }

  lemma {:induction false} SomeLast(schedule: Schedule, order: seq<string>, b: string, n: nat) returns (k: nat)
    requires n < |order| && order[n] in schedule && schedule[order[n]] == b
    ensures n <= k && LastFor(schedule, order, b, k)
    decreases |order| - n
  {
    if j :| n < j < |order| && order[j] in schedule && schedule[order[j]] == b {
      k := SomeLast(schedule, order, b, j);
    } else {
      k := n;
    }
  }

  ghost predicate Injective(schedule: Schedule) {
    forall p, q :: p in schedule && q in schedule && schedule[p] == schedule[q] ==> p == q
  }

  /** A platform is built with its own job exactly if no platform that shares its builder comes after it. */
  lemma OwnJobIffLast(schedule: Schedule, order: seq<string>, norm: Normalizer, jobs: map<string, Job>, k: nat)
    requires Enumerates(order, schedule.Keys) && IsJobTable(schedule, order, norm, jobs) && k < |order|
    ensures schedule[order[k]] in jobs
    ensures jobs[schedule[order[k]]].platform == order[k] <==> LastFor(schedule, order, schedule[order[k]], k)
    ensures jobs[schedule[order[k]]].builder == schedule[order[k]]
  {
    var b := schedule[order[k]];
    assert b in jobs;
    var last := SomeLast(schedule, order, b, k);
    assert jobs[b] == JobFor(order[last], b, norm);
  }

  /** Whatever the order, every platform is built with its own job exactly if no two platforms share a builder. */
  lemma OwnJobsIffInjective(schedule: Schedule, order: seq<string>, norm: Normalizer, jobs: map<string, Job>)
    requires Enumerates(order, schedule.Keys) && IsJobTable(schedule, order, norm, jobs)
    ensures (forall p :: p in schedule ==> schedule[p] in jobs && jobs[schedule[p]].platform == p)
              <==> Injective(schedule)
  {
    forall p | p in schedule
      ensures schedule[p] in jobs
      ensures Injective(schedule) ==> jobs[schedule[p]].platform == p
    {
      assert p in order;
      var k :| 0 <= k < |order| && order[k] == p;
      OwnJobIffLast(schedule, order, norm, jobs, k);
      if Injective(schedule) {
        assert forall j :: k < j < |order| ==> order[j] != order[k];
        assert LastFor(schedule, order, schedule[p], k);
      }
    }
  }

  // ---------------------------------------------------------------- collecting results

  /** The report of a finished build, and the builder that made it. */
  datatype BuildResult = BuildResult(report: BuildReport, builder: string)

  /** The images by report, going through the results in some order: of equal reports, the last one's builder stays. */
  function Collect(results: map<string, BuildResult>, order: seq<string>): map<BuildReport, string>
    requires forall k :: 0 <= k < |order| ==> order[k] in results
  {
    if order == [] then map[]
    else
      var result := results[order[|order| - 1]];
      Collect(results, order[..|order| - 1])[result.report := result.builder]
  }

  method CollectResults(results: map<string, BuildResult>, order: seq<string>)
    returns (images: map<BuildReport, string>)
    requires Enumerates(order, results.Keys)
    ensures images == Collect(results, order)
  {
    images := map[];
    for i := 0 to |order|
      invariant images == Collect(results, order[..i])
    {
      var result := results[order[i]];
      images := images[result.report := result.builder];
      assert order[..i + 1][..i] == order[..i];
    }
    assert order[..|order|] == order;
  }

  /** The images are exactly the reports, each with a builder that made it. */
  lemma {:induction false} CollectKeepsReports(results: map<string, BuildResult>, order: seq<string>)
    requires forall k :: 0 <= k < |order| ==> order[k] in results
    ensures forall k :: 0 <= k < |order| ==> results[order[k]].report in Collect(results, order)
    ensures forall r :: r in Collect(results, order) ==>
              exists k :: 0 <= k < |order| && results[order[k]] == BuildResult(r, Collect(results, order)[r])
  {
    if order != [] {
      var n := |order| - 1;
      var before := Collect(results, order[..n]);
      CollectKeepsReports(results, order[..n]);
      forall r | r in Collect(results, order)
        ensures exists k :: 0 <= k < |order| && results[order[k]] == BuildResult(r, Collect(results, order)[r])
      {
        if r == results[order[n]].report {
          assert results[order[n]] == BuildResult(r, Collect(results, order)[r]);
        } else {
          var k :| 0 <= k < n && results[order[..n][k]] == BuildResult(r, before[r]);
          assert order[..n][k] == order[k];
        }
      }
      forall k | 0 <= k < |order|
        ensures results[order[k]].report in Collect(results, order)
      {
        if k < n {
          assert order[..n][k] == order[k];
        }
      }
    }
  }

  /** Of equal reports, the last one's builder stays. */
  lemma {:induction false} CollectTakesLast(results: map<string, BuildResult>, order: seq<string>, k: nat)
    requires forall j :: 0 <= j < |order| ==> order[j] in results
    requires k < |order| && forall j :: k < j < |order| ==> results[order[j]].report != results[order[k]].report
    ensures var r := results[order[k]];
            r.report in Collect(results, order) && Collect(results, order)[r.report] == r.builder
  {
    if k < |order| - 1 {
      CollectTakesLast(results, order[..|order| - 1], k);
    }
  }

  ghost predicate DistinctReports(results: map<string, BuildResult>, order: seq<string>)
    requires forall k :: 0 <= k < |order| ==> order[k] in results
  {
    forall j, k :: 0 <= j < k < |order| ==> results[order[j]].report != results[order[k]].report
  }

  lemma UpdateSize<K, V>(m: map<K, V>, k: K, v: V)
    ensures |m[k := v]| == if k in m then |m| else |m| + 1
  {
    assert m[k := v].Keys == m.Keys + {k};
  }

  /** One more report is different from the others if it was not there before. */
  lemma OneMoreReport(results: map<string, BuildResult>, order: seq<string>)
    requires order != [] && forall k :: 0 <= k < |order| ==> order[k] in results
    ensures var init, last := order[..|order| - 1], results[order[|order| - 1]].report;
            && (last in Collect(results, init) <==> exists k :: 0 <= k < |init| && results[init[k]].report == last)
            && (DistinctReports(results, order)
                <==> DistinctReports(results, init) && last !in Collect(results, init))
  {
    var n := |order| - 1;
    var init, last := order[..n], results[order[n]].report;
    CollectKeepsReports(results, init);
    hide Collect;
    assert forall k :: 0 <= k < n ==> init[k] == order[k];
  }

  /** There are as many images as results exactly if no two results have the same report. */
  lemma {:induction false} CollectCounts(results: map<string, BuildResult>, order: seq<string>)
    requires forall k :: 0 <= k < |order| ==> order[k] in results
    ensures |Collect(results, order)| <= |order|
    ensures |Collect(results, order)| == |order| <==> DistinctReports(results, order)
  {
    if order != [] {
      var init, result := order[..|order| - 1], results[order[|order| - 1]];
      CollectCounts(results, init);
      OneMoreReport(results, order);
      UpdateSize(Collect(results, init), result.report, result.builder);
      hide DistinctReports;
    }
  }
}
