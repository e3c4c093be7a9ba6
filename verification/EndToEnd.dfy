/** From what builders find out about themselves to what their engines are told: fetching, scheduling and building. */
module EndToEnd {
  import opened Wrappers
  import opened Orders
  import opened Platforms
  import opened Builders
  import opened Scheduling
  import opened Jobs
  import opened BuildRun
  import opened BuildInvariants
  import opened Conservation
  import opened Completion
  import opened SuccessLimits
  import Scheduler

  // ---------------------------------------------------------------- the farm

  /** What a builder knows was fetched in the way of its kind. */
  ghost predicate FetchedItsWay(b: FarmBuilder) {
    match b.kind
    case Local => exists platform, norm, registered :: b.fetched == LocalFetch(platform, norm, registered)
    case Remote => exists host :: b.fetched == RemoteFetch(host)
  }

  /** A farm of builders that have found out about themselves; the local one uses local storage. */
  ghost predicate IsFarm(c: Config) {
    forall b :: b in c.farm ==>
      && FetchedItsWay(c.farm[b])
      && (c.farm[b].kind.Local? ==> c.farm[b].name == LOCAL_NAME && c.farm[b].store == c.localStore)
  }

  /** What the builders of a farm answer when they are asked. */
  function AnswersOf(farm: map<string, FarmBuilder>): Scheduler.Answers {
    map b | b in farm :: if farm[b].fetched.err.Some? then None else Some(AnswerFrom(farm[b].fetched).info)
  }

  ghost predicate NativeSomewhere(c: Config, p: string) {
    OfferedSomewhere(AnswersOf(c.farm), Scheduler.Native, p)
  }

  /** A builder that answers offers exactly one platform natively: that which spells its target. */
  lemma NativeIsTarget(c: Config, b: string, p: string)
    requires IsFarm(c) && b in c.farm
    ensures p in Scheduler.Offered(AnswersOf(c.farm), Scheduler.Native, b)
            <==> c.farm[b].fetched.err.None? && p == Spell(TargetOf(c, b))
  {
    var f := c.farm[b].fetched;
    assert Coherent(f) by {
      match c.farm[b].kind {
        case Local =>
          var platform, norm, registered :| f == LocalFetch(platform, norm, registered);
          FetchedIsCoherent(platform, norm, registered, None);
        case Remote =>
          var host :| f == RemoteFetch(host);
          FetchedIsCoherent("", t => t, [], host);
      }
    }
  }

  // ---------------------------------------------------------------- a planned build

  /** The schedule is a sound one for the farm, and the jobs are made from it in some order. */
  ghost predicate Planned(c: Config, order: seq<string>, norm: Normalizer) {
    && IsFarm(c)
    && Sound(AnswersOf(c.farm), c.schedule.Keys, Ok(c.schedule))
    && Enumerates(order, c.schedule.Keys) && IsJobTable(c.schedule, order, norm, c.jobs)
  }

  /** Every builder of the schedule is in the farm, has its job in the table, and gets as far as calling its engine. */
  lemma PlannedIsPrepared(c: Config, order: seq<string>, norm: Normalizer)
    requires Planned(c, order, norm)
    ensures Prepared(c) && Callable(c)
    ensures forall b :: b in c.farm ==> c.farm[b].fetched.err.None?
  {
    var ans := AnswersOf(c.farm);
    assert AllAnswer(ans);
    hide Sound, IsJobTable, AllAnswer, LastFor, FetchedItsWay;
    forall b | b in c.farm
      ensures c.farm[b].fetched.err.None?
    {
      AllHaveAnswered(c, b);
    }
    forall p | p in c.schedule
      ensures c.schedule[p] in c.farm && c.schedule[p] in c.jobs && c.jobs[c.schedule[p]].builder == c.schedule[p]
    {
      SoundAssigns(c, p);
      assert p in order;
      var k :| 0 <= k < |order| && order[k] == p;
      OwnJobIffLast(c.schedule, order, norm, c.jobs, k);
    }
  }

  lemma AllHaveAnswered(c: Config, b: string)
    requires AllAnswer(AnswersOf(c.farm)) && b in c.farm
    ensures c.farm[b].fetched.err.None?
  {
    assert AnswersOf(c.farm)[b].Some?;
  }

  lemma SoundAssigns(c: Config, p: string)
    requires Sound(AnswersOf(c.farm), c.schedule.Keys, Ok(c.schedule)) && p in c.schedule
    ensures c.schedule[p] in c.farm
    ensures p in Scheduler.Offered(AnswersOf(c.farm), Preferred(AnswersOf(c.farm), p), c.schedule[p])
  {
    hide Scheduler.Offered, Preferred, OfferedSomewhere;
    assert AnswersOf(c.farm).Keys == c.farm.Keys;
  }

  /**
   Scheduling and then making jobs. For a schedule that was made for the same farm, no builder is unknown; and with no
   platforms given, scheduling fails only if some builder cannot be asked.
   */
  method PlanBuild(c: Config, platforms: seq<string>, norm: Normalizer, end: Scheduler.State,
                   ghost queries: seq<Scheduler.State>)
    returns (r: Result<Config, ScheduleError>, ghost order: seq<string>)
    requires IsFarm(c)
    requires Scheduler.Run(AnswersOf(c.farm), queries) && end == queries[|queries| - 1] && Scheduler.AllFinished(end)
    ensures r.Ok? ==> r.value == c.(schedule := r.value.schedule, jobs := r.value.jobs) && Planned(r.value, order, norm)
    ensures r.Ok? && platforms != [] ==> r.value.schedule.Keys == set p | p in platforms
    ensures r.Ok? && platforms == [] ==> forall p :: p in r.value.schedule <==> NativeSomewhere(c, p)
    ensures r.Ok? ==> GoesToNoted(r.value.schedule, end.native, end.emulated)
    ensures platforms == [] ==> (r.Ok? <==> AllAnswer(AnswersOf(c.farm)))
  {
    hide Scheduler.Run, Scheduler.AllFinished, Sound, GoesToNoted, IsJobTable, AllAnswer, OfferedSomewhere,
         FetchedItsWay;
    order := [];
    var scheduled := MakeSchedule(AnswersOf(c.farm), platforms, end, queries);
    if scheduled.Err? {
      return Err(scheduled.error), [];
    }
    var schedule := scheduled.value;
    if platforms != [] {
      SoundCovers(c, platforms, schedule);
    }
    assert Sound(AnswersOf(c.farm), schedule.Keys, Ok(schedule));
    var platformOrder := ListOf(schedule.Keys);
    NoUnknownBuilder(c.(schedule := schedule));
    var jobs := MakeJobs(schedule, platformOrder, c.farm.Keys, norm);
    assert jobs.Ok?;
    return Ok(c.(schedule := schedule, jobs := jobs.value)), platformOrder;
  }

  lemma SoundCovers(c: Config, platforms: seq<string>, schedule: Schedule)
    requires Sound(AnswersOf(c.farm), (set p | p in platforms), Ok(schedule))
    ensures schedule.Keys == set p | p in platforms
    ensures Sound(AnswersOf(c.farm), schedule.Keys, Ok(schedule))
  {
    hide Preferred, OfferedSomewhere, Scheduler.Offered;
  }

  lemma NoUnknownBuilder(c: Config)
    requires Sound(AnswersOf(c.farm), c.schedule.Keys, Ok(c.schedule))
    ensures c.schedule.Values <= c.farm.Keys
  {
    hide Sound;
    forall b | b in c.schedule.Values
      ensures b in c.farm
    {
      var p :| p in c.schedule && c.schedule[p] == b;
      SoundAssigns(c, p);
    }
  }

  // ---------------------------------------------------------------- what the engines are told

  /**
   The target of the builder that a platform is scheduled on spells the platform exactly if it is native somewhere.
   */
  lemma TargetSpellsIffNative(c: Config, order: seq<string>, norm: Normalizer, p: string)
    requires Planned(c, order, norm) && p in c.schedule
    ensures Spell(TargetOf(c, c.schedule[p])) == p <==> NativeSomewhere(c, p)
  {
    PlannedIsPrepared(c, order, norm);
    var ans, b := AnswersOf(c.farm), c.schedule[p];
    SoundAssigns(c, p);
    NativeIsTarget(c, b, p);
    hide Planned, TargetOf, Scheduler.Offered;
    if Spell(TargetOf(c, b)) == p {
      assert b in ans;
    }
  }

  /**
   In every state of every run, an engine is told to build for the platform it was called for exactly if that platform
   is native to some builder of the farm. For any other platform the engine builds for its own instead.
   */
  lemma EngineBuildsForPlatformIffNative(c: Config, order: seq<string>, norm: Normalizer, run: seq<State>, i: nat,
                                         k: nat)
    requires Planned(c, order, norm) && Run(c, run) && i < |run| && k < |run[i].calls|
    ensures var call := run[i].calls[k];
            && call.platform in c.schedule && call.builder == c.schedule[call.platform]
            && (Spell(call.target) == call.platform <==> NativeSomewhere(c, call.platform))
  {
    PlannedIsPrepared(c, order, norm);
    RunKeepsInv(c, run, i);
    var call := run[i].calls[k];
    assert call.target == TargetOf(c, call.builder);
    hide Run, Inv, Planned, Prepared, TargetOf;
    TargetSpellsIffNative(c, order, norm, call.platform);
  }

  /**
   A farm of one local builder, with a default platform and registered emulators, and a build for another platform.
   */
  function Emulating(platform: string, registered: seq<string>, other: string, norm: Normalizer): Config {
    Config(map["b" := FarmBuilder(Local, LOCAL_NAME, LocalFetch(platform, norm, registered), "s")],
           map[other := "b"], map["b" := JobFor(other, "b", norm)], "oci-archive", ListLocal, false, "s", r => r)
  }

  /**
   So a platform that is only emulated is scheduled without an error, and then the builder's own is built instead:
   for any default platform, with or without a variant, and whatever becomes of it when it is normalised.
   */
  lemma EmulatedPlatformIsBuiltForAnother(platform: string, registered: seq<string>, other: string, norm: Normalizer)
    requires '/' in platform && other in registered && other !in LocalFetch(platform, norm, registered).native
    ensures Planned(Emulating(platform, registered, other, norm), [other], norm)
    ensures !NativeSomewhere(Emulating(platform, registered, other, norm), other)
    ensures LocalFetch(platform, norm, registered).native
         == [Spell(TargetOf(Emulating(platform, registered, other, norm), "b"))]
  {
    var c := Emulating(platform, registered, other, norm);
    var f := LocalFetch(platform, norm, registered);
    FetchedWithEmulators(platform, registered, norm);
    EmulatingIsFarm(c, platform, registered, norm);
    hide LocalFetch, JobFor, Spell, Sound, IsJobTable, NativeSomewhere, Enumerates, IsFarm;
    EmulatingIsSound(c, f.native, registered, other);
    EmulatingHasItsJob(c, other, norm);
  }

  lemma EmulatingIsFarm(c: Config, platform: string, registered: seq<string>, norm: Normalizer)
    requires c.farm == map["b" := FarmBuilder(Local, LOCAL_NAME, LocalFetch(platform, norm, registered), c.localStore)]
    ensures IsFarm(c)
  {
    assert FetchedItsWay(c.farm["b"]);
    hide LocalFetch;
  }

  lemma FetchedWithEmulators(platform: string, registered: seq<string>, norm: Normalizer)
    requires '/' in platform
    ensures var f := LocalFetch(platform, norm, registered);
            f.err.None? && f.native == [Spell(f.target)] && f.emulated == registered
  {
    FetchedIsCoherent(platform, norm, registered, None);
  }

  lemma EmulatingIsSound(c: Config, native: seq<string>, registered: seq<string>, other: string)
    requires AnswersOf(c.farm) == map["b" := Some(Info(native, registered))] && c.schedule == map[other := "b"]
    requires other in registered && other !in native
    ensures Sound(AnswersOf(c.farm), c.schedule.Keys, Ok(c.schedule)) && !NativeSomewhere(c, other)
  {
    var ans := AnswersOf(c.farm);
    hide AnswersOf;
    assert other in Scheduler.Offered(ans, Scheduler.Emulated, "b");
    assert OfferedSomewhere(ans, Scheduler.Emulated, other);
  }

  lemma EmulatingHasItsJob(c: Config, other: string, norm: Normalizer)
    requires c.schedule == map[other := "b"] && c.jobs == map["b" := JobFor(other, "b", norm)]
    ensures Enumerates([other], c.schedule.Keys) && IsJobTable(c.schedule, [other], norm, c.jobs)
  {
    hide JobFor;
    assert other in c.schedule && other in [other];
  }

  /** If only native platforms are scheduled, no two of them share a builder, so each is built with its own job. */
  lemma NativeSchedulesAreInjective(c: Config, order: seq<string>, norm: Normalizer)
    requires Planned(c, order, norm) && forall p :: p in c.schedule ==> NativeSomewhere(c, p)
    ensures Injective(c.schedule)
    ensures forall p :: p in c.schedule ==> c.schedule[p] in c.jobs && c.jobs[c.schedule[p]].platform == p
  {
    forall p | p in c.schedule
      ensures Spell(TargetOf(c, c.schedule[p])) == p
    {
      TargetSpellsIffNative(c, order, norm, p);
    }
    OwnJobsIffInjective(c.schedule, order, norm, c.jobs);
    hide NativeSomewhere, IsJobTable, Sound, TargetOf;
  }

  /** Call number k is the one and only call for its platform. */
  ghost predicate OnlyCallFor(calls: seq<EngineCall>, p: string, k: nat) {
    && k < |calls| && calls[k].platform == p
    && forall j :: 0 <= j < |calls| && j != k ==> calls[j].platform != p
  }

  /** The engine is called on a builder that offers the platform natively, and is told that very platform. */
  ghost predicate CalledNatively(c: Config, call: EngineCall) {
    && call.builder in c.farm
    && call.platform in Scheduler.Offered(AnswersOf(c.farm), Scheduler.Native, call.builder)
    && call.target == TargetOf(c, call.builder) && Spell(call.target) == call.platform
  }

  /**
   With no platforms given: however the queries were answered, and however the builds went, once all builds have
   succeeded each native platform of the farm has been built exactly once, on a builder native to it and for that
   very platform; nothing else has been built, and no builder has been used twice.
   */
  lemma EachNativePlatformBuiltOnce(c: Config, order: seq<string>, norm: Normalizer, run: seq<State>, i: nat)
    requires Planned(c, order, norm) && forall p :: p in c.schedule <==> NativeSomewhere(c, p)
    requires Run(c, run) && i < |run| && !run[i].phase.Builds?
    ensures forall p :: NativeSomewhere(c, p) ==> exists k: nat :: OnlyCallFor(run[i].calls, p, k)
    ensures forall k :: 0 <= k < |run[i].calls| ==> CalledNatively(c, run[i].calls[k])
    ensures forall j, k :: 0 <= j < k < |run[i].calls| ==> run[i].calls[j].builder != run[i].calls[k].builder
  {
    PlannedIsPrepared(c, order, norm);
    RunKeepsInv(c, run, i);
    hide Run, Prepared, Callable, BarrierInv, PulledInv, NativeSomewhere, Planned, ImagesInv, CallsInv, OnlyCallFor,
         CalledNatively;
    NativeCalls(c, order, norm, run[i]);
  }

  /** Every planned build can get all its images built and pulled, so the statement above is about some runs. */
  lemma PlansCanBeBuilt(c: Config, order: seq<string>, norm: Normalizer, first: State, ids: ImageIDs)
    returns (run: seq<State>)
    requires Planned(c, order, norm) && Starts(c, first) && c.schedule.Keys <= ids.Keys
    ensures Run(c, run) && run[0] == first && !Last(run).failed && Last(run).phase.Pulls?
    ensures Last(run).builds == map p | p in c.schedule :: Built(BuildReport(ids[p], c.saveFormat))
    ensures Last(run).pulls == map r | r in Last(run).images :: Pulled
  {
    PlannedIsPrepared(c, order, norm);
    hide Planned, Prepared, Callable, Starts, Run;
    run := SomeRunPulls(c, first, ids);
  }

  /**
   A planned build can succeed, from any contents of the stores and of the list and with any image IDs, exactly if every
   image can be collected from a builder where removing it does not remove it from local storage.
   */
  lemma PlansSucceedIffSafeSources(c: Config, order: seq<string>, norm: Normalizer, first: State, ids: ImageIDs)
    requires Planned(c, order, norm) && Starts(c, first) && c.schedule.Keys <= ids.Keys
    ensures (exists run :: Succeeds(c, first, ids, run)) <==> CanSucceed(c, ids)
    ensures SafeToRemove(c) ==> CanSucceed(c, ids)
  {
    PlannedIsPrepared(c, order, norm);
    hide Planned, Prepared, Callable, Starts, Succeeds, CanSucceed, SafeToRemove;
    SuccessIffSafeSources(c, first, ids);
    if SafeToRemove(c) {
      SafeMeansSafeSources(c, ids);
    }
  }

  lemma NativeCalls(c: Config, order: seq<string>, norm: Normalizer, s: State)
    requires Planned(c, order, norm) && forall p :: p in c.schedule <==> NativeSomewhere(c, p)
    requires ImagesInv(c, s) && CallsInv(c, s) && !s.phase.Builds?
    ensures forall p :: NativeSomewhere(c, p) ==> exists k: nat :: OnlyCallFor(s.calls, p, k)
    ensures forall k :: 0 <= k < |s.calls| ==> CalledNatively(c, s.calls[k])
    ensures forall j, k :: 0 <= j < k < |s.calls| ==> s.calls[j].builder != s.calls[k].builder
  {
    NativeSchedulesAreInjective(c, order, norm);
    DifferentBuilders(c, s);
    hide Injective, NativeSomewhere, TargetOf, Planned, CalledNatively, OnlyCallFor;
    forall k | 0 <= k < |s.calls|
      ensures CalledNatively(c, s.calls[k])
    {
      NativeCall(c, order, norm, s, k);
    }
    forall p | NativeSomewhere(c, p)
      ensures exists k: nat :: OnlyCallFor(s.calls, p, k)
    {
      var k := TheCall(c, s, p);
    }
  }

  lemma DifferentBuilders(c: Config, s: State)
    requires CallsInv(c, s) && Injective(c.schedule)
    ensures forall j, k :: 0 <= j < k < |s.calls| ==> s.calls[j].builder != s.calls[k].builder
  {
    hide TargetOf;
  }

  lemma TheCall(c: Config, s: State, p: string) returns (k: nat)
    requires CallsInv(c, s) && p in s.builds && s.builds[p].Built?
    ensures OnlyCallFor(s.calls, p, k)
  {
    k :| 0 <= k < |s.calls| && s.calls[k].platform == p;
  }

  lemma NativeCall(c: Config, order: seq<string>, norm: Normalizer, s: State, k: nat)
    requires Planned(c, order, norm) && CallsInv(c, s) && k < |s.calls|
    requires NativeSomewhere(c, s.calls[k].platform)
    ensures CalledNatively(c, s.calls[k])
  {
    var call := s.calls[k];
    SoundAssigns(c, call.platform);
    TargetSpellsIffNative(c, order, norm, call.platform);
  }

  /** However the queries of one farm were answered, a native platform is built for the same target. */
  lemma NativeTargetIsFixed(c: Config, corder: seq<string>, d: Config, dorder: seq<string>, norm: Normalizer, p: string)
    requires Planned(c, corder, norm) && Planned(d, dorder, norm) && c.farm == d.farm
    requires p in c.schedule && p in d.schedule && NativeSomewhere(c, p)
    requires var t := TargetOf(c, c.schedule[p]); '/' !in t.os && '/' !in t.arch && '/' !in t.variant
    requires var u := TargetOf(d, d.schedule[p]); '/' !in u.os && '/' !in u.arch && '/' !in u.variant
    ensures TargetOf(c, c.schedule[p]) == TargetOf(d, d.schedule[p])
  {
    TargetSpellsIffNative(c, corder, norm, p);
    TargetSpellsIffNative(d, dorder, norm, p);
    SpellingIsInjective(TargetOf(c, c.schedule[p]), TargetOf(d, d.schedule[p]));
    hide Planned, TargetOf;
  }

  /** What a native platform's job asks the builder for is its engine's own target, normalised. */
  lemma JobAsksForTarget(c: Config, order: seq<string>, norm: Normalizer, p: string)
    requires Planned(c, order, norm) && (forall q :: q in c.schedule ==> NativeSomewhere(c, q)) && p in c.schedule
    requires var t := TargetOf(c, c.schedule[p]); '/' !in t.os && '/' !in t.arch && '/' !in t.variant
    ensures c.schedule[p] in c.jobs
    ensures c.jobs[c.schedule[p]] == Job(p, norm(TargetOf(c, c.schedule[p])), c.schedule[p])
  {
    var b := c.schedule[p];
    NativeSchedulesAreInjective(c, order, norm);
    TargetSpellsIffNative(c, order, norm, p);
    SpellingRoundTrip(TargetOf(c, b));
    hide NativeSomewhere, Sound, TargetOf, RawTarget, Spell, IsFarm;
    assert p in order;
    var k :| 0 <= k < |order| && order[k] == p;
    var last := SomeLast(c.schedule, order, b, k);
    assert c.jobs[b] == JobFor(order[last], b, norm);
  }

  /**
   The target that an engine is told, in terms of the calls that its builder received: if the builder answered the
   scheduler's query with what the plan is based on, the build that comes later works with that same target, even if
   asking again would by then have given another answer.
   */
  lemma BuildUsesAnsweredTarget(c: Config, order: seq<string>, norm: Normalizer, p: string,
                                calls: seq<(Query, Fetched)>, asked: nat, built: nat)
    requires Planned(c, order, norm) && p in c.schedule && NativeSomewhere(c, p)
    requires asked < built < |calls| && calls[asked].0.AskInfo? && calls[built].0.AskBuild?
    requires c.schedule[p] in c.farm
    requires AnswerTo(c.farm[c.schedule[p]].kind, calls, asked) == AnswerFrom(c.farm[c.schedule[p]].fetched)
    ensures Spell(AnswerTo(c.farm[c.schedule[p]].kind, calls, built).target) == p
  {
    TargetSpellsIffNative(c, order, norm, p);
    BuildSeesWhatWasAnswered(c.farm[c.schedule[p]].kind, calls, asked, built);
    hide AnswerTo, Planned;
  }

  // ---------------------------------------------------------------- what the list builder is given

  /** No two platforms have the same report. */
  ghost predicate AllDifferent(c: Config, s: State)
    requires forall p :: p in c.schedule ==> p in s.builds && s.builds[p].Built?
  {
    forall p, q :: p in c.schedule && q in c.schedule && p != q ==> s.builds[p].report != s.builds[q].report
  }

  /**
   The list builder is called only when every scheduled platform has a result. What it is given is exactly the set
   of reports, each with a builder that made it: one image for each platform exactly if no two reports are the same.
   */
  lemma ReportsAreCollected(c: Config, run: seq<State>, i: nat, order: seq<string>, listOpened: bool)
    requires Prepared(c) && Run(c, run) && i < |run| && CanHappen(c, run[i], BuildsDone(order, listOpened))
    requires !Next(c, run[i], BuildsDone(order, listOpened)).failed
    ensures forall p :: p in c.schedule ==> p in run[i].builds && run[i].builds[p].Built?
    ensures var images := Next(c, run[i], BuildsDone(order, listOpened)).images;
            && images.Keys == (set p | p in c.schedule :: run[i].builds[p].report)
            && (forall r :: r in images ==> ComesFrom(c, run[i], r, images[r]))
            && (|images| == |c.schedule| <==> AllDifferent(c, run[i]))
  {
    RunKeepsInv(c, run, i);
    assert run[i].builds.Keys == c.schedule.Keys;
    hide Run, Next, CanHappen, ImagesInv, BarrierInv, PulledInv, CallsInv, Prepared, Results, Collect, ComesFrom,
         AllDifferent;
    AtTheFirstBarrier(c, run[i], order, listOpened);
    ImagesAreReports(c, run[i], order);
    ImagesAreCounted(c, run[i], order);
  }

  lemma AtTheFirstBarrier(c: Config, s: State, order: seq<string>, listOpened: bool)
    requires CanHappen(c, s, BuildsDone(order, listOpened)) && !Next(c, s, BuildsDone(order, listOpened)).failed
    ensures Enumerates(order, Results(c, s).Keys)
    ensures Next(c, s, BuildsDone(order, listOpened)).images == Collect(Results(c, s), order)
    ensures forall p :: p in s.builds ==> s.builds[p].Built?
  {
    hide Collect, Results;
  }

  lemma ImagesAreReports(c: Config, s: State, order: seq<string>)
    requires Prepared(c) && s.builds.Keys == c.schedule.Keys && Enumerates(order, Results(c, s).Keys)
    requires forall p :: p in s.builds ==> s.builds[p].Built?
    ensures var images := Collect(Results(c, s), order);
            && images.Keys == (set p | p in c.schedule :: s.builds[p].report)
            && (forall r :: r in images ==> ComesFrom(c, s, r, images[r]))
  {
    CollectedImages(c, s, order);
    hide Collect, Results, Prepared, Enumerates, ComesFrom;
    KeysAreReports(c, s, Collect(Results(c, s), order));
  }

  lemma KeysAreReports(c: Config, s: State, images: map<BuildReport, string>)
    requires s.builds.Keys == c.schedule.Keys
    requires forall p :: p in s.builds ==> s.builds[p].Built? && s.builds[p].report in images
    requires forall r :: r in images ==> ComesFrom(c, s, r, images[r])
    ensures images.Keys == set p | p in c.schedule :: s.builds[p].report
  {
  }

  lemma ImagesAreCounted(c: Config, s: State, order: seq<string>)
    requires Prepared(c) && s.builds.Keys == c.schedule.Keys && Enumerates(order, Results(c, s).Keys)
    requires forall p :: p in s.builds ==> s.builds[p].Built?
    ensures |Collect(Results(c, s), order)| == |c.schedule| <==> AllDifferent(c, s)
  {
    CollectCounts(Results(c, s), order);
    assert Results(c, s).Keys == c.schedule.Keys;
    hide Collect, Results, Prepared;
    SizeOfOrder(order, c.schedule.Keys);
    DistinctIffDifferent(c, s, order);
  }

  lemma DistinctIffDifferent(c: Config, s: State, order: seq<string>)
    requires Prepared(c) && s.builds.Keys == c.schedule.Keys && forall p :: p in s.builds ==> s.builds[p].Built?
    requires Enumerates(order, Results(c, s).Keys)
    ensures DistinctReports(Results(c, s), order) <==> AllDifferent(c, s)
  {
    var results := Results(c, s);
    assert results.Keys == c.schedule.Keys;
    assert forall p :: p in results ==> results[p].report == s.builds[p].report;
    hide Results, Prepared;
    if DistinctReports(results, order) {
      forall p, q | p in c.schedule && q in c.schedule && p != q
        ensures s.builds[p].report != s.builds[q].report
      {
        assert p in order && q in order;
        var j :| 0 <= j < |order| && order[j] == p;
        var k :| 0 <= k < |order| && order[k] == q;
        assert results[order[j]].report != results[order[k]].report;
      }
    }
  }

  lemma {:induction false} SizeOfOrder(order: seq<string>, members: set<string>)
    requires Enumerates(order, members)
    ensures |order| == |members|
  {
    if order == [] {
      assert members == {};
    } else {
      assert members == members - {order[0]} + {order[0]};
      assert forall x :: x in members - {order[0]} ==> x in order[1..];
      SizeOfOrder(order[1..], members - {order[0]});
    }
  }
}
