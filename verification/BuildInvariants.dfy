/** What every reachable state of a build keeps. */
module BuildInvariants {
  import opened Wrappers
  import opened Orders
  import opened Builders
  import opened Jobs
  import opened BuildRun

  // ---------------------------------------------------------------- what a step leaves alone

  predicate OfBuild(e: Event) {
    e.BuildOk? || e.BuildFails?
  }

  predicate OfPull(e: Event) {
    e.Save? || e.Load? || e.AlreadyLocal? || e.PullFails?
  }

  predicate OfRemoval(e: Event) {
    e.RemoveOk? || e.RemoveFails?
  }

  /** What changes in which kind of step. */
  predicate Framed(s: State, e: Event, t: State) {
    && (!OfBuild(e) ==> t.builds == s.builds && t.calls == s.calls)
    && (!e.BuildsDone? ==> t.images == s.images && (t.phase.Builds? <==> s.phase.Builds?))
    && (e.BuildsDone? ==> s.phase.Builds? && (t.phase.Builds? <==> t.failed))
    && (!e.BuildsDone? && !OfPull(e) ==> t.pulls == s.pulls && t.refs == s.refs && (!t.failed ==> t.files == s.files))
    && (t.failed ==> t.files == {})
    && (OfBuild(e) ==> s.phase.Builds?) && (OfPull(e) ==> s.phase.Pulls?) && (OfRemoval(e) ==> s.phase.Removals?)
    && (OfBuild(e) || OfPull(e) || OfRemoval(e) ==> t.phase == s.phase && !t.failed)
    && (!OfBuild(e) && !OfPull(e) && !OfRemoval(e) ==> t.copies == s.copies)
  }

  predicate PastPulls(s: State) {
    !s.phase.Builds? && !s.phase.Pulls?
  }

  predicate PastRemovals(s: State) {
    PastPulls(s) && !s.phase.Removals?
  }

  lemma FrameOfBuild(c: Config, s: State, p: string, image: string, called: bool,
                    leftovers: set<string>)
    requires s.phase.Builds? && !s.failed && p in c.schedule && (called ==> c.schedule[p] in c.jobs)
    ensures c.schedule[p] in c.jobs ==> Framed(s, BuildOk(p, image), BuildSucceeds(c, s, p, image))
    ensures Framed(s, BuildFails(p, called, leftovers), BuildGivesUp(c, s, p, called, leftovers))
  {
    hide StoreOf, WorkerFor, TargetOf, ReportOf;
  }

  lemma FrameOfStartPulls(c: Config, s: State, order: seq<string>, listOpened: bool)
    requires s.phase.Builds? && !s.failed && Enumerates(order, Results(c, s).Keys)
    ensures Framed(s, BuildsDone(order, listOpened), StartPulls(c, s, order, listOpened))
  {
    hide Collect, Results, Enumerates;
  }

  lemma FrameOfPull(c: Config, s: State, r: BuildReport, loaded: bool)
    requires s.phase.Pulls? && !s.failed
    ensures Framed(s, Save(r), PullSaves(c, s, r))
    ensures Framed(s, Load(r), PullSucceeds(c, s, r, true)) && Framed(s, AlreadyLocal(r), PullSucceeds(c, s, r, false))
    ensures Framed(s, PullFails(r, loaded), PullGivesUp(c, s, r, loaded))
  {
    hide RefOf;
  }

  lemma FrameOfStartRemovals(c: Config, s: State)
    requires s.phase.Pulls? && !s.failed
    ensures Framed(s, PullsDone, StartRemovals(c, s))
  {
    hide Removable;
  }

  lemma FrameOfRemoval(c: Config, s: State, r: BuildReport, removed: bool)
    requires s.phase.Removals? && !s.failed
    ensures r in s.images ==> Framed(s, RemoveOk(r), RemovalEnds(c, s, r, true, Removed))
    ensures r in s.images ==> Framed(s, RemoveFails(r, removed), RemovalEnds(c, s, r, removed, RemoveFailed))
    ensures Framed(s, RemovalsDone, EndRemovals(c, s))
  {
    hide StoreOf;
  }

  /** A step of the last phases changes the list, what is left to do with it, and how far the run is; nothing else. */
  predicate OnlyList(s: State, t: State) {
    && t.copies == s.copies && t.builds == s.builds && t.calls == s.calls && t.images == s.images && t.pulls == s.pulls
    && t.refs == s.refs && t.removals == s.removals
    && (if t.failed then t.phase == s.phase && t.files == {} else t.files == s.files)
  }

  lemma ClearingIsOnlyList(s: State, d: string, ok: bool)
    requires !s.failed
    ensures OnlyList(s, ReadList(s, ok)) && (ReadList(s, ok).phase == s.phase || ReadList(s, ok).phase == Clearing)
    ensures OnlyList(s, ClearInstance(s, d, ok)) && ClearInstance(s, d, ok).phase == s.phase
  {
  }

  lemma AddingIsOnlyList(c: Config, s: State, d: string, ok: bool)
    requires !s.failed
    ensures OnlyList(s, AddInstance(c, s, d, ok)) && AddInstance(c, s, d, ok).phase == s.phase
    ensures OnlyList(s, s.(phase := Adding, toAdd := s.refs)) && OnlyList(s, s.(phase := Succeeded))
    ensures OnlyList(s, Fail(s)) && Fail(s).phase == s.phase
  {
  }

  /** The steps of the last phases. */
  predicate OfList(e: Event) {
    e.Inspect? || e.ClearOne? || e.ClearingDone? || e.AddOne? || e.AddingDone? || e.WritingDone?
  }

  lemma ListSteps(c: Config, s: State, e: Event)
    requires CanHappen(c, s, e) && OfList(e)
    ensures var t := Next(c, s, e);
            && OnlyList(s, t) && PastRemovals(s) && PastRemovals(t)
            && (t.phase == s.phase || t.phase == Succeeded
                || (s.phase == Inspecting && t.phase == Clearing) || (s.phase == Clearing && t.phase == Adding))
  {
    hide OnlyList, ReadList, ClearInstance, AddInstance, Fail;
    match e {
      case Inspect(ok) => ClearingIsOnlyList(s, "", ok);
      case ClearOne(d, ok) => ClearingIsOnlyList(s, d, ok);
      case ClearingDone => AddingIsOnlyList(c, s, "", true);
      case AddOne(ref, ok) => AddingIsOnlyList(c, s, ref, ok);
      case AddingDone => AddingIsOnlyList(c, s, "", true);
      case WritingDone(ok) => AddingIsOnlyList(c, s, "", ok);
    }
  }

  lemma Frame(c: Config, s: State, e: Event)
    requires CanHappen(c, s, e)
    ensures Framed(s, e, Next(c, s, e))
  {
    if OfList(e) {
      ListSteps(c, s, e);
      hide Next, CanHappen;
    } else {
      FrameBeforeList(c, s, e);
    }
  }

  lemma FrameBeforeList(c: Config, s: State, e: Event)
    requires CanHappen(c, s, e) && !OfList(e)
    ensures Framed(s, e, Next(c, s, e))
  {
    hide Framed, BuildSucceeds, BuildGivesUp, StartPulls, PullSaves, PullSucceeds, PullGivesUp, StartRemovals,
         RemovalEnds, EndRemovals, ReadList, ClearInstance, AddInstance;
    match e {
      case BuildOk(p, image) => FrameOfBuild(c, s, p, image, false, {});
      case BuildFails(p, called, leftovers) => FrameOfBuild(c, s, p, "", called, leftovers);
      case BuildsDone(order, listOpened) => FrameOfStartPulls(c, s, order, listOpened);
      case Save(r) => FrameOfPull(c, s, r, false);
      case Load(r) => FrameOfPull(c, s, r, false);
      case AlreadyLocal(r) => FrameOfPull(c, s, r, false);
      case PullFails(r, loaded) => FrameOfPull(c, s, r, loaded);
      case PullsDone => FrameOfStartRemovals(c, s);
      case RemoveOk(r) => FrameOfRemoval(c, s, r, false);
      case RemoveFails(r, removed) => FrameOfRemoval(c, s, r, removed);
      case RemovalsDone => FrameOfRemoval(c, s, ReportOf(c, ""), false);
    }
  }

  // ---------------------------------------------------------------- builds and images

  ghost predicate ComesFrom(c: Config, s: State, r: BuildReport, b: string) {
    exists p :: p in c.schedule && p in s.builds && s.builds[p] == Built(r) && c.schedule[p] == b
  }

  /**
   Before the first barrier nothing has been collected. After it every build has succeeded, every report has an image,
   and every image is a report of the builder it is taken from.
   */
  ghost predicate ImagesInv(c: Config, s: State) {
    && s.builds.Keys == c.schedule.Keys
    && (s.phase.Builds? ==> s.images == map[])
    && (!s.phase.Builds? ==>
          && (forall p :: p in s.builds ==> s.builds[p].Built? && s.builds[p].report in s.images)
          && (forall r :: r in s.images ==> ComesFrom(c, s, r, s.images[r])))
  }

  lemma CollectedImages(c: Config, s: State, order: seq<string>)
    requires Prepared(c) && s.builds.Keys == c.schedule.Keys && Enumerates(order, Results(c, s).Keys)
    requires forall p :: p in s.builds ==> s.builds[p].Built?
    ensures var images := Collect(Results(c, s), order);
            && (forall p :: p in s.builds ==> s.builds[p].report in images)
            && (forall r :: r in images ==> ComesFrom(c, s, r, images[r]))
  {
    var results := Results(c, s);
    CollectKeepsReports(results, order);
    var images := Collect(results, order);
    hide Collect;
    forall p | p in s.builds
      ensures s.builds[p].report in images
    {
      assert p in results && p in order;
      var k :| 0 <= k < |order| && order[k] == p;
      assert results[order[k]].report in images;
    }
    forall r | r in images
      ensures ComesFrom(c, s, r, images[r])
    {
      var k :| 0 <= k < |order| && results[order[k]] == BuildResult(r, images[r]);
      assert s.builds[order[k]] == Built(r);
    }
  }

  lemma StepKeepsImages(c: Config, s: State, e: Event)
    requires Prepared(c) && ImagesInv(c, s) && CanHappen(c, s, e)
    ensures ImagesInv(c, Next(c, s, e))
  {
    if e.BuildsDone? {
      BuildsDoneKeepsImages(c, s, e.order, e.listOpened);
    } else {
      Frame(c, s, e);
      hide Next, CanHappen;
      var t := Next(c, s, e);
      if !s.phase.Builds? {
        assert forall r :: r in s.images ==> (ComesFrom(c, s, r, s.images[r]) ==> ComesFrom(c, t, r, t.images[r]));
      } else if OfBuild(e) {
        BuildKeepsPlatforms(c, s, e);
      }
    }
  }

  lemma BuildKeepsPlatforms(c: Config, s: State, e: Event)
    requires CanHappen(c, s, e) && OfBuild(e)
    ensures Next(c, s, e).builds.Keys == s.builds.Keys
  {
  }

  lemma BuildsDoneKeepsImages(c: Config, s: State, order: seq<string>, listOpened: bool)
    requires Prepared(c) && ImagesInv(c, s) && CanHappen(c, s, BuildsDone(order, listOpened))
    ensures ImagesInv(c, Next(c, s, BuildsDone(order, listOpened)))
  {
    hide Collect, Results, Prepared;
    var t := StartPulls(c, s, order, listOpened);
    assert t.builds == s.builds;
    assert !t.failed ==> t.images == Collect(Results(c, s), order) && t.phase.Pulls?;
    assert t.failed ==> t.images == s.images && t.phase == s.phase;
    assert !t.failed ==> forall p :: p in s.builds ==> s.builds[p].Built?;
    hide StartPulls, Next, CanHappen;
    if !t.failed {
      CollectedImages(c, s, order);
      assert forall r :: r in t.images ==> (ComesFrom(c, s, r, t.images[r]) ==> ComesFrom(c, t, r, t.images[r]));
    }
  }

  // ---------------------------------------------------------------- pulls and removals

  /** The removals that were asked for. */
  function ToRemove(c: Config, s: State): set<BuildReport> {
    if c.removeIntermediates then set r | r in s.images && Removable(c, s.images[r]) else {}
  }

  /** No removal starts before every pull has succeeded, and nothing after it before every removal has. */
  ghost predicate BarrierInv(c: Config, s: State) {
    && s.pulls.Keys == s.images.Keys
    && (PastPulls(s) ==> forall r :: r in s.images ==> s.pulls[r].Pulled?)
    && (!PastPulls(s) ==> s.removals == map[])
    && (s.phase.Removals? ==> s.removals.Keys == ToRemove(c, s))
    && (PastRemovals(s) ==> s.removals.Keys == ToRemove(c, s) && forall r :: r in s.removals ==> s.removals[r].Removed?)
    && (s.phase.Inspecting? || s.phase.Clearing? || s.phase.Adding? ==> c.kind.ListLocal?)
    && (s.phase.Writing? ==> c.kind.ListFiles?)
  }

  lemma StepKeepsBarriers(c: Config, s: State, e: Event)
    requires BarrierInv(c, s) && CanHappen(c, s, e)
    ensures BarrierInv(c, Next(c, s, e))
  {
    if OfList(e) {
      ListSteps(c, s, e);
      hide Next, CanHappen, Removable;
      assert ToRemove(c, s) == if c.removeIntermediates then set r | r in s.images && Removable(c, s.images[r]) else {};
    } else {
      EarlierStepKeepsBarriers(c, s, e);
    }
  }

  lemma EarlierStepKeepsBarriers(c: Config, s: State, e: Event)
    requires BarrierInv(c, s) && CanHappen(c, s, e) && !OfList(e)
    ensures BarrierInv(c, Next(c, s, e))
  {
    hide BarrierInv, BuildSucceeds, BuildGivesUp, StartPulls, PullSaves, PullSucceeds, PullGivesUp, StartRemovals,
         RemovalEnds, EndRemovals, ReadList, ClearInstance, AddInstance;
    match e {
      case BuildOk(p, image) => BuildsKeepBarriers(c, s, p, image, false, {});
      case BuildFails(p, called, leftovers) => BuildsKeepBarriers(c, s, p, "", called, leftovers);
      case BuildsDone(order, listOpened) => StartPullsKeepsBarriers(c, s, order, listOpened);
      case Save(r) => PullsKeepBarriers(c, s, r, false);
      case Load(r) => PullsKeepBarriers(c, s, r, true);
      case AlreadyLocal(r) => PullsKeepBarriers(c, s, r, false);
      case PullFails(r, loaded) => PullsKeepBarriers(c, s, r, loaded);
      case PullsDone => StartRemovalsKeepsBarriers(c, s);
      case RemoveOk(r) => RemovalsKeepBarriers(c, s, r, true, Removed);
      case RemoveFails(r, removed) => RemovalsKeepBarriers(c, s, r, removed, RemoveFailed);
      case RemovalsDone => EndRemovalsKeepsBarriers(c, s);
    }
  }

  lemma BuildsKeepBarriers(c: Config, s: State, p: string, image: string, called: bool, leftovers: set<string>)
    requires BarrierInv(c, s) && CanBuild(c, s, p) && (called ==> c.schedule[p] in c.jobs)
    ensures c.schedule[p] in c.jobs ==> BarrierInv(c, BuildSucceeds(c, s, p, image))
    ensures BarrierInv(c, BuildGivesUp(c, s, p, called, leftovers))
  {
    hide StoreOf, WorkerFor, TargetOf, ReportOf, Removable;
  }

  lemma StartPullsKeepsBarriers(c: Config, s: State, order: seq<string>, listOpened: bool)
    requires BarrierInv(c, s) && CanEndBuilds(c, s, order)
    ensures BarrierInv(c, StartPulls(c, s, order, listOpened))
  {
    hide Collect, Results, Enumerates, Removable;
  }

  lemma PullsKeepBarriers(c: Config, s: State, r: BuildReport, loaded: bool)
    requires BarrierInv(c, s) && s.phase.Pulls? && r in s.images
    ensures BarrierInv(c, PullSaves(c, s, r)) && BarrierInv(c, PullSucceeds(c, s, r, loaded))
    ensures BarrierInv(c, PullGivesUp(c, s, r, loaded))
  {
    hide RefOf, Removable;
  }

  lemma StartRemovalsKeepsBarriers(c: Config, s: State)
    requires BarrierInv(c, s) && CanEndPulls(s)
    ensures BarrierInv(c, StartRemovals(c, s))
  {
    hide Removable;
    if !(exists r :: r in s.pulls && s.pulls[r].PullFailed?) {
      assert forall r :: r in s.pulls ==> s.pulls[r].Pulled?;
    }
  }

  lemma RemovalsKeepBarriers(c: Config, s: State, r: BuildReport, gone: bool, pc: RemovePc)
    requires BarrierInv(c, s) && CanRemove(s, r)
    ensures BarrierInv(c, RemovalEnds(c, s, r, gone, pc))
  {
    hide StoreOf, Removable;
  }

  lemma EndRemovalsKeepsBarriers(c: Config, s: State)
    requires BarrierInv(c, s) && CanEndRemovals(s)
    ensures BarrierInv(c, EndRemovals(c, s))
  {
    hide Removable;
    if !(exists r :: r in s.removals && s.removals[r].RemoveFailed?) {
      assert forall r :: r in s.removals ==> s.removals[r].Removed?;
    }
  }

  /** What has been pulled is known by its reference or is in a file. */
  ghost predicate PulledInv(c: Config, s: State) {
    && (c.kind.ListLocal? ==> s.refs == (set r | r in s.pulls && s.pulls[r].Pulled? :: RefOf(r)) && s.files == {})
    && (c.kind.ListFiles? && !s.failed ==> s.files == set r | r in s.pulls && s.pulls[r].Pulled?)
    && (s.phase.Builds? ==> s.pulls == map[])
  }

  lemma StepKeepsPulled(c: Config, s: State, e: Event)
    requires BarrierInv(c, s) && ImagesInv(c, s) && PulledInv(c, s) && CanHappen(c, s, e)
    ensures PulledInv(c, Next(c, s, e))
  {
    hide Collect, ComesFrom, Results, RefOf;
    var t := Next(c, s, e);
    if e.BuildsDone? {
      assert forall r :: r in t.pulls ==> !t.pulls[r].Pulled?;
    } else if OfPull(e) {
      PullKeepsPulled(c, s, e);
    } else {
      Frame(c, s, e);
      hide Next, CanHappen;
    }
  }

  lemma PullKeepsPulled(c: Config, s: State, e: Event)
    requires PulledInv(c, s) && CanHappen(c, s, e) && OfPull(e)
    ensures PulledInv(c, Next(c, s, e))
  {
    hide PulledInv, FoundLocally, BuildSucceeds, BuildGivesUp, StartPulls, PullSaves, PullSucceeds, PullGivesUp,
         StartRemovals, RemovalEnds, EndRemovals, ReadList, ClearInstance, AddInstance;
    match e {
      case Save(r) => SaveKeepsPulled(c, s, r);
      case Load(r) => SuccessKeepsPulled(c, s, r, true);
      case AlreadyLocal(r) =>
        FoundMeansLocal(c, s, r);
        SuccessKeepsPulled(c, s, r, false);
      case PullFails(r, loaded) => FailureKeepsPulled(c, s, r, loaded);
    }
  }

  lemma FoundMeansLocal(c: Config, s: State, r: BuildReport)
    requires r in s.images && FoundLocally(c, s, r)
    ensures c.kind.ListLocal?
  {
  }

  function PulledSet(s: State): set<BuildReport> {
    set r | r in s.pulls && s.pulls[r].Pulled?
  }

  lemma RefsOfPulled(s: State)
    ensures (set r | r in s.pulls && s.pulls[r].Pulled? :: RefOf(r)) == set r | r in PulledSet(s) :: RefOf(r)
  {
    hide RefOf;
  }

  lemma SaveKeepsPulled(c: Config, s: State, r: BuildReport)
    requires PulledInv(c, s) && CanPull(s, r, NotPulled)
    ensures PulledInv(c, PullSaves(c, s, r))
  {
    hide RefOf;
    var t := PullSaves(c, s, r);
    RefsOfPulled(s);
    RefsOfPulled(t);
    assert PulledSet(t) == if c.kind.ListLocal? then PulledSet(s) else PulledSet(s) + {r};
  }

  lemma SuccessKeepsPulled(c: Config, s: State, r: BuildReport, loaded: bool)
    requires PulledInv(c, s) && s.phase.Pulls? && r in s.pulls && c.kind.ListLocal?
    ensures PulledInv(c, PullSucceeds(c, s, r, loaded))
  {
    hide RefOf;
    var t := PullSucceeds(c, s, r, loaded);
    RefsOfPulled(s);
    RefsOfPulled(t);
    assert PulledSet(t) == PulledSet(s) + {r};
    assert (set x | x in PulledSet(t) :: RefOf(x)) == (set x | x in PulledSet(s) :: RefOf(x)) + {RefOf(r)};
  }

  lemma FailureKeepsPulled(c: Config, s: State, r: BuildReport, loaded: bool)
    requires PulledInv(c, s) && s.phase.Pulls? && r in s.pulls && !s.pulls[r].Pulled?
    ensures PulledInv(c, PullGivesUp(c, s, r, loaded))
  {
    hide RefOf;
    var t := PullGivesUp(c, s, r, loaded);
    RefsOfPulled(s);
    RefsOfPulled(t);
    assert PulledSet(t) == PulledSet(s);
  }

  // ---------------------------------------------------------------- engine calls

  /**
   At most one call for each platform, on the builder it is scheduled on and for that builder's target; never on a local
   builder that could not find out its platform. A platform that has been built has had its call, and one that is still
   to be built has not.
   */
  ghost predicate CallsInv(c: Config, s: State) {
    && (forall k :: 0 <= k < |s.calls| ==>
          && s.calls[k].platform in s.builds && !s.builds[s.calls[k].platform].Building?
          && s.calls[k].platform in c.schedule && s.calls[k].builder == c.schedule[s.calls[k].platform]
          && s.calls[k].target == TargetOf(c, s.calls[k].builder)
          && s.calls[k].builder in c.farm
          && (c.farm[s.calls[k].builder].kind.Local? ==> c.farm[s.calls[k].builder].fetched.err.None?))
    && (forall j, k :: 0 <= j < k < |s.calls| ==> s.calls[j].platform != s.calls[k].platform)
    && (forall p :: p in s.builds && s.builds[p].Built? ==> exists k :: 0 <= k < |s.calls| && s.calls[k].platform == p)
  }

  lemma StepKeepsCalls(c: Config, s: State, e: Event)
    requires Prepared(c) && CallsInv(c, s) && CanHappen(c, s, e)
    ensures CallsInv(c, Next(c, s, e))
  {
    hide TargetOf, Next, CanHappen, Prepared;
    if e.BuildOk? {
      BuildKeepsCalls(c, s, e.platform, e.image);
    } else if e.BuildFails? {
      FailureKeepsCalls(c, s, e.platform, e.called, e.leftovers);
    } else {
      Frame(c, s, e);
    }
  }

  lemma BuildKeepsCalls(c: Config, s: State, p: string, image: string)
    requires Prepared(c) && CallsInv(c, s) && CanHappen(c, s, BuildOk(p, image))
    ensures CallsInv(c, Next(c, s, BuildOk(p, image)))
  {
    hide TargetOf;
    var t := Next(c, s, BuildOk(p, image));
    assert t.builds == s.builds[p := Built(ReportOf(c, image))];
    assert t.calls == s.calls + [EngineCall(p, c.schedule[p], TargetOf(c, c.schedule[p]))];
    hide Next, CanHappen;
    forall q | q in t.builds && t.builds[q].Built?
      ensures exists k :: 0 <= k < |t.calls| && t.calls[k].platform == q
    {
      if q == p {
        assert t.calls[|s.calls|].platform == p;
      } else {
        var k :| 0 <= k < |s.calls| && s.calls[k].platform == q;
        assert t.calls[k].platform == q;
      }
    }
  }

  lemma FailureKeepsCalls(c: Config, s: State, p: string, called: bool, leftovers: set<string>)
    requires Prepared(c) && CallsInv(c, s) && CanHappen(c, s, BuildFails(p, called, leftovers))
    ensures CallsInv(c, Next(c, s, BuildFails(p, called, leftovers)))
  {
    hide TargetOf, StoreOf;
    var t := Next(c, s, BuildFails(p, called, leftovers));
    assert t.builds == s.builds[p := BuildFailed];
    assert t.calls == s.calls + if called then [EngineCall(p, c.schedule[p], TargetOf(c, c.schedule[p]))] else [];
    hide Next, CanHappen;
    forall q | q in t.builds && t.builds[q].Built?
      ensures exists k :: 0 <= k < |t.calls| && t.calls[k].platform == q
    {
      assert s.builds[q].Built?;
      var k :| 0 <= k < |s.calls| && s.calls[k].platform == q;
      assert t.calls[k].platform == q;
    }
  }

  // ---------------------------------------------------------------- all of them, over runs

  ghost predicate Inv(c: Config, s: State) {
    ImagesInv(c, s) && BarrierInv(c, s) && PulledInv(c, s) && CallsInv(c, s)
  }

  lemma InitHasInv(c: Config, copies: set<Copy>, list: Option<set<string>>)
    ensures Inv(c, Init(c, copies, list))
  {
  }

  lemma StepKeepsInv(c: Config, s: State, t: State)
    requires Prepared(c) && Inv(c, s) && Step(c, s, t)
    ensures Inv(c, t)
  {
    hide Prepared, ImagesInv, BarrierInv, PulledInv, CallsInv, Next, CanHappen;
    var e :| CanHappen(c, s, e) && t == Next(c, s, e);
    StepKeepsImages(c, s, e);
    StepKeepsBarriers(c, s, e);
    StepKeepsPulled(c, s, e);
    StepKeepsCalls(c, s, e);
  }

  lemma {:induction false} RunKeepsInv(c: Config, run: seq<State>, i: nat)
    requires Prepared(c) && Run(c, run) && i < |run|
    ensures Inv(c, run[i])
  {
    hide Prepared, Inv, Step;
    if i == 0 {
      var copies, list :| run[0] == Init(c, copies, list);
      InitHasInv(c, copies, list);
    } else {
      RunKeepsInv(c, run, i - 1);
      assert Step(c, run[i - 1], run[i - 1 + 1]);
      StepKeepsInv(c, run[i - 1], run[i]);
    }
  }

  // ---------------------------------------------------------------- which steps fail, and what failed calls leave

  /**
   A run fails exactly at a barrier that something before it has failed, when the list cannot be opened or read, or when
   an instance cannot be removed or added or the directory not be written.
   */
  lemma StepFailsExactly(c: Config, s: State, e: Event)
    requires CanHappen(c, s, e) && (OfList(e) && c.kind.ListLocal? ==> s.list.Some?)
    requires s.phase.Inspecting? || s.phase.Clearing? || s.phase.Adding? ==> c.kind.ListLocal?
    ensures Next(c, s, e).failed <==>
            match e
            case BuildsDone(_, listOpened) => !listOpened || exists p :: p in s.builds && s.builds[p].BuildFailed?
            case PullsDone => exists r :: r in s.pulls && s.pulls[r].PullFailed?
            case RemovalsDone => exists r :: r in s.removals && s.removals[r].RemoveFailed?
            case Inspect(ok) => !ok
            case ClearOne(_, ok) => !ok
            case AddOne(_, ok) => !ok
            case WritingDone(ok) => !ok
            case _ => false
  {
    hide StoreOf, WorkerFor, TargetOf, ReportOf, RefOf, Collect, Results, FoundLocally, Removable, InLocalStorage,
         Enumerates;
  }

  /** A call that fails is recorded as one that succeeds is; a build that fails before its call leaves nothing. */
  lemma FailedBuildsLeave(c: Config, s: State, p: string, called: bool, leftovers: set<string>)
    requires Prepared(c) && CanHappen(c, s, BuildFails(p, called, leftovers))
    ensures var t := Next(c, s, BuildFails(p, called, leftovers));
            && c.schedule[p] in c.farm
            && t.calls == s.calls + (if called then [EngineCall(p, c.schedule[p], TargetOf(c, c.schedule[p]))] else [])
            && t.copies == s.copies + (set image | image in leftovers :: Copy(c.farm[c.schedule[p]].store, image))
            && (!called ==> t.copies == s.copies)
  {
    hide TargetOf;
  }
}
