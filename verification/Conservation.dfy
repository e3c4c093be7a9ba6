/** Where the images of finished builds are, in every state of every run. */
module Conservation {
  import opened Builders
  import opened Jobs
  import opened BuildRun
  import opened BuildInvariants

  predicate AtHome(c: Config, s: State, p: string)
    requires p in s.builds && s.builds[p].Built? && p in c.schedule
  {
    Copy(StoreOf(c, c.schedule[p]), s.builds[p].report.imageID) in s.copies
  }

  /** The image reported for a platform is in its builder's store, or else in local storage or in its file. */
  predicate Kept(c: Config, s: State, p: string)
    requires p in s.builds && s.builds[p].Built? && p in c.schedule
  {
    || AtHome(c, s, p)
    || (if c.kind.ListLocal? then Copy(c.localStore, s.builds[p].report.imageID) in s.copies
        else s.builds[p].report in s.files)
  }

  ghost predicate Conserved(c: Config, s: State) {
    forall p :: p in s.builds && s.builds[p].Built? && p in c.schedule ==> Kept(c, s, p)
  }

  /** No image is lost in any state of any run, whatever was in the stores at first. */
  ghost predicate AlwaysConserved(c: Config) {
    forall run: seq<State>, i :: Run(c, run) && 0 <= i < |run| ==> Conserved(c, run[i])
  }

  /**
   When removing intermediate images loses nothing: if it is not asked for, or if images are kept in local storage and
   no scheduled builder other than the local one is, by way of its connection, at the local store itself.
   */
  ghost predicate SafeToRemove(c: Config) {
    || !c.removeIntermediates
    || if c.kind.ListLocal?
       then forall p :: p in c.schedule && c.schedule[p] in c.farm && c.farm[c.schedule[p]].name != LOCAL_NAME ==>
              c.farm[c.schedule[p]].store != c.localStore
       else c.schedule == map[]
  }

  /** The same in terms of what the steps do. */
  ghost predicate RemovalsSpareLocal(c: Config) {
    || !c.removeIntermediates
    || if c.kind.ListLocal?
       then forall p :: p in c.schedule && Removable(c, c.schedule[p]) ==> StoreOf(c, c.schedule[p]) != c.localStore
       else c.schedule == map[]
  }

  /** All builders are cleaned up if a directory is written, and otherwise all but the local one. */
  lemma WhoIsCleanedUp(c: Config, b: string)
    ensures b in c.farm ==> (Removable(c, b) <==> c.kind.ListFiles? || c.farm[b].name != "(local)")
    ensures b in c.farm ==> StoreOf(c, b) == c.farm[b].store
    ensures b !in c.farm && c.kind.ListLocal? ==> !Removable(c, b)
  {
  }

  lemma SafeMeansSpareLocal(c: Config)
    ensures SafeToRemove(c) <==> RemovalsSpareLocal(c)
  {
    forall p | p in c.schedule {
      WhoIsCleanedUp(c, c.schedule[p]);
    }
    hide Removable, StoreOf;
  }

  // ---------------------------------------------------------------- copies leave only in removals

  lemma CopiesGrow(c: Config, s: State, e: Event)
    requires CanHappen(c, s, e) && !OfRemoval(e)
    ensures s.copies <= Next(c, s, e).copies
  {
    Frame(c, s, e);
    if OfBuild(e) || OfPull(e) {
      hide StoreOf, WorkerFor, TargetOf, ReportOf, RefOf, FoundLocally;
      hide StartPulls, StartRemovals, EndRemovals, ReadList, ClearInstance, AddInstance;
    } else {
      hide Next, CanHappen;
    }
  }

  /** What a removal takes away is the copy of one image on the builder that it was pulled from. */
  lemma RemovalTakesOne(c: Config, s: State, e: Event)
    requires CanHappen(c, s, e) && OfRemoval(e)
    ensures CanRemove(s, e.report)
    ensures s.copies - {Copy(StoreOf(c, s.images[e.report]), e.report.imageID)} <= Next(c, s, e).copies <= s.copies
  {
  }

  lemma CopyLeavesInRemoval(c: Config, run: seq<State>, i: nat, x: Copy)
    requires Prepared(c) && Run(c, run) && i + 1 < |run|
    requires x in run[i].copies && x !in run[i + 1].copies
    ensures run[i].phase.Removals? && c.removeIntermediates
    ensures forall p :: p in c.schedule ==> p in run[i].builds && run[i].builds[p].Built?
    ensures forall r :: r in run[i].images ==> r in run[i].pulls && run[i].pulls[r].Pulled?
    ensures exists r :: r in run[i].images && Removable(c, run[i].images[r])
                        && x == Copy(StoreOf(c, run[i].images[r]), r.imageID)
  {
    RunKeepsInv(c, run, i);
    var s, t := run[i], run[i + 1];
    assert Step(c, s, t);
    hide Run, Next, Removable, StoreOf, Prepared;
    var e :| CanHappen(c, s, e) && t == Next(c, s, e);
    if !OfRemoval(e) {
      CopiesGrow(c, s, e);
    }
    RemovalTakesOne(c, s, e);
    assert e.report in ToRemove(c, s);
  }

  /**
   No copy of any image leaves a store before every image has been pulled, and then only if removing was asked for. It
   leaves as the image collected from a builder, from that builder's store; and unless a directory is written, that is
   not the local builder.
   */
  lemma NoRemovalBeforePulls(c: Config, run: seq<State>, i: nat, x: Copy)
    requires Prepared(c) && Run(c, run) && i + 1 < |run|
    requires x in run[i].copies && x !in run[i + 1].copies
    ensures run[i].phase.Removals? && c.removeIntermediates
    ensures forall p :: p in c.schedule ==> p in run[i].builds && run[i].builds[p].Built?
    ensures forall r :: r in run[i].images ==> r in run[i].pulls && run[i].pulls[r].Pulled?
    ensures exists r :: r in run[i].images && run[i].images[r] in c.farm
                        && (c.kind.ListFiles? || c.farm[run[i].images[r]].name != LOCAL_NAME)
                        && x == Copy(c.farm[run[i].images[r]].store, r.imageID)
  {
    CopyLeavesInRemoval(c, run, i, x);
    RunKeepsInv(c, run, i);
    var s := run[i];
    var r :| r in s.images && Removable(c, s.images[r]) && x == Copy(StoreOf(c, s.images[r]), r.imageID);
    ImageFromFarm(c, s, r);
    WhoIsCleanedUp(c, s.images[r]);
    hide Run, Prepared, Removable, StoreOf, Inv;
  }

  lemma ImageFromFarm(c: Config, s: State, r: BuildReport)
    requires Prepared(c) && ImagesInv(c, s) && r in s.images
    ensures s.images[r] in c.farm
  {
    assert ComesFrom(c, s, r, s.images[r]);
  }

  // ---------------------------------------------------------------- the two places where images are

  /** As long as nothing can have been removed, every image is where it was built. */
  ghost predicate HomeInv(c: Config, s: State) {
    !PastPulls(s) || !c.removeIntermediates || c.schedule == map[] ==>
      forall p :: p in s.builds && s.builds[p].Built? && p in c.schedule ==> AtHome(c, s, p)
  }

  /** Whatever has been pulled to local storage is there. */
  ghost predicate LocalInv(c: Config, s: State) {
    c.kind.ListLocal? ==> forall r :: r in s.pulls && s.pulls[r].Pulled? ==> Copy(c.localStore, r.imageID) in s.copies
  }

  lemma StepKeepsHome(c: Config, s: State, e: Event)
    requires Prepared(c) && Inv(c, s) && HomeInv(c, s) && CanHappen(c, s, e)
    ensures HomeInv(c, Next(c, s, e))
  {
    hide Prepared, StoreOf, Removable, Next, CanHappen;
    Frame(c, s, e);
    if e.BuildOk? {
      BuildKeepsHome(c, s, e.platform, e.image);
    } else if e.BuildFails? {
      FailedBuildKeepsHome(c, s, e.platform, e.called, e.leftovers);
    } else if OfRemoval(e) {
      RemovalTakesOne(c, s, e);
      assert e.report in ToRemove(c, s);
      assert ComesFrom(c, s, e.report, s.images[e.report]);
    } else {
      CopiesGrow(c, s, e);
      if PastPulls(s) {
        OnlyForward(c, s, e);
      }
      hide Inv;
    }
  }

  lemma OnlyForward(c: Config, s: State, e: Event)
    requires CanHappen(c, s, e) && PastPulls(s)
    ensures PastPulls(Next(c, s, e))
  {
    Frame(c, s, e);
    if OfList(e) {
      ListSteps(c, s, e);
    }
    hide StoreOf, Collect, Results;
  }

  lemma BuildKeepsHome(c: Config, s: State, p: string, image: string)
    requires Prepared(c) && HomeInv(c, s) && CanHappen(c, s, BuildOk(p, image))
    ensures HomeInv(c, Next(c, s, BuildOk(p, image)))
  {
    hide StoreOf, TargetOf;
    var t := Next(c, s, BuildOk(p, image));
    assert t.builds == s.builds[p := Built(ReportOf(c, image))] && t.phase == s.phase;
    assert t.copies == s.copies + {Copy(StoreOf(c, c.schedule[p]), image)};
  }

  lemma FailedBuildKeepsHome(c: Config, s: State, p: string, called: bool, leftovers: set<string>)
    requires HomeInv(c, s) && CanHappen(c, s, BuildFails(p, called, leftovers))
    ensures HomeInv(c, Next(c, s, BuildFails(p, called, leftovers)))
  {
    hide StoreOf;
    var t := Next(c, s, BuildFails(p, called, leftovers));
    assert t.builds == s.builds[p := BuildFailed] && t.phase == s.phase && s.copies <= t.copies;
  }

  lemma StepKeepsLocal(c: Config, s: State, e: Event)
    requires RemovalsSpareLocal(c) && Inv(c, s) && LocalInv(c, s) && CanHappen(c, s, e)
    ensures LocalInv(c, Next(c, s, e))
  {
    Frame(c, s, e);
    if e.BuildsDone? {
      StartKeepsLocal(c, s, e.order, e.listOpened);
    } else if OfPull(e) {
      PullKeepsLocal(c, s, e);
    } else if OfRemoval(e) {
      RemovalKeepsLocal(c, s, e);
    } else {
      CopiesGrow(c, s, e);
      hide Next, CanHappen, StoreOf, Inv, RemovalsSpareLocal;
    }
  }

  lemma RemovalKeepsLocal(c: Config, s: State, e: Event)
    requires RemovalsSpareLocal(c) && Inv(c, s) && LocalInv(c, s) && CanHappen(c, s, e) && OfRemoval(e)
    ensures LocalInv(c, Next(c, s, e))
  {
    Frame(c, s, e);
    RemovalTakesOne(c, s, e);
    hide Next, CanHappen, StoreOf, Removable, CallsInv, PulledInv, BarrierInv, RemovalsSpareLocal;
    if c.kind.ListLocal? {
      RemovalIsElsewhere(c, s, e.report);
    }
  }

  lemma RemovalIsElsewhere(c: Config, s: State, r: BuildReport)
    requires RemovalsSpareLocal(c) && c.kind.ListLocal? && BarrierInv(c, s) && ImagesInv(c, s) && CanRemove(s, r)
    ensures StoreOf(c, s.images[r]) != c.localStore
  {
    hide StoreOf, Removable;
    assert r in ToRemove(c, s);
    assert ComesFrom(c, s, r, s.images[r]);
  }

  lemma StartKeepsLocal(c: Config, s: State, order: seq<string>, listOpened: bool)
    requires LocalInv(c, s) && CanHappen(c, s, BuildsDone(order, listOpened))
    ensures LocalInv(c, Next(c, s, BuildsDone(order, listOpened)))
  {
    hide Collect, Results;
  }

  lemma PullKeepsLocal(c: Config, s: State, e: Event)
    requires LocalInv(c, s) && CanHappen(c, s, e) && OfPull(e)
    ensures LocalInv(c, Next(c, s, e))
  {
    hide StoreOf, RefOf;
  }

  lemma {:induction false} RunKeepsHome(c: Config, run: seq<State>, i: nat)
    requires Prepared(c) && Run(c, run) && i < |run|
    ensures HomeInv(c, run[i])
  {
    hide Next, CanHappen, Prepared, Inv, StoreOf, Removable, RemovalsSpareLocal;
    if i > 0 {
      RunKeepsHome(c, run, i - 1);
      RunKeepsInv(c, run, i - 1);
      assert Step(c, run[i - 1], run[i - 1 + 1]);
      hide Run, Next, CanHappen, Prepared, Inv, HomeInv;
      var e :| CanHappen(c, run[i - 1], e) && run[i] == Next(c, run[i - 1], e);
      StepKeepsHome(c, run[i - 1], e);
    }
  }

  lemma {:induction false} RunKeepsLocal(c: Config, run: seq<State>, i: nat)
    requires Prepared(c) && RemovalsSpareLocal(c) && Run(c, run) && i < |run|
    ensures LocalInv(c, run[i])
  {
    hide Next, CanHappen, Prepared, Inv, StoreOf, Removable, RemovalsSpareLocal;
    if i > 0 {
      RunKeepsLocal(c, run, i - 1);
      RunKeepsInv(c, run, i - 1);
      assert Step(c, run[i - 1], run[i - 1 + 1]);
      hide Run, Next, CanHappen, Prepared, Inv, LocalInv, RemovalsSpareLocal;
      var e :| CanHappen(c, run[i - 1], e) && run[i] == Next(c, run[i - 1], e);
      StepKeepsLocal(c, run[i - 1], e);
    }
  }

  /** If it is safe to remove, no run loses an image. */
  lemma SafeRunsConserve(c: Config, run: seq<State>, i: nat)
    requires Prepared(c) && SafeToRemove(c) && Run(c, run) && i < |run|
    ensures Conserved(c, run[i])
  {
    SafeMeansSpareLocal(c);
    RunKeepsHome(c, run, i);
    RunKeepsLocal(c, run, i);
    RunKeepsInv(c, run, i);
    hide Run, StoreOf, Prepared;
    var s := run[i];
    if PastPulls(s) && c.removeIntermediates && c.schedule != map[] {
      assert c.kind.ListLocal?;
      forall p | p in s.builds && s.builds[p].Built? && p in c.schedule
        ensures Kept(c, s, p)
      {
        assert s.pulls[s.builds[p].report].Pulled?;
      }
    }
  }

  /** In a safe run, nothing ever leaves local storage. */
  lemma {:induction false} LocalStorageOnlyGrows(c: Config, run: seq<State>, i: nat, j: nat, image: string)
    requires Prepared(c) && SafeToRemove(c) && c.kind.ListLocal? && Run(c, run) && i <= j < |run|
    requires Copy(c.localStore, image) in run[i].copies
    ensures Copy(c.localStore, image) in run[j].copies
  {
    SafeMeansSpareLocal(c);
    hide Next, CanHappen, Prepared, Inv, StoreOf, Removable, SafeToRemove, RemovalsSpareLocal, Run;
    if i < j {
      LocalStorageOnlyGrows(c, run, i, j - 1, image);
      LocalCopyStays(c, run, j - 1, image);
    }
  }

  lemma LocalCopyStays(c: Config, run: seq<State>, i: nat, image: string)
    requires Prepared(c) && RemovalsSpareLocal(c) && c.kind.ListLocal? && Run(c, run) && i + 1 < |run|
    requires Copy(c.localStore, image) in run[i].copies
    ensures Copy(c.localStore, image) in run[i + 1].copies
  {
    RunKeepsInv(c, run, i);
    assert ImagesInv(c, run[i]);
    hide Run, StoreOf, Removable, Prepared, Inv;
    if Copy(c.localStore, image) !in run[i + 1].copies {
      CopyLeavesInRemoval(c, run, i, Copy(c.localStore, image));
      SafeRemovalSparesLocal(c, run[i], image);
      assert false;
    }
  }

  lemma SafeRemovalSparesLocal(c: Config, s: State, image: string)
    requires RemovalsSpareLocal(c) && c.removeIntermediates && c.kind.ListLocal? && ImagesInv(c, s) && !s.phase.Builds?
    ensures !exists r :: r in s.images && Removable(c, s.images[r])
                         && Copy(c.localStore, image) == Copy(StoreOf(c, s.images[r]), r.imageID)
  {
    hide StoreOf, Removable;
    assert forall r :: r in s.images ==> ComesFrom(c, s, r, s.images[r]);
  }

  // ---------------------------------------------------------------- what success leaves behind

  /** A removal that has succeeded stays done. */
  ghost predicate GoneInv(c: Config, s: State) {
    forall r :: r in s.removals && s.removals[r].Removed? && r in s.images ==>
      Copy(StoreOf(c, s.images[r]), r.imageID) !in s.copies
  }

  lemma StepKeepsGone(c: Config, s: State, e: Event)
    requires Inv(c, s) && GoneInv(c, s) && CanHappen(c, s, e)
    ensures GoneInv(c, Next(c, s, e))
  {
    var t := Next(c, s, e);
    Frame(c, s, e);
    if OfRemoval(e) {
      RemovalKeepsGone(c, s, e);
    } else if e.PullsDone? {
      hide StoreOf, Removable;
    } else if OfBuild(e) || OfPull(e) || e.BuildsDone? {
      assert s.removals == map[];
      assert t.removals == map[] by {
        hide StoreOf, Removable, Collect, Results, FoundLocally;
      }
    } else if e.RemovalsDone? {
      hide StoreOf, Removable;
    } else {
      ListSteps(c, s, e);
      hide Next, CanHappen, StoreOf, Inv;
    }
  }

  lemma RemovalKeepsGone(c: Config, s: State, e: Event)
    requires GoneInv(c, s) && CanHappen(c, s, e) && OfRemoval(e)
    ensures GoneInv(c, Next(c, s, e))
  {
    hide StoreOf;
  }

  lemma {:induction false} RunKeepsGone(c: Config, run: seq<State>, i: nat)
    requires Prepared(c) && Run(c, run) && i < |run|
    ensures GoneInv(c, run[i])
  {
    hide Next, CanHappen, Prepared, Inv, StoreOf, Removable, RemovalsSpareLocal;
    if i > 0 {
      RunKeepsGone(c, run, i - 1);
      RunKeepsInv(c, run, i - 1);
      assert Step(c, run[i - 1], run[i - 1 + 1]);
      hide Run, Next, CanHappen, Prepared, Inv, GoneInv;
      var e :| CanHappen(c, run[i - 1], e) && run[i] == Next(c, run[i - 1], e);
      StepKeepsGone(c, run[i - 1], e);
    }
  }

  lemma RemovedIsGone(c: Config, run: seq<State>, i: nat, r: BuildReport)
    requires Prepared(c) && Run(c, run) && i < |run| && PastRemovals(run[i]) && r in ToRemove(c, run[i])
    ensures Copy(StoreOf(c, run[i].images[r]), r.imageID) !in run[i].copies
  {
    RunKeepsGone(c, run, i);
    RunKeepsInv(c, run, i);
    hide Run, StoreOf, Prepared;
  }

  /**
   If removing was asked for, then once removals are over every image is gone from the builder it was pulled from: from
   all builders if a directory is written, and otherwise from all but the local one.
   */
  lemma IntermediatesAreGone(c: Config, run: seq<State>, i: nat, r: BuildReport)
    requires Prepared(c) && Run(c, run) && i < |run| && c.removeIntermediates && r in run[i].images
    requires !run[i].phase.Builds? && !run[i].phase.Pulls? && !run[i].phase.Removals?
    ensures run[i].images[r] in c.farm
    ensures c.kind.ListFiles? || c.farm[run[i].images[r]].name != LOCAL_NAME ==>
              Copy(c.farm[run[i].images[r]].store, r.imageID) !in run[i].copies
  {
    RunKeepsInv(c, run, i);
    ImageFromFarm(c, run[i], r);
    WhoIsCleanedUp(c, run[i].images[r]);
    hide Run, Prepared, Removable, StoreOf, Inv;
    if c.kind.ListFiles? || c.farm[run[i].images[r]].name != LOCAL_NAME {
      RemovedIsGone(c, run, i, r);
    }
  }

  // ---------------------------------------------------------------- how images are pulled

  /**
   To local storage, an image is pulled in one step only if it was found there, and only for the local builder. From any
   other builder it is first saved, out of that builder's store.
   */
  lemma PulledAtOnceOnlyLocally(c: Config, run: seq<State>, i: nat, r: BuildReport)
    requires Prepared(c) && Run(c, run) && i + 1 < |run| && c.kind.ListLocal?
    requires r in run[i].pulls && run[i].pulls[r].NotPulled? && r in run[i].images && run[i].images[r] in c.farm
    requires r in run[i + 1].pulls
    ensures run[i + 1].pulls[r].Pulled? ==>
              c.farm[run[i].images[r]].kind.Local? && Copy(c.localStore, r.imageID) in run[i].copies
    ensures run[i + 1].pulls[r].Saved? ==> Copy(c.farm[run[i].images[r]].store, r.imageID) in run[i].copies
    ensures run[i + 1].pulls[r].Saved? && c.farm[run[i].images[r]].kind.Local? ==>
              Copy(c.localStore, r.imageID) !in run[i].copies
  {
    var s, t := run[i], run[i + 1];
    assert Step(c, s, t);
    hide Run, Prepared;
    var e :| CanHappen(c, s, e) && t == Next(c, s, e);
    if OfPull(e) {
      WhoIsCleanedUp(c, s.images[r]);
      hide Next, CanHappen, StoreOf;
      PullStep(c, s, e, r);
    } else {
      Frame(c, s, e);
      hide Next, CanHappen;
    }
  }

  lemma PullStep(c: Config, s: State, e: Event, r: BuildReport)
    requires CanHappen(c, s, e) && OfPull(e) && c.kind.ListLocal?
    requires r in s.pulls && s.pulls[r].NotPulled? && r in s.images && s.images[r] in c.farm
    ensures r in Next(c, s, e).pulls
    ensures Next(c, s, e).pulls[r].Pulled? ==>
              c.farm[s.images[r]].kind.Local? && Copy(c.localStore, r.imageID) in s.copies
    ensures Next(c, s, e).pulls[r].Saved? ==> Copy(StoreOf(c, s.images[r]), r.imageID) in s.copies
    ensures Next(c, s, e).pulls[r].Saved? && c.farm[s.images[r]].kind.Local? ==>
              Copy(c.localStore, r.imageID) !in s.copies
  {
    hide StoreOf, RefOf;
  }

  /** A removal that succeeds takes away a copy that was there, from the store of the builder it was pulled from. */
  lemma SuccessfulRemovalTakesCopy(c: Config, run: seq<State>, i: nat, r: BuildReport)
    requires Prepared(c) && Run(c, run) && i + 1 < |run|
    requires r in run[i].removals && run[i].removals[r].NotRemoved? && r in run[i].images && run[i].images[r] in c.farm
    requires r in run[i + 1].removals && run[i + 1].removals[r].Removed?
    ensures var copy := Copy(c.farm[run[i].images[r]].store, r.imageID);
            copy in run[i].copies && run[i + 1].copies == run[i].copies - {copy}
  {
    var s, t := run[i], run[i + 1];
    assert Step(c, s, t);
    hide Run, Prepared;
    var e :| CanHappen(c, s, e) && t == Next(c, s, e);
    WhoIsCleanedUp(c, s.images[r]);
    if OfRemoval(e) {
      hide StoreOf;
    } else {
      OnlyRemovalsRemove(c, s, e, r);
      hide Next, CanHappen;
    }
  }

  lemma OnlyRemovalsRemove(c: Config, s: State, e: Event, r: BuildReport)
    requires CanHappen(c, s, e) && !OfRemoval(e) && r in s.removals && s.removals[r].NotRemoved?
    ensures r in Next(c, s, e).removals ==> Next(c, s, e).removals[r].NotRemoved?
  {
    if OfList(e) {
      ListSteps(c, s, e);
      hide Next, CanHappen;
    }
    hide StoreOf, WorkerFor, TargetOf, ReportOf, RefOf, Collect, Results, FoundLocally, Removable;
  }
}
