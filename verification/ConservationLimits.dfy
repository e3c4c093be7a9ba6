/** Removing intermediate images is safe only under the condition stated: otherwise some run loses an image. */
module ConservationLimits {
  import opened Wrappers
  import opened Orders
  import opened Builders
  import opened BuildRun
  import opened BuildInvariants
  import opened Conservation
  import opened Completion

  /** The engines that have built have reported the given image IDs. */
  predicate ReportsAs(c: Config, s: State, ids: ImageIDs) {
    forall p :: p in s.builds && s.builds[p].Built? && p in ids ==> s.builds[p].report == ReportOf(c, ids[p])
  }

  /** Of the runs from `first` in which the engines report the given image IDs, none ever loses an image. */
  ghost predicate ConservedFrom(c: Config, first: State, ids: ImageIDs) {
    forall run: seq<State>, i ::
      Run(c, run) && run[0] == first && 0 <= i < |run| && ReportsAs(c, run[i], ids) ==> Conserved(c, run[i])
  }

  /** The run ends in a state in which p has been built, with its image ID, and the image is lost. */
  ghost predicate Loses(c: Config, first: State, ids: ImageIDs, run: seq<State>, p: string) {
    && Run(c, run) && run[0] == first && p in c.schedule && p in ids
    && var s := Last(run);
       && ReportsAs(c, s, ids) && p in s.builds && s.builds[p] == Built(ReportOf(c, ids[p])) && !Kept(c, s, p)
  }

  /** The order in which p comes last. */
  lemma OrderWithLast(members: set<string>, p: string) returns (order: seq<string>)
    requires p in members
    ensures Enumerates(order, members) && order != [] && order[|order| - 1] == p
  {
    var rest := SomeOrder(members - {p});
    order := rest + [p];
    forall x | x in members
      ensures x in order
    {
      if x != p {
        assert x in rest;
      }
    }
  }

  lemma FirstRemoval(c: Config, first: State, ids: ImageIDs, run: seq<State>, r: BuildReport)
    requires AllBuilt(c, first, ids, run) && Removing(c, Last(run))
    requires StillToRemove(Last(run)) == ToRemove(c, Last(run))
    requires c.removeIntermediates && r in Last(run).images && Removable(c, Last(run).images[r])
    ensures r in StillToRemove(Last(run))
  {
  }

  /** Everything has been pulled, and of the images that are to be removed, that of p has been. */
  lemma RemoveFrom(c: Config, first: State, ids: ImageIDs, p: string) returns (run: seq<State>)
    requires Prepared(c) && Callable(c) && Starts(c, first) && c.schedule.Keys <= ids.Keys
    requires c.removeIntermediates && p in c.schedule && Removable(c, c.schedule[p])
    ensures AllBuilt(c, first, ids, run) && Removing(c, Last(run))
    ensures Copy(StoreOf(c, c.schedule[p]), ids[p]) !in Last(run).copies
  {
    hide Prepared, Callable, Starts, AllBuilt, Pulling, Removing, Removable, StoreOf, Run, AllLocal;
    var order := OrderWithLast(c.schedule.Keys, p);
    assert LastWithID(c, ids, order, |order| - 1);
    hide Enumerates;
    run := PulledRun(c, first, ids, order);
    var r := ReportOf(c, ids[p]);
    var ready := EndPulls(c, first, ids, run);
    FirstRemoval(c, first, ids, ready, r);
    run := RemoveOne(c, first, ids, ready, r);
  }

  /** A connection that leads back to the local store: removing takes away what was just pulled. */
  lemma LocalAliasLoses(c: Config, first: State, ids: ImageIDs, p: string) returns (run: seq<State>)
    requires Prepared(c) && Callable(c) && Starts(c, first) && c.schedule.Keys <= ids.Keys
    requires c.removeIntermediates && c.kind.ListLocal? && p in c.schedule && c.schedule[p] in c.farm
    requires c.farm[c.schedule[p]].name != LOCAL_NAME && c.farm[c.schedule[p]].store == c.localStore
    ensures Loses(c, first, ids, run, p)
  {
    WhoIsCleanedUp(c, c.schedule[p]);
    run := RemoveFrom(c, first, ids, p);
    hide Prepared, Callable, Starts, Removable, StoreOf, Run;
  }

  /** A directory: after the removals, writing it fails, and the files go with it. */
  lemma FilesLose(c: Config, first: State, ids: ImageIDs, p: string) returns (run: seq<State>)
    requires Prepared(c) && Callable(c) && Starts(c, first) && c.schedule.Keys <= ids.Keys
    requires c.removeIntermediates && c.kind.ListFiles? && p in c.schedule
    ensures Loses(c, first, ids, run, p)
  {
    assert Removable(c, c.schedule[p]);
    var removed := RemoveFrom(c, first, ids, p);
    hide Prepared, Callable, Starts, Removable, StoreOf, Removing, AllLocal, NoneRemovedLocally;
    var done := FinishRemovals(c, first, ids, removed);
    run := WriteFails(c, first, ids, done);
    hide Run, AllBuilt;
  }

  lemma WriteFails(c: Config, first: State, ids: ImageIDs, run: seq<State>) returns (longer: seq<State>)
    requires AllBuilt(c, first, ids, run) && c.kind.ListFiles? && Last(run).phase == AfterRemovals(c)
    ensures Run(c, longer) && longer[0] == first && c.schedule.Keys <= ids.Keys
    ensures var s := Last(longer);
            && s.copies == Last(run).copies && s.files == {} && s.builds.Keys == c.schedule.Keys
            && (forall p :: p in s.builds ==> s.builds[p] == Built(ReportOf(c, ids[p])))
  {
    var e := WritingDone(false);
    Extend(c, run, e);
    hide Run;
    longer := run + [Next(c, Last(run), e)];
  }

  lemma UnsafeLoses(c: Config, first: State, ids: ImageIDs) returns (run: seq<State>, p: string)
    requires Prepared(c) && Callable(c) && Starts(c, first) && c.schedule.Keys <= ids.Keys && !SafeToRemove(c)
    ensures Loses(c, first, ids, run, p)
  {
    hide Loses, StoreOf, Removable, Prepared, Callable, Starts;
    if c.kind.ListLocal? {
      p :| p in c.schedule && c.schedule[p] in c.farm && c.farm[c.schedule[p]].name != LOCAL_NAME
           && c.farm[c.schedule[p]].store == c.localStore;
      run := LocalAliasLoses(c, first, ids, p);
    } else {
      assert c.schedule.Keys != {};
      p :| p in c.schedule;
      run := FilesLose(c, first, ids, p);
    }
  }

  /**
   Whatever is in the stores and in the list at first, and whatever image IDs the engines report: no run loses an image
   exactly if it is safe to remove the intermediate ones.
   */
  lemma ConservedIffSafe(c: Config, first: State, ids: ImageIDs)
    requires Prepared(c) && Callable(c) && Starts(c, first) && c.schedule.Keys <= ids.Keys
    ensures ConservedFrom(c, first, ids) <==> SafeToRemove(c)
  {
    hide Run, Conserved, SafeToRemove, Prepared, Callable, Starts;
    if SafeToRemove(c) {
      forall run: seq<State>, i | Run(c, run) && 0 <= i < |run|
        ensures Conserved(c, run[i])
      {
        SafeRunsConserve(c, run, i);
      }
    } else {
      var run, p := UnsafeLoses(c, first, ids);
      LosingIsNotConserving(c, first, ids, run, p);
    }
  }

  lemma LosingIsNotConserving(c: Config, first: State, ids: ImageIDs, run: seq<State>, p: string)
    requires Loses(c, first, ids, run, p)
    ensures !ConservedFrom(c, first, ids) && !AlwaysConserved(c)
  {
    assert run != [];
    hide Run, Kept;
    var i := |run| - 1;
    assert !Conserved(c, run[i]);
  }

  /** So it is when nothing is known of the stores, of the list and of the image IDs. */
  lemma AlwaysConservedIffSafe(c: Config)
    requires Prepared(c) && Callable(c)
    ensures AlwaysConserved(c) <==> SafeToRemove(c)
  {
    hide Run, Conserved, SafeToRemove, Prepared, Callable;
    if SafeToRemove(c) {
      forall run: seq<State>, i | Run(c, run) && 0 <= i < |run|
        ensures Conserved(c, run[i])
      {
        SafeRunsConserve(c, run, i);
      }
    } else {
      var first, ids := Init(c, {}, None), map p | p in c.schedule :: "image for " + p;
      var run, p := UnsafeLoses(c, first, ids);
      LosingIsNotConserving(c, first, ids, run, p);
    }
  }
}
