/**
 Runs in which everything goes well: from any contents of the stores and of the list, and for any image IDs that the
 engines may report, a build can be brought to its end.
 */
module Completion {
  import opened Wrappers
  import opened Orders
  import opened Builders
  import opened Jobs
  import opened BuildRun
  import opened BuildInvariants
  import opened Conservation
  import opened ListSafety

  /** The image ID that is reported for each platform of the schedule. */
  type ImageIDs = map<string, string>

  /** Every scheduled builder can get as far as calling its engine. */
  ghost predicate Callable(c: Config) {
    forall p :: p in c.schedule && c.schedule[p] in c.farm && c.farm[c.schedule[p]].kind.Local? ==>
      c.farm[c.schedule[p]].fetched.err.None?
  }

  ghost predicate Starts(c: Config, first: State) {
    exists copies, list :: first == Init(c, copies, list)
  }

  function Last(run: seq<State>): State
    requires run != []
  {
    run[|run| - 1]
  }

  lemma Extend(c: Config, run: seq<State>, e: Event)
    requires Run(c, run) && CanHappen(c, Last(run), e)
    ensures Run(c, run + [Next(c, Last(run), e)])
  {
    var t := Next(c, Last(run), e);
    assert Step(c, Last(run), t);
    hide Step, Next, CanHappen;
    var longer := run + [t];
    forall i | 0 <= i < |longer| - 1
      ensures Step(c, longer[i], longer[i + 1])
    {
      if i < |run| - 1 {
        assert Step(c, run[i], run[i + 1]);
      }
    }
    assert longer[0] == run[0];
  }

  // ---------------------------------------------------------------- all builds succeed

  /** A run in which the builds of `todo` are still to come, and the others have reported their images. */
  ghost predicate Reporting(c: Config, first: State, ids: ImageIDs, run: seq<State>, todo: seq<string>) {
    && Run(c, run) && run[0] == first && c.schedule.Keys <= ids.Keys
    && var s := Last(run);
       && s.phase.Builds? && !s.failed && s.builds.Keys == c.schedule.Keys
       && (forall p :: p in s.builds ==> s.builds[p] == if p in todo then Building else Built(ReportOf(c, ids[p])))
       && (forall k :: 0 <= k < |todo| ==> todo[k] in c.schedule)
       && (forall j, k :: 0 <= j < k < |todo| ==> todo[j] != todo[k])
  }

  lemma {:induction false} FinishBuilds(c: Config, first: State, ids: ImageIDs, run: seq<State>, todo: seq<string>)
    returns (longer: seq<State>)
    requires Prepared(c) && Callable(c) && Reporting(c, first, ids, run, todo)
    ensures Reporting(c, first, ids, longer, [])
    decreases |todo|
  {
    assert run != [];
    hide Run, StoreOf, TargetOf;
    if todo == [] {
      longer := run;
    } else {
      var p, s := todo[0], Last(run);
      var e := BuildOk(p, ids[p]);
      assert p in todo;
      assert CanHappen(c, s, e);
      var t := Next(c, s, e);
      Extend(c, run, e);
      assert t.builds == s.builds[p := Built(ReportOf(c, ids[p]))];
      assert forall q :: q in todo <==> q == p || q in todo[1..];
      assert t.phase == s.phase && t.failed == s.failed;
      hide Next, CanHappen;
      longer := FinishBuilds(c, first, ids, run + [t], todo[1..]);
    }
  }

  /** A run that has not failed and in which all platforms have been built, with the given image IDs. */
  ghost predicate AllBuilt(c: Config, first: State, ids: ImageIDs, run: seq<State>) {
    && Run(c, run) && run[0] == first && c.schedule.Keys <= ids.Keys
    && var s := Last(run);
       && !s.failed && s.builds.Keys == c.schedule.Keys
       && (forall p :: p in s.builds ==> s.builds[p] == Built(ReportOf(c, ids[p])))
       && (!s.phase.Builds? && c.kind.ListLocal? ==> s.list.Some?)
  }

  lemma BuildAll(c: Config, first: State, ids: ImageIDs) returns (run: seq<State>)
    requires Prepared(c) && Callable(c) && Starts(c, first) && c.schedule.Keys <= ids.Keys
    ensures AllBuilt(c, first, ids, run) && Last(run).phase.Builds?
  {
    var order := SomeOrder(c.schedule.Keys);
    assert Run(c, [first]);
    assert Reporting(c, first, ids, [first], order);
    run := FinishBuilds(c, first, ids, [first], order);
  }

  lemma ListStays(c: Config, s: State, e: Event)
    requires CanHappen(c, s, e)
    ensures s.list.Some? ==> Next(c, s, e).list.Some?
    ensures e.BuildsDone? && c.kind.ListLocal? && !Next(c, s, e).failed ==> Next(c, s, e).list.Some?
  {
    hide StoreOf, WorkerFor, TargetOf, ReportOf, RefOf, Collect, Results, FoundLocally, Removable;
  }

  /** One more step that is not a failure. */
  lemma GoOn(c: Config, first: State, ids: ImageIDs, run: seq<State>, e: Event)
    requires AllBuilt(c, first, ids, run) && CanHappen(c, Last(run), e) && !OfBuild(e) && !Next(c, Last(run), e).failed
    ensures AllBuilt(c, first, ids, run + [Next(c, Last(run), e)])
  {
    Extend(c, run, e);
    Frame(c, Last(run), e);
    ListStays(c, Last(run), e);
    hide Run, Next, CanHappen;
  }

  // ---------------------------------------------------------------- all images are collected

  /** No platform after number k of the order has the same image ID. */
  ghost predicate LastWithID(c: Config, ids: ImageIDs, order: seq<string>, k: nat) {
    && k < |order| && (forall j :: 0 <= j < |order| ==> order[j] in ids && order[j] in c.schedule)
    && forall j :: k < j < |order| ==> ids[order[j]] != ids[order[k]]
  }

  /** The images are those that have been reported, each from the last platform of the order that reported it. */
  ghost predicate CollectedInOrder(c: Config, ids: ImageIDs, order: seq<string>, images: map<BuildReport, string>) {
    forall k: nat {:trigger LastWithID(c, ids, order, k)} :: LastWithID(c, ids, order, k) ==>
      var r := ReportOf(c, ids[order[k]]);
      r in images && images[r] == c.schedule[order[k]]
  }

  lemma CollectAll(c: Config, first: State, ids: ImageIDs, run: seq<State>, order: seq<string>)
    returns (longer: seq<State>)
    requires Prepared(c) && AllBuilt(c, first, ids, run) && Last(run).phase.Builds?
    requires Enumerates(order, c.schedule.Keys)
    ensures AllBuilt(c, first, ids, longer) && Last(longer).phase.Pulls?
    ensures forall r :: r in Last(longer).pulls ==> Last(longer).pulls[r].NotPulled?
    ensures CollectedInOrder(c, ids, order, Last(longer).images)
  {
    ResultsAreIDs(c, first, ids, run);
    var s, e := Last(run), BuildsDone(order, true);
    BarrierIsPassed(c, s, order);
    hide AllBuilt, Results, Prepared, Collect, CollectedInOrder, StartPulls, Next, CanHappen;
    CollectsInOrder(c, ids, Results(c, s), order);
    GoOn(c, first, ids, run, e);
    longer := run + [Next(c, s, e)];
  }

  lemma ResultsAreIDs(c: Config, first: State, ids: ImageIDs, run: seq<State>)
    requires Prepared(c) && AllBuilt(c, first, ids, run)
    ensures var results := Results(c, Last(run));
            && results.Keys == c.schedule.Keys
            && forall p :: p in c.schedule ==> results[p] == BuildResult(ReportOf(c, ids[p]), c.schedule[p])
  {
    hide Run;
  }

  lemma BarrierIsPassed(c: Config, s: State, order: seq<string>)
    requires s.phase.Builds? && !s.failed && Enumerates(order, Results(c, s).Keys)
    requires forall p :: p in s.builds ==> s.builds[p].Built?
    ensures CanHappen(c, s, BuildsDone(order, true))
    ensures var t := Next(c, s, BuildsDone(order, true));
            && !t.failed && t.phase.Pulls? && t.images == Collect(Results(c, s), order)
            && forall r :: r in t.pulls ==> t.pulls[r].NotPulled?
  {
    hide Results, Collect;
  }

  lemma CollectsInOrder(c: Config, ids: ImageIDs, results: map<string, BuildResult>, order: seq<string>)
    requires Enumerates(order, c.schedule.Keys) && results.Keys == c.schedule.Keys && c.schedule.Keys <= ids.Keys
    requires forall p :: p in c.schedule ==> results[p] == BuildResult(ReportOf(c, ids[p]), c.schedule[p])
    ensures CollectedInOrder(c, ids, order, Collect(results, order))
  {
    forall k: nat | LastWithID(c, ids, order, k)
      ensures var r := ReportOf(c, ids[order[k]]);
              r in Collect(results, order) && Collect(results, order)[r] == c.schedule[order[k]]
    {
      CollectTakesLast(results, order, k);
    }
  }

  // ---------------------------------------------------------------- all images are pulled

  /** Before any removal, a collected image is in the store of the builder it is collected from. */
  lemma ImageAtHome(c: Config, run: seq<State>, r: BuildReport)
    requires Prepared(c) && Run(c, run) && Last(run).phase.Pulls? && r in Last(run).images
    ensures Copy(StoreOf(c, Last(run).images[r]), r.imageID) in Last(run).copies
  {
    RunKeepsHome(c, run, |run| - 1);
    RunKeepsInv(c, run, |run| - 1);
    hide Run, StoreOf, Prepared, BarrierInv, PulledInv, CallsInv;
    var s := Last(run);
    assert ComesFrom(c, s, r, s.images[r]);
    var p :| p in c.schedule && p in s.builds && s.builds[p] == Built(r) && c.schedule[p] == s.images[r];
    assert AtHome(c, s, p);
  }

  function StillToPull(s: State): set<BuildReport> {
    set r | r in s.pulls && s.pulls[r].NotPulled?
  }

  /** Some images have been pulled, to local storage if that is where they go, and the rest have not been touched. */
  ghost predicate Pulling(c: Config, s: State) {
    && s.phase.Pulls? && s.pulls.Keys == s.images.Keys
    && (forall r :: r in s.pulls ==> s.pulls[r].NotPulled? || s.pulls[r].Pulled?)
    && (c.kind.ListLocal? ==>
          forall r :: r in s.pulls && s.pulls[r].Pulled? ==> Copy(c.localStore, r.imageID) in s.copies)
  }

  lemma PullOne(c: Config, first: State, ids: ImageIDs, run: seq<State>, r: BuildReport) returns (longer: seq<State>)
    requires Prepared(c) && AllBuilt(c, first, ids, run) && Pulling(c, Last(run)) && r in StillToPull(Last(run))
    ensures longer != [] && AllBuilt(c, first, ids, longer) && Pulling(c, Last(longer))
    ensures Last(longer).images == Last(run).images
    ensures Last(longer).pulls == Last(run).pulls[r := Pulled]
  {
    ImageAtHome(c, run, r);
    var s := Last(run);
    hide StoreOf, RefOf, FoundLocally, Prepared, AllBuilt;
    if c.kind.ListFiles? {
      FilesNotLocal(c, s, r);
      assert CanHappen(c, s, Save(r));
      GoOn(c, first, ids, run, Save(r));
      longer := run + [Next(c, s, Save(r))];
    } else if FoundLocally(c, s, r) {
      FoundIsLocal(c, s, r);
      assert CanHappen(c, s, AlreadyLocal(r));
      GoOn(c, first, ids, run, AlreadyLocal(r));
      longer := run + [Next(c, s, AlreadyLocal(r))];
    } else {
      longer := SaveAndLoad(c, first, ids, run, r);
    }
  }

  lemma FoundIsLocal(c: Config, s: State, r: BuildReport)
    requires r in s.images && FoundLocally(c, s, r)
    ensures Copy(c.localStore, r.imageID) in s.copies
  {
  }

  lemma FilesNotLocal(c: Config, s: State, r: BuildReport)
    requires c.kind.ListFiles? && r in s.images
    ensures !FoundLocally(c, s, r)
  {
  }

  lemma SaveAndLoad(c: Config, first: State, ids: ImageIDs, run: seq<State>, r: BuildReport)
    returns (longer: seq<State>)
    requires AllBuilt(c, first, ids, run) && CanSave(c, Last(run), r) && c.kind.ListLocal?
    ensures AllBuilt(c, first, ids, longer) && Last(longer).phase.Pulls?
    ensures Last(longer).images == Last(run).images && Last(longer).pulls == Last(run).pulls[r := Pulled]
    ensures Last(longer).copies == Last(run).copies + {Copy(c.localStore, r.imageID)}
  {
    assert !Last(run).failed;
    hide StoreOf, RefOf, FoundLocally, AllBuilt;
    var s := Last(run);
    assert CanHappen(c, s, Save(r));
    var t := Next(c, s, Save(r));
    assert t == s.(pulls := s.pulls[r := Saved]);
    GoOn(c, first, ids, run, Save(r));
    assert CanHappen(c, t, Load(r));
    GoOn(c, first, ids, run + [t], Load(r));
    longer := run + [t] + [Next(c, t, Load(r))];
  }

  lemma {:induction false} PullAll(c: Config, first: State, ids: ImageIDs, run: seq<State>) returns (longer: seq<State>)
    requires Prepared(c) && AllBuilt(c, first, ids, run) && Pulling(c, Last(run))
    ensures AllBuilt(c, first, ids, longer) && Pulling(c, Last(longer)) && Last(longer).images == Last(run).images
    ensures StillToPull(Last(longer)) == {}
    decreases |StillToPull(Last(run))|
  {
    assert run != [];
    hide Prepared, AllBuilt, Pulling;
    longer := run;
    if StillToPull(Last(run)) != {} {
      var r :| r in StillToPull(Last(run));
      var more := PullOne(c, first, ids, run, r);
      assert StillToPull(Last(more)) == StillToPull(Last(run)) - {r};
      longer := PullAll(c, first, ids, more);
    }
  }

  // ---------------------------------------------------------------- what is to be removed is removed

  function StillToRemove(s: State): set<BuildReport> {
    set r | r in s.removals && s.removals[r].NotRemoved?
  }

  /** Some images have been removed, and the rest are still where they were built. */
  ghost predicate Removing(c: Config, s: State) {
    && s.phase.Removals? && s.removals.Keys == ToRemove(c, s)
    && (forall r :: r in s.removals ==> s.removals[r].NotRemoved? || s.removals[r].Removed?)
    && (forall r :: r in s.removals && s.removals[r].NotRemoved? ==>
              Copy(StoreOf(c, s.images[r]), r.imageID) in s.copies)
  }

  /** All images are in local storage, if that is where they go. */
  ghost predicate AllLocal(c: Config, s: State) {
    c.kind.ListLocal? ==> forall r :: r in s.images ==> Copy(c.localStore, r.imageID) in s.copies
  }

  /** No image that is to be removed is to be removed from local storage. */
  ghost predicate NoneRemovedLocally(c: Config, s: State) {
    c.kind.ListLocal? ==> forall r :: r in ToRemove(c, s) ==> StoreOf(c, s.images[r]) != c.localStore
  }

  lemma EndPulls(c: Config, first: State, ids: ImageIDs, run: seq<State>) returns (longer: seq<State>)
    requires Prepared(c) && AllBuilt(c, first, ids, run) && Pulling(c, Last(run)) && StillToPull(Last(run)) == {}
    ensures AllBuilt(c, first, ids, longer) && Last(longer).images == Last(run).images && AllLocal(c, Last(longer))
    ensures c.removeIntermediates ==> Removing(c, Last(longer))
    ensures c.removeIntermediates ==> StillToRemove(Last(longer)) == ToRemove(c, Last(longer))
    ensures !c.removeIntermediates ==> Last(longer).phase == AfterRemovals(c)
  {
    assert !Last(run).failed;
    var s := Last(run);
    forall r | r in s.images
      ensures Copy(StoreOf(c, s.images[r]), r.imageID) in s.copies
    {
      ImageAtHome(c, run, r);
    }
    PullsAreDone(c, s);
    hide AllBuilt, Pulling, CanHappen, Next, Prepared, StoreOf, Removing, AllLocal, AfterRemovals;
    GoOn(c, first, ids, run, PullsDone);
    longer := run + [Next(c, s, PullsDone)];
  }

  lemma PullsAreDone(c: Config, s: State)
    requires !s.failed && Pulling(c, s) && StillToPull(s) == {}
    requires forall r :: r in s.images ==> Copy(StoreOf(c, s.images[r]), r.imageID) in s.copies
    ensures CanHappen(c, s, PullsDone)
    ensures var t := Next(c, s, PullsDone);
            && !t.failed && t.images == s.images && AllLocal(c, t)
            && (if c.removeIntermediates then Removing(c, t) && StillToRemove(t) == ToRemove(c, t)
                else t.phase == AfterRemovals(c))
  {
    hide Removable, StoreOf;
    assert forall r :: r in s.pulls ==> r !in StillToPull(s);
  }

  /** Images are told apart by their IDs alone, as they are all saved in one format. */
  lemma OneFormat(c: Config, first: State, ids: ImageIDs, run: seq<State>)
    requires Prepared(c) && AllBuilt(c, first, ids, run) && PastPulls(Last(run))
    ensures forall r, q :: r in Last(run).images && q in Last(run).images && r.imageID == q.imageID ==> r == q
  {
    RunKeepsInv(c, run, |run| - 1);
    hide Run, Prepared, BarrierInv, PulledInv, CallsInv;
    var s := Last(run);
    forall r | r in s.images
      ensures r.saveFormat == c.saveFormat
    {
      assert ComesFrom(c, s, r, s.images[r]);
    }
  }

  lemma RemoveOne(c: Config, first: State, ids: ImageIDs, run: seq<State>, r: BuildReport) returns (longer: seq<State>)
    requires Prepared(c) && AllBuilt(c, first, ids, run) && Removing(c, Last(run)) && r in StillToRemove(Last(run))
    ensures longer != [] && AllBuilt(c, first, ids, longer) && Removing(c, Last(longer)) && r in Last(run).images
    ensures Last(longer).copies == Last(run).copies - {Copy(StoreOf(c, Last(run).images[r]), r.imageID)}
    ensures Last(longer).images == Last(run).images
    ensures StillToRemove(Last(longer)) == StillToRemove(Last(run)) - {r}
  {
    OneFormat(c, first, ids, run);
    assert !Last(run).failed;
    var s := Last(run);
    hide AllBuilt, Removable, StoreOf, Prepared;
    assert CanHappen(c, s, RemoveOk(r));
    var t := Next(c, s, RemoveOk(r));
    assert t.images == s.images && t.removals == s.removals[r := Removed];
    GoOn(c, first, ids, run, RemoveOk(r));
    longer := run + [t];
  }

  lemma RemovalLeavesLocal(c: Config, s: State, t: State, r: BuildReport)
    requires NoneRemovedLocally(c, s) && AllLocal(c, s) && r in ToRemove(c, s) && t.images == s.images
    requires t.copies == s.copies - {Copy(StoreOf(c, s.images[r]), r.imageID)}
    ensures NoneRemovedLocally(c, t) && AllLocal(c, t)
  {
    hide StoreOf, Removable;
  }

  lemma {:induction false} RemoveAll(c: Config, first: State, ids: ImageIDs, run: seq<State>)
    returns (longer: seq<State>)
    requires Prepared(c) && AllBuilt(c, first, ids, run) && Removing(c, Last(run))
    ensures AllBuilt(c, first, ids, longer) && Removing(c, Last(longer)) && StillToRemove(Last(longer)) == {}
    ensures Last(longer).copies <= Last(run).copies
    ensures NoneRemovedLocally(c, Last(run)) && AllLocal(c, Last(run)) ==> AllLocal(c, Last(longer))
    decreases |StillToRemove(Last(run))|
  {
    assert run != [];
    assert forall r :: r in StillToRemove(Last(run)) ==> r in ToRemove(c, Last(run));
    hide AllBuilt, Removing, StoreOf, StillToRemove, Prepared, AllLocal, NoneRemovedLocally, ToRemove;
    longer := run;
    if StillToRemove(Last(run)) != {} {
      var r :| r in StillToRemove(Last(run));
      var more := RemoveOne(c, first, ids, run, r);
      if NoneRemovedLocally(c, Last(run)) && AllLocal(c, Last(run)) {
        RemovalLeavesLocal(c, Last(run), Last(more), r);
      }
      longer := RemoveAll(c, first, ids, more);
    }
  }

  lemma FinishRemovals(c: Config, first: State, ids: ImageIDs, run: seq<State>) returns (longer: seq<State>)
    requires Prepared(c) && AllBuilt(c, first, ids, run) && Removing(c, Last(run))
    ensures AllBuilt(c, first, ids, longer) && Last(longer).phase == AfterRemovals(c)
    ensures Last(longer).copies <= Last(run).copies
    ensures NoneRemovedLocally(c, Last(run)) && AllLocal(c, Last(run)) ==> AllLocal(c, Last(longer))
  {
    var done := RemoveAll(c, first, ids, run);
    assert !Last(done).failed;
    var s := Last(done);
    hide AllBuilt, Removable, StoreOf, Prepared;
    assert forall r :: r in s.removals ==> r !in StillToRemove(s);
    assert CanHappen(c, s, RemovalsDone);
    var t := Next(c, s, RemovalsDone);
    assert t == s.(phase := AfterRemovals(c));
    GoOn(c, first, ids, done, RemovalsDone);
    longer := done + [t];
  }

  // ---------------------------------------------------------------- the list is replaced


  /** The list is being replaced, and all images that are still to be added can be read. */
  ghost predicate Replacing(c: Config, s: State) {
    && c.kind.ListLocal? && s.list.Some? && AllLocal(c, s)
    && (forall ref :: ref in s.refs ==> exists r :: r in s.images && RefOf(r) == ref)
    && (s.phase.Adding? ==> s.toAdd <= s.refs)
  }

  lemma ClearNext(c: Config, s: State, d: string)
    requires !s.failed && s.phase.Clearing? && s.list == Some(s.toClear) && d in s.toClear
    ensures CanHappen(c, s, ClearOne(d, true))
    ensures Next(c, s, ClearOne(d, true)) == s.(list := Some(s.toClear - {d}), toClear := s.toClear - {d})
  {
  }

  lemma {:induction false} ClearAll(c: Config, first: State, ids: ImageIDs, run: seq<State>)
    returns (longer: seq<State>)
    requires AllBuilt(c, first, ids, run) && Last(run).list.Some? && Last(run).phase.Clearing?
    requires Last(run).list == Some(Last(run).toClear)
    ensures longer != [] && AllBuilt(c, first, ids, longer) && Last(longer).phase.Adding?
    ensures OnlyList(Last(run), Last(longer)) && Last(longer).list == Some({}) && Last(longer).toAdd == Last(run).refs
    decreases |Last(run).toClear|
  {
    assert !Last(run).failed && run != [];
    var s := Last(run);
    hide AllBuilt;
    if s.toClear == {} {
      assert CanHappen(c, s, ClearingDone);
      GoOn(c, first, ids, run, ClearingDone);
      longer := run + [Next(c, s, ClearingDone)];
    } else {
      var d :| d in s.toClear;
      ClearNext(c, s, d);
      hide Next, CanHappen;
      GoOn(c, first, ids, run, ClearOne(d, true));
      longer := ClearAll(c, first, ids, run + [Next(c, s, ClearOne(d, true))]);
    }
  }

  lemma {:induction false} AddAll(c: Config, first: State, ids: ImageIDs, run: seq<State>) returns (longer: seq<State>)
    requires AllBuilt(c, first, ids, run) && Last(run).phase.Adding? && Replacing(c, Last(run))
    ensures AllBuilt(c, first, ids, longer) && Last(longer).phase.Succeeded?
    decreases |Last(run).toAdd|
  {
    assert !Last(run).failed;
    var s := Last(run);
    if s.toAdd == {} {
      hide AllBuilt, RefOf;
      assert CanHappen(c, s, AddingDone);
      GoOn(c, first, ids, run, AddingDone);
      longer := run + [Next(c, s, AddingDone)];
    } else {
      var ref :| ref in s.toAdd;
      AddNext(c, s, ref);
      hide AllBuilt, RefOf, Replacing, CanHappen, Next;
      GoOn(c, first, ids, run, AddOne(ref, true));
      longer := AddAll(c, first, ids, run + [Next(c, s, AddOne(ref, true))]);
    }
  }

  lemma AddNext(c: Config, s: State, ref: string)
    requires !s.failed && s.phase.Adding? && Replacing(c, s) && ref in s.toAdd
    ensures CanHappen(c, s, AddOne(ref, true))
    ensures var t := Next(c, s, AddOne(ref, true));
            !t.failed && t.phase.Adding? && Replacing(c, t) && t.toAdd == s.toAdd - {ref}
  {
    hide RefOf;
  }

  lemma RefsAreOfImages(c: Config, run: seq<State>)
    requires Prepared(c) && Run(c, run) && c.kind.ListLocal?
    ensures forall ref :: ref in Last(run).refs ==> exists r :: r in Last(run).images && RefOf(r) == ref
  {
    RunKeepsInv(c, run, |run| - 1);
    hide Run, Prepared, ImagesInv, CallsInv, RefOf, Removable;
  }

  /** The list has been cleared, and nothing has been added to it yet. */
  lemma StartList(c: Config, first: State, ids: ImageIDs, run: seq<State>) returns (longer: seq<State>)
    requires AllBuilt(c, first, ids, run) && Last(run).phase.Inspecting? && c.kind.ListLocal?
    ensures longer != [] && AllBuilt(c, first, ids, longer) && Last(longer).phase.Adding?
    ensures OnlyList(Last(run), Last(longer)) && Last(longer).list == Some({}) && Last(longer).toAdd == Last(run).refs
  {
    assert !Last(run).failed && Last(run).list.Some?;
    var s := Last(run);
    hide AllBuilt;
    assert CanHappen(c, s, Inspect(true));
    GoOn(c, first, ids, run, Inspect(true));
    longer := ClearAll(c, first, ids, run + [Next(c, s, Inspect(true))]);
  }

  lemma FinishList(c: Config, first: State, ids: ImageIDs, run: seq<State>) returns (longer: seq<State>)
    requires Prepared(c) && AllBuilt(c, first, ids, run) && Last(run).phase == AfterRemovals(c)
              && AllLocal(c, Last(run))
    ensures AllBuilt(c, first, ids, longer) && Last(longer).phase.Succeeded?
  {
    assert !Last(run).failed;
    var s := Last(run);
    if c.kind.ListLocal? {
      RefsAreOfImages(c, run);
      hide AllBuilt, Run, Prepared, RefOf;
      var cleared := StartList(c, first, ids, run);
      longer := AddAll(c, first, ids, cleared);
    } else {
      hide AllBuilt;
      assert CanHappen(c, s, WritingDone(true));
      GoOn(c, first, ids, run, WritingDone(true));
      longer := run + [Next(c, s, WritingDone(true))];
    }
  }

  // ---------------------------------------------------------------- from the start to the end

  /** A run that has pulled everything. */
  lemma PulledRun(c: Config, first: State, ids: ImageIDs, order: seq<string>) returns (run: seq<State>)
    requires Prepared(c) && Callable(c) && Starts(c, first) && c.schedule.Keys <= ids.Keys
    requires Enumerates(order, c.schedule.Keys)
    ensures AllBuilt(c, first, ids, run) && Pulling(c, Last(run)) && StillToPull(Last(run)) == {}
    ensures CollectedInOrder(c, ids, order, Last(run).images)
  {
    var built := BuildAll(c, first, ids);
    var collected := CollectAll(c, first, ids, built, order);
    RunKeepsInv(c, collected, |collected| - 1);
    assert Pulling(c, Last(collected));
    hide Prepared, Callable, Run, Inv, AllBuilt, Pulling, Starts, Enumerates, CollectedInOrder;
    run := PullAll(c, first, ids, collected);
  }

  /** Whatever was in the stores and in the list, some run gets all images built and pulled. */
  lemma SomeRunPulls(c: Config, first: State, ids: ImageIDs) returns (run: seq<State>)
    requires Prepared(c) && Callable(c) && Starts(c, first) && c.schedule.Keys <= ids.Keys
    ensures Run(c, run) && run[0] == first && !Last(run).failed && Last(run).phase.Pulls?
    ensures Last(run).builds == map p | p in c.schedule :: Built(BuildReport(ids[p], c.saveFormat))
    ensures Last(run).pulls == map r | r in Last(run).images :: Pulled
  {
    var order := SomeOrder(c.schedule.Keys);
    run := PulledRun(c, first, ids, order);
    hide Run, Prepared, Callable, Starts, CollectedInOrder, Enumerates, ReportOf;
    assert forall r :: r in Last(run).pulls ==> r !in StillToPull(Last(run));
  }

  /** The image built for this platform would be removed from local storage itself. */
  predicate Endangered(c: Config, p: string)
    requires p in c.schedule
  {
    && c.removeIntermediates && c.kind.ListLocal? && c.schedule[p] in c.farm
    && c.farm[c.schedule[p]].name != LOCAL_NAME && c.farm[c.schedule[p]].store == c.localStore
  }

  /** The image of p is built for a platform for which it is not endangered. */
  ghost predicate HasSafeSource(c: Config, ids: ImageIDs, p: string)
    requires c.schedule.Keys <= ids.Keys && p in c.schedule
  {
    exists q :: q in c.schedule && ids[q] == ids[p] && !Endangered(c, q)
  }

  /** Every image can be collected from a builder where it is not endangered. */
  ghost predicate CanSucceed(c: Config, ids: ImageIDs)
    requires c.schedule.Keys <= ids.Keys
  {
    forall p {:trigger HasSafeSource(c, ids, p)} :: p in c.schedule ==> HasSafeSource(c, ids, p)
  }

  /** The order in which the endangered platforms come first. */
  lemma SafeOrder(c: Config) returns (order: seq<string>, n: nat)
    ensures Enumerates(order, c.schedule.Keys) && n <= |order|
    ensures forall k :: 0 <= k < |order| ==> (Endangered(c, order[k]) <==> k < n)
  {
    var endangered := set p | p in c.schedule && Endangered(c, p);
    var start := SomeOrder(endangered);
    var end := SomeOrder(c.schedule.Keys - endangered);
    order, n := start + end, |start|;
    hide Endangered;
    forall p | p in c.schedule
      ensures p in order
    {
      assert p in start || p in end;
    }
  }

  lemma {:induction false} SomeLastWithID(c: Config, ids: ImageIDs, order: seq<string>, n: nat) returns (k: nat)
    requires n < |order| && forall j :: 0 <= j < |order| ==> order[j] in ids && order[j] in c.schedule
    ensures n <= k < |order| && ids[order[k]] == ids[order[n]] && LastWithID(c, ids, order, k)
    decreases |order| - n
  {
    if j :| n < j < |order| && ids[order[j]] == ids[order[n]] {
      k := SomeLastWithID(c, ids, order, j);
    } else {
      k := n;
    }
  }

  /** In that order, no image is collected from where it is endangered, if that can be avoided. */
  lemma SafelyCollected(c: Config, first: State, ids: ImageIDs, run: seq<State>, order: seq<string>, n: nat)
    requires Prepared(c) && AllBuilt(c, first, ids, run) && !Last(run).phase.Builds? && CanSucceed(c, ids)
    requires Enumerates(order, c.schedule.Keys) && n <= |order| && CollectedInOrder(c, ids, order, Last(run).images)
    requires forall k :: 0 <= k < |order| ==> (Endangered(c, order[k]) <==> k < n)
    ensures NoneRemovedLocally(c, Last(run))
  {
    var s := Last(run);
    forall r | r in s.images
      ensures exists p :: p in c.schedule && r == ReportOf(c, ids[p])
    {
      ReportedByID(c, first, ids, run, r);
    }
    hide AllBuilt, Prepared, ReportOf, StoreOf, Removable, CanSucceed, CollectedInOrder, Enumerates, Endangered;
    forall r | r in ToRemove(c, s) && c.kind.ListLocal?
      ensures StoreOf(c, s.images[r]) != c.localStore
    {
      var p :| p in c.schedule && r == ReportOf(c, ids[p]);
      SafeSource(c, ids, s.images, order, n, p);
    }
  }

  lemma ReportedByID(c: Config, first: State, ids: ImageIDs, run: seq<State>, r: BuildReport)
    requires Prepared(c) && AllBuilt(c, first, ids, run) && !Last(run).phase.Builds? && r in Last(run).images
    ensures exists p :: p in c.schedule && r == ReportOf(c, ids[p])
  {
    RunKeepsInv(c, run, |run| - 1);
    hide Run, Prepared, BarrierInv, PulledInv, CallsInv;
    assert ComesFrom(c, Last(run), r, Last(run).images[r]);
  }

  lemma SafeSource(c: Config, ids: ImageIDs, images: map<BuildReport, string>, order: seq<string>, n: nat, p: string)
    requires c.schedule.Keys <= ids.Keys && CanSucceed(c, ids) && p in c.schedule
    requires Enumerates(order, c.schedule.Keys) && n <= |order| && CollectedInOrder(c, ids, order, images)
    requires forall k :: 0 <= k < |order| ==> (Endangered(c, order[k]) <==> k < n)
    ensures ReportOf(c, ids[p]) in images
    ensures c.removeIntermediates && c.kind.ListLocal? && Removable(c, images[ReportOf(c, ids[p])]) ==>
              StoreOf(c, images[ReportOf(c, ids[p])]) != c.localStore
  {
    assert HasSafeSource(c, ids, p);
    var q :| q in c.schedule && ids[q] == ids[p] && !Endangered(c, q);
    assert q in order;
    var m :| 0 <= m < |order| && order[m] == q;
    var k := SomeLastWithID(c, ids, order, m);
    assert !Endangered(c, order[k]);
    WhoIsCleanedUp(c, c.schedule[order[k]]);
    hide StoreOf, Removable;
  }

  /** A run from `first` that succeeds, in which the engines report the given image IDs. */
  ghost predicate Succeeds(c: Config, first: State, ids: ImageIDs, run: seq<State>) {
    && Run(c, run) && run[0] == first && c.schedule.Keys <= ids.Keys
    && Last(run).phase.Succeeded? && !Last(run).failed
    && Last(run).builds == map p | p in c.schedule :: Built(BuildReport(ids[p], c.saveFormat))
  }

  /**
   Whatever was in the stores and in the list, some run succeeds if every image can be collected from where it is not
   endangered. Then the list is that of these images, and if a directory is written, it has these images.
   */
  lemma SomeRunSucceeds(c: Config, first: State, ids: ImageIDs) returns (run: seq<State>)
    requires Prepared(c) && Callable(c) && Starts(c, first) && c.schedule.Keys <= ids.Keys && CanSucceed(c, ids)
    ensures Succeeds(c, first, ids, run)
    ensures c.kind.ListLocal? ==>
              Last(run).list == Some(set p | p in c.schedule :: c.digest(RefOf(ReportOf(c, ids[p]))))
    ensures c.kind.ListFiles? ==> Last(run).files == set p | p in c.schedule :: ReportOf(c, ids[p])
  {
    var order, n := SafeOrder(c);
    var pulled := PulledRun(c, first, ids, order);
    SafelyCollected(c, first, ids, pulled, order, n);
    hide Prepared, Callable, AllBuilt, Pulling, Starts, Run, Removing, CanSucceed, Endangered, CollectedInOrder,
         Enumerates, StoreOf, AllLocal, Removable;
    run := EndPulls(c, first, ids, pulled);
    if c.removeIntermediates {
      SameSources(c, Last(pulled), Last(run));
      run := FinishRemovals(c, first, ids, run);
    }
    run := FinishList(c, first, ids, run);
    Succeeded(c, first, ids, run);
  }

  lemma SameSources(c: Config, s: State, t: State)
    requires NoneRemovedLocally(c, s) && t.images == s.images
    ensures NoneRemovedLocally(c, t)
  {
    hide StoreOf, Removable;
  }

  lemma Succeeded(c: Config, first: State, ids: ImageIDs, run: seq<State>)
    requires Prepared(c) && AllBuilt(c, first, ids, run) && Last(run).phase.Succeeded?
    ensures Succeeds(c, first, ids, run)
    ensures c.kind.ListLocal? ==>
              Last(run).list == Some(set p | p in c.schedule :: c.digest(RefOf(ReportOf(c, ids[p]))))
    ensures c.kind.ListFiles? ==> Last(run).files == set p | p in c.schedule :: ReportOf(c, ids[p])
  {
    assert run != [];
    RunKeepsInv(c, run, |run| - 1);
    RunKeepsList(c, run, |run| - 1);
    BuildsAreIDs(c, first, ids, run);
    hide Run, Prepared, RefOf, ReportOf, Inv, ListInv, Digests;
    var s := Last(run);
    assert s.phase.Succeeded? && !s.failed && s.builds.Keys == c.schedule.Keys;
    ReportsAreIDs(c, ids, s);
    SuccessHoldsTheImages(c, s, Instances(run[0].list));
    hide AllBuilt;
  }

  lemma BuildsAreIDs(c: Config, first: State, ids: ImageIDs, run: seq<State>)
    requires AllBuilt(c, first, ids, run)
    ensures Last(run).builds == map p | p in c.schedule :: Built(BuildReport(ids[p], c.saveFormat))
  {
    hide Run;
  }

  lemma SuccessHoldsTheImages(c: Config, s: State, was: set<string>)
    requires Inv(c, s) && ListInv(c, s, was) && s.phase.Succeeded? && !s.failed
    ensures forall p :: p in c.schedule ==> p in s.builds && s.builds[p].Built?
    ensures c.kind.ListLocal? ==> s.list == Some(set p | p in c.schedule :: c.digest(RefOf(s.builds[p].report)))
    ensures c.kind.ListFiles? ==> s.files == set p | p in c.schedule :: s.builds[p].report
  {
    hide RefOf, CallsInv, Digests, Removable;
    if c.kind.ListLocal? {
      WantedDigests(c, s);
    } else {
      SuccessWritesExactlyTheImages(c, s);
    }
  }

  lemma ReportsAreIDs(c: Config, ids: ImageIDs, s: State)
    requires c.schedule.Keys <= ids.Keys && s.builds.Keys == c.schedule.Keys
    requires forall p :: p in s.builds ==> s.builds[p] == Built(ReportOf(c, ids[p]))
    ensures (set p | p in c.schedule :: c.digest(RefOf(s.builds[p].report)))
         == (set p | p in c.schedule :: c.digest(RefOf(ReportOf(c, ids[p]))))
    ensures (set p | p in c.schedule :: s.builds[p].report) == (set p | p in c.schedule :: ReportOf(c, ids[p]))
  {
    hide RefOf, ReportOf;
    forall p | p in c.schedule
      ensures s.builds[p].report == ReportOf(c, ids[p])
    {
    }
  }

  lemma SuccessWritesExactlyTheImages(c: Config, s: State)
    requires Inv(c, s) && PastPulls(s) && !s.failed && c.kind.ListFiles?
    ensures forall p :: p in c.schedule ==> p in s.builds && s.builds[p].Built?
    ensures s.files == set p | p in c.schedule :: s.builds[p].report
  {
    hide CallsInv, RefOf, Removable;
    forall r | r in s.files
      ensures r in set p | p in c.schedule :: s.builds[p].report
    {
      assert ComesFrom(c, s, r, s.images[r]);
    }
    forall p | p in c.schedule
      ensures s.builds[p].report in s.files
    {
      assert s.pulls[s.builds[p].report].Pulled?;
    }
  }
}
