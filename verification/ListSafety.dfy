/** What happens to the manifest list, over whole runs. */
module ListSafety {
  import opened Wrappers
  import opened Builders
  import opened Jobs
  import opened BuildRun
  import opened BuildInvariants
  import opened Conservation

  function Instances(list: Option<set<string>>): set<string> {
    if list.Some? then list.value else {}
  }

  function Digests(c: Config, refs: set<string>): set<string> {
    set ref | ref in refs :: c.digest(ref)
  }

  /** Phases in which the list has not been touched yet. */
  predicate BeforeClearing(s: State) {
    s.phase.Builds? || s.phase.Pulls? || s.phase.Removals? || s.phase.Inspecting? || s.phase.Writing?
  }

  /** The list as it was, then what is left of it, then what has been put in its place. */
  ghost predicate ListInv(c: Config, s: State, was: set<string>) {
    && (BeforeClearing(s) ==> Instances(s.list) == was)
    && (s.phase.Clearing? ==> s.toClear <= was && s.list == Some(s.toClear))
    && (s.phase.Adding? ==> s.toAdd <= s.refs && s.list == Some(Digests(c, s.refs - s.toAdd)))
    && (s.phase.Succeeded? && c.kind.ListLocal? ==> s.list == Some(Digests(c, s.refs)))
  }

  lemma EarlierStepLeavesList(c: Config, s: State, e: Event)
    requires CanHappen(c, s, e) && !OfList(e)
    ensures var t := Next(c, s, e);
            && Instances(t.list) == Instances(s.list) && BeforeClearing(s) && BeforeClearing(t)
  {
    hide StoreOf, WorkerFor, TargetOf, ReportOf, RefOf, Collect, Results, FoundLocally, Removable;
    hide ReadList, ClearInstance, AddInstance;
  }

  lemma OneInstanceAdded(c: Config, refs: set<string>, toAdd: set<string>, ref: string)
    requires toAdd <= refs && ref in toAdd
    ensures Digests(c, refs - (toAdd - {ref})) == Digests(c, refs - toAdd) + {c.digest(ref)}
  {
    assert refs - (toAdd - {ref}) == refs - toAdd + {ref};
  }

  lemma ClearingKeepsList(c: Config, s: State, d: string, ok: bool, was: set<string>)
    requires !s.failed && ListInv(c, s, was)
    ensures s.phase.Inspecting? ==> ListInv(c, ReadList(s, ok), was)
    ensures s.phase.Clearing? ==> ListInv(c, ClearInstance(s, d, ok), was)
    ensures s.phase.Clearing? && s.toClear == {} ==> ListInv(c, s.(phase := Adding, toAdd := s.refs), was)
  {
    assert Digests(c, s.refs - s.refs) == {};
  }

  lemma AddingKeepsList(c: Config, s: State, ref: string, ok: bool, was: set<string>)
    requires !s.failed && ListInv(c, s, was)
    ensures s.phase.Adding? && ref in s.toAdd ==> ListInv(c, AddInstance(c, s, ref, ok), was)
    ensures s.phase.Adding? && s.toAdd == {} ==> ListInv(c, s.(phase := Succeeded), was)
  {
    if s.phase.Adding? && ref in s.toAdd {
      OneInstanceAdded(c, s.refs, s.toAdd, ref);
    }
    assert s.refs - {} == s.refs;
  }

  lemma StepKeepsList(c: Config, s: State, e: Event, was: set<string>)
    requires BarrierInv(c, s) && ListInv(c, s, was) && CanHappen(c, s, e)
    ensures ListInv(c, Next(c, s, e), was)
  {
    if !OfList(e) {
      EarlierStepLeavesList(c, s, e);
      hide Next, CanHappen;
    } else {
      ListEventKeepsList(c, s, e, was);
    }
  }

  lemma ListEventKeepsList(c: Config, s: State, e: Event, was: set<string>)
    requires BarrierInv(c, s) && ListInv(c, s, was) && CanHappen(c, s, e) && OfList(e)
    ensures ListInv(c, Next(c, s, e), was)
  {
    hide ReadList, ClearInstance, AddInstance, Digests;
    match e {
      case Inspect(ok) => ClearingKeepsList(c, s, "", ok, was);
      case ClearOne(d, ok) => ClearingKeepsList(c, s, d, ok, was);
      case ClearingDone => ClearingKeepsList(c, s, "", true, was);
      case AddOne(ref, ok) => AddingKeepsList(c, s, ref, ok, was);
      case AddingDone => AddingKeepsList(c, s, "", true, was);
      case WritingDone(ok) => assert c.kind.ListFiles?;
    }
  }

  lemma {:induction false} RunKeepsList(c: Config, run: seq<State>, i: nat)
    requires Prepared(c) && Run(c, run) && i < |run|
    ensures ListInv(c, run[i], Instances(run[0].list))
  {
    hide Next, CanHappen, Prepared, Inv, ListInv;
    if i > 0 {
      RunKeepsList(c, run, i - 1);
      RunKeepsInv(c, run, i - 1);
      assert BarrierInv(c, run[i - 1]) by {
        InvHasBarriers(c, run[i - 1]);
      }
      assert Step(c, run[i - 1], run[i - 1 + 1]);
      hide Run, BarrierInv;
      var e :| CanHappen(c, run[i - 1], e) && run[i] == Next(c, run[i - 1], e);
      StepKeepsList(c, run[i - 1], e, Instances(run[0].list));
    } else {
      InitKeepsList(c, run[0]);
    }
  }

  lemma InvHasBarriers(c: Config, s: State)
    requires Inv(c, s)
    ensures BarrierInv(c, s)
  {
  }

  lemma InitKeepsList(c: Config, s: State)
    requires s.phase.Builds?
    ensures ListInv(c, s, Instances(s.list))
  {
  }

  /** Nothing in the list changes before all builds, all pulls and all removals that were asked for have succeeded. */
  lemma ListUntouchedBeforeSuccess(c: Config, run: seq<State>, i: nat)
    requires Prepared(c) && Run(c, run) && i < |run| && Instances(run[i].list) != Instances(run[0].list)
    ensures c.kind.ListLocal?
    ensures forall p :: p in c.schedule ==> p in run[i].builds && run[i].builds[p].Built?
    ensures forall r :: r in run[i].images ==> r in run[i].pulls && run[i].pulls[r].Pulled?
    ensures forall r :: c.removeIntermediates && r in run[i].images ==>
              && run[i].images[r] in c.farm
              && (c.farm[run[i].images[r]].name != LOCAL_NAME ==>
                    r in run[i].removals && run[i].removals[r].Removed?)
  {
    RunKeepsList(c, run, i);
    RunKeepsInv(c, run, i);
    if c.kind.ListFiles? {
      FilesLeaveList(c, run, i);
    }
    forall r | r in run[i].images
      ensures run[i].images[r] in c.farm
      ensures c.farm[run[i].images[r]].name != LOCAL_NAME ==> Removable(c, run[i].images[r])
    {
      ImageFromFarm(c, run[i], r);
    }
    hide Run, Prepared, Removable, ComesFrom;
  }

  lemma {:induction false} FilesLeaveList(c: Config, run: seq<State>, i: nat)
    requires Prepared(c) && Run(c, run) && i < |run| && c.kind.ListFiles?
    ensures Instances(run[i].list) == Instances(run[0].list)
  {
    hide Next, CanHappen, Prepared, Inv;
    if i > 0 {
      FilesLeaveList(c, run, i - 1);
      RunKeepsInv(c, run, i - 1);
      assert Step(c, run[i - 1], run[i - 1 + 1]);
      hide Run;
      var e :| CanHappen(c, run[i - 1], e) && run[i] == Next(c, run[i - 1], e);
      FilesStepLeavesList(c, run[i - 1], e);
    }
  }

  lemma FilesStepLeavesList(c: Config, s: State, e: Event)
    requires Inv(c, s) && CanHappen(c, s, e) && c.kind.ListFiles?
    ensures Instances(Next(c, s, e).list) == Instances(s.list)
  {
    if !OfList(e) {
      EarlierStepLeavesList(c, s, e);
      hide Next, CanHappen;
    }
    hide StoreOf, WorkerFor, TargetOf, ReportOf, RefOf, Collect, Results, FoundLocally, Removable;
    hide StartPulls, StartRemovals, EndRemovals;
  }

  /**
   On success the list holds exactly the instances of the images that were built, one for each report, and nothing of
   what it held before; every one of these images is in local storage, whether removing was safe or not.
   */
  lemma SuccessListsExactlyTheImages(c: Config, run: seq<State>, i: nat)
    requires Prepared(c) && Run(c, run) && i < |run| && run[i].phase.Succeeded? && c.kind.ListLocal?
    ensures forall p :: p in c.schedule ==> p in run[i].builds && run[i].builds[p].Built?
    ensures run[i].list == Some(set p | p in c.schedule :: c.digest(RefOf(run[i].builds[p].report)))
    ensures forall p :: p in c.schedule ==>
              RefOf(run[i].builds[p].report) == "containers-storage:" + run[i].builds[p].report.imageID
    ensures forall p :: p in c.schedule ==> Copy(c.localStore, run[i].builds[p].report.imageID) in run[i].copies
  {
    RunKeepsList(c, run, i);
    RunKeepsInv(c, run, i);
    RunKeepsPresent(c, run, i);
    hide Run, Prepared, Removable, StoreOf, CallsInv, Digests;
    WantedDigests(c, run[i]);
    PulledIsReferred(c, run[i]);
    assert forall r: BuildReport :: RefOf(r) == "containers-storage:" + r.imageID;
    hide RefOf;
  }

  lemma PulledIsReferred(c: Config, s: State)
    requires ImagesInv(c, s) && BarrierInv(c, s) && PulledInv(c, s) && PastPulls(s) && c.kind.ListLocal?
    ensures forall r :: r in s.images ==> RefOf(r) in s.refs
  {
    hide RefOf, Removable, ComesFrom;
    forall r | r in s.images
      ensures RefOf(r) in s.refs
    {
      assert s.pulls[r].Pulled?;
    }
  }

  /** After all pulls, the references are those of the reports. */
  lemma WantedDigests(c: Config, s: State)
    requires ImagesInv(c, s) && BarrierInv(c, s) && PulledInv(c, s) && PastPulls(s) && c.kind.ListLocal?
    ensures Digests(c, s.refs) == set p | p in c.schedule :: c.digest(RefOf(s.builds[p].report))
  {
    hide RefOf;
    var wanted := set p | p in c.schedule :: c.digest(RefOf(s.builds[p].report));
    forall d | d in Digests(c, s.refs)
      ensures d in wanted
    {
      var r :| r in s.pulls && s.pulls[r].Pulled? && d == c.digest(RefOf(r));
      assert ComesFrom(c, s, r, s.images[r]);
    }
    forall d | d in wanted
      ensures d in Digests(c, s.refs)
    {
      var p :| p in c.schedule && d == c.digest(RefOf(s.builds[p].report));
      assert s.pulls[s.builds[p].report].Pulled?;
      assert RefOf(s.builds[p].report) in s.refs;
    }
  }

  // ---------------------------------------------------------------- what was added is in local storage

  lemma SameReference(r: BuildReport, q: BuildReport)
    requires RefOf(r) == RefOf(q)
    ensures r.imageID == q.imageID
  {
    var prefix := "containers-storage:";
    assert RefOf(r)[|prefix|..] == r.imageID && RefOf(q)[|prefix|..] == q.imageID;
  }

  /** The references that have been added to the list. */
  function Added(s: State): set<string> {
    if s.phase.Adding? then s.refs - s.toAdd else if s.phase.Succeeded? then s.refs else {}
  }

  /** Images that have been added are in local storage. */
  ghost predicate PresentInv(c: Config, s: State) {
    c.kind.ListLocal? ==>
      forall r :: r in s.images && RefOf(r) in Added(s) ==> Copy(c.localStore, r.imageID) in s.copies
  }

  lemma AddKeepsPresent(c: Config, s: State, ref: string, ok: bool)
    requires PresentInv(c, s) && CanHappen(c, s, AddOne(ref, ok))
    ensures PresentInv(c, Next(c, s, AddOne(ref, ok)))
  {
    var t := Next(c, s, AddOne(ref, ok));
    hide RefOf;
    assert Added(t) <= Added(s) + if ok then {ref} else {};
    if ok && c.kind.ListLocal? {
      var q :| q in s.images && RefOf(q) == ref && Copy(c.localStore, q.imageID) in s.copies;
      forall r | r in t.images && RefOf(r) in Added(t)
        ensures Copy(c.localStore, r.imageID) in t.copies
      {
        if RefOf(r) == ref {
          SameReference(r, q);
        }
      }
    }
  }

  lemma StepKeepsPresent(c: Config, s: State, e: Event)
    requires BarrierInv(c, s) && PresentInv(c, s) && CanHappen(c, s, e)
    ensures PresentInv(c, Next(c, s, e))
  {
    if e.AddOne? {
      AddKeepsPresent(c, s, e.ref, e.ok);
    } else if OfList(e) {
      ListSteps(c, s, e);
      if c.kind.ListLocal? {
        AddedElsewhere(c, s, e);
      }
      hide Next, CanHappen, RefOf;
    } else {
      EarlierStepLeavesList(c, s, e);
      hide Next, CanHappen, RefOf;
    }
  }

  lemma AddedElsewhere(c: Config, s: State, e: Event)
    requires BarrierInv(c, s) && CanHappen(c, s, e) && OfList(e) && !e.AddOne? && c.kind.ListLocal?
    ensures Added(Next(c, s, e)) <= Added(s)
  {
    hide RefOf, Removable;
  }

  lemma {:induction false} RunKeepsPresent(c: Config, run: seq<State>, i: nat)
    requires Prepared(c) && Run(c, run) && i < |run|
    ensures PresentInv(c, run[i])
  {
    hide Next, CanHappen, Prepared, Inv, PresentInv;
    if i > 0 {
      RunKeepsPresent(c, run, i - 1);
      RunKeepsInv(c, run, i - 1);
      InvHasBarriers(c, run[i - 1]);
      assert Step(c, run[i - 1], run[i - 1 + 1]);
      hide Run, BarrierInv;
      var e :| CanHappen(c, run[i - 1], e) && run[i] == Next(c, run[i - 1], e);
      StepKeepsPresent(c, run[i - 1], e);
    } else {
      NothingAddedYet(c, run[0]);
    }
  }

  lemma NothingAddedYet(c: Config, s: State)
    requires s.phase.Builds?
    ensures PresentInv(c, s)
  {
  }

  /**
   An image that is removed from local storage itself, by way of another connection, is never added to the list: no run
   that collects one succeeds, although by the time it cannot go on the list has been cleared.
   */
  lemma RemovedImageIsNeverListed(c: Config, run: seq<State>, i: nat, r: BuildReport)
    requires Prepared(c) && Run(c, run) && i < |run| && c.kind.ListLocal?
    requires c.removeIntermediates && r in run[i].images && run[i].images[r] in c.farm
    requires c.farm[run[i].images[r]].name != LOCAL_NAME && c.farm[run[i].images[r]].store == c.localStore
    ensures !run[i].phase.Succeeded?
    ensures run[i].phase.Adding? ==>
              RefOf(r) in run[i].toAdd && Instances(run[i].list) <= Digests(c, run[i].refs - {RefOf(r)})
  {
    RunKeepsPresent(c, run, i);
    RunKeepsList(c, run, i);
    RunKeepsInv(c, run, i);
    if PastRemovals(run[i]) {
      IntermediatesAreGone(c, run, i, r);
    }
    hide Run, Prepared, Removable, RefOf, StoreOf, CallsInv;
    if PastRemovals(run[i]) {
      PulledIsReferred(c, run[i]);
      assert RefOf(r) !in Added(run[i]);
    }
  }

  // ---------------------------------------------------------------- old or new, never both

  /** The instances of the images that were built. */
  function NewInstances(c: Config, s: State): set<string>
    requires forall p :: p in c.schedule ==> p in s.builds && s.builds[p].Built?
  {
    set p | p in c.schedule :: c.digest(RefOf(s.builds[p].report))
  }

  /**
   In every state of every run, failed ones included, the list has nothing but old instances or nothing but new ones.
   */
  lemma ListIsOldOrNew(c: Config, run: seq<State>, i: nat)
    requires Prepared(c) && Run(c, run) && i < |run|
    ensures || Instances(run[i].list) <= Instances(run[0].list)
            || ((forall p :: p in c.schedule ==> p in run[i].builds && run[i].builds[p].Built?)
                && Instances(run[i].list) <= NewInstances(c, run[i]))
  {
    RunKeepsList(c, run, i);
    RunKeepsInv(c, run, i);
    if c.kind.ListFiles? {
      FilesLeaveList(c, run, i);
    }
    hide Run, Prepared, Removable, RefOf, CallsInv;
    var s := run[i];
    if c.kind.ListLocal? && (s.phase.Adding? || s.phase.Succeeded?) {
      WantedDigests(c, s);
    }
  }

  /** The instance is not in the list, or it is there as a new one. */
  ghost predicate Cleared(c: Config, s: State, d: string) {
    c.kind.ListLocal? && !BeforeClearing(s) && (d in Instances(s.list) ==> d in Digests(c, s.refs))
  }

  lemma StepRestoresNothing(c: Config, s: State, e: Event, d: string, was: set<string>)
    requires BarrierInv(c, s) && ListInv(c, s, was) && CanHappen(c, s, e) && Cleared(c, s, d)
    ensures Cleared(c, Next(c, s, e), d)
  {
    if !OfList(e) {
      EarlierStepLeavesList(c, s, e);
      hide Next, CanHappen;
    }
    hide InLocalStorage, RefOf, Removable;
  }

  lemma {:induction false} RunRestoresNothing(c: Config, run: seq<State>, i: nat, j: nat, d: string)
    requires Prepared(c) && Run(c, run) && i <= j < |run| && Cleared(c, run[i], d)
    ensures Cleared(c, run[j], d)
  {
    hide Next, CanHappen, Prepared, Inv, ListInv, Cleared;
    if i < j {
      RunRestoresNothing(c, run, i, j - 1, d);
      RunKeepsList(c, run, j - 1);
      RunKeepsInv(c, run, j - 1);
      InvHasBarriers(c, run[j - 1]);
      assert Step(c, run[j - 1], run[j - 1 + 1]);
      hide Run, BarrierInv;
      var e :| CanHappen(c, run[j - 1], e) && run[j] == Next(c, run[j - 1], e);
      StepRestoresNothing(c, run[j - 1], e, d, Instances(run[0].list));
    }
  }

  /**
   An old instance that has been removed does not come back, whatever fails then, unless it is one of the new ones.
   */
  lemma ClearedStaysCleared(c: Config, run: seq<State>, i: nat, j: nat, d: string)
    requires Prepared(c) && Run(c, run) && i <= j < |run|
    requires d in Instances(run[0].list) && d !in Instances(run[i].list)
    ensures forall p :: p in c.schedule ==> p in run[j].builds && run[j].builds[p].Built?
    ensures d in Instances(run[j].list) ==> d in NewInstances(c, run[j])
  {
    RunKeepsList(c, run, i);
    if c.kind.ListFiles? {
      FilesLeaveList(c, run, i);
    }
    RunRestoresNothing(c, run, i, j, d);
    RunKeepsInv(c, run, j);
    hide Run, Prepared, Removable, RefOf, CallsInv, Digests, ListInv;
    WantedDigests(c, run[j]);
  }
}
