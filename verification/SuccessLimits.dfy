/** When a build can succeed at all, and what is left of the list when it does not. */
module SuccessLimits {
  import opened Wrappers
  import opened Orders
  import opened Builders
  import opened BuildRun
  import opened BuildInvariants
  import opened Conservation
  import opened ListSafety
  import opened Completion

  /** No run succeeds if an image can be collected only from where it is then removed from local storage itself. */
  lemma SuccessNeedsSafeSources(c: Config, first: State, ids: ImageIDs, run: seq<State>)
    requires Prepared(c) && Succeeds(c, first, ids, run)
    ensures CanSucceed(c, ids)
  {
    hide Endangered;
    forall p | p in c.schedule
      ensures HasSafeSource(c, ids, p)
    {
      SourceIsSafe(c, first, ids, run, p);
    }
  }

  lemma SourceIsSafe(c: Config, first: State, ids: ImageIDs, run: seq<State>, p: string)
    requires Prepared(c) && Succeeds(c, first, ids, run) && p in c.schedule
    ensures HasSafeSource(c, ids, p)
  {
    RunKeepsInv(c, run, |run| - 1);
    var s, r := Last(run), ReportOf(c, ids[p]);
    assert s.builds[p] == Built(r) && r in s.images;
    assert ComesFrom(c, s, r, s.images[r]);
    var q :| q in c.schedule && q in s.builds && s.builds[q] == Built(r) && c.schedule[q] == s.images[r];
    assert ids[q] == ids[p];
    hide Run, Prepared, StoreOf, Removable, Inv, ReportOf;
    if Endangered(c, q) {
      RemovedImageIsNeverListed(c, run, |run| - 1, r);
      assert false;
    }
  }

  /**
   For any contents of the stores and of the list and any image IDs: a build can succeed exactly if every image can be
   collected from a builder where it is not endangered.
   */
  lemma SuccessIffSafeSources(c: Config, first: State, ids: ImageIDs)
    requires Prepared(c) && Callable(c) && Starts(c, first) && c.schedule.Keys <= ids.Keys
    ensures (exists run :: Succeeds(c, first, ids, run)) <==> CanSucceed(c, ids)
  {
    hide Succeeds, CanSucceed, Starts, Prepared, Callable;
    if run :| Succeeds(c, first, ids, run) {
      SuccessNeedsSafeSources(c, first, ids, run);
    }
    if CanSucceed(c, ids) {
      var run := SomeRunSucceeds(c, first, ids);
    }
  }

  lemma SafeMeansSafeSources(c: Config, ids: ImageIDs)
    requires c.schedule.Keys <= ids.Keys && (c.kind.ListFiles? || SafeToRemove(c))
    ensures CanSucceed(c, ids)
  {
    hide StoreOf, Removable;
    forall p | p in c.schedule
      ensures HasSafeSource(c, ids, p)
    {
      assert !Endangered(c, p);
    }
  }

  ghost predicate DistinctIDs(c: Config, ids: ImageIDs)
    requires c.schedule.Keys <= ids.Keys
  {
    forall p, q :: p in c.schedule && q in c.schedule && ids[p] == ids[q] ==> p == q
  }

  /** If no two builds report the same image, and it goes to local storage, that is when removing is safe. */
  lemma DistinctImagesSucceedIffSafe(c: Config, first: State, ids: ImageIDs)
    requires Prepared(c) && Callable(c) && Starts(c, first) && c.schedule.Keys <= ids.Keys && DistinctIDs(c, ids)
    ensures c.kind.ListLocal? ==> ((exists run :: Succeeds(c, first, ids, run)) <==> SafeToRemove(c))
    ensures c.kind.ListFiles? ==> exists run :: Succeeds(c, first, ids, run)
  {
    SuccessIffSafeSources(c, first, ids);
    hide Succeeds, Starts, Prepared, Callable, StoreOf, Removable;
    if c.kind.ListFiles? || SafeToRemove(c) {
      SafeMeansSafeSources(c, ids);
    }
    if c.kind.ListLocal? && CanSucceed(c, ids) {
      forall p | p in c.schedule
        ensures !Endangered(c, p)
      {
        assert HasSafeSource(c, ids, p);
      }
    }
  }

  /**
   Replacing the list is not one step: from any first contents, and with any image IDs, some run clears the list and
   then fails with nothing in it.
   */
  lemma FailureLosesList(c: Config, first: State, ids: ImageIDs) returns (run: seq<State>)
    requires Prepared(c) && Callable(c) && Starts(c, first) && c.schedule.Keys <= ids.Keys
    requires c.kind.ListLocal? && c.schedule != map[]
    ensures Run(c, run) && run[0] == first && Last(run).failed && Last(run).list == Some({})
    ensures Last(run).builds == map p | p in c.schedule :: Built(BuildReport(ids[p], c.saveFormat))
  {
    var order := SomeOrder(c.schedule.Keys);
    hide Callable, Starts, AllBuilt, Pulling, Removing, Removable, StoreOf, Run, AllLocal, Enumerates, CollectedInOrder,
         NoneRemovedLocally;
    var ready := PulledRun(c, first, ids, order);
    ready := EndPulls(c, first, ids, ready);
    if c.removeIntermediates {
      ready := FinishRemovals(c, first, ids, ready);
    }
    ready := StartList(c, first, ids, ready);
    run := AddFails(c, first, ids, ready);
  }

  lemma AddFails(c: Config, first: State, ids: ImageIDs, run: seq<State>) returns (longer: seq<State>)
    requires Prepared(c) && AllBuilt(c, first, ids, run) && c.kind.ListLocal? && c.schedule != map[]
    requires Last(run).phase.Adding? && Last(run).list == Some({}) && Last(run).toAdd == Last(run).refs
    ensures Run(c, longer) && longer[0] == first && Last(longer).failed && Last(longer).list == Some({})
    ensures Last(longer).builds == map p | p in c.schedule :: Built(BuildReport(ids[p], c.saveFormat))
  {
    var s := Last(run);
    assert s.builds == map p | p in c.schedule :: Built(BuildReport(ids[p], c.saveFormat));
    var ref := SomeReference(c, run);
    AddCanFail(c, s, ref);
    hide Prepared, Next, CanHappen, ReportOf;
    Extend(c, run, AddOne(ref, false));
    hide Run;
    longer := run + [Next(c, s, AddOne(ref, false))];
  }

  lemma AddCanFail(c: Config, s: State, ref: string)
    requires !s.failed && s.phase.Adding? && ref in s.toAdd
    ensures CanHappen(c, s, AddOne(ref, false)) && Next(c, s, AddOne(ref, false)) == Fail(s)
  {
    hide InLocalStorage;
  }

  lemma SomeReference(c: Config, run: seq<State>) returns (ref: string)
    requires Prepared(c) && Run(c, run) && PastPulls(Last(run)) && c.kind.ListLocal? && c.schedule != map[]
    ensures ref in Last(run).refs
  {
    RunKeepsInv(c, run, |run| - 1);
    var s := Last(run);
    assert c.schedule.Keys != {};
    var p :| p in c.schedule;
    PulledIsReferred(c, s);
    hide Run, Prepared, CallsInv, BarrierInv, PulledInv, RefOf;
    assert s.builds[p].report in s.images;
    ref := RefOf(s.builds[p].report);
  }
}
