/** Assigning a builder to each platform. */
module Scheduling {
  import opened Wrappers
  import opened GoSort
  import opened Orders
  import opened Scheduler
  import opened ScheduleRuns

  /** Which builder builds for which platform. */
  type Schedule = map<string, string>

  datatype ScheduleError =
    | ListingFailed
    | QueriesFailed
    | NoBuilder(platform: string)

  // ---------------------------------------------------------------- what a schedule should be

  /** Some builder of the farm offers the platform in this way. */
  ghost predicate OfferedSomewhere(ans: Answers, cls: Class, p: string) {
    exists b :: b in ans && p in Offered(ans, cls, b)
  }

  ghost predicate AllAnswer(ans: Answers) {
    forall b :: b in ans ==> ans[b].Some?
  }

  /** The class of builder that a platform is given to. */
  ghost function Preferred(ans: Answers, p: string): Class {
    if OfferedSomewhere(ans, Native, p) then Native else Emulated
  }

  /**
   A result of scheduling that depends on the farm and on what is wanted, but not on the order of anything: it is a
   schedule exactly if all builders answer and every wanted platform is offered; it covers what is wanted and no more;
   and every builder in it offers its platform, natively if any builder of the farm does.
   */
  ghost predicate Sound(ans: Answers, wanted: set<string>, r: Result<Schedule, ScheduleError>) {
    && (r.Ok? <==> AllAnswer(ans) && forall p :: p in wanted ==> OfferedSomewhere(ans, Preferred(ans, p), p))
    && (r.Ok? ==>
          && r.value.Keys == wanted
          && forall p :: p in wanted ==> r.value[p] in ans && p in Offered(ans, Preferred(ans, p), r.value[p]))
  }

  // ---------------------------------------------------------------- the native platforms of the farm

  /** The sorted list of all native platforms, without repetitions. */
  ghost predicate IsNativeList(ans: Answers, list: seq<string>) {
    && Sorted(list)
    && (forall j, k :: 0 <= j < k < |list| ==> list[j] != list[k])
    && (forall p :: p in list <==> OfferedSomewhere(ans, Native, p))
  }

  /** The platforms that are native to the builders asked so far. */
  ghost predicate NativeOfAsked(ans: Answers, native: set<string>, remaining: set<string>) {
    forall p :: p in native <==> exists b :: b in ans && b !in remaining && p in Offered(ans, Native, b)
  }

  lemma OneMoreAsked(ans: Answers, native: set<string>, remaining: set<string>, builder: string)
    requires NativeOfAsked(ans, native, remaining) && builder in ans && builder in remaining
    ensures NativeOfAsked(ans, native + (set p | p in Offered(ans, Native, builder)), remaining - {builder})
  {
    hide Offered;
    var more := native + set p | p in Offered(ans, Native, builder);
    forall p
      ensures p in more <==> exists b :: b in ans && b !in remaining - {builder} && p in Offered(ans, Native, b)
    {
      if p in native {
        var b :| b in ans && b !in remaining && p in Offered(ans, Native, b);
        assert b !in remaining - {builder};
      }
    }
  }

  /** Builders answer in any order; what is collected is a set, so the order does not show. */
  method NativePlatforms(ans: Answers) returns (r: Result<seq<string>, ScheduleError>)
    ensures r.Ok? <==> AllAnswer(ans)
    ensures r.Ok? ==> IsNativeList(ans, r.value)
    ensures r.Err? ==> r.error == ListingFailed
  {
    hide Sorted;
    var native: set<string> := {};
    var remaining := ans.Keys;
    var failed := false;
    while remaining != {}
      invariant remaining <= ans.Keys
      invariant failed <==> exists b :: b in ans && b !in remaining && ans[b].None?
      invariant NativeOfAsked(ans, native, remaining)
      decreases remaining
    {
      var builder :| builder in remaining;
      OneMoreAsked(ans, native, remaining, builder);
      if ans[builder].None? {
        failed := true;
      } else {
        native := native + set p | p in ans[builder].value.native;
      }
      remaining := remaining - {builder};
    }
    if failed {
      return Err(ListingFailed);
    }
    assert forall p :: p in native <==> OfferedSomewhere(ans, Native, p);
    hide Offered, OfferedSomewhere, NativeOfAsked;
    var platforms := ListOf(native);
    var sorted := SortStrings(platforms);
    SortStringsSorted(platforms);
    SameElements(platforms, sorted);
    return Ok(sorted);
  }

  /** Appends the keys of a map to a list, in any order. */
  method ListOf(members: set<string>) returns (list: seq<string>)
    ensures Enumerates(list, members)
  {
    list := [];
    var remaining := members;
    while remaining != {}
      invariant remaining <= members && Enumerates(list, members - remaining)
      decreases remaining
    {
      var x :| x in remaining;
      list := list + [x];
      remaining := remaining - {x};
    }
    assert members - remaining == members;
  }

  /** Rearranging a list keeps its elements, and keeps it free of repetitions. */
  lemma SameElements(a: seq<string>, b: seq<string>)
    requires multiset(a) == multiset(b)
    requires forall j, k :: 0 <= j < k < |a| ==> a[j] != a[k]
    ensures forall x :: x in a <==> x in b
    ensures forall j, k :: 0 <= j < k < |b| ==> b[j] != b[k]
  {
    forall x
      ensures x in a <==> x in b
    {
      assert x in a <==> x in multiset(a);
      assert x in b <==> x in multiset(b);
    }
    forall j, k | 0 <= j < k < |b|
      ensures b[j] != b[k]
    {
      if b[j] == b[k] {
        Twice(b, j, k);
        OnlyOnce(a, b[j]);
        assert false;
      }
    }
  }

  lemma Twice(s: seq<string>, j: nat, k: nat)
    requires j < k < |s| && s[j] == s[k]
    ensures multiset(s)[s[j]] >= 2
  {
    assert s == s[..k] + [s[k]] + s[k + 1..];
    assert s[j] in multiset(s[..k]) by {
      assert s[..k][j] == s[j];
    }
  }

  lemma {:induction false} OnlyOnce(s: seq<string>, x: string)
    requires forall j, k :: 0 <= j < k < |s| ==> s[j] != s[k]
    ensures multiset(s)[x] <= 1
  {
    if s != [] {
      var n := |s| - 1;
      assert s == s[..n] + [s[n]];
      OnlyOnce(s[..n], x);
      if s[n] == x {
        assert x !in s[..n];
        assert x !in multiset(s[..n]);
      }
    }
  }

  // ---------------------------------------------------------------- assigning

  /** The loop over the wanted platforms: native before emulated, and an error for the first that is neither. */
  method AssignBuilders(platforms: seq<string>, native: map<string, string>, emulated: map<string, string>)
    returns (r: Result<Schedule, ScheduleError>)
    ensures r.Ok? <==> forall p :: p in platforms ==> p in native || p in emulated
    ensures r.Ok? ==> r.value.Keys == set p | p in platforms
    ensures r.Ok? ==> forall p :: p in r.value ==>
              (p in native || p in emulated) && r.value[p] == if p in native then native[p] else emulated[p]
    ensures r.Err? ==> exists k :: 0 <= k < |platforms| && r.error == NoBuilder(platforms[k])
                                   && platforms[k] !in native && platforms[k] !in emulated
                                   && forall j :: 0 <= j < k ==> platforms[j] in native || platforms[j] in emulated
  {
    var platformBuilders: Schedule := map[];
    for k := 0 to |platforms|
      invariant forall j :: 0 <= j < k ==> platforms[j] in native || platforms[j] in emulated
      invariant platformBuilders.Keys == set p | p in platforms[..k]
      invariant forall p :: p in platformBuilders ==> p in native || p in emulated
      invariant forall p :: p in platformBuilders ==>
                  platformBuilders[p] == if p in native then native[p] else emulated[p]
    {
      var platform := platforms[k];
      assert platforms[..k + 1] == platforms[..k] + [platform];
      if platform in native {
        platformBuilders := platformBuilders[platform := native[platform]];
      } else if platform in emulated {
        platformBuilders := platformBuilders[platform := emulated[platform]];
      } else {
        return Err(NoBuilder(platform));
      }
    }
    assert platforms[..|platforms|] == platforms;
    return Ok(platformBuilders);
  }

  /** Every platform goes to the builder that is noted for it, and to the native one if there is one. */
  ghost predicate GoesToNoted(schedule: Schedule, native: map<string, string>, emulated: map<string, string>) {
    forall p :: p in schedule ==>
      if p in native then schedule[p] == native[p] else p in emulated && schedule[p] == emulated[p]
  }

  /** The maps note exactly what is offered, each time with a builder that offers it. */
  ghost predicate NotedRight(ans: Answers, native: map<string, string>, emulated: map<string, string>) {
    && (forall p :: p in native <==> OfferedSomewhere(ans, Native, p))
    && (forall p :: p in emulated <==> OfferedSomewhere(ans, Emulated, p))
    && (forall p :: p in native ==> native[p] in ans && p in Offered(ans, Native, native[p]))
    && (forall p :: p in emulated ==> emulated[p] in ans && p in Offered(ans, Emulated, emulated[p]))
  }

  lemma MapsAtTheBarrier(ans: Answers, run: seq<State>)
    requires Run(ans, run) && AllFinished(run[|run| - 1])
    ensures NotedRight(ans, run[|run| - 1].native, run[|run| - 1].emulated)
  {
    assert run != [];
    var s := run[|run| - 1];
    hide Run, Offered, AllFinished;
    forall p
      ensures && (p in s.native <==> OfferedSomewhere(ans, Native, p))
              && (p in s.emulated <==> OfferedSomewhere(ans, Emulated, p))
              && (p in s.native ==> s.native[p] in ans && p in Offered(ans, Native, s.native[p]))
              && (p in s.emulated ==> s.emulated[p] in ans && p in Offered(ans, Emulated, s.emulated[p]))
    {
      NotedAtTheBarrier(ans, run, Native, p);
      NotedAtTheBarrier(ans, run, Emulated, p);
    }
  }

  /** Preferring the native map makes the schedule sound. */
  lemma SoundAssignment(ans: Answers, native: map<string, string>, emulated: map<string, string>, wanted: set<string>,
                        r: Result<Schedule, ScheduleError>)
    requires NotedRight(ans, native, emulated) && AllAnswer(ans)
    requires r.Ok? <==> forall p :: p in wanted ==> p in native || p in emulated
    requires r.Ok? ==> r.value.Keys == wanted
    requires r.Ok? ==> forall p :: p in r.value ==> r.value[p] == if p in native then native[p] else emulated[p]
    ensures Sound(ans, wanted, r)
  {
    hide Offered, OfferedSomewhere, AllAnswer;
  }

  /** What is to be scheduled: the platforms given, or all native ones if none are given. */
  ghost predicate IsWanted(ans: Answers, platforms: seq<string>, wanted: set<string>) {
    if platforms != [] then wanted == set p | p in platforms
    else forall p :: p in wanted <==> OfferedSomewhere(ans, Native, p)
  }

  /** The queries run up to the barrier, nobody fails, and the schedule is that of what is wanted and what is noted. */
  ghost predicate LeadsTo(ans: Answers, run: seq<State>, platforms: seq<string>, schedule: Schedule) {
    && Run(ans, run) && AllFinished(run[|run| - 1]) && AllAnswer(ans)
    && IsWanted(ans, platforms, schedule.Keys)
    && GoesToNoted(schedule, run[|run| - 1].native, run[|run| - 1].emulated)
  }

  /**
   Scheduling, given any run of the queries up to the barrier: the schedule that this run leads to, or an error if it
   leads to none. With no platforms given, all native ones are wanted,
   and then a builder is found for each.
   */
  method MakeSchedule(ans: Answers, platforms: seq<string>, end: State, ghost run: seq<State>)
    returns (r: Result<Schedule, ScheduleError>)
    requires Run(ans, run) && end == run[|run| - 1] && AllFinished(end)
    ensures platforms != [] ==> Sound(ans, (set p | p in platforms), r)
    ensures platforms == [] ==> (r.Ok? <==> AllAnswer(ans))
    ensures platforms == [] && r.Ok? ==> Sound(ans, r.value.Keys, r)
    ensures platforms == [] && r.Ok? ==> forall p :: p in r.value <==> OfferedSomewhere(ans, Native, p)
    ensures forall schedule :: LeadsTo(ans, run, platforms, schedule) <==> r == Ok(schedule)
    ensures r.Err? && !AllAnswer(ans) ==> r.error == if platforms == [] then ListingFailed else QueriesFailed
    ensures r.Err? && AllAnswer(ans) ==>
              && r.error.NoBuilder? && r.error.platform in platforms
              && !OfferedSomewhere(ans, Native, r.error.platform) && !OfferedSomewhere(ans, Emulated, r.error.platform)
  {
    hide Run, Offered, AllFinished, Sorted, OfferedSomewhere, NotedRight, Sound, LeadsTo, IsWanted, GoesToNoted;
    var wanted := platforms;
    if platforms == [] {
      var list := NativePlatforms(ans);
      if list.Err? {
        LeadsNowhere(ans, run, platforms);
        return Err(ListingFailed);
      }
      wanted := list.value;
    }
    AtTheBarrier(ans, run);
    if b :| b in end.pc && end.pc[b].QueryFailed? {
      FailedQuery(ans, (set p | p in platforms), b, QueriesFailed);
      LeadsNowhere(ans, run, platforms);
      return Err(QueriesFailed);
    }
    assert AllAnswer(ans);
    MapsAtTheBarrier(ans, run);
    r := AssignBuilders(wanted, end.native, end.emulated);
    SoundAssignment(ans, end.native, end.emulated, (set p | p in wanted), r);
    if platforms == [] {
      NothingMissing(ans, end.native, end.emulated, wanted);
    }
    if r.Err? {
      NotedExactly(ans, end.native, end.emulated, r.error.platform);
      UnofferedLeadsNowhere(ans, run, platforms, r.error.platform);
    } else {
      LeadsToOne(ans, run, platforms, wanted, r.value);
    }
  }

  lemma LeadsNowhere(ans: Answers, run: seq<State>, platforms: seq<string>)
    requires !AllAnswer(ans)
    ensures forall schedule :: !LeadsTo(ans, run, platforms, schedule)
  {
  }

  lemma UnofferedLeadsNowhere(ans: Answers, run: seq<State>, platforms: seq<string>, p: string)
    requires p in platforms && Run(ans, run)
    requires p !in run[|run| - 1].native && p !in run[|run| - 1].emulated
    ensures forall schedule :: !LeadsTo(ans, run, platforms, schedule)
  {
    hide Run;
    assert p in set q | q in platforms;
  }

  /** There is only one schedule for what is wanted and what is noted. */
  lemma LeadsToOne(ans: Answers, run: seq<State>, platforms: seq<string>, wanted: seq<string>, schedule: Schedule)
    requires Run(ans, run) && AllFinished(run[|run| - 1]) && AllAnswer(ans)
    requires if platforms != [] then wanted == platforms
             else forall p :: p in wanted <==> OfferedSomewhere(ans, Native, p)
    requires schedule.Keys == set p | p in wanted
    requires var end := run[|run| - 1];
             forall p :: p in schedule ==>
               && (p in end.native || p in end.emulated)
               && schedule[p] == if p in end.native then end.native[p] else end.emulated[p]
    ensures forall s :: LeadsTo(ans, run, platforms, s) <==> s == schedule
  {
    hide Run, AllFinished, AllAnswer, OfferedSomewhere;
    forall s | LeadsTo(ans, run, platforms, s)
      ensures s == schedule
    {
      assert s.Keys == schedule.Keys;
    }
  }

  lemma NotedExactly(ans: Answers, native: map<string, string>, emulated: map<string, string>, p: string)
    requires NotedRight(ans, native, emulated)
    ensures p in native <==> OfferedSomewhere(ans, Native, p)
    ensures p in emulated <==> OfferedSomewhere(ans, Emulated, p)
  {
  }

  lemma FailedQuery(ans: Answers, wanted: set<string>, b: string, e: ScheduleError)
    requires b in ans && ans[b].None?
    ensures !AllAnswer(ans) && Sound(ans, wanted, Err(e))
  {
  }

  lemma NothingMissing(ans: Answers, native: map<string, string>, emulated: map<string, string>, list: seq<string>)
    requires NotedRight(ans, native, emulated) && IsNativeList(ans, list)
    ensures forall p :: p in list ==> p in native
    ensures forall p :: p in list <==> OfferedSomewhere(ans, Native, p)
  {
  }
}
