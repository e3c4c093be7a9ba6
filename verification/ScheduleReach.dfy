/**
 Which schedules can come about: the queries always come to an end, every order of the builders that answer is that of
 some run, and so the schedules are exactly those of the builders that come first in some order.
 */
module ScheduleReach {
  import opened Wrappers
  import opened Orders
  import opened Scheduler
  import opened ScheduleRuns
  import opened Scheduling

  /** A bound on the steps that a builder has left. */
  function Remaining(ans: Answers, b: string, pc: Pc): nat {
    var n, e := |Offered(ans, Native, b)|, |Offered(ans, Emulated, b)|;
    match pc
    case Querying => n + e + 5
    case Waiting => n + e + 4
    case NotingNative(k) => if k < n then n - k + e + 3 else e + 3
    case NotingEmulated(k) => if k < e then e - k + 1 else 1
    case _ => 0
  }

  /** One step of a builder that nobody disturbs. */
  lemma SoloStep(ans: Answers, s: State, b: string)
    requires OrderInv(ans, s) && b in ans && b in s.pc && !Finished(s.pc[b])
    requires s.holder.None? || s.holder == Some(b)
    ensures CanStep(s, b)
    ensures var t := Next(ans, s, b);
            && t.pc.Keys == s.pc.Keys && Remaining(ans, b, t.pc[b]) < Remaining(ans, b, s.pc[b])
            && (t.holder.None? || t.holder == Some(b)) && (Finished(t.pc[b]) ==> t.holder.None?)
            && (forall c :: c in s.pc && c != b ==> c in t.pc && t.pc[c] == s.pc[c])
            && t.order == (if s.pc[b].Waiting? then s.order + [b] else s.order)
            && (InMutex(t.pc[b]) <==> s.pc[b].Waiting? || (InMutex(s.pc[b]) && !Finished(t.pc[b])))
            && (Finished(t.pc[b]) ==> InMutex(s.pc[b]) || ans[b].None?)
            && (ans[b].None? ==> !s.pc[b].Waiting?)
  {
  }

  lemma Chain(ans: Answers, a: seq<State>, b: seq<State>)
    requires a != [] && b != [] && Steps(ans, a) && Steps(ans, b) && a[|a| - 1] == b[0]
    ensures Steps(ans, a + b[1..]) && (a + b[1..])[|a + b[1..]| - 1] == b[|b| - 1] && (a + b[1..])[0] == a[0]
  {
    hide Step;
    var run := a + b[1..];
    forall i | 0 <= i < |run| - 1
      ensures Step(ans, run[i], run[i + 1])
    {
      if i < |a| - 1 {
        assert Step(ans, a[i], a[i + 1]);
      } else {
        var j := i - (|a| - 1);
        assert Step(ans, b[j], b[j + 1]);
        assert run[i] == b[j] && run[i + 1] == b[j + 1];
      }
    }
  }

  /** A builder that nobody disturbs runs to its end. */
  lemma {:induction false} SoloRun(ans: Answers, s: State, b: string) returns (run: seq<State>)
    requires OrderInv(ans, s) && b in ans && b in s.pc && !Finished(s.pc[b])
    requires s.holder.None? || s.holder == Some(b)
    ensures run != [] && run[0] == s && Steps(ans, run)
    ensures var t := run[|run| - 1];
            && OrderInv(ans, t) && t.holder.None? && t.pc.Keys == s.pc.Keys && Finished(t.pc[b])
            && (forall c :: c in s.pc && c != b ==> c in t.pc && t.pc[c] == s.pc[c])
            && t.order == if ans[b].None? || InMutex(s.pc[b]) then s.order else s.order + [b]
    decreases Remaining(ans, b, s.pc[b])
  {
    SoloStep(ans, s, b);
    var t := Next(ans, s, b);
    StepKeepsOrder(ans, s, b);
    StepIs(ans, s, b);
    hide Next, OrderInv, Remaining, Step, Steps;
    if Finished(t.pc[b]) {
      run := [s, t];
    } else {
      var rest := SoloRun(ans, t, b);
      Chain(ans, [s, t], rest);
      run := [s, t] + rest[1..];
    }
  }

  lemma StepIs(ans: Answers, s: State, b: string)
    requires b in ans && CanStep(s, b)
    ensures Step(ans, s, Next(ans, s, b)) && Steps(ans, [s, Next(ans, s, b)])
  {
  }

  // ---------------------------------------------------------------- the barrier is always reached

  function Unfinished(s: State): set<string> {
    set b | b in s.pc && !Finished(s.pc[b])
  }

  /** Whoever holds the mutex goes on, and then the others do, one after another. */
  lemma {:induction false} RunToBarrier(ans: Answers, s: State) returns (run: seq<State>)
    requires OrderInv(ans, s)
    ensures run != [] && run[0] == s && Steps(ans, run) && AllFinished(run[|run| - 1])
    ensures (forall b :: b in Unfinished(s) ==> ans[b].None?) ==> run[|run| - 1].order == s.order
    decreases |Unfinished(s)|
  {
    if Unfinished(s) == {} {
      assert forall b :: b in s.pc ==> b !in Unfinished(s);
      run := [s];
    } else {
      var b :| b in Unfinished(s) && (s.holder.None? || s.holder == Some(b)) by {
        SomeoneCanGoOn(ans, s);
      }
      var first := SoloRun(ans, s, b);
      var t := first[|first| - 1];
      assert Unfinished(t) == Unfinished(s) - {b};
      assert ans[b].None? ==> !InMutex(s.pc[b]);
      hide Steps, OrderInv;
      var rest := RunToBarrier(ans, t);
      Chain(ans, first, rest);
      run := first + rest[1..];
    }
  }

  lemma SomeoneCanGoOn(ans: Answers, s: State)
    requires OrderInv(ans, s) && Unfinished(s) != {}
    ensures exists b :: b in Unfinished(s) && (s.holder.None? || s.holder == Some(b))
  {
    if s.holder.Some? {
      assert s.holder.value in Unfinished(s);
    } else {
      var b :| b in Unfinished(s);
    }
  }

  /** From every reachable state, whichever queries have failed or will fail, all goroutines can return. */
  lemma BarrierIsReachable(ans: Answers, run: seq<State>) returns (longer: seq<State>)
    requires Run(ans, run)
    ensures Run(ans, longer) && run <= longer && AllFinished(longer[|longer| - 1])
  {
    RunKeepsInv(ans, run, |run| - 1);
    var rest := RunToBarrier(ans, run[|run| - 1]);
    Chain(ans, run, rest);
    longer := run + rest[1..];
  }

  // ---------------------------------------------------------------- in every order

  /** Different builders that answer, none of which has been heard of yet. */
  ghost predicate Ready(ans: Answers, s: State, todo: seq<string>) {
    && (forall k :: 0 <= k < |todo| ==>
          todo[k] in ans && ans[todo[k]].Some? && todo[k] in s.pc && s.pc[todo[k]] == Querying)
    && (forall j, k :: 0 <= j < k < |todo| ==> todo[j] != todo[k])
  }

  /** These builders have finished, and the others are where they were. */
  ghost predicate OnlyTheseWent(s: State, todo: seq<string>, t: State) {
    && t.order == s.order + todo && t.pc.Keys == s.pc.Keys
    && (forall b :: b in s.pc ==> if b in todo then Finished(t.pc[b]) else t.pc[b] == s.pc[b])
  }

  /** Builders that answer can get the mutex in any order, and leave the other builders where they are. */
  lemma {:induction false} RunInOrder(ans: Answers, s: State, todo: seq<string>) returns (run: seq<State>)
    requires OrderInv(ans, s) && s.holder.None? && Ready(ans, s, todo)
    ensures run != [] && run[0] == s && Steps(ans, run)
    ensures OrderInv(ans, run[|run| - 1]) && OnlyTheseWent(s, todo, run[|run| - 1])
    decreases |todo|
  {
    if todo == [] {
      run := [s];
    } else {
      var first := FirstGoes(ans, s, todo);
      hide OrderInv, Steps, Ready, OnlyTheseWent;
      var rest := RunInOrder(ans, first[|first| - 1], todo[1..]);
      Chain(ans, first, rest);
      run := first + rest[1..];
      TheseWentAfter(s, first[|first| - 1], rest[|rest| - 1], todo);
    }
  }

  lemma TheseWentAfter(s: State, t: State, u: State, todo: seq<string>)
    requires todo != [] && todo[0] !in todo[1..]
    requires OnlyTheseWent(s, [todo[0]], t) && OnlyTheseWent(t, todo[1..], u)
    ensures OnlyTheseWent(s, todo, u)
  {
    hide Finished;
    assert s.order + [todo[0]] + todo[1..] == s.order + todo;
    assert forall b :: b in todo <==> b == todo[0] || b in todo[1..];
  }

  lemma FirstGoes(ans: Answers, s: State, todo: seq<string>) returns (run: seq<State>)
    requires OrderInv(ans, s) && s.holder.None? && Ready(ans, s, todo) && todo != []
    ensures run != [] && run[0] == s && Steps(ans, run)
    ensures var t := run[|run| - 1];
            && OrderInv(ans, t) && t.holder.None? && OnlyTheseWent(s, [todo[0]], t) && Ready(ans, t, todo[1..])
            && todo[0] !in todo[1..]
  {
    assert todo[0] in s.pc && !InMutex(s.pc[todo[0]]) && !Finished(s.pc[todo[0]]);
    run := SoloRun(ans, s, todo[0]);
    hide OrderInv, Steps, Finished, InMutex;
  }

  function Answering(ans: Answers): set<string> {
    set b | b in ans && ans[b].Some?
  }

  /** Every order in which the builders that answer could get the mutex is that of some complete run. */
  lemma EveryOrderIsReached(ans: Answers, order: seq<string>) returns (run: seq<State>)
    requires Enumerates(order, Answering(ans))
    ensures Run(ans, run) && AllFinished(run[|run| - 1]) && run[|run| - 1].order == order
  {
    InitKeepsInv(ans);
    var first := RunInOrder(ans, Init(ans), order);
    assert Init(ans).order + order == order;
    var t := first[|first| - 1];
    assert forall b :: b in Unfinished(t) ==> b in ans && b !in Answering(ans);
    hide OrderInv, Steps;
    var rest := RunToBarrier(ans, t);
    Chain(ans, first, rest);
    run := first + rest[1..];
  }

  /** Every builder that offers a platform can be the one that is noted for it. */
  lemma AnyoneCanWin(ans: Answers, cls: Class, p: string, b: string) returns (run: seq<State>)
    requires b in ans && p in Offered(ans, cls, b)
    ensures Run(ans, run) && AllFinished(run[|run| - 1])
    ensures var m := if cls.Native? then run[|run| - 1].native else run[|run| - 1].emulated;
            p in m && m[p] == b
  {
    var rest := SomeOrder(Answering(ans) - {b});
    Prepend(b, rest, Answering(ans));
    run := EveryOrderIsReached(ans, [b] + rest);
    assert run != [];
    hide Run, AllFinished;
    NotedAtTheBarrier(ans, run, cls, p);
    assert FirstToOffer(ans, cls, run[|run| - 1].order, p, 0);
  }

  // ---------------------------------------------------------------- which schedules there are

  /** The builder of every platform is the first one, in this order, that offers it in the preferred way. */
  ghost predicate FirstComers(ans: Answers, order: seq<string>, schedule: Schedule) {
    forall p :: p in schedule ==>
      exists k: nat :: FirstToOffer(ans, Preferred(ans, p), order, p, k) && schedule[p] == order[k]
  }

  lemma OrderAtTheBarrier(ans: Answers, run: seq<State>)
    requires Run(ans, run) && AllFinished(run[|run| - 1])
    ensures Enumerates(run[|run| - 1].order, Answering(ans))
  {
    AtTheBarrier(ans, run);
    RunKeepsInv(ans, run, |run| - 1);
    hide Run, AllFinished, MapsInv;
  }

  /** The builder noted for one platform is the first that offers it in the preferred way. */
  lemma NotedIsFirst(ans: Answers, run: seq<State>, p: string, b: string)
    requires Run(ans, run) && AllFinished(run[|run| - 1])
    ensures var s := run[|run| - 1];
            (if p in s.native then b == s.native[p] else p in s.emulated && b == s.emulated[p])
            <==> exists k: nat :: FirstToOffer(ans, Preferred(ans, p), s.order, p, k) && b == s.order[k]
  {
    var s := run[|run| - 1];
    NotedAtTheBarrier(ans, run, Native, p);
    NotedAtTheBarrier(ans, run, Emulated, p);
    OrderAtTheBarrier(ans, run);
    hide Run, AllFinished;
    var cls := Preferred(ans, p);
    assert p in s.native <==> cls == Native;
    var m := if cls.Native? then s.native else s.emulated;
    if p in m {
      var o :| o in ans && p in Offered(ans, cls, o);
      assert o in Answering(ans) && o in s.order;
      var n :| 0 <= n < |s.order| && s.order[n] == o;
      var k := SomeoneFirst(ans, cls, s.order, p, n);
      assert m[p] == s.order[k];
    }
  }

  /**
   The schedules that can come about: if all builders answer, those of what is wanted that are of the first comers in
   some order of the builders; if some builder does not answer, none.
   */
  lemma SchedulesAreOfFirstComers(ans: Answers, platforms: seq<string>, schedule: Schedule)
    ensures (exists run :: LeadsTo(ans, run, platforms, schedule))
            <==> && AllAnswer(ans) && IsWanted(ans, platforms, schedule.Keys)
                 && exists order :: Enumerates(order, ans.Keys) && FirstComers(ans, order, schedule)
  {
    hide FirstComers, IsWanted;
    if AllAnswer(ans) {
      assert Answering(ans) == ans.Keys;
    }
    if run :| LeadsTo(ans, run, platforms, schedule) {
      NotedAreFirstComers(ans, run, schedule);
      OrderAtTheBarrier(ans, run);
    }
    if AllAnswer(ans) && IsWanted(ans, platforms, schedule.Keys) {
      if order :| Enumerates(order, ans.Keys) && FirstComers(ans, order, schedule) {
        var run := EveryOrderIsReached(ans, order);
        NotedAreFirstComers(ans, run, schedule);
        assert LeadsTo(ans, run, platforms, schedule);
      }
    }
  }

  lemma NotedAreFirstComers(ans: Answers, run: seq<State>, schedule: Schedule)
    requires Run(ans, run) && AllFinished(run[|run| - 1])
    ensures GoesToNoted(schedule, run[|run| - 1].native, run[|run| - 1].emulated)
            <==> FirstComers(ans, run[|run| - 1].order, schedule)
  {
    assert run != [];
    hide Run, AllFinished, FirstToOffer, Preferred;
    forall p | p in schedule {
      NotedIsFirst(ans, run, p, schedule[p]);
    }
  }

  /**
   If all builders answer and everything that is wanted is offered, every builder that offers a wanted platform in the
   preferred way is scheduled for it by some run.
   */
  lemma AnyoneCanBeScheduled(ans: Answers, platforms: seq<string>, wanted: set<string>, p: string, b: string)
    returns (run: seq<State>, schedule: Schedule)
    requires AllAnswer(ans) && IsWanted(ans, platforms, wanted)
    requires forall q :: q in wanted ==> OfferedSomewhere(ans, Preferred(ans, q), q)
    requires p in wanted && b in ans && p in Offered(ans, Preferred(ans, p), b)
    ensures LeadsTo(ans, run, platforms, schedule) && p in schedule && schedule[p] == b
  {
    run := AnyoneCanWin(ans, Preferred(ans, p), p, b);
    assert run != [];
    var end := run[|run| - 1];
    MapsAtTheBarrier(ans, run);
    assert forall q :: q in wanted ==> q in end.native || q in end.emulated;
    schedule := map q | q in wanted :: if q in end.native then end.native[q] else end.emulated[q];
    assert schedule.Keys == wanted;
    hide Run, AllFinished, AllAnswer;
  }
}
