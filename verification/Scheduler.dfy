/**
 Finding out what the builders can do. All builders are asked at once; whoever gets an answer takes a mutex, notes
 the answer platform by platform in two maps, and releases it. The steps of different builders interleave freely.
 */
module Scheduler {
  import opened Wrappers
  import opened Builders

  /** What each builder of the farm answers: nothing if the query fails. */
  type Answers = map<string, Option<Info>>

  /** Where a builder's goroutine is. */
  datatype Pc =
    | Querying
    | Waiting
    | NotingNative(k: nat)
    | NotingEmulated(k: nat)
    | Noted
    | QueryFailed

  /** `order` records who got the mutex when; the program has no such variable. */
  datatype State = State(
    pc: map<string, Pc>,
    holder: Option<string>,
    native: map<string, string>,
    emulated: map<string, string>,
    order: seq<string>)

  function Init(ans: Answers): State {
    State(map b | b in ans :: Querying, None, map[], map[], [])
  }

  // ---------------------------------------------------------------- one step

  /** An entry that is there already is left alone. */
  function Note(m: map<string, string>, platform: string, builder: string): map<string, string> {
    if platform in m then m else m[platform := builder]
  }

  predicate Finished(pc: Pc) {
    pc.Noted? || pc.QueryFailed?
  }

  predicate InMutex(pc: Pc) {
    pc.NotingNative? || pc.NotingEmulated?
  }

  /** Builder b's goroutine can take a step: only one that waits for the mutex can be held up. */
  predicate CanStep(s: State, b: string) {
    b in s.pc && !Finished(s.pc[b]) && (s.pc[b].Waiting? ==> s.holder.None?)
  }

  function Next(ans: Answers, s: State, b: string): State
    requires b in ans && CanStep(s, b)
  {
    match s.pc[b]
    case Querying => s.(pc := s.pc[b := if ans[b].Some? then Waiting else QueryFailed])
    case Waiting => s.(pc := s.pc[b := NotingNative(0)], holder := Some(b), order := s.order + [b])
    case NotingNative(k) =>
      if ans[b].Some? && k < |ans[b].value.native|
      then s.(pc := s.pc[b := NotingNative(k + 1)], native := Note(s.native, ans[b].value.native[k], b))
      else s.(pc := s.pc[b := NotingEmulated(0)])
    case NotingEmulated(k) =>
      if ans[b].Some? && k < |ans[b].value.emulated|
      then s.(pc := s.pc[b := NotingEmulated(k + 1)], emulated := Note(s.emulated, ans[b].value.emulated[k], b))
      else s.(pc := s.pc[b := Noted], holder := None)
    case _ => s
  }

  ghost predicate Step(ans: Answers, s: State, t: State) {
    exists b :: b in ans && CanStep(s, b) && t == Next(ans, s, b)
  }

  ghost predicate Steps(ans: Answers, run: seq<State>) {
    forall i :: 0 <= i < |run| - 1 ==> Step(ans, run[i], run[i + 1])
  }

  /** A run from the start, as far as it got. */
  ghost predicate Run(ans: Answers, run: seq<State>) {
    run != [] && run[0] == Init(ans) && Steps(ans, run)
  }

  /** The barrier: every goroutine has returned. */
  predicate AllFinished(s: State) {
    forall b :: b in s.pc ==> Finished(s.pc[b])
  }

  // ---------------------------------------------------------------- the sequential account

  /** Notes the first k platforms of a list for one builder. */
  function NoteAll(m: map<string, string>, platforms: seq<string>, k: nat, builder: string): map<string, string>
    requires k <= |platforms|
  {
    if k == 0 then m else Note(NoteAll(m, platforms, k - 1, builder), platforms[k - 1], builder)
  }

  /** The two ways in which a builder can offer a platform. */
  datatype Class = Native | Emulated

  function Offered(ans: Answers, cls: Class, b: string): seq<string> {
    if b in ans && ans[b].Some? then (if cls.Native? then ans[b].value.native else ans[b].value.emulated) else []
  }

  /** The map that results when builders note what they offer one after another. */
  function Fold(ans: Answers, cls: Class, order: seq<string>): map<string, string> {
    if order == [] then map[]
    else
      var b := order[|order| - 1];
      NoteAll(Fold(ans, cls, order[..|order| - 1]), Offered(ans, cls, b), |Offered(ans, cls, b)|, b)
  }

  // ---------------------------------------------------------------- the invariant

  /** Who has had the mutex, and who has it. */
  ghost predicate OrderInv(ans: Answers, s: State) {
    && s.pc.Keys == ans.Keys
    && (forall b :: b in s.order <==> b in s.pc && (InMutex(s.pc[b]) || s.pc[b].Noted?))
    && (forall j, k :: 0 <= j < k < |s.order| ==> s.order[j] != s.order[k])
    && (forall b :: b in s.pc && InMutex(s.pc[b]) <==> s.holder == Some(b))
    && (forall b :: b in s.pc && s.pc[b].QueryFailed? ==> ans[b].None?)
    && (forall b :: b in s.pc && !s.pc[b].Querying? && !s.pc[b].QueryFailed? ==> ans[b].Some?)
    && (s.holder.Some? ==> s.order != [] && s.order[|s.order| - 1] == s.holder.value)
  }

  /** The maps are those of the sequential account, up to what the holder of the mutex has noted so far. */
  ghost predicate MapsInv(ans: Answers, s: State) {
    match s.holder
    case None => s.native == Fold(ans, Native, s.order) && s.emulated == Fold(ans, Emulated, s.order)
    case Some(b) =>
      && s.order != [] && b in s.pc
      && var before := s.order[..|s.order| - 1];
         match s.pc[b]
         case NotingNative(k) =>
           && k <= |Offered(ans, Native, b)|
           && s.native == NoteAll(Fold(ans, Native, before), Offered(ans, Native, b), k, b)
           && s.emulated == Fold(ans, Emulated, before)
         case NotingEmulated(k) =>
           && k <= |Offered(ans, Emulated, b)|
           && s.native == Fold(ans, Native, s.order)
           && s.emulated == NoteAll(Fold(ans, Emulated, before), Offered(ans, Emulated, b), k, b)
         case _ => false
  }

  ghost predicate Inv(ans: Answers, s: State) {
    OrderInv(ans, s) && MapsInv(ans, s)
  }

  lemma InitKeepsInv(ans: Answers)
    ensures Inv(ans, Init(ans))
  {
  }

  lemma StepKeepsOrder(ans: Answers, s: State, b: string)
    requires OrderInv(ans, s) && b in ans && CanStep(s, b)
    ensures OrderInv(ans, Next(ans, s, b))
  {
    hide OrderInv, Next;
    match s.pc[b] {
      case Querying => QueryKeepsOrder(ans, s, b);
      case Waiting => LockKeepsOrder(ans, s, b);
      case NotingNative(_) => NotingKeepsOrder(ans, s, b);
      case NotingEmulated(_) => NotingKeepsOrder(ans, s, b);
    }
  }

  lemma QueryKeepsOrder(ans: Answers, s: State, b: string)
    requires OrderInv(ans, s) && b in ans && CanStep(s, b) && s.pc[b].Querying?
    ensures OrderInv(ans, Next(ans, s, b))
  {
  }

  lemma LockKeepsOrder(ans: Answers, s: State, b: string)
    requires OrderInv(ans, s) && b in ans && CanStep(s, b) && s.pc[b].Waiting?
    ensures OrderInv(ans, Next(ans, s, b))
  {
    var t := Next(ans, s, b);
    assert b !in s.order;
    forall c
      ensures c in t.order <==> c in t.pc && (InMutex(t.pc[c]) || t.pc[c].Noted?)
    {
      assert c in t.order <==> c in s.order || c == b;
    }
  }

  lemma NotingKeepsOrder(ans: Answers, s: State, b: string)
    requires OrderInv(ans, s) && b in ans && CanStep(s, b) && InMutex(s.pc[b])
    ensures OrderInv(ans, Next(ans, s, b))
  {
    hide Note;
    var t := Next(ans, s, b);
    assert t.order == s.order && b in s.order && s.holder == Some(b);
  }

  /** The first and the next platform of one builder's list. */
  lemma NoteAllSteps(m: map<string, string>, platforms: seq<string>, k: nat, b: string)
    requires k <= |platforms|
    ensures NoteAll(m, platforms, 0, b) == m
    ensures k < |platforms| ==> NoteAll(m, platforms, k + 1, b) == Note(NoteAll(m, platforms, k, b), platforms[k], b)
  {
  }

  /** The whole of the last builder's list. */
  lemma FoldStep(ans: Answers, cls: Class, order: seq<string>)
    requires order != []
    ensures var b, before := order[|order| - 1], order[..|order| - 1];
            Fold(ans, cls, order) == NoteAll(Fold(ans, cls, before), Offered(ans, cls, b), |Offered(ans, cls, b)|, b)
  {
  }

  lemma OutsideKeepsMaps(ans: Answers, s: State, b: string)
    requires Inv(ans, s) && b in ans && CanStep(s, b) && s.pc[b].Querying?
    ensures MapsInv(ans, Next(ans, s, b))
  {
    hide NoteAll, Fold;
    var t := Next(ans, s, b);
    assert s.holder != Some(b);
    assert t.holder.Some? ==> t.pc[t.holder.value] == s.pc[t.holder.value];
  }

  lemma LockKeepsMaps(ans: Answers, s: State, b: string)
    requires Inv(ans, s) && b in ans && CanStep(s, b) && s.pc[b].Waiting?
    ensures MapsInv(ans, Next(ans, s, b))
  {
    hide NoteAll, Fold;
    var t := Next(ans, s, b);
    assert t.order[..|t.order| - 1] == s.order;
    NoteAllSteps(Fold(ans, Native, s.order), Offered(ans, Native, b), 0, b);
  }

  lemma NativeKeepsMaps(ans: Answers, s: State, b: string)
    requires Inv(ans, s) && b in ans && CanStep(s, b) && s.pc[b].NotingNative?
    ensures MapsInv(ans, Next(ans, s, b))
  {
    hide NoteAll, Fold;
    var before := s.order[..|s.order| - 1];
    assert s.holder == Some(b);
    NoteAllSteps(Fold(ans, Native, before), Offered(ans, Native, b), s.pc[b].k, b);
    NoteAllSteps(Fold(ans, Emulated, before), Offered(ans, Emulated, b), 0, b);
    FoldStep(ans, Native, s.order);
  }

  lemma EmulatedKeepsMaps(ans: Answers, s: State, b: string)
    requires Inv(ans, s) && b in ans && CanStep(s, b) && s.pc[b].NotingEmulated?
    ensures MapsInv(ans, Next(ans, s, b))
  {
    hide NoteAll, Fold;
    var before := s.order[..|s.order| - 1];
    assert s.holder == Some(b);
    NoteAllSteps(Fold(ans, Emulated, before), Offered(ans, Emulated, b), s.pc[b].k, b);
    FoldStep(ans, Emulated, s.order);
  }

  lemma StepKeepsMaps(ans: Answers, s: State, b: string)
    requires Inv(ans, s) && b in ans && CanStep(s, b)
    ensures MapsInv(ans, Next(ans, s, b))
  {
    hide Inv, MapsInv, Next;
    match s.pc[b] {
      case Querying => OutsideKeepsMaps(ans, s, b);
      case Waiting => LockKeepsMaps(ans, s, b);
      case NotingNative(_) => NativeKeepsMaps(ans, s, b);
      case NotingEmulated(_) => EmulatedKeepsMaps(ans, s, b);
    }
  }

  lemma StepKeepsInv(ans: Answers, s: State, t: State)
    requires Inv(ans, s) && Step(ans, s, t)
    ensures Inv(ans, t)
  {
    var b :| b in ans && CanStep(s, b) && t == Next(ans, s, b);
    StepKeepsOrder(ans, s, b);
    StepKeepsMaps(ans, s, b);
  }

  lemma {:induction false} StepsKeepInv(ans: Answers, run: seq<State>, i: nat)
    requires i < |run| && Inv(ans, run[0]) && Steps(ans, run)
    ensures Inv(ans, run[i])
  {
    if i > 0 {
      StepsKeepInv(ans, run, i - 1);
      assert Step(ans, run[i - 1], run[i - 1 + 1]);
      StepKeepsInv(ans, run[i - 1], run[i]);
    }
  }

  lemma RunKeepsInv(ans: Answers, run: seq<State>, i: nat)
    requires Run(ans, run) && i < |run|
    ensures Inv(ans, run[i])
  {
    InitKeepsInv(ans);
    StepsKeepInv(ans, run, i);
  }
}
