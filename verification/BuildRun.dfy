/**
 A build from the start of its goroutines to the end of the list builder, as a state machine. Every call to an engine
 is one step, and every such call can fail. Steps of different goroutines interleave freely, up to the next barrier.

 Image stores are sets of image IDs. They are told apart by what they are, not by who uses them: two connections may
 lead to the same store, and a connection may lead back to the local one.
 */
module BuildRun {
  import opened Wrappers
  import opened Orders
  import opened Platforms
  import opened Builders
  import opened Scheduling
  import opened Jobs

  const LOCAL_NAME: string := "(local)"

  /** A builder of the farm: what it calls itself, what it knows about itself, and which store its engine uses. */
  datatype FarmBuilder = FarmBuilder(kind: Kind, name: string, fetched: Fetched, store: string)

  /** The list builder that keeps everything in local storage, or the one that writes a directory. */
  datatype ListKind = ListLocal | ListFiles

  datatype Config = Config(
    farm: map<string, FarmBuilder>,
    schedule: Schedule,
    jobs: map<string, Job>,
    saveFormat: string,
    kind: ListKind,
    removeIntermediates: bool,
    localStore: string,
    digest: string -> string)

  /** An image in a store. */
  datatype Copy = Copy(store: string, image: string)

  /**
   One call to an engine's Build, whether it succeeds or not: for which platform, on which builder, and what the engine
   is told to build for.
   */
  datatype EngineCall = EngineCall(platform: string, builder: string, target: Target)

  datatype BuildPc = Building | Built(report: BuildReport) | BuildFailed

  datatype PullPc = NotPulled | Saved | Pulled | PullFailed

  datatype RemovePc = NotRemoved | Removed | RemoveFailed

  datatype Phase =
    | Builds       // until the first barrier
    | Pulls        // until the second
    | Removals     // until the third
    | Inspecting   // the list is about to be read
    | Clearing     // its old instances are being removed
    | Adding       // the new ones are being added
    | Writing      // the directory is being written
    | Succeeded

  datatype State = State(
    phase: Phase,
    failed: bool,
    copies: set<Copy>,
    builds: map<string, BuildPc>,
    calls: seq<EngineCall>,
    images: map<BuildReport, string>,
    pulls: map<BuildReport, PullPc>,
    refs: set<string>,
    files: set<BuildReport>, // saved to the directory: a temporary one at first
    removals: map<BuildReport, RemovePc>,
    list: Option<set<string>>,
    toClear: set<string>,
    toAdd: set<string>)

  function Init(c: Config, copies: set<Copy>, list: Option<set<string>>): State {
    State(Builds, false, copies, map p | p in c.schedule :: Building, [], map[], map[], {}, {}, map[], list, {}, {})
  }

  // ---------------------------------------------------------------- parts of a step

  function StoreOf(c: Config, b: string): string {
    if b in c.farm then c.farm[b].store else c.localStore
  }

  /** The engine builds for the builder's own target, not for the target of the job. */
  function TargetOf(c: Config, b: string): Target {
    if b in c.farm then AnswerFrom(c.farm[b].fetched).target else NO_TARGET
  }

  function ReportOf(c: Config, image: string): BuildReport {
    BuildReport(image, c.saveFormat)
  }

  function RefOf(r: BuildReport): string {
    "containers-storage:" + r.imageID
  }

  /** The builder whose engine is used for a platform: that of the job stored for its builder. */
  function WorkerFor(c: Config, p: string): string
    requires p in c.schedule && c.schedule[p] in c.jobs
  {
    c.jobs[c.schedule[p]].builder
  }

  /** What the program collects from the builds that have finished. */
  function Results(c: Config, s: State): map<string, BuildResult> {
    map p | p in s.builds && s.builds[p].Built? && p in c.schedule && c.schedule[p] in c.jobs ::
      BuildResult(s.builds[p].report, WorkerFor(c, p))
  }

  /** The list builder removes the image from this builder: in local storage, never from the local builder. */
  predicate Removable(c: Config, b: string) {
    c.kind.ListFiles? || (b in c.farm && c.farm[b].name != LOCAL_NAME)
  }

  /** A failure ends the run; a directory being written has its temporary files deleted. */
  function Fail(s: State): State {
    s.(failed := true, files := {})
  }

  function AfterRemovals(c: Config): Phase {
    if c.kind.ListLocal? then Inspecting else Writing
  }

  // ---------------------------------------------------------------- steps

  datatype Event =
    | BuildOk(platform: string, image: string)
    | BuildFails(platform: string, called: bool, leftovers: set<string>)
    | BuildsDone(order: seq<string>, listOpened: bool)
    | Save(report: BuildReport)
    | Load(report: BuildReport)
    | AlreadyLocal(report: BuildReport)
    | PullFails(report: BuildReport, loaded: bool)
    | PullsDone
    | RemoveOk(report: BuildReport)
    | RemoveFails(report: BuildReport, removed: bool)
    | RemovalsDone
    | Inspect(ok: bool)
    | ClearOne(digest: string, ok: bool)
    | ClearingDone
    | AddOne(ref: string, ok: bool)
    | AddingDone
    | WritingDone(ok: bool)

  predicate CanPull(s: State, r: BuildReport, pc: PullPc) {
    s.phase.Pulls? && r in s.images && r in s.pulls && s.pulls[r] == pc
  }

  /** The local builder looks first whether local storage has the image already. */
  predicate FoundLocally(c: Config, s: State, r: BuildReport)
    requires r in s.images
  {
    && c.kind.ListLocal? && s.images[r] in c.farm && c.farm[s.images[r]].kind.Local?
    && Copy(c.localStore, r.imageID) in s.copies
  }

  predicate CanRemove(s: State, r: BuildReport) {
    s.phase.Removals? && r in s.images && r in s.removals && s.removals[r].NotRemoved?
  }

  /** A removal that succeeds finds the image in the store of the builder. */
  predicate CanRemoveFrom(c: Config, s: State, r: BuildReport) {
    CanRemove(s, r) && Copy(StoreOf(c, s.images[r]), r.imageID) in s.copies
  }

  /** An image that is added to the list is read from local storage. */
  predicate InLocalStorage(c: Config, s: State, ref: string) {
    exists r :: r in s.images && RefOf(r) == ref && Copy(c.localStore, r.imageID) in s.copies
  }

  predicate CanBuild(c: Config, s: State, p: string) {
    s.phase.Builds? && p in s.builds && s.builds[p].Building? && p in c.schedule
  }

  /** The job is found, and its builder gets as far as calling its engine. */
  predicate CanCallEngine(c: Config, s: State, p: string) {
    && CanBuild(c, s, p) && c.schedule[p] in c.jobs && WorkerFor(c, p) in c.farm
    && (c.farm[WorkerFor(c, p)].kind.Local? ==> c.farm[WorkerFor(c, p)].fetched.err.None?)
  }

  predicate CanFail(c: Config, s: State, p: string, called: bool, leftovers: set<string>) {
    if called then CanCallEngine(c, s, p) else CanBuild(c, s, p) && leftovers == {}
  }

  predicate CanEndBuilds(c: Config, s: State, order: seq<string>) {
    && s.phase.Builds? && (forall p :: p in s.builds ==> !s.builds[p].Building?)
    && Enumerates(order, Results(c, s).Keys)
  }

  predicate CanSave(c: Config, s: State, r: BuildReport) {
    CanPull(s, r, NotPulled) && Copy(StoreOf(c, s.images[r]), r.imageID) in s.copies && !FoundLocally(c, s, r)
  }

  predicate CanEndPulls(s: State) {
    s.phase.Pulls? && forall r :: r in s.pulls ==> !s.pulls[r].NotPulled? && !s.pulls[r].Saved?
  }

  predicate CanEndRemovals(s: State) {
    s.phase.Removals? && forall r :: r in s.removals ==> !s.removals[r].NotRemoved?
  }

  predicate CanHappen(c: Config, s: State, e: Event) {
    !s.failed &&
    match e
    case BuildOk(p, _) => CanCallEngine(c, s, p)
    case BuildFails(p, called, leftovers) => CanFail(c, s, p, called, leftovers)
    case BuildsDone(order, _) => CanEndBuilds(c, s, order)
    case Save(r) => CanSave(c, s, r)
    case Load(r) => CanPull(s, r, Saved) && c.kind.ListLocal?
    case AlreadyLocal(r) => CanPull(s, r, NotPulled) && FoundLocally(c, s, r)
    case PullFails(r, loaded) =>
      (CanPull(s, r, NotPulled) && !loaded) || (CanPull(s, r, Saved) && (loaded ==> c.kind.ListLocal?))
    case PullsDone => CanEndPulls(s)
    case RemoveOk(r) => CanRemoveFrom(c, s, r)
    case RemoveFails(r, _) => CanRemove(s, r)
    case RemovalsDone => CanEndRemovals(s)
    case Inspect(_) => s.phase.Inspecting?
    case ClearOne(d, _) => s.phase.Clearing? && d in s.toClear
    case ClearingDone => s.phase.Clearing? && s.toClear == {}
    case AddOne(ref, ok) => s.phase.Adding? && ref in s.toAdd && (ok ==> InLocalStorage(c, s, ref))
    case AddingDone => s.phase.Adding? && s.toAdd == {}
    case WritingDone(_) => s.phase.Writing?
  }

  function BuildSucceeds(c: Config, s: State, p: string, image: string): State
    requires p in c.schedule && c.schedule[p] in c.jobs
  {
    var b := WorkerFor(c, p);
    s.(copies := s.copies + {Copy(StoreOf(c, b), image)}, builds := s.builds[p := Built(ReportOf(c, image))],
       calls := s.calls + [EngineCall(p, b, TargetOf(c, b))])
  }

  /** A build that fails may have called its engine or not; if it has, it may leave images behind. */
  function BuildGivesUp(c: Config, s: State, p: string, called: bool, leftovers: set<string>): State
    requires p in c.schedule && (called ==> c.schedule[p] in c.jobs)
  {
    if !called then s.(builds := s.builds[p := BuildFailed])
    else
      var b := WorkerFor(c, p);
      s.(copies := s.copies + (set image | image in leftovers :: Copy(StoreOf(c, b), image)),
         builds := s.builds[p := BuildFailed],
         calls := s.calls + [EngineCall(p, b, TargetOf(c, b))])
  }

  /** The barrier after the builds: collect the results, and find or create the list. */
  function StartPulls(c: Config, s: State, order: seq<string>, listOpened: bool): State
    requires Enumerates(order, Results(c, s).Keys)
  {
    if (exists p :: p in s.builds && s.builds[p].BuildFailed?) || !listOpened then Fail(s)
    else
      var images := Collect(Results(c, s), order);
      s.(phase := Pulls, images := images, pulls := map r | r in images :: NotPulled,
         list := if s.list.None? && c.kind.ListLocal? then Some({}) else s.list)
  }

  /** Pulling to local storage takes two calls; pulling to a file is done with the first. */
  function PullSaves(c: Config, s: State, r: BuildReport): State {
    if c.kind.ListLocal? then s.(pulls := s.pulls[r := Saved])
    else s.(pulls := s.pulls[r := Pulled], files := s.files + {r})
  }

  function PullSucceeds(c: Config, s: State, r: BuildReport, loaded: bool): State {
    s.(pulls := s.pulls[r := Pulled], refs := s.refs + {RefOf(r)},
       copies := if loaded then s.copies + {Copy(c.localStore, r.imageID)} else s.copies)
  }

  /** A load may put the image in place and then fail all the same. */
  function PullGivesUp(c: Config, s: State, r: BuildReport, loaded: bool): State {
    s.(pulls := s.pulls[r := PullFailed],
       copies := if loaded then s.copies + {Copy(c.localStore, r.imageID)} else s.copies)
  }

  /** The barrier after the pulls. */
  function StartRemovals(c: Config, s: State): State {
    if exists r :: r in s.pulls && s.pulls[r].PullFailed? then Fail(s)
    else if !c.removeIntermediates then s.(phase := AfterRemovals(c))
    else s.(phase := Removals, removals := map r | r in s.images && Removable(c, s.images[r]) :: NotRemoved)
  }

  /** A removal may take the image away and then fail all the same. */
  function RemovalEnds(c: Config, s: State, r: BuildReport, gone: bool, pc: RemovePc): State
    requires r in s.images
  {
    s.(copies := if gone then s.copies - {Copy(StoreOf(c, s.images[r]), r.imageID)} else s.copies,
       removals := s.removals[r := pc])
  }

  /** The barrier after the removals. */
  function EndRemovals(c: Config, s: State): State {
    if exists r :: r in s.removals && s.removals[r].RemoveFailed? then Fail(s) else s.(phase := AfterRemovals(c))
  }

  function ReadList(s: State, ok: bool): State {
    if ok && s.list.Some? then s.(phase := Clearing, toClear := s.list.value) else Fail(s)
  }

  function ClearInstance(s: State, d: string, ok: bool): State {
    if ok && s.list.Some? then s.(list := Some(s.list.value - {d}), toClear := s.toClear - {d}) else Fail(s)
  }

  function AddInstance(c: Config, s: State, ref: string, ok: bool): State {
    if ok && s.list.Some? then s.(list := Some(s.list.value + {c.digest(ref)}), toAdd := s.toAdd - {ref}) else Fail(s)
  }

  function Next(c: Config, s: State, e: Event): State
    requires CanHappen(c, s, e)
  {
    match e
    case BuildOk(p, image) => BuildSucceeds(c, s, p, image)
    case BuildFails(p, called, leftovers) => BuildGivesUp(c, s, p, called, leftovers)
    case BuildsDone(order, listOpened) => StartPulls(c, s, order, listOpened)
    case Save(r) => PullSaves(c, s, r)
    case Load(r) => PullSucceeds(c, s, r, true)
    case AlreadyLocal(r) => PullSucceeds(c, s, r, false)
    case PullFails(r, loaded) => PullGivesUp(c, s, r, loaded)
    case PullsDone => StartRemovals(c, s)
    case RemoveOk(r) => RemovalEnds(c, s, r, true, Removed)
    case RemoveFails(r, removed) => RemovalEnds(c, s, r, removed, RemoveFailed)
    case RemovalsDone => EndRemovals(c, s)
    case Inspect(ok) => ReadList(s, ok)
    case ClearOne(d, ok) => ClearInstance(s, d, ok)
    case ClearingDone => s.(phase := Adding, toAdd := s.refs)
    case AddOne(ref, ok) => AddInstance(c, s, ref, ok)
    case AddingDone => s.(phase := Succeeded)
    case WritingDone(ok) => if ok then s.(phase := Succeeded) else Fail(s)
  }

  ghost predicate Step(c: Config, s: State, t: State) {
    exists e :: CanHappen(c, s, e) && t == Next(c, s, e)
  }

  ghost predicate Steps(c: Config, run: seq<State>) {
    forall i :: 0 <= i < |run| - 1 ==> Step(c, run[i], run[i + 1])
  }

  /** A run, as far as it got. */
  ghost predicate Run(c: Config, run: seq<State>) {
    run != [] && Steps(c, run) && exists copies, list :: run[0] == Init(c, copies, list)
  }

  // ---------------------------------------------------------------- what a build can rely on

  /** The jobs send every platform to the builder it is scheduled on, and the farm has that builder. */
  ghost predicate Prepared(c: Config) {
    && (forall p :: p in c.schedule ==>
          c.schedule[p] in c.farm && c.schedule[p] in c.jobs && c.jobs[c.schedule[p]].builder == c.schedule[p])
    && forall b :: b in c.farm && c.farm[b].kind.Local? ==>
         c.farm[b].name == LOCAL_NAME && c.farm[b].store == c.localStore
  }
}
