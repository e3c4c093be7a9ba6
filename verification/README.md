# Verified model of a farm of image builders

This project models two parts of a Go program that builds container images for several platforms at once, and proves
what they promise.

**The farm.** A farm is a map of named builders: one on the local machine, the others at the end of a connection. Each
finds out once what its engine builds for. A schedule assigns a builder to every wanted platform, from answers that
arrive in any order. A build makes a table of jobs from the schedule, calls all engines in parallel, waits, collects
the reports, and hands them to a list builder. The list builder pulls all images, waits, removes the intermediate ones if
that was asked for, waits, and then replaces the contents of a manifest list.

**The emulator detector.** The local builder learns which other platforms it can emulate by generating the beginnings
of ELF headers for a table of platforms, and matching them against the entries of the kernel's binfmt_misc registry.

## How it is modelled

| file | what it holds |
|---|---|
| `Wrappers`, `Orders`, `GoText`, `GoSort`, `Bytes` | options and results; orders of sets; the string, number and sorting functions of Go's library that are used; byte orders |
| `Elf`, `ElfLayout`, `ElfTable`, `ElfCache` | the header generator over one work buffer, where each field ends up, the table of platforms, the map that is filled once |
| `MaskedMagic` | comparing a header with a masked magic value |
| `BinfmtParser`, `BinfmtText` | reading an entry line by line, what a whole text means, the text that the kernel prints |
| `BinfmtRegistry`, `RegistryFacts`, `KnownEntries` | the walk over the registry, what follows for its list, and the table and the usual entries byte by byte |
| `Platforms`, `Builders` | targets and their spelling, what is fetched, the two kinds of builder and their once-only fetch |
| `Scheduler`, `ScheduleRuns`, `Scheduling`, `ScheduleReach` | the queries as a state machine with a mutex, what its runs end in, the assignment loop, which schedules can come about |
| `Jobs` | the table of jobs and the table of images |
| `BuildRun`, `BuildInvariants` | a build and its list builder as a state machine, and what all its states keep |
| `Conservation`, `ListSafety` | where images are, and what is in the list, over whole runs |
| `Completion`, `ConservationLimits`, `SuccessLimits` | runs that come to a good end, runs that lose an image, and when no run succeeds |
| `EndToEnd` | from what builders fetch to what their engines are told |

Code that changes things step by step is a method with a loop or a class with fields, and is proved against a
specification. Concurrent code is a state machine: every critical section is made of steps between taking and releasing
the mutex, every engine call is a step that can fail, and steps of different goroutines interleave freely up to the
next barrier. Where Go goes through a map in no particular order, the order is an arbitrary enumeration of its keys.

Engines are stores, that is, sets of images. Stores are told apart by what they are: a connection may lead to a store that
another connection leads to as well, or back to the local one. This matters below. An engine's call may fail after it
has done its work; a failed build may leave images behind, a failed load may have put the image in place, and a failed
removal may have taken it away.

## Main results

* **Each native platform once.** With no platforms given, in every interleaving of the queries, for every order of the
  jobs and in every run in which all builds succeed, each native platform of the farm is built exactly once, on a builder
  native to it, whose engine is told that very platform; no builder is used twice (`EndToEnd.EachNativePlatformBuiltOnce`).
* **Any list of platforms.** An engine is told the platform it was scheduled for exactly if that platform is native to
  some builder of the farm (`EndToEnd.EngineBuildsForPlatformIffNative`). A platform that can only be emulated is scheduled
  without an error, and the builder's own platform is built in its place
  (`EndToEnd.EmulatedPlatformIsBuiltForAnother`): builders use their own os, arch and variant and not those of the job
  (`local.go:173`, `remote.go:159`, `podman.go:43`), although `buildfarm.go:296-298` promises emulated builds.
* **Images are conserved exactly if removing is safe.** Whatever is in the stores at first and whatever image IDs the
  engines report, no reachable state of any run, failed ones included, loses a reported image if and only if removal is
  not asked for, or the images go to local storage and no builder that is cleaned up leads back to local storage
  (`ConservationLimits.ConservedIffSafe`). The list builder spares the local builder by its name (`local.go:385`), so a
  connection to the local machine's own service is cleaned up like any other. The list builder that writes a directory
  removes everywhere (`files.go:117-122`) and keeps its files in a temporary directory that any later failure deletes
  (`files.go:55`), so there it is safe only without removal.
* **The list is replaced last, but not at once.** Nothing in the list changes before all builds, all pulls and all
  removals have succeeded; on success it holds exactly the instances of the reported images, all of which are in local
  storage; and in every state of every run it holds old instances only or new ones only (`ListSafety`). It is cleared
  before it is filled (`local.go:406-418`), so a failure in between leaves it without its old contents
  (`SuccessLimits.FailureLosesList`, `ListSafety.ClearedStaysCleared`).
* **When a build can succeed.** From any contents of the stores and the list and for any image IDs, a planned build has a
  run that succeeds if and only if every image can be collected from a builder where it is not endangered, that is, where
  removing it does not remove it from local storage itself (`EndToEnd.PlansSucceedIffSafeSources`): adding an image to the
  list reads it from local storage (`local.go:415`). If no two builds report the same image, that is the condition under
  which images are conserved (`SuccessLimits.DistinctImagesSucceedIffSafe`). Where it does not hold, the list is cleared
  all the same before the build fails (`ListSafety.RemovedImageIsNeverListed`).
* **Schedules are those of first comers.** If all builders answer, the schedules that can come about for the wanted
  platforms are exactly those that give each platform to the first builder, in some order of the builders, that offers
  it in the preferred way; if one query fails there is none (`ScheduleReach.SchedulesAreOfFirstComers`). From every state
  of the queries, failing ones included, the barrier can be reached.
* **The registry's list is a function of its files.** Any order of the walk and of the map of headers gives the same
  list (`BinfmtRegistry.ReportIsUnique`). The walk takes names in lexical order; then the error of a bad file is noticed
  if and only if the status is enabled and no bad file's name comes before `status`, and otherwise it is dropped
  (`BinfmtRegistry.ErrorSurfacesIffAfterStatus`).
* **Usual registries are reported.** In an enabled registry of the usual entries, given by their bytes and printed in any
  layout, each platform is reported once for every entry that is its own, in lexical order, and nothing else is
  (`KnownEntries.UsualRegistryIsReported`).
* **The parser recovers entries** from their text byte for byte, for every entry that the kernel can print
  (`BinfmtText.ParserRecoversEntry`). An entry without flags is printed with nothing after `flags:`, which the
  parser rejects; so one such entry makes the whole list empty. Which entries do that is stated exactly
  (`RegistryFacts.PrintedRegistryFails`).
* **A range identifies a platform** exactly if it covers bytes 4 to 19 of a header or does not fit in it
  (`ElfTable.RangeIdentifiesPlatform`).

Two more places where code and words disagree, and the model follows the code:
`magicMatch` masks the magic value, though its comment (`emulation/binfmtmisc_linux.go:86-87`) has the header masked;
`MaskedMagic` relates the code, the comment and the kernel's rule to one another. The difference shows with real
entries: those that mask the OSABI byte out, as the usual one for linux/arm does, never match a generated header with
an OSABI other than 0 (`ElfTable.MaskedAbiIsCompared`, `ElfTable.CodeAndCommentDiffer`).
The header generator puts the flags at byte 30 or 36 (`emulation/elf.go:171-176,193`), while chapter 4 of the System V gABI has
`e_flags` at 36 or 48; agreement with the gABI is claimed for the first 24 bytes only.

## Model

| member | source | states |
|---|---|---|
| `EndToEnd.EachNativePlatformBuiltOnce` | buildfarm.go:307-517 | with no platforms given, past the first barrier of any run each native platform of the farm has exactly one engine call, on a builder native to it and for exactly that platform; there are no other calls, and no builder has two |
| `EndToEnd.EngineBuildsForPlatformIffNative` | buildfarm.go:472-499 | for any sound schedule and in any state of any run, what an engine was told, in a call that failed as in one that succeeded, spells the scheduled platform if and only if some builder of the farm is native to it |
| `EndToEnd.EmulatedPlatformIsBuiltForAnother` | local.go:108-177 | for every default platform, with or without a variant and however it is normalised, and every registered platform that is not native: scheduling the latter succeeds and the engine's target is the former |
| `EndToEnd.NativeTargetIsFixed` | buildfarm.go:314-359 | two schedules of one farm, however the queries went, build a native platform for the same target |
| `EndToEnd.NativeSchedulesAreInjective` | buildfarm.go:351-411 | if only native platforms are scheduled, no two share a builder, and each builder's job is that of its platform |
| `EndToEnd.PlannedIsPrepared` | buildfarm.go:387-391 | with a sound schedule for the same farm no builder is unknown, no job is missing, every job has the scheduled builder, and no builder fails for want of platform data |
| `EndToEnd.PlanBuild` | buildfarm.go:304-411 | scheduling followed by making jobs, on the same farm: the job table is never refused; every platform goes to the builder noted for it; with no platforms given it fails only if a builder cannot be asked, and covers exactly the native platforms |
| `EndToEnd.PlansCanBeBuilt` | buildfarm.go:430-517 | for every planned build, every assignment of image IDs and any first contents of stores and list, some run gets all these images built and pulled |
| `EndToEnd.PlansSucceedIffSafeSources` | buildfarm.go:430-520 | for every planned build, every assignment of image IDs and any first contents, some run succeeds if and only if every image is reported for some platform whose builder is not cleaned up in local storage; in safe configurations that is so |
| `Completion.SomeRunSucceeds` | local.go:343-420 | under that condition builds, pulls, removals, clearing and adding can all be brought to their end, with exactly these images in the list, or in the directory |
| `SuccessLimits.SuccessIffSafeSources` | local.go:382-420 | the same equivalence for every schedule whose builders are known and can be called |
| `SuccessLimits.DistinctImagesSucceedIffSafe` | local.go:382-420 | for pairwise distinct image IDs and a local list, some run succeeds if and only if removing is safe; for a directory, some run always does |
| `SuccessLimits.FailureLosesList` | local.go:401-418 | whatever the list held and whatever is reported, some run pulls everything, clears the list and fails with nothing in it |
| `EndToEnd.JobAsksForTarget` | buildfarm.go:392-410 | the (unused) target of a native platform's job is the normalised target of its builder |
| `EndToEnd.BuildUsesAnsweredTarget` | remote.go:121-170 | a build that comes after the answered query, in any interleaving with other calls, is for the platform that the answer offered |
| `EndToEnd.ReportsAreCollected` | buildfarm.go:489-520 | the list builder is called only if every scheduled platform has a result; its map has exactly the reports as keys, each with a builder that made it, and as many entries as there are platforms exactly if the reports differ |
| `EndToEnd.NativeIsTarget` | local.go:108-126 | the one platform that a builder offers natively is the spelling of its target |
| `ConservationLimits.ConservedIffSafe` | local.go:352-399 | for every assignment of image IDs and every first contents of the stores: no run that reports them ever loses an image, if and only if removal is off, or images go to local storage and no scheduled builder with another name than the local one has local storage as its store |
| `ConservationLimits.AlwaysConservedIffSafe` | local.go:352-399 | the same condition decides whether any run at all loses an image |
| `Conservation.SafeRunsConserve` | local.go:352-399 | in a safe configuration, every reported image is on its builder or in local storage (or in its file) in every state, failed runs included |
| `Conservation.NoRemovalBeforePulls` | local.go:376-399 | if a step takes a copy away, then all builds and all pulls have succeeded, removal was asked for, and the copy is that of a collected image in its builder's store, where for a local list the builder's name is not that of the local one |
| `Conservation.LocalStorageOnlyGrows` | local.go:382-392 | in a safe configuration nothing ever leaves local storage |
| `Conservation.IntermediatesAreGone` | local.go:382-399 | after the removals, each collected image is gone from its builder's store: for a local list if the builder's name is not that of the local one, for a directory in any case |
| `Conservation.WhoIsCleanedUp` | files.go:115-122 | a builder is cleaned up exactly if a directory is written or its name is not that of the local one |
| `Conservation.SuccessfulRemovalTakesCopy` | remote.go:217-238 | a removal that succeeds takes exactly one copy, which was there, from the builder's store |
| `Conservation.PulledAtOnceOnlyLocally` | local.go:202-217 | an image is pulled to local storage without being saved only for the local builder and only if it is there; it is saved only out of its builder's store, and by the local builder only if it is not there |
| `ConservationLimits.FilesLose` | files.go:115-129 | for the directory: with removal asked for, each scheduled platform has, for any image IDs, a run that pulls all images and then loses its own |
| `ConservationLimits.LocalAliasLoses` | local.go:384-392 | for a local list: each platform scheduled on a builder that is not named as the local one but has local storage as its store has, for any image IDs, a run that pulls all images and then loses its own |
| `ListSafety.ListUntouchedBeforeSuccess` | local.go:343-420 | if the list's instances differ from what they were, then all builds, all pulls and all requested removals have succeeded |
| `ListSafety.SuccessListsExactlyTheImages` | local.go:401-420 | on success the list is exactly the set of instances of the images built for the schedule, whatever it held before, and each of these images is in local storage |
| `ListSafety.RemovedImageIsNeverListed` | local.go:382-418 | no run that collects an image from a builder that is cleaned up and has local storage as its store ever succeeds; once it fills the list, the list has new instances only and never that image's reference |
| `ListSafety.ListIsOldOrNew` | local.go:401-420 | in every state of every run, failed ones included, the list is a subset of its old instances or a subset of the new ones |
| `ListSafety.ClearedStaysCleared` | local.go:406-418 | an old instance that is missing in some state is missing in all later ones, unless it is among the new ones |
| `BuildInvariants.RunKeepsInv` | buildfarm.go:430-520 | the conjunction of invariants on builds, images, pulls, removals and calls holds in every state of every run |
| `BuildInvariants.CollectedImages` | buildfarm.go:507-517 | after the builds, every report is a key of the images and every image comes from the builder its platform is scheduled on |
| `BuildInvariants.StepKeepsCalls` | buildfarm.go:472-499 | every engine call, failed ones too, is on the scheduled builder and for that builder's own target; there is at most one for each platform, and one for each platform that has been built |
| `BuildInvariants.StepKeepsBarriers` | local.go:376-399 | no step gets past a barrier with something before it failed or unfinished |
| `BuildInvariants.StepFailsExactly` | buildfarm.go:501-517 | a step ends the run with a failure exactly if it is a barrier that something before it failed, or a list that cannot be opened or read, or a failing removal or addition of an instance, or a directory that cannot be written |
| `BuildInvariants.FailedBuildsLeave` | buildfarm.go:493-497 | a build that fails in its call has that call recorded and may leave images in its builder's store; one that fails before it leaves nothing |
| `Scheduling.MakeSchedule` | buildfarm.go:304-364 | whatever run the queries had, exactly the schedule that this run leads to: for exactly the wanted platforms, each with the builder noted for it, the native one if there is one; and if it leads to none, the error that the first failing check gives |
| `Scheduling.NativePlatforms` | buildfarm.go:220-254 | the sorted, repetition-free union of the native platforms, or an error exactly if some builder cannot be asked |
| `Scheduling.AssignBuilders` | buildfarm.go:348-359 | native before emulated for each platform, and an error for the first platform that has neither |
| `Scheduling.SoundAssignment` | buildfarm.go:351-359 | preferring the native map over maps that note the right builders gives a sound schedule |
| `ScheduleRuns.InterleavingsRefineFold` | buildfarm.go:319-342 | in every reachable state in which the mutex is free, both maps are those of the sequential fold in mutex order |
| `ScheduleRuns.FoldNotesFirst` | buildfarm.go:327-336 | the fold has exactly the offered platforms, each with the earliest builder that offers it |
| `ScheduleRuns.RunKeepsEntries` | buildfarm.go:327-336 | an entry once noted never changes in any later state |
| `ScheduleRuns.NotedAtTheBarrier` | buildfarm.go:314-347 | at the barrier the maps have exactly the platforms offered anywhere in the farm, each with the builder that was first among those offering it |
| `ScheduleReach.EveryOrderIsReached` | buildfarm.go:317-342 | every order of the builders that answer is the mutex order of some complete run, whichever other queries fail |
| `ScheduleReach.BarrierIsReachable` | buildfarm.go:317-347 | every run of the queries, however far it got and whatever failed, can be continued to the barrier |
| `ScheduleReach.SchedulesAreOfFirstComers` | buildfarm.go:304-364 | some run leads to a schedule if and only if all builders answer, it covers exactly the wanted platforms (all native ones if none are given), and in some order of the builders each platform has the first that offers it in the preferred way |
| `ScheduleReach.AnyoneCanWin` | buildfarm.go:314-341 | for each platform and each builder that offers it, some run notes that builder |
| `ScheduleReach.AnyoneCanBeScheduled` | buildfarm.go:304-364 | if all builders answer and everything wanted is offered, each builder that offers a wanted platform in the preferred way is scheduled for it in a schedule that some run leads to |
| `Scheduler.RunKeepsInv` | buildfarm.go:314-342 | mutual exclusion, and the maps as the fold plus what the holder of the mutex has noted so far, in every reachable state |
| `Jobs.MakeJobs` | buildfarm.go:378-411 | fails exactly for an unknown builder, and otherwise has for each builder in use the job of its last platform |
| `Jobs.OwnJobIffLast` | buildfarm.go:404-410 | a platform finds its own job exactly if it comes last among those that share its builder |
| `Jobs.OwnJobsIffInjective` | buildfarm.go:404-410 | for any order, all platforms find their own jobs exactly if no two share a builder |
| `Jobs.CollectResults` | buildfarm.go:507-517 | the loop over the results computes the fold in its order |
| `Jobs.CollectKeepsReports` | buildfarm.go:507-517 | the fold has exactly the reports as keys, each with the builder of some result with that report |
| `Jobs.CollectCounts` | buildfarm.go:507-517 | as many images as results exactly if reports are pairwise distinct |
| `Jobs.CollectTakesLast` | buildfarm.go:507-517 | of equal reports, the builder of the last one gone through stays |
| `Builders.FetchedAtMostOnce` | local.go:129-170 | in any sequence of calls at most one asks the engine |
| `Builders.AnswersAgree` | local.go:129-161 | any two calls, of whatever kind except a build on a remote builder, answer alike, at whatever times they are made |
| `Builders.FirstCallFetches` | remote.go:121-153 | the first call, if it is not a build on a remote builder, asks the engine and answers with what it is told |
| `Builders.SaveFormats` | local.go:179-182 | which archive format goes with which output format |
| `Builders.BuildSeesWhatWasAnswered` | remote.go:121-170 | a later build, though it does not fetch, works with the target of any earlier answer |
| `Builders.UnaskedRemoteBuildsForNothing` | remote.go:157-160 | a remote builder that was never asked builds for an empty target |
| `Builders.PodmanLocal.FetchInfo` | local.go:108-126 | splitting, normalising and spelling in steps gives the default platform's target and its spelling, or an error |
| `Builders.PodmanLocal.FetchOnce` | local.go:130-132 | the fields take what is fetched now unless they were filled before |
| `Builders.PodmanLocal.GetInfo` | local.go:129-134 | the new fields and the answer are those of the once-only state machine |
| `Builders.PodmanLocal.NativePlatforms` | local.go:138-143 | the call makes sure of the fetch, and answers with its native platforms |
| `Builders.PodmanRemote.NativePlatforms` | remote.go:130-135 | the call makes sure of the fetch, and answers with its native platforms |
| `Builders.PodmanLocal.Build` | local.go:165-184 | the error of the fetch if there was one, else the engine's answer for the builder's own target, whatever was asked for |
| `Builders.PodmanRemote.FetchOnce` | remote.go:121-124 | the fields take what is fetched now unless they were filled before |
| `Builders.PodmanRemote.Build` | remote.go:157-170 | the engine's answer for the fields as they are; nothing is fetched |
| `Platforms.FetchedIsCoherent` | remote.go:109-118 | what either kind of builder fetches is an error and nothing else, or one native platform that spells the target; exactly when it is an error |
| `Platforms.LocalFetchFinds` | local.go:108-126 | from os/arch and os/arch/variant the local builder gets these three in this order, normalised, spells them in this order, and takes over what is registered; without a slash it gets an error |
| `Platforms.RemoteFetchFinds` | remote.go:114-117 | a remote builder gets its host's os and arch, no variant and nothing emulated |
| `Platforms.SplitNParts` | local.go:110-118 | up to three parts, in order |
| `Platforms.SpellingRoundTrip` | buildfarm.go:393-403 | splitting a spelled platform gives back its os, arch and variant |
| `Platforms.RawTargetOfParts` | buildfarm.go:393-402 | missing parts are empty, and a fourth is left out |
| `Platforms.SpellingIsInjective` | local.go:120-123 | targets without slashes that are spelled alike are the same |
| `BinfmtRegistry.Registered` | emulation/emulation.go:7-16 | empty unless the status is enabled and every entry can be read and parsed; else sorted, with each platform once for every active entry it matches |
| `BinfmtRegistry.RegisteredBinfmtMisc` | emulation/binfmtmisc_linux.go:23-84 | which prefix of the walk counts, when an error is returned, and how often each platform is in the list; for the lexical order, an error exactly if the registry is enabled and has bad files but none up to `status` |
| `BinfmtRegistry.WalkFiles` | emulation/binfmtmisc_linux.go:26-78 | the captured variables after the walk are those of the files before the first bad one |
| `BinfmtRegistry.Walk.Visit` | emulation/binfmtmisc_linux.go:26-78 | what one file does to the captured variables, or the error it gives |
| `BinfmtRegistry.Walk.RegisterMatches` | emulation/binfmtmisc_linux.go:68-76 | in any order of the map, each platform with a matching header is appended once |
| `BinfmtRegistry.ReportIsUnique` | emulation/emulation.go:7-16 | for one set of files there is only one list |
| `BinfmtRegistry.ErrorSurfacesIffAfterStatus` | emulation/binfmtmisc_linux.go:26-83 | in the lexical order of an enabled registry, the walk gets past `status` before its first bad file exactly if there is one and every one is named after `status` |
| `RegistryFacts.PrintedRegistryFails` | emulation/binfmtmisc_linux.go:111-169 | a registry that the kernel prints has a bad file exactly if its status is unknown, or some enabled entry has no flags, or has an F flag and an extension or an offset above 127 |
| `RegistryFacts.BreakingEntryHidesAll` | emulation/binfmtmisc_linux.go:130-153 | one such entry among any other files makes the list empty |
| `RegistryFacts.CoveringEntryHasOnePlatform` | emulation/binfmtmisc_linux.go:68-76 | an entry that covers bytes 4 to 19 counts for at most one platform |
| `KnownEntries.UsualRegistryIsReported` | emulation/binfmtmisc_linux.go:23-84 | for an enabled status between any white space, anything in `register`, and usual entries in all other files: the list is sorted and has each platform as often as there are entries of its own |
| `KnownEntries.VectorsStandForTheirPlatforms` | emulation/binfmtmisc_linux_test.go:17-117 | each usual entry, given by its bytes, stands for its own platform and for no other |
| `KnownEntries.HeadersAreStandard` | emulation/elf.go:31-150 | every header generated for a row has, as literal bytes, the class, encoding and machine number that the gABI has for the row's name |
| `KnownEntries.StatusDecides` | emulation/binfmtmisc_linux.go:50-58 | a word between any white space is a known status exactly if it is enabled or disabled, and enables exactly if it is the former |
| `KnownEntries.NotEnabledReportsNothing` | emulation/binfmtmisc_linux.go:79-81 | with any other status, or none, the list is empty |
| `KnownEntries.UnreadableFileHidesAll` | emulation/binfmtmisc_linux.go:40-43 | an unreadable file other than `register` makes the list empty |
| `BinfmtText.ParserRecoversEntry` | emulation/binfmtmisc_linux_test.go:22-29 | for every kernel entry and layout, parsing the printed text gives its offset, magic and mask exactly if it is enabled, has an F flag, a mask and an offset up to 127, and otherwise that it is ignored or which error |
| `BinfmtParser.ParseBinfmtMisc` | emulation/binfmtmisc_linux.go:111-169 | the streaming loop computes the meaning of the whole text |
| `BinfmtParser.StoppedEarly` | emulation/binfmtmisc_linux.go:121-154 | the first line that decides the outcome decides it for any text after it |
| `BinfmtParser.LinesWithoutEffect` | emulation/binfmtmisc_linux.go:117-125 | lines without effect can stand anywhere |
| `BinfmtParser.LastLineWins` | emulation/binfmtmisc_linux.go:126-144 | the last offset, magic and mask lines count |
| `BinfmtParser.UnsetStaysDefault` | emulation/binfmtmisc_linux.go:112-113 | a setting without a line keeps its initial value |
| `BinfmtParser.OnlyLastLinesCount` | emulation/binfmtmisc_linux.go:112-168 | two texts in which no line decides the outcome, and whose last offset, magic and mask lines are the same or missing alike, give the same result, whatever else is in them |
| `BinfmtParser.AcceptedIsComplete` | emulation/binfmtmisc_linux.go:130-168 | an accepted entry has an offset of at most 127 and a non-empty magic value and mask |
| `BinfmtParser.BlankLineDoesNothing` | emulation/binfmtmisc_linux.go:117-119 | a blank line has no effect |
| `BinfmtParser.OneWordLine` | emulation/binfmtmisc_linux.go:120-154 | what each word does on a line by itself |
| `BinfmtParser.TwoWordLine` | emulation/binfmtmisc_linux.go:120-154 | what each word does with one value |
| `BinfmtParser.LongLine` | emulation/binfmtmisc_linux.go:120-154 | what each word does with more than one value |
| `BinfmtParser.SettingsDecide` | emulation/binfmtmisc_linux.go:157-168 | an offset, a magic value and a mask give the entry, or the error of the first of the two that is not hexadecimal |
| `BinfmtParser.MissingSettings` | emulation/binfmtmisc_linux.go:157-159 | without a magic value or without a mask an entry is ignored |
| `GoText.OffsetRoundTrip` | emulation/binfmtmisc_linux.go:130-134 | reading a decimal offset as 8 signed bits gives it back exactly if it is at most 127 |
| `GoText.SignedNumbers` | emulation/binfmtmisc_linux.go:130-134 | with a minus sign an offset is read down to -128, and a plus sign changes nothing |
| `GoText.TrimSpaceBothEnds` | emulation/binfmtmisc_linux.go:50 | white space is trimmed at both ends |
| `GoText.LinesOfCarriageReturn` | emulation/binfmtmisc_linux.go:114-116 | a line loses its newline and one carriage return before it |
| `GoText.DecodesPairsOfDigits` | emulation/binfmtmisc_linux.go:160-167 | exactly pairs of hexadecimal digits can be decoded |
| `GoText.HexDigitsAre` | emulation/binfmtmisc_linux.go:160-167 | which characters the digits are, in either case |
| `GoText.SixteensBeforeOnes` | emulation/binfmtmisc_linux.go:160-167 | of a pair of digits the first counts 16 |
| `GoText.TensBeforeOnes` | emulation/binfmtmisc_linux.go:130-134 | of two decimal digits the first counts 10 |
| `GoSort.FirstDifferenceDecides` | emulation/binfmtmisc_linux.go:82 | the smaller character at the first difference comes first |
| `GoText.HexRoundTrip` | emulation/binfmtmisc_linux.go:160-167 | decoding hexadecimal text gives back the bytes |
| `MaskedMagic.MagicMatch` | emulation/binfmtmisc_linux.go:88-105 | true exactly if the range fits in the header and equals the masked magic value |
| `MaskedMagic.MatchesAgainstKernel` | emulation/binfmtmisc_linux.go:88-105 | matches exactly if the kernel's rule does and the header has no bit outside the mask |
| `MaskedMagic.CommentAgainstKernel` | emulation/binfmtmisc_linux.go:86-87 | the rule of the comment holds exactly if the kernel's does and the magic value has no bit outside the mask |
| `MaskedMagic.CodeAgreesWithComment` | emulation/binfmtmisc_linux.go:86-105 | when the code and its comment give the same answer |
| `ElfTable.MaskedAbiIsCompared` | emulation/binfmtmisc_linux.go:86-105 | for every generated header with an OSABI other than 0 and every entry that masks its byte out: the code does not match, and the comment's rule does exactly if it matches the header with OSABI 0 |
| `ElfTable.CodeAndCommentDiffer` | emulation/binfmtmisc_linux_test.go:44-53 | for instance the entry of linux/arm and the header generated for linux/arm with the OSABI of Linux |
| `MaskedMagic.MatchFixesRange` | emulation/binfmtmisc_linux.go:88-105 | two headers that match one entry agree on its whole range |
| `ElfTable.RangeIdentifiesPlatform` | emulation/elf.go:31-150 | every entry with a given range stands for at most one known platform, if and only if the range covers bytes 4 to 19 or reaches past the header |
| `ElfTable.AtMostOnePlatform` | emulation/binfmtmisc_linux.go:68-76 | in any table whose platforms differ in class, data encoding or machine bytes, an entry covering bytes 4 to 19 stands for at most one |
| `ElfTable.KnownPlatformsDistinguishable` | emulation/elf.go:31-150 | the table is such a table, and its names differ |
| `Elf.Header` | emulation/elf.go:155-204 | one separate copy for each OSABI, flags value and variant, in nested order, with exactly the bytes of the layout; an error exactly if the data encoding is neither of the two |
| `Elf.VariantsOf` | emulation/elf.go:167-200 | editing the work buffer for the second header leaves the first as it was |
| `ElfLayout.HeaderListShape` | emulation/elf.go:161-202 | how many headers there are, and which choice stands at each index |
| `ElfLayout.PrefixRoundTrip` | emulation/elf.go:170-192 | reading the first 24 bytes as the gABI lays them out gives back what the entry said |
| `ElfLayout.FlagsRoundTrip` | emulation/elf.go:193 | the flags read back at the generator's own offset, past the prefix |
| `ElfLayout.FlagsStandAt` | emulation/elf.go:171-193 | the flags are at bytes 30 to 33 of a 32-bit header and at bytes 36 to 39 of a 64-bit one |
| `ElfLayout.NoValuesMeanZero` | emulation/elf.go:157-165 | an entry without OSABI and flags values has the value 0 for each |
| `ElfLayout.FlagsMissTheirStandardPlace` | emulation/elf.go:171-193 | in a 32-bit header, byte 36 reads as the flags exactly if they are 0 |
| `ElfLayout.BareVariantDiffers` | emulation/elf.go:195-200 | the variant without encoding differs in byte 5, byte 6, and byte 20 or 23, and nowhere else |
| `ElfCache.HeaderCache.Get` | emulation/elf.go:206-218 | the first call fills the map with the headers of every row, and later calls return that same map |
| `ElfCache.HeadersAreThoseGenerated` | emulation/elf.go:206-218 | what the map has for a platform is exactly what the generator makes for it |

## Left out

- `docker.go`, `copy.go`, `types.go`, the command line, pruning, `Done`: wrappers and option passing that the farm's protocol does not depend on.
- `Farm.EmulatedPlatforms`, `Farm.Status`: the same fan-out as `NativePlatforms` without its consumer.
- Opening connections and reading configuration: the farm starts as a given map of builders.
- Pipes, log prefixes, logging and temporary file names: input and output.
- The check of the output format and the choice between the two list builders by the reference: the kind of list builder is a parameter of the configuration, and opening the list can fail.
- `libimage.NormalizePlatform`, `parse.DefaultPlatform`: any function and any string; nothing is assumed of them except where a lemma says so.
- The inside of image stores and manifest lists: stores are sets of images, a list is a set of instance digests, and the digest of a reference is an arbitrary function; nobody outside the program changes stores or the list while it runs.
- Which error messages are joined when several goroutines fail: a phase with a failure in it ends with the run failed.
- `files.go` after the removals: writing the directory is one step that succeeds or fails; serialising the list, the formats it chooses, the final copy and the image ID file are not modelled.
- Scanner limits on the length of a line, and white space outside ASCII: lines have any length and blanks are the six of ASCII.
- Walking the directory: the registry is a finite map from names to contents, where a file that cannot be read has no contents.
- Scheduling.NativePlatforms: merges the builders' answers one at a time in any order, without the steps inside the mutex; for the queries of a schedule these steps are modelled.
- MaskedMagic.MagicMatch: takes offsets from 0 on, as its only caller does, which returns before for negative ones (`emulation/binfmtmisc_linux.go:65-67`).
- ElfCache.HeaderCache.Get: keeps the headers in its map as sequences of bytes rather than as arrays, since nothing writes to them afterwards.
- ElfLayout.FlagsMissTheirStandardPlace: says nothing of 64-bit headers, where the gABI has the flags at byte 48, past the 40 bytes that are generated.
- BuildInvariants.RunKeepsInv: in the state machine the engines' answers are chosen freely, so a build that is reported with an image that another build reported as well is among the runs.
