/**
 The two kinds of builder. Each asks its engine about platforms at most once and keeps the answer. What would be
 found out by asking *now* is passed to every method, and may be different each time.
 */
module Builders {
  import opened Wrappers
  import opened Platforms

  datatype Info = Info(native: seq<string>, emulated: seq<string>)

  datatype BuildReport = BuildReport(imageID: string, saveFormat: string)

  datatype BuildError = NoPlatform(error: FetchError) | EngineFailed

  const DOCKERV2: string := "application/vnd.docker.distribution.manifest.v2+json"

  function SaveFormat(outputFormat: string): string {
    if outputFormat == DOCKERV2 then "docker-archive" else "oci-archive"
  }

  /** Images of Docker's schema are saved in Docker's archives, and all others in OCI's. */
  lemma SaveFormats(outputFormat: string)
    ensures SaveFormat("application/vnd.docker.distribution.manifest.v2+json") == "docker-archive"
    ensures outputFormat != "application/vnd.docker.distribution.manifest.v2+json" ==>
              SaveFormat(outputFormat) == "oci-archive"
  {
  }

  // ---------------------------------------------------------------- fetching once, as a state machine

  datatype Once = NotYet | Done(fetched: Fetched)

  /** What is known once the fetch has been made sure of: the old answer if there is one. */
  function Settle(o: Once, now: Fetched): Fetched {
    if o.Done? then o.fetched else now
  }

  /** The fields that a build reads, fetched or not. */
  function Known(o: Once): Fetched {
    if o.Done? then o.fetched else NOTHING_FETCHED
  }

  datatype Kind = Local | Remote

  datatype Query = AskInfo | AskNative | AskEmulated | AskStatus | AskBuild

  /** Whether a call makes sure that the fetch has been made. Only a remote build does not. */
  predicate Fetches(kind: Kind, q: Query) {
    !(kind.Remote? && q.AskBuild?)
  }

  /** The platform data that a call answers with or works from. */
  datatype Answer = Answer(info: Info, target: Target, err: Option<FetchError>)

  function AnswerFrom(f: Fetched): Answer {
    Answer(Info(f.native, f.emulated), f.target, f.err)
  }

  function After(kind: Kind, o: Once, q: Query, now: Fetched): Once {
    if Fetches(kind, q) then Done(Settle(o, now)) else o
  }

  /** The state after a number of calls, in whatever order the callers got to make them. */
  function AfterAll(kind: Kind, calls: seq<(Query, Fetched)>): Once {
    if calls == [] then NotYet
    else
      var (q, now) := calls[|calls| - 1];
      After(kind, AfterAll(kind, calls[..|calls| - 1]), q, now)
  }

  function AnswerTo(kind: Kind, calls: seq<(Query, Fetched)>, k: nat): Answer
    requires k < |calls|
  {
    AnswerFrom(Known(AfterAll(kind, calls[..k + 1])))
  }

  /** Call number k is the one that asks the engine. */
  predicate AsksEngine(kind: Kind, calls: seq<(Query, Fetched)>, k: nat)
    requires k < |calls|
  {
    Fetches(kind, calls[k].0) && AfterAll(kind, calls[..k]).NotYet?
  }

  lemma {:induction false} FirstFetchStays(kind: Kind, calls: seq<(Query, Fetched)>, k: nat, n: nat)
    requires k < n <= |calls| && AsksEngine(kind, calls, k)
    ensures AfterAll(kind, calls[..n]) == Done(calls[k].1)
  {
    assert calls[..n][..n - 1] == calls[..n - 1];
    if k < n - 1 {
      FirstFetchStays(kind, calls, k, n - 1);
    }
  }

  /** In any interleaving of calls, the engine is asked at most once. */
  lemma FetchedAtMostOnce(kind: Kind, calls: seq<(Query, Fetched)>, j: nat, k: nat)
    requires j < |calls| && k < |calls| && AsksEngine(kind, calls, j) && AsksEngine(kind, calls, k)
    ensures j == k
  {
    if j < k {
      FirstFetchStays(kind, calls, j, k);
    } else if k < j {
      FirstFetchStays(kind, calls, k, j);
    }
  }

  lemma {:induction false} SomeoneFetched(kind: Kind, calls: seq<(Query, Fetched)>, n: nat) returns (k: nat)
    requires n <= |calls| && AfterAll(kind, calls[..n]).Done?
    ensures k < n && AsksEngine(kind, calls, k)
  {
    assert calls[..n][..n - 1] == calls[..n - 1];
    if AfterAll(kind, calls[..n - 1]).Done? {
      k := SomeoneFetched(kind, calls, n - 1);
    } else {
      k := n - 1;
    }
  }

  /** The first call of all asks the engine and answers with what it learns; only a remote build is not such a call. */
  lemma FirstCallFetches(kind: Kind, calls: seq<(Query, Fetched)>)
    requires calls != [] && (kind.Local? || !calls[0].0.AskBuild?)
    ensures AsksEngine(kind, calls, 0)
    ensures var f := calls[0].1;
            AnswerTo(kind, calls, 0) == Answer(Info(f.native, f.emulated), f.target, f.err)
  {
    assert calls[..1][..0] == [] && calls[..1][0] == calls[0];
    assert AfterAll(kind, calls[..0]) == NotYet;
  }

  /** All calls other than remote builds, whenever they are made, agree with one another. */
  lemma AnswersAgree(kind: Kind, calls: seq<(Query, Fetched)>, j: nat, k: nat)
    requires j < |calls| && k < |calls|
    requires kind.Local? || (!calls[j].0.AskBuild? && !calls[k].0.AskBuild?)
    ensures AnswerTo(kind, calls, j) == AnswerTo(kind, calls, k)
  {
    assert calls[..j + 1][..j] == calls[..j] && calls[..k + 1][..k] == calls[..k];
    var a := SomeoneFetched(kind, calls, j + 1);
    var b := SomeoneFetched(kind, calls, k + 1);
    FetchedAtMostOnce(kind, calls, a, b);
    FirstFetchStays(kind, calls, a, j + 1);
    FirstFetchStays(kind, calls, a, k + 1);
  }

  /** A build, even one that does not fetch, works from the same data as any call that came before it. */
  lemma BuildSeesWhatWasAnswered(kind: Kind, calls: seq<(Query, Fetched)>, j: nat, k: nat)
    requires j < k < |calls| && (kind.Local? || !calls[j].0.AskBuild?) && calls[k].0.AskBuild?
    ensures AnswerTo(kind, calls, k) == AnswerTo(kind, calls, j)
  {
    assert calls[..j + 1][..j] == calls[..j] && calls[..k + 1][..k] == calls[..k];
    var a := SomeoneFetched(kind, calls, j + 1);
    FirstFetchStays(kind, calls, a, j + 1);
    FirstFetchStays(kind, calls, a, k + 1);
  }

  /** A remote builder that was never asked before builds for no platform at all. */
  lemma {:induction false} UnaskedRemoteBuildsForNothing(calls: seq<(Query, Fetched)>, k: nat)
    requires k < |calls| && forall j :: 0 <= j <= k ==> calls[j].0.AskBuild?
    ensures AnswerTo(Remote, calls, k).target == NO_TARGET
  {
    assert calls[..k + 1][..k] == calls[..k];
    if k > 0 {
      UnaskedRemoteBuildsForNothing(calls, k - 1);
    } else {
      assert AfterAll(Remote, calls[..0]) == NotYet;
    }
  }

  // ---------------------------------------------------------------- the builders themselves

  /** The builder on the local machine. */
  class PodmanLocal {
    var fetchedOnce: bool
    var platformsErr: Option<FetchError>
    var os: string
    var arch: string
    var variant: string
    var nativePlatforms: seq<string>
    var emulatedPlatforms: seq<string>

    function Fields(): Fetched
      reads this
    {
      Fetched(Target(os, arch, variant), nativePlatforms, emulatedPlatforms, platformsErr)
    }

    function State(): Once
      reads this
    {
      if fetchedOnce then Done(Fields()) else NotYet
    }

    predicate Valid()
      reads this
    {
      !fetchedOnce ==> Fields() == NOTHING_FETCHED
    }

    constructor ()
      ensures Valid() && State() == NotYet
    {
      fetchedOnce, platformsErr := false, None;
      os, arch, variant := "", "", "";
      nativePlatforms, emulatedPlatforms := [], [];
    }

    static method FetchInfo(platform: string, norm: Normalizer, registered: seq<string>)
      returns (os: string, arch: string, variant: string, native: seq<string>, emulated: seq<string>,
               err: Option<FetchError>)
      ensures Fetched(Target(os, arch, variant), native, emulated, err) == LocalFetch(platform, norm, registered)
    {
      var parts := SplitN(platform, 3);
      if |parts| <= 1 {
        return "", "", "", [], [], Some(UnparseablePlatform(platform));
      } else if |parts| == 2 {
        os, arch, variant := parts[0], parts[1], "";
      } else {
        os, arch, variant := parts[0], parts[1], parts[2];
      }
      var t := norm(Target(os, arch, variant));
      os, arch, variant := t.os, t.arch, t.variant;
      var nativePlatform := os + "/" + arch;
      if variant != "" {
        nativePlatform := nativePlatform + ("/" + variant);
      }
      assert nativePlatform == Spell(t);
      return os, arch, variant, [nativePlatform], registered, None;
    }

    /** l.platforms.Do */
    method FetchOnce(platform: string, norm: Normalizer, registered: seq<string>)
      requires Valid()
      modifies this
      ensures Valid() && State() == Done(Settle(old(State()), LocalFetch(platform, norm, registered)))
    {
      if !fetchedOnce {
        os, arch, variant, nativePlatforms, emulatedPlatforms, platformsErr := FetchInfo(platform, norm, registered);
        fetchedOnce := true;
      }
    }

    method GetInfo(platform: string, norm: Normalizer, registered: seq<string>)
      returns (info: Info, err: Option<FetchError>)
      requires Valid()
      modifies this
      ensures Valid() && State() == After(Local, old(State()), AskInfo, LocalFetch(platform, norm, registered))
      ensures info == AnswerFrom(Known(State())).info && err == AnswerFrom(Known(State())).err
    {
      FetchOnce(platform, norm, registered);
      return Info(nativePlatforms, emulatedPlatforms), platformsErr;
    }

    method NativePlatforms(platform: string, norm: Normalizer, registered: seq<string>)
      returns (platforms: seq<string>, err: Option<FetchError>)
      requires Valid()
      modifies this
      ensures Valid() && State() == After(Local, old(State()), AskNative, LocalFetch(platform, norm, registered))
      ensures platforms == AnswerFrom(Known(State())).info.native && err == AnswerFrom(Known(State())).err
    {
      FetchOnce(platform, norm, registered);
      return nativePlatforms, platformsErr;
    }

    method EmulatedPlatforms(platform: string, norm: Normalizer, registered: seq<string>)
      returns (platforms: seq<string>, err: Option<FetchError>)
      requires Valid()
      modifies this
      ensures Valid() && State() == After(Local, old(State()), AskEmulated, LocalFetch(platform, norm, registered))
      ensures platforms == AnswerFrom(Known(State())).info.emulated && err == AnswerFrom(Known(State())).err
    {
      FetchOnce(platform, norm, registered);
      return emulatedPlatforms, platformsErr;
    }

    /** The engine is told to build for the builder's own target, whatever platforms the options ask for. */
    method Build(platform: string, norm: Normalizer, registered: seq<string>, wanted: seq<Target>, outputFormat: string,
                 engine: Target -> Option<string>) returns (r: Result<BuildReport, BuildError>)
      requires Valid()
      modifies this
      ensures Valid() && State() == After(Local, old(State()), AskBuild, LocalFetch(platform, norm, registered))
      ensures var a := AnswerFrom(Known(State()));
              r == if a.err.Some? then Err(NoPlatform(a.err.value))
                   else if engine(a.target).None? then Err(EngineFailed)
                   else Ok(BuildReport(engine(a.target).value, SaveFormat(outputFormat)))
    {
      FetchOnce(platform, norm, registered);
      if platformsErr.Some? {
        return Err(NoPlatform(platformsErr.value));
      }
      var id := engine(Target(os, arch, variant));
      if id.None? {
        return Err(EngineFailed);
      }
      var saveFormat := "oci-archive";
      if outputFormat == DOCKERV2 {
        saveFormat := "docker-archive";
      }
      return Ok(BuildReport(id.value, saveFormat));
    }
  }

  /** A builder at the other end of a connection. */
  class PodmanRemote {
    const name: string
    var fetchedOnce: bool
    var platformsErr: Option<FetchError>
    var os: string
    var arch: string
    var variant: string
    var nativePlatforms: seq<string>

    function Fields(): Fetched
      reads this
    {
      Fetched(Target(os, arch, variant), nativePlatforms, [], platformsErr)
    }

    function State(): Once
      reads this
    {
      if fetchedOnce then Done(Fields()) else NotYet
    }

    predicate Valid()
      reads this
    {
      variant == "" && (!fetchedOnce ==> Fields() == NOTHING_FETCHED)
    }

    constructor (name: string)
      ensures Valid() && State() == NotYet && this.name == name
    {
      this.name := name;
      fetchedOnce, platformsErr := false, None;
      os, arch, variant := "", "", "";
      nativePlatforms := [];
    }

    static method FetchInfo(host: Option<(string, string)>)
      returns (os: string, arch: string, native: seq<string>, err: Option<FetchError>)
      ensures Fetched(Target(os, arch, ""), native, [], err) == RemoteFetch(host)
    {
      match host {
        case None => return "", "", [], Some(HostUnreachable);
        case Some((o, a)) => return o, a, [o + "/" + a], None;
      }
    }

    method FetchOnce(host: Option<(string, string)>)
      requires Valid()
      modifies this
      ensures Valid() && State() == Done(Settle(old(State()), RemoteFetch(host)))
    {
      if !fetchedOnce {
        os, arch, nativePlatforms, platformsErr := FetchInfo(host);
        fetchedOnce := true;
      }
    }

    method GetInfo(host: Option<(string, string)>) returns (info: Info, err: Option<FetchError>)
      requires Valid()
      modifies this
      ensures Valid() && State() == After(Remote, old(State()), AskInfo, RemoteFetch(host))
      ensures info == AnswerFrom(Known(State())).info && err == AnswerFrom(Known(State())).err
    {
      FetchOnce(host);
      return Info(nativePlatforms, []), platformsErr;
    }

    method NativePlatforms(host: Option<(string, string)>) returns (platforms: seq<string>, err: Option<FetchError>)
      requires Valid()
      modifies this
      ensures Valid() && State() == After(Remote, old(State()), AskNative, RemoteFetch(host))
      ensures platforms == AnswerFrom(Known(State())).info.native && err == AnswerFrom(Known(State())).err
    {
      FetchOnce(host);
      return nativePlatforms, platformsErr;
    }

    method EmulatedPlatforms(host: Option<(string, string)>) returns (platforms: seq<string>, err: Option<FetchError>)
      requires Valid()
      modifies this
      ensures Valid() && State() == After(Remote, old(State()), AskEmulated, RemoteFetch(host))
      ensures platforms == AnswerFrom(Known(State())).info.emulated && err == AnswerFrom(Known(State())).err
    {
      FetchOnce(host);
      return [], platformsErr;
    }

    /** Builds from the fields as they are: nothing is fetched, and an earlier error is not looked at. */
    method Build(wanted: seq<Target>, outputFormat: string, engine: Target -> Option<string>)
      returns (r: Result<BuildReport, BuildError>)
      requires Valid()
      ensures var target := AnswerFrom(Known(State())).target;
              r == if engine(target).None? then Err(EngineFailed)
                   else Ok(BuildReport(engine(target).value, SaveFormat(outputFormat)))
    {
      var id := engine(Target(os, arch, variant));
      if id.None? {
        return Err(EngineFailed);
      }
      var saveFormat := "oci-archive";
      if outputFormat == DOCKERV2 {
        saveFormat := "docker-archive";
      }
      return Ok(BuildReport(id.value, saveFormat));
    }
  }
}
