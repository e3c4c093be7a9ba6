/** Target platforms, their spelling as os/arch or os/arch/variant, and what a builder finds out about itself. */
module Platforms {
  import opened Wrappers
  import opened GoText

  datatype Target = Target(os: string, arch: string, variant: string)

  const NO_TARGET := Target("", "", "")

  /** The library's normalisation of an os, an arch and a variant: any function will do here. */
  type Normalizer = Target -> Target

  function Spell(t: Target): string {
    t.os + "/" + t.arch + if t.variant != "" then "/" + t.variant else ""
  }

  /** strings.SplitN(s, "/", n) for n > 0: at most n parts, of which only the last can hold a slash. */
  function SplitN(s: string, n: nat): (r: seq<string>)
    requires n > 0
    ensures 1 <= |r| <= n
    ensures |r| == 1 <==> n == 1 || '/' !in s
    decreases |s|
  {
    var i := IndexOf(s, '/');
    if n == 1 || i == |s| then [s]
    else
      assert s[i] == '/';
      [s[..i]] + SplitN(s[i + 1..], n - 1)
  }

  /** strings.Split(s, "/") */
  function Split(s: string): (r: seq<string>)
    ensures |r| >= 1
    decreases |s|
  {
    var i := IndexOf(s, '/');
    if i == |s| then [s] else [s[..i]] + Split(s[i + 1..])
  }

  // ---------------------------------------------------------------- what a builder finds out

  datatype FetchError =
    | UnparseablePlatform(platform: string)
    | HostUnreachable

  /** What a builder knows after asking once: the target it builds for and the platforms it offers. */
  datatype Fetched = Fetched(target: Target, native: seq<string>, emulated: seq<string>, err: Option<FetchError>)

  const NOTHING_FETCHED := Fetched(NO_TARGET, [], [], None)

  /** The local engine: from the system's default platform and the registered emulators. */
  function LocalFetch(platform: string, norm: Normalizer, registered: seq<string>): Fetched {
    var parts := SplitN(platform, 3);
    if |parts| == 1 then Fetched(NO_TARGET, [], [], Some(UnparseablePlatform(platform)))
    else
      var t := norm(Target(parts[0], parts[1], if |parts| == 3 then parts[2] else ""));
      Fetched(t, [Spell(t)], registered, None)
  }

  /** A remote engine: from what the host says about itself, which includes no variant. */
  function RemoteFetch(host: Option<(string, string)>): Fetched {
    match host
    case None => Fetched(NO_TARGET, [], [], Some(HostUnreachable))
    case Some((os, arch)) => Fetched(Target(os, arch, ""), [os + "/" + arch], [], None)
  }

  /** What holds of everything that is fetched: one native platform, which spells the target, or an error. */
  predicate Coherent(f: Fetched) {
    if f.err.Some? then f.target == NO_TARGET && f.native == [] && f.emulated == []
    else f.native == [Spell(f.target)]
  }

  lemma FetchedIsCoherent(platform: string, norm: Normalizer, registered: seq<string>, host: Option<(string, string)>)
    ensures Coherent(LocalFetch(platform, norm, registered))
    ensures Coherent(RemoteFetch(host))
    ensures LocalFetch(platform, norm, registered).err.Some? <==> '/' !in platform
    ensures RemoteFetch(host).err.Some? <==> host.None?
  {
    match host {
      case None =>
      case Some((os, arch)) =>
        assert Spell(Target(os, arch, "")) == os + "/" + arch;
    }
  }

  lemma SplitNInOrder(a: string, b: string, n: nat)
    requires '/' !in a && n > 1
    ensures SplitN(a + "/" + b, n) == [a] + SplitN(b, n - 1)
  {
    IndexOfPrefix(a, '/', b);
    var s := a + "/" + b;
    assert s[..|a|] == a && s[|a| + 1..] == b;
  }

  /** The parts of a default platform are its os, its arch, and all that follows as its variant. */
  lemma SplitNParts(a: string, b: string, v: string)
    requires '/' !in a && '/' !in b
    ensures SplitN(a, 3) == [a] && SplitN(a + "/" + b, 3) == [a, b] && SplitN(a + "/" + b + "/" + v, 3) == [a, b, v]
  {
    assert IndexOf(a, '/') == |a| && IndexOf(b, '/') == |b|;
    SplitNInOrder(a, b, 3);
    assert a + "/" + b + "/" + v == a + "/" + (b + "/" + v);
    SplitNInOrder(a, b + "/" + v, 3);
    SplitNInOrder(b, v, 2);
  }

  /** The local engine's target is its default platform, normalised; its one native platform is that, spelled out. */
  lemma LocalFetchFinds(a: string, b: string, v: string, norm: Normalizer, registered: seq<string>)
    requires '/' !in a && '/' !in b
    ensures LocalFetch(a, norm, registered) == Fetched(Target("", "", ""), [], [], Some(UnparseablePlatform(a)))
    ensures var t := norm(Target(a, b, ""));
            LocalFetch(a + "/" + b, norm, registered)
            == Fetched(t, [if t.variant == "" then t.os + "/" + t.arch else t.os + "/" + t.arch + "/" + t.variant],
                       registered, None)
    ensures var t := norm(Target(a, b, v));
            LocalFetch(a + "/" + b + "/" + v, norm, registered)
            == Fetched(t, [if t.variant == "" then t.os + "/" + t.arch else t.os + "/" + t.arch + "/" + t.variant],
                       registered, None)
  {
    SplitNParts(a, b, v);
    hide SplitN;
    SpellingIs(norm(Target(a, b, "")));
    SpellingIs(norm(Target(a, b, v)));
  }

  lemma SpellingIs(t: Target)
    ensures Spell(t) == if t.variant == "" then t.os + "/" + t.arch else t.os + "/" + t.arch + "/" + t.variant
  {
    assert t.os + "/" + t.arch + ("/" + t.variant) == t.os + "/" + t.arch + "/" + t.variant;
    assert t.os + "/" + t.arch + "" == t.os + "/" + t.arch;
  }

  /** A remote engine's target is its host's, and nothing is emulated there. */
  lemma RemoteFetchFinds(os: string, arch: string)
    ensures RemoteFetch(Some((os, arch))).target.os == os && RemoteFetch(Some((os, arch))).target.arch == arch
    ensures RemoteFetch(Some((os, arch))).target.variant == ""
    ensures RemoteFetch(Some((os, arch))).native == [os + "/" + arch]
    ensures RemoteFetch(Some((os, arch))).emulated == [] && RemoteFetch(Some((os, arch))).err.None?
  {
  }

  // ---------------------------------------------------------------- reading a spelling back

  /** The os, arch and variant that a job takes from its platform, before they are normalised. */
  function RawTarget(platform: string): Target {
    var p := Split(platform);
    Target(p[0], if |p| > 1 then p[1] else "", if |p| > 2 then p[2] else "")
  }

  lemma SplitAtSlash(a: string, b: string)
    requires '/' !in a
    ensures Split(a + "/" + b) == [a] + Split(b)
  {
    IndexOfPrefix(a, '/', b);
    var s := a + "/" + b;
    assert s[..|a|] == a && s[|a| + 1..] == b;
  }

  lemma SplitWithoutSlash(a: string)
    requires '/' !in a
    ensures Split(a) == [a]
  {
    assert IndexOf(a, '/') == |a|;
  }

  /** A job takes from a spelled platform exactly what was spelled. */
  lemma SpellingRoundTrip(t: Target)
    requires '/' !in t.os && '/' !in t.arch && '/' !in t.variant
    ensures RawTarget(Spell(t)) == t
  {
    hide Split;
    if t.variant == "" {
      assert Spell(t) == t.os + "/" + t.arch;
      SplitAtSlash(t.os, t.arch);
      SplitWithoutSlash(t.arch);
    } else {
      assert Spell(t) == t.os + "/" + (t.arch + "/" + t.variant);
      SplitAtSlash(t.os, t.arch + "/" + t.variant);
      SplitAtSlash(t.arch, t.variant);
      SplitWithoutSlash(t.variant);
    }
  }

  /** Hence targets without slashes are told apart by their spelling. */
  lemma SpellingIsInjective(t: Target, u: Target)
    requires '/' !in t.os && '/' !in t.arch && '/' !in t.variant
    requires '/' !in u.os && '/' !in u.arch && '/' !in u.variant
    requires Spell(t) == Spell(u)
    ensures t == u
  {
    SpellingRoundTrip(t);
    SpellingRoundTrip(u);
  }

  /** Parts that are missing are empty, and what comes after the third part is left out. */
  lemma RawTargetOfParts(a: string, b: string, v: string, more: string)
    requires '/' !in a && '/' !in b && '/' !in v
    ensures RawTarget(a) == Target(a, "", "") && RawTarget(a + "/" + b) == Target(a, b, "")
    ensures RawTarget(a + "/" + b + "/" + v + "/" + more) == Target(a, b, v)
  {
    hide Split;
    SplitWithoutSlash(a);
    SplitAtSlash(a, b);
    SplitWithoutSlash(b);
    assert a + "/" + b + "/" + v + "/" + more == a + "/" + (b + "/" + (v + "/" + more));
    SplitAtSlash(a, b + "/" + (v + "/" + more));
    SplitAtSlash(b, v + "/" + more);
    SplitAtSlash(v, more);
  }
}
