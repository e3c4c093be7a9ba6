/**
 Walking the binfmt_misc registry. The registry is a directory with a `status` file, a `register` file that is
 skipped, and one file for each entry. The files are visited in some order, and for each entry the known platforms
 are gone through in some other order.
 */
module BinfmtRegistry {
  import opened Wrappers
  import opened GoText
  import opened GoSort
  import opened Orders
  import opened BinfmtParser
  import opened MaskedMagic
  import opened ElfTable
  import opened ElfCache

  /** What reading a file gives: its text, or nothing if it cannot be read. */
  type Content = Option<string>

  type Registry = map<string, Content>

  datatype WalkError =
    | Unreadable(name: string)
    | UnrecognizedStatus(status: string)
    | BadEntry(name: string, error: ParseError)

  // ---------------------------------------------------------------- what a registry says

  predicate IsEntry(name: string) {
    name != "register" && name != "status"
  }

  /** Visiting the file ends the walk with an error. */
  predicate Fails(name: string, content: Content) {
    && name != "register"
    && (content.None?
        || if name == "status" then TrimSpace(content.value) !in {"enabled", "disabled"}
           else Meaning(content.value).Failed?)
  }

  predicate Enables(name: string, content: Content) {
    name == "status" && content.Some? && TrimSpace(content.value) == "enabled"
  }

  /** One of the headers of the known platform p matches. */
  ghost predicate PlatformMatches(p: string, offset: nat, mask: seq<bv8>, magic: seq<bv8>) {
    exists i :: 0 <= i < |KNOWN_PLATFORMS| && KNOWN_PLATFORMS[i].platform == p
                && StandsFor(KNOWN_PLATFORMS[i], offset, mask, magic)
  }

  ghost predicate ActiveFor(r: ParseResult, p: string) {
    r.Parsed? && r.offset >= 0 && PlatformMatches(p, r.offset, r.mask, r.magic)
  }

  /** The file is an active entry that stands for platform p. */
  ghost predicate EntryFor(name: string, content: Content, p: string) {
    IsEntry(name) && content.Some? && ActiveFor(Meaning(content.value), p)
  }

  /** The visited files that are active entries for platform p. */
  ghost function EntriesFor(files: Registry, visited: set<string>, p: string): set<string> {
    set name | name in visited && name in files && EntryFor(name, files[name], p)
  }

  ghost predicate AnyFails(files: Registry) {
    exists name :: name in files && Fails(name, files[name])
  }

  predicate Enabled(files: Registry) {
    "status" in files && Enables("status", files["status"])
  }

  /**
   What a registry says about emulation: nothing if it is not enabled or if any file is bad; otherwise the sorted list
   in which every platform occurs once for each active entry that stands for it.
   */
  ghost predicate Reports(files: Registry, r: seq<string>) {
    if AnyFails(files) || !Enabled(files) then r == []
    else Sorted(r) && forall p :: multiset(r)[p] == |EntriesFor(files, files.Keys, p)|
  }

  // ---------------------------------------------------------------- the callback of the walk

  method AnyHeaderMatches(headers: seq<seq<bv8>>, offset: nat, mask: seq<bv8>, magic: seq<bv8>)
    returns (matched: bool)
    ensures matched <==> exists k :: 0 <= k < |headers| && Matches(headers[k], offset, mask, magic)
  {
    matched := false;
    for k := 0 to |headers|
      invariant forall j :: 0 <= j < k ==> !Matches(headers[j], offset, mask, magic)
    {
      matched := MagicMatch(headers[k], offset, mask, magic);
      if matched {
        break;
      }
    }
  }

  lemma MatchingPlatform(headers: map<string, seq<seq<bv8>>>, p: string, offset: nat, mask: seq<bv8>, magic: seq<bv8>)
    requires IsKnownHeaders(headers) && p in headers
    ensures (exists k :: 0 <= k < |headers[p]| && Matches(headers[p][k], offset, mask, magic))
            <==> PlatformMatches(p, offset, mask, magic)
  {
    hide HeadersOf, Matches, Generates;
    KnownPlatformsDistinguishable();
    hide KNOWN_PLATFORMS;
    var i :| 0 <= i < |KNOWN_PLATFORMS| && KNOWN_PLATFORMS[i].platform == p;
    assert headers[p] == HeadersOf(KNOWN_PLATFORMS[i]);
    forall h
      ensures h in headers[p] <==> Generates(KNOWN_PLATFORMS[i], h)
    {
      HeadersAreThoseGenerated(KNOWN_PLATFORMS[i], h);
    }
    if k :| 0 <= k < |headers[p]| && Matches(headers[p][k], offset, mask, magic) {
      assert headers[p][k] in headers[p];
      assert StandsFor(KNOWN_PLATFORMS[i], offset, mask, magic);
    }
    if PlatformMatches(p, offset, mask, magic) {
      assert StandsFor(KNOWN_PLATFORMS[i], offset, mask, magic);
      var h :| Generates(KNOWN_PLATFORMS[i], h) && Matches(h, offset, mask, magic);
      assert h in headers[p];
    }
  }

  lemma UnknownPlatform(headers: map<string, seq<seq<bv8>>>, p: string, offset: nat, mask: seq<bv8>, magic: seq<bv8>)
    requires IsKnownHeaders(headers) && p !in headers
    ensures !PlatformMatches(p, offset, mask, magic)
  {
    hide HeadersOf, KNOWN_PLATFORMS;
  }

  class Walk {
    var registered: seq<string>
    var globalEnabled: bool

    constructor ()
      ensures registered == [] && !globalEnabled
    {
      registered, globalEnabled := [], false;
    }

    /** Registers every platform with a matching header once, going through the map in any order. */
    method RegisterMatches(headers: map<string, seq<seq<bv8>>>, offset: nat, mask: seq<bv8>, magic: seq<bv8>)
      requires IsKnownHeaders(headers)
      modifies this
      ensures globalEnabled == old(globalEnabled)
      ensures forall p :: multiset(registered)[p] ==
                          old(multiset(registered)[p]) + if PlatformMatches(p, offset, mask, magic) then 1 else 0
    {
      hide PlatformMatches, IsKnownHeaders, Matches;
      var remaining := headers.Keys;
      while remaining != {}
        invariant remaining <= headers.Keys && globalEnabled == old(globalEnabled)
        invariant forall p :: multiset(registered)[p] == old(multiset(registered)[p])
                              + if p in headers.Keys - remaining
                                        && PlatformMatches(p, offset, mask, magic) then 1 else 0
        decreases remaining
      {
        var platform :| platform in remaining;
        var matched := AnyHeaderMatches(headers[platform], offset, mask, magic);
        MatchingPlatform(headers, platform, offset, mask, magic);
        if matched {
          registered := registered + [platform];
        }
        remaining := remaining - {platform};
      }
      forall p | p !in headers
        ensures !PlatformMatches(p, offset, mask, magic)
      {
        UnknownPlatform(headers, p, offset, mask, magic);
      }
    }

    /** Visits one file. An error ends the walk and leaves everything as it was. */
    method Visit(name: string, content: Content, cache: HeaderCache) returns (err: Option<WalkError>)
      requires cache.Valid()
      modifies this, cache
      ensures cache.Valid()
      ensures err.Some? <==> Fails(name, content)
      ensures err.Some? ==> registered == old(registered) && globalEnabled == old(globalEnabled)
      ensures err.None? ==> globalEnabled == if name == "status" then Enables(name, content) else old(globalEnabled)
      ensures err.None? ==> forall p :: multiset(registered)[p] ==
                                        old(multiset(registered)[p]) + if EntryFor(name, content, p) then 1 else 0
    {
      hide Meaning, PlatformMatches, IsKnownHeaders, KNOWN_PLATFORMS, TrimSpace;
      if name == "register" {
        return None;
      }
      if content.None? {
        return Some(Unreadable(name));
      }
      if name == "status" {
        var status := TrimSpace(content.value);
        if status == "disabled" {
          globalEnabled := false;
        } else if status == "enabled" {
          globalEnabled := true;
        } else {
          return Some(UnrecognizedStatus(status));
        }
        return None;
      }
      var entry := ParseBinfmtMisc(content.value);
      if entry.Failed? {
        return Some(BadEntry(name, entry.error));
      }
      if entry.offset < 0 {
        return None;
      }
      var headers := cache.Get();
      RegisterMatches(headers, entry.offset, entry.mask, entry.magic);
      return None;
    }
  }

  // ---------------------------------------------------------------- the walk

  /** How many files are visited before one that is bad. */
  function GoodPrefix(files: Registry, order: seq<string>): (n: nat)
    requires forall k :: 0 <= k < |order| ==> order[k] in files
    ensures n <= |order|
    ensures forall k :: 0 <= k < n ==> !Fails(order[k], files[order[k]])
    ensures n < |order| ==> Fails(order[n], files[order[n]])
  {
    if order == [] || Fails(order[0], files[order[0]]) then 0 else 1 + GoodPrefix(files, order[1..])
  }

  function Visited(order: seq<string>, n: nat): set<string>
    requires n <= |order|
  {
    set k | 0 <= k < n :: order[k]
  }

  lemma VisitedGrows(order: seq<string>, n: nat, members: set<string>)
    requires Enumerates(order, members) && n < |order|
    ensures Visited(order, n + 1) == Visited(order, n) + {order[n]} && order[n] !in Visited(order, n)
  {
  }

  lemma VisitedAll(order: seq<string>, members: set<string>)
    requires Enumerates(order, members)
    ensures Visited(order, |order|) == members
  {
    forall x | x in members
      ensures x in Visited(order, |order|)
    {
      var k :| 0 <= k < |order| && order[k] == x;
    }
  }

  lemma OneMoreFile(files: Registry, visited: set<string>, name: string, p: string)
    requires name in files && name !in visited
    ensures |EntriesFor(files, visited + {name}, p)|
            == |EntriesFor(files, visited, p)| + if EntryFor(name, files[name], p) then 1 else 0
  {
    hide EntryFor;
    var was, now := EntriesFor(files, visited, p), EntriesFor(files, visited + {name}, p);
    if EntryFor(name, files[name], p) {
      assert now == was + {name};
    } else {
      assert now == was;
    }
  }

  /** The registered platforms are those of the visited files, each once for every entry. */
  ghost predicate Counted(files: Registry, visited: set<string>, registered: seq<string>) {
    forall p :: multiset(registered)[p] == |EntriesFor(files, visited, p)|
  }

  /** The walk visits the files in order, and stops at the first bad one. */
  method WalkFiles(files: Registry, order: seq<string>, cache: HeaderCache) returns (walk: Walk, err: Option<WalkError>)
    requires Enumerates(order, files.Keys) && cache.Valid()
    modifies cache
    ensures cache.Valid() && fresh(walk)
    ensures var n := GoodPrefix(files, order);
            && (err.Some? <==> n < |order|)
            && (walk.globalEnabled <==> "status" in Visited(order, n) && Enabled(files))
            && Counted(files, Visited(order, n), walk.registered)
  {
    hide Fails, Enables, EntryFor, EntriesFor, HeaderCache.Valid;
    walk := new Walk();
    err := None;
    var n := 0;
    NoneVisited(files, order);
    while n < |order|
      invariant n <= |order| && n <= GoodPrefix(files, order)
      invariant err.None? && cache.Valid()
      invariant walk.globalEnabled <==> "status" in Visited(order, n) && Enabled(files)
      invariant Counted(files, Visited(order, n), walk.registered)
    {
      var name := order[n];
      ghost var was := walk.registered;
      VisitedGrows(order, n, files.Keys);
      err := walk.Visit(name, files[name], cache);
      if err.Some? {
        break;
      }
      forall p
        ensures multiset(walk.registered)[p] == |EntriesFor(files, Visited(order, n + 1), p)|
      {
        OneMoreFile(files, Visited(order, n), name, p);
        assert multiset(was)[p] == |EntriesFor(files, Visited(order, n), p)|;
      }
      n := n + 1;
    }
  }

  /**
   Unless the status file was visited before the first bad file and says `enabled`, the error is dropped together with
   everything registered. For the lexical order of the walk, that is a matter of the names of the bad files.
   */
  method RegisteredBinfmtMisc(files: Registry, order: seq<string>, cache: HeaderCache)
    returns (list: seq<string>, err: Option<WalkError>)
    requires Enumerates(order, files.Keys) && cache.Valid()
    modifies cache
    ensures cache.Valid()
    ensures var n := GoodPrefix(files, order);
            var enabled := "status" in Visited(order, n) && Enabled(files);
            && (err.Some? <==> n < |order| && enabled)
            && (!enabled ==> list == [])
            && (enabled ==> Sorted(list) && Counted(files, Visited(order, n), list))
    ensures Sorted(order) ==> (err.Some? <==> Enabled(files) && BadOnlyAfterStatus(files))
  {
    if Sorted(order) && Enabled(files) {
      ErrorSurfacesIffAfterStatus(files, order);
    }
    hide Fails, Enabled, EntryFor, EntriesFor, HeaderCache.Valid, BadOnlyAfterStatus, Sorted, Visited;
    var walk;
    walk, err := WalkFiles(files, order, cache);
    if !walk.globalEnabled {
      return [], None;
    }
    list := SortStrings(walk.registered);
    SortStringsSorted(walk.registered);
  }

  /** Some file is bad, and the status file comes before all that are. */
  ghost predicate BadOnlyAfterStatus(files: Registry) {
    && AnyFails(files)
    && forall name :: name in files && Fails(name, files[name]) ==> !LessEq(name, "status")
  }

  /** The walk goes through the names in lexical order, so that decides whether an error is noticed or dropped. */
  lemma ErrorSurfacesIffAfterStatus(files: Registry, order: seq<string>)
    requires Enumerates(order, files.Keys) && Sorted(order) && Enabled(files)
    ensures var n := GoodPrefix(files, order);
            n < |order| && "status" in Visited(order, n) <==> BadOnlyAfterStatus(files)
  {
    hide Fails;
    var n := GoodPrefix(files, order);
    GoodPrefixFacts(files, order);
    assert "status" in order;
    var j :| 0 <= j < |order| && order[j] == "status";
    Reflexive("status");
    hide LessEq;
    if n < |order| && j < n {
      forall name | name in files && Fails(name, files[name])
        ensures !LessEq(name, "status")
      {
        assert name in order;
        var k :| 0 <= k < |order| && order[k] == name;
        if LessEq(name, "status") {
          Antisymmetric(name, "status");
        }
      }
    }
  }

  lemma NoneVisited(files: Registry, order: seq<string>)
    ensures Visited(order, 0) == {} && Counted(files, {}, [])
  {
    forall p
      ensures EntriesFor(files, {}, p) == {}
    {
    }
  }

  /** The list of platforms for which emulation seems to be available. */
  method Registered(files: Registry, order: seq<string>, cache: HeaderCache) returns (list: seq<string>)
    requires Enumerates(order, files.Keys) && cache.Valid()
    modifies cache
    ensures cache.Valid() && Reports(files, list)
  {
    hide Fails, Enables, EntryFor, EntriesFor, HeaderCache.Valid;
    var binfmt, err := RegisteredBinfmtMisc(files, order, cache);
    GoodPrefixFacts(files, order);
    if err.Some? {
      return [];
    }
    list := binfmt;
  }

  lemma GoodPrefixFacts(files: Registry, order: seq<string>)
    requires Enumerates(order, files.Keys)
    ensures GoodPrefix(files, order) < |order| <==> AnyFails(files)
    ensures Visited(order, |order|) == files.Keys
  {
    hide Fails;
    VisitedAll(order, files.Keys);
    if AnyFails(files) {
      var name :| name in files && Fails(name, files[name]);
      assert name in order;
      var k :| 0 <= k < |order| && order[k] == name;
    }
  }

  // ---------------------------------------------------------------- what follows

  /** What a registry says is one list: it depends on the files alone. */
  lemma ReportIsUnique(files: Registry, r: seq<string>, r': seq<string>)
    requires Reports(files, r) && Reports(files, r')
    ensures r == r'
  {
    hide AnyFails, EntriesFor;
    if !AnyFails(files) && Enabled(files) {
      assert multiset(r) == multiset(r');
      SortedIsUnique(r, r');
    }
  }
}
