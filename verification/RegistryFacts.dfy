/** What the walk over the registry, the parser and the table of headers say together. */
module RegistryFacts {
  import opened Wrappers
  import opened GoText
  import opened BinfmtParser
  import opened BinfmtText
  import opened ElfTable
  import opened BinfmtRegistry

  /** The entries that the parser rejects: enabled, and without flags, or with an F flag and not read in full. */
  predicate Breaks(e: Entry) {
    e.enabled && (e.flags == "" || ('F' in e.flags && (e.recognition.ByExtension? || e.recognition.offset > 127)))
  }

  lemma PrintedEntryFails(l: Layout, e: Entry)
    requires ValidLayout(l) && ValidEntry(e)
    ensures Meaning(Render(l, e)).Failed? <==> Breaks(e)
  {
    hide Meaning, Render, Line, Decimal;
    ParserRecoversEntry(l, e);
  }

  /** How the kernel prints each entry. */
  type Printed = map<string, (Layout, Entry)>

  /** All entries of the registry are as the kernel prints them. */
  ghost predicate IsPrinted(files: Registry, printed: Printed) {
    forall name :: name in files && IsEntry(name) ==>
      && name in printed && ValidLayout(printed[name].0) && ValidEntry(printed[name].1)
      && files[name] == Some(Render(printed[name].0, printed[name].1))
  }

  /**
   A registry that the kernel prints has a bad file exactly if its status is unknown or an entry breaks the parser.
   */
  lemma PrintedRegistryFails(files: Registry, printed: Printed)
    requires IsPrinted(files, printed)
    ensures AnyFails(files)
            <==> || ("status" in files && Fails("status", files["status"]))
                 || exists name :: name in files && IsEntry(name) && name in printed && Breaks(printed[name].1)
  {
    hide Meaning, Render, Breaks, TrimSpace;
    forall name | name in files && IsEntry(name)
      ensures name in printed && (Fails(name, files[name]) <==> Breaks(printed[name].1))
    {
      PrintedEntryFails(printed[name].0, printed[name].1);
    }
  }

  /** One such entry, among whatever other files, makes the whole registry count as empty. */
  lemma BreakingEntryHidesAll(files: Registry, name: string, l: Layout, e: Entry, r: seq<string>)
    requires name in files && IsEntry(name) && files[name] == Some(Render(l, e))
    requires ValidLayout(l) && ValidEntry(e) && Breaks(e)
    requires Reports(files, r)
    ensures r == []
  {
    hide Meaning, Render, Enabled, Breaks;
    PrintedEntryFails(l, e);
    assert Fails(name, files[name]);
  }

  /** An entry whose range covers bytes 4 to 19 is registered for at most one platform. */
  lemma CoveringEntryHasOnePlatform(name: string, content: Content, p: string, q: string)
    requires EntryFor(name, content, p) && EntryFor(name, content, q)
    requires var r := Meaning(content.value); r.offset <= 4 && 20 <= r.offset + |r.magic|
    ensures p == q
  {
    hide Meaning, StandsFor;
    var r := Meaning(content.value);
    KnownPlatformsDistinguishable();
    hide KNOWN_PLATFORMS;
    var i :| 0 <= i < |KNOWN_PLATFORMS| && KNOWN_PLATFORMS[i].platform == p
             && StandsFor(KNOWN_PLATFORMS[i], r.offset, r.mask, r.magic);
    var j :| 0 <= j < |KNOWN_PLATFORMS| && KNOWN_PLATFORMS[j].platform == q
             && StandsFor(KNOWN_PLATFORMS[j], r.offset, r.mask, r.magic);
    AtMostOnePlatform(KNOWN_PLATFORMS, i, j, r.offset, r.mask, r.magic);
  }
}
