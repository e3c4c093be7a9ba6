/** The table of platforms and the usual registry entries, byte by byte. */
module KnownEntries {
  import opened Wrappers
  import opened GoText
  import opened GoSort
  import opened Bytes
  import opened Elf
  import opened ElfLayout
  import opened ElfTable
  import opened MaskedMagic
  import opened BinfmtParser
  import opened BinfmtText
  import opened BinfmtRegistry
  import opened RegistryFacts

  // ---------------------------------------------------------------- the table

  /** What the gABI has for a platform: its class and data encoding, and its machine number as it stands in the file. */
  datatype Standard = Standard(
    platform: string, cls: bv8, data: bv8, machine: seq<bv8>, alsoNone: bool, flags: seq<bv32>)

  const STANDARDS: seq<Standard> := [
    Standard("linux/386", 1, 1, [3, 0], true, [0]),
    Standard("linux/amd64", 2, 1, [62, 0], true, [0]),
    Standard("linux/arm", 1, 1, [40, 0], false, [0]),
    Standard("linux/arm64", 2, 1, [183, 0], false, [0]),
    Standard("linux/arm64be", 2, 2, [0, 183], false, [0]),
    Standard("linux/loong64", 2, 1, [2, 1], false, [0]),
    Standard("linux/mips", 1, 2, [0, 8], false, [0, 2]),
    Standard("linux/mipsle", 1, 1, [10, 0], false, [0, 2]),
    Standard("linux/mips64", 2, 2, [0, 8], false, [0, 2]),
    Standard("linux/mips64le", 2, 1, [10, 0], false, [0, 2]),
    Standard("linux/ppc", 1, 2, [0, 20], false, [0]),
    Standard("linux/ppc64", 2, 2, [0, 21], false, [0]),
    Standard("linux/ppc64le", 2, 1, [21, 0], false, [0]),
    Standard("linux/riscv32", 1, 1, [243, 0], false, [0]),
    Standard("linux/riscv64", 2, 1, [243, 0], false, [0]),
    Standard("linux/s390x", 2, 2, [0, 22], false, [0])
  ]

  /** The row is that of the standard, with two OSABI values, none and Linux. */
  predicate FollowsStandard(e: ElfPlatform, s: Standard) {
    && e.platform == s.platform && e.cls == s.cls && e.data == s.data && e.alsoNone == s.alsoNone
    && ByteOrder(e.data).Some? && U16Bytes(ByteOrder(e.data).value, e.machine) == s.machine
    && Osabis(e) == [0, 3] && Flags(e) == s.flags
  }

  lemma RowsFollowStandards(i: nat)
    requires i < |KNOWN_PLATFORMS|
    ensures |STANDARDS| == |KNOWN_PLATFORMS| && FollowsStandard(KNOWN_PLATFORMS[i], STANDARDS[i])
  {
    MachineNumbers();
    hide U16Bytes;
    if i < 8 {
      FirstRows(i);
    } else {
      LastRows(i);
    }
  }

  lemma FirstRows(i: nat)
    requires i < 8 && MachineNumbersHold()
    ensures |STANDARDS| == |KNOWN_PLATFORMS| == 16 && FollowsStandard(KNOWN_PLATFORMS[i], STANDARDS[i])
  {
    hide U16Bytes;
  }

  lemma LastRows(i: nat)
    requires 8 <= i < 16 && MachineNumbersHold()
    ensures |STANDARDS| == |KNOWN_PLATFORMS| == 16 && FollowsStandard(KNOWN_PLATFORMS[i], STANDARDS[i])
  {
    hide U16Bytes;
  }

  predicate MachineNumbersHold() {
    && U16Bytes(Little, 3) == [3, 0] && U16Bytes(Little, 62) == [62, 0] && U16Bytes(Little, 40) == [40, 0]
    && U16Bytes(Little, 183) == [183, 0] && U16Bytes(Little, 258) == [2, 1] && U16Bytes(Little, 10) == [10, 0]
    && U16Bytes(Little, 21) == [21, 0] && U16Bytes(Little, 243) == [243, 0]
    && U16Bytes(Big, 183) == [0, 183] && U16Bytes(Big, 8) == [0, 8] && U16Bytes(Big, 20) == [0, 20]
    && U16Bytes(Big, 21) == [0, 21] && U16Bytes(Big, 22) == [0, 22]
  }

  lemma MachineNumbers()
    ensures MachineNumbersHold()
  {
  }

  /** Every header generated for a platform has the numbers of the gABI for that platform. */
  lemma HeadersAreStandard(i: nat, h: seq<bv8>)
    requires i < |KNOWN_PLATFORMS| && Generates(KNOWN_PLATFORMS[i], h)
    ensures |STANDARDS| == |KNOWN_PLATFORMS| && KNOWN_PLATFORMS[i].platform == STANDARDS[i].platform && |h| == 40
    ensures h[..4] == [0x7f, 0x45, 0x4c, 0x46] && h[4] == STANDARDS[i].cls && h[18..20] == STANDARDS[i].machine
    ensures h[5] == STANDARDS[i].data || (STANDARDS[i].alsoNone && h[5] == 0)
    ensures h[6] == (if h[5] == 0 then 0 else 1) && (h[7] == 0 || h[7] == 3)
    ensures h[16..18] == if STANDARDS[i].data == 1 then [2, 0] else [0, 2]
  {
    RowsFollowStandards(i);
    hide KNOWN_PLATFORMS, STANDARDS;
    StandardHeader(KNOWN_PLATFORMS[i], STANDARDS[i], h);
  }

  lemma StandardHeader(e: ElfPlatform, s: Standard, h: seq<bv8>)
    requires FollowsStandard(e, s) && Generates(e, h)
    ensures |h| == 40 && h[..4] == [0x7f, 0x45, 0x4c, 0x46] && h[4] == s.cls && h[18..20] == s.machine
    ensures h[5] == s.data || (s.alsoNone && h[5] == 0)
    ensures h[6] == (if h[5] == 0 then 0 else 1) && (h[7] == 0 || h[7] == 3)
    ensures h[16..18] == if s.data == 1 then [2, 0] else [0, 2]
  {
    var endian := ByteOrder(e.data).value;
    var c :| c in Choices(e) && h == HeaderBytes(e, endian, c);
    HeaderFields(e, endian, c);
    ChoicesFrom(e, |Osabis(e)|, c);
    ExecutableBytes();
    hide HeaderBytes, Choices;
  }

  lemma ExecutableBytes()
    ensures U16Bytes(Little, ET_EXEC) == [2, 0] && U16Bytes(Big, ET_EXEC) == [0, 2]
  {
  }

  // ---------------------------------------------------------------- the usual entries

  /**
   A usual entry for one platform: the class and data encoding, the last four of its 20 bytes, and how much of them and
   of the encoding and version is masked out.
   */
  datatype Vector = Vector(platform: string, cls: bv8, data: bv8, identMask: bv8, tail: seq<bv8>, tailMask: seq<bv8>)

  const VECTORS: seq<Vector> := [
    Vector("linux/386", 1, 1, 0xfe, [2, 0, 3, 0], [0xfe, 0xff, 0xff, 0xff]),
    Vector("linux/amd64", 2, 1, 0xfe, [2, 0, 0x3e, 0], [0xfe, 0xff, 0xff, 0xff]),
    Vector("linux/arm", 1, 1, 0xff, [2, 0, 0x28, 0], [0xfe, 0xff, 0xff, 0xff]),
    Vector("linux/arm64", 2, 1, 0xff, [2, 0, 0xb7, 0], [0xfe, 0xff, 0xff, 0xff]),
    Vector("linux/ppc64le", 2, 1, 0xff, [2, 0, 0x15, 0], [0xfe, 0xff, 0xff, 0]),
    Vector("linux/s390x", 2, 2, 0xff, [0, 2, 0, 0x16], [0xff, 0xfe, 0xff, 0xff])
  ]

  function MagicOf(v: Vector): seq<bv8> {
    [0x7f, 0x45, 0x4c, 0x46, v.cls, v.data, 1, 0] + [0, 0, 0, 0, 0, 0, 0, 0] + v.tail
  }

  function MaskOf(v: Vector): seq<bv8> {
    [0xff, 0xff, 0xff, 0xff, 0xff, v.identMask, v.identMask, 0]
    + [0xff, 0xff, 0xff, 0xff, 0xff, 0xff, 0xff, 0xff] + v.tailMask
  }

  /** The row of the table for each of these entries. */
  function RowFor(i: nat): nat
    requires i < |VECTORS|
  {
    if i < 4 then i else if i == 4 then 12 else 15
  }

  /** The last 4 of the first 20 bytes of a header. */
  function Tail(s: Standard): seq<bv8> {
    (if s.data == 1 then [2, 0] else [0, 2]) + s.machine
  }

  /** The first 20 bytes of a header without OSABI: with the encoding and the version, or without. */
  function Prefix(s: Standard, none: bool): seq<bv8> {
    [0x7f, 0x45, 0x4c, 0x46, s.cls, if none then 0 else s.data, if none then 0 else 1, 0] + [0, 0, 0, 0, 0, 0, 0, 0]
    + Tail(s)
  }

  lemma FirstHeaders(e: ElfPlatform, s: Standard, none: bool)
    requires FollowsStandard(e, s) && (none ==> s.alsoNone) && |s.flags| > 0 && |Tail(s)| == 4
    ensures exists h :: Generates(e, h) && |h| == HEADER_SIZE && h[..20] == Prefix(s, none)
  {
    var c := Choice(0, Flags(e)[0], none);
    HeaderListShape(e, 0, 0, if none then 1 else 0);
    assert c in Choices(e);
    var h := HeaderBytes(e, ByteOrder(e.data).value, c);
    assert Generates(e, h);
    hide HeaderBytes, Choices, Prefix;
    FirstBytes(e, s, c);
  }

  lemma FirstBytes(e: ElfPlatform, s: Standard, c: Choice)
    requires FollowsStandard(e, s) && c.abi == 0 && |Tail(s)| == 4
    ensures HeaderBytes(e, ByteOrder(e.data).value, c)[..20] == Prefix(s, c.none)
  {
    var h := HeaderBytes(e, ByteOrder(e.data).value, c);
    HeaderFields(e, ByteOrder(e.data).value, c);
    ExecutableBytes();
    hide HeaderBytes, U16Bytes;
    TwentyBytes(h);
    assert Zeros(8) == [0, 0, 0, 0, 0, 0, 0, 0];
  }

  lemma TwentyBytes(h: seq<bv8>)
    requires |h| == HEADER_SIZE
    ensures h[..20] == h[..4] + [h[4], h[5], h[6], h[7]] + h[8..16] + h[16..18] + h[18..20]
  {
  }

  /** What a byte of a magic value becomes under one of the masks in use. */
  predicate Fits(mask: bv8, magic: bv8, expected: bv8) {
    || (mask == 0xff && expected == magic)
    || (mask == 0 && expected == 0)
    || (mask == 0xfe && ((magic == 1 && expected == 0) || (magic == 2 && expected == 2)))
  }

  lemma FitsIsMasked(mask: bv8, magic: bv8, expected: bv8)
    requires Fits(mask, magic, expected)
    ensures magic & mask == expected
  {
  }

  /** The entry is for headers that begin in this way: with the encoding masked out, or with it. */
  predicate FitsStandard(v: Vector, s: Standard, none: bool) {
    && v.platform == s.platform && v.cls == s.cls && |v.tail| == |v.tailMask| == |Tail(s)| == 4
    && (if none then v.identMask == 0xfe && v.data == 1 else v.identMask == 0xff && v.data == s.data)
    && Fits(v.tailMask[0], v.tail[0], Tail(s)[0]) && Fits(v.tailMask[1], v.tail[1], Tail(s)[1])
    && Fits(v.tailMask[2], v.tail[2], Tail(s)[2]) && Fits(v.tailMask[3], v.tail[3], Tail(s)[3])
  }

  lemma VectorFits(i: nat)
    requires i < |VECTORS|
    ensures RowFor(i) < |STANDARDS| == |KNOWN_PLATFORMS|
    ensures FitsStandard(VECTORS[i], STANDARDS[RowFor(i)], i < 2)
    ensures |STANDARDS[RowFor(i)].flags| > 0 && (i < 2 ==> STANDARDS[RowFor(i)].alsoNone)
  {
    if i < 2 {
      IntelFits(i);
    } else if i < 4 {
      ArmFits(i);
    } else {
      OthersFit(i);
    }
    hide KNOWN_PLATFORMS, FitsStandard;
  }

  lemma IntelFits(i: nat)
    requires i < 2
    ensures |STANDARDS| == 16 && FitsStandard(VECTORS[i], STANDARDS[i], true)
  {
  }

  lemma ArmFits(i: nat)
    requires 2 <= i < 4
    ensures |STANDARDS| == 16 && FitsStandard(VECTORS[i], STANDARDS[i], false)
  {
  }

  lemma OthersFit(i: nat)
    requires 4 <= i < 6
    ensures |STANDARDS| == 16 && FitsStandard(VECTORS[i], STANDARDS[RowFor(i)], false)
  {
  }

  /** The masked magic value of each entry is what a header of its platform begins with. */
  lemma VectorBytes(v: Vector, s: Standard, none: bool, k: nat)
    requires FitsStandard(v, s, none) && k < 20
    ensures |MagicOf(v)| == |MaskOf(v)| == |Prefix(s, none)| == 20
    ensures Expected(MaskOf(v), MagicOf(v), k) == Prefix(s, none)[k]
  {
    hide Tail;
    assert Fits(MaskOf(v)[k], MagicOf(v)[k], Prefix(s, none)[k]) by {
      if k >= 16 {
        assert Fits(v.tailMask[k - 16], v.tail[k - 16], Tail(s)[k - 16]);
      }
    }
    hide Fits, MagicOf, MaskOf, Prefix;
    FitsIsMasked(MaskOf(v)[k], MagicOf(v)[k], Prefix(s, none)[k]);
  }

  lemma PrefixMatches(h: seq<bv8>, v: Vector, prefix: seq<bv8>)
    requires |h| == HEADER_SIZE && |MagicOf(v)| == 20 && |prefix| == 20 && h[..20] == prefix
    requires forall k: nat :: k < 20 ==> Expected(MaskOf(v), MagicOf(v), k) == prefix[k]
    ensures Matches(h, 0, MaskOf(v), MagicOf(v))
  {
    forall k | 0 <= k < |MagicOf(v)|
      ensures h[0 + k] == Expected(MaskOf(v), MagicOf(v), k)
    {
      assert h[k] == h[..20][k];
    }
  }

  /** Each of these entries stands for its own platform, and for no other. */
  lemma VectorsStandForTheirPlatforms(i: nat, p: string)
    requires i < |VECTORS|
    ensures PlatformMatches(p, 0, MaskOf(VECTORS[i]), MagicOf(VECTORS[i])) <==> p == VECTORS[i].platform
  {
    OwnPlatformMatches(i);
    if PlatformMatches(p, 0, MaskOf(VECTORS[i]), MagicOf(VECTORS[i])) {
      OnlyPlatform(MaskOf(VECTORS[i]), MagicOf(VECTORS[i]), p, VECTORS[i].platform);
    }
  }

  lemma OnlyPlatform(mask: seq<bv8>, magic: seq<bv8>, p: string, q: string)
    requires |magic| == 20 && PlatformMatches(p, 0, mask, magic) && PlatformMatches(q, 0, mask, magic)
    ensures p == q
  {
    hide StandsFor;
    KnownPlatformsDistinguishable();
    hide KNOWN_PLATFORMS;
    var i :| 0 <= i < |KNOWN_PLATFORMS| && KNOWN_PLATFORMS[i].platform == p
             && StandsFor(KNOWN_PLATFORMS[i], 0, mask, magic);
    var j :| 0 <= j < |KNOWN_PLATFORMS| && KNOWN_PLATFORMS[j].platform == q
             && StandsFor(KNOWN_PLATFORMS[j], 0, mask, magic);
    AtMostOnePlatform(KNOWN_PLATFORMS, i, j, 0, mask, magic);
  }

  lemma OwnPlatformMatches(i: nat)
    requires i < |VECTORS|
    ensures PlatformMatches(VECTORS[i].platform, 0, MaskOf(VECTORS[i]), MagicOf(VECTORS[i]))
    ensures |MagicOf(VECTORS[i])| == |MaskOf(VECTORS[i])| == 20
  {
    VectorFits(i);
    var row, none := RowFor(i), i < 2;
    RowsFollowStandards(row);
    hide KNOWN_PLATFORMS, STANDARDS, VECTORS;
    var v, s := VECTORS[i], STANDARDS[row];
    FirstHeaders(KNOWN_PLATFORMS[row], s, none);
    VectorBytes(v, s, none, 0);
    forall k: nat | k < 20
      ensures Expected(MaskOf(v), MagicOf(v), k) == Prefix(s, none)[k]
    {
      VectorBytes(v, s, none, k);
    }
    hide Prefix, Expected, MagicOf, MaskOf;
    var h :| Generates(KNOWN_PLATFORMS[row], h) && |h| == HEADER_SIZE && h[..20] == Prefix(s, none);
    PrefixMatches(h, v, Prefix(s, none));
    assert StandsFor(KNOWN_PLATFORMS[row], 0, MaskOf(v), MagicOf(v));
  }

  // ---------------------------------------------------------------- a whole registry

  /** A status text between white space: what it does, and whether it is known at all. */
  lemma StatusDecides(a: string, w: string, b: string)
    requires AllSpace(a) && IsWord(w) && AllSpace(b)
    ensures Fails("status", Some(a + w + b)) <==> w != "enabled" && w != "disabled"
    ensures Enables("status", Some(a + w + b)) <==> w == "enabled"
  {
    TrimSpaceBothEnds(a, w, b);
    assert "status" != "register" by {
      assert |"status"| != |"register"|;
    }
    hide TrimSpace, Meaning;
  }

  /** An enabled registry entry for one of the usual platforms. */
  datatype UsualEntry = UsualEntry(layout: Layout, interpreter: string, flags: string, which: nat)

  predicate IsUsual(u: UsualEntry) {
    && ValidLayout(u.layout) && '\n' !in u.interpreter && IsWord(u.flags) && 'F' in u.flags && u.which < |VECTORS|
  }

  function TextOf(u: UsualEntry): string
    requires u.which < |VECTORS|
  {
    Render(u.layout, Entry(true, u.interpreter, u.flags,
                           ByMagic(0, MagicOf(VECTORS[u.which]), Some(MaskOf(VECTORS[u.which])))))
  }

  lemma UsualEntryIsRead(u: UsualEntry)
    requires IsUsual(u)
    ensures Meaning(TextOf(u)) == Parsed(0, MagicOf(VECTORS[u.which]), MaskOf(VECTORS[u.which]))
  {
    OwnPlatformMatches(u.which);
    hide VECTORS, MagicOf, MaskOf;
    ParserRecoversEntry(u.layout, Entry(true, u.interpreter, u.flags,
                                        ByMagic(0, MagicOf(VECTORS[u.which]), Some(MaskOf(VECTORS[u.which])))));
    hide Meaning, Render;
  }

  /** All files other than `register` and `status` are usual entries. */
  ghost predicate OnlyUsual(files: Registry, usual: map<string, UsualEntry>) {
    forall name :: name in files && name != "register" && name != "status" ==>
      name in usual && IsUsual(usual[name]) && files[name] == Some(TextOf(usual[name]))
  }

  lemma UsualFile(files: Registry, usual: map<string, UsualEntry>, name: string, p: string)
    requires OnlyUsual(files, usual) && name in files && name != "register" && name != "status"
    ensures !Fails(name, files[name])
    ensures EntryFor(name, files[name], p) <==> VECTORS[usual[name].which].platform == p
  {
    UsualEntryIsRead(usual[name]);
    VectorsStandForTheirPlatforms(usual[name].which, p);
    hide Meaning, TextOf, PlatformMatches, VECTORS;
  }

  /**
   An enabled registry of usual entries: each platform is reported once for every entry that is its own, in order, and
   nothing else is. What `register` holds does not matter, and neither does white space around the status.
   */
  lemma UsualRegistryIsReported(files: Registry, usual: map<string, UsualEntry>, a: string, b: string, r: seq<string>)
    requires AllSpace(a) && AllSpace(b) && "status" in files && files["status"] == Some(a + "enabled" + b)
    requires OnlyUsual(files, usual) && Reports(files, r)
    ensures Sorted(r)
    ensures forall p :: multiset(r)[p] ==
              |set name | name in files && name != "register" && name != "status"
                          && VECTORS[usual[name].which].platform == p|
  {
    EnabledIsAWord();
    StatusDecides(a, "enabled", b);
    forall name | name in files
      ensures !Fails(name, files[name])
    {
      if name != "register" && name != "status" {
        UsualFile(files, usual, name, "");
      }
    }
    hide Fails, Enables, VECTORS, TextOf, IsUsual;
    forall p
      ensures EntriesFor(files, files.Keys, p) ==
              set name | name in files && name != "register" && name != "status"
                         && VECTORS[usual[name].which].platform == p
    {
      forall name | name in files && name != "register" && name != "status"
        ensures EntryFor(name, files[name], p) <==> VECTORS[usual[name].which].platform == p
      {
        UsualFile(files, usual, name, p);
      }
    }
  }

  lemma EnabledIsAWord()
    ensures IsWord("enabled")
  {
    assert "enabled" == ['e', 'n', 'a', 'b', 'l', 'e', 'd'];
  }

  /** If the status is not there, cannot be read, or is anything but enabled, nothing is reported. */
  lemma NotEnabledReportsNothing(files: Registry, a: string, w: string, b: string, r: seq<string>)
    requires AllSpace(a) && IsWord(w) && AllSpace(b) && w != "enabled" && Reports(files, r)
    requires "status" in files ==> files["status"] == None || files["status"] == Some(a + w + b)
    ensures r == []
  {
    StatusDecides(a, w, b);
    hide Fails, TrimSpace;
  }

  /** A file that cannot be read makes the whole registry count as empty, unless it is the one that is skipped. */
  lemma UnreadableFileHidesAll(files: Registry, name: string, r: seq<string>)
    requires name in files && name != "register" && files[name] == None && Reports(files, r)
    ensures r == []
  {
    assert Fails(name, files[name]);
    hide Fails;
  }
}
