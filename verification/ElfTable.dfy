/** The table of known platforms, and which of them one registry entry can stand for. */
module ElfTable {
  import opened Bytes
  import opened Elf
  import opened ElfLayout
  import opened MaskedMagic

  const BOTH_ABIS: seq<bv8> := [ELFOSABI_NONE, ELFOSABI_LINUX]
  const PIC_OR_NOT: seq<bv32> := [0, 2]

  const EM_386: bv16 := 3
  const EM_MIPS: bv16 := 8
  const EM_MIPS_RS3_LE: bv16 := 10
  const EM_PPC: bv16 := 20
  const EM_PPC64: bv16 := 21
  const EM_S390: bv16 := 22
  const EM_ARM: bv16 := 40
  const EM_X86_64: bv16 := 62
  const EM_AARCH64: bv16 := 183
  const EM_RISCV: bv16 := 243
  const EM_LOONGARCH: bv16 := 258

  const KNOWN_PLATFORMS: seq<ElfPlatform> := [
    ElfPlatform("linux/386", BOTH_ABIS, ELFCLASS32, ELFDATA2LSB, true, EM_386, []),
    ElfPlatform("linux/amd64", BOTH_ABIS, ELFCLASS64, ELFDATA2LSB, true, EM_X86_64, []),
    ElfPlatform("linux/arm", BOTH_ABIS, ELFCLASS32, ELFDATA2LSB, false, EM_ARM, []),
    ElfPlatform("linux/arm64", BOTH_ABIS, ELFCLASS64, ELFDATA2LSB, false, EM_AARCH64, []),
    ElfPlatform("linux/arm64be", BOTH_ABIS, ELFCLASS64, ELFDATA2MSB, false, EM_AARCH64, []),
    ElfPlatform("linux/loong64", BOTH_ABIS, ELFCLASS64, ELFDATA2LSB, false, EM_LOONGARCH, []),
    ElfPlatform("linux/mips", BOTH_ABIS, ELFCLASS32, ELFDATA2MSB, false, EM_MIPS, PIC_OR_NOT),
    ElfPlatform("linux/mipsle", BOTH_ABIS, ELFCLASS32, ELFDATA2LSB, false, EM_MIPS_RS3_LE, PIC_OR_NOT),
    ElfPlatform("linux/mips64", BOTH_ABIS, ELFCLASS64, ELFDATA2MSB, false, EM_MIPS, PIC_OR_NOT),
    ElfPlatform("linux/mips64le", BOTH_ABIS, ELFCLASS64, ELFDATA2LSB, false, EM_MIPS_RS3_LE, PIC_OR_NOT),
    ElfPlatform("linux/ppc", BOTH_ABIS, ELFCLASS32, ELFDATA2MSB, false, EM_PPC, []),
    ElfPlatform("linux/ppc64", BOTH_ABIS, ELFCLASS64, ELFDATA2MSB, false, EM_PPC64, []),
    ElfPlatform("linux/ppc64le", BOTH_ABIS, ELFCLASS64, ELFDATA2LSB, false, EM_PPC64, []),
    ElfPlatform("linux/riscv32", BOTH_ABIS, ELFCLASS32, ELFDATA2LSB, false, EM_RISCV, []),
    ElfPlatform("linux/riscv64", BOTH_ABIS, ELFCLASS64, ELFDATA2LSB, false, EM_RISCV, []),
    ElfPlatform("linux/s390x", BOTH_ABIS, ELFCLASS64, ELFDATA2MSB, false, EM_S390, [])
  ]

  /** h is one of the headers generated for e. */
  ghost predicate Generates(e: ElfPlatform, h: seq<bv8>) {
    && ByteOrder(e.data).Some?
    && exists c :: c in Choices(e) && h == HeaderBytes(e, ByteOrder(e.data).value, c)
  }

  /** A registry entry stands for a platform if one of the platform's headers matches it. */
  ghost predicate StandsFor(e: ElfPlatform, offset: nat, mask: seq<bv8>, magic: seq<bv8>) {
    exists h :: Generates(e, h) && Matches(h, offset, mask, magic)
  }

  /** The values that byte 5 takes in the headers of e. */
  function DataBytes(e: ElfPlatform): set<bv8> {
    if e.alsoNone then {e.data, ELFDATANONE} else {e.data}
  }

  function MachineBytes(e: ElfPlatform): (s: seq<bv8>)
    requires ByteOrder(e.data).Some?
  {
    U16Bytes(ByteOrder(e.data).value, e.machine)
  }

  /** The headers of two platforms differ in class, in data encoding, or in the bytes of the machine number. */
  ghost predicate Distinguishable(p: ElfPlatform, q: ElfPlatform) {
    && ByteOrder(p.data).Some? && ByteOrder(q.data).Some?
    && (p.cls != q.cls || DataBytes(p) !! DataBytes(q) || MachineBytes(p) != MachineBytes(q))
  }

  ghost predicate AllDistinguishable(table: seq<ElfPlatform>) {
    forall i, j :: 0 <= i < j < |table| ==> Distinguishable(table[i], table[j])
  }

  /** What every generated header of a platform has in common. */
  lemma GeneratedFields(e: ElfPlatform, h: seq<bv8>)
    requires Generates(e, h)
    ensures |h| == HEADER_SIZE && h[4] == e.cls && h[5] in DataBytes(e) && h[18..20] == MachineBytes(e)
  {
    var c :| c in Choices(e) && h == HeaderBytes(e, ByteOrder(e.data).value, c);
    HeaderFields(e, ByteOrder(e.data).value, c);
    ChoicesFrom(e, |Osabis(e)|, c);
  }

  /** An entry whose range covers bytes 4 to 19 stands for at most one of two distinguishable platforms. */
  lemma DistinguishablePair(p: ElfPlatform, q: ElfPlatform, offset: nat, mask: seq<bv8>, magic: seq<bv8>)
    requires Distinguishable(p, q) && offset <= 4 && 20 <= offset + |magic|
    ensures !(StandsFor(p, offset, mask, magic) && StandsFor(q, offset, mask, magic))
  {
    if StandsFor(p, offset, mask, magic) && StandsFor(q, offset, mask, magic) {
      var h :| Generates(p, h) && Matches(h, offset, mask, magic);
      var g :| Generates(q, g) && Matches(g, offset, mask, magic);
      GeneratedFields(p, h);
      GeneratedFields(q, g);
      MatchFixesRange(h, g, offset, mask, magic);
      SameRangeSameFields(h, g, offset, |magic|);
      assert false;
    }
  }

  lemma SameRangeSameFields(h: seq<bv8>, g: seq<bv8>, offset: nat, len: nat)
    requires offset <= 4 && 20 <= offset + len
    requires offset + len <= |h| && offset + len <= |g| && h[offset..offset + len] == g[offset..offset + len]
    ensures h[4] == g[4] && h[5] == g[5] && h[18..20] == g[18..20]
  {
    AgreeWithin(h, g, offset, len, 4);
    AgreeWithin(h, g, offset, len, 5);
    AgreeWithin(h, g, offset, len, 18);
    AgreeWithin(h, g, offset, len, 19);
  }

  lemma AgreeWithin(h: seq<bv8>, g: seq<bv8>, offset: nat, len: nat, k: nat)
    requires offset + len <= |h| && offset + len <= |g| && h[offset..offset + len] == g[offset..offset + len]
    requires offset <= k < offset + len
    ensures h[k] == g[k]
  {
    assert h[k] == h[offset..offset + len][k - offset];
    assert g[k] == g[offset..offset + len][k - offset];
  }

  /** In any table of distinguishable platforms, an entry covering bytes 4 to 19 stands for at most one of them. */
  lemma AtMostOnePlatform(table: seq<ElfPlatform>, i: nat, j: nat, offset: nat, mask: seq<bv8>, magic: seq<bv8>)
    requires AllDistinguishable(table) && i < |table| && j < |table|
    requires offset <= 4 && 20 <= offset + |magic|
    requires StandsFor(table[i], offset, mask, magic) && StandsFor(table[j], offset, mask, magic)
    ensures i == j
  {
    if i < j {
      DistinguishablePair(table[i], table[j], offset, mask, magic);
    } else if j < i {
      DistinguishablePair(table[j], table[i], offset, mask, magic);
    }
  }

  // ---------------------------------------------------------------- the table itself

  lemma MachineBytesDiffer(p: ElfPlatform, q: ElfPlatform)
    requires p.data == q.data && ByteOrder(p.data).Some? && p.machine != q.machine
    ensures MachineBytes(p) != MachineBytes(q)
  {
    ReadBackU16(ByteOrder(p.data).value, p.machine, MachineBytes(p), 0);
    ReadBackU16(ByteOrder(q.data).value, q.machine, MachineBytes(q), 0);
  }

  /** The row with a given class, data encoding and machine number. */
  function RowOf(cls: bv8, data: bv8, machine: bv16): nat {
    if cls == ELFCLASS32 then
      if data == ELFDATA2LSB then
        if machine == EM_386 then 0 else if machine == EM_ARM then 2 else if machine == EM_MIPS_RS3_LE then 7 else 13
      else
        if machine == EM_MIPS then 6 else 10
    else if data == ELFDATA2LSB then
      if machine == EM_X86_64 then 1 else if machine == EM_AARCH64 then 3 else if machine == EM_LOONGARCH then 5
      else if machine == EM_MIPS_RS3_LE then 9 else if machine == EM_PPC64 then 12 else 14
    else
      if machine == EM_AARCH64 then 4 else if machine == EM_MIPS then 8 else if machine == EM_PPC64 then 11 else 15
  }

  /** The row with a given name, told from the name's length and two of its letters. */
  function RowNamed(name: string): nat
    requires |name| >= 9
  {
    if |name| == 9 then (if name[6] == '3' then 0 else if name[6] == 'a' then 2 else 10)
    else if |name| == 10 then 6
    else if |name| == 11 then
      (if name[6] == 's' then 15 else if name[6] == 'p' then 11 else if name[7] == 'm' then 1 else 3)
    else if |name| == 12 then (if name[10] == 'l' then 7 else 8)
    else if |name| == 13 then
      (if name[6] == 'a' then 4 else if name[6] == 'l' then 5 else if name[6] == 'p' then 12
       else if name[11] == '3' then 13 else 14)
    else 9
  }

  lemma RowFacts(i: nat)
    requires i < |KNOWN_PLATFORMS|
    ensures var p := KNOWN_PLATFORMS[i];
            && RowOf(p.cls, p.data, p.machine) == i
            && (p.data == ELFDATA2LSB || p.data == ELFDATA2MSB)
            && (p.alsoNone ==> p.data == ELFDATA2LSB)
  {
  }

  lemma RowNames(i: nat)
    requires i < |KNOWN_PLATFORMS|
    ensures |KNOWN_PLATFORMS[i].platform| >= 9 && RowNamed(KNOWN_PLATFORMS[i].platform) == i
  {
  }

  lemma KnownPair(i: nat, j: nat)
    requires i < j < |KNOWN_PLATFORMS|
    ensures Distinguishable(KNOWN_PLATFORMS[i], KNOWN_PLATFORMS[j])
    ensures KNOWN_PLATFORMS[i].platform != KNOWN_PLATFORMS[j].platform
  {
    RowFacts(i);
    RowFacts(j);
    RowNames(i);
    RowNames(j);
    Apart(KNOWN_PLATFORMS[i], KNOWN_PLATFORMS[j]);
  }

  lemma Apart(p: ElfPlatform, q: ElfPlatform)
    requires RowOf(p.cls, p.data, p.machine) != RowOf(q.cls, q.data, q.machine)
    requires p.data == ELFDATA2LSB || p.data == ELFDATA2MSB
    requires q.data == ELFDATA2LSB || q.data == ELFDATA2MSB
    requires (p.alsoNone ==> p.data == ELFDATA2LSB) && (q.alsoNone ==> q.data == ELFDATA2LSB)
    ensures Distinguishable(p, q)
  {
    if p.cls == q.cls && p.data == q.data {
      assert p.machine != q.machine;
      MachineBytesDiffer(p, q);
    }
  }

  lemma KnownPlatformsDistinguishable()
    ensures AllDistinguishable(KNOWN_PLATFORMS)
    ensures forall i, j :: 0 <= i < j < |KNOWN_PLATFORMS| ==> KNOWN_PLATFORMS[i].platform != KNOWN_PLATFORMS[j].platform
  {
    forall i, j | 0 <= i < j < |KNOWN_PLATFORMS|
      ensures Distinguishable(KNOWN_PLATFORMS[i], KNOWN_PLATFORMS[j])
      ensures KNOWN_PLATFORMS[i].platform != KNOWN_PLATFORMS[j].platform
    {
      KnownPair(i, j);
    }
  }

  // ---------------------------------------------------------------- where the comment of the comparison misleads

  /**
   An entry that masks the OSABI byte out is meant for any OSABI, and the rule of the comparison's own comment takes it
   so. The code never matches it with a header whose OSABI byte is not 0.
   */
  lemma MaskedAbiIsCompared(e: ElfPlatform, endian: Endian, c: Choice, offset: nat, mask: seq<bv8>, magic: seq<bv8>)
    requires offset <= 7 < offset + |magic| && MaskAt(mask, 7 - offset) == 0 && c.abi != ELFOSABI_NONE
    ensures !Matches(HeaderBytes(e, endian, c), offset, mask, magic)
    ensures CommentMatches(HeaderBytes(e, endian, c), offset, mask, magic)
            <==> CommentMatches(HeaderBytes(e, endian, c.(abi := ELFOSABI_NONE)), offset, mask, magic)
  {
    var h, g := HeaderBytes(e, endian, c), HeaderBytes(e, endian, c.(abi := ELFOSABI_NONE));
    OnlyAbiDiffers(e, endian, c);
    hide HeaderBytes;
    MaskedOut(h[7], magic[7 - offset], g[7]);
    assert Expected(mask, magic, 7 - offset) == 0;
    assert h[offset + (7 - offset)] != Expected(mask, magic, 7 - offset);
    assert forall k :: 0 <= k < |magic| && offset + |magic| <= HEADER_SIZE ==>
        h[offset + k] & MaskAt(mask, k) == g[offset + k] & MaskAt(mask, k);
  }

  lemma MaskedOut(a: bv8, b: bv8, c: bv8)
    ensures a & 0 == b & 0 == c & 0 == 0
  {
  }

  lemma OnlyAbiDiffers(e: ElfPlatform, endian: Endian, c: Choice)
    ensures var h, g := HeaderBytes(e, endian, c), HeaderBytes(e, endian, c.(abi := ELFOSABI_NONE));
            h[7] == c.abi && forall k :: 0 <= k < HEADER_SIZE && k != 7 ==> h[k] == g[k]
  {
  }

  const ARM_MAGIC: seq<bv8> := [0x7f, 0x45, 0x4c, 0x46, 1, 1, 1, 0, 0, 0, 0, 0, 0, 0, 0, 0, 2, 0, 0x28, 0]
  const ARM_MASK: seq<bv8> := [0xff, 0xff, 0xff, 0xff, 0xff, 0xff, 0xff, 0, 0xff, 0xff, 0xff, 0xff, 0xff, 0xff, 0xff,
                               0xff, 0xfe, 0xff, 0xff, 0xff]

  /** For instance the usual entry for linux/arm, and the header generated for linux/arm with the OSABI of Linux. */
  lemma CodeAndCommentDiffer()
    ensures var h := HeaderBytes(KNOWN_PLATFORMS[2], Little, Choice(ELFOSABI_LINUX, 0, false));
            && Generates(KNOWN_PLATFORMS[2], h)
            && CommentMatches(h, 0, ARM_MASK, ARM_MAGIC) && !Matches(h, 0, ARM_MASK, ARM_MAGIC)
  {
    var e, c := KNOWN_PLATFORMS[2], Choice(ELFOSABI_LINUX, 0, false);
    HeaderListShape(e, 1, 0, 0);
    assert c in Choices(e);
    assert ARM_MAGIC[7 - 0] == 0 && MaskAt(ARM_MASK, 7 - 0) == 0;
    ArmPrefix();
    hide HeaderBytes, Choices, Matches, CommentMatches, MaskAt;
    MaskedAbiIsCompared(e, Little, c, 0, ARM_MASK, ARM_MAGIC);
    ArmEntryMatches(HeaderBytes(e, Little, c.(abi := ELFOSABI_NONE)));
  }

  lemma ArmPrefix()
    ensures HeaderBytes(KNOWN_PLATFORMS[2], Little, Choice(ELFOSABI_NONE, 0, false))[..20] == ARM_MAGIC
  {
    var e, c := KNOWN_PLATFORMS[2], Choice(ELFOSABI_NONE, 0, false);
    var h := HeaderBytes(e, Little, c);
    assert h[..20] == Ident(e.cls, e.data, EV_CURRENT, ELFOSABI_NONE)
                      + U16Bytes(Little, ET_EXEC) + U16Bytes(Little, EM_ARM);
    hide HeaderBytes;
    assert U16Bytes(Little, ET_EXEC) == [2, 0] && U16Bytes(Little, EM_ARM) == [0x28, 0];
    assert Zeros(8) == [0, 0, 0, 0, 0, 0, 0, 0];
  }

  lemma ArmEntryMatches(h: seq<bv8>)
    requires |h| == HEADER_SIZE && h[..20] == ARM_MAGIC
    ensures CommentMatches(h, 0, ARM_MASK, ARM_MAGIC)
  {
    forall k | 0 <= k < |ARM_MAGIC|
      ensures h[0 + k] & MaskAt(ARM_MASK, k) == ARM_MAGIC[k]
    {
      assert h[k] == h[..20][k];
      ArmByte(k);
    }
  }

  lemma ArmByte(k: nat)
    requires k < |ARM_MAGIC|
    ensures ARM_MAGIC[k] & MaskAt(ARM_MASK, k) == ARM_MAGIC[k]
  {
  }

  // ---------------------------------------------------------------- which ranges identify a platform

  /** Every entry with this range stands for at most one known platform. */
  ghost predicate Unambiguous(offset: nat, len: nat) {
    forall mask: seq<bv8>, magic: seq<bv8>, i, j ::
      && |magic| == len && 0 <= i < |KNOWN_PLATFORMS| && 0 <= j < |KNOWN_PLATFORMS|
      && StandsFor(KNOWN_PLATFORMS[i], offset, mask, magic) && StandsFor(KNOWN_PLATFORMS[j], offset, mask, magic)
      ==> i == j
  }

  /** The first header of a platform, for a flags value of 0 and no OSABI. */
  function FirstHeader(e: ElfPlatform): (h: seq<bv8>)
    requires ByteOrder(e.data).Some?
    ensures |h| == HEADER_SIZE
  {
    HeaderBytes(e, ByteOrder(e.data).value, Choice(ELFOSABI_NONE, 0, false))
  }

  lemma FirstHeaderGenerated(e: ElfPlatform)
    requires ByteOrder(e.data).Some? && Osabis(e)[0] == ELFOSABI_NONE && Flags(e)[0] == 0
    ensures Generates(e, FirstHeader(e))
  {
    HeaderListShape(e, 0, 0, 0);
    assert Choices(e)[0] == Choice(ELFOSABI_NONE, 0, false);
  }

  lemma ZeroFlagsLeaveZeros(e: ElfPlatform, endian: Endian, abi: bv8)
    ensures HeaderBytes(e, endian, Choice(abi, 0, false))[24..] == Zeros(16)
  {
    var h := HeaderBytes(e, endian, Choice(abi, 0, false));
    HeaderFields(e, endian, Choice(abi, 0, false));
    var at := FlagsOffset(e.cls);
    assert Low32(0) == 0 && Mid32(0) == 0 && High32(0) == 0 && Top32(0) == 0;
    assert U32Bytes(endian, 0) == Zeros(4);
    assert h[24..] == h[24..at] + h[at..at + 4] + h[at + 4..];
  }

  /** First headers of platforms that differ in their class only are the same from byte 5 on. */
  lemma OnlyClassDiffers(p: ElfPlatform, q: ElfPlatform)
    requires p.data == q.data && p.machine == q.machine && ByteOrder(p.data).Some?
    ensures FirstHeader(p)[5..] == FirstHeader(q)[5..]
  {
    var endian := ByteOrder(p.data).value;
    HeaderFields(p, endian, Choice(ELFOSABI_NONE, 0, false));
    HeaderFields(q, endian, Choice(ELFOSABI_NONE, 0, false));
    ZeroFlagsLeaveZeros(p, endian, ELFOSABI_NONE);
    ZeroFlagsLeaveZeros(q, endian, ELFOSABI_NONE);
    SameParts(FirstHeader(p), FirstHeader(q));
  }

  lemma SameParts(h: seq<bv8>, g: seq<bv8>)
    requires |h| == |g| == HEADER_SIZE
    requires h[5] == g[5] && h[6] == g[6] && h[7] == g[7] && h[8..16] == g[8..16] && h[16..18] == g[16..18]
    requires h[18..20] == g[18..20] && h[20..24] == g[20..24] && h[24..] == g[24..]
    ensures h[5..] == g[5..]
  {
    assert h[5..] == h[5..8] + h[8..16] + h[16..18] + h[18..20] + h[20..24] + h[24..];
    assert g[5..] == g[5..8] + g[8..16] + g[16..18] + g[18..20] + g[20..24] + g[24..];
    assert h[5..8] == [h[5], h[6], h[7]] == g[5..8];
  }

  /** First headers of platforms that differ in the last byte of their machine number only are the same up to there. */
  lemma OnlyLastMachineByteDiffers(p: ElfPlatform, q: ElfPlatform)
    requires p.data == q.data && p.cls == q.cls && ByteOrder(p.data).Some? && MachineBytes(p)[0] == MachineBytes(q)[0]
    ensures FirstHeader(p)[..19] == FirstHeader(q)[..19]
  {
    var endian := ByteOrder(p.data).value;
    HeaderFields(p, endian, Choice(ELFOSABI_NONE, 0, false));
    HeaderFields(q, endian, Choice(ELFOSABI_NONE, 0, false));
    SameStart(FirstHeader(p), FirstHeader(q));
  }

  lemma SameStart(h: seq<bv8>, g: seq<bv8>)
    requires |h| == |g| == HEADER_SIZE
    requires h[..4] == g[..4] && h[4] == g[4] && h[5] == g[5] && h[6] == g[6] && h[7] == g[7]
    requires h[8..16] == g[8..16] && h[16..18] == g[16..18] && h[18..20][0] == g[18..20][0]
    ensures h[..19] == g[..19]
  {
    assert h[..19] == h[..4] + h[4..8] + h[8..16] + h[16..18] + [h[18..20][0]];
    assert g[..19] == g[..4] + g[4..8] + g[8..16] + g[16..18] + [g[18..20][0]];
    assert h[4..8] == [h[4], h[5], h[6], h[7]] == g[4..8];
  }

  /** Two known platforms with first headers that are the same within a range share an entry for that range. */
  lemma SharedEntry(i: nat, j: nat, offset: nat, len: nat)
    requires i != j && i < |KNOWN_PLATFORMS| && j < |KNOWN_PLATFORMS| && len > 0 && offset + len <= HEADER_SIZE
    requires ByteOrder(KNOWN_PLATFORMS[i].data).Some? && ByteOrder(KNOWN_PLATFORMS[j].data).Some?
    requires Osabis(KNOWN_PLATFORMS[i])[0] == ELFOSABI_NONE && Flags(KNOWN_PLATFORMS[i])[0] == 0
    requires Osabis(KNOWN_PLATFORMS[j])[0] == ELFOSABI_NONE && Flags(KNOWN_PLATFORMS[j])[0] == 0
    requires FirstHeader(KNOWN_PLATFORMS[i])[offset..offset + len]
              == FirstHeader(KNOWN_PLATFORMS[j])[offset..offset + len]
    ensures !Unambiguous(offset, len)
  {
    var p, q := KNOWN_PLATFORMS[i], KNOWN_PLATFORMS[j];
    FirstHeaderGenerated(p);
    FirstHeaderGenerated(q);
    var magic := FirstHeader(p)[offset..offset + len];
    MatchesOwnBytes(FirstHeader(p), offset, len);
    MatchesOwnBytes(FirstHeader(q), offset, len);
    assert StandsFor(p, offset, [], magic) && StandsFor(q, offset, [], magic);
  }

  lemma SubRange(h: seq<bv8>, g: seq<bv8>, lo: nat, hi: nat, offset: nat, len: nat)
    requires hi <= |h| && hi <= |g| && lo <= offset && offset + len <= hi
    requires h[lo..hi] == g[lo..hi]
    ensures h[offset..offset + len] == g[offset..offset + len]
  {
    var a, b := h[offset..offset + len], g[offset..offset + len];
    forall k | 0 <= k < len
      ensures a[k] == b[k]
    {
      AgreeWithin(h, g, lo, hi - lo, offset + k);
    }
  }

  lemma MipsAndMips64(offset: nat, len: nat)
    requires len > 0 && 5 <= offset && offset + len <= HEADER_SIZE
    ensures !Unambiguous(offset, len)
  {
    var p, q := KNOWN_PLATFORMS[6], KNOWN_PLATFORMS[8];
    OnlyClassDiffers(p, q);
    assert FirstHeader(p)[5..40] == FirstHeader(p)[5..] && FirstHeader(q)[5..40] == FirstHeader(q)[5..];
    SubRange(FirstHeader(p), FirstHeader(q), 5, 40, offset, len);
    SharedEntry(6, 8, offset, len);
  }

  lemma MipsAndPpc(offset: nat, len: nat)
    requires len > 0 && offset + len <= 19
    ensures !Unambiguous(offset, len)
  {
    var p, q := KNOWN_PLATFORMS[6], KNOWN_PLATFORMS[10];
    assert Hi16(EM_MIPS) == 0 && Hi16(EM_PPC) == 0;
    OnlyLastMachineByteDiffers(p, q);
    assert FirstHeader(p)[0..19] == FirstHeader(p)[..19] && FirstHeader(q)[0..19] == FirstHeader(q)[..19];
    SubRange(FirstHeader(p), FirstHeader(q), 0, 19, offset, len);
    SharedEntry(6, 10, offset, len);
  }

  lemma NothingMatchesPastTheHeader(e: ElfPlatform, offset: nat, mask: seq<bv8>, magic: seq<bv8>)
    requires magic != [] && HEADER_SIZE < offset + |magic|
    ensures !StandsFor(e, offset, mask, magic)
  {
    forall h | Generates(e, h)
      ensures !Matches(h, offset, mask, magic)
    {
      GeneratedFields(e, h);
    }
  }

  lemma CoveringRangeIsUnambiguous(offset: nat, len: nat)
    requires len > 0 && (HEADER_SIZE < offset + len || (offset <= 4 && 20 <= offset + len))
    ensures Unambiguous(offset, len)
  {
    forall mask: seq<bv8>, magic: seq<bv8>, i, j |
      && |magic| == len && 0 <= i < |KNOWN_PLATFORMS| && 0 <= j < |KNOWN_PLATFORMS|
      && StandsFor(KNOWN_PLATFORMS[i], offset, mask, magic) && StandsFor(KNOWN_PLATFORMS[j], offset, mask, magic)
      ensures i == j
    {
      if HEADER_SIZE < offset + len {
        NothingMatchesPastTheHeader(KNOWN_PLATFORMS[i], offset, mask, magic);
        assert false;
      } else {
        KnownPlatformsDistinguishable();
        AtMostOnePlatform(KNOWN_PLATFORMS, i, j, offset, mask, magic);
      }
    }
  }

  /**
   An entry is sure to stand for at most one known platform, whatever its magic value and mask, exactly if its range
   covers bytes 4 to 19 or reaches past the 40 bytes of a generated header.
   */
  lemma RangeIdentifiesPlatform(offset: nat, len: nat)
    requires len > 0
    ensures Unambiguous(offset, len) <==> HEADER_SIZE < offset + len || (offset <= 4 && 20 <= offset + len)
  {
    if HEADER_SIZE < offset + len || (offset <= 4 && 20 <= offset + len) {
      CoveringRangeIsUnambiguous(offset, len);
    } else if offset >= 5 {
      MipsAndMips64(offset, len);
    } else {
      MipsAndPpc(offset, len);
    }
  }
}
