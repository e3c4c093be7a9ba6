/** What the generated headers look like: how many there are, which is which, and how to read one back. */
module ElfLayout {
  import opened Wrappers
  import opened Bytes
  import opened Elf

  // ---------------------------------------------------------------- the shape of the list

  lemma {:induction false} FlagChoicesShape(e: ElfPlatform, abi: bv8, n: nat, f: nat, v: nat)
    requires f < n <= |Flags(e)| && v < Variants(e)
    ensures |FlagChoices(e, abi, n)| == n * Variants(e)
    ensures f * Variants(e) + v < n * Variants(e)
    ensures FlagChoices(e, abi, n)[f * Variants(e) + v] == Choice(abi, Flags(e)[f], v == 1)
  {
    var k := Variants(e);
    if n == 1 {
      assert FlagChoices(e, abi, 0) == [];
    } else {
      FlagChoicesShape(e, abi, n - 1, if f == n - 1 then f - 1 else f, v);
    }
  }

  lemma FlagBlock(e: ElfPlatform, abi: bv8, block: nat)
    requires block == |Flags(e)| * Variants(e)
    ensures |FlagChoices(e, abi, |Flags(e)|)| == block
  {
    FlagChoicesShape(e, abi, |Flags(e)|, 0, 0);
  }

  /** The list is made of blocks, one for each OSABI value. */
  lemma {:induction false} AbiChoicesShape(e: ElfPlatform, n: nat, i: nat, block: nat, m: nat)
    requires i < n <= |Osabis(e)| && block == |Flags(e)| * Variants(e) && m < block
    ensures |AbiChoices(e, n)| == n * block && i * block + m < n * block
    ensures |FlagChoices(e, Osabis(e)[i], |Flags(e)|)| == block
    ensures AbiChoices(e, n)[i * block + m] == FlagChoices(e, Osabis(e)[i], |Flags(e)|)[m]
  {
    FlagBlock(e, Osabis(e)[n - 1], block);
    FlagBlock(e, Osabis(e)[i], block);
    BlockBounds(n, block);
    var before := AbiChoices(e, n - 1);
    assert AbiChoices(e, n) == before + FlagChoices(e, Osabis(e)[n - 1], |Flags(e)|);
    if n == 1 {
      assert before == [];
    } else {
      AbiChoicesShape(e, n - 1, if i == n - 1 then i - 1 else i, block, m);
    }
    hide FlagChoices, AbiChoices, Flags, Osabis, Variants;
  }

  lemma BlockBounds(n: nat, block: nat)
    requires n > 0
    ensures n * block == (n - 1) * block + block
  {
  }

  /**
   The list has one header for each OSABI value, flags value and variant, and the header for OSABI i, flags f and
   variant v stands at index (i * F + f) * k + v.
   */
  lemma HeaderListShape(e: ElfPlatform, i: nat, f: nat, v: nat)
    requires i < |Osabis(e)| && f < |Flags(e)| && v < Variants(e)
    ensures |Choices(e)| == |Osabis(e)| * |Flags(e)| * Variants(e)
    ensures 0 <= (i * |Flags(e)| + f) * Variants(e) + v < |Choices(e)|
    ensures Choices(e)[(i * |Flags(e)| + f) * Variants(e) + v] == Choice(Osabis(e)[i], Flags(e)[f], v == 1)
  {
    var F, k := |Flags(e)|, Variants(e);
    FlagChoicesShape(e, Osabis(e)[i], F, f, v);
    AbiChoicesShape(e, |Osabis(e)|, i, F * k, f * k + v);
    Flatten(i, F, f, k, v);
    Flatten(|Osabis(e)|, F, 0, k, 0);
  }

  lemma Flatten(i: nat, F: nat, f: nat, k: nat, v: nat)
    ensures (i * F + f) * k + v == i * (F * k) + (f * k + v)
  {
    assert (i * F + f) * k == i * F * k + f * k;
    assert i * F * k == i * (F * k);
  }

  /** Every header of the list was made from one of the platform's OSABI and flags values. */
  lemma {:induction false} FlagChoicesFrom(e: ElfPlatform, abi: bv8, n: nat, c: Choice)
    requires n <= |Flags(e)| && c in FlagChoices(e, abi, n)
    ensures c.abi == abi && c.flag in Flags(e) && (c.none ==> e.alsoNone)
  {
    if c in FlagChoices(e, abi, n - 1) {
      FlagChoicesFrom(e, abi, n - 1, c);
    } else {
      assert c in VariantChoices(e, abi, Flags(e)[n - 1]);
    }
  }

  lemma {:induction false} ChoicesFrom(e: ElfPlatform, n: nat, c: Choice)
    requires n <= |Osabis(e)| && c in AbiChoices(e, n)
    ensures c.abi in Osabis(e) && c.flag in Flags(e) && (c.none ==> e.alsoNone)
  {
    if c in AbiChoices(e, n - 1) {
      ChoicesFrom(e, n - 1, c);
    } else {
      FlagChoicesFrom(e, Osabis(e)[n - 1], |Flags(e)|, c);
    }
  }

  // ---------------------------------------------------------------- reading a header back

  /** The fields that the gABI puts in the first 24 bytes. */
  datatype ElfPrefix = ElfPrefix(cls: bv8, data: bv8, version: bv8, osabi: bv8, abiVersion: bv8,
                                 typ: bv16, machine: bv16, fileVersion: bv32)

  /** Reads the first 24 bytes as the gABI lays them out: e_ident decides the byte order of what follows it. */
  function ReadPrefix(s: seq<bv8>): Option<ElfPrefix> {
    if |s| < 24 || s[..4] != [0x7f, 0x45, 0x4c, 0x46] || ByteOrder(s[5]).None? then None
    else
      var endian := ByteOrder(s[5]).value;
      Some(ElfPrefix(s[4], s[5], s[6], s[7], s[8],
                     ReadU16(endian, s, 16), ReadU16(endian, s, 18), ReadU32(endian, s, 20)))
  }

  /** Where each field of a header stands. */
  lemma HeaderFields(e: ElfPlatform, endian: Endian, c: Choice)
    ensures var h := HeaderBytes(e, endian, c);
            var at := FlagsOffset(e.cls);
            && h[..4] == [0x7f, 0x45, 0x4c, 0x46]
            && h[4] == e.cls
            && h[5] == (if c.none then ELFDATANONE else e.data)
            && h[6] == (if c.none then EV_NONE else EV_CURRENT)
            && h[7] == c.abi
            && h[8..16] == Zeros(8)
            && h[16..18] == U16Bytes(endian, ET_EXEC)
            && h[18..20] == U16Bytes(endian, e.machine)
            && h[20..24] == U32Bytes(endian, (if c.none then EV_NONE else EV_CURRENT) as bv32)
            && h[24..at] == Zeros(at - 24)
            && h[at..at + 4] == U32Bytes(endian, c.flag)
            && h[at + 4..] == Zeros(HEADER_SIZE - 4 - at)
  {
    var version := if c.none then EV_NONE else EV_CURRENT;
    Slices(Ident(e.cls, if c.none then ELFDATANONE else e.data, version, c.abi), U16Bytes(endian, ET_EXEC),
           U16Bytes(endian, e.machine), U32Bytes(endian, version as bv32), Zeros(FlagsOffset(e.cls) - 24),
           U32Bytes(endian, c.flag), Zeros(HEADER_SIZE - 4 - FlagsOffset(e.cls)));
  }

  lemma Slices(a: seq<bv8>, b: seq<bv8>, c: seq<bv8>, d: seq<bv8>, g: seq<bv8>, f: seq<bv8>, z: seq<bv8>)
    requires |a| == 16 && |b| == |c| == 2 && |d| == |f| == 4
    ensures var h := a + b + c + d + g + f + z;
            && h[..16] == a && h[16..18] == b && h[18..20] == c && h[20..24] == d
            && h[24..24 + |g|] == g && h[24 + |g|..28 + |g|] == f && h[28 + |g|..] == z
            && h[..4] == a[..4] && h[8..16] == a[8..16]
            && (forall k :: 0 <= k < 16 ==> h[k] == a[k])
  {
  }

  /** Reading a header with a data encoding gives back what it was made from. */
  lemma PrefixRoundTrip(e: ElfPlatform, c: Choice)
    requires ByteOrder(e.data).Some? && !c.none
    ensures ReadPrefix(HeaderBytes(e, ByteOrder(e.data).value, c))
            == Some(ElfPrefix(e.cls, e.data, EV_CURRENT, c.abi, 0, ET_EXEC, e.machine, EV_CURRENT as bv32))
  {
    var endian := ByteOrder(e.data).value;
    var h := HeaderBytes(e, endian, c);
    HeaderFields(e, endian, c);
    assert h[8] == h[8..16][0];
    Read16At(endian, h, 16, ET_EXEC);
    Read16At(endian, h, 18, e.machine);
    ReadBackU32(endian, EV_CURRENT as bv32, h, 20);
  }

  lemma Read16At(endian: Endian, h: seq<bv8>, at: nat, v: bv16)
    requires at + 2 <= |h| && h[at..at + 2] == U16Bytes(endian, v)
    ensures ReadU16(endian, h, at) == v
  {
    assert h[at] == h[at..at + 2][0] && h[at + 1] == h[at..at + 2][1];
    ReadBackU16(endian, v, h, at);
  }

  /** The flags word reads back at the generator's own offset, which lies past the prefix. */
  lemma FlagsRoundTrip(e: ElfPlatform, endian: Endian, c: Choice)
    ensures ReadU32(endian, HeaderBytes(e, endian, c), FlagsOffset(e.cls)) == c.flag
    ensures FlagsOffset(e.cls) >= 24
  {
    HeaderFields(e, endian, c);
    ReadBackU32(endian, c.flag, HeaderBytes(e, endian, c), FlagsOffset(e.cls));
  }

  /** In a 32-bit object the gABI has e_flags at byte 36. What stands there agrees with the flags only if they are 0. */
  lemma FlagsMissTheirStandardPlace(e: ElfPlatform, endian: Endian, c: Choice)
    requires e.cls == ELFCLASS32
    ensures ReadU32(endian, HeaderBytes(e, endian, c), 36) == c.flag <==> c.flag == 0
  {
    var h := HeaderBytes(e, endian, c);
    HeaderFields(e, endian, c);
    assert forall k :: 36 <= k < 40 ==> h[k] == h[34..][k - 34];
    assert Join32(0, 0, 0, 0) == 0;
  }

  /** The variant without encoding differs from its header in the data, version and file version bytes only. */
  lemma BareVariantDiffers(e: ElfPlatform, abi: bv8, flag: bv32, k: nat)
    requires ByteOrder(e.data).Some? && k < HEADER_SIZE
    ensures var endian := ByteOrder(e.data).value;
            var plain := HeaderBytes(e, endian, Choice(abi, flag, false));
            var bare := HeaderBytes(e, endian, Choice(abi, flag, true));
            plain[k] != bare[k] <==> k == 5 || k == 6 || k == (if endian.Little? then 20 else 23)
  {
    var endian := ByteOrder(e.data).value;
    var plain := HeaderBytes(e, endian, Choice(abi, flag, false));
    var bare := HeaderBytes(e, endian, Choice(abi, flag, true));
    ErasedHeader(e, endian, abi, flag);
    HeaderFields(e, endian, Choice(abi, flag, false));
    VersionBytes(endian, k);
    if 20 <= k < 24 {
      assert plain[k] == plain[20..24][k - 20];
    }
  }

  lemma VersionBytes(endian: Endian, k: nat)
    ensures 20 <= k < 24 ==>
              (U32Bytes(endian, EV_CURRENT as bv32)[k - 20] != U32Bytes(endian, EV_NONE as bv32)[k - 20]
               <==> k == (if endian.Little? then 20 else 23))
  {
    assert Low32(1) == 1 && Mid32(1) == 0 && High32(1) == 0 && Top32(1) == 0;
    assert Low32(0) == 0 && Mid32(0) == 0 && High32(0) == 0 && Top32(0) == 0;
  }

  /** Where the flags stand: in 32-bit headers at byte 30, in 64-bit headers at byte 36, where the buffer ends. */
  lemma FlagsStandAt(e: ElfPlatform, endian: Endian, c: Choice)
    ensures e.cls == 1 ==> HeaderBytes(e, endian, c)[30..34] == U32Bytes(endian, c.flag)
    ensures e.cls == 2 ==> HeaderBytes(e, endian, c)[36..40] == U32Bytes(endian, c.flag)
    ensures e.cls != 1 && e.cls != 2 ==> HeaderBytes(e, endian, c)[24..28] == U32Bytes(endian, c.flag)
  {
    HeaderFields(e, endian, c);
  }

  /** An entry without OSABI or flags values stands for one of each, with the value 0. */
  lemma NoValuesMeanZero(e: ElfPlatform)
    requires e.osabi == [] && e.flags == []
    ensures Choices(e) == [Choice(0, 0, false)] + if e.alsoNone then [Choice(0, 0, true)] else []
  {
    assert FlagChoices(e, 0, 0) == [] && AbiChoices(e, 0) == [];
    assert FlagChoices(e, 0, 1) == VariantChoices(e, 0, 0);
    assert AbiChoices(e, 1) == FlagChoices(e, 0, 1);
  }
}
