/**
 The ELF header prefixes that binaries of a target platform are expected to start with.

 A header is laid out field by field in a 40-byte work buffer, which is then copied. The layout of the
 first 24 bytes is that of the System V gABI, chapter 4, "ELF Header". The flags word is not: it is written
 at byte 30 or 36, where the gABI has e_flags at byte 36 (32-bit objects) or 48 (64-bit objects).
 */
module Elf {
  import opened Wrappers
  import opened Bytes

  const ELFOSABI_NONE: bv8 := 0
  const ELFOSABI_LINUX: bv8 := 3
  const ELFCLASS32: bv8 := 1
  const ELFCLASS64: bv8 := 2
  const ELFDATANONE: bv8 := 0
  const ELFDATA2LSB: bv8 := 1
  const ELFDATA2MSB: bv8 := 2
  const EV_NONE: bv8 := 0
  const EV_CURRENT: bv8 := 1
  const ET_EXEC: bv16 := 2
  const HEADER_SIZE: nat := 40

  datatype ElfPlatform = ElfPlatform(
    platform: string,
    osabi: seq<bv8>,
    cls: bv8,
    data: bv8,
    alsoNone: bool,
    machine: bv16,
    flags: seq<bv32>)

  datatype HeaderError = InternalError(platform: string)

  function ByteOrder(data: bv8): Option<Endian> {
    if data == ELFDATA2LSB then Some(Little)
    else if data == ELFDATA2MSB then Some(Big)
    else None
  }

  function Osabis(e: ElfPlatform): (r: seq<bv8>)
    ensures |r| >= 1
  {
    if e.osabi == [] then [ELFOSABI_NONE] else e.osabi
  }

  function Flags(e: ElfPlatform): (r: seq<bv32>)
    ensures |r| >= 1
  {
    if e.flags == [] then [0] else e.flags
  }

  /** How many headers one choice of OSABI and flags gives. */
  function Variants(e: ElfPlatform): (k: nat)
    ensures k == 1 || k == 2
  {
    if e.alsoNone then 2 else 1
  }

  /** Where the flags word goes: after an entry point and two offsets, each as wide as the code takes them to be. */
  function FlagsOffset(cls: bv8): (at: nat)
    ensures 24 <= at <= HEADER_SIZE - 4
  {
    if cls == ELFCLASS32 then 30 else if cls == ELFCLASS64 then 36 else 24
  }

  // ---------------------------------------------------------------- what a header contains

  function Ident(cls: bv8, data: bv8, version: bv8, abi: bv8): (s: seq<bv8>)
    ensures |s| == 16
  {
    [0x7f, 0x45, 0x4c, 0x46, cls, data, version, abi] + Zeros(8)
  }

  /** What distinguishes the headers of one platform. With `none`, there is no data encoding and no version. */
  datatype Choice = Choice(abi: bv8, flag: bv32, none: bool)

  /** One header as a concatenation of fields. */
  function HeaderBytes(e: ElfPlatform, endian: Endian, c: Choice): (s: seq<bv8>)
    ensures |s| == HEADER_SIZE
  {
    var version := if c.none then EV_NONE else EV_CURRENT;
    Ident(e.cls, if c.none then ELFDATANONE else e.data, version, c.abi)
    + U16Bytes(endian, ET_EXEC)
    + U16Bytes(endian, e.machine)
    + U32Bytes(endian, version as bv32)
    + Zeros(FlagsOffset(e.cls) - 24)
    + U32Bytes(endian, c.flag)
    + Zeros(HEADER_SIZE - 4 - FlagsOffset(e.cls))
  }

  function VariantChoices(e: ElfPlatform, abi: bv8, flag: bv32): (r: seq<Choice>)
    ensures |r| == Variants(e)
  {
    [Choice(abi, flag, false)] + if e.alsoNone then [Choice(abi, flag, true)] else []
  }

  /** The choices for one OSABI value and the first n flags values. */
  function FlagChoices(e: ElfPlatform, abi: bv8, n: nat): seq<Choice>
    requires n <= |Flags(e)|
  {
    if n == 0 then [] else FlagChoices(e, abi, n - 1) + VariantChoices(e, abi, Flags(e)[n - 1])
  }

  /** The choices for the first n OSABI values. */
  function AbiChoices(e: ElfPlatform, n: nat): seq<Choice>
    requires n <= |Osabis(e)|
  {
    if n == 0 then [] else AbiChoices(e, n - 1) + FlagChoices(e, Osabis(e)[n - 1], |Flags(e)|)
  }

  /** The choices the headers of a platform are made from, in the order in which they are made. */
  function Choices(e: ElfPlatform): seq<Choice> {
    AbiChoices(e, |Osabis(e)|)
  }

  // ---------------------------------------------------------------- the generator

  /** The arrays hold one header for each choice, and no two of them are the same array. */
  ghost predicate Hold(headers: seq<array<bv8>>, e: ElfPlatform, endian: Endian, choices: seq<Choice>)
    reads headers
  {
    && |headers| == |choices|
    && (forall k :: 0 <= k < |headers| ==> headers[k][..] == HeaderBytes(e, endian, choices[k]))
    && (forall j, k :: 0 <= j < k < |headers| ==> headers[j] != headers[k])
  }

  /** append([]byte{}, header...) */
  method CopyOf(a: array<bv8>) returns (c: array<bv8>)
    ensures fresh(c) && c[..] == a[..]
  {
    c := new bv8[a.Length](k requires 0 <= k < a.Length reads a => a[k]);
  }

  /** Overwriting the fields of an otherwise empty header one after another concatenates them. */
  lemma LayOut(ident: seq<bv8>, typ: seq<bv8>, machine: seq<bv8>, version: seq<bv8>, gap: nat, flag: seq<bv8>)
    requires |ident| == 16 && |typ| == 2 && |machine| == 2 && |version| == 4 && gap <= 12 && |flag| == 4
    ensures Splice(Splice(Splice(Splice(ident + Zeros(24), 16, typ), 18, machine), 20, version), 24 + gap, flag)
            == ident + typ + machine + version + Zeros(gap) + flag + Zeros(12 - gap)
  {
    SpliceIntoZeros(ident, 24, typ);
    SpliceIntoZeros(ident + typ, 22, machine);
    SpliceIntoZeros(ident + typ + machine, 20, version);
    var a := ident + typ + machine + version;
    assert a + Zeros(16) == a + Zeros(gap) + Zeros(16 - gap);
    SpliceIntoZeros(a + Zeros(gap), 16 - gap, flag);
  }

  /** Lays one header out in a new work buffer. */
  method WorkBuffer(e: ElfPlatform, endian: Endian, abi: bv8, flag: bv32) returns (header: array<bv8>)
    ensures fresh(header) && header[..] == HeaderBytes(e, endian, Choice(abi, flag, false))
  {
    header := new bv8[HEADER_SIZE](_ => 0);
    PutIdent(e, abi, header);
    PutFields(e, endian, flag, header, Ident(e.cls, e.data, EV_CURRENT, abi));
  }

  method PutIdent(e: ElfPlatform, abi: bv8, header: array<bv8>)
    requires header.Length == HEADER_SIZE && forall k :: 0 <= k < HEADER_SIZE ==> header[k] == 0
    modifies header
    ensures header[..] == Ident(e.cls, e.data, EV_CURRENT, abi) + Zeros(24)
  {
    header[0], header[1], header[2], header[3] := 0x7f, 0x45, 0x4c, 0x46;
    header[7] := abi;
    header[4] := e.cls;
    header[5] := e.data;
    header[6] := EV_CURRENT;
    header[8] := 0;
  }

  method PutFields(e: ElfPlatform, endian: Endian, flag: bv32, header: array<bv8>, ghost ident: seq<bv8>)
    requires |ident| == 16 && header[..] == ident + Zeros(24)
    modifies header
    ensures header[..] == ident + U16Bytes(endian, ET_EXEC) + U16Bytes(endian, e.machine)
                          + U32Bytes(endian, EV_CURRENT as bv32) + Zeros(FlagsOffset(e.cls) - 24)
                          + U32Bytes(endian, flag) + Zeros(HEADER_SIZE - 4 - FlagsOffset(e.cls))
  {
    PutU16(endian, header, 16, ET_EXEC);
    PutU16(endian, header, 18, e.machine);
    PutU32(endian, header, 20, EV_CURRENT as bv32);
    PutU32(endian, header, FlagsOffset(e.cls), flag);
    LayOut(ident, U16Bytes(endian, ET_EXEC), U16Bytes(endian, e.machine), U32Bytes(endian, EV_CURRENT as bv32),
           FlagsOffset(e.cls) - 24, U32Bytes(endian, flag));
  }

  /** What erasing the encoding does to a header, whatever its other fields hold. */
  lemma Erased(cls: bv8, data: bv8, abi: bv8, types: seq<bv8>, was: seq<bv8>, now: seq<bv8>, rest: seq<bv8>)
    requires |types| == |was| == |now| == 4
    ensures var s := Ident(cls, data, EV_CURRENT, abi) + types + was + rest;
            Splice(s[5 := ELFDATANONE][6 := EV_NONE], 20, now)
            == Ident(cls, ELFDATANONE, EV_NONE, abi) + types + now + rest
  {
    var a := Ident(cls, data, EV_CURRENT, abi) + types;
    var b := Ident(cls, ELFDATANONE, EV_NONE, abi) + types;
    assert b == a[5 := ELFDATANONE][6 := EV_NONE];
    var s := a + was + rest;
    assert s[5 := ELFDATANONE][6 := EV_NONE] == b + was + rest;
    SpliceOver(b, was, rest, now);
  }

  /** Turns a finished header in place into its variant without data encoding and version. */
  method EraseEncoding(header: array<bv8>, endian: Endian)
    requires header.Length == HEADER_SIZE
    modifies header
    ensures header[..] == Splice(old(header[..])[5 := ELFDATANONE][6 := EV_NONE], 20,
                                 U32Bytes(endian, EV_NONE as bv32))
  {
    header[5] := ELFDATANONE;
    header[6] := EV_NONE;
    PutU32(endian, header, 20, EV_NONE as bv32);
  }

  lemma ErasedHeader(e: ElfPlatform, endian: Endian, abi: bv8, flag: bv32)
    ensures Splice(HeaderBytes(e, endian, Choice(abi, flag, false))[5 := ELFDATANONE][6 := EV_NONE], 20,
                   U32Bytes(endian, EV_NONE as bv32))
            == HeaderBytes(e, endian, Choice(abi, flag, true))
  {
    var types := U16Bytes(endian, ET_EXEC) + U16Bytes(endian, e.machine);
    var rest := Zeros(FlagsOffset(e.cls) - 24) + U32Bytes(endian, flag) + Zeros(HEADER_SIZE - 4 - FlagsOffset(e.cls));
    Erased(e.cls, e.data, abi, types, U32Bytes(endian, EV_CURRENT as bv32), U32Bytes(endian, EV_NONE as bv32), rest);
    Regroup(Ident(e.cls, e.data, EV_CURRENT, abi), U16Bytes(endian, ET_EXEC), U16Bytes(endian, e.machine),
            U32Bytes(endian, EV_CURRENT as bv32), Zeros(FlagsOffset(e.cls) - 24), U32Bytes(endian, flag),
            Zeros(HEADER_SIZE - 4 - FlagsOffset(e.cls)));
    Regroup(Ident(e.cls, ELFDATANONE, EV_NONE, abi), U16Bytes(endian, ET_EXEC), U16Bytes(endian, e.machine),
            U32Bytes(endian, EV_NONE as bv32), Zeros(FlagsOffset(e.cls) - 24), U32Bytes(endian, flag),
            Zeros(HEADER_SIZE - 4 - FlagsOffset(e.cls)));
  }

  lemma Regroup<T>(a: seq<T>, b: seq<T>, c: seq<T>, d: seq<T>, e: seq<T>, f: seq<T>, g: seq<T>)
    ensures a + b + c + d + e + f + g == a + (b + c) + d + (e + f + g)
  {
  }

  /** The headers for one choice of OSABI and flags: the second is made by editing the buffer the first came from. */
  method VariantsOf(e: ElfPlatform, endian: Endian, abi: bv8, flag: bv32) returns (headers: seq<array<bv8>>)
    ensures Hold(headers, e, endian, VariantChoices(e, abi, flag))
    ensures forall k :: 0 <= k < |headers| ==> fresh(headers[k])
  {
    var header := WorkBuffer(e, endian, abi, flag);
    var plain := CopyOf(header);
    headers := [plain];
    if e.alsoNone {
      EraseEncoding(header, endian);
      ErasedHeader(e, endian, abi, flag);
      var bare := CopyOf(header);
      headers := headers + [bare];
    }
  }

  lemma HoldJoined(a: seq<array<bv8>>, x: seq<Choice>, b: seq<array<bv8>>, y: seq<Choice>, e: ElfPlatform,
                   endian: Endian)
    requires Hold(a, e, endian, x) && Hold(b, e, endian, y)
    requires forall j, k :: 0 <= j < |a| && 0 <= k < |b| ==> a[j] != b[k]
    ensures Hold(a + b, e, endian, x + y)
  {
  }

  /** The inner loop, over the flags values for one OSABI value. */
  method HeadersForAbi(e: ElfPlatform, abi: bv8) returns (r: Result<seq<array<bv8>>, HeaderError>)
    ensures r.Err? <==> ByteOrder(e.data).None?
    ensures r.Err? ==> r.error == InternalError(e.platform)
    ensures r.Ok? ==> Hold(r.value, e, ByteOrder(e.data).value, FlagChoices(e, abi, |Flags(e)|))
    ensures r.Ok? ==> forall k :: 0 <= k < |r.value| ==> fresh(r.value[k])
  {
    var headers: seq<array<bv8>> := [];
    var flags := Flags(e);
    for f := 0 to |flags|
      invariant f == 0 ==> headers == []
      invariant f > 0 ==> ByteOrder(e.data).Some?
      invariant f > 0 ==> Hold(headers, e, ByteOrder(e.data).value, FlagChoices(e, abi, f))
      invariant forall k :: 0 <= k < |headers| ==> fresh(headers[k])
    {
      var endian := ByteOrder(e.data);
      if endian.None? {
        return Err(InternalError(e.platform));
      }
      var variants := VariantsOf(e, endian.value, abi, flags[f]);
      HoldJoined(headers, FlagChoices(e, abi, f), variants, VariantChoices(e, abi, flags[f]), e, endian.value);
      headers := headers + variants;
    }
    return Ok(headers);
  }

  method Header(e: ElfPlatform) returns (r: Result<seq<array<bv8>>, HeaderError>)
    ensures r.Err? <==> ByteOrder(e.data).None?
    ensures r.Err? ==> r.error == InternalError(e.platform)
    ensures r.Ok? ==> Hold(r.value, e, ByteOrder(e.data).value, Choices(e))
    ensures r.Ok? ==> forall k :: 0 <= k < |r.value| ==> fresh(r.value[k])
  {
    var headers: seq<array<bv8>> := [];
    var osabi := Osabis(e);
    for i := 0 to |osabi|
      invariant i == 0 ==> headers == []
      invariant i > 0 ==> ByteOrder(e.data).Some? && Hold(headers, e, ByteOrder(e.data).value, AbiChoices(e, i))
      invariant forall k :: 0 <= k < |headers| ==> fresh(headers[k])
    {
      var r := HeadersForAbi(e, osabi[i]);
      if r.Err? {
        return Err(r.error);
      }
      HoldJoined(headers, AbiChoices(e, i), r.value, FlagChoices(e, osabi[i], |Flags(e)|), e, ByteOrder(e.data).value);
      headers := headers + r.value;
    }
    return Ok(headers);
  }
}
