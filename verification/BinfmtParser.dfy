/** Reading an entry of the kernel's binfmt_misc registry. */
module BinfmtParser {
  import opened Wrappers
  import opened GoText

  datatype ParseError =
    | InvalidFormat(text: string)
    | InvalidOffset(field: string)
    | InvalidMagic(text: string)
    | InvalidMask(text: string)
    | UnrecognizedField(field: string)

  /** A negative offset says that the entry is to be ignored. */
  datatype ParseResult =
    | Parsed(offset: int, magic: seq<bv8>, mask: seq<bv8>)
    | Failed(error: ParseError)

  const IGNORED: ParseResult := Parsed(-1, [], [])

  // ---------------------------------------------------------------- what a whole text means

  /** What one line does to the entry that is being read. */
  datatype Effect =
    | Nothing
    | Offset(offset: int)
    | Magic(text: string)
    | Mask(text: string)
    | Stop(result: ParseResult)

  function EffectOf(line: string): Effect {
    var fields := Fields(line);
    if fields == [] then Nothing
    else if fields[0] == "disabled" then Stop(IGNORED)
    else if fields[0] == "enabled" || fields[0] == "interpreter" then Nothing
    else if fields[0] !in {"offset", "magic", "mask", "flags", "flags:"} then Stop(Failed(UnrecognizedField(fields[0])))
    else if |fields| != 2 then Stop(Failed(InvalidFormat(line)))
    else if fields[0] == "offset" then
      match ParseInt8(fields[1])
      case None => Stop(Failed(InvalidOffset(fields[1])))
      case Some(n) => Offset(n)
    else if fields[0] == "magic" then Magic(fields[1])
    else if fields[0] == "mask" then Mask(fields[1])
    else if 'F' !in fields[1] then Stop(IGNORED)
    else Nothing
  }

  function Effects(lines: seq<string>): seq<Effect> {
    if lines == [] then [] else [EffectOf(lines[0])] + Effects(lines[1..])
  }

  /** The result of the first line that decides the outcome. */
  function FirstStop(effects: seq<Effect>): Option<ParseResult> {
    if effects == [] then None
    else if effects[0].Stop? then Some(effects[0].result)
    else FirstStop(effects[1..])
  }

  /** The offset, and the magic value and mask as text. */
  datatype Settings = Settings(offset: int, magic: string, mask: string)

  const NO_SETTINGS := Settings(0, "", "")

  function Update(s: Settings, e: Effect): Settings {
    match e
    case Offset(n) => s.(offset := n)
    case Magic(text) => s.(magic := text)
    case Mask(text) => s.(mask := text)
    case _ => s
  }

  /** What is set after a number of lines. */
  function SettingsAfter(effects: seq<Effect>): Settings {
    if effects == [] then NO_SETTINGS
    else Update(SettingsAfter(effects[..|effects| - 1]), effects[|effects| - 1])
  }

  /** The entry made of an offset, a magic value and a mask that are still text. */
  function Finish(s: Settings): ParseResult {
    if s.magic == "" || s.mask == "" then IGNORED
    else if DecodeHex(s.magic).None? then Failed(InvalidMagic(s.magic))
    else if DecodeHex(s.mask).None? then Failed(InvalidMask(s.mask))
    else Parsed(s.offset, DecodeHex(s.magic).value, DecodeHex(s.mask).value)
  }

  function Outcome(effects: seq<Effect>): ParseResult {
    match FirstStop(effects)
    case Some(r) => r
    case None => Finish(SettingsAfter(effects))
  }

  /** What the text of an entry means. */
  function Meaning(text: string): ParseResult {
    Outcome(Effects(Lines(text)))
  }

  // ---------------------------------------------------------------- reading a text line by line

  lemma {:induction false} FirstStopAppend(a: seq<Effect>, b: seq<Effect>)
    ensures FirstStop(a + b) == if FirstStop(a).Some? then FirstStop(a) else FirstStop(b)
  {
    if a == [] {
      assert a + b == b;
    } else {
      assert (a + b)[1..] == a[1..] + b;
      FirstStopAppend(a[1..], b);
    }
  }

  lemma Step(seen: seq<Effect>, e: Effect)
    ensures var all := seen + [e];
            && FirstStop(all) == (if FirstStop(seen).Some? then FirstStop(seen)
                                  else if e.Stop? then Some(e.result) else None)
            && SettingsAfter(all) == Update(SettingsAfter(seen), e)
  {
    FirstStopAppend(seen, [e]);
    assert (seen + [e])[..|seen|] == seen;
  }

  /** Once a line has decided the outcome, the rest of the text has no effect. */
  lemma StoppedEarly(seen: seq<Effect>, e: Effect, rest: seq<Effect>)
    requires FirstStop(seen).None? && e.Stop?
    ensures Outcome(seen + [e] + rest) == e.result
  {
    Step(seen, e);
    FirstStopAppend(seen + [e], rest);
  }

  /** The switch over the first field of a line. */
  method ReadLine(line: string) returns (e: Effect)
    ensures e == EffectOf(line)
  {
    if TrimSpace(line) == "" {
      return Nothing;
    }
    var fields := Fields(line);
    var name, n := fields[0], |fields|;
    if name == "disabled" {
      return Stop(IGNORED);
    } else if name == "enabled" {
      return Nothing;
    } else if name == "interpreter" {
      return Nothing;
    } else if name == "offset" {
      if n != 2 {
        return Stop(Failed(InvalidFormat(line)));
      }
      var offset64 := ParseInt8(fields[1]);
      if offset64.None? {
        return Stop(Failed(InvalidOffset(fields[1])));
      }
      return Offset(offset64.value);
    } else if name == "magic" {
      if n != 2 {
        return Stop(Failed(InvalidFormat(line)));
      }
      return Magic(fields[1]);
    } else if name == "mask" {
      if n != 2 {
        return Stop(Failed(InvalidFormat(line)));
      }
      return Mask(fields[1]);
    } else if name == "flags" || name == "flags:" {
      if n != 2 {
        return Stop(Failed(InvalidFormat(line)));
      }
      if 'F' !in fields[1] {
        return Stop(IGNORED);
      }
      return Nothing;
    } else {
      return Stop(Failed(UnrecognizedField(name)));
    }
  }

  /** Reads the next line and says what it does. */
  method ScanLine(unread: string) returns (e: Effect, after: string)
    requires unread != []
    ensures Effects(Lines(unread)) == [e] + Effects(Lines(after)) && |after| < |unread|
  {
    var (line, rest) := NextLine(unread);
    after := rest;
    e := ReadLine(line);
    assert Lines(unread)[1..] == Lines(rest);
  }

  lemma NothingSeen()
    ensures FirstStop([]).None? && SettingsAfter([]) == NO_SETTINGS
  {
  }

  lemma NoLinesLeft(seen: seq<Effect>)
    ensures seen + Effects(Lines("")) == seen
  {
  }

  /** The streaming reader gives the meaning of the whole text. */
  method ParseBinfmtMisc(text: string) returns (r: ParseResult)
    ensures r == Meaning(text)
  {
    hide EffectOf, Effects, Lines, Finish, FirstStop, SettingsAfter;
    NothingSeen();
    var offset: int := 0;
    var magicString, maskString := "", "";
    var unread := text;
    ghost var seen: seq<Effect> := [];
    while unread != []
      invariant seen + Effects(Lines(unread)) == Effects(Lines(text))
      invariant FirstStop(seen).None?
      invariant Settings(offset, magicString, maskString) == SettingsAfter(seen)
      decreases |unread|
    {
      var e, after := ScanLine(unread);
      Step(seen, e);
      match e {
        case Stop(result) =>
          StoppedEarly(seen, e, Effects(Lines(after)));
          assert seen + [e] + Effects(Lines(after)) == seen + ([e] + Effects(Lines(after)));
          return result;
        case Offset(n) => offset := n;
        case Magic(s) => magicString := s;
        case Mask(s) => maskString := s;
        case Nothing =>
      }
      seen := seen + [e];
      unread := after;
    }
    NoLinesLeft(seen);
    r := DecodeEntry(offset, magicString, maskString);
  }

  /** What happens after the last line. */
  method DecodeEntry(offset: int, magicString: string, maskString: string) returns (r: ParseResult)
    ensures r == Finish(Settings(offset, magicString, maskString))
  {
    if magicString == "" || maskString == "" {
      return IGNORED;
    }
    var magic := DecodeHex(magicString);
    if magic.None? {
      return Failed(InvalidMagic(magicString));
    }
    var mask := DecodeHex(maskString);
    if mask.None? {
      return Failed(InvalidMask(maskString));
    }
    return Parsed(offset, magic.value, mask.value);
  }

  // ---------------------------------------------------------------- what the meaning depends on

  predicate SameKind(e: Effect, f: Effect) {
    (e.Offset? && f.Offset?) || (e.Magic? && f.Magic?) || (e.Mask? && f.Mask?)
  }

  lemma {:induction false} SettingsAppend(a: seq<Effect>, a': seq<Effect>, b: seq<Effect>)
    requires SettingsAfter(a) == SettingsAfter(a')
    ensures SettingsAfter(a + b) == SettingsAfter(a' + b)
  {
    if b == [] {
      assert a + b == a && a' + b == a';
    } else {
      SettingsAppend(a, a', b[..|b| - 1]);
      hide SettingsAfter, Update;
      LastOfAppended(a, b);
      LastOfAppended(a', b);
    }
  }

  lemma LastOfAppended(a: seq<Effect>, b: seq<Effect>)
    requires b != []
    ensures SettingsAfter(a + b) == Update(SettingsAfter(a + b[..|b| - 1]), b[|b| - 1])
  {
    assert (a + b)[..|a + b| - 1] == a + b[..|b| - 1];
  }

  /** A line without effect can stand anywhere. */
  lemma LinesWithoutEffect(a: seq<Effect>, b: seq<Effect>)
    ensures Outcome(a + [Nothing] + b) == Outcome(a + b)
  {
    Step(a, Nothing);
    FirstStopAppend(a, b);
    FirstStopAppend(a + [Nothing], b);
    SettingsAppend(a + [Nothing], a, b);
  }

  /** The last line of a kind wins: it overrides every earlier one, and later lines of other kinds leave it alone. */
  lemma {:induction false} LastLineWins(effects: seq<Effect>, k: nat)
    requires k < |effects|
    requires forall j :: k < j < |effects| ==> !SameKind(effects[j], effects[k])
    ensures match effects[k]
            case Offset(n) => SettingsAfter(effects).offset == n
            case Magic(text) => SettingsAfter(effects).magic == text
            case Mask(text) => SettingsAfter(effects).mask == text
            case _ => true
  {
    var n := |effects| - 1;
    if k < n {
      LastLineWins(effects[..n], k);
      assert !SameKind(effects[n], effects[k]);
    }
  }

  /** A kind of line that does not occur leaves its setting at the default. */
  lemma {:induction false} UnsetStaysDefault(effects: seq<Effect>, kind: Effect)
    requires forall j :: 0 <= j < |effects| ==> !SameKind(effects[j], kind)
    ensures kind.Offset? ==> SettingsAfter(effects).offset == 0
    ensures kind.Magic? ==> SettingsAfter(effects).magic == ""
    ensures kind.Mask? ==> SettingsAfter(effects).mask == ""
  {
    if effects != [] {
      UnsetStaysDefault(effects[..|effects| - 1], kind);
    }
  }

  /** Line number k is the last of its kind. */
  ghost predicate LastOfKind(effects: seq<Effect>, kind: Effect, k: nat) {
    && k < |effects| && SameKind(effects[k], kind)
    && forall j :: k < j < |effects| ==> !SameKind(effects[j], kind)
  }

  /** The last lines of this kind are the same in both texts, or neither has one. */
  ghost predicate SameLast(a: seq<Effect>, b: seq<Effect>, kind: Effect) {
    || (exists j: nat, k: nat :: LastOfKind(a, kind, j) && LastOfKind(b, kind, k) && a[j] == b[k])
    || ((forall j :: 0 <= j < |a| ==> !SameKind(a[j], kind)) && forall k :: 0 <= k < |b| ==> !SameKind(b[k], kind))
  }

  lemma SameLastSameSetting(a: seq<Effect>, b: seq<Effect>, kind: Effect)
    requires SameLast(a, b, kind)
    ensures kind.Offset? ==> SettingsAfter(a).offset == SettingsAfter(b).offset
    ensures kind.Magic? ==> SettingsAfter(a).magic == SettingsAfter(b).magic
    ensures kind.Mask? ==> SettingsAfter(a).mask == SettingsAfter(b).mask
  {
    if j: nat, k: nat :| LastOfKind(a, kind, j) && LastOfKind(b, kind, k) && a[j] == b[k] {
      LastLineWins(a, j);
      LastLineWins(b, k);
    } else {
      UnsetStaysDefault(a, kind);
      UnsetStaysDefault(b, kind);
    }
  }

  /** If no line decides the outcome, it depends on the last offset, magic and mask lines only. */
  lemma OnlyLastLinesCount(a: seq<Effect>, b: seq<Effect>)
    requires FirstStop(a).None? && FirstStop(b).None?
    requires SameLast(a, b, Offset(0)) && SameLast(a, b, Magic("")) && SameLast(a, b, Mask(""))
    ensures Outcome(a) == Outcome(b)
  {
    hide SettingsAfter, SameLast, FirstStop;
    SameLastSameSetting(a, b, Offset(0));
    SameLastSameSetting(a, b, Magic(""));
    SameLastSameSetting(a, b, Mask(""));
  }

  /** Whatever is accepted, and not to be ignored, has a magic value and a mask that are not empty. */
  lemma AcceptedIsComplete(text: string)
    requires Meaning(text).Parsed? && Meaning(text).offset >= 0
    ensures FirstStop(Effects(Lines(text))).None?
    ensures Meaning(text).magic != [] && Meaning(text).mask != []
    ensures Meaning(text).offset <= 127
  {
    hide EffectOf, Effects, Lines, FirstStop, SettingsAfter;
    EffectsBounded(Lines(text));
    StopsAreNegative(Effects(Lines(text)));
    OffsetsFit(Effects(Lines(text)));
  }

  predicate Bounded(e: Effect) {
    && (e.Stop? ==> e.result.Failed? || e.result == IGNORED)
    && (e.Offset? ==> -128 <= e.offset <= 127)
  }

  lemma {:induction false} EffectsBounded(lines: seq<string>)
    ensures forall k :: 0 <= k < |Effects(lines)| ==> Bounded(Effects(lines)[k])
  {
    if lines != [] {
      EffectBounds(lines[0]);
      EffectsBounded(lines[1..]);
    }
  }

  lemma EffectBounds(line: string)
    ensures Bounded(EffectOf(line))
  {
  }

  lemma {:induction false} StopsAreNegative(effects: seq<Effect>)
    requires forall k :: 0 <= k < |effects| ==> Bounded(effects[k])
    ensures FirstStop(effects).Some? ==> FirstStop(effects).value.Failed? || FirstStop(effects).value == IGNORED
  {
    if effects != [] {
      StopsAreNegative(effects[1..]);
    }
  }

  lemma {:induction false} OffsetsFit(effects: seq<Effect>)
    requires forall k :: 0 <= k < |effects| ==> Bounded(effects[k])
    ensures SettingsAfter(effects).offset <= 127
  {
    if effects != [] {
      OffsetsFit(effects[..|effects| - 1]);
    }
  }

  // ---------------------------------------------------------------- what each line does

  /** A blank line does nothing. */
  lemma BlankLineDoesNothing(line: string)
    requires AllSpace(line)
    ensures EffectOf(line) == Nothing
  {
  }

  /** A line of one word, whatever white space is around it. */
  lemma OneWordLine(a: string, w: string, b: string)
    requires AllSpace(a) && IsWord(w) && AllSpace(b)
    ensures EffectOf(a + w + b) ==
            if w == "disabled" then Stop(Parsed(-1, [], []))
            else if w == "enabled" || w == "interpreter" then Nothing
            else if w == "offset" || w == "magic" || w == "mask" || w == "flags" || w == "flags:"
              then Stop(Failed(InvalidFormat(a + w + b)))
            else Stop(Failed(UnrecognizedField(w)))
  {
    OneField(a, w, b);
    hide Fields;
  }

  /** A line of two words. */
  lemma TwoWordLine(a: string, w: string, gap: string, v: string)
    requires AllSpace(a) && IsWord(w) && gap != [] && AllSpace(gap) && IsWord(v)
    ensures EffectOf(a + w + gap + v) ==
            if w == "disabled" then Stop(Parsed(-1, [], []))
            else if w == "enabled" || w == "interpreter" then Nothing
            else if w == "offset" then
              (if ParseInt8(v).Some? then Offset(ParseInt8(v).value) else Stop(Failed(InvalidOffset(v))))
            else if w == "magic" then Magic(v)
            else if w == "mask" then Mask(v)
            else if w == "flags" || w == "flags:" then (if 'F' in v then Nothing else Stop(Parsed(-1, [], [])))
            else Stop(Failed(UnrecognizedField(w)))
  {
    TwoFields(a, w, gap, v);
    hide Fields, ParseInt8;
  }

  /** Of a line of more than two words, only the first counts, and where one value is expected it is an error. */
  lemma LongLine(a: string, w: string, gap: string, more: string)
    requires AllSpace(a) && IsWord(w) && gap != [] && AllSpace(gap) && |Fields(gap + more)| >= 2
    ensures EffectOf(a + w + gap + more) ==
            if w == "disabled" then Stop(Parsed(-1, [], []))
            else if w == "enabled" || w == "interpreter" then Nothing
            else if w == "offset" || w == "magic" || w == "mask" || w == "flags" || w == "flags:"
              then Stop(Failed(InvalidFormat(a + w + gap + more)))
            else Stop(Failed(UnrecognizedField(w)))
  {
    FirstField(a, w, gap, more);
    hide Fields;
  }

  lemma SettingsOfThree(offset: int, magic: string, mask: string)
    ensures var effects := [Offset(offset), Magic(magic), Mask(mask)];
            FirstStop(effects).None? && SettingsAfter(effects) == Settings(offset, magic, mask)
  {
    Step([], Offset(offset));
    Step([Offset(offset)], Magic(magic));
    Step([Offset(offset), Magic(magic)], Mask(mask));
    assert [] + [Offset(offset)] == [Offset(offset)];
    assert [Offset(offset)] + [Magic(magic)] == [Offset(offset), Magic(magic)];
    assert [Offset(offset), Magic(magic)] + [Mask(mask)] == [Offset(offset), Magic(magic), Mask(mask)];
  }

  /** What an offset, a magic value and a mask make of an entry. */
  lemma SettingsDecide(offset: int, magic: string, mask: string)
    requires magic != "" && mask != ""
    ensures Outcome([Offset(offset), Magic(magic), Mask(mask)]) ==
            match (DecodeHex(magic), DecodeHex(mask))
            case (None, _) => Failed(InvalidMagic(magic))
            case (Some(_), None) => Failed(InvalidMask(mask))
            case (Some(m), Some(k)) => Parsed(offset, m, k)
  {
    SettingsOfThree(offset, magic, mask);
    hide DecodeHex, SettingsAfter, FirstStop;
  }

  /** Without a magic value or without a mask, an entry is ignored. */
  lemma MissingSettings(effects: seq<Effect>)
    requires FirstStop(effects).None?
    requires || (forall k :: 0 <= k < |effects| ==> !effects[k].Magic?)
             || (forall k :: 0 <= k < |effects| ==> !effects[k].Mask?)
    ensures Outcome(effects) == Parsed(-1, [], [])
  {
    if forall k :: 0 <= k < |effects| ==> !effects[k].Magic? {
      UnsetStaysDefault(effects, Magic(""));
    } else {
      UnsetStaysDefault(effects, Mask(""));
    }
    hide SettingsAfter, FirstStop, DecodeHex;
  }
}
