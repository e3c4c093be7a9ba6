/**
 The text of a registry entry as the kernel prints it (admin-guide/binfmt-misc), and what the parser makes of it.
 Every line may be indented, and names may be separated from values by more than one blank.
 */
module BinfmtText {
  import opened Wrappers
  import opened GoText
  import opened BinfmtParser

  /** An entry is recognised by a file name extension, or by a masked magic value at an offset. */
  datatype Recognition =
    | ByExtension(extension: string)
    | ByMagic(offset: nat, magic: seq<bv8>, mask: Option<seq<bv8>>)

  datatype Entry = Entry(enabled: bool, interpreter: string, flags: string, recognition: Recognition)

  datatype Layout = Layout(indent: string, gap: string)

  predicate Blanks(s: string) {
    forall k :: 0 <= k < |s| ==> s[k] == ' ' || s[k] == '\t'
  }

  predicate ValidLayout(l: Layout) {
    Blanks(l.indent) && Blanks(l.gap) && l.gap != []
  }

  /**
   What holds of every entry that the kernel accepts: flags are letters, paths stay on one line, magic is not empty.
   */
  predicate ValidEntry(e: Entry) {
    && '\n' !in e.interpreter
    && (e.flags == "" || IsWord(e.flags))
    && match e.recognition
       case ByExtension(extension) => '\n' !in extension
       case ByMagic(_, magic, mask) => magic != [] && (mask.Some? ==> mask.value != [])
  }

  function Line(l: Layout, name: string, value: string): string {
    l.indent + name + l.gap + value
  }

  function RecognitionLines(l: Layout, r: Recognition): seq<string> {
    match r
    case ByExtension(extension) => [Line(l, "extension", "." + extension)]
    case ByMagic(offset, magic, mask) =>
      [Line(l, "offset", Decimal(offset)), Line(l, "magic", EncodeHex(magic))]
      + if mask.Some? then [Line(l, "mask", EncodeHex(mask.value))] else []
  }

  function EntryLines(l: Layout, e: Entry): seq<string> {
    [l.indent + (if e.enabled then "enabled" else "disabled"),
     Line(l, "interpreter", e.interpreter),
     Line(l, "flags:", e.flags)]
    + RecognitionLines(l, e.recognition)
  }

  function JoinLines(lines: seq<string>): string {
    if lines == [] then "" else lines[0] + "\n" + JoinLines(lines[1..])
  }

  function Render(l: Layout, e: Entry): string {
    JoinLines(EntryLines(l, e))
  }

  /** The lines of an entry, for instance of one that is recognised by a masked magic value. */
  lemma PrintedLines(l: Layout, path: string, flags: string, offset: nat, magic: seq<bv8>, mask: seq<bv8>)
    ensures EntryLines(l, Entry(true, path, flags, ByMagic(offset, magic, Some(mask)))) ==
            [l.indent + "enabled", l.indent + "interpreter" + l.gap + path, l.indent + "flags:" + l.gap + flags,
             l.indent + "offset" + l.gap + Decimal(offset), l.indent + "magic" + l.gap + EncodeHex(magic),
             l.indent + "mask" + l.gap + EncodeHex(mask)]
  {
  }

  /** What the parser should give back. */
  function Recovered(l: Layout, e: Entry): ParseResult {
    if !e.enabled then IGNORED
    else if e.flags == "" then Failed(InvalidFormat(Line(l, "flags:", "")))
    else if 'F' !in e.flags then IGNORED
    else
      match e.recognition
      case ByExtension(_) => Failed(UnrecognizedField("extension"))
      case ByMagic(offset, magic, mask) =>
        if offset > 127 then Failed(InvalidOffset(Decimal(offset)))
        else if mask.None? then IGNORED
        else Parsed(offset, magic, mask.value)
  }

  // ---------------------------------------------------------------- one line at a time

  lemma BlanksAreSpace(s: string)
    requires Blanks(s)
    ensures AllSpace(s) && '\n' !in s && '\r' !in s
  {
  }

  lemma LineIsOneLine(l: Layout, name: string, value: string)
    requires ValidLayout(l) && IsWord(name) && '\n' !in value
    ensures '\n' !in Line(l, name, value)
  {
  }

  lemma JoinLinesStep(line: string, lines: seq<string>)
    ensures JoinLines([line] + lines) == line + "\n" + JoinLines(lines)
  {
    assert ([line] + lines)[1..] == lines;
  }

  /** A printed line, once split off, has its effect before the rest of the text. */
  lemma ReadsFirst(line: string, more: seq<string>, effects: seq<Effect>)
    requires '\n' !in line && Effects(Lines(JoinLines(more))) == effects
    ensures Effects(Lines(JoinLines([line] + more))) == [EffectOf(DropCarriageReturn(line))] + effects
  {
    hide EffectOf, NextLine;
    JoinLinesStep(line, more);
    LinesOfLine(line, JoinLines(more));
    var lines := Lines(line + "\n" + JoinLines(more));
    assert lines[1..] == Lines(JoinLines(more));
  }

  /** A line with a name and a value is left alone by the line splitter, and splits into these two. */
  lemma ValueLine(l: Layout, name: string, value: string)
    requires ValidLayout(l) && IsWord(name) && IsWord(value)
    ensures '\n' !in Line(l, name, value)
    ensures DropCarriageReturn(Line(l, name, value)) == Line(l, name, value)
    ensures Fields(Line(l, name, value)) == [name, value]
  {
    BlanksAreSpace(l.indent);
    BlanksAreSpace(l.gap);
    TwoFields(l.indent, name, l.gap, value);
    LineIsOneLine(l, name, value);
    var s := Line(l, name, value);
    assert s[|s| - 1] == value[|value| - 1];
  }

  /** Without a value, there is only the name. */
  lemma BareLine(l: Layout, name: string)
    requires ValidLayout(l) && IsWord(name)
    ensures '\n' !in Line(l, name, "")
    ensures DropCarriageReturn(Line(l, name, "")) == Line(l, name, "")
    ensures Fields(Line(l, name, "")) == [name]
  {
    BlanksAreSpace(l.indent);
    BlanksAreSpace(l.gap);
    OneField(l.indent, name, l.gap);
    LineIsOneLine(l, name, "");
    var s := Line(l, name, "");
    assert s == l.indent + name + l.gap;
    assert s[|s| - 1] == l.gap[|l.gap| - 1];
  }

  /** Whatever follows the name, and whether or not a carriage return is dropped, the name is the first field. */
  lemma NameComesFirst(l: Layout, name: string, value: string)
    requires ValidLayout(l) && IsWord(name)
    ensures var fields := Fields(DropCarriageReturn(Line(l, name, value))); fields != [] && fields[0] == name
  {
    BlanksAreSpace(l.indent);
    BlanksAreSpace(l.gap);
    var s := Line(l, name, value);
    if value == "" {
      BareLine(l, name);
    } else {
      assert s[|s| - 1] == value[|value| - 1];
      var kept := DropCarriageReturn(value);
      assert DropCarriageReturn(s) == l.indent + name + l.gap + kept;
      FirstField(l.indent, name, l.gap, kept);
    }
  }

  // What a line does, told from its fields.

  lemma StatusEffect(line: string, enabled: bool)
    requires Fields(line) == [if enabled then "enabled" else "disabled"]
    ensures EffectOf(line) == if enabled then Nothing else Stop(IGNORED)
  {
    hide Fields, ParseInt8, Decimal;
  }

  lemma InterpreterEffect(line: string)
    requires Fields(line) != [] && Fields(line)[0] == "interpreter"
    ensures EffectOf(line) == Nothing
  {
    hide Fields, ParseInt8, Decimal;
  }

  lemma BareFlagsEffect(line: string)
    requires Fields(line) == ["flags:"]
    ensures EffectOf(line) == Stop(Failed(InvalidFormat(line)))
  {
    hide Fields, ParseInt8, Decimal;
    assert "flags:"[0] == 'f' && "disabled"[0] == 'd' && "enabled"[0] == 'e' && "interpreter"[0] == 'i';
  }

  lemma FlagsEffect(line: string, flags: string)
    requires Fields(line) == ["flags:", flags]
    ensures EffectOf(line) == if 'F' in flags then Nothing else Stop(IGNORED)
  {
    hide Fields, ParseInt8, Decimal;
    assert "flags:"[0] == 'f' && "disabled"[0] == 'd' && "enabled"[0] == 'e' && "interpreter"[0] == 'i';
    assert "offset"[0] == 'o' && "magic"[0] == 'm' && "mask"[0] == 'm';
  }

  lemma ExtensionEffect(line: string)
    requires Fields(line) != [] && Fields(line)[0] == "extension"
    ensures EffectOf(line) == Stop(Failed(UnrecognizedField("extension")))
  {
    hide Fields, ParseInt8, Decimal;
    var name := Fields(line)[0];
    assert |name| == 9;
    assert |"disabled"| == 8 && |"enabled"| == 7 && |"interpreter"| == 11 && |"offset"| == 6;
    assert |"magic"| == 5 && |"mask"| == 4 && |"flags"| == 5 && |"flags:"| == 6;
  }

  lemma OffsetEffect(line: string, offset: nat)
    requires Fields(line) == ["offset", Decimal(offset)]
    ensures EffectOf(line) == if offset <= 127 then Offset(offset) else Stop(Failed(InvalidOffset(Decimal(offset))))
  {
    hide Fields, ParseInt8, Decimal;
    OffsetRoundTrip(offset);
  }

  lemma MagicEffect(line: string, text: string)
    requires Fields(line) == ["magic", text]
    ensures EffectOf(line) == Magic(text)
  {
    hide Fields, ParseInt8, Decimal;
  }

  lemma MaskEffect(line: string, text: string)
    requires Fields(line) == ["mask", text]
    ensures EffectOf(line) == Mask(text)
  {
    hide Fields, ParseInt8, Decimal;
  }

  // ---------------------------------------------------------------- the lines of an entry, each before any rest

  lemma StatusLine(l: Layout, enabled: bool, more: seq<string>, effects: seq<Effect>)
    requires ValidLayout(l)
    requires Effects(Lines(JoinLines(more))) == effects
    ensures Effects(Lines(JoinLines([l.indent + (if enabled then "enabled" else "disabled")] + more)))
            == [if enabled then Nothing else Stop(IGNORED)] + effects
  {
    hide EffectOf, Effects, Lines, JoinLines, Fields, EncodeHex, Decimal;
    BlanksAreSpace(l.indent);
    var word := if enabled then "enabled" else "disabled";
    var line := l.indent + word;
    OneField(l.indent, word, "");
    assert l.indent + word + "" == line;
    assert line[|line| - 1] == 'd';
    StatusEffect(line, enabled);
    ReadsFirst(line, more, effects);
  }

  lemma InterpreterLine(l: Layout, interpreter: string, more: seq<string>, effects: seq<Effect>)
    requires ValidLayout(l) && '\n' !in interpreter
    requires Effects(Lines(JoinLines(more))) == effects
    ensures Effects(Lines(JoinLines([Line(l, "interpreter", interpreter)] + more))) == [Nothing] + effects
  {
    hide EffectOf, Effects, Lines, JoinLines, Fields, EncodeHex, Decimal;
    var line := Line(l, "interpreter", interpreter);
    NameComesFirst(l, "interpreter", interpreter);
    LineIsOneLine(l, "interpreter", interpreter);
    InterpreterEffect(DropCarriageReturn(line));
    ReadsFirst(line, more, effects);
  }

  /** What the flags line does. */
  function FlagsDo(l: Layout, flags: string): Effect {
    if flags == "" then Stop(Failed(InvalidFormat(Line(l, "flags:", ""))))
    else if 'F' in flags then Nothing else Stop(IGNORED)
  }

  lemma FlagsLine(l: Layout, flags: string, more: seq<string>, effects: seq<Effect>)
    requires ValidLayout(l) && (flags == "" || IsWord(flags))
    requires Effects(Lines(JoinLines(more))) == effects
    ensures Effects(Lines(JoinLines([Line(l, "flags:", flags)] + more))) == [FlagsDo(l, flags)] + effects
  {
    hide EffectOf, Effects, Lines, JoinLines, Fields, EncodeHex, Decimal;
    var line := Line(l, "flags:", flags);
    if flags == "" {
      BareLine(l, "flags:");
      BareFlagsEffect(line);
    } else {
      ValueLine(l, "flags:", flags);
      FlagsEffect(line, flags);
    }
    ReadsFirst(line, more, effects);
  }

  lemma ExtensionLine(l: Layout, extension: string, more: seq<string>, effects: seq<Effect>)
    requires ValidLayout(l) && '\n' !in extension
    requires Effects(Lines(JoinLines(more))) == effects
    ensures Effects(Lines(JoinLines([Line(l, "extension", "." + extension)] + more)))
            == [Stop(Failed(UnrecognizedField("extension")))] + effects
  {
    hide EffectOf, Effects, Lines, JoinLines, Fields, EncodeHex, Decimal;
    var line := Line(l, "extension", "." + extension);
    NameComesFirst(l, "extension", "." + extension);
    LineIsOneLine(l, "extension", "." + extension);
    ExtensionEffect(DropCarriageReturn(line));
    ReadsFirst(line, more, effects);
  }

  lemma OffsetLine(l: Layout, offset: nat, more: seq<string>, effects: seq<Effect>)
    requires ValidLayout(l)
    requires Effects(Lines(JoinLines(more))) == effects
    ensures Effects(Lines(JoinLines([Line(l, "offset", Decimal(offset))] + more)))
            == [if offset <= 127 then Offset(offset) else Stop(Failed(InvalidOffset(Decimal(offset))))]
               + effects
  {
    hide EffectOf, Effects, Lines, JoinLines, Fields, EncodeHex, Decimal;
    var line := Line(l, "offset", Decimal(offset));
    ValueLine(l, "offset", Decimal(offset));
    OffsetEffect(line, offset);
    ReadsFirst(line, more, effects);
  }

  lemma MagicLine(l: Layout, bytes: seq<bv8>, more: seq<string>, effects: seq<Effect>)
    requires ValidLayout(l) && bytes != []
    requires Effects(Lines(JoinLines(more))) == effects
    ensures Effects(Lines(JoinLines([Line(l, "magic", EncodeHex(bytes))] + more)))
            == [Magic(EncodeHex(bytes))] + effects
  {
    hide EffectOf, Effects, Lines, JoinLines, Fields, EncodeHex, Decimal;
    var line := Line(l, "magic", EncodeHex(bytes));
    ValueLine(l, "magic", EncodeHex(bytes));
    MagicEffect(line, EncodeHex(bytes));
    ReadsFirst(line, more, effects);
  }

  lemma MaskLine(l: Layout, bytes: seq<bv8>, more: seq<string>, effects: seq<Effect>)
    requires ValidLayout(l) && bytes != []
    requires Effects(Lines(JoinLines(more))) == effects
    ensures Effects(Lines(JoinLines([Line(l, "mask", EncodeHex(bytes))] + more)))
            == [Mask(EncodeHex(bytes))] + effects
  {
    hide EffectOf, Effects, Lines, JoinLines, Fields, EncodeHex, Decimal;
    var line := Line(l, "mask", EncodeHex(bytes));
    ValueLine(l, "mask", EncodeHex(bytes));
    MaskEffect(line, EncodeHex(bytes));
    ReadsFirst(line, more, effects);
  }

  // ---------------------------------------------------------------- the whole text

  /** The effects of the lines that say how the entry is recognised. */
  function RecognitionEffects(r: Recognition): seq<Effect> {
    match r
    case ByExtension(_) => [Stop(Failed(UnrecognizedField("extension")))]
    case ByMagic(offset, magic, mask) =>
      [if offset <= 127 then Offset(offset) else Stop(Failed(InvalidOffset(Decimal(offset)))), Magic(EncodeHex(magic))]
      + if mask.Some? then [Mask(EncodeHex(mask.value))] else []
  }

  function EntryEffects(l: Layout, e: Entry): seq<Effect> {
    [if e.enabled then Nothing else Stop(IGNORED), Nothing, FlagsDo(l, e.flags)] + RecognitionEffects(e.recognition)
  }

  lemma NoLines()
    ensures Effects(Lines(JoinLines([]))) == []
  {
  }

  lemma MaskText(l: Layout, mask: Option<seq<bv8>>)
    requires ValidLayout(l) && (mask.Some? ==> mask.value != [])
    ensures Effects(Lines(JoinLines(if mask.Some? then [Line(l, "mask", EncodeHex(mask.value))] else [])))
            == if mask.Some? then [Mask(EncodeHex(mask.value))] else []
  {
    hide EffectOf, Effects, Lines, JoinLines, EncodeHex, Decimal;
    NoLines();
    if mask.Some? {
      MaskLine(l, mask.value, [], []);
      assert [Line(l, "mask", EncodeHex(mask.value))] + [] == [Line(l, "mask", EncodeHex(mask.value))];
    }
  }

  lemma MagicText(l: Layout, offset: nat, magic: seq<bv8>, mask: Option<seq<bv8>>)
    requires ValidLayout(l) && magic != [] && (mask.Some? ==> mask.value != [])
    ensures Effects(Lines(JoinLines(RecognitionLines(l, ByMagic(offset, magic, mask)))))
            == RecognitionEffects(ByMagic(offset, magic, mask))
  {
    hide EffectOf, Effects, Lines, JoinLines, EncodeHex, Decimal;
    var maskLines := if mask.Some? then [Line(l, "mask", EncodeHex(mask.value))] else [];
    var maskEffects := if mask.Some? then [Mask(EncodeHex(mask.value))] else [];
    var offsetLine, magicLine := Line(l, "offset", Decimal(offset)), Line(l, "magic", EncodeHex(magic));
    var offsetEffect := if offset <= 127 then Offset(offset) else Stop(Failed(InvalidOffset(Decimal(offset))));
    var magicEffect := Magic(EncodeHex(magic));
    MaskText(l, mask);
    MagicLine(l, magic, maskLines, maskEffects);
    OffsetLine(l, offset, [magicLine] + maskLines, [magicEffect] + maskEffects);
    assert [offsetLine] + ([magicLine] + maskLines) == RecognitionLines(l, ByMagic(offset, magic, mask));
    assert [offsetEffect] + ([magicEffect] + maskEffects) == RecognitionEffects(ByMagic(offset, magic, mask));
  }

  lemma RecognitionText(l: Layout, r: Recognition)
    requires ValidLayout(l) && ValidEntry(Entry(true, "", "", r))
    ensures Effects(Lines(JoinLines(RecognitionLines(l, r)))) == RecognitionEffects(r)
  {
    match r {
      case ByExtension(extension) =>
        ExtensionLine(l, extension, [], []);
        assert RecognitionLines(l, r) == [Line(l, "extension", "." + extension)] + [];
      case ByMagic(offset, magic, mask) =>
        MagicText(l, offset, magic, mask);
    }
  }

  /** All lines but the first. */
  lemma DetailsText(l: Layout, e: Entry)
    requires ValidLayout(l) && ValidEntry(e)
    ensures Effects(Lines(JoinLines([Line(l, "interpreter", e.interpreter)]
                                    + ([Line(l, "flags:", e.flags)] + RecognitionLines(l, e.recognition)))))
            == [Nothing] + ([FlagsDo(l, e.flags)] + RecognitionEffects(e.recognition))
  {
    hide EffectOf, Effects, Lines, JoinLines, EncodeHex, Decimal;
    var more, effects := RecognitionLines(l, e.recognition), RecognitionEffects(e.recognition);
    RecognitionText(l, e.recognition);
    FlagsLine(l, e.flags, more, effects);
    InterpreterLine(l, e.interpreter, [Line(l, "flags:", e.flags)] + more, [FlagsDo(l, e.flags)] + effects);
  }

  lemma EffectsOfRendered(l: Layout, e: Entry)
    requires ValidLayout(l) && ValidEntry(e)
    ensures Effects(Lines(Render(l, e))) == EntryEffects(l, e)
  {
    hide EffectOf, Effects, Lines, JoinLines, Line;
    var status := l.indent + (if e.enabled then "enabled" else "disabled");
    var statusEffect := if e.enabled then Nothing else Stop(IGNORED);
    var details := [Line(l, "interpreter", e.interpreter)]
                   + ([Line(l, "flags:", e.flags)] + RecognitionLines(l, e.recognition));
    var effects := [Nothing] + ([FlagsDo(l, e.flags)] + RecognitionEffects(e.recognition));
    DetailsText(l, e);
    StatusLine(l, e.enabled, details, effects);
    assert [status] + details == EntryLines(l, e);
    assert [statusEffect] + effects == EntryEffects(l, e);
  }

  lemma OutcomeOfMagic(offset: int, magic: seq<bv8>, mask: Option<seq<bv8>>)
    requires magic != [] && (mask.Some? ==> mask.value != [])
    ensures Outcome([Nothing, Nothing, Nothing, Offset(offset), Magic(EncodeHex(magic))]
                    + if mask.Some? then [Mask(EncodeHex(mask.value))] else [])
            == if mask.Some? then Parsed(offset, magic, mask.value) else IGNORED
  {
    var settings := [Offset(offset), Magic(EncodeHex(magic))]
                    + if mask.Some? then [Mask(EncodeHex(mask.value))] else [];
    SettingsOfEntry(offset, magic, mask);
    hide EncodeHex, Outcome;
    LinesWithoutEffect([], settings);
    LinesWithoutEffect([], [Nothing] + settings);
    LinesWithoutEffect([], [Nothing] + ([Nothing] + settings));
    assert [] + settings == settings && [] + [Nothing] + settings == [Nothing] + settings;
    assert [] + ([Nothing] + settings) == [Nothing] + settings;
    assert [] + [Nothing] + ([Nothing] + settings) == [Nothing] + ([Nothing] + settings);
    assert [] + ([Nothing] + ([Nothing] + settings)) == [Nothing] + ([Nothing] + settings);
    assert [] + [Nothing] + ([Nothing] + ([Nothing] + settings))
        == [Nothing, Nothing, Nothing, Offset(offset), Magic(EncodeHex(magic))]
           + if mask.Some? then [Mask(EncodeHex(mask.value))] else [];
  }

  lemma SettingsOfEntry(offset: int, magic: seq<bv8>, mask: Option<seq<bv8>>)
    requires magic != [] && (mask.Some? ==> mask.value != [])
    ensures Outcome([Offset(offset), Magic(EncodeHex(magic))]
                    + if mask.Some? then [Mask(EncodeHex(mask.value))] else [])
            == if mask.Some? then Parsed(offset, magic, mask.value) else IGNORED
  {
    HexRoundTrip(magic);
    var text := EncodeHex(magic);
    if mask.Some? {
      HexRoundTrip(mask.value);
      SettingsDecide(offset, text, EncodeHex(mask.value));
      hide EncodeHex, DecodeHex, Outcome;
      assert [Offset(offset), Magic(text)] + [Mask(EncodeHex(mask.value))]
          == [Offset(offset), Magic(text), Mask(EncodeHex(mask.value))];
    } else {
      NoStop(offset, text);
      MissingSettings([Offset(offset), Magic(text)]);
      hide EncodeHex, DecodeHex, Outcome;
      assert [Offset(offset), Magic(text)] + [] == [Offset(offset), Magic(text)];
    }
  }

  lemma NoStop(offset: int, text: string)
    ensures FirstStop([Offset(offset), Magic(text)]).None?
  {
    var effects := [Offset(offset), Magic(text)];
    assert effects[1..] == [Magic(text)] && effects[1..][1..] == [];
    assert FirstStop([Magic(text)]).None?;
  }

  /**
   Parsing what the kernel prints: an enabled entry with an F flag, a mask and an offset that fits in 8 signed bits is
   recovered byte for byte. Every other entry is ignored or rejected, and an enabled entry without any flags is among
   those that are rejected.
   */
  lemma ParserRecoversEntry(l: Layout, e: Entry)
    requires ValidLayout(l) && ValidEntry(e)
    ensures Meaning(Render(l, e)) == Recovered(l, e)
  {
    hide EncodeHex, Decimal, Effects, Lines, Render, Line;
    EffectsOfRendered(l, e);
    var effects := EntryEffects(l, e);
    if !e.enabled {
      StoppedEarly([], effects[0], effects[1..]);
      assert [] + [effects[0]] + effects[1..] == effects;
    } else if e.flags == "" || 'F' !in e.flags {
      StoppedEarly([Nothing, Nothing], effects[2], effects[3..]);
      assert [Nothing, Nothing] + [effects[2]] + effects[3..] == effects;
    } else {
      match e.recognition {
        case ByExtension(_) =>
          StoppedEarly([Nothing, Nothing, Nothing], effects[3], []);
          assert [Nothing, Nothing, Nothing] + [effects[3]] + [] == effects;
        case ByMagic(offset, magic, mask) =>
          if offset > 127 {
            StoppedEarly([Nothing, Nothing, Nothing], effects[3], effects[4..]);
            assert [Nothing, Nothing, Nothing] + [effects[3]] + effects[4..] == effects;
          } else {
            OutcomeOfMagic(offset, magic, mask);
            assert effects == [Nothing, Nothing, Nothing, Offset(offset), Magic(EncodeHex(magic))]
                              + if mask.Some? then [Mask(EncodeHex(mask.value))] else [];
          }
      }
    }
  }
}
