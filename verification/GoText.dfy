/**
 The text helpers the program takes from Go's standard library: splitting into lines and fields, decimal and
 hexadecimal numbers. Texts are ASCII.
 */
module GoText {
  import opened Wrappers

  // ---------------------------------------------------------------- white space and fields

  predicate IsSpace(c: char) {
    c == ' ' || c == '\t' || c == '\n' || c == '\r' || c == '\U{0B}' || c == '\U{0C}'
  }

  predicate IsWord(s: string) {
    s != [] && forall k :: 0 <= k < |s| ==> !IsSpace(s[k])
  }

  predicate AllSpace(s: string) {
    forall k :: 0 <= k < |s| ==> IsSpace(s[k])
  }

  /** The number of leading characters that are white space, or that are not. */
  function SpanLength(s: string, space: bool): (n: nat)
    ensures n <= |s|
    ensures forall k :: 0 <= k < n ==> IsSpace(s[k]) == space
    ensures n < |s| ==> IsSpace(s[n]) != space
  {
    if s == [] || IsSpace(s[0]) != space then 0 else 1 + SpanLength(s[1..], space)
  }

  /** strings.Fields */
  function Fields(s: string): (r: seq<string>)
    ensures forall k :: 0 <= k < |r| ==> IsWord(r[k])
    ensures r == [] <==> AllSpace(s)
    decreases |s|
  {
    var skip := SpanLength(s, true);
    if skip == |s| then []
    else
      var rest := s[skip..];
      var n := SpanLength(rest, false);
      [rest[..n]] + Fields(rest[n..])
  }

  /** strings.TrimSpace */
  function TrimSpace(s: string): (r: string)
    ensures r == [] <==> AllSpace(s)
  {
    TrimRight(s[SpanLength(s, true)..])
  }

  function TrimRight(s: string): (r: string)
    ensures r <= s
    ensures s != [] && !IsSpace(s[0]) ==> r != []
    ensures r != [] ==> !IsSpace(r[|r| - 1])
  {
    if s == [] || !IsSpace(s[|s| - 1]) then s else TrimRight(s[..|s| - 1])
  }

  /** What counts as white space in ASCII. */
  lemma SpacesAre(c: char)
    ensures IsSpace(c) <==> c in " \t\n\r\U{0B}\U{0C}"
  {
    var spaces := " \t\n\r\U{0B}\U{0C}";
    assert spaces == [' ', '\t', '\n', '\r', '\U{0B}', '\U{0C}'];
  }

  lemma {:induction false} TrimRightEnd(w: string, b: string)
    requires IsWord(w) && AllSpace(b)
    ensures TrimRight(w + b) == w
  {
    if b == [] {
      assert w + b == w;
    } else {
      assert (w + b)[..|w + b| - 1] == w + b[..|b| - 1];
      TrimRightEnd(w, b[..|b| - 1]);
    }
  }

  /** White space is trimmed at both ends. */
  lemma TrimSpaceBothEnds(a: string, w: string, b: string)
    requires AllSpace(a) && IsWord(w) && AllSpace(b)
    ensures TrimSpace(a + w + b) == w
  {
    assert a + w + b == a + (w + b);
    SpanOfPrefix(a, w + b, true);
    assert (a + w + b)[|a|..] == w + b;
    TrimRightEnd(w, b);
  }

  lemma {:induction false} SpanOfPrefix(a: string, b: string, space: bool)
    requires forall k :: 0 <= k < |a| ==> IsSpace(a[k]) == space
    requires b != [] ==> IsSpace(b[0]) != space
    ensures SpanLength(a + b, space) == |a|
  {
    if a == [] {
      assert a + b == b;
    } else {
      assert (a + b)[1..] == a[1..] + b;
      SpanOfPrefix(a[1..], b, space);
    }
  }

  /** A line with one word. */
  lemma OneField(indent: string, name: string, gap: string)
    requires AllSpace(indent) && IsWord(name) && AllSpace(gap)
    ensures Fields(indent + name + gap) == [name]
  {
    var s := indent + name + gap;
    assert s == indent + (name + gap);
    SpanOfPrefix(indent, name + gap, true);
    var rest := s[|indent|..];
    assert rest == name + gap;
    SpanOfPrefix(name, gap, false);
    assert rest[..|name|] == name && rest[|name|..] == gap;
    assert Fields(gap) == [];
  }

  /** A line with a name and something after it. */
  lemma FirstField(indent: string, name: string, gap: string, more: string)
    requires AllSpace(indent) && IsWord(name) && gap != [] && AllSpace(gap)
    ensures Fields(indent + name + gap + more) == [name] + Fields(gap + more)
  {
    var s := indent + name + gap + more;
    assert s == indent + (name + (gap + more));
    SpanOfPrefix(indent, name + (gap + more), true);
    var rest := s[|indent|..];
    assert rest == name + (gap + more);
    SpanOfPrefix(name, gap + more, false);
    assert rest[..|name|] == name && rest[|name|..] == gap + more;
  }

  /** A line with a name and a value. */
  lemma TwoFields(indent: string, name: string, gap: string, value: string)
    requires AllSpace(indent) && IsWord(name) && gap != [] && AllSpace(gap) && IsWord(value)
    ensures Fields(indent + name + gap + value) == [name, value]
  {
    FirstField(indent, name, gap, value);
    OneField(gap, value, "");
    assert gap + value + "" == gap + value;
  }

  // ---------------------------------------------------------------- lines

  function IndexOf(s: string, c: char): (n: nat)
    ensures n <= |s|
    ensures forall k :: 0 <= k < n ==> s[k] != c
    ensures n < |s| ==> s[n] == c
  {
    if s == [] || s[0] == c then 0 else 1 + IndexOf(s[1..], c)
  }

  function DropCarriageReturn(line: string): string {
    if line != [] && line[|line| - 1] == '\r' then line[..|line| - 1] else line
  }

  /** One step of a scanner that splits lines: the next line, and the text after it. */
  function NextLine(text: string): (r: (string, string))
    requires text != []
    ensures |r.1| < |text|
  {
    var n := IndexOf(text, '\n');
    (DropCarriageReturn(text[..n]), if n == |text| then [] else text[n + 1..])
  }

  /** All lines of a text. */
  function Lines(text: string): seq<string>
    decreases |text|
  {
    if text == [] then [] else [NextLine(text).0] + Lines(NextLine(text).1)
  }

  lemma {:induction false} IndexOfPrefix(a: string, c: char, b: string)
    requires c !in a
    ensures IndexOf(a + [c] + b, c) == |a|
  {
    if a == [] {
      assert (a + [c] + b)[0] == c;
    } else {
      assert (a + [c] + b)[1..] == a[1..] + [c] + b;
      IndexOfPrefix(a[1..], c, b);
    }
  }

  /** A line that ends in a newline comes first, and the rest follows. */
  lemma LinesOfLine(line: string, rest: string)
    requires '\n' !in line
    ensures Lines(line + "\n" + rest) == [DropCarriageReturn(line)] + Lines(rest)
  {
    var text := line + "\n" + rest;
    IndexOfPrefix(line, '\n', rest);
    assert text[..|line|] == line && text[|line| + 1..] == rest;
  }

  /** A line that ends in a carriage return and a newline loses both. */
  lemma LinesOfCarriageReturn(line: string, rest: string)
    requires '\n' !in line
    ensures Lines(line + "\r\n" + rest) == [line] + Lines(rest)
  {
    var full := line + "\r";
    assert line + "\r\n" + rest == full + "\n" + rest;
    LinesOfLine(full, rest);
    assert full[..|full| - 1] == line;
  }

  /** A line need not end in a carriage return, and the last one need not end in a newline. */
  lemma LinesOfPlainLine(line: string, rest: string)
    requires '\n' !in line && '\r' !in line
    ensures Lines(line + "\n" + rest) == [line] + Lines(rest)
    ensures line != [] ==> Lines(line) == [line]
  {
    LinesOfLine(line, rest);
    if line != [] {
      assert IndexOf(line, '\n') == |line| && line[..|line|] == line;
      assert Lines([]) == [];
    }
  }

  // ---------------------------------------------------------------- decimal numbers

  predicate IsDigit(c: char) { '0' <= c <= '9' }

  function DigitValue(c: char): (n: nat)
    requires IsDigit(c)
    ensures n < 10
  {
    c as int - '0' as int
  }

  function Digit(n: nat): (c: char)
    requires n < 10
    ensures IsDigit(c) && DigitValue(c) == n
  {
    ('0' as int + n) as char
  }

  lemma DigitsAre(n: nat)
    requires n < 10
    ensures Digit(n) == "0123456789"[n]
  {
    var digits := "0123456789";
    assert digits == ['0', '1', '2', '3', '4', '5', '6', '7', '8', '9'];
  }

  /** The value of a string of decimal digits. */
  function DigitsValue(s: string): Option<nat> {
    if s == [] || !IsDigit(s[|s| - 1]) then None
    else
      var low := DigitValue(s[|s| - 1]);
      if |s| == 1 then Some(low)
      else
        match DigitsValue(s[..|s| - 1])
        case None => None
        case Some(high) => Some(10 * high + low)
  }

  /** strconv.ParseInt(s, 10, 8): a signed decimal number that fits in 8 bits. */
  function ParseInt8(s: string): (r: Option<int>)
    ensures r.Some? ==> -128 <= r.value <= 127
  {
    if s == [] then None
    else
      var signed := s[0] == '+' || s[0] == '-';
      match DigitsValue(if signed then s[1..] else s)
      case None => None
      case Some(n) =>
        var v: int := if s[0] == '-' then 0 - n else n;
        if -128 <= v <= 127 then Some(v) else None
  }

  /** The decimal digits of a number, as the kernel prints them. */
  function Decimal(n: nat): (s: string)
    ensures IsWord(s) && IsDigit(s[0])
  {
    if n < 10 then [Digit(n)] else Decimal(n / 10) + [Digit(n % 10)]
  }

  lemma {:induction false} DecimalRoundTrip(n: nat)
    ensures DigitsValue(Decimal(n)) == Some(n)
  {
    if n >= 10 {
      DecimalRoundTrip(n / 10);
      var s := Decimal(n);
      assert s[..|s| - 1] == Decimal(n / 10);
    }
  }

  /** Printing and parsing an offset: it survives exactly if it fits in 8 signed bits. */
  lemma OffsetRoundTrip(n: nat)
    ensures ParseInt8(Decimal(n)) == if n <= 127 then Some(n) else None
  {
    DecimalRoundTrip(n);
  }

  /** With a sign, negative numbers go one further than positive ones. */
  lemma SignedNumbers(n: nat)
    ensures ParseInt8("-" + Decimal(n)).Some? <==> n <= 128
    ensures ParseInt8("-" + Decimal(n)).Some? ==> ParseInt8("-" + Decimal(n)).value == 0 - n
    ensures ParseInt8("+" + Decimal(n)) == ParseInt8(Decimal(n))
  {
    DecimalRoundTrip(n);
    assert ("-" + Decimal(n))[1..] == Decimal(n) && ("+" + Decimal(n))[1..] == Decimal(n);
    hide Decimal, DigitsValue;
  }

  lemma {:induction false} OnlyDigits(s: string)
    ensures DigitsValue(s).Some? <==> s != [] && forall k :: 0 <= k < |s| ==> IsDigit(s[k])
  {
    if s != [] && IsDigit(s[|s| - 1]) {
      OnlyDigits(s[..|s| - 1]);
      if |s| > 1 {
        assert forall k :: 0 <= k < |s| - 1 ==> s[..|s| - 1][k] == s[k];
      }
    }
  }

  /** Anything but digits, after one sign or none, is not a number. */
  lemma NotANumber(s: string, k: nat)
    requires k < |s| && !IsDigit(s[k]) && (k == 0 ==> |s| == 1 || (s[0] != '+' && s[0] != '-'))
    ensures ParseInt8(s).None?
  {
    OnlyDigits(s);
    OnlyDigits(s[1..]);
    if k > 0 {
      assert s[1..][k - 1] == s[k];
    }
  }

  // ---------------------------------------------------------------- hexadecimal bytes

  function HexDigit(n: bv4): (c: char)
    ensures !IsSpace(c)
  {
    if n == 0 then '0' else if n == 1 then '1' else if n == 2 then '2' else if n == 3 then '3'
    else if n == 4 then '4' else if n == 5 then '5' else if n == 6 then '6' else if n == 7 then '7'
    else if n == 8 then '8' else if n == 9 then '9' else if n == 10 then 'a' else if n == 11 then 'b'
    else if n == 12 then 'c' else if n == 13 then 'd' else if n == 14 then 'e' else 'f'
  }

  function HexValue(c: char): Option<bv4> {
    if c == '0' then Some(0) else if c == '1' then Some(1) else if c == '2' then Some(2) else if c == '3' then Some(3)
    else if c == '4' then Some(4) else if c == '5' then Some(5) else if c == '6' then Some(6)
    else if c == '7' then Some(7) else if c == '8' then Some(8) else if c == '9' then Some(9)
    else if c == 'a' || c == 'A' then Some(10) else if c == 'b' || c == 'B' then Some(11)
    else if c == 'c' || c == 'C' then Some(12) else if c == 'd' || c == 'D' then Some(13)
    else if c == 'e' || c == 'E' then Some(14) else if c == 'f' || c == 'F' then Some(15)
    else None
  }

  function HighNibble(b: bv8): bv4 { (b >> 4) as bv4 }

  function LowNibble(b: bv8): bv4 { (b & 0xf) as bv4 }

  function JoinNibbles(hi: bv4, lo: bv4): bv8 { (hi as bv8 << 4) | (lo as bv8) }

  lemma JoinSplitNibbles(b: bv8)
    ensures JoinNibbles(HighNibble(b), LowNibble(b)) == b
  {
  }

  lemma HexDigitRoundTrip(n: bv4)
    ensures HexValue(HexDigit(n)) == Some(n)
  {
  }

  const LOWER_DIGITS: string := "0123456789abcdef"
  const UPPER_DIGITS: string := "0123456789ABCDEF"

  /** Digits are written in lower case, and read in either. */
  lemma HexDigitsAre(n: bv4)
    ensures HexDigit(n) == LOWER_DIGITS[n as int]
    ensures HexValue(UPPER_DIGITS[n as int]) == Some(n)
  {
    assert LOWER_DIGITS == ['0', '1', '2', '3', '4', '5', '6', '7', '8', '9', 'a', 'b', 'c', 'd', 'e', 'f'];
    assert UPPER_DIGITS == ['0', '1', '2', '3', '4', '5', '6', '7', '8', '9', 'A', 'B', 'C', 'D', 'E', 'F'];
  }

  /** hex.DecodeString */
  function DecodeHex(s: string): (r: Option<seq<bv8>>)
    ensures r.Some? ==> |s| == 2 * |r.value|
  {
    if s == [] then Some([])
    else if |s| == 1 then None
    else
      match (HexValue(s[0]), HexValue(s[1]), DecodeHex(s[2..]))
      case (Some(hi), Some(lo), Some(rest)) => Some([JoinNibbles(hi, lo)] + rest)
      case _ => None
  }

  /** What can be decoded: pairs of hexadecimal digits, and nothing else. */
  lemma {:induction false} DecodesPairsOfDigits(s: string)
    ensures DecodeHex(s).Some? <==> |s| % 2 == 0 && forall k :: 0 <= k < |s| ==> HexValue(s[k]).Some?
  {
    if |s| >= 2 {
      DecodesPairsOfDigits(s[2..]);
      assert forall k :: 2 <= k < |s| ==> s[k] == s[2..][k - 2];
    }
  }

  function EncodeHex(bytes: seq<bv8>): (s: string)
    ensures |s| == 2 * |bytes|
    ensures bytes != [] ==> IsWord(s)
  {
    if bytes == [] then []
    else [HexDigit(HighNibble(bytes[0])), HexDigit(LowNibble(bytes[0]))] + EncodeHex(bytes[1..])
  }

  lemma {:induction false} HexRoundTrip(bytes: seq<bv8>)
    ensures DecodeHex(EncodeHex(bytes)) == Some(bytes)
  {
    if bytes != [] {
      var s := EncodeHex(bytes);
      HexRoundTrip(bytes[1..]);
      HexDigitRoundTrip(HighNibble(bytes[0]));
      HexDigitRoundTrip(LowNibble(bytes[0]));
      JoinSplitNibbles(bytes[0]);
      assert s[2..] == EncodeHex(bytes[1..]);
      assert bytes == [bytes[0]] + bytes[1..];
    }
  }

  // ---------------------------------------------------------------- the digit that counts more comes first

  lemma TensBeforeOnes(tens: nat, ones: nat)
    requires tens < 10 && ones < 10
    ensures ParseInt8([Digit(tens), Digit(ones)]) == Some(10 * tens + ones)
    ensures tens > 0 ==> Decimal(10 * tens + ones) == [Digit(tens), Digit(ones)]
  {
    var s := [Digit(tens), Digit(ones)];
    assert s[..1] == [Digit(tens)] && s[..1][..0] == [];
    assert DigitsValue([Digit(tens)]) == Some(tens);
    assert (10 * tens + ones) / 10 == tens && (10 * tens + ones) % 10 == ones;
  }

  lemma SixteensBeforeOnes(hi: bv4, lo: bv4)
    ensures DecodeHex([HexDigit(hi), HexDigit(lo)]) == Some([16 * (hi as bv8) + (lo as bv8)])
    ensures EncodeHex([16 * (hi as bv8) + (lo as bv8)]) == [HexDigit(hi), HexDigit(lo)]
  {
    HexDigitRoundTrip(hi);
    HexDigitRoundTrip(lo);
    NibblesOf(hi, lo);
    var b := 16 * (hi as bv8) + (lo as bv8);
    hide HexDigit, HexValue, HighNibble, LowNibble, JoinNibbles;
    assert [HexDigit(hi), HexDigit(lo)][2..] == [] && [b][1..] == [];
    assert DecodeHex([]) == Some([]) && EncodeHex([]) == [];
    var none: seq<bv8> := [];
    assert [b] + none == [b];
  }

  lemma NibblesOf(hi: bv4, lo: bv4)
    ensures var b := 16 * (hi as bv8) + (lo as bv8);
            JoinNibbles(hi, lo) == b && HighNibble(b) == hi && LowNibble(b) == lo
  {
  }
}
