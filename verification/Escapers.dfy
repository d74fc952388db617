/** The string escapers of lavc/ffprobe.c and of the command-line log in lavc/cmdutils.c, each with the
    decoder that reads its output.  Strings are the C strings of the original, one char a byte. */
module Escapers {
  import opened Wrappers

  /** The output forms: compact items, flat values, INI, XML attributes, JSON strings, and quoted command-line
      arguments. */
  datatype Form = C(sep: char) | FlatValue | Ini | Xml | JsonText | Quoted

  const BS := 8 as char
  const TAB := '\t'
  const LF := '\n'
  const FF := 12 as char
  const CR := '\r'
  const HEX := "0123456789abcdef"

  function Hex2(n: nat): (r: string)
    requires n < 256
    ensures |r| == 2
  {
    [HEX[n / 16], HEX[n % 16]]
  }

  function HexDigit(c: char): (d: int)
    ensures -1 <= d < 16
  {
    if '0' <= c <= '9' then (c as int) - ('0' as int)
    else if 'a' <= c <= 'f' then (c as int) - ('a' as int) + 10
    else -1
  }

  lemma HexDigitInverts(d: nat)
    requires d < 16
    ensures HexDigit(HEX[d]) == d
  {
  }

  // ---------------------------------------------------------------- what is written for one character

  function CUnit(c: char, sep: char): string {
    if c == BS then "\\b" else if c == FF then "\\f" else if c == LF then "\\n" else if c == CR then "\\r"
    else if c == '\\' then "\\\\"
    else if c == sep then ['\\', c] else [c]
  }

  function FlatUnit(c: char): string {
    if c == LF then "\\n" else if c == CR then "\\r"
    else if c == '\\' || c == '"' || c == '`' || c == '$' then ['\\', c] else [c]
  }

  function IniUnit(c: char): string {
    if c == BS then "\\b" else if c == FF then "\\f" else if c == LF then "\\n" else if c == CR then "\\r"
    else if c == TAB then "\\t"
    else if c == '\\' || c == '#' || c == '=' || c == ':' then ['\\', c]
    else if c < ' ' then "\\x00" + Hex2(c as int)
    else [c]
  }

  function XmlUnit(c: char): string {
    if c == '&' then "&amp;" else if c == '<' then "&lt;" else if c == '>' then "&gt;"
    else if c == '"' then "&quot;" else if c == '\'' then "&apos;" else [c]
  }

  function JsonUnit(c: char): string {
    if c == '"' || c == '\\' then ['\\', c]
    else if c == BS then "\\b" else if c == FF then "\\f" else if c == LF then "\\n" else if c == CR then "\\r"
    else if c == TAB then "\\t"
    else if c < ' ' then "\\u00" + Hex2(c as int)
    else [c]
  }

  function QuotedUnit(c: char): string {
    if c == '\\' || c == '"' || c == '$' || c == '`' then ['\\', c]
    else if c < ' ' || c > '~' then "\\x" + Hex2((c as int) % 256)
    else [c]
  }

  function Unit(f: Form, c: char): string {
    match f
    case C(sep) => CUnit(c, sep)
    case FlatValue => FlatUnit(c)
    case Ini => IniUnit(c)
    case Xml => XmlUnit(c)
    case JsonText => JsonUnit(c)
    case Quoted => QuotedUnit(c)
  }

  function Escape(f: Form, s: string): string {
    if s == [] then [] else Escape(f, s[..|s| - 1]) + Unit(f, s[|s| - 1])
  }

  // ---------------------------------------------------------------- reading it back

  /** Characters that end a field, or that the format gives a meaning, when they are not escaped. */
  predicate Stops(f: Form, c: char) {
    match f
    case C(sep) => c == sep || c == LF
    case FlatValue => c == '"' || c == '`' || c == '$' || c == LF || c == CR
    case Ini => c == '=' || c == '#' || c == ':' || c == LF || c == CR
    case Xml => c == '"' || c == '\'' || c == '<' || c == '>'
    case JsonText => c == '"' || c < ' '
    case Quoted => c == '"' || c == '`' || c == '$' || c < ' ' || c > '~'
  }

  type Decoded = Option<(char, string)>

  /** A backslash escape: `letters` stand for the control characters, a letter of `hex` is followed by `skip`
      zeros and two hexadecimal digits, and any other character stands for itself. */
  function Backslash(s: string, letters: string, controls: string, skip: nat, hex: string): Decoded
    requires |letters| == |controls|
  {
    if |s| < 2 then None
    else if s[1] in letters then Some((controls[Find(letters, s[1])], s[2..]))
    else if s[1] in hex then
      if |s| < 4 + skip then None
      else
        var hi, lo := HexDigit(s[2 + skip]), HexDigit(s[3 + skip]);
        if hi < 0 || lo < 0 then None else Some(((16 * hi + lo) as char, s[4 + skip..]))
    else Some((s[1], s[2..]))
  }

  function Find(s: string, c: char): (i: nat)
    requires c in s
    ensures i < |s| && s[i] == c
  {
    if s[0] == c then 0 else 1 + Find(s[1..], c)
  }

  const C_LETTERS := "bfnr"
  const C_CONTROLS := [BS, FF, LF, CR]
  const FLAT_LETTERS := "nr"
  const FLAT_CONTROLS := [LF, CR]
  const INI_LETTERS := "bfnrt"
  const INI_CONTROLS := [BS, FF, LF, CR, TAB]

  /** The predefined entities of section 4.6 of XML 1.0. */
  function Entity(s: string): Decoded {
    if "&amp;" <= s then Some(('&', s[5..])) else if "&lt;" <= s then Some(('<', s[4..]))
    else if "&gt;" <= s then Some(('>', s[4..])) else if "&quot;" <= s then Some(('"', s[6..]))
    else if "&apos;" <= s then Some(('\'', s[6..])) else None
  }

  /** One character off the front of the text. */
  function DecodeOne(f: Form, s: string): (r: Decoded)
    requires s != []
    ensures r.Some? ==> |r.value.1| < |s|
  {
    if f.Xml? then (if s[0] == '&' then Entity(s) else Some((s[0], s[1..])))
    else if s[0] != '\\' then Some((s[0], s[1..]))
    else
      match f
      case C(_) => Backslash(s, C_LETTERS, C_CONTROLS, 0, "")
      case FlatValue => Backslash(s, FLAT_LETTERS, FLAT_CONTROLS, 0, "")
      case Ini => Backslash(s, INI_LETTERS, INI_CONTROLS, 2, "x")
      case JsonText => Backslash(s, INI_LETTERS, INI_CONTROLS, 2, "u")
      case _ => Backslash(s, [], [], 0, "x")
  }

  /** Decodes up to the end, or when `framed` up to the first unescaped stop character. */
  function Decode(f: Form, framed: bool, s: string): Option<(string, string)>
    decreases |s|
  {
    if s == [] || (framed && Stops(f, s[0])) then Some(([], s))
    else
      match DecodeOne(f, s)
      case None => None
      case Some((c, rest)) =>
        match Decode(f, framed, rest)
        case None => None
        case Some((value, end)) => Some(([c] + value, end))
  }

  // ---------------------------------------------------------------- one character round trips

  predicate Ambiguous(sep: char) { sep == 'b' || sep == 'f' || sep == 'n' || sep == 'r' }

  /** The characters a form can carry. */
  predicate Carries(f: Form, c: char) { f.Quoted? ==> c < 256 as char }

  predicate Unambiguous(f: Form) { f.C? ==> !Ambiguous(f.sep) }

  lemma Hex2Decodes(prefix: string, n: nat, rest: string)
    requires n < 256
    ensures var s := prefix + Hex2(n) + rest; var k := |prefix|;
      |s| >= k + 2 && HexDigit(s[k]) == n / 16 && HexDigit(s[k + 1]) == n % 16 && s[k + 2..] == rest
  {
    HexDigitInverts(n / 16);
    HexDigitInverts(n % 16);
  }

  lemma CUnitDecodes(sep: char, c: char, rest: string)
    requires !Ambiguous(sep)
    ensures DecodeOne(C(sep), CUnit(c, sep) + rest) == Some((c, rest))
  {
  }

  lemma FlatUnitDecodes(c: char, rest: string)
    ensures DecodeOne(FlatValue, FlatUnit(c) + rest) == Some((c, rest))
  {
  }

  lemma HexEscapeDecodes(hex: char, zeros: string, n: nat, rest: string, letters: string, controls: string)
    requires n < 256 && |letters| == |controls| && hex !in letters
    ensures Backslash(['\\', hex] + zeros + Hex2(n) + rest, letters, controls, |zeros|, [hex]) == Some((n as char, rest))
  {
    hide Hex2, HexDigit;
    Hex2Decodes(['\\', hex] + zeros, n, rest);
  }

  lemma IniUnitDecodes(c: char, rest: string)
    ensures DecodeOne(Ini, IniUnit(c) + rest) == Some((c, rest))
  {
    if c < ' ' {
      hide Hex2, HexDigit;
      HexEscapeDecodes('x', "00", c as int, rest, INI_LETTERS, INI_CONTROLS);
      assert ['\\', 'x'] + "00" == "\\x00";
    }
  }

  lemma JsonUnitDecodes(c: char, rest: string)
    ensures DecodeOne(JsonText, JsonUnit(c) + rest) == Some((c, rest))
  {
    if c < ' ' {
      hide Hex2, HexDigit;
      HexEscapeDecodes('u', "00", c as int, rest, INI_LETTERS, INI_CONTROLS);
      assert ['\\', 'u'] + "00" == "\\u00";
    }
  }

  lemma XmlUnitDecodes(c: char, rest: string)
    ensures DecodeOne(Xml, XmlUnit(c) + rest) == Some((c, rest))
  {
    var unit := XmlUnit(c);
    var s := unit + rest;
    assert s[|unit|..] == rest && unit <= s;
    if |unit| > 1 { assert s[1] == unit[1] && s[2] == unit[2]; }
  }

  lemma QuotedUnitDecodes(c: char, rest: string)
    requires Carries(Quoted, c)
    ensures DecodeOne(Quoted, QuotedUnit(c) + rest) == Some((c, rest))
  {
    hide Hex2, HexDigit;
    if c < ' ' || c > '~' {
      hide Backslash;
      HexEscapeDecodes('x', "", c as int, rest, "", "");
      assert ['\\', 'x'] + "" == "\\x" && (c as int) % 256 == c as int;
    }
  }

  lemma UnitDecodes(f: Form, c: char, rest: string)
    requires Unambiguous(f) && Carries(f, c)
    ensures Unit(f, c) != [] && DecodeOne(f, Unit(f, c) + rest) == Some((c, rest))
  {
    hide DecodeOne;
    match f
    case C(sep) => CUnitDecodes(sep, c, rest);
    case FlatValue => FlatUnitDecodes(c, rest);
    case Ini => IniUnitDecodes(c, rest);
    case Xml => XmlUnitDecodes(c, rest);
    case JsonText => JsonUnitDecodes(c, rest);
    case Quoted => QuotedUnitDecodes(c, rest);
  }

  /** No escape starts with a stop character, unless the separator is the escape character itself. */
  lemma UnitStart(f: Form, c: char)
    requires f != C('\\')
    ensures Unit(f, c) != [] && !Stops(f, Unit(f, c)[0])
  {
    hide Hex2;
  }

  lemma {:induction false} EscapeFront(f: Form, c: char, s: string)
    ensures Escape(f, [c] + s) == Unit(f, c) + Escape(f, s)
  {
    hide Unit;
    if s == [] {
      assert [c] + s == [c];
      assert Escape(f, [c]) == Escape(f, []) + Unit(f, c);
    } else {
      var n := |s| - 1;
      assert ([c] + s)[..n + 1] == [c] + s[..n];
      EscapeFront(f, c, s[..n]);
    }
  }

  // ---------------------------------------------------------------- whole strings

  predicate AllCarried(f: Form, s: string) { forall i :: 0 <= i < |s| ==> Carries(f, s[i]) }

  /** The decoder inverts the escaper.  Framed, it also finds the end: the escaped text followed by any stop
      character is read back exactly, so no stop character occurs in it unescaped. */
  lemma {:induction false} RoundTrip(f: Form, framed: bool, s: string, rest: string)
    requires Unambiguous(f) && AllCarried(f, s)
    requires if framed then f != C('\\') && (rest == [] || Stops(f, rest[0])) else rest == []
    ensures Decode(f, framed, Escape(f, s) + rest) == Some((s, rest))
  {
    hide DecodeOne, Unit, Stops, Escape;
    if s == [] {
      assert Escape(f, s) + rest == rest by { EscapeEmpty(f); }
    } else {
      var c, tail := s[0], s[1..];
      assert s == [c] + tail && Carries(f, c);
      EscapeFront(f, c, tail);
      var after := Escape(f, tail) + rest;
      assert Escape(f, s) + rest == Unit(f, c) + after;
      UnitDecodes(f, c, after);
      if framed { UnitStart(f, c); }
      assert (Unit(f, c) + after)[0] == Unit(f, c)[0];
      RoundTrip(f, framed, tail, rest);
    }
  }

  lemma EscapeEmpty(f: Form)
    ensures Escape(f, []) == []
  {
  }

  /** Characters that the output never contains, escaped or not. */
  predicate NeverPrinted(f: Form, c: char) {
    match f
    case C(_) => c == LF || c == CR || c == BS || c == FF
    case FlatValue => c == LF || c == CR
    case Ini => c < ' '
    case Xml => c == '"' || c == '\'' || c == '<' || c == '>'
    case JsonText => c < ' '
    case Quoted => c < ' ' || c > '~'
  }

  lemma JsonPrintable(c: char, i: nat)
    requires i < |JsonUnit(c)|
    ensures JsonUnit(c)[i] >= ' '
  {
    if c < ' ' { HexPrintable(c as int); }
    hide Hex2;
  }

  lemma QuotedPrintable(c: char, i: nat)
    requires i < |QuotedUnit(c)|
    ensures ' ' <= QuotedUnit(c)[i] <= '~'
  {
    HexPrintable((c as int) % 256);
    hide Hex2;
  }

  lemma IniPrintable(c: char, i: nat)
    requires i < |IniUnit(c)|
    ensures IniUnit(c)[i] >= ' '
  {
    if c < ' ' { HexPrintable(c as int); }
    hide Hex2;
  }

  lemma UnitPrintable(f: Form, c: char, i: nat)
    requires i < |Unit(f, c)|
    ensures !NeverPrinted(f, Unit(f, c)[i])
  {
    hide IniUnit, JsonUnit, QuotedUnit;
    if f.JsonText? { JsonPrintable(c, i); }
    if f.Quoted? { QuotedPrintable(c, i); }
    if f.Ini? { IniPrintable(c, i); }
  }

  lemma HexPrintable(n: nat)
    requires n < 256
    ensures forall i :: 0 <= i < 2 ==> ' ' <= Hex2(n)[i] <= '~'
  {
  }

  lemma {:induction false} NoRawTerminator(f: Form, s: string)
    ensures forall i :: 0 <= i < |Escape(f, s)| ==> !NeverPrinted(f, Escape(f, s)[i])
  {
    if s != [] {
      hide Unit, NeverPrinted;
      var last := Unit(f, s[|s| - 1]);
      NoRawTerminator(f, s[..|s| - 1]);
      forall i | 0 <= i < |last| ensures !NeverPrinted(f, last[i]) { UnitPrintable(f, s[|s| - 1], i); }
    }
  }

  /** The characters that are not printed as they are. */
  predicate IsEscaped(f: Form, c: char) {
    match f
    case C(sep) => c == sep || c in ['\\', BS, FF, LF, CR]
    case FlatValue => c in "\\\"`$\n\r"
    case Ini => c in "\\#=:" || c < ' '
    case Xml => c in "&<>\"'"
    case JsonText => c in "\"\\" || c < ' '
    case Quoted => c in "\\\"$`" || c < ' ' || c > '~'
  }

  lemma UnitUnchangedIff(f: Form, c: char)
    ensures |Unit(f, c)| >= 1 && (|Unit(f, c)| == 1 <==> !IsEscaped(f, c)) && (!IsEscaped(f, c) ==> Unit(f, c) == [c])
  {
    hide Hex2;
  }

  /** A string is printed as it is exactly when it has none of these characters; otherwise it gets longer. */
  lemma {:induction false} UnchangedIff(f: Form, s: string)
    ensures |Escape(f, s)| >= |s|
    ensures |Escape(f, s)| == |s| <==> forall i :: 0 <= i < |s| ==> !IsEscaped(f, s[i])
    ensures Escape(f, s) == s <==> forall i :: 0 <= i < |s| ==> !IsEscaped(f, s[i])
  {
    if s != [] {
      hide Unit, IsEscaped;
      var n := |s| - 1;
      UnchangedIff(f, s[..n]);
      UnitUnchangedIff(f, s[n]);
      assert s == s[..n] + [s[n]];
      assert forall i :: 0 <= i < n ==> s[..n][i] == s[i];
    }
  }

  ghost predicate Injective(f: Form) {
    forall s, t :: Escape(f, s) == Escape(f, t) ==> s == t
  }

  lemma EscapeOne(f: Form, c: char)
    ensures Escape(f, [c]) == Unit(f, c)
  {
    hide Unit;
    assert Escape(f, [c]) == Escape(f, []) + Unit(f, c);
  }

  /** Two strings that the C escaper prints alike. */
  lemma Clash(sep: char) returns (control: char)
    requires Ambiguous(sep)
    ensures [control] != [sep] && Escape(C(sep), [control]) == Escape(C(sep), [sep])
  {
    hide Escape;
    control := if sep == 'b' then BS else if sep == 'f' then FF else if sep == 'n' then LF else CR;
    EscapeOne(C(sep), sep);
    EscapeOne(C(sep), control);
    assert [control][0] != [sep][0];
  }

  /** The C escaper loses nothing exactly when the separator is not one of the letters of its own escapes. */
  lemma CInjectiveIff(sep: char)
    ensures Injective(C(sep)) <==> !Ambiguous(sep)
  {
    hide Escape, Decode;
    var f := C(sep);
    if Ambiguous(sep) {
      var control := Clash(sep);
    } else {
      forall s, t | Escape(f, s) == Escape(f, t) ensures s == t {
        RoundTrip(f, false, s, []);
        RoundTrip(f, false, t, []);
        assert Escape(f, s) + [] == Escape(f, t) + [];
      }
    }
  }

  ghost predicate Framing(sep: char) {
    forall s :: Decode(C(sep), true, Escape(C(sep), s) + [sep]) == Some((s, [sep]))
  }

  /** ... and items can be told apart on a line exactly when the separator is not the backslash either. */
  lemma CFramingIff(sep: char)
    ensures Framing(sep) <==> !Ambiguous(sep) && sep != '\\'
  {
    hide Escape, Decode;
    var f := C(sep);
    if Ambiguous(sep) {
      var control := Clash(sep);
      assert Framing(sep) ==> Decode(f, true, Escape(f, [sep]) + [sep]) == Some(([sep], [sep]));
      assert Framing(sep) ==> Decode(f, true, Escape(f, [control]) + [sep]) == Some(([control], [sep]));
    } else if sep == '\\' {
      StopsAtOnce();
    } else {
      forall s ensures Decode(f, true, Escape(f, s) + [sep]) == Some((s, [sep])) {
        RoundTrip(f, true, s, [sep]);
      }
    }
  }

  lemma StopsAtOnce()
    ensures !Framing('\\')
  {
    var f := C('\\');
    EscapeOne(f, '\\');
    var text := Escape(f, ['\\']) + ['\\'];
    assert text[0] == '\\';
    assert Decode(f, true, text) == Some(([], text));
  }

  /** One line of an INI section: the key and the value are both recovered. */
  lemma IniLine(key: string, value: string, rest: string)
    ensures var line := Escape(Ini, key) + "=" + Escape(Ini, value) + "\n" + rest;
      && Decode(Ini, true, line) == Some((key, "=" + Escape(Ini, value) + "\n" + rest))
      && Decode(Ini, true, Escape(Ini, value) + "\n" + rest) == Some((value, "\n" + rest))
  {
    hide Escape, DecodeOne;
    var tail := "=" + Escape(Ini, value) + "\n" + rest;
    RoundTrip(Ini, true, key, tail);
    assert Escape(Ini, key) + "=" + Escape(Ini, value) + "\n" + rest == Escape(Ini, key) + tail;
    RoundTrip(Ini, true, value, "\n" + rest);
    assert Escape(Ini, value) + "\n" + rest == Escape(Ini, value) + ("\n" + rest);
  }

  // ---------------------------------------------------------------- the loops

  method CEscapeStr(src: string, sep: char) returns (dst: string)
    ensures dst == Escape(C(sep), src)
  {
    dst := "";
    for p := 0 to |src|
      invariant dst == Escape(C(sep), src[..p])
    {
      assert src[..p + 1][..p] == src[..p];
      var c := src[p];
      if c == BS { dst := dst + "\\b"; }
      else if c == FF { dst := dst + "\\f"; }
      else if c == LF { dst := dst + "\\n"; }
      else if c == CR { dst := dst + "\\r"; }
      else if c == '\\' { dst := dst + "\\\\"; }
      else {
        if c == sep { dst := dst + ['\\']; }
        dst := dst + [c];
      }
    }
    assert src[..|src|] == src;
  }

  method FlatEscapeValueStr(src: string) returns (dst: string)
    ensures dst == Escape(FlatValue, src)
  {
    dst := "";
    for p := 0 to |src|
      invariant dst == Escape(FlatValue, src[..p])
    {
      assert src[..p + 1][..p] == src[..p];
      var c := src[p];
      if c == LF { dst := dst + "\\n"; }
      else if c == CR { dst := dst + "\\r"; }
      else if c == '\\' || c == '"' || c == '`' || c == '$' { dst := dst + ['\\', c]; }
      else { dst := dst + [c]; }
    }
    assert src[..|src|] == src;
  }

  method IniEscapeStr(src: string) returns (dst: string)
    ensures dst == Escape(Ini, src)
  {
    hide Hex2;
    dst := "";
    for i := 0 to |src|
      invariant dst == Escape(Ini, src[..i])
    {
      assert src[..i + 1][..i] == src[..i];
      var c := src[i];
      if c == BS { dst := dst + "\\b"; }
      else if c == FF { dst := dst + "\\f"; }
      else if c == LF { dst := dst + "\\n"; }
      else if c == CR { dst := dst + "\\r"; }
      else if c == TAB { dst := dst + "\\t"; }
      else {
        if c == '\\' || c == '#' || c == '=' || c == ':' { dst := dst + ['\\']; }
        if c < ' ' { dst := dst + "\\x00" + Hex2(c as int); } else { dst := dst + [c]; }
      }
    }
    assert src[..|src|] == src;
  }

  method XmlEscapeStr(src: string) returns (dst: string)
    ensures dst == Escape(Xml, src)
  {
    dst := "";
    for p := 0 to |src|
      invariant dst == Escape(Xml, src[..p])
    {
      assert src[..p + 1][..p] == src[..p];
      var c := src[p];
      if c == '&' { dst := dst + "&amp;"; }
      else if c == '<' { dst := dst + "&lt;"; }
      else if c == '>' { dst := dst + "&gt;"; }
      else if c == '"' { dst := dst + "&quot;"; }
      else if c == '\'' { dst := dst + "&apos;"; }
      else { dst := dst + [c]; }
    }
    assert src[..|src|] == src;
  }
}
