/** Reader for JSON texts: the grammar of RFC 8259, sections 2 to 7.  A number keeps its spelling.  Escapes of
    the form \uXXXX stand for the character with that code; surrogate halves are not accepted. */
module Json {
  import opened Wrappers

  datatype Value =
    | Str(text: string)
    | Num(lexeme: string)
    | Literal(name: string)
    | Obj(members: seq<(string, Value)>)
    | Arr(items: seq<Value>)

  type Parsed<T> = Option<(T, string)>

  // ---------------------------------------------------------------- tokens

  predicate IsWs(c: char) { c == ' ' || c == '\t' || c == '\n' || c == '\r' }

  function SkipWs(s: string): (r: string)
    ensures |r| <= |s| && (r != [] ==> !IsWs(r[0]))
  {
    if s != [] && IsWs(s[0]) then SkipWs(s[1..]) else s
  }

  function HexValue(c: char): (d: int)
    ensures -1 <= d < 16
  {
    if '0' <= c <= '9' then (c as int) - ('0' as int)
    else if 'a' <= c <= 'f' then (c as int) - ('a' as int) + 10
    else if 'A' <= c <= 'F' then (c as int) - ('A' as int) + 10
    else -1
  }

  /** A \u escape, the backslash and the letter already read. */
  function UnicodeEscape(s: string): (r: Parsed<char>)
    ensures r.Some? ==> |r.value.1| < |s|
  {
    if |s| < 4 then None
    else
      var a, b, c, d := HexValue(s[0]), HexValue(s[1]), HexValue(s[2]), HexValue(s[3]);
      var code := 4096 * a + 256 * b + 16 * c + d;
      if a < 0 || b < 0 || c < 0 || d < 0 || 0xD800 <= code < 0xE000 then None else Some((code as char, s[4..]))
  }

  /** An escape after its backslash. */
  function EscapeSequence(s: string): (r: Parsed<char>)
    ensures r.Some? ==> |r.value.1| < |s|
  {
    if s == [] then None
    else if s[0] == '"' || s[0] == '\\' || s[0] == '/' then Some((s[0], s[1..]))
    else if s[0] == 'b' then Some((8 as char, s[1..]))
    else if s[0] == 'f' then Some((12 as char, s[1..]))
    else if s[0] == 'n' then Some(('\n', s[1..]))
    else if s[0] == 'r' then Some(('\r', s[1..]))
    else if s[0] == 't' then Some(('\t', s[1..]))
    else if s[0] == 'u' then UnicodeEscape(s[1..])
    else None
  }

  /** The characters of a string after its opening quotation mark. */
  function StringBody(s: string): (r: Parsed<string>)
    ensures r.Some? ==> |r.value.1| < |s|
    decreases |s|
  {
    if s == [] || s[0] < ' ' then None
    else if s[0] == '"' then Some(([], s[1..]))
    else
      match (if s[0] == '\\' then EscapeSequence(s[1..]) else Some((s[0], s[1..])))
      case None => None
      case Some((c, rest)) =>
        match StringBody(rest)
        case None => None
        case Some((text, end)) => Some(([c] + text, end))
  }

  predicate IsDigit(c: char) { '0' <= c <= '9' }

  /** Number of digits at the front. */
  function DigitRun(s: string): (n: nat)
    ensures n <= |s|
  {
    if s != [] && IsDigit(s[0]) then 1 + DigitRun(s[1..]) else 0
  }

  /** Length of an optional fraction or exponent; 0 when absent, -1 when malformed. */
  function FractionLength(s: string): (n: int)
    ensures -1 <= n <= |s|
  {
    if s == [] || s[0] != '.' then 0
    else
      var k := DigitRun(s[1..]);
      if k == 0 then -1 else 1 + k
  }

  function ExponentLength(s: string): (n: int)
    ensures -1 <= n <= |s|
  {
    if s == [] || (s[0] != 'e' && s[0] != 'E') then 0
    else
      var sign := if |s| > 1 && (s[1] == '+' || s[1] == '-') then 1 else 0;
      var k := DigitRun(s[1 + sign..]);
      if k == 0 then -1 else 1 + sign + k
  }

  /** A number: minus, digits without a leading zero, fraction, exponent. */
  function NumberLength(s: string): (n: int)
    ensures n <= |s|
  {
    var minus := if s != [] && s[0] == '-' then 1 else 0;
    var digits := DigitRun(s[minus..]);
    var whole := minus + if digits > 0 && s[minus] == '0' then 1 else digits;
    if digits == 0 then -1
    else
      var fraction := FractionLength(s[whole..]);
      if fraction < 0 then -1
      else
        var exponent := ExponentLength(s[whole + fraction..]);
        if exponent < 0 then -1 else whole + fraction + exponent
  }

  // ---------------------------------------------------------------- values

  /** A value at the front of s, without leading white space. */
  function ParseValue(s: string): (r: Parsed<Value>)
    ensures r.Some? ==> |r.value.1| < |s|
    decreases |s|, 0
  {
    if s == [] then None
    else if s[0] == '"' then
      match StringBody(s[1..])
      case None => None
      case Some((text, rest)) => Some((Str(text), rest))
    else if s[0] == '{' then
      match ParseMembers(s[1..], true)
      case None => None
      case Some((members, rest)) => Some((Obj(members), rest))
    else if s[0] == '[' then
      match ParseItems(s[1..], true)
      case None => None
      case Some((items, rest)) => Some((Arr(items), rest))
    else if "true" <= s then Some((Literal("true"), s[4..]))
    else if "false" <= s then Some((Literal("false"), s[5..]))
    else if "null" <= s then Some((Literal("null"), s[4..]))
    else
      var n := NumberLength(s);
      if n <= 0 then None else Some((Num(s[..n]), s[n..]))
  }

  /** Members up to the closing brace; every member but the first follows a comma. */
  function ParseMembers(s: string, first: bool): (r: Parsed<seq<(string, Value)>>)
    ensures r.Some? ==> |r.value.1| < |s|
    decreases |s|, 3
  {
    var t := SkipWs(s);
    if t == [] then None
    else if t[0] == '}' then Some(([], t[1..]))
    else if first then ParseMember(t)
    else if t[0] == ',' then ParseMember(SkipWs(t[1..]))
    else None
  }

  function ParseMember(t: string): (r: Parsed<seq<(string, Value)>>)
    ensures r.Some? ==> |r.value.1| < |t|
    decreases |t|, 2
  {
    if t == [] || t[0] != '"' then None
    else
      match StringBody(t[1..])
      case None => None
      case Some((key, afterKey)) =>
        var colon := SkipWs(afterKey);
        if colon == [] || colon[0] != ':' then None
        else
          match ParseValue(SkipWs(colon[1..]))
          case None => None
          case Some((value, afterValue)) =>
            match ParseMembers(afterValue, false)
            case None => None
            case Some((members, rest)) => Some(([(key, value)] + members, rest))
  }

  /** Array elements up to the closing bracket. */
  function ParseItems(s: string, first: bool): (r: Parsed<seq<Value>>)
    ensures r.Some? ==> |r.value.1| < |s|
    decreases |s|, 3
  {
    var t := SkipWs(s);
    if t == [] then None
    else if t[0] == ']' then Some(([], t[1..]))
    else if first then ParseItem(t)
    else if t[0] == ',' then ParseItem(SkipWs(t[1..]))
    else None
  }

  function ParseItem(t: string): (r: Parsed<seq<Value>>)
    ensures r.Some? ==> |r.value.1| < |t|
    decreases |t|, 2
  {
    match ParseValue(t)
    case None => None
    case Some((value, afterValue)) =>
      match ParseItems(afterValue, false)
      case None => None
      case Some((items, rest)) => Some(([value] + items, rest))
  }

  /** A JSON text: one value with white space around it. */
  function Parse(s: string): Option<Value> {
    match ParseValue(SkipWs(s))
    case None => None
    case Some((value, rest)) => if SkipWs(rest) == [] then Some(value) else None
  }
}
