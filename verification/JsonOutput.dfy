/** The JSON writer of lavc/ffprobe.c: what it prints for a section tree, and that an RFC 8259 reader gets the
    tree back. */
module JsonOutput {
  import opened Sections
  import opened Wrappers
  import E = Escapers
  import J = Json

  // ---------------------------------------------------------------- strings

  function Quote(s: string): string { "\"" + E.Escape(E.JsonText, s) + "\"" }

  /** json_escape_str: the table of short escapes, then the other control characters. */
  method JsonEscapeStr(src: string) returns (dst: string)
    ensures dst == E.Escape(E.JsonText, src)
  {
    hide E.Hex2;
    dst := "";
    for p := 0 to |src|
      invariant dst == E.Escape(E.JsonText, src[..p])
    {
      assert src[..p + 1][..p] == src[..p];
      var c := src[p];
      var i := 0;
      while i < |TABLE| && TABLE[i] != c
        invariant 0 <= i <= |TABLE| && c !in TABLE[..i]
      {
        i := i + 1;
      }
      TableEscapes(c);
      if i < |TABLE| {
        dst := dst + ['\\', LETTERS[i]];
      } else if c < ' ' {
        dst := dst + "\\u00" + E.Hex2(c as int);
      } else {
        dst := dst + [c];
      }
    }
    assert src[..|src|] == src;
  }

  const TABLE := ['"', '\\', 8 as char, 12 as char, '\n', '\r', '\t']
  const LETTERS := ['"', '\\', 'b', 'f', 'n', 'r', 't']

  lemma TableEscapes(c: char)
    ensures forall i :: 0 <= i < |TABLE| && TABLE[i] == c ==> E.JsonUnit(c) == ['\\', LETTERS[i]]
    ensures c !in TABLE ==> E.JsonUnit(c) == if c < ' ' then "\\u00" + E.Hex2(c as int) else [c]
  {
    hide E.Hex2;
  }

  lemma HexReads(n: nat)
    requires n < 16
    ensures J.HexValue(E.HEX[n]) == n
  {
  }

  /** A printed character is one character or one escape of a JSON string. */
  lemma UnitReads(c: char, rest: string)
    ensures var s := E.JsonUnit(c) + rest;
      && s[0] >= ' ' && s[0] != '"'
      && (if s[0] == '\\' then J.EscapeSequence(s[1..]) else Some((s[0], s[1..]))) == Some((c, rest))
  {
    var s := E.JsonUnit(c) + rest;
    if c < ' ' {
      HexReads(c as int / 16);
      HexReads(c as int % 16);
      HexReads(0);
      assert s[|E.JsonUnit(c)|..] == rest;
      if |E.JsonUnit(c)| == 6 { assert s[2..][4..] == rest; }
    }
  }

  lemma {:induction false} StringReads(v: string, rest: string)
    ensures J.StringBody(E.Escape(E.JsonText, v) + "\"" + rest) == Some((v, rest))
  {
    hide E.JsonUnit, J.EscapeSequence, E.Escape;
    var end := "\"" + rest;
    if v == [] {
      assert E.Escape(E.JsonText, v) == [] by { E.EscapeEmpty(E.JsonText); }
      assert E.Escape(E.JsonText, v) + "\"" + rest == end;
    } else {
      var c, tail := v[0], v[1..];
      assert v == [c] + tail;
      E.EscapeFront(E.JsonText, c, tail);
      var after := E.Escape(E.JsonText, tail) + "\"" + rest;
      assert E.Escape(E.JsonText, v) + "\"" + rest == E.JsonUnit(c) + after;
      UnitReads(c, after);
      StringReads(tail, rest);
    }
  }

  // ---------------------------------------------------------------- what is printed

  /** JSON_INDENT: a space padded to the indentation, so at least one space. */
  function Indent(level: nat): string {
    if level == 0 then " " else Spaces(4 * level)
  }

  function Spaces(n: nat): string { if n == 0 then "" else " " + Spaces(n - 1) }

  /** Four spaces for every level, and one at the outermost. */
  lemma {:induction false} IndentWidth(level: nat)
    ensures |Indent(level)| == if level == 0 then 1 else 4 * level
    ensures forall i :: 0 <= i < |Indent(level)| ==> Indent(level)[i] == ' '
  {
    SpacesAre(4 * level);
  }

  lemma {:induction false} SpacesAre(n: nat)
    ensures |Spaces(n)| == n && forall i :: 0 <= i < n ==> Spaces(n)[i] == ' '
  {
    if n > 0 { SpacesAre(n - 1); }
  }

  function ItemSep(compact: bool): string { if compact then ", " else ",\n" }

  function StartEnd(compact: bool): string { if compact then " " else "\n" }

  /** The separator and indentation in front of an item. */
  function Before(compact: bool, level: nat, first: bool): string {
    (if first then "" else ItemSep(compact)) + (if compact then "" else Indent(level))
  }

  /** The key of a section; elements of an array have none. */
  function Label(parent: SectionId, id: SectionId): string {
    if IsArray(id) || !IsArray(parent) then Quote(Name(id)) + ": " else ""
  }

  /** The bracket that opens a section, and the type item if there is one. */
  function Opening(compact: bool, level: nat, parent: SectionId, id: SectionId): string {
    if IsArray(id) then "[\n"
    else "{" + StartEnd(compact) + if parent == PacketsAndFrames then TypeItem(compact, level + 1, id) else ""
  }

  function Header(compact: bool, level: nat, parent: SectionId, first: bool, id: SectionId): string {
    (if first then "" else ",\n") +
    if IsWrapper(id) then "{\n" else Indent(level) + Label(parent, id) + Opening(compact, level, parent, id)
  }

  /** The extra item that tells packets from frames; the section name is not escaped. */
  function TypeItem(compact: bool, level: nat, id: SectionId): string {
    (if compact then "" else Indent(level)) + "\"type\": \"" + Name(id) + "\"" + ItemSep(compact)
  }

  function Footer(compact: bool, level: nat, id: SectionId): string {
    if IsArray(id) then "\n" + Indent(level) + "]"
    else StartEnd(compact) + (if compact then "" else Indent(level)) + "}"
  }

  /** Everything printed for a body inside section `id`; `first` when nothing was printed there yet. */
  function Render(compact: bool, level: nat, id: SectionId, first: bool, b: Body): string
    decreases b
  {
    match b
    case End => ""
    case Text(key, value, _, next) =>
      Before(compact, level, first) + Quote(key) + ": " + Quote(value) + Render(compact, level, id, false, next)
    case Number(key, number, next) =>
      Before(compact, level, first) + Quote(key) + ": " + Decimal(number) + Render(compact, level, id, false, next)
    case Section(inside, inner, next) =>
      Header(compact, level, id, first, inside) + Render(compact, level + 1, inside, true, inner) +
      Footer(compact, level, inside) + Render(compact, level, id, false, next)
  }

  /** The body holds items only. */
  predicate ItemsOnly(b: Body) { !b.Section? && (b.End? || ItemsOnly(b.next)) }

  /** In compact form the items of an object stay on one line, whatever the values hold. */
  lemma {:induction false} CompactOneLine(level: nat, id: SectionId, first: bool, b: Body)
    requires ItemsOnly(b)
    ensures '\n' !in Render(true, level, id, first, b)
  {
    if !b.End? {
      hide E.Escape, Decimal;
      CompactOneLine(level, id, false, b.next);
      QuoteOneLine(b.key);
      if b.Text? { QuoteOneLine(b.value); } else { DecimalInverts(b.number); }
    }
  }

  lemma QuoteOneLine(s: string)
    ensures '\n' !in Quote(s)
  {
    hide E.Escape;
    E.NoRawTerminator(E.JsonText, s);
  }

  /** The whole output: the root section around a body. */
  function Document(compact: bool, b: Body): string {
    "{\n" + Render(compact, 1, Root, true, b) + "\n}\n"
  }

  // ---------------------------------------------------------------- the tree it stands for

  function Members(id: SectionId, b: Body): seq<(string, J.Value)>
    decreases b, 0
  {
    match b
    case End => []
    case Text(key, value, _, next) => [(key, J.Str(value))] + Members(id, next)
    case Number(key, number, next) => [(key, J.Num(Decimal(number)))] + Members(id, next)
    case Section(inside, inner, next) => [(Name(inside), SectionValue(id, inside, inner))] + Members(id, next)
  }

  function Items(id: SectionId, b: Body): seq<J.Value>
    decreases b, 0
  {
    match b
    case End => []
    case Text(_, value, _, next) => [J.Str(value)] + Items(id, next)
    case Number(_, number, next) => [J.Num(Decimal(number))] + Items(id, next)
    case Section(inside, inner, next) => [SectionValue(id, inside, inner)] + Items(id, next)
  }

  function SectionValue(parent: SectionId, id: SectionId, inner: Body): J.Value
    decreases inner, 1
  {
    if IsArray(id) then J.Arr(Items(id, inner))
    else J.Obj((if parent == PacketsAndFrames then [("type", J.Str(Name(id)))] else []) + Members(id, inner))
  }

  /** The shape the program builds: arrays hold plain sections only, and the root is not nested. */
  predicate Shape(id: SectionId, b: Body)
    decreases b
  {
    match b
    case End => true
    case Text(_, _, _, next) => !IsArray(id) && Shape(id, next)
    case Number(_, _, next) => !IsArray(id) && Shape(id, next)
    case Section(inside, inner, next) =>
      && !IsWrapper(inside) && (IsArray(id) ==> IsPlain(inside))
      && Shape(inside, inner) && Shape(id, next)
  }

  /** Every packet or frame that gets the type item has something printed after it. */
  predicate Filled(id: SectionId, b: Body)
    decreases b
  {
    match b
    case End => true
    case Text(_, _, _, next) => Filled(id, next)
    case Number(_, _, next) => Filled(id, next)
    case Section(inside, inner, next) =>
      (id == PacketsAndFrames ==> !inner.End?) && Filled(inside, inner) && Filled(id, next)
  }

  /** A first element in front of what the rest gives, if it gives anything. */
  function Cons<T>(x: T, r: J.Parsed<seq<T>>): J.Parsed<seq<T>> {
    match r
    case None => None
    case Some((xs, rest)) => Some(([x] + xs, rest))
  }

  // ---------------------------------------------------------------- reading white space and numbers

  predicate AllWs(w: string) { forall i :: 0 <= i < |w| ==> J.IsWs(w[i]) }

  lemma {:induction false} SkipPrefix(w: string, s: string)
    requires AllWs(w)
    ensures J.SkipWs(w + s) == J.SkipWs(s)
  {
    if w == [] {
      assert w + s == s;
    } else {
      assert (w + s)[1..] == w[1..] + s;
      SkipPrefix(w[1..], s);
    }
  }

  lemma {:induction false} IndentWs(level: nat)
    ensures AllWs(Indent(level))
  {
    if level > 0 { SpacesWs(4 * level); }
  }

  lemma {:induction false} SpacesWs(n: nat)
    ensures AllWs(Spaces(n))
  {
    if n > 0 { SpacesWs(n - 1); }
  }

  lemma {:induction false} RunOfDigits(digits: string, rest: string)
    requires forall i :: 0 <= i < |digits| ==> J.IsDigit(digits[i])
    requires rest != [] ==> !J.IsDigit(rest[0])
    ensures J.DigitRun(digits + rest) == |digits|
  {
    if digits == [] {
      assert digits + rest == rest;
    } else {
      assert (digits + rest)[1..] == digits[1..] + rest;
      RunOfDigits(digits[1..], rest);
    }
  }

  /** What follows a number in the output. */
  predicate EndsNumber(s: string) { s != [] && (s[0] == ',' || s[0] == '}' || J.IsWs(s[0])) }

  /** The spelling of an integer without leading zeros. */
  predicate Lexeme(sign: string, digits: string) {
    (sign == "" || sign == "-") && digits != [] && (|digits| > 1 ==> digits[0] != '0')
    && forall i :: 0 <= i < |digits| ==> J.IsDigit(digits[i])
  }

  lemma NumberReads(n: int, rest: string)
    requires EndsNumber(rest)
    ensures J.ParseValue(Decimal(n) + rest) == Some((J.Num(Decimal(n)), rest))
    ensures !J.IsWs(Decimal(n)[0])
  {
    hide J.ParseValue, Digits, EndsNumber;
    var sign, digits := if n < 0 then "-" else "", Digits(if n < 0 then -n else n);
    LexemeReads(sign, digits, rest);
    assert Decimal(n) == sign + digits;
  }

  lemma LexemeReads(sign: string, digits: string, rest: string)
    requires Lexeme(sign, digits) && EndsNumber(rest)
    ensures J.ParseValue(sign + digits + rest) == Some((J.Num(sign + digits), rest))
  {
    hide J.ParseValue, J.NumberLength, J.DigitRun, J.FractionLength, J.ExponentLength, EndsNumber;
    var s := sign + digits + rest;
    assert s[|sign|..] == digits + rest;
    NoDigitAfter(rest);
    RunOfDigits(digits, rest);
    assert s[0] == if sign == "" then digits[0] else '-';
    assert s[|sign| + |digits|..] == rest && s[|sign|] == digits[0];
    NoTail(rest);
    NumberShape(s, |sign|, |digits|);
    NumberValue(s);
    assert s[|sign + digits|..] == rest && s[..|sign + digits|] == sign + digits;
  }

  lemma NoDigitAfter(rest: string)
    requires EndsNumber(rest)
    ensures rest != [] && !J.IsDigit(rest[0])
  {
  }

  lemma NumberValue(s: string)
    requires s != [] && (s[0] == '-' || '0' <= s[0] <= '9') && J.NumberLength(s) > 0
    ensures J.ParseValue(s) == Some((J.Num(s[..J.NumberLength(s)]), s[J.NumberLength(s)..]))
  {
    hide J.NumberLength;
    NotALiteral(s);
  }

  lemma NumberShape(s: string, minus: nat, k: nat)
    requires minus <= 1 && k > 0 && |s| >= minus + k && (s[0] == '-' <==> minus == 1)
    requires J.DigitRun(s[minus..]) == k && (s[minus] == '0' ==> k == 1)
    requires J.FractionLength(s[minus + k..]) == 0 && J.ExponentLength(s[minus + k..]) == 0
    ensures J.NumberLength(s) == minus + k
  {
    hide J.DigitRun, J.FractionLength, J.ExponentLength;
  }

  lemma NoTail(rest: string)
    requires EndsNumber(rest)
    ensures J.FractionLength(rest) == 0 && J.ExponentLength(rest) == 0
  {
  }

  lemma NotALiteral(s: string)
    requires s != [] && (s[0] == '-' || '0' <= s[0] <= '9')
    ensures !("true" <= s) && !("false" <= s) && !("null" <= s)
  {
    assert "true"[0] != s[0] && "false"[0] != s[0] && "null"[0] != s[0];
  }

  // ---------------------------------------------------------------- reading members and items

  /** The comma of every item but the first, white space, and the item. */
  function Lead(w: string, first: bool): string { (if first then "" else ",") + w }

  lemma MemberAfterLead(w: string, item: string, first: bool)
    requires AllWs(w) && item != [] && item[0] == '"'
    ensures J.ParseMembers(Lead(w, first) + item, first) == J.ParseMember(item)
  {
    hide J.ParseMember;
    SkipPrefix(w, item);
    if first {
      assert Lead(w, first) + item == w + item;
    } else {
      var s := Lead(w, first) + item;
      assert s[0] == ',' && s[1..] == w + item;
    }
  }

  lemma ItemAfterLead(w: string, item: string, first: bool)
    requires AllWs(w) && item != [] && item[0] == '{'
    ensures J.ParseItems(Lead(w, first) + item, first) == J.ParseItem(item)
  {
    hide J.ParseItem;
    SkipPrefix(w, item);
    if first {
      assert Lead(w, first) + item == w + item;
    } else {
      var s := Lead(w, first) + item;
      assert s[0] == ',' && s[1..] == w + item;
    }
  }

  lemma MembersEnd(w: string, rest: string, first: bool)
    requires AllWs(w)
    ensures J.ParseMembers(w + "}" + rest, first) == Some(([], rest))
  {
    hide J.ParseMember;
    SkipPrefix(w, "}" + rest);
    assert w + "}" + rest == w + ("}" + rest);
  }

  lemma ItemsEnd(w: string, rest: string, first: bool)
    requires AllWs(w)
    ensures J.ParseItems(w + "]" + rest, first) == Some(([], rest))
  {
    hide J.ParseItem;
    SkipPrefix(w, "]" + rest);
    assert w + "]" + rest == w + ("]" + rest);
  }

  /** A key, its value, and whatever follows. */
  lemma MemberReads(key: string, printed: string, value: J.Value, after: string)
    requires printed != [] && !J.IsWs(printed[0])
    requires var r := J.ParseValue(printed + after); r == None || r == Some((value, after))
    ensures J.ParseMember(Quote(key) + ": " + printed + after) ==
      if J.ParseValue(printed + after) == None then None else Cons((key, value), J.ParseMembers(after, false))
  {
    hide J.ParseValue, J.ParseMembers, E.Escape, J.StringBody;
    var t := Quote(key) + ": " + printed + after;
    var colon := ": " + (printed + after);
    StringReads(key, colon);
    assert t[1..] == E.Escape(E.JsonText, key) + "\"" + colon;
    assert t[0] == '"' && colon[0] == ':';
    assert colon[1..] == " " + (printed + after);
    SkipPrefix(" ", printed + after);
    assert J.SkipWs(colon) == colon;
    assert (printed + after)[0] == printed[0];
    assert J.SkipWs(printed + after) == printed + after;
  }

  lemma QuoteReads(v: string, rest: string)
    ensures J.ParseValue(Quote(v) + rest) == Some((J.Str(v), rest))
  {
    hide E.Escape, J.StringBody;
    var s := Quote(v) + rest;
    StringReads(v, rest);
    assert s[0] == '"' && s[1..] == E.Escape(E.JsonText, v) + "\"" + rest;
  }

  lemma BracketReads(inside: string)
    ensures J.ParseValue("{" + inside) == match J.ParseMembers(inside, true)
      case None => None
      case Some((members, rest)) => Some((J.Obj(members), rest))
    ensures J.ParseValue("[" + inside) == match J.ParseItems(inside, true)
      case None => None
      case Some((items, rest)) => Some((J.Arr(items), rest))
  {
    hide J.ParseMembers, J.ParseItems;
    assert ("{" + inside)[1..] == inside && ("[" + inside)[1..] == inside;
  }

  /** White space before the first member or item changes nothing. */
  lemma WsBeforeFirst(w: string, s: string)
    requires AllWs(w)
    ensures J.ParseMembers(w + s, true) == J.ParseMembers(s, true)
    ensures J.ParseItems(w + s, true) == J.ParseItems(s, true)
  {
    hide J.ParseMember, J.ParseItem;
    SkipPrefix(w, s);
  }

  // ---------------------------------------------------------------- section names and the type item

  lemma {:induction false} PlainText(s: string)
    requires forall i :: 0 <= i < |s| ==> E.JsonUnit(s[i]) == [s[i]]
    ensures E.Escape(E.JsonText, s) == s
  {
    hide E.JsonUnit;
    if s != [] {
      PlainText(s[..|s| - 1]);
      assert s == s[..|s| - 1] + [s[|s| - 1]];
    }
  }

  lemma NameQuoted(id: SectionId)
    ensures Quote(Name(id)) == "\"" + Name(id) + "\""
  {
    hide Name;
    NamesPlain(id);
    PlainText(Name(id));
  }

  lemma TypeQuoted()
    ensures Quote("type") == "\"type\""
  {
    PlainText("type");
  }

  /** A comma may not be followed by the closing brace. */
  lemma TrailingComma(w: string, rest: string)
    requires AllWs(w)
    ensures J.ParseMembers("," + w + "}" + rest, false) == None
  {
    hide J.StringBody;
    SkipPrefix(w, "}" + rest);
    var t := "," + w + "}" + rest;
    assert t[1..] == w + ("}" + rest) && J.SkipWs(t) == t;
  }

  /** After a comma the members must not be empty. */
  lemma CommaThenFirst(w: string, s: string, inner: Body, id: SectionId, rest: string)
    requires AllWs(w) && !inner.End?
    requires J.ParseMembers(s, true) == Result(Filled(id, inner), Members(id, inner), rest)
    ensures J.ParseMembers("," + w + s, false) == J.ParseMembers(s, true)
  {
    hide J.ParseMember, Filled;
    SkipPrefix(w, s);
    var t := "," + w + s;
    assert t[1..] == w + s && J.SkipWs(t) == t;
    assert Members(id, inner) != [];
  }

  function TypeWs(compact: bool): string { if compact then " " else "\n" }

  lemma TypeItemText(compact: bool, level: nat, id: SectionId)
    ensures TypeItem(compact, level, id) ==
      (if compact then "" else Indent(level)) + (Quote("type") + ": " + Quote(Name(id)) + ("," + TypeWs(compact)))
  {
    NameQuoted(id);
    TypeQuoted();
    hide Name, Indent, Quote;
    var name := Name(id);
    assert "\"type\": \"" == "\"type\"" + ": " + "\"";
    Regroup("\"type\"" + ": ", "\"", name, "\"", "," + TypeWs(compact));
  }

  lemma Regroup(a: string, b: string, c: string, d: string, e: string)
    ensures a + b + c + d + e == a + (b + c + d) + e
  {
  }

  /** The type item in front of what follows its comma. */
  lemma TypeItemReads(compact: bool, level: nat, id: SectionId, s: string)
    ensures J.ParseMembers(TypeItem(compact, level, id) + s, true) ==
      Cons(("type", J.Str(Name(id))), J.ParseMembers("," + TypeWs(compact) + s, false))
  {
    hide J.ParseMembers, J.ParseMember, J.ParseValue, Name, Indent, E.Escape, TypeItem, TypeWs;
    var after := "," + TypeWs(compact) + s;
    QuoteReads(Name(id), after);
    MemberReads("type", Quote(Name(id)), J.Str(Name(id)), after);
    IndentWs(level);
    var indent := if compact then "" else Indent(level);
    hide Quote;
    var item := Quote("type") + ": " + Quote(Name(id));
    MemberAfterLead(indent, item + after, true);
    assert Lead(indent, true) == indent;
    TypeItemText(compact, level, id);
    Attach(indent, item, "," + TypeWs(compact), s);
  }

  lemma TypeWsWs(compact: bool)
    ensures AllWs(TypeWs(compact))
  {
  }

  lemma Attach(a: string, b: string, c: string, s: string)
    ensures a + (b + c) + s == a + (b + (c + s))
  {
  }

  // ---------------------------------------------------------------- the round trip

  function BeforeWs(compact: bool, level: nat, first: bool): string {
    (if first then "" else if compact then " " else "\n") + if compact then "" else Indent(level)
  }

  function HeaderWs(level: nat, first: bool): string { (if first then "" else "\n") + Indent(level) }

  function FooterWs(compact: bool, level: nat, id: SectionId): string {
    if IsArray(id) then "\n" + Indent(level) else StartEnd(compact) + if compact then "" else Indent(level)
  }

  lemma LeadingWs(compact: bool, level: nat, first: bool, id: SectionId)
    ensures AllWs(BeforeWs(compact, level, first)) && AllWs(HeaderWs(level, first)) && AllWs(FooterWs(compact, level, id))
    ensures Before(compact, level, first) == Lead(BeforeWs(compact, level, first), first)
    ensures Footer(compact, level, id) == FooterWs(compact, level, id) + if IsArray(id) then "]" else "}"
  {
    hide Indent;
    IndentWs(level);
  }

  lemma HeaderSplit(compact: bool, level: nat, parent: SectionId, first: bool, id: SectionId)
    requires !IsWrapper(id)
    ensures Header(compact, level, parent, first, id) ==
      Lead(HeaderWs(level, first), first) + (Label(parent, id) + Opening(compact, level, parent, id))
  {
    hide Indent, Label, Opening;
    var lead := (if first then "" else ",\n") + Indent(level);
    assert Lead(HeaderWs(level, first), first) == lead;
    Pieces(if first then "" else ",\n", Indent(level), Label(parent, id), Opening(compact, level, parent, id));
  }

  lemma Pieces(a: string, b: string, c: string, d: string)
    ensures a + (b + c + d) == (a + b) + (c + d)
  {
  }

  lemma CommaFirst(compact: bool, level: nat, id: SectionId, inside: SectionId)
    ensures Before(compact, level, false) != [] && Before(compact, level, false)[0] == ','
    ensures Header(compact, level, id, false, inside) != [] && Header(compact, level, id, false, inside)[0] == ','
  {
    hide Indent, Label, Opening;
  }

  lemma RenderStart(compact: bool, level: nat, id: SectionId, b: Body)
    requires !b.End?
    ensures Render(compact, level, id, false, b) != [] && Render(compact, level, id, false, b)[0] == ','
  {
    hide Before, Header, Footer, Quote, Decimal;
    CommaFirst(compact, level, id, if b.Section? then b.id else Root);
  }

  /** The text after an item ends a number: a comma, white space or the closing brace. */
  lemma AfterItem(compact: bool, level: nat, id: SectionId, next: Body, w: string, rest: string)
    requires AllWs(w)
    ensures EndsNumber(Render(compact, level, id, false, next) + w + "}" + rest)
  {
    hide Before, Header, Footer, Quote, Decimal;
    var s := Render(compact, level, id, false, next);
    if next.End? {
      assert (s + w + "}" + rest)[0] == if w == "" then '}' else w[0];
    } else {
      hide Render;
      RenderStart(compact, level, id, next);
      assert (s + w + "}" + rest)[0] == s[0];
    }
  }

  /** One printed member in front of the rest of its object. */
  lemma MemberStep(w: string, first: bool, key: string, printed: string, value: J.Value, after: string)
    requires AllWs(w) && printed != [] && !J.IsWs(printed[0])
    requires var r := J.ParseValue(printed + after); r == None || r == Some((value, after))
    ensures J.ParseMembers(Lead(w, first) + (Quote(key) + ": " + printed) + after, first) ==
      if J.ParseValue(printed + after) == None then None else Cons((key, value), J.ParseMembers(after, false))
  {
    hide J.ParseValue, J.ParseMembers, J.ParseMember, Lead, AllWs, E.Escape, J.IsWs, Cons;
    MemberReads(key, printed, value, after);
    var item := Quote(key) + ": " + printed;
    MemberAfterLead(w, item + after, first);
    assert Lead(w, first) + item + after == Lead(w, first) + (item + after);
  }

  lemma ItemStep(w: string, first: bool, printed: string, value: J.Value, after: string)
    requires AllWs(w) && printed != [] && printed[0] == '{'
    requires var r := J.ParseValue(printed + after); r == None || r == Some((value, after))
    ensures J.ParseItems(Lead(w, first) + printed + after, first) ==
      if J.ParseValue(printed + after) == None then None else Cons(value, J.ParseItems(after, false))
  {
    hide J.ParseValue, J.ParseItems, Lead, AllWs;
    ItemAfterLead(w, printed + after, first);
    assert Lead(w, first) + printed + after == Lead(w, first) + (printed + after);
  }

  /** What is printed for a section after its label. */
  function SectionText(compact: bool, level: nat, parent: SectionId, id: SectionId, inner: Body): string {
    Opening(compact, level, parent, id) + Render(compact, level + 1, id, true, inner) + Footer(compact, level, id)
  }

  lemma RenderSection(compact: bool, level: nat, id: SectionId, first: bool, b: Body, tail: string)
    requires b.Section? && !IsWrapper(b.id)
    ensures Render(compact, level, id, first, b) + tail ==
      Lead(HeaderWs(level, first), first) + (Label(id, b.id) + SectionText(compact, level, id, b.id, b.inner)) +
      (Render(compact, level, id, false, b.next) + tail)
  {
    hide Header, Label, Opening, Footer, Lead, HeaderWs;
    HeaderSplit(compact, level, id, first, b.id);
    Reassociate(Lead(HeaderWs(level, first), first), Label(id, b.id), Opening(compact, level, id, b.id),
      Render(compact, level + 1, b.id, true, b.inner), Footer(compact, level, b.id),
      Render(compact, level, id, false, b.next), tail);
  }

  lemma Reassociate(a: string, b: string, c: string, d: string, e: string, f: string, g: string)
    ensures (a + (b + c)) + d + e + f + g == a + (b + (c + d + e)) + (f + g)
  {
  }

  lemma Tail(a: string, b: string, w: string, c: string, rest: string)
    ensures a + b + w + c + rest == a + (b + w + c + rest)
  {
  }

  /** A printed string or number item in front of the rest of its object. */
  lemma ValueItemReads(compact: bool, level: nat, first: bool, key: string, printed: string, value: J.Value, next: string,
                       w: string, rest: string)
    requires printed != [] && !J.IsWs(printed[0])
    requires J.ParseValue(printed + (next + w + "}" + rest)) == Some((value, next + w + "}" + rest))
    ensures J.ParseMembers((Before(compact, level, first) + Quote(key) + ": " + printed + next) + w + "}" + rest, first)
      == Cons((key, value), J.ParseMembers(next + w + "}" + rest, false))
  {
    hide J.ParseMembers, J.ParseValue, J.IsWs, Quote, Before, Lead, BeforeWs, AllWs, Cons;
    LeadingWs(compact, level, first, Root);
    MemberStep(BeforeWs(compact, level, first), first, key, printed, value, next + w + "}" + rest);
    var lead := Before(compact, level, first);
    Flatten(lead, Quote(key), ": ", printed, next + w + "}" + rest);
    Tail(lead + Quote(key) + ": " + printed, next, w, "}", rest);
  }

  lemma Flatten(a: string, b: string, c: string, d: string, e: string)
    ensures a + b + c + d + e == a + (b + c + d) + e
  {
  }

  lemma BracketResult(inside: string, ok: bool, members: seq<(string, J.Value)>, items: seq<J.Value>, after: string)
    ensures J.ParseMembers(inside, true) == Result(ok, members, after) ==>
      J.ParseValue("{" + inside) == Result(ok, J.Obj(members), after)
    ensures J.ParseItems(inside, true) == Result(ok, items, after) ==>
      J.ParseValue("[" + inside) == Result(ok, J.Arr(items), after)
  {
    hide J.ParseMembers, J.ParseItems, J.ParseValue;
    BracketReads(inside);
  }

  function Result<T>(ok: bool, value: T, rest: string): J.Parsed<T> { if ok then Some((value, rest)) else None }

  /** The section can be read: it is filled inside, and not empty behind a type item. */
  predicate Readable(parent: SectionId, id: SectionId, inner: Body) {
    Filled(id, inner) && (parent == PacketsAndFrames ==> !inner.End?)
  }

  /** The members printed for a body inside an object are read back, up to the closing brace. */
  lemma {:induction false} MembersRead(compact: bool, level: nat, id: SectionId, first: bool, b: Body, w: string,
                                        rest: string)
    requires !IsArray(id) && Shape(id, b) && AllWs(w)
    ensures J.ParseMembers(Render(compact, level, id, first, b) + w + "}" + rest, first) ==
      Result(Filled(id, b), Members(id, b), rest)
    decreases b, 0
  {
    hide J.ParseMembers, J.ParseValue, J.IsWs, Quote, Before, Lead, HeaderWs, AllWs, EndsNumber, Decimal,
      Header, Footer, Label, Opening;
    if b.End? {
      MembersEnd(w, rest, first);
      assert "" + w == w;
    } else {
      MembersRead(compact, level, id, false, b.next, w, rest);
      var next := Render(compact, level, id, false, b.next);
      var after := next + w + "}" + rest;
      match b
      case Text(key, value, _, _) =>
        QuoteReads(value, after);
        QuoteStart(value);
        ValueItemReads(compact, level, first, key, Quote(value), J.Str(value), next, w, rest);
      case Number(key, number, _) =>
        AfterItem(compact, level, id, b.next, w, rest);
        NumberReads(number, after);
        ValueItemReads(compact, level, first, key, Decimal(number), J.Num(Decimal(number)), next, w, rest);
      case Section(inside, inner, _) =>
        SectionReads(compact, level, id, inside, inner, after);
        SectionMember(compact, level, id, first, b, w, rest);
    }
  }

  lemma SectionMember(compact: bool, level: nat, id: SectionId, first: bool, b: Body, w: string, rest: string)
    requires b.Section? && !IsArray(id) && Shape(id, b) && AllWs(w)
    requires var after := Render(compact, level, id, false, b.next) + w + "}" + rest;
      && J.ParseMembers(after, false) == Result(Filled(id, b.next), Members(id, b.next), rest)
      && J.ParseValue(SectionText(compact, level, id, b.id, b.inner) + after) ==
           Result(Readable(id, b.id, b.inner), SectionValue(id, b.id, b.inner), after)
    ensures J.ParseMembers(Render(compact, level, id, first, b) + w + "}" + rest, first) ==
      Result(Filled(id, b), Members(id, b), rest)
  {
    hide J.ParseMembers, J.ParseValue, J.IsWs, Quote, Render, Lead, HeaderWs, AllWs, Label, SectionText, Name;
    var next := Render(compact, level, id, false, b.next);
    SectionStart(compact, level, id, b.id, b.inner);
    LeadingWs(compact, level, first, b.id);
    RenderSection(compact, level, id, first, b, w + "}" + rest);
    LabelOf(id, b.id);
    var text := SectionText(compact, level, id, b.id, b.inner);
    MemberStep(HeaderWs(level, first), first, Name(b.id), text, SectionValue(id, b.id, b.inner), next + w + "}" + rest);
    TailOne(Render(compact, level, id, first, b), w, rest);
    TailOne(next, w, rest);
    assert Quote(Name(b.id)) + ": " + text == Label(id, b.id) + text;
  }

  lemma TailOne(a: string, w: string, rest: string)
    ensures a + w + "}" + rest == a + (w + "}" + rest)
    ensures a + w + "]" + rest == a + (w + "]" + rest)
  {
  }

  lemma QuoteStart(v: string)
    ensures Quote(v) != [] && !J.IsWs(Quote(v)[0])
  {
    hide E.Escape;
  }

  lemma SectionStart(compact: bool, level: nat, parent: SectionId, id: SectionId, inner: Body)
    ensures var s := SectionText(compact, level, parent, id, inner);
      s != [] && s[0] == (if IsArray(id) then '[' else '{') && !J.IsWs(s[0])
  {
    hide Render, Footer, TypeItem;
  }

  lemma LabelOf(parent: SectionId, id: SectionId)
    requires !IsArray(parent)
    ensures Label(parent, id) == Quote(Name(id)) + ": "
  {
    hide Quote, Name;
  }

  /** The sections printed inside an array are read back, up to the closing bracket. */
  lemma {:induction false} ItemsRead(compact: bool, level: nat, id: SectionId, first: bool, b: Body, w: string,
                                      rest: string)
    requires IsArray(id) && Shape(id, b) && AllWs(w)
    ensures J.ParseItems(Render(compact, level, id, first, b) + w + "]" + rest, first) ==
      Result(Filled(id, b), Items(id, b), rest)
    decreases b, 0
  {
    hide J.ParseItems, J.ParseValue, J.IsWs, Quote, Before, Lead, HeaderWs, AllWs, Header, Footer, Opening, SectionText;
    if b.End? {
      ItemsEnd(w, rest, first);
      assert "" + w == w;
    } else {
      ItemsRead(compact, level, id, false, b.next, w, rest);
      SectionReads(compact, level, id, b.id, b.inner, Render(compact, level, id, false, b.next) + w + "]" + rest);
      SectionItem(compact, level, id, first, b, w, rest);
    }
  }

  lemma SectionItem(compact: bool, level: nat, id: SectionId, first: bool, b: Body, w: string, rest: string)
    requires b.Section? && IsArray(id) && Shape(id, b) && AllWs(w)
    requires var after := Render(compact, level, id, false, b.next) + w + "]" + rest;
      && J.ParseItems(after, false) == Result(Filled(id, b.next), Items(id, b.next), rest)
      && J.ParseValue(SectionText(compact, level, id, b.id, b.inner) + after) ==
           Result(Readable(id, b.id, b.inner), SectionValue(id, b.id, b.inner), after)
    ensures J.ParseItems(Render(compact, level, id, first, b) + w + "]" + rest, first) ==
      Result(Filled(id, b), Items(id, b), rest)
  {
    hide J.ParseItems, J.ParseValue, J.IsWs, Render, Lead, HeaderWs, AllWs, SectionText;
    var next := Render(compact, level, id, false, b.next);
    var text := SectionText(compact, level, id, b.id, b.inner);
    SectionStart(compact, level, id, b.id, b.inner);
    LeadingWs(compact, level, first, b.id);
    RenderSection(compact, level, id, first, b, w + "]" + rest);
    assert Label(id, b.id) + text == text;
    ItemStep(HeaderWs(level, first), first, text, SectionValue(id, b.id, b.inner), next + w + "]" + rest);
    TailOne(Render(compact, level, id, first, b), w, rest);
    TailOne(next, w, rest);
  }

  /** A printed section is read back as its object or array. */
  lemma SectionReads(compact: bool, level: nat, parent: SectionId, id: SectionId, inner: Body, after: string)
    requires Shape(id, inner) && !IsWrapper(id) && (parent == PacketsAndFrames ==> IsPlain(id))
    ensures J.ParseValue(SectionText(compact, level, parent, id, inner) + after) ==
      Result(Readable(parent, id, inner), SectionValue(parent, id, inner), after)
    decreases inner, 1
  {
    hide *;
    var w := FooterWs(compact, level, id);
    LeadingWs(compact, level, true, id);
    if IsArray(id) {
      ItemsRead(compact, level + 1, id, true, inner, w, after);
      assert parent != PacketsAndFrames by { NotBoth(id); }
      ArraySection(compact, level, parent, id, inner, after);
    } else {
      MembersRead(compact, level + 1, id, true, inner, w, after);
      ObjectSection(compact, level, parent, id, inner, after);
    }
  }

  lemma NotBoth(id: SectionId)
    ensures IsArray(id) ==> !IsPlain(id)
  {
  }

  lemma ArraySection(compact: bool, level: nat, parent: SectionId, id: SectionId, inner: Body, after: string)
    requires IsArray(id) && parent != PacketsAndFrames
    requires var text := Render(compact, level + 1, id, true, inner) + FooterWs(compact, level, id) + "]" + after;
      J.ParseItems(text, true) == Result(Filled(id, inner), Items(id, inner), after)
    ensures J.ParseValue(SectionText(compact, level, parent, id, inner) + after) ==
      Result(Readable(parent, id, inner), SectionValue(parent, id, inner), after)
  {
    hide J.ParseItems, J.ParseMembers, J.ParseValue, AllWs, TypeItem, FooterWs, StartEnd, Render, Indent,
      Items, Footer, Filled;
    var text := Render(compact, level + 1, id, true, inner);
    var w := FooterWs(compact, level, id);
    var inside := text + w + "]" + after;
    LeadingWs(compact, level, true, id);
    NewlineWs();
    WsBeforeFirst("\n", inside);
    BracketResult("\n" + inside, Filled(id, inner), [], Items(id, inner), after);
    assert "[\n" == "[" + "\n";
    Around("[", "\n", text, w, "]", after);
  }

  lemma ObjectSection(compact: bool, level: nat, parent: SectionId, id: SectionId, inner: Body, after: string)
    requires !IsArray(id)
    requires var text := Render(compact, level + 1, id, true, inner) + FooterWs(compact, level, id) + "}" + after;
      J.ParseMembers(text, true) == Result(Filled(id, inner), Members(id, inner), after)
    ensures J.ParseValue(SectionText(compact, level, parent, id, inner) + after) ==
      Result(Readable(parent, id, inner), SectionValue(parent, id, inner), after)
  {
    hide J.ParseItems, J.ParseMembers, J.ParseValue, AllWs, TypeItem, FooterWs, StartEnd, Render, Indent,
      Footer, Members, Readable, Result;
    var text := Render(compact, level + 1, id, true, inner);
    var w := FooterWs(compact, level, id);
    LeadingWs(compact, level, true, id);
    StartEndWs(compact);
    TypedMembers(compact, level, parent, id, inner, text, w, after);
    var typeItem := if parent == PacketsAndFrames then TypeItem(compact, level + 1, id) else "";
    var inside := typeItem + (text + w + "}" + after);
    WsBeforeFirst(StartEnd(compact), inside);
    var members := (if parent == PacketsAndFrames then [("type", J.Str(Name(id)))] else []) + Members(id, inner);
    BracketResult(StartEnd(compact) + inside, Readable(parent, id, inner), members, [], after);
    AroundObject(StartEnd(compact), typeItem, text, w, after);
  }

  /** The members of a section with the type item, if it has one; an empty packet or frame is not valid. */
  lemma TypedMembers(compact: bool, level: nat, parent: SectionId, id: SectionId, inner: Body, text: string,
                     w: string, after: string)
    requires AllWs(w) && text == Render(compact, level + 1, id, true, inner)
    requires J.ParseMembers(text + w + "}" + after, true) == Result(Filled(id, inner), Members(id, inner), after)
    ensures var typeItem := if parent == PacketsAndFrames then TypeItem(compact, level + 1, id) else "";
      J.ParseMembers(typeItem + (text + w + "}" + after), true) ==
      Result(Readable(parent, id, inner),
        (if parent == PacketsAndFrames then [("type", J.Str(Name(id)))] else []) + Members(id, inner), after)
  {
    hide J.ParseMembers, TypeItem, Name, TypeWs;
    var s := text + w + "}" + after;
    if parent == PacketsAndFrames {
      TypeItemReads(compact, level + 1, id, s);
      TypeWsWs(compact);
      if inner.End? {
        TrailingComma(TypeWs(compact) + w, after);
        assert "," + TypeWs(compact) + s == "," + (TypeWs(compact) + w) + "}" + after;
      } else {
        hide Render;
        CommaThenFirst(TypeWs(compact), s, inner, id, after);
      }
    } else {
      hide Members;
      assert "" + s == s;
      assert [] + Members(id, inner) == Members(id, inner);
    }
  }

  lemma NewlineWs()
    ensures AllWs("\n")
  {
  }

  lemma StartEndWs(compact: bool)
    ensures AllWs(StartEnd(compact))
  {
  }

  lemma Around(open: string, ws: string, text: string, w: string, close: string, after: string)
    ensures (open + ws) + text + (w + close) + after == open + (ws + (text + w + close + after))
  {
  }

  lemma AroundObject(ws: string, typeItem: string, text: string, w: string, after: string)
    ensures ("{" + ws + typeItem) + text + (w + "}") + after == "{" + (ws + (typeItem + (text + w + "}" + after)))
  {
  }

  /** For every tree of the shape the program builds, compact or indented: the output is one JSON text that
      reads back as the same tree of keys, strings, integers and sections, exactly when every packet and frame
      directly inside packets_and_frames has an item; otherwise it is not JSON at all. */
  lemma JsonRoundTrip(compact: bool, b: Body)
    requires Shape(Root, b)
    ensures J.Parse(Document(compact, b)) == if Filled(Root, b) then Some(J.Obj(Members(Root, b))) else None
  {
    hide J.ParseMembers, J.ParseValue, Render, Shape, Members, Filled;
    var text := Render(compact, 1, Root, true, b);
    assert AllWs("\n") by { NewlineWs(); }
    MembersRead(compact, 1, Root, true, b, "\n", "\n");
    WsBeforeFirst("\n", text + "\n" + "}" + "\n");
    BracketReads("\n" + (text + "\n" + "}" + "\n"));
    assert "{\n" == "{" + "\n" && "\n}\n" == "\n" + "}" + "\n";
    Whole("{", text);
    assert J.SkipWs("\n") == [];
    var doc := Document(compact, b);
    assert doc[0] == '{' && J.SkipWs(doc) == doc;
  }

  lemma Whole(open: string, text: string)
    ensures (open + "\n") + text + ("\n" + "}" + "\n") == open + ("\n" + (text + "\n" + "}" + "\n"))
  {
  }
}
