/** The compact and CSV writers of lavc/ffprobe.c, and RFC 4180 reading of the CSV records. */
module CompactOutput {
  import opened Sections
  import opened Wrappers
  import E = Escapers

  datatype EscapeMode = Plain | CLike | Csv

  /** Options of the writer; csv is the same writer with other defaults. */
  datatype Options = Options(sep: char, nokey: bool, printSection: bool, escape: EscapeMode)

  const LF := '\n'
  const CR := '\r'

  // ---------------------------------------------------------------- CSV quoting

  predicate Special(c: char, sep: char) { c == sep || c == '"' || c == LF || c == CR }

  predicate NeedsQuoting(s: string, sep: char) { exists i :: 0 <= i < |s| && Special(s[i], sep) }

  function DoubleQuotes(s: string): string {
    if s == [] then [] else (if s[0] == '"' then "\"\"" else [s[0]]) + DoubleQuotes(s[1..])
  }

  /** csv_escape_str. */
  function CsvEscape(s: string, sep: char): string {
    if NeedsQuoting(s, sep) then "\"" + DoubleQuotes(s) + "\"" else DoubleQuotes(s)
  }

  /** The copy loop of csv_escape_str. */
  method CopyDoubling(src: string) returns (dst: string)
    ensures dst == DoubleQuotes(src)
  {
    dst := "";
    for p := 0 to |src|
      invariant dst + DoubleQuotes(src[p..]) == DoubleQuotes(src)
    {
      assert src[p..][1..] == src[p + 1..];
      if src[p] == '"' { dst := dst + "\""; }
      dst := dst + [src[p]];
    }
    assert DoubleQuotes(src[|src|..]) == "" && dst + "" == dst;
  }

  /** csv_escape_str as it runs: the search for a meta character, then the copy. */
  method CsvEscapeStr(src: string, sep: char) returns (dst: string)
    ensures dst == CsvEscape(src, sep)
  {
    var i := 0;
    while i < |src| && !Special(src[i], sep)
      invariant 0 <= i <= |src| && forall j :: 0 <= j < i ==> !Special(src[j], sep)
    {
      i := i + 1;
    }
    var needsQuoting := i < |src|;
    assert needsQuoting == NeedsQuoting(src, sep);
    dst := CopyDoubling(src);
    if needsQuoting { dst := "\"" + dst + "\""; }
  }

  function EscapeValue(o: Options, s: string): string {
    match o.escape
    case Plain => s
    case CLike => E.Escape(E.C(o.sep), s)
    case Csv => CsvEscape(s, o.sep)
  }

  // ---------------------------------------------------------------- what is printed

  function KeyPart(o: Options, id: SectionId, key: string, text: bool): string {
    if o.nokey then "" else (if text && IsTags(id) then "tag:" else "") + key + "="
  }

  function ItemText(o: Options, id: SectionId, items: nat, key: string, value: string, text: bool): string {
    (if items > 0 then [o.sep] else "") + KeyPart(o, id, key, text) + value
  }

  function HeaderText(o: Options, id: SectionId): string {
    if !IsTags(id) && o.printSection && IsPlain(id) then Name(id) + [o.sep] else ""
  }

  function FooterText(id: SectionId): string { if !IsTags(id) && IsPlain(id) then [LF] else "" }

  /** Number of items counted when a section starts: tags go on counting. */
  function FirstItems(id: SectionId, parentItems: nat): nat { if IsTags(id) then parentItems else 0 }

  /** Everything printed for a body inside section `id` after `items` items. */
  function Render(o: Options, id: SectionId, items: nat, b: Body): string
    decreases b
  {
    match b
    case End => ""
    case Text(key, value, _, next) =>
      ItemText(o, id, items, key, EscapeValue(o, value), true) + Render(o, id, items + 1, next)
    case Number(key, number, next) =>
      ItemText(o, id, items, key, Decimal(number), false) + Render(o, id, items + 1, next)
    case Section(inside, inner, next) =>
      HeaderText(o, inside) + Render(o, inside, FirstItems(inside, items), inner) + FooterText(inside) +
      Render(o, id, items + 1, next)
  }

  /** The record of one plain section. */
  function Record(o: Options, id: SectionId, b: Body): string {
    HeaderText(o, id) + Render(o, id, 0, b) + FooterText(id)
  }

  // ---------------------------------------------------------------- the reader: section 2 of RFC 4180

  /** A quoted field after its opening quote; a doubled quote stands for one. */
  function QuotedField(s: string): (r: Option<(string, string)>)
    ensures r.Some? ==> |r.value.1| < |s|
    decreases |s|
  {
    if s == [] then None
    else if s[0] != '"' then
      match QuotedField(s[1..])
      case None => None
      case Some((text, rest)) => Some(([s[0]] + text, rest))
    else if |s| > 1 && s[1] == '"' then
      match QuotedField(s[2..])
      case None => None
      case Some((text, rest)) => Some((['"'] + text, rest))
    else Some(([], s[1..]))
  }

  /** The longest run of ordinary characters. */
  function BareField(s: string, sep: char): (r: (string, string))
    ensures |r.1| <= |s|
  {
    if s == [] || Special(s[0], sep) then ([], s)
    else
      var (text, rest) := BareField(s[1..], sep);
      ([s[0]] + text, rest)
  }

  function ReadField(s: string, sep: char): (r: Option<(string, string)>)
    ensures r.Some? ==> |r.value.1| <= |s|
  {
    if s != [] && s[0] == '"' then QuotedField(s[1..]) else Some(BareField(s, sep))
  }

  /** One record and what follows its line end. */
  function ReadRecord(s: string, sep: char): Option<(seq<string>, string)>
    decreases |s|
  {
    match ReadField(s, sep)
    case None => None
    case Some((field, rest)) =>
      if rest == [] then None
      else if rest[0] == LF then Some(([field], rest[1..]))
      else if rest[0] != sep then None
      else
        match ReadRecord(rest[1..], sep)
        case None => None
        case Some((fields, end)) => Some(([field] + fields, end))
  }

  // ---------------------------------------------------------------- one field

  lemma {:induction false} QuotedReads(s: string, rest: string)
    requires rest == [] || rest[0] != '"'
    ensures QuotedField(DoubleQuotes(s) + "\"" + rest) == Some((s, rest))
  {
    var t := DoubleQuotes(s) + "\"" + rest;
    if s == [] {
      assert t == "\"" + rest;
      assert t[1..] == rest;
    } else {
      QuotedReads(s[1..], rest);
      var after := DoubleQuotes(s[1..]) + "\"" + rest;
      assert s == [s[0]] + s[1..];
      if s[0] == '"' {
        assert t[0] == '"' && t[1] == '"' && t[2..] == after;
      } else {
        assert t[0] == s[0] && t[1..] == after;
      }
    }
  }

  lemma {:induction false} BareReads(s: string, rest: string, sep: char)
    requires forall i :: 0 <= i < |s| ==> !Special(s[i], sep)
    requires rest == [] || Special(rest[0], sep)
    ensures BareField(s + rest, sep) == (s, rest)
  {
    if s == [] {
      assert s + rest == rest;
    } else {
      assert (s + rest)[1..] == s[1..] + rest && (s + rest)[0] == s[0];
      BareReads(s[1..], rest, sep);
      assert [s[0]] + s[1..] == s;
    }
  }

  lemma {:induction false} NothingDoubled(s: string)
    requires forall i :: 0 <= i < |s| ==> s[i] != '"'
    ensures DoubleQuotes(s) == s
  {
    if s != [] {
      NothingDoubled(s[1..]);
      assert s == [s[0]] + s[1..];
    }
  }

  /** What ends a field. */
  lemma {:induction false} DoublingLengthens(s: string)
    ensures |DoubleQuotes(s)| >= |s|
  {
    if s != [] { DoublingLengthens(s[1..]); }
  }

  /** A value is printed as it is exactly when it has no separator, quote or line end; otherwise it is put
      between quotes. */
  lemma QuotedIff(s: string, sep: char)
    ensures CsvEscape(s, sep) == s <==>
      forall i :: 0 <= i < |s| ==> s[i] != sep && s[i] != '"' && s[i] != '\n' && s[i] != '\r'
    ensures var t := CsvEscape(s, sep); t != s ==> |t| >= |s| + 2 && t[0] == '"' && t[|t| - 1] == '"'
  {
    DoublingLengthens(s);
    if !NeedsQuoting(s, sep) {
      assert forall i :: 0 <= i < |s| ==> !Special(s[i], sep);
      NothingDoubled(s);
    } else {
      var i :| 0 <= i < |s| && Special(s[i], sep);
    }
  }

  // ---------------------------------------------------------------- one item with its key

  /** A keyed item: what stands before the first equals sign, and the unescaped value. */
  function ReadItem(s: string, sep: char): Option<(string, string, string)> {
    if '=' !in s then None
    else
      var i := E.Find(s, '=');
      match E.Decode(E.C(sep), true, s[i + 1..])
      case None => None
      case Some((value, rest)) => Some((s[..i], value, rest))
  }

  lemma {:induction false} FindsFirst(a: string, rest: string)
    requires '=' !in a
    ensures '=' in a + "=" + rest && E.Find(a + "=" + rest, '=') == |a|
  {
    var s := a + "=" + rest;
    assert s[|a|] == '=';
    if a != [] {
      assert s[0] == a[0];
      assert s[1..] == a[1..] + "=" + rest;
      FindsFirst(a[1..], rest);
    }
  }

  /** In the compact format a text item with its key, marked as a tag inside tags, reads back with what follows
      it exactly when the key has no equals sign; the key itself is printed raw. */
  lemma KeyedItemReads(o: Options, id: SectionId, key: string, value: string, rest: string)
    requires !o.nokey && o.escape == CLike && !E.Ambiguous(o.sep) && o.sep != '\\'
    requires rest == [] || rest[0] == o.sep || rest[0] == LF
    ensures var name := (if IsTags(id) then "tag:" else "") + key;
      var s := ItemText(o, id, 0, key, EscapeValue(o, value), true) + rest;
      ReadItem(s, o.sep) == Some((name, value, rest)) <==> '=' !in key
  {
    hide E.Decode, E.Escape, E.Find;
    var name := (if IsTags(id) then "tag:" else "") + key;
    var escaped := E.Escape(E.C(o.sep), value);
    var s := ItemText(o, id, 0, key, EscapeValue(o, value), true) + rest;
    KeyedText(o, id, key, value, rest);
    E.RoundTrip(E.C(o.sep), true, value, rest);
    if '=' !in key {
      FindsFirst(name, escaped + rest);
      assert s[|name| + 1..] == escaped + rest && s[..|name|] == name;
    } else {
      assert s[..|name|] == name && '=' in name;
      FindsEarlier(s, |name|);
    }
  }

  lemma KeyedText(o: Options, id: SectionId, key: string, value: string, rest: string)
    requires !o.nokey && o.escape == CLike
    ensures ItemText(o, id, 0, key, EscapeValue(o, value), true) + rest ==
      (if IsTags(id) then "tag:" else "") + key + "=" + (E.Escape(E.C(o.sep), value) + rest)
  {
    hide E.Escape;
  }

  lemma {:induction false} FindsEarlier(s: string, n: nat)
    requires n <= |s| && '=' in s[..n]
    ensures '=' in s && E.Find(s, '=') < n
  {
    if s[0] != '=' {
      assert s[1..][..n - 1] == s[..n][1..];
      FindsEarlier(s[1..], n - 1);
    }
  }

  predicate EndsField(rest: string, sep: char) { rest != [] && (rest[0] == sep || rest[0] == LF) }

  predicate GoodSeparator(sep: char) { sep != '"' && sep != LF && sep != CR }

  lemma QuotedFieldReads(v: string, rest: string, sep: char)
    requires EndsField(rest, sep) && sep != '"'
    ensures ReadField("\"" + DoubleQuotes(v) + "\"" + rest, sep) == Some((v, rest))
  {
    hide DoubleQuotes, QuotedField;
    QuotedReads(v, rest);
    var t := "\"" + DoubleQuotes(v) + "\"" + rest;
    assert t[0] == '"' && t[1..] == DoubleQuotes(v) + "\"" + rest;
  }

  lemma BareFieldReads(v: string, rest: string, sep: char)
    requires GoodSeparator(sep) && EndsField(rest, sep) && !NeedsQuoting(v, sep)
    ensures DoubleQuotes(v) == v && ReadField(v + rest, sep) == Some((v, rest))
  {
    hide DoubleQuotes, BareField;
    assert forall i :: 0 <= i < |v| ==> !Special(v[i], sep);
    NothingDoubled(v);
    BareReads(v, rest, sep);
    if v != [] { assert (v + rest)[0] == v[0]; }
  }

  /** An escaped value is read back as the value, whatever it contains. */
  lemma FieldReads(v: string, rest: string, sep: char)
    requires GoodSeparator(sep) && EndsField(rest, sep)
    ensures ReadField(CsvEscape(v, sep) + rest, sep) == Some((v, rest))
  {
    hide ReadField, DoubleQuotes, NeedsQuoting, EndsField;
    assert sep != '"';
    if NeedsQuoting(v, sep) { QuotedFieldReads(v, rest, sep); } else { BareFieldReads(v, rest, sep); }
  }

  /** A raw field is read back exactly when it does not contain the separator. */
  lemma RawFieldReads(v: string, rest: string, sep: char)
    requires GoodSeparator(sep) && EndsField(rest, sep)
    requires forall i :: 0 <= i < |v| ==> v[i] != '"' && v[i] != LF && v[i] != CR
    ensures ReadField(v + rest, sep) == Some((v, rest)) <==> sep !in v
    ensures ReadField(v + rest, sep).Some? && (sep in v ==> ReadField(v + rest, sep).value.0 != v)
  {
    if v != [] { assert (v + rest)[0] == v[0]; }
    if sep in v {
      var i := FirstIndex(v, sep);
      var head, tail := v[..i], v[i..] + rest;
      assert v + rest == head + tail && tail[0] == sep;
      BareReads(head, tail, sep);
    } else {
      BareReads(v, rest, sep);
    }
  }

  lemma {:induction false} FirstIndex(v: string, c: char) returns (i: nat)
    requires c in v
    ensures i < |v| && v[i] == c && c !in v[..i]
  {
    if v[0] == c { i := 0; }
    else {
      i := FirstIndex(v[1..], c);
      assert v[..i + 1] == [v[0]] + v[1..][..i];
      i := i + 1;
    }
  }

  // ---------------------------------------------------------------- records

  /** A printed field: an escaped string, or a name or integer printed as it is. */
  datatype Field = Escaped(value: string) | Raw(value: string)

  function Printed(f: Field, sep: char): string {
    if f.Escaped? then CsvEscape(f.value, sep) else f.value
  }

  /** A raw field has no character that the reader gives a meaning, except perhaps the separator. */
  predicate RawOk(f: Field) {
    f.Raw? ==> forall i :: 0 <= i < |f.value| ==> f.value[i] != '"' && f.value[i] != LF && f.value[i] != CR
  }

  predicate AllRawOk(fs: seq<Field>) { forall i :: 0 <= i < |fs| ==> RawOk(fs[i]) }

  predicate Splits(f: Field, sep: char) { f.Raw? && sep in f.value }

  /** Every field with a separator in front of it. */
  function Joined(fs: seq<Field>, sep: char): string {
    if fs == [] then "" else [sep] + Printed(fs[0], sep) + Joined(fs[1..], sep)
  }

  function FieldValues(fs: seq<Field>): seq<string> {
    if fs == [] then [] else [fs[0].value] + FieldValues(fs[1..])
  }

  predicate NoneSplits(fs: seq<Field>, sep: char) { forall i :: 0 <= i < |fs| ==> !Splits(fs[i], sep) }

  function Line(f: Field, fs: seq<Field>, sep: char, rest: string): string {
    Printed(f, sep) + (Joined(fs, sep) + [LF] + rest)
  }

  lemma Tail(a: string, b: string, c: string, d: string, rest: string)
    ensures a + b + c + d + rest == a + (b + (c + d + rest))
  {
  }

  lemma JoinedEnds(fs: seq<Field>, sep: char, rest: string)
    ensures EndsField(Joined(fs, sep) + [LF] + rest, sep)
    ensures fs == [] ==> Joined(fs, sep) + [LF] + rest == [LF] + rest
    ensures fs != [] ==> (Joined(fs, sep) + [LF] + rest)[0] == sep
    ensures fs != [] ==> (Joined(fs, sep) + [LF] + rest)[1..] == Line(fs[0], fs[1..], sep, rest)
  {
    if fs == [] {
      assert "" + [LF] == [LF];
    } else {
      hide Printed;
      Tail([sep], Printed(fs[0], sep), Joined(fs[1..], sep), [LF], rest);
    }
  }

  /** One field of a line and the fields after it. */
  lemma FieldThen(f: Field, fs: seq<Field>, sep: char, rest: string)
    requires GoodSeparator(sep) && RawOk(f)
    ensures var end := Joined(fs, sep) + [LF] + rest; var r := ReadField(Line(f, fs, sep, rest), sep);
      && r.Some? && (!Splits(f, sep) ==> r.value == (f.value, end)) && (Splits(f, sep) ==> r.value.0 != f.value)
  {
    hide ReadField, Joined, CsvEscape;
    JoinedEnds(fs, sep, rest);
    var end := Joined(fs, sep) + [LF] + rest;
    if f.Escaped? { FieldReads(f.value, end, sep); } else { RawFieldReads(f.value, end, sep); }
  }

  lemma RecordFirst(s: string, sep: char)
    ensures ReadRecord(s, sep).Some? ==> ReadField(s, sep).Some? && ReadRecord(s, sep).value.0 != []
    ensures ReadRecord(s, sep).Some? ==> ReadRecord(s, sep).value.0[0] == ReadField(s, sep).value.0
  {
    hide ReadField;
  }

  function Prepend(v: string, r: Option<(seq<string>, string)>): Option<(seq<string>, string)> {
    match r
    case None => None
    case Some((fields, end)) => Some(([v] + fields, end))
  }

  lemma PrependEqual(v: string, r: Option<(seq<string>, string)>, fields: seq<string>, end: string)
    ensures Prepend(v, r) == Some(([v] + fields, end)) <==> r == Some((fields, end))
  {
    if r.Some? { assert ([v] + r.value.0)[1..] == r.value.0 && ([v] + fields)[1..] == fields; }
  }

  /** How the reader goes on after a field that does not split, and what it gets from one that does. */
  lemma LineStep(f: Field, fs: seq<Field>, sep: char, rest: string)
    requires GoodSeparator(sep) && RawOk(f)
    ensures var r := if fs == [] then Some(([], rest)) else ReadRecord(Line(fs[0], fs[1..], sep, rest), sep);
      !Splits(f, sep) ==> ReadRecord(Line(f, fs, sep, rest), sep) == Prepend(f.value, r)
    ensures var r := ReadRecord(Line(f, fs, sep, rest), sep);
      Splits(f, sep) && r.Some? ==> r.value.0 != [] && r.value.0[0] != f.value
  {
    hide ReadField, Joined, Printed, RawOk, Splits, Line;
    FieldThen(f, fs, sep, rest);
    JoinedEnds(fs, sep, rest);
    RecordFirst(Line(f, fs, sep, rest), sep);
    assert [f.value] + [] == [f.value];
    assert ([LF] + rest)[1..] == rest;
  }

  lemma NoneSplitsSplit(fs: seq<Field>, sep: char)
    requires fs != []
    ensures NoneSplits(fs, sep) <==> !Splits(fs[0], sep) && NoneSplits(fs[1..], sep)
    ensures AllRawOk(fs) <==> RawOk(fs[0]) && AllRawOk(fs[1..])
  {
    hide Splits, RawOk;
    assert forall i :: 0 < i < |fs| ==> fs[i] == fs[1..][i - 1];
  }

  /** A printed line is read back as its values exactly when no raw field contains the separator. */
  lemma {:induction false} LineReads(f: Field, fs: seq<Field>, sep: char, rest: string)
    requires GoodSeparator(sep) && RawOk(f) && AllRawOk(fs)
    ensures ReadRecord(Line(f, fs, sep, rest), sep) == Some(([f.value] + FieldValues(fs), rest))
      <==> !Splits(f, sep) && NoneSplits(fs, sep)
    decreases fs
  {
    hide ReadRecord, Line, RawOk, Splits;
    LineStep(f, fs, sep, rest);
    if fs != [] {
      NoneSplitsSplit(fs, sep);
      LineReads(fs[0], fs[1..], sep, rest);
      hide NoneSplits, AllRawOk, Prepend;
      PrependEqual(f.value, ReadRecord(Line(fs[0], fs[1..], sep, rest), sep), FieldValues(fs), rest);
    }
  }

  /** However raw fields split, the reader finds the end of the line, and at least as many fields as were
      printed. */
  lemma {:induction false} LineEnds(f: Field, fs: seq<Field>, sep: char, rest: string)
    requires GoodSeparator(sep) && RawOk(f) && AllRawOk(fs)
    ensures var r := ReadRecord(Line(f, fs, sep, rest), sep); r.Some? && r.value.1 == rest && |r.value.0| >= 1 + |fs|
    decreases |fs|, |f.value|
  {
    hide ReadRecord, Line, RawOk, Splits;
    if !Splits(f, sep) {
      LineStep(f, fs, sep, rest);
      if fs != [] {
        NoneSplitsSplit(fs, sep);
        LineEnds(fs[0], fs[1..], sep, rest);
      }
    } else {
      var head, f1 := SplitOff(f, fs, sep, rest);
      LineEnds(f1, fs, sep, rest);
    }
  }

  /** The reader cuts a raw field at its first separator and goes on with the rest of it. */
  lemma SplitOff(f: Field, fs: seq<Field>, sep: char, rest: string) returns (head: string, f1: Field)
    requires GoodSeparator(sep) && RawOk(f) && Splits(f, sep)
    ensures f1.Raw? && |f1.value| < |f.value| && RawOk(f1)
    ensures ReadRecord(Line(f, fs, sep, rest), sep) == Prepend(head, ReadRecord(Line(f1, fs, sep, rest), sep))
  {
    hide Joined, ReadField, BareField, FieldValues;
    var v := f.value;
    var i := FirstIndex(v, sep);
    head, f1 := v[..i], Raw(v[i + 1..]);
    var end := Joined(fs, sep) + [LF] + rest;
    Cut(v, i, end);
    HeadField(v[..i], [sep] + (v[i + 1..] + end), sep);
    assert ([sep] + (v[i + 1..] + end))[1..] == Line(f1, fs, sep, rest);
  }

  lemma Cut(v: string, i: nat, end: string)
    requires i < |v|
    ensures v + end == v[..i] + ([v[i]] + (v[i + 1..] + end))
  {
  }

  lemma HeadField(head: string, tail: string, sep: char)
    requires GoodSeparator(sep) && tail != [] && tail[0] == sep
    requires forall i :: 0 <= i < |head| ==> !Special(head[i], sep)
    ensures ReadField(head + tail, sep) == Some((head, tail))
  {
    hide BareField;
    BareReads(head, tail, sep);
    if head != [] { assert (head + tail)[0] == head[0]; }
  }

  /** The printed fields of a record body, tags included, in order. */
  function Fields(b: Body): seq<Field> {
    match b
    case End => []
    case Text(_, value, _, next) => [Escaped(value)] + Fields(next)
    case Number(_, number, next) => [Raw(Decimal(number))] + Fields(next)
    case Section(_, inner, next) => Fields(inner) + Fields(next)
  }

  /** A plain section that holds items and tags. */
  predicate RecordShape(b: Body) {
    match b
    case End => true
    case Text(_, _, _, next) => RecordShape(next)
    case Number(_, _, next) => RecordShape(next)
    case Section(id, inner, next) => IsTags(id) && RecordShape(inner) && RecordShape(next)
  }

  /** A field is printed before anything else, in particular before an empty tags section has ended. */
  predicate StartsWithField(b: Body) {
    match b
    case End => false
    case Text(_, _, _, _) => true
    case Number(_, _, _) => true
    case Section(_, inner, _) => StartsWithField(inner)
  }

  lemma {:induction false} JoinedAppend(a: seq<Field>, b: seq<Field>, sep: char)
    ensures Joined(a + b, sep) == Joined(a, sep) + Joined(b, sep)
  {
    hide Printed;
    if a == [] {
      assert a + b == b && "" + Joined(b, sep) == Joined(b, sep);
    } else {
      assert (a + b)[1..] == a[1..] + b;
      JoinedAppend(a[1..], b, sep);
      var head := [sep] + Printed(a[0], sep);
      assert head + (Joined(a[1..], sep) + Joined(b, sep)) == head + Joined(a[1..], sep) + Joined(b, sep);
    }
  }

  predicate CsvOptions(o: Options) { o.nokey && o.escape == Csv && o.printSection }

  /** What a body prints when fields were printed before it, and when none was. */
  lemma {:induction false} RenderFields(o: Options, id: SectionId, items: nat, b: Body)
    requires CsvOptions(o) && RecordShape(b)
    ensures items > 0 || !StartsWithField(b) ==> Render(o, id, items, b) == Joined(Fields(b), o.sep)
    ensures items == 0 && StartsWithField(b) ==> [o.sep] + Render(o, id, items, b) == Joined(Fields(b), o.sep)
    decreases b
  {
    hide Joined, CsvEscape, Decimal;
    match b
    case End =>
      assert Joined([], o.sep) == "" by { JoinedEmpty(o.sep); }
    case Text(key, value, _, next) =>
      RenderFields(o, id, items + 1, next);
      ItemFields(o, id, items, key, EscapeValue(o, value), true, Escaped(value),
        Render(o, id, items + 1, next), Fields(next));
    case Number(key, number, next) =>
      RenderFields(o, id, items + 1, next);
      ItemFields(o, id, items, key, Decimal(number), false, Raw(Decimal(number)),
        Render(o, id, items + 1, next), Fields(next));
    case Section(tags, inner, next) =>
      RenderFields(o, tags, items, inner);
      RenderFields(o, id, items + 1, next);
      JoinedAppend(Fields(inner), Fields(next), o.sep);
      TagsText(o, tags, Render(o, tags, items, inner), Render(o, id, items + 1, next));
  }

  lemma JoinedEmpty(sep: char)
    ensures Joined([], sep) == ""
  {
  }

  lemma TagsText(o: Options, tags: SectionId, inner: string, next: string)
    requires IsTags(tags)
    ensures HeaderText(o, tags) + inner + FooterText(tags) + next == inner + next
    ensures [o.sep] + (inner + next) == [o.sep] + inner + next
  {
    assert "" + inner == inner && inner + "" == inner;
  }

  lemma BareItem(o: Options, id: SectionId, items: nat, key: string, printed: string, text: bool)
    requires o.nokey
    ensures ItemText(o, id, items, key, printed, text) == if items > 0 then [o.sep] + printed else printed
  {
  }

  lemma JoinedFront(f: Field, fs: seq<Field>, sep: char)
    ensures Joined([f] + fs, sep) == [sep] + Printed(f, sep) + Joined(fs, sep)
  {
    hide Printed;
    assert ([f] + fs)[1..] == fs;
  }

  lemma Shift(a: string, b: string, c: string)
    ensures a + (b + c) == a + b + c
  {
  }

  lemma ItemFields(o: Options, id: SectionId, items: nat, key: string, printed: string, text: bool,
                   f: Field, next: string, fs: seq<Field>)
    requires CsvOptions(o) && printed == Printed(f, o.sep) && next == Joined(fs, o.sep)
    ensures var out := ItemText(o, id, items, key, printed, text) + next;
      (if items > 0 then out else [o.sep] + out) == Joined([f] + fs, o.sep)
  {
    hide Printed, Joined, ItemText;
    JoinedFront(f, fs, o.sep);
    BareItem(o, id, items, key, printed, text);
    Shift([o.sep], printed, next);
  }

  lemma {:induction false} FieldsRawOk(b: Body)
    ensures AllRawOk(Fields(b))
  {
    match b
    case End =>
    case Text(_, _, _, next) => FieldsRawOk(next);
    case Number(_, number, next) =>
      FieldsRawOk(next);
      assert RawOk(Raw(Decimal(number)));
    case Section(_, inner, next) =>
      FieldsRawOk(inner);
      FieldsRawOk(next);
  }

  lemma NameRawOk(id: SectionId)
    ensures RawOk(Raw(Name(id)))
  {
    hide Name;
    NamesPlain(id);
  }

  /** The section name and the values. */
  function RecordValues(id: SectionId, b: Body): seq<string> { [Name(id)] + FieldValues(Fields(b)) }

  /** The caller's conditions: something is printed first, and neither the name nor an integer contains the
      separator. */
  predicate CsvReadable(o: Options, id: SectionId, b: Body) {
    StartsWithField(b) && o.sep !in Name(id) && NoneSplits(Fields(b), o.sep)
  }

  lemma Around(name: string, sep: string, body: string, end: string, rest: string)
    ensures (name + sep) + body + end + rest == name + (sep + body + end + rest)
  {
  }

  lemma RecordText(o: Options, id: SectionId, b: Body, rest: string)
    requires CsvOptions(o) && IsPlain(id) && !IsTags(id) && RecordShape(b)
    ensures StartsWithField(b) ==> Record(o, id, b) + rest == Line(Raw(Name(id)), Fields(b), o.sep, rest)
    ensures !StartsWithField(b) ==> Record(o, id, b) + rest == Line(Raw(Name(id)), [Escaped("")] + Fields(b), o.sep, rest)
  {
    hide Joined, Render, Name, CsvEscape, RecordShape, Fields, StartsWithField;
    RenderFields(o, id, 0, b);
    Around(Name(id), [o.sep], Render(o, id, 0, b), [LF], rest);
    EmptyField(Fields(b), o.sep);
  }

  lemma EmptyField(fs: seq<Field>, sep: char)
    ensures Joined([Escaped("")] + fs, sep) == [sep] + Joined(fs, sep)
  {
    assert CsvEscape("", sep) == "";
    assert ([Escaped("")] + fs)[1..] == fs;
    assert [sep] + "" == [sep];
  }

  /** A CSV record, followed by anything, is read back as the section name and the values exactly under
      those conditions. */
  lemma CsvRecordReads(o: Options, id: SectionId, b: Body, rest: string)
    requires CsvOptions(o) && GoodSeparator(o.sep) && IsPlain(id) && !IsTags(id) && RecordShape(b)
    ensures ReadRecord(Record(o, id, b) + rest, o.sep) == Some((RecordValues(id, b), rest)) <==> CsvReadable(o, id, b)
    ensures var r := ReadRecord(Record(o, id, b) + rest, o.sep); r.Some? && r.value.1 == rest
  {
    hide ReadRecord, Record, Name, Line, RawOk, NoneSplits;
    RecordText(o, id, b, rest);
    FieldsRawOk(b);
    NameRawOk(id);
    var name := Raw(Name(id));
    if StartsWithField(b) {
      LineReads(name, Fields(b), o.sep, rest);
      LineEnds(name, Fields(b), o.sep, rest);
    } else {
      var fs := [Escaped("")] + Fields(b);
      assert AllRawOk(fs) by { PrependRawOk(Fields(b)); }
      LineEnds(name, fs, o.sep, rest);
      CountValues(Fields(b));
    }
  }

  lemma PrependRawOk(fs: seq<Field>)
    requires AllRawOk(fs)
    ensures AllRawOk([Escaped("")] + fs)
  {
  }

  lemma {:induction false} CountValues(fs: seq<Field>)
    ensures |FieldValues(fs)| == |fs|
  {
    if fs != [] { CountValues(fs[1..]); }
  }

  // ---------------------------------------------------------------- the whole output

  /** Wrapper and array sections hold sections; plain sections are records. */
  predicate DocumentShape(id: SectionId, b: Body)
    decreases b
  {
    match b
    case End => true
    case Section(inside, inner, next) =>
      && (if IsPlain(inside) then !IsTags(inside) && RecordShape(inner) else DocumentShape(inside, inner))
      && DocumentShape(id, next)
    case _ => false
  }

  predicate AllReadable(o: Options, b: Body)
    decreases b
  {
    match b
    case Section(inside, inner, next) =>
      (if IsPlain(inside) then CsvReadable(o, inside, inner) else AllReadable(o, inner)) && AllReadable(o, next)
    case _ => true
  }

  /** The records of a tree, in order. */
  function AllRecords(b: Body): seq<seq<string>>
    decreases b
  {
    match b
    case Section(inside, inner, next) =>
      (if IsPlain(inside) then [RecordValues(inside, inner)] else AllRecords(inner)) + AllRecords(next)
    case _ => []
  }

  /** Records up to the end of the text. */
  function ReadRecords(s: string, sep: char): Option<seq<seq<string>>>
    decreases |s|
  {
    if s == [] then Some([])
    else
      match ReadRecord(s, sep)
      case None => None
      case Some((fields, rest)) =>
        if |rest| >= |s| then None
        else
          match ReadRecords(rest, sep)
          case None => None
          case Some(records) => Some([fields] + records)
  }

  /** The output for a tree is read back as as many records as it has, one a line, and they are its records
      exactly when every one of them is readable. */
  lemma {:induction false} RecordsRead(o: Options, id: SectionId, items: nat, b: Body, rest: string,
                                       later: seq<seq<string>>) returns (records: seq<seq<string>>)
    requires CsvOptions(o) && GoodSeparator(o.sep) && DocumentShape(id, b)
    requires ReadRecords(rest, o.sep) == Some(later)
    ensures ReadRecords(Render(o, id, items, b) + rest, o.sep) == Some(records + later)
    ensures |records| == |AllRecords(b)| && (records == AllRecords(b) <==> AllReadable(o, b))
    decreases b
  {
    hide *;
    if b.End? {
      NothingPrinted(o, id, items, rest, later);
      records := [];
    } else {
      DocumentParts(o, id, b);
      var tail := Render(o, id, items + 1, b.next) + rest;
      var after := RecordsRead(o, id, items + 1, b.next, rest, later);
      if IsPlain(b.id) {
        var first := OneRecord(o, b.id, b.inner, tail, after + later);
        PlainSection(o, id, items, b, rest);
        records := [first] + after;
        assert records + later == [first] + (after + later);
        SameHead([first], [RecordValues(b.id, b.inner)], after, AllRecords(b.next));
      } else {
        var inner := RecordsRead(o, b.id, 0, b.inner, tail, after + later);
        ArraySection(o, id, items, b, rest);
        records := inner + after;
        assert records + later == inner + (after + later);
        SameHead(inner, AllRecords(b.inner), after, AllRecords(b.next));
      }
    }
  }

  lemma SameHead<T>(a: seq<T>, b: seq<T>, c: seq<T>, d: seq<T>)
    requires |a| == |b|
    ensures a + c == b + d <==> a == b && c == d
  {
    assert (a + c)[..|a|] == a && (b + d)[..|b|] == b;
    assert (a + c)[|a|..] == c && (b + d)[|b|..] == d;
  }

  /** The whole output is read back as the records of the tree if and only if every record is readable. */
  lemma CsvOutputReads(o: Options, b: Body)
    requires CsvOptions(o) && GoodSeparator(o.sep) && DocumentShape(Root, b)
    ensures ReadRecords(Render(o, Root, 0, b), o.sep) == Some(AllRecords(b)) <==> AllReadable(o, b)
  {
    hide Render, AllRecords, AllReadable, ReadRecords;
    assert ReadRecords([], o.sep) == Some([]) by { NoRecords(o.sep); }
    var records := RecordsRead(o, Root, 0, b, [], []);
    assert records + [] == records && Render(o, Root, 0, b) + [] == Render(o, Root, 0, b);
  }

  lemma NoRecords(sep: char)
    ensures ReadRecords([], sep) == Some([])
  {
  }

  lemma NothingPrinted(o: Options, id: SectionId, items: nat, rest: string, later: seq<seq<string>>)
    ensures Render(o, id, items, End) + rest == rest && [] + later == later
    ensures AllRecords(End) == [] && AllReadable(o, End)
  {
  }

  lemma DocumentParts(o: Options, id: SectionId, b: Body)
    requires DocumentShape(id, b) && !b.End?
    ensures b.Section? && DocumentShape(id, b.next)
    ensures IsPlain(b.id) ==> !IsTags(b.id) && RecordShape(b.inner)
    ensures !IsPlain(b.id) ==> DocumentShape(b.id, b.inner)
    ensures AllRecords(b) ==
      (if IsPlain(b.id) then [RecordValues(b.id, b.inner)] else AllRecords(b.inner)) + AllRecords(b.next)
    ensures AllReadable(o, b) <==>
      (if IsPlain(b.id) then CsvReadable(o, b.id, b.inner) else AllReadable(o, b.inner)) && AllReadable(o, b.next)
  {
  }

  lemma OneRecord(o: Options, id: SectionId, b: Body, tail: string, later: seq<seq<string>>) returns (record: seq<string>)
    requires CsvOptions(o) && GoodSeparator(o.sep) && IsPlain(id) && !IsTags(id) && RecordShape(b)
    requires ReadRecords(tail, o.sep) == Some(later)
    ensures ReadRecords(Record(o, id, b) + tail, o.sep) == Some([record] + later)
    ensures [record] == [RecordValues(id, b)] <==> CsvReadable(o, id, b)
  {
    hide ReadRecord, CsvReadable, RecordValues, Render, Name;
    CsvRecordReads(o, id, b, tail);
    record := ReadRecord(Record(o, id, b) + tail, o.sep).value.0;
    assert [record] == [RecordValues(id, b)] <==> record == RecordValues(id, b) by {
      assert [record][0] == record && [RecordValues(id, b)][0] == RecordValues(id, b);
    }
    assert |Record(o, id, b)| > 0;
  }

  lemma PlainSection(o: Options, id: SectionId, items: nat, b: Body, rest: string)
    requires b.Section? && IsPlain(b.id) && !IsTags(b.id)
    ensures Render(o, id, items, b) + rest == Record(o, b.id, b.inner) + (Render(o, id, items + 1, b.next) + rest)
  {
    hide HeaderText, FooterText;
  }

  lemma ArraySection(o: Options, id: SectionId, items: nat, b: Body, rest: string)
    requires b.Section? && !IsPlain(b.id)
    ensures Render(o, id, items, b) + rest == Render(o, b.id, 0, b.inner) + (Render(o, id, items + 1, b.next) + rest)
  {
    hide HeaderText, FooterText, FirstItems;
    NothingAround(o, b.id, items);
    NoText(Render(o, b.id, 0, b.inner), Render(o, id, items + 1, b.next), rest);
  }

  lemma NothingAround(o: Options, id: SectionId, items: nat)
    requires !IsPlain(id)
    ensures HeaderText(o, id) == "" && FooterText(id) == "" && FirstItems(id, items) == 0
  {
  }

  lemma NoText(inner: string, next: string, rest: string)
    ensures "" + inner + "" + next + rest == inner + (next + rest)
  {
  }
}
