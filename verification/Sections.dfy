/** The section tree that ffprobe hands to its writers (lavc/ffprobe.c). */
module Sections {

  datatype SectionId =
    | Error | Format | FormatTags | Frame | Frames | FrameTags | LibraryVersion | LibraryVersions
    | Packet | Packets | PacketsAndFrames | ProgramVersion | Root | Stream | Streams | StreamTags

  function Name(id: SectionId): string {
    match id
    case Error => "error"
    case Format => "format"
    case FormatTags => "tags"
    case Frame => "frame"
    case Frames => "frames"
    case FrameTags => "tags"
    case LibraryVersion => "library_version"
    case LibraryVersions => "library_versions"
    case Packet => "packet"
    case Packets => "packets"
    case PacketsAndFrames => "packets_and_frames"
    case ProgramVersion => "program_version"
    case Root => "root"
    case Stream => "stream"
    case Streams => "streams"
    case StreamTags => "tags"
  }

  predicate PlainChar(c: char) { 'a' <= c <= 'z' || c == '_' }

  lemma NamesPlain(id: SectionId)
    ensures forall i :: 0 <= i < |Name(id)| ==> PlainChar(Name(id)[i])
  {
  }

  /** A list is named after its elements. */
  lemma NamesRelated()
    ensures Name(PacketsAndFrames) == "packets_and_frames" == Name(Packets) + "_and_" + Name(Frames)
    ensures Name(Packets) == Name(Packet) + "s" && Name(Frames) == Name(Frame) + "s"
    ensures Name(Streams) == Name(Stream) + "s" && Name(LibraryVersions) == Name(LibraryVersion) + "s"
  {
    assert Name(PacketsAndFrames) == "packets" + "_and_" + "frames";
  }

  predicate IsWrapper(id: SectionId) { id == Root }

  predicate IsArray(id: SectionId) {
    id == Frames || id == LibraryVersions || id == Packets || id == PacketsAndFrames || id == Streams
  }

  predicate IsPlain(id: SectionId) { !IsWrapper(id) && !IsArray(id) }

  predicate IsTags(id: SectionId) { id == FormatTags || id == FrameTags || id == StreamTags }

  /** Everything printed between a section header and its footer, in order. */
  datatype Body =
    | End
    | Text(key: string, value: string, optional: bool, next: Body)
    | Number(key: string, number: int, next: Body)
    | Section(id: SectionId, inner: Body, next: Body)

  /** fmt_entries_to_show: absent, or the keys found in it. */
  datatype Filter = Everything | Only(keys: set<string>)

  predicate Shown(filter: Filter, id: SectionId, key: string) {
    (id != Format && id != FormatTags) || filter.Everything? || key in filter.keys
  }

  /** The calls of writer_print_string and writer_print_integer that reach the writer. */
  function Visible(optionals: bool, filter: Filter, id: SectionId, b: Body): Body
    decreases b
  {
    match b
    case End => End
    case Text(key, value, optional, next) =>
      var rest := Visible(optionals, filter, id, next);
      if (optional && !optionals) || !Shown(filter, id, key) then rest else Text(key, value, optional, rest)
    case Number(key, number, next) =>
      var rest := Visible(optionals, filter, id, next);
      if Shown(filter, id, key) then Number(key, number, rest) else rest
    case Section(inside, inner, next) =>
      Section(inside, Visible(optionals, filter, inside, inner), Visible(optionals, filter, id, next))
  }

  /** What a body holds, in order: every item with the section it stands in, between the ends of the sections. */
  datatype Entry = Begin(id: SectionId) | Item(id: SectionId, key: string, value: Value, optional: bool) | Finish

  datatype Value = Words(text: string) | Integer(number: int)

  function Entries(id: SectionId, b: Body): seq<Entry>
    decreases b
  {
    match b
    case End => []
    case Text(key, value, optional, next) => [Item(id, key, Words(value), optional)] + Entries(id, next)
    case Number(key, number, next) => [Item(id, key, Integer(number), false)] + Entries(id, next)
    case Section(inside, inner, next) => [Begin(inside)] + Entries(inside, inner) + [Finish] + Entries(id, next)
  }

  /** Items that were asked for: -show_format_entry names keys of the format section and of its tags, and says
      nothing about other sections; optional items are for the writers that display them. */
  predicate Wanted(optionals: bool, filter: Filter, e: Entry) {
    e.Item? ==>
      && (e.optional ==> optionals)
      && (filter.Only? && e.id in {Format, FormatTags} ==> e.key in filter.keys)
  }

  function Select(optionals: bool, filter: Filter, entries: seq<Entry>): (r: seq<Entry>)
    ensures forall e :: e in r <==> e in entries && Wanted(optionals, filter, e)
  {
    if entries == [] then []
    else
      (if Wanted(optionals, filter, entries[0]) then [entries[0]] else []) + Select(optionals, filter, entries[1..])
  }

  lemma {:induction false} SelectAppend(optionals: bool, filter: Filter, a: seq<Entry>, b: seq<Entry>)
    ensures Select(optionals, filter, a + b) == Select(optionals, filter, a) + Select(optionals, filter, b)
  {
    hide Wanted;
    if a == [] {
      assert a + b == b;
    } else {
      assert (a + b)[1..] == a[1..] + b;
      SelectAppend(optionals, filter, a[1..], b);
    }
  }

  lemma SelectOne(optionals: bool, filter: Filter, e: Entry)
    ensures Select(optionals, filter, [e]) == if Wanted(optionals, filter, e) then [e] else []
  {
    hide Wanted;
    assert [e][1..] == [];
  }

  /** The items that reach the writer are exactly those asked for, in order and with their values, and every
      section stays. */
  lemma {:induction false} VisibleSelects(optionals: bool, filter: Filter, id: SectionId, b: Body)
    ensures Entries(id, Visible(optionals, filter, id, b)) == Select(optionals, filter, Entries(id, b))
    decreases b
  {
    hide Select;
    match b
    case End => assert Select(optionals, filter, []) == [] by { SelectNothing(optionals, filter); }
    case Text(key, value, optional, next) =>
      VisibleSelects(optionals, filter, id, next);
      SelectOne(optionals, filter, Item(id, key, Words(value), optional));
      SelectAppend(optionals, filter, [Item(id, key, Words(value), optional)], Entries(id, next));
    case Number(key, number, next) =>
      VisibleSelects(optionals, filter, id, next);
      SelectOne(optionals, filter, Item(id, key, Integer(number), false));
      SelectAppend(optionals, filter, [Item(id, key, Integer(number), false)], Entries(id, next));
    case Section(inside, inner, next) =>
      VisibleSelects(optionals, filter, inside, inner);
      VisibleSelects(optionals, filter, id, next);
      SelectSection(optionals, filter, inside, Entries(inside, inner), Entries(id, next));
  }

  lemma SelectNothing(optionals: bool, filter: Filter)
    ensures Select(optionals, filter, []) == []
  {
  }

  lemma SelectSection(optionals: bool, filter: Filter, inside: SectionId, inner: seq<Entry>, next: seq<Entry>)
    ensures Select(optionals, filter, [Begin(inside)] + inner + [Finish] + next) ==
      [Begin(inside)] + Select(optionals, filter, inner) + [Finish] + Select(optionals, filter, next)
  {
    hide Select;
    SelectOne(optionals, filter, Begin(inside));
    SelectOne(optionals, filter, Finish);
    SelectAppend(optionals, filter, [Begin(inside)], inner);
    SelectAppend(optionals, filter, [Begin(inside)] + inner, [Finish]);
    SelectAppend(optionals, filter, [Begin(inside)] + inner + [Finish], next);
  }

  /** The body lies outside the format section and contains none. */
  predicate NoFormat(id: SectionId, b: Body)
    decreases b
  {
    match b
    case End => true
    case Text(_, _, _, next) => id !in {Format, FormatTags} && NoFormat(id, next)
    case Number(_, _, next) => id !in {Format, FormatTags} && NoFormat(id, next)
    case Section(inside, inner, next) => NoFormat(inside, inner) && NoFormat(id, next)
  }

  /** A tree with no item in the format section or its tags looks the same under every filter. */
  lemma {:induction false} FilterOnlyFormat(optionals: bool, filter: Filter, id: SectionId, b: Body)
    requires NoFormat(id, b)
    ensures Visible(optionals, filter, id, b) == Visible(optionals, Everything, id, b)
    decreases b
  {
    match b
    case End =>
    case Text(_, _, _, next) => FilterOnlyFormat(optionals, filter, id, next);
    case Number(_, _, next) => FilterOnlyFormat(optionals, filter, id, next);
    case Section(inside, inner, next) =>
      FilterOnlyFormat(optionals, filter, inside, inner);
      FilterOnlyFormat(optionals, filter, id, next);
  }

  /** Number of nested section levels in a body. */
  function Depth(b: Body): nat {
    match b
    case End => 0
    case Text(_, _, _, next) => Depth(next)
    case Number(_, _, next) => Depth(next)
    case Section(_, inner, next) =>
      var here, later := 1 + Depth(inner), Depth(next);
      if here > later then here else later
  }

  // ---------------------------------------------------------------- decimal integers

  /** The %lld conversion. */
  function Decimal(n: int): string { if n < 0 then "-" + Digits(-n) else Digits(n) }

  function Digits(n: nat): (s: string)
    ensures s != [] && (|s| > 1 ==> s[0] != '0') && forall i :: 0 <= i < |s| ==> '0' <= s[i] <= '9'
    ensures n > 0 ==> s[0] != '0'
  {
    if n < 10 then [DigitChar(n)] else Digits(n / 10) + [DigitChar(n % 10)]
  }

  function DigitChar(d: nat): (c: char)
    requires d < 10
    ensures '0' <= c <= '9' && (c as int) - ('0' as int) == d
  {
    "0123456789"[d]
  }

  /** The value of a string of digits, and of a decimal with an optional minus sign. */
  function DigitsValue(s: string): nat
    requires forall i :: 0 <= i < |s| ==> '0' <= s[i] <= '9'
  {
    if s == [] then 0 else 10 * DigitsValue(s[..|s| - 1]) + ((s[|s| - 1] as int) - ('0' as int))
  }

  lemma ValueOfLast(s: string, d: nat)
    requires d < 10 && forall i :: 0 <= i < |s| ==> '0' <= s[i] <= '9'
    ensures DigitsValue(s + [DigitChar(d)]) == 10 * DigitsValue(s) + d
  {
    hide DigitChar;
    var t := s + [DigitChar(d)];
    assert t[..|t| - 1] == s;
  }

  lemma {:induction false} DigitsInvert(n: nat)
    ensures DigitsValue(Digits(n)) == n
  {
    hide DigitsValue, DigitChar;
    if n < 10 {
      ValueOfLast([], n);
      assert DigitsValue([]) == 0 by { NoDigits(); }
      assert [] + [DigitChar(n)] == [DigitChar(n)];
    } else {
      DigitsInvert(n / 10);
      ValueOfLast(Digits(n / 10), n % 10);
    }
  }

  lemma NoDigits()
    ensures DigitsValue([]) == 0
  {
  }

  /** The number a printed decimal stands for. */
  function DecimalValue(s: string): int
    requires forall i :: 0 <= i < |s| ==> s[i] == '-' || '0' <= s[i] <= '9'
    requires forall i :: 0 < i < |s| ==> '0' <= s[i] <= '9'
  {
    if s != [] && s[0] == '-' then 0 - DigitsValue(s[1..]) as int else DigitsValue(s)
  }

  lemma DecimalInverts(n: int)
    ensures var s := Decimal(n);
      (forall i :: 0 <= i < |s| ==> s[i] == '-' || '0' <= s[i] <= '9') && (forall i :: 0 < i < |s| ==> '0' <= s[i] <= '9')
      && DecimalValue(s) == n
  {
    DigitsInvert(if n < 0 then -n else n);
    if n < 0 { assert Decimal(n)[1..] == Digits(-n); }
  }
}
