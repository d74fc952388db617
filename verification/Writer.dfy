/** The writer stack machine of lavc/ffprobe.c with its JSON and compact/CSV writers: a level, an item count
    and a section for every level. */
module Writer {
  import opened Sections
  import opened Wrappers
  import C = CompactOutput
  import J = JsonOutput
  import P = Json

  const MAX_LEVELS := 10          // SECTION_MAX_NB_LEVELS

  datatype Format = JsonText(compact: bool) | Compact(options: C.Options)

  /** WRITER_FLAG_DISPLAY_OPTIONAL_FIELDS. */
  predicate DisplaysOptional(f: Format) { f.Compact? }

  // ---------------------------------------------------------------- what the methods must print

  function BodyText(f: Format, indent: nat, id: SectionId, items: nat, b: Body): string {
    match f
    case JsonText(compact) => J.Render(compact, indent, id, items == 0, b)
    case Compact(o) => C.Render(o, id, items, b)
  }

  function HeaderText(f: Format, indent: nat, parent: SectionId, items: nat, id: SectionId): string {
    match f
    case JsonText(compact) => J.Header(compact, indent, parent, items == 0, id)
    case Compact(o) => C.HeaderText(o, id)
  }

  function FooterText(f: Format, indent: nat, id: SectionId): string {
    match f
    case JsonText(compact) => J.Footer(compact, indent, id)
    case Compact(o) => C.FooterText(id)
  }

  function ItemText(f: Format, indent: nat, id: SectionId, items: nat, key: string, value: string, text: bool): string {
    match f
    case JsonText(compact) =>
      J.Before(compact, indent, items == 0) + J.Quote(key) + ": " + if text then J.Quote(value) else value
    case Compact(o) => C.ItemText(o, id, items, key, if text then C.EscapeValue(o, value) else value, text)
  }

  /** Item count at the start of a section. */
  function FirstItems(f: Format, id: SectionId, parentItems: nat): nat {
    if f.JsonText? then 0 else C.FirstItems(id, parentItems)
  }

  /** How far the items of one level advance its count. */
  function Count(b: Body): nat {
    match b
    case End => 0
    case Text(_, _, _, next) => 1 + Count(next)
    case Number(_, _, next) => 1 + Count(next)
    case Section(_, _, next) => 1 + Count(next)
  }

  lemma BodyItem(f: Format, indent: nat, id: SectionId, items: nat, b: Body)
    requires b.Text? || b.Number?
    ensures BodyText(f, indent, id, items, b) ==
      ItemText(f, indent, id, items, b.key, if b.Text? then b.value else Decimal(b.number), b.Text?) +
      BodyText(f, indent, id, items + 1, b.next)
  {
    hide J.Quote, J.Before, C.ItemText, C.EscapeValue, Decimal;
  }

  lemma BodySection(f: Format, indent: nat, id: SectionId, items: nat, b: Body)
    requires b.Section?
    ensures BodyText(f, indent, id, items, b) ==
      HeaderText(f, indent, id, items, b.id) + BodyText(f, indent + 1, b.id, FirstItems(f, b.id, items), b.inner) +
      FooterText(f, indent, b.id) + BodyText(f, indent, id, items + 1, b.next)
  {
    hide J.Header, J.Footer, C.HeaderText, C.FooterText, C.FirstItems;
  }

  /** The text of the part of a body that is printed, and of one section. */
  function VisibleText(f: Format, filter: Filter, indent: nat, id: SectionId, items: nat, b: Body): string {
    BodyText(f, indent, id, items, Visible(DisplaysOptional(f), filter, id, b))
  }

  function SectionText(f: Format, filter: Filter, indent: nat, parent: SectionId, items: nat, id: SectionId,
                       inner: Body): string
  {
    HeaderText(f, indent, parent, items, id) + VisibleText(f, filter, indent + 1, id, FirstItems(f, id, items), inner) +
    FooterText(f, indent, id)
  }

  predicate IsPrinted(f: Format, filter: Filter, id: SectionId, b: Body)
    requires b.Text? || b.Number?
  {
    Wanted(f.Compact?, filter,
           Item(id, b.key, if b.Text? then Words(b.value) else Integer(b.number), b.Text? && b.optional))
  }

  /** A tree without a format section is printed the same whatever -show_format_entry says. */
  lemma FilterKeepsText(f: Format, filter: Filter, indent: nat, id: SectionId, items: nat, b: Body)
    requires NoFormat(id, b)
    ensures VisibleText(f, filter, indent, id, items, b) == VisibleText(f, Everything, indent, id, items, b)
  {
    hide BodyText;
    FilterOnlyFormat(DisplaysOptional(f), filter, id, b);
  }

  /** The text of a body, one item at a time. */
  lemma TextOf(f: Format, filter: Filter, indent: nat, id: SectionId, items: nat, b: Body)
    ensures b.End? ==> VisibleText(f, filter, indent, id, items, b) == ""
    ensures
      b.Section? ==>
        VisibleText(f, filter, indent, id, items, b) ==
        SectionText(f, filter, indent, id, items, b.id, b.inner) + VisibleText(f, filter, indent, id, items + 1, b.next)
    ensures
      (b.Text? || b.Number?) && IsPrinted(f, filter, id, b) ==>
        VisibleText(f, filter, indent, id, items, b) ==
        ItemText(f, indent, id, items, b.key, if b.Text? then b.value else Decimal(b.number), b.Text?) +
        VisibleText(f, filter, indent, id, items + 1, b.next)
    ensures
      (b.Text? || b.Number?) && !IsPrinted(f, filter, id, b) ==>
        VisibleText(f, filter, indent, id, items, b) == VisibleText(f, filter, indent, id, items, b.next)
  {
    hide ItemText, HeaderText, FooterText;
    var shown := Visible(DisplaysOptional(f), filter, id, b);
    if b.End? {
    } else {
      hide BodyText;
      if b.Section? { BodySection(f, indent, id, items, shown); }
      else if IsPrinted(f, filter, id, b) { BodyItem(f, indent, id, items, shown); }
    }
  }

  lemma {:induction false} VisibleKeepsShape(optionals: bool, filter: Filter, id: SectionId, b: Body)
    requires J.Shape(id, b)
    ensures J.Shape(id, Visible(optionals, filter, id, b))
    decreases b
  {
    hide Shown, IsArray, IsPlain, IsWrapper;
    match b
    case End =>
    case Text(_, _, _, next) => VisibleKeepsShape(optionals, filter, id, next);
    case Number(_, _, next) => VisibleKeepsShape(optionals, filter, id, next);
    case Section(inside, inner, next) =>
      VisibleKeepsShape(optionals, filter, inside, inner);
      VisibleKeepsShape(optionals, filter, id, next);
  }

  /** What PrintDocument prints in JSON for a tree is JSON for its visible part, exactly when no packet or
      frame of packets_and_frames is left without a visible item. */
  lemma WriterJsonReads(compact: bool, filter: Filter, b: Body)
    requires J.Shape(Root, b)
    ensures var shown := Visible(false, filter, Root, b);
      P.Parse(J.Document(compact, shown)) ==
      if J.Filled(Root, shown) then Some(P.Obj(J.Members(Root, shown))) else None
  {
    hide J.Document, J.Filled, J.Members, J.Shape, Visible;
    VisibleKeepsShape(false, filter, Root, b);
    J.JsonRoundTrip(compact, Visible(false, filter, Root, b));
  }

  lemma {:induction false} VisibleKeepsRecord(optionals: bool, filter: Filter, id: SectionId, b: Body)
    requires C.RecordShape(b)
    ensures C.RecordShape(Visible(optionals, filter, id, b))
    decreases b
  {
    hide Shown, IsTags;
    match b
    case End =>
    case Text(_, _, _, next) => VisibleKeepsRecord(optionals, filter, id, next);
    case Number(_, _, next) => VisibleKeepsRecord(optionals, filter, id, next);
    case Section(inside, inner, next) =>
      VisibleKeepsRecord(optionals, filter, inside, inner);
      VisibleKeepsRecord(optionals, filter, id, next);
  }

  lemma {:induction false} VisibleKeepsDocument(optionals: bool, filter: Filter, id: SectionId, b: Body)
    requires C.DocumentShape(id, b)
    ensures C.DocumentShape(id, Visible(optionals, filter, id, b))
    decreases b
  {
    hide Shown, IsPlain, IsTags, C.RecordShape;
    if b.Section? {
      VisibleKeepsDocument(optionals, filter, id, b.next);
      if IsPlain(b.id) {
        VisibleKeepsRecord(optionals, filter, b.id, b.inner);
      } else {
        VisibleKeepsDocument(optionals, filter, b.id, b.inner);
      }
    }
  }

  /** What PrintDocument prints in CSV for a tree reads back as the records of its visible part, exactly when
      every record of that is readable. */
  lemma WriterCsvReads(o: C.Options, filter: Filter, b: Body)
    requires C.CsvOptions(o) && C.GoodSeparator(o.sep) && C.DocumentShape(Root, b)
    ensures var shown := Visible(true, filter, Root, b);
      C.ReadRecords(C.Render(o, Root, 0, shown), o.sep) == Some(C.AllRecords(shown)) <==> C.AllReadable(o, shown)
  {
    hide C.DocumentShape, C.Render, C.ReadRecords, C.AllRecords, C.AllReadable, Visible;
    VisibleKeepsDocument(true, filter, Root, b);
    C.CsvOutputReads(o, Visible(true, filter, Root, b));
  }

  // ---------------------------------------------------------------- the context

  class WriterContext {
    const format: Format
    const filter: Filter
    const nbItem: array<nat>
    const section: array<SectionId>
    var level: int
    var indentLevel: nat
    var out: string

    ghost predicate Valid()
      reads this, nbItem, section
    {
      && nbItem.Length == MAX_LEVELS && section.Length == MAX_LEVELS
      && -1 <= level < MAX_LEVELS && (format.JsonText? ==> indentLevel == level + 1)
      && (level >= 0 ==> IsWrapper(section[0]))
    }

    /** writer_open. */
    constructor (format: Format, filter: Filter)
      ensures Valid() && level == -1 && out == "" && this.format == format && this.filter == filter
      ensures fresh(nbItem) && fresh(section)
    {
      this.format, this.filter := format, filter;
      nbItem, section := new nat[MAX_LEVELS], new SectionId[MAX_LEVELS];
      level, indentLevel, out := -1, 0, "";
    }

    method Print(s: string)
      modifies this`out
      ensures out == old(out) + s
    {
      out := out + s;
    }

    method JsonPrintSectionHeader(compact: bool)
      requires 0 <= level < MAX_LEVELS && nbItem.Length == MAX_LEVELS && section.Length == MAX_LEVELS
      requires level == 0 ==> IsWrapper(section[0])
      modifies this`out, this`indentLevel
      ensures indentLevel == old(indentLevel) + 1
      ensures out == old(out) + (if level == 0 then "{\n"
        else J.Header(compact, old(indentLevel), section[level - 1], nbItem[level - 1] == 0, section[level]))
    {
      hide J.Indent, J.Quote, J.TypeItem, J.StartEnd;
      ghost var indent := indentLevel;
      var id := section[level];
      var lead := if level > 0 && nbItem[level - 1] > 0 then ",\n" else "";
      if IsWrapper(id) {
        indentLevel := indentLevel + 1;
        Print(lead + "{\n");
      } else {
        var parent := section[level - 1];
        var text := J.Indent(indentLevel);
        indentLevel := indentLevel + 1;
        if IsArray(id) {
          text := text + (J.Quote(Name(id)) + ": ") + "[\n";
        } else if !IsArray(parent) {
          assert parent != PacketsAndFrames;
          text := text + (J.Quote(Name(id)) + ": ") + ("{" + J.StartEnd(compact) + "");
        } else {
          var typeItem := if parent == PacketsAndFrames then J.TypeItem(compact, indentLevel, id) else "";
          text := text + "" + ("{" + J.StartEnd(compact) + typeItem);
        }
        assert text == J.Indent(indent) + J.Label(parent, id) + J.Opening(compact, indent, parent, id);
        Print(lead + text);
      }
    }

    method JsonPrintSectionFooter(compact: bool)
      requires 0 <= level < MAX_LEVELS && section.Length == MAX_LEVELS && indentLevel > 0
      modifies this`out, this`indentLevel
      ensures indentLevel == old(indentLevel) - 1
      ensures out == old(out) + if level == 0 then "\n}\n" else J.Footer(compact, indentLevel, section[level])
    {
      hide J.Indent, J.StartEnd;
      indentLevel := indentLevel - 1;
      if level == 0 {
        Print("\n}\n");
      } else if IsArray(section[level]) {
        Print("\n" + J.Indent(indentLevel) + "]");
      } else {
        Print(J.StartEnd(compact) + (if compact then "" else J.Indent(indentLevel)) + "}");
      }
    }

    method CompactPrintSectionHeader(o: C.Options)
      requires 0 <= level < MAX_LEVELS && nbItem.Length == MAX_LEVELS && section.Length == MAX_LEVELS
      requires level == 0 ==> IsWrapper(section[0])
      modifies this`out, nbItem
      ensures out == old(out) + C.HeaderText(o, section[level]) && (IsWrapper(section[level]) ==> out == old(out))
      ensures forall i :: 0 <= i < MAX_LEVELS ==>
        nbItem[i] == old(nbItem[if i == level && IsTags(section[level]) then level - 1 else i])
    {
      var id := section[level];
      if IsTags(id) {
        nbItem[level] := nbItem[level - 1];
      } else if o.printSection && IsPlain(id) {
        Print(Name(id) + [o.sep]);
      }
    }

    /** writer_print_section_header. */
    method PrintSectionHeader(id: SectionId)
      requires Valid() && level + 1 < MAX_LEVELS && (level == -1 ==> IsWrapper(id))
      modifies this`level, this`out, this`indentLevel, nbItem, section
      ensures Valid() && level == old(level) + 1 && section[level] == id
      ensures forall i :: 0 <= i < level ==> nbItem[i] == old(nbItem[i]) && section[i] == old(section[i])
      ensures level == 0 ==> nbItem[0] == 0 && out == old(out) + if format.JsonText? then "{\n" else ""
      ensures level > 0 ==> nbItem[level] == FirstItems(format, id, old(nbItem[level]))
      ensures level > 0 ==> out == old(out) + HeaderText(format, level, old(section[level]), old(nbItem[level]), id)
    {
      hide J.Header, C.HeaderText;
      level := level + 1;
      nbItem[level] := 0;
      section[level] := id;
      match format
      case JsonText(compact) => JsonPrintSectionHeader(compact);
      case Compact(o) => CompactPrintSectionHeader(o);
    }

    /** writer_print_section_footer. */
    method PrintSectionFooter()
      requires Valid() && level >= 0
      modifies this`level, this`out, this`indentLevel, nbItem
      ensures Valid() && level == old(level) - 1
      ensures forall i :: 0 <= i < level ==> nbItem[i] == old(nbItem[i])
      ensures level >= 0 ==> nbItem[level] == old(nbItem[level - 1]) + 1
      ensures old(level) == 0 ==> out == old(out) + if format.JsonText? then "\n}\n" else ""
      ensures old(level) > 0 ==> out == old(out) + FooterText(format, level + 1, old(section[level]))
    {
      hide J.Footer;
      var id := section[level];
      if level > 0 { nbItem[level - 1] := nbItem[level - 1] + 1; }
      match format {
        case JsonText(compact) => JsonPrintSectionFooter(compact);
        case Compact(_) => Print(C.FooterText(id));
      }
      level := level - 1;
    }

    /** json_print_str and json_print_int, compact_print_str and compact_print_int. */
    method PrintItem(key: string, value: string, text: bool)
      requires Valid() && level >= 0
      modifies this`out
      ensures Valid() && out == old(out) + ItemText(format, level + 1, section[level], nbItem[level], key, value, text)
    {
      match format
      case JsonText(compact) =>
        hide J.Indent, J.Quote, J.ItemSep;
        var lead := if nbItem[level] > 0 then J.ItemSep(compact) else "";
        lead := lead + if compact then "" else J.Indent(indentLevel);
        Print(lead + J.Quote(key) + ": " + if text then J.Quote(value) else value);
      case Compact(o) =>
        hide C.EscapeValue;
        var item := if nbItem[level] > 0 then [o.sep] else "";
        item := item + if o.nokey then "" else (if text && IsTags(section[level]) then "tag:" else "") + key + "=";
        Print(item + if text then C.EscapeValue(o, value) else value);
    }

    /** writer_print_string and writer_print_integer. */
    method PrintString(key: string, value: string, optional: bool)
      requires Valid() && level >= 0
      modifies this`out, nbItem
      ensures Valid()
      ensures var printed := Wanted(format.Compact?, filter, Item(section[level], key, Words(value), optional));
        && nbItem[level] == old(nbItem[level]) + (if printed then 1 else 0)
        && out == old(out) +
           if printed then ItemText(format, level + 1, section[level], old(nbItem[level]), key, value, true) else ""
      ensures forall i :: 0 <= i < MAX_LEVELS && i != level ==> nbItem[i] == old(nbItem[i])
    {
      hide ItemText;
      if optional && !DisplaysOptional(format) { return; }
      if Shown(filter, section[level], key) {
        PrintItem(key, value, true);
        nbItem[level] := nbItem[level] + 1;
      }
    }

    method PrintInteger(key: string, number: int)
      requires Valid() && level >= 0
      modifies this`out, nbItem
      ensures Valid()
      ensures var printed := Wanted(format.Compact?, filter, Item(section[level], key, Integer(number), false));
        && nbItem[level] == old(nbItem[level]) + (if printed then 1 else 0)
        && out == old(out) + (if printed
           then ItemText(format, level + 1, section[level], old(nbItem[level]), key, Decimal(number), false)
           else "")
      ensures forall i :: 0 <= i < MAX_LEVELS && i != level ==> nbItem[i] == old(nbItem[i])
    {
      hide ItemText;
      if Shown(filter, section[level], key) {
        PrintItem(key, Decimal(number), false);
        nbItem[level] := nbItem[level] + 1;
      }
    }

    /** What a body adds to the output in the current state. */
    ghost function Expected(b: Body): string
      requires Valid() && level >= 0
      reads this, nbItem, section
    {
      VisibleText(format, filter, level + 1, section[level], nbItem[level], b)
    }

    /** The call that prints one item. */
    method PrintLeaf(b: Body)
      requires Valid() && level >= 0 && (b.Text? || b.Number?)
      modifies this`out, nbItem
      ensures Valid() && forall i :: 0 <= i < level ==> nbItem[i] == old(nbItem[i])
      ensures out + Expected(b.next) == old(out) + old(Expected(b))
    {
      hide ItemText, VisibleText, SectionText, Wanted;
      TextOf(format, filter, level + 1, section[level], nbItem[level], b);
      if b.Text? { PrintString(b.key, b.value, b.optional); } else { PrintInteger(b.key, b.number); }
    }

    /** The calls that print one section. */
    method PrintSection(id: SectionId, inner: Body)
      requires Valid() && level >= 0 && level + 1 + Depth(inner) < MAX_LEVELS
      modifies this`level, this`out, this`indentLevel, nbItem, section
      ensures Valid() && level == old(level)
      ensures forall i :: 0 <= i <= level ==> section[i] == old(section[i])
      ensures forall i :: 0 <= i < level ==> nbItem[i] == old(nbItem[i])
      ensures nbItem[level] == old(nbItem[level]) + 1
      ensures out == old(out) + SectionText(format, filter, level + 1, section[level], old(nbItem[level]), id, inner)
      decreases inner, 1
    {
      hide VisibleText, HeaderText, FooterText, FirstItems;
      PrintSectionHeader(id);
      PrintBody(inner);
      PrintSectionFooter();
    }

    /** The calls that print a body, in order; the depth is what av_assert0 allows. */
    method PrintBody(b: Body)
      requires Valid() && level >= 0 && level + Depth(b) < MAX_LEVELS
      modifies this`level, this`out, this`indentLevel, nbItem, section
      ensures Valid() && level == old(level)
      ensures forall i :: 0 <= i <= level ==> section[i] == old(section[i])
      ensures forall i :: 0 <= i < level ==> nbItem[i] == old(nbItem[i])
      ensures out == old(out) + old(Expected(b))
      decreases b, 0
    {
      hide VisibleText, SectionText, IsPrinted, ItemText;
      if b.Section? {
        TextOf(format, filter, level + 1, section[level], nbItem[level], b);
        PrintSection(b.id, b.inner);
        PrintBody(b.next);
      } else if !b.End? {
        PrintLeaf(b);
        PrintBody(b.next);
      } else {
        TextOf(format, filter, level + 1, section[level], nbItem[level], b);
      }
    }

    /** A whole run of the writer on a tree. */
    method PrintDocument(b: Body)
      requires Valid() && level == -1 && Depth(b) < MAX_LEVELS
      modifies this`level, this`out, this`indentLevel, nbItem, section
      ensures Valid() && level == -1
      ensures out == old(out) + match format
        case JsonText(compact) => J.Document(compact, Visible(false, filter, Root, b))
        case Compact(o) => C.Render(o, Root, 0, Visible(true, filter, Root, b))
    {
      hide J.Render, C.Render, Visible;
      PrintSectionHeader(Root);
      PrintBody(b);
      PrintSectionFooter();
    }
  }
}
