/** The command line in the report file of lavc/cmdutils.c: every argument through dump_argument, separated
    by spaces and ended by a newline. */
module CommandLine {
  import opened Escapers
  import opened Wrappers

  /** Characters that dump_argument prints without quotes. */
  predicate Safe(c: char) {
    '+' <= c <= ':' || '@' <= c <= 'Z' || c == '_' || 'a' <= c <= 'z'
  }

  predicate AllSafe(a: string) { forall i :: 0 <= i < |a| ==> Safe(a[i]) }

  /** What dump_argument prints. */
  function Dump(a: string): string {
    if AllSafe(a) then a else "\"" + Escape(Quoted, a) + "\""
  }

  function DumpAll(args: seq<string>): string
    requires args != []
  {
    if |args| == 1 then Dump(args[0]) + "\n" else Dump(args[0]) + " " + DumpAll(args[1..])
  }

  // ---------------------------------------------------------------- the reader

  /** The longest prefix of safe characters, and the rest. */
  function TakeSafe(s: string): (string, string) {
    if s == [] || !Safe(s[0]) then ([], s)
    else
      var (word, rest) := TakeSafe(s[1..]);
      ([s[0]] + word, rest)
  }

  /** One argument, quoted or not. */
  function ReadArgument(s: string): Option<(string, string)> {
    if s == [] || s[0] != '"' then Some(TakeSafe(s))
    else
      match Decode(Quoted, true, s[1..])
      case None => None
      case Some((a, rest)) => if rest != [] && rest[0] == '"' then Some((a, rest[1..])) else None
  }

  lemma {:induction false} TakeSafeShortens(s: string)
    ensures |TakeSafe(s).1| <= |s|
  {
    if s != [] && Safe(s[0]) { TakeSafeShortens(s[1..]); }
  }

  lemma {:induction false} DecodeShortens(f: Form, framed: bool, s: string)
    ensures Decode(f, framed, s).Some? ==> |Decode(f, framed, s).value.1| <= |s|
    decreases |s|
  {
    hide DecodeOne, Stops;
    if s != [] && !(framed && Stops(f, s[0])) && DecodeOne(f, s).Some? {
      DecodeShortens(f, framed, DecodeOne(f, s).value.1);
    }
  }

  lemma ReadArgumentShortens(s: string)
    ensures ReadArgument(s).Some? ==> |ReadArgument(s).value.1| <= |s|
  {
    hide Decode;
    TakeSafeShortens(s);
    if s != [] { DecodeShortens(Quoted, true, s[1..]); }
  }

  /** The whole line: the arguments, and what follows the newline. */
  function ReadAll(s: string): Option<(seq<string>, string)>
    decreases |s|
  {
    ReadArgumentShortens(s);
    match ReadArgument(s)
    case None => None
    case Some((a, rest)) =>
      if rest == [] then None
      else if rest[0] == '\n' then Some(([a], rest[1..]))
      else if rest[0] != ' ' then None
      else
        match ReadAll(rest[1..])
        case None => None
        case Some((args, end)) => Some(([a] + args, end))
  }

  // ---------------------------------------------------------------- round trip

  /** An argument is a C string of bytes. */
  predicate Bytes(a: string) { forall i :: 0 <= i < |a| ==> 0 as char < a[i] < 256 as char }

  lemma {:induction false} TakeSafeExact(word: string, rest: string)
    requires AllSafe(word) && rest != [] && !Safe(rest[0])
    ensures TakeSafe(word + rest) == (word, rest)
  {
    if word == [] {
      assert word + rest == rest;
    } else {
      assert (word + rest)[1..] == word[1..] + rest && (word + rest)[0] == word[0];
      assert [word[0]] + word[1..] == word;
      TakeSafeExact(word[1..], rest);
    }
  }

  /** An argument is logged without quotes exactly when it consists of letters, digits and + , - . / : @ _ . */
  lemma DumpUnquotedIff(a: string)
    ensures Dump(a) == a <==> forall i :: 0 <= i < |a| ==>
      'a' <= a[i] <= 'z' || 'A' <= a[i] <= 'Z' || '0' <= a[i] <= '9' || a[i] in "+,-./:@_"
    ensures Dump(a) != a ==> Dump(a)[0] == '"' && Dump(a)[|Dump(a)| - 1] == '"'
  {
    hide Escape;
    UnchangedIff(Quoted, a);
    forall c: char ensures Safe(c) <==> 'a' <= c <= 'z' || 'A' <= c <= 'Z' || '0' <= c <= '9' || c in "+,-./:@_" {
      SafeMeans(c);
    }
  }

  lemma SafeMeans(c: char)
    ensures Safe(c) <==> 'a' <= c <= 'z' || 'A' <= c <= 'Z' || '0' <= c <= '9' || c in "+,-./:@_"
  {
  }

  lemma DumpReads(a: string, rest: string)
    requires Bytes(a) && rest != [] && (rest[0] == ' ' || rest[0] == '\n')
    ensures ReadArgument(Dump(a) + rest) == Some((a, rest))
  {
    hide Decode, Escape;
    if AllSafe(a) {
      TakeSafeExact(a, rest);
      assert (a + rest)[0] == if a == [] then rest[0] else a[0];
    } else {
      assert Dump(a) + rest == "\"" + (Escape(Quoted, a) + ("\"" + rest));
      RoundTrip(Quoted, true, a, "\"" + rest);
    }
  }

  /** The logged line gives back the argument list, empty arguments included. */
  lemma {:induction false} CommandLineRoundTrip(args: seq<string>, rest: string)
    requires args != [] && forall i :: 0 <= i < |args| ==> Bytes(args[i])
    ensures ReadAll(DumpAll(args) + rest) == Some((args, rest))
  {
    hide Dump, ReadArgument, Bytes;
    var a := args[0];
    if |args| == 1 {
      DumpReads(a, "\n" + rest);
      assert DumpAll(args) + rest == Dump(a) + ("\n" + rest);
      assert args == [a];
    } else {
      var tail := DumpAll(args[1..]) + rest;
      DumpReads(a, " " + tail);
      assert DumpAll(args) + rest == Dump(a) + (" " + tail);
      CommandLineRoundTrip(args[1..], rest);
      assert [a] + args[1..] == args;
    }
  }

  // ---------------------------------------------------------------- the loops

  method DumpArgument(a: string) returns (report: string)
    requires Bytes(a)
    ensures report == Dump(a)
  {
    hide Escape, Hex2;
    var p := 0;
    while p < |a| && Safe(a[p])
      invariant 0 <= p <= |a| && AllSafe(a[..p])
    {
      p := p + 1;
    }
    if p == |a| {
      assert a[..p] == a;
      return a;
    }
    assert !AllSafe(a);
    report := "\"";
    p := 0;
    assert Escape(Quoted, a[..0]) == [] by { EscapeEmpty(Quoted); }
    while p < |a|
      invariant 0 <= p <= |a| && report == "\"" + Escape(Quoted, a[..p])
    {
      QuoteOne(a, p);
      var c := a[p];
      if c == '\\' || c == '"' || c == '$' || c == '`' {
        report := report + ['\\', c];
      } else if c < ' ' || c > '~' {
        report := report + "\\x" + Hex2(c as int);
      } else {
        report := report + [c];
      }
      p := p + 1;
    }
    assert a[..p] == a;
    report := report + "\"";
  }

  lemma QuoteOne(a: string, p: nat)
    requires Bytes(a) && p < |a|
    ensures (a[p] as int) % 256 == a[p] as int
    ensures Escape(Quoted, a[..p + 1]) == Escape(Quoted, a[..p]) + QuotedUnit(a[p])
  {
    hide Hex2, QuotedUnit;
    assert a[..p + 1][..p] == a[..p];
  }

  method ReportCommandLine(args: seq<string>) returns (report: string)
    requires args != [] && forall i :: 0 <= i < |args| ==> Bytes(args[i])
    ensures report == DumpAll(args)
  {
    hide Dump, Bytes;
    report := "";
    for i := 0 to |args|
      invariant i < |args| ==> report + DumpAll(args[i..]) == DumpAll(args)
      invariant i == |args| ==> report == DumpAll(args)
    {
      var dumped := DumpArgument(args[i]);
      assert i + 1 < |args| ==> args[i..][1..] == args[i + 1..];
      report := report + dumped + (if i < |args| - 1 then " " else "\n");
    }
  }
}
