/** `generateStringFile`: a translation table written as Apple `.strings`
    lines `"key" = "value";`, joined by the platform's line ending, which
    is a parameter here. The table is a sequence of pairs in the order
    `Object.keys` lists them. A reader for the lines gives the generator
    its partner: the corrected generator, which escapes quotes and
    backslashes, reads back to the table it was given, and the generator
    as written does so exactly for tables free of those two characters. */
module StringsFile {
  import opened Wrappers
  import opened Strings

  type Table = seq<(string, string)>

  // ---- the generator as written ------------------------------------------

  /** `value.replace(/"/g, '"')`: each quote is replaced by a quote. */
  function ReplaceQuotesAsWritten(value: string): string {
    if |value| == 0 then ""
    else (if value[0] == '"' then "\"" else [value[0]]) + ReplaceQuotesAsWritten(value[1..])
  }

  /** The replacement leaves every value as it was. */
  lemma {:induction false} ReplaceIsIdentity(value: string)
    ensures ReplaceQuotesAsWritten(value) == value
  {
    if |value| > 0 {
      ReplaceIsIdentity(value[1..]);
      assert value == [value[0]] + value[1..];
    }
  }

  function LineAsWritten(key: string, value: string): string {
    "\"" + key + "\" = \"" + ReplaceQuotesAsWritten(value) + "\";"
  }

  function LinesAsWritten(lang: Table): (lines: seq<string>)
    ensures |lines| == |lang|
  {
    if |lang| == 0 then [] else [LineAsWritten(lang[0].0, lang[0].1)] + LinesAsWritten(lang[1..])
  }

  /** `generateStringFile(lang)`: nothing for an empty table, otherwise the
      lines joined by `eol`. */
  function GenerateStringFile(lang: Table, eol: string): (text: string)
    ensures text == "" <==> |lang| == 0
  {
    if |lang| == 0 then ""
    else
      var lines := LinesAsWritten(lang);
      assert |lines[0]| > 0;
      JoinNonEmpty(lines, eol);
      Join(lines, eol)
  }

  lemma JoinNonEmpty(lines: seq<string>, eol: string)
    requires |lines| > 0 && |lines[0]| > 0
    ensures Join(lines, eol) != ""
  {
  }

  // ---- the corrected generator ---------------------------------------------

  /** A backslash before each quote and each backslash. */
  function Escape(s: string): (r: string)
    ensures |r| >= |s|
  {
    if |s| == 0 then ""
    else (if s[0] == '"' || s[0] == '\\' then ['\\', s[0]] else [s[0]]) + Escape(s[1..])
  }

  function EscapedLine(key: string, value: string): string {
    "\"" + Escape(key) + "\" = \"" + Escape(value) + "\";"
  }

  function EscapedLines(lang: Table): (lines: seq<string>)
    ensures |lines| == |lang|
  {
    if |lang| == 0 then [] else [EscapedLine(lang[0].0, lang[0].1)] + EscapedLines(lang[1..])
  }

  function GenerateEscaped(lang: Table, eol: string): string {
    if |lang| == 0 then "" else Join(EscapedLines(lang), eol)
  }

  // ---- reading the lines back ----------------------------------------------

  /** The text of a quoted string whose opening quote is already read, and
      what follows its closing quote. */
  function ReadQuoted(s: string): (r: Option<(string, string)>)
    ensures r.Some? ==> |r.value.1| < |s|
  {
    if |s| == 0 then None
    else if s[0] == '"' then Some(("", s[1..]))
    else if s[0] == '\\' then
      if |s| >= 2 && (s[1] == '"' || s[1] == '\\') then
        match ReadQuoted(s[2..])
        case None => None
        case Some((text, rest)) => Some(([s[1]] + text, rest))
      else None
    else
      match ReadQuoted(s[1..])
      case None => None
      case Some((text, rest)) => Some(([s[0]] + text, rest))
  }

  /** One `"key" = "value";` entry and the text after it. */
  function ReadEntry(s: string): (r: Option<((string, string), string)>)
    ensures r.Some? ==> |r.value.1| < |s|
  {
    if !StartsWith(s, "\"") then None
    else match ReadQuoted(s[1..])
      case None => None
      case Some((key, afterKey)) =>
        if !StartsWith(afterKey, " = \"") then None
        else match ReadQuoted(afterKey[4..])
          case None => None
          case Some((value, afterValue)) =>
            if !StartsWith(afterValue, ";") then None
            else Some(((key, value), afterValue[1..]))
  }

  /** Entries separated by `eol`, up to the end of the text. */
  function ReadEntries(s: string, eol: string): Option<Table>
    decreases |s|
  {
    match ReadEntry(s)
    case None => None
    case Some((entry, rest)) =>
      if rest == "" then Some([entry])
      else if !StartsWith(rest, eol) then None
      else match ReadEntries(rest[|eol|..], eol)
        case None => None
        case Some(more) => Some([entry] + more)
  }

  /** A `.strings` text: empty, or entries separated by `eol`. */
  function ReadStringFile(text: string, eol: string): Option<Table> {
    if text == "" then Some([]) else ReadEntries(text, eol)
  }

  // ---- round trips -----------------------------------------------------------

  lemma {:induction false} ReadEscaped(s: string, rest: string)
    ensures ReadQuoted(Escape(s) + "\"" + rest) == Some((s, rest))
  {
    if |s| > 0 {
      ReadEscaped(s[1..], rest);
      var head := if s[0] == '"' || s[0] == '\\' then ['\\', s[0]] else [s[0]];
      var t := Escape(s) + "\"" + rest;
      assert t == head + (Escape(s[1..]) + "\"" + rest);
      assert s == [s[0]] + s[1..];
    } else {
      assert Escape(s) + "\"" + rest == "\"" + rest;
    }
  }

  /** `ReadEntry` from the pieces it reads. */
  lemma ReadEntryFrom(s: string, key: string, afterKey: string, value: string, afterValue: string)
    requires StartsWith(s, "\"") && ReadQuoted(s[1..]) == Some((key, afterKey))
    requires StartsWith(afterKey, " = \"") && ReadQuoted(afterKey[4..]) == Some((value, afterValue))
    requires StartsWith(afterValue, ";")
    ensures ReadEntry(s) == Some(((key, value), afterValue[1..]))
  {
  }

  /** Where the reader's cuts fall in a line, whatever its key and value
      texts. */
  lemma LinePieces(k: string, v: string, rest: string)
    ensures var s, afterKey := "\"" + k + "\" = \"" + v + "\";" + rest, " = \"" + v + "\";" + rest;
      && StartsWith(s, "\"") && s[1..] == k + "\"" + afterKey
      && StartsWith(afterKey, " = \"") && afterKey[4..] == v + "\"" + (";" + rest)
      && StartsWith(";" + rest, ";") && (";" + rest)[1..] == rest
  {
    var s, afterKey := "\"" + k + "\" = \"" + v + "\";" + rest, " = \"" + v + "\";" + rest;
    assert s == "\"" + (k + "\"" + afterKey);
    assert afterKey == " = \"" + (v + "\"" + (";" + rest));
  }

  lemma ReadLine(key: string, value: string, rest: string)
    ensures ReadEntry(EscapedLine(key, value) + rest) == Some(((key, value), rest))
  {
    var k, v := Escape(key), Escape(value);
    var afterKey := " = \"" + v + "\";" + rest;
    LinePieces(k, v, rest);
    ReadEscaped(key, afterKey);
    ReadEscaped(value, ";" + rest);
    ReadEntryFrom(EscapedLine(key, value) + rest, key, afterKey, value, ";" + rest);
  }

  /** `ReadEntries` past one entry and its line ending. */
  lemma ReadEntriesStep(line: string, entry: (string, string), eol: string, rest: string, more: Table)
    requires ReadEntry(line + (eol + rest)) == Some((entry, eol + rest)) && eol + rest != ""
    requires ReadEntries(rest, eol) == Some(more)
    ensures ReadEntries(line + (eol + rest), eol) == Some([entry] + more)
  {
    assert (eol + rest)[|eol|..] == rest;
  }

  /** The corrected generator reads back to the table it was given, for any
      line ending. */
  lemma {:induction false} EscapedRoundTrip(lang: Table, eol: string)
    ensures ReadStringFile(GenerateEscaped(lang, eol), eol) == Some(lang)
  {
    if |lang| > 0 {
      EntriesRoundTrip(lang, eol);
      assert EscapedLine(lang[0].0, lang[0].1) != "";
    }
  }

  /** The lines of a table of two or more entries: the first line, a line
      ending, the rest. */
  lemma JoinedLines(lang: Table, eol: string)
    requires |lang| >= 2
    ensures Join(EscapedLines(lang), eol) ==
      EscapedLine(lang[0].0, lang[0].1) + (eol + Join(EscapedLines(lang[1..]), eol))
  {
    var line, tail := EscapedLine(lang[0].0, lang[0].1), EscapedLines(lang[1..]);
    JoinCons(line, tail, eol);
    assert EscapedLines(lang) == [line] + tail;
  }

  lemma SingleEntryRead(lang: Table, eol: string)
    requires |lang| == 1
    ensures ReadEntries(Join(EscapedLines(lang), eol), eol) == Some(lang)
  {
    var line := EscapedLine(lang[0].0, lang[0].1);
    ReadLine(lang[0].0, lang[0].1, "");
    assert line + "" == line;
    assert EscapedLines(lang) == [line];
    assert lang == [lang[0]];
  }

  lemma {:induction false} EntriesRoundTrip(lang: Table, eol: string)
    requires |lang| > 0
    ensures ReadEntries(Join(EscapedLines(lang), eol), eol) == Some(lang)
  {
    if |lang| == 1 {
      SingleEntryRead(lang, eol);
    } else {
      var line := EscapedLine(lang[0].0, lang[0].1);
      var rest := Join(EscapedLines(lang[1..]), eol);
      JoinedLines(lang, eol);
      ReadLine(lang[0].0, lang[0].1, eol + rest);
      EntriesRoundTrip(lang[1..], eol);
      JoinNonEmptyTail(lang[1..], eol);
      ReadEntriesStep(line, lang[0], eol, rest, lang[1..]);
      assert lang == [lang[0]] + lang[1..];
    }
  }

  lemma JoinNonEmptyTail(lang: Table, eol: string)
    requires |lang| > 0
    ensures eol + Join(EscapedLines(lang), eol) != ""
  {
    assert EscapedLines(lang)[0] != "";
    JoinNonEmpty(EscapedLines(lang), eol);
  }

  // ---- the generator as written, against the corrected one -------------------

  predicate Plain(s: string) {
    '"' !in s && '\\' !in s
  }

  lemma {:induction false} EscapePlain(s: string)
    requires Plain(s)
    ensures Escape(s) == s
  {
    if |s| > 0 {
      assert s[1..] == s[1..];
      assert forall i | 0 <= i < |s[1..]| :: s[1..][i] == s[i + 1];
      EscapePlain(s[1..]);
      assert s == [s[0]] + s[1..];
    }
  }

  predicate PlainTable(lang: Table) {
    forall i | 0 <= i < |lang| :: Plain(lang[i].0) && Plain(lang[i].1)
  }

  lemma {:induction false} PlainLines(lang: Table)
    requires PlainTable(lang)
    ensures LinesAsWritten(lang) == EscapedLines(lang)
  {
    if |lang| > 0 {
      EscapePlain(lang[0].0);
      EscapePlain(lang[0].1);
      ReplaceIsIdentity(lang[0].1);
      PlainLines(lang[1..]);
    }
  }

  /** Without quotes or backslashes the generator as written is the
      corrected one, so its output reads back to the table. */
  lemma PlainRoundTrip(lang: Table, eol: string)
    requires PlainTable(lang)
    ensures GenerateStringFile(lang, eol) == GenerateEscaped(lang, eol)
    ensures ReadStringFile(GenerateStringFile(lang, eol), eol) == Some(lang)
  {
    PlainLines(lang);
    EscapedRoundTrip(lang, eol);
  }

  /** The one line the generator as written makes of a one-entry table. */
  lemma SingleLineAsWritten(key: string, value: string, eol: string)
    ensures GenerateStringFile([(key, value)], eol) == "\"" + key + "\" = \"" + value + "\";"
  {
    ReplaceIsIdentity(value);
    assert LinesAsWritten([(key, value)]) == [LineAsWritten(key, value)];
  }

  lemma PlainKeyRead(key: string, afterKey: string)
    requires Plain(key)
    ensures ReadQuoted(("\"" + key + "\"" + afterKey)[1..]) == Some((key, afterKey))
  {
    EscapePlain(key);
    assert ("\"" + key + "\"" + afterKey)[1..] == Escape(key) + "\"" + afterKey;
    ReadEscaped(key, afterKey);
  }

  lemma QuotedValueRead(a: string, b: string)
    requires Plain(a)
    ensures ReadQuoted((" = \"" + (a + "\"" + b) + "\";")[4..]) == Some((a, b + "\";"))
  {
    EscapePlain(a);
    assert (" = \"" + (a + "\"" + b) + "\";")[4..] == Escape(a) + "\"" + (b + "\";");
    ReadEscaped(a, b + "\";");
  }

  /** A quoted key, then a quote inside the value: the value ends at that
      quote and the `;` is missing. */
  lemma QuotedValueCut(key: string, a: string, b: string)
    requires Plain(key) && Plain(a) && |b| > 0 && b[0] != ';'
    ensures ReadEntry("\"" + key + "\" = \"" + (a + "\"" + b) + "\";") == None
  {
    var afterKey := " = \"" + (a + "\"" + b) + "\";";
    assert "\"" + key + "\" = \"" + (a + "\"" + b) + "\";" == "\"" + key + "\"" + afterKey;
    PlainKeyRead(key, afterKey);
    QuotedValueRead(a, b);
    assert (b + "\";")[0] == b[0];
  }

  /** A quote in a value is copied verbatim and ends the value early, so
      the line does not read back: `"k" = "a"b";` is such a line. */
  lemma QuoteBreaksLine(key: string, a: string, b: string, eol: string)
    requires Plain(key) && Plain(a) && |b| > 0 && b[0] != ';'
    ensures ReadStringFile(GenerateStringFile([(key, a + "\"" + b)], eol), eol) == None
    ensures ReadStringFile(GenerateEscaped([(key, a + "\"" + b)], eol), eol) == Some([(key, a + "\"" + b)])
  {
    SingleLineAsWritten(key, a + "\"" + b, eol);
    QuotedValueCut(key, a, b);
    EscapedRoundTrip([(key, a + "\"" + b)], eol);
  }
}
