/** Character-sequence helpers shared by the schema and utility models:
    substring search, splitting and joining, ASCII case folding, the
    whitespace class of JavaScript regular expressions and decimal digits. */
module Strings {

  predicate StartsWith(s: string, prefix: string) {
    |prefix| <= |s| && s[..|prefix|] == prefix
  }

  predicate EndsWith(s: string, suffix: string) {
    |suffix| <= |s| && s[|s| - |suffix|..] == suffix
  }

  /** `s.includes(sub)`: some suffix of `s` starts with `sub`. */
  predicate Contains(s: string, sub: string) {
    exists i | 0 <= i <= |s| :: StartsWith(s[i..], sub)
  }

  lemma ContainsAt(s: string, sub: string, i: nat)
    requires i <= |s| && StartsWith(s[i..], sub)
    ensures Contains(s, sub)
  {
  }

  lemma ContainsNoLonger(s: string, sub: string)
    requires |s| < |sub|
    ensures !Contains(s, sub)
  {
  }

  /** The class `\s` of JavaScript regular expressions. */
  predicate IsJsSpace(c: char) {
    var n := c as int;
    || 0x09 <= n <= 0x0D
    || n == 0x20 || n == 0xA0 || n == 0x1680
    || 0x2000 <= n <= 0x200A
    || n == 0x2028 || n == 0x2029 || n == 0x202F || n == 0x205F
    || n == 0x3000 || n == 0xFEFF
  }

  /** The class `\d` of JavaScript regular expressions. */
  predicate IsDigit(c: char) {
    '0' <= c <= '9'
  }

  /** Characters outside the Basic Multilingual Plane, which UTF-16
      writes as a surrogate pair. */
  predicate IsAstral(c: char) {
    c as int > 0xFFFF
  }

  /** JavaScript's `length` of a string: the number of UTF-16 code units,
      which exceeds the number of characters by one for every astral one. */
  function Utf16Length(s: string): (n: nat)
    ensures |s| <= n <= 2 * |s|
    ensures n == |s| <==> forall i | 0 <= i < |s| :: !IsAstral(s[i])
    ensures n == 2 * |s| <==> forall i | 0 <= i < |s| :: IsAstral(s[i])
  {
    if s == [] then 0
    else
      assert forall i | 1 <= i < |s| :: s[1..][i - 1] == s[i];
      (if IsAstral(s[0]) then 2 else 1) + Utf16Length(s[1..])
  }

  predicate AllDigits(s: string) {
    forall i | 0 <= i < |s| :: IsDigit(s[i])
  }

  predicate AllSpaces(s: string) {
    forall i | 0 <= i < |s| :: IsJsSpace(s[i])
  }

  function DigitValue(c: char): nat
    requires IsDigit(c)
  {
    c as int - '0' as int
  }

  function DigitChar(d: nat): (c: char)
    requires d < 10
    ensures IsDigit(c) && DigitValue(c) == d
  {
    ('0' as int + d) as char
  }

  /** `Number(ds)` for a string of decimal digits (leading zeros allowed). */
  function DecimalValue(ds: string): nat
    requires AllDigits(ds)
  {
    if |ds| == 0 then 0
    else 10 * DecimalValue(ds[..|ds| - 1]) + DigitValue(ds[|ds| - 1])
  }

  /** `String(n)` for a natural number: shortest decimal notation. */
  function DecimalString(n: nat): (ds: string)
    ensures 1 <= |ds| && AllDigits(ds)
    ensures DecimalValue(ds) == n
    ensures n < 10 <==> |ds| == 1
  {
    if n < 10 then [DigitChar(n)]
    else
      var init := DecimalString(n / 10);
      var ds := init + [DigitChar(n % 10)];
      assert ds[..|ds| - 1] == init;
      ds
  }

  /** `toLowerCase` restricted to ASCII letters. */
  function ToLowerAscii(s: string): (r: string)
    ensures |r| == |s|
    ensures forall i | 0 <= i < |s| ::
      r[i] == (if 'A' <= s[i] <= 'Z' then (s[i] as int + 32) as char else s[i])
  {
    if |s| == 0 then ""
    else [if 'A' <= s[0] <= 'Z' then (s[0] as int + 32) as char else s[0]] + ToLowerAscii(s[1..])
  }

  /** Position of the first `c` in `s`, or `|s|` when there is none. */
  function IndexOf(s: string, c: char): (i: nat)
    ensures i <= |s|
    ensures i < |s| ==> s[i] == c
  {
    if |s| == 0 then 0
    else if s[0] == c then 0
    else 1 + IndexOf(s[1..], c)
  }

  /** No `c` comes before the position `IndexOf` reports. */
  lemma {:induction false} IndexOfFirst(s: string, c: char)
    ensures c !in s[..IndexOf(s, c)]
  {
    if |s| > 0 && s[0] != c {
      IndexOfFirst(s[1..], c);
      assert s[..IndexOf(s, c)] == [s[0]] + s[1..][..IndexOf(s[1..], c)];
    }
  }

  /** `s.split(sep)` for a one-character separator. */
  function Split(s: string, sep: char): (parts: seq<string>)
    ensures |parts| >= 1
    ensures sep !in s ==> parts == [s]
    decreases |s|
  {
    var i := IndexOf(s, sep);
    if i == |s| then [s]
    else [s[..i]] + Split(s[i + 1..], sep)
  }

  /** `parts.join(glue)`. */
  function Join(parts: seq<string>, glue: string): string {
    if |parts| == 0 then ""
    else if |parts| == 1 then parts[0]
    else parts[0] + glue + Join(parts[1..], glue)
  }

  lemma JoinCons(head: string, tail: seq<string>, glue: string)
    requires |tail| >= 1
    ensures Join([head] + tail, glue) == head + glue + Join(tail, glue)
  {
    assert ([head] + tail)[1..] == tail;
  }

  /** Joining the pieces of a split with the separator gives the original back. */
  lemma {:induction false} JoinSplit(s: string, sep: char)
    ensures Join(Split(s, sep), [sep]) == s
    decreases |s|
  {
    var i := IndexOf(s, sep);
    if i < |s| {
      var rest := s[i + 1..];
      JoinSplit(rest, sep);
      var tail := Split(rest, sep);
      calc {
        Join(Split(s, sep), [sep]);
        { assert Split(s, sep) == [s[..i]] + tail; }
        Join([s[..i]] + tail, [sep]);
        { JoinCons(s[..i], tail, [sep]); }
        s[..i] + [sep] + rest;
      }
      assert s == s[..i] + [sep] + rest;
    }
  }

  /** The first piece of a split is the text before the first separator,
      and the other pieces are split from the text after it. */
  lemma SplitHead(s: string, sep: char)
    ensures Split(s, sep)[0] == s[..IndexOf(s, sep)]
    ensures IndexOf(s, sep) < |s| ==> Split(s, sep)[1..] == Split(s[IndexOf(s, sep) + 1..], sep)
    ensures IndexOf(s, sep) == |s| <==> sep !in s
  {
    var i := IndexOf(s, sep);
    IndexOfFirst(s, sep);
    if i < |s| {
      assert Split(s, sep) == [s[..i]] + Split(s[i + 1..], sep);
    } else {
      assert s[..i] == s;
    }
  }
}
