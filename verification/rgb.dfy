/** `isValidRGB`: a CSS-like `rgb(r, g, b)` prefix with three channels of
    one to three digits, each at most 255. The expression is anchored at
    the start only, so whatever follows the closing parenthesis is
    ignored. */
module Rgb {
  import opened Wrappers
  import opened Strings

  // ---- the expression, stated as a decomposition ------------------------

  /** `\s*(\d{1,3})\s*` with the digits at `t[x..y]`. */
  predicate ChannelAt(t: string, x: nat, y: nat, digits: string) {
    && x <= y <= |t|
    && AllSpaces(t[..x]) && t[x..y] == digits && AllSpaces(t[y..])
    && AllDigits(digits) && 1 <= |digits| <= 3
  }

  /** `t` is spaces, one channel's digits, spaces. */
  ghost predicate ChannelForm(t: string, digits: string) {
    exists x: nat, y: nat :: ChannelAt(t, x, y, digits)
  }

  /** `s` starts with `rgb(`, three channels ending at the commas `p` and
      `q`, and the closing parenthesis `e`. */
  ghost predicate RgbAt(s: string, p: nat, q: nat, e: nat, r: string, g: string, b: string) {
    && 4 <= p < q < e < |s|
    && s[..4] == "rgb("
    && ChannelForm(s[4..p], r) && s[p] == ','
    && ChannelForm(s[p + 1..q], g) && s[q] == ','
    && ChannelForm(s[q + 1..e], b) && s[e] == ')'
  }

  ghost predicate RgbForm(s: string, r: string, g: string, b: string) {
    exists p: nat, q: nat, e: nat :: RgbAt(s, p, q, e, r, g, b)
  }

  // ---- the scanner --------------------------------------------------------

  /** The end of the run of spaces starting at `i`. */
  function SpaceRun(s: string, i: nat): (j: nat)
    requires i <= |s|
    ensures i <= j <= |s|
    decreases |s| - i
  {
    if i < |s| && IsJsSpace(s[i]) then SpaceRun(s, i + 1) else i
  }

  /** The end of the run of digits starting at `i`. */
  function DigitRun(s: string, i: nat): (j: nat)
    requires i <= |s|
    ensures i <= j <= |s|
    decreases |s| - i
  {
    if i < |s| && IsDigit(s[i]) then DigitRun(s, i + 1) else i
  }

  /** `SpaceRun` stops at the first non-space, having passed only spaces. */
  lemma {:induction false} SpaceRunSpans(s: string, i: nat)
    requires i <= |s|
    ensures AllSpaces(s[i..SpaceRun(s, i)])
    ensures SpaceRun(s, i) == |s| || !IsJsSpace(s[SpaceRun(s, i)])
    decreases |s| - i
  {
    if i < |s| && IsJsSpace(s[i]) {
      SpaceRunSpans(s, i + 1);
      var j := SpaceRun(s, i);
      assert s[i..j] == [s[i]] + s[i + 1..j];
    }
  }

  /** `DigitRun` stops at the first non-digit, having passed only digits. */
  lemma {:induction false} DigitRunSpans(s: string, i: nat)
    requires i <= |s|
    ensures AllDigits(s[i..DigitRun(s, i)])
    ensures DigitRun(s, i) == |s| || !IsDigit(s[DigitRun(s, i)])
    decreases |s| - i
  {
    if i < |s| && IsDigit(s[i]) {
      DigitRunSpans(s, i + 1);
      var j := DigitRun(s, i);
      assert s[i..j] == [s[i]] + s[i + 1..j];
    }
  }

  /** A channel starting at `i`: its digits and where its trailing spaces
      end. */
  function Channel(s: string, i: nat): Option<(string, nat)>
    requires i <= |s|
  {
    var a := SpaceRun(s, i);
    var b := DigitRun(s, a);
    if 1 <= b - a <= 3 then Some((s[a..b], SpaceRun(s, b))) else None
  }

  /** A channel starting at `i` and the delimiter after it: the digits
      and the position past the delimiter. */
  function ChannelThen(s: string, i: nat, delimiter: char): (r: Option<(string, nat)>)
    requires i <= |s|
    ensures r.Some? ==> i < r.value.1 <= |s|
  {
    match Channel(s, i)
    case None => None
    case Some((digits, k)) => if k < |s| && s[k] == delimiter then Some((digits, k + 1)) else None
  }

  /** The three channels when `s` starts with an `rgb(...)` triple. */
  function ParseRgb(s: string): Option<(string, string, string)> {
    if |s| < 4 || s[..4] != "rgb(" then None
    else match ChannelThen(s, 4, ',')
      case None => None
      case Some((r, p)) =>
        match ChannelThen(s, p, ',')
        case None => None
        case Some((g, q)) =>
          match ChannelThen(s, q, ')')
          case None => None
          case Some((b, _)) => Some((r, g, b))
  }

  /** `Math.abs(Number(v)) <= 255` for a channel. */
  predicate InRange(digits: string)
    requires AllDigits(digits)
  {
    DecimalValue(digits) <= 255
  }

  /** `isValidRGB(value)`: an absent or empty value is not a colour. */
  function IsValidRgb(value: Option<string>): (ok: bool)
    ensures value.None? || value == Some("") ==> !ok
  {
    if value.None? || value.value == "" then false
    else match ParseRgb(value.value)
      case None => false
      case Some((r, g, b)) =>
        if AllDigits(r) && AllDigits(g) && AllDigits(b) then InRange(r) && InRange(g) && InRange(b)
        else false
  }

  // ---- the scanner finds exactly the decompositions ---------------------

  /** A run of spaces ending before a non-space is the one `SpaceRun`
      finds. */
  lemma {:induction false} SpaceRunIs(s: string, i: nat, j: nat)
    requires i <= j <= |s| && AllSpaces(s[i..j]) && (j == |s| || !IsJsSpace(s[j]))
    ensures SpaceRun(s, i) == j
    decreases j - i
  {
    if i < j {
      assert s[i] == s[i..j][0];
      assert s[i + 1..j] == s[i..j][1..];
      SpaceRunIs(s, i + 1, j);
    }
  }

  lemma {:induction false} DigitRunIs(s: string, i: nat, j: nat)
    requires i <= j <= |s| && AllDigits(s[i..j]) && (j == |s| || !IsDigit(s[j]))
    ensures DigitRun(s, i) == j
    decreases j - i
  {
    if i < j {
      assert s[i] == s[i..j][0];
      assert s[i + 1..j] == s[i..j][1..];
      DigitRunIs(s, i + 1, j);
    }
  }

  /** What `Channel` finds is a channel, ending before a non-space. */
  lemma ChannelSound(s: string, i: nat)
    requires i <= |s| && Channel(s, i).Some?
    ensures i <= Channel(s, i).value.1 <= |s|
    ensures ChannelForm(s[i..Channel(s, i).value.1], Channel(s, i).value.0)
  {
    var a := SpaceRun(s, i);
    var b := DigitRun(s, a);
    var e := SpaceRun(s, b);
    SpaceRunSpans(s, i);
    DigitRunSpans(s, a);
    SpaceRunSpans(s, b);
    var t := s[i..e];
    SliceOfSlice(s, i, e, 0, a - i);
    SliceOfSlice(s, i, e, a - i, b - i);
    SliceOfSlice(s, i, e, b - i, e - i);
    assert t[..a - i] == s[i..a];
    assert t[b - i..] == s[b..e];
    assert ChannelAt(t, a - i, b - i, s[a..b]);
  }

  /** A slice of a slice is a slice of the whole. */
  lemma SliceOfSlice(s: string, i: nat, e: nat, x: nat, y: nat)
    requires i <= e <= |s| && x <= y <= e - i
    ensures s[i..e][x..y] == s[i + x..i + y]
  {
    var u, w := s[i..e][x..y], s[i + x..i + y];
    assert |u| == |w|;
    forall k | 0 <= k < |u| ensures u[k] == w[k] {
      assert u[k] == s[i..e][x + k] == s[i + x + k];
    }
  }

  lemma ThenSound(s: string, i: nat, delimiter: char, digits: string, next: nat)
    requires i <= |s| && ChannelThen(s, i, delimiter) == Some((digits, next))
    ensures i <= next - 1 < |s| && ChannelForm(s[i..next - 1], digits) && s[next - 1] == delimiter
  {
    ChannelSound(s, i);
  }

  /** The channel's pieces, read in `s` itself. */
  lemma ChannelPieces(s: string, i: nat, k: nat, x: nat, y: nat, digits: string)
    requires i <= k <= |s| && ChannelAt(s[i..k], x, y, digits)
    ensures i + x <= i + y <= k
    ensures AllSpaces(s[i..i + x]) && s[i + x..i + y] == digits && AllSpaces(s[i + y..k])
  {
    var t := s[i..k];
    assert |t| == k - i;
    assert s[i..i + x] == t[..x];
    assert s[i + x..i + y] == t[x..y] by {
      assert |s[i + x..i + y]| == |t[x..y]|;
      forall j | 0 <= j < y - x ensures s[i + x..i + y][j] == t[x..y][j] {
        assert t[x..y][j] == t[x + j] == s[i + x + j];
      }
    }
    assert s[i + y..k] == t[y..];
  }

  /** A channel followed by a character that is neither a space nor a
      digit is the one `Channel` finds. */
  lemma ChannelComplete(s: string, i: nat, k: nat, digits: string)
    requires i <= k < |s| && ChannelForm(s[i..k], digits)
    requires !IsJsSpace(s[k]) && !IsDigit(s[k])
    ensures Channel(s, i) == Some((digits, k))
  {
    var x: nat, y: nat :| ChannelAt(s[i..k], x, y, digits);
    ChannelPieces(s, i, k, x, y, digits);
    var a, b := i + x, i + y;
    assert s[a] == digits[0];
    SpaceRunIs(s, i, a);
    if b < k {
      assert s[b] == s[b..k][0];
    }
    DigitRunIs(s, a, b);
    SpaceRunIs(s, b, k);
  }

  lemma ThenComplete(s: string, i: nat, k: nat, digits: string, delimiter: char)
    requires i <= k < |s| && ChannelForm(s[i..k], digits) && s[k] == delimiter
    requires !IsJsSpace(delimiter) && !IsDigit(delimiter)
    ensures ChannelThen(s, i, delimiter) == Some((digits, k + 1))
  {
    ChannelComplete(s, i, k, digits);
  }

  /** The delimiters end a channel: they are neither spaces nor digits. */
  lemma DelimitersEndChannels()
    ensures !IsJsSpace(',') && !IsDigit(',') && !IsJsSpace(')') && !IsDigit(')')
  {
  }

  /** `ParseRgb` reports the three channels the delimited scans find. */
  lemma ParseFrom(s: string, r: string, g: string, b: string, p: nat, q: nat, e: nat)
    requires |s| >= 4 && s[..4] == "rgb("
    requires p <= |s| && q <= |s|
    requires ChannelThen(s, 4, ',') == Some((r, p))
    requires ChannelThen(s, p, ',') == Some((g, q))
    requires ChannelThen(s, q, ')') == Some((b, e))
    ensures ParseRgb(s) == Some((r, g, b))
  {
  }

  /** `ParseRgb` fails when the third channel is not closed by `)`. */
  lemma ParseUnclosed(s: string, r: string, g: string, b: string, p: nat, q: nat, e: nat)
    requires |s| >= 4 && s[..4] == "rgb("
    requires p <= |s| && q <= |s| && e < |s| && s[e] != ')'
    requires ChannelThen(s, 4, ',') == Some((r, p))
    requires ChannelThen(s, p, ',') == Some((g, q))
    requires Channel(s, q) == Some((b, e))
    ensures ParseRgb(s) == None
  {
  }

  /** When `ParseRgb` succeeds, the three delimited scans succeed and
      report its channels. */
  lemma ParseScans(s: string) returns (p: nat, q: nat, e: nat)
    requires ParseRgb(s).Some?
    ensures |s| >= 4 && s[..4] == "rgb(" && p <= |s| && q <= |s|
    ensures ChannelThen(s, 4, ',') == Some((ParseRgb(s).value.0, p))
    ensures ChannelThen(s, p, ',') == Some((ParseRgb(s).value.1, q))
    ensures ChannelThen(s, q, ')') == Some((ParseRgb(s).value.2, e))
  {
    p := ChannelThen(s, 4, ',').value.1;
    q := ChannelThen(s, p, ',').value.1;
    e := ChannelThen(s, q, ')').value.1;
  }

  /** The pieces of a decomposition make one; `p`, `q` and `e` are the
      positions just past the delimiters. */
  lemma RgbFromForms(s: string, p: nat, q: nat, e: nat, r: string, g: string, b: string)
    requires 5 <= p < q < e <= |s| && s[..4] == "rgb("
    requires ChannelForm(s[4..p - 1], r) && s[p - 1] == ','
    requires ChannelForm(s[p..q - 1], g) && s[q - 1] == ','
    requires ChannelForm(s[q..e - 1], b) && s[e - 1] == ')'
    ensures RgbForm(s, r, g, b)
  {
    assert RgbAt(s, p - 1, q - 1, e - 1, r, g, b);
  }

  /** Three successful delimited scans after `rgb(` give a decomposition. */
  lemma ScansSound(s: string, r: string, g: string, b: string, p: nat, q: nat, e: nat)
    requires |s| >= 4 && s[..4] == "rgb(" && p <= |s| && q <= |s|
    requires ChannelThen(s, 4, ',') == Some((r, p))
    requires ChannelThen(s, p, ',') == Some((g, q))
    requires ChannelThen(s, q, ')') == Some((b, e))
    ensures RgbForm(s, r, g, b)
  {
    ThenSound(s, 4, ',', r, p);
    ThenSound(s, p, ',', g, q);
    ThenSound(s, q, ')', b, e);
    RgbFromForms(s, p, q, e, r, g, b);
  }

  /** A decomposition is found by the three delimited scans; `p`, `q` and
      `e` are the positions of the delimiters. */
  lemma ScansComplete(s: string, r: string, g: string, b: string) returns (p: nat, q: nat, e: nat)
    requires RgbForm(s, r, g, b)
    ensures |s| >= 4 && s[..4] == "rgb(" && p + 1 <= |s| && q + 1 <= |s|
    ensures ChannelThen(s, 4, ',') == Some((r, p + 1))
    ensures ChannelThen(s, p + 1, ',') == Some((g, q + 1))
    ensures ChannelThen(s, q + 1, ')') == Some((b, e + 1))
  {
    p, q, e :| RgbAt(s, p, q, e, r, g, b);
    DelimitersEndChannels();
    ThenComplete(s, 4, p, r, ',');
    ThenComplete(s, p + 1, q, g, ',');
    ThenComplete(s, q + 1, e, b, ')');
  }

  /** The scanner accepts exactly the strings of the expression, and the
      channels it reports are the decomposition's. */
  lemma ParseSound(s: string)
    requires ParseRgb(s).Some?
    ensures RgbForm(s, ParseRgb(s).value.0, ParseRgb(s).value.1, ParseRgb(s).value.2)
  {
    var p, q, e := ParseScans(s);
    ScansSound(s, ParseRgb(s).value.0, ParseRgb(s).value.1, ParseRgb(s).value.2, p, q, e);
  }

  lemma ParseComplete(s: string, r: string, g: string, b: string)
    requires RgbForm(s, r, g, b)
    ensures ParseRgb(s) == Some((r, g, b))
  {
    var p, q, e := ScansComplete(s, r, g, b);
    ParseFrom(s, r, g, b, p + 1, q + 1, e + 1);
  }

  /** Three channels of digits, each at most 255. */
  predicate InRangeTriple(r: string, g: string, b: string) {
    AllDigits(r) && AllDigits(g) && AllDigits(b) && InRange(r) && InRange(g) && InRange(b)
  }

  lemma ValidHasTriple(s: string)
    requires IsValidRgb(Some(s))
    ensures exists r, g, b | RgbForm(s, r, g, b) :: InRangeTriple(r, g, b)
  {
    ParseSound(s);
    var (r, g, b) := ParseRgb(s).value;
    assert RgbForm(s, r, g, b) && InRangeTriple(r, g, b);
  }

  lemma TripleIsValid(s: string, r: string, g: string, b: string)
    requires RgbForm(s, r, g, b) && InRangeTriple(r, g, b)
    ensures IsValidRgb(Some(s))
  {
    ParseComplete(s, r, g, b);
  }

  /** `isValidRGB` holds exactly for a string of the expression whose three
      channels are at most 255. */
  lemma IsValidRgbIff(s: string)
    ensures IsValidRgb(Some(s)) <==> exists r, g, b | RgbForm(s, r, g, b) :: InRangeTriple(r, g, b)
  {
    if IsValidRgb(Some(s)) {
      ValidHasTriple(s);
    }
    if exists r, g, b | RgbForm(s, r, g, b) :: InRangeTriple(r, g, b) {
      var r, g, b :| RgbForm(s, r, g, b) && InRangeTriple(r, g, b);
      TripleIsValid(s, r, g, b);
    }
  }

  /** A decomposition survives appending text. */
  lemma RgbAtExtends(s: string, rest: string, p: nat, q: nat, e: nat, r: string, g: string, b: string)
    requires RgbAt(s, p, q, e, r, g, b)
    ensures RgbAt(s + rest, p, q, e, r, g, b)
  {
    var t := s + rest;
    assert t[..4] == s[..4];
    assert t[4..p] == s[4..p];
    assert t[p + 1..q] == s[p + 1..q];
    assert t[q + 1..e] == s[q + 1..e];
  }

  /** Text after the closing parenthesis does not matter. */
  lemma TrailingTextIgnored(s: string, rest: string)
    requires ParseRgb(s).Some?
    ensures ParseRgb(s + rest) == ParseRgb(s)
    ensures IsValidRgb(Some(s + rest)) == IsValidRgb(Some(s))
  {
    var (r, g, b) := ParseRgb(s).value;
    ParseSound(s);
    var p: nat, q: nat, e: nat :| RgbAt(s, p, q, e, r, g, b);
    RgbAtExtends(s, rest, p, q, e, r, g, b);
    ParseComplete(s + rest, r, g, b);
  }

  predicate IsChannel(digits: string) {
    AllDigits(digits) && 1 <= |digits| <= 3
  }

  /** Channels written without spaces. */
  function RgbText(r: string, g: string, b: string): string {
    "rgb(" + r + "," + g + "," + b + ")"
  }

  lemma BareChannel(digits: string)
    requires IsChannel(digits)
    ensures ChannelForm(digits, digits)
  {
    assert ChannelAt(digits, 0, |digits|, digits);
  }

  /** Any three channels of one to three digits are read back as written;
      the colour is valid exactly when each is at most 255, whatever
      follows. */
  lemma WrittenTriple(r: string, g: string, b: string, rest: string)
    requires IsChannel(r) && IsChannel(g) && IsChannel(b)
    ensures ParseRgb(RgbText(r, g, b) + rest) == Some((r, g, b))
    ensures IsValidRgb(Some(RgbText(r, g, b) + rest)) <==> InRange(r) && InRange(g) && InRange(b)
  {
    var s := RgbText(r, g, b);
    var p, q, e := 4 + |r|, 5 + |r| + |g|, 6 + |r| + |g| + |b|;
    assert s[..4] == "rgb(";
    assert s[4..p] == r;
    assert s[p + 1..q] == g;
    assert s[q + 1..e] == b;
    BareChannel(r);
    BareChannel(g);
    BareChannel(b);
    assert RgbAt(s, p, q, e, r, g, b);
    ParseComplete(s, r, g, b);
    TrailingTextIgnored(s, rest);
  }

  /** A comma where the parenthesis belongs. */
  function FourText(r: string, g: string, b: string, more: string): string {
    "rgb(" + r + "," + g + "," + b + "," + more
  }

  lemma FourLayout(r: string, g: string, b: string, more: string)
    ensures var s, p, q, e := FourText(r, g, b, more), 4 + |r|, 5 + |r| + |g|, 6 + |r| + |g| + |b|;
      && e < |s| && |s| >= 4 && s[..4] == "rgb("
      && s[4..p] == r && s[p] == ',' && s[p + 1..q] == g && s[q] == ',' && s[q + 1..e] == b && s[e] == ','
  {
  }

  lemma FourFirst(r: string, g: string, b: string, more: string)
    requires IsChannel(r)
    ensures ChannelThen(FourText(r, g, b, more), 4, ',') == Some((r, 5 + |r|))
  {
    var s, p := FourText(r, g, b, more), 4 + |r|;
    FourLayout(r, g, b, more);
    BareChannel(r);
    ThenComplete(s, 4, p, r, ',');
  }

  lemma FourSecond(r: string, g: string, b: string, more: string)
    requires IsChannel(g)
    ensures ChannelThen(FourText(r, g, b, more), 5 + |r|, ',') == Some((g, 6 + |r| + |g|))
  {
    var s, p, q := FourText(r, g, b, more), 4 + |r|, 5 + |r| + |g|;
    FourLayout(r, g, b, more);
    BareChannel(g);
    ThenComplete(s, p + 1, q, g, ',');
  }

  /** The third channel is followed by a comma. */
  lemma FourThird(r: string, g: string, b: string, more: string)
    requires IsChannel(b)
    ensures var s, e := FourText(r, g, b, more), 6 + |r| + |g| + |b|;
      e < |s| && s[e] == ',' && Channel(s, 6 + |r| + |g|) == Some((b, e))
  {
    var s, q, e := FourText(r, g, b, more), 5 + |r| + |g|, 6 + |r| + |g| + |b|;
    FourLayout(r, g, b, more);
    BareChannel(b);
    ChannelComplete(s, q + 1, e, b);
  }

  /** A fourth channel where the parenthesis belongs is refused. */
  lemma FourChannelsRefused(r: string, g: string, b: string, more: string)
    requires IsChannel(r) && IsChannel(g) && IsChannel(b)
    ensures ParseRgb(FourText(r, g, b, more)) == None
    ensures !IsValidRgb(Some(FourText(r, g, b, more)))
  {
    var s := FourText(r, g, b, more);
    FourLayout(r, g, b, more);
    FourFirst(r, g, b, more);
    FourSecond(r, g, b, more);
    FourThird(r, g, b, more);
    ParseUnclosed(s, r, g, b, 5 + |r|, 6 + |r| + |g|, 6 + |r| + |g| + |b|);
  }
}
