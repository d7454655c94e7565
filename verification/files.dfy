/** The file-name helpers of the bundle utilities: dropping hidden names,
    searching a list of names, and deleting the personalization files from
    a bundle. The searches are order-preserving filters. */
module FileNames {
  import Strings
  import opened Values

  // ---- order-preserving filters -----------------------------------------

  /** `xs.filter(keep)`. */
  function Filter<T>(xs: seq<T>, keep: T -> bool): (r: seq<T>)
    ensures |r| <= |xs|
    ensures forall i | 0 <= i < |r| :: keep(r[i]) && r[i] in xs
    ensures forall i | 0 <= i < |xs| && keep(xs[i]) :: xs[i] in r
  {
    if |xs| == 0 then []
    else if keep(xs[0]) then [xs[0]] + Filter(xs[1..], keep)
    else Filter(xs[1..], keep)
  }

  /** Filtering a concatenation filters each part in place: the kept
      elements stay in their original order. */
  lemma {:induction false} FilterAppend<T>(xs: seq<T>, ys: seq<T>, keep: T -> bool)
    ensures Filter(xs + ys, keep) == Filter(xs, keep) + Filter(ys, keep)
  {
    if |xs| > 0 {
      assert (xs + ys)[1..] == xs[1..] + ys;
      FilterAppend(xs[1..], ys, keep);
    } else {
      assert xs + ys == ys;
    }
  }

  /** Filtering twice keeps what filtering once keeps. */
  lemma {:induction false} FilterIdempotent<T>(xs: seq<T>, keep: T -> bool)
    ensures Filter(Filter(xs, keep), keep) == Filter(xs, keep)
  {
    if |xs| > 0 {
      FilterIdempotent(xs[1..], keep);
      if keep(xs[0]) {
        assert ([xs[0]] + Filter(xs[1..], keep))[1..] == Filter(xs[1..], keep);
      }
    }
  }

  /** Nothing is dropped when every element is kept. */
  lemma {:induction false} FilterAll<T>(xs: seq<T>, keep: T -> bool)
    requires forall i | 0 <= i < |xs| :: keep(xs[i])
    ensures Filter(xs, keep) == xs
  {
    if |xs| > 0 {
      FilterAll(xs[1..], keep);
    }
  }

  /** Everything is dropped when no element is kept. */
  lemma {:induction false} FilterNone<T>(xs: seq<T>, keep: T -> bool)
    requires forall i | 0 <= i < |xs| :: !keep(xs[i])
    ensures Filter(xs, keep) == []
  {
    if |xs| > 0 {
      FilterNone(xs[1..], keep);
    }
  }

  /** `xs.some(keep)`: stops at the first element kept. */
  function Some<T>(xs: seq<T>, keep: T -> bool): (found: bool)
    ensures found ==> |xs| > 0
  {
    |xs| > 0 && (keep(xs[0]) || Some(xs[1..], keep))
  }

  /** `some` answers whether `filter` keeps anything. */
  lemma {:induction false} SomeIffFilter<T>(xs: seq<T>, keep: T -> bool)
    ensures Some(xs, keep) <==> Filter(xs, keep) != []
  {
    if |xs| > 0 {
      SomeIffFilter(xs[1..], keep);
    }
  }

  // ---- hidden names ------------------------------------------------------

  /** A name whose first character is a dot. `"".charAt(0)` is the empty
      string, so the empty name is not hidden. */
  predicate IsHidden(name: string) {
    |name| > 0 && name[0] == '.'
  }

  function RemoveHidden(from: seq<string>): (r: seq<string>)
    ensures forall i | 0 <= i < |r| :: !IsHidden(r[i])
    ensures forall name :: name in r <==> name in from && !IsHidden(name)
  {
    Filter(from, name => !IsHidden(name))
  }

  /** Removing hidden names from a list with none changes nothing, and the
      removal works piece by piece. */
  lemma RemoveHiddenLaws(from: seq<string>, more: seq<string>)
    ensures (forall i | 0 <= i < |from| :: !IsHidden(from[i])) ==> RemoveHidden(from) == from
    ensures RemoveHidden(from + more) == RemoveHidden(from) + RemoveHidden(more)
    ensures RemoveHidden(RemoveHidden(from)) == RemoveHidden(from)
  {
    var keep := (name: string) => !IsHidden(name);
    if forall i | 0 <= i < |from| :: !IsHidden(from[i]) {
      FilterAll(from, keep);
    }
    FilterAppend(from, more, keep);
    FilterIdempotent(from, keep);
  }

  // ---- searching names ---------------------------------------------------

  /** The three `String.prototype` methods a search may use. */
  datatype SearchMode = Includes | StartsWith | EndsWith

  /** The file, lower-cased when asked, compared with `name` as given.
      `(force && file.toLowerCase()) || file` falls back to `file` only when
      the lower-cased name is empty, that is when `file` is empty too. */
  predicate FileMatches(file: string, name: string, mode: SearchMode, forceLowerCase: bool) {
    var subject := if forceLowerCase then Strings.ToLowerAscii(file) else file;
    match mode
    case Includes => Strings.Contains(subject, name)
    case StartsWith => Strings.StartsWith(subject, name)
    case EndsWith => Strings.EndsWith(subject, name)
  }

  function GetAllFilesWithName(name: string, source: seq<string>, mode: SearchMode := Includes,
                               forceLowerCase: bool := false): (r: seq<string>)
    ensures forall file :: file in r <==> file in source && FileMatches(file, name, mode, forceLowerCase)
  {
    Filter(source, file => FileMatches(file, name, mode, forceLowerCase))
  }

  function HasFilesWithName(name: string, source: seq<string>, mode: SearchMode := Includes,
                            forceLowerCase: bool := false): bool
  {
    Some(source, file => FileMatches(file, name, mode, forceLowerCase))
  }

  /** `hasFilesWithName` is true exactly when `getAllFilesWithName` finds
      something, with the same defaults. */
  lemma HasFilesIff(name: string, source: seq<string>, mode: SearchMode, forceLowerCase: bool)
    ensures HasFilesWithName(name, source, mode, forceLowerCase) <==>
      GetAllFilesWithName(name, source, mode, forceLowerCase) != []
    ensures HasFilesWithName(name, source) <==> GetAllFilesWithName(name, source) != []
  {
    SomeIffFilter(source, file => FileMatches(file, name, mode, forceLowerCase));
    SomeIffFilter(source, file => FileMatches(file, name, Includes, false));
  }

  /** The defaults search anywhere in the name, case as given. */
  lemma SearchDefaults(name: string, source: seq<string>)
    ensures forall file :: file in GetAllFilesWithName(name, source) <==> file in source && Strings.Contains(file, name)
  {
  }

  predicate HasUpper(s: string) {
    exists i | 0 <= i < |s| :: 'A' <= s[i] <= 'Z'
  }

  /** A substring, prefix or suffix of a string without upper-case letters
      has none either. */
  lemma MatchKeepsLower(subject: string, name: string, mode: SearchMode)
    requires !HasUpper(subject)
    requires match mode
      case Includes => Strings.Contains(subject, name)
      case StartsWith => Strings.StartsWith(subject, name)
      case EndsWith => Strings.EndsWith(subject, name)
    ensures !HasUpper(name)
  {
    var at: nat :| match mode
      case Includes => at <= |subject| && Strings.StartsWith(subject[at..], name)
      case StartsWith => at == 0 && Strings.StartsWith(subject, name)
      case EndsWith => at == |subject| - |name| && subject[at..] == name;
    forall i | 0 <= i < |name| ensures !('A' <= name[i] <= 'Z') {
      assert name[i] == subject[at + i];
    }
  }

  /** Only the file is lower-cased, never the name searched for: a name
      with an upper-case letter finds nothing in the lower-cased search. */
  lemma UpperNameFindsNothing(name: string, source: seq<string>, mode: SearchMode)
    requires HasUpper(name)
    ensures GetAllFilesWithName(name, source, mode, true) == []
  {
    forall i | 0 <= i < |source| ensures !FileMatches(source[i], name, mode, true) {
      var lower := Strings.ToLowerAscii(source[i]);
      assert !HasUpper(lower);
      if FileMatches(source[i], name, mode, true) {
        MatchKeepsLower(lower, name, mode);
      }
    }
    FilterNone(source, file => FileMatches(file, name, mode, true));
  }

  // ---- deleting the personalization files -------------------------------

  /** The file that describes a personalization request. */
  const PersonalizationFile: string := "personalization.json"

  /** `delete source[file]` for each file in turn. */
  function DeleteEach(source: map<string, Bytes>, files: seq<string>): (r: map<string, Bytes>)
    ensures r.Keys == source.Keys - set i | 0 <= i < |files| :: files[i]
    ensures forall k | k in r :: r[k] == source[k]
  {
    if |files| == 0 then source
    else
      var rest := DeleteEach(source - {files[0]}, files[1..]);
      assert (set i | 0 <= i < |files| :: files[i]) == {files[0]} + set i | 0 <= i < |files[1..]| :: files[1..][i];
      rest
  }

  /** `deletePersonalization`: the logos and the personalization file go,
      every other entry stays as it was. */
  function DeletePersonalization(source: map<string, Bytes>, logosNames: seq<string> := []): (r: map<string, Bytes>)
    ensures PersonalizationFile !in r
    ensures forall i | 0 <= i < |logosNames| :: logosNames[i] !in r
    ensures forall k | k in source && k != PersonalizationFile && k !in logosNames :: k in r && r[k] == source[k]
    ensures r.Keys <= source.Keys
  {
    var files := logosNames + [PersonalizationFile];
    assert forall i | 0 <= i < |logosNames| :: files[i] == logosNames[i];
    assert files[|logosNames|] == PersonalizationFile;
    DeleteEach(source, files)
  }

  /** Deleting twice deletes nothing more, and names the bundle does not
      hold leave it untouched. */
  lemma {:induction false} DeletePersonalizationLaws(source: map<string, Bytes>, logosNames: seq<string>)
    ensures DeletePersonalization(DeletePersonalization(source, logosNames), logosNames) == DeletePersonalization(source, logosNames)
    ensures (PersonalizationFile !in source && forall i | 0 <= i < |logosNames| :: logosNames[i] !in source) ==>
      DeletePersonalization(source, logosNames) == source
  {
    var once := DeletePersonalization(source, logosNames);
    var twice := DeletePersonalization(once, logosNames);
    assert twice.Keys == once.Keys;
    if PersonalizationFile !in source && forall i | 0 <= i < |logosNames| :: logosNames[i] !in source {
      assert once.Keys == source.Keys;
    }
  }
}
