/** `splitBufferBundle`: a bundle of named buffers is partitioned into
    localized files, grouped by language, and the root files. The entries
    come in the order `Object.entries` lists them; the path separator of
    the host is a parameter. */
module Bundles {
  import opened Wrappers
  import opened Strings
  import opened Values

  type Entries = seq<(string, Bytes)>

  /** What marks a path as localized, anywhere in it. */
  const LprojMarker: string := ".lproj"

  /** The two halves of the result: files by language, and root files. */
  datatype Partition = Partition(l10n: map<string, map<string, Bytes>>, bundle: map<string, Bytes>)

  const EmptyPartition: Partition := Partition(map[], map[])

  /** Where a key ends up. */
  datatype Route = Root(key: string) | Localized(lang: string, file: string)

  /** The language is the first separator-delimited component, `.lproj`
      suffix included. */
  function Lang(key: string, sep: char): string {
    Split(key, sep)[0]
  }

  /** The file is the remaining components joined by `/`. */
  function FileOf(key: string, sep: char): string {
    Join(Split(key, sep)[1..], "/")
  }

  function RouteOf(key: string, sep: char): Route {
    if Contains(key, LprojMarker) then Localized(Lang(key, sep), FileOf(key, sep)) else Root(key)
  }

  // ---- the reduction -----------------------------------------------------------

  /** One step of the reduction: a root file is added to the bundle, a
      localized file to its language's table, created when missing. */
  function Place(acc: Partition, key: string, buffer: Bytes, sep: char): Partition {
    if !Contains(key, LprojMarker) then acc.(bundle := acc.bundle[key := buffer])
    else
      var lang, file := Lang(key, sep), FileOf(key, sep);
      var files := if lang in acc.l10n then acc.l10n[lang] else map[];
      acc.(l10n := acc.l10n[lang := files[file := buffer]])
  }

  /** The partition is well shaped: no language table is empty and no
      root key is localized. */
  predicate Shaped(p: Partition) {
    && (forall lang | lang in p.l10n :: p.l10n[lang] != map[])
    && (forall key | key in p.bundle :: !Contains(key, LprojMarker))
  }

  /** A step keeps the partition well shaped. */
  lemma PlaceShaped(acc: Partition, key: string, buffer: Bytes, sep: char)
    requires Shaped(acc)
    ensures Shaped(Place(acc, key, buffer, sep))
  {
    if Contains(key, LprojMarker) {
      var lang, file := Lang(key, sep), FileOf(key, sep);
      var files := if lang in acc.l10n then acc.l10n[lang] else map[];
      assert file in files[file := buffer];
    }
  }

  /** The reduction over the entries, left to right. */
  function SplitEntries(entries: Entries, sep: char): (p: Partition)
    ensures Shaped(p)
  {
    if |entries| == 0 then EmptyPartition
    else
      var last := entries[|entries| - 1];
      var acc := SplitEntries(entries[..|entries| - 1], sep);
      PlaceShaped(acc, last.0, last.1, sep);
      Place(acc, last.0, last.1, sep)
  }

  /** `splitBufferBundle(origin)`: a missing bundle gives two empty halves. */
  function SplitBufferBundle(origin: Option<Entries>, sep: char): (p: Partition)
    ensures origin.None? ==> p == EmptyPartition
    ensures Shaped(p)
  {
    match origin
    case None => EmptyPartition
    case Some(entries) => SplitEntries(entries, sep)
  }

  // ---- the result, route by route ------------------------------------------------

  /** The buffer the partition holds at a route. */
  function Lookup(p: Partition, r: Route): Option<Bytes> {
    match r
    case Root(key) => if key in p.bundle then Some(p.bundle[key]) else None
    case Localized(lang, file) =>
      if lang in p.l10n && file in p.l10n[lang] then Some(p.l10n[lang][file]) else None
  }

  /** The buffer of the last entry routed to `r`. */
  function LastAt(entries: Entries, r: Route, sep: char): Option<Bytes> {
    if |entries| == 0 then None
    else if RouteOf(entries[|entries| - 1].0, sep) == r then Some(entries[|entries| - 1].1)
    else LastAt(entries[..|entries| - 1], r, sep)
  }

  lemma PlaceLookup(acc: Partition, key: string, buffer: Bytes, sep: char, r: Route)
    ensures Lookup(Place(acc, key, buffer, sep), r) == if RouteOf(key, sep) == r then Some(buffer) else Lookup(acc, r)
  {
  }

  /** Every route holds the buffer of the last entry routed there, and
      nothing else is in the result. */
  lemma {:induction false} SplitLookup(entries: Entries, sep: char, r: Route)
    ensures Lookup(SplitEntries(entries, sep), r) == LastAt(entries, r, sep)
  {
    if |entries| > 0 {
      var last := entries[|entries| - 1];
      SplitLookup(entries[..|entries| - 1], sep, r);
      PlaceLookup(SplitEntries(entries[..|entries| - 1], sep), last.0, last.1, sep, r);
    }
  }

  /** What a route holds comes from an entry routed there. */
  lemma {:induction false} LastAtFrom(entries: Entries, r: Route, sep: char)
    requires LastAt(entries, r, sep).Some?
    ensures exists i | 0 <= i < |entries| :: RouteOf(entries[i].0, sep) == r && entries[i].1 == LastAt(entries, r, sep).value
  {
    var n := |entries| - 1;
    if RouteOf(entries[n].0, sep) != r {
      LastAtFrom(entries[..n], r, sep);
      var i :| 0 <= i < n && RouteOf(entries[..n][i].0, sep) == r && entries[..n][i].1 == LastAt(entries[..n], r, sep).value;
      assert entries[i] == entries[..n][i];
    }
  }

  /** The only entry routed to `r` is the one the route holds. */
  lemma {:induction false} LastAtOnly(entries: Entries, r: Route, sep: char, i: nat)
    requires i < |entries| && RouteOf(entries[i].0, sep) == r
    requires forall j | 0 <= j < |entries| && j != i :: RouteOf(entries[j].0, sep) != r
    ensures LastAt(entries, r, sep) == Some(entries[i].1)
  {
    var n := |entries| - 1;
    if i < n {
      forall j | 0 <= j < n && j != i ensures RouteOf(entries[..n][j].0, sep) != r {
        assert entries[..n][j] == entries[j];
      }
      LastAtOnly(entries[..n], r, sep, i);
      assert entries[..n][i] == entries[i];
    }
  }

  // ---- routing ---------------------------------------------------------------------

  /** Keys of a JavaScript object are distinct. */
  predicate DistinctKeys(entries: Entries) {
    forall i, j | 0 <= i < j < |entries| :: entries[i].0 != entries[j].0
  }

  /** A key without `.lproj` lands in the root half with its buffer, and
      the localized half takes nothing from it. */
  lemma {:induction false} RootEntryKept(entries: Entries, sep: char, i: nat)
    requires DistinctKeys(entries) && i < |entries| && !Contains(entries[i].0, LprojMarker)
    ensures var p := SplitEntries(entries, sep);
      entries[i].0 in p.bundle && p.bundle[entries[i].0] == entries[i].1
  {
    var r := Root(entries[i].0);
    LastAtOnly(entries, r, sep, i);
    SplitLookup(entries, sep, r);
  }

  /** The localized half holds only files of keys containing `.lproj`,
      each under the key's own language and file name. */
  lemma {:induction false} LocalizedFrom(entries: Entries, sep: char, lang: string, file: string)
    requires var p := SplitEntries(entries, sep); lang in p.l10n && file in p.l10n[lang]
    ensures exists i | 0 <= i < |entries| ::
      && Contains(entries[i].0, LprojMarker)
      && Lang(entries[i].0, sep) == lang && FileOf(entries[i].0, sep) == file
      && entries[i].1 == SplitEntries(entries, sep).l10n[lang][file]
  {
    SplitLookup(entries, sep, Localized(lang, file));
    LastAtFrom(entries, Localized(lang, file), sep);
  }

  /** The root half holds only keys of the input, with their buffers. */
  lemma {:induction false} RootFrom(entries: Entries, sep: char, key: string)
    requires key in SplitEntries(entries, sep).bundle
    ensures exists i | 0 <= i < |entries| ::
      entries[i].0 == key && !Contains(key, LprojMarker) && entries[i].1 == SplitEntries(entries, sep).bundle[key]
  {
    SplitLookup(entries, sep, Root(key));
    LastAtFrom(entries, Root(key), sep);
  }

  /** Without a separator the whole key is the language and the file name
      is empty. */
  lemma NoSeparatorRoute(key: string, sep: char)
    requires sep !in key
    ensures Lang(key, sep) == key && FileOf(key, sep) == ""
  {
  }

  /** With `/` as separator, a localized key is its language, a `/` and
      its file. */
  lemma SlashRoute(key: string)
    requires '/' in key
    ensures Lang(key, '/') + "/" + FileOf(key, '/') == key
  {
    var parts := Split(key, '/');
    SplitHead(key, '/');
    JoinSplit(key, '/');
    assert |parts[1..]| >= 1;
    assert parts == [parts[0]] + parts[1..];
    JoinCons(parts[0], parts[1..], "/");
  }

  /** With `/` as separator two keys share a route only when one is a
      language name and the other the same name with a trailing `/`. */
  lemma SlashCollision(k1: string, k2: string)
    requires k1 != k2 && RouteOf(k1, '/') == RouteOf(k2, '/')
    ensures FileOf(k1, '/') == "" && Lang(k1, '/') == Lang(k2, '/')
    ensures k2 == k1 + "/" || k1 == k2 + "/"
  {
    var lang, file := Lang(k1, '/'), FileOf(k1, '/');
    if '/' in k1 { SlashRoute(k1); }
    if '/' in k2 { SlashRoute(k2); }
  }

  /** When no two entries share a route, every entry is found at its
      route: nothing is lost. */
  lemma {:induction false} Lossless(entries: Entries, sep: char, i: nat)
    requires forall a, b | 0 <= a < b < |entries| :: RouteOf(entries[a].0, sep) != RouteOf(entries[b].0, sep)
    requires i < |entries|
    ensures Lookup(SplitEntries(entries, sep), RouteOf(entries[i].0, sep)) == Some(entries[i].1)
  {
    var r := RouteOf(entries[i].0, sep);
    LastAtOnly(entries, r, sep, i);
    SplitLookup(entries, sep, r);
  }

  lemma {:induction false} IndexOfAppended(s: string, c: char)
    requires c !in s
    ensures IndexOf(s + [c], c) == |s|
  {
    if |s| > 0 {
      assert (s + [c])[1..] == s[1..] + [c];
      IndexOfAppended(s[1..], c);
    }
  }

  /** A language name and the same name with a trailing `/` are distinct
      keys with one route. */
  lemma TrailingSlashRoute(lang: string)
    requires Contains(lang, LprojMarker) && '/' !in lang
    ensures RouteOf(lang, '/') == Localized(lang, "")
    ensures RouteOf(lang + "/", '/') == Localized(lang, "")
  {
    var key := lang + "/";
    IndexOfAppended(lang, '/');
    SplitHead(key, '/');
    assert key[..|lang|] == lang;
    assert key[|lang| + 1..] == "";
    assert Split(key, '/') == [lang, ""];
    var i :| 0 <= i <= |lang| && StartsWith(lang[i..], LprojMarker);
    assert key[i..][..|LprojMarker|] == lang[i..][..|LprojMarker|];
    ContainsAt(key, LprojMarker, i);
  }

  /** For such a pair the later buffer overwrites the earlier one: the
      localized half holds one file where the input had two. */
  lemma CollisionOverwrites(lang: string, first: Bytes, second: Bytes)
    requires Contains(lang, LprojMarker) && '/' !in lang
    ensures var p := SplitEntries([(lang, first), (lang + "/", second)], '/');
      p.l10n == map[lang := map["" := second]] && p.bundle == map[]
  {
    var entries := [(lang, first), (lang + "/", second)];
    TrailingSlashRoute(lang);
    assert entries[..1] == [(lang, first)];
    assert [(lang, first)][..0] == [];
    var p1 := Partition(map[lang := map["" := first]], map[]);
    assert SplitEntries(entries[..1], '/') == Place(EmptyPartition, lang, first, '/') == p1;
    assert SplitEntries(entries, '/') == Place(p1, lang + "/", second, '/');
    assert map["" := first]["" := second] == map["" := second];
    assert p1.l10n[lang := map["" := second]] == map[lang := map["" := second]];
  }
}
