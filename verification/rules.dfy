/** The constraint language the schema catalogue is written in, and the one
    checker that evaluates it. A `Rule` is what one key of a descriptor
    declares: a type, bounds, a pattern, requiredness, a default, and for
    objects the keys they declare and the conditions between siblings.

    `Validate(rule, v, strip)` returns the validated value or `None`. With
    `strip` false it is the check behind `isValid` (undeclared keys are an
    error); with `strip` true it is the check behind `getValidated`
    (undeclared keys are silently dropped). Defaults are filled in either
    way. */
module Rules {
  import opened Wrappers
  import opened Strings
  import opened Values

  /** What a string must look like beyond its length. Both patterns are
      unanchored regular expressions in the catalogue, so they hold when a
      match occurs anywhere in the string. */
  datatype Pattern =
    | AnyText
    | OneOfContained(literals: seq<string>)
    | WebUrl

  datatype Lower = NoMin | AtLeast(min: real) | Above(bound: real)
  datatype Upper = NoMax | AtMost(max: real)

  datatype Presence = Optional | Required | Defaulted(fallback: Value)

  /** Conditions between sibling keys of one object. */
  datatype Cross =
    | With(key: string, peer: string)                  // key present => peer present
    | OnlyWithNumber(key: string, sibling: string)     // key present => sibling passes Joi.number()
    | Greater(key: string, than: string)               // both present => key > than

  datatype Rule =
    | StringOf(allowEmpty: bool, minLength: nat, maxLength: Option<nat>, pattern: Pattern)
    | NumberOf(integer: bool, lower: Lower, upper: Upper)
    | BooleanValue
    | DateValue
    | BinaryValue
    | LiteralOf(allowed: set<string>)
    | AnyArray
    | ArrayOf(item: Rule)
    | AnyObject
    | ObjectOf(props: map<string, Prop>, cross: seq<Cross>)
    | Either(first: Rule, second: Rule)

  datatype Prop = Prop(rule: Rule, presence: Presence)

  predicate IsUrlChar(c: char) {
    'a' <= c <= 'z' || '0' <= c <= '9'
  }

  /** `https?://` immediately followed by one of `[a-z0-9]`. */
  predicate UrlAt(t: string) {
    || (StartsWith(t, "http://") && |t| > 7 && IsUrlChar(t[7]))
    || (StartsWith(t, "https://") && |t| > 8 && IsUrlChar(t[8]))
  }

  /** The unanchored `webServiceURL` expression finds a match: every part
      after the host's first character is optional, so a match exists
      exactly when some position starts a scheme and a host character. */
  predicate HasWebUrl(s: string) {
    exists i | 0 <= i <= |s| :: UrlAt(s[i..])
  }

  predicate Matches(p: Pattern, s: string) {
    match p
    case AnyText => true
    case OneOfContained(literals) => exists i | 0 <= i < |literals| :: Contains(s, literals[i])
    case WebUrl => HasWebUrl(s)
  }

  /** The empty string is decided by `allowEmpty` alone, as an allowed
      value short-circuits every other string rule. Lengths are JavaScript
      lengths, counted in UTF-16 code units. */
  predicate StringFits(rule: Rule, s: string)
    requires rule.StringOf?
  {
    if s == "" then rule.allowEmpty
    else
      && (rule.minLength > 0 ==> rule.minLength <= Utf16Length(s))
      && (rule.maxLength.Some? ==> Utf16Length(s) <= rule.maxLength.value)
      && Matches(rule.pattern, s)
  }

  predicate NumberFits(rule: Rule, x: real)
    requires rule.NumberOf?
  {
    && IsSafeNumber(x)
    && (rule.integer ==> IsInteger(x))
    && (match rule.lower
        case NoMin => true
        case AtLeast(m) => m <= x
        case Above(b) => b < x)
    && (match rule.upper
        case NoMax => true
        case AtMost(m) => x <= m)
  }

  predicate CrossOk(c: Cross, o: map<string, Value>) {
    match c
    case With(key, peer) => key in o ==> peer in o
    case OnlyWithNumber(key, sibling) => key in o ==> sibling in o && o[sibling].Num? && IsSafeNumber(o[sibling].n)
    case Greater(key, than) =>
      key in o && than in o ==> o[key].Num? && o[than].Num? && o[key].n > o[than].n
  }

  predicate CrossHolds(cross: seq<Cross>, o: map<string, Value>) {
    forall i | 0 <= i < |cross| :: CrossOk(cross[i], o)
  }

  lemma SingleCross(c: Cross, o: map<string, Value>)
    ensures CrossHolds([c], o) <==> CrossOk(c, o)
  {
    if CrossOk(c, o) {
      forall i | 0 <= i < |[c]| ensures CrossOk([c][i], o) { }
    } else {
      assert [c][0] == c;
    }
  }

  /** The kinds of value a rule can accept. */
  function Kinds(rule: Rule): set<Kind> {
    match rule
    case StringOf(_, _, _, _) => {StrKind}
    case NumberOf(_, _, _) => {NumKind}
    case BooleanValue => {BoolKind}
    case DateValue => {DateKind}
    case BinaryValue => {BufferKind}
    case LiteralOf(_) => {StrKind}
    case AnyArray => {ArrKind}
    case ArrayOf(_) => {ArrKind}
    case AnyObject => {ObjKind, DateKind, BufferKind}
    case ObjectOf(props, _) => if AllOptional(props) then {ObjKind, DateKind, BufferKind} else {ObjKind}
    case Either(a, b) => Kinds(a) + Kinds(b)
  }

  /** A descriptor none of whose keys is required or defaulted. */
  predicate AllOptional(props: map<string, Prop>) {
    forall k | k in props :: props[k].presence.Optional?
  }

  /** `Joi.object()` asks only for a non-null, non-array JavaScript object,
      so a `Date` or a `Buffer` passes it unchanged. A key descriptor
      validates a copy with the same prototype and the same own keys: a
      `Date` has none, and a `Buffer` has one per byte index, which no
      descriptor declares, so each is an unknown key, dropped from the copy
      when stripping. This is what such a descriptor makes of them when it
      requires and fills in nothing. */
  function KeylessObject(v: Value, strip: bool): (r: Option<Value>)
    ensures r.Some? ==> KindOf(r.value) == KindOf(v) && (v.Date? || v.Buffer?)
    ensures r.Some? <==> v.Date? || (v.Buffer? && (strip || v.data == []))
  {
    match v
    case Date(_) => Some(v)
    case Buffer(data) => if strip then Some(Buffer([])) else if data == [] then Some(v) else None
    case _ => None
  }

  lemma MergeAllOptional(a: map<string, Prop>, b: map<string, Prop>)
    requires AllOptional(a) && AllOptional(b)
    ensures AllOptional(a + b)
  {
  }

  /** A descriptor with a required key accepts plain objects only. */
  lemma RequiredKeyNeedsObject(rule: Rule, k: string, v: Value, strip: bool)
    requires rule.ObjectOf? && k in rule.props && rule.props[k].presence.Required?
    requires !v.Obj?
    ensures Validate(rule, v, strip).None?
  {
  }

  /** Values filled in for declared keys the input leaves out. */
  function Defaults(props: map<string, Prop>, given: map<string, Value>): (d: map<string, Value>)
    ensures d.Keys !! given.Keys
  {
    map k | k in props && props[k].presence.Defaulted? && k !in given :: props[k].presence.fallback
  }

  /** Rules that look at one value without recursing into it. */
  predicate IsLeaf(rule: Rule) {
    !(rule.ArrayOf? || rule.ObjectOf? || rule.Either?)
  }

  predicate LeafAdmits(rule: Rule, v: Value)
    requires IsLeaf(rule)
  {
    match rule
    case StringOf(_, _, _, _) => v.Str? && StringFits(rule, v.s)
    case NumberOf(_, _, _) => v.Num? && NumberFits(rule, v.n)
    case BooleanValue => v.Bool?
    case DateValue => v.Date?
    case BinaryValue => v.Buffer?
    case LiteralOf(allowed) => v.Str? && v.s in allowed
    case AnyArray => v.Arr?
    case AnyObject => v.Obj? || v.Date? || v.Buffer?
  }

  /** Validation never changes the JavaScript type of a value and accepts
      only the kinds its rule names; a validated object carries only the
      keys its descriptor declares. A `Date` or a `Buffer` passes a key
      descriptor as itself, and only one that requires and fills in nothing. */
  function Validate(rule: Rule, v: Value, strip: bool): (r: Option<Value>)
    ensures r.Some? ==> KindOf(r.value) == KindOf(v) && KindOf(v) in Kinds(rule)
    ensures r.Some? && v.Num? ==> r.value == v
    ensures r.Some? && rule.ObjectOf? && v.Obj? ==> r.value.props.Keys <= rule.props.Keys
    ensures rule.ObjectOf? && !v.Obj? ==> r == if AllOptional(rule.props) then KeylessObject(v, strip) else None
    decreases rule, 1
  {
    match rule
    case ArrayOf(_) => if v.Arr? then ValidateItems(rule, v.items, strip) else None
    case ObjectOf(props, _) =>
      if v.Obj? then ValidateProps(rule, v.props, strip)
      else if AllOptional(props) then KeylessObject(v, strip)
      else None
    case Either(first, second) =>
      var a := Validate(first, v, strip);
      if a.Some? then a else Validate(second, v, strip)
    case _ => if LeafAdmits(rule, v) then Some(v) else None
  }

  /** Every element must pass the item rule; the result holds the validated
      elements in their original order. */
  function ValidateItems(rule: Rule, items: seq<Value>, strip: bool): (r: Option<Value>)
    requires rule.ArrayOf?
    ensures r.Some? ==> r.value.Arr? && |r.value.items| == |items|
    decreases rule, 0
  {
    if forall i | 0 <= i < |items| :: Validate(rule.item, items[i], strip).Some?
    then Some(Arr(seq(|items|, i requires 0 <= i < |items| => Validate(rule.item, items[i], strip).value)))
    else None
  }

  /** Required keys must be present, present declared keys must pass their
      rules, undeclared keys are an error unless stripping; the result holds
      the validated declared keys plus defaults, and must then satisfy the
      sibling conditions. */
  function ValidateProps(rule: Rule, o: map<string, Value>, strip: bool): (r: Option<Value>)
    requires rule.ObjectOf?
    ensures r.Some? ==> r.value.Obj? && r.value.props.Keys <= rule.props.Keys
    decreases rule, 0
  {
    var props := rule.props;
    if && (strip || o.Keys <= props.Keys)
       && (forall k | k in props && props[k].presence.Required? :: k in o)
       && (forall k | k in o && k in props :: Validate(props[k].rule, o[k], strip).Some?)
    then
      var out := Defaults(props, o) +
        map k | k in o && k in props :: Validate(props[k].rule, o[k], strip).value;
      if CrossHolds(rule.cross, out) then Some(Obj(out)) else None
    else None
  }

  /** The strict check: what `isValid` answers. */
  predicate Conforms(rule: Rule, v: Value) {
    Validate(rule, v, false).Some?
  }

  /** A descriptor whose alternatives accept disjoint kinds of value (so the
      order in which they are tried never matters) and whose defaults are
      themselves valid. */
  predicate WellFormed(rule: Rule)
    decreases rule
  {
    match rule
    case ArrayOf(item) => WellFormed(item)
    case ObjectOf(props, _) =>
      forall k | k in props ::
        && WellFormed(props[k].rule)
        && (props[k].presence.Defaulted? ==>
              Validate(props[k].rule, props[k].presence.fallback, false) == Some(props[k].presence.fallback))
    case Either(a, b) => WellFormed(a) && WellFormed(b) && Kinds(a) !! Kinds(b)
    case _ => true
  }

  /** A descriptor with no default anywhere inside it. */
  predicate NoDefaults(rule: Rule)
    decreases rule
  {
    match rule
    case ArrayOf(item) => NoDefaults(item)
    case ObjectOf(props, _) =>
      forall k | k in props :: !props[k].presence.Defaulted? && NoDefaults(props[k].rule)
    case Either(a, b) => NoDefaults(a) && NoDefaults(b)
    case _ => true
  }

  /** The object case of `WellFormed`, for a property table on its own. */
  predicate PropsWellFormed(props: map<string, Prop>) {
    forall k | k in props ::
      && WellFormed(props[k].rule)
      && (props[k].presence.Defaulted? ==>
            Validate(props[k].rule, props[k].presence.fallback, false) == Some(props[k].presence.fallback))
  }

  lemma ObjectWellFormed(props: map<string, Prop>, cross: seq<Cross>)
    requires PropsWellFormed(props)
    ensures WellFormed(ObjectOf(props, cross))
  {
  }

  /** Joining two well-formed property tables gives a well-formed table. */
  lemma MergeWellFormed(a: map<string, Prop>, b: map<string, Prop>)
    requires PropsWellFormed(a) && PropsWellFormed(b)
    ensures PropsWellFormed(a + b)
  {
  }

  // ---- unfolding the checker ------------------------------------------

  /** The key-level conditions of an object check. */
  predicate KeysAccepted(rule: Rule, o: map<string, Value>, strip: bool)
    requires rule.ObjectOf?
  {
    && (strip || o.Keys <= rule.props.Keys)
    && (forall k | k in rule.props && rule.props[k].presence.Required? :: k in o)
    && (forall k | k in o && k in rule.props :: Validate(rule.props[k].rule, o[k], strip).Some?)
  }

  /** The object an accepted check assembles: validated declared keys plus
      defaults for the declared keys left out. */
  function Assembled(rule: Rule, o: map<string, Value>, strip: bool): map<string, Value>
    requires rule.ObjectOf? && KeysAccepted(rule, o, strip)
  {
    Defaults(rule.props, o) +
      map k | k in o && k in rule.props :: Validate(rule.props[k].rule, o[k], strip).value
  }

  lemma PropsUnfold(rule: Rule, o: map<string, Value>, strip: bool)
    requires rule.ObjectOf?
    ensures ValidateProps(rule, o, strip) ==
      if KeysAccepted(rule, o, strip) && CrossHolds(rule.cross, Assembled(rule, o, strip))
      then Some(Obj(Assembled(rule, o, strip))) else None
  {
  }

  function ValidatedItems(item: Rule, items: seq<Value>, strip: bool): seq<Value>
    requires forall i | 0 <= i < |items| :: Validate(item, items[i], strip).Some?
  {
    seq(|items|, i requires 0 <= i < |items| => Validate(item, items[i], strip).value)
  }

  lemma ItemsUnfold(rule: Rule, items: seq<Value>, strip: bool)
    requires rule.ArrayOf?
    ensures ValidateItems(rule, items, strip) ==
      if forall i | 0 <= i < |items| :: Validate(rule.item, items[i], strip).Some?
      then Some(Arr(ValidatedItems(rule.item, items, strip))) else None
  {
  }

  // ---- strict and stripping checks agree on what both accept -----------

  /** Whatever passes the strict check passes the stripping check with the
      same result: `getValidated` never rejects what `isValid` accepts. */
  lemma {:induction false} StrictThenStrip(rule: Rule, v: Value)
    requires WellFormed(rule)
    requires Validate(rule, v, false).Some?
    ensures Validate(rule, v, true) == Validate(rule, v, false)
    decreases rule
  {
    match rule
    case ArrayOf(item) =>
      forall i | 0 <= i < |v.items|
        ensures Validate(item, v.items[i], true) == Validate(item, v.items[i], false)
      {
        StrictThenStrip(item, v.items[i]);
      }
      ItemsAgree(rule, v.items);
    case ObjectOf(props, cross) =>
      if v.Obj? {
        forall k | k in v.props && k in props
          ensures Validate(props[k].rule, v.props[k], true) == Validate(props[k].rule, v.props[k], false)
        {
          StrictThenStrip(props[k].rule, v.props[k]);
        }
        PropsAgree(rule, v.props);
      }
    case Either(a, b) =>
      if Validate(a, v, false).Some? {
        StrictThenStrip(a, v);
      } else {
        StrictThenStrip(b, v);
        assert KindOf(v) in Kinds(b);
        assert KindOf(v) !in Kinds(a);
      }
    case _ =>
  }

  lemma ItemsAgree(rule: Rule, items: seq<Value>)
    requires rule.ArrayOf?
    requires ValidateItems(rule, items, false).Some?
    requires forall i | 0 <= i < |items| :: Validate(rule.item, items[i], true) == Validate(rule.item, items[i], false)
    ensures ValidateItems(rule, items, true) == ValidateItems(rule, items, false)
  {
    ItemsUnfold(rule, items, false);
    ItemsUnfold(rule, items, true);
    assert ValidatedItems(rule.item, items, true) == ValidatedItems(rule.item, items, false);
  }

  lemma PropsAgree(rule: Rule, o: map<string, Value>)
    requires rule.ObjectOf?
    requires ValidateProps(rule, o, false).Some?
    requires forall k | k in o && k in rule.props ::
      Validate(rule.props[k].rule, o[k], true) == Validate(rule.props[k].rule, o[k], false)
    ensures ValidateProps(rule, o, true) == ValidateProps(rule, o, false)
  {
    PropsUnfold(rule, o, false);
    PropsUnfold(rule, o, true);
    assert KeysAccepted(rule, o, true);
    assert Assembled(rule, o, true) == Assembled(rule, o, false);
  }

  // ---- what the stripping check returns is a fixpoint ----------------------

  /** What the stripping check returns passes the strict check unchanged:
      it has no undeclared keys left, every default is in place and every
      condition still holds. */
  lemma {:induction false} StripFixpoint(rule: Rule, v: Value)
    requires WellFormed(rule)
    requires Validate(rule, v, true).Some?
    ensures Validate(rule, Validate(rule, v, true).value, false) == Validate(rule, v, true)
    decreases rule
  {
    match rule
    case ArrayOf(item) =>
      forall i | 0 <= i < |v.items| && Validate(item, v.items[i], true).Some?
        ensures Validate(item, Validate(item, v.items[i], true).value, false) == Validate(item, v.items[i], true)
      {
        StripFixpoint(item, v.items[i]);
      }
      ItemsFixpoint(rule, v.items);
    case ObjectOf(props, cross) =>
      if v.Obj? {
        forall k | k in v.props && k in props && Validate(props[k].rule, v.props[k], true).Some?
          ensures Validate(props[k].rule, Validate(props[k].rule, v.props[k], true).value, false)
               == Validate(props[k].rule, v.props[k], true)
        {
          StripFixpoint(props[k].rule, v.props[k]);
        }
        PropsFixpoint(rule, v.props);
      }
    case Either(a, b) =>
      if Validate(a, v, true).Some? {
        StripFixpoint(a, v);
      } else {
        StripFixpoint(b, v);
        var w := Validate(rule, v, true).value;
        assert KindOf(w) in Kinds(b);
        assert Validate(a, w, false).None?;
      }
    case _ =>
  }

  lemma ItemsFixpoint(rule: Rule, items: seq<Value>)
    requires rule.ArrayOf?
    requires ValidateItems(rule, items, true).Some?
    requires forall i | 0 <= i < |items| && Validate(rule.item, items[i], true).Some? ::
      Validate(rule.item, Validate(rule.item, items[i], true).value, false) == Validate(rule.item, items[i], true)
    ensures ValidateItems(rule, ValidateItems(rule, items, true).value.items, false) == ValidateItems(rule, items, true)
  {
    ItemsUnfold(rule, items, true);
    var w := ValidatedItems(rule.item, items, true);
    assert forall i | 0 <= i < |w| :: Validate(rule.item, w[i], false) == Some(w[i]);
    ItemsUnfold(rule, w, false);
    assert ValidatedItems(rule.item, w, false) == w;
  }

  lemma PropsFixpoint(rule: Rule, o: map<string, Value>)
    requires rule.ObjectOf? && WellFormed(rule)
    requires ValidateProps(rule, o, true).Some?
    requires forall k | k in o && k in rule.props && Validate(rule.props[k].rule, o[k], true).Some? ::
      Validate(rule.props[k].rule, Validate(rule.props[k].rule, o[k], true).value, false)
        == Validate(rule.props[k].rule, o[k], true)
    ensures ValidateProps(rule, ValidateProps(rule, o, true).value.props, false) == ValidateProps(rule, o, true)
  {
    PropsUnfold(rule, o, true);
    var out := Assembled(rule, o, true);
    AssembledValues(rule, o);
    SelfValidObject(rule, out);
  }

  /** Each key of an assembled object is declared and valid as it stands,
      and every required or defaulted key is there. */
  lemma AssembledValues(rule: Rule, o: map<string, Value>)
    requires rule.ObjectOf? && WellFormed(rule)
    requires KeysAccepted(rule, o, true)
    requires forall k | k in o && k in rule.props && Validate(rule.props[k].rule, o[k], true).Some? ::
      Validate(rule.props[k].rule, Validate(rule.props[k].rule, o[k], true).value, false)
        == Validate(rule.props[k].rule, o[k], true)
    ensures var out := Assembled(rule, o, true);
      && (forall k | k in out :: k in rule.props && Validate(rule.props[k].rule, out[k], false) == Some(out[k]))
      && (forall k | k in rule.props && !rule.props[k].presence.Optional? :: k in out)
  {
    var props := rule.props;
    var out := Assembled(rule, o, true);
    forall k | k in out
      ensures k in props && Validate(props[k].rule, out[k], false) == Some(out[k])
    {
      if k !in o {
        assert k in Defaults(props, o);
      }
    }
    forall k | k in props && !props[k].presence.Optional? ensures k in out {
      if k !in o {
        assert k in Defaults(props, o);
      }
    }
  }

  /** An object whose keys are declared, complete and individually valid as
      they stand passes the strict check unchanged. */
  lemma SelfValidObject(rule: Rule, out: map<string, Value>)
    requires rule.ObjectOf?
    requires forall k | k in out :: k in rule.props && Validate(rule.props[k].rule, out[k], false) == Some(out[k])
    requires forall k | k in rule.props && !rule.props[k].presence.Optional? :: k in out
    requires CrossHolds(rule.cross, out)
    ensures ValidateProps(rule, out, false) == Some(Obj(out))
  {
    assert KeysAccepted(rule, out, false);
    assert Defaults(rule.props, out) == map[];
    assert Assembled(rule, out, false) == out;
    PropsUnfold(rule, out, false);
  }

  /** Validating a validated value again (stripping) changes nothing. */
  lemma StripIdempotent(rule: Rule, v: Value)
    requires WellFormed(rule)
    requires Validate(rule, v, true).Some?
    ensures Validate(rule, Validate(rule, v, true).value, true) == Validate(rule, v, true)
  {
    StripFixpoint(rule, v);
    StrictThenStrip(rule, Validate(rule, v, true).value);
  }

  // ---- the strict check of defaults-free descriptors ---------------------

  /** Without defaults the strict check hands back its input untouched. */
  lemma {:induction false} StrictKeepsValue(rule: Rule, v: Value)
    requires NoDefaults(rule)
    requires Validate(rule, v, false).Some?
    ensures Validate(rule, v, false) == Some(v)
    decreases rule
  {
    match rule
    case ArrayOf(item) =>
      forall i | 0 <= i < |v.items| ensures Validate(item, v.items[i], false) == Some(v.items[i]) {
        StrictKeepsValue(item, v.items[i]);
      }
      ItemsUnfold(rule, v.items, false);
      assert ValidatedItems(item, v.items, false) == v.items;
    case ObjectOf(props, cross) =>
      if v.Obj? {
        forall k | k in v.props && k in props
          ensures Validate(props[k].rule, v.props[k], false) == Some(v.props[k])
        {
          StrictKeepsValue(props[k].rule, v.props[k]);
        }
        PropsKeepValue(rule, v.props);
      }
    case Either(a, b) =>
      if Validate(a, v, false).Some? {
        StrictKeepsValue(a, v);
      } else {
        StrictKeepsValue(b, v);
      }
    case _ =>
  }

  lemma PropsKeepValue(rule: Rule, o: map<string, Value>)
    requires rule.ObjectOf? && NoDefaults(rule)
    requires ValidateProps(rule, o, false).Some?
    requires forall k | k in o && k in rule.props :: Validate(rule.props[k].rule, o[k], false) == Some(o[k])
    ensures ValidateProps(rule, o, false) == Some(Obj(o))
  {
    PropsUnfold(rule, o, false);
    AssembledIsInput(rule, o);
  }

  /** Without defaults, an accepted object whose values validate to
      themselves is assembled back into itself. */
  lemma AssembledIsInput(rule: Rule, o: map<string, Value>)
    requires rule.ObjectOf? && NoDefaults(rule)
    requires KeysAccepted(rule, o, false)
    requires forall k | k in o && k in rule.props :: Validate(rule.props[k].rule, o[k], false) == Some(o[k])
    ensures Assembled(rule, o, false) == o
  {
    assert Defaults(rule.props, o) == map[];
  }

  /** Every declared key present in `o` holds a value its rule accepts. */
  predicate EntriesConform(props: map<string, Prop>, o: map<string, Value>) {
    forall k | k in o && k in props :: Conforms(props[k].rule, o[k])
  }

  /** Every required key is present in `o`. */
  predicate RequiredPresent(props: map<string, Prop>, o: map<string, Value>) {
    forall k | k in props && props[k].presence.Required? :: k in o
  }

  /** No key of the table itself has a default (nested tables may). */
  predicate TopNoDefaults(props: map<string, Prop>) {
    forall k | k in props :: !props[k].presence.Defaulted?
  }

  /** The keys a `Greater` condition compares hold plain values, which the
      check hands back as they are. */
  predicate CrossStable(rule: Rule)
    requires rule.ObjectOf?
  {
    forall i | 0 <= i < |rule.cross| && rule.cross[i].Greater? ::
      && (rule.cross[i].key in rule.props ==> IsLeaf(rule.props[rule.cross[i].key].rule))
      && (rule.cross[i].than in rule.props ==> IsLeaf(rule.props[rule.cross[i].than].rule))
  }

  /** The strict check of a keyed object, key by key: the keys, the
      required keys, each value, and the sibling conditions on the input. */
  lemma ObjectConforms(rule: Rule, o: map<string, Value>)
    requires rule.ObjectOf? && TopNoDefaults(rule.props) && CrossStable(rule)
    ensures Conforms(rule, Obj(o)) <==>
      && o.Keys <= rule.props.Keys
      && RequiredPresent(rule.props, o)
      && EntriesConform(rule.props, o)
      && CrossHolds(rule.cross, o)
  {
    PropsUnfold(rule, o, false);
    if KeysAccepted(rule, o, false) {
      var out := Assembled(rule, o, false);
      assert Defaults(rule.props, o) == map[];
      assert out.Keys == o.Keys;
      forall i | 0 <= i < |rule.cross| ensures CrossOk(rule.cross[i], out) <==> CrossOk(rule.cross[i], o) {
        CrossSame(rule, o, i);
      }
    }
  }

  lemma CrossSame(rule: Rule, o: map<string, Value>, i: nat)
    requires rule.ObjectOf? && TopNoDefaults(rule.props) && CrossStable(rule)
    requires KeysAccepted(rule, o, false)
    requires i < |rule.cross|
    ensures CrossOk(rule.cross[i], Assembled(rule, o, false)) <==> CrossOk(rule.cross[i], o)
  {
    var out := Assembled(rule, o, false);
    AssembledKeys(rule, o);
    forall k | k in o ensures KindOf(out[k]) == KindOf(o[k]) && (o[k].Num? ==> out[k] == o[k]) {
      AssembledAt(rule, o, k);
    }
    var c := rule.cross[i];
    if c.Greater? && c.key in o && c.than in o {
      GreaterSame(rule, o, i);
    }
    CrossTransfer(c, o, out);
  }

  /** A sibling condition only looks at which keys are present, their
      kinds, numbers, and the values `Greater` compares. */
  lemma CrossTransfer(c: Cross, o: map<string, Value>, out: map<string, Value>)
    requires out.Keys == o.Keys
    requires forall k | k in o :: KindOf(out[k]) == KindOf(o[k])
    requires forall k | k in o && o[k].Num? :: out[k] == o[k]
    requires c.Greater? && c.key in o && c.than in o ==> out[c.key] == o[c.key] && out[c.than] == o[c.than]
    ensures CrossOk(c, out) <==> CrossOk(c, o)
  {
  }

  lemma GreaterSame(rule: Rule, o: map<string, Value>, i: nat)
    requires rule.ObjectOf? && TopNoDefaults(rule.props) && CrossStable(rule)
    requires KeysAccepted(rule, o, false)
    requires i < |rule.cross| && rule.cross[i].Greater?
    requires rule.cross[i].key in o && rule.cross[i].than in o
    ensures Assembled(rule, o, false)[rule.cross[i].key] == o[rule.cross[i].key]
    ensures Assembled(rule, o, false)[rule.cross[i].than] == o[rule.cross[i].than]
  {
    LeafSame(rule, o, rule.cross[i].key);
    LeafSame(rule, o, rule.cross[i].than);
  }

  lemma LeafSame(rule: Rule, o: map<string, Value>, k: string)
    requires rule.ObjectOf? && TopNoDefaults(rule.props)
    requires KeysAccepted(rule, o, false)
    requires k in o && k in rule.props && IsLeaf(rule.props[k].rule)
    ensures Assembled(rule, o, false)[k] == o[k]
  {
    AssembledAt(rule, o, k);
    LeafKeeps(rule.props[k].rule, o[k]);
  }

  lemma AssembledKeys(rule: Rule, o: map<string, Value>)
    requires rule.ObjectOf? && TopNoDefaults(rule.props)
    requires KeysAccepted(rule, o, false)
    ensures Assembled(rule, o, false).Keys == o.Keys
  {
    assert Defaults(rule.props, o) == map[];
  }

  lemma AssembledAt(rule: Rule, o: map<string, Value>, k: string)
    requires rule.ObjectOf? && TopNoDefaults(rule.props)
    requires KeysAccepted(rule, o, false)
    requires k in o
    ensures k in rule.props
    ensures Assembled(rule, o, false)[k] == Validate(rule.props[k].rule, o[k], false).value
    ensures KindOf(Assembled(rule, o, false)[k]) == KindOf(o[k])
  {
    assert Defaults(rule.props, o) == map[];
  }

  /** A plain value passes through the check unchanged. */
  lemma LeafKeeps(rule: Rule, v: Value)
    requires IsLeaf(rule)
    ensures Validate(rule, v, false).Some? ==> Validate(rule, v, false) == Some(v)
  {
  }

  /** Joining two disjoint property tables joins their conditions. */
  lemma MergeEntries(a: map<string, Prop>, b: map<string, Prop>, o: map<string, Value>)
    requires a.Keys !! b.Keys
    ensures EntriesConform(a + b, o) <==> EntriesConform(a, o) && EntriesConform(b, o)
    ensures RequiredPresent(a + b, o) <==> RequiredPresent(a, o) && RequiredPresent(b, o)
  {
    if EntriesConform(a, o) && EntriesConform(b, o) {
      forall k | k in o && k in a + b ensures Conforms((a + b)[k].rule, o[k]) {
        if k !in b { assert (a + b)[k] == a[k]; }
      }
    }
    if EntriesConform(a + b, o) {
      forall k | k in o && k in a ensures Conforms(a[k].rule, o[k]) {
        assert k !in b && (a + b)[k] == a[k];
      }
    }
    if RequiredPresent(a + b, o) {
      forall k | k in a && a[k].presence.Required? ensures k in o {
        assert k !in b && (a + b)[k] == a[k];
      }
    }
  }

  /** No key of the table is required. */
  predicate NoneRequired(props: map<string, Prop>) {
    forall k | k in props :: !props[k].presence.Required?
  }

  lemma MergeNoneRequired(a: map<string, Prop>, b: map<string, Prop>)
    requires NoneRequired(a) && NoneRequired(b)
    ensures NoneRequired(a + b)
  {
  }

  lemma NoneRequiredPresent(props: map<string, Prop>, o: map<string, Value>)
    requires NoneRequired(props)
    ensures RequiredPresent(props, o)
  {
  }

  lemma MergeNoDefaults(a: map<string, Prop>, b: map<string, Prop>)
    requires TopNoDefaults(a) && TopNoDefaults(b)
    ensures TopNoDefaults(a + b)
  {
  }

  /** The strict check of a keyed object with no sibling conditions. */
  lemma CrosslessObjectConforms(rule: Rule, o: map<string, Value>)
    requires rule.ObjectOf? && rule.cross == []
    ensures Conforms(rule, Obj(o)) <==>
      && o.Keys <= rule.props.Keys
      && RequiredPresent(rule.props, o)
      && EntriesConform(rule.props, o)
  {
    PropsUnfold(rule, o, false);
  }

  /** `k` is a key of the table and `v` a value its rule accepts. */
  predicate Declared(props: map<string, Prop>, k: string, v: Value) {
    k in props && Conforms(props[k].rule, v)
  }

  /** Looking a key up in joined tables: the right-hand table wins. */
  lemma DeclaredMerge(a: map<string, Prop>, b: map<string, Prop>, k: string, v: Value)
    ensures Declared(a + b, k, v) <==> if k in b then Declared(b, k, v) else Declared(a, k, v)
  {
  }

  /** The strict check of a keyed object, key by key: every key is declared
      and holds a value its rule accepts, every required key is present,
      and the sibling conditions hold on the input. */
  lemma ObjectByKeys(rule: Rule, o: map<string, Value>)
    requires rule.ObjectOf?
    requires rule.cross == [] || (TopNoDefaults(rule.props) && CrossStable(rule))
    ensures Conforms(rule, Obj(o)) <==>
      && (forall k | k in o :: Declared(rule.props, k, o[k]))
      && RequiredPresent(rule.props, o)
      && CrossHolds(rule.cross, o)
  {
    if rule.cross == [] {
      CrosslessObjectConforms(rule, o);
    } else {
      ObjectConforms(rule, o);
    }
  }

  /** Every key of the table holds a rule that looks at one value. */
  predicate LeafProps(props: map<string, Prop>) {
    forall k | k in props :: IsLeaf(props[k].rule)
  }

  /** On a leaf rule the stripping check and the strict check agree, and
      an accepted value comes back as given. */
  lemma LeafStrips(rule: Rule, v: Value)
    requires IsLeaf(rule)
    ensures Validate(rule, v, true) == Validate(rule, v, false)
    ensures Validate(rule, v, true).Some? ==> Validate(rule, v, true).value == v
  {
  }

  /** The key-level conditions of a stripping check on a flat table. */
  lemma FlatKeysAccepted(rule: Rule, o: map<string, Value>)
    requires rule.ObjectOf? && LeafProps(rule.props)
    ensures KeysAccepted(rule, o, true) <==>
      RequiredPresent(rule.props, o) && (forall k | k in o && k in rule.props :: Declared(rule.props, k, o[k]))
  {
    forall k | k in o && k in rule.props
      ensures Validate(rule.props[k].rule, o[k], true).Some? <==> Declared(rule.props, k, o[k])
    {
      LeafStrips(rule.props[k].rule, o[k]);
    }
  }

  /** What a stripping check on a flat table assembles: the declared keys
      as given, plus defaults. */
  lemma FlatAssembled(rule: Rule, o: map<string, Value>)
    requires rule.ObjectOf? && LeafProps(rule.props) && KeysAccepted(rule, o, true)
    ensures Assembled(rule, o, true) == Defaults(rule.props, o) + map k | k in o && k in rule.props :: o[k]
  {
    forall k | k in o && k in rule.props
      ensures Validate(rule.props[k].rule, o[k], true).value == o[k]
    {
      LeafStrips(rule.props[k].rule, o[k]);
    }
    assert (map k | k in o && k in rule.props :: Validate(rule.props[k].rule, o[k], true).value)
      == (map k | k in o && k in rule.props :: o[k]);
  }

  /** The stripping check of a flat object without sibling conditions:
      undeclared keys are dropped, declared ones are kept as given, and
      defaults fill the declared keys left out. */
  lemma FlatObjectValidated(rule: Rule, o: map<string, Value>)
    requires rule.ObjectOf? && rule.cross == [] && LeafProps(rule.props)
    ensures Validate(rule, Obj(o), true) ==
      if RequiredPresent(rule.props, o) && (forall k | k in o && k in rule.props :: Declared(rule.props, k, o[k]))
      then Some(Obj(Defaults(rule.props, o) + map k | k in o && k in rule.props :: o[k]))
      else None
  {
    PropsUnfold(rule, o, true);
    FlatKeysAccepted(rule, o);
    if KeysAccepted(rule, o, true) {
      FlatAssembled(rule, o);
    }
  }

  /** The strict check of an array: every element, one by one. */
  lemma ArrayConforms(item: Rule, items: seq<Value>)
    ensures Conforms(ArrayOf(item), Arr(items)) <==> forall i | 0 <= i < |items| :: Conforms(item, items[i])
  {
    ItemsUnfold(ArrayOf(item), items, false);
  }
}
