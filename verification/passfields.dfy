/** A pass field, an auxiliary field (a field with a `row`), and the
    `passDict` of field lists, restated key by key and proved equivalent
    to what `isValid` answers for `field` and `passDict`. */
module PassFields {
  import opened Values
  import opened Rules
  import opened Schema
  import opened Validator
  import opened Documents
  import opened SemanticTags

  /** The flat keys a field may carry and what each must hold. */
  predicate FieldPlainEntry(k: string, v: Value) {
    if k == "key" || k == "changeMessage" || k == "currencyCode" then IsText(v)
    else if k == "value" || k == "attributedValue" then IsFieldContent(v)
    else if k == "label" then v.Str?
    else if k == "numberStyle" then IsTextMentioning(v, NumberStyles)
    else if k == "textAlignment" then IsTextMentioning(v, TextAlignments)
    else if k == "dataDetectorType" then
      v.Arr? && forall i | 0 <= i < |v.items| :: IsTextMentioning(v.items[i], DataDetectorTypes)
    else if k == "dateStyle" || k == "timeStyle" then IsTextMentioning(v, DateStyles)
    else if k == "ignoresTimeZone" || k == "isRelative" then v.Bool?
    else false
  }

  /** The keys a field may carry: the flat ones and `semantics`. */
  predicate FieldEntry(k: string, v: Value) {
    if k == "semantics" then IsSemantics(v) else FieldPlainEntry(k, v)
  }

  /** `key` and `value` are required, and a currency code or a number
      style is only allowed next to a numeric value. */
  predicate FieldRequired(o: map<string, Value>) {
    && "key" in o && "value" in o
    && ("currencyCode" in o || "numberStyle" in o ==> IsNumber(o["value"]))
  }

  predicate FieldOk(o: map<string, Value>) {
    (forall k | k in o :: FieldEntry(k, o[k])) && FieldRequired(o)
  }

  predicate IsField(v: Value) { v.Obj? && FieldOk(v.props) }

  /** An auxiliary field may also give a `row` between 0 and 1. */
  predicate AuxFieldEntry(k: string, v: Value) {
    if k == "row" then IsNumber(v) && 0.0 <= v.n <= 1.0 else FieldEntry(k, v)
  }

  predicate IsAuxField(v: Value) {
    v.Obj? && (forall k | k in v.props :: AuxFieldEntry(k, v.props[k])) && FieldRequired(v.props)
  }

  // ---- the flat part of the table, chunk by chunk -------------------------

  lemma ContentDeclared(k: string, v: Value)
    ensures Declared(FieldContent, k, v) <==> k in FieldContent && FieldPlainEntry(k, v)
  {
    FieldValueIff(v);
    AnyStringIff(v);
  }

  lemma DetectorsIff(v: Value)
    ensures Conforms(ArrayOf(Containing(DataDetectorTypes)), v) <==>
      v.Arr? && forall i | 0 <= i < |v.items| :: IsTextMentioning(v.items[i], DataDetectorTypes)
  {
    if v.Arr? {
      ArrayConforms(Containing(DataDetectorTypes), v.items);
      forall i | 0 <= i < |v.items|
        ensures Conforms(Containing(DataDetectorTypes), v.items[i]) <==> IsTextMentioning(v.items[i], DataDetectorTypes)
      {
        ContainingIff(DataDetectorTypes, v.items[i]);
      }
    }
  }

  lemma FormatDeclared(k: string, v: Value)
    ensures Declared(FieldFormat, k, v) <==> k in FieldFormat && FieldPlainEntry(k, v)
  {
    if k == "currencyCode" {
      AnyStringIff(v);
    } else if k == "numberStyle" {
      ContainingIff(NumberStyles, v);
    } else if k == "textAlignment" {
      ContainingIff(TextAlignments, v);
    } else if k == "dataDetectorType" {
      DetectorsIff(v);
    }
  }

  lemma TogglesDeclared(k: string, v: Value)
    ensures Declared(FieldToggles, k, v) <==> k in FieldToggles && FieldPlainEntry(k, v)
  {
    ContainingIff(DateStyles, v);
  }

  /** The flat keys of a field, against the flat part of the table. */
  lemma PlainDeclared(k: string, v: Value)
    ensures Declared(FieldPlainProps, k, v) <==> FieldPlainEntry(k, v)
  {
    DeclaredMerge(FieldContent + FieldFormat, FieldToggles, k, v);
    DeclaredMerge(FieldContent, FieldFormat, k, v);
    ContentDeclared(k, v);
    FormatDeclared(k, v);
    TogglesDeclared(k, v);
  }

  lemma PlainKeys()
    ensures "semantics" !in FieldPlainProps && "row" !in FieldPlainProps
  {
    PlainDeclared("semantics", Null);
    PlainDeclared("row", Null);
  }

  lemma ContentRequired(o: map<string, Value>)
    ensures RequiredPresent(FieldContent, o) <==> "key" in o && "value" in o
    ensures TopNoDefaults(FieldContent)
  {
  }

  lemma FormatOptional(o: map<string, Value>)
    ensures RequiredPresent(FieldFormat, o) && TopNoDefaults(FieldFormat)
  {
  }

  lemma TogglesOptional(o: map<string, Value>)
    ensures RequiredPresent(FieldToggles, o) && TopNoDefaults(FieldToggles)
  {
  }

  lemma PlainDisjoint()
    ensures FieldContent.Keys !! FieldFormat.Keys
    ensures (FieldContent + FieldFormat).Keys !! FieldToggles.Keys
  {
  }

  lemma PlainRequired(o: map<string, Value>)
    ensures RequiredPresent(FieldPlainProps, o) <==> "key" in o && "value" in o
    ensures TopNoDefaults(FieldPlainProps)
  {
    ContentRequired(o);
    FormatOptional(o);
    TogglesOptional(o);
    PlainDisjoint();
    MergeEntries(FieldContent, FieldFormat, o);
    MergeEntries(FieldContent + FieldFormat, FieldToggles, o);
    MergeNoDefaults(FieldContent, FieldFormat);
    MergeNoDefaults(FieldContent + FieldFormat, FieldToggles);
  }

  // ---- the field table around any semantics descriptor --------------------

  /** A field entry with the `semantics` check left to the descriptor. */
  predicate FieldEntryUnder(semantics: Rule, k: string, v: Value) {
    if k == "semantics" then Conforms(semantics, v) else FieldPlainEntry(k, v)
  }

  predicate AuxFieldEntryUnder(semantics: Rule, k: string, v: Value) {
    if k == "row" then IsNumber(v) && 0.0 <= v.n <= 1.0 else FieldEntryUnder(semantics, k, v)
  }

  predicate IsFieldUnder(semantics: Rule, v: Value) {
    v.Obj? && (forall k | k in v.props :: FieldEntryUnder(semantics, k, v.props[k])) && FieldRequired(v.props)
  }

  predicate IsAuxFieldUnder(semantics: Rule, v: Value) {
    v.Obj? && (forall k | k in v.props :: AuxFieldEntryUnder(semantics, k, v.props[k])) && FieldRequired(v.props)
  }

  lemma FieldEntryUnderIff(semantics: Rule, k: string, v: Value)
    ensures Declared(FieldPropsWith(semantics), k, v) <==> FieldEntryUnder(semantics, k, v)
    ensures Declared(FieldPropsWith(semantics) + RowProp, k, v) <==> AuxFieldEntryUnder(semantics, k, v)
  {
    DeclaredMerge(map["semantics" := Opt(semantics)], FieldPlainProps, k, v);
    DeclaredMerge(FieldPropsWith(semantics), RowProp, k, v);
    PlainDeclared(k, v);
    PlainKeys();
  }

  lemma FieldEntriesUnder(semantics: Rule, o: map<string, Value>)
    ensures (forall k | k in o :: Declared(FieldPropsWith(semantics), k, o[k])) <==>
      (forall k | k in o :: FieldEntryUnder(semantics, k, o[k]))
    ensures (forall k | k in o :: Declared(FieldPropsWith(semantics) + RowProp, k, o[k])) <==>
      (forall k | k in o :: AuxFieldEntryUnder(semantics, k, o[k]))
  {
    forall k | k in o
      ensures Declared(FieldPropsWith(semantics), k, o[k]) <==> FieldEntryUnder(semantics, k, o[k])
      ensures Declared(FieldPropsWith(semantics) + RowProp, k, o[k]) <==> AuxFieldEntryUnder(semantics, k, o[k])
    {
      FieldEntryUnderIff(semantics, k, o[k]);
    }
  }

  lemma SemanticsHead(semantics: Rule, o: map<string, Value>)
    ensures RequiredPresent(map["semantics" := Opt(semantics)], o)
    ensures TopNoDefaults(map["semantics" := Opt(semantics)])
    ensures RequiredPresent(RowProp, o) && TopNoDefaults(RowProp)
    ensures "semantics" !in RowProp
  {
  }

  /** Only `key` and `value` are required, and no key has a default. */
  lemma FieldTableRequired(semantics: Rule, o: map<string, Value>)
    ensures RequiredPresent(FieldPropsWith(semantics), o) <==> "key" in o && "value" in o
    ensures TopNoDefaults(FieldPropsWith(semantics))
  {
    var head := map["semantics" := Opt(semantics)];
    PlainRequired(o);
    PlainKeys();
    SemanticsHead(semantics, o);
    MergeEntries(head, FieldPlainProps, o);
    MergeNoDefaults(head, FieldPlainProps);
  }

  lemma AuxTableRequired(semantics: Rule, o: map<string, Value>)
    ensures RequiredPresent(FieldPropsWith(semantics) + RowProp, o) <==> "key" in o && "value" in o
    ensures TopNoDefaults(FieldPropsWith(semantics) + RowProp)
  {
    FieldTableRequired(semantics, o);
    PlainKeys();
    SemanticsHead(semantics, o);
    assert FieldPropsWith(semantics).Keys !! RowProp.Keys;
    MergeEntries(FieldPropsWith(semantics), RowProp, o);
    MergeNoDefaults(FieldPropsWith(semantics), RowProp);
  }

  lemma FieldKeyRequired(semantics: Rule)
    ensures "key" in FieldPropsWith(semantics) && FieldPropsWith(semantics)["key"] == Req(AnyString)
    ensures "key" in FieldPropsWith(semantics) + RowProp && (FieldPropsWith(semantics) + RowProp)["key"] == Req(AnyString)
  {
    PlainKeys();
    assert FieldContent["key"] == Req(AnyString);
    assert "key" !in FieldFormat && "key" !in FieldToggles && "key" !in RowProp;
  }

  lemma FieldCrossIff(o: map<string, Value>)
    ensures "value" in o ==>
      (CrossHolds(FieldCross, o) <==> ("currencyCode" in o || "numberStyle" in o ==> IsNumber(o["value"])))
  {
    assert FieldCross[0] == OnlyWithNumber("currencyCode", "value");
    assert FieldCross[1] == OnlyWithNumber("numberStyle", "value");
  }

  lemma FieldCrossStable(semantics: Rule)
    ensures CrossStable(FieldWith(semantics)) && CrossStable(AuxiliaryFieldWith(semantics))
  {
    assert !FieldCross[0].Greater? && !FieldCross[1].Greater?;
  }

  lemma FieldUnderConforms(semantics: Rule, v: Value)
    ensures Conforms(FieldWith(semantics), v) <==> IsFieldUnder(semantics, v)
  {
    if v.Obj? {
      FieldTableRequired(semantics, v.props);
      FieldCrossStable(semantics);
      ObjectByKeys(FieldWith(semantics), v.props);
      FieldEntriesUnder(semantics, v.props);
      FieldCrossIff(v.props);
    } else {
      FieldKeyRequired(semantics);
      RequiredKeyNeedsObject(FieldWith(semantics), "key", v, false);
      RequiredKeyNeedsObject(AuxiliaryFieldWith(semantics), "key", v, false);
    }
  }

  lemma AuxFieldUnderConforms(semantics: Rule, v: Value)
    ensures Conforms(AuxiliaryFieldWith(semantics), v) <==> IsAuxFieldUnder(semantics, v)
  {
    if v.Obj? {
      AuxTableRequired(semantics, v.props);
      FieldCrossStable(semantics);
      ObjectByKeys(AuxiliaryFieldWith(semantics), v.props);
      FieldEntriesUnder(semantics, v.props);
      FieldCrossIff(v.props);
    } else {
      FieldKeyRequired(semantics);
      RequiredKeyNeedsObject(FieldWith(semantics), "key", v, false);
      RequiredKeyNeedsObject(AuxiliaryFieldWith(semantics), "key", v, false);
    }
  }

  // ---- the catalogue's field -----------------------------------------------

  /** With the catalogue's semantics descriptor, the generic entries are the
      field's own. */
  lemma UnderSemantics(v: Value)
    ensures IsFieldUnder(Semantics, v) <==> IsField(v)
    ensures IsAuxFieldUnder(Semantics, v) <==> IsAuxField(v)
  {
    if v.Obj? {
      forall k | k in v.props
        ensures FieldEntryUnder(Semantics, k, v.props[k]) <==> FieldEntry(k, v.props[k])
        ensures AuxFieldEntryUnder(Semantics, k, v.props[k]) <==> AuxFieldEntry(k, v.props[k])
      {
        SemanticsConforms(v.props[k]);
      }
    }
  }

  lemma FieldConforms(v: Value)
    ensures Conforms(Field, v) <==> IsField(v)
    ensures Conforms(AuxiliaryField, v) <==> IsAuxField(v)
  {
    FieldUnderConforms(Semantics, v);
    AuxFieldUnderConforms(Semantics, v);
    UnderSemantics(v);
  }

  /** `isValid(v, "field")` is the field predicate. */
  lemma FieldIff(v: Value)
    ensures IsValid(v, "field") <==> IsField(v)
  {
    IsValidByName(FieldName, v);
    FieldConforms(v);
  }

  // ---- passDict ------------------------------------------------------------

  predicate PassDictEntry(k: string, v: Value) {
    if k == "auxiliaryFields" then v.Arr? && forall i | 0 <= i < |v.items| :: IsAuxField(v.items[i])
    else if k == "backFields" || k == "headerFields" || k == "primaryFields" || k == "secondaryFields" then
      v.Arr? && forall i | 0 <= i < |v.items| :: IsField(v.items[i])
    else false
  }

  /** The five field lists, all optional. */
  predicate PassDictOk(o: map<string, Value>) {
    forall k | k in o :: PassDictEntry(k, o[k])
  }

  predicate PassDictEntryUnder(semantics: Rule, k: string, v: Value) {
    if k == "auxiliaryFields" then v.Arr? && forall i | 0 <= i < |v.items| :: IsAuxFieldUnder(semantics, v.items[i])
    else if k in PlainFieldLists then v.Arr? && forall i | 0 <= i < |v.items| :: IsFieldUnder(semantics, v.items[i])
    else false
  }

  lemma FieldListUnder(semantics: Rule, v: Value)
    ensures Conforms(ArrayOf(FieldWith(semantics)), v) <==>
      v.Arr? && forall i | 0 <= i < |v.items| :: IsFieldUnder(semantics, v.items[i])
  {
    if v.Arr? {
      ArrayConforms(FieldWith(semantics), v.items);
      forall i | 0 <= i < |v.items|
        ensures Conforms(FieldWith(semantics), v.items[i]) <==> IsFieldUnder(semantics, v.items[i])
      {
        FieldUnderConforms(semantics, v.items[i]);
      }
    }
  }

  lemma AuxFieldListUnder(semantics: Rule, v: Value)
    ensures Conforms(ArrayOf(AuxiliaryFieldWith(semantics)), v) <==>
      v.Arr? && forall i | 0 <= i < |v.items| :: IsAuxFieldUnder(semantics, v.items[i])
  {
    if v.Arr? {
      ArrayConforms(AuxiliaryFieldWith(semantics), v.items);
      forall i | 0 <= i < |v.items|
        ensures Conforms(AuxiliaryFieldWith(semantics), v.items[i]) <==> IsAuxFieldUnder(semantics, v.items[i])
      {
        AuxFieldUnderConforms(semantics, v.items[i]);
      }
    }
  }

  lemma PassDictEntryUnderIff(semantics: Rule, k: string, v: Value)
    ensures Declared(PassDictWith(semantics).props, k, v) <==> PassDictEntryUnder(semantics, k, v)
  {
    FieldListsAt(FieldWith(semantics), AuxiliaryFieldWith(semantics), k);
    if k == "auxiliaryFields" {
      AuxFieldListUnder(semantics, v);
    } else if k in PlainFieldLists {
      FieldListUnder(semantics, v);
    }
  }

  lemma PassDictUnderConforms(semantics: Rule, v: Value)
    ensures Conforms(PassDictWith(semantics), v) <==>
      || (v.Obj? && forall k | k in v.props :: PassDictEntryUnder(semantics, k, v.props[k]))
      || IsKeylessObject(v)
  {
    assert AllOptional(PassDictWith(semantics).props);
    if v.Obj? {
      var o := v.props;
      ObjectByKeys(PassDictWith(semantics), o);
      forall k | k in o ensures Declared(PassDictWith(semantics).props, k, o[k]) <==> PassDictEntryUnder(semantics, k, o[k]) {
        PassDictEntryUnderIff(semantics, k, o[k]);
      }
      assert NoneRequired(PassDictWith(semantics).props);
      NoneRequiredPresent(PassDictWith(semantics).props, o);
    }
  }

  lemma PassDictEntrySwap(k: string, v: Value)
    ensures PassDictEntryUnder(Semantics, k, v) <==> PassDictEntry(k, v)
  {
    if v.Arr? {
      forall i | 0 <= i < |v.items|
        ensures IsFieldUnder(Semantics, v.items[i]) <==> IsField(v.items[i])
        ensures IsAuxFieldUnder(Semantics, v.items[i]) <==> IsAuxField(v.items[i])
      {
        UnderSemantics(v.items[i]);
      }
    }
  }

  /** As no field list is required, a date or a byte-less buffer passes
      too. */
  lemma PassDictConforms(v: Value)
    ensures Conforms(PassDict, v) <==> (v.Obj? && PassDictOk(v.props)) || IsKeylessObject(v)
  {
    PassDictUnderConforms(Semantics, v);
    if v.Obj? {
      forall k | k in v.props ensures PassDictEntryUnder(Semantics, k, v.props[k]) <==> PassDictEntry(k, v.props[k]) {
        PassDictEntrySwap(k, v.props[k]);
      }
    }
  }

  /** `isValid(v, "passDict")` is the field-lists predicate. */
  lemma PassDictIff(v: Value)
    ensures IsValid(v, "passDict") <==> (v.Obj? && PassDictOk(v.props)) || IsKeylessObject(v)
  {
    IsValidByName(PassDictName, v);
    PassDictConforms(v);
  }
}
