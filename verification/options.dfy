/** The overrides a pass may receive (`supportedOptions`), restated key by
    key and proved equivalent to what `isValid` answers for them. */
module OverrideOptions {
  import opened Strings
  import opened Values
  import opened Rules
  import opened Schema
  import opened Validator
  import opened Documents

  /** The option keys and what each must hold; string lengths are
      JavaScript lengths, in UTF-16 code units. */
  predicate OptionEntry(k: string, v: Value) {
    if k == "associatedStoreIdentifiers" then v.Arr? && forall i | 0 <= i < |v.items| :: IsNumber(v.items[i])
    else if k == "userInfo" then IsObjectLike(v) || v.Arr?
    else if k == "webServiceURL" then v.Str? && HasWebUrl(v.s)
    else if k == "authenticationToken" then v.Str? && Utf16Length(v.s) >= 16
    else if k == "maxDistance" then IsNumber(v) && v.n > 0.0
    else if k in ColorKeys then v.Str? && 10 <= Utf16Length(v.s) <= 16
    else if k in OptionFlagKeys then v.Bool?
    else if k in OptionTextKeys then IsText(v)
    else false
  }

  /** Overrides: declared keys only, none required, and a web service URL
      only together with an authentication token. */
  predicate OptionsOk(o: map<string, Value>) {
    && (forall k | k in o :: OptionEntry(k, o[k]))
    && ("webServiceURL" in o ==> "authenticationToken" in o)
  }

  /** A URL needs at least its scheme and one more character. */
  lemma NoUrlInEmpty()
    ensures !HasWebUrl("")
  {
  }

  lemma StoreIdentifiersIff(v: Value)
    ensures Conforms(ArrayOf(AnyNumber), v) <==> v.Arr? && forall i | 0 <= i < |v.items| :: IsNumber(v.items[i])
  {
    if v.Arr? {
      ArrayConforms(AnyNumber, v.items);
      forall i | 0 <= i < |v.items| ensures Conforms(AnyNumber, v.items[i]) <==> IsNumber(v.items[i]) {
        AnyNumberIff(v.items[i]);
      }
    }
  }

  lemma ShapedDeclared(k: string, v: Value)
    ensures Declared(OptionsShaped, k, v) <==> k in OptionsShaped && OptionEntry(k, v)
  {
    if k == "associatedStoreIdentifiers" {
      StoreIdentifiersIff(v);
    } else if k == "webServiceURL" {
      NoUrlInEmpty();
    }
  }

  lemma TextDeclared(k: string, v: Value)
    ensures Declared(OptionsText, k, v) <==> k in OptionsText && OptionEntry(k, v)
  {
    AnyStringIff(v);
  }

  lemma ColorsDeclared(k: string, v: Value)
    ensures Declared(OptionsColors, k, v) <==> k in OptionsColors && OptionEntry(k, v)
  {
  }

  lemma FlagsDeclared(k: string, v: Value)
    ensures Declared(OptionsFlags, k, v) <==> k in OptionsFlags && OptionEntry(k, v)
  {
  }

  lemma OptionEntryIff(k: string, v: Value)
    ensures Declared(OptionsProps, k, v) <==> OptionEntry(k, v)
  {
    DeclaredMerge(OptionsShaped + OptionsText + OptionsColors, OptionsFlags, k, v);
    DeclaredMerge(OptionsShaped + OptionsText, OptionsColors, k, v);
    DeclaredMerge(OptionsShaped, OptionsText, k, v);
    ShapedDeclared(k, v);
    TextDeclared(k, v);
    ColorsDeclared(k, v);
    FlagsDeclared(k, v);
  }

  lemma OptionEntries(o: map<string, Value>)
    ensures (forall k | k in o :: Declared(OptionsProps, k, o[k])) <==> (forall k | k in o :: OptionEntry(k, o[k]))
  {
    forall k | k in o ensures Declared(OptionsProps, k, o[k]) <==> OptionEntry(k, o[k]) {
      OptionEntryIff(k, o[k]);
    }
  }

  lemma ChunksPlain()
    ensures NoneRequired(OptionsShaped) && NoneRequired(OptionsText)
    ensures NoneRequired(OptionsColors) && NoneRequired(OptionsFlags)
    ensures TopNoDefaults(OptionsShaped) && TopNoDefaults(OptionsText)
    ensures TopNoDefaults(OptionsColors) && TopNoDefaults(OptionsFlags)
  {
  }

  /** No option is required and none has a default. */
  lemma OptionsPlain()
    ensures NoneRequired(OptionsProps) && TopNoDefaults(OptionsProps)
  {
    ChunksPlain();
    MergeNoneRequired(OptionsShaped, OptionsText);
    MergeNoneRequired(OptionsShaped + OptionsText, OptionsColors);
    MergeNoneRequired(OptionsShaped + OptionsText + OptionsColors, OptionsFlags);
    MergeNoDefaults(OptionsShaped, OptionsText);
    MergeNoDefaults(OptionsShaped + OptionsText, OptionsColors);
    MergeNoDefaults(OptionsShaped + OptionsText + OptionsColors, OptionsFlags);
  }

  /** As no option is required, a date or an empty buffer passes too. */
  lemma OptionsConforms(v: Value)
    ensures Conforms(SupportedOptions, v) <==> (v.Obj? && OptionsOk(v.props)) || IsKeylessObject(v)
  {
    OptionsPlain();
    assert AllOptional(OptionsProps);
    if v.Obj? {
      OptionsPlain();
      NoneRequiredPresent(OptionsProps, v.props);
      assert CrossStable(SupportedOptions);
      SingleCross(With("webServiceURL", "authenticationToken"), v.props);
      ObjectByKeys(SupportedOptions, v.props);
      OptionEntries(v.props);
    }
  }

  /** `isValid(v, "supportedOptions")` is the overrides predicate. */
  lemma OptionsIff(v: Value)
    ensures IsValid(v, "supportedOptions") <==> (v.Obj? && OptionsOk(v.props)) || IsKeylessObject(v)
  {
    IsValidByName(SupportedOptionsName, v);
    OptionsConforms(v);
  }
}
