/** The `semantics` object a field may carry (Apple's semantic tags), and
    the small objects nested in it, restated key by key and proved
    equivalent to the strict check of the catalogue's descriptor. */
module SemanticTags {
  import opened Values
  import opened Rules
  import opened Schema
  import opened Documents

  // ---- nested objects ----------------------------------------------------

  /** A seat: only the six seat keys, each a non-empty string; as none is
      required, a date or a byte-less buffer passes too. */
  predicate IsSeat(v: Value) {
    || (v.Obj? && forall k | k in v.props :: k in SeatKeys && IsText(v.props[k]))
    || IsKeylessObject(v)
  }

  /** Given and family name, both required non-empty strings. */
  predicate IsPersonName(v: Value) {
    && v.Obj?
    && (forall k | k in v.props :: (k == "givenName" || k == "familyName") && IsText(v.props[k]))
    && "givenName" in v.props && "familyName" in v.props
  }

  /** A currency code and an amount, both required non-empty strings. */
  predicate IsAmount(v: Value) {
    && v.Obj?
    && (forall k | k in v.props :: (k == "currencyCode" || k == "amount") && IsText(v.props[k]))
    && "currencyCode" in v.props && "amount" in v.props
  }

  /** Latitude and longitude, both required numbers. */
  predicate IsCoordinates(v: Value) {
    && v.Obj?
    && (forall k | k in v.props :: (k == "latitude" || k == "longitude") && IsNumber(v.props[k]))
    && "latitude" in v.props && "longitude" in v.props
  }

  lemma SeatEntries(o: map<string, Value>)
    ensures (forall k | k in o :: Declared(Seat.props, k, o[k])) <==>
      (forall k | k in o :: k in SeatKeys && IsText(o[k]))
  {
    forall k | k in o
      ensures Declared(Seat.props, k, o[k]) <==> (k in SeatKeys && IsText(o[k]))
    {
      AnyStringIff(o[k]);
    }
  }

  lemma SeatConforms(v: Value)
    ensures Conforms(Seat, v) <==> IsSeat(v)
  {
    if v.Obj? {
      ObjectByKeys(Seat, v.props);
      SeatEntries(v.props);
    } else {
      assert AllOptional(Seat.props);
    }
  }

  lemma SeatsConform(v: Value)
    ensures Conforms(ArrayOf(Seat), v) <==> v.Arr? && forall i | 0 <= i < |v.items| :: IsSeat(v.items[i])
  {
    if v.Arr? {
      ArrayConforms(Seat, v.items);
      forall i | 0 <= i < |v.items| ensures Conforms(Seat, v.items[i]) <==> IsSeat(v.items[i]) {
        SeatConforms(v.items[i]);
      }
    }
  }

  lemma PersonNameEntries(o: map<string, Value>)
    ensures (forall k | k in o :: Declared(PersonNameComponents.props, k, o[k])) <==>
      (forall k | k in o :: (k == "givenName" || k == "familyName") && IsText(o[k]))
  {
    forall k | k in o
      ensures Declared(PersonNameComponents.props, k, o[k]) <==>
        ((k == "givenName" || k == "familyName") && IsText(o[k]))
    {
      AnyStringIff(o[k]);
    }
  }

  lemma PersonNameRequired(o: map<string, Value>)
    ensures RequiredPresent(PersonNameComponents.props, o) <==> "givenName" in o && "familyName" in o
  {
  }

  lemma PersonNameConforms(v: Value)
    ensures Conforms(PersonNameComponents, v) <==> IsPersonName(v)
  {
    if v.Obj? {
      ObjectByKeys(PersonNameComponents, v.props);
      PersonNameEntries(v.props);
      PersonNameRequired(v.props);
    } else {
      RequiredKeyNeedsObject(PersonNameComponents, "givenName", v, false);
    }
  }

  lemma AmountEntries(o: map<string, Value>)
    ensures (forall k | k in o :: Declared(CurrencyAmount.props, k, o[k])) <==>
      (forall k | k in o :: (k == "currencyCode" || k == "amount") && IsText(o[k]))
  {
    forall k | k in o
      ensures Declared(CurrencyAmount.props, k, o[k]) <==>
        ((k == "currencyCode" || k == "amount") && IsText(o[k]))
    {
      AnyStringIff(o[k]);
    }
  }

  lemma AmountRequired(o: map<string, Value>)
    ensures RequiredPresent(CurrencyAmount.props, o) <==> "currencyCode" in o && "amount" in o
  {
  }

  lemma AmountConforms(v: Value)
    ensures Conforms(CurrencyAmount, v) <==> IsAmount(v)
  {
    if v.Obj? {
      ObjectByKeys(CurrencyAmount, v.props);
      AmountEntries(v.props);
      AmountRequired(v.props);
    } else {
      RequiredKeyNeedsObject(CurrencyAmount, "currencyCode", v, false);
    }
  }

  lemma CoordinatesEntries(o: map<string, Value>)
    ensures (forall k | k in o :: Declared(Location.props, k, o[k])) <==>
      (forall k | k in o :: (k == "latitude" || k == "longitude") && IsNumber(o[k]))
  {
    forall k | k in o ensures Conforms(AnyNumber, o[k]) <==> IsNumber(o[k]) {
      AnyNumberIff(o[k]);
    }
  }

  lemma CoordinatesRequired(o: map<string, Value>)
    ensures RequiredPresent(Location.props, o) <==> "latitude" in o && "longitude" in o
  {
  }

  lemma CoordinatesConform(v: Value)
    ensures Conforms(Location, v) <==> IsCoordinates(v)
  {
    if v.Obj? {
      ObjectByKeys(Location, v.props);
      CoordinatesEntries(v.props);
      CoordinatesRequired(v.props);
    } else {
      RequiredKeyNeedsObject(Location, "latitude", v, false);
    }
  }

  // ---- semantics ---------------------------------------------------------

  /** The semantic keys and what each must hold. */
  predicate SemanticEntry(k: string, v: Value) {
    if k == "seats" then v.Arr? && forall i | 0 <= i < |v.items| :: IsSeat(v.items[i])
    else if k == "silenceRequested" then v.Bool?
    else if k == "passengetName" then IsPersonName(v)
    else if k == "eventType" then IsTextMentioning(v, EventTypes)
    else if k == "performerNames" then IsArrayOfText(v)
    else if k in LocationKeys then IsCoordinates(v)
    else if k in AmountKeys then IsAmount(v)
    else if k in SemanticNumberKeys then IsNumber(v)
    else if k in SemanticStringKeys then IsText(v)
    else false
  }

  /** A semantics object: declared keys only, none of them required, so a
      date or a byte-less buffer passes too. */
  predicate IsSemantics(v: Value) {
    (v.Obj? && forall k | k in v.props :: SemanticEntry(k, v.props[k])) || IsKeylessObject(v)
  }

  lemma ShapedEntryIff(k: string, v: Value)
    requires k in SemanticsShaped
    ensures Conforms(SemanticsShaped[k].rule, v) <==> SemanticEntry(k, v)
  {
    if k == "seats" {
      SeatsConform(v);
    } else if k == "passengetName" {
      PersonNameConforms(v);
    } else if k == "eventType" {
      ContainingIff(EventTypes, v);
    } else if k == "performerNames" {
      TextArrayIff(v);
    }
  }

  lemma PlacesEntryIff(k: string, v: Value)
    requires k in SemanticsPlaces
    ensures Conforms(SemanticsPlaces[k].rule, v) <==> SemanticEntry(k, v)
  {
    CoordinatesConform(v);
  }

  lemma AmountsEntryIff(k: string, v: Value)
    requires k in SemanticsAmounts
    ensures Conforms(SemanticsAmounts[k].rule, v) <==> SemanticEntry(k, v)
  {
    AmountConforms(v);
    AnyNumberIff(v);
  }

  lemma TextsEntryIff(k: string, v: Value)
    requires k !in SemanticsShaped && k !in SemanticsPlaces && k !in SemanticsAmounts
    ensures Declared(SemanticsTexts, k, v) <==> SemanticEntry(k, v)
  {
    AnyStringIff(v);
  }

  lemma AmountsLayer(k: string, v: Value)
    requires k in SemanticsAmounts
    ensures Declared(SemanticsProps, k, v) <==> SemanticEntry(k, v)
  {
    DeclaredMerge(SemanticsTexts + SemanticsShaped + SemanticsPlaces, SemanticsAmounts, k, v);
    AmountsEntryIff(k, v);
  }

  lemma PlacesLayer(k: string, v: Value)
    requires k !in SemanticsAmounts && k in SemanticsPlaces
    ensures Declared(SemanticsProps, k, v) <==> SemanticEntry(k, v)
  {
    DeclaredMerge(SemanticsTexts + SemanticsShaped + SemanticsPlaces, SemanticsAmounts, k, v);
    DeclaredMerge(SemanticsTexts + SemanticsShaped, SemanticsPlaces, k, v);
    PlacesEntryIff(k, v);
  }

  /** Below the places and amounts: the shaped entries over the texts. */
  lemma LowerLayers(k: string, v: Value)
    requires k !in SemanticsAmounts && k !in SemanticsPlaces
    ensures Declared(SemanticsProps, k, v) <==> Declared(SemanticsTexts + SemanticsShaped, k, v)
  {
    DeclaredMerge(SemanticsTexts + SemanticsShaped + SemanticsPlaces, SemanticsAmounts, k, v);
    DeclaredMerge(SemanticsTexts + SemanticsShaped, SemanticsPlaces, k, v);
  }

  lemma ShapedLayer(k: string, v: Value)
    requires k !in SemanticsAmounts && k !in SemanticsPlaces && k in SemanticsShaped
    ensures Declared(SemanticsProps, k, v) <==> SemanticEntry(k, v)
  {
    LowerLayers(k, v);
    DeclaredMerge(SemanticsTexts, SemanticsShaped, k, v);
    ShapedEntryIff(k, v);
  }

  lemma TextsLayer(k: string, v: Value)
    requires k !in SemanticsAmounts && k !in SemanticsPlaces && k !in SemanticsShaped
    ensures Declared(SemanticsProps, k, v) <==> SemanticEntry(k, v)
  {
    LowerLayers(k, v);
    DeclaredMerge(SemanticsTexts, SemanticsShaped, k, v);
    TextsEntryIff(k, v);
  }

  lemma SemanticEntryIff(k: string, v: Value)
    ensures Declared(SemanticsProps, k, v) <==> SemanticEntry(k, v)
  {
    if k in SemanticsAmounts {
      AmountsLayer(k, v);
    } else if k in SemanticsPlaces {
      PlacesLayer(k, v);
    } else if k in SemanticsShaped {
      ShapedLayer(k, v);
    } else {
      TextsLayer(k, v);
    }
  }

  lemma SemanticEntries(o: map<string, Value>)
    ensures (forall k | k in o :: Declared(SemanticsProps, k, o[k])) <==>
      (forall k | k in o :: SemanticEntry(k, o[k]))
  {
    forall k | k in o
      ensures Declared(SemanticsProps, k, o[k]) <==> SemanticEntry(k, o[k])
    {
      SemanticEntryIff(k, o[k]);
    }
  }

  lemma TextsOptional() ensures NoneRequired(SemanticsTexts) { }

  lemma ChunksOptional()
    ensures NoneRequired(SemanticsTexts) && NoneRequired(SemanticsShaped)
    ensures NoneRequired(SemanticsPlaces) && NoneRequired(SemanticsAmounts)
  {
    TextsOptional();
  }

  /** No semantic key is required. */
  lemma SemanticsRequired(o: map<string, Value>)
    ensures RequiredPresent(SemanticsProps, o)
  {
    ChunksOptional();
    MergeNoneRequired(SemanticsTexts, SemanticsShaped);
    MergeNoneRequired(SemanticsTexts + SemanticsShaped, SemanticsPlaces);
    MergeNoneRequired(SemanticsTexts + SemanticsShaped + SemanticsPlaces, SemanticsAmounts);
    NoneRequiredPresent(SemanticsProps, o);
  }

  lemma ChunksAllOptional()
    ensures AllOptional(SemanticsTexts) && AllOptional(SemanticsShaped)
    ensures AllOptional(SemanticsPlaces) && AllOptional(SemanticsAmounts)
  {
  }

  /** No semantic key is required or has a default. */
  lemma SemanticsAllOptional()
    ensures AllOptional(SemanticsProps)
  {
    ChunksAllOptional();
    MergeAllOptional(SemanticsTexts, SemanticsShaped);
    MergeAllOptional(SemanticsTexts + SemanticsShaped, SemanticsPlaces);
    MergeAllOptional(SemanticsTexts + SemanticsShaped + SemanticsPlaces, SemanticsAmounts);
  }

  lemma SemanticsConforms(v: Value)
    ensures Conforms(Semantics, v) <==> IsSemantics(v)
  {
    if v.Obj? {
      ObjectByKeys(Semantics, v.props);
      SemanticEntries(v.props);
      SemanticsRequired(v.props);
    } else {
      SemanticsAllOptional();
    }
  }
}
