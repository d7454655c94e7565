/** The fixed catalogue of pass-document descriptors, and the two entry
    points that look a descriptor up by name and check a document with it:
    `IsValid` (a yes/no answer, undeclared keys are errors) and
    `GetValidated` (the validated value, undeclared keys dropped, defaults
    filled in, or `None` where the source returns `null`). */
module Schema {
  import opened Wrappers
  import opened Values
  import opened Rules

  // ---- building blocks -------------------------------------------------

  /** `Joi.string()`: any non-empty string. */
  const AnyString: Rule := StringOf(false, 0, None, AnyText)
  /** `Joi.string().allow("")`. */
  const StringOrEmpty: Rule := StringOf(true, 0, None, AnyText)
  /** `Joi.number()`. */
  const AnyNumber: Rule := NumberOf(false, NoMin, NoMax)
  /** `Joi.alternatives(Joi.binary(), Joi.string())`. */
  const StringOrBinary: Rule := Either(BinaryValue, AnyString)
  /** `Joi.alternatives(Joi.string().allow(""), Joi.number(), Joi.date().iso())`. */
  const FieldValue: Rule := Either(StringOrEmpty, Either(AnyNumber, DateValue))

  /** `Joi.string().regex(/(A|B|...)/)`: an unanchored alternation. */
  function Containing(literals: seq<string>): Rule {
    StringOf(false, 0, None, OneOfContained(literals))
  }

  function Opt(rule: Rule): Prop { Prop(rule, Optional) }
  function Req(rule: Rule): Prop { Prop(rule, Required) }

  // ---- closed literal sets --------------------------------------------

  const EventTypes: seq<string> := [
    "PKEventTypeGeneric", "PKEventTypeLivePerformance", "PKEventTypeMovie", "PKEventTypeSports",
    "PKEventTypeConference", "PKEventTypeConvention", "PKEventTypeWorkshop", "PKEventTypeSocialGathering"]
  const BarcodeFormats: seq<string> := [
    "PKBarcodeFormatQR", "PKBarcodeFormatPDF417", "PKBarcodeFormatAztec", "PKBarcodeFormatCode128"]
  const DataDetectorTypes: seq<string> := [
    "PKDataDetectorTypePhoneNumber", "PKDataDetectorTypeLink", "PKDataDetectorTypeAddress",
    "PKDataDetectorTypeCalendarEvent"]
  const TextAlignments: seq<string> := [
    "PKTextAlignmentLeft", "PKTextAlignmentCenter", "PKTextAlignmentRight", "PKTextAlignmentNatural"]
  const DateStyles: seq<string> := [
    "PKDateStyleNone", "PKDateStyleShort", "PKDateStyleMedium", "PKDateStyleLong", "PKDateStyleFull"]
  const NumberStyles: seq<string> := [
    "PKNumberStyleDecimal", "PKNumberStylePercent", "PKNumberStyleScientific", "PKNumberStyleSpellOut"]
  const TransitTypes: seq<string> := [
    "PKTransitTypeAir", "PKTransitTypeBoat", "PKTransitTypeBus", "PKTransitTypeGeneric", "PKTransitTypeTrain"]
  const PersonalizationFields: set<string> := {
    "PKPassPersonalizationFieldName", "PKPassPersonalizationFieldPostalCode",
    "PKPassPersonalizationFieldEmailAddress", "PKPassPersonalizationFieldPhoneNumber"}

  const DefaultMessageEncoding: string := "iso-8859-1"

  // ---- descriptors -----------------------------------------------------

  const CertificatesSchema: Rule := ObjectOf(map[
    "wwdr" := Req(StringOrBinary),
    "signerCert" := Req(StringOrBinary),
    "signerKey" := Req(Either(
      ObjectOf(map["keyFile" := Req(StringOrBinary), "passphrase" := Req(AnyString)], []),
      StringOrBinary))
  ], [])

  const Instance: Rule := ObjectOf(map[
    "model" := Req(Either(AnyObject, AnyString)),
    "certificates" := Opt(AnyObject),
    "overrides" := Opt(AnyObject)
  ], [])

  /** Options whose only constraint is "a non-empty string". */
  const OptionTextKeys: set<string> := {
    "serialNumber", "description", "organizationName", "passTypeIdentifier", "teamIdentifier",
    "appLaunchURL", "groupingIdentifier", "logoText"}
  /** Colour options: strings of 10 to 16 characters. */
  const ColorKeys: set<string> := {"backgroundColor", "foregroundColor", "labelColor"}
  const OptionFlagKeys: set<string> := {"sharingProhibited", "suppressStripShine"}

  const ColorText: Rule := StringOf(false, 10, Some(16), AnyText)

  const OptionsShaped: map<string, Prop> := map[
    "associatedStoreIdentifiers" := Opt(ArrayOf(AnyNumber)),
    "userInfo" := Opt(Either(AnyObject, AnyArray)),
    "webServiceURL" := Opt(StringOf(false, 0, None, WebUrl)),
    "authenticationToken" := Opt(StringOf(false, 16, None, AnyText)),
    "maxDistance" := Opt(NumberOf(false, Above(0.0), NoMax))
  ]

  const OptionsText: map<string, Prop> := map[
    "serialNumber" := Opt(AnyString), "description" := Opt(AnyString),
    "organizationName" := Opt(AnyString), "passTypeIdentifier" := Opt(AnyString),
    "teamIdentifier" := Opt(AnyString), "appLaunchURL" := Opt(AnyString),
    "groupingIdentifier" := Opt(AnyString), "logoText" := Opt(AnyString)]

  const OptionsColors: map<string, Prop> :=
    map["backgroundColor" := Opt(ColorText), "foregroundColor" := Opt(ColorText), "labelColor" := Opt(ColorText)]

  const OptionsFlags: map<string, Prop> :=
    map["sharingProhibited" := Opt(BooleanValue), "suppressStripShine" := Opt(BooleanValue)]

  const OptionsProps: map<string, Prop> :=
    OptionsShaped
    + OptionsText + OptionsColors + OptionsFlags

  const SupportedOptions: Rule := ObjectOf(OptionsProps, [With("webServiceURL", "authenticationToken")])

  const CurrencyAmount: Rule := ObjectOf(map[
    "currencyCode" := Req(AnyString),
    "amount" := Req(AnyString)
  ], [])

  const PersonNameComponents: Rule := ObjectOf(map[
    "givenName" := Req(AnyString),
    "familyName" := Req(AnyString)
  ], [])

  const SeatKeys: set<string> := {
    "seatSection", "seatRow", "seatNumber", "seatIdentifier", "seatType", "seatDescription"}

  const Seat: Rule := ObjectOf(map[
    "seatSection" := Opt(AnyString), "seatRow" := Opt(AnyString), "seatNumber" := Opt(AnyString),
    "seatIdentifier" := Opt(AnyString), "seatType" := Opt(AnyString), "seatDescription" := Opt(AnyString)], [])

  /** The coordinates object used inside semantics (no altitude, no text). */
  const Location: Rule := ObjectOf(map[
    "latitude" := Req(AnyNumber),
    "longitude" := Req(AnyNumber)
  ], [])

  /** The semantic keys whose only constraint is "a non-empty string". */
  const SemanticStringKeys: set<string> := {
    "transitProvider", "vehicleName", "vehicleType",
    "originalDepartureDate", "currentDepartureDate", "originalArrivalDate", "currentArrivalDate",
    "originalBoardingDate", "currentBoardingDate", "boardingGroup", "boardingSequenceNumber",
    "confirmationNumber", "transitStatus", "transitStatuReason",
    "membershipProgramName", "membershipProgramNumber", "priorityStatus", "securityScreening",
    "flightCode", "airlineCode", "departureAirportCode", "departureAirportName",
    "destinationTerminal", "destinationGate",
    "departurePlatform", "departureStationName", "destinationPlatform", "destinationStationName", "carNumber",
    "eventName", "venueName", "venueEntrance", "venuePhoneNumber", "venueRoom",
    "eventStartDate", "eventEndDate", "artistIDs", "genre",
    "leagueName", "leagueAbbreviation", "homeTeamLocation", "homeTeamName", "homeTeamAbbreviation",
    "awayTeamLocation", "awayTeamName", "awayTeamAbbreviation", "sportName"}

  /** Semantic keys holding coordinates. */
  const LocationKeys: set<string> := {
    "departureLocation", "destinationLocation", "destinationLocationDescription", "venueLocation"}
  /** Semantic keys holding a currency amount. */
  const AmountKeys: set<string> := {"totalPrice", "balance"}
  /** Semantic keys holding a number. */
  const SemanticNumberKeys: set<string> := {"duration", "flightNumber"}

  const SemanticsShaped: map<string, Prop> := map[
    "seats" := Opt(ArrayOf(Seat)),
    "silenceRequested" := Opt(BooleanValue),
    "passengetName" := Opt(PersonNameComponents),
    "eventType" := Opt(Containing(EventTypes)),
    "performerNames" := Opt(ArrayOf(AnyString))
  ]

  const SemanticsPlaces: map<string, Prop> := map[
    "departureLocation" := Opt(Location), "destinationLocation" := Opt(Location),
    "destinationLocationDescription" := Opt(Location), "venueLocation" := Opt(Location)]

  const SemanticsAmounts: map<string, Prop> := map[
    "totalPrice" := Opt(CurrencyAmount), "balance" := Opt(CurrencyAmount),
    "duration" := Opt(AnyNumber), "flightNumber" := Opt(AnyNumber)]

  const SemanticsTexts: map<string, Prop> := map k | k in SemanticStringKeys :: Opt(AnyString)

  /** The string keys come first, so the shaped entries are looked up
      without reference to the long list. */
  const SemanticsProps: map<string, Prop> :=
    SemanticsTexts + SemanticsShaped
    + SemanticsPlaces + SemanticsAmounts

  const Semantics: Rule := ObjectOf(SemanticsProps, [])

  const FieldFlagKeys: set<string> := {"ignoresTimeZone", "isRelative"}
  /** `dateStyle` and `timeStyle`. */
  const StyleKeys: set<string> := {"dateStyle", "timeStyle"}

  /** The field keys about the field's content. */
  const FieldContent: map<string, Prop> := map[
    "key" := Req(AnyString),
    "value" := Req(FieldValue),
    "attributedValue" := Opt(FieldValue),
    "label" := Opt(StringOrEmpty),
    "changeMessage" := Opt(AnyString)
  ]

  /** The field keys about the field's presentation. */
  const FieldFormat: map<string, Prop> := map[
    "currencyCode" := Opt(AnyString),
    "numberStyle" := Opt(Containing(NumberStyles)),
    "textAlignment" := Opt(Containing(TextAlignments)),
    "dataDetectorType" := Opt(ArrayOf(Containing(DataDetectorTypes)))
  ]

  /** Date styles and flags. */
  const FieldToggles: map<string, Prop> := map[
    "dateStyle" := Opt(Containing(DateStyles)), "timeStyle" := Opt(Containing(DateStyles)),
    "ignoresTimeZone" := Opt(BooleanValue), "isRelative" := Opt(BooleanValue)]

  /** The field keys with flat values. */
  const FieldPlainProps: map<string, Prop> :=
    FieldContent + FieldFormat + FieldToggles

  const FieldCross: seq<Cross> := [OnlyWithNumber("currencyCode", "value"), OnlyWithNumber("numberStyle", "value")]

  const RowProp: map<string, Prop> := map["row" := Opt(NumberOf(false, AtLeast(0.0), AtMost(1.0)))]

  /** The field table around a given descriptor for `semantics`. The
      catalogue always passes `Semantics`; keeping the nested descriptor a
      parameter lets the field's own keys be reasoned about on their own. */
  function FieldPropsWith(semantics: Rule): map<string, Prop> {
    map["semantics" := Opt(semantics)] + FieldPlainProps
  }

  function FieldWith(semantics: Rule): Rule {
    ObjectOf(FieldPropsWith(semantics), FieldCross)
  }

  /** An auxiliary field: a field that may also carry a `row` in [0, 1]. */
  function AuxiliaryFieldWith(semantics: Rule): Rule {
    ObjectOf(FieldPropsWith(semantics) + RowProp, FieldCross)
  }

  /** The five field lists of a pass, given the rule of one field and of
      one auxiliary field. */
  function FieldLists(field: Rule, aux: Rule): map<string, Prop> {
    map[
      "auxiliaryFields" := Opt(ArrayOf(aux)),
      "backFields" := Opt(ArrayOf(field)),
      "headerFields" := Opt(ArrayOf(field)),
      "primaryFields" := Opt(ArrayOf(field)),
      "secondaryFields" := Opt(ArrayOf(field))
    ]
  }

  /** The lists other than the auxiliary one. */
  const PlainFieldLists: set<string> := {"backFields", "headerFields", "primaryFields", "secondaryFields"}

  /** What each key of the field lists holds. */
  lemma FieldListsAt(field: Rule, aux: Rule, k: string)
    ensures k in FieldLists(field, aux) <==> k == "auxiliaryFields" || k in PlainFieldLists
    ensures k == "auxiliaryFields" ==> FieldLists(field, aux)[k] == Opt(ArrayOf(aux))
    ensures k in PlainFieldLists ==> FieldLists(field, aux)[k] == Opt(ArrayOf(field))
  {
  }

  function PassDictWith(semantics: Rule): Rule {
    ObjectOf(FieldLists(FieldWith(semantics), AuxiliaryFieldWith(semantics)), [])
  }

  const Field: Rule := FieldWith(Semantics)
  const AuxiliaryField: Rule := AuxiliaryFieldWith(Semantics)
  const PassDict: Rule := PassDictWith(Semantics)

  const Barcode: Rule := ObjectOf(map[
    "altText" := Opt(AnyString),
    "messageEncoding" := Prop(AnyString, Defaulted(Str(DefaultMessageEncoding))),
    "format" := Req(Containing(BarcodeFormats)),
    "message" := Req(AnyString)
  ], [])

  const BeaconsDict: Rule := ObjectOf(map[
    "major" := Opt(NumberOf(true, Above(0.0), AtMost(65535.0))),
    "minor" := Opt(NumberOf(true, AtLeast(0.0), AtMost(65535.0))),
    "proximityUUID" := Req(AnyString),
    "relevantText" := Opt(AnyString)
  ], [Greater("major", "minor")])

  const LocationsDict: Rule := ObjectOf(map[
    "altitude" := Opt(AnyNumber),
    "latitude" := Req(AnyNumber),
    "longitude" := Req(AnyNumber),
    "relevantText" := Opt(AnyString)
  ], [])

  const TransitType: Rule := Containing(TransitTypes)

  const NfcDict: Rule := ObjectOf(map[
    "message" := Req(StringOf(false, 0, Some(64), AnyText)),
    "encryptionPublicKey" := Opt(AnyString)
  ], [])

  const PersonalizationDict: Rule := ObjectOf(map[
    "requiredPersonalizationFields" := Req(ArrayOf(LiteralOf(PersonalizationFields))),
    "description" := Req(AnyString),
    "termsAndConditions" := Opt(AnyString)
  ], [])

  /** The keys of the `schemas` table. */
  datatype SchemaName =
    | InstanceName | CertificatesName | BarcodeName | FieldName | PassDictName | BeaconsName
    | LocationsName | TransitTypeName | NfcName | SupportedOptionsName | PersonalizationName

  /** The name each descriptor is registered under. */
  function NameText(n: SchemaName): string {
    match n
    case InstanceName => "instance"
    case CertificatesName => "certificatesSchema"
    case BarcodeName => "barcode"
    case FieldName => "field"
    case PassDictName => "passDict"
    case BeaconsName => "beaconsDict"
    case LocationsName => "locationsDict"
    case TransitTypeName => "transitType"
    case NfcName => "nfcDict"
    case SupportedOptionsName => "supportedOptions"
    case PersonalizationName => "personalizationDict"
  }

  /** The descriptor registered under each name. */
  function Descriptor(n: SchemaName): Rule {
    match n
    case InstanceName => Instance
    case CertificatesName => CertificatesSchema
    case BarcodeName => Barcode
    case FieldName => Field
    case PassDictName => PassDict
    case BeaconsName => BeaconsDict
    case LocationsName => LocationsDict
    case TransitTypeName => TransitType
    case NfcName => NfcDict
    case SupportedOptionsName => SupportedOptions
    case PersonalizationName => PersonalizationDict
  }

  /** Every descriptor of the catalogue is well formed. */
  lemma DescriptorWellFormed(n: SchemaName)
    ensures WellFormed(Descriptor(n))
  {
    match n
    case InstanceName => InstanceWellFormed();
    case CertificatesName => CertificatesWellFormed();
    case BarcodeName => BarcodeWellFormed();
    case FieldName => FieldWellFormed();
    case PassDictName => PassDictWellFormed();
    case BeaconsName => BeaconsWellFormed();
    case LocationsName => LocationsWellFormed();
    case TransitTypeName =>
    case NfcName => NfcWellFormed();
    case SupportedOptionsName => OptionsWellFormed();
    case PersonalizationName => PersonalizationWellFormed();
  }

  // ---- well-formedness of the catalogue ---------------------------------

  lemma InstanceWellFormed() ensures WellFormed(Instance) { }
  lemma CertificatesWellFormed() ensures WellFormed(CertificatesSchema) {
    var keyFile := map["keyFile" := Req(StringOrBinary), "passphrase" := Req(AnyString)];
    assert WellFormed(StringOrBinary);
    assert WellFormed(ObjectOf(keyFile, []));
    assert !keyFile["keyFile"].presence.Optional?;
  }

  lemma BarcodeWellFormed() ensures WellFormed(Barcode) {
    EncodingIsText();
    assert PropsWellFormed(Barcode.props);
    ObjectWellFormed(Barcode.props, []);
  }

  lemma EncodingIsText()
    ensures Validate(AnyString, Str(DefaultMessageEncoding), false) == Some(Str(DefaultMessageEncoding))
  {
    assert StringFits(AnyString, DefaultMessageEncoding);
  }

  lemma BeaconsWellFormed() ensures WellFormed(BeaconsDict) { }
  lemma LocationsWellFormed() ensures WellFormed(LocationsDict) { }
  lemma NfcWellFormed() ensures WellFormed(NfcDict) { }
  lemma OptionsWellFormed() ensures WellFormed(SupportedOptions) {
    OptionsShapedWellFormed();
    OptionsPlainWellFormed();
    MergeWellFormed(OptionsShaped, OptionsText);
    MergeWellFormed(OptionsShaped + OptionsText, OptionsColors);
    MergeWellFormed(OptionsShaped + OptionsText + OptionsColors, OptionsFlags);
    ObjectWellFormed(OptionsProps, SupportedOptions.cross);
  }

  lemma OptionsShapedWellFormed() ensures PropsWellFormed(OptionsShaped) { }

  lemma OptionsTextWellFormed() ensures PropsWellFormed(OptionsText) { }
  lemma OptionsColorsWellFormed() ensures PropsWellFormed(OptionsColors) { }
  lemma OptionsFlagsWellFormed() ensures PropsWellFormed(OptionsFlags) { }

  lemma OptionsPlainWellFormed()
    ensures PropsWellFormed(OptionsText)
    ensures PropsWellFormed(OptionsColors)
    ensures PropsWellFormed(OptionsFlags)
  {
    OptionsTextWellFormed();
    OptionsColorsWellFormed();
    OptionsFlagsWellFormed();
  }

  lemma PersonalizationWellFormed() ensures WellFormed(PersonalizationDict) { }

  lemma SemanticsWellFormed()
    ensures WellFormed(Semantics)
  {
    SemanticsShapedWellFormed();
    SemanticsNestedWellFormed();
    assert PropsWellFormed(SemanticsTexts);
    MergeWellFormed(SemanticsTexts, SemanticsShaped);
    MergeWellFormed(SemanticsTexts + SemanticsShaped, SemanticsPlaces);
    MergeWellFormed(SemanticsTexts + SemanticsShaped + SemanticsPlaces, SemanticsAmounts);
    ObjectWellFormed(SemanticsProps, []);
  }

  lemma SeatWellFormed() ensures WellFormed(ArrayOf(Seat)) { }
  lemma PersonNameWellFormed() ensures WellFormed(PersonNameComponents) { }

  lemma SemanticsShapedWellFormed()
    ensures PropsWellFormed(SemanticsShaped)
  {
    SeatWellFormed();
    PersonNameWellFormed();
    assert forall k | k in SemanticsShaped :: SemanticsShaped[k] in {
      Opt(ArrayOf(Seat)), Opt(BooleanValue), Opt(PersonNameComponents),
      Opt(Containing(EventTypes)), Opt(ArrayOf(AnyString))};
  }

  lemma LocationWellFormed() ensures WellFormed(Location) { }

  lemma CurrencyAmountWellFormed() ensures WellFormed(CurrencyAmount) { }

  lemma SemanticsPlacesWellFormed()
    ensures PropsWellFormed(SemanticsPlaces)
  {
    LocationWellFormed();
  }

  lemma SemanticsAmountsWellFormed()
    ensures PropsWellFormed(SemanticsAmounts)
  {
    CurrencyAmountWellFormed();
  }

  lemma SemanticsNestedWellFormed()
    ensures PropsWellFormed(SemanticsPlaces)
    ensures PropsWellFormed(SemanticsAmounts)
  {
    SemanticsPlacesWellFormed();
    SemanticsAmountsWellFormed();
  }

  lemma FieldTableWellFormed(semantics: Rule)
    requires WellFormed(semantics)
    ensures WellFormed(FieldWith(semantics)) && WellFormed(AuxiliaryFieldWith(semantics))
  {
    FieldPlainWellFormed();
    assert PropsWellFormed(map["semantics" := Opt(semantics)]);
    MergeWellFormed(map["semantics" := Opt(semantics)], FieldPlainProps);
    RowWellFormed();
    MergeWellFormed(FieldPropsWith(semantics), RowProp);
    ObjectWellFormed(FieldPropsWith(semantics), FieldCross);
    ObjectWellFormed(FieldPropsWith(semantics) + RowProp, FieldCross);
  }

  lemma FieldPlainWellFormed()
    ensures PropsWellFormed(FieldPlainProps)
  {
    FieldContentWellFormed();
    FieldFormatWellFormed();
    FieldTogglesWellFormed();
    MergeWellFormed(FieldContent, FieldFormat);
    MergeWellFormed(FieldContent + FieldFormat, FieldToggles);
  }

  lemma FieldContentWellFormed()
    ensures PropsWellFormed(FieldContent)
  {
    assert WellFormed(FieldValue);
  }

  lemma FieldTogglesWellFormed() ensures PropsWellFormed(FieldToggles) { }

  lemma FieldFormatWellFormed() ensures PropsWellFormed(FieldFormat) { }

  lemma FieldWellFormed()
    ensures WellFormed(Field)
    ensures WellFormed(AuxiliaryField)
  {
    SemanticsWellFormed();
    FieldTableWellFormed(Semantics);
  }

  lemma RowWellFormed() ensures PropsWellFormed(RowProp) { }

  /** The field lists are well formed when the field rules are. */
  lemma FieldListsWellFormed(field: Rule, aux: Rule)
    requires WellFormed(field) && WellFormed(aux)
    ensures WellFormed(ObjectOf(FieldLists(field, aux), []))
  {
    var props := FieldLists(field, aux);
    forall k | k in props ensures props[k] in {Opt(ArrayOf(aux)), Opt(ArrayOf(field))} {
      FieldListsAt(field, aux, k);
    }
    ObjectWellFormed(props, []);
  }

  lemma PassDictTableWellFormed(semantics: Rule)
    requires WellFormed(semantics)
    ensures WellFormed(PassDictWith(semantics))
  {
    FieldTableWellFormed(semantics);
    FieldListsWellFormed(FieldWith(semantics), AuxiliaryFieldWith(semantics));
  }

  lemma PassDictWellFormed()
    ensures WellFormed(PassDict)
  {
    SemanticsWellFormed();
    PassDictTableWellFormed(Semantics);
  }

}
