/** The flat descriptors of the catalogue restated key by key: what a
    beacon, a location, an NFC payload, a personalization request, a
    barcode, a transit type, a certificate set and a factory instance must
    look like, each proved equivalent to what `isValid` answers for it. */
module Dictionaries {
  import opened Wrappers
  import opened Strings
  import opened Values
  import opened Rules
  import opened Schema
  import opened Validator
  import opened Documents

  // ---- beaconsDict -------------------------------------------------------

  /** The keys a beacon may carry and what each must hold. */
  predicate BeaconEntry(k: string, v: Value) {
    if k == "major" then IsIntegerIn(v, 1, 65535)
    else if k == "minor" then IsIntegerIn(v, 0, 65535)
    else if k == "proximityUUID" || k == "relevantText" then IsText(v)
    else false
  }

  /** A beacon: declared keys only, a UUID, and `major` above `minor`
      when both are given. */
  predicate BeaconOk(o: map<string, Value>) {
    && (forall k | k in o :: BeaconEntry(k, o[k]))
    && "proximityUUID" in o
    && ("major" in o && "minor" in o ==> o["major"].Num? && o["minor"].Num? && o["major"].n > o["minor"].n)
  }

  lemma BeaconEntryIff(k: string, v: Value)
    ensures Declared(BeaconsDict.props, k, v) <==> BeaconEntry(k, v)
  {
  }

  lemma BeaconEntries(o: map<string, Value>)
    ensures (forall k | k in o :: Declared(BeaconsDict.props, k, o[k])) <==>
      (forall k | k in o :: BeaconEntry(k, o[k]))
  {
    forall k | k in o
      ensures Declared(BeaconsDict.props, k, o[k]) <==> BeaconEntry(k, o[k])
    {
      BeaconEntryIff(k, o[k]);
    }
  }

  lemma BeaconRequired(o: map<string, Value>)
    ensures RequiredPresent(BeaconsDict.props, o) <==> "proximityUUID" in o
  {
  }

  lemma BeaconConforms(v: Value)
    ensures Conforms(BeaconsDict, v) <==> v.Obj? && BeaconOk(v.props)
  {
    if v.Obj? {
      assert TopNoDefaults(BeaconsDict.props);
      assert CrossStable(BeaconsDict);
      SingleCross(Greater("major", "minor"), v.props);
      ObjectByKeys(BeaconsDict, v.props);
      BeaconEntries(v.props);
      BeaconRequired(v.props);
    }
  }

  /** `isValid(v, "beaconsDict")` is the beacon predicate. */
  lemma BeaconIff(v: Value)
    ensures IsValid(v, "beaconsDict") <==> v.Obj? && BeaconOk(v.props)
  {
    IsValidByName(BeaconsName, v);
    BeaconConforms(v);
  }

  // ---- locationsDict -----------------------------------------------------

  predicate LocationEntry(k: string, v: Value) {
    if k == "altitude" || k == "latitude" || k == "longitude" then IsNumber(v)
    else if k == "relevantText" then IsText(v)
    else false
  }

  /** A relevant location: numeric coordinates, latitude and longitude
      required, and an optional text. */
  predicate LocationOk(o: map<string, Value>) {
    && (forall k | k in o :: LocationEntry(k, o[k]))
    && "latitude" in o && "longitude" in o
  }

  lemma LocationEntryIff(k: string, v: Value)
    ensures Declared(LocationsDict.props, k, v) <==> LocationEntry(k, v)
  {
  }

  lemma LocationEntries(o: map<string, Value>)
    ensures (forall k | k in o :: Declared(LocationsDict.props, k, o[k])) <==>
      (forall k | k in o :: LocationEntry(k, o[k]))
  {
    forall k | k in o
      ensures Declared(LocationsDict.props, k, o[k]) <==> LocationEntry(k, o[k])
    {
      LocationEntryIff(k, o[k]);
    }
  }

  lemma LocationRequired(o: map<string, Value>)
    ensures RequiredPresent(LocationsDict.props, o) <==> "latitude" in o && "longitude" in o
  {
  }

  lemma LocationConforms(v: Value)
    ensures Conforms(LocationsDict, v) <==> v.Obj? && LocationOk(v.props)
  {
    if v.Obj? {
      ObjectByKeys(LocationsDict, v.props);
      LocationEntries(v.props);
      LocationRequired(v.props);
    }
  }

  lemma LocationIff(v: Value)
    ensures IsValid(v, "locationsDict") <==> v.Obj? && LocationOk(v.props)
  {
    IsValidByName(LocationsName, v);
    LocationConforms(v);
  }

  // ---- nfcDict -----------------------------------------------------------

  predicate NfcEntry(k: string, v: Value) {
    if k == "message" then IsText(v) && Utf16Length(v.s) <= 64
    else if k == "encryptionPublicKey" then IsText(v)
    else false
  }

  /** An NFC payload: a required message of at most 64 UTF-16 code units
      and an optional public key. */
  predicate NfcOk(o: map<string, Value>) {
    && (forall k | k in o :: NfcEntry(k, o[k]))
    && "message" in o
  }

  lemma NfcEntryIff(k: string, v: Value)
    ensures Declared(NfcDict.props, k, v) <==> NfcEntry(k, v)
  {
  }

  lemma NfcEntries(o: map<string, Value>)
    ensures (forall k | k in o :: Declared(NfcDict.props, k, o[k])) <==>
      (forall k | k in o :: NfcEntry(k, o[k]))
  {
    forall k | k in o
      ensures Declared(NfcDict.props, k, o[k]) <==> NfcEntry(k, o[k])
    {
      NfcEntryIff(k, o[k]);
    }
  }

  lemma NfcRequired(o: map<string, Value>)
    ensures RequiredPresent(NfcDict.props, o) <==> "message" in o
  {
  }

  lemma NfcConforms(v: Value)
    ensures Conforms(NfcDict, v) <==> v.Obj? && NfcOk(v.props)
  {
    if v.Obj? {
      ObjectByKeys(NfcDict, v.props);
      NfcEntries(v.props);
      NfcRequired(v.props);
    } else {
      RequiredKeyNeedsObject(NfcDict, "message", v, false);
    }
  }

  lemma NfcIff(v: Value)
    ensures IsValid(v, "nfcDict") <==> v.Obj? && NfcOk(v.props)
  {
    IsValidByName(NfcName, v);
    NfcConforms(v);
  }

  const NfcKeys: set<string> := {"message", "encryptionPublicKey"}

  /** What `getValidated` asks of an NFC payload: a message, and a good
      value under every declared key; other keys are ignored. */
  predicate NfcKept(o: map<string, Value>) {
    (forall k | k in o && k in NfcKeys :: NfcEntry(k, o[k])) && "message" in o
  }

  /** The payload `getValidated` hands back: the declared keys as given. */
  function NfcOut(o: map<string, Value>): (r: map<string, Value>)
    ensures r.Keys == o.Keys * NfcKeys
    ensures forall k | k in r :: r[k] == o[k]
  {
    map k | k in o && k in NfcKeys :: o[k]
  }

  lemma NfcKeptIff(o: map<string, Value>)
    ensures (RequiredPresent(NfcDict.props, o) && forall k | k in o && k in NfcDict.props :: Declared(NfcDict.props, k, o[k]))
      <==> NfcKept(o)
  {
    NfcRequired(o);
    forall k | k in o && k in NfcDict.props ensures Declared(NfcDict.props, k, o[k]) <==> NfcEntry(k, o[k]) {
      NfcEntryIff(k, o[k]);
    }
    assert NfcDict.props.Keys == NfcKeys;
  }

  lemma NfcStripped(o: map<string, Value>)
    ensures Validate(NfcDict, Obj(o), true) == if NfcKept(o) then Some(Obj(NfcOut(o))) else None
  {
    assert LeafProps(NfcDict.props) && NfcDict.props.Keys == NfcKeys;
    FlatObjectValidated(NfcDict, o);
    assert Defaults(NfcDict.props, o) == map[];
    assert Defaults(NfcDict.props, o) + (map k | k in o && k in NfcDict.props :: o[k]) == NfcOut(o);
    NfcKeptIff(o);
  }

  /** `getValidated(v, "nfcDict")`: the declared keys as given, the rest
      dropped. */
  lemma NfcValidated(v: Value)
    ensures GetValidated(v, "nfcDict") == if v.Obj? && NfcKept(v.props) then Some(Obj(NfcOut(v.props))) else None
  {
    if v.Obj? {
      GetValidatedByName(NfcName, v);
      NfcStripped(v.props);
    } else {
      NfcNeedsObject(v);
    }
  }

  lemma NfcMessageRequired()
    ensures !AllOptional(NfcDict.props)
  {
    assert NfcDict.props["message"].presence.Required?;
  }

  lemma NfcNeedsObject(v: Value)
    requires !v.Obj?
    ensures GetValidated(v, "nfcDict").None?
  {
    NfcMessageRequired();
    GetValidatedByName(NfcName, v);
  }

  // ---- personalizationDict -----------------------------------------------

  /** One of the four personalization fields, spelled exactly. */
  predicate IsPersonalizationField(v: Value) {
    && v.Str?
    && (|| v.s == "PKPassPersonalizationFieldName"
        || v.s == "PKPassPersonalizationFieldPostalCode"
        || v.s == "PKPassPersonalizationFieldEmailAddress"
        || v.s == "PKPassPersonalizationFieldPhoneNumber")
  }

  predicate PersonalizationEntry(k: string, v: Value) {
    if k == "requiredPersonalizationFields" then
      v.Arr? && forall i | 0 <= i < |v.items| :: IsPersonalizationField(v.items[i])
    else if k == "description" || k == "termsAndConditions" then IsText(v)
    else false
  }

  /** A personalization request: the list of fields and a description are
      required, the terms are optional. */
  predicate PersonalizationOk(o: map<string, Value>) {
    && (forall k | k in o :: PersonalizationEntry(k, o[k]))
    && "requiredPersonalizationFields" in o && "description" in o
  }

  lemma PersonalizationEntryIff(k: string, v: Value)
    ensures Declared(PersonalizationDict.props, k, v) <==>
      PersonalizationEntry(k, v)
  {
    if k == "requiredPersonalizationFields" && v.Arr? {
      ArrayConforms(LiteralOf(PersonalizationFields), v.items);
    }
  }

  lemma PersonalizationEntries(o: map<string, Value>)
    ensures (forall k | k in o :: Declared(PersonalizationDict.props, k, o[k])) <==>
      (forall k | k in o :: PersonalizationEntry(k, o[k]))
  {
    forall k | k in o
      ensures Declared(PersonalizationDict.props, k, o[k]) <==> PersonalizationEntry(k, o[k])
    {
      PersonalizationEntryIff(k, o[k]);
    }
  }

  lemma PersonalizationRequired(o: map<string, Value>)
    ensures RequiredPresent(PersonalizationDict.props, o) <==> "requiredPersonalizationFields" in o && "description" in o
  {
  }

  lemma PersonalizationConforms(v: Value)
    ensures Conforms(PersonalizationDict, v) <==> v.Obj? && PersonalizationOk(v.props)
  {
    if v.Obj? {
      ObjectByKeys(PersonalizationDict, v.props);
      PersonalizationEntries(v.props);
      PersonalizationRequired(v.props);
    } else {
      RequiredKeyNeedsObject(PersonalizationDict, "description", v, false);
    }
  }

  lemma PersonalizationIff(v: Value)
    ensures IsValid(v, "personalizationDict") <==> v.Obj? && PersonalizationOk(v.props)
  {
    IsValidByName(PersonalizationName, v);
    PersonalizationConforms(v);
  }

  // ---- barcode -----------------------------------------------------------

  predicate BarcodeEntry(k: string, v: Value) {
    if k == "format" then IsTextMentioning(v, BarcodeFormats)
    else if k == "altText" || k == "messageEncoding" || k == "message" then IsText(v)
    else false
  }

  /** A barcode: a format naming one of the four barcode formats somewhere
      in it, and a message, both required. */
  predicate BarcodeOk(o: map<string, Value>) {
    && (forall k | k in o :: BarcodeEntry(k, o[k]))
    && "format" in o && "message" in o
  }

  lemma BarcodeEntryIff(k: string, v: Value)
    ensures Declared(Barcode.props, k, v) <==> BarcodeEntry(k, v)
  {
    if k == "format" {
      ContainingIff(BarcodeFormats, v);
    }
  }

  lemma BarcodeEntries(o: map<string, Value>)
    ensures (forall k | k in o :: Declared(Barcode.props, k, o[k])) <==>
      (forall k | k in o :: BarcodeEntry(k, o[k]))
  {
    forall k | k in o
      ensures Declared(Barcode.props, k, o[k]) <==> BarcodeEntry(k, o[k])
    {
      BarcodeEntryIff(k, o[k]);
    }
  }

  lemma BarcodeRequired(o: map<string, Value>)
    ensures RequiredPresent(Barcode.props, o) <==> "format" in o && "message" in o
  {
  }

  lemma BarcodeConforms(v: Value)
    ensures Conforms(Barcode, v) <==> v.Obj? && BarcodeOk(v.props)
  {
    if v.Obj? {
      ObjectByKeys(Barcode, v.props);
      BarcodeEntries(v.props);
      BarcodeRequired(v.props);
    }
  }

  lemma BarcodeIff(v: Value)
    ensures IsValid(v, "barcode") <==> v.Obj? && BarcodeOk(v.props)
  {
    IsValidByName(BarcodeName, v);
    BarcodeConforms(v);
  }

  const BarcodeKeys: set<string> := {"altText", "messageEncoding", "format", "message"}

  /** What `getValidated` asks of a barcode: the required keys, and a good
      value under every declared key; other keys are ignored. */
  predicate BarcodeKept(o: map<string, Value>) {
    && (forall k | k in o && k in BarcodeKeys :: BarcodeEntry(k, o[k]))
    && "format" in o && "message" in o
  }

  /** The barcode `getValidated` hands back: the declared keys as given,
      with `messageEncoding` set to ISO 8859-1 when left out. */
  function BarcodeOut(o: map<string, Value>): map<string, Value> {
    var declared := map k | k in o && k in BarcodeKeys :: o[k];
    if "messageEncoding" in o then declared
    else declared["messageEncoding" := Str(DefaultMessageEncoding)]
  }

  lemma BarcodeDefaults(o: map<string, Value>)
    ensures Defaults(Barcode.props, o) ==
      if "messageEncoding" in o then map[] else map["messageEncoding" := Str(DefaultMessageEncoding)]
  {
  }

  lemma BarcodeOutIs(o: map<string, Value>)
    ensures Defaults(Barcode.props, o) + (map k | k in o && k in Barcode.props :: o[k]) == BarcodeOut(o)
  {
    BarcodeDefaults(o);
    assert Barcode.props.Keys == BarcodeKeys;
  }

  lemma BarcodeKeptIff(o: map<string, Value>)
    ensures (RequiredPresent(Barcode.props, o) && forall k | k in o && k in Barcode.props :: Declared(Barcode.props, k, o[k]))
      <==> BarcodeKept(o)
  {
    BarcodeRequired(o);
    forall k | k in o && k in Barcode.props ensures Declared(Barcode.props, k, o[k]) <==> BarcodeEntry(k, o[k]) {
      BarcodeEntryIff(k, o[k]);
    }
    assert Barcode.props.Keys == BarcodeKeys;
  }

  lemma BarcodeStripped(o: map<string, Value>)
    ensures Validate(Barcode, Obj(o), true) == if BarcodeKept(o) then Some(Obj(BarcodeOut(o))) else None
  {
    assert LeafProps(Barcode.props);
    FlatObjectValidated(Barcode, o);
    BarcodeOutIs(o);
    BarcodeKeptIff(o);
  }

  /** `getValidated(v, "barcode")`: undeclared keys dropped, the default
      encoding filled in. */
  lemma BarcodeValidated(v: Value)
    ensures GetValidated(v, "barcode") == if v.Obj? && BarcodeKept(v.props) then Some(Obj(BarcodeOut(v.props))) else None
  {
    GetValidatedByName(BarcodeName, v);
    if v.Obj? {
      BarcodeStripped(v.props);
    } else {
      RequiredKeyNeedsObject(Barcode, "message", v, true);
    }
  }

  // ---- transitType -------------------------------------------------------

  /** A transit type is a string naming one of the five transit types
      somewhere in it. */
  lemma TransitTypeIff(v: Value)
    ensures IsValid(v, "transitType") <==> IsTextMentioning(v, TransitTypes)
  {
    IsValidByName(TransitTypeName, v);
    ContainingIff(TransitTypes, v);
  }

  // ---- certificatesSchema ------------------------------------------------

  predicate KeyFileEntry(k: string, v: Value) {
    if k == "keyFile" then IsTextOrBinary(v)
    else if k == "passphrase" then IsText(v)
    else false
  }

  /** A key given as a file together with its passphrase; both required. */
  predicate KeyFileOk(o: map<string, Value>) {
    && (forall k | k in o :: KeyFileEntry(k, o[k]))
    && "keyFile" in o && "passphrase" in o
  }

  /** The signer key: a key-file object, or the key itself. */
  predicate IsSignerKey(v: Value) {
    IsTextOrBinary(v) || (v.Obj? && KeyFileOk(v.props))
  }

  predicate CertificatesEntry(k: string, v: Value) {
    if k == "wwdr" || k == "signerCert" then IsTextOrBinary(v)
    else if k == "signerKey" then IsSignerKey(v)
    else false
  }

  /** The certificate set: all three members required. */
  predicate CertificatesOk(o: map<string, Value>) {
    && (forall k | k in o :: CertificatesEntry(k, o[k]))
    && "wwdr" in o && "signerCert" in o && "signerKey" in o
  }

  const KeyFileObject: Rule := CertificatesSchema.props["signerKey"].rule.first

  lemma KeyFileEntries(o: map<string, Value>)
    ensures (forall k | k in o :: Declared(KeyFileObject.props, k, o[k])) <==>
      (forall k | k in o :: KeyFileEntry(k, o[k]))
  {
    forall k | k in o
      ensures Declared(KeyFileObject.props, k, o[k]) <==> KeyFileEntry(k, o[k])
    {
      StringOrBinaryIff(o[k]);
    }
  }

  lemma KeyFileRequired(o: map<string, Value>)
    ensures RequiredPresent(KeyFileObject.props, o) <==> "keyFile" in o && "passphrase" in o
  {
  }

  lemma KeyFileConforms(v: Value)
    ensures Conforms(KeyFileObject, v) <==> v.Obj? && KeyFileOk(v.props)
  {
    if v.Obj? {
      ObjectByKeys(KeyFileObject, v.props);
      KeyFileEntries(v.props);
      KeyFileRequired(v.props);
    } else {
      RequiredKeyNeedsObject(KeyFileObject, "keyFile", v, false);
    }
  }

  lemma CertificatesEntryIff(k: string, v: Value)
    ensures Declared(CertificatesSchema.props, k, v) <==>
      CertificatesEntry(k, v)
  {
    StringOrBinaryIff(v);
    if k == "signerKey" {
      KeyFileConforms(v);
    }
  }

  lemma CertificatesEntries(o: map<string, Value>)
    ensures (forall k | k in o :: Declared(CertificatesSchema.props, k, o[k])) <==>
      (forall k | k in o :: CertificatesEntry(k, o[k]))
  {
    forall k | k in o
      ensures Declared(CertificatesSchema.props, k, o[k]) <==> CertificatesEntry(k, o[k])
    {
      CertificatesEntryIff(k, o[k]);
    }
  }

  lemma CertificatesRequired(o: map<string, Value>)
    ensures RequiredPresent(CertificatesSchema.props, o) <==> "wwdr" in o && "signerCert" in o && "signerKey" in o
  {
  }

  lemma CertificatesConforms(v: Value)
    ensures Conforms(CertificatesSchema, v) <==> v.Obj? && CertificatesOk(v.props)
  {
    if v.Obj? {
      ObjectByKeys(CertificatesSchema, v.props);
      CertificatesEntries(v.props);
      CertificatesRequired(v.props);
    }
  }

  lemma CertificatesIff(v: Value)
    ensures IsValid(v, "certificatesSchema") <==> v.Obj? && CertificatesOk(v.props)
  {
    IsValidByName(CertificatesName, v);
    CertificatesConforms(v);
  }

  // ---- instance ----------------------------------------------------------

  predicate InstanceEntry(k: string, v: Value) {
    if k == "model" then IsObjectLike(v) || IsText(v)
    else if k == "certificates" || k == "overrides" then IsObjectLike(v)
    else false
  }

  /** The factory's arguments: a model (a bundle object or a path) is
      required; certificates and overrides, when given, are objects, which
      for `Joi.object()` includes dates and buffers. */
  predicate InstanceOk(o: map<string, Value>) {
    && (forall k | k in o :: InstanceEntry(k, o[k]))
    && "model" in o
  }

  lemma InstanceEntryIff(k: string, v: Value)
    ensures Declared(Instance.props, k, v) <==> InstanceEntry(k, v)
  {
  }

  lemma InstanceEntries(o: map<string, Value>)
    ensures (forall k | k in o :: Declared(Instance.props, k, o[k])) <==>
      (forall k | k in o :: InstanceEntry(k, o[k]))
  {
    forall k | k in o
      ensures Declared(Instance.props, k, o[k]) <==> InstanceEntry(k, o[k])
    {
      InstanceEntryIff(k, o[k]);
    }
  }

  lemma InstanceRequired(o: map<string, Value>)
    ensures RequiredPresent(Instance.props, o) <==> "model" in o
  {
  }

  lemma InstanceConforms(v: Value)
    ensures Conforms(Instance, v) <==> v.Obj? && InstanceOk(v.props)
  {
    if v.Obj? {
      ObjectByKeys(Instance, v.props);
      InstanceEntries(v.props);
      InstanceRequired(v.props);
    } else {
      RequiredKeyNeedsObject(Instance, "model", v, false);
    }
  }

  lemma InstanceIff(v: Value)
    ensures IsValid(v, "instance") <==> v.Obj? && InstanceOk(v.props)
  {
    IsValidByName(InstanceName, v);
    InstanceConforms(v);
  }
}
