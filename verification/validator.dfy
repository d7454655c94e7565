/** The two entry points of the schema catalogue. Both look the descriptor
    up by name first and both give a negative answer (never an error) for a
    name the catalogue does not hold. */
module Validator {
  import opened Wrappers
  import opened Values
  import opened Rules
  import opened Schema

  /** The table entry registered under `name`, if any. Only the table's
      own entries count. */
  function ResolveSchemaName(name: string): (r: Option<SchemaName>)
    ensures r.Some? ==> NameText(r.value) == name
    ensures r.None? ==> forall n: SchemaName :: NameText(n) != name
  {
    if name == "instance" then Some(InstanceName)
    else if name == "certificatesSchema" then Some(CertificatesName)
    else if name == "barcode" then Some(BarcodeName)
    else if name == "field" then Some(FieldName)
    else if name == "passDict" then Some(PassDictName)
    else if name == "beaconsDict" then Some(BeaconsName)
    else if name == "locationsDict" then Some(LocationsName)
    else if name == "transitType" then Some(TransitTypeName)
    else if name == "nfcDict" then Some(NfcName)
    else if name == "supportedOptions" then Some(SupportedOptionsName)
    else if name == "personalizationDict" then Some(PersonalizationName)
    else None
  }

  /** Each registered name resolves to its own descriptor. */
  lemma ResolvesOwnName(n: SchemaName)
    ensures ResolveSchemaName(NameText(n)) == Some(n)
  {
  }

  /** `isValid`: the strict check; a name outside the table is invalid. */
  function IsValid(opts: Value, schemaName: string): (ok: bool)
    ensures ResolveSchemaName(schemaName).None? ==> !ok
  {
    match ResolveSchemaName(schemaName)
    case None => false
    case Some(n) => Validate(Descriptor(n), opts, false).Some?
  }

  /** Under a registered name, `isValid` is the strict check of that
      descriptor; a descriptor for keyed objects accepts nothing but a plain
      object, save a date or a byte-less buffer where no key is required. */
  lemma IsValidByName(n: SchemaName, v: Value)
    ensures IsValid(v, NameText(n)) == Conforms(Descriptor(n), v)
    ensures Descriptor(n).ObjectOf? && !v.Obj? ==>
      (IsValid(v, NameText(n)) <==> AllOptional(Descriptor(n).props) && KeylessObject(v, false).Some?)
  {
    ResolvesOwnName(n);
  }

  /** `getValidated`: the stripping check; `None` stands for `null`, for a
      name outside the table as for an invalid document. A result keeps the
      input's type and, for a keyed descriptor, holds only declared keys;
      a keyed descriptor lets through a date or a buffer only when it
      requires nothing. */
  function GetValidated(opts: Value, schemaName: string): (r: Option<Value>)
    ensures ResolveSchemaName(schemaName).None? ==> r.None?
    ensures r.Some? ==> KindOf(r.value) == KindOf(opts)
    ensures r.Some? && Descriptor(ResolveSchemaName(schemaName).value).ObjectOf? ==>
      if opts.Obj? then r.value.props.Keys <= Descriptor(ResolveSchemaName(schemaName).value).props.Keys
      else (opts.Date? || opts.Buffer?) && AllOptional(Descriptor(ResolveSchemaName(schemaName).value).props)
  {
    match ResolveSchemaName(schemaName)
    case None => None
    case Some(n) => Validate(Descriptor(n), opts, true)
  }

  /** Under a registered name, `getValidated` is the stripping check of
      that descriptor. */
  lemma GetValidatedByName(n: SchemaName, v: Value)
    ensures GetValidated(v, NameText(n)) == Validate(Descriptor(n), v, true)
  {
    ResolvesOwnName(n);
  }

  /** What `isValid` accepts, `getValidated` accepts too and returns the
      same value the strict check produced. */
  lemma ValidIsValidated(opts: Value, schemaName: string)
    requires IsValid(opts, schemaName)
    ensures GetValidated(opts, schemaName) == Validate(Descriptor(ResolveSchemaName(schemaName).value), opts, false)
    ensures GetValidated(opts, schemaName).Some?
  {
    var n := ResolveSchemaName(schemaName).value;
    DescriptorWellFormed(n);
    StrictThenStrip(Descriptor(n), opts);
  }

  /** A value `getValidated` returns is valid as it stands, and validating
      it again returns it unchanged. */
  lemma GetValidatedIdempotent(opts: Value, schemaName: string)
    requires GetValidated(opts, schemaName).Some?
    ensures IsValid(GetValidated(opts, schemaName).value, schemaName)
    ensures GetValidated(GetValidated(opts, schemaName).value, schemaName) == GetValidated(opts, schemaName)
  {
    var n := ResolveSchemaName(schemaName).value;
    DescriptorWellFormed(n);
    StripFixpoint(Descriptor(n), opts);
    StripIdempotent(Descriptor(n), opts);
  }

  // ---- lookup as the source writes it ----------------------------------

  /** Names a plain JavaScript object inherits from `Object.prototype`; an
      indexing expression finds them on every object literal. */
  const InheritedNames: set<string> := {
    "constructor", "__proto__", "__defineGetter__", "__defineSetter__", "__lookupGetter__",
    "__lookupSetter__", "hasOwnProperty", "isPrototypeOf", "propertyIsEnumerable",
    "toLocaleString", "toString", "valueOf"}

  /** `schemas[name] || undefined`: an own entry, an inherited member that
      is not a descriptor, or nothing. */
  datatype Lookup = Found(name: SchemaName) | NotADescriptor | Missing

  function LookupAsWritten(name: string): Lookup {
    match ResolveSchemaName(name)
    case Some(n) => Found(n)
    case None => if name in InheritedNames then NotADescriptor else Missing
  }

  /** A call that either returns or throws. */
  datatype Outcome<+T> = Returned(value: T) | Threw

  /** `isValid` as written: an inherited member passes the truthiness test
      and calling `.validate` on it throws. */
  function IsValidAsWritten(opts: Value, schemaName: string): Outcome<bool> {
    match LookupAsWritten(schemaName)
    case Missing => Returned(false)
    case NotADescriptor => Threw
    case Found(n) => Returned(Validate(Descriptor(n), opts, false).Some?)
  }

  function GetValidatedAsWritten(opts: Value, schemaName: string): Outcome<Option<Value>> {
    match LookupAsWritten(schemaName)
    case Missing => Returned(None)
    case NotADescriptor => Threw
    case Found(n) => Returned(Validate(Descriptor(n), opts, true))
  }

  /** The name "toString" is not a descriptor, yet both entry points throw
      on it instead of answering false and null. */
  lemma InheritedNameThrows(opts: Value)
    ensures ResolveSchemaName("toString").None?
    ensures IsValidAsWritten(opts, "toString") == Threw
    ensures GetValidatedAsWritten(opts, "toString") == Threw
    ensures !IsValid(opts, "toString") && GetValidated(opts, "toString").None?
  {
  }

  /** Away from inherited names the lookup as written and the corrected
      lookup give the same answers. */
  lemma AsWrittenAgreesElsewhere(opts: Value, schemaName: string)
    requires schemaName !in InheritedNames
    ensures IsValidAsWritten(opts, schemaName) == Returned(IsValid(opts, schemaName))
    ensures GetValidatedAsWritten(opts, schemaName) == Returned(GetValidated(opts, schemaName))
  {
  }
}
