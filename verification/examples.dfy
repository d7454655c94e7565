/** Concrete documents against the restated descriptors. Each restated
    predicate is proved to be what `isValid` or `getValidated` answers
    (`BeaconIff`, `OptionsIff`, `NfcIff`, `NfcValidated`,
    `BarcodeValidated`, `TransitTypeIff`), so each lemma here pins down
    one answer of the entry points. */
module Examples {
  import opened Strings
  import opened Values
  import opened Rules
  import opened Schema
  import opened Documents
  import opened Validator
  import opened Dictionaries
  import opened OverrideOptions
  import opened PassFields

  /** A beacon's `major` must exceed its `minor`; swapping them makes the
      same beacon invalid. */
  lemma BeaconOrderMatters()
    ensures BeaconOk(map["proximityUUID" := Str("u"), "major" := Num(10.0), "minor" := Num(5.0)])
    ensures !BeaconOk(map["proximityUUID" := Str("u"), "major" := Num(5.0), "minor" := Num(10.0)])
  {
    var good := map["proximityUUID" := Str("u"), "major" := Num(10.0), "minor" := Num(5.0)];
    assert forall k | k in good :: BeaconEntry(k, good[k]);
  }

  /** A web service URL needs an authentication token beside it. */
  lemma WebServiceNeedsToken()
    ensures !OptionsOk(map["webServiceURL" := Str("https://pass.example")])
    ensures OptionsOk(map["webServiceURL" := Str("https://pass.example"),
                          "authenticationToken" := Str("0123456789abcdef")])
  {
    UrlEntry();
    TokenLength();
    UrlWithToken(Str("https://pass.example"), Str("0123456789abcdef"));
    UrlAlone(Str("https://pass.example"));
  }

  lemma UrlWithToken(url: Value, token: Value)
    requires OptionEntry("webServiceURL", url) && OptionEntry("authenticationToken", token)
    ensures OptionsOk(map["webServiceURL" := url, "authenticationToken" := token])
  {
  }

  lemma UrlAlone(url: Value)
    ensures !OptionsOk(map["webServiceURL" := url])
  {
  }

  lemma UrlEntry()
    ensures OptionEntry("webServiceURL", Str("https://pass.example"))
  {
    assert UrlAt("https://pass.example"[0..]);
  }

  /** A token of sixteen ASCII characters is sixteen code units long. */
  lemma TokenLength()
    ensures OptionEntry("authenticationToken", Str("0123456789abcdef"))
  {
    var t := "0123456789abcdef";
    assert forall i | 0 <= i < |t| :: !IsAstral(t[i]);
  }

  /** A token needs sixteen characters. */
  lemma ShortTokenRefused()
    ensures !OptionsOk(map["authenticationToken" := Str("short")])
  {
    var o := map["authenticationToken" := Str("short")];
    assert "authenticationToken" in o && !OptionEntry("authenticationToken", o["authenticationToken"]);
  }

  /** A URL needs the scheme and a host character: a bare scheme or
      another scheme is refused. */
  lemma UrlShapes()
    ensures HasWebUrl("see http://a")
    ensures !HasWebUrl("https://")
    ensures !HasWebUrl("ftp://a")
  {
    assert UrlAt("see http://a"[4..]);
    var s := "https://";
    forall i | 0 <= i <= |s| ensures !UrlAt(s[i..]) { }
    var t := "ftp://a";
    forall i | 0 <= i <= |t| ensures !UrlAt(t[i..]) { }
  }

  /** The strict check refuses an undeclared key; the stripping check
      drops it and keeps the rest. */
  lemma UndeclaredKeyDropped()
    ensures !NfcOk(map["message" := Str("hi"), "extra" := Bool(true)])
    ensures NfcKept(map["message" := Str("hi"), "extra" := Bool(true)])
    ensures NfcOut(map["message" := Str("hi"), "extra" := Bool(true)]) == map["message" := Str("hi")]
  {
    var o := map["message" := Str("hi"), "extra" := Bool(true)];
    assert "extra" in o && !NfcEntry("extra", o["extra"]);
    assert NfcOut(map["message" := Str("hi"), "extra" := Bool(true)]).Keys == {"message"};
  }

  /** A barcode without an encoding gets ISO 8859-1. */
  lemma BarcodeEncodingFilled()
    ensures BarcodeKept(map["format" := Str("PKBarcodeFormatQR"), "message" := Str("x")])
    ensures BarcodeOut(map["format" := Str("PKBarcodeFormatQR"), "message" := Str("x")])
      == map["format" := Str("PKBarcodeFormatQR"), "message" := Str("x"), "messageEncoding" := Str("iso-8859-1")]
  {
    var o := map["format" := Str("PKBarcodeFormatQR"), "message" := Str("x")];
    ContainsAt(o["format"].s, BarcodeFormats[0], 0);
    assert (map k | k in o && k in BarcodeKeys :: o[k]) == o;
  }

  /** The transit type matches anywhere inside the string; the empty
      string and non-strings never pass. */
  lemma TransitTypeAnswers()
    ensures IsTextMentioning(Str("PKTransitTypeAir"), TransitTypes)
    ensures IsTextMentioning(Str("by PKTransitTypeBus today"), TransitTypes)
    ensures !IsTextMentioning(Str(""), TransitTypes)
    ensures !IsTextMentioning(Num(1.0), TransitTypes)
  {
    ContainsAt("PKTransitTypeAir", TransitTypes[0], 0);
    ContainsAt("by PKTransitTypeBus today", TransitTypes[2], 3);
    forall lit | lit in TransitTypes ensures !Contains("", lit) {
      ContainsNoLonger("", lit);
    }
  }

  /** Forty emoji are forty characters but eighty UTF-16 code units, too
      long for an NFC message, which JavaScript measures in code units. */
  lemma AstralMessageTooLong()
    ensures |seq(40, _ => '\U{1F600}')| <= 64
    ensures !NfcOk(map["message" := Str(seq(40, _ => '\U{1F600}'))])
  {
    var s := seq(40, _ => '\U{1F600}');
    assert forall i | 0 <= i < |s| :: IsAstral(s[i]);
    MessageOverLimit(Str(s));
  }

  lemma MessageOverLimit(m: Value)
    requires m.Str? && Utf16Length(m.s) > 64
    ensures !NfcOk(map["message" := m])
  {
    assert !NfcEntry("message", m);
  }

  /** A coordinate one past `Number.MAX_SAFE_INTEGER` is refused, the safe
      bound itself is not. */
  lemma UnsafeCoordinateRefused()
    ensures LocationOk(map["latitude" := Num(9007199254740991.0), "longitude" := Num(0.0)])
    ensures !LocationOk(map["latitude" := Num(9007199254740992.0), "longitude" := Num(0.0)])
  {
    var o := map["latitude" := Num(9007199254740992.0), "longitude" := Num(0.0)];
    assert !LocationEntry("latitude", o["latitude"]);
  }

  /** A date passes as a pass's field lists, which require nothing, but not
      as a location, which requires coordinates. */
  lemma DateAsObject()
    ensures IsValid(Date(0), "passDict")
    ensures !IsValid(Date(0), "locationsDict")
  {
    PassDictIff(Date(0));
    LocationIff(Date(0));
  }

  /** A buffer passes the overrides only without bytes: its indices would
      be unknown keys. */
  lemma BufferAsObject()
    ensures IsValid(Buffer([]), "supportedOptions")
    ensures !IsValid(Buffer([1]), "supportedOptions")
  {
    OptionsIff(Buffer([]));
    OptionsIff(Buffer([1]));
  }
}
