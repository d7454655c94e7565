/** The value shapes the catalogue's descriptors are built from, stated
    directly over values, and proved to be what the checker accepts for the
    matching building block. The per-descriptor modules restate whole
    descriptors with these. */
module Documents {
  import opened Strings
  import opened Values
  import opened Rules
  import opened Schema

  /** A non-empty string. */
  predicate IsText(v: Value) { v.Str? && v.s != "" }

  /** A number `Joi.number()` accepts: none beyond the safe-integer range. */
  predicate IsNumber(v: Value) { v.Num? && IsSafeNumber(v.n) }

  /** What `Joi.object()` accepts: any object that is not an array, so
      also a date or a buffer. */
  predicate IsObjectLike(v: Value) { v.Obj? || v.Date? || v.Buffer? }

  /** What the strict check of a key descriptor that requires nothing
      accepts beside a plain object: a date, or a buffer without bytes,
      which have no own keys. */
  predicate IsKeylessObject(v: Value) { v.Date? || (v.Buffer? && v.data == []) }

  /** An integral number in `lo..hi`. */
  predicate IsIntegerIn(v: Value, lo: int, hi: int) {
    v.Num? && IsInteger(v.n) && lo as real <= v.n <= hi as real
  }

  /** Some literal of the list occurs somewhere inside `s`. */
  predicate MentionsOneOf(s: string, literals: seq<string>) {
    exists lit | lit in literals :: Contains(s, lit)
  }

  /** A string that mentions one of the literals. */
  predicate IsTextMentioning(v: Value, literals: seq<string>) {
    v.Str? && MentionsOneOf(v.s, literals)
  }

  /** A binary buffer or a non-empty string. Values are never converted
      here, so a string is not first turned into a buffer. */
  predicate IsTextOrBinary(v: Value) { v.Buffer? || IsText(v) }

  /** What a field's value may be: any string, a number or a date. */
  predicate IsFieldContent(v: Value) { v.Str? || IsNumber(v) || v.Date? }

  /** An array of non-empty strings. */
  predicate IsArrayOfText(v: Value) {
    v.Arr? && forall i | 0 <= i < |v.items| :: IsText(v.items[i])
  }

  lemma AnyStringIff(v: Value)
    ensures Conforms(AnyString, v) <==> IsText(v)
  {
  }

  lemma AnyNumberIff(v: Value)
    ensures Conforms(AnyNumber, v) <==> IsNumber(v)
  {
  }

  lemma StringOrBinaryIff(v: Value)
    ensures Conforms(StringOrBinary, v) <==> IsTextOrBinary(v)
  {
  }

  lemma FieldValueIff(v: Value)
    ensures Conforms(FieldValue, v) <==> IsFieldContent(v)
  {
  }

  /** No literal of the list is the empty string. */
  predicate NonEmptyLiterals(literals: seq<string>) {
    forall i | 0 <= i < |literals| :: literals[i] != ""
  }

  /** An unanchored alternation of literals accepts exactly the strings
      that mention one of them; the empty string mentions none. */
  lemma ContainingIff(literals: seq<string>, v: Value)
    requires NonEmptyLiterals(literals)
    ensures Conforms(Containing(literals), v) <==> IsTextMentioning(v, literals)
  {
    if v.Str? {
      if v.s == "" {
        forall lit | lit in literals ensures !Contains(v.s, lit) {
          ContainsNoLonger(v.s, lit);
        }
      }
      if MentionsOneOf(v.s, literals) {
        var lit :| lit in literals && Contains(v.s, lit);
        var i :| 0 <= i < |literals| && literals[i] == lit;
        assert Matches(OneOfContained(literals), v.s);
      }
    }
  }

  lemma TextArrayIff(v: Value)
    ensures Conforms(ArrayOf(AnyString), v) <==> IsArrayOfText(v)
  {
    if v.Arr? {
      ArrayConforms(AnyString, v.items);
    }
  }
}
