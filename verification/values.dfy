/** The JavaScript values a pass document is made of, as far as the schema
    catalogue can tell them apart. An absent object key is JavaScript's
    `undefined`; `Date` and `Buffer` objects get their own constructors
    because the catalogue accepts them where it accepts dates and binaries. */
module Values {

  type Bytes = seq<bv8>

  datatype Value =
    | Null
    | Bool(b: bool)
    | Num(n: real)
    | Str(s: string)
    | Date(time: int)
    | Buffer(data: Bytes)
    | Arr(items: seq<Value>)
    | Obj(props: map<string, Value>)

  /** The JavaScript type a value belongs to, as a validator sees it. */
  datatype Kind = NullKind | BoolKind | NumKind | StrKind | DateKind | BufferKind | ArrKind | ObjKind

  function KindOf(v: Value): Kind {
    match v
    case Null => NullKind
    case Bool(_) => BoolKind
    case Num(_) => NumKind
    case Str(_) => StrKind
    case Date(_) => DateKind
    case Buffer(_) => BufferKind
    case Arr(_) => ArrKind
    case Obj(_) => ObjKind
  }

  /** `Number.MAX_SAFE_INTEGER`, 2^53 - 1. */
  const MaxSafeInteger: real := 9007199254740991.0

  /** The numbers `Joi.number()` accepts when it is not marked `unsafe()`:
      those of magnitude at most `Number.MAX_SAFE_INTEGER`. */
  predicate IsSafeNumber(x: real) {
    -MaxSafeInteger <= x <= MaxSafeInteger
  }

  predicate IsInteger(x: real) {
    x == x.Floor as real
  }
}
