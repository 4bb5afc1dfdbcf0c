/**
 * Decoded JSON values as Python 2's `json.loads` produces them, and the
 * `isinstance` test the JSON-body validator applies to each argument.
 */
module Json {

  datatype Json =
    | JNull
    | JBool(b: bool)
    | JInt(i: int)
    | JFloat(r: real)
    | JString(s: string)
    | JArray(items: seq<Json>)
    | JObject(fields: map<string, Json>)

  /** The Python types a handler may declare for a JSON argument. */
  datatype PyType = UnicodeType | StrType | IntType | LongType | FloatType | BoolType | ListType | DictType

  /** `sys.maxint` on a 64-bit build: larger integers decode as `long`, not `int`. */
  const MaxInt: int := 0x7FFF_FFFF_FFFF_FFFF

  predicate FitsInt(i: int)
  {
    -MaxInt - 1 <= i <= MaxInt
  }

  /** `T().__class__.__name__`, the name quoted in "Must be of type T". */
  function TypeName(t: PyType): string
  {
    match t
    case UnicodeType => "unicode"
    case StrType => "str"
    case IntType => "int"
    case LongType => "long"
    case FloatType => "float"
    case BoolType => "bool"
    case ListType => "list"
    case DictType => "dict"
  }

  /**
   * `isinstance(v, t)` for a value `json.loads` returned: strings decode as
   * `unicode` (never `str`), and `bool` is a subclass of `int`.
   */
  predicate HasType(v: Json, t: PyType)
  {
    match t
    case UnicodeType => v.JString?
    case StrType => false
    case IntType => v.JBool? || (v.JInt? && FitsInt(v.i))
    case LongType => v.JInt? && !FitsInt(v.i)
    case FloatType => v.JFloat?
    case BoolType => v.JBool?
    case ListType => v.JArray?
    case DictType => v.JObject?
  }

  /** Each decoded integer is an instance of exactly one of `int` and `long`. */
  lemma IntOrLong(i: int)
    ensures HasType(JInt(i), IntType) != HasType(JInt(i), LongType)
  {
  }
}
