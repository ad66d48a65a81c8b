/** The closed error taxonomy of the codec (`wire::error::schema`), the
    rapidjson parse error codes it passes through, and the error value every
    failing decode carries. */
module WireError {
  import opened Wrappers
  import opened Bytes

  /** `enum class schema : int`, in declaration order. `NoError` is the
      enumerator `none`, reserved for success. */
  datatype Schema =
    | NoError
    | Array
    | Boolean
    | Enumeration
    | FixedBinary
    | Integer
    | InvalidKey
    | LargerInteger
    | MaximumDepth
    | MissingKey
    | Number
    | Object
    | SmallerInteger
    | String
    | UnsignedInteger

  /** Every enumerator, in declaration order. */
  const AllSchemas: seq<Schema> := [
    NoError, Array, Boolean, Enumeration, FixedBinary, Integer, InvalidKey,
    LargerInteger, MaximumDepth, MissingKey, Number, Object, SmallerInteger,
    String, UnsignedInteger
  ]

  /** `int(value)`: enumerators without initialisers count up from `none = 0`. */
  function Code(s: Schema): (v: int)
    ensures 0 <= v < |AllSchemas| && AllSchemas[v] == s
    ensures v == 0 <==> s == NoError
  {
    match s
    case NoError => 0
    case Array => 1
    case Boolean => 2
    case Enumeration => 3
    case FixedBinary => 4
    case Integer => 5
    case InvalidKey => 6
    case LargerInteger => 7
    case MaximumDepth => 8
    case MissingKey => 9
    case Number => 10
    case Object => 11
    case SmallerInteger => 12
    case String => 13
    case UnsignedInteger => 14
  }

  /** The enumerator with a given underlying value, if there is one. */
  function FromCode(v: int): (r: Option<Schema>)
    ensures r.Some? <==> 0 <= v < |AllSchemas|
    ensures r.Some? ==> Code(r.value) == v
  {
    if 0 <= v < |AllSchemas| then Some(AllSchemas[v]) else None
  }

  /** The taxonomy is closed: the enumerators are exactly the fifteen values
      0..14, pairwise distinct, and `none` is the only one equal to 0. */
  lemma {:induction false} TaxonomyIsClosed(s: Schema, t: Schema)
    ensures |AllSchemas| == 15
    ensures s in AllSchemas
    ensures Code(s) == Code(t) ==> s == t
    ensures FromCode(Code(s)) == Some(s)
    ensures s != NoError ==> 1 <= Code(s) <= 14
  {
    assert AllSchemas[Code(s)] == s;
    assert AllSchemas[Code(t)] == t;
  }

  /** The error categories a `std::error_code` of this program can carry. */
  datatype Category = SchemaCategory | RapidjsonCategory

  datatype ErrorCode = ErrorCode(value: int, category: Category)

  /** `make_error_code`, also the implicit conversion that
      `is_error_code_enum<schema>` enables: the schema value under
      `schema_category()`. */
  function MakeErrorCode(s: Schema): (e: ErrorCode)
    ensures e.category == SchemaCategory
    ensures FromCode(e.value) == Some(s)
    ensures e.value == 0 <==> s == NoError
  {
    ErrorCode(Code(s), SchemaCategory)
  }

  /** Converting two schema values to error codes keeps them apart. */
  lemma MakeErrorCodeInjective(s: Schema, t: Schema)
    requires MakeErrorCode(s) == MakeErrorCode(t)
    ensures s == t
  {
    assert FromCode(MakeErrorCode(s).value) == Some(s);
  }

  /** `rapidjson::ParseErrorCode`, in declaration order (values 0..17). */
  datatype ParseError =
    | ParseErrorNone
    | DocumentEmpty
    | DocumentRootNotSingular
    | ValueInvalid
    | ObjectMissName
    | ObjectMissColon
    | ObjectMissCommaOrCurlyBracket
    | ArrayMissCommaOrSquareBracket
    | StringUnicodeEscapeInvalidHex
    | StringUnicodeSurrogateInvalid
    | StringEscapeInvalid
    | StringMissQuotationMark
    | StringInvalidEncoding
    | NumberTooBig
    | NumberMissFraction
    | NumberMissExponent
    | Termination
    | UnspecificSyntaxError

  /** What a thrown `std::system_error` carries: the category and, for the
      object protocol, the message text naming the field. */
  datatype Failure =
    | SchemaFailure(category: Schema, message: seq<byte>)
    | SyntaxFailure(code: ParseError)

  /** `MOT_THROW(code, nullptr)`: a schema error without context. */
  function Fail(category: Schema): Failure {
    SchemaFailure(category, [])
  }

  /** The outcome of a decoding step. */
  type Outcome<T> = Result<T, Failure>
}
