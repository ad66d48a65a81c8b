/** The C++ types the codec is instantiated for, as data: a `Kind` is the
    type a `read_bytes` overload is chosen for, a `Value` is an object of
    such a type. A schema function such as `read_bytes(source, block&)` is a
    `Kind`; the struct it fills is a `Value`. */
module WireSchema {
  import opened Bytes
  import opened WireField
  import opened WireInteger

  datatype Kind =
    | BoolKind
    /** An unsigned integer type; `target` is its width. */
    | UintKind(target: IntType)
    /** A fixed-size byte blob (`is_blob`), `width` bytes long. */
    | BlobKind(width: nat)
    /** A container (`is_array`), read element by element. */
    | ArrayKind(element: Kind)
    /** A struct read through `wire::object(source, WIRE_FIELD(...)...)`. */
    | ObjectKind(fields: seq<Field<Kind>>)

  datatype Value =
    | BoolValue(b: bool)
    | UintValue(n: int)
    /** A `const char*` or `boost::string_ref`: only ever written. */
    | TextValue(text: seq<byte>)
    | BlobValue(bytes: seq<byte>)
    | ArrayValue(elements: seq<Value>)
    | ObjectValue(members: seq<Field<Value>>)

  /** The kinds that have a `read_bytes` overload: `bool`, `unsigned`,
      `unsigned long` (and `unsigned long long`, of the same width), blobs,
      arrays of readable kinds, and objects of fewer than 100 readable
      fields, the `static_assert` of `read_json::object`. */
  predicate Readable(k: Kind) {
    match k
    case BoolKind => true
    case UintKind(t) => t == Unsigned || t == UnsignedLong
    case BlobKind(_) => true
    case ArrayKind(e) => Readable(e)
    case ObjectKind(fs) => |fs| < 100 && forall i :: 0 <= i < |fs| ==> Readable(fs[i].value)
  }

  /** `v` is an object of the type `k` names: integers in range, blobs of
      the right width, objects with their fields in declaration order. */
  predicate Conforms(v: Value, k: Kind) {
    match k
    case BoolKind => v.BoolValue?
    case UintKind(t) => v.UintValue? && InRange(t, v.n)
    case BlobKind(w) => v.BlobValue? && |v.bytes| == w
    case ArrayKind(e) =>
      v.ArrayValue? && forall i :: 0 <= i < |v.elements| ==> Conforms(v.elements[i], e)
    case ObjectKind(fs) =>
      && v.ObjectValue? && |v.members| == |fs|
      && forall i :: 0 <= i < |fs| ==>
           v.members[i].name == fs[i].name && Conforms(v.members[i].value, fs[i].value)
  }

  /** The values that have a `write_bytes` overload: unsigned integers up to
      `uintmax_t`, strings, blobs, and arrays and objects of these. There is
      no overload for `bool`. */
  predicate Writable(v: Value) {
    match v
    case BoolValue(_) => false
    case UintValue(n) => InRange(Uintmax, n)
    case TextValue(_) => true
    case BlobValue(_) => true
    case ArrayValue(es) => forall i :: 0 <= i < |es| ==> Writable(es[i])
    case ObjectValue(ms) => forall i :: 0 <= i < |ms| ==> Writable(ms[i].value)
  }
}
