/** The JSON-RPC 2.0 envelope around the daemon calls: a request object
    with `id`, `jsonrpc`, `method` and `params`, and a response object with
    `id` and `result`. */
module RpcJson {
  import opened Wrappers
  import opened Bytes
  import opened WireField
  import opened WireInteger
  import opened WireSchema
  import opened WireError
  import opened JsonReader
  import opened JsonWriter
  import opened Method
  import ReadJson
  import opened JsonDecode
  import WriteJson

  /** `json_request_base::jsonrpc`, the protocol version string required
      by section 4 of the JSON-RPC 2.0 specification. */
  const JsonRpcVersion: seq<byte> := "2.0"

  /** `json_request<W, M>`: the base's `id` and `method` (here `methodName`), and `params`. */
  datatype JsonRequest = JsonRequest(id: int, methodName: seq<byte>, params: Value)

  /** The `json_request` constructor: `id(0)`, `method(M::name())`, and the
      parameters forwarded to `params`. */
  function NewRequest(name: seq<byte>, params: Value): (r: JsonRequest)
    ensures r.id == 0 && r.methodName == name && r.params == params
    ensures InRange(Unsigned, r.id)
  {
    JsonRequest(0, name, params)
  }

  /** The member names of a request, as the `WIRE_FIELD`s spell them. */
  const IdKey: seq<byte> := "id"
  const JsonRpcKey: seq<byte> := "jsonrpc"
  const MethodKey: seq<byte> := "method"
  const ParamsKey: seq<byte> := "params"

  /** The members `write_bytes(json_writer&, const json_request&)` passes
      to `wire::object`, base class fields first. */
  function RequestMembers(self: JsonRequest): seq<Field<Value>> {
    [
      MakeField(IdKey, UintValue(self.id)),
      MakeField(JsonRpcKey, TextValue(JsonRpcVersion)),
      MakeField(MethodKey, TextValue(self.methodName)),
      MakeField(ParamsKey, self.params)
    ]
  }

  /** The request object on the wire: keys `id`, `jsonrpc`, `method`,
      `params` in this order, the version as the string "2.0" and the
      method name up to its NUL. */
  lemma RequestLayout(self: JsonRequest)
    ensures WriteJson.Tokens(ObjectValue(RequestMembers(self))) ==
      [StartObjectEvent] + [KeyEvent(IdKey), UintEvent(self.id)]
      + [KeyEvent(JsonRpcKey), StringEvent(JsonRpcVersion)]
      + [KeyEvent(MethodKey), StringEvent(CString(self.methodName))]
      + ([KeyEvent(ParamsKey)] + WriteJson.Tokens(self.params)) + [EndObjectEvent]
  {
    RequestMemberTokens(self);
  }

  lemma RequestMemberTokens(self: JsonRequest)
    ensures WriteJson.MemberTokens(RequestMembers(self)) ==
      [KeyEvent(IdKey), UintEvent(self.id)]
      + [KeyEvent(JsonRpcKey), StringEvent(JsonRpcVersion)]
      + [KeyEvent(MethodKey), StringEvent(CString(self.methodName))]
      + ([KeyEvent(ParamsKey)] + WriteJson.Tokens(self.params))
  {
    MemberTokensOfFour(MakeField(IdKey, UintValue(self.id)), MakeField(JsonRpcKey, TextValue(JsonRpcVersion)),
                       MakeField(MethodKey, TextValue(self.methodName)), MakeField(ParamsKey, self.params));
    IdAndVersionTokens(self);
    MethodAndParamsTokens(self);
  }

  /** Four members are written one after the other. */
  lemma MemberTokensOfFour(a: Field<Value>, b: Field<Value>, c: Field<Value>, d: Field<Value>)
    ensures WriteJson.MemberTokens([a, b, c, d]) ==
      WriteJson.FieldTokens(a) + WriteJson.FieldTokens(b) + WriteJson.FieldTokens(c) + WriteJson.FieldTokens(d)
  {
    Displays(a, b, c, d);
    MemberTokensPush([], a);
    MemberTokensPush([a], b);
    MemberTokensPush([a, b], c);
    MemberTokensPush([a, b, c], d);
  }

  /** One more member writes its tokens after those of the others. */
  lemma MemberTokensPush(ms: seq<Field<Value>>, m: Field<Value>)
    ensures WriteJson.MemberTokens(ms + [m]) == WriteJson.MemberTokens(ms) + WriteJson.FieldTokens(m)
  {
    assert (ms + [m])[..|ms|] == ms;
  }

  /** A four-member display, built one member at a time. */
  lemma Displays<T>(a: T, b: T, c: T, d: T)
    ensures [] + [a] == [a] && [a] + [b] == [a, b]
    ensures [a, b] + [c] == [a, b, c] && [a, b, c] + [d] == [a, b, c, d]
  {
  }

  /** No request key and not the version hold a NUL, so each is written whole. */
  lemma PlainKeys()
    ensures Nul !in IdKey && Nul !in JsonRpcKey && Nul !in MethodKey && Nul !in ParamsKey
    ensures Nul !in JsonRpcVersion
  {
  }

  /** A member whose name holds no NUL is keyed by the whole name. */
  lemma PlainFieldTokens(name: seq<byte>, v: Value)
    requires Nul !in name
    ensures WriteJson.FieldTokens(MakeField(name, v)) == [KeyEvent(name)] + WriteJson.Tokens(v)
  {
  }

  /** Two tokens in a row. */
  lemma Pair(x: Event, y: Event)
    ensures [x] + [y] == [x, y]
  {
  }

  lemma IdAndVersionTokens(self: JsonRequest)
    ensures WriteJson.FieldTokens(MakeField(IdKey, UintValue(self.id))) == [KeyEvent(IdKey), UintEvent(self.id)]
    ensures WriteJson.FieldTokens(MakeField(JsonRpcKey, TextValue(JsonRpcVersion))) ==
      [KeyEvent(JsonRpcKey), StringEvent(JsonRpcVersion)]
  {
    PlainKeys();
    PlainFieldTokens(IdKey, UintValue(self.id));
    PlainFieldTokens(JsonRpcKey, TextValue(JsonRpcVersion));
    Pair(KeyEvent(IdKey), UintEvent(self.id));
    Pair(KeyEvent(JsonRpcKey), StringEvent(JsonRpcVersion));
  }

  lemma MethodAndParamsTokens(self: JsonRequest)
    ensures WriteJson.FieldTokens(MakeField(MethodKey, TextValue(self.methodName))) ==
      [KeyEvent(MethodKey), StringEvent(CString(self.methodName))]
    ensures WriteJson.FieldTokens(MakeField(ParamsKey, self.params)) == [KeyEvent(ParamsKey)] + WriteJson.Tokens(self.params)
  {
    PlainKeys();
    PlainFieldTokens(MethodKey, TextValue(self.methodName));
    PlainFieldTokens(ParamsKey, self.params);
    Pair(KeyEvent(MethodKey), StringEvent(CString(self.methodName)));
  }

  /** `write_bytes(json_writer&, const json_request&)`. */
  method WriteRequest(dest: Writer, self: JsonRequest)
    requires InRange(Unsigned, self.id) && Writable(self.params) && dest.Valid()
    modifies dest
    ensures dest.Valid() && dest.open == old(dest.open)
    ensures dest.bytes == old(dest.bytes) +
      [StartObjectEvent] + [KeyEvent(IdKey), UintEvent(self.id)]
      + [KeyEvent(JsonRpcKey), StringEvent(JsonRpcVersion)]
      + [KeyEvent(MethodKey), StringEvent(CString(self.methodName))]
      + ([KeyEvent(ParamsKey)] + WriteJson.Tokens(self.params)) + [EndObjectEvent]
  {
    RequestLayout(self);
    WriteJson.Object(dest, RequestMembers(self));
  }

  /** The `get_info` call as it goes on the wire. */
  lemma GetInfoRequestLayout()
    ensures WriteJson.Tokens(ObjectValue(RequestMembers(NewRequest(GetInfoName, EmptyRequest)))) ==
      [StartObjectEvent, KeyEvent("id"), UintEvent(0),
       KeyEvent("jsonrpc"), StringEvent("2.0"),
       KeyEvent("method"), StringEvent("get_info"),
       KeyEvent("params"), StartObjectEvent, EndObjectEvent, EndObjectEvent]
  {
    var self := NewRequest(GetInfoName, EmptyRequest);
    RequestLayout(self);
    assert CString(GetInfoName) == GetInfoName;
    assert WriteJson.Tokens(EmptyRequest) == [StartObjectEvent, EndObjectEvent];
    Flatten(KeyEvent(IdKey), UintEvent(0), KeyEvent(JsonRpcKey), StringEvent(JsonRpcVersion),
            KeyEvent(MethodKey), StringEvent(GetInfoName), KeyEvent(ParamsKey));
  }

  /** The request layout with empty parameters, as one flat token list. */
  lemma Flatten(a: Event, b: Event, c: Event, d: Event, e: Event, f: Event, g: Event)
    ensures [StartObjectEvent] + [a, b] + [c, d] + [e, f] + ([g] + [StartObjectEvent, EndObjectEvent]) + [EndObjectEvent]
            == [StartObjectEvent, a, b, c, d, e, f, g, StartObjectEvent, EndObjectEvent, EndObjectEvent]
  {
  }

  /** `read_bytes(json_reader&, json_response<R>&)`: both `id` and
      `result` are required. */
  function ResponseFields(result: Kind): (fs: seq<Field<Kind>>)
    ensures Names(fs) == ["id", "result"]
    ensures Readable(result) ==> Readable(ObjectKind(fs))
  {
    [MakeField("id", UintKind(Unsigned)), MakeField("result", result)]
  }

  /** A decoded response has an `unsigned` id and a result of the
      method's response kind. */
  lemma ResponseShape(v: Value, result: Kind)
    requires Conforms(v, ObjectKind(ResponseFields(result)))
    ensures Names(v.members) == ["id", "result"]
    ensures v.members[0].value.UintValue? && 0 <= v.members[0].value.n < 0x1_0000_0000
    ensures Conforms(v.members[1].value, result)
  {
  }

  /** `read_bytes(json_reader&, json_response<R>&)`. */
  method ReadResponse(source: Reader, result: Kind) returns (r: Outcome<Value>)
    requires Readable(result)
    modifies source
    ensures var d := Decoded(source.scan, old(source.current), old(source.depth), ObjectKind(ResponseFields(result)));
      && r == Project(d)
      && (d.Ok? ==> source.current == d.value.rest && source.depth == old(source.depth))
    ensures r.Ok? ==> Conforms(r.value, ObjectKind(ResponseFields(result)))
  {
    r := ReadJson.Object(source, ResponseFields(result));
  }

  /** A response read from `{}` fails with `missing_key` naming `id`,
      whatever the type of its result. */
  lemma EmptyResponseMissesId(scan: Scanner, result: Kind)
    requires Readable(result)
    ensures Decoded(scan, "{}", 0, ObjectKind(ResponseFields(result))) == Err(SchemaFailure(MissingKey, "id"))
  {
    var name: seq<byte> := "id";
    assert Nul !in name by {
      assert forall i :: 0 <= i < |name| ==> name[i] != Nul;
    }
    assert ResponseFields(result)[0].name == name;
    EmptyObject(scan, 0, ResponseFields(result));
  }
}
