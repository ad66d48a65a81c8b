/** The daemon RPC methods the program calls, `get_info` and
    `get_transaction_pool`: empty requests, and the schemas of their
    responses. */
module Method {
  import opened Wrappers
  import opened Bytes
  import opened WireField
  import opened WireInteger
  import opened WireSchema
  import opened WireError
  import opened JsonReader
  import opened JsonWriter
  import opened MoneroData
  import ReadJson
  import opened JsonDecode
  import WriteJson

  /** `get_info::name()`. */
  const GetInfoName: seq<byte> := "get_info"

  /** `get_transaction_pool::name()`. */
  const GetTransactionPoolName: seq<byte> := "get_transaction_pool"

  /** `get_info::request` and `get_transaction_pool::request`: no members. */
  const EmptyRequest: Value := ObjectValue([])

  /** `read_bytes(json_reader&, get_info::data&)`, fields in the order of
      the `wire::object` call. */
  const GetInfoDataFields: seq<Field<Kind>> := [
    MakeField("height", UintKind(UnsignedLong)),
    MakeField("target_height", UintKind(UnsignedLong)),
    MakeField("outgoing_connections_count", UintKind(UnsignedLong)),
    MakeField("incoming_connections_count", UintKind(UnsignedLong)),
    MakeField("top_block_hash", HashKind),
    MakeField("mainnet", BoolKind),
    MakeField("testnet", BoolKind),
    MakeField("stagenet", BoolKind)
  ]

  /** `read_bytes(json_reader&, get_info::response&)`. */
  const GetInfoResponseFields: seq<Field<Kind>> := [MakeField("info", ObjectKind(GetInfoDataFields))]

  /** `read_bytes(json_reader&, get_transaction_pool::entry&)`. */
  const TxPoolEntryFields: seq<Field<Kind>> := [MakeField("tx_hash", HashKind)]

  /** `read_bytes(json_reader&, get_transaction_pool::response&)`. */
  const TxPoolResponseFields: seq<Field<Kind>> :=
    [MakeField("transactions", ArrayKind(ObjectKind(TxPoolEntryFields)))]

  /** The kind `get_transaction_pool::response` reads, with its nesting
      checked once here. */
  function TxPoolResponseKind(): (k: Kind)
    ensures k == ObjectKind(TxPoolResponseFields) && Readable(k)
  {
    assert Readable(TxPoolResponseFields[0].value) by {
      assert TxPoolResponseFields[0].value == ArrayKind(ObjectKind(TxPoolEntryFields));
      assert Readable(ObjectKind(TxPoolEntryFields));
    }
    ObjectKind(TxPoolResponseFields)
  }

  /** `write_bytes(json_writer&, const get_info::request&)`: `{}`. */
  method WriteGetInfoRequest(dest: Writer)
    requires dest.Valid()
    modifies dest
    ensures dest.Valid()
    ensures dest.bytes == old(dest.bytes) + [StartObjectEvent, EndObjectEvent] && dest.open == old(dest.open)
  {
    WriteJson.Object(dest, []);
  }

  /** `write_bytes(json_writer&, const get_transaction_pool::request&)`: `{}`. */
  method WriteTransactionPoolRequest(dest: Writer)
    requires dest.Valid()
    modifies dest
    ensures dest.Valid()
    ensures dest.bytes == old(dest.bytes) + [StartObjectEvent, EndObjectEvent] && dest.open == old(dest.open)
  {
    WriteJson.Object(dest, []);
  }

  /** A decoded `get_info::data` has all eight fields in order: four 64-bit
      counters, the top block hash and the three network flags. */
  lemma GetInfoDataShape(v: Value)
    requires Conforms(v, ObjectKind(GetInfoDataFields))
    ensures Names(v.members) == [
      "height", "target_height", "outgoing_connections_count", "incoming_connections_count",
      "top_block_hash", "mainnet", "testnet", "stagenet"]
    ensures forall i :: 0 <= i < 4 ==>
      v.members[i].value.UintValue? && 0 <= v.members[i].value.n < 0x1_0000_0000_0000_0000
    ensures v.members[4].value.BlobValue? && |v.members[4].value.bytes| == HashSize
    ensures forall i :: 5 <= i < 8 ==> v.members[i].value.BoolValue?
  {
    assert forall i :: 0 <= i < 4 ==> GetInfoDataFields[i].value == UintKind(UnsignedLong);
    assert forall i :: 5 <= i < 8 ==> GetInfoDataFields[i].value == BoolKind;
  }

  /** A decoded `get_info::response` is the single member `info`. */
  lemma GetInfoResponseShape(v: Value)
    requires Conforms(v, ObjectKind(GetInfoResponseFields))
    ensures Names(v.members) == ["info"]
    ensures Conforms(v.members[0].value, ObjectKind(GetInfoDataFields))
  {
  }

  /** A decoded `get_transaction_pool::response` is the single member
      `transactions`, each entry a full-width `tx_hash`. */
  lemma TxPoolResponseShape(v: Value)
    requires Conforms(v, ObjectKind(TxPoolResponseFields))
    ensures Names(v.members) == ["transactions"]
    ensures v.members[0].value.ArrayValue?
    ensures forall i :: 0 <= i < |v.members[0].value.elements| ==>
      var entry := v.members[0].value.elements[i];
      entry.ObjectValue? && Names(entry.members) == ["tx_hash"]
      && entry.members[0].value.BlobValue? && |entry.members[0].value.bytes| == HashSize
  {
    var txs := v.members[0].value;
    assert TxPoolResponseFields[0].value == ArrayKind(ObjectKind(TxPoolEntryFields));
    assert Conforms(txs, ArrayKind(ObjectKind(TxPoolEntryFields)));
    forall i | 0 <= i < |txs.elements|
      ensures txs.elements[i].ObjectValue? && Names(txs.elements[i].members) == ["tx_hash"]
      ensures txs.elements[i].members[0].value.BlobValue?
      ensures |txs.elements[i].members[0].value.bytes| == HashSize
    {
      var entry := txs.elements[i];
      assert Conforms(entry, ObjectKind(TxPoolEntryFields));
      assert Conforms(entry.members[0].value, HashKind);
    }
  }

  /** `read_bytes(json_reader&, get_info::data&)`. */
  method ReadGetInfoData(source: Reader) returns (r: Outcome<Value>)
    modifies source
    ensures var d := Decoded(source.scan, old(source.current), old(source.depth), ObjectKind(GetInfoDataFields));
      && r == Project(d)
      && (d.Ok? ==> source.current == d.value.rest && source.depth == old(source.depth))
    ensures r.Ok? ==> Conforms(r.value, ObjectKind(GetInfoDataFields))
  {
    r := ReadJson.Object(source, GetInfoDataFields);
  }

  /** `read_bytes(json_reader&, get_info::response&)`. */
  method ReadGetInfoResponse(source: Reader) returns (r: Outcome<Value>)
    modifies source
    ensures var d := Decoded(source.scan, old(source.current), old(source.depth), ObjectKind(GetInfoResponseFields));
      && r == Project(d)
      && (d.Ok? ==> source.current == d.value.rest && source.depth == old(source.depth))
    ensures r.Ok? ==> Conforms(r.value, ObjectKind(GetInfoResponseFields))
  {
    r := ReadJson.Object(source, GetInfoResponseFields);
  }

  /** `read_bytes(json_reader&, get_transaction_pool::entry&)`. */
  method ReadTxPoolEntry(source: Reader) returns (r: Outcome<Value>)
    modifies source
    ensures var d := Decoded(source.scan, old(source.current), old(source.depth), ObjectKind(TxPoolEntryFields));
      && r == Project(d)
      && (d.Ok? ==> source.current == d.value.rest && source.depth == old(source.depth))
    ensures r.Ok? ==> Conforms(r.value, ObjectKind(TxPoolEntryFields))
  {
    r := ReadJson.Object(source, TxPoolEntryFields);
  }

  /** `read_bytes(json_reader&, get_transaction_pool::response&)`. */
  method ReadTxPoolResponse(source: Reader) returns (r: Outcome<Value>)
    modifies source
    ensures var d := Decoded(source.scan, old(source.current), old(source.depth), TxPoolResponseKind());
      && r == Project(d)
      && (d.Ok? ==> source.current == d.value.rest && source.depth == old(source.depth))
    ensures r.Ok? ==> Conforms(r.value, ObjectKind(TxPoolResponseFields))
  {
    assert Readable(TxPoolResponseKind());
    r := ReadJson.Object(source, TxPoolResponseFields);
  }

  /** `get_info::data` read from `{}` fails with `missing_key` naming `height`. */
  lemma EmptyGetInfoDataMissesHeight(scan: Scanner)
    ensures Decoded(scan, "{}", 0, ObjectKind(GetInfoDataFields)) == Err(SchemaFailure(MissingKey, "height"))
  {
    var name: seq<byte> := "height";
    assert Nul !in name by {
      assert forall i :: 0 <= i < |name| ==> name[i] != Nul;
    }
    assert GetInfoDataFields[0].name == name;
    EmptyObject(scan, 0, GetInfoDataFields);
  }

  /** `get_info::response` read from `{}` fails with `missing_key` naming `info`. */
  lemma EmptyGetInfoResponseMissesInfo(scan: Scanner)
    ensures Decoded(scan, "{}", 0, ObjectKind(GetInfoResponseFields)) == Err(SchemaFailure(MissingKey, "info"))
  {
    var name: seq<byte> := "info";
    assert Nul !in name by {
      assert forall i :: 0 <= i < |name| ==> name[i] != Nul;
    }
    assert GetInfoResponseFields[0].name == name;
    EmptyObject(scan, 0, GetInfoResponseFields);
  }

  /** A pool entry read from `{}` fails with `missing_key` naming `tx_hash`. */
  lemma EmptyTxPoolEntryMissesTxHash(scan: Scanner)
    ensures Decoded(scan, "{}", 0, ObjectKind(TxPoolEntryFields)) == Err(SchemaFailure(MissingKey, "tx_hash"))
  {
    var name: seq<byte> := "tx_hash";
    assert Nul !in name by {
      assert forall i :: 0 <= i < |name| ==> name[i] != Nul;
    }
    assert TxPoolEntryFields[0].name == name;
    EmptyObject(scan, 0, TxPoolEntryFields);
  }

  /** A pool response read from `{}` fails with `missing_key` naming `transactions`. */
  lemma EmptyTxPoolResponseMissesTransactions(scan: Scanner)
    ensures Decoded(scan, "{}", 0, TxPoolResponseKind()) == Err(SchemaFailure(MissingKey, "transactions"))
  {
    var name: seq<byte> := "transactions";
    assert Nul !in name by {
      assert forall i :: 0 <= i < |name| ==> name[i] != Nul;
    }
    assert TxPoolResponseFields[0].name == name;
    assert Readable(TxPoolResponseKind());
    EmptyObject(scan, 0, TxPoolResponseFields);
  }
}
