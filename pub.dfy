/** Messages from the daemon's ZMQ publisher: a topic, a ':' and a JSON
    body, and the `minimal_chain` schema of the chain topic's body. */
module Pub {
  import opened Wrappers
  import opened Bytes
  import opened WireField
  import opened WireInteger
  import opened WireSchema
  import opened WireError
  import opened JsonReader
  import opened MoneroData
  import ReadJson
  import opened JsonDecode

  /** The division of a raw message into topic and contents: the topic is
      everything before the first ':' and the contents everything after
      it; without a ':' the whole message is contents. */
  function Split(raw: seq<byte>): (parts: (seq<byte>, seq<byte>))
    ensures ':' !in parts.0
    ensures ':' in raw ==> parts.0 + [':'] + parts.1 == raw
    ensures ':' !in raw ==> parts.0 == [] && parts.1 == raw
  {
    var split := IndexOfByte(raw, ':');
    if split < |raw| then
      assert raw[..split] + [':'] + raw[split + 1..] == raw;
      (raw[..split], raw[split + 1..])
    else ([], raw)
  }

  /** Any topic without ':' and any contents are recovered from the
      message that joins them with ':'. */
  lemma {:induction false} SplitOfJoin(topic: seq<byte>, contents: seq<byte>)
    requires ':' !in topic
    ensures Split(topic + [':'] + contents) == (topic, contents)
  {
    var raw := topic + [':'] + contents;
    assert raw[|topic|] == ':';
    var split := IndexOfByte(raw, ':');
    assert split == |topic| by {
      assert forall j :: 0 <= j < |topic| ==> raw[j] == topic[j];
    }
    assert raw[..split] == topic;
    assert raw[split + 1..] == contents;
  }

  /** `pub::message`. */
  class Message {
    var topic: seq<byte>
    var contents: seq<byte>

    /** The whole message starts out as contents; if `memchr` finds a ':',
        the bytes before it are taken as the topic and the ':' dropped. */
    constructor(raw: seq<byte>)
      ensures (topic, contents) == Split(raw)
    {
      topic := [];
      contents := raw;
      new;
      var split := IndexOfByte(contents, ':');
      if split < |contents| {
        topic := contents[..split];
        contents := contents[split..];
        contents := contents[1..];
      }
    }
  }

  /** `read_bytes(json_reader&, minimal_chain&)`: all three fields. */
  const MinimalChainFields: seq<Field<Kind>> := [
    MakeField("first_height", UintKind(UnsignedLong)),
    MakeField("ids", ArrayKind(HashKind)),
    MakeField("first_prev_id", HashKind)
  ]

  /** `full_chain`: an array of blocks. */
  const FullChainKind: Kind := ArrayKind(ObjectKind(BlockFields))

  /** `minimal_txpool`: an array of minimal transactions. */
  const MinimalTxpoolKind: Kind := ArrayKind(ObjectKind(MinimalTxFields))

  /** A decoded `minimal_chain` has its three fields in order, a 64-bit
      first height, full-width ids and a full-width previous id. */
  lemma MinimalChainShape(v: Value)
    requires Conforms(v, ObjectKind(MinimalChainFields))
    ensures Names(v.members) == ["first_height", "ids", "first_prev_id"]
    ensures v.members[0].value.UintValue? && 0 <= v.members[0].value.n < 0x1_0000_0000_0000_0000
    ensures v.members[1].value.ArrayValue?
    ensures forall i :: 0 <= i < |v.members[1].value.elements| ==>
      v.members[1].value.elements[i].BlobValue? && |v.members[1].value.elements[i].bytes| == HashSize
    ensures v.members[2].value.BlobValue? && |v.members[2].value.bytes| == HashSize
  {
    assert MinimalChainFields[1].value == ArrayKind(HashKind);
    assert Conforms(v.members[1].value, ArrayKind(HashKind));
  }

  /** `read_bytes(json_reader&, minimal_chain&)`. */
  method ReadMinimalChain(source: Reader) returns (r: Outcome<Value>)
    modifies source
    ensures var d := Decoded(source.scan, old(source.current), old(source.depth), ObjectKind(MinimalChainFields));
      && r == Project(d)
      && (d.Ok? ==> source.current == d.value.rest && source.depth == old(source.depth))
    ensures r.Ok? ==> Conforms(r.value, ObjectKind(MinimalChainFields))
  {
    r := ReadJson.Object(source, MinimalChainFields);
  }

  /** A minimal chain read from `{}` fails with `missing_key` naming `first_height`. */
  lemma EmptyMinimalChainMissesFirstHeight(scan: Scanner)
    ensures Decoded(scan, "{}", 0, ObjectKind(MinimalChainFields)) == Err(SchemaFailure(MissingKey, "first_height"))
  {
    var name: seq<byte> := "first_height";
    assert Nul !in name by {
      assert forall i :: 0 <= i < |name| ==> name[i] != Nul;
    }
    assert MinimalChainFields[0].name == name;
    EmptyObject(scan, 0, MinimalChainFields);
  }
}
