/** Monero data the program receives: 32-byte hashes, their ordering, and
    the `block` and `minimal_tx` schemas. */
module MoneroData {
  import opened Wrappers
  import opened Bytes
  import opened WireField
  import opened WireSchema
  import opened WireError
  import opened JsonReader
  import ReadJson
  import opened JsonDecode

  /** `sizeof(hash::data)`. */
  const HashSize: nat := 32

  /** `monero::hash`. */
  type Hash = h: seq<byte> | |h| == HashSize witness seq(HashSize, _ => Nul)

  /** `std::memcmp` over `|left|` bytes: the difference of the first pair of
      bytes that differ, read as `unsigned char`, or 0 when there is none.
      C fixes only the sign of the result. The result is zero exactly when
      the bytes are equal, and it fits in a byte difference. */
  function Memcmp(left: seq<byte>, right: seq<byte>): (r: int)
    requires |left| == |right|
    ensures r == 0 <==> left == right
    ensures -255 <= r <= 255
    decreases |left|
  {
    if |left| == 0 then 0
    else if left[0] != right[0] then left[0] as int - right[0] as int
    else
      assert left == [left[0]] + left[1..] && right == [right[0]] + right[1..];
      Memcmp(left[1..], right[1..])
  }

  /** `monero::compare`: zero exactly for equal hashes. */
  function Compare(left: Hash, right: Hash): (r: int)
    ensures r == 0 <==> left == right
  {
    Memcmp(left, right)
  }

  /** The first index at which two byte strings of the same length differ. */
  predicate FirstDifference(left: seq<byte>, right: seq<byte>, i: nat)
    requires |left| == |right|
  {
    i < |left| && left[..i] == right[..i] && left[i] != right[i]
  }

  /** Swapping the arguments negates the result. This exact negation is a
      property of the byte difference modelled here; C promises only that the
      sign flips. */
  lemma {:induction false} MemcmpAntisymmetric(left: seq<byte>, right: seq<byte>)
    requires |left| == |right|
    ensures Memcmp(left, right) == -Memcmp(right, left)
    decreases |left|
  {
    if |left| > 0 && left[0] == right[0] {
      MemcmpAntisymmetric(left[1..], right[1..]);
    }
  }

  /** The sign is decided by the first differing byte: the result is
      negative exactly when, at the first index where they differ, `left`
      holds the smaller byte. */
  lemma {:induction false} MemcmpLexicographic(left: seq<byte>, right: seq<byte>, i: nat)
    requires |left| == |right| && FirstDifference(left, right, i)
    ensures Memcmp(left, right) == left[i] as int - right[i] as int
    ensures Memcmp(left, right) < 0 <==> left[i] < right[i]
    decreases i
  {
    if i > 0 {
      assert left[0] == left[..i][0] == right[..i][0] == right[0];
      assert left[1..][..i - 1] == left[..i][1..] && right[1..][..i - 1] == right[..i][1..];
      MemcmpLexicographic(left[1..], right[1..], i - 1);
    }
  }

  /** The properties of `monero::compare` on hashes. */
  lemma CompareProperties(left: Hash, right: Hash)
    ensures Compare(left, right) == 0 <==> left == right
    ensures Compare(left, right) == -Compare(right, left)
  {
    MemcmpAntisymmetric(left, right);
  }

  /** `read_bytes(json_reader&, hash&)`: a hash is a 32-byte blob. */
  const HashKind: Kind := BlobKind(HashSize)

  /** `minimal_tx_map`: the single field `id`. */
  const MinimalTxFields: seq<Field<Kind>> := [MakeField("id", HashKind)]

  /** `read_bytes(json_reader&, block&)`: `tx_hashes` then `prev_id`. */
  const BlockFields: seq<Field<Kind>> := [
    MakeField("tx_hashes", ArrayKind(HashKind)),
    MakeField("prev_id", HashKind)
  ]

  /** A decoded `minimal_tx` carries exactly its `id`, a full hash. */
  lemma MinimalTxShape(v: Value)
    requires Conforms(v, ObjectKind(MinimalTxFields))
    ensures Names(v.members) == ["id"]
    ensures v.members[0].value.BlobValue? && |v.members[0].value.bytes| == HashSize
  {
  }

  /** A decoded `block` carries both `tx_hashes` and `prev_id`, in that
      order, every transaction hash and the previous id of full width. */
  lemma BlockShape(v: Value)
    requires Conforms(v, ObjectKind(BlockFields))
    ensures Names(v.members) == ["tx_hashes", "prev_id"]
    ensures v.members[0].value.ArrayValue?
    ensures forall i :: 0 <= i < |v.members[0].value.elements| ==>
      v.members[0].value.elements[i].BlobValue? && |v.members[0].value.elements[i].bytes| == HashSize
    ensures v.members[1].value.BlobValue? && |v.members[1].value.bytes| == HashSize
  {
    assert BlockFields[0].value == ArrayKind(HashKind);
    assert Conforms(v.members[0].value, ArrayKind(HashKind));
  }

  /** `read_bytes(json_reader&, block&)`. */
  method ReadBlock(source: Reader) returns (r: Outcome<Value>)
    modifies source
    ensures var d := Decoded(source.scan, old(source.current), old(source.depth), ObjectKind(BlockFields));
      && r == Project(d)
      && (d.Ok? ==> source.current == d.value.rest && source.depth == old(source.depth))
    ensures r.Ok? ==> Conforms(r.value, ObjectKind(BlockFields))
  {
    r := ReadJson.Object(source, BlockFields);
  }

  /** `read_bytes(json_reader&, minimal_tx&)` from `WIRE_DEFINE_OBJECT`. */
  method ReadMinimalTx(source: Reader) returns (r: Outcome<Value>)
    modifies source
    ensures var d := Decoded(source.scan, old(source.current), old(source.depth), ObjectKind(MinimalTxFields));
      && r == Project(d)
      && (d.Ok? ==> source.current == d.value.rest && source.depth == old(source.depth))
    ensures r.Ok? ==> Conforms(r.value, ObjectKind(MinimalTxFields))
  {
    r := ReadJson.Object(source, MinimalTxFields);
  }

  /** A block read from `{}` fails with `missing_key` naming `tx_hashes`, its first field. */
  lemma EmptyBlockMissesTxHashes(scan: Scanner)
    ensures Decoded(scan, "{}", 0, ObjectKind(BlockFields)) == Err(SchemaFailure(MissingKey, "tx_hashes"))
  {
    var name: seq<byte> := "tx_hashes";
    assert Nul !in name by {
      assert forall i :: 0 <= i < |name| ==> name[i] != Nul;
    }
    assert BlockFields[0].name == name;
    EmptyObject(scan, 0, BlockFields);
  }

  /** A minimal transaction read from `{}` fails with `missing_key` naming `id`. */
  lemma EmptyMinimalTxMissesId(scan: Scanner)
    ensures Decoded(scan, "{}", 0, ObjectKind(MinimalTxFields)) == Err(SchemaFailure(MissingKey, "id"))
  {
    var name: seq<byte> := "id";
    assert Nul !in name by {
      assert forall i :: 0 <= i < |name| ==> name[i] != Nul;
    }
    assert MinimalTxFields[0].name == name;
    EmptyObject(scan, 0, MinimalTxFields);
  }
}
