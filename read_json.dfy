/** `read_json`: DOM-less decoding of arrays and objects on top of
    `json_reader`, one `tracker` per object field for presence and
    duplicate detection, and the `read_bytes` overloads that pick a reader
    primitive from the destination type. */
module ReadJson {
  import opened Wrappers
  import opened Bytes
  import opened WireError
  import opened WireInteger
  import opened WireField
  import opened WireSchema
  import opened JsonReader
  import opened JsonDecode

  /** `read_json::throw_exception`: the error carries `code` and the message
      `display` followed by the first name that is not null. */
  method ThrowException(code: Schema, display: seq<byte>, names: seq<Option<seq<byte>>>) returns (f: Failure)
    ensures f.SchemaFailure? && f.category == code
    ensures (forall i :: 0 <= i < |names| ==> names[i].None?) ==> f.message == display
    ensures forall k :: 0 <= k < |names| && names[k].Some? && (forall j :: 0 <= j < k ==> names[j].None?) ==>
              f.message == display + CString(names[k].value)
  {
    var name: seq<byte> := [];
    var i := 0;
    while i < |names|
      invariant i <= |names|
      invariant forall j :: 0 <= j < i ==> names[j].None?
    {
      if names[i].Some? {
        name := CString(names[i].value);
        break;
      }
      i := i + 1;
    }
    return SchemaFailure(code, display + name);
  }

  /** `read_json::tracker`: one object field, the slot it owns in the key
      table, and whether it has been read. The destination the C++ tracker
      refers to is held in `value`. */
  class Tracker {
    const field: Field<Kind>
    var ourIndex: nat
    var read: bool
    var value: Value

    /** Every field of the core is required. */
    static function IsRequired(): bool {
      true
    }

    /** Each field takes one slot of the key table. */
    static function Count(): nat {
      1
    }

    constructor(field: Field<Kind>)
      ensures this.field == field && ourIndex == 0 && !read
    {
      this.field := field;
      ourIndex := 0;
      read := false;
      value := UintValue(0);
    }

    /** `name_if_missing`: the field name exactly when the field is still
        unread, since every field is required. */
    function NameIfMissing(): (name: Option<seq<byte>>)
      reads this
      ensures name.Some? <==> !read
      ensures name.Some? ==> name.value == field.name
    {
      if IsRequired() && !read then Some(field.name) else None
    }

    /** `set_mapping`: claim slot `index` of `table` for this field's name and
        return the next free slot. */
    method SetMapping(index: nat, table: array<seq<byte>>) returns (next: nat)
      requires index < table.Length
      modifies this`ourIndex, table
      ensures ourIndex == index && table[index] == field.name
      ensures forall j :: 0 <= j < table.Length && j != index ==> table[j] == old(table[j])
      ensures next == index + Count()
    {
      ourIndex := index;
      table[index] := field.name;
      return index + Count();
    }

    /** `try_read`: 0 when `index` is not this field's slot; a second read
        of the same field fails with `invalid_key` "duplicate"; otherwise
        the value is read, the field is marked read, and the result is 2. */
    method TryRead(source: Reader, index: nat) returns (r: Outcome<nat>)
      requires Readable(field.value)
      modifies this`read, this`value, source
      decreases field.value, 7
      ensures ourIndex != index ==>
        r == Ok(0) && read == old(read) && value == old(value)
        && source.current == old(source.current) && source.depth == old(source.depth)
      ensures ourIndex == index && old(read) ==>
        r == Err(SchemaFailure(InvalidKey, DuplicateDisplay + CString(field.name)))
        && read == old(read) && value == old(value)
      ensures ourIndex == index && !old(read) ==>
        var d := Decoded(source.scan, old(source.current), old(source.depth), field.value);
        && (d.Err? ==> r == Err(d.error))
        && (d.Ok? ==> && r == Ok(1 + (if IsRequired() then 1 else 0)) && read && value == d.value.value
                      && source.current == d.value.rest && source.depth == old(source.depth))
    {
      if ourIndex != index {
        return Ok(0);
      }
      if read {
        var names := [Some(field.name)];
        assert names[0].Some?;
        var f := ThrowException(InvalidKey, DuplicateDisplay, names);
        return Err(f);
      }
      var v := ReadBytes(source, field.value);
      if v.Err? {
        return Err(v.error);
      }
      value := v.value;
      read := true;
      return Ok(1 + (if IsRequired() then 1 else 0));
    }
  }

  /** Tracker `t` has read exactly the value `v` holds, if any. */
  predicate Holds(t: Tracker, v: Option<Value>)
    reads t
  {
    (t.read <==> v.Some?) && (v.Some? ==> t.value == v.value)
  }

  /** The trackers `wire::object` builds, one per descriptor, in order. */
  method MakeTrackers(fields: seq<Field<Kind>>) returns (trackers: seq<Tracker>)
    ensures |trackers| == |fields|
    ensures forall k :: 0 <= k < |fields| ==>
              fresh(trackers[k]) && trackers[k].field == fields[k] && !trackers[k].read
    ensures forall k, l :: 0 <= k < l < |trackers| ==> trackers[k] != trackers[l]
  {
    trackers := [];
    while |trackers| < |fields|
      invariant |trackers| <= |fields|
      invariant forall k :: 0 <= k < |trackers| ==>
                  fresh(trackers[k]) && trackers[k].field == fields[k] && !trackers[k].read
      invariant forall k, l :: 0 <= k < l < |trackers| ==> trackers[k] != trackers[l]
    {
      var t := new Tracker(fields[|trackers|]);
      trackers := trackers + [t];
    }
  }

  /** `expand_tracker_map`: the i-th tracker claims slot i, so the i-th
      field's name is at `table[i]`, in declaration order. */
  method ExpandTrackerMap(trackers: seq<Tracker>, table: array<seq<byte>>) returns (next: nat)
    requires |trackers| == table.Length
    requires forall k, l :: 0 <= k < l < |trackers| ==> trackers[k] != trackers[l]
    modifies trackers, table
    ensures next == |trackers|
    ensures forall k :: 0 <= k < |trackers| ==>
              trackers[k].ourIndex == k && table[k] == trackers[k].field.name
    ensures forall k :: 0 <= k < |trackers| ==>
              trackers[k].read == old(trackers[k].read) && trackers[k].value == old(trackers[k].value)
  {
    next := 0;
    while next < |trackers|
      invariant next <= |trackers|
      invariant forall k :: 0 <= k < next ==>
                  trackers[k].ourIndex == k && table[k] == trackers[k].field.name
      invariant forall k :: 0 <= k < |trackers| ==>
                  trackers[k].read == old(trackers[k].read) && trackers[k].value == old(trackers[k].value)
    {
      next := trackers[next].SetMapping(next, table);
    }
  }

  /** The number of unread fields: `required` in `object`. */
  function Unread(vals: seq<Option<Value>>): (n: nat)
    ensures n <= |vals|
  {
    if |vals| == 0 then 0 else (if vals[0].Some? then 0 else 1) + Unread(vals[1..])
  }

  lemma {:induction false} UnreadMark(vals: seq<Option<Value>>, i: nat, v: Value)
    requires i < |vals| && vals[i].None?
    ensures Unread(vals[i := Some(v)]) == Unread(vals) - 1
  {
    if i > 0 {
      assert vals[i := Some(v)][1..] == vals[1..][i - 1 := Some(v)];
      UnreadMark(vals[1..], i - 1, v);
    }
  }

  lemma {:induction false} UnreadZero(vals: seq<Option<Value>>)
    ensures Unread(vals) == 0 <==> forall k :: 0 <= k < |vals| ==> vals[k].Some?
  {
    if |vals| > 0 {
      UnreadZero(vals[1..]);
      assert forall k :: 1 <= k < |vals| ==> vals[k] == vals[1..][k - 1];
    }
  }

  lemma {:induction false} UnreadNone(n: nat)
    ensures Unread(Nones(n)) == n
  {
    if n > 0 {
      assert Nones(n)[1..] == Nones(n - 1);
      UnreadNone(n - 1);
    }
  }

  /** `sum(fields.try_read(source, next)...)`: the tracker owning slot
      `index` reads its value; every other one claims nothing. */
  method Dispatch(source: Reader, trackers: seq<Tracker>, ghost fields: seq<Field<Kind>>, index: nat)
    returns (r: Outcome<nat>)
    requires |trackers| == |fields| && Readable(ObjectKind(fields))
    requires forall k :: 0 <= k < |trackers| ==> trackers[k].field == fields[k] && trackers[k].ourIndex == k
    modifies source, trackers`read, trackers`value
    decreases ObjectKind(fields), 0
    ensures forall k :: 0 <= k < |trackers| ==> trackers[k].ourIndex == k
    ensures forall k :: 0 <= k < |trackers| && k != index ==>
              trackers[k].read == old(trackers[k].read) && trackers[k].value == old(trackers[k].value)
    ensures index >= |trackers| ==>
              r == Ok(0) && source.current == old(source.current) && source.depth == old(source.depth)
    ensures index < |trackers| && old(trackers[index].read) ==>
              r == Err(SchemaFailure(InvalidKey, DuplicateDisplay + CString(fields[index].name)))
    ensures index < |trackers| && !old(trackers[index].read) ==>
              ReadInto(Decoded(source.scan, old(source.current), old(source.depth), fields[index].value),
                       r, trackers[index], source, old(source.depth))
  {
    var claims: seq<int> := [];
    while |claims| < |trackers|
      invariant |claims| <= |trackers|
      invariant forall k :: 0 <= k < |trackers| ==> trackers[k].ourIndex == k
      invariant forall k :: 0 <= k < |trackers| && (k != index || |claims| <= index) ==>
                  trackers[k].read == old(trackers[k].read) && trackers[k].value == old(trackers[k].value)
      invariant forall k :: 0 <= k < |claims| && k != index ==> claims[k] == 0
      invariant |claims| <= index ==>
                  source.current == old(source.current) && source.depth == old(source.depth)
      invariant index < |claims| ==>
                  && !old(trackers[index].read) && claims[index] == 2
                  && ReadInto(Decoded(source.scan, old(source.current), old(source.depth), fields[index].value),
                              Ok(2), trackers[index], source, old(source.depth))
    {
      var j := |claims|;
      assert fields[j] in fields;
      var c := trackers[j].TryRead(source, index);
      if c.Err? {
        return Err(c.error);
      }
      claims := claims + [c.value];
    }
    if index < |claims| {
      SumOfSingleton(claims, index);
    } else {
      SumOfZeros(claims);
    }
    return Ok(Sum(claims));
  }

  /** The owning tracker's read of decoding `d`: its error, or the claim 2
      with the value stored, the input advanced and the depth unchanged. */
  predicate ReadInto(d: Outcome<Decoding>, r: Outcome<nat>, t: Tracker, source: Reader, depth: Size)
    reads t, source
  {
    && (d.Err? ==> r == Err(d.error))
    && (d.Ok? ==> && r == Ok(2) && t.read && t.value == d.value.value
                  && source.current == d.value.rest && source.depth == depth)
  }

  /** `read_json::object`: '{', then members until '}'. Each member's name
      is looked up in the key table and its value read by the tracker that
      owns the slot; unknown names are skipped by `key`. At '}' every field
      must have been read, or `missing_key` names the first unread one. */
  method Object(source: Reader, fields: seq<Field<Kind>>) returns (r: Outcome<Value>)
    requires Readable(ObjectKind(fields))
    modifies source
    decreases ObjectKind(fields), 5
    ensures var d := Decoded(source.scan, old(source.current), old(source.depth), ObjectKind(fields));
      && r == Project(d)
      && (d.Ok? ==> source.current == d.value.rest && source.depth == old(source.depth))
  {
    var started := source.StartObject();
    if started.Err? {
      return Err(started.error);
    }
    r := ObjectBody(source, fields);
    WrapArithmetic(old(source.depth));
  }

  /** `read_json::object` after the '{': the trackers, the key table, the
      member loop, the `missing_key` check and the closing `end_object`. */
  method ObjectBody(source: Reader, fields: seq<Field<Kind>>) returns (r: Outcome<Value>)
    requires Readable(ObjectKind(fields))
    modifies source
    decreases ObjectKind(fields), 4
    ensures var d := DecodedBody(source.scan, old(source.current), old(source.depth), fields);
      && r == Project(d)
      && (d.Ok? ==> source.current == d.value.rest && source.depth == Decrement(old(source.depth)))
  {
    var trackers, table, required := Setup(fields);
    ghost var s0, d0 := source.current, source.depth;
    var left;
    ghost var vals;
    left, vals := Members(source, trackers, fields, table, required);
    if left.Err? {
      assert DecodedBody(source.scan, s0, d0, fields) == Err(left.error);
      return Err(left.error);
    }
    ghost var k := FirstUnread(vals);
    assert k < |fields| ==>
      DecodedBody(source.scan, s0, d0, fields) == Err(SchemaFailure(MissingKey, CString(fields[k].name)));
    assert k == |fields| ==>
      DecodedBody(source.scan, s0, d0, fields) == Ok(Decoding(ObjectValue(Assemble(fields, vals)), source.current));
    r := Conclude(source, trackers, fields, left.value, vals);
  }

  /** The start of `read_json::object`: one tracker per field, each owning
      the slot of the key table that holds its name, none read yet, and
      `required` counting every field. */
  method Setup(fields: seq<Field<Kind>>) returns (trackers: seq<Tracker>, table: array<seq<byte>>, required: nat)
    ensures fresh(table)
    ensures table.Length == |trackers| == |fields| == required
    ensures forall k :: 0 <= k < |trackers| ==>
              && fresh(trackers[k]) && trackers[k].field == fields[k] && trackers[k].ourIndex == k
              && table[k] == fields[k].name && !trackers[k].read
    ensures forall k, l :: 0 <= k < l < |trackers| ==> trackers[k] != trackers[l]
  {
    trackers := MakeTrackers(fields);
    var total := Sum(seq(|trackers|, _ => Tracker.Count()));
    SumOfOnes(seq(|trackers|, _ => Tracker.Count()));
    required := Sum(seq(|trackers|, _ => if Tracker.IsRequired() then 1 else 0));
    SumOfOnes(seq(|trackers|, _ => if Tracker.IsRequired() then 1 else 0));

    table := new seq<byte>[total](_ => []);
    var _ := ExpandTrackerMap(trackers, table);
  }

  /** The end of `read_json::object`: with fields left unread, `missing_key`
      naming the first of them; otherwise `end_object` and the struct. */
  method Conclude(source: Reader, trackers: seq<Tracker>, ghost fields: seq<Field<Kind>>,
                  left: nat, ghost vals: seq<Option<Value>>)
    returns (r: Outcome<Value>)
    requires |trackers| == |fields| == |vals| && left == Unread(vals)
    requires forall k :: 0 <= k < |trackers| ==> trackers[k].field == fields[k] && Holds(trackers[k], vals[k])
    modifies source`depth
    ensures var k := FirstUnread(vals);
      && (k < |fields| ==> r == Err(SchemaFailure(MissingKey, CString(fields[k].name))))
      && (k == |fields| ==> r == Ok(ObjectValue(Assemble(fields, vals)))
                            && source.depth == Decrement(old(source.depth)))
  {
    UnreadZero(vals);
    if left != 0 {
      var missing := MissingNames(trackers, fields, vals);
      var f := ThrowException(MissingKey, [], missing);
      ghost var k := FirstUnread(vals);
      assert missing[k].Some? && forall j :: 0 <= j < k ==> missing[j].None?;
      assert f.message == [] + CString(fields[k].name) == CString(fields[k].name);
      return Err(SchemaFailure(f.category, f.message));
    }
    source.EndObject();
    var v := Collect(trackers, fields, vals);
    return Ok(v);
  }

  /** `name_if_missing` of every tracker, in declaration order: the name of
      each field no member was read into. */
  method MissingNames(trackers: seq<Tracker>, ghost fields: seq<Field<Kind>>, ghost vals: seq<Option<Value>>)
    returns (missing: seq<Option<seq<byte>>>)
    requires |trackers| == |fields| == |vals|
    requires forall k :: 0 <= k < |trackers| ==> trackers[k].field == fields[k] && Holds(trackers[k], vals[k])
    ensures |missing| == |trackers|
    ensures forall k :: 0 <= k < |missing| ==>
              (missing[k].Some? <==> vals[k].None?) && (missing[k].Some? ==> missing[k].value == fields[k].name)
  {
    missing := seq(|trackers|, k requires 0 <= k < |trackers| reads trackers => trackers[k].NameIfMissing());
  }

  /** The destination struct once every tracker has read its field: member
      k is field k's name with the value its tracker decoded. */
  method Collect(trackers: seq<Tracker>, ghost fields: seq<Field<Kind>>, ghost vals: seq<Option<Value>>)
    returns (v: Value)
    requires |trackers| == |fields| == |vals|
    requires forall k :: 0 <= k < |trackers| ==>
               trackers[k].field == fields[k] && vals[k].Some? && Holds(trackers[k], vals[k])
    ensures v == ObjectValue(Assemble(fields, vals))
  {
    var members := seq(|trackers|, k requires 0 <= k < |trackers| reads trackers =>
      Field(trackers[k].field.name, trackers[k].value));
    assert members == Assemble(fields, vals);
    v := ObjectValue(members);
  }

  /** The member loop of `read_json::object`: `key` until '}', each
      resolved member read by its tracker, `required` decremented once per
      first read. The result is what is left of `required`: the number of
      fields no member was read into. */
  method Members(source: Reader, trackers: seq<Tracker>, ghost fields: seq<Field<Kind>>,
                 table: array<seq<byte>>, required: nat)
    returns (r: Outcome<nat>, ghost vals: seq<Option<Value>>)
    requires Readable(ObjectKind(fields))
    requires table.Length == |trackers| == |fields| == required
    requires forall k :: 0 <= k < |trackers| ==>
               && trackers[k].field == fields[k] && trackers[k].ourIndex == k
               && table[k] == fields[k].name && !trackers[k].read
    modifies source, trackers`read, trackers`value
    decreases ObjectKind(fields), 3
    ensures var m := MemberRounds(source.scan, old(source.current), old(source.depth), fields, Nones(|fields|), 0);
      && (m.Err? ==> r == Err(m.error))
      && (m.Ok? ==> && r == Ok(Unread(m.value.0)) && vals == m.value.0
                    && source.current == m.value.1 && source.depth == old(source.depth))
    ensures |vals| == |fields|
    ensures r.Ok? ==> forall k :: 0 <= k < |trackers| ==> Holds(trackers[k], vals[k])
  {
    UnreadNone(|trackers|);
    vals := Nones(|trackers|);
    var left := required;
    var count := 0;
    while true
      invariant source.depth == old(source.depth)
      invariant |vals| == |fields|
      invariant MemberRounds(source.scan, source.current, source.depth, fields, vals, count)
             == MemberRounds(source.scan, old(source.current), old(source.depth), fields, Nones(|fields|), 0)
      invariant forall k :: 0 <= k < |trackers| ==> trackers[k].ourIndex == k && Holds(trackers[k], vals[k])
      invariant left == Unread(vals)
      decreases |source.current|
    {
      MemberRoundsUnfold(source.scan, source.current, source.depth, fields, vals, count);
      var next;
      ghost var after;
      next, after := Member(source, trackers, fields, table, count, vals);
      if next.Err? {
        return Err(next.error), vals;
      }
      if next.value.None? {
        return Ok(left), vals;
      }
      UnreadMark(vals, next.value.value, after[next.value.value].value);
      vals := after;
      left := left - 1;
      count := count + 1;
    }
  }

  /** One round of the member loop: `key` finds the next member's slot, or
      '}' (`None`), and the tracker owning the slot reads the value. */
  method Member(source: Reader, trackers: seq<Tracker>, ghost fields: seq<Field<Kind>>,
                table: array<seq<byte>>, count: nat, ghost vals: seq<Option<Value>>)
    returns (r: Outcome<Option<nat>>, ghost after: seq<Option<Value>>)
    requires Readable(ObjectKind(fields))
    requires table.Length == |trackers| == |fields| == |vals|
    requires forall k :: 0 <= k < |trackers| ==>
               && trackers[k].field == fields[k] && trackers[k].ourIndex == k
               && table[k] == fields[k].name && Holds(trackers[k], vals[k])
    modifies source, trackers`read, trackers`value
    decreases ObjectKind(fields), 2
    ensures forall k :: 0 <= k < |trackers| ==> trackers[k].ourIndex == k
    ensures r.Ok? ==> |after| == |vals| && forall k :: 0 <= k < |trackers| ==> Holds(trackers[k], after[k])
    ensures var m := MemberRound(source.scan, old(source.current), old(source.depth), fields, vals, count);
      && (m.Err? ==> r == Err(m.error))
      && (m.Ok? ==> source.current == m.value.rest && source.depth == old(source.depth))
      && (m.Ok? && m.value.Close? ==> r == Ok(None) && after == vals)
      && (m.Ok? && m.value.Read? ==>
            r == Ok(Some(m.value.index)) && after == vals[m.value.index := Some(m.value.value)])
  {
    assert table[..] == Names(fields);
    ghost var m := MemberRound(source.scan, source.current, source.depth, fields, vals, count);
    ghost var key := NextKey(source.scan, source.current, Names(fields), count);
    var more, next := source.Key(table[..], count);
    if more.Err? {
      assert m == Err(key.error);
      return Err(more.error), vals;
    }
    if !more.value {
      assert m == Ok(Close(source.current));
      return Ok(None), vals;
    }
    assert m == FoundMember(source.scan, source.depth, fields, vals, key.value);
    var read;
    read, after := ReadMember(source, trackers, fields, next, vals, key.value);
    if read.Err? {
      return Err(read.error), vals;
    }
    return Ok(Some(next)), after;
  }

  /** The member `key` found at slot `index`: the tracker owning the slot
      reads the value. Only that tracker can claim it, so the claims add up
      to 2 and the `default` and `case 0` arms ("bad map setup") of
      `read_json::object` are not reached. */
  method ReadMember(source: Reader, trackers: seq<Tracker>, ghost fields: seq<Field<Kind>>,
                    index: nat, ghost vals: seq<Option<Value>>, ghost k: KeyStep)
    returns (r: Outcome<()>, ghost after: seq<Option<Value>>)
    requires Readable(ObjectKind(fields))
    requires |trackers| == |fields| == |vals|
    requires k.Found? && k.index == index < |fields| && k.rest == source.current
    requires forall j :: 0 <= j < |trackers| ==>
               && trackers[j].field == fields[j] && trackers[j].ourIndex == j
               && Holds(trackers[j], vals[j])
    modifies source, trackers`read, trackers`value
    decreases ObjectKind(fields), 1
    ensures forall j :: 0 <= j < |trackers| ==> trackers[j].ourIndex == j
    ensures r.Ok? ==> |after| == |vals| && forall j :: 0 <= j < |trackers| ==> Holds(trackers[j], after[j])
    ensures var m := FoundMember(source.scan, old(source.depth), fields, vals, k);
      && (m.Err? ==> r.Err? && r.error == m.error)
      && (m.Ok? ==> && r.Ok? && source.current == m.value.rest && source.depth == old(source.depth)
                    && after == vals[index := Some(m.value.value)])
  {
    var claimed := Dispatch(source, trackers, fields, index);
    if claimed.Err? {
      return Err(claimed.error), vals;
    }
    assert claimed.value == 2;
    return Ok(()), vals[index := Some(trackers[index].value)];
  }

  /** `read_json::array`: '[', then one element per JSON element, appended
      in order, then ']' closes the scope again. */
  method Array(source: Reader, element: Kind) returns (r: Outcome<Value>)
    requires Readable(element)
    modifies source
    decreases ArrayKind(element), 4
    ensures var d := Decoded(source.scan, old(source.current), old(source.depth), ArrayKind(element));
      && r == Project(d)
      && (d.Ok? ==> source.current == d.value.rest && source.depth == old(source.depth))
  {
    ghost var s0, d0 := source.current, source.depth;
    DecodedArrayUnfold(source.scan, s0, d0, element);
    var started := source.StartArray();
    if started.Err? {
      assert Decoded(source.scan, s0, d0, ArrayKind(element)) == Err(started.error);
      return Err(started.error);
    }
    var dest := ArrayElements(source, element);
    if dest.Err? {
      assert Decoded(source.scan, s0, d0, ArrayKind(element)) == Err(dest.error);
      return Err(dest.error);
    }
    assert Decoded(source.scan, s0, d0, ArrayKind(element)) == Ok(Decoding(ArrayValue(dest.value), source.current));
    source.EndArray();
    WrapArithmetic(d0);
    return Ok(ArrayValue(dest.value));
  }

  /** The element loop of `read_json::array`: `is_array_end`, then one
      `read_bytes` into a new last element, until ']'. */
  method ArrayElements(source: Reader, element: Kind) returns (r: Outcome<seq<Value>>)
    requires Readable(element)
    modifies source
    decreases ArrayKind(element), 3
    ensures var e := Elements(source.scan, old(source.current), old(source.depth), element, 0);
      && (e.Err? ==> r == Err(e.error))
      && (e.Ok? ==> r == Ok(e.value.0) && source.current == e.value.1 && source.depth == old(source.depth))
  {
    ghost var first, depth := source.current, source.depth;
    var dest: seq<Value> := [];
    var count := 0;
    PrependNothing(Elements(source.scan, first, depth, element, 0));
    while true
      invariant source.depth == depth
      invariant Elements(source.scan, first, depth, element, 0)
             == Prepend(dest, Elements(source.scan, source.current, depth, element, count))
      decreases |source.current|
    {
      var more;
      r, more := ElementRound(source, element, count, dest);
      if !more {
        return;
      }
      dest := r.value;
      count := count + 1;
    }
  }

  /** One round of the element loop, with `dest` read so far: ']' or a
      failure ends the loop with what the whole loop yields; otherwise the
      next element is appended and the later rounds follow. */
  method ElementRound(source: Reader, element: Kind, count: nat, dest: seq<Value>)
    returns (r: Outcome<seq<Value>>, more: bool)
    requires Readable(element)
    modifies source
    decreases ArrayKind(element), 1
    ensures var e := Prepend(dest, Elements(source.scan, old(source.current), old(source.depth), element, count));
      && (!more ==> (e.Err? ==> r == Err(e.error))
                    && (e.Ok? ==> r == Ok(e.value.0) && source.current == e.value.1
                                  && source.depth == old(source.depth)))
      && (more ==> && r.Ok? && source.depth == old(source.depth) && |source.current| < |old(source.current)|
                   && e == Prepend(r.value, Elements(source.scan, source.current, source.depth, element, count + 1)))
  {
    ElementsUnfold(source.scan, source.current, source.depth, element, count);
    var end := source.IsArrayEnd(count);
    if end.Err? {
      return Err(end.error), false;
    }
    if end.value {
      assert dest + [] == dest;
      return Ok(dest), false;
    }
    var v := ReadBytes(source, element);
    if v.Err? {
      return Err(v.error), false;
    }
    PrependTwice(dest, v.value, Elements(source.scan, source.current, source.depth, element, count + 1));
    return Ok(dest + [v.value]), true;
  }

  /** The `read_bytes` overloads: the reader primitive is chosen by the
      destination type. Unsigned integers are read as `uintmax_t` and then
      narrowed with `convert_to`. */
  method ReadBytes(source: Reader, kind: Kind) returns (r: Outcome<Value>)
    requires Readable(kind)
    modifies source
    decreases kind, 6
    ensures var d := Decoded(source.scan, old(source.current), old(source.depth), kind);
      && r == Project(d)
      && (d.Ok? ==> source.current == d.value.rest && source.depth == old(source.depth))
  {
    match kind
    case BoolKind =>
      var b := source.Boolean();
      if b.Err? {
        return Err(b.error);
      }
      return Ok(BoolValue(b.value));
    case UintKind(t) =>
      var u := source.UnsignedInteger();
      if u.Err? {
        return Err(u.error);
      }
      var c := ConvertTo(t, Uintmax, u.value);
      if c.Err? {
        return Err(c.error);
      }
      return Ok(UintValue(c.value));
    case BlobKind(w) =>
      var bytes := source.Binary(w);
      if bytes.Err? {
        return Err(bytes.error);
      }
      return Ok(BlobValue(bytes.value));
    case ArrayKind(e) =>
      r := Array(source, e);
    case ObjectKind(fs) =>
      r := Object(source, fs);
  }

  /** `read_json::to`: decode one value from a fresh reader, then
      `check_complete`. A successful decode leaves the depth at zero, so the
      check passes and the result is the decoding itself; bytes after the
      value are not looked at. */
  method To(scan: Scanner, bytes: seq<byte>, kind: Kind) returns (r: Outcome<Value>)
    requires Readable(kind)
    ensures r == Project(Decoded(scan, bytes, 0, kind))
    // `check_complete` never rejects a value `read_bytes` accepted: a
    // successful read closes every scope it opened, so the depth is 0 again.
    ensures Decoded(scan, bytes, 0, kind).Ok? ==> r.Ok?
  {
    var reader := new Reader(scan, bytes);
    var dest := ReadBytes(reader, kind);
    if dest.Err? {
      return Err(dest.error);
    }
    var complete := reader.CheckComplete();
    assert complete.Ok?;
    r := match complete
      case Ok(_) => Ok(dest.value)
      case Err(e) => Err(e);
  }
}
