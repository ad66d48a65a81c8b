/** What `read_json` makes of an input, as functions of the input: the
    reference the reader methods of `ReadJson` are proved to agree with.
    `depth` is the reader's count of open scopes before the value; a
    decoded value comes with the input left after it. */
module JsonDecode {
  import opened Wrappers
  import opened Bytes
  import opened WireError
  import opened WireInteger
  import opened WireField
  import opened WireSchema
  import opened Hex
  import opened JsonReader

  datatype Decoding = Decoding(value: Value, rest: seq<byte>)

  /** A decoding as the reader methods return it, without the input left. */
  function Project(d: Outcome<Decoding>): Outcome<Value> {
    if d.Ok? then Ok(d.value.value) else Err(d.error)
  }

  /** `read_bytes(source, dest)` for a destination of type `kind`. */
  function Decoded(scan: Scanner, s: seq<byte>, depth: Size, kind: Kind): (r: Outcome<Decoding>)
    requires Readable(kind)
    ensures r.Ok? ==> Conforms(r.value.value, kind) && |r.value.rest| < |s|
    decreases |s|, kind, 3
  {
    match kind
    case BoolKind => DecodedBool(scan, s)
    case UintKind(t) => DecodedUint(scan, s, t)
    case BlobKind(w) => DecodedBlob(s, w)
    case ArrayKind(e) => DecodedArray(scan, s, depth, e)
    case ObjectKind(fs) => DecodedObject(scan, s, depth, fs)
  }

  /** `boolean()`: exactly a JSON `true` or `false`, which is the value. */
  function DecodedBool(scan: Scanner, s: seq<byte>): (r: Outcome<Decoding>)
    ensures r.Ok? <==> scan(s).Lexed? && scan(s).token.BoolToken?
    ensures r.Ok? ==> r.value == Decoding(BoolValue(scan(s).token.b), s[scan(s).length..])
    ensures r.Ok? ==> |r.value.rest| < |s|
  {
    var p := ParseValue(scan(s), Handler(Schema.Boolean, false));
    if p.Err? then Err(p.error)
    else
      ParseAdvances(scan, s, Handler(Schema.Boolean, false));
      Ok(Decoding(BoolValue(p.value.token.b), After(s, p)))
  }

  /** `unsigned_integer()` narrowed to `target` with `convert_to`: exactly a
      non-negative number that fits `target`, or "-0", which is zero. */
  function DecodedUint(scan: Scanner, s: seq<byte>, target: IntType): (r: Outcome<Decoding>)
    requires !target.signed
    ensures r.Ok? <==> (scan(s).Lexed? &&
      ((scan(s).token.UintToken? && InRange(target, scan(s).token.u)) || scan(s).token == IntToken(0)))
    ensures r.Ok? ==> (r.value.rest == s[scan(s).length..] &&
      r.value.value == UintValue(if scan(s).token.UintToken? then scan(s).token.u else 0))
    ensures r.Ok? ==> InRange(target, r.value.value.n) && |r.value.rest| < |s|
  {
    var p := ParseValue(scan(s), Handler(Schema.Integer, false));
    if p.Err? then Err(p.error)
    else
      var u := UnsignedOf(p.value.token);
      if u.Err? then Err(u.error)
      else
        ConvertToUnsigned(target, Uintmax, u.value);
        var c := ConvertTo(target, Uintmax, u.value);
        if c.Err? then Err(c.error)
        else
          ParseAdvances(scan, s, Handler(Schema.Integer, false));
          Ok(Decoding(UintValue(c.value), After(s, p)))
  }

  /** `binary()`: a quoted hex string that decodes into exactly `width`
      bytes, which are the value. */
  function DecodedBlob(s: seq<byte>, width: nat): (r: Outcome<Decoding>)
    ensures var q := QuotedString(s);
      r.Ok? <==> q.0.Ok? && FromHex(q.0.value, width).Some?
    ensures r.Ok? ==> var q := QuotedString(s);
      r.value == Decoding(BlobValue(FromHex(q.0.value, width).value), q.1)
    ensures r.Ok? ==> |r.value.value.bytes| == width && |r.value.rest| < |s|
  {
    var q := QuotedString(s);
    if q.0.Err? then Err(q.0.error)
    else
      match FromHex(q.0.value, width)
      case None => Err(Fail(FixedBinary))
      case Some(b) => Ok(Decoding(BlobValue(b), q.1))
  }

  /** `read_json::array`: '[' opens a scope, limited to 100 open at once;
      then one element per round of `is_array_end` until ']'. */
  function DecodedArray(scan: Scanner, s: seq<byte>, depth: Size, element: Kind): (r: Outcome<Decoding>)
    requires Readable(element)
    ensures r.Ok? ==> Conforms(r.value.value, ArrayKind(element)) && |r.value.rest| < |s|
    ensures Peek(SkipWhitespace(s)) != '[' ==> r == Err(Fail(Array))
    ensures Peek(SkipWhitespace(s)) == '[' && Increment(depth) == MaxJsonReadDepth ==>
              r == Err(Fail(MaximumDepth))
    decreases |s|, ArrayKind(element), 2
  {
    var t := SkipWhitespace(s);
    if Peek(t) != '[' then Err(Fail(Array))
    else if Increment(depth) == MaxJsonReadDepth then Err(Fail(MaximumDepth))
    else
      match Elements(scan, t[1..], Increment(depth), element, 0)
      case Err(f) => Err(f)
      case Ok((vs, rest)) => Ok(Decoding(ArrayValue(vs), rest))
  }

  /** The element loop of `read_json::array` from its `count`-th round:
      the elements decoded, in order, and the input after the ']'. */
  function Elements(scan: Scanner, s: seq<byte>, depth: Size, element: Kind, count: nat)
    : (r: Outcome<(seq<Value>, seq<byte>)>)
    requires Readable(element)
    ensures r.Ok? ==> (forall i :: 0 <= i < |r.value.0| ==> Conforms(r.value.0[i], element))
                      && |r.value.1| < |s|
    decreases |s|, ArrayKind(element), 1
  {
    var (end, t) := ArrayEnd(s, count);
    if end.Err? then Err(end.error)
    else if end.value then Ok(([], t))
    else
      match Decoded(scan, t, depth, element)
      case Err(f) => Err(f)
      case Ok(d) =>
        match Elements(scan, d.rest, depth, element, count + 1)
        case Err(f) => Err(f)
        case Ok((vs, rest)) => Ok(([d.value] + vs, rest))
  }

  /** The elements decoded by earlier rounds, in front of the later ones. */
  function Prepend(vs: seq<Value>, r: Outcome<(seq<Value>, seq<byte>)>): Outcome<(seq<Value>, seq<byte>)> {
    match r
    case Err(f) => Err(f)
    case Ok((later, rest)) => Ok((vs + later, rest))
  }

  lemma PrependNothing(r: Outcome<(seq<Value>, seq<byte>)>)
    ensures Prepend([], r) == r
  {
    if r.Ok? {
      assert [] + r.value.0 == r.value.0;
    }
  }

  lemma PrependTwice(vs: seq<Value>, v: Value, r: Outcome<(seq<Value>, seq<byte>)>)
    ensures Prepend(vs, Prepend([v], r)) == Prepend(vs + [v], r)
  {
    if r.Ok? {
      assert vs + ([v] + r.value.0) == (vs + [v]) + r.value.0;
    }
  }

  /** An array decodes as its element loop, once '[' has opened a scope. */
  lemma DecodedArrayUnfold(scan: Scanner, s: seq<byte>, depth: Size, element: Kind)
    requires Readable(element)
    ensures var t := SkipWhitespace(s);
      && (Peek(t) != '[' ==> Decoded(scan, s, depth, ArrayKind(element)) == Err(Fail(Array)))
      && (Peek(t) == '[' && Increment(depth) == MaxJsonReadDepth ==>
            Decoded(scan, s, depth, ArrayKind(element)) == Err(Fail(MaximumDepth)))
      && (Peek(t) == '[' && Increment(depth) != MaxJsonReadDepth ==>
            var e := Elements(scan, t[1..], Increment(depth), element, 0);
            && (e.Err? ==> Decoded(scan, s, depth, ArrayKind(element)) == Err(e.error))
            && (e.Ok? ==> Decoded(scan, s, depth, ArrayKind(element))
                          == Ok(Decoding(ArrayValue(e.value.0), e.value.1))))
  {
  }

  /** One round of the element loop: ']' ends it, otherwise one element is
      decoded and put in front of the later rounds' elements. */
  lemma ElementsUnfold(scan: Scanner, s: seq<byte>, depth: Size, element: Kind, count: nat)
    requires Readable(element)
    ensures var (end, t) := ArrayEnd(s, count);
      && (end.Err? ==> Elements(scan, s, depth, element, count) == Err(end.error))
      && (end == Ok(true) ==> Elements(scan, s, depth, element, count) == Ok(([], t)))
      && (end == Ok(false) ==>
            var d := Decoded(scan, t, depth, element);
            && (d.Err? ==> Elements(scan, s, depth, element, count) == Err(d.error))
            && (d.Ok? ==> Elements(scan, s, depth, element, count)
                          == Prepend([d.value.value], Elements(scan, d.value.rest, depth, element, count + 1))))
  {
  }

  /** `read_json::object`: '{' opens a scope, limited to 100 open at once;
      then the members, as `DecodedBody`. */
  function DecodedObject(scan: Scanner, s: seq<byte>, depth: Size, fields: seq<Field<Kind>>)
    : (r: Outcome<Decoding>)
    requires Readable(ObjectKind(fields))
    ensures r.Ok? ==> Conforms(r.value.value, ObjectKind(fields)) && |r.value.rest| < |s|
    ensures Peek(SkipWhitespace(s)) != '{' ==> r == Err(Fail(Object))
    ensures Peek(SkipWhitespace(s)) == '{' && Increment(depth) == MaxJsonReadDepth ==>
              r == Err(Fail(MaximumDepth))
    decreases |s|, ObjectKind(fields), 2
  {
    var t := SkipWhitespace(s);
    if Peek(t) != '{' then Err(Fail(Object))
    else if Increment(depth) == MaxJsonReadDepth then Err(Fail(MaximumDepth))
    else DecodedBody(scan, t[1..], Increment(depth), fields)
  }

  /** No field read yet. */
  function Nones(n: nat): (vals: seq<Option<Value>>)
    ensures |vals| == n && forall k :: 0 <= k < n ==> vals[k].None?
  {
    seq(n, _ => None)
  }

  /** The first field not read, or `|vals|` when every field was read. */
  function FirstUnread(vals: seq<Option<Value>>): (k: nat)
    ensures k <= |vals|
    ensures k < |vals| ==> vals[k].None?
    ensures forall j :: 0 <= j < k ==> vals[j].Some?
  {
    if |vals| == 0 then 0
    else if vals[0].None? then 0
    else
      var k := 1 + FirstUnread(vals[1..]);
      assert forall j :: 1 <= j < k ==> vals[j] == vals[1..][j - 1];
      k
  }

  /** The values read so far conform to their fields. */
  predicate ValuesConform(fields: seq<Field<Kind>>, vals: seq<Option<Value>>) {
    |vals| == |fields| &&
    forall k :: 0 <= k < |fields| && vals[k].Some? ==> Conforms(vals[k].value, fields[k].value)
  }

  /** The struct once every field has been read: member k is field k's name
      with the value read for it. */
  function Assemble(fields: seq<Field<Kind>>, vals: seq<Option<Value>>): (ms: seq<Field<Value>>)
    requires |vals| == |fields| && forall k :: 0 <= k < |vals| ==> vals[k].Some?
    ensures |ms| == |fields|
    ensures forall k :: 0 <= k < |fields| ==> ms[k] == Field(fields[k].name, vals[k].value)
  {
    seq(|fields|, k requires 0 <= k < |fields| => Field(fields[k].name, vals[k].value))
  }

  /** `read_json::object` after the '{': member rounds until '}', then the
      `missing_key` check, which names the first field not read. */
  function DecodedBody(scan: Scanner, s: seq<byte>, depth: Size, fields: seq<Field<Kind>>)
    : (r: Outcome<Decoding>)
    requires Readable(ObjectKind(fields))
    ensures r.Ok? ==> Conforms(r.value.value, ObjectKind(fields)) && |r.value.rest| < |s|
    decreases |s|, ObjectKind(fields), 2
  {
    match MemberRounds(scan, s, depth, fields, Nones(|fields|), 0)
    case Err(f) => Err(f)
    case Ok((vals, rest)) =>
      var k := FirstUnread(vals);
      if k < |fields| then Err(SchemaFailure(MissingKey, CString(fields[k].name)))
      else Ok(Decoding(ObjectValue(Assemble(fields, vals)), rest))
  }

  /** The first unread field is the least index holding no value. */
  lemma FirstUnreadIsLeast(vals: seq<Option<Value>>, k: nat)
    requires k < |vals| && vals[k].None? && forall j :: 0 <= j < k ==> vals[j].Some?
    ensures FirstUnread(vals) == k
  {
  }

  /** After the member loop, the object is complete exactly when every field
      was read; otherwise `missing_key` names the first field not read. */
  lemma MissingKeyNamesFirstUnread(scan: Scanner, s: seq<byte>, depth: Size, fields: seq<Field<Kind>>)
    requires Readable(ObjectKind(fields))
    ensures var m := MemberRounds(scan, s, depth, fields, Nones(|fields|), 0);
      var r := DecodedBody(scan, s, depth, fields);
      m.Ok? ==>
        && (r.Ok? <==> forall k :: 0 <= k < |fields| ==> m.value.0[k].Some?)
        && (forall k ::
              (0 <= k < |fields| && m.value.0[k].None? && (forall j :: 0 <= j < k ==> m.value.0[j].Some?)) ==>
              r == Err(SchemaFailure(MissingKey, CString(fields[k].name))))
  {
    var m := MemberRounds(scan, s, depth, fields, Nones(|fields|), 0);
    if m.Ok? {
      forall k | 0 <= k < |fields| && m.value.0[k].None? && (forall j :: 0 <= j < k ==> m.value.0[j].Some?)
        ensures DecodedBody(scan, s, depth, fields) == Err(SchemaFailure(MissingKey, CString(fields[k].name)))
      {
        FirstUnreadIsLeast(m.value.0, k);
      }
    }
  }

  /** `{}`: '}' ends the member loop at once, so the first field is the
      missing key, and an object of no fields is complete and empty. */
  lemma EmptyObject(scan: Scanner, depth: Size, fields: seq<Field<Kind>>)
    requires Readable(ObjectKind(fields)) && Increment(depth) != MaxJsonReadDepth
    ensures |fields| > 0 ==>
      Decoded(scan, "{}", depth, ObjectKind(fields)) == Err(SchemaFailure(MissingKey, CString(fields[0].name)))
    ensures |fields| == 0 ==>
      Decoded(scan, "{}", depth, ObjectKind(fields)) == Ok(Decoding(ObjectValue([]), []))
  {
    var s: seq<byte> := "{}";
    var body := s[1..];
    assert SkipWhitespace(s) == s;
    assert SkipWhitespace(body) == body;
    assert NextKey(scan, body, Names(fields), 0) == Ok(Closed([]));
    var vals := Nones(|fields|);
    assert MemberRound(scan, body, Increment(depth), fields, vals, 0) == Ok(Close([]));
    MemberRoundsUnfold(scan, body, Increment(depth), fields, vals, 0);
    assert MemberRounds(scan, body, Increment(depth), fields, vals, 0) == Ok((vals, []));
    assert Decoded(scan, s, depth, ObjectKind(fields)) == DecodedBody(scan, body, Increment(depth), fields);
    if |fields| > 0 {
      FirstUnreadIsLeast(vals, 0);
    } else {
      assert Assemble(fields, vals) == [];
    }
  }

  /** `[]`: ']' ends the element loop at once, with no element. */
  lemma EmptyArray(scan: Scanner, depth: Size, element: Kind)
    requires Readable(element) && Increment(depth) != MaxJsonReadDepth
    ensures Decoded(scan, "[]", depth, ArrayKind(element)) == Ok(Decoding(ArrayValue([]), []))
  {
    var s: seq<byte> := "[]";
    assert SkipWhitespace(s) == s;
    assert SkipWhitespace(s[1..]) == s[1..];
    ElementsUnfold(scan, s[1..], Increment(depth), element, 0);
    DecodedArrayUnfold(scan, s, depth, element);
  }

  /** The hundredth scope open at once fails with `max_json_read_depth`,
      whatever follows the bracket. */
  lemma NestingLimit(scan: Scanner, s: seq<byte>, depth: Size, kind: Kind)
    requires Readable(kind) && (kind.ArrayKind? || kind.ObjectKind?)
    requires Peek(SkipWhitespace(s)) == (if kind.ArrayKind? then '[' else '{')
    requires depth == MaxJsonReadDepth - 1
    ensures Decoded(scan, s, depth, kind) == Err(Fail(MaximumDepth))
  {
  }

  /** The member loop from its `count`-th round, with `vals` read so far:
      what is read by the time '}' is reached, and the input after it. A
      field read once is never read again. */
  function MemberRounds(scan: Scanner, s: seq<byte>, depth: Size, fields: seq<Field<Kind>>,
                        vals: seq<Option<Value>>, count: nat)
    : (r: Outcome<(seq<Option<Value>>, seq<byte>)>)
    requires Readable(ObjectKind(fields)) && |vals| == |fields|
    ensures r.Ok? ==> |r.value.0| == |fields| && |r.value.1| < |s|
    ensures r.Ok? && ValuesConform(fields, vals) ==> ValuesConform(fields, r.value.0)
    decreases |s|, ObjectKind(fields), 1
  {
    match MemberRound(scan, s, depth, fields, vals, count)
    case Err(f) => Err(f)
    case Ok(Close(rest)) => Ok((vals, rest))
    case Ok(Read(i, _, _, v, rest)) =>
      ConformAfterRead(fields, vals, i, v);
      MemberRounds(scan, rest, depth, fields, vals[i := Some(v)], count + 1)
  }

  lemma ConformAfterRead(fields: seq<Field<Kind>>, vals: seq<Option<Value>>, i: nat, v: Value)
    requires |vals| == |fields| && i < |fields| && Conforms(v, fields[i].value)
    ensures ValuesConform(fields, vals) ==> ValuesConform(fields, vals[i := Some(v)])
  {
  }

  /** The message of `try_read`'s `invalid_key` error, before the name. */
  const DuplicateDisplay: seq<byte> := "duplicate"

  /** A field read once keeps the value first read: a second member of
      the same name fails rather than overwrite it. */
  lemma {:induction false} MemberRoundsKeepReads(scan: Scanner, s: seq<byte>, depth: Size,
                                                 fields: seq<Field<Kind>>, vals: seq<Option<Value>>,
                                                 count: nat)
    requires Readable(ObjectKind(fields)) && |vals| == |fields|
    requires MemberRounds(scan, s, depth, fields, vals, count).Ok?
    ensures var after := MemberRounds(scan, s, depth, fields, vals, count).value.0;
      forall k :: 0 <= k < |fields| && vals[k].Some? ==> after[k] == vals[k]
    decreases |s|
  {
    MemberRoundsUnfold(scan, s, depth, fields, vals, count);
    var round := MemberRound(scan, s, depth, fields, vals, count);
    match round.value
    case Close(_) =>
    case Read(i, _, _, v, rest) =>
      var next := vals[i := Some(v)];
      MemberRoundsKeepReads(scan, rest, depth, fields, next, count + 1);
      var after := MemberRounds(scan, rest, depth, fields, next, count + 1).value.0;
      assert MemberRounds(scan, s, depth, fields, vals, count).value.0 == after;
      KeepAfterRead(vals, i, v, after);
  }

  lemma KeepAfterRead(vals: seq<Option<Value>>, i: nat, v: Value, after: seq<Option<Value>>)
    requires i < |vals| == |after| && vals[i].None?
    requires forall k :: 0 <= k < |vals| && vals[i := Some(v)][k].Some? ==> after[k] == vals[i := Some(v)][k]
    ensures forall k :: 0 <= k < |vals| && vals[k].Some? ==> after[k] == vals[k]
  {
    forall k | 0 <= k < |vals| && vals[k].Some?
      ensures after[k] == vals[k]
    {
      assert vals[i := Some(v)][k] == vals[k];
    }
  }

  /** The member loop, one round at a time. */
  lemma MemberRoundsUnfold(scan: Scanner, s: seq<byte>, depth: Size, fields: seq<Field<Kind>>,
                           vals: seq<Option<Value>>, count: nat)
    requires Readable(ObjectKind(fields)) && |vals| == |fields|
    ensures var round := MemberRound(scan, s, depth, fields, vals, count);
      && (round.Err? ==> MemberRounds(scan, s, depth, fields, vals, count) == Err(round.error))
      && (round.Ok? && round.value.Close? ==>
            MemberRounds(scan, s, depth, fields, vals, count) == Ok((vals, round.value.rest)))
      && (round.Ok? && round.value.Read? ==>
            MemberRounds(scan, s, depth, fields, vals, count)
            == MemberRounds(scan, round.value.rest, depth, fields,
                            vals[round.value.index := Some(round.value.value)], count + 1))
  {
  }

  /** What one round of the member loop does: '}' closes the object, or
      the member found by `key` is read into field `index`. */
  datatype Round =
    | Close(rest: seq<byte>)
    | Read(index: nat, name: seq<byte>, at: seq<byte>, value: Value, rest: seq<byte>)

  /** One round of the member loop: `key` with the field names as the key
      table, then the tracker of the field found reads its value, unless
      the field was read before, which fails as a duplicate. */
  function MemberRound(scan: Scanner, s: seq<byte>, depth: Size, fields: seq<Field<Kind>>,
                       vals: seq<Option<Value>>, count: nat)
    : (r: Outcome<Round>)
    requires Readable(ObjectKind(fields)) && |vals| == |fields|
    ensures r.Ok? ==> |r.value.rest| < |s|
    ensures r.Ok? && r.value.Read? ==>
      && r.value.index < |fields| && vals[r.value.index].None?
      && CString(fields[r.value.index].name) == r.value.name
      && |r.value.at| <= |s| && KeyScanned(scan, r.value.at, r.value.name)
      && Conforms(r.value.value, fields[r.value.index].value)
    decreases |s|, ObjectKind(fields), 0
  {
    var k := NextKey(scan, s, Names(fields), count);
    if k.Err? then Err(k.error)
    else if k.value.Closed? then Ok(Close(k.value.rest))
    else FoundMember(scan, depth, fields, vals, k.value)
  }

  /** The second half of a member round: the tracker owning the slot `key`
      found reads the value, or fails on a field already read. */
  function FoundMember(scan: Scanner, depth: Size, fields: seq<Field<Kind>>,
                       vals: seq<Option<Value>>, k: KeyStep)
    : (r: Outcome<Round>)
    requires Readable(ObjectKind(fields)) && |vals| == |fields|
    requires k.Found? && k.index < |fields|
    ensures vals[k.index].Some? ==>
      r == Err(SchemaFailure(InvalidKey, DuplicateDisplay + CString(fields[k.index].name)))
    ensures r.Ok? ==>
      && r.value.Read? && r.value.index == k.index && vals[k.index].None?
      && r.value.name == k.name && r.value.at == k.at && |r.value.rest| < |k.rest|
      && Conforms(r.value.value, fields[k.index].value)
    decreases |k.rest|, ObjectKind(fields), 4
  {
    var i := k.index;
    if vals[i].Some? then Err(SchemaFailure(InvalidKey, DuplicateDisplay + CString(fields[i].name)))
    else
      assert fields[i] in fields;
      match Decoded(scan, k.rest, depth, fields[i].value)
      case Err(f) => Err(f)
      case Ok(d) => Ok(Read(i, k.name, k.at, d.value, d.rest))
  }
}
