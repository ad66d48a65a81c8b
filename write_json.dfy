/** `write_json` and the `write_bytes` overloads: encoding a value drives
    the writer call by call, fields in declaration order and elements in
    container order. `Tokens` is the specification of what is emitted. */
module WriteJson {
  import opened Wrappers
  import opened Bytes
  import opened WireField
  import opened WireInteger
  import opened WireSchema
  import opened Hex
  import opened JsonWriter

  /** The tokens `write_bytes` emits for `v`: integers unchanged, a
      `const char*` up to its NUL, a blob as the string of its hex digits,
      arrays element by element and objects member by member, each member a
      key followed by its value. */
  function Tokens(v: Value): seq<Event>
    decreases v, 1
  {
    match v
    case BoolValue(_) => []
    case UintValue(n) => [UintEvent(n)]
    case TextValue(t) => [StringEvent(CString(t))]
    case BlobValue(b) => [StringEvent(ToHex(b))]
    case ArrayValue(es) => [StartArrayEvent] + ElementTokens(es) + [EndArrayEvent]
    case ObjectValue(ms) => [StartObjectEvent] + MemberTokens(ms) + [EndObjectEvent]
  }

  function ElementTokens(es: seq<Value>): seq<Event>
    decreases es, 0
  {
    if |es| == 0 then [] else ElementTokens(es[..|es| - 1]) + Tokens(es[|es| - 1])
  }

  function MemberTokens(ms: seq<Field<Value>>): seq<Event>
    decreases ms, 0
  {
    if |ms| == 0 then [] else MemberTokens(ms[..|ms| - 1]) + FieldTokens(ms[|ms| - 1])
  }

  function FieldTokens(f: Field<Value>): seq<Event>
    decreases f, 0
  {
    [KeyEvent(CString(f.name))] + Tokens(f.value)
  }

  /** `write_bytes`: the overload chosen by the value's type. */
  method WriteBytes(dest: Writer, v: Value)
    requires Writable(v) && dest.Valid()
    modifies dest
    decreases v, 2
    ensures dest.Valid()
    ensures dest.bytes == old(dest.bytes) + Tokens(v) && dest.open == old(dest.open)
  {
    match v
    case BoolValue(_) =>
      assert false;
    case UintValue(n) =>
      dest.UnsignedInteger(n);
    case TextValue(t) =>
      var length := Strlen(t);
      dest.String(t[..length]);
    case BlobValue(b) =>
      var hex := ToHex(b);
      dest.String(hex);
    case ArrayValue(es) =>
      Array(dest, es);
    case ObjectValue(ms) =>
      Object(dest, ms);
  }

  /** `write_json::array`: '[', every element in container order, ']'. */
  method Array(dest: Writer, es: seq<Value>)
    requires (forall i :: 0 <= i < |es| ==> Writable(es[i])) && dest.Valid()
    modifies dest
    decreases ArrayValue(es), 1
    ensures dest.Valid()
    ensures dest.bytes == old(dest.bytes) + Tokens(ArrayValue(es)) && dest.open == old(dest.open)
  {
    dest.StartArray();
    Elements(dest, es);
    dest.EndArray();
    Associative(old(dest.bytes), [StartArrayEvent], ElementTokens(es));
    Associative(old(dest.bytes), [StartArrayEvent] + ElementTokens(es), [EndArrayEvent]);
  }

  /** The loop of `write_json::array`: one `write_bytes` per element. */
  method Elements(dest: Writer, es: seq<Value>)
    requires (forall i :: 0 <= i < |es| ==> Writable(es[i])) && dest.Valid()
    modifies dest
    decreases ArrayValue(es), 0
    ensures dest.Valid()
    ensures dest.bytes == old(dest.bytes) + ElementTokens(es) && dest.open == old(dest.open)
  {
    var i := 0;
    while i < |es|
      invariant i <= |es|
      invariant dest.Valid()
      invariant dest.bytes == old(dest.bytes) + ElementTokens(es[..i])
      invariant dest.open == old(dest.open)
    {
      WriteBytes(dest, es[i]);
      ElementTokensSnoc(es, i);
      Associative(old(dest.bytes), ElementTokens(es[..i]), Tokens(es[i]));
      i := i + 1;
    }
    assert es[..|es|] == es;
  }

  lemma Associative(a: seq<Event>, b: seq<Event>, c: seq<Event>)
    ensures (a + b) + c == a + (b + c)
  {
  }

  lemma ElementTokensSnoc(es: seq<Value>, i: nat)
    requires i < |es|
    ensures ElementTokens(es[..i + 1]) == ElementTokens(es[..i]) + Tokens(es[i])
  {
    assert es[..i + 1][..i] == es[..i];
  }

  lemma MemberTokensSnoc(ms: seq<Field<Value>>, i: nat)
    requires i < |ms|
    ensures MemberTokens(ms[..i + 1]) == MemberTokens(ms[..i]) + FieldTokens(ms[i])
  {
    assert ms[..i + 1][..i] == ms[..i];
  }

  /** `write_json::field`: the key, then the value; always true, so no
      field is ever left out. */
  method Field(dest: Writer, f: Field<Value>) returns (written: bool)
    requires Writable(f.value) && dest.Valid()
    modifies dest
    decreases f, 1
    ensures written
    ensures dest.Valid()
    ensures dest.bytes == old(dest.bytes) + FieldTokens(f) && dest.open == old(dest.open)
  {
    dest.Key(f.name);
    WriteBytes(dest, f.value);
    Associative(old(dest.bytes), [KeyEvent(CString(f.name))], Tokens(f.value));
    return true;
  }

  /** `wire::object`: '{', every field in declaration order, '}'. */
  method Object(dest: Writer, ms: seq<Field<Value>>)
    requires (forall i :: 0 <= i < |ms| ==> Writable(ms[i].value)) && dest.Valid()
    modifies dest
    decreases ObjectValue(ms), 1
    ensures dest.Valid()
    ensures dest.bytes == old(dest.bytes) + Tokens(ObjectValue(ms)) && dest.open == old(dest.open)
  {
    dest.StartObject();
    Members(dest, ms);
    dest.EndObject();
    Associative(old(dest.bytes), [StartObjectEvent], MemberTokens(ms));
    Associative(old(dest.bytes), [StartObjectEvent] + MemberTokens(ms), [EndObjectEvent]);
  }

  /** The variadic expansion `field(dest, fields)...` that fills the `dummy`
      array of `wire::object`: every field written, in declaration order. */
  method Members(dest: Writer, ms: seq<Field<Value>>)
    requires (forall i :: 0 <= i < |ms| ==> Writable(ms[i].value)) && dest.Valid()
    modifies dest
    decreases ms, 0
    ensures dest.Valid()
    ensures dest.bytes == old(dest.bytes) + MemberTokens(ms) && dest.open == old(dest.open)
  {
    var i := 0;
    while i < |ms|
      invariant i <= |ms|
      invariant dest.Valid()
      invariant dest.bytes == old(dest.bytes) + MemberTokens(ms[..i])
      invariant dest.open == old(dest.open)
    {
      var _ := Field(dest, ms[i]);
      MemberTokensSnoc(ms, i);
      Associative(old(dest.bytes), MemberTokens(ms[..i]), FieldTokens(ms[i]));
      i := i + 1;
    }
    assert ms[..|ms|] == ms;
  }

  /** `write_json::from`: a fresh writer, one value, then `take_json`,
      which cannot fail because one complete value has been written. */
  method From(v: Value) returns (r: Result<seq<Event>, LogicError>)
    requires Writable(v)
    ensures r == Ok(Tokens(v))
  {
    var dest := new Writer();
    WriteBytes(dest, v);
    assert dest.bytes == Tokens(v);
    r := dest.TakeJson();
  }

  /* Reading a token stream back under a kind. This is the shape a reader
     of the same schema expects: members keyed by their names in
     declaration order, blobs as `2 * width` hex digits, integers in the
     target's range. `DecodeTokens` proves that `Tokens` loses nothing. */

  function Decode(k: Kind, es: seq<Event>): (r: Option<(Value, seq<Event>)>)
    ensures r.Some? ==> |r.value.1| < |es|
    decreases |es|, 0, 0
  {
    if |es| == 0 then None
    else match k
      case BoolKind => None
      case UintKind(t) =>
        if es[0].UintEvent? && InRange(t, es[0].u) then Some((UintValue(es[0].u), es[1..])) else None
      case BlobKind(w) =>
        if !es[0].StringEvent? then None
        else (match FromHex(es[0].text, w)
          case Some(b) => Some((BlobValue(b), es[1..]))
          case None => None)
      case ArrayKind(e) =>
        if es[0] != StartArrayEvent then None
        else (match DecodeElements(e, es[1..])
          case Some((vs, rest)) => Some((ArrayValue(vs), rest))
          case None => None)
      case ObjectKind(fs) =>
        if es[0] != StartObjectEvent then None
        else (match DecodeMembers(fs, es[1..])
          case Some((ms, rest)) =>
            if |rest| > 0 && rest[0] == EndObjectEvent then Some((ObjectValue(ms), rest[1..])) else None
          case None => None)
  }

  /** Elements up to and including the closing `EndArrayEvent`. */
  function DecodeElements(e: Kind, es: seq<Event>): (r: Option<(seq<Value>, seq<Event>)>)
    ensures r.Some? ==> |r.value.1| < |es|
    decreases |es|, 1, 0
  {
    if |es| == 0 then None
    else if es[0] == EndArrayEvent then Some(([], es[1..]))
    else match Decode(e, es)
      case None => None
      case Some((v, rest)) =>
        (match DecodeElements(e, rest)
          case None => None
          case Some((vs, after)) => Some(([v] + vs, after)))
  }

  /** One member per field, each keyed by the field's name. */
  function DecodeMembers(fs: seq<Field<Kind>>, es: seq<Event>): (r: Option<(seq<Field<Value>>, seq<Event>)>)
    ensures r.Some? ==> |r.value.1| <= |es|
    decreases |es|, 1, |fs|
  {
    if |fs| == 0 then Some(([], es))
    else if |es| == 0 || es[0] != KeyEvent(CString(fs[0].name)) then None
    else match Decode(fs[0].value, es[1..])
      case None => None
      case Some((v, rest)) =>
        (match DecodeMembers(fs[1..], rest)
          case None => None
          case Some((ms, after)) => Some(([MakeField(fs[0].name, v)] + ms, after)))
  }

  /** A written value opens with a token that is no closing bracket. */
  lemma TokensStart(v: Value)
    requires Writable(v)
    ensures |Tokens(v)| > 0 && Tokens(v)[0] != EndArrayEvent && Tokens(v)[0] != EndObjectEvent
  {
  }

  lemma {:induction false} ElementTokensFront(es: seq<Value>)
    requires |es| > 0
    ensures ElementTokens(es) == Tokens(es[0]) + ElementTokens(es[1..])
    decreases |es|
  {
    if |es| > 1 {
      var n := |es|;
      ElementTokensFront(es[..n - 1]);
      assert es[..n - 1][1..] == es[1..][..n - 2];
      assert es[..n - 1][0] == es[0] && es[1..][n - 2] == es[n - 1];
    } else {
      assert es[..0] == [] && es[1..] == [];
    }
  }

  lemma {:induction false} MemberTokensFront(ms: seq<Field<Value>>)
    requires |ms| > 0
    ensures MemberTokens(ms) == FieldTokens(ms[0]) + MemberTokens(ms[1..])
    decreases |ms|
  {
    if |ms| > 1 {
      var n := |ms|;
      MemberTokensFront(ms[..n - 1]);
      assert ms[..n - 1][1..] == ms[1..][..n - 2];
      assert ms[..n - 1][0] == ms[0] && ms[1..][n - 2] == ms[n - 1];
    } else {
      assert ms[..0] == [] && ms[1..] == [];
    }
  }

  /** The round trip: whatever follows, the tokens of a value of kind `k`
      read back under `k` as that value, consuming exactly those tokens. */
  lemma {:induction false} DecodeTokens(v: Value, k: Kind, rest: seq<Event>)
    requires Conforms(v, k) && Writable(v)
    ensures Decode(k, Tokens(v) + rest) == Some((v, rest))
    decreases v, 2
  {
    match k
    case UintKind(t) =>
      var es := Tokens(v) + rest;
      assert es[0] == UintEvent(v.n) && es[1..] == rest;
    case BlobKind(w) =>
      var es := Tokens(v) + rest;
      FromHexOfToHex(v.bytes);
      assert es[0] == StringEvent(ToHex(v.bytes)) && es[1..] == rest;
    case ArrayKind(e) =>
      DecodeArrayTokens(v.elements, e, rest);
    case ObjectKind(fs) =>
      DecodeObjectTokens(v.members, fs, rest);
  }

  lemma {:induction false} DecodeArrayTokens(xs: seq<Value>, e: Kind, rest: seq<Event>)
    requires forall i :: 0 <= i < |xs| ==> Conforms(xs[i], e) && Writable(xs[i])
    ensures Decode(ArrayKind(e), Tokens(ArrayValue(xs)) + rest) == Some((ArrayValue(xs), rest))
    decreases ArrayValue(xs), 1
  {
    assert Tokens(ArrayValue(xs)) == ([StartArrayEvent] + ElementTokens(xs)) + [EndArrayEvent];
    Regroup([StartArrayEvent], ElementTokens(xs), [EndArrayEvent], rest);
    DecodeElementsTokens(xs, e, rest);
    DecodeArrayStep(e, Tokens(ArrayValue(xs)) + rest, xs, rest);
  }

  lemma {:induction false} DecodeObjectTokens(ms: seq<Field<Value>>, fs: seq<Field<Kind>>, rest: seq<Event>)
    requires |ms| == |fs|
    requires forall i :: 0 <= i < |fs| ==>
      ms[i].name == fs[i].name && Conforms(ms[i].value, fs[i].value) && Writable(ms[i].value)
    ensures Decode(ObjectKind(fs), Tokens(ObjectValue(ms)) + rest) == Some((ObjectValue(ms), rest))
    decreases ObjectValue(ms), 1
  {
    assert Tokens(ObjectValue(ms)) == ([StartObjectEvent] + MemberTokens(ms)) + [EndObjectEvent];
    Regroup([StartObjectEvent], MemberTokens(ms), [EndObjectEvent], rest);
    Uncons(EndObjectEvent, rest);
    DecodeMembersTokens(ms, fs, [EndObjectEvent] + rest);
    DecodeObjectStep(fs, Tokens(ObjectValue(ms)) + rest, ms, [EndObjectEvent] + rest);
  }

  lemma {:induction false} DecodeElementsTokens(xs: seq<Value>, e: Kind, rest: seq<Event>)
    requires forall i :: 0 <= i < |xs| ==> Conforms(xs[i], e) && Writable(xs[i])
    ensures DecodeElements(e, ElementTokens(xs) + ([EndArrayEvent] + rest)) == Some((xs, rest))
    decreases xs, 0
  {
    if |xs| == 0 {
      assert ElementTokens(xs) + ([EndArrayEvent] + rest) == [EndArrayEvent] + rest;
      Uncons(EndArrayEvent, rest);
    } else {
      var tail := ElementTokens(xs[1..]) + ([EndArrayEvent] + rest);
      ElementTokensFront(xs);
      Associative(Tokens(xs[0]), ElementTokens(xs[1..]), [EndArrayEvent] + rest);
      TokensStart(xs[0]);
      DecodeTokens(xs[0], e, tail);
      DecodeElementsTokens(xs[1..], e, rest);
      DecodeElementsStep(e, Tokens(xs[0]) + tail, xs[0], tail, xs[1..], rest);
      assert [xs[0]] + xs[1..] == xs;
    }
  }

  /** '[' and its elements: `Decode` of an array kind unfolded once. */
  lemma DecodeArrayStep(e: Kind, es: seq<Event>, vs: seq<Value>, rest: seq<Event>)
    requires |es| > 0 && es[0] == StartArrayEvent
    requires DecodeElements(e, es[1..]) == Some((vs, rest))
    ensures Decode(ArrayKind(e), es) == Some((ArrayValue(vs), rest))
  {
  }

  /** '{', its members and '}': `Decode` of an object kind unfolded once. */
  lemma DecodeObjectStep(fs: seq<Field<Kind>>, es: seq<Event>, ms: seq<Field<Value>>, after: seq<Event>)
    requires |es| > 0 && es[0] == StartObjectEvent
    requires DecodeMembers(fs, es[1..]) == Some((ms, after))
    requires |after| > 0 && after[0] == EndObjectEvent
    ensures Decode(ObjectKind(fs), es) == Some((ObjectValue(ms), after[1..]))
  {
  }

  /** One element, then the rest: `DecodeElements` unfolded once. */
  lemma DecodeElementsStep(e: Kind, es: seq<Event>, v: Value, tail: seq<Event>,
                           vs: seq<Value>, rest: seq<Event>)
    requires |es| > 0 && es[0] != EndArrayEvent
    requires Decode(e, es) == Some((v, tail))
    requires DecodeElements(e, tail) == Some((vs, rest))
    ensures DecodeElements(e, es) == Some(([v] + vs, rest))
  {
  }

  lemma {:induction false} DecodeMembersTokens(ms: seq<Field<Value>>, fs: seq<Field<Kind>>, rest: seq<Event>)
    requires |ms| == |fs|
    requires forall i :: 0 <= i < |fs| ==>
      ms[i].name == fs[i].name && Conforms(ms[i].value, fs[i].value) && Writable(ms[i].value)
    ensures DecodeMembers(fs, MemberTokens(ms) + rest) == Some((ms, rest))
    decreases ms, 0
  {
    if |ms| == 0 {
      assert MemberTokens(ms) + rest == rest;
    } else {
      var tail := MemberTokens(ms[1..]) + rest;
      assert ms[0].value < ms[0];
      DecodeTokens(ms[0].value, fs[0].value, tail);
      DecodeMembersTokens(ms[1..], fs[1..], rest);
      DecodeMembersCons(ms, fs, rest);
    }
  }

  /** The first member's tokens, then the others': what `DecodeMembers`
      reads back from each part makes up the whole. */
  lemma DecodeMembersCons(ms: seq<Field<Value>>, fs: seq<Field<Kind>>, rest: seq<Event>)
    requires |ms| == |fs| > 0 && ms[0].name == fs[0].name
    requires Decode(fs[0].value, Tokens(ms[0].value) + (MemberTokens(ms[1..]) + rest))
             == Some((ms[0].value, MemberTokens(ms[1..]) + rest))
    requires DecodeMembers(fs[1..], MemberTokens(ms[1..]) + rest) == Some((ms[1..], rest))
    ensures DecodeMembers(fs, MemberTokens(ms) + rest) == Some((ms, rest))
  {
    MembersLayout(ms, rest);
    DecodeMembersStep(fs, MemberTokens(ms) + rest, ms[0].value, MemberTokens(ms[1..]) + rest, ms[1..], rest);
    assert [MakeField(fs[0].name, ms[0].value)] + ms[1..] == ms;
  }

  /** The tokens of a non-empty member list, followed by anything: the first
      member's key, then its value's tokens, then the rest. */
  lemma MembersLayout(ms: seq<Field<Value>>, rest: seq<Event>)
    requires |ms| > 0
    ensures var es := MemberTokens(ms) + rest;
      && |es| > 0 && es[0] == KeyEvent(CString(ms[0].name))
      && es[1..] == Tokens(ms[0].value) + (MemberTokens(ms[1..]) + rest)
  {
    MemberTokensFront(ms);
    assert FieldTokens(ms[0]) == [KeyEvent(CString(ms[0].name))] + Tokens(ms[0].value);
    Regroup([KeyEvent(CString(ms[0].name))], Tokens(ms[0].value), MemberTokens(ms[1..]), rest);
  }

  /** A token in front of a sequence is its head; the sequence is its tail. */
  lemma Uncons(head: Event, rest: seq<Event>)
    ensures ([head] + rest)[0] == head && ([head] + rest)[1..] == rest
  {
  }

  /** Concatenation regrouped around a one-token head. */
  lemma Regroup(head: seq<Event>, a: seq<Event>, b: seq<Event>, c: seq<Event>)
    requires |head| == 1
    ensures var es := ((head + a) + b) + c;
      |es| > 0 && es[0] == head[0] && es[1..] == a + (b + c)
  {
    var es := ((head + a) + b) + c;
    assert es == head + (a + (b + c));
  }

  /** One member, then the rest: `DecodeMembers` unfolded once. */
  lemma DecodeMembersStep(fs: seq<Field<Kind>>, es: seq<Event>, v: Value, tail: seq<Event>,
                          ms: seq<Field<Value>>, rest: seq<Event>)
    requires |fs| > 0 && |es| > 0 && es[0] == KeyEvent(CString(fs[0].name))
    requires Decode(fs[0].value, es[1..]) == Some((v, tail))
    requires DecodeMembers(fs[1..], tail) == Some((ms, rest))
    ensures DecodeMembers(fs, es) == Some(([MakeField(fs[0].name, v)] + ms, rest))
  {
  }
}
