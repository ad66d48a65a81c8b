/** `wire::json_reader`: a cursor over the unread input bytes and a count of
    open arrays and objects, with token-level primitives for DOM-less
    decoding. rapidjson's parse of one complete value is an oracle, the
    `Scanner` the reader is built with. */
module JsonReader {
  import opened Wrappers
  import opened Bytes
  import opened WireError
  import opened WireInteger
  import opened Hex

  /** `max_json_read_depth` */
  const MaxJsonReadDepth: nat := 100

  /** The first SAX event rapidjson reports for one JSON value. */
  datatype Token =
    | NullToken
    | BoolToken(b: bool)
    /** `Uint`/`Uint64`: a number without a minus sign that fits 64 bits. */
    | UintToken(u: nat)
    /** `Int`/`Int64`: a number with a minus sign that fits 64 bits, "-0" included. */
    | IntToken(i: int)
    /** `Double`: any other number; its value is left out. */
    | DoubleToken
    /** `String`: the decoded contents; `copy` when escapes made rapidjson copy them. */
    | StringToken(text: seq<byte>, copy: bool)
    /** `StartArray` / `StartObject`: the first event of a compound value. */
    | ArrayToken
    | ObjectToken

  predicate TokenInRange(t: Token) {
    match t
    case UintToken(u) => u <= Max(Uintmax)
    case IntToken(i) => Min(Intmax) <= i <= 0
    case _ => true
  }

  /** What `reader_.Parse<kParseStopWhenDoneFlag>` finds at the start of the
      input when every event is accepted: a complete value of `length` bytes
      (leading whitespace included), a compound value that turns out to be
      malformed after its first event, or an error before any event. */
  datatype Scan =
    | Lexed(token: Token, length: nat)
    | Unfinished(token: Token, code: ParseError)
    | Malformed(code: ParseError)

  /** A real parse error: neither success nor the handler's own stop. */
  predicate IsParseFailure(code: ParseError) {
    code != ParseErrorNone && code != Termination
  }

  predicate WellFormedScan(input: seq<byte>, r: Scan) {
    match r
    case Lexed(t, n) => TokenInRange(t) && 1 <= n <= |input|
    case Unfinished(t, code) => (t.ArrayToken? || t.ObjectToken?) && IsParseFailure(code)
    case Malformed(code) => IsParseFailure(code)
  }

  /** rapidjson's value parser, as seen by the reader. */
  type Scanner = f: seq<byte> -> Scan | forall s :: WellFormedScan(s, f(s))
    witness s => Malformed(DocumentEmpty)

  /** `rapidjson_sax`: the category it expects and whether it was given the
      temporary string used for copied (escaped) strings. */
  datatype Handler = Handler(expected: Schema, tempStr: bool)

  /** The accept/reject table of `rapidjson_sax`'s event handlers: the
      `none` handler of `skip_value` takes any event; a typed handler takes
      only the events of its type, and a string that rapidjson had to copy
      only when a temporary buffer was supplied; every other expectation
      rejects every event. */
  predicate Accepts(h: Handler, t: Token): (b: bool)
    ensures h.expected == NoError ==> b
    ensures h.expected == Schema.Boolean ==> (b <==> t.BoolToken?)
    ensures h.expected == Schema.Integer ==> (b <==> t.UintToken? || t.IntToken?)
    ensures h.expected == Number ==> (b <==> t.UintToken? || t.IntToken? || t.DoubleToken?)
    ensures h.expected == Schema.String ==> (b <==> t.StringToken? && (!t.copy || h.tempStr))
    ensures h.expected !in {NoError, Schema.Boolean, Schema.Integer, Number, Schema.String} ==> !b
  {
    match t
    case NullToken => h.expected == NoError
    case BoolToken(_) => h.expected == Boolean || h.expected == NoError
    case UintToken(_) => h.expected == Integer || h.expected == Number || h.expected == NoError
    case IntToken(_) => h.expected == Integer || h.expected == Number || h.expected == NoError
    case DoubleToken => h.expected == Number || h.expected == NoError
    case StringToken(_, copy) =>
      if h.expected == String then !copy || h.tempStr else h.expected == NoError
    case ArrayToken => h.expected == NoError
    case ObjectToken => h.expected == NoError
  }

  /** `throw_json_error`: a parse error passes through unchanged, a
      successful parse or the handler's stop becomes the expected category. */
  function ThrowJsonError(code: ParseError, expected: Schema): (f: Failure)
    ensures IsParseFailure(code) ==> f == SyntaxFailure(code)
    ensures !IsParseFailure(code) ==> f == Fail(expected)
  {
    match code
    case ParseErrorNone => Fail(expected)
    case Termination => Fail(expected)
    case _ => SyntaxFailure(code)
  }

  datatype Lexeme = Lexeme(token: Token, length: nat)

  /** `read_next_value` with handler `h`: the outcome of parsing one value. */
  function ParseValue(s: Scan, h: Handler): (r: Outcome<Lexeme>)
    ensures r.Ok? <==> s.Lexed? && Accepts(h, s.token)
    ensures r.Ok? ==> r.value == Lexeme(s.token, s.length)
    ensures !s.Malformed? && !Accepts(h, s.token) ==> r == Err(Fail(h.expected))
    ensures !s.Lexed? && IsParseFailure(s.code) && (s.Unfinished? ==> Accepts(h, s.token)) ==>
              r == Err(SyntaxFailure(s.code))
  {
    match s
    case Malformed(code) => Err(ThrowJsonError(code, h.expected))
    case Unfinished(t, code) =>
      Err(ThrowJsonError(if Accepts(h, t) then code else Termination, h.expected))
    case Lexed(t, n) =>
      if Accepts(h, t) then Ok(Lexeme(t, n)) else Err(ThrowJsonError(Termination, h.expected))
  }

  /** The input left after `read_next_value`: it only advances on success. */
  function After(s: seq<byte>, p: Outcome<Lexeme>): (rest: seq<byte>)
    ensures |rest| <= |s|
    ensures p.Ok? && 0 < p.value.length <= |s| ==> |rest| < |s|
  {
    if p.Ok? && p.value.length <= |s| then s[p.value.length..] else s
  }

  /** What `read_next_value` leaves is the end of its input. */
  lemma AfterSuffix(s: seq<byte>, p: Outcome<Lexeme>)
    ensures IsSuffix(After(s, p), s)
  {
  }

  /** A value rapidjson parses successfully is at least one byte long and
      lies within the input. */
  lemma ParseAdvances(scan: Scanner, s: seq<byte>, h: Handler)
    ensures var p := ParseValue(scan(s), h);
      p.Ok? ==> 0 < p.value.length <= |s| && |After(s, p)| < |s|
  {
    assert WellFormedScan(s, scan(s));
  }

  /** Whitespace as JSON defines it (section 2 of RFC 8259). */
  predicate IsWhitespace(c: byte) {
    c == ' ' || c == '\t' || c == '\n' || c == '\r'
  }

  /** `rapidjson::SkipWhitespace`: drop leading whitespace. */
  function SkipWhitespace(s: seq<byte>): (r: seq<byte>)
    ensures |r| <= |s|
    ensures |r| > 0 ==> !IsWhitespace(r[0])
  {
    if |s| > 0 && IsWhitespace(s[0]) then SkipWhitespace(s[1..]) else s
  }

  /** `SkipWhitespace` drops a run of whitespace from the front and keeps
      the rest as it is. */
  lemma {:induction false} SkipWhitespaceDrops(s: seq<byte>)
    ensures IsSuffix(SkipWhitespace(s), s)
    ensures forall i :: 0 <= i < |s| - |SkipWhitespace(s)| ==> IsWhitespace(s[i])
  {
    if |s| > 0 && IsWhitespace(s[0]) {
      SkipWhitespaceDrops(s[1..]);
      assert forall i :: 1 <= i < |s| - |SkipWhitespace(s)| ==> s[i] == s[1..][i - 1];
    }
  }

  /** `MemoryStream::Peek`: the next byte, or NUL at the end of the input. */
  function Peek(s: seq<byte>): byte {
    if |s| == 0 then Nul else s[0]
  }

  /** `get_next_string` on input `s`: the outcome and the input left. The
      next token must be '"'; the bytes up to the next '"' are returned as
      they are, without escape processing, and the closing quote is consumed. */
  function QuotedString(s: seq<byte>): (r: (Outcome<seq<byte>>, seq<byte>))
    ensures var t := SkipWhitespace(s);
      && (Peek(t) != '"' ==> r == (Err(Fail(Schema.String)), t))
      && (Peek(t) == '"' && '"' !in t[1..] ==>
            r == (Err(SyntaxFailure(StringMissQuotationMark)), t[1..]))
      && (Peek(t) == '"' && '"' in t[1..] ==>
            r.0.Ok? && '"' !in r.0.value && t[1..] == r.0.value + ['"'] + r.1)
    ensures r.0.Ok? ==> |r.1| < |s|
  {
    var t := SkipWhitespace(s);
    if Peek(t) != '"' then (Err(Fail(Schema.String)), t)
    else
      var body := t[1..];
      var k := IndexOfByte(body, '"');
      if k == |body| then (Err(SyntaxFailure(StringMissQuotationMark)), body)
      else
        SplitAtQuote(body, k);
        (Ok(body[..k]), body[k + 1..])
  }

  /** `get_next_string` consumes the front of its input and nothing else. */
  lemma QuotedStringSuffix(s: seq<byte>)
    ensures IsSuffix(QuotedString(s).1, s)
  {
    var t := SkipWhitespace(s);
    SkipWhitespaceDrops(s);
    if Peek(t) == '"' {
      var body := t[1..];
      var k := IndexOfByte(body, '"');
      if k < |body| {
        SuffixOfSuffix(body[k + 1..], t, s);
      }
    }
  }

  lemma SplitAtQuote(body: seq<byte>, k: nat)
    requires k < |body| && body[k] == '"'
    requires forall j :: 0 <= j < k ==> body[j] != '"'
    ensures '"' !in body[..k]
    ensures body == body[..k] + ['"'] + body[k + 1..]
  {
  }

  /** `s` is what is left of `t` after some bytes were consumed. */
  predicate IsSuffix(s: seq<byte>, t: seq<byte>) {
    |s| <= |t| && s == t[|t| - |s|..]
  }

  lemma SuffixOfSuffix(a: seq<byte>, b: seq<byte>, c: seq<byte>)
    requires IsSuffix(a, b) && IsSuffix(b, c)
    ensures IsSuffix(a, c)
  {
  }

  /** `process_key` and the loop of `enumeration` look for the first name
      whose C string has the same length and bytes as `text`; `|names|`
      when there is none. */
  function NameIndex(names: seq<seq<byte>>, text: seq<byte>): (i: nat)
    ensures i <= |names|
    ensures i < |names| ==> CString(names[i]) == text
    ensures forall j :: 0 <= j < i ==> CString(names[j]) != text
  {
    if |names| == 0 then 0
    else if CString(names[0]) == text then 0
    else
      var i := 1 + NameIndex(names[1..], text);
      assert forall j :: 1 <= j < i ==> names[j] == names[1..][j - 1];
      i
  }

  /** The loop of `process_key`, which compares lengths before bytes. */
  method FindName(names: seq<seq<byte>>, text: seq<byte>) returns (index: nat)
    ensures index == NameIndex(names, text)
  {
    index := 0;
    while index < |names|
      invariant index <= |names|
      invariant forall j :: 0 <= j < index ==> CString(names[j]) != text
    {
      var length := Strlen(names[index]);
      if |text| == length && text == names[index][..length] {
        return;
      }
      index := index + 1;
    }
  }

  /** `std::size_t` arithmetic wraps modulo 2^64. */
  const SizeModulus: nat := 0x1_0000_0000_0000_0000
  type Size = n: nat | n < SizeModulus

  /** `++` on a `std::size_t`: the largest value wraps to zero. */
  function Increment(d: Size): Size {
    if d == SizeModulus - 1 then 0 else d + 1
  }

  /** `--` on a `std::size_t`: zero wraps to the largest value. */
  function Decrement(d: Size): Size {
    if d == 0 then SizeModulus - 1 else d - 1
  }

  /** The wrapping operations agree with arithmetic modulo 2^64, and an
      unchecked decrement undoes an increment, wrap-around included. */
  lemma WrapArithmetic(d: Size)
    ensures Increment(d) == (d + 1) % SizeModulus
    ensures Decrement(d) == (d + SizeModulus - 1) % SizeModulus
    ensures Decrement(Increment(d)) == d && Increment(Decrement(d)) == d
  {
    if d == 0 {
      assert (d + SizeModulus - 1) % SizeModulus == SizeModulus - 1;
    } else {
      assert (d + SizeModulus - 1) % SizeModulus == d - 1;
    }
  }

  /** What `unsigned_integer` makes of an accepted integer token: a
      non-negative one as it is, a negative one through
      `convert_to<uintmax_t>(intmax_t)`, which lets only "-0" through. */
  function UnsignedOf(t: Token): (r: Outcome<int>)
    requires TokenInRange(t)
    ensures r.Ok? ==> InRange(Uintmax, r.value)
    ensures t.UintToken? ==> r == Ok(t.u)
    ensures t.IntToken? && t.i < 0 ==> r == Err(Fail(LargerInteger))
    ensures t.IntToken? && t.i == 0 ==> r == Ok(0)
    ensures !t.UintToken? && !t.IntToken? ==> r == Err(Fail(Schema.Integer))
  {
    match t
    case UintToken(u) => Ok(u)
    case IntToken(i) => ConvertToUnsigned(Uintmax, Intmax, i); ConvertTo(Uintmax, Intmax, i)
    case _ => Err(Fail(Schema.Integer))
  }

  /** `is_array_end(count)` on input `s`: the outcome and the input left.
      The end of the input fails; ']' ends the array and is consumed; after
      the first element a ',' must come next, and is consumed. */
  function ArrayEnd(s: seq<byte>, count: nat): (r: (Outcome<bool>, seq<byte>))
    ensures var t := SkipWhitespace(s); var next := Peek(t);
      && (r.0.Err? <==> next == Nul || (count > 0 && next != ']' && next != ','))
      && (r.0.Err? ==> r.0.error == SyntaxFailure(ArrayMissCommaOrSquareBracket) && r.1 == t)
      && (r.0 == Ok(true) <==> next == ']')
      && (r.0.Ok? ==> r.1 == if next == ']' || count > 0 then t[1..] else t)
    ensures |r.1| <= |s|
    ensures r.0 == Ok(true) ==> |r.1| < |s|
  {
    var t := SkipWhitespace(s);
    var next := Peek(t);
    if next == Nul then (Err(SyntaxFailure(ArrayMissCommaOrSquareBracket)), t)
    else if next == ']' then (Ok(true), t[1..])
    else if count > 0 && next != ',' then (Err(SyntaxFailure(ArrayMissCommaOrSquareBracket)), t)
    else if count > 0 then (Ok(false), t[1..])
    else (Ok(false), t)
  }

  /** The separator check at the head of `key`'s loop on input `s`: as
      `ArrayEnd`, with '}' and `object_miss_comma_or_curly_bracket`. */
  function ObjectEnd(s: seq<byte>, count: nat): (r: (Outcome<bool>, seq<byte>))
    ensures var t := SkipWhitespace(s); var next := Peek(t);
      && (r.0.Err? <==> next == Nul || (count > 0 && next != '}' && next != ','))
      && (r.0.Err? ==> r.0.error == SyntaxFailure(ObjectMissCommaOrCurlyBracket) && r.1 == t)
      && (r.0 == Ok(true) <==> next == '}')
      && (r.0.Ok? ==> r.1 == if next == '}' || count > 0 then t[1..] else t)
    ensures |r.1| <= |s|
    ensures r.0 == Ok(true) ==> |r.1| < |s|
  {
    var t := SkipWhitespace(s);
    var next := Peek(t);
    if next == Nul then (Err(SyntaxFailure(ObjectMissCommaOrCurlyBracket)), t)
    else if next == '}' then (Ok(true), t[1..])
    else if count > 0 && next != ',' then (Err(SyntaxFailure(ObjectMissCommaOrCurlyBracket)), t)
    else if count > 0 then (Ok(false), t[1..])
    else (Ok(false), t)
  }

  /** `json_key`: member names are strings, read with the temporary string
      that escaped names are copied into. */
  const KeyHandler := Handler(Schema.String, true)

  /** `name` is the member name rapidjson reads at the start of `at`. */
  predicate KeyScanned(scan: Scanner, at: seq<byte>, name: seq<byte>) {
    var p := ParseValue(scan(at), KeyHandler);
    p.Ok? && p.value.token.StringToken? && p.value.token.text == name
  }

  /** A member name, its first entry in the key table, and the input left
      after the ':' that follows it. */
  datatype Named = Named(index: nat, name: seq<byte>, rest: seq<byte>)

  /** The "parse key" step of `key` on input `s`: a string token, looked up
      in `keys`, then a ':' that is consumed. */
  function MemberNameOf(scan: Scanner, s: seq<byte>, keys: seq<seq<byte>>): (r: Outcome<Named>)
    ensures var p := ParseValue(scan(s), KeyHandler);
      && (p.Err? ==> r == Err(p.error))
      && (p.Ok? ==> (r.Ok? <==> Peek(SkipWhitespace(After(s, p))) == ':'))
      && (p.Ok? && r.Err? ==> r.error == SyntaxFailure(ObjectMissColon))
    ensures r.Ok? ==>
      && KeyScanned(scan, s, r.value.name)
      && r.value.index == NameIndex(keys, r.value.name)
      && |r.value.rest| < |s|
  {
    var p := ParseValue(scan(s), KeyHandler);
    if p.Err? then Err(p.error)
    else
      var t := SkipWhitespace(After(s, p));
      if Peek(t) != ':' then Err(SyntaxFailure(ObjectMissColon))
      else
        Ok(Named(NameIndex(keys, p.value.token.text), p.value.token.text, t[1..]))
  }

  /** What one call of `key` finds: the end of the object, or a member whose
      name is in the key table, read at `at`, with its value next in `rest`. */
  datatype KeyStep =
    | Closed(rest: seq<byte>)
    | Found(index: nat, name: seq<byte>, at: seq<byte>, rest: seq<byte>)

  /** `key(map, count, index)` on input `s`. Members whose name is not in
      `keys` have their value skipped and count as members already seen. */
  function NextKey(scan: Scanner, s: seq<byte>, keys: seq<seq<byte>>, count: nat): (r: Outcome<KeyStep>)
    ensures r.Ok? ==> |r.value.rest| < |s|
    ensures r.Ok? && r.value.Found? ==>
      && r.value.index < |keys| && CString(keys[r.value.index]) == r.value.name
      && (forall j :: 0 <= j < r.value.index ==> CString(keys[j]) != r.value.name)
      && |r.value.at| <= |s| && KeyScanned(scan, r.value.at, r.value.name)
    decreases |s|
  {
    var (end, t) := ObjectEnd(s, count);
    if end.Err? then Err(end.error)
    else if end.value then Ok(Closed(t))
    else
      match MemberNameOf(scan, t, keys)
      case Err(f) => Err(f)
      case Ok(m) =>
        if m.index < |keys| then Ok(Found(m.index, m.name, t, m.rest))
        else
          var p := ParseValue(scan(m.rest), Handler(NoError, false));
          if p.Err? then Err(p.error)
          else
            ParseAdvances(scan, m.rest, Handler(NoError, false));
            NextKey(scan, After(m.rest, p), keys, count + 1)
  }

  /** `is_array_end` and `key`'s separator check consume the front of their
      input and nothing else. */
  lemma SeparatorSuffix(s: seq<byte>, count: nat)
    ensures IsSuffix(ArrayEnd(s, count).1, s) && IsSuffix(ObjectEnd(s, count).1, s)
  {
    var t := SkipWhitespace(s);
    SkipWhitespaceDrops(s);
    if |t| > 0 {
      SuffixOfSuffix(t[1..], t, s);
    }
  }

  /** The "parse key" step consumes the front of its input and nothing else. */
  lemma MemberNameSuffix(scan: Scanner, s: seq<byte>, keys: seq<seq<byte>>)
    ensures var r := MemberNameOf(scan, s, keys); r.Ok? ==> IsSuffix(r.value.rest, s)
  {
    var p := ParseValue(scan(s), KeyHandler);
    if p.Ok? {
      var t := SkipWhitespace(After(s, p));
      AfterSuffix(s, p);
      SkipWhitespaceDrops(After(s, p));
      SuffixOfSuffix(t, After(s, p), s);
      if |t| > 0 {
        SuffixOfSuffix(t[1..], t, s);
      }
    }
  }

  /** The member `key` finds was read from a later part of its input: `at`
      is a suffix of `s`, past every unknown member skipped before it. */
  lemma {:induction false} NextKeyAtSuffix(scan: Scanner, s: seq<byte>, keys: seq<seq<byte>>, count: nat)
    ensures var r := NextKey(scan, s, keys, count);
      r.Ok? && r.value.Found? ==> IsSuffix(r.value.at, s)
    decreases |s|
  {
    var (end, t) := ObjectEnd(s, count);
    SeparatorSuffix(s, count);
    if end.Ok? && !end.value {
      var m := MemberNameOf(scan, t, keys);
      if m.Ok? && m.value.index >= |keys| {
        MemberNameSuffix(scan, t, keys);
        var p := ParseValue(scan(m.value.rest), Handler(NoError, false));
        if p.Ok? {
          ParseAdvances(scan, m.value.rest, Handler(NoError, false));
          var after := After(m.value.rest, p);
          AfterSuffix(m.value.rest, p);
          NextKeyAtSuffix(scan, after, keys, count + 1);
          var r := NextKey(scan, after, keys, count + 1);
          assert NextKey(scan, s, keys, count) == r;
          if r.Ok? && r.value.Found? {
            SuffixOfSuffix(r.value.at, after, m.value.rest);
            SuffixOfSuffix(r.value.at, m.value.rest, t);
            SuffixOfSuffix(r.value.at, t, s);
          }
        }
      }
    }
  }

  /** One round of `key`'s loop, by how it ends. */
  lemma NextKeyCases(scan: Scanner, s: seq<byte>, keys: seq<seq<byte>>, count: nat)
    ensures var (end, t) := ObjectEnd(s, count);
      && (end.Err? ==> NextKey(scan, s, keys, count) == Err(end.error))
      && (end == Ok(true) ==> NextKey(scan, s, keys, count) == Ok(Closed(t)))
      && (end == Ok(false) && MemberNameOf(scan, t, keys).Err? ==>
            NextKey(scan, s, keys, count) == Err(MemberNameOf(scan, t, keys).error))
      && (end == Ok(false) && MemberNameOf(scan, t, keys).Ok? ==>
            var m := MemberNameOf(scan, t, keys).value;
            m.index < |keys| ==> NextKey(scan, s, keys, count) == Ok(Found(m.index, m.name, t, m.rest)))
  {
  }

  /** The end of the input, or after the first member any byte but ',' and
      '}', fails with `object_miss_comma_or_curly_bracket`. */
  lemma NextKeySeparator(scan: Scanner, s: seq<byte>, keys: seq<seq<byte>>, count: nat)
    requires var next := Peek(SkipWhitespace(s));
      next == Nul || (count > 0 && next != '}' && next != ',')
    ensures NextKey(scan, s, keys, count) == Err(SyntaxFailure(ObjectMissCommaOrCurlyBracket))
  {
  }

  /** A member name that is not followed by ':' fails with
      `object_miss_colon`. */
  lemma NextKeyMissingColon(scan: Scanner, s: seq<byte>, keys: seq<seq<byte>>, count: nat)
    requires var (end, t) := ObjectEnd(s, count); end == Ok(false)
    requires var t := ObjectEnd(s, count).1; var p := ParseValue(scan(t), KeyHandler);
      p.Ok? && Peek(SkipWhitespace(After(t, p))) != ':'
    ensures NextKey(scan, s, keys, count) == Err(SyntaxFailure(ObjectMissColon))
  {
  }

  /** A member whose name is not in the table is skipped: the result is that
      of `key` on the input after its value, with one more member seen. */
  lemma NextKeySkipsUnknown(scan: Scanner, s: seq<byte>, keys: seq<seq<byte>>, count: nat)
    requires ObjectEnd(s, count).0 == Ok(false)
    requires var m := MemberNameOf(scan, ObjectEnd(s, count).1, keys);
      m.Ok? && m.value.index == |keys|
    ensures var m := MemberNameOf(scan, ObjectEnd(s, count).1, keys);
      var p := ParseValue(scan(m.value.rest), Handler(NoError, false));
      && (p.Err? ==> NextKey(scan, s, keys, count) == Err(p.error))
      && (p.Ok? ==> NextKey(scan, s, keys, count) == NextKey(scan, After(m.value.rest, p), keys, count + 1))
  {
  }

  class Reader {
    /** rapidjson's value parser (`reader_`). */
    const scan: Scanner
    /** `current_`: the bytes not yet consumed. */
    var current: seq<byte>
    /** `depth_`: the number of arrays and objects opened and not yet closed. */
    var depth: Size

    constructor(scan: Scanner, source: seq<byte>)
      ensures this.scan == scan && current == source && depth == 0
    {
      this.scan := scan;
      current := source;
      depth := 0;
    }

    /** `increment_depth`: fails exactly when the count reaches 100, so from
        a closed document at most 99 scopes are ever open. */
    method IncrementDepth() returns (r: Outcome<()>)
      modifies this`depth
      ensures depth == Increment(old(depth))
      ensures r.Ok? <==> depth != MaxJsonReadDepth
      ensures r.Err? ==> r.error == Fail(MaximumDepth)
      ensures r.Ok? && old(depth) < MaxJsonReadDepth ==> depth < MaxJsonReadDepth
    {
      depth := Increment(depth);
      if depth == MaxJsonReadDepth {
        return Err(Fail(MaximumDepth));
      }
      return Ok(());
    }

    /** `decrement_depth`, behind `end_array` and `end_object`: an unchecked
        `--depth_`, which wraps at zero. */
    method DecrementDepth()
      modifies this`depth
      ensures depth == Decrement(old(depth))
      ensures old(depth) > 0 ==> depth == old(depth) - 1
    {
      depth := Decrement(depth);
    }

    method EndArray()
      modifies this`depth
      ensures depth == Decrement(old(depth))
    {
      DecrementDepth();
    }

    method EndObject()
      modifies this`depth
      ensures depth == Decrement(old(depth))
    {
      DecrementDepth();
    }

    /** `read_next_value`: parse one value with `h`, consuming it on success. */
    method ReadNextValue(h: Handler) returns (r: Outcome<Token>)
      modifies this`current
      ensures var p := ParseValue(scan(old(current)), h);
        && current == After(old(current), p)
        && (p.Ok? ==> r == Ok(p.value.token) && |current| < |old(current)|)
        && (p.Err? ==> r == Err(p.error))
      ensures r.Ok? ==> Accepts(h, r.value) && |current| < |old(current)|
    {
      var p := ParseValue(scan(current), h);
      if p.Err? {
        return Err(p.error);
      }
      current := current[p.value.length..];
      return Ok(p.value.token);
    }

    /** `get_next_token`: skip whitespace and peek at the next byte. */
    method NextToken() returns (next: byte)
      modifies this`current
      ensures current == SkipWhitespace(old(current))
      ensures next == Peek(current)
    {
      current := SkipWhitespace(current);
      next := Peek(current);
    }

    /** `get_next_string` */
    method NextString() returns (r: Outcome<seq<byte>>)
      modifies this`current
      ensures (r, current) == QuotedString(old(current))
    {
      ghost var q := QuotedString(current);
      var next := NextToken();
      if next != '"' {
        assert q == (Err(Fail(Schema.String)), current);
        return Err(Fail(Schema.String));
      }
      current := current[1..];
      var end := IndexOfByte(current, '"');
      if end == |current| {
        assert q == (Err(SyntaxFailure(StringMissQuotationMark)), current);
        return Err(SyntaxFailure(StringMissQuotationMark));
      }
      r := Ok(current[..end]);
      current := current[end + 1..];
      assert q == (r, current);
    }

    /** `skip_value`: parse and drop one value of any kind. */
    method SkipValue() returns (r: Outcome<()>)
      modifies this`current
      ensures var p := ParseValue(scan(old(current)), Handler(NoError, false));
        && current == After(old(current), p)
        && (r.Ok? <==> p.Ok?)
        && (p.Err? ==> r == Err(p.error))
    {
      var t := ReadNextValue(Handler(NoError, false));
      if t.Err? {
        return Err(t.error);
      }
      return Ok(());
    }

    /** `check_complete`: fails exactly when scopes are still open. Bytes
        left after the value are not looked at. */
    function CheckComplete(): (r: Outcome<()>)
      reads this
      ensures r.Ok? <==> depth == 0
      ensures r.Err? ==> r.error == SyntaxFailure(UnspecificSyntaxError)
    {
      if depth != 0 then Err(SyntaxFailure(UnspecificSyntaxError)) else Ok(())
    }

    /** `boolean` */
    method Boolean() returns (r: Outcome<bool>)
      modifies this`current
      ensures var p := ParseValue(scan(old(current)), Handler(Schema.Boolean, false));
        && current == After(old(current), p)
        && (p.Ok? ==> p.value.token.BoolToken? && r == Ok(p.value.token.b))
        && (p.Err? ==> r == Err(p.error))
      ensures r.Ok? ==> |current| < |old(current)|
    {
      var t := ReadNextValue(Handler(Schema.Boolean, false));
      if t.Err? {
        return Err(t.error);
      }
      return Ok(t.value.b);
    }

    /** `integer`: a negative token is returned as it is. A non-negative
        one goes through `convert_to<intmax_t>(uintmax_t)`, which as written
        rejects every value: the ones that fit `intmax_t` as
        `larger_integer`, the rest as `smaller_integer`. */
    method Integer() returns (r: Outcome<int>)
      modifies this`current
      ensures var p := ParseValue(scan(old(current)), Handler(Schema.Integer, false));
        && current == After(old(current), p)
        && (p.Err? ==> r == Err(p.error))
        && (p.Ok? && p.value.token.IntToken? ==> r == Ok(p.value.token.i))
        && (p.Ok? && p.value.token.UintToken? && p.value.token.u <= Max(Intmax) ==> r == Err(Fail(LargerInteger)))
        && (p.Ok? && p.value.token.UintToken? && p.value.token.u > Max(Intmax) ==> r == Err(Fail(SmallerInteger)))
      ensures r.Ok? ==> Min(Intmax) <= r.value <= 0
      ensures r.Ok? ==> |current| < |old(current)|
    {
      var t := ReadNextValue(Handler(Schema.Integer, false));
      if t.Err? {
        return Err(t.error);
      }
      if t.value.IntToken? {
        return Ok(t.value.i);
      }
      IntmaxFromUintmaxAlwaysFails(t.value.u);
      return ConvertTo(Intmax, Uintmax, t.value.u);
    }

    /** `integer` as evidently intended: a non-negative token is accepted
        exactly when it fits `intmax_t`. */
    method IntendedInteger() returns (r: Outcome<int>)
      modifies this`current
      ensures var p := ParseValue(scan(old(current)), Handler(Schema.Integer, false));
        && current == After(old(current), p)
        && (p.Err? ==> r == Err(p.error))
        && (p.Ok? && p.value.token.IntToken? ==> r == Ok(p.value.token.i))
        && (p.Ok? && p.value.token.UintToken? && p.value.token.u <= Max(Intmax) ==> r == Ok(p.value.token.u))
        && (p.Ok? && p.value.token.UintToken? && p.value.token.u > Max(Intmax) ==> r == Err(Fail(SmallerInteger)))
      ensures r.Ok? ==> InRange(Intmax, r.value)
      ensures r.Ok? ==> |current| < |old(current)|
    {
      var t := ReadNextValue(Handler(Schema.Integer, false));
      if t.Err? {
        return Err(t.error);
      }
      if t.value.IntToken? {
        return Ok(t.value.i);
      }
      return IntendedConvertTo(Intmax, Uintmax, t.value.u);
    }

    /** `unsigned_integer`: a non-negative token is returned unchanged, a
        negative one goes through `convert_to<uintmax_t>(intmax_t)`, so it
        fails as `larger_integer` unless it is "-0". Any other token fails
        with the handler's category, `integer`. */
    method UnsignedInteger() returns (r: Outcome<int>)
      modifies this`current
      ensures var s := scan(old(current)); var p := ParseValue(s, Handler(Schema.Integer, false));
        && current == After(old(current), p)
        && (p.Err? ==> r == Err(p.error))
        && (!s.Malformed? && !s.token.UintToken? && !s.token.IntToken? ==> r == Err(Fail(Schema.Integer)))
        && (p.Ok? ==> r == UnsignedOf(p.value.token))
      ensures r.Ok? ==> InRange(Uintmax, r.value)
      ensures r.Ok? ==> |current| < |old(current)|
    {
      var t := ReadNextValue(Handler(Schema.Integer, false));
      if t.Err? {
        return Err(t.error);
      }
      if t.value.UintToken? {
        return Ok(t.value.u);
      }
      ConvertToUnsigned(Uintmax, Intmax, t.value.i);
      return ConvertTo(Uintmax, Intmax, t.value.i);
    }

    /** `string`: the decoded contents of a string token. */
    method String() returns (r: Outcome<seq<byte>>)
      modifies this`current
      ensures var p := ParseValue(scan(old(current)), Handler(Schema.String, true));
        && current == After(old(current), p)
        && (p.Ok? ==> p.value.token.StringToken? && r == Ok(p.value.token.text))
        && (p.Err? ==> r == Err(p.error))
      ensures r.Ok? ==> |current| < |old(current)|
    {
      var t := ReadNextValue(Handler(Schema.String, true));
      if t.Err? {
        return Err(t.error);
      }
      return Ok(t.value.text);
    }

    /** `binary`: a quoted hex string decoded into exactly `width` bytes;
        text that cannot fill them fails with `fixed_binary`. */
    method Binary(width: nat) returns (r: Outcome<seq<byte>>)
      modifies this`current
      ensures var q := QuotedString(old(current));
        && current == q.1
        && (q.0.Err? ==> r == Err(q.0.error))
        && (q.0.Ok? && FromHex(q.0.value, width).Some? ==> r == Ok(FromHex(q.0.value, width).value))
        && (q.0.Ok? && FromHex(q.0.value, width).None? ==> r == Err(Fail(FixedBinary)))
      ensures r.Ok? ==> |r.value| == width
      ensures r.Ok? ==> |current| < |old(current)|
    {
      var text := NextString();
      if text.Err? {
        return Err(text.error);
      }
      var bytes := FromHex(text.value, width);
      if bytes.None? {
        return Err(Fail(FixedBinary));
      }
      return Ok(bytes.value);
    }

    /** `enumeration`: the smallest index whose name equals the string token
        exactly; no match fails with `enumeration`. */
    method Enumeration(names: seq<seq<byte>>) returns (r: Outcome<nat>)
      modifies this`current
      ensures var p := ParseValue(scan(old(current)), Handler(Schema.String, true));
        && current == After(old(current), p)
        && (p.Err? ==> r == Err(p.error))
        && (p.Ok? ==> p.value.token.StringToken?)
        && (p.Ok? && p.value.token.StringToken? ==>
              var text := p.value.token.text;
              && (r.Ok? ==> r.value < |names| && CString(names[r.value]) == text
                            && forall j :: 0 <= j < r.value ==> CString(names[j]) != text)
              && (r.Err? ==> r.error == Fail(Schema.Enumeration)
                             && forall j :: 0 <= j < |names| ==> CString(names[j]) != text))
      ensures r.Ok? ==> |current| < |old(current)|
    {
      var t := ReadNextValue(Handler(Schema.String, true));
      if t.Err? {
        return Err(t.error);
      }
      var i := FindName(names, t.value.text);
      if i == |names| {
        return Err(Fail(Schema.Enumeration));
      }
      return Ok(i);
    }

    /** `start_array`: the next token must be '['; it is consumed and one
        more scope is open. */
    method StartArray() returns (r: Outcome<()>)
      modifies this
      ensures var s := SkipWhitespace(old(current));
        && (Peek(s) != '[' ==> r == Err(Fail(Array)) && current == s && depth == old(depth))
        && (Peek(s) == '[' ==> current == s[1..] && depth == Increment(old(depth))
                               && (r.Ok? <==> depth != MaxJsonReadDepth)
                               && (r.Err? ==> r.error == Fail(MaximumDepth)))
      ensures r.Ok? ==> |current| < |old(current)|
      ensures r.Ok? && old(depth) < MaxJsonReadDepth ==> depth < MaxJsonReadDepth
    {
      var next := NextToken();
      if next != '[' {
        return Err(Fail(Array));
      }
      current := current[1..];
      r := IncrementDepth();
    }

    /** `is_array_end` */
    method IsArrayEnd(count: nat) returns (r: Outcome<bool>)
      modifies this`current
      ensures (r, current) == ArrayEnd(old(current), count)
    {
      var next := NextToken();
      if next == Nul {
        return Err(SyntaxFailure(ArrayMissCommaOrSquareBracket));
      }
      if next == ']' {
        current := current[1..];
        return Ok(true);
      }
      if count > 0 {
        if next != ',' {
          return Err(SyntaxFailure(ArrayMissCommaOrSquareBracket));
        }
        current := current[1..];
      }
      return Ok(false);
    }

    /** `start_object`: the next token must be '{'; it is consumed and one
        more scope is open. */
    method StartObject() returns (r: Outcome<()>)
      modifies this
      ensures var s := SkipWhitespace(old(current));
        && (Peek(s) != '{' ==> r == Err(Fail(Object)) && current == s && depth == old(depth))
        && (Peek(s) == '{' ==> current == s[1..] && depth == Increment(old(depth))
                               && (r.Ok? <==> depth != MaxJsonReadDepth)
                               && (r.Err? ==> r.error == Fail(MaximumDepth)))
      ensures r.Ok? ==> |current| < |old(current)|
      ensures r.Ok? && old(depth) < MaxJsonReadDepth ==> depth < MaxJsonReadDepth
    {
      var next := NextToken();
      if next != '{' {
        return Err(Fail(Object));
      }
      current := current[1..];
      r := IncrementDepth();
    }

    /** The member separator check at the head of `key`'s loop. */
    method IsObjectEnd(count: nat) returns (r: Outcome<bool>)
      modifies this`current
      ensures (r, current) == ObjectEnd(old(current), count)
    {
      var next := NextToken();
      if next == Nul {
        return Err(SyntaxFailure(ObjectMissCommaOrCurlyBracket));
      }
      if next == '}' {
        current := current[1..];
        return Ok(true);
      }
      if count > 0 {
        if next != ',' {
          return Err(SyntaxFailure(ObjectMissCommaOrCurlyBracket));
        }
        current := current[1..];
      }
      return Ok(false);
    }

    /** The "parse key" step of `key`. */
    method MemberName(keys: seq<seq<byte>>) returns (r: Outcome<nat>)
      modifies this`current
      ensures var m := MemberNameOf(scan, old(current), keys);
        && (m.Err? ==> r == Err(m.error))
        && (m.Ok? ==> r == Ok(m.value.index) && current == m.value.rest)
      ensures |current| <= |old(current)|
    {
      var key := ReadNextValue(KeyHandler);
      if key.Err? {
        return Err(key.error);
      }
      var index := FindName(keys, key.value.text);
      var colon := NextToken();
      if colon != ':' {
        return Err(SyntaxFailure(ObjectMissColon));
      }
      current := current[1..];
      return Ok(index);
    }

    /** `key`: false at the end of the object, true with `index` the table
        entry of the next member whose name is in `keys`. */
    method Key(keys: seq<seq<byte>>, count: nat) returns (r: Outcome<bool>, index: nat)
      modifies this`current
      ensures KeyOutcome(NextKey(scan, old(current), keys, count), r, index, current)
    {
      r, index := Ok(false), |keys|;
      var seen := count;
      var more := true;
      while more
        invariant |current| <= |old(current)|
        invariant more ==> NextKey(scan, current, keys, seen) == NextKey(scan, old(current), keys, count)
        invariant !more ==> KeyOutcome(NextKey(scan, old(current), keys, count), r, index, current)
        decreases |current|, more
      {
        r, index, more := KeyRound(keys, seen);
        seen := seen + 1;
      }
    }

    /** One round of `key`'s loop: either the outcome of `key`, or an
        unknown member skipped, with the rest of the search left to do. */
    method KeyRound(keys: seq<seq<byte>>, seen: nat) returns (r: Outcome<bool>, index: nat, more: bool)
      modifies this`current
      ensures more ==> |current| < |old(current)|
      ensures more ==> NextKey(scan, old(current), keys, seen) == NextKey(scan, current, keys, seen + 1)
      ensures !more ==> KeyOutcome(NextKey(scan, old(current), keys, seen), r, index, current)
      ensures |current| <= |old(current)|
    {
      r, index, more := Ok(false), |keys|, false;
      NextKeyCases(scan, current, keys, seen);
      ghost var separated := ObjectEnd(current, seen);
      var end := IsObjectEnd(seen);
      assert end == separated.0 && current == separated.1;
      if end.Err? {
        return Err(end.error), index, more;
      }
      if end.value {
        return Ok(false), index, more;
      }
      var found := MemberName(keys);
      if found.Err? {
        return Err(found.error), index, more;
      }
      index := found.value;
      if index != |keys| {
        return Ok(true), index, more;
      }
      NextKeySkipsUnknown(scan, old(current), keys, seen);
      ghost var afterName := current;
      assert afterName == MemberNameOf(scan, separated.1, keys).value.rest;
      var skipped := SkipValue();
      if skipped.Err? {
        return Err(skipped.error), index, more;
      }
      ParseAdvances(scan, afterName, Handler(NoError, false));
      assert |current| < |afterName| < |separated.1| <= |old(current)|;
      assert NextKey(scan, old(current), keys, seen) == NextKey(scan, current, keys, seen + 1);
      more := true;
    }
  }

  /** The outcome of `key` and the input it leaves, as `NextKey` has them. */
  predicate KeyOutcome(k: Outcome<KeyStep>, r: Outcome<bool>, index: nat, rest: seq<byte>) {
    && (k.Err? ==> r == Err(k.error))
    && (k.Ok? && k.value.Closed? ==> r == Ok(false) && rest == k.value.rest)
    && (k.Ok? && k.value.Found? ==> r == Ok(true) && index == k.value.index && rest == k.value.rest)
  }
}
