# motrix wire codec, daemon schemas and display centring in Dafny

motrix is a terminal "matrix rain" visualiser for a Monero daemon. It
talks to the daemon with JSON-RPC over HTTP and listens to its ZMQ
publisher. This project models the part of the program that turns daemon
JSON into C++ structs and back, which is the `wire` library:

- `json_reader`, a token-level reader over the unread bytes. It counts
  open scopes in a `std::size_t` depth and stops at 100.
- `json_writer`, a token-level writer on top of rapidjson's writer.
- `read_json`, the DOM-less object/array decoder. It keeps one tracker
  per field and uses a key table for lookup.
- `write_json`, the matching encoder.
- The overflow-checked integer conversion `convert_to`.
- The error taxonomy `wire::error::schema`.
- The field descriptors `wire::field` and the compile-time `wire::sum`.

On top of `wire`, the model covers several schemas, each as data (a
`Kind`) read by the generic decoder:

- the JSON-RPC envelope;
- the `get_info` and `get_transaction_pool` calls;
- the Monero `block`, `minimal_tx` and `minimal_chain` schemas.

It also covers `monero::compare` on 32-byte hashes, the topic/contents
split of a ZMQ publisher message, and the integer arithmetic that
centres text on the display.

The modules follow the source tree:

| module | file | flavour |
|---|---|---|
| `Wrappers`, `Bytes` | `wrappers.dfy`, `bytes.dfy` | `Option`/`Result`, `strlen`, C strings, `memchr` |
| `WireError` | `wire_error.dfy` | the `schema` enum, `make_error_code`, rapidjson parse codes |
| `WireField` | `wire_field.dfy` | `field_`, `field`, `sum` |
| `WireInteger` | `wire_integer.dfy` | C++ integer types, `std::common_type`, `convert_to` |
| `Hex` | `hex.dfy` | the hex form of fixed-width blobs |
| `WireSchema` | `wire_schema.dfy` | `Kind` (a destination type) and `Value` (an object of one) |
| `JsonReader` | `json_reader.dfy` | the `json_reader` class (imperative: `current`, `depth`) |
| `JsonWriter` | `json_writer.dfy` | the `json_writer` class (imperative: a token sink) |
| `JsonDecode` | `json_decode.dfy` | what `read_bytes` yields for a destination type, as recursive functions on the input |
| `ReadJson` | `read_json.dfy` | `read_json::array`, `tracker`, `object`, the `read_bytes` overloads, `to` |
| `WriteJson` | `write_json.dfy` | `write_json::array`, `field`, `object`, `from`, the `write_bytes` overloads |
| `MoneroData`, `Method`, `RpcJson`, `Pub` | `monero_data.dfy`, `method.dfy`, `rpc_json.dfy`, `pub.dfy` | the schemas |
| `DisplayWindow` | `display_window.dfy` | `characters` and `percent` centring |

The reader works on the unread input, `current`. rapidjson's parse of
one complete value is a parameter of the reader: a `Scanner` function
that reports the first SAX event and how many bytes the value took. The
handler table of `rapidjson_sax` is modelled exactly. It decides which
events each reader primitive accepts and which error a rejected event
becomes. Everything the reader does itself is modelled byte by byte:

- whitespace skipping;
- `get_next_string`'s search for the closing quote;
- '[', ']', '{', '}', ',' and ':';
- the key table lookup with its `strlen` comparison;
- skipping unknown members and the depth counter.

The writer is a sink of writer calls (`Event`s). `WriteJson.Tokens` is
the specification of what a value writes. `WriteJson.Decode` reads a
token stream back under a schema, and `WriteJson.DecodeTokens` proves
that the encoding loses nothing.

`JsonDecode.Decoded` states, as functions on the input, what
`read_bytes` yields for a destination type: the value, the input left
after it, or the error. Every read method in `ReadJson` and every schema
reader is proved equal to it, on every path, errors included. Lemmas
about `Decoded` then state what the source promises:

- a decoded value conforms to its schema: every field present, in
  declaration order, with integers in range and blobs of full width;
- `missing_key` names the first field not read;
- a field met twice fails as a duplicate and keeps its first value;
- `{}` and `[]` decode as the schema demands;
- the hundredth open scope fails with `maximum_depth`.

Every write method states the exact token list it appends.

## Model

| member | source | states |
|---|---|---|
| Bytes.Strlen | src/wire/json/write.cpp:75-78 | the length is the number of bytes before the first NUL, or all of them |
| Bytes.CString | src/wire/json/write.cpp:95-98 | a `const char*` denotes a NUL-free prefix of its storage, all of it when it holds no NUL |
| Bytes.IndexOfByte | src/pub.cpp:44 | `memchr`: the first index holding the byte, or the length exactly when the byte is absent |
| WireError.Code | src/wire/error.hpp:39-56 | the enumerators count up from `none = 0` in declaration order; only `none` is 0 |
| WireError.FromCode | src/wire/error.hpp:39-56 | an underlying value names an enumerator exactly when it is in 0..14, and that enumerator has the value |
| WireError.TaxonomyIsClosed | src/wire/error.hpp:39-56 | the taxonomy has fifteen pairwise distinct values; every non-`none` value is in 1..14 |
| WireError.MakeErrorCode | src/wire/error.hpp:65-68 | the error code carries the enum value under the schema category; it is 0 only for `none` |
| WireError.MakeErrorCodeInjective | src/wire/error.hpp:72-78 | converting distinct enumerators gives distinct error codes |
| WireField.MakeField | src/wire/field.hpp:80-84 | a descriptor keeps the name it was made with |
| WireField.GetValue | src/wire/field.hpp:67-76 | a descriptor is rebuilt from its name and the value `get_value` returns |
| WireField.GetValueOfMakeField | src/wire/field.hpp:58-77 | `get_value` of a descriptor made by `field` is the value it was given |
| WireField.Names | src/wire/field.hpp:35-36 | the names of a descriptor list, one per field, in order |
| WireField.Sum | src/wire/field.hpp:88-96 | over counts, which are never negative, the sum is non-negative and bounds every term |
| WireField.SumAppend | src/wire/field.hpp:88-96 | `sum` of a concatenation is the sum of the sums |
| WireField.SumOfOnes | src/wire/json/read.hpp:225-229 | `sum(count()...)` and `sum(is_required()...)` over all-ones are the number of fields |
| WireField.SumOfSingleton | src/wire/json/read.hpp:237 | when only one tracker claims a key, the sum of the claims is that claim |
| WireField.SumOfZeros | src/wire/field.hpp:88-96 | a sum of zeros is zero |
| WireInteger.Common | src/wire/json/read.hpp:272 | `std::common_type` is at least as wide as both promoted types, and signed exactly by the usual arithmetic conversions |
| WireInteger.Cast | src/wire/json/read.hpp:287-289 | a cast lands in the target's range and keeps values that already fit |
| WireInteger.ConvertTo | src/wire/json/read.hpp:269-293 | success returns the source unchanged and in the target's range; failure is `larger_integer` or `smaller_integer` |
| WireInteger.ConvertToUnsigned | src/wire/json/read.hpp:285-290 | for an unsigned target: negative fails `larger_integer`, above max fails `smaller_integer`, anything else is returned |
| WireInteger.IntmaxFromUintmaxAlwaysFails | src/wire/json/read.cpp:254-261 | converting any `uintmax_t` to `intmax_t` fails: below 2^63 as `larger_integer`, else as `smaller_integer` |
| WireInteger.IntendedConvertTo | src/wire/json/read.hpp:269-293 | the intended check succeeds exactly when the source fits, with the failure side named |
| WireInteger.ConvertToMatchesIntended | src/wire/json/read.hpp:269-293 | `convert_to` meets the intended check whenever the target is unsigned or the common type is signed |
| WireInteger.CommonHoldsBoth | src/wire/json/read.hpp:272 | a signed common type holds every value of both types; any common type holds their non-negative values |
| WireInteger.ConvertToRejectsFortyTwo | src/wire/json/read.cpp:260 | 42 read as `uintmax_t` is rejected as `intmax_t`, though it fits |
| Hex.HexDigit | src/wire/json/write.hpp:133-138 | each nibble has a hex digit whose value is the nibble |
| Hex.DigitValue | src/wire/json/read.cpp:286-291 | a hex digit's value is below 16 |
| Hex.ToHex | src/wire/json/write.hpp:133-138 | a blob's hex text has two lowercase hex digits per byte |
| Hex.DecodePairs | src/wire/json/read.cpp:286-291 | two hex digits make one byte |
| Hex.FromHex | src/wire/json/read.cpp:286-291 | the text fills the destination exactly when it has two hex digits per destination byte |
| Hex.FromHexOfToHex | src/wire/json/read.cpp:286-291 | decoding what the writer's hex encoding produced gives back the bytes |
| Hex.DecodePairsOfToHex | src/wire/json/write.hpp:133-138 | pairwise decoding inverts the encoding |
| Hex.ToHexOfFromHex | src/wire/json/read.cpp:286-291 | encoding accepted text gives that text back, digit value by digit value (up to letter case) |
| Hex.ToHexOfDecodePairs | src/wire/json/read.cpp:286-291 | the same for the pairwise decoder |
| Hex.NibblesOf | src/wire/json/write.hpp:133-138 | a byte splits into its high and low nibble |
| JsonReader.Accepts | src/wire/json/read.cpp:97-187 | the `none` handler accepts every event; `boolean` exactly booleans; `integer` exactly integer events; `number` integers and doubles; `string` exactly strings, a copied one only with a temporary; every other category rejects everything |
| JsonReader.ThrowJsonError | src/wire/json/read.cpp:54-67 | a real parse error passes through; success or the handler's stop becomes the expected category |
| JsonReader.ParseValue | src/wire/json/read.cpp:196-202 | a value is taken exactly when it lexed and the handler accepts its first event; otherwise the category, or the parse error |
| JsonReader.After | src/wire/json/read.cpp:196-202 | the input shrinks only on success, and by at least one byte when the value is non-empty |
| JsonReader.AfterSuffix | src/wire/json/read.cpp:201 | what `read_next_value` leaves is the end of its input |
| JsonReader.ParseAdvances | src/wire/json/read.cpp:196-202 | a value the parser accepts is at least one byte long and lies within the input |
| JsonReader.SkipWhitespace | src/wire/json/read.cpp:204-210 | the result is no longer than the input and does not begin with whitespace |
| JsonReader.SkipWhitespaceDrops | src/wire/json/read.cpp:204-210 | the result is a suffix of the input, and every byte dropped is whitespace |
| JsonReader.QuotedString | src/wire/json/read.cpp:212-225 | no '"' fails `string`; no closing quote fails with a missing quotation mark; otherwise the bytes up to the next quote, which is consumed |
| JsonReader.QuotedStringSuffix | src/wire/json/read.cpp:212-225 | `get_next_string` leaves a suffix of its input |
| JsonReader.SplitAtQuote | src/wire/json/read.cpp:218-224 | the text splits at its first quote into a quote-free prefix, the quote and the rest |
| JsonReader.FindName | src/wire/json/read.cpp:348-357 | the first name whose C string equals the text, or the number of names when none does |
| JsonReader.NameIndex | src/wire/json/read.cpp:348-357 | the first name whose C string equals the text, every earlier one differing, or the number of names |
| JsonReader.UnsignedOf | src/wire/json/read.cpp:263-270 | a non-negative integer token as it is, "-0" as 0, any other negative one `larger_integer`, any other token `integer`; the result fits `uintmax_t` |
| JsonReader.ArrayEnd | src/wire/json/read.cpp:317-335 | fails at the end of input or, after the first element, at any byte but ',' and ']'; true exactly at ']'; consumes ']' or the ',' |
| JsonReader.ObjectEnd | src/wire/json/read.cpp:362-378 | the same for objects, with '}' and `object_miss_comma_or_curly_bracket` |
| JsonReader.SeparatorSuffix | src/wire/json/read.cpp:317-378 | both separator checks leave a suffix of their input |
| JsonReader.MemberNameOf | src/wire/json/read.cpp:381-386 | the parser's error, or the key string with its first index in the table, then `object_miss_colon` unless ':' follows |
| JsonReader.MemberNameSuffix | src/wire/json/read.cpp:381-386 | reading a member name leaves a suffix of the input |
| JsonReader.NextKey | src/wire/json/read.cpp:345-394 | a found member has the first table index whose name equals the key, read at a point no later than the input, with the value next |
| JsonReader.NextKeyAtSuffix | src/wire/json/read.cpp:360-391 | the member found was read from a suffix of the input, past the unknown members skipped |
| JsonReader.NextKeyCases | src/wire/json/read.cpp:360-391 | a separator error, '}', a key error or a known key each end `key` with that outcome |
| JsonReader.NextKeySeparator | src/wire/json/read.cpp:363-378 | end of input, or a byte other than ',' and '}' after the first member, fails with `object_miss_comma_or_curly_bracket` |
| JsonReader.NextKeyMissingColon | src/wire/json/read.cpp:383-385 | a key not followed by ':' fails with `object_miss_colon` |
| JsonReader.NextKeySkipsUnknown | src/wire/json/read.cpp:388-391 | an unknown member's value is skipped and `key` goes on after it, one more member seen; a bad value fails |
| JsonReader.WrapArithmetic | src/wire/json/read.hpp:59 | `++`/`--` on `size_t` are arithmetic modulo 2^64, and each undoes the other |
| JsonReader.SuffixOfSuffix | src/wire/json/read.cpp:204-210 | consuming twice leaves a suffix of the original input |
| JsonReader.Reader.constructor | src/wire/json/read.cpp:233-239 | a new reader sees all of the input at depth 0 |
| JsonReader.Reader.IncrementDepth | src/wire/json/read.cpp:190-194 | the depth is incremented modulo 2^64 and fails `maximum_depth` exactly when it reaches 100 |
| JsonReader.Reader.DecrementDepth | src/wire/json/read.hpp:59 | an unchecked decrement that wraps at zero |
| JsonReader.Reader.EndArray | src/wire/json/read.hpp:108 | closing an array decrements the depth |
| JsonReader.Reader.EndObject | src/wire/json/read.hpp:118 | closing an object decrements the depth |
| JsonReader.Reader.ReadNextValue | src/wire/json/read.cpp:196-202 | the input advances past the value only on success; the error is the parse outcome's |
| JsonReader.Reader.NextToken | src/wire/json/read.cpp:204-210 | whitespace is consumed and the next byte (NUL at the end) returned |
| JsonReader.Reader.NextString | src/wire/json/read.cpp:212-225 | result and remaining input are those of `QuotedString` |
| JsonReader.Reader.SkipValue | src/wire/json/read.cpp:227-231 | any complete value is consumed; errors are the parser's |
| JsonReader.Reader.CheckComplete | src/wire/json/read.cpp:241-245 | fails with an unspecific syntax error exactly when scopes are open |
| JsonReader.Reader.Boolean | src/wire/json/read.cpp:247-252 | a boolean token's value, or the handler's error |
| JsonReader.Reader.Integer | src/wire/json/read.cpp:254-261 | as written: a negative token is returned; a non-negative one goes through `convert_to<intmax_t>(uintmax_t)` and fails, as `larger_integer` up to `INTMAX_MAX` and as `smaller_integer` above (see Findings) |
| JsonReader.Reader.IntendedInteger | src/wire/json/read.cpp:254-261 | as evidently intended: a non-negative token is returned exactly when it fits `intmax_t`, and fails `smaller_integer` otherwise |
| JsonReader.Reader.UnsignedInteger | src/wire/json/read.cpp:263-270 | a non-negative token is returned; a negative one fails `larger_integer` unless it is -0; other tokens fail `integer` |
| JsonReader.Reader.String | src/wire/json/read.cpp:279-284 | a string token's decoded contents, or the handler's error |
| JsonReader.Reader.Binary | src/wire/json/read.cpp:286-291 | a quoted string decoded to exactly `width` bytes, `fixed_binary` when it cannot fill them |
| JsonReader.Reader.Enumeration | src/wire/json/read.cpp:293-307 | the smallest index whose name equals the string, or `enumeration` when none does |
| JsonReader.Reader.StartArray | src/wire/json/read.cpp:309-315 | '[' is required and consumed, and the depth incremented with its limit check; otherwise `array` |
| JsonReader.Reader.IsArrayEnd | src/wire/json/read.cpp:317-335 | end of input is an error; ']' ends; after the first element ',' is required and consumed |
| JsonReader.Reader.StartObject | src/wire/json/read.cpp:337-343 | '{' is required and consumed, and the depth incremented with its limit check; otherwise `object` |
| JsonReader.Reader.IsObjectEnd | src/wire/json/read.cpp:362-379 | end of input is an error; '}' ends; after the first member ',' is required and consumed |
| JsonReader.Reader.MemberName | src/wire/json/read.cpp:381-386 | the outcome and the input left are those of `MemberNameOf`: a string key, its first match in the table (or the table size), then a required ':' |
| JsonReader.Reader.Key | src/wire/json/read.cpp:345-394 | the outcome, the index and the input left are those of `NextKey`: false at '}', true with the first table entry equal to the name, the value next |
| JsonReader.Reader.KeyRound | src/wire/json/read.cpp:360-391 | one pass of the loop: a skipped unknown member leaves `key`'s outcome unchanged from the input after it; any other pass ends with `NextKey`'s outcome |
| JsonWriter.NestingOfAppend | src/wire/json/write.cpp:62-82 | appending tokens leaves the nesting of the earlier ones unchanged |
| JsonWriter.NestingSnoc | src/wire/json/write.cpp:62-82 | one more token changes the nesting by that token's delta |
| JsonWriter.Writer.constructor | src/wire/json/write.hpp:52-54 | a new writer has written nothing and has no open level and no root |
| JsonWriter.Writer.IsComplete | src/wire/json/write.cpp:86 | complete exactly when something was written and every scope is closed |
| JsonWriter.Writer.Integer | src/wire/json/write.cpp:37-46 | appends the signed integer unchanged, within 64 bits |
| JsonWriter.Writer.UnsignedInteger | src/wire/json/write.cpp:47-55 | appends the unsigned integer unchanged, within 64 bits |
| JsonWriter.Writer.String | src/wire/json/write.cpp:57-60 | appends one string of all the given bytes |
| JsonWriter.Writer.Key | src/wire/json/write.cpp:75-78 | appends a key of the `strlen` bytes of the name |
| JsonWriter.Writer.StartArray | src/wire/json/write.cpp:62-65 | opens one level |
| JsonWriter.Writer.EndArray | src/wire/json/write.cpp:66-69 | closes one level |
| JsonWriter.Writer.StartObject | src/wire/json/write.cpp:71-74 | opens one level |
| JsonWriter.Writer.EndObject | src/wire/json/write.cpp:79-82 | closes one level |
| JsonWriter.Writer.TakeJson | src/wire/json/write.cpp:84-92 | an incomplete tree throws the logic error and changes nothing; otherwise hands out all bytes and resets |
| WriteJson.WriteBytes | src/wire/json/write.hpp:123-144 | writing a value appends exactly its token list and leaves the open levels as they were |
| WriteJson.Array | src/wire/json/write.hpp:96-103 | '[', every element in order, ']' |
| WriteJson.Elements | src/wire/json/write.hpp:99-101 | one `write_bytes` per element, in container order |
| WriteJson.Field | src/wire/json/write.hpp:105-111 | key then value; always reports written |
| WriteJson.Object | src/wire/json/write.hpp:147-153 | '{', every field in declaration order, '}' |
| WriteJson.Members | src/wire/json/write.hpp:150-151 | every field written, in declaration order |
| WriteJson.From | src/wire/json/write.hpp:88-94 | one value in a fresh writer, and `take_json` hands out exactly its tokens |
| WriteJson.TokensStart | src/wire/json/write.hpp:123-144 | a written value is non-empty and does not begin with a closing bracket |
| WriteJson.ElementTokensFront | src/wire/json/write.hpp:99-101 | the first element's tokens come first |
| WriteJson.MemberTokensFront | src/wire/json/write.hpp:150-151 | the first field's tokens come first |
| WriteJson.Decode | src/wire/json/write.hpp:123-153 | a token reader that expects an object's members keyed by name in declaration order; whatever it reads, it consumes tokens |
| WriteJson.DecodeTokens | src/wire/json/write.hpp:123-153 | the tokens written for a value of a schema read back as that value, consuming them exactly, under the declaration-order reader `WriteJson.Decode` |
| WriteJson.DecodeArrayTokens | src/wire/json/write.hpp:96-103 | an array's tokens read back as the array |
| WriteJson.DecodeObjectTokens | src/wire/json/write.hpp:147-153 | an object's tokens read back as the object |
| WriteJson.DecodeElementsTokens | src/wire/json/write.hpp:99-101 | the elements read back, up to and including ']' |
| WriteJson.DecodeMembersTokens | src/wire/json/write.hpp:150-151 | the members read back, one per field, keyed by name |
| JsonDecode.Decoded | src/wire/json/read.hpp:303-336 | what `read_bytes` yields for the destination type; a decoded value conforms to the type and consumed input |
| JsonDecode.DecodedBool | src/wire/json/read.cpp:247-252 | exactly a boolean token, whose value is the result |
| JsonDecode.DecodedUint | src/wire/json/read.hpp:307-318 | exactly a non-negative number that fits the target, or "-0" as zero |
| JsonDecode.DecodedBlob | src/wire/json/read.cpp:286-291 | exactly a quoted string of hex that fills the width, decoded |
| JsonDecode.DecodedArray | src/wire/json/read.hpp:146-159 | no '[' fails `array`; the hundredth scope fails `maximum_depth`; a decoded array's elements conform |
| JsonDecode.Elements | src/wire/json/read.hpp:152-156 | the element loop's elements all conform, and it consumes input |
| JsonDecode.DecodedArrayUnfold | src/wire/json/read.hpp:146-159 | an array is '[', the depth check, then the element loop from round 0 |
| JsonDecode.ElementsUnfold | src/wire/json/read.hpp:152-156 | a separator error or ']' ends the loop; otherwise one element goes in front of the later rounds' |
| JsonDecode.EmptyArray | src/wire/json/read.hpp:146-159 | `[]` is the empty array |
| JsonDecode.DecodedObject | src/wire/json/read.hpp:222-257 | no '{' fails `object`; the hundredth scope fails `maximum_depth`; a decoded object conforms |
| JsonDecode.DecodedBody | src/wire/json/read.hpp:228-256 | after '{': a decoded object conforms to its schema and consumed input |
| JsonDecode.FirstUnread | src/wire/json/read.hpp:250-254 | the least index holding no value, or the length when every field was read |
| JsonDecode.FirstUnreadIsLeast | src/wire/json/read.hpp:250-254 | any unread index with every earlier one read is the first unread |
| JsonDecode.MissingKeyNamesFirstUnread | src/wire/json/read.hpp:250-254 | after the member loop the object succeeds exactly when every field was read; otherwise `missing_key` names the first field not read |
| JsonDecode.EmptyObject | src/wire/json/read.hpp:222-257 | `{}` fails `missing_key` naming the first field, or is the empty object when there are no fields |
| JsonDecode.NestingLimit | src/wire/json/read.cpp:190-194 | opening a scope with 99 already open fails with `maximum_depth` |
| JsonDecode.Assemble | src/wire/json/read.hpp:256 | member k of the struct is field k's name with the value read for it |
| JsonDecode.MemberRounds | src/wire/json/read.hpp:233-248 | the member loop keeps one value slot per field and consumes input; values that conform stay conforming |
| JsonDecode.MemberRoundsUnfold | src/wire/json/read.hpp:233-248 | an error or '}' ends the loop; otherwise the field read is stored and the loop goes on |
| JsonDecode.MemberRoundsKeepReads | src/wire/json/read.hpp:195-205 | a field read once keeps its first value to the end of the object |
| JsonDecode.ConformAfterRead | src/wire/json/read.hpp:195-205 | storing a conforming value keeps every slot conforming |
| JsonDecode.MemberRound | src/wire/json/read.hpp:235-247 | one round: '}' or a previously unread field whose name `key` matched, read at a point of the input, with a conforming value |
| JsonDecode.FoundMember | src/wire/json/read.hpp:195-205 | a field met twice fails with `invalid_key` "duplicate"; otherwise its value is read |
| ReadJson.ThrowException | src/wire/json/read.cpp:406-418 | the error carries `code` and the message `display` followed by the first non-null name |
| ReadJson.Tracker.NameIfMissing | src/wire/json/read.hpp:179-182 | the field name exactly when the field is unread |
| ReadJson.Tracker.constructor | src/wire/json/read.hpp:174-176 | holds the field at slot 0, unread |
| ReadJson.Tracker.SetMapping | src/wire/json/read.hpp:186-191 | claims the slot for the field name, changes no other slot, and returns the next slot |
| ReadJson.Tracker.TryRead | src/wire/json/read.hpp:195-205 | 0 for another slot; `invalid_key` "duplicate" for a second read; otherwise the value read and conforming, marked read, result 2 |
| ReadJson.MakeTrackers | src/wire/json/read.hpp:335 | one fresh unread tracker per descriptor, in order, all distinct |
| ReadJson.ExpandTrackerMap | src/wire/json/read.hpp:210-220 | tracker k owns slot k, whose name is field k's |
| ReadJson.Unread | src/wire/json/read.hpp:229 | the `required` count is at most the number of fields |
| ReadJson.UnreadMark | src/wire/json/read.hpp:243-244 | a first read decrements `required` by one |
| ReadJson.UnreadZero | src/wire/json/read.hpp:250 | `required` is zero exactly when every field has been read |
| ReadJson.UnreadNone | src/wire/json/read.hpp:229 | before any read, `required` is the number of fields |
| ReadJson.Dispatch | src/wire/json/read.hpp:237 | only the tracker owning the slot reads; its claim is 2 and the rest claim 0; a repeated field fails "duplicate" |
| ReadJson.Object | src/wire/json/read.hpp:222-257 | the result is `Decoded`'s for the object schema, errors included; on success the input left is `Decoded`'s and the depth is restored |
| ReadJson.ObjectBody | src/wire/json/read.hpp:228-256 | after '{': the result is `DecodedBody`'s, errors included; on success the depth is decremented once |
| ReadJson.Setup | src/wire/json/read.hpp:228-231 | one unread tracker per field, each owning the key table slot that holds its name; `required` is the number of fields |
| ReadJson.Conclude | src/wire/json/read.hpp:250-256 | `missing_key` naming the first unread field when one is left; otherwise the struct of all values read |
| ReadJson.MissingNames | src/wire/json/read.hpp:250-253 | `name_if_missing` of each tracker: the field's name exactly when it is unread |
| ReadJson.Collect | src/wire/json/read.hpp:256 | the destination's member k is field k with its tracker's value |
| ReadJson.Members | src/wire/json/read.hpp:233-248 | the outcome and the values read are `MemberRounds`'; the number left is the count of unread fields |
| ReadJson.Member | src/wire/json/read.hpp:235-247 | the outcome of one `MemberRound`: '}' with no tracker touched, or the field `key` found read by its tracker |
| ReadJson.ReadMember | src/wire/json/read.hpp:237-246 | the outcome of `FoundMember`: a duplicate fails, otherwise only the owning tracker reads the value |
| ReadJson.Array | src/wire/json/read.hpp:146-159 | the result is `Decoded`'s for the array schema, errors included; on success the input left is `Decoded`'s and the depth is restored |
| ReadJson.ArrayElements | src/wire/json/read.hpp:152-156 | the outcome and the input left are those of `Elements` |
| ReadJson.ElementRound | src/wire/json/read.hpp:152-156 | one pass: ']' or a failure ends with the whole loop's outcome; otherwise one element is appended and input consumed |
| ReadJson.ReadBytes | src/wire/json/read.hpp:303-336 | the overload chosen by the destination type yields `Decoded`'s result, errors included, and its input left |
| ReadJson.To | src/wire/json/read.hpp:133-143 | the result is `Decoded`'s at depth 0, and `check_complete` never rejects a successful decode |
| MoneroData.Memcmp | src/monero_data.cpp:53-56 | zero exactly when the bytes are equal, within a byte difference |
| MoneroData.Compare | src/monero_data.cpp:53-56 | zero exactly for equal hashes |
| MoneroData.MemcmpAntisymmetric | src/monero_data.cpp:53-56 | swapping the arguments negates the modelled byte difference exactly (C fixes only the sign, which therefore flips) |
| MoneroData.MemcmpLexicographic | src/monero_data.cpp:53-56 | the first differing byte decides the result and its sign |
| MoneroData.CompareProperties | src/monero_data.cpp:53-56 | `compare` is zero exactly on equal hashes and is antisymmetric |
| MoneroData.MinimalTxShape | src/monero_data.cpp:37-41 | a decoded `minimal_tx` is the one field `id`, a full hash |
| MoneroData.BlockShape | src/monero_data.cpp:48-51 | a decoded `block` is `tx_hashes` then `prev_id`, all hashes full width |
| MoneroData.ReadBlock | src/monero_data.cpp:48-51 | the result is `Decoded`'s for the block schema, errors included, and conforms on success |
| MoneroData.EmptyBlockMissesTxHashes | src/monero_data.cpp:48-51 | `{}` fails with `missing_key` naming `tx_hashes` |
| MoneroData.ReadMinimalTx | src/monero_data.cpp:46 | the result is `Decoded`'s for the `minimal_tx` schema, errors included, and conforms on success |
| MoneroData.EmptyMinimalTxMissesId | src/monero_data.cpp:37-41 | `{}` fails with `missing_key` naming `id` |
| Method.WriteGetInfoRequest | src/method.cpp:38-41 | the `get_info` request is `{}` |
| Method.WriteTransactionPoolRequest | src/method.cpp:61-64 | the `get_transaction_pool` request is `{}` |
| Method.GetInfoDataShape | src/method.cpp:42-55 | a decoded `get_info::data` has the eight fields in order: four 64-bit counters, the hash, three flags |
| Method.GetInfoResponseShape | src/method.cpp:56-59 | a decoded response is the single member `info` |
| Method.TxPoolResponseShape | src/method.cpp:69-72 | a decoded pool response is `transactions`, each entry a full `tx_hash` |
| Method.ReadGetInfoData | src/method.cpp:42-55 | the result is `Decoded`'s for `get_info::data`, errors included, and conforms on success |
| Method.EmptyGetInfoDataMissesHeight | src/method.cpp:42-55 | `{}` fails with `missing_key` naming `height` |
| Method.ReadGetInfoResponse | src/method.cpp:56-59 | the result is `Decoded`'s for `get_info::response`, errors included, and conforms on success |
| Method.EmptyGetInfoResponseMissesInfo | src/method.cpp:56-59 | `{}` fails with `missing_key` naming `info` |
| Method.ReadTxPoolEntry | src/method.cpp:65-68 | the result is `Decoded`'s for a pool entry, errors included, and conforms on success |
| Method.EmptyTxPoolEntryMissesTxHash | src/method.cpp:65-68 | `{}` fails with `missing_key` naming `tx_hash` |
| Method.ReadTxPoolResponse | src/method.cpp:69-72 | the result is `Decoded`'s for the pool response, errors included, and conforms on success |
| Method.EmptyTxPoolResponseMissesTransactions | src/method.cpp:69-72 | `{}` fails with `missing_key` naming `transactions` |
| RpcJson.NewRequest | src/rpc/json.hpp:16-18 | a new request has id 0, the method's name and the given parameters |
| RpcJson.RequestLayout | src/rpc/json.hpp:38-43 | the request object is `id`, `jsonrpc` "2.0", `method` (up to its NUL), `params`, in this order |
| RpcJson.RequestMemberTokens | src/rpc/json.hpp:42 | the four members' tokens in order |
| RpcJson.MemberTokensOfFour | src/wire/json/write.hpp:150-151 | four members are written one after the other |
| RpcJson.MemberTokensPush | src/wire/json/write.hpp:150-151 | one more member's tokens follow those of the others |
| RpcJson.PlainKeys | src/rpc/json.hpp:13 | no request key and not the version string holds a NUL |
| RpcJson.PlainFieldTokens | src/wire/json/write.hpp:105-111 | a member whose name has no NUL is keyed by the whole name |
| RpcJson.IdAndVersionTokens | src/rpc/json.hpp:42 | the `id` and `jsonrpc` members' tokens |
| RpcJson.MethodAndParamsTokens | src/rpc/json.hpp:42 | the `method` and `params` members' tokens |
| RpcJson.WriteRequest | src/rpc/json.hpp:38-43 | writing a request appends exactly that layout |
| RpcJson.GetInfoRequestLayout | src/rpc/json.hpp:26-43 | the `get_info` call is the eleven tokens of `{"id":0,"jsonrpc":"2.0","method":"get_info","params":{}}` |
| RpcJson.ResponseFields | src/rpc/json.hpp:56-60 | a response schema is `id` then `result`, and it is readable when the result is |
| RpcJson.ResponseShape | src/rpc/json.hpp:47-54 | a decoded response has an `unsigned` id and a conforming result |
| RpcJson.ReadResponse | src/rpc/json.hpp:56-60 | the result is `Decoded`'s for the envelope around the result type, errors included, and conforms on success |
| RpcJson.EmptyResponseMissesId | src/rpc/json.hpp:47-60 | `{}` fails with `missing_key` naming `id`, whatever the result type |
| Pub.Split | src/pub.cpp:39-49 | the topic has no ':'; with a ':' the topic, ':' and contents make the message; without one, all of it is contents |
| Pub.SplitOfJoin | src/pub.cpp:39-49 | joining a ':'-free topic and any contents with ':' splits back into both |
| Pub.Message.constructor | src/pub.cpp:39-49 | the message's topic and contents are those of `Split` |
| Pub.MinimalChainShape | src/pub.cpp:51-54 | a decoded `minimal_chain` has all three fields in order, with a 64-bit height and full-width hashes |
| Pub.ReadMinimalChain | src/pub.cpp:51-54 | the result is `Decoded`'s for `minimal_chain`, errors included, and conforms on success |
| Pub.EmptyMinimalChainMissesFirstHeight | src/pub.cpp:51-54 | `{}` fails with `missing_key` naming `first_height` |
| DisplayWindow.CharactersCenter | src/display/window.hpp:55-63 | exactly `value` cells starting at `(total - value) / 2`, which fits the line; a wider text wraps modulo 2^32 |
| DisplayWindow.PercentCenter | src/display/window.cpp:54-60 | the cell count is the clamped percentage of `total` rounded down, and the run is centred within the line; 100% or more fills it |
| DisplayWindow.Hundredths | src/display/window.cpp:57 | the quotient by 100 is the floor and does not exceed the line |
| DisplayWindow.Clamp | src/display/window.cpp:56 | `min(100, value)` |
| DisplayWindow.PercentCenterMonotone | src/display/window.cpp:54-60 | a larger percentage never gives fewer cells |
| DisplayWindow.WideProduct | src/display/window.cpp:57 | the `unsigned long long` product cannot overflow |

## Left out

- rapidjson's lexer is not modelled. Number lexing and escape decoding are behind the `Scanner` parameter. It is an oracle only constrained to report a well-formed result (a value length in the input, in-range integers).
- Floating point: `json_reader::real` and the handler's double event are left out (the value is not modelled; the `number` category is).
- The temporary string `temp_str_` is modelled only as a flag saying whether escaped (copied) strings are accepted.
- `WIRE_FIELD` stringifies a member name at compile time. Schemas here give the names directly.
- rapidjson's textual output (separators, escaping, number printing) and its debug assertions are left out. The writer is a sink of calls.
- Error message text is left out, except for the messages of `read_json::throw_exception`. The messages of `integer::throw_exception`, `check_complete` and `MOT_THROW` with `nullptr` have none. Categories and codes are all modelled.
- The key table's zero-initialised entries are modelled as empty names. The table is always filled completely first.
- The `default`/`case 0` ("bad map setup") arms of `read_json::object` are unreachable and are asserted so.
- The ncurses display, the ZMQ socket, the HTTP client, the render engine and threads are I/O and are left out.
- hex.hpp is not part of this model. Hex text is two digits per byte, high nibble first, lowercase on output, either case on input.
- monero_data.hpp is not part of this model. A hash is 32 bytes.
- Integer widths are those of LP64: `unsigned` is 32 bits, `unsigned long`, `unsigned long long` and the `intmax_t` pair are 64 bits, so the `unsigned long long` overload of `read_bytes` is the `unsigned long` one.
- A variadic expansion over fields (`fields.try_read(...)...`, `field(dest, fields)...`, `expand_tracker_map`) is modelled as a loop over a sequence of fields.
- WriteJson.Members: `wire::object` also fills a `dummy` array of the `field` results. The model keeps no such array, because nothing reads it.
- Bytes after the value `read_json::to` decodes are not examined: `check_complete` looks only at the depth, so trailing input is accepted as in the source.

## Findings

| source | as written | input that shows it | evidently intended | confidence | as-written member | corrected member |
|---|---|---|---|---|---|---|
| src/wire/json/read.cpp:254-261 | `json_reader::integer` passes a non-negative token to `convert_to<intmax_t>(uintmax_t)` (read.hpp:287). The common type is `uintmax_t`, in which `INTMAX_MIN` reads as 2^63, so every value below 2^63 fails as `larger_integer` | the JSON number `42` read through `integer()` | values up to `INTMAX_MAX` succeed unchanged; only larger ones fail, as `smaller_integer` | not executed | WireInteger.ConvertToRejectsFortyTwo, JsonReader.Reader.Integer | WireInteger.IntendedConvertTo, JsonReader.Reader.IntendedInteger |
