/** Byte strings as the C++ code sees them: `span<const std::uint8_t>`,
    `const char*` names and the C library helpers `strlen` and `memchr`. */
module Bytes {

  /** One octet. Modelled as a character below 256 so that JSON punctuation
      and field names can be written as literals. */
  type byte = c: char | c as int < 256

  const Nul: byte := '\0'

  /** `std::strlen`: the length of the C string stored in `s`, i.e. the
      number of bytes before the first NUL (or all of `s` if it has none). */
  function Strlen(s: seq<byte>): (n: nat)
    ensures n <= |s|
    ensures forall i :: 0 <= i < n ==> s[i] != Nul
    ensures n < |s| ==> s[n] == Nul
  {
    if |s| == 0 || s[0] == Nul then 0 else 1 + Strlen(s[1..])
  }

  /** The bytes a `const char*` denotes: everything before the first NUL. */
  function CString(s: seq<byte>): (r: seq<byte>)
    ensures Nul !in r
    ensures r <= s
    ensures Nul !in s ==> r == s
  {
    s[..Strlen(s)]
  }

  /** `std::memchr`: the index of the first `b` in `s`, or `|s|` when `s`
      holds no `b` (where `memchr` returns null). */
  function IndexOfByte(s: seq<byte>, b: byte): (i: nat)
    ensures i <= |s|
    ensures i < |s| ==> s[i] == b
    ensures forall j :: 0 <= j < i ==> s[j] != b
    ensures i == |s| <==> b !in s
  {
    if |s| == 0 then 0
    else if s[0] == b then 0
    else 1 + IndexOfByte(s[1..], b)
  }
}
