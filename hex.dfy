/** The hexadecimal form of fixed-width binary fields: two characters per
    byte, most significant nibble first (`to_hex::array` writes lower case,
    `from_hex::to_buffer` also reads upper case). */
module Hex {
  import opened Wrappers
  import opened Bytes

  function HexDigit(n: nat): (c: byte)
    requires n < 16
    ensures IsHexDigit(c) && DigitValue(c) == n
  {
    if n < 10 then ('0' as int + n) as char else ('a' as int + n - 10) as char
  }

  predicate IsHexDigit(c: byte) {
    '0' <= c <= '9' || 'a' <= c <= 'f' || 'A' <= c <= 'F'
  }

  function DigitValue(c: byte): (n: nat)
    requires IsHexDigit(c)
    ensures n < 16
  {
    if '0' <= c <= '9' then c as int - '0' as int
    else if 'a' <= c <= 'f' then c as int - 'a' as int + 10
    else c as int - 'A' as int + 10
  }

  /** `to_hex::array`: every byte becomes two lowercase hex digits. */
  function ToHex(bytes: seq<byte>): (text: seq<byte>)
    ensures |text| == 2 * |bytes|
    ensures forall i :: 0 <= i < |text| ==> IsHexDigit(text[i]) && !('A' <= text[i] <= 'F')
  {
    if |bytes| == 0 then []
    else
      var b := bytes[0] as int;
      [HexDigit(b / 16), HexDigit(b % 16)] + ToHex(bytes[1..])
  }

  predicate AllHex(text: seq<byte>) {
    forall i :: 0 <= i < |text| ==> IsHexDigit(text[i])
  }

  function DecodePairs(text: seq<byte>): (bytes: seq<byte>)
    requires |text| % 2 == 0 && AllHex(text)
    ensures |bytes| * 2 == |text|
  {
    if |text| == 0 then []
    else [(DigitValue(text[0]) * 16 + DigitValue(text[1])) as char] + DecodePairs(text[2..])
  }

  /** `from_hex::to_buffer(dest, text)` for a `dest` of `width` bytes: it
      fills `dest` exactly when `text` is twice as long as `dest` and made of
      hex digits only. */
  function FromHex(text: seq<byte>, width: nat): (r: Option<seq<byte>>)
    ensures r.Some? <==> |text| == 2 * width && AllHex(text)
    ensures r.Some? ==> |r.value| == width
  {
    if |text| == 2 * width && AllHex(text) then Some(DecodePairs(text)) else None
  }

  /** Decoding what `to_hex` wrote gives back the original bytes. */
  lemma {:induction false} FromHexOfToHex(bytes: seq<byte>)
    ensures FromHex(ToHex(bytes), |bytes|) == Some(bytes)
  {
    DecodePairsOfToHex(bytes);
  }

  lemma {:induction false} DecodePairsOfToHex(bytes: seq<byte>)
    ensures DecodePairs(ToHex(bytes)) == bytes
  {
    if |bytes| > 0 {
      var t := ToHex(bytes);
      assert t[2..] == ToHex(bytes[1..]);
      DecodePairsOfToHex(bytes[1..]);
      var b := bytes[0] as int;
      assert DigitValue(t[0]) * 16 + DigitValue(t[1]) == b;
    }
  }

  /** Encoding what `from_hex` accepted gives back the text, up to case: the
      hex form of a byte string is unique apart from letter case. */
  lemma {:induction false} ToHexOfFromHex(text: seq<byte>, width: nat)
    requires FromHex(text, width).Some?
    ensures |ToHex(FromHex(text, width).value)| == |text|
    ensures forall i :: 0 <= i < |text| ==>
      DigitValue(ToHex(FromHex(text, width).value)[i]) == DigitValue(text[i])
  {
    ToHexOfDecodePairs(text);
  }

  lemma {:induction false} ToHexOfDecodePairs(text: seq<byte>)
    requires |text| % 2 == 0 && AllHex(text)
    ensures |ToHex(DecodePairs(text))| == |text|
    ensures forall i :: 0 <= i < |text| ==> DigitValue(ToHex(DecodePairs(text))[i]) == DigitValue(text[i])
  {
    if |text| > 0 {
      var rest := text[2..];
      ToHexOfDecodePairs(rest);
      var d := DecodePairs(text);
      var hi, lo := DigitValue(text[0]), DigitValue(text[1]);
      assert d[0] as int == hi * 16 + lo;
      assert d[1..] == DecodePairs(rest);
      NibblesOf(hi, lo);
      var h := ToHex(d);
      assert h == [HexDigit(hi), HexDigit(lo)] + ToHex(DecodePairs(rest));
    }
  }

  lemma NibblesOf(hi: nat, lo: nat)
    requires hi < 16 && lo < 16
    ensures (hi * 16 + lo) / 16 == hi && (hi * 16 + lo) % 16 == lo
  {
  }
}
