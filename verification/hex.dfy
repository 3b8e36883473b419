/** `Buffer.prototype.toString("hex")`: two lower-case hex digits per byte, high nibble first. */
module Hex {
  import opened Wrappers

  newtype byte = x: int | 0 <= x < 256

  /** The alphabet of the hex encoding: `0-9`, then `a-f`. */
  predicate IsLowerHexDigit(c: char) {
    '0' <= c <= '9' || 'a' <= c <= 'f'
  }

  /** The digit for a nibble. */
  function NibbleChar(n: int): (c: char)
    requires 0 <= n < 16
    ensures IsLowerHexDigit(c)
  {
    if n < 10 then ('0' as int + n) as char else ('a' as int + n - 10) as char
  }

  /** The inverse of `NibbleChar`. */
  function NibbleValue(c: char): (r: Option<int>)
    ensures r.Some? ==> 0 <= r.value < 16 && NibbleChar(r.value) == c
    ensures r.Some? <==> IsLowerHexDigit(c)
  {
    if '0' <= c <= '9' then Some(c as int - '0' as int)
    else if 'a' <= c <= 'f' then Some(c as int - 'a' as int + 10)
    else None
  }

  /** `bytes.toString("hex")`. */
  function ToHex(bytes: seq<byte>): (s: string)
    ensures |s| == 2 * |bytes|
    ensures forall i :: 0 <= i < |s| ==> IsLowerHexDigit(s[i])
  {
    if |bytes| == 0 then ""
    else [NibbleChar(bytes[0] as int / 16), NibbleChar(bytes[0] as int % 16)] + ToHex(bytes[1..])
  }

  /** Decodes a lower-case hex string of even length back to bytes. */
  function FromHex(s: string): Option<seq<byte>>
    decreases |s|
  {
    if |s| == 0 then Some([])
    else if |s| == 1 then None
    else
      var hi :- NibbleValue(s[0]);
      var lo :- NibbleValue(s[1]);
      var rest :- FromHex(s[2..]);
      Some([(hi * 16 + lo) as byte] + rest)
  }

  lemma NibbleRoundTrip(n: int)
    requires 0 <= n < 16
    ensures NibbleValue(NibbleChar(n)) == Some(n)
  {
  }

  /** Decoding the hex rendering gives back the bytes. */
  lemma {:induction false} FromHexToHex(bytes: seq<byte>)
    ensures FromHex(ToHex(bytes)) == Some(bytes)
  {
    if |bytes| > 0 {
      var b := bytes[0] as int;
      var hi, lo := NibbleChar(b / 16), NibbleChar(b % 16);
      var rest := ToHex(bytes[1..]);
      var s := ToHex(bytes);
      assert s == [hi, lo] + rest;
      assert s[0] == hi && s[1] == lo && s[2..] == rest;
      NibbleRoundTrip(b / 16);
      NibbleRoundTrip(b % 16);
      FromHexToHex(bytes[1..]);
      assert (b / 16 * 16 + b % 16) as byte == bytes[0];
      assert bytes == [bytes[0]] + bytes[1..];
    }
  }
}
