/**
 * JavaScript's number-to-string for integers (`id.toString()`) and the
 * global `parseInt(string)` with no radix argument.
 */
module Numbers {
  import opened Wrappers
  import opened Chars

  /** The value of `c` as a digit in base 36 (`0-9`, then letters either case), or 36. */
  function DigitValue(c: char): (d: nat)
    ensures d <= 36
    ensures IsDigit(c) ==> d == c as int - '0' as int
    ensures d < 10 <==> IsDigit(c)
  {
    if IsDigit(c) then c as int - '0' as int
    else if 'a' <= c <= 'z' then c as int - 'a' as int + 10
    else if 'A' <= c <= 'Z' then c as int - 'A' as int + 10
    else 36
  }

  /** Length of the longest prefix of `s` made of digits below `radix`. */
  function DigitPrefixLength(s: string, radix: nat): (n: nat)
    ensures n <= |s|
    ensures forall i :: 0 <= i < n ==> DigitValue(s[i]) < radix
    ensures n < |s| ==> DigitValue(s[n]) >= radix
  {
    if |s| == 0 || DigitValue(s[0]) >= radix then 0
    else 1 + DigitPrefixLength(s[1..], radix)
  }

  /** The value of a string of digits in base `radix`, most significant first. */
  function DigitsValue(s: string, radix: nat): nat
    requires forall i :: 0 <= i < |s| ==> DigitValue(s[i]) < radix
  {
    if |s| == 0 then 0
    else
      var prefix := s[..|s| - 1];
      assert forall i :: 0 <= i < |prefix| ==> prefix[i] == s[i];
      var v: nat := DigitsValue(prefix, radix);
      assert v * radix >= 0 by { NatProduct(v, radix); }
      v * radix + DigitValue(s[|s| - 1])
  }

  lemma NatProduct(a: nat, b: nat)
    ensures a * b >= 0
  {
  }

  /** Drops leading `\s` characters (`TrimString(..., start)`). */
  function TrimStart(s: string): (t: string)
    ensures t <= s || (|t| <= |s| && t == s[|s| - |t|..])
    ensures |t| > 0 ==> !IsWhitespace(t[0])
    ensures |s| > 0 && !IsWhitespace(s[0]) ==> t == s
  {
    if |s| > 0 && IsWhitespace(s[0]) then TrimStart(s[1..]) else s
  }

  /** Takes an optional leading sign: whether it was '-', and the rest. */
  function SplitSign(t: string): (r: (bool, string))
    ensures r.1 == if |t| > 0 && (t[0] == '-' || t[0] == '+') then t[1..] else t
    ensures r.0 <==> |t| > 0 && t[0] == '-'
  {
    if |t| > 0 && (t[0] == '-' || t[0] == '+') then (t[0] == '-', t[1..]) else (false, t)
  }

  /** With no radix argument, "0x" or "0X" selects base 16 and is dropped; otherwise base 10. */
  function RadixPrefix(u: string): (r: (nat, string))
    ensures r.0 == 16 || r.0 == 10
    ensures r.0 == 16 <==> |u| >= 2 && u[0] == '0' && (u[1] == 'x' || u[1] == 'X')
    ensures r.1 == if r.0 == 16 then u[2..] else u
  {
    if |u| >= 2 && u[0] == '0' && (u[1] == 'x' || u[1] == 'X') then (16, u[2..]) else (10, u)
  }

  /** The value of the longest digit prefix, or `None` when it is empty. */
  function ParseDigits(body: string, radix: nat): (r: Option<nat>)
    ensures r.None? <==> DigitPrefixLength(body, radix) == 0
  {
    var n := DigitPrefixLength(body, radix);
    if n == 0 then None else Some(DigitsValue(body[..n], radix))
  }

  /**
   * `parseInt(s)`: skip leading whitespace, take an optional sign, read "0x"/"0X"
   * as a switch to base 16, then read the longest run of digits; `None` is NaN.
   */
  function ParseInt(s: string): (r: Option<int>)
  {
    var (negative, unsigned) := SplitSign(TrimStart(s));
    var (radix, body) := RadixPrefix(unsigned);
    match ParseDigits(body, radix)
    case None => None
    case Some(v) => Some(if negative then 0 - v else v)
  }

  /** The decimal digits of `n`, most significant first (`Number.prototype.toString`). */
  function NatToString(n: nat): (s: string)
    ensures |s| >= 1
    ensures forall i :: 0 <= i < |s| ==> IsDigit(s[i])
    ensures |s| > 1 ==> s[0] != '0'
  {
    var d := ['0' + (n % 10) as char];
    if n < 10 then d else NatToString(n / 10) + d
  }

  /** `n.toString()` for an integer. */
  function IntToString(n: int): string {
    if n < 0 then "-" + NatToString(-n) else NatToString(n)
  }

  lemma {:induction false} DigitsValueOfNatToString(n: nat)
    ensures DigitsValue(NatToString(n), 10) == n
  {
    var s := NatToString(n);
    if n >= 10 {
      DigitsValueOfNatToString(n / 10);
      assert s[..|s| - 1] == NatToString(n / 10);
    }
  }

  /** Reading back a rendered integer with `parseInt` gives the integer. */
  lemma {:induction false} ParseIntOfIntToString(n: int)
    ensures ParseInt(IntToString(n)) == Some(n)
  {
    var s := IntToString(n);
    var m: nat := if n < 0 then -n else n;
    var digits := NatToString(m);
    assert TrimStart(s) == s;
    assert SplitSign(s) == (n < 0, digits);
    assert RadixPrefix(digits) == (10, digits);
    assert DigitPrefixLength(digits, 10) == |digits|;
    assert digits[..|digits|] == digits;
    DigitsValueOfNatToString(m);
  }

  /** The digit prefix of `d + j` is `d` when `d` is all digits and `j` does not start with one. */
  lemma {:induction false} DigitPrefixOfConcat(d: string, j: string, radix: nat)
    requires forall i :: 0 <= i < |d| ==> DigitValue(d[i]) < radix
    requires |j| > 0 ==> DigitValue(j[0]) >= radix
    ensures DigitPrefixLength(d + j, radix) == |d|
    ensures (d + j)[..|d|] == d
  {
    if |d| > 0 {
      assert (d + j)[1..] == d[1..] + j;
      DigitPrefixOfConcat(d[1..], j, radix);
    } else {
      assert d + j == j;
    }
  }

  /**
   * Everything after the leading decimal digits is ignored: `parseInt(d + j)`
   * is the value of `d` whenever `j` does not start with a digit (and the
   * two do not spell a "0x" prefix).
   */
  lemma {:induction false} TrailingJunkIgnored(d: string, j: string)
    requires |d| >= 1 && forall i :: 0 <= i < |d| ==> IsDigit(d[i])
    requires |j| > 0 ==> DigitValue(j[0]) >= 10
    requires !(d == "0" && |j| > 0 && (j[0] == 'x' || j[0] == 'X'))
    ensures ParseInt(d + j) == Some(DigitsValue(d, 10))
  {
    var s := d + j;
    assert s[0] == d[0];
    assert TrimStart(s) == s;
    assert SplitSign(s) == (false, s);
    assert |s| >= 2 ==> s[1] == (if |d| >= 2 then d[1] else j[0]);
    assert RadixPrefix(s) == (10, s);
    DigitPrefixOfConcat(d, j, 10);
  }

  /**
   * Without a radix argument a "0x" or "0X" prefix switches to base 16: the
   * hex digits after it are read, and whatever follows them is ignored.
   */
  lemma {:induction false} HexPrefixRead(x: char, h: string, j: string)
    requires x == 'x' || x == 'X'
    requires |h| >= 1 && forall i :: 0 <= i < |h| ==> DigitValue(h[i]) < 16
    requires |j| > 0 ==> DigitValue(j[0]) >= 16
    ensures ParseInt(['0', x] + h + j) == Some(DigitsValue(h, 16))
  {
    var s := ['0', x] + h + j;
    assert TrimStart(s) == s;
    assert SplitSign(s) == (false, s);
    assert s[2..] == h + j;
    assert RadixPrefix(s) == (16, h + j);
    DigitPrefixOfConcat(h, j, 16);
  }

  /** A string that starts with no digit is NaN. */
  lemma NoLeadingDigitIsNaN(s: string)
    requires |s| > 0 && DigitValue(s[0]) >= 10
    requires !IsWhitespace(s[0]) && s[0] != '-' && s[0] != '+'
    ensures ParseInt(s) == None
  {
    assert TrimStart(s) == s;
  }
}
