/** `std::stoi` on a token, as the two parsers call it: with base 0
    (parser.hpp:44), where a `0x` prefix selects hexadecimal and a leading
    `0` octal (section 7.22.1.4 of ISO C11), and with the default base 10
    (parser_struct.hpp:41).  Conversion reads the longest prefix of digits
    of the base and ignores what follows; no digit at all, or a value above
    `INT_MAX`, is an error. */
module Conversion {
  import opened Wrappers
  import opened Text

  const IntMax: int := 0x7FFF_FFFF

  /** The base argument of the call. */
  datatype Base = Detect | Ten

  predicate IsHexLetter(c: char) {
    'a' <= c <= 'f' || 'A' <= c <= 'F'
  }

  /** `c` is a digit of `radix` (8, 10 or 16). */
  predicate IsDigitOf(c: char, radix: nat) {
    if radix == 16 then IsDigit(c) || IsHexLetter(c)
    else IsDigit(c) && DigitValue(c) < radix
  }

  function ValueOfDigit(c: char, radix: nat): (d: nat)
    requires IsDigitOf(c, radix)
    ensures d < radix || (radix < 10 && d < 10)
  {
    if IsDigit(c) then DigitValue(c)
    else if 'a' <= c <= 'f' then (c - 'a') as nat + 10
    else (c - 'A') as nat + 10
  }

  /** The length of the longest prefix of `s` made of digits of `radix`. */
  function Span(s: string, radix: nat): (k: nat)
    ensures k <= |s|
    ensures forall i :: 0 <= i < k ==> IsDigitOf(s[i], radix)
    ensures k < |s| ==> !IsDigitOf(s[k], radix)
  {
    if s == [] || !IsDigitOf(s[0], radix) then 0 else 1 + Span(s[1..], radix)
  }

  /** The value of a string of digits of `radix`, most significant first. */
  function ValueOf(s: string, radix: nat): nat
    requires forall i :: 0 <= i < |s| ==> IsDigitOf(s[i], radix)
  {
    if s == [] then 0 else ValueOf(s[..|s| - 1], radix) * radix + ValueOfDigit(s[|s| - 1], radix)
  }

  /** The conversion of the digits of `radix` at the head of `s`. */
  function Convert(s: string, radix: nat): (r: Option<int>)
    ensures r.Some? ==> 0 <= r.value <= IntMax
  {
    var k := Span(s, radix);
    if k == 0 then None
    else
      var v := ValueOf(s[..k], radix);
      if v > IntMax then None else Some(v)
  }

  /** `std::stoi(tok, …, base)`: `None` where it throws. */
  function Stoi(tok: string, base: Base): (r: Option<int>)
    ensures r.Some? ==> 0 <= r.value <= IntMax
  {
    match base
    case Ten => Convert(tok, 10)
    case Detect =>
      if |tok| >= 3 && tok[0] == '0' && (tok[1] == 'x' || tok[1] == 'X') && IsDigitOf(tok[2], 16) then
        Convert(tok[2..], 16)
      else if tok != [] && tok[0] == '0' then Convert(tok, 8)
      else Convert(tok, 10)
  }

  lemma {:induction false} ValueOfNatToString(n: nat)
    ensures forall i :: 0 <= i < |NatToString(n)| ==> IsDigitOf(NatToString(n)[i], 10)
    ensures ValueOf(NatToString(n), 10) == n
    decreases n
  {
    var s := NatToString(n);
    if n >= 10 {
      ValueOfNatToString(n / 10);
      assert s[..|s| - 1] == NatToString(n / 10);
    }
  }

  /** The digits of `n` followed by anything that does not start with a
      digit are read back as `n`. */
  lemma {:induction false} SpanDigits(d: string, junk: string, radix: nat)
    requires forall i :: 0 <= i < |d| ==> IsDigitOf(d[i], radix)
    requires junk == [] || !IsDigitOf(junk[0], radix)
    ensures Span(d + junk, radix) == |d|
  {
    if d == [] {
      assert d + junk == junk;
    } else {
      assert (d + junk)[1..] == d[1..] + junk;
      SpanDigits(d[1..], junk, radix);
    }
  }

  /** Base 10 reads back what `std::to_string` prints, up to `INT_MAX`, and
      stops at the first character that is not a digit. */
  lemma DecimalRoundTrip(n: nat, junk: string)
    requires n <= IntMax
    requires junk == [] || !IsDigit(junk[0])
    ensures Stoi(NatToString(n) + junk, Ten) == Some(n)
  {
    var d := NatToString(n);
    ValueOfNatToString(n);
    SpanDigits(d, junk, 10);
    assert (d + junk)[..|d|] == d;
  }

  /** Base detection reads back what `std::to_string` prints too: a
      non-zero number does not start with `0`, and `0` is the octal zero. */
  lemma DetectRoundTrip(n: nat)
    requires n <= IntMax
    ensures Stoi(NatToString(n), Detect) == Some(n)
  {
    var d := NatToString(n);
    ValueOfNatToString(n);
    SpanDigits(d, [], 10);
    assert d + [] == d;
    if d[0] == '0' {
      assert d == "0";
      assert Span(d, 8) == 1;
      assert d[..1] == d;
      assert ValueOf(d, 8) == 0;
    } else {
      assert d[..|d|] == d;
    }
  }

  /** Different numbers print differently. */
  lemma NatToStringInjective(m: nat, n: nat)
    requires NatToString(m) == NatToString(n)
    ensures m == n
  {
    ValueOfNatToString(m);
    ValueOfNatToString(n);
  }

  /** Where the two bases disagree: `017` is fifteen with base detection
      and seventeen in base 10. */
  lemma OctalDiffers()
    ensures Stoi("017", Detect) == Some(15) && Stoi("017", Ten) == Some(17)
  {
    assert Span("017", 8) == 3;
    assert "017"[..3] == "017" && "017"[..2] == "01" && "01"[..1] == "0";
    assert ValueOf("017", 8) == 15;
    assert Span("017", 10) == 3;
    assert ValueOf("017", 10) == 17;
  }

  /** `0x1F` is thirty-one with base detection and zero in base 10, which
      stops at the `x`. */
  lemma HexDiffers()
    ensures Stoi("0x1F", Detect) == Some(31) && Stoi("0x1F", Ten) == Some(0)
  {
    assert "0x1F"[2..] == "1F";
    assert Span("1F", 16) == 2;
    assert "1F"[..2] == "1F" && "1F"[..1] == "1";
    assert ValueOf("1F", 16) == 31;
    assert Span("0x1F", 10) == 1;
    assert "0x1F"[..1] == "0";
    assert ValueOf("0", 10) == 0;
  }

  /** A value beyond `INT_MAX` is out of range and throws. */
  lemma OutOfRange()
    ensures Stoi("2147483648", Ten) == None
  {
    var d := "2147483648";
    ValueOfNatToString(2147483648);
    assert NatToString(2147483648) == d;
    SpanDigits(d, [], 10);
    assert d + [] == d && d[..10] == d;
  }
}
