/** JavaScript's global `parseInt(string)` called without a radix, as the
    check-in handler uses it on the text of the mileage and fuel inputs,
    and the `||` fallback applied to its result. */
module JsNumber {
  import opened FleetTypes

  /** The characters `parseInt` skips before the number: the ECMAScript
      WhiteSpace and LineTerminator code points. */
  predicate IsJsWhitespace(c: char) {
    var k := c as int;
    || k == 0x09 || k == 0x0A || k == 0x0B || k == 0x0C || k == 0x0D || k == 0x20
    || k == 0xA0 || k == 0x1680 || (0x2000 <= k <= 0x200A)
    || k == 0x2028 || k == 0x2029 || k == 0x202F || k == 0x205F || k == 0x3000 || k == 0xFEFF
  }

  /** The value of `c` as a digit in any radix up to 36 ('0'-'9', then
      letters of either case); 36 for a character that is no digit. */
  function DigitValue(c: char): (d: nat)
    ensures d <= 36
  {
    if '0' <= c <= '9' then (c as int - '0' as int)
    else if 'a' <= c <= 'z' then (c as int - 'a' as int) + 10
    else if 'A' <= c <= 'Z' then (c as int - 'A' as int) + 10
    else 36
  }

  predicate IsDigitIn(c: char, radix: nat) {
    DigitValue(c) < radix
  }

  /** `s` without its leading whitespace. */
  function TrimStart(s: string): (t: string)
    ensures |t| <= |s| && t == s[|s| - |t|..]
    ensures forall i :: 0 <= i < |s| - |t| ==> IsJsWhitespace(s[i])
    ensures t == [] || !IsJsWhitespace(t[0])
  {
    if s != [] && IsJsWhitespace(s[0]) then TrimStart(s[1..]) else s
  }

  /** Length of the longest prefix of `s` made of digits of `radix`. */
  function DigitPrefixLength(s: string, radix: nat): (n: nat)
    ensures n <= |s|
    ensures forall i :: 0 <= i < n ==> IsDigitIn(s[i], radix)
    ensures n < |s| ==> !IsDigitIn(s[n], radix)
  {
    if s != [] && IsDigitIn(s[0], radix) then 1 + DigitPrefixLength(s[1..], radix) else 0
  }

  /** The number that the digit string `ds` denotes in `radix`, most significant digit first. */
  function DigitsValue(ds: string, radix: nat): nat {
    if ds == [] then 0 else DigitsValue(ds[..|ds| - 1], radix) * radix + DigitValue(ds[|ds| - 1])
  }

  /** The unsigned part of `parseInt`: a "0x" or "0X" prefix switches to
      radix 16, then the longest digit prefix is read; `None` when there
      is no digit. */
  function ParseMagnitude(u: string): Option<nat> {
    var hex := |u| >= 2 && u[0] == '0' && (u[1] == 'x' || u[1] == 'X');
    var radix := if hex then 16 else 10;
    var body := if hex then u[2..] else u;
    var n := DigitPrefixLength(body, radix);
    if n == 0 then None else Some(DigitsValue(body[..n], radix))
  }

  /** What `parseInt` reads once the whitespace is skipped: one optional
      sign, then the magnitude. A negative zero is the integer 0. */
  function ParseSigned(t: string): Option<int> {
    var negative := t != [] && t[0] == '-';
    var u := if t != [] && (t[0] == '+' || t[0] == '-') then t[1..] else t;
    match ParseMagnitude(u)
    case None => None
    case Some(m) => Some(if negative then -(m as int) else m)
  }

  /** `parseInt(s)`; `None` stands for NaN (no digit at all). */
  function ParseInt(s: string): Option<int> {
    ParseSigned(TrimStart(s))
  }

  /** JavaScript `parsed || fallback` for a number: NaN and 0 are falsy,
      so they yield the fallback; any other number is kept. */
  function OrIfFalsy(parsed: Option<int>, fallback: int): (r: int)
    ensures r == fallback || (parsed == Some(r) && r != 0)
    ensures parsed.Some? && parsed.value != 0 ==> r == parsed.value
  {
    if parsed.Some? && parsed.value != 0 then parsed.value else fallback
  }

  /** The decimal digit for `k`. */
  function DigitChar(k: nat): (c: char)
    requires k < 10
    ensures IsDigitIn(c, 10) && DigitValue(c) == k
  {
    ('0' as int + k) as char
  }

  /** Decimal rendering of a natural number, without leading zeros: a
      reference against which `ParseInt` is checked. */
  function Decimal(n: nat): string {
    if n < 10 then [DigitChar(n)] else Decimal(n / 10) + [DigitChar(n % 10)]
  }

  /** Decimal rendering of an integer, with a '-' for negatives. */
  function Render(n: int): string {
    if n < 0 then "-" + Decimal(-n) else Decimal(n)
  }

  /** `Decimal(n)` is a non-empty decimal digit string denoting `n`, and it
      starts with '0' only when it is "0". */
  lemma {:induction false} DecimalDenotes(n: nat)
    ensures |Decimal(n)| >= 1
    ensures forall i :: 0 <= i < |Decimal(n)| ==> IsDigitIn(Decimal(n)[i], 10)
    ensures DigitsValue(Decimal(n), 10) == n
    ensures Decimal(n)[0] == '0' ==> n == 0 && |Decimal(n)| == 1
  {
    if n >= 10 {
      DecimalDenotes(n / 10);
      var d := Decimal(n);
      assert d[..|d| - 1] == Decimal(n / 10);
      assert d[0] == Decimal(n / 10)[0];
    }
  }

  /** A maximal digit prefix is the one `DigitPrefixLength` finds. */
  lemma DigitPrefixLengthExact(s: string, radix: nat, k: nat)
    requires k <= |s|
    requires forall i :: 0 <= i < k ==> IsDigitIn(s[i], radix)
    requires k == |s| || !IsDigitIn(s[k], radix)
    ensures DigitPrefixLength(s, radix) == k
  {
  }

  /** The magnitude read from a decimal rendering followed by text that
      does not continue the number. */
  lemma MagnitudeOfDecimal(m: nat, rest: string)
    requires rest == [] || !IsDigitIn(rest[0], 10)
    requires m != 0 || rest == [] || (rest[0] != 'x' && rest[0] != 'X')
    ensures ParseMagnitude(Decimal(m) + rest) == Some(m)
    ensures Decimal(m) != [] && IsDigitIn(Decimal(m)[0], 10)
  {
    var d := Decimal(m);
    DecimalDenotes(m);
    var u := d + rest;
    assert u[0] == d[0];
    assert |d| == 1 ==> |u| < 2 || u[1] == rest[0];
    forall i | 0 <= i < |d| ensures IsDigitIn(u[i], 10) {
      assert u[i] == d[i];
    }
    DigitPrefixLengthExact(u, 10, |d|);
    assert u[..|d|] == d;
  }

  /** `parseInt` reads back the decimal rendering of any integer, also
      when other text follows the number, provided that text does not
      start with a digit and (after a lone "0") not with 'x' or 'X'. */
  lemma ParseIntReadsRendering(n: int, rest: string)
    requires rest == [] || !IsDigitIn(rest[0], 10)
    requires n != 0 || rest == [] || (rest[0] != 'x' && rest[0] != 'X')
    ensures ParseInt(Render(n) + rest) == Some(n)
  {
    if n < 0 {
      NegativeReadsRendering(n, rest);
    } else {
      NaturalReadsRendering(n, rest);
    }
  }

  /** The negative half of `ParseIntReadsRendering`. */
  lemma NegativeReadsRendering(n: int, rest: string)
    requires n < 0
    requires rest == [] || !IsDigitIn(rest[0], 10)
    ensures ParseInt(Render(n) + rest) == Some(n)
  {
    var m: nat := -n;
    var u := Decimal(m) + rest;
    assert ParseMagnitude(u) == Some(m) by { MagnitudeOfDecimal(m, rest); }
    RenderNegative(n, rest);
    SignedNegative(Render(n) + rest, u, m);
  }

  /** The non-negative half of `ParseIntReadsRendering`. */
  lemma NaturalReadsRendering(m: nat, rest: string)
    requires rest == [] || !IsDigitIn(rest[0], 10)
    requires m != 0 || rest == [] || (rest[0] != 'x' && rest[0] != 'X')
    ensures ParseInt(Render(m) + rest) == Some(m)
  {
    var u := Decimal(m) + rest;
    MagnitudeOfDecimal(m, rest);
    assert Render(m) + rest == u && u[0] == Decimal(m)[0];
    DecimalDigitIsPlain(u[0]);
    SignedUnsigned(u, m);
  }

  /** The rendering of a negative number is '-' and the rendering of its magnitude. */
  lemma RenderNegative(n: int, rest: string)
    requires n < 0
    ensures Render(n) + rest == "-" + (Decimal(-n) + rest)
  {
    assert Render(n) == "-" + Decimal(-n);
  }

  /** Text that starts with '-' followed by a magnitude parses to its negation. */
  lemma SignedNegative(s: string, u: string, m: nat)
    requires s == "-" + u
    requires ParseMagnitude(u) == Some(m)
    ensures ParseInt(s) == Some(-(m as int))
  {
    assert s[0] == '-';
    NoLeadingWhitespace(s);
    SignedMinus(s, u, m);
  }

  /** Text that does not start with whitespace is its own trimmed form. */
  lemma NoLeadingWhitespace(s: string)
    requires s != [] && !IsJsWhitespace(s[0])
    ensures TrimStart(s) == s
  {
  }

  /** A '-' and a magnitude give the negated magnitude. */
  lemma SignedMinus(s: string, u: string, m: nat)
    requires s == "-" + u
    requires ParseMagnitude(u) == Some(m)
    ensures ParseSigned(s) == Some(-(m as int))
  {
    assert s[0] == '-' && s[1..] == u;
  }

  /** Text that starts with a magnitude, not with whitespace or a sign,
      parses to that magnitude. */
  lemma SignedUnsigned(u: string, m: nat)
    requires ParseMagnitude(u) == Some(m)
    requires u != [] && !IsJsWhitespace(u[0]) && u[0] != '-' && u[0] != '+'
    ensures ParseInt(u) == Some(m)
  {
    assert TrimStart(u) == u;
  }

  /** A decimal digit is neither whitespace nor a sign. */
  lemma DecimalDigitIsPlain(c: char)
    requires IsDigitIn(c, 10)
    ensures !IsJsWhitespace(c) && c != '-' && c != '+'
  {
  }

  /** The round trip: `parseInt` of an integer's decimal rendering is that integer. */
  lemma ParseIntRoundTrip(n: int)
    ensures ParseInt(Render(n)) == Some(n)
  {
    ParseIntReadsRendering(n, []);
    assert Render(n) + [] == Render(n);
  }

  /** Text with no decimal digit in it parses to NaN: "", "abc", "-", " ". */
  lemma ParseIntWithoutDigits(s: string)
    requires forall i :: 0 <= i < |s| ==> !IsDigitIn(s[i], 10)
    ensures ParseInt(s) == None
  {
    var t := TrimStart(s);
    assert forall i :: 0 <= i < |t| ==> !IsDigitIn(t[i], 10) by {
      assert forall i :: 0 <= i < |t| ==> t[i] == s[|s| - |t| + i];
    }
    SignedWithoutDigits(t);
  }

  /** After the whitespace: an optional sign and no digit give NaN. */
  lemma SignedWithoutDigits(t: string)
    requires forall i :: 0 <= i < |t| ==> !IsDigitIn(t[i], 10)
    ensures ParseSigned(t) == None
  {
    var u := if t != [] && (t[0] == '+' || t[0] == '-') then t[1..] else t;
    assert u == [] || !IsDigitIn(u[0], 10);
    MagnitudeWithoutDigits(u);
  }

  /** Without a leading decimal digit there is neither a "0x" prefix nor a
      decimal digit to read. */
  lemma MagnitudeWithoutDigits(u: string)
    requires u == [] || !IsDigitIn(u[0], 10)
    ensures ParseMagnitude(u) == None
  {
    if u != [] {
      assert u[0] != '0';
    }
  }

  /** Whitespace in front of the text does not change what it parses to. */
  lemma {:induction false} ParseIntSkipsWhitespace(c: char, s: string)
    requires IsJsWhitespace(c)
    ensures ParseInt([c] + s) == ParseInt(s)
  {
    assert ([c] + s)[1..] == s;
    assert TrimStart([c] + s) == TrimStart(s);
  }
}
