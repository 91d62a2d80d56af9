/** Positional numerals: the digits of a natural number in a base, and the
    decimal and lower-case hexadecimal text Python prints for it. */
module Numerals {
  import opened Wrappers

  /** The digits of `n` in `base`, most significant first; zero is the single digit 0. */
  function ToDigits(n: nat, base: nat): (ds: seq<nat>)
    requires base >= 2
    ensures |ds| >= 1
    ensures forall k :: 0 <= k < |ds| ==> ds[k] < base
    ensures n > 0 ==> ds[0] > 0
    decreases n
  {
    if n < base then [n]
    else
      DivStep(n, base);
      ToDigits(n / base, base) + [n % base]
  }

  /** The number a digit sequence denotes, most significant digit first. */
  function FromDigits(ds: seq<nat>, base: nat): nat
  {
    if ds == [] then 0 else FromDigits(ds[..|ds| - 1], base) * base + ds[|ds| - 1]
  }

  /** Euclidean division by the base: the quotient and remainder rebuild `n`, and the quotient is smaller. */
  lemma DivStep(n: nat, base: nat)
    requires base >= 2 && n >= base
    ensures n == (n / base) * base + n % base
    ensures 0 < n / base < n
  {
    var q, r := n / base, n % base;
    assert n == q * base + r;
    AtLeastDouble(q, base);
  }

  lemma {:induction false} AtLeastDouble(q: nat, base: nat)
    requires base >= 2
    ensures q * base >= 2 * q
  {
    if q > 0 {
      AtLeastDouble(q - 1, base);
      assert q * base == (q - 1) * base + base;
    }
  }

  /** Reading back the digits of `n` gives `n`. */
  lemma {:induction false} FromToDigits(n: nat, base: nat)
    requires base >= 2
    ensures FromDigits(ToDigits(n, base), base) == n
  {
    if n >= base {
      var q, r := n / base, n % base;
      DivStep(n, base);
      var ds := ToDigits(n, base);
      assert ds[..|ds| - 1] == ToDigits(q, base);
      FromToDigits(q, base);
    }
  }

  /** A leading zero digit does not change the value. */
  lemma {:induction false} LeadingZero(ds: seq<nat>, base: nat)
    ensures FromDigits([0] + ds, base) == FromDigits(ds, base)
  {
    if ds != [] {
      assert ([0] + ds)[..|[0] + ds| - 1] == [0] + ds[..|ds| - 1];
      LeadingZero(ds[..|ds| - 1], base);
    }
  }

  /** A byte has at most two hexadecimal digits. */
  lemma TwoHexDigits(n: nat)
    requires n < 256
    ensures |ToDigits(n, 16)| <= 2
  {
    if n >= 16 {
      assert n / 16 < 16;
    }
  }

  /** The lower-case character of a hexadecimal digit. */
  function HexChar(d: nat): (c: char)
    requires d < 16
    ensures '0' <= c <= '9' || 'a' <= c <= 'f'
  {
    if d < 10 then ('0' as int + d) as char else ('a' as int + d - 10) as char
  }

  /** The value of an ASCII hexadecimal digit character in either case (the non-ASCII
      digits that Python's `int(c, 16)` also reads are not covered). */
  function HexValue(c: char): (v: Option<nat>)
    ensures v.Some? <==> ('0' <= c <= '9' || 'a' <= c <= 'f' || 'A' <= c <= 'F')
    ensures v.Some? ==> v.value < 16
  {
    if '0' <= c <= '9' then Some(c as int - '0' as int)
    else if 'a' <= c <= 'f' then Some(c as int - 'a' as int + 10)
    else if 'A' <= c <= 'F' then Some(c as int - 'A' as int + 10)
    else None
  }

  lemma HexValueOfChar(d: nat)
    requires d < 16
    ensures HexValue(HexChar(d)) == Some(d)
  {
  }

  /** `int(s, 16)` on a plain string of ASCII hexadecimal digits; `None` for any other
      string (Python also reads some of those, see README). */
  function ParseHex(s: string): (v: Option<nat>)
    ensures v.Some? <==> |s| > 0 && forall k :: 0 <= k < |s| ==> HexValue(s[k]).Some?
  {
    if |s| > 0 && forall k :: 0 <= k < |s| ==> HexValue(s[k]).Some? then
      Some(FromDigits(seq(|s|, k requires 0 <= k < |s| => HexValue(s[k]).value), 16))
    else
      None
  }

  /** `'%x' % n`: lower-case hexadecimal without padding. */
  function LowerHex(n: nat): (s: string)
    ensures |s| >= 1
    ensures forall k :: 0 <= k < |s| ==> '0' <= s[k] <= '9' || 'a' <= s[k] <= 'f'
  {
    var ds := ToDigits(n, 16);
    seq(|ds|, k requires 0 <= k < |ds| => HexChar(ds[k]))
  }

  /** `'%02x' % n`: lower-case hexadecimal, zero-padded on the left to at least two digits. */
  function Hex02(n: nat): (s: string)
    ensures |s| >= 2
    ensures forall k :: 0 <= k < |s| ==> '0' <= s[k] <= '9' || 'a' <= s[k] <= 'f'
  {
    var h := LowerHex(n);
    if |h| < 2 then "0" + h else h
  }

  /** Parsing the unpadded hexadecimal text of `n` gives `n` back. */
  lemma ParseLowerHex(n: nat)
    ensures ParseHex(LowerHex(n)) == Some(n)
  {
    var ds := ToDigits(n, 16);
    var s := LowerHex(n);
    forall k | 0 <= k < |s| ensures HexValue(s[k]) == Some(ds[k]) {
      HexValueOfChar(ds[k]);
    }
    assert seq(|s|, k requires 0 <= k < |s| => HexValue(s[k]).value) == ds;
    FromToDigits(n, 16);
  }

  /** `%02x` formatting round-trips through `int(_, 16)`, and a byte takes exactly two digits. */
  lemma ParseHex02(n: nat)
    ensures ParseHex(Hex02(n)) == Some(n)
    ensures n < 256 ==> |Hex02(n)| == 2
  {
    var h := LowerHex(n);
    ParseLowerHex(n);
    if |h| < 2 {
      var vs := seq(|h|, k requires 0 <= k < |h| => HexValue(h[k]).value);
      var s := "0" + h;
      assert seq(|s|, k requires 0 <= k < |s| => HexValue(s[k]).value) == [0] + vs;
      LeadingZero(vs, 16);
    }
    if n < 256 {
      TwoHexDigits(n);
    }
  }

  /** The character of a decimal digit. */
  function DecimalChar(d: nat): (c: char)
    requires d < 10
    ensures '0' <= c <= '9'
  {
    ('0' as int + d) as char
  }

  /** `str(n)` for a natural number: its decimal digits, no leading zeros. */
  function NatText(n: nat): (s: string)
    ensures |s| >= 1
    ensures forall k :: 0 <= k < |s| ==> '0' <= s[k] <= '9'
  {
    var ds := ToDigits(n, 10);
    seq(|ds|, k requires 0 <= k < |ds| => DecimalChar(ds[k]))
  }

  /** `str(n)` for an integer: a minus sign before the digits of a negative number. */
  function IntText(n: int): (s: string)
    ensures |s| >= 1
  {
    if n < 0 then "-" + NatText(-n) else NatText(n)
  }

  /** The digit values of a string of decimal digit characters. */
  function DecimalValues(s: string): (ds: seq<nat>)
    requires forall k :: 0 <= k < |s| ==> '0' <= s[k] <= '9'
    ensures |ds| == |s|
  {
    seq(|s|, k requires 0 <= k < |s| => s[k] as int - '0' as int)
  }

  /** Reading back the decimal text of `n` gives `n`. */
  lemma ParseNatText(n: nat)
    ensures FromDigits(DecimalValues(NatText(n)), 10) == n
  {
    assert DecimalValues(NatText(n)) == ToDigits(n, 10);
    FromToDigits(n, 10);
  }

  /** `int(s)` on a plain string of ASCII decimal digits, optionally after a minus sign;
      `None` for any other string (Python also reads a `+` sign, surrounding whitespace
      and underscores between digits). */
  function ParseInt(s: string): (v: Option<int>)
  {
    var neg := |s| > 0 && s[0] == '-';
    var body := if neg then s[1..] else s;
    if |body| > 0 && forall k :: 0 <= k < |body| ==> '0' <= body[k] <= '9' then
      var n: int := FromDigits(DecimalValues(body), 10);
      Some(if neg then -n else n)
    else
      None
  }

  /** `int(str(n)) == n`. */
  lemma ParseIntText(n: int)
    ensures ParseInt(IntText(n)) == Some(n)
  {
    if n < 0 {
      NegativeText(-n);
    } else {
      var s := NatText(n);
      ParseNatText(n);
      assert !(|s| > 0 && s[0] == '-');
    }
  }

  lemma NegativeText(m: nat)
    requires m > 0
    ensures ParseInt("-" + NatText(m)) == Some(0 - m)
  {
    var s := "-" + NatText(m);
    assert s[1..] == NatText(m);
    ParseNatText(m);
  }
}
