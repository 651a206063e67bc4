/** Python's conversions between integers and decimal text: `str(n)` and
    `int(text)`. The CIK cross-check compares `int(...)` values, and the
    request payload carries its offsets as `str(...)`. */
module Decimal {
  import opened Results

  predicate IsDigit(c: char)
  {
    '0' <= c <= '9'
  }

  predicate AllDigits(s: string)
  {
    forall i :: 0 <= i < |s| ==> IsDigit(s[i])
  }

  function DigitValue(c: char): (d: nat)
    requires IsDigit(c)
    ensures d < 10
  {
    (c as int) - ('0' as int)
  }

  function DigitChar(d: nat): (c: char)
    requires d < 10
    ensures IsDigit(c) && DigitValue(c) == d
  {
    ((('0' as int) + d) as char)
  }

  /** The value of a run of decimal digits, most significant first. */
  function DigitsValue(ds: string): nat
    requires AllDigits(ds)
    decreases |ds|
  {
    if |ds| == 0 then 0
    else DigitsValue(ds[..|ds| - 1]) * 10 + DigitValue(ds[|ds| - 1])
  }

  /** Python `str(n)` for `n >= 0`. */
  function NatToText(n: nat): (s: string)
    ensures |s| >= 1
    decreases n
  {
    if n < 10 then [DigitChar(n)]
    else NatToText(n / 10) + [DigitChar(n % 10)]
  }

  /** `str(n)` is the canonical decimal numeral of `n`: digits only, reading
      back as `n`, with no leading zero. */
  lemma {:induction false} NatToTextDigits(n: nat)
    ensures AllDigits(NatToText(n))
    ensures DigitsValue(NatToText(n)) == n
    ensures |NatToText(n)| == 1 || NatToText(n)[0] != '0'
    decreases n
  {
    if n >= 10 {
      NatToTextDigits(n / 10);
      var prefix := NatToText(n / 10);
      var s := NatToText(n);
      assert s == prefix + [DigitChar(n % 10)];
      assert s[..|s| - 1] == prefix;
    }
  }

  /** Python `str(n)`. */
  function IntToText(n: int): string
  {
    if n < 0 then "-" + NatToText(-n) else NatToText(n)
  }

  /** The characters `str.isspace` accepts; `int()` ignores them at both ends. */
  predicate IsSpace(c: char)
  {
    var n := c as int;
    n == 32 || 9 <= n <= 13 || 28 <= n <= 31 || n == 0x85 || n == 0xa0
    || n == 0x1680 || 0x2000 <= n <= 0x200a || n == 0x2028 || n == 0x2029
    || n == 0x202f || n == 0x205f || n == 0x3000
  }

  function StripStart(s: string): string
    decreases |s|
  {
    if |s| > 0 && IsSpace(s[0]) then StripStart(s[1..]) else s
  }

  function StripEnd(s: string): string
    decreases |s|
  {
    if |s| > 0 && IsSpace(s[|s| - 1]) then StripEnd(s[..|s| - 1]) else s
  }

  /** Digits in which single underscores may separate two digits, as `int()`
      accepts them. */
  predicate GroupedDigits(t: string)
  {
    && |t| > 0
    && IsDigit(t[0]) && IsDigit(t[|t| - 1])
    && (forall i :: 0 <= i < |t| ==> IsDigit(t[i]) || t[i] == '_')
    && (forall i :: 0 <= i < |t| - 1 ==> t[i] != '_' || t[i + 1] != '_')
  }

  function DropUnderscores(t: string): (ds: string)
    requires forall i :: 0 <= i < |t| ==> IsDigit(t[i]) || t[i] == '_'
    ensures AllDigits(ds)
    decreases |t|
  {
    if |t| == 0 then ""
    else if t[|t| - 1] == '_' then DropUnderscores(t[..|t| - 1])
    else DropUnderscores(t[..|t| - 1]) + [t[|t| - 1]]
  }

  /** Python `int(text)` in base 10: surrounding whitespace, an optional sign,
      then digits possibly grouped by underscores; anything else is a
      `ValueError`, here `None`. */
  function ParseInt(text: string): Option<int>
  {
    var t := StripEnd(StripStart(text));
    var negative := |t| > 0 && t[0] == '-';
    var body := if |t| > 0 && (t[0] == '-' || t[0] == '+') then t[1..] else t;
    if !GroupedDigits(body) then None
    else
      var v: int := DigitsValue(DropUnderscores(body));
      Some(if negative then -v else v)
  }

  /** `int(str(n)) == n`: the text a payload carries reads back as the
      integer it was made from. */
  lemma ParseRendered(n: int)
    ensures ParseInt(IntToText(n)) == Some(n)
  {
    var m := if n < 0 then -n else n;
    NatToTextDigits(m);
    if n < 0 {
      ParseNegative(NatToText(m));
    } else {
      ParseDigits(NatToText(m));
    }
  }

  /** A minus sign before a run of digits reads as the negated value. */
  lemma ParseNegative(ds: string)
    requires |ds| > 0 && AllDigits(ds)
    ensures ParseInt("-" + ds).Some? && ParseInt("-" + ds).value == -(DigitsValue(ds) as int)
  {
    var t := "-" + ds;
    NoUnderscores(ds);
    assert t[1..] == ds;
    StripSigned(t);
    ParseSigned(t);
  }

  /** A sign in front and a digit at the end leave nothing to strip. */
  lemma StripSigned(t: string)
    requires |t| > 1 && t[0] == '-' && IsDigit(t[|t| - 1])
    ensures StripEnd(StripStart(t)) == t
  {
    assert StripStart(t) == t;
  }

  /** Text with nothing to strip, a minus sign and then grouped digits reads
      as the negated value of the digits. */
  lemma ParseSigned(t: string)
    requires StripEnd(StripStart(t)) == t && |t| > 1 && t[0] == '-' && GroupedDigits(t[1..])
    ensures ParseInt(t).Some? && ParseInt(t).value == -(DigitsValue(DropUnderscores(t[1..])) as int)
  {
  }

  /** Leading zeros do not change what `int()` reads: `int("0000118421")`
      is 118421. */
  lemma {:induction false} ParseIgnoresLeadingZeros(zeros: nat, n: nat)
    ensures ParseInt(Zeros(zeros) + NatToText(n)) == Some(n)
  {
    var ds := NatToText(n);
    NatToTextDigits(n);
    var t := Zeros(zeros) + ds;
    LeadingZerosValue(zeros, ds);
    ParseDigits(t);
  }

  /** A plain run of digits reads as its decimal value. */
  lemma ParseDigits(t: string)
    requires |t| > 0 && AllDigits(t)
    ensures ParseInt(t) == Some(DigitsValue(t))
  {
    NoUnderscores(t);
    StripDigits(t);
    assert IsDigit(t[0]);
  }

  /** Text that starts and ends with a digit has nothing for `int()` to strip. */
  lemma StripDigits(t: string)
    requires |t| > 0 && IsDigit(t[0]) && IsDigit(t[|t| - 1])
    ensures StripEnd(StripStart(t)) == t
  {
  }

  function Zeros(k: nat): (z: string)
    ensures |z| == k && forall i :: 0 <= i < k ==> z[i] == '0'
  {
    seq(k, i => '0')
  }

  /** A digit string with no underscores is accepted as it is. */
  lemma {:induction false} NoUnderscores(ds: string)
    requires |ds| > 0 && AllDigits(ds)
    ensures GroupedDigits(ds)
    ensures DropUnderscores(ds) == ds
    decreases |ds|
  {
    if |ds| > 1 {
      var init := ds[..|ds| - 1];
      NoUnderscores(init);
    }
  }

  lemma {:induction false} LeadingZerosValue(k: nat, ds: string)
    requires AllDigits(ds)
    ensures AllDigits(Zeros(k) + ds)
    ensures DigitsValue(Zeros(k) + ds) == DigitsValue(ds)
    decreases |ds|
  {
    var t := Zeros(k) + ds;
    if |ds| == 0 {
      assert t == Zeros(k);
      ZerosValue(k);
    } else {
      var init := ds[..|ds| - 1];
      LeadingZerosValue(k, init);
      assert t[..|t| - 1] == Zeros(k) + init;
    }
  }

  lemma {:induction false} ZerosValue(k: nat)
    ensures DigitsValue(Zeros(k)) == 0
  {
    if k > 0 {
      ZerosValue(k - 1);
      assert Zeros(k)[..k - 1] == Zeros(k - 1);
    }
  }
}
