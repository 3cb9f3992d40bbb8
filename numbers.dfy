/** The number conversions the admin product form relies on: `Number.prototype.toString`
    when a product is copied into the form, and `parseInt` / `parseFloat` when the form
    is read back. Prices are integer cents, so `parseFloat` is read to two decimals. */
module Numbers {
  import opened Wrappers

  predicate IsDigit(c: char) {
    '0' <= c <= '9'
  }

  predicate AllDigits(s: string) {
    forall i :: 0 <= i < |s| ==> IsDigit(s[i])
  }

  function DigitValue(c: char): nat
    requires IsDigit(c)
  {
    c as int - '0' as int
  }

  function DigitChar(d: nat): (c: char)
    requires d < 10
    ensures IsDigit(c) && DigitValue(c) == d
  {
    ('0' as int + d) as char
  }

  /** The value of a string of decimal digits, most significant first. */
  function DigitsValue(ds: string): nat
    requires AllDigits(ds)
  {
    if ds == [] then 0 else DigitsValue(ds[..|ds| - 1]) * 10 + DigitValue(ds[|ds| - 1])
  }

  /** The decimal digits of `n`, without leading zeros. */
  function NatToDigits(n: nat): (r: string)
    ensures |r| > 0 && AllDigits(r)
    ensures DigitsValue(r) == n
    ensures r[0] == '0' ==> r == "0"
  {
    if n < 10 then [DigitChar(n)]
    else
      var r := NatToDigits(n / 10) + [DigitChar(n % 10)];
      assert r[..|r| - 1] == NatToDigits(n / 10);
      r
  }

  /** `Number.prototype.toString` on an integer. */
  function IntToString(n: int): (r: string)
  {
    if n < 0 then "-" + NatToDigits(-n) else NatToDigits(n)
  }

  /** The characters `parseInt` and `parseFloat` skip before the number (ASCII white
      space only). */
  predicate IsSpace(c: char) {
    c == ' ' || c == '\t' || c == '\n' || c == '\r' || c == '\U{B}' || c == '\U{C}'
  }

  /** The text after its leading white space. */
  function SkipSpace(s: string): (r: string)
    ensures |r| <= |s|
    ensures r == [] || !IsSpace(r[0])
    ensures s == [] || !IsSpace(s[0]) ==> r == s
  {
    if s != [] && IsSpace(s[0]) then SkipSpace(s[1..]) else s
  }

  /** The length of the longest prefix of `s` made of digits. */
  function DigitRun(s: string): (k: nat)
    ensures k <= |s| && AllDigits(s[..k])
    ensures k < |s| ==> !IsDigit(s[k])
  {
    if s != [] && IsDigit(s[0]) then
      var k := DigitRun(s[1..]) + 1;
      assert s[..k] == [s[0]] + s[1..][..k - 1];
      k
    else 0
  }

  /** An optional sign: whether it was a minus, and the text after it. */
  function SplitSign(s: string): (bool, string) {
    if s != [] && (s[0] == '-' || s[0] == '+') then (s[0] == '-', s[1..]) else (false, s)
  }

  function Signed(negative: bool, magnitude: nat): int {
    if negative then -(magnitude as int) else magnitude
  }

  /** `parseInt(s)` for decimal text: white space, a sign, then as many digits as there
      are; `None` (the source's `NaN`) when no digit follows. A `0x` prefix is read as
      the digit 0, not as hexadecimal. */
  function ParseInt(s: string): (r: Option<int>)
    ensures r.None? <==> DigitRun(SplitSign(SkipSpace(s)).1) == 0
  {
    var (negative, u) := SplitSign(SkipSpace(s));
    var k := DigitRun(u);
    if k == 0 then None else Some(Signed(negative, DigitsValue(u[..k])))
  }

  /** The digits of a non-negative amount of cents as `toString` prints the amount in
      units: no fractional part when it is whole, otherwise one or two decimals with no
      trailing zero. */
  function CentsMagnitudeToString(c: nat): string {
    var units, rest := c / 100, c % 100;
    if rest == 0 then NatToDigits(units)
    else if rest % 10 == 0 then NatToDigits(units) + "." + [DigitChar(rest / 10)]
    else NatToDigits(units) + "." + [DigitChar(rest / 10), DigitChar(rest % 10)]
  }

  /** `price.toString()` for a price of `c` cents. */
  function CentsToString(c: int): string {
    if c < 0 then "-" + CentsMagnitudeToString(-c) else CentsMagnitudeToString(c)
  }

  /** The cents that the first two decimals of a fraction stand for. */
  function FractionCents(f: string): (r: nat)
    requires AllDigits(f)
    ensures r < 100
  {
    if |f| == 0 then 0
    else if |f| == 1 then 10 * DigitValue(f[0])
    else 10 * DigitValue(f[0]) + DigitValue(f[1])
  }

  /** The unsigned number at the start of `u` as cents: digits, then optionally a point
      and more digits; `None` when there is no digit on either side of the point. */
  function UnsignedCents(u: string): Option<nat> {
    var k := DigitRun(u);
    var rest := u[k..];
    var fraction := if rest != [] && rest[0] == '.' then rest[1..][..DigitRun(rest[1..])] else "";
    if k == 0 && fraction == [] then None
    else Some(DigitsValue(u[..k]) * 100 + FractionCents(fraction))
  }

  /** `parseFloat(s)` read as cents: white space, a sign, then an unsigned decimal;
      `None` (the source's `NaN`) when no digit is found. */
  function ParseCents(s: string): (r: Option<int>)
    ensures r.None? <==> UnsignedCents(SplitSign(SkipSpace(s)).1).None?
  {
    var (negative, u) := SplitSign(SkipSpace(s));
    match UnsignedCents(u)
    case None => None
    case Some(v) => Some(Signed(negative, v))
  }

  /** A stock count copied into the form and parsed back is the same count. */
  lemma ParseIntOfToString(n: int)
    ensures ParseInt(IntToString(n)) == Some(n)
  {
    var m: nat := if n < 0 then -n else n;
    var d := NatToDigits(m);
    var t := IntToString(n);
    assert SkipSpace(t) == t;
    if n < 0 {
      assert t[1..] == d;
    }
    assert SplitSign(t) == (n < 0, d);
    DigitRunStopsAt(d, |d|);
    assert d[..|d|] == d;
  }

  /** The digit run ends at the first character that is not a digit. */
  lemma {:induction false} DigitRunStopsAt(s: string, n: nat)
    requires n <= |s| && AllDigits(s[..n])
    requires n < |s| ==> !IsDigit(s[n])
    ensures DigitRun(s) == n
  {
    if n > 0 {
      assert s[..n][0] == s[0];
      assert s[1..][..n - 1] == s[..n][1..];
      DigitRunStopsAt(s[1..], n - 1);
    }
  }

  /** The digits of a whole number before a point are read up to the point. */
  lemma DigitRunBeforePoint(d: string, tail: string)
    requires AllDigits(d)
    ensures DigitRun(d + "." + tail) == |d|
  {
    var s := d + "." + tail;
    assert s[..|d|] == d;
    DigitRunStopsAt(s, |d|);
  }

  /** A price copied into the form and parsed back is the same price. */
  lemma ParseCentsOfToString(c: int)
    ensures ParseCents(CentsToString(c)) == Some(c)
  {
    var m: nat := if c < 0 then -c else c;
    var s := CentsMagnitudeToString(m);
    var t := CentsToString(c);
    assert SkipSpace(t) == t;
    if c < 0 {
      assert t[1..] == s;
    }
    assert SplitSign(t) == (c < 0, s);
    ParseCentsOfMagnitude(m);
  }

  /** The unsigned part of a printed price reads back as its cents. */
  lemma ParseCentsOfMagnitude(m: nat)
    ensures UnsignedCents(CentsMagnitudeToString(m)) == Some(m)
  {
    var units, cents := m / 100, m % 100;
    var d := NatToDigits(units);
    if cents == 0 {
      UnsignedCentsOfWhole(d);
    } else {
      var f := if cents % 10 == 0 then [DigitChar(cents / 10)]
               else [DigitChar(cents / 10), DigitChar(cents % 10)];
      assert CentsMagnitudeToString(m) == d + "." + f;
      UnsignedCentsOfDecimal(d, f);
      assert FractionCents(f) == cents;
    }
  }

  /** A whole number without a point reads as that many hundreds of cents. */
  lemma UnsignedCentsOfWhole(d: string)
    requires d != [] && AllDigits(d)
    ensures UnsignedCents(d) == Some(DigitsValue(d) * 100)
  {
    DigitRunStopsAt(d, |d|);
    assert d[..|d|] == d;
  }

  /** Digits, a point and more digits read as the whole part and the first two
      decimals. */
  lemma UnsignedCentsOfDecimal(d: string, f: string)
    requires AllDigits(d) && AllDigits(f) && f != []
    ensures UnsignedCents(d + "." + f) == Some(DigitsValue(d) * 100 + FractionCents(f))
  {
    var s := d + "." + f;
    DigitRunBeforePoint(d, f);
    assert s[..|d|] == d;
    assert s[|d|..] == "." + f;
    assert ("." + f)[1..] == f;
    DigitRunStopsAt(f, |f|);
    assert f[..|f|] == f;
  }
}
