/** The JavaScript number conversions the handlers use, restricted to integers:
    `parseInt`, `Number(...)` as `z.coerce.number()` applies it, and `String(n)`. */
module Numbers {
  import opened Common
  import opened Text

  predicate IsDigit(c: char)
  {
    '0' <= c <= '9'
  }

  predicate AllDigits(s: string)
  {
    forall k :: 0 <= k < |s| ==> IsDigit(s[k])
  }

  /** The value of a string of decimal digits, most significant first. */
  function DigitsValue(s: string): nat
    requires AllDigits(s)
  {
    if s == [] then 0 else DigitsValue(s[..|s| - 1]) * 10 + (s[|s| - 1] as int - '0' as int)
  }

  /** The decimal numeral of a natural number, as `String(n)` writes it. */
  function Decimal(n: nat): (r: string)
    ensures |r| > 0 && AllDigits(r)
  {
    var d := [('0' as int + n % 10) as char];
    if n < 10 then d else Decimal(n / 10) + d
  }

  /** `String(n)` for an integer. */
  function NumberToString(n: int): (r: string)
    ensures r != [] && (r[0] == '-' <==> n < 0)
    ensures Unsigned(r) != [] && AllDigits(Unsigned(r))
  {
    if n < 0 then "-" + Decimal(-n) else Decimal(n)
  }

  /** Reading back a numeral gives the number it was written from. */
  lemma {:induction false} DecimalRoundTrip(n: nat)
    ensures DigitsValue(Decimal(n)) == n
  {
    var d := [('0' as int + n % 10) as char];
    if n >= 10 {
      DecimalRoundTrip(n / 10);
      var r := Decimal(n / 10) + d;
      assert r[..|r| - 1] == Decimal(n / 10);
    }
  }

  /** The longest prefix of decimal digits. */
  function DigitPrefix(s: string): (r: string)
    ensures r <= s && AllDigits(r)
    ensures |r| < |s| ==> !IsDigit(s[|r|])
  {
    if |s| > 0 && IsDigit(s[0]) then [s[0]] + DigitPrefix(s[1..]) else []
  }

  lemma {:induction false} DigitPrefixStops(d: string, w: string)
    requires AllDigits(d)
    requires w == [] || !IsDigit(w[0])
    ensures DigitPrefix(d + w) == d
  {
    if d != [] {
      assert (d + w)[1..] == d[1..] + w;
      DigitPrefixStops(d[1..], w);
    } else {
      assert d + w == w;
    }
  }

  /** The sign and the rest of a numeral: a leading '-' or '+' is taken off. */
  function Unsigned(t: string): string
  {
    if |t| > 0 && (t[0] == '-' || t[0] == '+') then t[1..] else t
  }

  function Signed(t: string, v: nat): int
  {
    if |t| > 0 && t[0] == '-' then 0 - v else v
  }

  /** `parseInt(s)` with no radix; None stands for NaN.  It skips leading white
      space, takes an optional sign and then as many decimal digits as there are. */
  function ParseInt(s: string): (r: Option<int>)
    ensures r.Some? <==> |Unsigned(TrimStart(s))| > 0 && IsDigit(Unsigned(TrimStart(s))[0])
    ensures r.Some? && r.value < 0 ==> TrimStart(s)[0] == '-'
  {
    var t := TrimStart(s);
    var d := DigitPrefix(Unsigned(t));
    if d == [] then None else Some(Signed(t, DigitsValue(d)))
  }

  /** `Number(s)` for a string, on decimal integer literals: the trimmed string must be
      empty (which gives 0) or an optional sign followed by digits only; None stands for NaN. */
  function NumberOfText(s: string): (r: Option<int>)
    ensures Trim(s) == [] ==> r == Some(0)
    ensures r.Some? <==> Trim(s) == [] || (Unsigned(Trim(s)) != [] && AllDigits(Unsigned(Trim(s))))
    ensures r.Some? && r.value < 0 ==> Trim(s)[0] == '-'
  {
    var t := Trim(s);
    if t == [] then Some(0)
    else if Unsigned(t) != [] && AllDigits(Unsigned(t)) then Some(Signed(t, DigitsValue(Unsigned(t))))
    else None
  }

  /** `Number(x)` as `z.coerce.number()` applies it: `undefined` is NaN, `null` is 0. */
  function CoerceNumber(r: Raw): (n: Option<int>)
    ensures n.None? <==> r.Missing? || (r.Text? && NumberOfText(r.s).None?)
    ensures r.Null? || (r.Text? && Text.Trim(r.s) == []) ==> n == Some(0)
    ensures r.Num? ==> n == Some(r.n)
  {
    match r
    case Missing => None
    case Null => Some(0)
    case Text(s) => NumberOfText(s)
    case Num(n) => Some(n)
  }

  /** `parseInt(x)` of a raw field: `parseInt(undefined)` and `parseInt(null)` are NaN,
      a number is first written out with `String`. */
  function ParseIntRaw(r: Raw): (v: Option<int>)
    ensures r.Missing? || r.Null? ==> v.None?
    ensures r.Num? ==> v == Some(r.n)
    ensures r.Text? ==> v == ParseInt(r.s)
  {
    if r.Num? then ParseIntOfString(r.n); ParseInt(NumberToString(r.n))
    else match r
    case Missing => None
    case Null => None
    case Text(s) => ParseInt(s)
    case Num(n) => ParseInt(NumberToString(n))
  }

  /** `parseInt(String(n)) === n` for every integer n. */
  lemma ParseIntOfString(n: int)
    ensures ParseInt(NumberToString(n)) == Some(n)
  {
    var m: nat := if n < 0 then -n else n;
    var t := NumberToString(n);
    assert TrimStart(t) == t;
    assert Unsigned(t) == Decimal(m);
    DigitPrefixStops(Decimal(m), []);
    assert Decimal(m) + [] == Decimal(m);
    DecimalRoundTrip(m);
  }

  /** Where `Number` accepts a string that is not blank, `parseInt` reads the same integer. */
  lemma ParseIntAgreesWithNumber(s: string)
    requires NumberOfText(s).Some? && Trim(s) != []
    ensures ParseInt(s) == NumberOfText(s)
  {
    var t := Trim(s);
    var ts := TrimStart(s);
    TrimStartSplits(s);
    var w := ts[|t|..];
    assert ts == t + w;
    assert ts[0] == t[0];
    UnsignedAppend(t, w);
    assert w == [] || IsSpace(w[0]);
    DigitPrefixStops(Unsigned(t), w);
  }

  lemma UnsignedAppend(t: string, w: string)
    requires t != []
    ensures Unsigned(t + w) == Unsigned(t) + w
  {
    assert (t + w)[0] == t[0];
    if t[0] == '-' || t[0] == '+' {
      assert (t + w)[1..] == t[1..] + w;
    }
  }

  /** `x || d` applied to a parse result: NaN and 0 are falsy. */
  function OrDefault(v: Option<int>, d: int): (r: int)
    ensures d != 0 ==> r != 0
    ensures r == d || v == Some(r)
    ensures v.Some? && v.value != 0 ==> r == v.value
  {
    if v.None? || v.value == 0 then d else v.value
  }

  /** Whether `parseInt` reads the raw field or the number that `z.coerce.number()`
      made of it, `parseInt(...) || d` comes out the same. */
  lemma DefaultAfterCoercion(r: Raw, d: int)
    requires CoerceNumber(r).Some?
    ensures OrDefault(ParseIntRaw(r), d) == OrDefault(ParseInt(NumberToString(CoerceNumber(r).value)), d)
  {
    ParseIntOfString(CoerceNumber(r).value);
    match r
    case Text(s) =>
      if Trim(s) == [] {
        TrimEmpty(s);
      } else {
        ParseIntAgreesWithNumber(s);
      }
    case _ =>
  }
}
