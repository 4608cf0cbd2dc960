/** Number formatting (gex_tracker/utils/formatting.py). Fixed-precision decimal
    rendering (`f"{x:.{p}f}"`) is a parameter `fixed`; thousands grouping (the `,`
    format option) and integer rendering are modelled exactly. */
module Formatting {

  predicate IsDigit(c: char) { '0' <= c <= '9' }

  predicate AllDigits(s: string) { forall i :: 0 <= i < |s| ==> IsDigit(s[i]) }

  function DigitChar(d: nat): (c: char)
    requires d < 10
    ensures IsDigit(c)
  {
    ['0', '1', '2', '3', '4', '5', '6', '7', '8', '9'][d]
  }

  function DigitValue(c: char): (d: nat)
    requires IsDigit(c)
    ensures d < 10 && DigitChar(d) == c
  {
    (c as int - '0' as int)
  }

  /** The decimal digits of `n`, without leading zeros ("0" for zero). */
  function DigitString(n: nat): (s: string)
    ensures |s| > 0 && AllDigits(s)
    ensures n >= 10 ==> s[0] != '0'
  {
    if n < 10 then [DigitChar(n)] else DigitString(n / 10) + [DigitChar(n % 10)]
  }

  /** The number a string of decimal digits denotes. */
  function ParseDigits(s: string): nat
    requires AllDigits(s)
  {
    if |s| == 0 then 0 else ParseDigits(s[..|s| - 1]) * 10 + DigitValue(s[|s| - 1])
  }

  lemma {:induction false} ParseDigitString(n: nat)
    ensures ParseDigits(DigitString(n)) == n
  {
    if n >= 10 {
      ParseDigitString(n / 10);
      ParseLastDigit(DigitString(n / 10), n % 10);
      DivMod10(n);
    }
  }

  /** Appending a digit multiplies by ten and adds it. */
  lemma ParseLastDigit(s: string, d: nat)
    requires AllDigits(s) && d < 10
    ensures AllDigits(s + [DigitChar(d)])
    ensures ParseDigits(s + [DigitChar(d)]) == ParseDigits(s) * 10 + d
  {
    var t := s + [DigitChar(d)];
    assert t[..|t| - 1] == s;
  }

  lemma DivMod10(n: nat)
    ensures (n / 10) * 10 + n % 10 == n
  {
  }

  /** `str(n)` for an integer. */
  function IntToDecimal(n: int): (s: string)
    ensures |s| > 0 && ',' !in s && '.' !in s
  {
    var s := if n < 0 then "-" + DigitString(-n) else DigitString(n);
    assert forall i :: 0 <= i < |s| ==> s[i] == '-' || IsDigit(s[i]);
    s
  }

  /** `int(s)` on a string `IntToDecimal` produced. */
  function ParseInt(s: string): int
  {
    if |s| > 0 && s[0] == '-' && AllDigits(s[1..]) then -(ParseDigits(s[1..]) as int)
    else if AllDigits(s) then ParseDigits(s)
    else 0
  }

  /** Rendering an integer and parsing it back gives the integer. */
  lemma IntToDecimalRoundTrip(n: int)
    ensures ParseInt(IntToDecimal(n)) == n
  {
    var d := DigitString(if n < 0 then -n else n);
    ParseDigitString(if n < 0 then -n else n);
    if n < 0 {
      ParseNegative(d);
      assert IntToDecimal(n) == "-" + d;
    } else {
      ParseUnsigned(d);
      assert IntToDecimal(n) == d;
    }
  }

  /** A minus sign before digits negates them. */
  lemma ParseNegative(d: string)
    requires AllDigits(d)
    ensures ParseInt("-" + d) == -(ParseDigits(d) as int)
  {
    assert ("-" + d)[1..] == d;
  }

  /** Digits without a sign parse as themselves. */
  lemma ParseUnsigned(d: string)
    requires |d| > 0 && AllDigits(d)
    ensures ParseInt(d) == ParseDigits(d)
  {
    assert d[0] != '-' by { assert IsDigit(d[0]); }
  }

  /** A run of digits with a comma before every group of three, counted from the
      right: "1234567" becomes "1,234,567". */
  function Group(d: string): (g: string)
    ensures |d| > 0 ==> |g| > 0 && g[|g| - 1] == d[|d| - 1]
    decreases |d|
  {
    if |d| <= 3 then d else Group(d[..|d| - 3]) + "," + d[|d| - 3..]
  }

  /** The string with every comma removed. */
  function Ungroup(s: string): (u: string)
    ensures ',' !in u
  {
    if |s| == 0 then "" else (if s[0] == ',' then "" else [s[0]]) + Ungroup(s[1..])
  }

  lemma {:induction false} UngroupConcat(a: string, b: string)
    ensures Ungroup(a + b) == Ungroup(a) + Ungroup(b)
  {
    if |a| > 0 {
      assert (a + b)[1..] == a[1..] + b;
      UngroupConcat(a[1..], b);
    } else {
      assert a + b == b;
    }
  }

  lemma {:induction false} UngroupPlain(s: string)
    requires ',' !in s
    ensures Ungroup(s) == s
  {
    if |s| > 0 {
      UngroupPlain(s[1..]);
    }
  }

  /** Grouping inserts commas and nothing else: removing them gives the digits back. */
  lemma {:induction false} GroupRoundTrip(d: string)
    requires ',' !in d
    ensures Ungroup(Group(d)) == d
    decreases |d|
  {
    if |d| <= 3 {
      UngroupPlain(d);
    } else {
      var hi, lo := d[..|d| - 3], d[|d| - 3..];
      assert d == hi + lo;
      assert ',' !in hi && ',' !in lo by {
        assert forall c :: c in hi ==> c in d;
        assert forall c :: c in lo ==> c in d;
      }
      GroupRoundTrip(hi);
      UngroupSeparated(Group(hi), lo);
      assert Group(d) == Group(hi) + "," + lo;
    }
  }

  /** Removing the commas from `g + "," + lo` with a comma-free `lo`. */
  lemma UngroupSeparated(g: string, lo: string)
    requires ',' !in lo
    ensures Ungroup(g + "," + lo) == Ungroup(g) + lo
  {
    calc {
      Ungroup(g + "," + lo);
      { UngroupConcat(g + ",", lo); }
      Ungroup(g + ",") + Ungroup(lo);
      { UngroupConcat(g, ","); UngroupComma(); }
      Ungroup(g) + "" + Ungroup(lo);
      { UngroupPlain(lo); assert Ungroup(g) + "" == Ungroup(g); }
      Ungroup(g) + lo;
    }
  }

  lemma UngroupComma()
    ensures Ungroup(",") == ""
  {
    assert ","[1..] == "";
  }

  /** One comma per full group of three beyond the leading digits. */
  lemma {:induction false} GroupLength(d: string)
    requires |d| > 0
    ensures |Group(d)| == |d| + (|d| - 1) / 3
    decreases |d|
  {
    if |d| > 3 {
      GroupLength(d[..|d| - 3]);
      assert (|d| - 1) / 3 == (|d| - 4) / 3 + 1;
    }
  }

  /** The position of the first '.', or the length when there is none. */
  function PointIndex(s: string): (k: nat)
    ensures k <= |s| && '.' !in s[..k] && (k < |s| ==> s[k] == '.')
  {
    if |s| == 0 || s[0] == '.' then 0
    else
      var k := 1 + PointIndex(s[1..]);
      assert s[..k] == [s[0]] + s[1..][..k - 1];
      k
  }

  /** The `,` option applied to a rendered number: the integer digits (after an
      optional sign, before the decimal point) are grouped by thousands. */
  function GroupFixed(s: string): (g: string)
    ensures |s| > 0 ==> |g| > 0 && g[|g| - 1] == s[|s| - 1]
  {
    if |s| > 0 && s[0] == '-' then "-" + GroupUnsigned(s[1..]) else GroupUnsigned(s)
  }

  function GroupUnsigned(s: string): (g: string)
    ensures |s| > 0 ==> |g| > 0 && g[|g| - 1] == s[|s| - 1]
  {
    var k := PointIndex(s);
    Group(s[..k]) + s[k..]
  }

  lemma GroupUnsignedRoundTrip(u: string)
    requires ',' !in u
    ensures Ungroup(GroupUnsigned(u)) == u
  {
    var k := PointIndex(u);
    var hi, lo := u[..k], u[k..];
    assert u == hi + lo;
    assert ',' !in hi && ',' !in lo by {
      assert forall c :: c in hi ==> c in u;
      assert forall c :: c in lo ==> c in u;
    }
    GroupRoundTrip(hi);
    UngroupConcat(Group(hi), lo);
    UngroupPlain(lo);
  }

  /** Removing the commas from a grouped rendering gives the plain rendering. */
  lemma GroupFixedRoundTrip(s: string)
    requires ',' !in s
    ensures Ungroup(GroupFixed(s)) == s
  {
    if |s| > 0 && s[0] == '-' {
      var u := s[1..];
      assert s == "-" + u;
      assert ',' !in u by { assert forall c :: c in u ==> c in s; }
      GroupUnsignedRoundTrip(u);
      UngroupConcat("-", GroupUnsigned(u));
      UngroupPlain("-");
    } else {
      GroupUnsignedRoundTrip(s);
    }
  }

  /** What a fixed-precision rendering looks like: a non-empty string without
      commas that ends in a digit. */
  ghost predicate FixedRenderer(fixed: (real, nat) -> string)
  {
    forall x, p :: |fixed(x, p)| > 0 && ',' !in fixed(x, p) && IsDigit(fixed(x, p)[|fixed(x, p)| - 1])
  }

  /** `format_billions`: "$" + value/1e9 at `precision` + "B". */
  function FormatBillions(fixed: (real, nat) -> string, value: real, precision: nat := 2): (s: string)
    ensures |s| > 0 && s[0] == '$' && s[|s| - 1] == 'B'
    ensures s[1..|s| - 1] == fixed(value / 1_000_000_000.0, precision)
  {
    "$" + fixed(value / 1_000_000_000.0, precision) + "B"
  }

  /** `format_millions`: "$" + value/1e6 at `precision` + "M". */
  function FormatMillions(fixed: (real, nat) -> string, value: real, precision: nat := 2): (s: string)
    ensures |s| > 0 && s[0] == '$' && s[|s| - 1] == 'M'
    ensures s[1..|s| - 1] == fixed(value / 1_000_000.0, precision)
  {
    "$" + fixed(value / 1_000_000.0, precision) + "M"
  }

  /** `format_percentage`: 0.1 renders as "10.00%" at the default precision. */
  function FormatPercentage(fixed: (real, nat) -> string, value: real, precision: nat := 2): (s: string)
    ensures |s| > 0 && s[|s| - 1] == '%' && s[..|s| - 1] == fixed(value * 100.0, precision)
  {
    fixed(value * 100.0, precision) + "%"
  }

  function Abs(x: real): real { if x < 0.0 then -x else x }

  /** `format_currency`: with auto-scaling, |value| ≥ 1e9 uses billions and
      |value| ≥ 1e6 millions; otherwise (and always without auto-scaling) "$" and
      the comma-grouped fixed rendering. */
  function FormatCurrency(fixed: (real, nat) -> string, value: real, precision: nat := 2, autoScale: bool := true): (s: string)
    ensures |s| > 0 && s[0] == '$'
  {
    if autoScale && Abs(value) >= 1_000_000_000.0 then FormatBillions(fixed, value, precision)
    else if autoScale && Abs(value) >= 1_000_000.0 then FormatMillions(fixed, value, precision)
    else "$" + GroupFixed(fixed(value, precision))
  }

  /** The suffix of a currency string tells which scale was chosen: "B" exactly for
      auto-scaled magnitudes of at least a billion, "M" exactly for auto-scaled
      magnitudes in [1e6, 1e9), a digit otherwise; without auto-scaling the plain
      form is the grouped rendering. */
  lemma CurrencyScale(fixed: (real, nat) -> string, value: real, precision: nat, autoScale: bool)
    requires FixedRenderer(fixed)
    ensures var s := FormatCurrency(fixed, value, precision, autoScale);
      (s[|s| - 1] == 'B' <==> autoScale && Abs(value) >= 1_000_000_000.0) &&
      (s[|s| - 1] == 'M' <==> autoScale && 1_000_000.0 <= Abs(value) < 1_000_000_000.0) &&
      (!autoScale ==> Ungroup(s[1..]) == fixed(value, precision))
  {
    var r := fixed(value, precision);
    assert |r| > 0 && IsDigit(r[|r| - 1]) && ',' !in r;
    var s := FormatCurrency(fixed, value, precision, autoScale);
    if autoScale && Abs(value) >= 1_000_000_000.0 {
    } else if autoScale && Abs(value) >= 1_000_000.0 {
    } else {
      var g := GroupFixed(r);
      assert s == "$" + g;
      assert s[|s| - 1] == g[|g| - 1] == r[|r| - 1];
      assert s[1..] == g;
      GroupFixedRoundTrip(r);
    }
  }

  /** A value of `format_number`: Python distinguishes `int` from `float`. */
  datatype Number = IntValue(i: int) | FloatValue(x: real)

  /** `format_number`: integers render with `,d` or `str`; floats at fixed
      precision, grouped or not. */
  function FormatNumber(fixed: (real, nat) -> string, value: Number, precision: nat := 2, useCommas: bool := true): (s: string)
  {
    match value
    case IntValue(i) => if useCommas then GroupFixed(IntToDecimal(i)) else IntToDecimal(i)
    case FloatValue(x) => if useCommas then GroupFixed(fixed(x, precision)) else fixed(x, precision)
  }

  /** Grouping never changes the number: an integer formatted with commas parses
      back to itself once the commas are removed, and a float's grouped form
      ungroups to its plain form. */
  lemma FormatNumberRoundTrip(fixed: (real, nat) -> string, value: Number, precision: nat, useCommas: bool)
    requires FixedRenderer(fixed)
    ensures value.IntValue? ==> ParseInt(Ungroup(FormatNumber(fixed, value, precision, useCommas))) == value.i
    ensures value.FloatValue? ==> Ungroup(FormatNumber(fixed, value, precision, useCommas)) == fixed(value.x, precision)
  {
    match value
    case IntValue(i) =>
      GroupFixedRoundTrip(IntToDecimal(i));
      UngroupPlain(IntToDecimal(i));
      IntToDecimalRoundTrip(i);
    case FloatValue(x) =>
      assert ',' !in fixed(x, precision);
      GroupFixedRoundTrip(fixed(x, precision));
      UngroupPlain(fixed(x, precision));
  }

  /** Four-digit and seven-digit integers gain one and two commas. */
  lemma GroupExamples()
    ensures Group("1234") == "1,234"
    ensures Group("1234567") == "1,234,567"
  {
    assert Group("1234") == "1,234" by {
      assert "1234"[..1] == "1" && "1234"[1..] == "234";
      assert Group("1") == "1";
    }
    assert "1234567"[..4] == "1234" && "1234567"[4..] == "567";
  }
}
