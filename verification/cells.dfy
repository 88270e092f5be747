/**
 * Spreadsheet cells as the table reader hands them to the loaders, and the two lenient
 * cell parsers of the bulk loader: `parse_decimal` and `parse_date`.
 */
module Cells {
  import opened Wrappers
  import opened Text
  import opened Calendar

  /** One cell of a sheet row. */
  datatype Cell =
    | NaN                                   // an empty cell (the reader puts a float NaN there)
    | NoneCell                              // Python None: the default of `row.get(key)`
    | TextCell(text: string)
    | NumberCell(literal: string)           // a numeric cell, carried with its `str()` rendering
    | TimestampCell(date: Date, iso: string, literal: string)  // `.date()`, `.isoformat()`, `str()`
    | BoolCell(flag: bool)

  /** `pd.isna(value)`. */
  predicate IsNa(c: Cell) {
    c.NaN? || c.NoneCell?
  }

  /** `str(value)`. An empty cell renders as "nan", so it is never an empty name. */
  function Str(c: Cell): (s: string)
    ensures c.NaN? ==> s == "nan"
    ensures c.TextCell? ==> s == c.text
  {
    match c
    case NaN => "nan"
    case NoneCell => "None"
    case TextCell(t) => t
    case NumberCell(l) => l
    case TimestampCell(_, _, l) => l
    case BoolCell(b) => if b then "True" else "False"
  }

  // ---------------------------------------------------------------------------
  // parse_decimal

  /** x * 10^e for a signed exponent, one decimal place at a time. */
  function Scale(x: real, e: int): real
    decreases if e < 0 then -e else e
  {
    if e == 0 then x else if e > 0 then Scale(x * 10.0, e - 1) else Scale(x / 10.0, e + 1)
  }

  /** The end of the run of digits that starts at i. */
  function DigitRunEnd(s: string, i: nat): (j: nat)
    requires i <= |s|
    ensures i <= j <= |s| && AllDigits(s[i..j]) && (j == |s| || !IsDigit(s[j]))
    decreases |s| - i
  {
    if i < |s| && IsDigit(s[i]) then
      var j := DigitRunEnd(s, i + 1);
      assert forall k :: i + 1 <= k < j ==> IsDigit(s[k]) by {
        forall k | i + 1 <= k < j ensures IsDigit(s[k]) { assert s[i + 1..j][k - i - 1] == s[k]; }
      }
      j
    else i
  }

  /** The run found at i is exactly the digits that stand there. */
  lemma {:induction false} DigitRunEndAt(s: string, i: nat, j: nat)
    requires i <= j <= |s| && AllDigits(s[i..j]) && (j == |s| || !IsDigit(s[j]))
    ensures DigitRunEnd(s, i) == j
    decreases j - i
  {
    if i < j {
      assert s[i] == s[i..j][0];
      assert s[i + 1..j] == s[i..j][1..];
      DigitRunEndAt(s, i + 1, j);
    }
  }

  /**
   * `Decimal(text)` for the numeric spellings: surrounding whitespace, an optional sign,
   * digits with an optional fraction (`5`, `5.`, `.5`, `5.25`) and an optional exponent
   * (`1e3`, `2.5E-2`). None where the constructor raises.
   */
  function ParseDecimalText(s: string): (r: Option<real>)
    ensures r.Some? ==> !IsBlank(s)
  {
    StripEmptyIffBlank(s);
    ParseNumeral(Strip(s))
  }

  /**
   * The numeric grammar of the `Decimal` constructor on text without surrounding blanks.
   * A readable numeral starts with a sign, a digit or a point, and holds at least one digit.
   */
  function ParseNumeral(t: string): (r: Option<real>)
    ensures r.Some? ==> t != [] && (IsDigit(t[0]) || t[0] == '+' || t[0] == '-' || t[0] == '.')
    ensures r.Some? ==> exists i :: 0 <= i < |t| && IsDigit(t[i])
  {
    var signEnd := if |t| > 0 && (t[0] == '+' || t[0] == '-') then 1 else 0;
    var negative := signEnd == 1 && t[0] == '-';
    var intEnd := DigitRunEnd(t, signEnd);
    var fracStart := if intEnd < |t| && t[intEnd] == '.' then intEnd + 1 else intEnd;
    var fracEnd := DigitRunEnd(t, fracStart);
    var magnitude := FixedPoint(t[signEnd..intEnd], t[fracStart..fracEnd]);
    // the digit that makes a numeral readable: the first of the whole part or of the fraction
    assert intEnd > signEnd ==> IsDigit(t[signEnd]) by {
      if intEnd > signEnd { assert t[signEnd..intEnd][0] == t[signEnd]; }
    }
    assert fracEnd > fracStart ==> IsDigit(t[fracStart]) by {
      if fracEnd > fracStart { assert t[fracStart..fracEnd][0] == t[fracStart]; }
    }
    if intEnd == signEnd && fracEnd == fracStart then None
    else if fracEnd == |t| then Some(if negative then -magnitude else magnitude)
    else if t[fracEnd] == 'e' || t[fracEnd] == 'E' then
      var expSignEnd := if fracEnd + 1 < |t| && (t[fracEnd + 1] == '+' || t[fracEnd + 1] == '-')
                        then fracEnd + 2 else fracEnd + 1;
      var expEnd := DigitRunEnd(t, expSignEnd);
      if expEnd == expSignEnd || expEnd != |t| then None
      else
        var e := DigitsValue(t[expSignEnd..expEnd]);
        var exponent: int := if expSignEnd == fracEnd + 2 && t[fracEnd + 1] == '-' then -(e as int) else e;
        var value := Scale(magnitude, exponent);
        Some(if negative then -value else value)
    else None
  }

  /** The value of `whole.frac`. */
  function FixedPoint(whole: string, frac: string): real
    requires AllDigits(whole) && AllDigits(frac)
  {
    DigitsValue(whole) as real + FractionValue(frac)
  }

  /** The value of the digits after a decimal point: `.d0 d1 ...`. */
  function FractionValue(frac: string): (r: real)
    requires AllDigits(frac)
    ensures 0.0 <= r <= 1.0
  {
    if frac == [] then 0.0 else (DigitValue(frac[0]) as real + FractionValue(frac[1..])) / 10.0
  }

  /** A plain fixed-point numeral `[-]whole.frac` reads as its value. */
  lemma ReadsFixedPoint(negative: bool, whole: string, frac: string)
    requires whole != [] && AllDigits(whole) && AllDigits(frac)
    ensures var t := (if negative then "-" else "") + whole + "." + frac;
            ParseNumeral(t) == Some(if negative then -FixedPoint(whole, frac) else FixedPoint(whole, frac))
  {
    var sign := if negative then "-" else "";
    var t := sign + whole + "." + frac;
    var signEnd := |sign|;
    var intEnd := signEnd + |whole|;
    assert t[0] == if negative then '-' else whole[0];
    assert t[signEnd..intEnd] == whole;
    assert t[intEnd] == '.';
    DigitRunEndAt(t, signEnd, intEnd);
    assert t[intEnd + 1..|t|] == frac;
    DigitRunEndAt(t, intEnd + 1, |t|);
  }

  /**
   * `parse_decimal`: never raises; a missing value and a value whose `str()` the `Decimal`
   * constructor rejects both count as 0.00, and any other value is what `Decimal` reads.
   */
  function ParseDecimal(c: Cell): (r: real)
    ensures IsNa(c) ==> r == 0.0
    ensures !IsNa(c) && ParseDecimalText(Str(c)).None? ==> r == 0.0
    ensures !IsNa(c) && ParseDecimalText(Str(c)).Some? ==> r == ParseDecimalText(Str(c)).value
  {
    if IsNa(c) then 0.0 else ParseDecimalText(Str(c)).GetOr(0.0)
  }

  /** `Decimal("True")` and `Decimal("False")` raise, so a boolean cell reads as 0.00. */
  lemma ParseDecimalOfFlag(b: bool)
    ensures ParseDecimal(BoolCell(b)) == 0.0
  {
    var s := Str(BoolCell(b));
    StripOfTrimmed(s);
    assert !IsDigit(s[0]);
  }

  /**
   * A timestamp renders as `YYYY-MM-DD HH:MM:SS`, which `Decimal` rejects at the first dash,
   * so a timestamp cell reads as 0.00.
   */
  lemma ParseDecimalOfTimestamp(c: Cell, rest: string)
    requires c.TimestampCell? && 1 <= c.date.year <= 9999
    requires c.literal == Pad4(c.date.year) + "-" + rest
    requires rest != [] && IsDigit(rest[|rest| - 1])
    ensures ParseDecimal(c) == 0.0
  {
    var t := c.literal;
    assert t[|t| - 1] == rest[|rest| - 1];
    assert IsDigit(t[0]) by { assert t[0] == Pad4(c.date.year)[0]; }
    StripOfTrimmed(t);
    assert t[..4] == Pad4(c.date.year);
    assert t[0..4] == t[..4];
    DigitRunEndAt(t, 0, 4);
    assert t[4] == '-';
    DigitRunEndAt(t, 4, 4);
  }

  /** A monetary amount in cents, rendered the way `str(Decimal)` renders two decimal places. */
  function FormatCents(cents: int): string {
    var a := if cents < 0 then -cents else cents;
    (if cents < 0 then "-" else "") + NatToString(a / 100) + "." + Pad2(a % 100)
  }

  /** Reading a rendered amount back gives the amount. */
  lemma ParseDecimalTextReadsCents(cents: int)
    ensures ParseDecimalText(FormatCents(cents)) == Some(cents as real / 100.0)
  {
    var a := if cents < 0 then -cents else cents;
    var whole, frac := NatToString(a / 100), Pad2(a % 100);
    assert cents as real / 100.0 == if cents < 0 then -FixedPoint(whole, frac) else FixedPoint(whole, frac) by {
      CentsValue(cents);
    }
    ReadsSignedFixedPoint(FormatCents(cents), cents < 0, whole, frac, cents as real / 100.0);
  }

  /** Text holding `[-]whole.frac` with no surrounding blanks reads as its value x. */
  lemma ReadsSignedFixedPoint(s: string, negative: bool, whole: string, frac: string, x: real)
    requires whole != [] && frac != [] && AllDigits(whole) && AllDigits(frac)
    requires s == (if negative then "-" else "") + whole + "." + frac
    requires x == if negative then -FixedPoint(whole, frac) else FixedPoint(whole, frac)
    ensures ParseDecimalText(s) == Some(x)
  {
    assert s[|s| - 1] == frac[|frac| - 1];
    assert s[0] == if negative then '-' else whole[0];
    StripOfTrimmed(s);
    ReadsFixedPoint(negative, whole, frac);
  }

  lemma CentsValue(cents: int)
    ensures var a := if cents < 0 then -cents else cents;
            var fp := FixedPoint(NatToString(a / 100), Pad2(a % 100));
            (if cents < 0 then -fp else fp) == cents as real / 100.0
  {
    var a := if cents < 0 then -cents else cents;
    FixedPointOfCents(a / 100, a % 100);
    CentsSplit(a);
  }

  lemma FixedPointOfCents(q: nat, r: nat)
    requires r < 100
    ensures FixedPoint(NatToString(q), Pad2(r)) == q as real + r as real / 100.0
  {
    NatToStringRoundTrip(q);
    var f := Pad2(r);
    assert f[1..][1..] == [];
    assert FractionValue(f[1..]) == (r % 10) as real / 10.0;
    assert FractionValue(f) == ((r / 10) as real + (r % 10) as real / 10.0) / 10.0;
    assert r == 10 * (r / 10) + r % 10;
  }

  lemma CentsSplit(a: nat)
    ensures (a / 100) as real + (a % 100) as real / 100.0 == a as real / 100.0
  {
    var q, r := a / 100, a % 100;
    assert a == 100 * q + r;
    assert a as real == 100.0 * q as real + r as real;
  }

  /** A rendered amount is read back from a text cell and from a numeric cell alike. */
  lemma ParseDecimalReadsCents(cents: int)
    ensures ParseDecimal(TextCell(FormatCents(cents))) == cents as real / 100.0
    ensures ParseDecimal(NumberCell(FormatCents(cents))) == cents as real / 100.0
  {
    ParseDecimalTextReadsCents(cents);
  }

  // ---------------------------------------------------------------------------
  // parse_date

  /** The first position of c in s, or -1. */
  function IndexOf(s: string, c: char): (k: int)
    ensures -1 <= k < |s|
    ensures k >= 0 ==> s[k] == c && forall i :: 0 <= i < k ==> s[i] != c
    ensures k < 0 ==> forall i :: 0 <= i < |s| ==> s[i] != c
  {
    if s == [] then -1
    else if s[0] == c then 0
    else
      var k := IndexOf(s[1..], c);
      if k < 0 then -1 else k + 1
  }

  /** What strptime's `%m` accepts: `1[0-2]|0[1-9]|[1-9]`. */
  predicate IsMonthToken(t: string) {
    (|t| == 2 && t[0] == '1' && '0' <= t[1] <= '2')
    || (|t| == 2 && t[0] == '0' && '1' <= t[1] <= '9')
    || (|t| == 1 && '1' <= t[0] <= '9')
  }

  /** What strptime's `%d` accepts: `3[01]|[12]\d|0[1-9]|[1-9]| [1-9]`. */
  predicate IsDayToken(t: string) {
    (|t| == 2 && t[0] == '3' && (t[1] == '0' || t[1] == '1'))
    || (|t| == 2 && (t[0] == '1' || t[0] == '2') && IsDigit(t[1]))
    || (|t| == 2 && t[0] == '0' && '1' <= t[1] <= '9')
    || (|t| == 1 && '1' <= t[0] <= '9')
    || (|t| == 2 && t[0] == ' ' && '1' <= t[1] <= '9')
  }

  /** `int(token)` for a month or day token (`int` ignores the leading blank of " 5"). */
  function TokenValue(t: string): nat
    requires IsMonthToken(t) || IsDayToken(t)
  {
    if t[0] == ' ' then DigitValue(t[1]) else DigitsValue(t)
  }

  /** The date `datetime.date(y, m, d)` builds, or None where it raises. */
  function MakeDate(y: int, m: int, d: int): (r: Option<Date>)
    ensures r.Some? ==> ValidDate(r.value)
  {
    if ValidDate(Date(y, m, d)) then Some(Date(y, m, d)) else None
  }

  /** `datetime.strptime(s, '%Y-%m-%d').date()`, None where it raises. */
  function ParseIsoDate(s: string): (r: Option<Date>)
    ensures r.Some? ==> ValidDate(r.value)
  {
    if |s| < 5 || !AllDigits(s[..4]) || s[4] != '-' then None
    else
      var rest := s[5..];
      var p := IndexOf(rest, '-');
      if p < 0 then None
      else
        var m := rest[..p];
        var d := rest[p + 1..];
        if IsMonthToken(m) && IsDayToken(d) then MakeDate(DigitsValue(s[..4]), TokenValue(m), TokenValue(d))
        else None
  }

  /** `datetime.strptime(s, '%d.%m.%Y').date()`, None where it raises. */
  function ParseDottedDate(s: string): (r: Option<Date>)
    ensures r.Some? ==> ValidDate(r.value)
  {
    var p := IndexOf(s, '.');
    if p < 0 then None
    else
      var d := s[..p];
      var rest := s[p + 1..];
      var q := IndexOf(rest, '.');
      if q < 0 then None
      else
        var m := rest[..q];
        var y := rest[q + 1..];
        if IsDayToken(d) && IsMonthToken(m) && |y| == 4 && AllDigits(y) then
          MakeDate(DigitsValue(y), TokenValue(m), TokenValue(d))
        else None
  }

  /**
   * `parse_date`: None for a missing value; a string is tried as `%Y-%m-%d`, then as
   * `%d.%m.%Y`; a timestamp gives its date; anything else gives None.
   */
  function ParseDate(c: Cell): (r: Option<Date>)
    ensures IsNa(c) || c.NumberCell? || c.BoolCell? ==> r.None?
    ensures c.TextCell? && r.Some? ==> ValidDate(r.value)
    ensures c.TimestampCell? ==> r == Some(c.date)
  {
    match c
    case TextCell(s) =>
      (match ParseIsoDate(s)
       case Some(d) => Some(d)
       case None => ParseDottedDate(s))
    case TimestampCell(d, _, _) => Some(d)
    case _ => None
  }

  /** `date.isoformat()`. */
  function FormatIsoDate(d: Date): string
    requires ValidDate(d)
  {
    Pad4(d.year) + "-" + Pad2(d.month) + "-" + Pad2(d.day)
  }

  /** `date.strftime('%d.%m.%Y')`. */
  function FormatDottedDate(d: Date): string
    requires ValidDate(d)
  {
    Pad2(d.day) + "." + Pad2(d.month) + "." + Pad4(d.year)
  }

  lemma Pad2IsMonthToken(n: nat)
    requires 1 <= n <= 12
    ensures IsMonthToken(Pad2(n)) && TokenValue(Pad2(n)) == n
  {
  }

  lemma Pad2IsDayToken(n: nat)
    requires 1 <= n <= 31
    ensures IsDayToken(Pad2(n)) && TokenValue(Pad2(n)) == n
  {
  }

  /** An ISO date string reads back as its date. */
  lemma ParseDateReadsIso(d: Date)
    requires ValidDate(d)
    ensures ParseDate(TextCell(FormatIsoDate(d))) == Some(d)
  {
    Pad2IsMonthToken(d.month);
    Pad2IsDayToken(d.day);
    IsoTokensRead(Pad4(d.year), Pad2(d.month), Pad2(d.day), d);
  }

  /** Four digits, a month token and a two-character day token, joined by '-', read as the date they spell. */
  lemma IsoTokensRead(y: string, m: string, dd: string, d: Date)
    requires ValidDate(d)
    requires |y| == 4 && AllDigits(y) && DigitsValue(y) == d.year
    requires |m| == 2 && IsMonthToken(m) && TokenValue(m) == d.month
    requires |dd| == 2 && IsDayToken(dd) && TokenValue(dd) == d.day
    ensures ParseIsoDate(y + "-" + m + "-" + dd) == Some(d)
  {
    var s := y + "-" + m + "-" + dd;
    var rest := s[5..];
    assert s[..4] == y && s[4] == '-';
    assert rest == m + "-" + dd;
    assert rest[0] != '-' && rest[1] != '-' && rest[2] == '-';
    assert IndexOf(rest, '-') == 2;
    assert rest[..2] == m;
    assert rest[3..] == dd;
  }

  /** A `dd.mm.yyyy` string is not an ISO date, and reads back as its date on the second try. */
  lemma ParseDateReadsDotted(d: Date)
    requires ValidDate(d)
    ensures ParseIsoDate(FormatDottedDate(d)) == None
    ensures ParseDate(TextCell(FormatDottedDate(d))) == Some(d)
  {
    Pad2IsMonthToken(d.month);
    Pad2IsDayToken(d.day);
    DottedTokensRead(Pad2(d.day), Pad2(d.month), Pad4(d.year), d);
  }

  /** A two-character day token, a month token and four digits, joined by '.', fail the ISO
      format and read as the date they spell in the dotted one. */
  lemma DottedTokensRead(dd: string, m: string, y: string, d: Date)
    requires ValidDate(d)
    requires |y| == 4 && AllDigits(y) && DigitsValue(y) == d.year
    requires |m| == 2 && IsMonthToken(m) && TokenValue(m) == d.month
    requires |dd| == 2 && IsDayToken(dd) && TokenValue(dd) == d.day
    ensures ParseIsoDate(dd + "." + m + "." + y) == None
    ensures ParseDottedDate(dd + "." + m + "." + y) == Some(d)
  {
    var s := dd + "." + m + "." + y;
    assert s[2] == '.';
    assert !AllDigits(s[..4]);
    var rest := s[3..];
    assert s[0] != '.' && s[1] != '.';
    assert IndexOf(s, '.') == 2;
    assert s[..2] == dd;
    assert rest == m + "." + y;
    assert rest[0] != '.' && rest[1] != '.' && rest[2] == '.';
    assert IndexOf(rest, '.') == 2;
    assert rest[..2] == m;
    assert rest[3..] == y;
  }
}
