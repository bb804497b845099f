/**
 * Date strings: the dashboard page's normalisation of the `date` query parameter
 * (app/dashboard/page.tsx) and the YYYY-MM-DD formatting of lib/utils/date.ts, with
 * a calendar date given as (year, month index 0..11, day of month) since reading the
 * clock is not modelled.
 */
module DateStrings {
  import opened Wrappers

  /** The part of `s` before its first 'T' (all of `s` when it has none), as `s.split('T')[0]`. */
  function BeforeFirstT(s: string): (r: string)
    ensures r <= s
    ensures 'T' !in r
    ensures |r| < |s| <==> 'T' in s
    ensures |r| < |s| ==> s[|r|] == 'T'
    ensures 'T' !in s ==> r == s
  {
    if s == [] then []
    else if s[0] == 'T' then []
    else
      var rest := BeforeFirstT(s[1..]);
      assert s == [s[0]] + s[1..];
      [s[0]] + rest
  }

  /** The normalised form of a present date: cut at the first 'T', then to 10 characters. */
  function Normalized(s: string): (r: string)
    ensures r <= s
    ensures |r| <= 10
    ensures 'T' !in r
    ensures 'T' !in s && |s| <= 10 ==> r == s
    ensures |r| == if |BeforeFirstT(s)| > 10 then 10 else |BeforeFirstT(s)|
  {
    var beforeT := BeforeFirstT(s);
    if |beforeT| > 10 then beforeT[..10] else beforeT
  }

  /** Normalising twice is normalising once. */
  lemma NormalizedIdempotent(s: string)
    ensures Normalized(Normalized(s)) == Normalized(s)
  {
  }

  /** The query parameter after normalisation: an absent date stays absent. */
  function NormalizedParam(date: Option<string>): (r: Option<string>)
    ensures r.None? <==> date.None?
    ensures r.Some? ==> r.value <= date.value && |r.value| <= 10 && 'T' !in r.value
  {
    match date
    case None => None
    case Some(s) => Some(Normalized(s))
  }

  /**
   * The dashboard page's normalisation, step by step: a non-empty date is cut at its
   * first 'T', then to its first 10 characters if it is still longer.
   */
  method NormalizeDate(param: Option<string>) returns (date: Option<string>)
    ensures date == NormalizedParam(param)
    ensures date.None? <==> param.None?
    ensures date.Some? ==> date.value <= param.value && |date.value| <= 10 && 'T' !in date.value
  {
    date := param;
    if date.Some? && date.value != "" {
      if 'T' in date.value {
        date := Some(BeforeFirstT(date.value));
      }
      if |date.value| > 10 {
        date := Some(date.value[..10]);
      }
    }
  }

  /** `date || undefined`, what the page hands on: an empty date counts as none (today). */
  function ClientDate(date: Option<string>): (r: Option<string>)
    ensures r.Some? <==> date.Some? && date.value != ""
    ensures r.Some? ==> r == date
  {
    if date.Some? && date.value != "" then date else None
  }

  /** The character of a decimal digit. */
  function DigitChar(d: nat): (c: char)
    requires d < 10
    ensures '0' <= c <= '9'
  {
    ['0', '1', '2', '3', '4', '5', '6', '7', '8', '9'][d]
  }

  /** The value of a digit character. */
  function DigitValue(c: char): (d: nat)
    requires '0' <= c <= '9'
    ensures d < 10
    ensures DigitChar(d) == c
  {
    var d := (c as int - '0' as int) as nat;
    assert ['0', '1', '2', '3', '4', '5', '6', '7', '8', '9'][d] == c;
    d
  }

  /** A non-empty string of decimal digits. */
  predicate IsDigits(s: string) {
    s != [] && forall i :: 0 <= i < |s| ==> '0' <= s[i] <= '9'
  }

  /** `String(n)` for a non-negative integer: its decimal digits, no leading zero. */
  function DecimalString(n: nat): (s: string)
    ensures IsDigits(s)
    ensures n > 0 ==> s[0] != '0'
    ensures n < 10 <==> |s| == 1
  {
    if n < 10 then [DigitChar(n)]
    else
      var prefix := DecimalString(n / 10);
      prefix + [DigitChar(n % 10)]
  }

  /** The number a digit string spells. */
  function DigitsValue(s: string): nat
    requires forall i :: 0 <= i < |s| ==> '0' <= s[i] <= '9'
  {
    if s == [] then 0 else 10 * DigitsValue(s[..|s| - 1]) + DigitValue(s[|s| - 1])
  }

  /** Reading the decimal digits of `n` back gives `n`. */
  lemma {:induction false} DecimalStringValue(n: nat)
    ensures DigitsValue(DecimalString(n)) == n
  {
    var s := DecimalString(n);
    if n >= 10 {
      DecimalStringValue(n / 10);
      assert s[..|s| - 1] == DecimalString(n / 10);
      assert DigitValue(s[|s| - 1]) == n % 10;
    } else {
      assert DigitValue(s[0]) == n;
    }
  }

  /** `n` has at most `j` digits below 10^j, and more than `j` from 10^j on. */
  lemma {:induction false} DecimalStringLength(n: nat, j: nat)
    ensures j >= 1 && n < Pow10(j) ==> |DecimalString(n)| <= j
    ensures n >= Pow10(j) ==> |DecimalString(n)| > j
  {
    if n >= 10 && j >= 1 {
      DecimalStringLength(n / 10, j - 1);
    }
  }

  /** 10 to the power `k`. */
  function Pow10(k: nat): (p: nat)
    ensures p >= 1
  {
    if k == 0 then 1 else 10 * Pow10(k - 1)
  }

  /** `s.padStart(2, '0')`. */
  function PadStart2(s: string): (r: string)
    ensures |s| >= 2 ==> r == s
    ensures |s| < 2 ==> |r| == 2 && r[2 - |s|..] == s && forall i :: 0 <= i < 2 - |s| ==> r[i] == '0'
  {
    if |s| >= 2 then s else seq(2 - |s|, _ => '0') + s
  }

  /** `String(n).padStart(2, '0')` for 0 <= n < 100: two digits spelling `n`. */
  lemma TwoDigits(n: nat)
    requires n < 100
    ensures var p := PadStart2(DecimalString(n));
            |p| == 2 && IsDigits(p) && DigitsValue(p) == n
  {
    var s := DecimalString(n);
    var p := PadStart2(s);
    DecimalStringValue(n);
    if n < 10 {
      assert p == ['0'] + s;
      assert p[..1] == ['0'];
      assert DigitsValue(p[..1]) == 0 by {
        assert p[..1][..0] == [];
      }
      assert s[..0] == [];
    } else {
      DecimalStringLength(n, 1);
      DecimalStringLength(n, 2);
    }
  }

  /** A date as `getTodayDateString` builds it: `${year}-${month}-${day}`, month and day padded. */
  function DateString(year: nat, monthIndex: nat, day: nat): (r: string) {
    DecimalString(year) + "-" + PadStart2(DecimalString(monthIndex + 1)) + "-" + PadStart2(DecimalString(day))
  }

  /**
   * For a month index 0..11 and a day 1..31 the string is the year's digits, '-', two
   * digits spelling the month 1..12, '-', two digits spelling the day, in that order.
   */
  lemma DateStringLayout(year: nat, monthIndex: nat, day: nat)
    requires monthIndex < 12 && 1 <= day <= 31
    ensures var y := DecimalString(year);
            var m := PadStart2(DecimalString(monthIndex + 1));
            var d := PadStart2(DecimalString(day));
            && DateString(year, monthIndex, day) == y + "-" + m + "-" + d
            && IsDigits(y) && DigitsValue(y) == year
            && |m| == 2 && IsDigits(m) && DigitsValue(m) == monthIndex + 1
            && |d| == 2 && IsDigits(d) && DigitsValue(d) == day
  {
    TwoDigits(monthIndex + 1);
    TwoDigits(day);
    DecimalStringValue(year);
  }

  /**
   * A date with a four-digit year is exactly ten characters, and the dashboard's
   * normalisation leaves it unchanged.
   */
  lemma FourDigitYearDate(year: nat, monthIndex: nat, day: nat)
    requires 1000 <= year <= 9999 && monthIndex < 12 && 1 <= day <= 31
    ensures |DateString(year, monthIndex, day)| == 10
    ensures Normalized(DateString(year, monthIndex, day)) == DateString(year, monthIndex, day)
  {
    DecimalStringLength(year, 3);
    DecimalStringLength(year, 4);
    var y := DecimalString(year);
    var m := PadStart2(DecimalString(monthIndex + 1));
    var d := PadStart2(DecimalString(day));
    TwoDigits(monthIndex + 1);
    TwoDigits(day);
    NoTInDigits(y);
    NoTInDigits(m);
    NoTInDigits(d);
    assert 'T' !in y + "-" + m + "-" + d;
  }

  /** Within one month, the date string determines the day. */
  lemma SameDateSameDay(year: nat, monthIndex: nat, d1: nat, d2: nat)
    requires monthIndex < 12 && 1 <= d1 <= 31 && 1 <= d2 <= 31
    requires DateString(year, monthIndex, d1) == DateString(year, monthIndex, d2)
    ensures d1 == d2
  {
    DateStringLayout(year, monthIndex, d1);
    DateStringLayout(year, monthIndex, d2);
    var prefix := DecimalString(year) + "-" + PadStart2(DecimalString(monthIndex + 1)) + "-";
    var a := PadStart2(DecimalString(d1));
    var b := PadStart2(DecimalString(d2));
    assert DateString(year, monthIndex, d1) == prefix + a;
    assert DateString(year, monthIndex, d2) == prefix + b;
    assert a == (prefix + a)[|prefix|..];
    assert b == (prefix + b)[|prefix|..];
  }

  /** Digits are not the letter 'T'. */
  lemma NoTInDigits(s: string)
    requires IsDigits(s)
    ensures 'T' !in s
  {
  }

  /** The argument of formatDateForDB: a string, or a calendar date. */
  datatype DateArg = Text(s: string) | CalendarDate(year: nat, monthIndex: nat, day: nat)

  /** date-fns' `yyyy`: the year's digits left-padded with '0' to at least four. */
  function YearDigits(year: nat): (r: string)
    ensures |r| >= 4 && IsDigits(r) && DigitsValue(r) == year
  {
    var s := DecimalString(year);
    DecimalStringValue(year);
    if |s| >= 4 then s
    else
      var r := seq(4 - |s|, _ => '0') + s;
      LeadingZeros(4 - |s|, s);
      r
  }

  /** Zeros in front of a digit string do not change the number it spells. */
  lemma {:induction false} LeadingZeros(k: nat, s: string)
    requires IsDigits(s)
    ensures IsDigits(seq(k, _ => '0') + s)
    ensures DigitsValue(seq(k, _ => '0') + s) == DigitsValue(s)
    decreases |s|
  {
    var z := seq(k, _ => '0');
    var r := z + s;
    assert IsDigits(r) by {
      forall i | 0 <= i < |r| ensures '0' <= r[i] <= '9' {
        if i >= k { assert r[i] == s[i - k]; }
      }
    }
    if |s| == 1 {
      ZerosValue(k);
      assert r[..|r| - 1] == z;
    } else {
      LeadingZeros(k, s[..|s| - 1]);
      assert r[..|r| - 1] == z + s[..|s| - 1];
    }
  }

  /** A string of zeros spells 0. */
  lemma {:induction false} ZerosValue(k: nat)
    ensures DigitsValue(seq(k, _ => '0')) == 0
  {
    if k > 0 {
      var z := seq(k, _ => '0');
      assert z[..k - 1] == seq(k - 1, _ => '0');
      ZerosValue(k - 1);
    }
  }

  /**
   * formatDateForDB: a string is returned as it is; a calendar date is formatted
   * `yyyy-MM-dd`.
   */
  function FormatDateForDB(date: DateArg): (r: string)
    ensures date.Text? ==> r == date.s
  {
    match date
    case Text(s) => s
    case CalendarDate(y, m, d) =>
      YearDigits(y) + "-" + PadStart2(DecimalString(m + 1)) + "-" + PadStart2(DecimalString(d))
  }

  /** From the year 1000 on, formatDateForDB and getTodayDateString write a calendar date the same way. */
  lemma FormattersAgree(year: nat, monthIndex: nat, day: nat)
    requires year >= 1000
    ensures FormatDateForDB(CalendarDate(year, monthIndex, day)) == DateString(year, monthIndex, day)
  {
    YearPadding(year);
  }

  /** Before the year 1000 they differ: only formatDateForDB pads the year to four digits. */
  lemma FormattersDiffer(year: nat, monthIndex: nat, day: nat)
    requires year < 1000
    ensures FormatDateForDB(CalendarDate(year, monthIndex, day)) != DateString(year, monthIndex, day)
  {
    YearPadding(year);
    var y := DecimalString(year);
    var padded := YearDigits(year);
    var m := PadStart2(DecimalString(monthIndex + 1));
    var d := PadStart2(DecimalString(day));
    DashAfter(padded, m, d, |y|);
    DashAfter(y, m, d, |y|);
    assert '0' <= padded[|y|] <= '9';
  }

  /** In `a-m-d`, position `k` is that of `a` below `|a|`, and the dash at `|a|`. */
  lemma DashAfter(a: string, m: string, d: string, k: nat)
    requires k <= |a|
    ensures k < |a| ==> (a + "-" + m + "-" + d)[k] == a[k]
    ensures k == |a| ==> (a + "-" + m + "-" + d)[k] == '-'
  {
  }

  /** The padded year is the plain one from 1000 on, and longer before. */
  lemma YearPadding(year: nat)
    ensures year >= 1000 ==> YearDigits(year) == DecimalString(year)
    ensures year < 1000 ==> |DecimalString(year)| < |YearDigits(year)| == 4
  {
    DecimalStringLength(year, 3);
  }

}
