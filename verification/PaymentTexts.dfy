/**
  What the texts of a payment plan mean: decimal amounts, calendar dates and currencies, said without
  the functions that read them. The capital-amount printer reads the same decimals.
 */
module PaymentTexts {
  import opened Wrappers
  import opened Text
  import opened PaymentTerms
  import MoneyText

  // ----- Amounts -----

  /** The hundredths of a decimal with at most two digits after the point. */
  function Hundredths(whole: string, fraction: string): nat
    requires AllDigits(whole) && AllDigits(fraction) && |fraction| <= 2
  {
    100 * Parse(whole) + Parse(fraction) * Pow10(2 - |fraction|)
  }

  lemma {:induction false} Cents(fraction: string)
    requires AllDigits(fraction) && |fraction| <= 2
    ensures CentsOf(fraction) == Parse(fraction) * Pow10(2 - |fraction|)
  {
    assert Pow10(1) == 10 && Pow10(2) == 100 && Pow10(0) == 1;
    if fraction == "" {
      ZeroIsEmpty();
    }
  }

  lemma {:induction false} DigitsAreTrimmed(whole: string, fraction: string)
    requires AllDigits(whole) && AllDigits(fraction) && whole != ""
    ensures TrimSpace(whole) == whole && '.' !in whole && '.' !in fraction
    ensures fraction != "" ==> TrimSpace(whole + "." + fraction) == whole + "." + fraction
  {
    TrimmedIsFixed(whole);
    var all := whole + "." + fraction;
    assert all[0] == whole[0];
    if fraction != "" {
      assert all[|all| - 1] == fraction[|fraction| - 1];
      TrimmedIsFixed(all);
    }
  }

  /** A whole amount, and one with one or two decimals, is read at its value, up to the largest int64; more decimals are refused. */
  lemma {:induction false} DecimalsRead(whole: string, fraction: string)
    requires AllDigits(whole) && AllDigits(fraction) && whole != "" && fraction != ""
    ensures AmountMinor(whole) == if Hundredths(whole, "") <= MAX_INT64 then Some(Hundredths(whole, "")) else None
    ensures |fraction| <= 2 ==>
              AmountMinor(whole + "." + fraction) == if Hundredths(whole, fraction) <= MAX_INT64 then Some(Hundredths(whole, fraction)) else None
    ensures |fraction| > 2 ==> AmountMinor(whole + "." + fraction) == None
  {
    DigitsAreTrimmed(whole, fraction);
    SplitWhole(whole, '.');
    SplitPair(whole, fraction, '.');
    ZeroIsEmpty();
    if |fraction| <= 2 {
      Cents(fraction);
    }
    hide Parse, TrimSpace, Split, AllDigits, CentsOf;
  }

  lemma {:induction false} SplitJoin(s: string, sep: char)
    ensures |Split(s, sep)| == 1 ==> Split(s, sep) == [s]
    ensures |Split(s, sep)| == 2 ==> s == Split(s, sep)[0] + [sep] + Split(s, sep)[1]
  {
    if s != "" {
      SplitJoin(s[1..], sep);
      assert s == [s[0]] + s[1..];
      var rest := Split(s[1..], sep);
      assert Split(s, sep) == if s[0] == sep then [""] + rest else [[s[0]] + rest[0]] + rest[1..];
      hide Split;
      if |rest| == 2 && s[0] != sep {
        JoinAhead(s[0], rest[0], sep, rest[1]);
      }
    }
  }

  lemma {:induction false} JoinAhead(c: char, a: string, sep: char, b: string)
    ensures [c] + (a + [sep] + b) == ([c] + a) + [sep] + b
  {
  }

  /** Nothing else is an amount: digits, and if there is a point, one or two digits after it. */
  lemma {:induction false} OnlyDecimalsAreRead(s: string) returns (whole: string, fraction: string)
    requires AmountMinor(s).Some?
    ensures AllDigits(whole) && whole != "" && AllDigits(fraction) && |fraction| <= 2
    ensures TrimSpace(s) == if fraction == "" then whole else whole + "." + fraction
  {
    var parts := Split(TrimSpace(s), '.');
    SplitJoin(TrimSpace(s), '.');
    whole, fraction := parts[0], if |parts| == 2 then parts[1] else "";
  }

  /** Printer and parser agree on every decimal both accept. */
  lemma {:induction false} BothReadAlike(whole: string, fraction: string)
    requires AllDigits(whole) && AllDigits(fraction) && whole != "" && fraction != "" && |fraction| <= 2
    ensures Parse(whole) < MoneyText.Place(4) ==>
              MoneyText.MoneyAmount(whole + "." + fraction) == Ok((Parse(whole), Hundredths("0", fraction)))
    ensures MoneyText.MoneyAmount(whole + "." + fraction).Ok? && AmountMinor(whole + "." + fraction).Some? ==>
              var (yuan, cents) := MoneyText.MoneyAmount(whole + "." + fraction).value;
              AmountMinor(whole + "." + fraction) == Some(100 * yuan + cents)
  {
    var all := whole + "." + fraction;
    DigitsAreTrimmed(whole, fraction);
    DecimalsRead(whole, fraction);
    NothingStripped(all);
    SplitPair(whole, fraction, '.');
    Cents(fraction);
    assert Parse("0") == 0 by { assert "0"[..0] == ""; }
    hide Parse, TrimSpace, Split, AllDigits, CentsOf, MoneyText.Strip;
  }

  lemma {:induction false} NothingStripped(s: string)
    requires forall i :: 0 <= i < |s| ==> IsDigit(s[i]) || s[i] == '.'
    ensures MoneyText.Strip(s) == s
  {
    if s != "" {
      NothingStripped(s[1..]);
      assert s == [s[0]] + s[1..];
    }
  }

  /** Separators and currency signs inside a capital amount are passed over. */
  lemma {:induction false} SeparatorsIgnored(a: string, c: char, b: string)
    requires a != "" && b != "" && !IsSpace(a[0]) && !IsSpace(b[|b| - 1]) && c in ",，￥¥元 "
    ensures MoneyText.MoneyAmount(a + [c] + b) == MoneyText.MoneyAmount(a + b)
  {
    var x, y := a + [c] + b, a + b;
    assert x[0] == y[0] == a[0] && x[|x| - 1] == y[|y| - 1] == b[|b| - 1];
    TrimmedIsFixed(x);
    TrimmedIsFixed(y);
    SeparatorStripped(a, c, b);
    hide TrimSpace, MoneyText.Strip, Split;
  }

  lemma {:induction false} SeparatorStripped(a: string, c: char, b: string)
    requires c in ",，￥¥元 "
    ensures MoneyText.Strip(a + [c] + b) == MoneyText.Strip(a + b)
  {
    StripConcat(a + [c], b);
    StripConcat(a, [c]);
    StripConcat(a, b);
    assert [c][1..] == "" && MoneyText.Strip([c]) == "";
    assert MoneyText.Strip(a) + "" == MoneyText.Strip(a);
  }

  lemma {:induction false} StripConcat(a: string, b: string)
    ensures MoneyText.Strip(a + b) == MoneyText.Strip(a) + MoneyText.Strip(b)
  {
    if a == "" {
      assert a + b == b;
    } else {
      assert (a + b)[1..] == a[1..] + b;
      StripConcat(a[1..], b);
    }
  }

  // ----- Dates -----

  /** The days of a month by the knuckle rule; February is long in years divisible by 4, those by 25 only if by 16. */
  function MonthDays(year: nat, month: nat): nat {
    if month == 2 then (if year % 16 == 0 || (year % 4 == 0 && year % 25 != 0) then 29 else 28) else 30 + (month + month / 8) % 2
  }

  /** Exactly the dates of the calendar from the year 1000 on are accepted, written with four, two and two digits. */
  lemma {:induction false} CalendarExactly(year: nat, month: nat, day: nat)
    requires year < 10000 && month < 100 && day < 100
    ensures ValidDate(Pad(year, 4) + "-" + Pad(month, 2) + "-" + Pad(day, 2))
            <==> year >= 1000 && 1 <= month <= 12 && 1 <= day <= MonthDays(year, month)
  {
    assert Pow10(4) == 10 * Pow10(3) && Pow10(3) == 10 * Pow10(2) && Pow10(2) == 10 * Pow10(1) && Pow10(1) == 10;
    PadExact(year, 4);
    PadExact(month, 2);
    PadExact(day, 2);
    ParsePad(year, 4);
    ParsePad(month, 2);
    ParsePad(day, 2);
    var y, m, d := Pad(year, 4), Pad(month, 2), Pad(day, 2);
    hide Pad, Parse, DaysIn, MonthDays, AllDigits;
    DatePieces(y, m, d);
    SameDays(year, month);
  }

  lemma {:induction false} PadExact(n: nat, width: nat)
    requires width > 0 && n < Pow10(width)
    ensures |Pad(n, width)| == width && AllDigits(Pad(n, width))
  {
    PrintLength(n, width);
  }

  lemma {:induction false} DatePieces(y: string, m: string, d: string)
    requires |y| == 4 && |m| == 2 && |d| == 2
    ensures var s := y + "-" + m + "-" + d;
            |s| == 10 && s[4] == '-' && s[7] == '-' && s[..4] == y && s[5..7] == m && s[8..] == d
  {
  }

  lemma {:induction false} SameDays(year: nat, month: nat)
    ensures 1 <= month <= 12 ==> DaysIn(month, year) == MonthDays(year, month)
  {
    LeapBySixteen(year);
  }

  lemma {:induction false} LeapBySixteen(year: nat)
    ensures LeapYear(year) <==> year % 16 == 0 || (year % 4 == 0 && year % 25 != 0)
  {
    Factors(year);
    if year % 4 == 0 && year % 25 == 0 {
      Hundreds(year);
    }
    if year % 16 == 0 && year % 25 == 0 {
      FourHundreds(year);
    }
  }

  lemma {:induction false} Factors(year: nat)
    ensures year % 100 == 0 ==> year % 4 == 0 && year % 25 == 0
    ensures year % 400 == 0 ==> year % 16 == 0 && year % 100 == 0
    ensures year % 16 == 0 ==> year % 4 == 0
  {
    assert year % 100 == 0 ==> year == 4 * (25 * (year / 100)) == 25 * (4 * (year / 100));
    assert year % 400 == 0 ==> year == 16 * (25 * (year / 400)) == 100 * (4 * (year / 400));
    assert year % 16 == 0 ==> year == 4 * (4 * (year / 16));
  }

  lemma {:induction false} Hundreds(year: nat)
    requires year % 4 == 0 && year % 25 == 0
    ensures year % 100 == 0
  {
    var a, b := year / 4, year / 25;
    assert year == 100 * (a - 6 * b);
  }

  lemma {:induction false} FourHundreds(year: nat)
    requires year % 16 == 0 && year % 25 == 0
    ensures year % 400 == 0
  {
    var a, b := year / 16, year / 25;
    FromParts(year, a, b);
  }

  lemma {:induction false} FromParts(year: nat, a: nat, b: nat)
    requires year == 16 * a == 25 * b
    ensures year % 400 == 0
  {
    var c := 9 * a - 14 * b;
    assert b == 16 * c;
    assert year == 400 * c;
  }

  // ----- Currencies -----

  /** An ASCII letter, or one of the two others whose upper case is one: dotless i and long s. */
  predicate IsLetter(c: char) {
    'A' <= c <= 'Z' || 'a' <= c <= 'z' || c in ['\U{131}', '\U{17f}']
  }

  /** Exactly three letters, of either case, between blanks. */
  lemma {:induction false} CurrencyExactly(currency: string)
    ensures ValidCurrency(currency) <==>
            |TrimSpace(currency)| == 3 && forall i :: 0 <= i < 3 ==> IsLetter(TrimSpace(currency)[i])
  {
    var s := TrimSpace(currency);
    assert |Upper(s)| == |s|;
    forall i | 0 <= i < |s| ensures 'A' <= Upper(s)[i] <= 'Z' <==> IsLetter(s[i]) {
      assert Upper(s)[i] == UpperChar(s[i]);
    }
    hide TrimSpace, Upper, IsLetter;
  }
}
