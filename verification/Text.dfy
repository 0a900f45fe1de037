/**
  The string operations of Go's `strings`, `strconv` and `fmt` packages that the
  modelled code relies on: trimming, splitting, ASCII case folding and decimal numbers.
  A character of a Dafny string stands for one character of valid text.
 */
module Text {

  /** The white space that strings.TrimSpace removes. */
  predicate IsSpace(c: char) {
    || c == ' ' || '\U{9}' <= c <= '\U{d}' || c == '\U{85}' || c == '\U{a0}' || c == '\U{1680}'
    || '\U{2000}' <= c <= '\U{200a}' || c == '\U{2028}' || c == '\U{2029}' || c == '\U{202f}'
    || c == '\U{205f}' || c == '\U{3000}'
  }

  function TrimLeft(s: string): string {
    if s != "" && IsSpace(s[0]) then TrimLeft(s[1..]) else s
  }

  function TrimRight(s: string): string {
    if s != "" && IsSpace(s[|s| - 1]) then TrimRight(s[..|s| - 1]) else s
  }

  function TrimSpace(s: string): string {
    TrimRight(TrimLeft(s))
  }

  /** Nothing left to trim at either end. */
  predicate Trimmed(s: string) {
    s == "" || (!IsSpace(s[0]) && !IsSpace(s[|s| - 1]))
  }

  lemma TrimmedIsFixed(s: string)
    requires Trimmed(s)
    ensures TrimSpace(s) == s
  {
  }

  lemma {:induction false} TrimRightEnd(s: string)
    ensures TrimRight(s) == "" || !IsSpace(TrimRight(s)[|TrimRight(s)| - 1])
    ensures TrimRight(s) <= s
  {
    if s != "" && IsSpace(s[|s| - 1]) {
      TrimRightEnd(s[..|s| - 1]);
    }
  }

  lemma {:induction false} TrimLeftStart(s: string)
    ensures TrimLeft(s) == "" || !IsSpace(TrimLeft(s)[0])
  {
    if s != "" && IsSpace(s[0]) {
      TrimLeftStart(s[1..]);
    }
  }

  lemma TrimSpaceTrims(s: string)
    ensures Trimmed(TrimSpace(s))
    ensures TrimSpace(TrimSpace(s)) == TrimSpace(s)
  {
    TrimLeftStart(s);
    TrimRightEnd(TrimLeft(s));
    TrimmedIsFixed(TrimSpace(s));
  }

  predicate Blank(s: string) {
    forall i :: 0 <= i < |s| ==> IsSpace(s[i])
  }

  lemma {:induction false} TrimLeftCuts(s: string) returns (a: string)
    ensures Blank(a) && s == a + TrimLeft(s)
  {
    a := "";
    if s != "" && IsSpace(s[0]) {
      a := TrimLeftCuts(s[1..]);
      a := [s[0]] + a;
    }
  }

  lemma {:induction false} TrimRightCuts(s: string) returns (b: string)
    ensures Blank(b) && s == TrimRight(s) + b
  {
    b := "";
    if s != "" && IsSpace(s[|s| - 1]) {
      b := TrimRightCuts(s[..|s| - 1]);
      b := b + [s[|s| - 1]];
    }
  }

  /** Trimming cuts off blanks and nothing else. */
  lemma {:induction false} TrimCuts(s: string) returns (a: string, b: string)
    ensures Blank(a) && Blank(b) && s == a + TrimSpace(s) + b && Trimmed(TrimSpace(s))
  {
    a := TrimLeftCuts(s);
    b := TrimRightCuts(TrimLeft(s));
    TrimSpaceTrims(s);
  }

  // ----- Splitting -----

  /** strings.Split with a one-character separator. */
  function Split(s: string, sep: char): (parts: seq<string>)
    ensures parts != []
  {
    if s == "" then [""]
    else
      var rest := Split(s[1..], sep);
      if s[0] == sep then [""] + rest else [[s[0]] + rest[0]] + rest[1..]
  }

  lemma {:induction false} SplitWhole(s: string, sep: char)
    requires sep !in s
    ensures Split(s, sep) == [s]
  {
    if s != "" {
      SplitWhole(s[1..], sep);
      assert s == [s[0]] + s[1..];
    }
  }

  lemma {:induction false} SplitPair(a: string, b: string, sep: char)
    requires sep !in a && sep !in b
    ensures Split(a + [sep] + b, sep) == [a, b]
  {
    var s := a + [sep] + b;
    if a == "" {
      assert s[1..] == b;
      SplitWhole(b, sep);
    } else {
      assert s[1..] == a[1..] + [sep] + b;
      SplitPair(a[1..], b, sep);
      assert a == [a[0]] + a[1..];
    }
  }

  // ----- Case -----

  /** ASCII lower case; what a case-insensitive comparison of ASCII text compares. */
  function LowerChar(c: char): char {
    if 'A' <= c <= 'Z' then (c as int - 'A' as int + 'a' as int) as char else c
  }

  function Lower(s: string): (r: string)
    ensures |r| == |s|
    ensures forall i :: 0 <= i < |s| ==> r[i] == LowerChar(s[i])
  {
    seq(|s|, i requires 0 <= i < |s| => LowerChar(s[i]))
  }

  /** strings.ToUpper on the characters whose upper case is an ASCII letter. */
  function UpperChar(c: char): char {
    if 'a' <= c <= 'z' then (c as int - 'a' as int + 'A' as int) as char
    else if c == '\U{131}' then 'I'
    else if c == '\U{17f}' then 'S'
    else c
  }

  function Upper(s: string): (r: string)
    ensures |r| == |s|
    ensures forall i :: 0 <= i < |s| ==> r[i] == UpperChar(s[i])
  {
    seq(|s|, i requires 0 <= i < |s| => UpperChar(s[i]))
  }

  // ----- Decimal numbers -----

  predicate IsDigit(c: char) {
    '0' <= c <= '9'
  }

  predicate AllDigits(s: string) {
    forall i :: 0 <= i < |s| ==> IsDigit(s[i])
  }

  function DigitValue(c: char): (d: nat)
    requires IsDigit(c)
    ensures d < 10
  {
    c as int - '0' as int
  }

  function DigitChar(d: nat): (c: char)
    requires d < 10
    ensures IsDigit(c) && DigitValue(c) == d
  {
    ('0' as int + d) as char
  }

  /** The number a string of digits denotes; "" denotes 0. */
  function Parse(s: string): nat
    requires AllDigits(s)
  {
    if s == "" then 0 else Parse(s[..|s| - 1]) * 10 + DigitValue(s[|s| - 1])
  }

  /** fmt's %d for a natural number. */
  function Print(n: nat): (s: string)
    ensures s != "" && AllDigits(s)
  {
    if n < 10 then [DigitChar(n)] else Print(n / 10) + [DigitChar(n % 10)]
  }

  function Pow10(k: nat): (p: nat)
    ensures p > 0
  {
    if k == 0 then 1 else 10 * Pow10(k - 1)
  }

  function Zeros(k: nat): (s: string)
    ensures |s| == k && AllDigits(s)
  {
    seq(k, i => '0')
  }

  /** fmt's %0*d for a natural number. */
  function Pad(n: nat, width: nat): (s: string)
    ensures s != "" && AllDigits(s)
  {
    var s := Print(n);
    if |s| < width then Zeros(width - |s|) + s else s
  }

  lemma ParseOne(c: char)
    requires IsDigit(c)
    ensures AllDigits([c]) && Parse([c]) == DigitValue(c)
  {
    assert [c][..0] == "";
  }

  lemma ZeroIsEmpty()
    ensures Parse("0") == 0 == Parse("")
  {
    ParseOne('0');
  }

  lemma {:induction false} ParsePrint(n: nat)
    ensures Parse(Print(n)) == n
  {
    var s := Print(n);
    if n >= 10 {
      ParsePrint(n / 10);
      assert s[..|s| - 1] == Print(n / 10);
    }
  }

  lemma {:induction false} ParseConcat(a: string, b: string)
    requires AllDigits(a) && AllDigits(b)
    ensures AllDigits(a + b)
    ensures Parse(a + b) == Parse(a) * Pow10(|b|) + Parse(b)
  {
    if b == "" {
      assert a + b == a;
    } else {
      var c := b[..|b| - 1];
      ParseConcat(a, c);
      assert (a + b)[..|a + b| - 1] == a + c;
      calc {
        Parse(a + b);
        (Parse(a) * Pow10(|c|) + Parse(c)) * 10 + DigitValue(b[|b| - 1]);
        Parse(a) * Pow10(|c|) * 10 + Parse(b);
        { TimesTen(Parse(a), Pow10(|c|)); }
        Parse(a) * Pow10(|b|) + Parse(b);
      }
    }
  }

  lemma TimesTen(x: nat, y: nat)
    ensures x * y * 10 == x * (10 * y)
  {
  }

  lemma {:induction false} ParseZeros(k: nat)
    ensures Parse(Zeros(k)) == 0
  {
    if k > 0 {
      ParseZeros(k - 1);
      assert Zeros(k)[..k - 1] == Zeros(k - 1);
    }
  }

  lemma ParsePad(n: nat, width: nat)
    ensures Parse(Pad(n, width)) == n
  {
    var s := Print(n);
    ParsePrint(n);
    if |s| < width {
      ParseZeros(width - |s|);
      ParseConcat(Zeros(width - |s|), s);
      assert 0 * Pow10(|s|) == 0;
    }
  }

  /** A number below 10^k prints in at most k digits, and no shorter form exists. */
  lemma {:induction false} PrintLength(n: nat, k: nat)
    requires k > 0
    ensures n < Pow10(k) <==> |Print(n)| <= k
  {
    if k == 1 {
      assert Pow10(1) == 10;
    } else if n >= 10 {
      PrintLength(n / 10, k - 1);
      assert Pow10(k) == 10 * Pow10(k - 1);
    } else {
      assert Pow10(k) == 10 * Pow10(k - 1);
    }
  }

  lemma {:induction false} ParseBound(s: string)
    requires AllDigits(s)
    ensures Parse(s) < Pow10(|s|)
  {
    if s != "" {
      ParseBound(s[..|s| - 1]);
    }
  }

  /** strings.TrimLeft(s, "0"). */
  function TrimZeros(s: string): (r: string)
    ensures |r| <= |s|
    ensures AllDigits(s) ==> AllDigits(r)
  {
    if s != "" && s[0] == '0' then TrimZeros(s[1..]) else s
  }

  lemma {:induction false} TrimZerosValue(s: string)
    requires AllDigits(s)
    ensures Parse(TrimZeros(s)) == Parse(s)
    ensures TrimZeros(s) == "" || TrimZeros(s)[0] != '0'
  {
    if s != "" && s[0] == '0' {
      TrimZerosValue(s[1..]);
      ParseConcat([s[0]], s[1..]);
      assert [s[0]] + s[1..] == s;
      assert Parse("0") == 0;
    }
  }

  /** Without a leading zero the printed form is the only one. */
  lemma {:induction false} PrintParse(s: string)
    requires AllDigits(s) && s != "" && s[0] != '0'
    ensures Print(Parse(s)) == s
    ensures Parse(s) > 0
  {
    if |s| > 1 {
      var t := s[..|s| - 1];
      PrintParse(t);
      assert Parse(s) >= 10;
      assert Parse(s) / 10 == Parse(t);
    } else {
      assert Parse(s[..0]) == 0;
    }
  }

  lemma ConcatDigits(a: string, b: string)
    ensures AllDigits(a + b) <==> AllDigits(a) && AllDigits(b)
  {
    assert forall i :: 0 <= i < |b| ==> (a + b)[|a| + i] == b[i];
    assert forall i :: 0 <= i < |a| ==> (a + b)[i] == a[i];
  }

  // ----- Decimal fractions of at most two digits -----

  /** Hundredths denoted by the digits after a decimal point: ".5" is fifty, ".05" is five. */
  function CentsOf(fraction: string): nat
    requires AllDigits(fraction) && |fraction| <= 2
  {
    if |fraction| == 0 then 0 else if |fraction| == 1 then 10 * Parse(fraction) else Parse(fraction)
  }

  /** The same fraction filled up with zeros to two digits. */
  function PadFraction(fraction: string): string {
    if |fraction| == 0 then "00" else if |fraction| == 1 then fraction + "0" else fraction
  }

  lemma PaddedCents(fraction: string)
    requires AllDigits(fraction) && |fraction| <= 2
    ensures AllDigits(PadFraction(fraction)) && |PadFraction(fraction)| == 2
    ensures Parse(PadFraction(fraction)) == CentsOf(fraction) < 100
  {
    var padded := PadFraction(fraction);
    TwoDigits(padded);
    if |fraction| == 1 {
      assert fraction[..0] == "";
      assert padded[0] == fraction[0] && padded[1] == '0';
    }
  }

  lemma TwoDigits(s: string)
    requires AllDigits(s) && |s| == 2
    ensures Parse(s) == 10 * DigitValue(s[0]) + DigitValue(s[1])
  {
    ParseOne(s[0]);
    assert s[..1] == [s[0]];
  }

  /** The character check of both amount parsers. */
  method OnlyDigits(text: string) returns (ok: bool)
    ensures ok == AllDigits(text)
  {
    for i := 0 to |text|
      invariant forall k :: 0 <= k < i ==> IsDigit(text[k])
    {
      if text[i] < '0' || text[i] > '9' {
        return false;
      }
    }
    return true;
  }

  /** Writing piece by piece and writing at once come to the same text. */
  lemma Pieces(text: string, zero: string, a: string, b: string, left: string)
    ensures text + (zero + (a + b + left)) == text + zero + a + b + left
  {
  }
}
