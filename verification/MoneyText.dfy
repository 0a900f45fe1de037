/**
  Capital amounts (internal/docx/document.go, chineseMoneyUpper and its helpers): a decimal
  amount printed in Chinese financial numerals, and a left-to-right reader that gets it back.
 */
module MoneyText {
  import opened Wrappers
  import opened Text

  const DIGITS: string := "零壹贰叁肆伍陆柒捌玖"
  const UNITS: seq<string> := ["", "拾", "佰", "仟"]
  const GROUP_UNITS: seq<string> := ["", "万", "亿", "兆"]

  /** Ten thousand to the k-th power. */
  function Place(k: nat): (p: nat)
    requires k <= 4
    ensures p > 0
  {
    if k == 0 then 1 else if k == 1 then 1_0000 else if k == 2 then 1_0000_0000
    else if k == 3 then 1_0000_0000_0000 else 1_0000_0000_0000_0000
  }

  function Ten(k: nat): (p: nat)
    requires k <= 4
    ensures p > 0
  {
    if k == 0 then 1 else if k == 1 then 10 else if k == 2 then 100 else if k == 3 then 1000 else 10000
  }

  // ----- What is printed -----

  /**
    The numerals of the k lowest decimal places: a leading digit with its unit, then what is
    left, announced by a single zero when the place right after the leading digit is empty.
   */
  function FourText(value: nat, k: nat): string
    requires k <= 4 && value < Ten(k)
  {
    if value == 0 || k == 0 then ""
    else
      var place := Ten(k - 1);
      if value < place then FourText(value, k - 1)
      else [DIGITS[value / place]] + UNITS[k - 1] + Seam(value % place, place) + FourText(value % place, k - 1)
  }

  /** The zero between a leading part worth `place` and a rest that leaves the next place empty. */
  function Seam(rest: nat, place: nat): string {
    if rest != 0 && rest < place / 10 then "零" else ""
  }

  /** The same rule one level up, over groups of four digits. */
  function IntegerText(value: nat, k: nat): string
    requires k <= 4 && value < Place(k)
  {
    if value == 0 || k == 0 then ""
    else
      var place := Place(k - 1);
      if value < place then IntegerText(value, k - 1)
      else
        FourText(value / place, 4) + GROUP_UNITS[k - 1] + Seam(value % place, place) + IntegerText(value % place, k - 1)
  }

  function FractionText(yuan: nat, cents: nat): string
    requires cents < 100
  {
    var jiao, fen := cents / 10, cents % 10;
    if cents == 0 then "整"
    else
      (if jiao > 0 then [DIGITS[jiao]] + "角" else "")
      + (if fen > 0 then (if jiao == 0 && yuan != 0 then "零" else "") + [DIGITS[fen]] + "分" else "")
  }

  function MoneyUpper(yuan: nat, cents: nat): string
    requires yuan < Place(4) && cents < 100
  {
    (if yuan == 0 then "零" else IntegerText(yuan, 4)) + "元" + FractionText(yuan, cents)
  }

  // ----- Reading it back -----

  /** The reader's state: closed groups, the open group, the pending digit and the cents so far. */
  datatype Reading = Reading(total: nat, group: nat, digit: nat, cents: nat)

  function DigitOf(c: char): nat {
    if c == '壹' then 1 else if c == '贰' then 2 else if c == '叁' then 3 else if c == '肆' then 4
    else if c == '伍' then 5 else if c == '陆' then 6 else if c == '柒' then 7 else if c == '捌' then 8
    else if c == '玖' then 9 else 0
  }

  function ReadChar(r: Reading, c: char): Reading {
    if c == '拾' then r.(group := r.group + r.digit * 10, digit := 0)
    else if c == '佰' then r.(group := r.group + r.digit * 100, digit := 0)
    else if c == '仟' then r.(group := r.group + r.digit * 1000, digit := 0)
    else if c == '万' then r.(total := r.total + (r.group + r.digit) * 1_0000, group := 0, digit := 0)
    else if c == '亿' then r.(total := r.total + (r.group + r.digit) * 1_0000_0000, group := 0, digit := 0)
    else if c == '兆' then r.(total := r.total + (r.group + r.digit) * 1_0000_0000_0000, group := 0, digit := 0)
    else if c == '元' then r.(total := r.total + r.group + r.digit, group := 0, digit := 0)
    else if c == '角' then r.(cents := r.cents + r.digit * 10, digit := 0)
    else if c == '分' then r.(cents := r.cents + r.digit, digit := 0)
    else r.(digit := DigitOf(c))
  }

  function Read(r: Reading, text: string): Reading
    decreases |text|
  {
    if text == "" then r else Read(ReadChar(r, text[0]), text[1..])
  }

  /** The amount a capital text denotes. */
  function Decode(text: string): (nat, nat) {
    var r := Read(Reading(0, 0, 0, 0), text);
    (r.total, r.cents)
  }

  lemma {:induction false} ReadConcat(r: Reading, a: string, b: string)
    ensures Read(r, a + b) == Read(Read(r, a), b)
    decreases |a|
  {
    if a == "" {
      assert a + b == b;
    } else {
      assert (a + b)[1..] == a[1..] + b;
      ReadConcat(ReadChar(r, a[0]), a[1..], b);
    }
  }

  lemma ReadOne(r: Reading, c: char)
    ensures Read(r, [c]) == ReadChar(r, c)
  {
    assert [c][1..] == "";
    assert Read(ReadChar(r, c), "") == ReadChar(r, c);
  }

  lemma ReadDigitUnit(r: Reading, d: nat, k: nat)
    requires 0 < d < 10 && k < 4
    ensures var after := Read(r, [DIGITS[d]] + UNITS[k]);
            && after.total == r.total && after.cents == r.cents
            && after.group + after.digit == r.group + d * Ten(k)
            && (k > 0 ==> after.digit == 0)
  {
    ReadConcat(r, [DIGITS[d]], UNITS[k]);
    ReadOne(r, DIGITS[d]);
    assert DigitOf(DIGITS[d]) == d;
    var mid := ReadChar(r, DIGITS[d]);
    assert mid == r.(digit := d);
    if k > 0 {
      ReadOne(mid, UNITS[k][0]);
      assert UNITS[k] == [UNITS[k][0]];
    }
  }

  lemma ReadSeam(r: Reading, rest: nat, place: nat)
    requires r.digit == 0
    ensures Read(r, Seam(rest, place)) == r
  {
    ReadOne(r, '零');
  }

  lemma LeadingDigit(value: nat, k: nat)
    requires 0 < k <= 4 && Ten(k - 1) <= value < Ten(k)
    ensures 0 < value / Ten(k - 1) < 10 && value % Ten(k - 1) < Ten(k - 1)
    ensures value == (value / Ten(k - 1)) * Ten(k - 1) + value % Ten(k - 1)
    ensures k == 1 ==> value % Ten(k - 1) == 0
  {
  }

  /** Reading four-digit numerals adds exactly their value to the open group. */
  lemma {:induction false} ReadFour(r: Reading, value: nat, k: nat)
    requires k <= 4 && value < Ten(k) && r.digit == 0
    ensures var after := Read(r, FourText(value, k));
            && after.total == r.total && after.cents == r.cents
            && after.group + after.digit == r.group + value
    decreases k
  {
    if value != 0 && k != 0 {
      if value < Ten(k - 1) {
        ReadFour(r, value, k - 1);
      } else {
        LeadingDigit(value, k);
        ReadFourHead(r, value, k, value / Ten(k - 1), value % Ten(k - 1));
        var r1 := Read(r, [DIGITS[value / Ten(k - 1)]] + UNITS[k - 1]);
        ReadDigitUnit(r, value / Ten(k - 1), k - 1);
        if k > 1 {
          ReadFour(r1, value % Ten(k - 1), k - 1);
        }
      }
    }
  }

  lemma ReadFourHead(r: Reading, value: nat, k: nat, d: nat, rest: nat)
    requires 0 < k <= 4 && Ten(k - 1) <= value < Ten(k) && r.digit == 0
    requires d == value / Ten(k - 1) && rest == value % Ten(k - 1) && 0 < d < 10
    ensures Read(r, FourText(value, k))
            == if k == 1 then Read(r, [DIGITS[d]] + UNITS[0])
               else Read(Read(r, [DIGITS[d]] + UNITS[k - 1]), FourText(rest, k - 1))
  {
    var place := Ten(k - 1);
    var head := [DIGITS[d]] + UNITS[k - 1];
    ReadDigitUnit(r, d, k - 1);
    ReadConcat(r, head + Seam(rest, place), FourText(rest, k - 1));
    ReadConcat(r, head, Seam(rest, place));
    if k > 1 {
      ReadSeam(Read(r, head), rest, place);
    }
  }

  lemma ReadGroupUnit(r: Reading, k: nat)
    requires 0 < k < 4
    ensures Read(r, GROUP_UNITS[k]) == r.(total := r.total + (r.group + r.digit) * Place(k), group := 0, digit := 0)
  {
    ReadOne(r, GROUP_UNITS[k][0]);
    assert GROUP_UNITS[k] == [GROUP_UNITS[k][0]];
  }

  lemma ReadIntegerHead(r: Reading, value: nat, k: nat)
    requires 0 < k <= 4 && Place(k - 1) <= value < Place(k) && r.digit == 0 && r.group == 0
    ensures var g, rest := value / Place(k - 1), value % Place(k - 1);
            && g < 10000
            && Read(r, IntegerText(value, k))
               == Read(Read(Read(r, FourText(g, 4)), GROUP_UNITS[k - 1]), Seam(rest, Place(k - 1)) + IntegerText(rest, k - 1))
  {
    var g, rest := value / Place(k - 1), value % Place(k - 1);
    LeadingGroup(value, k);
    var head, tail := FourText(g, 4), Seam(rest, Place(k - 1)) + IntegerText(rest, k - 1);
    assert IntegerText(value, k) == head + GROUP_UNITS[k - 1] + tail;
    hide Read, IntegerText, FourText;
    ReadConcat(r, head + GROUP_UNITS[k - 1], tail);
    ReadConcat(r, head, GROUP_UNITS[k - 1]);
  }

  /** Reading an integer's numerals adds exactly its value. */
  lemma {:induction false} ReadInteger(r: Reading, value: nat, k: nat)
    requires k <= 4 && value < Place(k) && r.digit == 0 && r.group == 0
    ensures var after := Read(r, IntegerText(value, k));
            && after.cents == r.cents
            && after.total + after.group + after.digit == r.total + value
    decreases k
  {
    if value != 0 && k != 0 {
      if value < Place(k - 1) {
        ReadInteger(r, value, k - 1);
      } else {
        var g, rest := value / Place(k - 1), value % Place(k - 1);
        ReadIntegerHead(r, value, k);
        ReadFour(r, g, 4);
        LeadingGroup(value, k);
        hide Place;
        var r1 := Read(r, FourText(g, 4));
        if k == 1 {
          assert GROUP_UNITS[0] == "" && Seam(rest, Place(0)) + IntegerText(rest, 0) == "";
        } else {
          hide Read, IntegerText, FourText;
          ReadGroupUnit(r1, k - 1);
          var r2 := r.(total := r.total + g * Place(k - 1));
          assert Read(r1, GROUP_UNITS[k - 1]) == r2;
          ReadSeam(r2, rest, Place(k - 1));
          ReadConcat(r2, Seam(rest, Place(k - 1)), IntegerText(rest, k - 1));
          ReadInteger(r2, rest, k - 1);
        }
      }
    }
  }

  lemma LeadingGroup(value: nat, k: nat)
    requires 0 < k <= 4 && Place(k - 1) <= value < Place(k)
    ensures 0 < value / Place(k - 1) < 10000 && value % Place(k - 1) < Place(k - 1)
    ensures value / Place(k - 1) < 1000 <==> value < Place(k) / 10
    ensures value == (value / Place(k - 1)) * Place(k - 1) + value % Place(k - 1)
    ensures k == 1 ==> value / Place(k - 1) == value && value % Place(k - 1) == 0
  {
  }

  lemma ReadFraction(r: Reading, yuan: nat, cents: nat)
    requires cents < 100 && r.digit == 0 && r.cents == 0
    ensures var after := Read(r, FractionText(yuan, cents)); after.total == r.total && after.cents == cents
  {
    var jiao, fen := cents / 10, cents % 10;
    if cents == 0 {
      ReadOne(r, '整');
    } else {
      var high := if jiao > 0 then [DIGITS[jiao]] + "角" else "";
      var zero := if jiao == 0 && yuan != 0 then "零" else "";
      var low := if fen > 0 then zero + [DIGITS[fen]] + "分" else "";
      assert FractionText(yuan, cents) == high + low;
      ReadConcat(r, high, low);
      ReadTenths(r, high, jiao);
      if fen > 0 {
        ReadHundredths(Read(r, high), zero, fen);
      } else {
        assert Read(Read(r, high), "") == Read(r, high);
      }
    }
  }

  lemma ReadDigit(r: Reading, d: nat)
    requires 0 < d < 10
    ensures Read(r, [DIGITS[d]]) == r.(digit := d)
  {
    ReadOne(r, DIGITS[d]);
    assert DigitOf(DIGITS[d]) == d;
  }

  lemma ReadHundredths(r: Reading, zero: string, fen: nat)
    requires 0 < fen < 10 && r.digit == 0 && (zero == "" || zero == "零")
    ensures Read(r, zero + [DIGITS[fen]] + "分") == r.(cents := r.cents + fen)
  {
    assert Read(r, "") == r;
    ReadOne(r, '零');
    ReadOne(r.(digit := fen), '分');
    hide Read;
    ReadConcat(r, zero + [DIGITS[fen]], "分");
    ReadConcat(r, zero, [DIGITS[fen]]);
    ReadDigit(r, fen);
  }

  lemma ReadTenths(r: Reading, high: string, jiao: nat)
    requires jiao < 10 && r.digit == 0 && r.cents == 0
    requires high == if jiao > 0 then [DIGITS[jiao]] + "角" else ""
    ensures Read(r, high) == r.(cents := jiao * 10)
  {
    if jiao > 0 {
      ReadConcat(r, [DIGITS[jiao]], "角");
      ReadOne(r, DIGITS[jiao]);
      assert DigitOf(DIGITS[jiao]) == jiao;
      ReadOne(r.(digit := jiao), '角');
    }
  }

  lemma ReadYuan(r: Reading, yuan: nat)
    requires yuan < Place(4) && r == Reading(0, 0, 0, 0)
    ensures Read(r, (if yuan == 0 then "零" else IntegerText(yuan, 4)) + "元") == Reading(yuan, 0, 0, 0)
  {
    hide IntegerText, Read;
    var whole := if yuan == 0 then "零" else IntegerText(yuan, 4);
    ReadConcat(r, whole, "元");
    if yuan == 0 {
      ReadOne(r, '零');
    } else {
      ReadInteger(r, yuan, 4);
    }
    ReadOne(Read(r, whole), '元');
  }

  /** The printed text determines the amount: every amount below 10^16 yuan is read back to the cent. */
  lemma MoneyReadsBack(yuan: nat, cents: nat)
    requires yuan < Place(4) && cents < 100
    ensures Decode(MoneyUpper(yuan, cents)) == (yuan, cents)
  {
    var start := Reading(0, 0, 0, 0);
    var whole := (if yuan == 0 then "零" else IntegerText(yuan, 4)) + "元";
    ReadConcat(start, whole, FractionText(yuan, cents));
    ReadYuan(start, yuan);
    ReadFraction(Reading(yuan, 0, 0, 0), yuan, cents);
  }

  /** Distinct amounts never print alike. */
  lemma DistinctAmountsPrintApart(yuan: nat, cents: nat, yuan': nat, cents': nat)
    requires yuan < Place(4) && cents < 100 && yuan' < Place(4) && cents' < 100
    requires MoneyUpper(yuan, cents) == MoneyUpper(yuan', cents')
    ensures yuan == yuan' && cents == cents'
  {
    MoneyReadsBack(yuan, cents);
    MoneyReadsBack(yuan', cents');
  }

  // ----- Zeros -----

  /** No zero at either end and never two in a row. */
  predicate TidyZeros(text: string) {
    && text != "" && text[0] != '零' && text[|text| - 1] != '零'
    && forall i :: 0 < i < |text| ==> !(text[i - 1] == '零' && text[i] == '零')
  }

  lemma TidySeam(a: string, zero: string, b: string)
    requires TidyZeros(a) && (zero == "" || zero == "零") && (b == "" ==> zero == "") && (b != "" ==> TidyZeros(b))
    ensures TidyZeros(a + zero + b)
  {
    var t := a + zero + b;
    forall i | 0 < i < |t| ensures !(t[i - 1] == '零' && t[i] == '零') {
      if i < |a| {
        assert t[i - 1] == a[i - 1] && t[i] == a[i];
      } else if i - 1 >= |a| + |zero| {
        var j := i - |a| - |zero|;
        assert t[i - 1] == b[j - 1] && t[i] == b[j];
      } else if i == |a| {
        assert t[i - 1] == a[|a| - 1];
      } else {
        assert t[i] == b[0];
      }
    }
  }

  lemma {:induction false} FourTidy(value: nat, k: nat)
    requires k <= 4 && 0 < value < Ten(k)
    ensures TidyZeros(FourText(value, k))
  {
    var place := Ten(k - 1);
    if value < place {
      FourTidy(value, k - 1);
    } else {
      var rest := value % place;
      var head := [DIGITS[value / place]] + UNITS[k - 1];
      assert TidyZeros(head);
      if rest != 0 {
        FourTidy(rest, k - 1);
      }
      TidySeam(head, Seam(rest, place), FourText(rest, k - 1));
    }
  }

  /** A zero never doubles and never leads or trails the integer part of a non-zero amount. */
  lemma {:induction false} IntegerTidy(value: nat, k: nat)
    requires k <= 4 && 0 < value < Place(k)
    ensures TidyZeros(IntegerText(value, k))
  {
    var place := Place(k - 1);
    if value < place {
      IntegerTidy(value, k - 1);
    } else {
      var rest := value % place;
      FourTidy(value / place, 4);
      var head := FourText(value / place, 4) + GROUP_UNITS[k - 1];
      assert TidyZeros(head);
      if rest != 0 {
        IntegerTidy(rest, k - 1);
      }
      TidySeam(head, Seam(rest, place), IntegerText(rest, k - 1));
    }
  }

  // ----- The printing loops -----

  /** The zero owed before a rest that has k places left to print. */
  function Owed(rest: nat, place: nat, zeroPending: bool, started: bool): string {
    if rest != 0 && (zeroPending || (started && rest < place / 10)) then "零" else ""
  }

  /** Picking a decimal place from the whole value or from what is left of it comes to the same. */
  lemma NextDigit(value: nat, k: nat)
    requires 0 < k <= 4 && value < 10000
    ensures var rest, place := value % Ten(k), Ten(k - 1);
            && value / place % 10 == rest / place < 10
            && value % place == rest % place
  {
    if k == 1 {
      NextAtOne(value);
    } else if k == 2 {
      NextAt(value, 10);
    } else if k == 3 {
      NextAt(value, 100);
    } else {
      NextAt(value, 1000);
    }
  }

  lemma NextAtOne(value: nat)
    ensures value / 1 % 10 == value % 10 / 1 < 10
    ensures value % 1 == value % 10 % 1
  {
  }

  lemma NextAt(value: nat, place: nat)
    requires place == 10 || place == 100 || place == 1000
    ensures value / place % 10 == value % (10 * place) / place < 10
    ensures value % place == value % (10 * place) % place
  {
    NextAtShift(value / (10 * place), value % (10 * place), place);
  }

  lemma NextAtShift(q: nat, rest: nat, place: nat)
    requires (place == 10 || place == 100 || place == 1000) && rest < 10 * place
    ensures (q * (10 * place) + rest) / place % 10 == rest / place < 10
    ensures (q * (10 * place) + rest) % place == rest % place
  {
    var v := q * (10 * place) + rest;
    assert v == (10 * q + rest / place) * place + rest % place;
    QuotientUnique(v, place, 10 * q + rest / place, rest % place);
  }

  lemma QuotientUnique(v: nat, place: nat, q: nat, r: nat)
    requires (place == 10 || place == 100 || place == 1000) && v == q * place + r && r < place
    ensures v / place == q && v % place == r
  {
  }

  /** What is still to print: the zero owed and the numerals of the rest. */
  function FourLeft(rest: nat, k: nat, zeroPending: bool, started: bool): string
    requires k <= 4 && rest < Ten(k)
  {
    Owed(rest, Ten(k), zeroPending, started) + FourText(rest, k)
  }

  lemma FourSkip(rest: nat, k: nat, zeroPending: bool, started: bool)
    requires 0 < k <= 4 && rest < Ten(k) && (zeroPending ==> started) && rest / Ten(k - 1) == 0
    ensures rest % Ten(k - 1) == rest < Ten(k - 1)
    ensures FourLeft(rest, k, zeroPending, started) == FourLeft(rest, k - 1, zeroPending || (started && rest != 0), started)
  {
    assert rest < Ten(k - 1);
  }

  lemma FourHead(rest: nat, k: nat)
    requires 0 < k <= 4 && Ten(k - 1) <= rest < Ten(k)
    ensures var d, rest' := rest / Ten(k - 1), rest % Ten(k - 1);
            && 0 < d < 10 && rest' < Ten(k - 1)
            && FourText(rest, k) == [DIGITS[d]] + UNITS[k - 1] + FourLeft(rest', k - 1, false, true)
  {
    LeadingDigit(rest, k);
    var d, rest' := rest / Ten(k - 1), rest % Ten(k - 1);
    assert Seam(rest', Ten(k - 1)) == Owed(rest', Ten(k - 1), false, true);
    assert FourText(rest, k) == [DIGITS[d]] + UNITS[k - 1] + Seam(rest', Ten(k - 1)) + FourText(rest', k - 1);
  }

  /** Writing the owed zero, a digit and its unit after `text` takes one place off what is left. */
  lemma FourTake(text: string, rest: nat, k: nat, zeroPending: bool, started: bool)
    requires 0 < k <= 4 && rest < Ten(k) && (zeroPending ==> started) && rest / Ten(k - 1) != 0
    ensures var d, rest' := rest / Ten(k - 1), rest % Ten(k - 1);
            && d < 10 && rest' < Ten(k - 1)
            && text + FourLeft(rest, k, zeroPending, started)
               == (if zeroPending then text + "零" else text) + [DIGITS[d]] + UNITS[k - 1] + FourLeft(rest', k - 1, false, true)
  {
    hide FourText;
    assert rest >= Ten(k - 1);
    FourHead(rest, k);
    var d, rest' := rest / Ten(k - 1), rest % Ten(k - 1);
    OwedZero(rest, Ten(k), zeroPending, started);
    hide FourLeft, Owed, Ten;
    Pieces(text, if zeroPending then "零" else "", [DIGITS[d]], UNITS[k - 1], FourLeft(rest', k - 1, false, true));
  }

  lemma OwedZero(rest: nat, place: nat, zeroPending: bool, started: bool)
    requires rest != 0 && (zeroPending ==> started)
    ensures rest >= place / 10 ==> Owed(rest, place, zeroPending, started) == if zeroPending then "零" else ""
    ensures rest < place / 10 ==> Owed(rest, place, zeroPending, started) == if started then "零" else ""
  {
  }

  lemma FourEnds(value: nat)
    requires value < 10000
    ensures value % Ten(4) == value < Ten(4) && FourLeft(value, 4, false, false) == FourText(value, 4)
    ensures forall zeroPending, started :: FourLeft(0, 0, zeroPending, started) == ""
    ensures [1000, 100, 10, 1] == [Ten(3), Ten(2), Ten(1), Ten(0)]
  {
  }

  method ChineseFourDigits(value: nat) returns (text: string)
    requires value < 10000
    ensures text == FourText(value, 4)
  {
    hide FourText, FourLeft, Ten, Owed;
    var divisors := [1000, 100, 10, 1];
    text := "";
    var zeroPending := false;
    ghost var rest := value;
    FourEnds(value);
    for index := 0 to 4
      invariant zeroPending ==> text != ""
      invariant rest == value % Ten(4 - index) < Ten(4 - index)
      invariant FourText(value, 4) == text + FourLeft(rest, 4 - index, zeroPending, text != "")
    {
      var divisor := divisors[index];
      assert divisor == Ten(3 - index);
      NextDigit(value, 4 - index);
      var digit := value / divisor % 10;
      if digit == 0 {
        FourSkip(rest, 4 - index, zeroPending, text != "");
        if text != "" && value % divisor != 0 {
          zeroPending := true;
        }
      } else {
        FourTake(text, rest, 4 - index, zeroPending, text != "");
        if zeroPending {
          text := text + "零";
          zeroPending := false;
        }
        text := text + [DIGITS[digit]];
        text := text + UNITS[3 - index];
      }
      rest := rest % divisor;
    }
    assert rest == 0;
  }

  /** Groups of four digits, lowest first. */
  function GroupsValue(groups: seq<nat>): nat
    requires |groups| <= 4
  {
    if groups == [] then 0
    else GroupsValue(groups[..|groups| - 1]) + groups[|groups| - 1] * Place(|groups| - 1)
  }

  predicate Groups(groups: seq<nat>) {
    |groups| <= 4 && forall i :: 0 <= i < |groups| ==> groups[i] < 10000
  }

  lemma {:induction false} GroupsBound(groups: seq<nat>)
    requires Groups(groups)
    ensures GroupsValue(groups) < Place(|groups|)
  {
    if groups != [] {
      var last := |groups| - 1;
      GroupsBound(groups[..last]);
      assert groups[last] * Place(last) <= 9999 * Place(last);
    }
  }

  /** Splitting off the highest group is division by its place. */
  lemma TopGroup(groups: seq<nat>, k: nat)
    requires Groups(groups) && 0 < k <= |groups|
    ensures var value, place := GroupsValue(groups[..k]), Place(k - 1);
            && value / place == groups[k - 1] && value % place == GroupsValue(groups[..k - 1])
            && value < Place(k) == 10000 * place
  {
    assert groups[..k][..k - 1] == groups[..k - 1];
    GroupsBound(groups[..k - 1]);
    GroupsBound(groups[..k]);
  }

  lemma SplitEnds(integer: string)
    requires AllDigits(integer)
    ensures Parse(integer) == Parse(integer[..|integer|]) * Place(0) + GroupsValue([])
    ensures Parse(integer[..0]) == 0
  {
    assert integer[..|integer|] == integer;
    assert integer[..0] == "";
  }

  lemma ParseNext(integer: string, start: nat, i: nat)
    requires AllDigits(integer) && start <= i < |integer|
    ensures Parse(integer[start..i + 1]) == Parse(integer[start..i]) * 10 + DigitValue(integer[i])
  {
    assert integer[start..i + 1][..i - start] == integer[start..i];
  }

  method SplitGroups(integer: string) returns (groups: seq<nat>)
    requires AllDigits(integer) && |integer| <= 16
    ensures Groups(groups) && GroupsValue(groups) == Parse(integer)
  {
    SplitEnds(integer);
    ZeroIsEmpty();
    hide GroupsValue, Place, Parse;
    groups := [];
    var end := |integer|;
    while end > 0
      invariant 0 <= end <= |integer| && Groups(groups)
      invariant end + 4 * |groups| == |integer| || end == 0
      invariant Parse(integer) == Parse(integer[..end]) * Place(|groups|) + GroupsValue(groups)
    {
      var start := if end < 4 then 0 else end - 4;
      var value := 0;
      assert integer[start..start] == "";
      for i := start to end
        invariant value == Parse(integer[start..i])
      {
        ParseNext(integer, start, i);
        value := value * 10 + DigitValue(integer[i]);
      }
      GroupStep(integer, start, end, groups);
      groups := groups + [value];
      end := start;
    }
  }

  lemma FourDigitChunk(prefix: string, low: string)
    requires AllDigits(prefix) && AllDigits(low) && (|low| == 4 || (prefix == "" && 0 < |low| < 4))
    ensures Parse(low) < 10000
    ensures AllDigits(prefix + low) && Parse(prefix + low) == Parse(prefix) * 10000 + Parse(low)
  {
    ParseConcat(prefix, low);
    ParseBound(low);
    assert Pow10(4) == 10 * Pow10(3) && Pow10(3) == 10 * Pow10(2) && Pow10(2) == 10 * Pow10(1) && Pow10(1) == 10;
  }

  lemma GroupStep(integer: string, start: nat, end: nat, groups: seq<nat>)
    requires AllDigits(integer) && start < end <= |integer| && (start == end - 4 || (start == 0 && end < 4))
    requires Groups(groups) && |groups| < 4
    ensures var value := Parse(integer[start..end]);
            && value < 10000 && Groups(groups + [value])
            && Parse(integer[..end]) * Place(|groups|) + GroupsValue(groups)
               == Parse(integer[..start]) * Place(|groups| + 1) + GroupsValue(groups + [value])
  {
    hide Parse, GroupsValue, Place;
    var prefix, low := integer[..start], integer[start..end];
    assert integer[..end] == prefix + low;
    FourDigitChunk(prefix, low);
    AppendGroup(groups, Parse(low));
    NextPlace(Parse(prefix), Parse(low), |groups|);
  }

  lemma AppendGroup(groups: seq<nat>, value: nat)
    requires |groups| < 4
    ensures GroupsValue(groups + [value]) == GroupsValue(groups) + value * Place(|groups|)
  {
    assert (groups + [value])[..|groups|] == groups;
  }

  lemma NextPlace(high: nat, value: nat, m: nat)
    requires m < 4
    ensures (high * 10000 + value) * Place(m) == high * Place(m + 1) + value * Place(m)
  {
    if m == 0 { } else if m == 1 { } else if m == 2 { } else { }
  }

  lemma {:induction false} SkipEmptyGroups(value: nat, k: nat)
    requires k <= 4 && value < Place(k)
    ensures value < Place(4) && IntegerText(value, 4) == IntegerText(value, k)
    decreases 4 - k
  {
    if k < 4 {
      SkipEmptyGroups(value, k + 1);
    }
  }

  function IntegerLeft(rest: nat, k: nat, zeroPending: bool, started: bool): string
    requires k <= 4 && rest < Place(k)
  {
    Owed(rest, Place(k), zeroPending, started) + IntegerText(rest, k)
  }

  lemma IntegerSkip(rest: nat, k: nat, zeroPending: bool, started: bool)
    requires 0 < k <= 4 && rest < Place(k - 1) <= Place(k) && (zeroPending ==> started)
    ensures IntegerLeft(rest, k, zeroPending, started) == IntegerLeft(rest, k - 1, zeroPending || started, started)
  {
  }

  lemma IntegerHead(rest: nat, k: nat)
    requires 0 < k <= 4 && Place(k - 1) <= rest < Place(k)
    ensures var group, rest' := rest / Place(k - 1), rest % Place(k - 1);
            && 0 < group < 10000 && rest' < Place(k - 1) && (group < 1000 <==> rest < Place(k) / 10)
            && IntegerText(rest, k) == FourText(group, 4) + GROUP_UNITS[k - 1] + IntegerLeft(rest', k - 1, false, true)
  {
    hide FourText;
    LeadingGroup(rest, k);
    var group, rest' := rest / Place(k - 1), rest % Place(k - 1);
    assert Seam(rest', Place(k - 1)) == Owed(rest', Place(k - 1), false, true);
    assert IntegerText(rest, k) == FourText(group, 4) + GROUP_UNITS[k - 1] + Seam(rest', Place(k - 1)) + IntegerText(rest', k - 1);
  }

  /** Writing the owed zero, a group and its unit after `text` takes one group off what is left. */
  lemma IntegerTake(text: string, rest: nat, k: nat, zeroPending: bool, started: bool)
    requires 0 < k <= 4 && Place(k - 1) <= rest < Place(k) && (zeroPending ==> started)
    ensures var group, rest' := rest / Place(k - 1), rest % Place(k - 1);
            && 0 < group < 10000 && rest' < Place(k - 1)
            && text + IntegerLeft(rest, k, zeroPending, started)
               == (if started && (zeroPending || group < 1000) then text + "零" else text)
                  + FourText(group, 4) + GROUP_UNITS[k - 1] + IntegerLeft(rest', k - 1, false, true)
  {
    hide FourText, IntegerText;
    IntegerHead(rest, k);
    var group := rest / Place(k - 1);
    OwedZero(rest, Place(k), zeroPending, started);
    hide IntegerLeft, Owed;
    Pieces(text, if started && (zeroPending || group < 1000) then "零" else "", FourText(group, 4), GROUP_UNITS[k - 1],
           IntegerLeft(rest % Place(k - 1), k - 1, false, true));
  }

  lemma IntegerEnds(value: nat, k: nat)
    requires k <= 4 && value < Place(k)
    ensures value < Place(4) && IntegerLeft(value, k, false, false) == IntegerText(value, 4)
    ensures forall rest, zeroPending, started :: 0 <= rest < Place(0) ==> IntegerLeft(rest, 0, zeroPending, started) == ""
  {
    SkipEmptyGroups(value, k);
  }

  /** The highest group decides which step the writing loop takes. */
  lemma NextGroup(text: string, groups: seq<nat>, k: nat, zeroPending: bool, started: bool)
    requires Groups(groups) && 0 < k <= |groups| && (zeroPending ==> started)
    requires GroupsValue(groups[..k]) < Place(k)
    ensures var rest, rest', group := GroupsValue(groups[..k]), GroupsValue(groups[..k - 1]), groups[k - 1];
            && rest' < Place(k - 1) && group < 10000
            && text + IntegerLeft(rest, k, zeroPending, started)
               == if group == 0 then text + IntegerLeft(rest', k - 1, zeroPending || started, started)
                  else (if started && (zeroPending || group < 1000) then text + "零" else text)
                       + FourText(group, 4) + GROUP_UNITS[k - 1] + IntegerLeft(rest', k - 1, false, true)
  {
    hide IntegerText, IntegerLeft, FourText;
    TopGroup(groups, k);
    GroupsBound(groups[..k - 1]);
    var rest := GroupsValue(groups[..k]);
    if groups[k - 1] == 0 {
      assert rest == GroupsValue(groups[..k - 1]);
      IntegerSkip(rest, k, zeroPending, started);
    } else {
      assert rest >= Place(k - 1);
      IntegerTake(text, rest, k, zeroPending, started);
    }
  }

  lemma PositiveValue(s: string)
    requires AllDigits(s) && s != "" && s[0] != '0'
    ensures Parse(s) > 0
  {
    PrintParse(s);
  }

  method ChineseIntegerUpper(integer: string) returns (text: string)
    requires AllDigits(integer) && 0 < |integer| <= 16
    requires integer == "0" || integer[0] != '0'
    ensures Parse(integer) < Place(4)
    ensures text == if Parse(integer) == 0 then "零" else IntegerText(Parse(integer), 4)
  {
    if integer == "0" {
      ParseOne('0');
      return "零";
    }
    hide IntegerText, IntegerLeft, FourText, Place, GroupsValue, Parse;
    PositiveValue(integer);
    var groups := SplitGroups(integer);
    assert groups[..|groups|] == groups;
    GroupsBound(groups);
    ghost var value := Parse(integer);
    IntegerEnds(value, |groups|);
    text := "";
    var zeroPending := false;
    var index := |groups| - 1;
    while index >= 0
      invariant -1 <= index < |groups|
      invariant zeroPending ==> text != ""
      invariant GroupsValue(groups[..index + 1]) < Place(index + 1)
      invariant IntegerText(value, 4)
                == text + IntegerLeft(GroupsValue(groups[..index + 1]), index + 1, zeroPending, text != "")
    {
      var group := groups[index];
      NextGroup(text, groups, index + 1, zeroPending, text != "");
      if group == 0 {
        if text != "" {
          zeroPending := true;
        }
      } else {
        if text != "" && (zeroPending || group < 1000) {
          text := text + "零";
        }
        var numerals := ChineseFourDigits(group);
        assert numerals != "" by { FourTidy(group, 4); }
        text := text + numerals;
        text := text + GROUP_UNITS[index];
        zeroPending := false;
      }
      index := index - 1;
    }
  }

  // ----- The whole conversion -----

  datatype MoneyError = Malformed | TooLarge

  function Strip(s: string): string {
    if s == "" then "" else (if s[0] in ",，￥¥元 " then "" else [s[0]]) + Strip(s[1..])
  }

  /** The amount a template field holds: digits with at most two decimals, below 10^16 yuan. */
  function MoneyAmount(raw: string): Result<(nat, nat), MoneyError> {
    var parts := Split(Strip(TrimSpace(raw)), '.');
    if |parts| > 2 || parts[0] == "" || !AllDigits(parts[0]) then Err(Malformed)
    else if |parts| == 2 && (|parts[1]| > 2 || !AllDigits(parts[1])) then Err(Malformed)
    else if Parse(parts[0]) >= Place(4) then Err(TooLarge)
    else Ok((Parse(parts[0]), if |parts| == 1 then 0 else CentsOf(parts[1])))
  }

  lemma SixteenDigits(integer: string)
    requires AllDigits(integer)
    ensures |TrimZeros(integer)| > 16 <==> Parse(integer) >= Place(4)
  {
    var s := TrimZeros(integer);
    TrimZerosValue(integer);
    if s != "" {
      PrintParse(s);
      PrintLength(Parse(s), 16);
      PowSixteen();
    }
  }

  lemma PowSixteen()
    ensures Pow10(16) == Place(4)
  {
    assert Pow10(4) == 10 * Pow10(3) && Pow10(3) == 10 * Pow10(2) && Pow10(2) == 10 * Pow10(1) && Pow10(1) == 10;
    assert Pow10(8) == 10 * Pow10(7) && Pow10(7) == 10 * Pow10(6) && Pow10(6) == 10 * Pow10(5) && Pow10(5) == 10 * Pow10(4);
    assert Pow10(12) == 10 * Pow10(11) && Pow10(11) == 10 * Pow10(10) && Pow10(10) == 10 * Pow10(9) && Pow10(9) == 10 * Pow10(8);
    assert Pow10(16) == 10 * Pow10(15) && Pow10(15) == 10 * Pow10(14) && Pow10(14) == 10 * Pow10(13) && Pow10(13) == 10 * Pow10(12);
  }

  function CapitalText(raw: string): Result<string, MoneyError> {
    match MoneyAmount(raw)
    case Ok((yuan, cents)) => if yuan < Place(4) && cents < 100 then Ok(MoneyUpper(yuan, cents)) else Err(TooLarge)
    case Err(e) => Err(e)
  }

  /** The fraction as it is appended piece by piece. */
  lemma FractionPieces(whole: string, yuan: nat, cents: nat)
    requires 0 < cents < 100
    ensures var jiao, fen := cents / 10, cents % 10;
            var high := if jiao > 0 then whole + [DIGITS[jiao]] + "角" else whole;
            var zero := if jiao == 0 && yuan != 0 then high + "零" else high;
            whole + FractionText(yuan, cents) == if fen > 0 then zero + [DIGITS[fen]] + "分" else high
  {
  }

  /** Which of the two checks fails, if any, in terms of the parts around the decimal point. */
  lemma AmountByParts(raw: string)
    ensures var parts := Split(Strip(TrimSpace(raw)), '.');
            && (MoneyAmount(raw).Ok? || MoneyAmount(raw) == Err(Malformed) || MoneyAmount(raw) == Err(TooLarge))
            && (MoneyAmount(raw) == Err(Malformed) <==>
                || |parts| > 2 || parts[0] == "" || (|parts| == 2 && |parts[1]| > 2)
                || exists i :: 0 <= i < |parts| && !AllDigits(parts[i]))
            && (MoneyAmount(raw) == Err(TooLarge) <==>
                MoneyAmount(raw) != Err(Malformed) && AllDigits(parts[0]) && Parse(parts[0]) >= Place(4))
            && (MoneyAmount(raw).Ok? ==>
                && Parse(parts[0]) < Place(4)
                && MoneyAmount(raw).value == (Parse(parts[0]), if |parts| == 1 then 0 else CentsOf(parts[1])))
  {
    var parts := Split(Strip(TrimSpace(raw)), '.');
    if |parts| <= 2 && (exists i :: 0 <= i < |parts| && !AllDigits(parts[i])) {
      assert !AllDigits(parts[0]) || (|parts| == 2 && !AllDigits(parts[1]));
    }
  }

  lemma FractionDigits(fraction: string)
    requires AllDigits(fraction) && |fraction| <= 2
    ensures var padded := fraction + Zeros(2 - |fraction|);
            && |padded| == 2 && AllDigits(padded)
            && CentsOf(fraction) == 10 * DigitValue(padded[0]) + DigitValue(padded[1]) < 100
            && (CentsOf(fraction) == 0 <==> padded == "00")
  {
    PaddedCents(fraction);
    assert fraction + Zeros(2 - |fraction|) == PadFraction(fraction);
    TwoDigits(PadFraction(fraction));
  }

  method ChineseMoneyUpper(raw: string) returns (r: Result<string, MoneyError>)
    ensures r == CapitalText(raw)
  {
    AmountByParts(raw);
    hide MoneyAmount, FractionText, IntegerText, Parse, Place, CentsOf;
    var parts := Split(Strip(TrimSpace(raw)), '.');
    if |parts| > 2 || parts[0] == "" || (|parts| == 2 && |parts[1]| > 2) {
      return Err(Malformed);
    }
    for i := 0 to |parts|
      invariant forall k :: 0 <= k < i ==> AllDigits(parts[k])
    {
      var digits := OnlyDigits(parts[i]);
      if !digits {
        return Err(Malformed);
      }
    }
    var integer := TrimZeros(parts[0]);
    TrimZerosValue(parts[0]);
    SixteenDigits(parts[0]);
    if integer == "" {
      integer := "0";
      assert Parse("0") == Parse("") by { ZeroIsEmpty(); }
    }
    if |integer| > 16 {
      return Err(TooLarge);
    }
    ghost var yuan := Parse(integer);
    assert yuan != 0 <==> integer != "0" by {
      if integer != "0" { PositiveValue(integer); } else { ZeroIsEmpty(); }
    }
    var result := ChineseIntegerUpper(integer);
    result := result + "元";
    var fraction := "";
    if |parts| == 2 {
      fraction := parts[1] + Zeros(2 - |parts[1]|);
      FractionDigits(parts[1]);
    }
    ghost var cents := if |parts| == 1 then 0 else CentsOf(parts[1]);
    assert MoneyAmount(raw) == Ok((yuan, cents));
    if fraction == "" || fraction == "00" {
      WholeAmount(yuan);
      return Ok(result + "整");
    }
    ghost var whole := result;
    FractionPieces(whole, yuan, cents);
    var jiao, fen := DigitValue(fraction[0]), DigitValue(fraction[1]);
    assert cents / 10 == jiao && cents % 10 == fen;
    if jiao > 0 {
      result := result + [DIGITS[jiao]] + "角";
    }
    if fen > 0 {
      if jiao == 0 && integer != "0" {
        result := result + "零";
      }
      result := result + [DIGITS[fen]] + "分";
    }
    return Ok(result);
  }

  lemma WholeAmount(yuan: nat)
    ensures FractionText(yuan, 0) == "整"
  {
  }

  /** Every accepted field value is read back from its capital text, however it was spelled. */
  lemma CapitalTextDenotes(raw: string)
    ensures CapitalText(raw).Ok? <==> MoneyAmount(raw).Ok?
    ensures CapitalText(raw).Ok? ==> Decode(CapitalText(raw).value) == MoneyAmount(raw).value
  {
    var parts := Split(Strip(TrimSpace(raw)), '.');
    if MoneyAmount(raw).Ok? {
      if |parts| == 2 {
        PaddedCents(parts[1]);
      }
      MoneyReadsBack(MoneyAmount(raw).value.0, MoneyAmount(raw).value.1);
    }
  }
}
