/**
  The spelling of capital amounts: where the numeral zero stands, and how the fraction ends. Reading
  a text back says nothing about zeros, so these laws are about the text itself.
 */
module MoneySpelling {
  import opened MoneyText

  function CountZeros(text: string): nat {
    if text == "" then 0 else (if text[0] == '零' then 1 else 0) + CountZeros(text[1..])
  }

  function One(condition: bool): nat {
    if condition then 1 else 0
  }

  lemma {:induction false} CountConcat(a: string, b: string)
    ensures CountZeros(a + b) == CountZeros(a) + CountZeros(b)
  {
    if a == "" {
      assert a + b == b;
    } else {
      assert (a + b)[1..] == a[1..] + b;
      CountConcat(a[1..], b);
    }
  }

  lemma CountFree(text: string)
    requires '零' !in text
    ensures CountZeros(text) == 0
  {
  }

  lemma {:induction false} CountDigitUnit(d: nat, k: nat)
    requires 0 < d < 10 && k < 4
    ensures CountZeros([DIGITS[d]] + UNITS[k]) == 0
  {
    CountFree([DIGITS[d]] + UNITS[k]);
  }

  lemma {:induction false} CountSeam(rest: nat, place: nat)
    ensures CountZeros(Seam(rest, place)) == One(rest != 0 && rest < place / 10)
  {
    assert "零"[1..] == "";
  }

  /** The zero before the rest r, when the digit above it is not empty. */
  lemma {:induction false} CountLead(d: nat, k: nat, r: nat)
    requires 0 < k <= 4 && 0 < d < 10 && r < Ten(k - 1)
    ensures d * Ten(k - 1) + r < Ten(k)
    ensures CountZeros(FourText(d * Ten(k - 1) + r, k)) == One(r != 0 && r < Ten(k - 1) / 10) + CountZeros(FourText(r, k - 1))
  {
    var place := Ten(k - 1);
    var value := d * place + r;
    Leads(d, k, r);
    assert FourText(value, k) == [DIGITS[d]] + UNITS[k - 1] + Seam(r, place) + FourText(r, k - 1);
    hide FourText, CountZeros, Seam, Ten, One;
    var lead, seam, rest := [DIGITS[d]] + UNITS[k - 1], Seam(r, place), FourText(r, k - 1);
    CountDigitUnit(d, k - 1);
    CountSeam(r, place);
    CountConcat(lead + seam, rest);
    CountConcat(lead, seam);
  }

  lemma {:induction false} Leads(d: nat, k: nat, r: nat)
    requires 0 < k <= 4 && 0 < d < 10 && r < Ten(k - 1)
    ensures var place := Ten(k - 1); var value := d * place + r;
            value < Ten(k) && value >= place && value / place == d && value % place == r
  {
  }

  lemma {:induction false} Skip(value: nat, k: nat)
    requires 0 < k <= 4 && value < Ten(k - 1)
    ensures value < Ten(k) && FourText(value, k) == FourText(value, k - 1)
  {
  }

  /** The zero between a digit d and what follows: the rest r is there, but leaves the next place empty. */
  lemma {:induction false} CountDigit(d: nat, k: nat, r: nat)
    requires 0 < k <= 4 && d < 10 && r < Ten(k - 1)
    ensures d * Ten(k - 1) + r < Ten(k)
    ensures CountZeros(FourText(d * Ten(k - 1) + r, k))
            == One(d != 0 && r != 0 && r < Ten(k - 1) / 10) + CountZeros(FourText(r, k - 1))
  {
    if d > 0 {
      CountLead(d, k, r);
    } else {
      Skip(r, k);
    }
  }

  lemma {:induction false} FourAt(d: nat, k: nat, place: nat, r: nat, value: nat)
    requires 0 < k <= 4 && d < 10 && place == Ten(k - 1) && r < place && value == d * place + r
    ensures value < Ten(k)
    ensures CountZeros(FourText(value, k)) == One(d != 0 && r != 0 && 10 * r < place) + CountZeros(FourText(r, k - 1))
  {
    CountDigit(d, k, r);
    assert r != 0 ==> (r < place / 10 <==> 10 * r < place);
  }

  lemma {:induction false} NoFour()
    ensures CountZeros(FourText(0, 0)) == 0 && One(false) == 0
  {
  }

  /** Among the digits a, b, c, d a zero announces c after an empty b, and d after an empty c, unless they lead. */
  lemma {:induction false} FourZeros(a: nat, b: nat, c: nat, d: nat)
    requires a < 10 && b < 10 && c < 10 && d < 10
    ensures 1000 * a + 100 * b + 10 * c + d < Ten(4)
    ensures CountZeros(FourText(1000 * a + 100 * b + 10 * c + d, 4))
            == One(a != 0 && b == 0 && c != 0) + One((a != 0 || b != 0) && c == 0 && d != 0)
  {
    var two, three := 10 * c + d, 100 * b + 10 * c + d;
    hide CountZeros, FourText, One;
    FourAt(d, 1, 1, 0, d);
    FourAt(c, 2, 10, d, two);
    FourAt(b, 3, 100, two, three);
    FourAt(a, 4, 1000, three, 1000 * a + three);
    NoFour();
    hide Ten;
    FourCases(a, b, c, d);
  }

  /** Which rests are there and leave the next place empty. */
  lemma {:induction false} FourCases(a: nat, b: nat, c: nat, d: nat)
    requires a < 10 && b < 10 && c < 10 && d < 10
    ensures var two, three := 10 * c + d, 100 * b + 10 * c + d;
            One(a != 0 && three != 0 && 10 * three < 1000) + One(b != 0 && two != 0 && 10 * two < 100) + One(c != 0 && d != 0 && 10 * d < 10)
            == One(a != 0 && b == 0 && c != 0) + One((a != 0 || b != 0) && c == 0 && d != 0)
  {
    assert 10 * c + d < 10 <==> c == 0;
    assert 100 * b + 10 * c + d < 100 <==> b == 0;
  }

  lemma {:induction false} GroupUnitFree(k: nat)
    requires k < 4
    ensures CountZeros(GROUP_UNITS[k]) == 0
  {
    CountFree(GROUP_UNITS[k]);
  }

  lemma {:induction false} CountGroup(g: nat, k: nat, r: nat)
    requires 0 < k <= 4 && 0 < g < 10000 && r < Place(k - 1)
    ensures g * Place(k - 1) + r < Place(k)
    ensures CountZeros(IntegerText(g * Place(k - 1) + r, k))
            == CountZeros(FourText(g, 4)) + One(r != 0 && r < Place(k - 1) / 10) + CountZeros(IntegerText(r, k - 1))
  {
    var place := Place(k - 1);
    var value := g * place + r;
    LeadsGroup(g, k, r);
    assert IntegerText(value, k) == FourText(g, 4) + GROUP_UNITS[k - 1] + Seam(r, place) + IntegerText(r, k - 1);
    hide FourText, IntegerText, CountZeros, Seam, Place, One;
    var numerals, seam, rest := FourText(g, 4) + GROUP_UNITS[k - 1], Seam(r, place), IntegerText(r, k - 1);
    GroupUnitFree(k - 1);
    CountSeam(r, place);
    CountConcat(FourText(g, 4), GROUP_UNITS[k - 1]);
    CountConcat(numerals + seam, rest);
    CountConcat(numerals, seam);
  }

  lemma {:induction false} LeadsGroup(g: nat, k: nat, r: nat)
    requires 0 < k <= 4 && 0 < g < 10000 && r < Place(k - 1)
    ensures var place := Place(k - 1); var value := g * place + r;
            value < Place(k) && value >= place && value / place == g && value % place == r
  {
  }

  lemma {:induction false} SkipGroup(value: nat, k: nat)
    requires 0 < k <= 4 && value < Place(k - 1)
    ensures value < Place(k) && IntegerText(value, k) == IntegerText(value, k - 1)
  {
  }

  /** The zero between a group g and what follows: the rest r is there, but leaves the next place empty. */
  lemma {:induction false} CountNext(g: nat, k: nat, r: nat)
    requires 0 < k <= 4 && g < 10000 && r < Place(k - 1)
    ensures g * Place(k - 1) + r < Place(k)
    ensures CountZeros(IntegerText(g * Place(k - 1) + r, k))
            == CountZeros(FourText(g, 4)) + One(g != 0 && r != 0 && r < Place(k - 1) / 10) + CountZeros(IntegerText(r, k - 1))
  {
    if g > 0 {
      CountGroup(g, k, r);
    } else {
      SkipGroup(r, k);
      assert FourText(0, 4) == "";
    }
  }

  lemma {:induction false} GroupAt(g: nat, k: nat, place: nat, r: nat, value: nat)
    requires 0 < k <= 4 && g < 10000 && place == Place(k - 1) && r < place && value == g * place + r
    ensures value < Place(k)
    ensures CountZeros(IntegerText(value, k))
            == CountZeros(FourText(g, 4)) + One(g != 0 && r != 0 && 10 * r < place) + CountZeros(IntegerText(r, k - 1))
  {
    CountNext(g, k, r);
    assert r != 0 ==> (r < place / 10 <==> 10 * r < place);
  }

  lemma {:induction false} NoGroup()
    ensures CountZeros(IntegerText(0, 0)) == 0
  {
  }

  lemma {:induction false} TwoGroups(z: nat, w: nat)
    requires z < 10000 && w < 10000
    ensures z * 1_0000 + w < Place(2)
    ensures CountZeros(IntegerText(z * 1_0000 + w, 2))
            == CountZeros(FourText(z, 4)) + CountZeros(FourText(w, 4)) + One(z != 0 && 0 < w < 1000)
  {
    hide CountZeros, FourText, IntegerText;
    GroupAt(w, 1, 1, 0, w);
    GroupAt(z, 2, 1_0000, w, z * 1_0000 + w);
    NoGroup();
  }

  lemma {:induction false} ThreeGroups(y: nat, z: nat, w: nat)
    requires y < 10000 && z < 10000 && w < 10000
    ensures y * 1_0000_0000 + z * 1_0000 + w < Place(3)
    ensures CountZeros(IntegerText(y * 1_0000_0000 + z * 1_0000 + w, 3))
            == CountZeros(FourText(y, 4)) + CountZeros(FourText(z, 4)) + CountZeros(FourText(w, 4))
               + One(y != 0 && 0 < z < 1000) + One((y != 0 || z != 0) && w != 0 && (z == 0 || w < 1000))
  {
    hide CountZeros, FourText, IntegerText;
    var two := z * 1_0000 + w;
    TwoGroups(z, w);
    GroupAt(y, 3, 1_0000_0000, two, y * 1_0000_0000 + z * 1_0000 + w);
  }

  /** Over four groups a zero announces a group that follows an empty one, or has fewer than four digits, unless it leads. */
  lemma {:induction false} IntegerZeros(x: nat, y: nat, z: nat, w: nat)
    requires x < 10000 && y < 10000 && z < 10000 && w < 10000
    ensures x * Place(3) + (y * 1_0000_0000 + z * 1_0000 + w) < Place(4)
    ensures CountZeros(IntegerText(x * Place(3) + (y * 1_0000_0000 + z * 1_0000 + w), 4))
            == CountZeros(FourText(x, 4)) + CountZeros(FourText(y, 4)) + CountZeros(FourText(z, 4)) + CountZeros(FourText(w, 4))
               + One(x != 0 && 0 < y < 1000)
               + One((x != 0 || y != 0) && z != 0 && (y == 0 || z < 1000))
               + One((x != 0 || y != 0 || z != 0) && w != 0 && (z == 0 || w < 1000))
  {
    hide CountZeros, FourText, IntegerText, Place, One;
    var three := y * 1_0000_0000 + z * 1_0000 + w;
    ThreeGroups(y, z, w);
    TopPlace(y, z, w);
    GroupAt(x, 4, Place(3), three, x * Place(3) + three);
    Announced(x != 0, y != 0, z != 0, w != 0, y < 1000, z < 1000, w < 1000);
  }

  /** Which empty places are announced, once the group above may count as well. */
  lemma {:induction false} Announced(x: bool, y: bool, z: bool, w: bool, ys: bool, zs: bool, ws: bool)
    ensures One(x && ((y && ys) || (!y && (z || w)))) + One(y && z && zs) + One((y || z) && w && (!z || ws))
            == One(x && y && ys) + One((x || y) && z && (!y || zs)) + One((x || y || z) && w && (!z || ws))
  {
  }

  lemma {:induction false} TopPlace(y: nat, z: nat, w: nat)
    requires y < 10000 && z < 10000 && w < 10000
    ensures var three := y * 1_0000_0000 + z * 1_0000 + w;
            three != 0 && 10 * three < Place(3) <==> 0 < y < 1000 || (y == 0 && (z != 0 || w != 0))
  {
  }

  /** The fraction: 整 exactly when there is none, and a zero exactly before cents that follow whole yuan without tenths. */
  lemma {:induction false} FractionShape(yuan: nat, cents: nat)
    requires cents < 100
    ensures var text := FractionText(yuan, cents);
            && (text == "整" <==> cents == 0)
            && CountZeros(text) == One(yuan != 0 && 0 < cents < 10)
  {
    var jiao, fen := cents / 10, cents % 10;
    var high := if jiao > 0 then [DIGITS[jiao]] + "角" else "";
    var zero := if jiao == 0 && yuan != 0 then "零" else "";
    var low := if fen > 0 then [DIGITS[fen]] + "分" else "";
    if cents == 0 {
      CountFree("整");
    } else {
      CountFree(high);
      CountFree(low);
      CountConcat(zero, low);
      CountConcat(high, zero + low);
      assert "零"[1..] == "" && CountZeros("零") == 1;
      assert FractionText(yuan, cents) == high + (if fen > 0 then zero + low else "");
      assert high + "" == high;
      assert fen > 0 ==> FractionText(yuan, cents)[|FractionText(yuan, cents)| - 1] == '分';
    }
  }
}
