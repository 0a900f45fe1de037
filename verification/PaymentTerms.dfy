/**
  Payment plans (internal/domain/contract/payment_term.go): decimal amounts parsed
  without floating point, and a plan that must add up to the contract amount exactly.
 */
module PaymentTerms {
  import opened Wrappers
  import opened Text

  const MAX_PAYMENT_TERMS := 100
  const MAX_INT64: int := 0x7fff_ffff_ffff_ffff

  datatype PaymentTerm = PaymentTerm(installmentNo: int, dueDate: string, amount: string)

  // ----- Amounts -----

  /**
    What an amount text denotes, in minor units: a whole part and at most two decimals,
    none of them lost, and no value beyond int64. None stands for ErrPaymentTermsInvalid.
   */
  function AmountMinor(value: string): Option<nat> {
    var parts := Split(TrimSpace(value), '.');
    if |parts| > 2 || parts[0] == "" || !AllDigits(parts[0]) then None
    else if |parts| == 2 && (|parts[1]| == 0 || |parts[1]| > 2 || !AllDigits(parts[1])) then None
    else
      var minor := 100 * Parse(parts[0]) + (if |parts| == 1 then 0 else CentsOf(parts[1]));
      if minor <= MAX_INT64 then Some(minor) else None
  }

  /** strconv.ParseInt(digits, 10, 64) on a string of digits. */
  function ParseInt64(digits: string): Option<nat>
    requires AllDigits(digits)
  {
    if Parse(digits) <= MAX_INT64 then Some(Parse(digits)) else None
  }

  lemma DigitsDenote(whole: string, fraction: string)
    requires AllDigits(whole) && AllDigits(fraction) && |fraction| <= 2
    ensures AllDigits(whole + PadFraction(fraction))
    ensures Parse(whole + PadFraction(fraction)) == 100 * Parse(whole) + CentsOf(fraction)
  {
    PaddedCents(fraction);
    LastTwo(whole, PadFraction(fraction));
  }

  lemma LastTwo(whole: string, cents: string)
    requires AllDigits(whole) && AllDigits(cents) && |cents| == 2
    ensures AllDigits(whole + cents) && Parse(whole + cents) == 100 * Parse(whole) + Parse(cents)
  {
    ConcatDigits(whole, cents);
    ParseConcat(whole, cents);
    assert Pow10(2) == 10 * Pow10(1) == 100 * Pow10(0) == 100;
  }

  lemma PadMore(fraction: string)
    requires |fraction| < 2
    ensures PadFraction(fraction + "0") == PadFraction(fraction)
  {
  }

  lemma Padded(fraction: string)
    requires |fraction| == 2
    ensures PadFraction(fraction) == fraction
  {
  }

  method PaymentAmountMinor(value: string) returns (r: Option<nat>)
    ensures r == AmountMinor(value)
  {
    assert CentsOf("") == 0;
    hide Parse, CentsOf, PadFraction, TrimZeros;
    var parts := Split(TrimSpace(value), '.');
    if |parts| > 2 || parts[0] == "" {
      return None;
    }
    var fraction := "";
    if |parts| == 2 {
      fraction := parts[1];
      if |fraction| == 0 || |fraction| > 2 {
        return None;
      }
    }
    var digits := OnlyDigits(parts[0] + fraction);
    assert digits <==> AllDigits(parts[0]) && AllDigits(fraction) by {
      ConcatDigits(parts[0], fraction);
    }
    if !digits {
      return None;
    }
    ghost var given := fraction;
    while |fraction| < 2
      invariant |given| <= |fraction| <= 2
      invariant PadFraction(fraction) == PadFraction(given)
    {
      PadMore(fraction);
      fraction := fraction + "0";
    }
    Padded(fraction);
    DigitsDenote(parts[0], given);
    var significant := TrimZeros(parts[0] + fraction);
    TrimZerosValue(parts[0] + fraction);
    if significant == "" {
      ZeroIsEmpty();
      return Some(0);
    }
    return ParseInt64(significant);
  }

  /** fmt.Sprintf("%d.%02d", minor/100, minor%100). */
  function FormatMinor(minor: nat): string {
    Print(minor / 100) + "." + Pad(minor % 100, 2)
  }

  /** The printed form has exactly two decimals. */
  lemma PadTwo(n: nat)
    requires n < 100
    ensures |Pad(n, 2)| == 2
  {
    assert Pow10(1) == 10 && Pow10(2) == 100;
    PrintLength(n, 2);
  }

  /** Printing an int64 amount and reading it back loses nothing. */
  lemma PrintedAmountReadsBack(minor: nat)
    requires minor <= MAX_INT64
    ensures AmountMinor(FormatMinor(minor)) == Some(minor)
  {
    var whole, cents := Print(minor / 100), Pad(minor % 100, 2);
    PrintedShape(minor);
    TrimmedIsFixed(FormatMinor(minor));
    SplitPair(whole, cents, '.');
    hide Parse, TrimSpace, Split, Print, Pad;
    assert 100 * Parse(whole) + CentsOf(cents) == minor;
  }

  lemma PrintedShape(minor: nat)
    ensures var whole, cents := Print(minor / 100), Pad(minor % 100, 2);
            && |cents| == 2 && '.' !in whole && '.' !in cents && Trimmed(FormatMinor(minor))
            && Parse(whole) == minor / 100 && Parse(cents) == minor % 100
  {
    PadTwo(minor % 100);
    ParsePrint(minor / 100);
    ParsePad(minor % 100, 2);
    hide Parse, Pad, Print;
  }

  /** Amount texts are read by value: equal values print alike whatever their spelling. */
  lemma SpellingIrrelevant(a: string, b: string)
    requires AmountMinor(a).Some? && AmountMinor(b).Some?
    ensures AmountMinor(a) == AmountMinor(b) <==>
            FormatMinor(AmountMinor(a).value) == FormatMinor(AmountMinor(b).value)
  {
    PrintedAmountReadsBack(AmountMinor(a).value);
    PrintedAmountReadsBack(AmountMinor(b).value);
  }

  // ----- Dates and currency -----

  predicate LeapYear(y: nat) {
    y % 4 == 0 && (y % 100 != 0 || y % 400 == 0)
  }

  function DaysIn(month: nat, year: nat): nat {
    if month == 2 then (if LeapYear(year) then 29 else 28)
    else if month in {4, 6, 9, 11} then 30
    else 31
  }

  /** time.Parse("2006-01-02", s) succeeds, the year has four significant digits and printing gives s back. */
  predicate ValidDate(s: string) {
    && |s| == 10 && s[4] == '-' && s[7] == '-'
    && AllDigits(s[..4]) && AllDigits(s[5..7]) && AllDigits(s[8..])
    && var year, month, day := Parse(s[..4]), Parse(s[5..7]), Parse(s[8..]);
       year >= 1000 && 1 <= month <= 12 && 1 <= day <= DaysIn(month, year)
  }

  predicate ValidCurrency(currency: string) {
    var code := Upper(TrimSpace(currency));
    |code| == 3 && forall i :: 0 <= i < 3 ==> 'A' <= code[i] <= 'Z'
  }

  // ----- Plans -----

  /** One instalment is complete and well formed on its own. */
  predicate TermOk(t: PaymentTerm) {
    && 1 <= t.installmentNo <= MAX_PAYMENT_TERMS
    && ValidDate(TrimSpace(t.dueDate))
    && AmountMinor(t.amount).Some? && AmountMinor(t.amount).value > 0
  }

  function Minor(t: PaymentTerm): nat {
    if AmountMinor(t.amount).Some? then AmountMinor(t.amount).value else 0
  }

  function Sum(f: PaymentTerm -> nat, terms: seq<PaymentTerm>): nat {
    if terms == [] then 0 else Sum(f, terms[..|terms| - 1]) + f(terms[|terms| - 1])
  }

  function Total(terms: seq<PaymentTerm>): nat {
    Sum(Minor, terms)
  }

  predicate DistinctNumbers(terms: seq<PaymentTerm>) {
    forall i, j :: 0 <= i < j < |terms| ==> terms[i].installmentNo != terms[j].installmentNo
  }

  /** Every requirement on an explicitly supplied plan, with no reference to the order of its terms. */
  predicate Acceptable(terms: seq<PaymentTerm>, amountMinor: int, currency: string) {
    && |terms| <= MAX_PAYMENT_TERMS && amountMinor > 0 && ValidCurrency(currency)
    && (forall t :: t in terms ==> TermOk(t))
    && DistinctNumbers(terms)
    && Total(terms) == amountMinor
  }

  function Canonical(t: PaymentTerm): PaymentTerm {
    PaymentTerm(t.installmentNo, TrimSpace(t.dueDate), FormatMinor(Minor(t)))
  }

  function CanonicalAll(terms: seq<PaymentTerm>): (r: seq<PaymentTerm>)
    ensures |r| == |terms|
    ensures forall i :: 0 <= i < |terms| ==> r[i] == Canonical(terms[i])
  {
    seq(|terms|, i requires 0 <= i < |terms| => Canonical(terms[i]))
  }

  predicate Sorted(terms: seq<PaymentTerm>) {
    forall i, j :: 0 <= i < j < |terms| ==> terms[i].installmentNo <= terms[j].installmentNo
  }

  /** sort.Slice by instalment number. */
  function SortByNumber(terms: seq<PaymentTerm>): seq<PaymentTerm> {
    if terms == [] then []
    else InsertByNumber(SortByNumber(terms[..|terms| - 1]), terms[|terms| - 1])
  }

  function InsertByNumber(sorted: seq<PaymentTerm>, t: PaymentTerm): seq<PaymentTerm> {
    if sorted == [] || t.installmentNo < sorted[0].installmentNo then [t] + sorted
    else [sorted[0]] + InsertByNumber(sorted[1..], t)
  }

  lemma {:induction false} InsertKeepsOrder(sorted: seq<PaymentTerm>, t: PaymentTerm)
    requires Sorted(sorted)
    ensures Sorted(InsertByNumber(sorted, t))
    ensures forall x :: x in InsertByNumber(sorted, t) <==> x in sorted || x == t
  {
    if sorted != [] && !(t.installmentNo < sorted[0].installmentNo) {
      InsertKeepsOrder(sorted[1..], t);
      assert sorted == [sorted[0]] + sorted[1..];
      var rest := InsertByNumber(sorted[1..], t);
      assert forall i :: 0 <= i < |rest| ==> rest[i] in rest;
    }
  }

  lemma {:induction false} InsertKeepsTerms(sorted: seq<PaymentTerm>, t: PaymentTerm)
    ensures multiset(InsertByNumber(sorted, t)) == multiset(sorted) + multiset{t}
  {
    if sorted != [] && !(t.installmentNo < sorted[0].installmentNo) {
      InsertKeepsTerms(sorted[1..], t);
      assert sorted == [sorted[0]] + sorted[1..];
    }
  }

  lemma {:induction false} SortSorts(terms: seq<PaymentTerm>)
    ensures Sorted(SortByNumber(terms))
    ensures multiset(SortByNumber(terms)) == multiset(terms)
  {
    if terms != [] {
      var n := |terms| - 1;
      SortSorts(terms[..n]);
      InsertKeepsOrder(SortByNumber(terms[..n]), terms[n]);
      InsertKeepsTerms(SortByNumber(terms[..n]), terms[n]);
      assert terms == terms[..n] + [terms[n]];
    }
  }

  /** The outcome of normalizing a plan. */
  function Plan(terms: seq<PaymentTerm>, amountMinor: int, currency: string): Option<seq<PaymentTerm>> {
    if terms == [] then Some([])
    else if Acceptable(terms, amountMinor, currency) then Some(SortByNumber(CanonicalAll(terms)))
    else None
  }

  lemma {:induction false} SumMonotone(f: PaymentTerm -> nat, terms: seq<PaymentTerm>, k: nat)
    requires k <= |terms|
    ensures Sum(f, terms[..k]) <= Sum(f, terms)
    decreases |terms| - k
  {
    if k == |terms| {
      assert terms[..k] == terms;
    } else {
      assert terms[..k + 1][..k] == terms[..k];
      SumMonotone(f, terms, k + 1);
    }
  }

  /** The first i terms are well formed and numbered apart. */
  predicate GoodPrefix(terms: seq<PaymentTerm>, i: nat)
    requires i <= |terms|
  {
    && (forall k :: 0 <= k < i ==> TermOk(terms[k]))
    && (forall k, l :: 0 <= k < l < i ==> terms[k].installmentNo != terms[l].installmentNo)
  }

  predicate NumberSeen(terms: seq<PaymentTerm>, i: nat, number: int)
    requires i <= |terms|
  {
    exists k :: 0 <= k < i && terms[k].installmentNo == number
  }

  lemma TermParts(t: PaymentTerm)
    ensures TermOk(t) <==>
            (&& 1 <= t.installmentNo <= MAX_PAYMENT_TERMS && ValidDate(TrimSpace(t.dueDate))
             && AmountMinor(t.amount).Some? && AmountMinor(t.amount).value > 0)
  {
  }

  lemma BadTerm(terms: seq<PaymentTerm>, i: nat, amountMinor: int, currency: string)
    requires i < |terms|
    requires || !TermOk(terms[i]) || NumberSeen(terms, i, terms[i].installmentNo)
             || Total(terms[..i]) + Minor(terms[i]) > MAX_INT64 >= amountMinor
    ensures Plan(terms, amountMinor, currency) == None
  {
    assert terms[i] in terms;
    SumMonotone(Minor, terms, i + 1);
    assert terms[..i + 1][..i] == terms[..i];
  }

  lemma GoodTerm(terms: seq<PaymentTerm>, i: nat)
    requires i < |terms| && GoodPrefix(terms, i)
    requires TermOk(terms[i]) && !NumberSeen(terms, i, terms[i].installmentNo)
    ensures GoodPrefix(terms, i + 1)
    ensures Total(terms[..i + 1]) == Total(terms[..i]) + Minor(terms[i])
    ensures forall n :: NumberSeen(terms, i + 1, n) <==> NumberSeen(terms, i, n) || n == terms[i].installmentNo
  {
    hide TermOk;
    assert terms[..i + 1][..i] == terms[..i];
  }

  lemma NoTerms(terms: seq<PaymentTerm>)
    ensures GoodPrefix(terms, 0) && Total(terms[..0]) == 0 && forall n :: !NumberSeen(terms, 0, n)
  {
  }

  /** The checks made before the loop. */
  lemma NoPlan(terms: seq<PaymentTerm>, amountMinor: int, currency: string)
    ensures terms == [] ==> Plan(terms, amountMinor, currency) == Some([])
    ensures terms != [] && (|terms| > MAX_PAYMENT_TERMS || amountMinor <= 0 || !ValidCurrency(currency)) ==>
              Plan(terms, amountMinor, currency) == None
  {
  }

  lemma WholePlan(terms: seq<PaymentTerm>, amountMinor: int, currency: string, result: seq<PaymentTerm>)
    requires terms != [] && |terms| <= MAX_PAYMENT_TERMS && amountMinor > 0 && ValidCurrency(currency)
    requires GoodPrefix(terms, |terms|)
    requires |result| == |terms| && forall k :: 0 <= k < |terms| ==> result[k] == Canonical(terms[k])
    ensures Plan(terms, amountMinor, currency) == if Total(terms) == amountMinor then Some(SortByNumber(result)) else None
  {
    hide Canonical;
    assert result == CanonicalAll(terms);
  }

  method NormalizeCurrency(currency: string) returns (ok: bool)
    ensures ok == ValidCurrency(currency)
  {
    var code := Upper(TrimSpace(currency));
    if |code| != 3 {
      return false;
    }
    for i := 0 to |code|
      invariant forall k :: 0 <= k < i ==> 'A' <= code[k] <= 'Z'
    {
      if code[i] < 'A' || code[i] > 'Z' {
        return false;
      }
    }
    return true;
  }

  method NormalizePaymentTerms(terms: seq<PaymentTerm>, amountMinor: int, currency: string)
    returns (r: Option<seq<PaymentTerm>>)
    requires -MAX_INT64 - 1 <= amountMinor <= MAX_INT64
    ensures r == Plan(terms, amountMinor, currency)
  {
    hide TrimSpace, TermOk, ValidDate, ValidCurrency, AmountMinor, FormatMinor, SortByNumber, Sum;
    hide Total, Plan, Acceptable, GoodPrefix, NumberSeen;
    NoPlan(terms, amountMinor, currency);
    NoTerms(terms);
    if |terms| == 0 {
      return Some(terms);
    }
    if |terms| > MAX_PAYMENT_TERMS || amountMinor <= 0 {
      return None;
    }
    var currencyOk := NormalizeCurrency(currency);
    if !currencyOk {
      return None;
    }
    var result: seq<PaymentTerm> := [];
    var seen: set<int> := {};
    var total := 0;
    for i := 0 to |terms|
      invariant |result| == i && forall k :: 0 <= k < i ==> result[k] == Canonical(terms[k])
      invariant GoodPrefix(terms, i)
      invariant forall n :: n in seen <==> NumberSeen(terms, i, n)
      invariant total == Total(terms[..i]) <= MAX_INT64
    {
      var term := terms[i];
      TermParts(term);
      if term.installmentNo < 1 || term.installmentNo > MAX_PAYMENT_TERMS || term.installmentNo in seen {
        BadTerm(terms, i, amountMinor, currency);
        return None;
      }
      seen := seen + {term.installmentNo};
      var date := TrimSpace(term.dueDate);
      if !ValidDate(date) {
        BadTerm(terms, i, amountMinor, currency);
        return None;
      }
      var minor := PaymentAmountMinor(term.amount);
      if minor.None? || minor.value <= 0 || minor.value > MAX_INT64 - total {
        BadTerm(terms, i, amountMinor, currency);
        return None;
      }
      GoodTerm(terms, i);
      total := total + minor.value;
      result := result + [PaymentTerm(term.installmentNo, date, FormatMinor(minor.value))];
    }
    assert terms[..|terms|] == terms;
    WholePlan(terms, amountMinor, currency, result);
    if total != amountMinor {
      return None;
    }
    return Some(SortByNumber(result));
  }

  // ----- What a plan promises -----

  predicate StrictlySorted(terms: seq<PaymentTerm>) {
    forall i, j :: 0 <= i < j < |terms| ==> terms[i].installmentNo < terms[j].installmentNo
  }

  function Without(terms: seq<PaymentTerm>, k: nat): seq<PaymentTerm>
    requires k < |terms|
  {
    terms[..k] + terms[k + 1..]
  }

  lemma SplitAt(terms: seq<PaymentTerm>, k: nat)
    requires k < |terms|
    ensures multiset(terms) == multiset{terms[k]} + multiset(Without(terms, k))
  {
    assert terms == terms[..k] + [terms[k]] + terms[k + 1..];
  }

  lemma {:induction false} SumWithout(f: PaymentTerm -> nat, terms: seq<PaymentTerm>, k: nat)
    requires k < |terms|
    ensures Sum(f, terms) == f(terms[k]) + Sum(f, Without(terms, k))
  {
    var n := |terms| - 1;
    var rest := Without(terms, k);
    if k < n {
      SumWithout(f, terms[..n], k);
      assert rest[n - 1] == terms[n];
      assert rest[..n - 1] == Without(terms[..n], k);
    } else {
      assert rest == terms[..n];
    }
  }

  /** Sums and distinctness depend only on the multiset of terms. */
  lemma {:induction false} OrderIrrelevant(f: PaymentTerm -> nat, a: seq<PaymentTerm>, b: seq<PaymentTerm>)
    requires multiset(a) == multiset(b)
    ensures |a| == |b| && Sum(f, a) == Sum(f, b)
    ensures DistinctNumbers(a) ==> DistinctNumbers(b)
    decreases |a|
  {
    assert |multiset(a)| == |a| && |multiset(b)| == |b|;
    if a != [] {
      var last := |a| - 1;
      var k := IndexOf(b, a[last]);
      SumWithout(f, a, last);
      SumWithout(f, b, k);
      SplitAt(a, last);
      SplitAt(b, k);
      assert Without(a, last) == a[..last];
      assert multiset(Without(a, last)) == multiset(a) - multiset{a[last]};
      assert multiset(Without(b, k)) == multiset(b) - multiset{b[k]};
      OrderIrrelevant(f, a[..last], Without(b, k));
      if DistinctNumbers(a) {
        DistinctRestored(a, b, k);
      }
    }
  }

  lemma IndexOf(s: seq<PaymentTerm>, t: PaymentTerm) returns (k: nat)
    requires t in multiset(s)
    ensures k < |s| && s[k] == t
  {
    assert t in s;
    k :| 0 <= k < |s| && s[k] == t;
  }

  lemma DistinctRestored(a: seq<PaymentTerm>, b: seq<PaymentTerm>, k: nat)
    requires a != [] && k < |b| && b[k] == a[|a| - 1]
    requires DistinctNumbers(a) && DistinctNumbers(Without(b, k))
    requires multiset(a[..|a| - 1]) == multiset(Without(b, k))
    ensures DistinctNumbers(b)
  {
    var rest := Without(b, k);
    forall x | x in rest ensures x.installmentNo != b[k].installmentNo {
      assert x in multiset(rest);
      var i := IndexOf(a[..|a| - 1], x);
    }
    forall i, j | 0 <= i < j < |b| ensures b[i].installmentNo != b[j].installmentNo {
      var i' := if i < k then i else i - 1;
      var j' := if j < k then j else j - 1;
      if i != k { assert rest[i'] == b[i]; }
      if j != k { assert rest[j'] == b[j]; }
    }
  }

  /** Sorting numbered-apart terms leaves exactly the same terms, strictly increasing. */
  lemma SortedStrictly(terms: seq<PaymentTerm>)
    requires DistinctNumbers(terms)
    ensures StrictlySorted(SortByNumber(terms))
    ensures forall t :: t in SortByNumber(terms) <==> t in terms
  {
    var s := SortByNumber(terms);
    SortSorts(terms);
    OrderIrrelevant(Minor, terms, s);
    forall t ensures t in s <==> t in terms {
      assert t in multiset(s) <==> t in multiset(terms);
    }
  }

  lemma TailMembers(a: seq<PaymentTerm>, b: seq<PaymentTerm>, t: PaymentTerm)
    requires a != [] && b != [] && a[0] == b[0] && StrictlySorted(a)
    requires t in a[1..] && t in b
    ensures t in b[1..]
  {
    var i :| 0 <= i < |a[1..]| && a[1..][i] == t;
    assert a[0].installmentNo < a[i + 1].installmentNo;
    assert b == [b[0]] + b[1..];
  }

  /** A strictly increasing plan is determined by the terms in it. */
  lemma {:induction false} StrictUnique(a: seq<PaymentTerm>, b: seq<PaymentTerm>)
    requires StrictlySorted(a) && StrictlySorted(b)
    requires forall t :: t in a <==> t in b
    ensures a == b
    decreases |a|
  {
    assert forall i :: 0 <= i < |a| ==> a[i] in a;
    assert forall i :: 0 <= i < |b| ==> b[i] in b;
    if a != [] && b != [] {
      assert a[0] == b[0] by {
        assert a[0] in b && b[0] in a;
      }
      forall t ensures t in a[1..] <==> t in b[1..] {
        if t in a[1..] { TailMembers(a, b, t); }
        if t in b[1..] { TailMembers(b, a, t); }
      }
      StrictUnique(a[1..], b[1..]);
      assert a == [a[0]] + a[1..] && b == [b[0]] + b[1..];
    }
  }

  lemma SameCanonical(a: seq<PaymentTerm>, b: seq<PaymentTerm>, t: PaymentTerm)
    requires forall x :: x in a ==> x in b
    ensures t in CanonicalAll(a) ==> t in CanonicalAll(b)
  {
    if t in CanonicalAll(a) {
      var i :| 0 <= i < |a| && CanonicalAll(a)[i] == t;
      assert a[i] in b;
      var j :| 0 <= j < |b| && b[j] == a[i];
      assert CanonicalAll(b)[j] == t;
    }
  }

  lemma SameTermsSameSort(a: seq<PaymentTerm>, b: seq<PaymentTerm>)
    requires DistinctNumbers(a) && DistinctNumbers(b)
    requires forall t :: t in a <==> t in b
    ensures SortByNumber(CanonicalAll(a)) == SortByNumber(CanonicalAll(b))
  {
    var x, y := CanonicalAll(a), CanonicalAll(b);
    SortedStrictly(x);
    SortedStrictly(y);
    forall t ensures t in x <==> t in y {
      SameCanonical(a, b, t);
      SameCanonical(b, a, t);
    }
    StrictUnique(SortByNumber(x), SortByNumber(y));
  }

  lemma AcceptanceIgnoresOrder(a: seq<PaymentTerm>, b: seq<PaymentTerm>, amountMinor: int, currency: string)
    requires multiset(a) == multiset(b)
    requires Acceptable(a, amountMinor, currency)
    ensures Acceptable(b, amountMinor, currency)
    ensures forall t :: t in a <==> t in b
  {
    OrderIrrelevant(Minor, a, b);
    forall t ensures t in a <==> t in b {
      assert t in a <==> t in multiset(a);
      assert t in b <==> t in multiset(b);
    }
  }

  /** Neither the success of a plan nor its result depends on the order the terms came in. */
  lemma PlanIgnoresOrder(a: seq<PaymentTerm>, b: seq<PaymentTerm>, amountMinor: int, currency: string)
    requires multiset(a) == multiset(b)
    ensures Plan(a, amountMinor, currency) == Plan(b, amountMinor, currency)
  {
    assert |multiset(a)| == |a| && |multiset(b)| == |b|;
    if Acceptable(a, amountMinor, currency) {
      AcceptanceIgnoresOrder(a, b, amountMinor, currency);
      SameTermsSameSort(a, b);
    } else if Acceptable(b, amountMinor, currency) {
      AcceptanceIgnoresOrder(b, a, amountMinor, currency);
    }
  }

  /** Canonical terms are well formed, keep their value and are left alone by a second pass. */
  lemma CanonicalStable(t: PaymentTerm)
    requires TermOk(t)
    ensures TermOk(Canonical(t)) && Minor(Canonical(t)) == Minor(t)
    ensures Canonical(Canonical(t)) == Canonical(t)
  {
    PrintedAmountReadsBack(Minor(t));
    TrimSpaceTrims(t.dueDate);
  }

  lemma {:induction false} CanonicalTotal(terms: seq<PaymentTerm>)
    requires forall t :: t in terms ==> TermOk(t)
    ensures Total(CanonicalAll(terms)) == Total(terms)
  {
    if terms != [] {
      var n := |terms| - 1;
      CanonicalTotal(terms[..n]);
      CanonicalStable(terms[n]);
      assert CanonicalAll(terms)[..n] == CanonicalAll(terms[..n]);
    }
  }

  /**
    An accepted plan conserves the total to the last minor unit, is strictly sorted, keeps one
    canonical term per given term, and is accepted again unchanged.
   */
  lemma PlanConserves(terms: seq<PaymentTerm>, amountMinor: int, currency: string)
    requires terms != [] && Plan(terms, amountMinor, currency).Some?
    ensures var plan := Plan(terms, amountMinor, currency).value;
            && Total(plan) == amountMinor && |plan| == |terms| && StrictlySorted(plan)
            && multiset(plan) == multiset(CanonicalAll(terms))
            && Plan(plan, amountMinor, currency) == Some(plan)
  {
    var canonical := CanonicalAll(terms);
    var plan := SortByNumber(canonical);
    CanonicalTotal(terms);
    SortSorts(canonical);
    OrderIrrelevant(Minor, canonical, plan);
    SortedStrictly(canonical);
    assert |multiset(canonical)| == |canonical| && |multiset(plan)| == |plan|;
    AcceptedAgain(terms, plan);
    SortedStrictly(plan);
    StrictUnique(SortByNumber(plan), plan);
  }

  lemma AcceptedAgain(terms: seq<PaymentTerm>, plan: seq<PaymentTerm>)
    requires forall t :: t in terms ==> TermOk(t)
    requires forall t :: t in plan ==> t in CanonicalAll(terms)
    ensures forall t :: t in plan ==> TermOk(t)
    ensures CanonicalAll(plan) == plan
  {
    forall t | t in plan ensures TermOk(t) && Canonical(t) == t {
      var i :| 0 <= i < |terms| && CanonicalAll(terms)[i] == t;
      assert terms[i] in terms;
      CanonicalStable(terms[i]);
    }
    assert forall i :: 0 <= i < |plan| ==> plan[i] in plan;
  }
}
