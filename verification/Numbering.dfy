/**
  Contract numbers (internal/domain/contract/number_rule.go, the allocator in
  internal/infrastructure/mysql/contract_number.go and the rule editor in
  internal/application/contract_number.go). A sequence proposes candidates; the registry, whose
  key ignores case, decides.
 */
module Numbering {
  import opened Wrappers
  import opened Text

  const MAX_LENGTH := 64
  const AFFIX_MAX_LENGTH := 32
  const WIDTH_MIN := 1
  const WIDTH_MAX := 9
  const CONFLICT_ATTEMPTS := 50

  datatype Rule = Rule(prefix: string, yearSegment: string, seqWidth: int, suffix: string)

  datatype NumberError = InvalidRule | Exhausted

  // ----- Rules -----

  predicate AffixAllowed(c: char) {
    'A' <= c <= 'Z' || 'a' <= c <= 'z' || '0' <= c <= '9' || c in "-_./"
  }

  predicate AffixOk(s: string) {
    |s| <= AFFIX_MAX_LENGTH && forall i :: 0 <= i < |s| ==> AffixAllowed(s[i])
  }

  function YearLength(segment: string): nat {
    if segment == "YY" then 2 else if segment == "YYYY" then 4 else 0
  }

  predicate Normal(rule: Rule) {
    && AffixOk(rule.prefix) && AffixOk(rule.suffix)
    && rule.yearSegment in ["NONE", "YY", "YYYY"]
    && WIDTH_MIN <= rule.seqWidth <= WIDTH_MAX
    && |rule.prefix| + YearLength(rule.yearSegment) + rule.seqWidth + |rule.suffix| <= MAX_LENGTH
  }

  function Normalize(rule: Rule): (r: Result<Rule, NumberError>)
    ensures r.Ok? ==> Normal(r.value)
  {
    var segment := Upper(TrimSpace(rule.yearSegment));
    var normalized := Rule(TrimSpace(rule.prefix), if segment == "" then "YYYY" else segment,
                           rule.seqWidth, TrimSpace(rule.suffix));
    if Normal(normalized) then Ok(normalized) else Err(InvalidRule)
  }

  lemma AffixIsTrimmed(s: string)
    requires AffixOk(s)
    ensures TrimSpace(s) == s
  {
    TrimmedIsFixed(s);
  }

  /** A normalized rule normalizes to itself, so equivalent rules share one key. */
  lemma NormalizeStable(rule: Rule)
    requires Normal(rule)
    ensures Normalize(rule) == Ok(rule)
  {
    AffixIsTrimmed(rule.prefix);
    AffixIsTrimmed(rule.suffix);
    TrimmedIsFixed(rule.yearSegment);
    assert Upper(rule.yearSegment) == rule.yearSegment;
  }

  /**
    The text whose SHA-256 is the rule's key; the digest itself is taken as injective and left off.
   */
  function KeyMaterial(rule: Rule): string
    requires Normal(rule)
  {
    rule.prefix + ['\0'] + rule.yearSegment + ['\0'] + Print(rule.seqWidth) + ['\0'] + rule.suffix
  }

  lemma CutAtZero(a: string, x: string, b: string, y: string)
    requires '\0' !in a && '\0' !in b && a + ['\0'] + x == b + ['\0'] + y
    ensures a == b && x == y
  {
    var s := a + ['\0'] + x;
    assert s[|a|] == '\0' && s[|b|] == '\0';
    assert forall i :: 0 <= i < |a| ==> s[i] == a[i];
    assert forall i :: 0 <= i < |b| ==> s[i] == b[i];
    assert |a| == |b|;
    assert a == s[..|a|] && b == s[..|b|];
    assert x == s[|a| + 1..] && y == s[|b| + 1..];
  }

  /** Rules share a key only if every field that shapes a number is the same. */
  lemma KeyInjective(r: Rule, q: Rule)
    requires Normal(r) && Normal(q) && KeyMaterial(r) == KeyMaterial(q)
    ensures r == q
  {
    var w, v := Print(r.seqWidth), Print(q.seqWidth);
    var r2, q2 := w + ['\0'] + r.suffix, v + ['\0'] + q.suffix;
    var r1, q1 := r.yearSegment + ['\0'] + r2, q.yearSegment + ['\0'] + q2;
    assert KeyMaterial(r) == r.prefix + ['\0'] + r1 && KeyMaterial(q) == q.prefix + ['\0'] + q1;
    CutAtZero(r.prefix, r1, q.prefix, q1);
    CutAtZero(r.yearSegment, r2, q.yearSegment, q2);
    CutAtZero(w, r.suffix, v, q.suffix);
    ParsePrint(r.seqWidth);
    ParsePrint(q.seqWidth);
  }

  // ----- Numbers -----

  function SeqLimit(width: int): nat {
    if width < WIDTH_MIN || width > WIDTH_MAX then 0 else Pow10(width) - 1
  }

  method ContractNumberSeqLimit(width: int) returns (limit: nat)
    ensures limit == SeqLimit(width)
  {
    if width < WIDTH_MIN || width > WIDTH_MAX {
      return 0;
    }
    limit := 1;
    for index := 0 to width
      invariant limit == Pow10(index)
    {
      limit := limit * 10;
    }
    limit := limit - 1;
  }

  function YearPart(segment: string, year: nat): string {
    if segment == "YY" then Pad(year % 100, 2) else if segment == "YYYY" then Pad(year, 4) else ""
  }

  /** Prefix, year, zero-filled sequence and suffix. */
  function Number(rule: Rule, year: nat, sequence: nat): string
    requires Normal(rule)
  {
    rule.prefix + YearPart(rule.yearSegment, year) + Pad(sequence, rule.seqWidth) + rule.suffix
  }

  function Build(rule: Rule, year: nat, sequence: nat): Result<string, NumberError> {
    match Normalize(rule)
    case Err(e) => Err(e)
    case Ok(normalized) =>
      if sequence == 0 then Err(InvalidRule)
      else if sequence > SeqLimit(normalized.seqWidth) then Err(Exhausted)
      else if |Number(normalized, year, sequence)| > MAX_LENGTH then Err(InvalidRule)
      else Ok(Number(normalized, year, sequence))
  }

  lemma PadExact(n: nat, width: nat)
    requires width > 0 && n < Pow10(width)
    ensures |Pad(n, width)| == width
  {
    PrintLength(n, width);
  }

  lemma SequenceSlice(rule: Rule, year: nat, sequence: nat)
    requires Normal(rule) && sequence <= SeqLimit(rule.seqWidth)
    ensures var start := |rule.prefix| + |YearPart(rule.yearSegment, year)|;
            && |Pad(sequence, rule.seqWidth)| == rule.seqWidth
            && |Number(rule, year, sequence)| == start + rule.seqWidth + |rule.suffix|
            && Number(rule, year, sequence)[start..start + rule.seqWidth] == Pad(sequence, rule.seqWidth)
  {
    PadExact(sequence, rule.seqWidth);
  }

  /** Within one rule and year, even numbers that differ only in case carry the same sequence. */
  lemma NumberInjective(rule: Rule, year: nat, s: nat, t: nat)
    requires Normal(rule) && s <= SeqLimit(rule.seqWidth) && t <= SeqLimit(rule.seqWidth)
    requires Lower(Number(rule, year, s)) == Lower(Number(rule, year, t))
    ensures s == t
  {
    var start := |rule.prefix| + |YearPart(rule.yearSegment, year)|;
    SequenceSlice(rule, year, s);
    SequenceSlice(rule, year, t);
    var x, y := Pad(s, rule.seqWidth), Pad(t, rule.seqWidth);
    forall i | 0 <= i < rule.seqWidth ensures x[i] == y[i] {
      assert x[i] == Number(rule, year, s)[start + i] && y[i] == Number(rule, year, t)[start + i];
      assert Lower(Number(rule, year, s))[start + i] == LowerChar(x[i]);
      assert Lower(Number(rule, year, t))[start + i] == LowerChar(y[i]);
    }
    assert x == y;
    ParsePad(s, rule.seqWidth);
    ParsePad(t, rule.seqWidth);
  }

  /** A normalized rule never overflows the column in a four-digit year: every sequence in range builds. */
  lemma NumberFits(rule: Rule, year: nat, sequence: nat)
    requires Normal(rule) && year < 10000
    ensures 0 < sequence <= SeqLimit(rule.seqWidth) ==> Build(rule, year, sequence) == Ok(Number(rule, year, sequence))
    ensures sequence > SeqLimit(rule.seqWidth) ==> Build(rule, year, sequence) == Err(Exhausted)
  {
    NormalizeStable(rule);
    if 0 < sequence <= SeqLimit(rule.seqWidth) {
      SequenceSlice(rule, year, sequence);
      assert Pow10(4) == 10 * Pow10(3) && Pow10(3) == 10 * Pow10(2) && Pow10(2) == 10 * Pow10(1) && Pow10(1) == 10;
      PadExact(year % 100, 2);
      PadExact(year, 4);
    }
  }

  /** Building goes through the normalized rule. */
  lemma BuildIsNumber(rule: Rule, year: nat, sequence: nat)
    ensures Normalize(rule).Ok? ==> Build(rule, year, sequence) == Build(Normalize(rule).value, year, sequence)
    ensures Build(rule, year, sequence).Ok? ==>
              Normalize(rule).Ok? && Build(rule, year, sequence).value == Number(Normalize(rule).value, year, sequence)
  {
    if Normalize(rule).Ok? {
      NormalizeStable(Normalize(rule).value);
    }
  }

  /** How many characters of a number are its year; a blank segment asks for all four. */
  function YearDigits(segment: string): nat {
    match Upper(TrimSpace(segment))
    case "NONE" => 0
    case "YY" => 2
    case _ => 4
  }

  /** The number begins with the affix, ends with the suffix, and between them has the year and the sequence in digits. */
  predicate Reads(number: string, rule: Rule, year: nat, sequence: nat) {
    var start, y, w := |TrimSpace(rule.prefix)|, YearDigits(rule.yearSegment), rule.seqWidth;
    && w > 0 && |number| == start + y + w + |TrimSpace(rule.suffix)|
    && number[..start] == TrimSpace(rule.prefix) && number[start + y + w..] == TrimSpace(rule.suffix)
    && AllDigits(number[start..start + y]) && AllDigits(number[start + y..start + y + w])
    && Parse(number[start..start + y]) == (if y == 4 then year else if y == 2 then year % 100 else 0)
    && Parse(number[start + y..start + y + w]) == sequence
  }

  lemma NormalizedParts(rule: Rule)
    requires Normalize(rule).Ok?
    ensures var n := Normalize(rule).value;
            && n.prefix == TrimSpace(rule.prefix) && n.suffix == TrimSpace(rule.suffix) && n.seqWidth == rule.seqWidth
            && YearLength(n.yearSegment) == YearDigits(rule.yearSegment) && n.yearSegment in ["NONE", "YY", "YYYY"] && Normal(n)
  {
    hide TrimSpace, Upper;
  }

  lemma PartsRead(rule: Rule, year: nat, sequence: nat, y: string, q: string)
    requires AllDigits(y) && |y| == YearDigits(rule.yearSegment) && AllDigits(q) && |q| == rule.seqWidth > 0
    requires Parse(y) == (if |y| == 4 then year else if |y| == 2 then year % 100 else 0) && Parse(q) == sequence
    ensures Reads(TrimSpace(rule.prefix) + y + q + TrimSpace(rule.suffix), rule, year, sequence)
  {
    hide TrimSpace, Parse, AllDigits, YearDigits;
    PiecesOf(TrimSpace(rule.prefix), y, q, TrimSpace(rule.suffix));
  }

  /** Every number built reads: prefix, year, sequence, suffix. */
  lemma BuiltReads(rule: Rule, year: nat, sequence: nat)
    requires year < 10000 && Build(rule, year, sequence).Ok?
    ensures Reads(Build(rule, year, sequence).value, rule, year, sequence)
  {
    NormalizedParts(rule);
    hide Normalize, Normal, TrimSpace, Pad, YearPart, Parse, AllDigits, YearDigits, Reads;
    var normal := Normalize(rule).value;
    YearReads(normal.yearSegment, year);
    PadExact(sequence, normal.seqWidth);
    ParsePad(sequence, normal.seqWidth);
    PartsRead(rule, year, sequence, YearPart(normal.yearSegment, year), Pad(sequence, normal.seqWidth));
  }

  lemma YearReads(segment: string, year: nat)
    requires segment in ["NONE", "YY", "YYYY"] && year < 10000
    ensures var part := YearPart(segment, year);
            && AllDigits(part) && |part| == YearLength(segment)
            && Parse(part) == (if segment == "YYYY" then year else if segment == "YY" then year % 100 else 0)
  {
    assert Pow10(4) == 10 * Pow10(3) && Pow10(3) == 10 * Pow10(2) && Pow10(2) == 10 * Pow10(1) && Pow10(1) == 10;
    PadExact(year % 100, 2);
    PadExact(year, 4);
    ParsePad(year % 100, 2);
    ParsePad(year, 4);
    ZeroIsEmpty();
    hide Pad;
  }

  lemma PiecesOf(a: string, b: string, c: string, d: string)
    ensures var all := a + b + c + d;
            && all[..|a|] == a && all[|a|..|a| + |b|] == b
            && all[|a| + |b|..|a| + |b| + |c|] == c && all[|a| + |b| + |c|..] == d
  {
  }

  // ----- Allocation -----

  datatype Allocation = Issued(number: string) | LegacyFormat | Failed(error: NumberError)

  /** The rule row, the yearly sequence of each rule key, the registry (compared without case) and what was issued. */
  datatype Ledger = Ledger(rule: Option<Rule>, sequences: map<(string, nat), nat>, registry: set<string>,
                           issued: seq<string>)

  function Watermark(sequences: map<(string, nat), nat>, key: string, year: nat): nat {
    if (key, year) in sequences then sequences[(key, year)] else 0
  }

  /** The candidate number of each sequence value under one rule and year. */
  function Candidates(rule: Rule, year: nat): nat -> Result<string, NumberError> {
    (sequence: nat) => Build(rule, year, sequence)
  }

  /** Where the retry loop stops: the first candidate above the watermark that is not registered. */
  function Scan(candidate: nat -> Result<string, NumberError>, watermark: nat, registry: set<string>, attempts: nat)
    : Result<nat, NumberError>
    decreases attempts
  {
    if attempts == 0 then Err(Exhausted)
    else
      match candidate(watermark + 1)
      case Err(e) => Err(e)
      case Ok(number) =>
        if Lower(number) in registry then Scan(candidate, watermark + 1, registry, attempts - 1) else Ok(watermark + 1)
  }

  /** One committed allocation; a failed one rolls back and leaves everything as it was. */
  function Allocate(l: Ledger, year: nat): (Ledger, Allocation) {
    if l.rule.None? then (l, LegacyFormat)
    else
      match Normalize(l.rule.value)
      case Err(e) => (l, Failed(e))
      case Ok(rule) =>
        var key := KeyMaterial(rule);
        match Scan(Candidates(rule, year), Watermark(l.sequences, key, year), l.registry, CONFLICT_ATTEMPTS)
        case Err(e) => (l, Failed(e))
        case Ok(sequence) =>
          var number := Number(rule, year, sequence);
          (l.(sequences := l.sequences[(key, year) := sequence], registry := l.registry + {Lower(number)},
              issued := l.issued + [number]),
           Issued(number))
  }

  predicate Free(rule: Rule, year: nat, registry: set<string>, sequence: nat)
    requires Normal(rule)
  {
    Lower(Number(rule, year, sequence)) !in registry
  }

  /** A candidate that can be formed and is not registered. */
  predicate Usable(candidate: nat -> Result<string, NumberError>, registry: set<string>, sequence: nat) {
    candidate(sequence).Ok? && Lower(candidate(sequence).value) !in registry
  }

  /**
    With candidates exactly up to a limit, the scan finds the smallest usable sequence above the
    watermark within the attempts, and fails exactly when there is none.
   */
  lemma {:induction false} ScanFindsFirst(candidate: nat -> Result<string, NumberError>, limit: nat, watermark: nat,
                                          registry: set<string>, attempts: nat)
    requires forall s :: 0 < s <= limit ==> candidate(s).Ok?
    requires forall s :: s > limit ==> candidate(s) == Err(Exhausted)
    ensures var r := Scan(candidate, watermark, registry, attempts);
            match r
            case Ok(s) =>
              && watermark < s <= watermark + attempts && s <= limit && Usable(candidate, registry, s)
              && forall t :: watermark < t < s ==> !Usable(candidate, registry, t)
            case Err(e) =>
              && e == Exhausted
              && forall t :: watermark < t <= watermark + attempts ==> !Usable(candidate, registry, t)
    decreases attempts
  {
    if attempts > 0 && watermark + 1 <= limit && !Usable(candidate, registry, watermark + 1) {
      ScanFindsFirst(candidate, limit, watermark + 1, registry, attempts - 1);
    }
  }

  lemma {:induction false} ScanIsUsable(candidate: nat -> Result<string, NumberError>, watermark: nat,
                                        registry: set<string>, attempts: nat)
    ensures var r := Scan(candidate, watermark, registry, attempts); r.Ok? ==> Usable(candidate, registry, r.value)
    decreases attempts
  {
    if attempts > 0 {
      ScanIsUsable(candidate, watermark + 1, registry, attempts - 1);
    }
  }

  lemma CandidatesBuild(rule: Rule, year: nat, sequence: nat)
    ensures Candidates(rule, year)(sequence) == Build(rule, year, sequence)
  {
  }

  /** In a four-digit year the candidates of a normalized rule are exactly its numbers up to the width's limit. */
  lemma CandidatesUpToLimit(rule: Rule, year: nat, registry: set<string>)
    requires Normal(rule) && year < 10000
    ensures var c, limit := Candidates(rule, year), SeqLimit(rule.seqWidth);
            && (forall s :: 0 < s <= limit ==> c(s) == Ok(Number(rule, year, s)) && |Number(rule, year, s)| <= MAX_LENGTH)
            && (forall s :: s > limit ==> c(s) == Err(Exhausted))
            && (forall s :: 0 < s <= limit ==> (Usable(c, registry, s) <==> Free(rule, year, registry, s)))
  {
    forall s: nat | s > 0
      ensures Build(rule, year, s) == if s <= SeqLimit(rule.seqWidth) then Ok(Number(rule, year, s)) else Err(Exhausted)
      ensures s <= SeqLimit(rule.seqWidth) ==> |Number(rule, year, s)| <= MAX_LENGTH
    {
      NumberFits(rule, year, s);
    }
  }

  class NumberStore {
    var rule: Option<Rule>
    var sequences: map<(string, nat), nat>
    var registry: set<string>
    var issued: seq<string>

    constructor (rule: Option<Rule>)
      ensures View() == Ledger(rule, map[], {}, [])
    {
      this.rule, sequences, registry, issued := rule, map[], {}, [];
    }

    function View(): Ledger
      reads this
    {
      Ledger(rule, sequences, registry, issued)
    }

    /** allocateContractNumberInTx: local copies stand for the open transaction, assigned back at commit. */
    method AllocateContractNumber(year: nat) returns (r: Allocation)
      modifies this
      ensures (View(), r) == Allocate(old(View()), year)
    {
      hide Build, Normal, Number, Normalize, KeyMaterial, Print;
      if rule.None? {
        return LegacyFormat;
      }
      var normalized := Normalize(rule.value);
      if normalized.Err? {
        return Failed(normalized.error);
      }
      var key := KeyMaterial(normalized.value);
      var current := Watermark(sequences, key, year);
      ghost var start := current;
      NormalizeStable(normalized.value);
      for attempt := 0 to CONFLICT_ATTEMPTS
        invariant unchanged(this)
        invariant Scan(Candidates(normalized.value, year), start, registry, CONFLICT_ATTEMPTS)
                  == Scan(Candidates(normalized.value, year), current, registry, CONFLICT_ATTEMPTS - attempt)
      {
        current := current + 1;
        var number := Build(rule.value, year, current);
        BuildIsNumber(rule.value, year, current);
        BuildIsNumber(normalized.value, year, current);
        if number.Err? {
          return Failed(number.error);
        }
        if Lower(number.value) !in registry {
          sequences := sequences[(key, year) := current];
          registry := registry + {Lower(number.value)};
          issued := issued + [number.value];
          return Issued(number.value);
        }
      }
      return Failed(Exhausted);
    }

    /** UpdateContractNumberRule after its permission checks: normalize, dry run, save. */
    method UpdateRule(newRule: Rule, year: nat) returns (r: Result<(), SaveError>)
      modifies this`rule
      ensures (View(), r) == SaveRule(old(View()), newRule, year)
    {
      hide Build, Normal, Number, Normalize, KeyMaterial, Print;
      var normalized := Normalize(newRule);
      if normalized.Err? {
        return Err(Invalid);
      }
      var current := Watermark(sequences, KeyMaterial(normalized.value), year);
      var candidate := Build(normalized.value, year, current + 1);
      if candidate.Ok? && Lower(candidate.value) in registry {
        return Err(Occupied);
      }
      rule := Some(normalized.value);
      return Ok(());
    }
  }

  datatype SaveError = Invalid | Occupied

  function SaveRule(l: Ledger, newRule: Rule, year: nat): (Ledger, Result<(), SaveError>) {
    match Normalize(newRule)
    case Err(e) => (l, Err(Invalid))
    case Ok(rule) =>
      var candidate := Build(rule, year, Watermark(l.sequences, KeyMaterial(rule), year) + 1);
      if candidate.Ok? && Lower(candidate.value) in l.registry then (l, Err(Occupied))
      else (l.(rule := Some(rule)), Ok(()))
  }

  /** Each success issues the smallest free number above the watermark and moves the watermark onto it. */
  lemma AllocationIsFirstFree(l: Ledger, rule: Rule, year: nat)
    requires l.rule == Some(rule) && Normal(rule) && year < 10000
    ensures var (after, r) := Allocate(l, year);
            var key, w := KeyMaterial(rule), Watermark(l.sequences, KeyMaterial(rule), year);
            match r
            case Issued(number) =>
              var s := Watermark(after.sequences, key, year);
              && w < s <= w + CONFLICT_ATTEMPTS && s <= SeqLimit(rule.seqWidth)
              && number == Number(rule, year, s) && |number| <= MAX_LENGTH
              && Free(rule, year, l.registry, s) && (forall t :: w < t < s ==> !Free(rule, year, l.registry, t))
              && after == l.(sequences := l.sequences[(key, year) := s], registry := l.registry + {Lower(number)},
                             issued := l.issued + [number])
            case Failed(e) =>
              && e == Exhausted && after == l
              && forall t :: w < t <= w + CONFLICT_ATTEMPTS && t <= SeqLimit(rule.seqWidth)
                             ==> !Free(rule, year, l.registry, t)
            case LegacyFormat => false
  {
    hide Normal, Number, Normalize, KeyMaterial, SeqLimit, Candidates, Usable, Free, Build;
    NormalizeStable(rule);
    CandidatesUpToLimit(rule, year, l.registry);
    var w := Watermark(l.sequences, KeyMaterial(rule), year);
    ScanFindsFirst(Candidates(rule, year), SeqLimit(rule.seqWidth), w, l.registry, CONFLICT_ATTEMPTS);
  }

  /**
    The dry run looks at the very candidate the allocator tries first: a rule that is saved while its
    sequence has room issues that candidate next, and one is refused only when its first try would collide.
   */
  lemma DryRunIsFirstCandidate(l: Ledger, newRule: Rule, year: nat)
    requires year < 10000 && Normalize(newRule).Ok?
    ensures var rule := Normalize(newRule).value;
            var w := Watermark(l.sequences, KeyMaterial(rule), year);
            var (saved, r) := SaveRule(l, newRule, year);
            && (r.Ok? && w < SeqLimit(rule.seqWidth) ==> Allocate(saved, year).1 == Issued(Number(rule, year, w + 1)))
            && (r.Ok? && w >= SeqLimit(rule.seqWidth) ==> Allocate(saved, year).1 == Failed(Exhausted))
            && (r.Err? <==> w < SeqLimit(rule.seqWidth) && !Free(rule, year, l.registry, w + 1))
  {
    hide Build, Normal, Number, Normalize, KeyMaterial, SeqLimit, Candidates;
    var rule := Normalize(newRule).value;
    NormalizeStable(rule);
    CandidatesUpToLimit(rule, year, l.registry);
    var w := Watermark(l.sequences, KeyMaterial(rule), year);
    CandidatesBuild(rule, year, w + 1);
  }

  /** An issued number reads under the rule and year it was issued for, and its sequence is the new watermark. */
  lemma IssuedReads(l: Ledger, rule: Rule, year: nat)
    requires l.rule == Some(rule) && year < 10000 && Allocate(l, year).1.Issued?
    ensures Normalize(rule).Ok?
    ensures Reads(Allocate(l, year).1.number, rule, year, Watermark(Allocate(l, year).0.sequences, KeyMaterial(Normalize(rule).value), year))
  {
    var normal := Normalize(rule).value;
    var w := Watermark(l.sequences, KeyMaterial(normal), year);
    ScanIsUsable(Candidates(normal, year), w, l.registry, CONFLICT_ATTEMPTS);
    var sequence := Scan(Candidates(normal, year), w, l.registry, CONFLICT_ATTEMPTS).value;
    BuildIsNumber(rule, year, sequence);
    BuildIsNumber(normal, year, sequence);
    hide Build, Reads, Number;
    BuiltReads(rule, year, sequence);
  }

  /** Which rules are accepted: short affixes of plain characters, a known year, one to nine digits, 64 characters in all. */
  lemma {:induction false} NormalizeExactly(rule: Rule)
    ensures var p, q, segment := TrimSpace(rule.prefix), TrimSpace(rule.suffix), Upper(TrimSpace(rule.yearSegment));
            && (Normalize(rule).Ok? <==>
                  && |p| <= 32 && |q| <= 32 && 1 <= rule.seqWidth <= 9 && segment in ["", "NONE", "YY", "YYYY"]
                  && |p| + (if segment == "NONE" then 0 else if segment == "YY" then 2 else 4) + rule.seqWidth + |q| <= 64
                  && (forall i :: 0 <= i < |p| ==> AffixAllowed(p[i])) && (forall i :: 0 <= i < |q| ==> AffixAllowed(q[i])))
            && (Normalize(rule).Ok? ==> Normalize(rule).value == Rule(p, if segment == "" then "YYYY" else segment, rule.seqWidth, q))
  {
    hide TrimSpace, Upper;
  }

  /** Nothing is built for the sequence 0, beyond the width's last sequence, or under a rule that is not accepted. */
  lemma {:induction false} BuiltExactly(rule: Rule, year: nat, sequence: nat)
    requires year < 10000
    ensures Build(rule, year, sequence).Ok? <==> Normalize(rule).Ok? && 0 < sequence < Pow10(rule.seqWidth)
    ensures Normalize(rule).Ok? && sequence >= Pow10(rule.seqWidth) ==> Build(rule, year, sequence) == Err(Exhausted)
  {
    if Normalize(rule).Ok? {
      NormalizedParts(rule);
      NumberFits(Normalize(rule).value, year, sequence);
      BuildIsNumber(rule, year, sequence);
    }
    hide Normalize, Number, Normal;
  }

  /** Without a free sequence among the next fifty the allocation fails and leaves everything as it was; with one it never does. */
  lemma {:induction false} FiftyTries(l: Ledger, rule: Rule, year: nat)
    requires l.rule == Some(rule) && Normal(rule) && year < 10000
    ensures var w := Watermark(l.sequences, KeyMaterial(rule), year);
            Allocate(l, year).1.Issued? <==>
              exists t: nat :: w < t <= w + 50 && t <= SeqLimit(rule.seqWidth) && Free(rule, year, l.registry, t)
  {
    AllocationIsFirstFree(l, rule, year);
    hide Normal, KeyMaterial, SeqLimit, Free, Number;
  }

  // ----- Whole runs -----

  /** A rule is saved after its dry run, or stored late, when the dry run may no longer hold. */
  datatype Event = AllocateIn(year: nat) | SaveRuleIn(rule: Rule, year: nat) | StoreRuleLate(rule: Rule) | LoseSequences

  function Step(l: Ledger, e: Event): Ledger {
    match e
    case AllocateIn(year) => Allocate(l, year).0
    case SaveRuleIn(rule, year) => SaveRule(l, rule, year).0
    case StoreRuleLate(rule) => if Normalize(rule).Ok? then l.(rule := Some(Normalize(rule).value)) else l
    case LoseSequences => l.(sequences := map[])
  }

  function Run(l: Ledger, events: seq<Event>): Ledger {
    if events == [] then l else Step(Run(l, events[..|events| - 1]), events[|events| - 1])
  }

  predicate NoRepeats(l: Ledger) {
    && (forall i :: 0 <= i < |l.issued| ==> Lower(l.issued[i]) in l.registry)
    && (forall i, j :: 0 <= i < j < |l.issued| ==> Lower(l.issued[i]) != Lower(l.issued[j]))
  }

  /** Whatever an allocation issues was not registered before, in any case. */
  lemma IssuedWasFree(l: Ledger, year: nat)
    ensures var (after, r) := Allocate(l, year);
            match r
            case Issued(number) =>
              && Lower(number) !in l.registry
              && after.registry == l.registry + {Lower(number)} && after.issued == l.issued + [number]
            case _ => after == l
  {
    if l.rule.Some? && Normalize(l.rule.value).Ok? {
      var rule := Normalize(l.rule.value).value;
      var w := Watermark(l.sequences, KeyMaterial(rule), year);
      ScanIsUsable(Candidates(rule, year), w, l.registry, CONFLICT_ATTEMPTS);
      var r := Scan(Candidates(rule, year), w, l.registry, CONFLICT_ATTEMPTS);
      if r.Ok? {
        BuildIsNumber(rule, year, r.value);
        NormalizeStable(rule);
      }
    }
  }

  /** Over any run of allocations, rule edits and lost sequence tables, no number repeats, not even in another case. */
  lemma {:induction false} NoNumberRepeats(l: Ledger, events: seq<Event>)
    requires NoRepeats(l)
    ensures NoRepeats(Run(l, events))
  {
    if events != [] {
      NoNumberRepeats(l, events[..|events| - 1]);
      StepKeepsApart(Run(l, events[..|events| - 1]), events[|events| - 1]);
    }
  }

  lemma StepKeepsApart(l: Ledger, e: Event)
    requires NoRepeats(l)
    ensures NoRepeats(Step(l, e))
  {
    hide Normalize, Normal, Build, KeyMaterial, Allocate;
    if e.AllocateIn? {
      IssuedWasFree(l, e.year);
    }
  }
}
