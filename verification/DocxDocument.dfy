/**
  Rendering one XML part of a Word document (internal/docx/document.go): read the text nodes,
  replace the placeholders of the visible text, and write the part back with only the contents of
  its text nodes changed. The two pattern searches (text nodes in the XML, placeholders in the
  visible text) and HTML unescaping are parameters.
 */
module DocxDocument {
  import opened Wrappers
  import opened DocxSplice
  import MoneyText

  // ----- Escaping -----

  function EscapeChar(c: char): string {
    if c == '&' then "&amp;"
    else if c == '\'' then "&#39;"
    else if c == '<' then "&lt;"
    else if c == '>' then "&gt;"
    else if c == '"' then "&#34;"
    else [c]
  }

  function Escape(s: string): string {
    if s == "" then "" else EscapeChar(s[0]) + Escape(s[1..])
  }

  /** What is taken of HTML unescaping: it undoes escaping. */
  ghost predicate Unescapes(unescape: string -> string) {
    forall s: string :: unescape(Escape(s)) == s
  }

  /** Escaped text opens no tag, so it cannot end its text node early. */
  lemma {:induction false} EscapedHasNoTag(s: string)
    ensures '<' !in Escape(s) && '>' !in Escape(s)
  {
    if s != "" {
      EscapedHasNoTag(s[1..]);
      assert '<' !in EscapeChar(s[0]) && '>' !in EscapeChar(s[0]);
    }
  }

  /** Reads the five escapes back and leaves every other text alone. */
  function UnescapeFive(s: string): string {
    if s == "" then ""
    else if "&amp;" <= s then "&" + UnescapeFive(s[5..])
    else if "&#39;" <= s then "'" + UnescapeFive(s[5..])
    else if "&lt;" <= s then "<" + UnescapeFive(s[4..])
    else if "&gt;" <= s then ">" + UnescapeFive(s[4..])
    else if "&#34;" <= s then "\"" + UnescapeFive(s[5..])
    else [s[0]] + UnescapeFive(s[1..])
  }

  /** The five escapes can be read back: no two texts escape to the same XML. */
  lemma {:induction false} EscapeReadsBack(s: string)
    ensures UnescapeFive(Escape(s)) == s
  {
    if s != "" {
      hide EscapeChar;
      EscapeReadsBack(s[1..]);
      CharReadsBack(s[0], Escape(s[1..]));
      assert [s[0]] + s[1..] == s;
    }
  }

  lemma CharReadsBack(c: char, rest: string)
    ensures UnescapeFive(EscapeChar(c) + rest) == [c] + UnescapeFive(rest)
  {
    var all := EscapeChar(c) + rest;
    assert all[|EscapeChar(c)|..] == rest;
    if c == '&' {
      assert all[..5] == "&amp;";
    } else if c == '\'' {
      assert all[..5] == "&#39;";
      assert all[1] != 'a';
    } else if c == '<' {
      assert all[..4] == "&lt;";
      assert all[1] == 'l';
    } else if c == '>' {
      assert all[..4] == "&gt;";
      assert all[1] == 'g';
    } else if c == '"' {
      assert all[..5] == "&#34;";
      assert all[1] == '#' && all[3] == '4';
    } else {
      assert all[0] != '&';
    }
  }

  // ----- Text nodes -----

  /** The content of one text node: xml[start..end]. */
  datatype Range = Range(start: nat, end: nat)

  /** In order, not overlapping, from position `from` on. */
  predicate InOrder(ranges: seq<Range>, from: nat, length: nat)
    ensures InOrder(ranges, from, length) ==> from <= length
  {
    if ranges == [] then from <= length
    else from <= ranges[0].start <= ranges[0].end && InOrder(ranges[1..], ranges[0].end, length)
  }

  /** The text of every node. */
  function Texts(xml: string, ranges: seq<Range>, cursor: nat, unescape: string -> string): (texts: seq<string>)
    requires InOrder(ranges, cursor, |xml|)
    ensures |texts| == |ranges|
  {
    if ranges == [] then []
    else [unescape(xml[ranges[0].start..ranges[0].end])] + Texts(xml, ranges[1..], ranges[0].end, unescape)
  }

  /** The XML between the text nodes. */
  function Outside(xml: string, ranges: seq<Range>, cursor: nat): seq<string>
    requires InOrder(ranges, cursor, |xml|)
  {
    if ranges == [] then [xml[cursor..]]
    else [xml[cursor..ranges[0].start]] + Outside(xml, ranges[1..], ranges[0].end)
  }

  lemma {:induction false} OrderFrom(ranges: seq<Range>, from: nat, length: nat, i: nat)
    requires InOrder(ranges, from, length) && i < |ranges|
    ensures ranges[i].start <= ranges[i].end && InOrder(ranges[i + 1..], ranges[i].end, length)
    decreases i
  {
    if i > 0 {
      OrderFrom(ranges, from, length, i - 1);
      assert ranges[i..][1..] == ranges[i + 1..];
    }
  }

  lemma {:induction false} TextAt(xml: string, ranges: seq<Range>, cursor: nat, unescape: string -> string, i: nat)
    requires InOrder(ranges, cursor, |xml|) && i < |ranges|
    ensures ranges[i].start <= ranges[i].end <= |xml|
    ensures Texts(xml, ranges, cursor, unescape)[i] == unescape(xml[ranges[i].start..ranges[i].end])
    decreases i
  {
    if i > 0 {
      TextAt(xml, ranges[1..], ranges[0].end, unescape, i - 1);
    }
  }

  predicate Placed(spans: seq<Span>, ranges: seq<Range>) {
    |spans| == |ranges|
    && forall i :: 0 <= i < |spans| ==> spans[i].contentStart == ranges[i].start && spans[i].contentEnd == ranges[i].end
  }

  method VisibleText(xml: string, ranges: seq<Range>, unescape: string -> string)
    returns (visible: string, spans: seq<Span>, originals: seq<string>)
    requires InOrder(ranges, 0, |xml|)
    ensures originals == Texts(xml, ranges, 0, unescape) && visible == Concat(originals)
    ensures Tiled(spans, originals) && Placed(spans, ranges)
  {
    hide Concat, Tiled, Texts;
    visible, spans, originals := "", [], [];
    ghost var texts := Texts(xml, ranges, 0, unescape);
    NothingTiled();
    for i := 0 to |ranges|
      invariant originals == texts[..i] && visible == Concat(originals)
      invariant Tiled(spans, originals) && Placed(spans, ranges[..i])
    {
      TextAt(xml, ranges, 0, unescape, i);
      var value := unescape(xml[ranges[i].start..ranges[i].end]);
      var start := |visible|;
      visible := visible + value;
      var span := Span(ranges[i].start, ranges[i].end, start, |visible|);
      TiledAppend(spans, originals, value, span);
      spans := spans + [span];
      originals := originals + [value];
    }
  }

  lemma NothingTiled()
    ensures Tiled([], []) && Concat([]) == ""
  {
  }

  lemma TiledAppend(spans: seq<Span>, originals: seq<string>, value: string, span: Span)
    requires Tiled(spans, originals)
    requires span.visibleStart == |Concat(originals)| && span.visibleEnd == span.visibleStart + |value|
    ensures Tiled(spans + [span], originals + [value])
    ensures Concat(originals + [value]) == Concat(originals) + value
  {
    hide Concat;
    var all := originals + [value];
    ConcatAt(all, |originals|);
    assert all[..|originals|] == originals && all[..|originals| + 1] == all;
    assert forall i :: 0 <= i < |originals| ==> all[..i] == originals[..i];
  }

  // ----- Placeholders -----

  /** A placeholder in the visible text; one that is not a field (a block tag, say) is left as it is. */
  datatype Match = Match(start: nat, end: nat, field: Option<Field>)
  datatype Field = Field(name: string, fallback: string, moneyUpper: bool)

  datatype RenderError = MissingValue(name: string) | NotMoney(name: string, error: MoneyText.MoneyError)

  /** The text a field is replaced by. */
  function Value(field: Field, values: map<string, string>): Result<string, RenderError> {
    if field.name !in values && field.fallback == "" then Err(MissingValue(field.name))
    else
      var value := if field.name in values then values[field.name] else field.fallback;
      if field.moneyUpper then
        match MoneyText.CapitalText(value)
        case Ok(text) => Ok(text)
        case Err(e) => Err(NotMoney(field.name, e))
      else Ok(value)
  }

  predicate Resolvable(m: Match, values: map<string, string>) {
    m.field.Some? ==> Value(m.field.value, values).Ok?
  }

  function EditOf(m: Match, values: map<string, string>): Edit {
    Edit(m.start, m.end,
         if m.field.Some? && Value(m.field.value, values).Ok? then Some(Value(m.field.value, values).value) else None)
  }

  function EditsOf(matches: seq<Match>, values: map<string, string>): (edits: seq<Edit>)
    ensures |edits| == |matches|
    ensures forall i :: 0 <= i < |matches| ==> edits[i] == EditOf(matches[i], values)
  {
    seq(|matches|, i requires 0 <= i < |matches| => EditOf(matches[i], values))
  }

  /** A supplied value is taken as it is, whatever the fallback; a missing one acts as if a non-empty fallback had been supplied. */
  lemma ValueChosen(field: Field, values: map<string, string>)
    ensures field.name in values && !field.moneyUpper ==> Value(field, values) == Ok(values[field.name])
    ensures field.name in values ==> forall f :: Value(field.(fallback := f), values) == Value(field, values)
    ensures field.name !in values && field.fallback != "" ==>
              Value(field, values) == Value(field, values[field.name := field.fallback])
    ensures field.name !in values && field.fallback == "" ==> Value(field, values) == Err(MissingValue(field.name))
  {
    hide MoneyText.CapitalText;
  }

  /** A capitalised field is replaced by a text that is read back as the amount of its value, or is an error exactly when that is no amount. */
  lemma CapitalValueDenotes(field: Field, values: map<string, string>)
    requires field.moneyUpper && field.name in values
    ensures Value(field, values).Ok? <==> MoneyText.MoneyAmount(values[field.name]).Ok?
    ensures match Value(field, values)
            case Ok(text) => MoneyText.Decode(text) == MoneyText.MoneyAmount(values[field.name]).value
            case Err(e) => e.NotMoney? && e.name == field.name
  {
    MoneyText.CapitalTextDenotes(values[field.name]);
    hide MoneyText.CapitalText, MoneyText.Decode, MoneyText.MoneyAmount;
  }

  method ValueOf(field: Field, values: map<string, string>) returns (r: Result<string, RenderError>)
    ensures r == Value(field, values)
    ensures !field.moneyUpper && field.name in values ==> r == Ok(values[field.name])
    ensures !field.moneyUpper && field.name !in values && field.fallback != "" ==> r == Ok(field.fallback)
    ensures field.name !in values && field.fallback == "" ==> r == Err(MissingValue(field.name))
  {
    hide MoneyText.CapitalText;
    var ok := field.name in values;
    var value := if ok then values[field.name] else "";
    if !ok && field.fallback != "" {
      value, ok := field.fallback, true;
    }
    if !ok {
      return Err(MissingValue(field.name));
    }
    if field.moneyUpper {
      var converted := MoneyText.ChineseMoneyUpper(value);
      if converted.Err? {
        return Err(NotMoney(field.name, converted.error));
      }
      value := converted.value;
    }
    return Ok(value);
  }

  /**
    Replaces the fields right to left, in place. For any split of the text into nodes the result is
    the flat replacement; the error is that of the last field that has no value.
   */
  method ReplaceFields(spans: seq<Span>, texts: array<string>, matches: seq<Match>, values: map<string, string>)
    returns (r: Result<(), RenderError>)
    requires Tiled(spans, texts[..]) && Ordered(EditsOf(matches, values), |Concat(texts[..])|)
    modifies texts
    ensures r.Ok? <==> forall m :: m in matches ==> Resolvable(m, values)
    ensures r.Ok? ==> Concat(texts[..]) == Flat(old(Concat(texts[..])), EditsOf(matches, values), 0, 0)
    ensures r.Err? ==> exists k :: 0 <= k < |matches| && matches[k].field.Some?
                                   && Value(matches[k].field.value, values) == Err(r.error)
                                   && forall j :: k < j < |matches| ==> Resolvable(matches[j], values)
  {
    hide Concat, Tiled, Untouched, Put, Flat, Frontier, Value;
    ghost var originals := texts[..];
    ghost var edits := EditsOf(matches, values);
    ghost var n := |Concat(originals)|;
    FrontierFirst(spans, originals, edits);
    var index := |matches|;
    while index > 0
      invariant 0 <= index <= |matches| && |Concat(originals)| == n
      invariant forall j :: index <= j < |matches| ==> Resolvable(matches[j], values)
      invariant Frontier(spans, originals, texts[..], Start(edits, index, n), Flat(Concat(originals), edits, index, Start(edits, index, n)))
    {
      var m := matches[index - 1];
      assert edits[index - 1] == EditOf(m, values);
      if m.field.None? {
        FrontierKept(spans, originals, texts[..], edits, index);
        index := index - 1;
        continue;
      }
      var value := ValueOf(m.field.value, values);
      if value.Err? {
        assert m in matches && !Resolvable(m, values);
        return Err(value.error);
      }
      ApplyEdit(spans, texts, m.start, m.end, value.value, originals, edits, index);
      index := index - 1;
    }
    FrontierDone(spans, originals, texts[..], edits);
    return Ok(());
  }

  // ----- Writing the part back -----

  function Assembled(xml: string, ranges: seq<Range>, texts: seq<string>, cursor: nat): string
    requires |texts| == |ranges| && InOrder(ranges, cursor, |xml|)
  {
    if ranges == [] then xml[cursor..]
    else xml[cursor..ranges[0].start] + Escape(texts[0]) + Assembled(xml, ranges[1..], texts[1..], ranges[0].end)
  }

  lemma AssembledStep(out: string, xml: string, ranges: seq<Range>, texts: seq<string>, i: nat, cursor: nat)
    requires |texts| == |ranges| && i <= |ranges| && InOrder(ranges[i..], cursor, |xml|)
    ensures i == |ranges| ==> cursor <= |xml| && Assembled(xml, ranges[i..], texts[i..], cursor) == xml[cursor..]
    ensures i < |ranges| ==>
              && cursor <= ranges[i].start <= ranges[i].end <= |xml| && InOrder(ranges[i + 1..], ranges[i].end, |xml|)
              && out + Assembled(xml, ranges[i..], texts[i..], cursor)
                 == out + xml[cursor..ranges[i].start] + Escape(texts[i])
                    + Assembled(xml, ranges[i + 1..], texts[i + 1..], ranges[i].end)
  {
    hide Escape;
    if i < |ranges| {
      assert ranges[i..][0] == ranges[i] && ranges[i..][1..] == ranges[i + 1..] && texts[i..][1..] == texts[i + 1..];
      assert Assembled(xml, ranges[i..], texts[i..], cursor)
          == xml[cursor..ranges[i].start] + Escape(texts[i]) + Assembled(xml, ranges[i + 1..], texts[i + 1..], ranges[i].end);
      hide Assembled, InOrder;
      WriteThree(out, xml[cursor..ranges[i].start], Escape(texts[i]),
                 Assembled(xml, ranges[i + 1..], texts[i + 1..], ranges[i].end));
    }
  }

  lemma WriteThree(out: string, a: string, b: string, c: string)
    ensures out + (a + b + c) == out + a + b + c
  {
  }

  method Assemble(xml: string, spans: seq<Span>, texts: array<string>, ghost ranges: seq<Range>)
    returns (out: string)
    requires texts.Length == |ranges| && InOrder(ranges, 0, |xml|) && Placed(spans, ranges)
    ensures out == Assembled(xml, ranges, texts[..], 0)
  {
    hide Escape, Assembled, InOrder;
    var cursor := 0;
    out := "";
    assert ranges[0..] == ranges && texts[0..] == texts[..];
    for i := 0 to |spans|
      invariant cursor >= 0 && InOrder(ranges[i..], cursor, |xml|)
      invariant out + Assembled(xml, ranges[i..], texts[..][i..], cursor) == Assembled(xml, ranges, texts[..], 0)
    {
      AssembledStep(out, xml, ranges, texts[..], i, cursor);
      out := out + xml[cursor..spans[i].contentStart];
      out := out + Escape(texts[i]);
      cursor := spans[i].contentEnd;
    }
    AssembledStep(out, xml, ranges, texts[..], |ranges|, cursor);
    out := out + xml[cursor..];
  }

  /** Where the text nodes of the written part lie. */
  function Moved(ranges: seq<Range>, texts: seq<string>, cursor: nat, at: nat, length: nat): seq<Range>
    requires |texts| == |ranges| && InOrder(ranges, cursor, length)
  {
    if ranges == [] then []
    else
      var start := at + ranges[0].start - cursor;
      var end := start + |Escape(texts[0])|;
      [Range(start, end)] + Moved(ranges[1..], texts[1..], ranges[0].end, end, length)
  }

  /** The written part has the new texts in its nodes, and everything outside them is the old XML. */
  lemma {:induction false} AssembledReads(xml: string, ranges: seq<Range>, texts: seq<string>, cursor: nat,
                                          unescape: string -> string, prefix: string)
    requires |texts| == |ranges| && InOrder(ranges, cursor, |xml|) && Unescapes(unescape)
    ensures var out, moved := prefix + Assembled(xml, ranges, texts, cursor), Moved(ranges, texts, cursor, |prefix|, |xml|);
            && InOrder(moved, |prefix|, |out|)
            && Texts(out, moved, |prefix|, unescape) == texts
            && Outside(out, moved, |prefix|) == Outside(xml, ranges, cursor)
  {
    hide Escape, Unescapes;
    if ranges == [] {
      assert (prefix + xml[cursor..])[|prefix|..] == xml[cursor..];
    } else {
      var between, text := xml[cursor..ranges[0].start], Escape(texts[0]);
      var rest := Assembled(xml, ranges[1..], texts[1..], ranges[0].end);
      var next := prefix + between + text;
      AssembledReads(xml, ranges[1..], texts[1..], ranges[0].end, unescape, next);
      Cuts(prefix, between, text, rest);
      EscapedBack(unescape, texts[0]);
      ReadsFirst(next + rest, Range(|prefix + between|, |next|),
                 Moved(ranges[1..], texts[1..], ranges[0].end, |next|, |xml|), |prefix|, unescape);
    }
  }

  lemma Cuts(prefix: string, between: string, text: string, rest: string)
    ensures var out, next := prefix + between + text + rest, prefix + between + text;
            && out == prefix + (between + text + rest) && out == next + rest
            && out[|prefix|..|prefix + between|] == between && out[|prefix + between|..|next|] == text
  {
  }

  lemma ReadsFirst(out: string, r: Range, rest: seq<Range>, cursor: nat, unescape: string -> string)
    requires cursor <= r.start <= r.end && InOrder(rest, r.end, |out|)
    ensures InOrder([r] + rest, cursor, |out|)
    ensures Texts(out, [r] + rest, cursor, unescape) == [unescape(out[r.start..r.end])] + Texts(out, rest, r.end, unescape)
    ensures Outside(out, [r] + rest, cursor) == [out[cursor..r.start]] + Outside(out, rest, r.end)
  {
    assert ([r] + rest)[1..] == rest;
  }

  lemma EscapedBack(unescape: string -> string, s: string)
    requires Unescapes(unescape)
    ensures unescape(Escape(s)) == s
  {
  }

  /** The written part reads as `text`, from as many text nodes, and is otherwise the part as it was. */
  ghost predicate Rendered(xml: string, out: string, ranges: seq<Range>, unescape: string -> string, text: string)
    requires InOrder(ranges, 0, |xml|)
  {
    exists moved: seq<Range> :: InOrder(moved, 0, |out|) && |moved| == |ranges|
                                && Concat(Texts(out, moved, 0, unescape)) == text
                                && Outside(out, moved, 0) == Outside(xml, ranges, 0)
  }

  /**
    The whole rendering of a part: reading the written part again gives the flat replacement of the
    text that was read before, and the XML around the text nodes is unchanged.
   */
  method ReplacePlaceholders(xml: string, ranges: seq<Range>, unescape: string -> string,
                             find: string -> seq<Match>, values: map<string, string>)
    returns (r: Result<string, RenderError>)
    requires InOrder(ranges, 0, |xml|) && Unescapes(unescape)
    requires var visible := Concat(Texts(xml, ranges, 0, unescape)); Ordered(EditsOf(find(visible), values), |visible|)
    ensures var visible := Concat(Texts(xml, ranges, 0, unescape));
            && (r.Ok? <==> forall m :: m in find(visible) ==> Resolvable(m, values))
            && (r.Ok? ==> Rendered(xml, r.value, ranges, unescape, Flat(visible, EditsOf(find(visible), values), 0, 0)))
            && (r.Err? ==> exists m :: m in find(visible) && m.field.Some? && Value(m.field.value, values) == Err(r.error))
  {
    hide Concat, Tiled, Flat, Put, Unescapes, Resolvable, Escape, Texts, Outside, InOrder, Assembled, Placed, EditsOf, Ordered;
    var visible, spans, originals := VisibleText(xml, ranges, unescape);
    var matches := find(visible);
    var texts := new string[|originals|](i requires 0 <= i < |originals| => originals[i]);
    assert texts[..] == originals;
    var replaced := ReplaceFields(spans, texts, matches, values);
    if replaced.Err? {
      return Err(replaced.error);
    }
    var out := Assemble(xml, spans, texts, ranges);
    AssembledReads(xml, ranges, texts[..], 0, unescape, "");
    ghost var moved := Moved(ranges, texts[..], 0, 0, |xml|);
    assert "" + Assembled(xml, ranges, texts[..], 0) == out;
    MovedCount(ranges, texts[..], 0, 0, |xml|);
    return Ok(out);
  }

  /** The same match, but for the fallback of a field whose value is supplied. */
  predicate SameButFallback(m: Match, n: Match, values: map<string, string>) {
    && m.start == n.start && m.end == n.end && (m.field.Some? <==> n.field.Some?)
    && (m.field.Some? ==>
          || m.field == n.field
          || (m.field.value.name in values && n.field.value == m.field.value.(fallback := n.field.value.fallback)))
  }

  /** Fallbacks of supplied fields play no part in the edits made, nor in which fields fail. */
  lemma FallbacksUnused(ms: seq<Match>, ns: seq<Match>, values: map<string, string>)
    requires |ms| == |ns| && forall i :: 0 <= i < |ms| ==> SameButFallback(ms[i], ns[i], values)
    ensures EditsOf(ms, values) == EditsOf(ns, values)
    ensures forall i :: 0 <= i < |ms| ==> Resolvable(ms[i], values) == Resolvable(ns[i], values)
  {
    hide Value;
    forall i | 0 <= i < |ms| ensures EditOf(ms[i], values) == EditOf(ns[i], values) && Resolvable(ms[i], values) == Resolvable(ns[i], values) {
      if ms[i].field.Some? {
        ValueChosen(ms[i].field.value, values);
      }
    }
  }

  /** So a whole part renders alike, whatever the fallbacks of its supplied fields. */
  lemma PartRendersAlike(xml: string, out: string, ranges: seq<Range>, unescape: string -> string,
                         find: string -> seq<Match>, other: string -> seq<Match>, values: map<string, string>)
    requires InOrder(ranges, 0, |xml|)
    requires var visible := Concat(Texts(xml, ranges, 0, unescape));
             && Ordered(EditsOf(find(visible), values), |visible|) && |find(visible)| == |other(visible)|
             && forall i :: 0 <= i < |find(visible)| ==> SameButFallback(find(visible)[i], other(visible)[i], values)
    ensures var visible := Concat(Texts(xml, ranges, 0, unescape));
            && Ordered(EditsOf(other(visible), values), |visible|)
            && ((forall m :: m in find(visible) ==> Resolvable(m, values)) <==> forall m :: m in other(visible) ==> Resolvable(m, values))
            && (Rendered(xml, out, ranges, unescape, Flat(visible, EditsOf(find(visible), values), 0, 0))
                <==> Rendered(xml, out, ranges, unescape, Flat(visible, EditsOf(other(visible), values), 0, 0)))
  {
    var visible := Concat(Texts(xml, ranges, 0, unescape));
    FallbacksUnused(find(visible), other(visible), values);
    hide Rendered, Flat, Resolvable, Ordered, Texts, Concat, EditsOf, SameButFallback;
  }

  /** What is written for a match: the supplied value itself, the fallback of a missing one, nothing new for what is no field. */
  lemma EditsWrite(ms: seq<Match>, values: map<string, string>, k: nat)
    requires k < |ms|
    ensures EditsOf(ms, values)[k].start == ms[k].start && EditsOf(ms, values)[k].end == ms[k].end
    ensures ms[k].field.None? ==> EditsOf(ms, values)[k].text == None
    ensures ms[k].field.Some? && !ms[k].field.value.moneyUpper ==>
              var f := ms[k].field.value;
              EditsOf(ms, values)[k].text == if f.name in values then Some(values[f.name]) else if f.fallback != "" then Some(f.fallback) else None
  {
    if ms[k].field.Some? {
      var f := ms[k].field.value;
      ValueChosen(f, values);
      ValueChosen(f, values[f.name := f.fallback]);
    }
    hide Value;
  }

  lemma {:induction false} MovedCount(ranges: seq<Range>, texts: seq<string>, cursor: nat, at: nat, length: nat)
    requires |texts| == |ranges| && InOrder(ranges, cursor, length)
    ensures |Moved(ranges, texts, cursor, at, length)| == |ranges|
  {
    if ranges != [] {
      MovedCount(ranges[1..], texts[1..], ranges[0].end, at + ranges[0].start - cursor + |Escape(texts[0])|, length);
    }
  }
}
