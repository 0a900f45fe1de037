/**
  Editing the visible text of a WordprocessingML part (internal/docx/document.go). The text of a
  paragraph is scattered over many text nodes; edits are applied right to left, in place, and must
  come to a plain replacement in the concatenated text. Finding the nodes in the XML and the
  placeholders in the text is taken as given.
 */
module DocxSplice {
  import opened Wrappers

  /** A text node: where its content lies in the XML and where its text lies in the visible text. */
  datatype Span = Span(contentStart: nat, contentEnd: nat, visibleStart: nat, visibleEnd: nat)

  function Concat(values: seq<string>): string {
    if values == [] then "" else values[0] + Concat(values[1..])
  }

  lemma {:induction false} ConcatAppend(a: seq<string>, b: seq<string>)
    ensures Concat(a + b) == Concat(a) + Concat(b)
  {
    if a == [] {
      assert a + b == b;
    } else {
      assert (a + b)[1..] == a[1..] + b;
      ConcatAppend(a[1..], b);
    }
  }

  lemma ConcatAt(values: seq<string>, i: nat)
    requires i < |values|
    ensures Concat(values) == Concat(values[..i]) + values[i] + Concat(values[i + 1..])
    ensures Concat(values[..i + 1]) == Concat(values[..i]) + values[i]
    ensures |Concat(values[..i])| + |values[i]| <= |Concat(values)|
  {
    assert values == values[..i] + values[i..];
    assert values[i..][1..] == values[i + 1..];
    ConcatAppend(values[..i], values[i..]);
    assert values[..i + 1] == values[..i] + [values[i]];
    ConcatAppend(values[..i], [values[i]]);
    assert Concat([values[i]]) == values[i] + Concat([]);
  }

  /** The spans tile the visible text: node i shows original i, right after the nodes before it. */
  predicate Tiled(spans: seq<Span>, originals: seq<string>) {
    && |spans| == |originals|
    && forall i :: 0 <= i < |spans| ==>
         && spans[i].visibleStart == |Concat(originals[..i])|
         && spans[i].visibleEnd == spans[i].visibleStart + |originals[i]|
  }

  lemma {:induction false} TilesInOrder(spans: seq<Span>, originals: seq<string>, i: nat, j: nat)
    requires Tiled(spans, originals) && i < j < |spans|
    ensures spans[i].visibleEnd <= spans[j].visibleStart
    decreases j
  {
    ConcatAt(originals, j - 1);
    if i < j - 1 {
      TilesInOrder(spans, originals, i, j - 1);
    }
  }

  /** Which node an offset falls into; `end` also accepts the position right after a node's text. */
  predicate Hits(span: Span, offset: nat, end: bool) {
    offset >= span.visibleStart && (offset < span.visibleEnd || (end && offset == span.visibleEnd))
  }

  method Locate(spans: seq<Span>, offset: nat, end: bool) returns (index: int, within: nat)
    ensures -1 <= index < |spans|
    ensures index >= 0 ==>
              && Hits(spans[index], offset, end) && within == offset - spans[index].visibleStart
              && forall k :: 0 <= k < index ==> !Hits(spans[k], offset, end)
    ensures index < 0 ==> forall k :: 0 <= k < |spans| ==> !Hits(spans[k], offset, end)
  {
    for i := 0 to |spans|
      invariant forall k :: 0 <= k < i ==> !Hits(spans[k], offset, end)
    {
      if offset >= spans[i].visibleStart && (offset < spans[i].visibleEnd || (end && offset == spans[i].visibleEnd)) {
        return i, offset - spans[i].visibleStart;
      }
    }
    return -1, 0;
  }

  lemma {:induction false} SomeNodeHolds(spans: seq<Span>, originals: seq<string>, offset: nat) returns (k: nat)
    requires Tiled(spans, originals) && offset < |Concat(originals)|
    ensures k < |spans| && spans[k].visibleStart <= offset < spans[k].visibleEnd
  {
    k := |spans|;
    assert originals[..k] == originals;
    while k > 0 && offset < |Concat(originals[..k - 1])|
      invariant 0 < k <= |spans| && offset < |Concat(originals[..k])|
    {
      k := k - 1;
    }
    k := k - 1;
    ConcatAt(originals, k);
  }

  // ----- One edit -----

  /** Everything left of position s is as it was, and from s on the text reads `tail`. */
  predicate Frontier(spans: seq<Span>, originals: seq<string>, values: seq<string>, s: nat, tail: string) {
    && Tiled(spans, originals) && |values| == |originals|
    && s <= |Concat(originals)|
    && Concat(values) == Concat(originals)[..s] + tail
    && Untouched(spans, originals, values, s)
  }

  predicate Untouched(spans: seq<Span>, originals: seq<string>, values: seq<string>, s: nat)
    requires Tiled(spans, originals) && |values| == |originals|
  {
    && (forall j :: 0 <= j < |spans| && spans[j].visibleEnd <= s ==> values[j] == originals[j])
    && (forall j :: 0 <= j < |spans| && spans[j].visibleStart < s < spans[j].visibleEnd ==>
          && s - spans[j].visibleStart <= |values[j]|
          && values[j][..s - spans[j].visibleStart] == originals[j][..s - spans[j].visibleStart])
  }

  /** The values after one edit between two located points. */
  function Spliced(values: seq<string>, first: nat, left: nat, last: nat, right: nat, text: string): seq<string>
    requires first <= last < |values| && left <= |values[first]| && right <= |values[last]|
  {
    if first == last then values[first := values[first][..left] + text + values[first][right..]]
    else
      seq(|values|, i requires 0 <= i < |values| =>
        if i == first then values[first][..left] + text
        else if i == last then values[last][right..]
        else if first < i < last then ""
        else values[i])
  }

  lemma {:induction false} AllEmpty(values: seq<string>)
    requires forall i :: 0 <= i < |values| ==> values[i] == ""
    ensures Concat(values) == ""
  {
    if values != [] {
      AllEmpty(values[1..]);
    }
  }

  /** Cutting a text inside the middle one of three pieces. */
  lemma CutAt(a: string, v: string, b: string, k: nat)
    requires k <= |v|
    ensures |a| + k <= |a + v + b|
    ensures (a + v + b)[..|a| + k] == a + v[..k]
    ensures (a + v + b)[|a| + k..] == v[k..] + b
  {
    assert a + v + b == (a + v[..k]) + (v[k..] + b);
  }

  lemma Regroup(head: string, x: string, text: string, y: string, foot: string)
    ensures head + (x + text + y) + foot == (head + x) + text + (y + foot)
    ensures (head + (x + text)) + y + foot == (head + x) + text + (y + foot)
  {
  }

  lemma CutPoints(values: seq<string>, first: nat, left: nat, last: nat, right: nat)
    requires first <= last < |values| && left <= |values[first]| && right <= |values[last]|
    requires first == last ==> left <= right
    ensures var whole, a, b := Concat(values), |Concat(values[..first])| + left, |Concat(values[..last])| + right;
            && a <= b <= |whole|
            && whole[..a] == Concat(values[..first]) + values[first][..left]
            && whole[b..] == values[last][right..] + Concat(values[last + 1..])
  {
    hide Concat;
    ConcatAt(values, first);
    CutAt(Concat(values[..first]), values[first], Concat(values[first + 1..]), left);
    ConcatAt(values, last);
    CutAt(Concat(values[..last]), values[last], Concat(values[last + 1..]), right);
    if first < last {
      StartsOrdered(values, first, last);
    }
  }

  /** The in-place edit is a plain replacement in the concatenated text. */
  lemma SplicedText(values: seq<string>, first: nat, left: nat, last: nat, right: nat, text: string)
    requires first <= last < |values| && left <= |values[first]| && right <= |values[last]|
    requires first == last ==> left <= right
    ensures var whole, a, b := Concat(values), |Concat(values[..first])| + left, |Concat(values[..last])| + right;
            && a <= b <= |whole|
            && Concat(Spliced(values, first, left, last, right, text)) == whole[..a] + text + whole[b..]
  {
    hide Concat;
    var after := Spliced(values, first, left, last, right, text);
    var head, foot := values[..first], values[last + 1..];
    assert after[..first] == head && after[last + 1..] == foot;
    CutPoints(values, first, left, last, right);
    Regroup(Concat(head), values[first][..left], text, values[last][right..], Concat(foot));
    ConcatAt(after, last);
    if first < last {
      MiddleEmptied(after, first, last);
    }
  }

  lemma StartsOrdered(values: seq<string>, first: nat, last: nat)
    requires first < last < |values|
    ensures |Concat(values[..first])| + |values[first]| <= |Concat(values[..last])|
  {
    assert values[..last][..first] == values[..first];
    ConcatAt(values[..last], first);
  }

  lemma MiddleEmptied(after: seq<string>, first: nat, last: nat)
    requires first < last < |after| && forall i :: first < i < last ==> after[i] == ""
    ensures Concat(after[..last]) == Concat(after[..first]) + after[first]
  {
    assert after[..last] == after[..first + 1] + after[first + 1..last];
    ConcatAppend(after[..first + 1], after[first + 1..last]);
    AllEmpty(after[first + 1..last]);
    ConcatAt(after, first);
  }

  /** Nodes wholly left of the frontier start where they started originally. */
  lemma {:induction false} StartsUnmoved(spans: seq<Span>, originals: seq<string>, values: seq<string>, s: nat, tail: string, k: nat)
    requires Frontier(spans, originals, values, s, tail) && k < |spans| && spans[k].visibleStart <= s
    ensures |Concat(values[..k])| == spans[k].visibleStart
  {
    assert values[..k] == originals[..k] by {
      forall j | 0 <= j < k ensures values[j] == originals[j] {
        TilesInOrder(spans, originals, j, k);
      }
    }
  }

  /** Where the two ends of an edit are found, and that cutting there is safe. */
  lemma LocatedForEdit(spans: seq<Span>, originals: seq<string>, values: seq<string>, s: nat, tail: string,
                       start: nat, end: nat, first: int, left: nat, last: int, right: nat)
    requires Frontier(spans, originals, values, s, tail) && start < end <= s
    requires -1 <= first < |spans| && -1 <= last < |spans|
    requires first < 0 ==> forall k :: 0 <= k < |spans| ==> !Hits(spans[k], start, false)
    requires last < 0 ==> forall k :: 0 <= k < |spans| ==> !Hits(spans[k], end, true)
    requires first >= 0 ==> Hits(spans[first], start, false) && left == start - spans[first].visibleStart
    requires last >= 0 ==> Hits(spans[last], end, true) && right == end - spans[last].visibleStart
    requires last >= 0 ==> forall k :: 0 <= k < last ==> !Hits(spans[k], end, true)
    ensures 0 <= first <= last && spans[last].visibleStart < end && |spans| == |values| == |originals|
    ensures |Concat(values[..first])| == spans[first].visibleStart
    ensures |Concat(values[..last])| == spans[last].visibleStart
    ensures left <= |values[first]| && right <= |values[last]|
    ensures values[first][..left] == originals[first][..left]
  {
    hide Concat;
    var at := SomeNodeHolds(spans, originals, start);
    var before := SomeNodeHolds(spans, originals, end - 1);
    assert Hits(spans[at], start, false) && Hits(spans[before], end, true);
    LocatedApart(spans, originals, start, end, first, last);
    StartsUnmoved(spans, originals, values, s, tail, first);
    StartsUnmoved(spans, originals, values, s, tail, last);
    if first < last {
      TilesInOrder(spans, originals, first, last);
    }
    EditableEnds(spans, originals, values, s, tail, first, left, last, right);
  }

  /** An edit left of the frontier moves the frontier to its start and puts its text in front of the tail. */
  method Splice(spans: seq<Span>, values: array<string>, start: nat, end: nat, text: string,
                ghost originals: seq<string>, ghost s: nat, ghost tail: string)
    requires Frontier(spans, originals, values[..], s, tail)
    requires start < end <= s
    modifies values
    ensures Frontier(spans, originals, values[..], start, text + Concat(originals)[end..s] + tail)
  {
    hide Frontier, Concat, Tiled, Untouched;
    var first, left := Locate(spans, start, false);
    var last, right := Locate(spans, end, true);
    ghost var earlier := values[..];
    LocatedForEdit(spans, originals, earlier, s, tail, start, end, first, left, last, right);
    if first < 0 || last < 0 {
      assert false;
    }
    if first == last {
      values[first] := values[first][..left] + text + values[first][right..];
    } else {
      values[first] := values[first][..left] + text;
      for i := first + 1 to last
        invariant forall k :: 0 <= k < values.Length ==>
                    values[k] == if k == first then earlier[first][..left] + text else if first < k < i then "" else earlier[k]
      {
        values[i] := "";
      }
      values[last] := values[last][right..];
    }
    assert values[..] == Spliced(earlier, first, left, last, right, text);
    FrontierMoved(spans, originals, earlier, s, tail, start, end, first, left, last, right, text);
  }

  lemma LocatedApart(spans: seq<Span>, originals: seq<string>, start: nat, end: nat, first: nat, last: nat)
    requires Tiled(spans, originals) && start < end
    requires first < |spans| && last < |spans|
    requires Hits(spans[first], start, false) && Hits(spans[last], end, true)
    requires forall k :: 0 <= k < last ==> !Hits(spans[k], end, true)
    requires end <= |Concat(originals)|
    ensures first <= last && spans[last].visibleStart < end
  {
    var before := SomeNodeHolds(spans, originals, end - 1);
    assert Hits(spans[before], end, true);
    assert last <= before;
    if last < before {
      TilesInOrder(spans, originals, last, before);
    }
    if last < first {
      TilesInOrder(spans, originals, last, first);
    }
  }

  /** The parts of the two end nodes that the edit cuts at still hold their original text. */
  lemma EditableEnds(spans: seq<Span>, originals: seq<string>, values: seq<string>, s: nat, tail: string,
                     first: nat, left: nat, last: nat, right: nat)
    requires Frontier(spans, originals, values, s, tail)
    requires first <= last < |spans| && spans[last].visibleStart < s
    requires left <= |originals[first]| && spans[first].visibleStart + left <= s
    requires right <= |originals[last]| && spans[last].visibleStart + right <= s
    requires first < last ==> spans[first].visibleEnd <= s
    ensures left <= |values[first]| && right <= |values[last]|
    ensures values[first][..left] == originals[first][..left]
  {
    if spans[first].visibleEnd > s && left > 0 {
      var n := s - spans[first].visibleStart;
      assert values[first][..n][..left] == values[first][..left];
      assert originals[first][..n][..left] == originals[first][..left];
    }
  }

  lemma FrontierMoved(spans: seq<Span>, originals: seq<string>, values: seq<string>, s: nat, tail: string,
                      start: nat, end: nat, first: nat, left: nat, last: nat, right: nat, text: string)
    requires Frontier(spans, originals, values, s, tail) && start < end <= s
    requires first <= last < |spans| == |values|
    requires spans[first].visibleStart <= start < spans[first].visibleEnd
    requires left == start - spans[first].visibleStart <= |values[first]|
    requires spans[last].visibleStart < end && right == end - spans[last].visibleStart <= |values[last]|
    requires |Concat(values[..first])| == spans[first].visibleStart
    requires |Concat(values[..last])| == spans[last].visibleStart
    requires values[first][..left] == originals[first][..left]
    ensures Frontier(spans, originals, Spliced(values, first, left, last, right, text), start,
                     text + Concat(originals)[end..s] + tail)
  {
    hide Concat, Tiled, Untouched, Spliced;
    var visible := Concat(originals);
    SplicedText(values, first, left, last, right, text);
    SplicedUntouched(spans, originals, values, s, start, first, left, last, right, text);
    CutAt("", visible[..s], tail, start);
    CutAt("", visible[..s], tail, end);
    assert "" + visible[..s] + tail == visible[..s] + tail;
    assert visible[..s][..start] == visible[..start];
    assert visible[..s][end..] == visible[end..s];
    Regroup(visible[..start], "", text, visible[end..s], tail);
    Associate(visible[..start], text, visible[end..s] + tail);
    Associate(text, visible[end..s], tail);
  }

  lemma SplicedUntouched(spans: seq<Span>, originals: seq<string>, values: seq<string>, s: nat,
                         start: nat, first: nat, left: nat, last: nat, right: nat, text: string)
    requires Tiled(spans, originals) && |values| == |originals| && Untouched(spans, originals, values, s) && start <= s
    requires first <= last < |spans| && spans[first].visibleStart <= start < spans[first].visibleEnd
    requires left == start - spans[first].visibleStart <= |values[first]| && right <= |values[last]|
    requires values[first][..left] == originals[first][..left]
    ensures |Spliced(values, first, left, last, right, text)| == |originals|
    ensures Untouched(spans, originals, Spliced(values, first, left, last, right, text), start)
  {
    hide Concat;
    var after := Spliced(values, first, left, last, right, text);
    forall j | 0 <= j < |spans| && spans[j].visibleEnd <= start ensures after[j] == originals[j] {
      if first < j {
        TilesInOrder(spans, originals, first, j);
      }
    }
    assert after[first][..left] == values[first][..left];
    forall j | 0 <= j < |spans| && spans[j].visibleStart < start < spans[j].visibleEnd ensures j == first {
      if first < j {
        TilesInOrder(spans, originals, first, j);
      } else if j < first {
        TilesInOrder(spans, originals, j, first);
      }
    }
  }

  // ----- A list of edits -----

  /** Replace [start, end) by a text, or leave it as it is. */
  datatype Edit = Edit(start: nat, end: nat, text: Option<string>)

  /** Non-empty, in order, not overlapping. */
  predicate Ordered(edits: seq<Edit>, length: nat) {
    && (forall i :: 0 <= i < |edits| ==> edits[i].start < edits[i].end <= length)
    && (forall i :: 0 < i < |edits| ==> edits[i - 1].end <= edits[i].start)
  }

  function Start(edits: seq<Edit>, k: nat, length: nat): nat
    requires k <= |edits|
  {
    if k < |edits| then edits[k].start else length
  }

  /** What an edit leaves in place of the text it covers. */
  function Put(visible: string, e: Edit): string
    requires e.start <= e.end <= |visible|
  {
    if e.text.Some? then e.text.value else visible[e.start..e.end]
  }

  /** The plain replacement, left to right, from position `from` on with the edits from the k-th on. */
  function Flat(visible: string, edits: seq<Edit>, k: nat, from: nat): string
    requires Ordered(edits, |visible|) && k <= |edits| && from <= Start(edits, k, |visible|)
    decreases |edits| - k
  {
    if k == |edits| then visible[from..]
    else visible[from..edits[k].start] + (Put(visible, edits[k]) + Flat(visible, edits, k + 1, edits[k].end))
  }

  lemma FlatFrom(visible: string, edits: seq<Edit>, k: nat, from: nat)
    requires Ordered(edits, |visible|) && k <= |edits| && from <= Start(edits, k, |visible|)
    ensures Start(edits, k, |visible|) <= |visible|
    ensures Flat(visible, edits, k, from)
            == visible[from..Start(edits, k, |visible|)] + Flat(visible, edits, k, Start(edits, k, |visible|))
  {
    hide Put;
    if k == |edits| {
      assert visible[from..] == visible[from..|visible|] + visible[|visible|..];
    } else {
      assert visible[edits[k].start..edits[k].start] == "";
    }
  }

  lemma FlatStep(visible: string, edits: seq<Edit>, k: nat)
    requires Ordered(edits, |visible|) && 0 < k <= |edits|
    ensures var e, s := edits[k - 1], Start(edits, k, |visible|);
            && e.start < e.end <= s <= |visible|
            && Flat(visible, edits, k - 1, e.start) == Put(visible, e) + visible[e.end..s] + Flat(visible, edits, k, s)
  {
    hide Put;
    var e, s := edits[k - 1], Start(edits, k, |visible|);
    assert visible[e.start..e.start] == "";
    FlatFrom(visible, edits, k, e.end);
    assert Flat(visible, edits, k - 1, e.start) == Put(visible, e) + Flat(visible, edits, k, e.end);
    hide Flat;
    Associate(Put(visible, e), visible[e.end..s], Flat(visible, edits, k, s));
  }

  lemma Associate(a: string, b: string, c: string)
    ensures a + (b + c) == a + b + c
  {
  }

  /** Skipping an edit leaves the values alone and still moves the frontier. */
  lemma FrontierSkipped(spans: seq<Span>, originals: seq<string>, values: seq<string>, s: nat, tail: string, start: nat)
    requires Frontier(spans, originals, values, s, tail) && start <= s
    ensures Frontier(spans, originals, values, start, Concat(originals)[start..s] + tail)
  {
    assert Concat(originals)[..s] == Concat(originals)[..start] + Concat(originals)[start..s];
    forall j | 0 <= j < |spans| && spans[j].visibleStart < start < spans[j].visibleEnd
      ensures start - spans[j].visibleStart <= |values[j]|
      ensures values[j][..start - spans[j].visibleStart] == originals[j][..start - spans[j].visibleStart]
    {
      if spans[j].visibleEnd > s {
        var n, m := s - spans[j].visibleStart, start - spans[j].visibleStart;
        assert values[j][..n][..m] == values[j][..m] && originals[j][..n][..m] == originals[j][..m];
      }
    }
  }

  lemma FrontierFirst(spans: seq<Span>, originals: seq<string>, edits: seq<Edit>)
    requires Tiled(spans, originals) && Ordered(edits, |Concat(originals)|)
    ensures var n := |Concat(originals)|;
            Frontier(spans, originals, originals, n, Flat(Concat(originals), edits, |edits|, n))
  {
    var visible := Concat(originals);
    assert visible[..|visible|] + visible[|visible|..] == visible;
  }

  lemma FrontierDone(spans: seq<Span>, originals: seq<string>, values: seq<string>, edits: seq<Edit>)
    requires Ordered(edits, |Concat(originals)|)
    requires var s := Start(edits, 0, |Concat(originals)|);
             Frontier(spans, originals, values, s, Flat(Concat(originals), edits, 0, s))
    ensures Concat(values) == Flat(Concat(originals), edits, 0, 0)
  {
    FlatFrom(Concat(originals), edits, 0, 0);
  }

  lemma FrontierKept(spans: seq<Span>, originals: seq<string>, values: seq<string>, edits: seq<Edit>, k: nat)
    requires Ordered(edits, |Concat(originals)|) && 0 < k <= |edits| && edits[k - 1].text.None?
    requires var s := Start(edits, k, |Concat(originals)|);
             Frontier(spans, originals, values, s, Flat(Concat(originals), edits, k, s))
    ensures var s := Start(edits, k - 1, |Concat(originals)|);
            Frontier(spans, originals, values, s, Flat(Concat(originals), edits, k - 1, s))
  {
    hide Concat, Tiled, Untouched, Put, Flat;
    var visible, e := Concat(originals), edits[k - 1];
    var s := Start(edits, k, |visible|);
    FlatStep(visible, edits, k);
    PutText(visible, e, s, Flat(visible, edits, k, s));
    FrontierSkipped(spans, originals, values, s, Flat(visible, edits, k, s), e.start);
  }

  /** One pass of the right-to-left loop: the k-th edit, applied in place. */
  method ApplyEdit(spans: seq<Span>, values: array<string>, start: nat, end: nat, text: string,
                   ghost originals: seq<string>, ghost edits: seq<Edit>, ghost k: nat)
    requires Ordered(edits, |Concat(originals)|) && 0 < k <= |edits| && edits[k - 1] == Edit(start, end, Some(text))
    requires var s := Start(edits, k, |Concat(originals)|);
             Frontier(spans, originals, values[..], s, Flat(Concat(originals), edits, k, s))
    modifies values
    ensures var s := Start(edits, k - 1, |Concat(originals)|);
            Frontier(spans, originals, values[..], s, Flat(Concat(originals), edits, k - 1, s))
  {
    hide Concat, Tiled, Untouched, Put, Flat, Frontier;
    ghost var visible := Concat(originals);
    ghost var s := Start(edits, k, |visible|);
    FlatStep(visible, edits, k);
    PutText(visible, edits[k - 1], s, Flat(visible, edits, k, s));
    Splice(spans, values, start, end, text, originals, s, Flat(visible, edits, k, s));
  }

  lemma PutText(visible: string, e: Edit, s: nat, tail: string)
    requires e.start <= e.end <= s <= |visible|
    ensures e.text.Some? ==> Put(visible, e) == e.text.value
    ensures e.text.None? ==> visible[e.start..s] + tail == Put(visible, e) + visible[e.end..s] + tail
  {
    assert visible[e.start..s] == visible[e.start..e.end] + visible[e.end..s];
  }
}
