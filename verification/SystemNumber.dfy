/**
  Putting the issued contract number in place of the reserved marker (internal/docx/system_number.go).
  The marker may be scattered over text nodes; the replacement must come to a plain replace-all in
  the visible text, and must leave no marker behind.
 */
module SystemNumber {
  import opened Wrappers
  import opened Text
  import opened DocxSplice
  import opened DocxDocument
  import Numbering

  const MARKER: string := "【系统合同编号：审批通过后生成】"

  predicate At(s: string, m: string, i: nat) {
    i + |m| <= |s| && s[i..i + |m|] == m
  }

  predicate Has(s: string, m: string) {
    exists i: nat :: i <= |s| && At(s, m, i)
  }

  /** Where m first occurs at or after a position, or -1. */
  function Find(s: string, m: string, from: nat): int
    requires from <= |s|
    decreases |s| - from
  {
    if At(s, m, from) then from else if from == |s| then -1 else Find(s, m, from + 1)
  }

  /** The occurrences of m from left to right, none overlapping the one before. */
  function Occurrences(s: string, m: string, from: nat): seq<nat>
    requires from <= |s| && m != ""
    decreases |s| - from
  {
    if At(s, m, from) then [from] + Occurrences(s, m, from + |m|)
    else if from == |s| then []
    else Occurrences(s, m, from + 1)
  }

  /** The text with every such occurrence replaced. */
  function ReplaceAll(s: string, m: string, n: string, from: nat): string
    requires from <= |s| && m != ""
    decreases |s| - from
  {
    if At(s, m, from) then n + ReplaceAll(s, m, n, from + |m|)
    else if from == |s| then ""
    else [s[from]] + ReplaceAll(s, m, n, from + 1)
  }

  lemma {:induction false} FoundNext(s: string, m: string, from: nat)
    requires from <= |s| && m != ""
    ensures var i := Find(s, m, from);
            if i < 0 then Occurrences(s, m, from) == []
            else from <= i && i + |m| <= |s| && Occurrences(s, m, from) == [i] + Occurrences(s, m, i + |m|)
    decreases |s| - from
  {
    if !At(s, m, from) && from < |s| {
      FoundNext(s, m, from + 1);
    }
  }

  method FindMarkers(visible: string, m: string) returns (offsets: seq<nat>)
    requires m != ""
    ensures offsets == Occurrences(visible, m, 0)
  {
    offsets := [];
    var cursor := 0;
    while cursor < |visible|
      invariant 0 <= cursor <= |visible|
      invariant Occurrences(visible, m, 0) == offsets + Occurrences(visible, m, cursor)
    {
      FoundNext(visible, m, cursor);
      var index := Find(visible, m, cursor);
      if index < 0 {
        break;
      }
      offsets := offsets + [index];
      cursor := index + |m|;
    }
  }

  // ----- The edits -----

  function MarkerEdits(offsets: seq<nat>, m: string, n: string): (edits: seq<Edit>)
    ensures |edits| == |offsets|
  {
    seq(|offsets|, i requires 0 <= i < |offsets| => Edit(offsets[i], offsets[i] + |m|, Some(n)))
  }

  predicate Apart(offsets: seq<nat>, size: nat, from: nat, length: nat) {
    && (forall i :: 0 <= i < |offsets| ==> from <= offsets[i] && offsets[i] + size <= length)
    && (forall i :: 0 < i < |offsets| ==> offsets[i - 1] + size <= offsets[i])
  }

  lemma {:induction false} OccurrencesApart(s: string, m: string, from: nat)
    requires from <= |s| && m != ""
    ensures Apart(Occurrences(s, m, from), |m|, from, |s|)
    decreases |s| - from
  {
    if At(s, m, from) {
      OccurrencesApart(s, m, from + |m|);
    } else if from < |s| {
      OccurrencesApart(s, m, from + 1);
    }
  }

  lemma EditsOrdered(offsets: seq<nat>, m: string, n: string, length: nat)
    requires m != "" && Apart(offsets, |m|, 0, length)
    ensures Ordered(MarkerEdits(offsets, m, n), length)
  {
  }

  /** The flat replacement of the occurrences is the replace-all. */
  lemma {:induction false} FlatIsReplaceAll(s: string, m: string, n: string, offsets: seq<nat>, k: nat, from: nat)
    requires from <= |s| && m != "" && k <= |offsets|
    requires Apart(offsets, |m|, 0, |s|) && offsets[k..] == Occurrences(s, m, from)
    ensures Ordered(MarkerEdits(offsets, m, n), |s|) && from <= Start(MarkerEdits(offsets, m, n), k, |s|)
    ensures Flat(s, MarkerEdits(offsets, m, n), k, from) == ReplaceAll(s, m, n, from)
    decreases |s| - from
  {
    hide Apart, Ordered, Flat;
    var edits := MarkerEdits(offsets, m, n);
    EditsOrdered(offsets, m, n, |s|);
    FirstFrom(s, m, n, offsets, k, from);
    if At(s, m, from) {
      assert offsets[k] == offsets[k..][0] == from;
      assert offsets[k + 1..] == offsets[k..][1..];
      FlatIsReplaceAll(s, m, n, offsets, k + 1, from + |m|);
      FlatHere(s, edits, k);
    } else if from < |s| {
      FlatIsReplaceAll(s, m, n, offsets, k, from + 1);
      FlatAhead(s, edits, k, from);
    } else {
      assert k == |offsets|;
      FlatNone(s, edits);
    }
  }

  lemma FlatNone(s: string, edits: seq<Edit>)
    requires Ordered(edits, |s|)
    ensures Flat(s, edits, |edits|, |s|) == ""
  {
  }

  lemma FirstFrom(s: string, m: string, n: string, offsets: seq<nat>, k: nat, from: nat)
    requires from <= |s| && m != "" && k <= |offsets| && offsets[k..] == Occurrences(s, m, from)
    ensures from <= Start(MarkerEdits(offsets, m, n), k, |s|)
  {
    OccurrencesApart(s, m, from);
    if k < |offsets| {
      assert offsets[k] == offsets[k..][0];
    }
  }

  lemma FlatHere(s: string, edits: seq<Edit>, k: nat)
    requires Ordered(edits, |s|) && k < |edits|
    ensures edits[k].end <= Start(edits, k + 1, |s|)
    ensures Flat(s, edits, k, edits[k].start) == Put(s, edits[k]) + Flat(s, edits, k + 1, edits[k].end)
  {
    assert s[edits[k].start..edits[k].start] == "";
  }

  lemma FlatAhead(s: string, edits: seq<Edit>, k: nat, from: nat)
    requires Ordered(edits, |s|) && k <= |edits| && from < Start(edits, k, |s|) && from < |s|
    ensures Flat(s, edits, k, from) == [s[from]] + Flat(s, edits, k, from + 1)
  {
    hide Put;
    if k < |edits| {
      assert s[from..edits[k].start] == [s[from]] + s[from + 1..edits[k].start];
      Associate([s[from]], s[from + 1..edits[k].start], Put(s, edits[k]) + Flat(s, edits, k + 1, edits[k].end));
    }
  }

  /** What one part becomes: its text nodes hold other texts, everything else stays. */
  ghost predicate Rewritten(xml: string, out: string, ranges: seq<Range>, text: string)
    requires InOrder(ranges, 0, |xml|)
  {
    exists texts: seq<string> :: |texts| == |ranges| && Concat(texts) == text && out == Assembled(xml, ranges, texts, 0)
  }

  /** What the replacement makes of one part. */
  ghost predicate Numbered(xml: string, out: string, ranges: seq<Range>, unescape: string -> string, m: string, n: string)
    requires m != "" && InOrder(ranges, 0, |xml|)
  {
    var visible := Concat(Texts(xml, ranges, 0, unescape));
    if Has(visible, m) then Rewritten(xml, out, ranges, ReplaceAll(visible, m, n, 0)) else out == xml
  }

  method ReplaceInPart(xml: string, ranges: seq<Range>, unescape: string -> string, m: string, n: string)
    returns (out: string, changed: bool)
    requires m != "" && InOrder(ranges, 0, |xml|)
    ensures Numbered(xml, out, ranges, unescape, m, n)
    ensures changed <==> Has(Concat(Texts(xml, ranges, 0, unescape)), m)
  {
    hide Concat, Tiled, Put, Flat, Frontier, Untouched, ReplaceAll, Occurrences, Assembled, InOrder, Texts, Has, Ordered, Apart;
    var visible, spans, originals := VisibleText(xml, ranges, unescape);
    var offsets := FindMarkers(visible, m);
    OccurrencesApart(visible, m, 0);
    NoneToReplace(visible, m);
    if |offsets| == 0 {
      return xml, false;
    }
    var texts := new string[|originals|](i requires 0 <= i < |originals| => originals[i]);
    assert texts[..] == originals;
    ghost var edits := MarkerEdits(offsets, m, n);
    EditsOrdered(offsets, m, n, |visible|);
    FrontierFirst(spans, originals, edits);
    var i := |offsets|;
    while i > 0
      invariant 0 <= i <= |offsets|
      invariant Frontier(spans, originals, texts[..], Start(edits, i, |visible|), Flat(visible, edits, i, Start(edits, i, |visible|)))
    {
      ApplyEdit(spans, texts, offsets[i - 1], offsets[i - 1] + |m|, n, originals, edits, i);
      i := i - 1;
    }
    FrontierDone(spans, originals, texts[..], edits);
    assert offsets[0..] == offsets;
    FlatIsReplaceAll(visible, m, n, offsets, 0, 0);
    out := Assemble(xml, spans, texts, ranges);
    ghost var after := texts[..];
    assert |after| == |ranges| && Concat(after) == ReplaceAll(visible, m, n, 0) && out == Assembled(xml, ranges, after, 0);
    return out, true;
  }

  lemma NoneToReplace(s: string, m: string)
    requires m != ""
    ensures Occurrences(s, m, 0) == [] <==> !Has(s, m)
  {
    NoneFound(s, m, 0);
  }

  lemma {:induction false} NoneFound(s: string, m: string, from: nat)
    requires from <= |s| && m != ""
    ensures Occurrences(s, m, from) == [] <==> forall i: nat :: from <= i <= |s| ==> !At(s, m, i)
    decreases |s| - from
  {
    if !At(s, m, from) && from < |s| {
      NoneFound(s, m, from + 1);
    }
  }

  // ----- The document -----

  predicate WordXml(name: string) {
    "word/" <= name && |name| >= 4 && name[|name| - 4..] == ".xml"
  }

  /** The number as it is written: trimmed, and refused when empty, broken over lines or holding the marker. */
  predicate Accepted(number: string) {
    var n := TrimSpace(number);
    n != "" && '\r' !in n && '\n' !in n && !Has(n, MARKER)
  }

  /** Which numbers are accepted: not blank, on one line, and without the marker. */
  lemma {:induction false} AcceptedExactly(number: string)
    ensures Accepted(number) <==> && TrimSpace(number) != "" && !Has(TrimSpace(number), MARKER)
                                  && forall c :: c in TrimSpace(number) ==> c !in "\r\n"
  {
    hide TrimSpace, Has;
  }

  /** The XML parts of the word folder, at any depth. */
  lemma {:induction false} WordXmlExactly(name: string)
    ensures WordXml(name) <==> exists inner: string :: name == WordName(inner)
  {
    if WordXml(name) {
      EndsApart(name);
      assert name == WordName(name[5..|name| - 4]);
    }
    if inner: string :| name == WordName(inner) {
      assert name[|name| - 4..] == ".xml";
    }
  }

  lemma {:induction false} EndsApart(name: string)
    requires "word/" <= name && |name| >= 4 && name[|name| - 4..] == ".xml"
    ensures |name| >= 9
  {
    var end := name[|name| - 4..];
    assert end[0] == '.' && end[0] == name[|name| - 4];
    assert name[..5] == "word/";
    assert forall i :: 0 <= i < 5 ==> name[i] == name[..5][i] && name[i] != '.';
  }

  function WordName(inner: string): string {
    "word/" + inner + ".xml"
  }

  /** What the replacement makes of a document: the Word parts numbered, every other file as it was. */
  ghost predicate NumberedDocument(files: map<string, string>, out: map<string, string>, nodes: string -> seq<Range>,
                                   unescape: string -> string, n: string)
    requires forall xml: string :: InOrder(nodes(xml), 0, |xml|)
  {
    && out.Keys == files.Keys
    && forall name :: name in files ==>
         if WordXml(name) then Numbered(files[name], out[name], nodes(files[name]), unescape, MARKER, n) else out[name] == files[name]
  }

  /** Every part of the document, in any order; the text nodes of each are found by `nodes`. */
  method ReplaceSystemContractNumber(files: map<string, string>, number: string,
                                     nodes: string -> seq<Range>, unescape: string -> string)
    returns (r: Option<map<string, string>>)
    requires forall xml: string :: InOrder(nodes(xml), 0, |xml|)
    ensures r.Some? <==> Accepted(number)
    ensures r.Some? ==> NumberedDocument(files, r.value, nodes, unescape, TrimSpace(number))
  {
    hide Numbered, InOrder, TrimSpace, Has, Texts, Concat, WordXml;
    var n := TrimSpace(number);
    if n == "" || '\r' in n || '\n' in n || Has(n, MARKER) {
      return None;
    }
    var written := files;
    var left := files.Keys;
    while left != {}
      invariant left <= files.Keys == written.Keys
      invariant forall name :: name in left ==> written[name] == files[name]
      invariant forall name :: name in files && name !in left ==>
                  if WordXml(name) then Numbered(files[name], written[name], nodes(files[name]), unescape, MARKER, n)
                  else written[name] == files[name]
      decreases left
    {
      var name :| name in left;
      left := left - {name};
      if !WordXml(name) {
        continue;
      }
      var out, changed := ReplaceInPart(files[name], nodes(files[name]), unescape, MARKER, n);
      if !changed {
        Unchanged(files[name], out, nodes(files[name]), unescape, n);
        continue;
      }
      written := written[name := out];
    }
    return Some(written);
  }

  lemma Unchanged(xml: string, out: string, ranges: seq<Range>, unescape: string -> string, n: string)
    requires InOrder(ranges, 0, |xml|) && !Has(Concat(Texts(xml, ranges, 0, unescape)), MARKER)
    requires Numbered(xml, out, ranges, unescape, MARKER, n)
    ensures out == xml
  {
  }

  // ----- What the text becomes -----

  lemma {:induction false} AtAhead(a: string, b: string, m: string, k: nat)
    ensures At(a + b, m, |a| + k) <==> At(b, m, k)
  {
    if k + |m| <= |b| {
      assert (a + b)[|a| + k..|a| + k + |m|] == b[k..k + |m|];
    }
  }

  /** What is replaced from a position on depends on the text from there on only. */
  lemma {:induction false} ReplaceAhead(a: string, b: string, m: string, n: string, k: nat)
    requires k <= |b| && m != ""
    ensures ReplaceAll(a + b, m, n, |a| + k) == ReplaceAll(b, m, n, k)
    decreases |b| - k
  {
    AtAhead(a, b, m, k);
    if At(b, m, k) {
      ReplaceAhead(a, b, m, n, k + |m|);
    } else if k < |b| {
      ReplaceAhead(a, b, m, n, k + 1);
    }
  }

  /** Up to the first occurrence the text is copied, the occurrence becomes the number, and so on from there. */
  lemma {:induction false} FirstReplaced(a: string, m: string, n: string, b: string)
    requires m != "" && forall i :: 0 <= i < |a| ==> !At(a + m + b, m, i)
    ensures ReplaceAll(a + m + b, m, n, 0) == a + n + ReplaceAll(b, m, n, 0)
  {
    var s := a + m + b;
    var d := CopiedAhead(s, m, n, 0, |a|);
    assert s[|a|..|a| + |m|] == m && s[0..|a|] == a;
    assert At(s, m, |a|);
    ReplacedAt(s, m, n, |a|);
    ReplaceAhead(a + m, b, m, n, 0);
    hide ReplaceAll, At;
    assert d == |a|;
    Associate(a, n, ReplaceAll(b, m, n, 0));
  }

  /** A text without the marker stays as it is. */
  lemma {:induction false} NothingReplaced(s: string, m: string, n: string)
    requires m != "" && !Has(s, m)
    ensures ReplaceAll(s, m, n, 0) == s
  {
    var d := CopiedAhead(s, m, n, 0, |s|);
    assert d == |s|;
    ReplacedAt(s, m, n, |s|);
    assert s[0..|s|] == s;
  }

  // ----- When no marker is left -----

  /** n, laid over m at offset i, agrees with m wherever they overlap. */
  predicate Agrees(m: string, n: string, i: int) {
    forall k :: 0 <= k < |n| && 0 <= i + k < |m| ==> n[k] == m[i + k]
  }

  /** Some overlapping position of n over m agrees: n could complete a cut-off m. */
  predicate Collides(m: string, n: string) {
    exists i :: -|n| < i < |m| && Agrees(m, n, i)
  }

  lemma {:induction false} CopiedAhead(s: string, m: string, n: string, from: nat, most: nat) returns (d: nat)
    requires from <= |s| && m != ""
    ensures d <= most && from + d <= |s|
    ensures ReplaceAll(s, m, n, from) == s[from..from + d] + ReplaceAll(s, m, n, from + d)
    ensures d == most || At(s, m, from + d) || from + d == |s|
    ensures forall j :: from <= j < from + d ==> !At(s, m, j)
    decreases most
  {
    hide At;
    if most == 0 || At(s, m, from) || from == |s| {
      assert s[from..from] == "";
      return 0;
    }
    var ahead := CopiedAhead(s, m, n, from + 1, most - 1);
    d := ahead + 1;
    assert ReplaceAll(s, m, n, from) == [s[from]] + ReplaceAll(s, m, n, from + 1);
    hide ReplaceAll;
    assert s[from..from + d] == [s[from]] + s[from + 1..from + d];
    Associate([s[from]], s[from + 1..from + d], ReplaceAll(s, m, n, from + d));
  }

  lemma ReplacedAt(s: string, m: string, n: string, from: nat)
    requires from <= |s| && m != ""
    ensures At(s, m, from) ==> ReplaceAll(s, m, n, from) == n + ReplaceAll(s, m, n, from + |m|)
    ensures from == |s| ==> ReplaceAll(s, m, n, from) == ""
  {
  }

  lemma AtReads(s: string, m: string, i: nat)
    requires At(s, m, i)
    ensures forall k :: 0 <= k < |m| ==> s[i + k] == m[k]
  {
    forall k | 0 <= k < |m| ensures s[i + k] == m[k] {
      assert s[i..i + |m|][k] == s[i + k];
    }
  }

  lemma Differs(s: string, m: string, i: nat, k: nat)
    requires k < |m| && (i + k < |s| ==> s[i + k] != m[k])
    ensures !At(s, m, i)
  {
    if At(s, m, i) {
      AtReads(s, m, i);
    }
  }

  lemma CutShort(copied: string, n: string, rest: string, m: string)
    requires |copied| < |m| && !Agrees(m, n, |copied|)
    ensures !At(copied + (n + rest), m, 0)
  {
    var all := copied + (n + rest);
    var k :| 0 <= k < |n| && 0 <= |copied| + k < |m| && n[k] != m[|copied| + k];
    assert all[|copied| + k] == n[k];
    Differs(all, m, 0, |copied| + k);
  }

  /** A marker that starts in a text part copied over would have to run into a replaced one. */
  lemma NoneStartsHere(s: string, m: string, n: string, from: nat)
    requires from < |s| && m != "" && n != "" && !Collides(m, n) && !At(s, m, from)
    ensures !At(ReplaceAll(s, m, n, from), m, 0)
  {
    hide ReplaceAll;
    var d := CopiedAhead(s, m, n, from, |m|);
    var copied, rest := s[from..from + d], ReplaceAll(s, m, n, from + d);
    ReplacedAt(s, m, n, from + d);
    if d == |m| {
      assert (copied + rest)[0..|m|] == copied;
    } else if At(s, m, from + d) {
      assert !Agrees(m, n, d);
      CutShort(copied, n, ReplaceAll(s, m, n, from + d + |m|), m);
    }
  }

  lemma RunsThrough(n: string, rest: string, m: string, p: nat)
    requires p < |n| && m != "" && At(n + rest, m, p)
    ensures Collides(m, n)
  {
    AtReads(n + rest, m, p);
    assert forall k :: 0 <= k < |n| && 0 <= k - p < |m| ==> n[k] == (n + rest)[p + (k - p)];
    assert Agrees(m, n, -(p as int));
  }

  lemma AtLater(a: string, rest: string, m: string, p: nat)
    requires |a| <= p && At(a + rest, m, p)
    ensures At(rest, m, p - |a|)
  {
    assert rest[p - |a|..p - |a| + |m|] == (a + rest)[p..p + |m|];
  }

  lemma {:induction false} NoMarkerMade(s: string, m: string, n: string, from: nat)
    requires from <= |s| && m != "" && n != "" && !Collides(m, n)
    ensures !Has(ReplaceAll(s, m, n, from), m)
    decreases |s| - from
  {
    var all := ReplaceAll(s, m, n, from);
    if from == |s| && !At(s, m, from) {
      return;
    }
    var size := if At(s, m, from) then |n| else 1;
    var next := if At(s, m, from) then from + |m| else from + 1;
    var rest := ReplaceAll(s, m, n, next);
    NoMarkerMade(s, m, n, next);
    assert all == all[..size] + rest;
    forall p: int | 0 <= p <= |all| ensures !At(all, m, p) {
      if At(all, m, p) {
        if p >= size {
          AtLater(all[..size], rest, m, p);
        } else if At(s, m, from) {
          RunsThrough(n, rest, m, p);
        } else {
          NoneStartsHere(s, m, n, from);
        }
      }
    }
  }

  /** A text in which a colliding number completes a marker. */
  function Trap(m: string, n: string, i: int): string
    requires -|n| < i < |m|
  {
    m[..if i > 0 then i else 0] + m + m[if i + |n| < |m| then i + |n| else |m|..]
  }

  lemma TrapReplaced(m: string, n: string, i: int)
    requires m != "" && -|n| < i < |m| && forall j :: 0 < j < |m| ==> m[j] != m[0]
    ensures ReplaceAll(Trap(m, n, i), m, n, 0)
            == m[..if i > 0 then i else 0] + n + m[if i + |n| < |m| then i + |n| else |m|..]
  {
    var a, e := if i > 0 then i else 0, if i + |n| < |m| then i + |n| else |m|;
    NotBefore(m, a, m[e..]);
    ReplacedOnce(m[..a], m, n, m[e..]);
  }

  lemma ReplacedOnce(head: string, m: string, n: string, foot: string)
    requires m != "" && |foot| < |m| && forall j: nat :: j < |head| ==> !At(head + m + foot, m, j)
    ensures ReplaceAll(head + m + foot, m, n, 0) == head + n + foot
  {
    hide ReplaceAll, At;
    var s, a := head + m + foot, |head|;
    TrapText(head, m, foot);
    var d := CopiedAhead(s, m, n, 0, a);
    assert d == a;
    ReplacedAt(s, m, n, a);
    TailCopied(s, m, n, a + |m|);
    Associate(head, n, foot);
  }

  lemma TailCopied(s: string, m: string, n: string, from: nat)
    requires from <= |s| < from + |m|
    ensures ReplaceAll(s, m, n, from) == s[from..]
  {
    hide ReplaceAll;
    var rest := CopiedAhead(s, m, n, from, |s| - from);
    ReplacedAt(s, m, n, |s|);
    assert s[from..|s|] + "" == s[from..];
  }

  lemma TrapText(head: string, m: string, foot: string)
    ensures var s, a := head + m + foot, |head|;
            At(s, m, a) && s[0..a] == head && s[a + |m|..] == foot
  {
  }

  /** Behind a cut-off marker, the next full marker is the first. */
  lemma NotBefore(m: string, a: nat, foot: string)
    requires a < |m| && forall j :: 0 < j < |m| ==> m[j] != m[0]
    ensures forall j: nat :: j < a ==> !At(m[..a] + m + foot, m, j)
  {
    var s := m[..a] + m + foot;
    assert s[a] == m[0];
    forall j: nat | j < a ensures !At(s, m, j) {
      Differs(s, m, j, a - j);
    }
  }

  lemma TrapHasMarker(m: string, n: string, i: int)
    requires m != "" && -|n| < i < |m| && Agrees(m, n, i)
    ensures Has(m[..if i > 0 then i else 0] + n + m[if i + |n| < |m| then i + |n| else |m|..], m)
  {
    var a, e := if i > 0 then i else 0, if i + |n| < |m| then i + |n| else |m|;
    var all, p := m[..a] + n + m[e..], if i > 0 then 0 else -i;
    assert forall q :: 0 <= q < |m| ==> all[p + q] == m[q];
    assert all[p..p + |m|] == m;
    assert At(all, m, p);
  }

  /** No marker is left in any text, exactly when the number cannot complete a cut-off marker. */
  lemma MarkerGoneExactly(m: string, n: string)
    requires m != "" && n != "" && forall j :: 0 < j < |m| ==> m[j] != m[0]
    ensures (forall s: string :: !Has(ReplaceAll(s, m, n, 0), m)) <==> !Collides(m, n)
  {
    if Collides(m, n) {
      var i :| -|n| < i < |m| && Agrees(m, n, i);
      TrapReplaced(m, n, i);
      TrapHasMarker(m, n, i);
      assert Has(ReplaceAll(Trap(m, n, i), m, n, 0), m);
    } else {
      forall s: string ensures !Has(ReplaceAll(s, m, n, 0), m) {
        NoMarkerMade(s, m, n, 0);
      }
    }
  }

  /** A second replacement finds nothing to replace. */
  lemma SecondChangesNothing(s: string, m: string, n: string, n': string)
    requires m != "" && n != "" && !Collides(m, n)
    ensures var once := ReplaceAll(s, m, n, 0);
            Occurrences(once, m, 0) == [] && ReplaceAll(once, m, n', 0) == once
  {
    var once := ReplaceAll(s, m, n, 0);
    NoMarkerMade(s, m, n, 0);
    NoneFound(once, m, 0);
    var d := CopiedAhead(once, m, n', 0, |once|);
    assert d == |once|;
  }

  // ----- The written document -----

  /** Searched again, a written part has its text nodes where they were written. */
  ghost predicate FindsWritten(nodes: string -> seq<Range>)
    requires forall xml: string :: InOrder(nodes(xml), 0, |xml|)
  {
    forall xml: string, texts: seq<string> :: |texts| == |nodes(xml)| ==>
      nodes(Assembled(xml, nodes(xml), texts, 0)) == Moved(nodes(xml), texts, 0, 0, |xml|)
  }

  /** A numbered part has no marker in its visible text. */
  lemma PartFreed(xml: string, out: string, nodes: string -> seq<Range>, unescape: string -> string, n: string)
    requires forall xml: string :: InOrder(nodes(xml), 0, |xml|)
    requires FindsWritten(nodes) && Unescapes(unescape) && n != "" && !Collides(MARKER, n)
    requires Numbered(xml, out, nodes(xml), unescape, MARKER, n)
    ensures !Has(Concat(Texts(out, nodes(out), 0, unescape)), MARKER)
  {
    hide Assembled, Moved, Texts, Concat, Has, ReplaceAll, Unescapes, Outside, Collides, InOrder;
    var visible := Concat(Texts(xml, nodes(xml), 0, unescape));
    if Has(visible, MARKER) {
      var texts: seq<string> :| |texts| == |nodes(xml)| && Concat(texts) == ReplaceAll(visible, MARKER, n, 0)
                                && out == Assembled(xml, nodes(xml), texts, 0);
      AssembledReads(xml, nodes(xml), texts, 0, unescape, "");
      assert "" + out == out;
      assert nodes(out) == Moved(nodes(xml), texts, 0, 0, |xml|);
      NoMarkerMade(visible, MARKER, n, 0);
    }
  }

  /**
    Through a whole document: no Word part of the result has the marker in its visible text, and a
    second replacement, by whatever number, returns the document as it is.
   */
  lemma SecondDocumentUnchanged(files: map<string, string>, out: map<string, string>, nodes: string -> seq<Range>,
                                unescape: string -> string, n: string)
    requires forall xml: string :: InOrder(nodes(xml), 0, |xml|)
    requires FindsWritten(nodes) && Unescapes(unescape) && n != "" && !Collides(MARKER, n)
    requires NumberedDocument(files, out, nodes, unescape, n)
    ensures forall name :: name in out && WordXml(name) ==> !Has(Concat(Texts(out[name], nodes(out[name]), 0, unescape)), MARKER)
    ensures forall again, n' :: NumberedDocument(out, again, nodes, unescape, n') ==> again == out
  {
    hide Numbered, Has, Texts, Concat, WordXml, InOrder, FindsWritten, Unescapes, Collides;
    forall name | name in out && WordXml(name) ensures !Has(Concat(Texts(out[name], nodes(out[name]), 0, unescape)), MARKER) {
      PartFreed(files[name], out[name], nodes, unescape, n);
    }
    forall again, n' | NumberedDocument(out, again, nodes, unescape, n') ensures again == out {
      forall name | name in out ensures again[name] == out[name] {
        if WordXml(name) {
          Unchanged(out[name], again[name], nodes(out[name]), unescape, n');
        }
      }
    }
  }

  // ----- The reserved marker -----

  lemma MarkerShape()
    ensures |MARKER| == 16 && forall j :: 0 < j < |MARKER| ==> MARKER[j] != MARKER[0]
    ensures forall j :: 0 <= j < |MARKER| ==> !Numbering.AffixAllowed(MARKER[j])
  {
  }

  /** The guard alone does not keep the marker out: a closing bracket is accepted and completes one. */
  lemma GuardIsNotEnough()
    ensures Accepted("】") && Collides(MARKER, "】")
    ensures exists s: string :: Has(ReplaceAll(s, MARKER, "】", 0), MARKER)
  {
    MarkerShape();
    hide ReplaceAll;
    TrimmedIsFixed("】");
    assert Agrees(MARKER, "】", 15);
    MarkerGoneExactly(MARKER, "】");
  }

  lemma {:induction false} IssuedCharacters(rule: Numbering.Rule, year: nat, sequence: nat)
    requires Numbering.Normal(rule)
    ensures Numbering.Number(rule, year, sequence) != ""
    ensures forall i :: 0 <= i < |Numbering.Number(rule, year, sequence)| ==>
              Numbering.AffixAllowed(Numbering.Number(rule, year, sequence)[i])
  {
    var y, q := Numbering.YearPart(rule.yearSegment, year), Pad(sequence, rule.seqWidth);
    assert AllDigits(y) && AllDigits(q);
    assert forall i :: 0 <= i < |y| ==> Numbering.AffixAllowed(y[i]);
    assert forall i :: 0 <= i < |q| ==> Numbering.AffixAllowed(q[i]);
  }

  /** A number the allocator issues is accepted and leaves no marker in any text, also when applied again. */
  lemma IssuedNumberReplacesAll(rule: Numbering.Rule, year: nat, sequence: nat, s: string)
    requires Numbering.Normal(rule)
    ensures var n := Numbering.Number(rule, year, sequence);
            && Accepted(n) && TrimSpace(n) == n
            && !Has(ReplaceAll(s, MARKER, n, 0), MARKER)
            && ReplaceAll(ReplaceAll(s, MARKER, n, 0), MARKER, n, 0) == ReplaceAll(s, MARKER, n, 0)
  {
    hide ReplaceAll, Occurrences;
    var n := Numbering.Number(rule, year, sequence);
    IssuedCharacters(rule, year, sequence);
    hide Numbering.Number;
    PlainNumber(n);
    NoMarkerMade(s, MARKER, n, 0);
    SecondChangesNothing(s, MARKER, n, n);
  }

  lemma PlainNumber(n: string)
    requires n != "" && forall i :: 0 <= i < |n| ==> Numbering.AffixAllowed(n[i])
    ensures Accepted(n) && TrimSpace(n) == n && !Collides(MARKER, n)
  {
    MarkerShape();
    TrimmedIsFixed(n);
    forall i | -|n| < i < |MARKER| ensures !Agrees(MARKER, n, i) {
      var k := if i < 0 then -i else 0;
      assert n[k] != MARKER[i + k];
    }
    forall i: nat | i <= |n| ensures !At(n, MARKER, i) {
      Differs(n, MARKER, i, 0);
    }
  }
}
