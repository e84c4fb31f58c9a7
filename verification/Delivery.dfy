/** Delivery manifests: which part of a result's text proves which lines of which file version.

    A manifest travels with a tool result. When the result is cut to an output budget or paged,
    the manifest is sliced at the same offsets, so it never claims more than was shown.
 */
module Delivery {
  import opened Prelude
  import opened Ranges

  /** Lines `startLine..endLine` rendered at offsets `startOffset..endOffset` of the result; of the
      `lineLength` characters of the rendering, `visibleStart..visibleEnd` are present.
   */
  datatype Span = Span(startOffset: nat, endOffset: nat, startLine: nat, endLine: nat,
                       visibleStart: nat, visibleEnd: nat, lineLength: nat)

  datatype Manifest = Manifest(
    fileKey: string, digest: string, totalLines: nat, spans: seq<Span>,
    emptyFile: bool, completeFile: bool, operation: string, beforeDigest: string,
    inherited: seq<Interval>, parents: seq<string>)

  // ----- slicing

  predicate Touches(s: Span, from: nat, to: nat) {
    Max(s.startOffset, from) < Min(s.endOffset, to)
  }

  function CutSpan(s: Span, from: nat, to: nat): Span
    requires Touches(s, from, to)
  {
    var lo, hi := Max(s.startOffset, from), Min(s.endOffset, to);
    Span(lo - from, hi - from, s.startLine, s.endLine,
         s.visibleStart + lo - s.startOffset, s.visibleStart + hi - s.startOffset, s.lineLength)
  }

  function CutSpans(spans: seq<Span>, from: nat, to: nat): seq<Span> {
    if spans == [] then []
    else if Touches(spans[0], from, to) then [CutSpan(spans[0], from, to)] + CutSpans(spans[1..], from, to)
    else CutSpans(spans[1..], from, to)
  }

  /** `max` of the end offsets, 0 when there are none. */
  function ProofEnd(spans: seq<Span>): nat {
    if spans == [] then 0 else Max(spans[0].endOffset, ProofEnd(spans[1..]))
  }

  predicate FullProofVisible(m: Manifest, from: nat, to: nat) {
    from == 0 && (ProofEnd(m.spans) == 0 || to >= ProofEnd(m.spans))
  }

  function Slice(m: Manifest, from: nat, to: nat): Option<Manifest> {
    var spans := CutSpans(m.spans, from, to);
    var full := FullProofVisible(m, from, to);
    var inherited := if full then m.inherited else [];
    if spans == [] && !(m.emptyFile && full) && !(m.completeFile && full) && inherited == [] then None
    else Some(m.(spans := spans, emptyFile := m.emptyFile && full, completeFile := m.completeFile && full,
                 inherited := inherited, parents := if inherited != [] then m.parents else []))
  }

  /** Each span shows a nonempty stretch, and offsets and visible part have the same length. */
  predicate WellFormed(m: Manifest) {
    forall s :: s in m.spans ==> SpanWellFormed(s)
  }

  predicate SpanWellFormed(s: Span) {
    s.startOffset < s.endOffset && s.visibleEnd - s.visibleStart == s.endOffset - s.startOffset
  }

  /** The source's loop over the spans. */
  method SelectSpans(spans: seq<Span>, from: nat, to: nat) returns (selected: seq<Span>)
    ensures selected == CutSpans(spans, from, to)
  {
    selected := [];
    assert spans[0..] == spans;
    for i := 0 to |spans|
      invariant selected + CutSpans(spans[i..], from, to) == CutSpans(spans, from, to)
    {
      assert spans[i..][0] == spans[i] && spans[i..][1..] == spans[i + 1..];
      var lo, hi := Max(spans[i].startOffset, from), Min(spans[i].endOffset, to);
      if hi <= lo {
        continue;
      }
      selected := selected + [CutSpan(spans[i], from, to)];
    }
    assert spans[|spans|..] == [];
  }

  // ----- slices compose

  lemma {:induction false} CutTwice(spans: seq<Span>, a: nat, b: nat, c: nat, d: nat)
    requires forall s :: s in spans ==> SpanWellFormed(s)
    ensures CutSpans(CutSpans(spans, a, b), c, d) == CutSpans(spans, a + c, Min(b, a + d))
    decreases |spans|
  {
    if spans != [] {
      assert spans[0] in spans;
      var rest := CutSpans(spans[1..], a, b);
      CutTwice(spans[1..], a, b, c, d);
      if Touches(spans[0], a, b) {
        assert CutSpans(spans, a, b)[1..] == rest;
        CutSpanTwice(spans[0], a, b, c, d);
      }
    }
  }

  lemma CutSpanTwice(s: Span, a: nat, b: nat, c: nat, d: nat)
    requires SpanWellFormed(s) && Touches(s, a, b)
    ensures Touches(CutSpan(s, a, b), c, d) <==> Touches(s, a + c, Min(b, a + d))
    ensures Touches(s, a + c, Min(b, a + d)) ==>
      CutSpan(CutSpan(s, a, b), c, d) == CutSpan(s, a + c, Min(b, a + d))
  {
  }

  lemma {:induction false} CutAll(spans: seq<Span>, to: nat)
    requires forall s :: s in spans ==> SpanWellFormed(s)
    requires to >= ProofEnd(spans)
    ensures CutSpans(spans, 0, to) == spans
    decreases |spans|
  {
    if spans != [] {
      assert spans[0] in spans;
      CutAll(spans[1..], to);
      assert spans == [spans[0]] + spans[1..];
    }
  }

  function SliceAgain(m: Option<Manifest>, from: nat, to: nat): Option<Manifest> {
    if m.None? then None else Slice(m.value, from, to)
  }

  lemma {:induction false} ProofEndPositive(spans: seq<Span>)
    requires forall s :: s in spans ==> SpanWellFormed(s)
    ensures spans != [] <==> ProofEnd(spans) > 0
    decreases |spans|
  {
    if spans != [] {
      assert spans[0] in spans;
    }
  }

  /** Slicing a slice is slicing the manifest once at the combined offsets. */
  lemma SliceCompose(m: Manifest, a: nat, b: nat, c: nat, d: nat)
    requires WellFormed(m)
    ensures SliceAgain(Slice(m, a, b), c, d) == Slice(m, a + c, Min(b, a + d))
  {
    CutTwice(m.spans, a, b, c, d);
    ProofEndPositive(m.spans);
    if FullProofVisible(m, a, b) {
      CutAll(m.spans, if m.spans == [] then 0 else b);
    }
  }

  // ----- a delivery can remove proof but not add it

  predicate SpanWithin(d: Span, o: Span) {
    && d.startLine == o.startLine && d.endLine == o.endLine && d.lineLength == o.lineLength
    && o.visibleStart <= d.visibleStart <= d.visibleEnd <= o.visibleEnd
  }

  /** The worker's check of a delivered manifest against the one it staged. */
  predicate ValidProof(original: Manifest, delivered: Manifest) {
    && delivered.fileKey == original.fileKey && delivered.digest == original.digest
    && delivered.totalLines == original.totalLines && delivered.operation == original.operation
    && delivered.beforeDigest == original.beforeDigest
    && (delivered.emptyFile ==> original.emptyFile)
    && (delivered.completeFile ==> original.completeFile)
    && (delivered.inherited != [] ==> delivered.inherited == original.inherited)
    && (delivered.parents != [] ==> delivered.parents == original.parents)
    && forall d :: d in delivered.spans ==> exists o :: o in original.spans && SpanWithin(d, o)
  }

  lemma {:induction false} CutWithin(spans: seq<Span>, from: nat, to: nat, d: Span)
    requires forall s :: s in spans ==> SpanWellFormed(s)
    requires d in CutSpans(spans, from, to)
    ensures exists o :: o in spans && SpanWithin(d, o)
    decreases |spans|
  {
    assert spans == [spans[0]] + spans[1..];
    if Touches(spans[0], from, to) && d == CutSpan(spans[0], from, to) {
      assert spans[0] in spans && SpanWellFormed(spans[0]);
      assert SpanWithin(d, spans[0]);
    } else {
      CutWithin(spans[1..], from, to, d);
    }
  }

  /** Each span that is left of a cut shows something, at the place of the slice where it stood. */
  lemma {:induction false} CutStands(spans: seq<Span>, from: nat, to: nat, d: Span)
    requires forall s :: s in spans ==> SpanWellFormed(s)
    requires d in CutSpans(spans, from, to)
    ensures SpanWellFormed(d) && from + d.endOffset <= to
    ensures exists o :: o in spans && SpanWithin(d, o)
              && from + d.startOffset - o.startOffset == d.visibleStart - o.visibleStart
    decreases |spans|
  {
    assert spans == [spans[0]] + spans[1..];
    if Touches(spans[0], from, to) && d == CutSpan(spans[0], from, to) {
      assert spans[0] in spans && SpanWellFormed(spans[0]);
      assert SpanWithin(d, spans[0]);
    } else {
      CutStands(spans[1..], from, to, d);
    }
  }

  /** A slice of a well-formed manifest is well-formed, so it can be sliced again. */
  lemma SliceWellFormed(m: Manifest, from: nat, to: nat)
    requires WellFormed(m) && Slice(m, from, to).Some?
    ensures WellFormed(Slice(m, from, to).value)
  {
    hide SpanWellFormed, CutSpans;
    forall d | d in CutSpans(m.spans, from, to)
      ensures SpanWellFormed(d)
    {
      CutStands(m.spans, from, to, d);
    }
  }

  /** Every slice of a well-formed manifest passes the worker's check. */
  lemma SliceIsValidProof(m: Manifest, from: nat, to: nat)
    requires WellFormed(m) && Slice(m, from, to).Some?
    ensures ValidProof(m, Slice(m, from, to).value)
  {
    forall d | d in CutSpans(m.spans, from, to)
      ensures exists o :: o in m.spans && SpanWithin(d, o)
    {
      CutWithin(m.spans, from, to, d);
    }
  }

  /** The check composes, so a delivery may be cut any number of times on its way. */
  lemma ValidProofTransitive(a: Manifest, b: Manifest, c: Manifest)
    requires ValidProof(a, b) && ValidProof(b, c)
    ensures ValidProof(a, c)
  {
  }
}
