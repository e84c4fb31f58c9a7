/** Read authority from one version of a file to the next.

    An edit is planned on the grant for the text before it. Its result carries a manifest that
    credits lines of the text after it, and the delivery of that manifest is all that covers the
    new version. Followed through, the question is what a covered line of the new version can
    show: replacement text, or text of lines that were covered before.
 */
module EditCredit {
  import opened BatchEdit
  import opened Delivery
  import opened EditAuthority
  import opened Edits
  import opened FileAuthority
  import opened Paging
  import opened Prelude
  import opened Ranges
  import opened SessionState
  import opened Splicing
  import opened TextLines

  /** The grant as the edit tool sees it. */
  function StateOf(grant: Grant): FileState {
    FileState(if grant.totalLines == 0 then grant.emptyFile else HoldsRun(grant.covered, 1, grant.totalLines),
              grant.covered)
  }

  /** The readable lines from which credit is inherited. */
  function Readable(pre: string, state: FileState): seq<Interval> {
    if state.fullView && NumLines(pre) > 0 then [Interval(1, NumLines(pre) + 1)] else state.covered
  }

  /** An edit call: the leases and the visible results it was planned on, the grant, and what was applied. */
  datatype Change = Change(leases: Leases, visible: Option<set<string>>, fileKey: string, grant: Grant,
                           pre: string, edits: seq<Edit>, patches: seq<Patch>)

  ghost predicate Made(c: Change) {
    && GrantIs(c.leases, c.visible, c.fileKey, c.grant) && c.grant.totalLines == NumLines(c.pre)
    && Placed(c.pre, c.patches, 0) && ToSet(c.patches) == Survivors(c.pre, StateOf(c.grant), c.edits)
  }

  /** The line of the pre-image could be edited when the edit was planned. */
  ghost predicate WasCovered(c: Change, n: int) {
    GrantCovers(c.leases, c.visible, c.fileKey, c.grant.digest, n)
  }

  /** Character `x` of the new text is replacement text or was kept from a covered line. */
  ghost predicate CharKnown(c: Change, x: nat)
    requires Placed(c.pre, c.patches, 0)
  {
    var o := Origin(c.pre, c.patches, 0);
    x < |o| && (o[x] == -1 || (0 <= o[x] < |c.pre| && WasCovered(c, LineAt(c.pre, o[x]))))
  }

  /** Line `m` of the new text shows nothing else. */
  ghost predicate LineKnown(c: Change, m: int)
    requires Placed(c.pre, c.patches, 0)
  {
    var text := NewText(c.pre, c.patches);
    forall x: nat :: x < |text| && LineAt(text, x) == m ==> CharKnown(c, x)
  }

  // ----- lines the plan required

  lemma ReadableIff(c: Change, n: int)
    requires Made(c) && 1 <= n <= NumLines(c.pre)
    ensures Covers(MergeLines(Readable(c.pre, StateOf(c.grant))), n) <==> WasCovered(c, n)
  {
    var rs := Readable(c.pre, StateOf(c.grant));
    assert OneBased(rs);
    MergeLinesFacts(rs);
    hide MergeLines, GrantCovers, NumLines;
    CoversOne(Interval(1, NumLines(c.pre) + 1), n);
    if StateOf(c.grant).fullView {
      assert Covers(c.grant.covered, n);
    }
  }

  lemma AffectedWasCovered(c: Change, n: nat)
    requires Made(c) && Affected(c.pre, c.patches, n) && n <= NumLines(c.pre)
    ensures WasCovered(c, n)
  {
    var state := StateOf(c.grant);
    hide GrantCovers, Survivors, LineNumber, NumLines, Placed;
    var k :| 0 <= k < |c.patches|
      && LineNumber(c.pre, c.patches[k].start) <= n <= LineNumber(c.pre, c.patches[k].end);
    assert c.patches[k] in ToSet(c.patches);
    SurvivorCovered(c.pre, state, c.edits, c.patches[k]);
    assert Covers(c.grant.covered, n);
  }

  lemma AuthorizedIsKnown(c: Change, x: nat)
    requires Made(c) && x < |NewText(c.pre, c.patches)| && Authorized(c.pre, c.patches, x)
    ensures CharKnown(c, x)
  {
    MadeIsPlaced(c);
    hide Made, GrantCovers, Affected, NewText, Origin, Placed;
    OriginFacts(c.pre, c.patches, x);
    var p := Origin(c.pre, c.patches, 0)[x];
    if p >= 0 {
      LineAtSpan(c.pre, p, |c.pre| - 1);
      AffectedWasCovered(c, LineAt(c.pre, p));
    }
  }

  lemma MadeIsPlaced(c: Change)
    requires Made(c)
    ensures Placed(c.pre, c.patches, 0)
  {
  }

  // ----- inherited lines

  /** The characters of an unaffected line are kept where the tool says it moved. */
  lemma LineOrigin(pre: string, patches: seq<Patch>, n: nat, p: nat)
    requires Placed(pre, patches, 0) && 1 <= n <= NumLines(pre) && !Affected(pre, patches, n)
    requires StartOf(pre, n) <= p < LineEnd(pre, StartOf(pre, n))
    ensures 0 <= p + ShiftAt(patches, StartOf(pre, n)) < |Origin(pre, patches, 0)|
    ensures Origin(pre, patches, 0)[p + ShiftAt(patches, StartOf(pre, n))] == p
  {
    hide Splice, Origin, Placed, Delta, Affected, StartOf, LineEnd, ShiftAt, NumLines;
    var k := UnaffectedLine(pre, patches, n);
    SpliceLength(pre, patches, 0);
    KeptAt(pre, patches, 0, k, p);
  }

  /** A line feed that a carried line's carriage return meets is replacement text or required. */
  lemma FusedIsAuthorized(pre: string, patches: seq<Patch>, p: nat, z: nat)
    requires Placed(pre, patches, 0) && 0 < z < |NewText(pre, patches)| == |Origin(pre, patches, 0)|
    requires p < |pre| && (p + 1 == |pre| || Break(pre, p + 1)) && Origin(pre, patches, 0)[z - 1] == p
    requires pre[p] == '\r' && NewText(pre, patches)[z] == '\n'
    ensures Authorized(pre, patches, z)
  {
    hide Splice, Origin, Placed, Delta, Affected;
    var k := Junction(pre, patches, z);
    if Origin(pre, patches, 0)[z] == p + 1 {
      OriginFacts(pre, patches, z);
      assert false;
    }
    PatchAuthorized(pre, patches, k, z);
  }

  /** Where the characters of a copied line stand. */
  lemma CopiedSpan(pre: string, text: string, start: nat, end: nat, d: int, x: nat)
    requires start < |pre| && (start == 0 || Break(pre, start)) && end == LineEnd(pre, start)
    requires Copied(pre, text, start, end, d)
    requires x < |text| && 0 <= start + d && LineNumber(text, start + d) == LineAt(text, x)
    ensures start + d <= x <= end + d
    ensures x == end + d ==> pre[end - 1] == '\r' && text[x] == '\n'
  {
    hide *;
    CopiedLine(pre, text, start, end, d);
    NumberInside(text, start + d);
    OnLine(text, start + d, x);
  }

  /** The characters on the line that starts at `p`. */
  lemma OnLine(s: string, p: nat, x: nat)
    requires p < |s| && (p == 0 || Break(s, p)) && x < |s| && LineAt(s, x) == LineAt(s, p)
    ensures p <= x < LineEnd(s, p)
  {
    hide LineAt, Break;
    if x < p {
      LineAtSpan(s, x, p);
    } else {
      LineAtSpan(s, p, x);
    }
  }

  /** Where the characters of a moved line stand: in the line, or the line feed its carriage return met. */
  lemma MovedSpan(pre: string, patches: seq<Patch>, n: nat, start: nat, end: nat, d: int, x: nat)
    requires Placed(pre, patches, 0) && 1 <= n <= NumLines(pre) && !Affected(pre, patches, n)
    requires start == StartOf(pre, n) && end == LineEnd(pre, start) && d == ShiftAt(patches, start)
    requires x < |NewText(pre, patches)| && LineAt(NewText(pre, patches), x) == NewLine(pre, patches, n)
    ensures start < end <= |pre| && start + d <= x <= end + d
    ensures x == end + d ==> pre[end - 1] == '\r' && NewText(pre, patches)[x] == '\n'
  {
    assert LineNumber(NewText(pre, patches), start + d) == LineAt(NewText(pre, patches), x);
    hide *;
    MovedLine(pre, patches, n);
    assert 0 <= start + d by { MovedLow(pre, NewText(pre, patches), start, end, d); }
    CopiedSpan(pre, NewText(pre, patches), start, end, d, x);
  }

  lemma MovedLow(pre: string, text: string, start: nat, end: nat, d: int)
    requires Copied(pre, text, start, end, d)
    ensures 0 <= start + d
  {
  }

  /** A character of the line itself. */
  lemma InsideIsKnown(c: Change, n: nat, p: nat, x: nat)
    requires Placed(c.pre, c.patches, 0) && 1 <= n <= NumLines(c.pre) && WasCovered(c, n)
    requires !Affected(c.pre, c.patches, n)
    requires StartOf(c.pre, n) <= p < LineEnd(c.pre, StartOf(c.pre, n)) && x == p + ShiftAt(c.patches, StartOf(c.pre, n))
    ensures CharKnown(c, x)
  {
    hide WasCovered, Affected, Origin, Placed, ShiftAt, StartOf, NumLines, LineEnd, Break, LineAt;
    LineOrigin(c.pre, c.patches, n, p);
    InStartedLine(c.pre, n, p);
  }

  lemma LastEnded(s: string, n: nat, end: nat)
    requires 1 <= n <= NumLines(s) && end == LineEnd(s, StartOf(s, n))
    ensures end == |s| || Break(s, end)
  {
  }

  /** The line feed that its carriage return met. */
  lemma FusedIsKnown(c: Change, n: nat, end: nat, x: nat)
    requires Made(c) && 1 <= n <= NumLines(c.pre) && !Affected(c.pre, c.patches, n)
    requires end == LineEnd(c.pre, StartOf(c.pre, n)) && x == end + ShiftAt(c.patches, StartOf(c.pre, n))
    requires x < |NewText(c.pre, c.patches)| && c.pre[end - 1] == '\r' && NewText(c.pre, c.patches)[x] == '\n'
    ensures CharKnown(c, x)
  {
    hide *;
    MadeIsPlaced(c);
    LineOrigin(c.pre, c.patches, n, end - 1);
    OriginFacts(c.pre, c.patches, x);
    LastEnded(c.pre, n, end);
    FusedIsAuthorized(c.pre, c.patches, end - 1, x);
    AuthorizedIsKnown(c, x);
  }

  lemma CarriedIsKnown(c: Change, n: nat, x: nat)
    requires Made(c) && 1 <= n <= NumLines(c.pre) && !Affected(c.pre, c.patches, n) && WasCovered(c, n)
    requires x < |NewText(c.pre, c.patches)|
    requires LineAt(NewText(c.pre, c.patches), x) == NewLine(c.pre, c.patches, n)
    ensures CharKnown(c, x)
  {
    hide *;
    MadeIsPlaced(c);
    var start := StartOf(c.pre, n);
    var end, d := LineEnd(c.pre, start), ShiftAt(c.patches, start);
    MovedSpan(c.pre, c.patches, n, start, end, d, x);
    if x < end + d {
      InsideIsKnown(c, n, x - d, x);
    } else {
      FusedIsKnown(c, n, end, x);
    }
  }

  lemma InStartedLine(s: string, n: nat, p: nat)
    requires 1 <= n <= NumLines(s) && StartOf(s, n) <= p < LineEnd(s, StartOf(s, n))
    ensures LineAt(s, p) == n
  {
    hide LineEnd, LineAt, LineStarts, NumLines;
    InLine(s, n, p);
  }

  /** An inherited line shows only what was covered before or what the edit put in. */
  lemma InheritedIsKnown(c: Change, m: int)
    requires Made(c) && Inherited(c.pre, c.patches, Readable(c.pre, StateOf(c.grant)), m)
    ensures LineKnown(c, m)
  {
    MadeIsPlaced(c);
    hide Made, WasCovered, Affected, NewText, Placed, NewLine, NumLines, MergeLines, CharKnown, Readable;
    var n :| Carried(c.pre, c.patches, Readable(c.pre, StateOf(c.grant)), n) && NewLine(c.pre, c.patches, n) == m;
    ReadableIff(c, n);
    forall x: nat | x < |NewText(c.pre, c.patches)| && LineAt(NewText(c.pre, c.patches), x) == m
      ensures CharKnown(c, x)
    {
      CarriedIsKnown(c, n, x);
    }
  }

  // ----- standalone lines

  /** The line whose text stands before a leaky edge. */
  ghost function EdgeLine(pre: string, patches: seq<Patch>, k: nat): nat
    requires Placed(pre, patches, 0) && k < |patches| && LeakyEdge(pre, patches, k)
  {
    LineAt(pre, Origin(pre, patches, 0)[NewStart(patches, k) - 1])
  }

  /** Before every leaky edge stands a line that had been covered anyway. */
  ghost predicate EdgesKnown(c: Change)
    requires Placed(c.pre, c.patches, 0)
  {
    forall k :: 0 <= k < |c.patches| && LeakyEdge(c.pre, c.patches, k) ==> WasCovered(c, EdgeLine(c.pre, c.patches, k))
  }

  lemma EdgeTextKnown(c: Change, x: nat, k: nat)
    requires Placed(c.pre, c.patches, 0) && EdgesKnown(c)
    requires k < |c.patches| && 0 < NewStart(c.patches, k) && LeakyEdge(c.pre, c.patches, k)
    requires FromOneLine(c.pre, c.patches, x, NewStart(c.patches, k) - 1)
    ensures CharKnown(c, x)
  {
    hide WasCovered, Origin, Placed, NewText, NewStart, Affected, Break, LineAt;
    assert WasCovered(c, EdgeLine(c.pre, c.patches, k));
  }

  lemma StandaloneIsKnown(c: Change, x: nat)
    requires Made(c) && EdgesKnown(c) && x < |NewText(c.pre, c.patches)|
    requires Standalone(c.pre, c.patches, LineAt(NewText(c.pre, c.patches), x))
    ensures CharKnown(c, x)
  {
    MadeIsPlaced(c);
    hide *;
    if Authorized(c.pre, c.patches, x) {
      AuthorizedIsKnown(c, x);
    } else {
      var k := LeakSource(c.pre, c.patches, x);
      EdgeTextKnown(c, x, k);
    }
  }

  lemma KnownEdge(c: Change, k: nat)
    requires Placed(c.pre, c.patches, 0) && k < |c.patches| && LeakyEdge(c.pre, c.patches, k)
    requires 0 < NewStart(c.patches, k) <= |NewText(c.pre, c.patches)|
    requires LineKnown(c, LineAt(NewText(c.pre, c.patches), NewStart(c.patches, k) - 1))
    ensures WasCovered(c, EdgeLine(c.pre, c.patches, k))
  {
    hide WasCovered, Placed, Origin, NewText, NewStart;
    var x: nat := NewStart(c.patches, k) - 1;
    assert CharKnown(c, x);
  }

  // ----- the manifest of an edit

  /** One span per standalone range; all of them stand for the patch, after the report. */
  function EditSpans(standalone: seq<Interval>, report: nat, proof: nat): (spans: seq<Span>)
    requires OneBased(standalone) && Proper(standalone)
    ensures |spans| == |standalone|
    ensures forall i :: 0 <= i < |spans| ==>
      spans[i] == Span(report, report + proof, standalone[i].lo, standalone[i].hi - 1, 0, proof, proof)
  {
    seq(|standalone|, i requires 0 <= i < |standalone| =>
      assert standalone[i] in standalone;
      Span(report, report + proof, standalone[i].lo, standalone[i].hi - 1, 0, proof, proof))
  }

  /** The two kinds of credit are what the tool computes for this change. */
  ghost predicate Credits(c: Change, standalone: seq<Interval>, inherited: seq<Interval>)
    requires Placed(c.pre, c.patches, 0)
  {
    var text := NewText(c.pre, c.patches);
    && Canonical(standalone) && OneBased(standalone) && OneBased(inherited)
    && (forall m: nat :: Covers(standalone, m) <==> Standalone(c.pre, c.patches, m))
    && (forall m :: 1 <= m <= NumLines(text) ==>
          (Covers(inherited, m) <==> Inherited(c.pre, c.patches, Readable(c.pre, StateOf(c.grant)), m)))
  }

  /** The manifest claims the two kinds of credit, with a patch of `proof` characters after `report` characters. */
  ghost predicate Claims(m: Manifest, standalone: seq<Interval>, inherited: seq<Interval>, report: nat, proof: nat) {
    && OneBased(standalone) && Proper(standalone) && OneBased(inherited) && proof > 0
    && m.spans == EditSpans(standalone, report, proof) && m.inherited == inherited && !m.completeFile
  }

  function ParentSet(m: Manifest): set<string> {
    set p | p in m.parents
  }

  /** The manifest names the version it was made from and exactly the results that version was known by. */
  predicate Descends(c: Change, m: Manifest) {
    m.fileKey == c.fileKey && m.beforeDigest == c.grant.digest && ParentSet(m) == c.grant.results
  }

  /** The edit tool: apply what can be applied and say what its result proves about the new text. */
  method EditFile(pre: string, grant: Grant, edits: seq<Edit>, fileKey: string, digest: string -> string,
                  report: nat, patch: nat, parents: seq<string>,
                  ghost leases: Leases, ghost visible: Option<set<string>>)
    returns (out: Outcome, manifest: Option<Manifest>)
    requires GrantIs(leases, visible, fileKey, grant) && grant.totalLines == NumLines(pre) && grant.digest == digest(pre)
    requires forall p :: p in parents <==> p in grant.results
    ensures out.Applied? <==> manifest.Some?
    ensures out.Applied? <==>
      var patches := Survivors(pre, StateOf(grant), edits); patches != {} && Substitute(pre, patches) != pre
    ensures out.Applied? ==>
      var c := Change(leases, visible, fileKey, grant, pre, edits, out.patches);
      && Made(c) && out.text == NewText(pre, out.patches)
      && manifest.value.digest == digest(out.text) && manifest.value.operation == "edit"
      && manifest.value.totalLines == NumLines(out.text) && (manifest.value.emptyFile <==> out.text == "")
      && Descends(c, manifest.value) && WellFormed(manifest.value)
      && exists s, i :: Credits(c, s, i) && Claims(manifest.value, s, i, report, Max(1, patch))
  {
    var state := StateOf(grant);
    hide GrantIs, Survivors, Substitute, Standalone, Inherited, NumLines, Placed, Splice;
    out := ApplyEdits(pre, state, edits);
    if out.Rejected? {
      return out, None;
    }
    var text := out.text;
    var covered := Readable(pre, state);
    var standalone, inherited := PostEditAuthority(pre, text, out.patches, covered);
    var lines := SplitLines(text);
    CountLines(text);
    var m := Manifest(fileKey, digest(text), |lines|, EditSpans(standalone, report, Max(1, patch)), text == "", false,
                      "edit", digest(pre), inherited, parents);
    ghost var c := Change(leases, visible, fileKey, grant, pre, edits, out.patches);
    assert Credits(c, standalone, inherited);
    assert Claims(m, standalone, inherited, report, Max(1, patch));
    manifest := Some(m);
  }

  // ----- what its delivery covers

  /** The lease claims no more than the manifest. */
  ghost predicate Within(standalone: seq<Interval>, inherited: seq<Interval>, lease: Lease) {
    && !lease.completeFile && OneBased(lease.standalone) && OneBased(lease.inherited)
    && (forall x :: Covers(lease.standalone, x) ==> Covers(standalone, x))
    && (forall x :: Covers(lease.inherited, x) ==> Covers(inherited, x))
    && (forall k, c :: Shows(lease.fragments, k, c) ==> Covers(standalone, k.line))
  }

  ghost predicate AllWithin(v: Version, standalone: seq<Interval>, inherited: seq<Interval>, leases: Leases) {
    forall rid :: Had(v, leases, rid) ==> Within(standalone, inherited, leases[rid])
  }

  /** A cut of the manifest has the lines of a standalone range in every span. */
  lemma CutLines(m: Manifest, standalone: seq<Interval>, inherited: seq<Interval>, report: nat, proof: nat,
                 from: nat, to: nat, s: Span, x: int)
    requires Claims(m, standalone, inherited, report, proof)
    requires s in CutSpans(m.spans, from, to) && s.startLine <= x <= s.endLine
    ensures Covers(standalone, x)
  {
    assert forall o :: o in m.spans ==> SpanWellFormed(o);
    CutWithin(m.spans, from, to, s);
    var o :| o in m.spans && SpanWithin(s, o);
    var i :| 0 <= i < |m.spans| && m.spans[i] == o;
    assert standalone[i] in standalone;
  }

  lemma CutShowsWithin(m: Manifest, standalone: seq<Interval>, inherited: seq<Interval>, report: nat, proof: nat,
                       from: nat, to: nat, k: Key, c: int)
    requires Claims(m, standalone, inherited, report, proof)
    requires Shows(SpanFragments(CutSpans(m.spans, from, to)), k, c)
    ensures Covers(standalone, k.line)
  {
    var spans := CutSpans(m.spans, from, to);
    hide Claims, CutSpans, Covers;
    ShowsMeans(spans, k, c);
    var s :| s in spans && s.startLine == s.endLine && s.lineLength > 0 && FragmentShows(AsFragment(s), k, c);
    CutLines(m, standalone, inherited, report, proof, from, to, s, k.line);
  }

  lemma CutWholeWithin(m: Manifest, standalone: seq<Interval>, inherited: seq<Interval>, report: nat, proof: nat,
                       from: nat, to: nat, x: int)
    requires Claims(m, standalone, inherited, report, proof)
    requires Covers(WholeRanges(CutSpans(m.spans, from, to)), x)
    ensures Covers(standalone, x)
  {
    var spans := CutSpans(m.spans, from, to);
    var r :| r in WholeRanges(spans) && r.lo <= x < r.hi;
    var s :| s in spans && WholeLines(s) && r == Interval(s.startLine, s.endLine + 1);
    hide Claims, CutSpans, Covers;
    CutLines(m, standalone, inherited, report, proof, from, to, s, x);
  }

  /** The result's earlier lease of the version, if any, is within the claims. */
  ghost predicate EarlierWithin(prev: Option<Lease>, cut: Manifest, standalone: seq<Interval>, inherited: seq<Interval>) {
    Extends(prev, cut) ==> Within(standalone, inherited, prev.value)
  }

  lemma FragmentsWithin(m: Manifest, standalone: seq<Interval>, inherited: seq<Interval>, report: nat, proof: nat,
                        from: nat, to: nat, prev: Option<Lease>, cut: Manifest, k: Key, c: int)
    requires Claims(m, standalone, inherited, report, proof) && Slice(m, from, to) == Some(cut)
    requires EarlierWithin(prev, cut, standalone, inherited) && Shows(AllFragments(prev, cut), k, c)
    ensures Covers(standalone, k.line)
  {
    var earlier := if Extends(prev, cut) then prev.value.fragments else [];
    assert Shows(earlier, k, c) ==> Covers(standalone, k.line);
    assert cut.spans == CutSpans(m.spans, from, to);
    assert AllFragments(prev, cut) == earlier + SpanFragments(cut.spans);
    hide *;
    ShowsConcat(earlier, SpanFragments(cut.spans), k, c);
    if !Shows(earlier, k, c) {
      CutShowsWithin(m, standalone, inherited, report, proof, from, to, k, c);
    }
  }

  lemma StandaloneWithin(m: Manifest, standalone: seq<Interval>, inherited: seq<Interval>, report: nat, proof: nat,
                         from: nat, to: nat, prev: Option<Lease>, cut: Manifest, x: int)
    requires Claims(m, standalone, inherited, report, proof) && Slice(m, from, to) == Some(cut)
    requires EarlierWithin(prev, cut, standalone, inherited)
    ensures OneBased(Apply(prev, cut).standalone)
    ensures Covers(Apply(prev, cut).standalone, x) ==> Covers(standalone, x)
  {
    var fs := AllFragments(prev, cut);
    assert OneBased(EarlierRanges(prev, cut));
    assert Covers(EarlierRanges(prev, cut), x) ==> Covers(standalone, x);
    assert cut.spans == CutSpans(m.spans, from, to) && !cut.completeFile;
    ApplyStandalone(prev, cut, x);
    NoWholeFile(x, cut.totalLines);
    hide Claims, Slice, EarlierWithin, Covers, Apply, AllFragments, EarlierRanges, WholeRanges, CompletedLines, WholeFile,
      CutSpans, Shows;
    if Covers(WholeRanges(cut.spans), x) {
      CutWholeWithin(m, standalone, inherited, report, proof, from, to, x);
    }
    if x in CompletedLines(fs) {
      CompletedIff(fs, x);
      var n :| WhollyShown(fs, Key(x, n));
      assert Shows(fs, Key(x, n), 0);
      FragmentsWithin(m, standalone, inherited, report, proof, from, to, prev, cut, Key(x, n), 0);
    }
  }

  lemma InheritedWithin(m: Manifest, standalone: seq<Interval>, inherited: seq<Interval>, report: nat, proof: nat,
                        from: nat, to: nat, prev: Option<Lease>, cut: Manifest, x: int)
    requires Claims(m, standalone, inherited, report, proof) && Slice(m, from, to) == Some(cut)
    requires EarlierWithin(prev, cut, standalone, inherited)
    ensures OneBased(Apply(prev, cut).inherited) && !Apply(prev, cut).completeFile
    ensures Covers(Apply(prev, cut).inherited, x) ==> Covers(inherited, x)
  {
    var earlier := if Extends(prev, cut) then prev.value.inherited else [];
    assert OneBased(cut.inherited) && OneBased(earlier) && OneBased(cut.inherited + earlier);
    assert Covers(earlier, x) ==> Covers(inherited, x);
    assert Covers(cut.inherited, x) ==> Covers(inherited, x);
    assert Apply(prev, cut).inherited == MergeLines(cut.inherited + earlier);
    assert !Apply(prev, cut).completeFile;
    hide *;
    MergeLinesFacts(cut.inherited + earlier);
    CoversConcat(cut.inherited, earlier, x);
  }

  lemma AppliedWithin(m: Manifest, standalone: seq<Interval>, inherited: seq<Interval>, report: nat, proof: nat,
                      from: nat, to: nat, prev: Option<Lease>, cut: Manifest)
    requires Claims(m, standalone, inherited, report, proof) && Slice(m, from, to) == Some(cut)
    requires EarlierWithin(prev, cut, standalone, inherited)
    ensures Within(standalone, inherited, Apply(prev, cut))
  {
    hide Claims, Slice, EarlierWithin, Covers, Apply, Shows, OneBased, AllFragments;
    forall x
      ensures OneBased(Apply(prev, cut).standalone) && OneBased(Apply(prev, cut).inherited)
      ensures !Apply(prev, cut).completeFile
      ensures Covers(Apply(prev, cut).standalone, x) ==> Covers(standalone, x)
      ensures Covers(Apply(prev, cut).inherited, x) ==> Covers(inherited, x)
    {
      StandaloneWithin(m, standalone, inherited, report, proof, from, to, prev, cut, x);
      InheritedWithin(m, standalone, inherited, report, proof, from, to, prev, cut, x);
    }
    StandaloneWithin(m, standalone, inherited, report, proof, from, to, prev, cut, 0);
    InheritedWithin(m, standalone, inherited, report, proof, from, to, prev, cut, 0);
    forall k, c | Shows(Apply(prev, cut).fragments, k, c)
      ensures Covers(standalone, k.line)
    {
      AppliedShows(prev, cut, k, c);
      FragmentsWithin(m, standalone, inherited, report, proof, from, to, prev, cut, k, c);
    }
  }

  /** Every result for the new version is the result of the edit. */
  ghost predicate OnlyEdit(v: Version, m: Manifest, start: Leases, pages: seq<Page>) {
    && m.fileKey == v.fileKey != "" && m.digest == v.digest != ""
    && (forall rid :: !Had(v, start, rid))
    && (forall p :: p in pages && PageOf(v, p) ==> p.manifest == m)
  }

  lemma DeliverOneWithin(v: Version, m: Manifest, standalone: seq<Interval>, inherited: seq<Interval>, report: nat,
                         proof: nat, before: Leases, p: Page)
    requires Claims(m, standalone, inherited, report, proof) && AllWithin(v, standalone, inherited, before)
    requires PageOf(v, p) ==> p.manifest == m
    ensures AllWithin(v, standalone, inherited, DeliverOne(before, p))
  {
    if Proof(p).Some? {
      var cut, prev := Proof(p).value, Held(before, p.rid);
      assert Slice(p.manifest, p.from, p.to) == Some(cut);
      assert cut.fileKey == p.manifest.fileKey && cut.digest == p.manifest.digest;
      if PageOf(v, p) {
        assert EarlierWithin(prev, cut, standalone, inherited);
        hide Within, Apply, Slice;
        AppliedWithin(m, standalone, inherited, report, proof, p.from, p.to, prev, cut);
      }
    }
    hide Within, Slice;
  }

  lemma {:induction false} DeliveredWithin(v: Version, m: Manifest, standalone: seq<Interval>, inherited: seq<Interval>,
                                           report: nat, proof: nat, start: Leases, pages: seq<Page>)
    requires Claims(m, standalone, inherited, report, proof) && OnlyEdit(v, m, start, pages)
    ensures AllWithin(v, standalone, inherited, Deliver(start, pages))
    decreases |pages|
  {
    hide Claims, Within, DeliverOne;
    if pages != [] {
      var front, p := pages[..|pages| - 1], pages[|pages| - 1];
      assert pages == front + [p] && p in pages;
      DeliveredWithin(v, m, standalone, inherited, report, proof, start, front);
      hide AllWithin, OnlyEdit;
      DeliverOneWithin(v, m, standalone, inherited, report, proof, Deliver(start, front), p);
    }
  }

  lemma WithinCovers(v: Version, standalone: seq<Interval>, inherited: seq<Interval>, leases: Leases,
                     visible: Option<set<string>>, line: int)
    requires AllWithin(v, standalone, inherited, leases)
    requires GrantCovers(leases, visible, v.fileKey, v.digest, line)
    ensures Covers(standalone, line) || Covers(inherited, line)
  {
    if rid :| Selected(leases, visible, v.fileKey, v.digest, rid) && LeaseCovers(leases, visible, leases[rid], line) {
      assert Had(v, leases, rid);
      NoWholeFile(line, leases[rid].totalLines);
    } else {
      var n :| GrantWholly(leases, visible, v.fileKey, v.digest, Key(line, n));
      assert GrantShows(leases, visible, v.fileKey, v.digest, Key(line, n), 0);
      var rid :| Selected(leases, visible, v.fileKey, v.digest, rid) && Shows(leases[rid].fragments, Key(line, n), 0);
      assert Had(v, leases, rid);
    }
  }

  // ----- a delivery that shows the whole patch

  /** The page shows the whole proof, is visible, and its result is not used for another version. */
  ghost predicate WholeEdit(v: Version, m: Manifest, pages: seq<Page>, visible: Option<set<string>>, p: Page) {
    && p in pages && p.manifest == m && p.from == 0 && p.to >= ProofEnd(m.spans) && Visible(visible, p.rid)
    && (forall q :: q in pages && q.rid == p.rid ==> PageOf(v, q))
  }

  lemma WholeCut(m: Manifest, standalone: seq<Interval>, inherited: seq<Interval>, report: nat, proof: nat, to: nat, x: int)
    requires Claims(m, standalone, inherited, report, proof) && to >= ProofEnd(m.spans) && Covers(standalone, x)
    ensures Slice(m, 0, to).Some? && Covers(WholeRanges(Slice(m, 0, to).value.spans), x)
  {
    assert forall o :: o in m.spans ==> SpanWellFormed(o);
    CutAll(m.spans, to);
    assert Covers(WholeRanges(m.spans), x) by {
      WholeClaim(m, standalone, inherited, report, proof, x);
    }
    assert WholeRanges([]) == [];
    hide Claims, Covers, WholeRanges, CutSpans, ProofEnd, SpanWellFormed;
    CoversNone(x);
  }

  lemma WholeClaim(m: Manifest, standalone: seq<Interval>, inherited: seq<Interval>, report: nat, proof: nat, x: int)
    requires Claims(m, standalone, inherited, report, proof) && Covers(standalone, x)
    ensures Covers(WholeRanges(m.spans), x)
  {
    var r :| r in standalone && r.lo <= x < r.hi;
    var i :| 0 <= i < |standalone| && standalone[i] == r;
    var s := m.spans[i];
    assert s in m.spans && WholeLines(s) && r == Interval(s.startLine, s.endLine + 1);
    assert r in WholeRanges(m.spans);
  }

  /** The result holds a lease of the version that covers the line. */
  ghost predicate Holds(v: Version, leases: Leases, rid: string, x: int) {
    Had(v, leases, rid) && OneBased(leases[rid].standalone) && Covers(leases[rid].standalone, x)
  }

  lemma HoldsNow(v: Version, m: Manifest, standalone: seq<Interval>, inherited: seq<Interval>, report: nat, proof: nat,
                 before: Leases, p: Page, x: int)
    requires Claims(m, standalone, inherited, report, proof) && AllWithin(v, standalone, inherited, before)
    requires m.fileKey == v.fileKey != "" && m.digest == v.digest != ""
    requires p.manifest == m && p.from == 0 && p.to >= ProofEnd(m.spans) && Covers(standalone, x)
    ensures Holds(v, DeliverOne(before, p), p.rid, x)
  {
    var prev := Held(before, p.rid);
    hide Claims, Covers, Within, AppliedCovers, OneBased, CutSpans, MergeLines, CompletedLines, MergedFragments, WholeRanges,
      SpanFragments, LineRanges, ProofEnd;
    WholeCut(m, standalone, inherited, report, proof, p.to, x);
    var cut := Slice(m, 0, p.to).value;
    var lease := Apply(prev, cut);
    assert DeliverOne(before, p) == before[p.rid := lease] && LeaseOf(v, lease);
    assert cut.fileKey == v.fileKey && cut.digest == v.digest;
    hide *;
    EarlierOneBased(v, standalone, inherited, before, p.rid, cut);
    ApplyStandalone(prev, cut, x);
    HoldsUpdated(v, before, p.rid, lease, prev, cut, x);
  }

  lemma EarlierOneBased(v: Version, standalone: seq<Interval>, inherited: seq<Interval>, before: Leases, rid: string,
                        cut: Manifest)
    requires AllWithin(v, standalone, inherited, before) && cut.fileKey == v.fileKey && cut.digest == v.digest
    ensures OneBased(EarlierRanges(Held(before, rid), cut))
  {
  }

  lemma HoldsUpdated(v: Version, before: Leases, rid: string, lease: Lease, prev: Option<Lease>, cut: Manifest, x: int)
    requires LeaseOf(v, lease) && OneBased(lease.standalone)
    requires Covers(lease.standalone, x) <==> AppliedCovers(prev, cut, x)
    requires Covers(EarlierRanges(prev, cut), x) || Covers(WholeRanges(cut.spans), x)
    ensures Holds(v, before[rid := lease], rid, x)
  {
  }

  lemma HoldsStill(v: Version, before: Leases, q: Page, rid: string, x: int)
    requires Holds(v, before, rid, x) && (q.rid == rid ==> PageOf(v, q))
    ensures Holds(v, DeliverOne(before, q), rid, x)
  {
    if q.rid == rid && Proof(q).Some? {
      var cut, prev := Proof(q).value, Held(before, rid);
      var lease := Apply(prev, cut);
      assert EarlierRanges(prev, cut) == before[rid].standalone;
      assert DeliverOne(before, q) == before[rid := lease] && LeaseOf(v, lease);
      assert OneBased(before[rid].standalone) && Covers(before[rid].standalone, x);
      hide *;
      ApplyStandalone(prev, cut, x);
      HoldsUpdated(v, before, rid, lease, prev, cut, x);
    }
  }

  lemma {:induction false} WholeEditHolds(v: Version, m: Manifest, standalone: seq<Interval>, inherited: seq<Interval>,
                                          report: nat, proof: nat, start: Leases, pages: seq<Page>,
                                          visible: Option<set<string>>, p: Page, x: int)
    requires Claims(m, standalone, inherited, report, proof) && OnlyEdit(v, m, start, pages)
    requires WholeEdit(v, m, pages, visible, p) && Covers(standalone, x)
    ensures Holds(v, Deliver(start, pages), p.rid, x)
    decreases |pages|
  {
    hide Claims, DeliverOne, Holds, Covers;
    var front, q := pages[..|pages| - 1], pages[|pages| - 1];
    assert pages == front + [q] && q in pages;
    assert OnlyEdit(v, m, start, front);
    if p in front {
      WholeEditHolds(v, m, standalone, inherited, report, proof, start, front, visible, p, x);
      HoldsStill(v, Deliver(start, front), q, p.rid, x);
    } else {
      DeliveredWithin(v, m, standalone, inherited, report, proof, start, front);
      HoldsNow(v, m, standalone, inherited, report, proof, Deliver(start, front), q, x);
    }
  }

  // ----- what is inherited stays

  /** Leases of the new version come from the edit alone. */
  ghost predicate Family(v: Version, m: Manifest, leases: Leases) {
    forall rid :: Had(v, leases, rid) ==> leases[rid].parents <= ParentSet(m) && OneBased(leases[rid].inherited)
  }

  /** The result passes the line on from the version the edit was made from. */
  ghost predicate Heir(v: Version, m: Manifest, leases: Leases, rid: string, x: int) {
    && Had(v, leases, rid) && OneBased(leases[rid].inherited) && Covers(leases[rid].inherited, x)
    && leases[rid].parents == ParentSet(m) && leases[rid].beforeDigest == m.beforeDigest
  }

  lemma AppliedInherited(prev: Option<Lease>, cut: Manifest, x: int)
    requires OneBased(cut.inherited) && (Extends(prev, cut) ==> OneBased(prev.value.inherited))
    ensures OneBased(Apply(prev, cut).inherited)
    ensures Covers(Apply(prev, cut).inherited, x) <==>
      Covers(cut.inherited, x) || (Extends(prev, cut) && Covers(prev.value.inherited, x))
  {
    var earlier := if Extends(prev, cut) then prev.value.inherited else [];
    assert OneBased(cut.inherited + earlier);
    assert Apply(prev, cut).inherited == MergeLines(cut.inherited + earlier);
    CoversNone(x);
    hide Apply, MergeLines, OneBased, Covers;
    MergeLinesFacts(cut.inherited + earlier);
    CoversConcat(cut.inherited, earlier, x);
  }

  lemma AppliedFields(prev: Option<Lease>, cut: Manifest)
    ensures Apply(prev, cut).fileKey == cut.fileKey && Apply(prev, cut).digest == cut.digest
    ensures Apply(prev, cut).beforeDigest == cut.beforeDigest
    ensures Apply(prev, cut).parents == ParentSet(cut) + if Extends(prev, cut) then prev.value.parents else {}
  {
    hide MergeLines, MergedFragments, CompletedLines, WholeRanges, LineRanges, WholeFile, EarlierRanges, AllFragments;
  }

  lemma DeliveredLease(before: Leases, p: Page, cut: Manifest)
    requires Proof(p) == Some(cut)
    ensures DeliverOne(before, p) == before[p.rid := Apply(Held(before, p.rid), cut)]
    ensures Slice(p.manifest, p.from, p.to) == Some(cut)
  {
    hide Apply, Slice;
  }

  /** The new lease of the version, as the family sees it. */
  lemma FamilyUpdated(v: Version, m: Manifest, before: Leases, rid: string, lease: Lease)
    requires Family(v, m, before)
    requires LeaseOf(v, lease) ==> lease.parents <= ParentSet(m) && OneBased(lease.inherited)
    ensures Family(v, m, before[rid := lease])
  {
    hide OneBased;
  }

  /** A cut keeps the versions; it has the inherited lines and the parents, or neither. */
  lemma CutFields(m: Manifest, from: nat, to: nat, cut: Manifest)
    requires Slice(m, from, to) == Some(cut)
    ensures cut.fileKey == m.fileKey && cut.digest == m.digest && cut.beforeDigest == m.beforeDigest
    ensures (cut.inherited == m.inherited && (m.inherited != [] ==> cut.parents == m.parents))
         || (cut.inherited == [] && cut.parents == [])
    ensures ParentSet(cut) <= ParentSet(m)
    ensures FullProofVisible(m, from, to) ==> cut.inherited == m.inherited
  {
    hide CutSpans;
  }

  lemma DeliverOneFamily(v: Version, m: Manifest, before: Leases, p: Page)
    requires Family(v, m, before) && OneBased(m.inherited) && (PageOf(v, p) ==> p.manifest == m)
    ensures Family(v, m, DeliverOne(before, p))
  {
    hide Slice, Apply, OneBased, Proof;
    if Proof(p).Some? {
      var cut, prev := Proof(p).value, Held(before, p.rid);
      DeliveredLease(before, p, cut);
      CutFields(p.manifest, p.from, p.to, cut);
      AppliedFields(prev, cut);
      if PageOf(v, p) {
        EarlierInherited(v, m, before, p.rid, cut);
        AppliedInherited(prev, cut, 0);
      }
      hide DeliverOne, Family;
      FamilyUpdated(v, m, before, p.rid, Apply(prev, cut));
    }
  }

  lemma EarlierInherited(v: Version, m: Manifest, before: Leases, rid: string, cut: Manifest)
    requires Family(v, m, before) && cut.fileKey == v.fileKey && cut.digest == v.digest
    requires OneBased(m.inherited) && (cut.inherited == m.inherited || cut.inherited == [])
    ensures OneBased(cut.inherited)
    ensures Extends(Held(before, rid), cut) ==>
      OneBased(Held(before, rid).value.inherited) && Held(before, rid).value.parents <= ParentSet(m)
  {
  }

  lemma {:induction false} DeliveredFamily(v: Version, m: Manifest, start: Leases, pages: seq<Page>)
    requires OneBased(m.inherited) && OnlyEdit(v, m, start, pages)
    ensures Family(v, m, Deliver(start, pages))
    decreases |pages|
  {
    hide DeliverOne, OneBased;
    if pages != [] {
      var front, p := pages[..|pages| - 1], pages[|pages| - 1];
      assert pages == front + [p] && p in pages;
      DeliveredFamily(v, m, start, front);
      hide Family, OnlyEdit;
      DeliverOneFamily(v, m, Deliver(start, front), p);
    }
  }

  lemma HeirNow(v: Version, m: Manifest, before: Leases, p: Page, x: int)
    requires Family(v, m, before) && OneBased(m.inherited) && Covers(m.inherited, x)
    requires m.fileKey == v.fileKey != "" && m.digest == v.digest != ""
    requires p.manifest == m && p.from == 0 && p.to >= ProofEnd(m.spans)
    ensures Heir(v, m, DeliverOne(before, p), p.rid, x)
  {
    hide Slice, Apply, Proof, DeliverOne, Family, Covers, OneBased, ProofEnd, FullProofVisible, Heir;
    var cut := WholeProof(m, p, x);
    var prev := Held(before, p.rid);
    DeliveredLease(before, p, cut);
    CutFields(m, 0, p.to, cut);
    AppliedFields(prev, cut);
    EarlierInherited(v, m, before, p.rid, cut);
    AppliedInherited(prev, cut, x);
    HeirUpdated(v, m, before, p.rid, Apply(prev, cut), x);
  }

  /** A page that shows the whole proof brings what is inherited. */
  lemma WholeProof(m: Manifest, p: Page, x: int) returns (cut: Manifest)
    requires Covers(m.inherited, x) && m.fileKey != "" && m.digest != ""
    requires p.manifest == m && p.from == 0 && p.to >= ProofEnd(m.spans)
    ensures Proof(p) == Some(cut) && Slice(m, 0, p.to) == Some(cut)
    ensures FullProofVisible(m, 0, p.to) && m.inherited != []
  {
    hide CutSpans, ProofEnd;
    cut := Slice(m, 0, p.to).value;
  }

  lemma HeirUpdated(v: Version, m: Manifest, before: Leases, rid: string, lease: Lease, x: int)
    requires LeaseOf(v, lease) && OneBased(lease.inherited) && Covers(lease.inherited, x)
    requires lease.parents == ParentSet(m) && lease.beforeDigest == m.beforeDigest
    ensures Heir(v, m, before[rid := lease], rid, x)
  {
    hide OneBased, Covers;
  }

  lemma HeirStill(v: Version, m: Manifest, before: Leases, q: Page, rid: string, x: int)
    requires Heir(v, m, before, rid, x) && OneBased(m.inherited) && (q.rid == rid ==> PageOf(v, q) && q.manifest == m)
    ensures Heir(v, m, DeliverOne(before, q), rid, x)
  {
    if q.rid == rid && Proof(q).Some? {
      var cut, prev := Proof(q).value, Held(before, rid);
      DeliveredLease(before, q, cut);
      hide Slice, Apply, Proof, DeliverOne;
      CutFields(m, q.from, q.to, cut);
      AppliedFields(prev, cut);
      AppliedInherited(prev, cut, x);
      HeirUpdated(v, m, before, rid, Apply(prev, cut), x);
    }
  }

  lemma {:induction false} WholeEditCarries(v: Version, m: Manifest, start: Leases, pages: seq<Page>,
                                            visible: Option<set<string>>, p: Page, x: int)
    requires OneBased(m.inherited) && OnlyEdit(v, m, start, pages)
    requires WholeEdit(v, m, pages, visible, p) && Covers(m.inherited, x)
    ensures Heir(v, m, Deliver(start, pages), p.rid, x)
    decreases |pages|
  {
    hide DeliverOne, Heir, Covers, OneBased;
    var front, q := pages[..|pages| - 1], pages[|pages| - 1];
    assert pages == front + [q] && q in pages;
    assert OnlyEdit(v, m, start, front);
    if p in front {
      WholeEditCarries(v, m, start, front, visible, p, x);
      HeirStill(v, m, Deliver(start, front), q, p.rid, x);
    } else {
      DeliveredFamily(v, m, start, front);
      HeirNow(v, m, Deliver(start, front), q, x);
    }
  }

  /** The results the edit was planned on are still there for the same versions, and visible. */
  ghost predicate ParentsRemain(c: Change, pages: seq<Page>, visible: Option<set<string>>) {
    && (forall r :: r in c.grant.results ==> Visible(visible, r))
    && (forall p :: p in pages && p.rid in c.grant.results ==> SameFile(c.leases, p))
  }

  lemma ResultsAreHeld(c: Change, r: string)
    requires GrantIs(c.leases, c.visible, c.fileKey, c.grant) && r in c.grant.results
    ensures r in c.leases && c.leases[r].fileKey == c.fileKey
  {
    assert Contributes(c.leases, c.visible, c.fileKey, c.grant.digest, r);
  }

  lemma SomeResultSelected(c: Change, n: int) returns (r: string)
    requires GrantIs(c.leases, c.visible, c.fileKey, c.grant) && WasCovered(c, n)
    ensures r in c.grant.results && r in c.leases && c.leases[r].digest == c.grant.digest
  {
    if rid :| Selected(c.leases, c.visible, c.fileKey, c.grant.digest, rid)
              && LeaseCovers(c.leases, c.visible, c.leases[rid], n) {
      r := rid;
    } else {
      var k :| GrantWholly(c.leases, c.visible, c.fileKey, c.grant.digest, Key(n, k));
      assert GrantShows(c.leases, c.visible, c.fileKey, c.grant.digest, Key(n, k), 0);
      r :| Selected(c.leases, c.visible, c.fileKey, c.grant.digest, r);
    }
    assert ContributesBy(c.leases, c.visible, r, r);
    assert Contributes(c.leases, c.visible, c.fileKey, c.grant.digest, r);
  }

  lemma ParentsStillHold(c: Change, n: int, pages: seq<Page>, visible: Option<set<string>>, lease: Lease)
    requires GrantIs(c.leases, c.visible, c.fileKey, c.grant) && WasCovered(c, n) && ParentsRemain(c, pages, visible)
    requires lease.parents == c.grant.results && lease.fileKey == c.fileKey && lease.beforeDigest == c.grant.digest
    ensures ParentsHold(Deliver(c.leases, pages), visible, lease)
  {
    hide GrantIs, WasCovered, Deliver, ParentsRemain;
    var now := Deliver(c.leases, pages);
    var one := SomeResultSelected(c, n);
    forall r | r in lease.parents
      ensures r in now && now[r].fileKey == lease.fileKey && Visible(visible, r)
      ensures r in c.leases && now[r].digest == c.leases[r].digest
    {
      ResultsAreHeld(c, r);
      ResultRemains(c, pages, visible, r);
    }
    assert one in lease.parents && now[one].digest == lease.beforeDigest;
  }

  lemma ResultRemains(c: Change, pages: seq<Page>, visible: Option<set<string>>, r: string)
    requires ParentsRemain(c, pages, visible) && r in c.grant.results && r in c.leases
    ensures r in Deliver(c.leases, pages) && Visible(visible, r)
    ensures Deliver(c.leases, pages)[r].fileKey == c.leases[r].fileKey
    ensures Deliver(c.leases, pages)[r].digest == c.leases[r].digest
  {
    hide Deliver, SameFile;
    assert forall p :: p in pages && p.rid == r ==> SameFile(c.leases, p);
    VersionKept(c.leases, pages, r);
  }

  /** Once the whole patch was shown, every line that a covered line moved to may be edited in the new version, as long
      as the results that covered it stay visible. */
  lemma EditCarriesAuthority(c: Change, standalone: seq<Interval>, inherited: seq<Interval>, report: nat, proof: nat,
                             v: Version, m: Manifest, pages: seq<Page>, visible: Option<set<string>>, p: Page, n: nat)
    requires Made(c) && Credits(c, standalone, inherited) && Claims(m, standalone, inherited, report, proof)
    requires Descends(c, m) && OnlyEdit(v, m, c.leases, pages) && WholeEdit(v, m, pages, visible, p)
    requires ParentsRemain(c, pages, visible)
    requires 1 <= n <= NumLines(c.pre) && WasCovered(c, n) && !Affected(c.pre, c.patches, n)
    ensures GrantCovers(Deliver(c.leases, pages), visible, v.fileKey, v.digest, NewLine(c.pre, c.patches, n))
  {
    var now, line := Deliver(c.leases, pages), NewLine(c.pre, c.patches, n);
    assert GrantIs(c.leases, c.visible, c.fileKey, c.grant) && m.inherited == inherited && OneBased(inherited);
    assert Descends(c, m) ==> ParentSet(m) == c.grant.results && m.beforeDigest == c.grant.digest && m.fileKey == c.fileKey;
    assert OnlyEdit(v, m, c.leases, pages) ==> m.fileKey == v.fileKey;
    hide *;
    MadeIsPlaced(c);
    MovedIsCredited(c, standalone, inherited, n);
    WholeEditCarries(v, m, c.leases, pages, visible, p, line);
    HeirFields(v, m, now, p.rid, line);
    ParentsStillHold(c, n, pages, visible, now[p.rid]);
    WholeIsVisible(v, m, pages, visible, p);
    HeirIsGranted(v, m, now, visible, p.rid, line);
  }

  lemma HeirFields(v: Version, m: Manifest, leases: Leases, rid: string, x: int)
    requires Heir(v, m, leases, rid, x)
    ensures rid in leases && leases[rid].fileKey == v.fileKey
    ensures leases[rid].parents == ParentSet(m) && leases[rid].beforeDigest == m.beforeDigest
  {
  }

  lemma HeirIsGranted(v: Version, m: Manifest, leases: Leases, visible: Option<set<string>>, rid: string, line: int)
    requires Heir(v, m, leases, rid, line) && Visible(visible, rid) && ParentsHold(leases, visible, leases[rid])
    ensures GrantCovers(leases, visible, v.fileKey, v.digest, line)
  {
    assert Selected(leases, visible, v.fileKey, v.digest, rid) && LeaseCovers(leases, visible, leases[rid], line);
  }

  lemma MovedIsCredited(c: Change, standalone: seq<Interval>, inherited: seq<Interval>, n: nat)
    requires Made(c) && Credits(c, standalone, inherited)
    requires 1 <= n <= NumLines(c.pre) && WasCovered(c, n) && !Affected(c.pre, c.patches, n)
    ensures Covers(inherited, NewLine(c.pre, c.patches, n))
  {
    MadeIsPlaced(c);
    hide Made, WasCovered, Affected, NewText, Placed, NewLine, NumLines, MergeLines, Readable, Standalone, SplitLines, Chomp;
    ReadableIff(c, n);
    InheritedLineText(c.pre, c.patches, n);
    assert Carried(c.pre, c.patches, Readable(c.pre, StateOf(c.grant)), n);
    assert Inherited(c.pre, c.patches, Readable(c.pre, StateOf(c.grant)), NewLine(c.pre, c.patches, n));
  }

  /** Some line that could be edited, and that no patch touched, moved there. */
  ghost predicate MovedHere(c: Change, line: int)
    requires Placed(c.pre, c.patches, 0)
  {
    exists n :: 1 <= n <= NumLines(c.pre) && WasCovered(c, n) && !Affected(c.pre, c.patches, n)
                && NewLine(c.pre, c.patches, n) == line
  }

  /** So the lines of the new version that may be edited are exactly those around the patches and those that covered
      lines moved to. */
  lemma EditCoversExactly(c: Change, standalone: seq<Interval>, inherited: seq<Interval>, report: nat, proof: nat,
                          v: Version, m: Manifest, pages: seq<Page>, visible: Option<set<string>>, p: Page, line: nat)
    requires Made(c) && Credits(c, standalone, inherited) && Claims(m, standalone, inherited, report, proof)
    requires Descends(c, m) && OnlyEdit(v, m, c.leases, pages) && WholeEdit(v, m, pages, visible, p)
    requires ParentsRemain(c, pages, visible) && 1 <= line <= NumLines(NewText(c.pre, c.patches))
    ensures GrantCovers(Deliver(c.leases, pages), visible, v.fileKey, v.digest, line) <==>
      Standalone(c.pre, c.patches, line) || MovedHere(c, line)
  {
    var now := Deliver(c.leases, pages);
    MadeIsPlaced(c);
    assert Credits(c, standalone, inherited) ==> (Covers(standalone, line) <==> Standalone(c.pre, c.patches, line));
    hide Made, Credits, Claims, Descends, OnlyEdit, WholeEdit, ParentsRemain, Placed, NewText, NumLines, WasCovered, Affected,
      NewLine, Standalone, Deliver, GrantCovers, Covers;
    if GrantCovers(now, visible, v.fileKey, v.digest, line) {
      DeliveredWithin(v, m, standalone, inherited, report, proof, c.leases, pages);
      WithinCovers(v, standalone, inherited, now, visible, line);
      if Covers(inherited, line) {
        CreditMoved(c, standalone, inherited, line);
      }
    }
    if Standalone(c.pre, c.patches, line) {
      WholeEditHolds(v, m, standalone, inherited, report, proof, c.leases, pages, visible, p, line);
      WholeIsVisible(v, m, pages, visible, p);
      HoldsIsGranted(v, now, visible, p.rid, line);
    }
    if MovedHere(c, line) {
      var n :| 1 <= n <= NumLines(c.pre) && WasCovered(c, n) && !Affected(c.pre, c.patches, n)
               && NewLine(c.pre, c.patches, n) == line;
      EditCarriesAuthority(c, standalone, inherited, report, proof, v, m, pages, visible, p, n);
    }
  }

  lemma CreditMoved(c: Change, standalone: seq<Interval>, inherited: seq<Interval>, line: nat)
    requires Made(c) && Credits(c, standalone, inherited)
    requires 1 <= line <= NumLines(NewText(c.pre, c.patches)) && Covers(inherited, line)
    ensures MovedHere(c, line)
  {
    MadeIsPlaced(c);
    hide Made, WasCovered, Affected, NewText, Placed, NewLine, NumLines, MergeLines, Readable, Standalone;
    assert Inherited(c.pre, c.patches, Readable(c.pre, StateOf(c.grant)), line);
    var n :| Carried(c.pre, c.patches, Readable(c.pre, StateOf(c.grant)), n) && NewLine(c.pre, c.patches, n) == line;
    ReadableIff(c, n);
  }

  // ----- the theorem

  /** Every line of the new text that may be edited now shows only replacement text and what could be edited before. */
  ghost predicate NothingLeaks(c: Change, v: Version, leases: Leases, visible: Option<set<string>>)
    requires Placed(c.pre, c.patches, 0)
  {
    forall m :: 1 <= m <= NumLines(NewText(c.pre, c.patches)) && GrantCovers(leases, visible, v.fileKey, v.digest, m) ==>
      LineKnown(c, m)
  }

  lemma CreditIsKnown(c: Change, standalone: seq<Interval>, inherited: seq<Interval>, m: int)
    requires Made(c) && Credits(c, standalone, inherited) && EdgesKnown(c)
    requires 1 <= m <= NumLines(NewText(c.pre, c.patches)) && (Covers(standalone, m) || Covers(inherited, m))
    ensures LineKnown(c, m)
  {
    MadeIsPlaced(c);
    hide Made, EdgesKnown, Placed, NewText, NumLines, CharKnown, Inherited, Standalone, Readable;
    if Covers(inherited, m) {
      InheritedIsKnown(c, m);
    } else {
      forall x: nat | x < |NewText(c.pre, c.patches)| && LineAt(NewText(c.pre, c.patches), x) == m
        ensures CharKnown(c, x)
      {
        StandaloneIsKnown(c, x);
      }
    }
  }

  /** However the result of an edit is cut and delivered: when the lines before leaky edges had been covered,
      nothing leaks into the new version. */
  lemma EditKeepsAuthority(c: Change, standalone: seq<Interval>, inherited: seq<Interval>, report: nat, proof: nat,
                           v: Version, m: Manifest, start: Leases, pages: seq<Page>, visible: Option<set<string>>)
    requires Made(c) && Credits(c, standalone, inherited) && Claims(m, standalone, inherited, report, proof)
    requires OnlyEdit(v, m, start, pages) && EdgesKnown(c)
    ensures NothingLeaks(c, v, Deliver(start, pages), visible)
  {
    DeliveredWithin(v, m, standalone, inherited, report, proof, start, pages);
    MadeIsPlaced(c);
    hide Made, Credits, Claims, OnlyEdit, EdgesKnown, Placed, NumLines, LineKnown, GrantCovers, Deliver, AllWithin;
    forall line | 1 <= line <= NumLines(NewText(c.pre, c.patches))
        && GrantCovers(Deliver(start, pages), visible, v.fileKey, v.digest, line)
      ensures LineKnown(c, line)
    {
      WithinCovers(v, standalone, inherited, Deliver(start, pages), visible, line);
      CreditIsKnown(c, standalone, inherited, line);
    }
  }

  lemma LeakIsCovered(c: Change, standalone: seq<Interval>, inherited: seq<Interval>, report: nat, proof: nat,
                      v: Version, m: Manifest, start: Leases, pages: seq<Page>, visible: Option<set<string>>, p: Page,
                      k: nat)
    requires Made(c) && Credits(c, standalone, inherited) && Claims(m, standalone, inherited, report, proof)
    requires OnlyEdit(v, m, start, pages) && WholeEdit(v, m, pages, visible, p)
    requires NothingLeaks(c, v, Deliver(start, pages), visible)
    requires k < |c.patches| && LeakyEdge(c.pre, c.patches, k)
    ensures WasCovered(c, EdgeLine(c.pre, c.patches, k))
  {
    hide *;
    MadeIsPlaced(c);
    var line := EdgeIsCredited(c, standalone, inherited, k);
    WholeEditHolds(v, m, standalone, inherited, report, proof, start, pages, visible, p, line);
    assert Visible(visible, p.rid) by { WholeIsVisible(v, m, pages, visible, p); }
    HoldsIsGranted(v, Deliver(start, pages), visible, p.rid, line);
    CoveredIsKnown(c, v, Deliver(start, pages), visible, line);
    KnownEdge(c, k);
  }

  /** The text before a leaky edge is on a line of the new text that is credited. */
  lemma EdgeIsCredited(c: Change, standalone: seq<Interval>, inherited: seq<Interval>, k: nat) returns (line: nat)
    requires Placed(c.pre, c.patches, 0) && Credits(c, standalone, inherited)
    requires k < |c.patches| && LeakyEdge(c.pre, c.patches, k)
    ensures 0 < NewStart(c.patches, k) <= |NewText(c.pre, c.patches)|
    ensures line == LineAt(NewText(c.pre, c.patches), NewStart(c.patches, k) - 1)
    ensures 1 <= line <= NumLines(NewText(c.pre, c.patches)) && Covers(standalone, line)
  {
    hide LeakyEdge, Placed, NewText, Standalone, Inherited, Covers, NewStart;
    LeakIsCredited(c.pre, c.patches, k);
    var text := NewText(c.pre, c.patches);
    line := LineAt(text, NewStart(c.patches, k) - 1);
    LineAtSpan(text, NewStart(c.patches, k) - 1, |text| - 1);
  }

  lemma WholeIsVisible(v: Version, m: Manifest, pages: seq<Page>, visible: Option<set<string>>, p: Page)
    requires WholeEdit(v, m, pages, visible, p)
    ensures Visible(visible, p.rid)
  {
  }

  lemma CoveredIsKnown(c: Change, v: Version, leases: Leases, visible: Option<set<string>>, line: int)
    requires Placed(c.pre, c.patches, 0) && NothingLeaks(c, v, leases, visible)
    requires 1 <= line <= NumLines(NewText(c.pre, c.patches)) && GrantCovers(leases, visible, v.fileKey, v.digest, line)
    ensures LineKnown(c, line)
  {
    hide Placed, LineKnown, GrantCovers, NumLines;
  }

  lemma HoldsIsGranted(v: Version, leases: Leases, visible: Option<set<string>>, rid: string, line: int)
    requires Holds(v, leases, rid, line) && Visible(visible, rid)
    ensures GrantCovers(leases, visible, v.fileKey, v.digest, line)
  {
    assert Selected(leases, visible, v.fileKey, v.digest, rid) && LeaseCovers(leases, visible, leases[rid], line);
  }

  /** Once the whole patch was shown, nothing leaks exactly when the line before every leaky edge had been covered. */
  lemma EditKeepsAuthorityIff(c: Change, standalone: seq<Interval>, inherited: seq<Interval>, report: nat, proof: nat,
                              v: Version, m: Manifest, start: Leases, pages: seq<Page>, visible: Option<set<string>>,
                              p: Page)
    requires Made(c) && Credits(c, standalone, inherited) && Claims(m, standalone, inherited, report, proof)
    requires OnlyEdit(v, m, start, pages) && WholeEdit(v, m, pages, visible, p)
    ensures NothingLeaks(c, v, Deliver(start, pages), visible) <==> EdgesKnown(c)
  {
    MadeIsPlaced(c);
    hide Made, Credits, Claims, OnlyEdit, WholeEdit, Placed, NothingLeaks, LeakyEdge, WasCovered, Deliver;
    if EdgesKnown(c) {
      EditKeepsAuthority(c, standalone, inherited, report, proof, v, m, start, pages, visible);
    }
    if NothingLeaks(c, v, Deliver(start, pages), visible) {
      forall k | 0 <= k < |c.patches| && LeakyEdge(c.pre, c.patches, k)
        ensures WasCovered(c, EdgeLine(c.pre, c.patches, k))
      {
        LeakIsCovered(c, standalone, inherited, report, proof, v, m, start, pages, visible, p, k);
      }
    }
  }
}
