/** Reading a file version page by page.

    A read result renders each requested line once and its manifest has one span per rendered
    line. However many reads of the version there are, however their results are cut into pages,
    delivered under one or several result ids, in any order and among deliveries for other files,
    a line is credited exactly when it was before or every character of a rendering was delivered.
 */
module Paging {
  import opened Delivery
  import opened FileAuthority
  import opened Prelude
  import opened Ranges

  /** One version of one file. */
  datatype Version = Version(fileKey: string, digest: string)

  /** Offsets `from..to` of the result with that manifest, delivered as result `rid`. */
  datatype Page = Page(manifest: Manifest, rid: string, from: nat, to: nat)

  predicate PageOf(v: Version, p: Page) {
    p.manifest.fileKey == v.fileKey && p.manifest.digest == v.digest
  }

  predicate LeaseOf(v: Version, lease: Lease) {
    lease.fileKey == v.fileKey && lease.digest == v.digest
  }

  /** A read's manifest: one fully visible single-line span per rendered line. */
  predicate ReadManifest(m: Manifest) {
    && m.fileKey != "" && m.digest != "" && !m.emptyFile && !m.completeFile && m.inherited == [] && m.parents == []
    && (forall s :: s in m.spans ==> WholeRendering(s))
  }

  predicate WholeRendering(s: Span) {
    && s.startLine == s.endLine && s.startLine > 0 && s.lineLength > 0
    && s.visibleStart == 0 && s.visibleEnd == s.lineLength
    && s.endOffset == s.startOffset + s.lineLength
  }

  /** The proof that arrives with a page, if any. */
  function Proof(p: Page): Option<Manifest> {
    if p.manifest.fileKey == "" || p.manifest.digest == "" then None else Slice(p.manifest, p.from, p.to)
  }

  function Held(leases: Leases, rid: string): Option<Lease> {
    if rid in leases then Some(leases[rid]) else None
  }

  /** One page; a page with no proof delivers nothing. */
  function DeliverOne(before: Leases, p: Page): Leases {
    if Proof(p).None? then before else before[p.rid := Apply(Held(before, p.rid), Proof(p).value)]
  }

  /** The leases after delivering the pages in order. */
  function Deliver(leases: Leases, pages: seq<Page>): Leases
    decreases |pages|
  {
    if pages == [] then leases
    else DeliverOne(Deliver(leases, pages[..|pages| - 1]), pages[|pages| - 1])
  }

  /** Every lease names its file and the version. */
  predicate Named(leases: Leases) {
    forall rid :: rid in leases ==> leases[rid].fileKey != "" && leases[rid].digest != ""
  }

  /** A delivery that does not name both leaves no lease. */
  lemma {:induction false} NamedOnly(leases: Leases, pages: seq<Page>)
    requires Named(leases)
    ensures Named(Deliver(leases, pages))
    decreases |pages|
  {
    if pages != [] {
      var p := pages[|pages| - 1];
      NamedOnly(leases, pages[..|pages| - 1]);
      var before := Deliver(leases, pages[..|pages| - 1]);
      assert Deliver(leases, pages) == DeliverOne(before, p);
      hide Deliver, DeliverOne;
      NamedStep(before, p);
    }
  }

  lemma NamedStep(before: Leases, p: Page)
    requires Named(before)
    ensures Named(DeliverOne(before, p))
  {
    hide Apply, Proof;
    if Proof(p).Some? {
      ProofNames(p);
      ApplyVersion(Held(before, p.rid), Proof(p).value);
    }
  }

  lemma ProofNames(p: Page)
    requires Proof(p).Some?
    ensures Proof(p).value.fileKey != "" && Proof(p).value.digest != ""
  {
    hide CutSpans;
  }

  /** The page contains character `c` of a rendering of the line. */
  ghost predicate PageShows(p: Page, k: Key, c: int) {
    exists s :: s in p.manifest.spans && Key(s.startLine, s.lineLength) == k && 0 <= c < s.lineLength
                && p.from <= s.startOffset + c < p.to
  }

  /** Some page of result `rid` does, for this version. */
  ghost predicate ResultShows(v: Version, pages: seq<Page>, rid: string, k: Key, c: int) {
    exists p :: p in pages && PageOf(v, p) && p.rid == rid && PageShows(p, k, c)
  }

  lemma {:induction false} CutShows(spans: seq<Span>, from: nat, to: nat, k: Key, c: int)
    requires forall s :: s in spans ==> WholeRendering(s)
    ensures Shows(SpanFragments(CutSpans(spans, from, to)), k, c) <==>
      exists s :: s in spans && Key(s.startLine, s.lineLength) == k && 0 <= c < s.lineLength
                  && from <= s.startOffset + c < to
    decreases |spans|
  {
    if spans != [] {
      assert spans == [spans[0]] + spans[1..];
      assert WholeRendering(spans[0]);
      CutShows(spans[1..], from, to, k, c);
      HeadShows(spans, from, to, k, c);
    }
  }

  lemma HeadShows(spans: seq<Span>, from: nat, to: nat, k: Key, c: int)
    requires spans != [] && WholeRendering(spans[0])
    ensures Shows(SpanFragments(CutSpans(spans, from, to)), k, c) <==>
      || Shows(SpanFragments(CutSpans(spans[1..], from, to)), k, c)
      || (Key(spans[0].startLine, spans[0].lineLength) == k && 0 <= c < spans[0].lineLength
          && from <= spans[0].startOffset + c < to)
  {
  }

  // ----- the leases that paging builds

  /** The result held a lease of the version at the start. */
  predicate Had(v: Version, start: Leases, rid: string) {
    rid in start && LeaseOf(v, start[rid])
  }

  /** Nothing but lines the result itself showed. */
  predicate PlainLease(lease: Lease) {
    lease.parents == {} && !lease.completeFile
  }

  /** Results of the version are read results, and their ids are not used for another version. */
  ghost predicate Orderly(v: Version, start: Leases, pages: seq<Page>) {
    && (forall rid :: Had(v, start, rid) ==> OneBased(start[rid].standalone))
    && (forall p :: p in pages && PageOf(v, p) ==>
          ReadManifest(p.manifest) && (Had(v, start, p.rid) ==> PlainLease(start[p.rid])))
    && (forall p :: p in pages && !PageOf(v, p) ==> !Had(v, start, p.rid))
    && (forall p, q :: p in pages && q in pages && PageOf(v, p) && !PageOf(v, q) ==> p.rid != q.rid)
  }

  ghost predicate ShownAtStart(v: Version, start: Leases, rid: string, k: Key, c: int) {
    Had(v, start, rid) && Shows(start[rid].fragments, k, c)
  }

  ghost predicate CoveredAtStart(v: Version, start: Leases, rid: string, x: int) {
    Had(v, start, rid) && Covers(start[rid].standalone, x)
  }

  /** A lease of the version holds what it held at the start, the characters delivered since, and the
      lines these complete. */
  ghost predicate Built(v: Version, start: Leases, pages: seq<Page>, rid: string, lease: Lease) {
    && LeaseOf(v, lease)
    && ((Had(v, start, rid) && lease == start[rid])
        || (PlainLease(lease) && (Had(v, start, rid) ==> PlainLease(start[rid]))))
    && BuiltFragments(v, start, pages, rid, lease)
    && BuiltRanges(v, start, rid, lease)
  }

  ghost predicate BuiltFragments(v: Version, start: Leases, pages: seq<Page>, rid: string, lease: Lease) {
    forall k, c :: Shows(lease.fragments, k, c) <==>
      ShownAtStart(v, start, rid, k, c) || ResultShows(v, pages, rid, k, c)
  }

  ghost predicate BuiltRanges(v: Version, start: Leases, rid: string, lease: Lease) {
    && OneBased(lease.standalone)
    && (forall x :: CoveredAtStart(v, start, rid, x) ==> Covers(lease.standalone, x))
    && (forall x :: Covers(lease.standalone, x) ==>
          CoveredAtStart(v, start, rid, x) || exists n :: WhollyShown(lease.fragments, Key(x, n)))
  }

  ghost predicate AllBuilt(v: Version, start: Leases, pages: seq<Page>, leases: Leases) {
    && (forall rid :: Had(v, leases, rid) ==> Built(v, start, pages, rid, leases[rid]))
    && (forall rid :: Had(v, start, rid) ==> Had(v, leases, rid))
    && (forall rid, k, c :: ResultShows(v, pages, rid, k, c) ==> Had(v, leases, rid))
  }

  lemma ResultShowsStep(v: Version, pages: seq<Page>, p: Page, rid: string, k: Key, c: int)
    ensures ResultShows(v, pages + [p], rid, k, c) <==>
      ResultShows(v, pages, rid, k, c) || (PageOf(v, p) && p.rid == rid && PageShows(p, k, c))
  {
  }

  lemma EmptyPageShowsNothing(p: Page, k: Key, c: int)
    requires ReadManifest(p.manifest) && Proof(p).None?
    ensures !PageShows(p, k, c)
  {
    CutShows(p.manifest.spans, p.from, p.to, k, c);
  }

  /** A full span of a page is shown whole, so standalone ranges credit nothing beyond fragments. */
  lemma WholeIsWhollyShown(spans: seq<Span>, x: int)
    requires Covers(WholeRanges(spans), x)
    requires forall s :: s in spans ==> s.startLine == s.endLine && s.lineLength > 0
    ensures exists n :: WhollyShown(SpanFragments(spans), Key(x, n))
  {
    var r :| r in WholeRanges(spans) && r.lo <= x < r.hi;
    var s :| s in spans && WholeLines(s) && r == Interval(s.startLine, s.endLine + 1);
    var f := AsFragment(s);
    assert f in SpanFragments(spans);
    forall c | 0 <= c < s.lineLength
      ensures Shows(SpanFragments(spans), Key(x, s.lineLength), c)
    {
      assert Usable(f) && Key(f.line, f.length) == Key(x, s.lineLength) && Clip(f).lo <= c < Clip(f).hi;
    }
    assert WhollyShown(SpanFragments(spans), Key(x, s.lineLength));
  }

  lemma {:induction false} CutKeepsLines(spans: seq<Span>, from: nat, to: nat)
    requires forall s :: s in spans ==> WholeRendering(s)
    ensures forall s :: s in CutSpans(spans, from, to) ==> s.startLine == s.endLine && s.lineLength > 0
    decreases |spans|
  {
    if spans != [] {
      assert spans[0] in spans;
      CutKeepsLines(spans[1..], from, to);
    }
  }

  lemma MoreIsWhollyShown(a: seq<Fragment>, b: seq<Fragment>, x: int)
    requires forall k, c :: Shows(a, k, c) ==> Shows(b, k, c)
    requires exists n :: WhollyShown(a, Key(x, n))
    ensures exists n :: WhollyShown(b, Key(x, n))
  {
  }

  /** What the result held of the version before the page. */
  ghost predicate BuiltBefore(v: Version, start: Leases, pages: seq<Page>, rid: string, prev: Option<Lease>) {
    if prev.Some? && LeaseOf(v, prev.value) then Built(v, start, pages, rid, prev.value)
    else !Had(v, start, rid) && forall k, c :: !ResultShows(v, pages, rid, k, c)
  }

  /** The page is of the version, of a read, and brings a proof. */
  ghost predicate Brings(v: Version, start: Leases, p: Page, cut: Manifest) {
    && PageOf(v, p) && ReadManifest(p.manifest) && Slice(p.manifest, p.from, p.to) == Some(cut)
    && (Had(v, start, p.rid) ==> PlainLease(start[p.rid]))
  }

  lemma CutIsPlain(v: Version, start: Leases, p: Page, cut: Manifest)
    requires Brings(v, start, p, cut)
    ensures cut.fileKey == v.fileKey && cut.digest == v.digest
    ensures !cut.completeFile && cut.parents == []
    ensures cut.spans == CutSpans(p.manifest.spans, p.from, p.to)
  {
  }

  lemma StepAllShows(v: Version, start: Leases, pages: seq<Page>, p: Page, prev: Option<Lease>, cut: Manifest,
                     k: Key, c: int)
    requires Brings(v, start, p, cut) && BuiltBefore(v, start, pages, p.rid, prev)
    ensures Shows(AllFragments(prev, cut), k, c) <==>
      ShownAtStart(v, start, p.rid, k, c) || ResultShows(v, pages + [p], p.rid, k, c)
  {
    CutIsPlain(v, start, p, cut);
    var earlier := if Extends(prev, cut) then prev.value.fragments else [];
    assert AllFragments(prev, cut) == earlier + SpanFragments(cut.spans);
    assert Shows(earlier, k, c) <==> ShownAtStart(v, start, p.rid, k, c) || ResultShows(v, pages, p.rid, k, c);
    assert Shows(SpanFragments(cut.spans), k, c) <==> PageShows(p, k, c) by {
      CutShows(p.manifest.spans, p.from, p.to, k, c);
    }
    assert PageOf(v, p);
    hide *;
    ShowsConcat(earlier, SpanFragments(cut.spans), k, c);
    ResultShowsStep(v, pages, p, p.rid, k, c);
  }

  lemma AppliedShows(prev: Option<Lease>, cut: Manifest, k: Key, c: int)
    ensures Shows(Apply(prev, cut).fragments, k, c) <==> Shows(AllFragments(prev, cut), k, c)
  {
    assert Apply(prev, cut).fragments == MergedFragments(AllFragments(prev, cut));
    hide *;
    MergedShowsSame(AllFragments(prev, cut), k, c);
  }

  /** What the page covers whole, the joined fragments show whole. */
  lemma WholeIsCompleted(v: Version, start: Leases, p: Page, prev: Option<Lease>, cut: Manifest, x: int)
    requires Brings(v, start, p, cut)
    requires Covers(WholeRanges(cut.spans), x)
    ensures exists n :: WhollyShown(AllFragments(prev, cut), Key(x, n))
  {
    var earlier := if Extends(prev, cut) then prev.value.fragments else [];
    forall k, c
      ensures Shows(SpanFragments(cut.spans), k, c) ==> Shows(AllFragments(prev, cut), k, c)
    {
      ShowsConcat(earlier, SpanFragments(cut.spans), k, c);
    }
    CutIsPlain(v, start, p, cut);
    assert forall s :: s in p.manifest.spans ==> WholeRendering(s);
    hide Shows, WhollyShown, SpanFragments, WholeRanges, AllFragments, CutSpans;
    CutKeepsLines(p.manifest.spans, p.from, p.to);
    WholeIsWhollyShown(cut.spans, x);
    MoreIsWhollyShown(SpanFragments(cut.spans), AllFragments(prev, cut), x);
  }

  /** What the earlier lease covered is covered by the start or completed by its fragments. */
  lemma EarlierIsCompleted(v: Version, start: Leases, pages: seq<Page>, p: Page, prev: Option<Lease>, cut: Manifest,
                           x: int)
    requires Brings(v, start, p, cut) && BuiltBefore(v, start, pages, p.rid, prev)
    requires Covers(EarlierRanges(prev, cut), x) && !CoveredAtStart(v, start, p.rid, x)
    ensures exists n :: WhollyShown(AllFragments(prev, cut), Key(x, n))
  {
    CutIsPlain(v, start, p, cut);
    var earlier := if Extends(prev, cut) then prev.value.fragments else [];
    forall k, c
      ensures Shows(earlier, k, c) ==> Shows(AllFragments(prev, cut), k, c)
    {
      ShowsConcat(earlier, SpanFragments(cut.spans), k, c);
    }
    assert exists n :: WhollyShown(earlier, Key(x, n));
    hide *;
    MoreIsWhollyShown(earlier, AllFragments(prev, cut), x);
  }

  lemma StepCovers(v: Version, start: Leases, pages: seq<Page>, p: Page, prev: Option<Lease>, cut: Manifest, x: int)
    requires Brings(v, start, p, cut) && BuiltBefore(v, start, pages, p.rid, prev)
    ensures OneBased(Apply(prev, cut).standalone)
    ensures CoveredAtStart(v, start, p.rid, x) ==> Covers(Apply(prev, cut).standalone, x)
    ensures Covers(Apply(prev, cut).standalone, x) ==>
      CoveredAtStart(v, start, p.rid, x) || exists n :: WhollyShown(Apply(prev, cut).fragments, Key(x, n))
  {
    CutIsPlain(v, start, p, cut);
    var fs := AllFragments(prev, cut);
    assert OneBased(EarlierRanges(prev, cut));
    assert CoveredAtStart(v, start, p.rid, x) ==> Covers(EarlierRanges(prev, cut), x);
    ApplyStandalone(prev, cut, x);
    NoWholeFile(x, cut.totalLines);
    forall k, c
      ensures Shows(fs, k, c) ==> Shows(Apply(prev, cut).fragments, k, c)
    {
      AppliedShows(prev, cut, k, c);
    }
    hide Shows, WhollyShown, Apply, AllFragments, CompletedLines, Covers, Brings, BuiltBefore, EarlierRanges, WholeFile,
      WholeRanges, CoveredAtStart;
    if Covers(Apply(prev, cut).standalone, x) && !CoveredAtStart(v, start, p.rid, x) {
      if Covers(EarlierRanges(prev, cut), x) {
        EarlierIsCompleted(v, start, pages, p, prev, cut, x);
      } else if Covers(WholeRanges(cut.spans), x) {
        WholeIsCompleted(v, start, p, prev, cut, x);
      } else {
        CompletedIff(fs, x);
      }
      MoreIsWhollyShown(fs, Apply(prev, cut).fragments, x);
    }
  }

  lemma NoWholeFile(line: int, total: nat)
    ensures !Covers(WholeFile(false, total), line)
  {
  }

  lemma StepFields(v: Version, start: Leases, pages: seq<Page>, p: Page, prev: Option<Lease>, cut: Manifest)
    requires Brings(v, start, p, cut) && BuiltBefore(v, start, pages, p.rid, prev)
    ensures LeaseOf(v, Apply(prev, cut)) && PlainLease(Apply(prev, cut))
  {
    CutIsPlain(v, start, p, cut);
    assert Extends(prev, cut) ==> PlainLease(prev.value);
  }

  lemma StepFragments(v: Version, start: Leases, pages: seq<Page>, p: Page, prev: Option<Lease>, cut: Manifest)
    requires Brings(v, start, p, cut) && BuiltBefore(v, start, pages, p.rid, prev)
    ensures BuiltFragments(v, start, pages + [p], p.rid, Apply(prev, cut))
  {
    hide Apply, Shows, ResultShows, BuiltBefore, Brings, ShownAtStart, AllFragments;
    forall k, c
      ensures Shows(Apply(prev, cut).fragments, k, c) <==>
        ShownAtStart(v, start, p.rid, k, c) || ResultShows(v, pages + [p], p.rid, k, c)
    {
      AppliedShows(prev, cut, k, c);
      StepAllShows(v, start, pages, p, prev, cut, k, c);
    }
  }

  lemma StepRanges(v: Version, start: Leases, pages: seq<Page>, p: Page, prev: Option<Lease>, cut: Manifest)
    requires Brings(v, start, p, cut) && BuiltBefore(v, start, pages, p.rid, prev)
    ensures BuiltRanges(v, start, p.rid, Apply(prev, cut))
  {
    hide Apply, WhollyShown, Covers, OneBased, BuiltBefore, Brings, CoveredAtStart;
    forall x
      ensures CoveredAtStart(v, start, p.rid, x) ==> Covers(Apply(prev, cut).standalone, x)
      ensures Covers(Apply(prev, cut).standalone, x) ==>
        CoveredAtStart(v, start, p.rid, x) || exists n :: WhollyShown(Apply(prev, cut).fragments, Key(x, n))
    {
      StepCovers(v, start, pages, p, prev, cut, x);
    }
    StepCovers(v, start, pages, p, prev, cut, 0);
  }

  lemma StepLease(v: Version, start: Leases, pages: seq<Page>, p: Page, prev: Option<Lease>, cut: Manifest)
    requires Brings(v, start, p, cut) && BuiltBefore(v, start, pages, p.rid, prev)
    ensures Built(v, start, pages + [p], p.rid, Apply(prev, cut))
  {
    assert Had(v, start, p.rid) ==> PlainLease(start[p.rid]);
    hide Apply, BuiltBefore, Brings, BuiltFragments, BuiltRanges, PlainLease, LeaseOf;
    StepFields(v, start, pages, p, prev, cut);
    StepFragments(v, start, pages, p, prev, cut);
    StepRanges(v, start, pages, p, prev, cut);
  }

  lemma OtherLease(v: Version, start: Leases, pages: seq<Page>, p: Page, rid: string, lease: Lease)
    requires Built(v, start, pages, rid, lease)
    requires p.rid != rid || !PageOf(v, p) || forall k, c :: !PageShows(p, k, c)
    ensures Built(v, start, pages + [p], rid, lease)
  {
  }

  lemma OrderlyFront(v: Version, start: Leases, pages: seq<Page>, p: Page)
    requires Orderly(v, start, pages + [p])
    ensures Orderly(v, start, pages)
    ensures PageOf(v, p) ==> ReadManifest(p.manifest) && (Had(v, start, p.rid) ==> PlainLease(start[p.rid]))
    ensures !PageOf(v, p) ==> !Had(v, start, p.rid) && forall k, c :: !ResultShows(v, pages, p.rid, k, c)
  {
    assert p in pages + [p];
    forall q | q in pages
      ensures q in pages + [p]
    {
    }
  }

  lemma AsideLeases(v: Version, p: Page, before: Leases, rid: string)
    requires Proof(p).Some? ==> !PageOf(v, p) && !Had(v, before, p.rid)
    ensures Had(v, DeliverOne(before, p), rid) <==> Had(v, before, rid)
    ensures Had(v, before, rid) ==> DeliverOne(before, p)[rid] == before[rid]
  {
  }

  /** A page for another version, or without a proof, leaves the leases of this version alone. */
  lemma AsideStep(v: Version, start: Leases, pages: seq<Page>, p: Page, before: Leases)
    requires AllBuilt(v, start, pages, before)
    requires Proof(p).Some? ==> !PageOf(v, p) && !Had(v, before, p.rid)
    requires PageOf(v, p) ==> forall k, c :: !PageShows(p, k, c)
    ensures AllBuilt(v, start, pages + [p], DeliverOne(before, p))
  {
    var after := DeliverOne(before, p);
    hide Built, DeliverOne, ResultShows, PageShows, LeaseOf, Proof, PageOf;
    forall rid
      ensures Had(v, after, rid) ==> Built(v, start, pages + [p], rid, after[rid])
      ensures Had(v, start, rid) ==> Had(v, after, rid)
    {
      AsideLeases(v, p, before, rid);
      if Had(v, before, rid) {
        OtherLease(v, start, pages, p, rid, before[rid]);
      }
    }
    forall rid, k, c | ResultShows(v, pages + [p], rid, k, c)
      ensures Had(v, after, rid)
    {
      ResultShowsStep(v, pages, p, rid, k, c);
      AsideLeases(v, p, before, rid);
    }
  }

  lemma BuiltBeforeHolds(v: Version, start: Leases, pages: seq<Page>, rid: string, before: Leases)
    requires AllBuilt(v, start, pages, before)
    ensures BuiltBefore(v, start, pages, rid, Held(before, rid))
  {
  }

  lemma HadUpdated(v: Version, before: Leases, r: string, lease: Lease, rid: string)
    requires LeaseOf(v, lease)
    ensures Had(v, before[r := lease], rid) <==> rid == r || Had(v, before, rid)
    ensures rid != r && rid in before ==> before[r := lease][rid] == before[rid]
    ensures before[r := lease][r] == lease
  {
  }

  lemma AllBuiltUpdated(v: Version, start: Leases, pages: seq<Page>, p: Page, before: Leases, lease: Lease)
    requires AllBuilt(v, start, pages, before) && Built(v, start, pages + [p], p.rid, lease)
    ensures AllBuilt(v, start, pages + [p], before[p.rid := lease])
  {
    var after := before[p.rid := lease];
    hide ResultShows, PageShows;
    forall rid
      ensures Had(v, after, rid) ==> Built(v, start, pages + [p], rid, after[rid])
      ensures Had(v, start, rid) ==> Had(v, after, rid)
    {
      assert LeaseOf(v, lease);
      HadUpdated(v, before, p.rid, lease, rid);
      if rid != p.rid && Had(v, before, rid) {
        hide Built, Had;
        OtherLease(v, start, pages, p, rid, before[rid]);
      }
    }
    forall rid, k, c | ResultShows(v, pages + [p], rid, k, c)
      ensures Had(v, after, rid)
    {
      ResultShowsStep(v, pages, p, rid, k, c);
      HadUpdated(v, before, p.rid, lease, rid);
    }
  }

  lemma ReadStep(v: Version, start: Leases, pages: seq<Page>, p: Page, before: Leases, cut: Manifest)
    requires AllBuilt(v, start, pages, before) && Brings(v, start, p, cut) && Proof(p) == Some(cut)
    ensures AllBuilt(v, start, pages + [p], DeliverOne(before, p))
  {
    var lease := Apply(Held(before, p.rid), cut);
    hide AllBuilt, Built, Apply, Brings, Proof, BuiltBefore;
    assert DeliverOne(before, p) == before[p.rid := lease];
    BuiltBeforeHolds(v, start, pages, p.rid, before);
    StepLease(v, start, pages, p, Held(before, p.rid), cut);
    AllBuiltUpdated(v, start, pages, p, before, lease);
  }

  /** Ids of other versions hold no lease of this one. */
  lemma {:induction false} ElsewhereStays(v: Version, start: Leases, pages: seq<Page>, rid: string)
    requires !Had(v, start, rid) && forall p :: p in pages && p.rid == rid ==> !PageOf(v, p)
    ensures !Had(v, Deliver(start, pages), rid)
    decreases |pages|
  {
    if pages != [] {
      var front, p := pages[..|pages| - 1], pages[|pages| - 1];
      assert pages == front + [p] && p in pages;
      ElsewhereStays(v, start, front, rid);
      hide Had, PageOf, DeliverOne;
      OneElsewhere(v, Deliver(start, front), p, rid);
    }
  }

  lemma OneElsewhere(v: Version, before: Leases, p: Page, rid: string)
    requires !Had(v, before, rid) && (p.rid == rid ==> !PageOf(v, p))
    ensures !Had(v, DeliverOne(before, p), rid)
  {
    hide Apply, Proof;
    if Proof(p).Some? {
      AppliedVersion(p, before);
    }
  }

  lemma ProofVersion(p: Page)
    requires Proof(p).Some?
    ensures Proof(p).value.fileKey == p.manifest.fileKey && Proof(p).value.digest == p.manifest.digest
  {
    hide CutSpans;
  }

  lemma {:induction false} Paged(v: Version, start: Leases, pages: seq<Page>)
    requires Orderly(v, start, pages)
    ensures AllBuilt(v, start, pages, Deliver(start, pages))
    decreases |pages|
  {
    if pages == [] {
      NothingYet(v, start);
    } else {
      var front, p := pages[..|pages| - 1], pages[|pages| - 1];
      assert pages == front + [p] && p in pages;
      OrderlyFront(v, start, front, p);
      Paged(v, start, front);
      var before := Deliver(start, front);
      if !PageOf(v, p) {
        ElsewhereStays(v, start, front, p.rid);
        hide AllBuilt;
        AsideStep(v, start, front, p, before);
      } else if Proof(p).None? {
        forall k, c
          ensures !PageShows(p, k, c)
        {
          EmptyPageShowsNothing(p, k, c);
        }
        hide AllBuilt;
        AsideStep(v, start, front, p, before);
      } else {
        assert Brings(v, start, p, Proof(p).value);
        hide AllBuilt;
        ReadStep(v, start, front, p, before, Proof(p).value);
      }
    }
  }

  lemma NothingYet(v: Version, start: Leases)
    requires Orderly(v, start, [])
    ensures AllBuilt(v, start, [], start)
  {
  }

  // ----- the theorem

  /** Every character of some rendering of the line was shown at the start or delivered since, visibly. */
  ghost predicate LineDelivered(v: Version, start: Leases, pages: seq<Page>, visible: Option<set<string>>, line: int) {
    exists n :: RenderingDelivered(v, start, pages, visible, Key(line, n))
  }

  ghost predicate RenderingDelivered(v: Version, start: Leases, pages: seq<Page>, visible: Option<set<string>>, k: Key) {
    k.length > 0 && forall c :: 0 <= c < k.length ==> CharDelivered(v, start, pages, visible, k, c)
  }

  ghost predicate CharDelivered(v: Version, start: Leases, pages: seq<Page>, visible: Option<set<string>>,
                                k: Key, c: int) {
    || GrantShows(start, visible, v.fileKey, v.digest, k, c)
    || exists p :: p in pages && PageOf(v, p) && Visible(visible, p.rid) && PageShows(p, k, c)
  }

  /** A lease held at the start covers the line by itself, judged by the leases there are now. */
  ghost predicate CoveredAlone(v: Version, start: Leases, now: Leases, visible: Option<set<string>>, line: int) {
    exists rid :: Selected(start, visible, v.fileKey, v.digest, rid) && LeaseCovers(now, visible, start[rid], line)
  }

  lemma BuiltIsDelivered(v: Version, start: Leases, pages: seq<Page>, leases: Leases, visible: Option<set<string>>,
                         rid: string, k: Key, c: int)
    requires AllBuilt(v, start, pages, leases) && Selected(leases, visible, v.fileKey, v.digest, rid)
    requires Shows(leases[rid].fragments, k, c)
    ensures CharDelivered(v, start, pages, visible, k, c)
  {
    assert Had(v, leases, rid) && Built(v, start, pages, rid, leases[rid]);
    if ShownAtStart(v, start, rid, k, c) {
      assert Selected(start, visible, v.fileKey, v.digest, rid);
    }
  }

  lemma DeliveredIsBuilt(v: Version, start: Leases, pages: seq<Page>, leases: Leases, visible: Option<set<string>>,
                         k: Key, c: int)
    requires AllBuilt(v, start, pages, leases) && CharDelivered(v, start, pages, visible, k, c)
    ensures GrantShows(leases, visible, v.fileKey, v.digest, k, c)
  {
    hide Shows;
    if GrantShows(start, visible, v.fileKey, v.digest, k, c) {
      var rid :| Selected(start, visible, v.fileKey, v.digest, rid) && Shows(start[rid].fragments, k, c);
      assert Had(v, start, rid);
      assert Built(v, start, pages, rid, leases[rid]);
      assert ShownAtStart(v, start, rid, k, c);
      assert Selected(leases, visible, v.fileKey, v.digest, rid);
    } else {
      var p :| p in pages && PageOf(v, p) && Visible(visible, p.rid) && PageShows(p, k, c);
      assert ResultShows(v, pages, p.rid, k, c);
      assert Built(v, start, pages, p.rid, leases[p.rid]);
      assert Selected(leases, visible, v.fileKey, v.digest, p.rid);
    }
  }

  lemma LeaseOnlyIf(v: Version, start: Leases, pages: seq<Page>, leases: Leases, visible: Option<set<string>>,
                    rid: string, line: int)
    requires AllBuilt(v, start, pages, leases) && Selected(leases, visible, v.fileKey, v.digest, rid)
    requires LeaseCovers(leases, visible, leases[rid], line)
    ensures CoveredAlone(v, start, leases, visible, line) || LineDelivered(v, start, pages, visible, line)
  {
    var lease := leases[rid];
    assert Had(v, leases, rid) && Built(v, start, pages, rid, lease);
    hide Shows, CharDelivered;
    if Had(v, start, rid) && lease == start[rid] {
      assert Selected(start, visible, v.fileKey, v.digest, rid);
    } else {
      NoWholeFile(line, lease.totalLines);
      assert Covers(lease.standalone, line);
      if CoveredAtStart(v, start, rid, line) {
        assert Selected(start, visible, v.fileKey, v.digest, rid) && LeaseCovers(leases, visible, start[rid], line);
      } else {
        var n :| WhollyShown(lease.fragments, Key(line, n));
        forall c | 0 <= c < n
          ensures CharDelivered(v, start, pages, visible, Key(line, n), c)
        {
          BuiltIsDelivered(v, start, pages, leases, visible, rid, Key(line, n), c);
        }
        assert RenderingDelivered(v, start, pages, visible, Key(line, n));
      }
    }
  }

  lemma GrantOnlyIf(v: Version, start: Leases, pages: seq<Page>, leases: Leases, visible: Option<set<string>>, line: int)
    requires AllBuilt(v, start, pages, leases)
    requires GrantCovers(leases, visible, v.fileKey, v.digest, line)
    ensures CoveredAlone(v, start, leases, visible, line) || LineDelivered(v, start, pages, visible, line)
  {
    hide Shows, CharDelivered, AllBuilt, LeaseCovers, CoveredAlone;
    if rid :| Selected(leases, visible, v.fileKey, v.digest, rid) && LeaseCovers(leases, visible, leases[rid], line) {
      LeaseOnlyIf(v, start, pages, leases, visible, rid, line);
    } else {
      var n :| GrantWholly(leases, visible, v.fileKey, v.digest, Key(line, n));
      forall c | 0 <= c < n
        ensures CharDelivered(v, start, pages, visible, Key(line, n), c)
      {
        assert GrantShows(leases, visible, v.fileKey, v.digest, Key(line, n), c);
        var rid :| Selected(leases, visible, v.fileKey, v.digest, rid) && Shows(leases[rid].fragments, Key(line, n), c);
        BuiltIsDelivered(v, start, pages, leases, visible, rid, Key(line, n), c);
      }
      assert RenderingDelivered(v, start, pages, visible, Key(line, n));
    }
  }

  lemma AloneIsGranted(v: Version, start: Leases, pages: seq<Page>, leases: Leases, visible: Option<set<string>>, line: int)
    requires AllBuilt(v, start, pages, leases) && CoveredAlone(v, start, leases, visible, line)
    ensures GrantCovers(leases, visible, v.fileKey, v.digest, line)
  {
    var rid :| Selected(start, visible, v.fileKey, v.digest, rid) && LeaseCovers(leases, visible, start[rid], line);
    assert Had(v, start, rid);
    assert Built(v, start, pages, rid, leases[rid]);
    assert Selected(leases, visible, v.fileKey, v.digest, rid);
    hide Shows, Covers;
    if leases[rid] != start[rid] {
      NoWholeFile(line, start[rid].totalLines);
      assert CoveredAtStart(v, start, rid, line);
    }
    assert LeaseCovers(leases, visible, leases[rid], line);
  }

  lemma DeliveredIsGranted(v: Version, start: Leases, pages: seq<Page>, leases: Leases, visible: Option<set<string>>,
                           line: int)
    requires Orderly(v, start, pages) && AllBuilt(v, start, pages, leases)
    requires LineDelivered(v, start, pages, visible, line)
    ensures GrantCovers(leases, visible, v.fileKey, v.digest, line)
  {
    hide AllBuilt;
    var n :| RenderingDelivered(v, start, pages, visible, Key(line, n));
    var k := Key(line, n);
    assert line > 0 by {
      assert CharDelivered(v, start, pages, visible, k, 0);
      if !GrantShows(start, visible, v.fileKey, v.digest, k, 0) {
        var p :| p in pages && PageOf(v, p) && Visible(visible, p.rid) && PageShows(p, k, 0);
        var s :| s in p.manifest.spans && Key(s.startLine, s.lineLength) == k;
        assert WholeRendering(s);
      }
    }
    hide Shows, CharDelivered, Orderly;
    forall c | 0 <= c < n
      ensures GrantShows(leases, visible, v.fileKey, v.digest, k, c)
    {
      assert CharDelivered(v, start, pages, visible, k, c);
      DeliveredIsBuilt(v, start, pages, leases, visible, k, c);
    }
    assert GrantWholly(leases, visible, v.fileKey, v.digest, k);
  }

  /** Whatever was held and whatever is delivered: a line may be edited exactly when a lease held at the start
      covers it, or when all of its characters were shown, before or since, and are still visible. */
  lemma CoveredIff(v: Version, start: Leases, pages: seq<Page>, visible: Option<set<string>>, line: int)
    requires Orderly(v, start, pages)
    ensures GrantCovers(Deliver(start, pages), visible, v.fileKey, v.digest, line) <==>
      CoveredAlone(v, start, Deliver(start, pages), visible, line) || LineDelivered(v, start, pages, visible, line)
  {
    var leases := Deliver(start, pages);
    Paged(v, start, pages);
    hide *;
    if GrantCovers(leases, visible, v.fileKey, v.digest, line) {
      GrantOnlyIf(v, start, pages, leases, visible, line);
    }
    if LineDelivered(v, start, pages, visible, line) {
      DeliveredIsGranted(v, start, pages, leases, visible, line);
    }
    if CoveredAlone(v, start, leases, visible, line) {
      AloneIsGranted(v, start, pages, leases, visible, line);
    }
  }

  /** With no lease of the version to begin with: exactly when all characters were delivered. */
  lemma CoveredIffDelivered(v: Version, start: Leases, pages: seq<Page>, visible: Option<set<string>>, line: int)
    requires Orderly(v, start, pages) && forall rid :: !Had(v, start, rid)
    ensures GrantCovers(Deliver(start, pages), visible, v.fileKey, v.digest, line) <==>
      LineDelivered(v, start, pages, visible, line)
  {
    CoveredIff(v, start, pages, visible, line);
    hide Orderly, Deliver, GrantCovers, LineDelivered, LeaseCovers;
    forall rid | Selected(start, visible, v.fileKey, v.digest, rid)
      ensures Had(v, start, rid)
    {
    }
  }

  // ----- what was covered before

  /** No delivery brings back or replaces a result that a lease of the version was built on. */
  ghost predicate ParentsStay(v: Version, start: Leases, pages: seq<Page>) {
    forall rid, p :: Had(v, start, rid) && p in pages && p.rid in start[rid].parents ==> SameFile(start, p)
  }

  ghost predicate SameFile(start: Leases, p: Page) {
    p.rid in start && PageOf(Version(start[p.rid].fileKey, start[p.rid].digest), p)
  }

  /** A result keeps its file version when its deliveries agree with it. */
  lemma {:induction false} VersionKept(start: Leases, pages: seq<Page>, rid: string)
    requires forall p :: p in pages && p.rid == rid ==> SameFile(start, p)
    ensures rid in Deliver(start, pages) <==> rid in start
    ensures rid in start ==> LeaseOf(Version(start[rid].fileKey, start[rid].digest), Deliver(start, pages)[rid])
    decreases |pages|
  {
    if pages != [] {
      var front, p := pages[..|pages| - 1], pages[|pages| - 1];
      assert pages == front + [p] && p in pages;
      VersionKept(start, front, rid);
      hide DeliverOne, SameFile;
      OneKept(start, Deliver(start, front), p, rid);
    }
  }

  lemma OneKept(start: Leases, before: Leases, p: Page, rid: string)
    requires p.rid == rid ==> SameFile(start, p)
    requires rid in before <==> rid in start
    requires rid in start ==> LeaseOf(Version(start[rid].fileKey, start[rid].digest), before[rid])
    ensures rid in DeliverOne(before, p) <==> rid in start
    ensures rid in start ==> LeaseOf(Version(start[rid].fileKey, start[rid].digest), DeliverOne(before, p)[rid])
  {
    hide Apply, Proof;
    if Proof(p).Some? {
      AppliedVersion(p, before);
    }
  }

  lemma AppliedVersion(p: Page, before: Leases)
    requires Proof(p).Some?
    ensures var lease := Apply(Held(before, p.rid), Proof(p).value);
      lease.fileKey == p.manifest.fileKey && lease.digest == p.manifest.digest
  {
    ProofVersion(p);
  }

  lemma ParentsSame(v: Version, start: Leases, pages: seq<Page>, visible: Option<set<string>>, rid: string, line: int)
    requires ParentsStay(v, start, pages) && Had(v, start, rid)
    ensures LeaseCovers(Deliver(start, pages), visible, start[rid], line) <==> LeaseCovers(start, visible, start[rid], line)
  {
    var now := Deliver(start, pages);
    hide Deliver, LeaseCovers;
    forall q | q in start[rid].parents
      ensures q in now <==> q in start
      ensures q in start ==> now[q].fileKey == start[q].fileKey && now[q].digest == start[q].digest
    {
      assert forall p :: p in pages && p.rid == q ==> SameFile(start, p);
      hide SameFile;
      VersionKept(start, pages, q);
    }
    hide *;
    SameParents(start, now, visible, start[rid], line);
  }

  lemma SameParents(start: Leases, now: Leases, visible: Option<set<string>>, lease: Lease, line: int)
    requires forall q :: q in lease.parents ==> (q in now <==> q in start)
    requires forall q :: q in lease.parents && q in start ==>
      now[q].fileKey == start[q].fileKey && now[q].digest == start[q].digest
    ensures LeaseCovers(now, visible, lease, line) <==> LeaseCovers(start, visible, lease, line)
  {
    hide Covers;
    assert ParentsHold(now, visible, lease) <==> ParentsHold(start, visible, lease);
  }

  /** A line may be edited exactly when it could be before, or was completed together with what was shown before. */
  lemma CoveredBeforeOrCompleted(v: Version, start: Leases, pages: seq<Page>, visible: Option<set<string>>, line: int)
    requires Orderly(v, start, pages) && ParentsStay(v, start, pages)
    ensures GrantCovers(Deliver(start, pages), visible, v.fileKey, v.digest, line) <==>
      GrantCovers(start, visible, v.fileKey, v.digest, line) || LineDelivered(v, start, pages, visible, line)
  {
    CoveredIff(v, start, pages, visible, line);
    hide Orderly, Deliver, LineDelivered, LeaseCovers, ParentsStay, GrantWholly;
    forall rid | Selected(start, visible, v.fileKey, v.digest, rid)
      ensures LeaseCovers(Deliver(start, pages), visible, start[rid], line) <==> LeaseCovers(start, visible, start[rid], line)
    {
      ParentsSame(v, start, pages, visible, rid, line);
    }
    forall n | GrantWholly(start, visible, v.fileKey, v.digest, Key(line, n))
      ensures LineDelivered(v, start, pages, visible, line)
    {
      WhollyIsDelivered(v, start, pages, visible, line, n);
    }
  }

  lemma WhollyIsDelivered(v: Version, start: Leases, pages: seq<Page>, visible: Option<set<string>>, line: int, n: int)
    requires GrantWholly(start, visible, v.fileKey, v.digest, Key(line, n))
    ensures LineDelivered(v, start, pages, visible, line)
  {
    assert RenderingDelivered(v, start, pages, visible, Key(line, n));
  }

  /** Page order, repetition, the split into results and the choice of reads make no difference to what may be
      edited: only which characters were shown does. */
  lemma PagingIrrelevant(v: Version, start: Leases, pages: seq<Page>, others: seq<Page>, visible: Option<set<string>>,
                         line: int)
    requires Orderly(v, start, pages) && ParentsStay(v, start, pages)
    requires Orderly(v, start, others) && ParentsStay(v, start, others)
    requires forall k, c :: CharDelivered(v, start, pages, visible, k, c) <==> CharDelivered(v, start, others, visible, k, c)
    ensures GrantCovers(Deliver(start, pages), visible, v.fileKey, v.digest, line) <==>
      GrantCovers(Deliver(start, others), visible, v.fileKey, v.digest, line)
  {
    CoveredBeforeOrCompleted(v, start, pages, visible, line);
    CoveredBeforeOrCompleted(v, start, others, visible, line);
    hide *;
    if LineDelivered(v, start, pages, visible, line) {
      SameDelivered(v, start, pages, others, visible, line);
    }
    if LineDelivered(v, start, others, visible, line) {
      SameDelivered(v, start, others, pages, visible, line);
    }
  }

  lemma SameDelivered(v: Version, start: Leases, pages: seq<Page>, others: seq<Page>, visible: Option<set<string>>,
                      line: int)
    requires forall k, c :: CharDelivered(v, start, pages, visible, k, c) ==> CharDelivered(v, start, others, visible, k, c)
    requires LineDelivered(v, start, pages, visible, line)
    ensures LineDelivered(v, start, others, visible, line)
  {
    hide CharDelivered;
    var n :| RenderingDelivered(v, start, pages, visible, Key(line, n));
    assert RenderingDelivered(v, start, others, visible, Key(line, n));
  }

  // ----- whole results

  /** The offset of the result is in a visible page. */
  ghost predicate OffsetShown(m: Manifest, pages: seq<Page>, visible: Option<set<string>>, o: int) {
    exists p :: p in pages && p.manifest == m && Visible(visible, p.rid) && p.from <= o < p.to
  }

  /** Visible pages leave no offset of the result out. */
  ghost predicate Tiled(m: Manifest, pages: seq<Page>, visible: Option<set<string>>) {
    forall o :: 0 <= o < ProofEnd(m.spans) ==> OffsetShown(m, pages, visible, o)
  }

  lemma TiledIsDelivered(v: Version, start: Leases, m: Manifest, pages: seq<Page>, visible: Option<set<string>>, s: Span)
    requires ReadManifest(m) && m.fileKey == v.fileKey && m.digest == v.digest
    requires Tiled(m, pages, visible) && s in m.spans
    ensures LineDelivered(v, start, pages, visible, s.startLine)
  {
    assert WholeRendering(s);
    EndWithin(m.spans, s);
    var k := Key(s.startLine, s.lineLength);
    hide ProofEnd, GrantShows;
    forall c | 0 <= c < s.lineLength
      ensures CharDelivered(v, start, pages, visible, k, c)
    {
      assert OffsetShown(m, pages, visible, s.startOffset + c);
      var p :| p in pages && p.manifest == m && Visible(visible, p.rid) && p.from <= s.startOffset + c < p.to;
      assert PageShows(p, k, c);
    }
    assert RenderingDelivered(v, start, pages, visible, k);
  }

  /** When every read of the version was delivered in full, exactly the lines they rendered are covered. */
  lemma TiledPagesCoverAll(v: Version, start: Leases, pages: seq<Page>, visible: Option<set<string>>, line: int)
    requires Orderly(v, start, pages) && forall rid :: !Had(v, start, rid)
    requires forall p :: p in pages && PageOf(v, p) ==> Tiled(p.manifest, pages, visible)
    ensures GrantCovers(Deliver(start, pages), visible, v.fileKey, v.digest, line) <==>
      exists p, s :: p in pages && PageOf(v, p) && s in p.manifest.spans && s.startLine == line
  {
    CoveredIffDelivered(v, start, pages, visible, line);
    hide Deliver, GrantCovers, Tiled, ReadManifest;
    if p, s :| p in pages && PageOf(v, p) && s in p.manifest.spans && s.startLine == line {
      TiledIsDelivered(v, start, p.manifest, pages, visible, s);
    }
    if LineDelivered(v, start, pages, visible, line) {
      var n :| RenderingDelivered(v, start, pages, visible, Key(line, n));
      assert CharDelivered(v, start, pages, visible, Key(line, n), 0);
      assert forall rid :: Selected(start, visible, v.fileKey, v.digest, rid) ==> Had(v, start, rid);
      var p :| p in pages && PageOf(v, p) && PageShows(p, Key(line, n), 0);
    }
  }

  /** A read delivered in full adds its lines, whatever else happened. */
  lemma TiledReadIsCovered(v: Version, start: Leases, m: Manifest, pages: seq<Page>, visible: Option<set<string>>, s: Span)
    requires Orderly(v, start, pages)
    requires ReadManifest(m) && m.fileKey == v.fileKey && m.digest == v.digest
    requires Tiled(m, pages, visible) && s in m.spans
    ensures GrantCovers(Deliver(start, pages), visible, v.fileKey, v.digest, s.startLine)
  {
    CoveredIff(v, start, pages, visible, s.startLine);
    TiledIsDelivered(v, start, m, pages, visible, s);
  }

  lemma {:induction false} EndWithin(spans: seq<Span>, s: Span)
    requires s in spans
    ensures s.endOffset <= ProofEnd(spans)
    decreases |spans|
  {
    if s != spans[0] {
      EndWithin(spans[1..], s);
    }
  }
}
