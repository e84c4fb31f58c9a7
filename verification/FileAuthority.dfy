/** Which lines of which file version the model has seen.

    Every delivered result holds a lease: whole lines it showed, fragments of lines it showed in
    part, and lines inherited from earlier results across an edit. A grant joins the leases of the
    visible results for one exact file version.
 */
module FileAuthority {
  import opened Delivery
  import opened Prelude
  import opened Ranges

  // ----- partial lines

  /** Characters `lo..hi` of the `length`-character rendering of `line`. */
  datatype Fragment = Fragment(line: int, lo: int, hi: int, length: int)

  /** A group of fragments that can be joined: same line, same rendered length. */
  datatype Key = Key(line: int, length: int)

  predicate Usable(f: Fragment) {
    f.line > 0 && f.length > 0 && f.lo < f.hi
  }

  function Clip(f: Fragment): Interval {
    Interval(Max(0, f.lo), Min(f.length, f.hi))
  }

  /** Character `c` of the rendering is shown by some fragment of the group. */
  predicate Shows(fs: seq<Fragment>, k: Key, c: int) {
    exists f :: f in fs && Usable(f) && Key(f.line, f.length) == k && Clip(f).lo <= c < Clip(f).hi
  }

  /** Every character of the line's rendering is shown. */
  predicate WhollyShown(fs: seq<Fragment>, k: Key) {
    k.line > 0 && k.length > 0 && forall c :: 0 <= c < k.length ==> Shows(fs, k, c)
  }

  lemma ShowsConcat(a: seq<Fragment>, b: seq<Fragment>, k: Key, c: int)
    ensures Shows(a + b, k, c) <==> Shows(a, k, c) || Shows(b, k, c)
  {
  }

  /** The nonempty clipped intervals of one group, in order. */
  function GroupOf(fs: seq<Fragment>, k: Key): (rs: seq<Interval>)
    ensures Proper(rs)
    ensures forall r :: r in rs ==> 0 <= r.lo && r.hi <= k.length
    ensures forall c :: Covers(rs, c) <==> Shows(fs, k, c)
  {
    if fs == [] then []
    else
      var rest := GroupOf(fs[1..], k);
      assert fs == [fs[0]] + fs[1..];
      if Usable(fs[0]) && Key(fs[0].line, fs[0].length) == k && Clip(fs[0]).lo < Clip(fs[0]).hi then
        assert forall c :: Covers([Clip(fs[0])] + rest, c) <==>
          Clip(fs[0]).lo <= c < Clip(fs[0]).hi || Covers(rest, c) by {
          forall c
            ensures Covers([Clip(fs[0])] + rest, c) <==>
              Clip(fs[0]).lo <= c < Clip(fs[0]).hi || Covers(rest, c)
          {
            CoversConcat([Clip(fs[0])], rest, c);
            CoversOne(Clip(fs[0]), c);
          }
        }
        [Clip(fs[0])] + rest
      else rest
  }

  predicate KeyBefore(a: Key, b: Key) {
    a.line < b.line || (a.line == b.line && a.length < b.length)
  }

  function InsertKey(k: Key, ks: seq<Key>): (s: seq<Key>)
    ensures forall x :: x in s <==> x == k || x in ks
  {
    if ks == [] || KeyBefore(k, ks[0]) then [k] + ks
    else
      assert ks == [ks[0]] + ks[1..];
      if k == ks[0] then ks else [ks[0]] + InsertKey(k, ks[1..])
  }

  /** The groups present, sorted, each once. */
  function KeysOf(fs: seq<Fragment>): (ks: seq<Key>)
    ensures forall k :: k in ks <==> exists f :: f in fs && Usable(f) && Key(f.line, f.length) == k
  {
    if fs == [] then []
    else
      assert fs == [fs[0]] + fs[1..];
      if Usable(fs[0]) then InsertKey(Key(fs[0].line, fs[0].length), KeysOf(fs[1..])) else KeysOf(fs[1..])
  }

  function AsFragments(k: Key, rs: seq<Interval>): (fs: seq<Fragment>)
    ensures |fs| == |rs| && forall i :: 0 <= i < |rs| ==> fs[i] == Fragment(k.line, rs[i].lo, rs[i].hi, k.length)
  {
    seq(|rs|, i requires 0 <= i < |rs| => Fragment(k.line, rs[i].lo, rs[i].hi, k.length))
  }

  function MergedFor(fs: seq<Fragment>, ks: seq<Key>): seq<Fragment> {
    if ks == [] then [] else AsFragments(ks[0], Merge(GroupOf(fs, ks[0]))) + MergedFor(fs, ks[1..])
  }

  predicate Complete(fs: seq<Fragment>, k: Key) {
    var merged := Merge(GroupOf(fs, k));
    merged != [] && merged[0].lo == 0 && merged[0].hi >= k.length
  }

  function CompletedFor(fs: seq<Fragment>, ks: seq<Key>): seq<int> {
    if ks == [] then []
    else (if Complete(fs, ks[0]) then [ks[0].line] else []) + CompletedFor(fs, ks[1..])
  }

  /** Fragments of each group joined into disjoint runs. */
  function MergedFragments(fs: seq<Fragment>): seq<Fragment> {
    MergedFor(fs, KeysOf(fs))
  }

  /** The lines whose joined fragments reach from the first character to the last. */
  function CompletedLines(fs: seq<Fragment>): seq<int> {
    CompletedFor(fs, KeysOf(fs))
  }

  /** One joined run from 0 to the full length means every single character was shown. */
  lemma CompleteIffWhollyShown(fs: seq<Fragment>, k: Key)
    requires k.line > 0 && k.length > 0
    ensures Complete(fs, k) <==> WhollyShown(fs, k)
  {
    var group := GroupOf(fs, k);
    var merged := Merge(group);
    MergeFacts(group);
    if Complete(fs, k) {
      assert merged[0] in merged;
      assert forall c :: 0 <= c < k.length ==> Covers(merged, c);
    }
    if WhollyShown(fs, k) {
      RunInOneInterval(merged, 0, k.length);
      var r :| r in merged && r.lo <= 0 && k.length <= r.hi;
      assert merged[0] in merged;
      assert Covers(merged, merged[0].lo);
      assert Covers(group, merged[0].lo);
      var i :| 0 <= i < |merged| && merged[i] == r;
    }
  }

  lemma {:induction false} CompletedMeaning(fs: seq<Fragment>, ks: seq<Key>, line: int)
    requires forall k :: k in ks ==> k.line > 0 && k.length > 0
    ensures line in CompletedFor(fs, ks) <==>
      exists n :: Key(line, n) in ks && WhollyShown(fs, Key(line, n))
    decreases |ks|
  {
    if ks != [] {
      assert ks == [ks[0]] + ks[1..];
      assert ks[0] in ks;
      CompleteIffWhollyShown(fs, ks[0]);
      CompletedMeaning(fs, ks[1..], line);
      if ks[0].line == line && Complete(fs, ks[0]) {
        assert Key(line, ks[0].length) in ks;
      }
    }
  }

  /** A line is completed exactly when some rendering of it is shown character for character. */
  lemma CompletedIff(fs: seq<Fragment>, line: int)
    ensures line in CompletedLines(fs) <==> exists n :: WhollyShown(fs, Key(line, n))
  {
    CompletedMeaning(fs, KeysOf(fs), line);
    forall n | WhollyShown(fs, Key(line, n))
      ensures Key(line, n) in KeysOf(fs)
    {
      assert Shows(fs, Key(line, n), 0);
    }
  }

  lemma {:induction false} MergedMembers(fs: seq<Fragment>, ks: seq<Key>, f: Fragment)
    ensures f in MergedFor(fs, ks) <==>
      Key(f.line, f.length) in ks && Interval(f.lo, f.hi) in Merge(GroupOf(fs, Key(f.line, f.length)))
    decreases |ks|
  {
    if ks != [] {
      assert ks == [ks[0]] + ks[1..];
      MergedMembers(fs, ks[1..], f);
      var rs := Merge(GroupOf(fs, ks[0]));
      if Key(f.line, f.length) == ks[0] && Interval(f.lo, f.hi) in rs {
        var i :| 0 <= i < |rs| && rs[i] == Interval(f.lo, f.hi);
        assert AsFragments(ks[0], rs)[i] == f;
      }
    }
  }

  lemma KeyPresent(fs: seq<Fragment>, k: Key, c: int)
    requires Shows(fs, k, c)
    ensures k in KeysOf(fs) && k.line > 0 && k.length > 0
  {
    hide KeysOf;
  }

  lemma ShownByOne(fs: seq<Fragment>, f: Fragment, c: int)
    requires f in fs && f.line > 0 && f.length > 0 && 0 <= f.lo <= c < f.hi <= f.length
    ensures Shows(fs, Key(f.line, f.length), c)
  {
    assert Usable(f) && Clip(f).lo <= c < Clip(f).hi;
  }

  lemma MergedShown(fs: seq<Fragment>, k: Key, c: int)
    requires Shows(fs, k, c)
    ensures Shows(MergedFragments(fs), k, c)
  {
    var group := GroupOf(fs, k);
    assert Covers(group, c);
    hide Merge, Canonical, GroupOf, KeysOf, Shows, MergedFor;
    KeyPresent(fs, k, c);
    MergeFacts(group);
    assert Covers(Merge(group), c);
    var r :| r in Merge(group) && r.lo <= c < r.hi;
    var f := Fragment(k.line, r.lo, r.hi, k.length);
    MergedWithin(fs, k, r);
    MergedMembers(fs, KeysOf(fs), f);
    hide Covers;
    ShownByOne(MergedFragments(fs), f, c);
  }

  lemma ShownByMerged(fs: seq<Fragment>, k: Key, c: int)
    requires Shows(MergedFragments(fs), k, c)
    ensures Shows(fs, k, c)
  {
    hide Merge, Canonical, GroupOf, KeysOf, MergedFor;
    var group := GroupOf(fs, k);
    var f :| f in MergedFragments(fs) && Usable(f) && Key(f.line, f.length) == k
             && Clip(f).lo <= c < Clip(f).hi;
    MergedMembers(fs, KeysOf(fs), f);
    MergeFacts(group);
    assert Covers(Merge(group), c);
  }

  /** Joining fragments neither adds nor loses a shown character. */
  lemma MergedShowsSame(fs: seq<Fragment>, k: Key, c: int)
    ensures Shows(MergedFragments(fs), k, c) <==> Shows(fs, k, c)
  {
    hide *;
    if Shows(fs, k, c) {
      MergedShown(fs, k, c);
    }
    if Shows(MergedFragments(fs), k, c) {
      ShownByMerged(fs, k, c);
    }
  }

  lemma MergedWithin(fs: seq<Fragment>, k: Key, r: Interval)
    requires r in Merge(GroupOf(fs, k))
    ensures 0 <= r.lo < r.hi <= k.length
  {
    var group := GroupOf(fs, k);
    MergeFacts(group);
    assert Covers(Merge(group), r.lo) && Covers(Merge(group), r.hi - 1);
    assert Covers(group, r.lo) && Covers(group, r.hi - 1);
  }

  // ----- leases

  datatype Lease = Lease(
    fileKey: string, digest: string, totalLines: nat,
    standalone: seq<Interval>, inherited: seq<Interval>, parents: set<string>,
    emptyFile: bool, completeFile: bool, beforeDigest: string, fragments: seq<Fragment>)

  predicate WholeLines(s: Span) {
    s.startLine > 0 && s.endLine >= s.startLine && s.visibleStart <= 0 && s.visibleEnd >= s.lineLength
  }

  /** Line ranges of the spans that show all of their text. */
  function WholeRanges(spans: seq<Span>): (rs: seq<Interval>)
    ensures forall r :: r in rs <==>
      exists s :: s in spans && WholeLines(s) && r == Interval(s.startLine, s.endLine + 1)
  {
    if spans == [] then []
    else
      assert spans == [spans[0]] + spans[1..];
      (if WholeLines(spans[0]) then [Interval(spans[0].startLine, spans[0].endLine + 1)] else [])
      + WholeRanges(spans[1..])
  }

  function AsFragment(s: Span): Fragment {
    Fragment(s.startLine, s.visibleStart, s.visibleEnd, s.lineLength)
  }

  /** Single-line spans as fragments. */
  function SpanFragments(spans: seq<Span>): (fs: seq<Fragment>)
    ensures forall f :: f in fs <==>
      exists s :: s in spans && s.startLine == s.endLine && s.lineLength > 0 && f == AsFragment(s)
  {
    if spans == [] then []
    else
      assert spans == [spans[0]] + spans[1..];
      (if spans[0].startLine == spans[0].endLine && spans[0].lineLength > 0 then [AsFragment(spans[0])] else [])
      + SpanFragments(spans[1..])
  }

  function LineRanges(lines: seq<int>): (rs: seq<Interval>)
    ensures |rs| == |lines| && forall i :: 0 <= i < |lines| ==> rs[i] == Interval(lines[i], lines[i] + 1)
  {
    seq(|lines|, i requires 0 <= i < |lines| => Interval(lines[i], lines[i] + 1))
  }

  function WholeFile(complete: bool, total: nat): seq<Interval> {
    if complete && total > 0 then [Interval(1, total + 1)] else []
  }

  /** An earlier lease of the same result for the same file version, to be added to. */
  predicate Extends(prev: Option<Lease>, m: Manifest) {
    prev.Some? && prev.value.digest == m.digest && prev.value.fileKey == m.fileKey
  }

  function EarlierRanges(prev: Option<Lease>, m: Manifest): seq<Interval> {
    if Extends(prev, m) then prev.value.standalone else []
  }

  function AllFragments(prev: Option<Lease>, m: Manifest): seq<Fragment> {
    (if Extends(prev, m) then prev.value.fragments else []) + SpanFragments(m.spans)
  }

  /** The lease a delivery leaves behind, given the result's earlier lease. */
  function Apply(prev: Option<Lease>, m: Manifest): Lease {
    var more := Extends(prev, m);
    var fragments := AllFragments(prev, m);
    Lease(
      m.fileKey, m.digest, m.totalLines,
      MergeLines(EarlierRanges(prev, m) + WholeRanges(m.spans)
                 + LineRanges(CompletedLines(fragments)) + WholeFile(m.completeFile, m.totalLines)),
      MergeLines(m.inherited + if more then prev.value.inherited else []),
      (set p | p in m.parents) + (if more then prev.value.parents else {}),
      m.emptyFile || (more && prev.value.emptyFile),
      m.completeFile || (more && prev.value.completeFile),
      m.beforeDigest,
      MergedFragments(fragments))
  }

  // ----- grants

  type Leases = map<string, Lease>

  predicate Visible(visible: Option<set<string>>, rid: string) {
    visible.None? || rid in visible.value
  }

  /** Result `rid` counts for version `digest` of the file. */
  predicate Selected(leases: Leases, visible: Option<set<string>>, fileKey: string, digest: string, rid: string) {
    rid in leases && Visible(visible, rid) && leases[rid].fileKey == fileKey && leases[rid].digest == digest
  }

  /** All results an edit built on are still visible, and one of them showed its pre-image. */
  predicate ParentsHold(leases: Leases, visible: Option<set<string>>, lease: Lease) {
    && lease.parents != {}
    && (forall p :: p in lease.parents ==>
          p in leases && Visible(visible, p) && leases[p].fileKey == lease.fileKey)
    && (exists p :: p in lease.parents && p in leases && leases[p].digest == lease.beforeDigest)
  }

  predicate LeaseCovers(leases: Leases, visible: Option<set<string>>, lease: Lease, line: int) {
    || Covers(lease.standalone, line)
    || Covers(WholeFile(lease.completeFile, lease.totalLines), line)
    || (ParentsHold(leases, visible, lease) && Covers(lease.inherited, line))
  }

  /** Some selected result shows character `c` of the `n`-character rendering of the line. */
  ghost predicate GrantShows(leases: Leases, visible: Option<set<string>>, fileKey: string, digest: string,
                             k: Key, c: int) {
    exists rid :: Selected(leases, visible, fileKey, digest, rid) && Shows(leases[rid].fragments, k, c)
  }

  ghost predicate GrantWholly(leases: Leases, visible: Option<set<string>>, fileKey: string, digest: string, k: Key) {
    k.line > 0 && k.length > 0
    && forall c :: 0 <= c < k.length ==> GrantShows(leases, visible, fileKey, digest, k, c)
  }

  /** The line may be edited: one result covers it, or all of them together show all of it. */
  ghost predicate GrantCovers(leases: Leases, visible: Option<set<string>>, fileKey: string, digest: string, line: int) {
    || (exists rid :: Selected(leases, visible, fileKey, digest, rid)
                      && LeaseCovers(leases, visible, leases[rid], line))
    || (exists n :: GrantWholly(leases, visible, fileKey, digest, Key(line, n)))
  }

  lemma ApplyVersion(prev: Option<Lease>, m: Manifest)
    ensures Apply(prev, m).fileKey == m.fileKey && Apply(prev, m).digest == m.digest
  {
  }

  // ----- what the flags and the parents of a lease mean

  /** A complete file covers each of its lines and nothing else. */
  lemma WholeFileIs(total: nat, x: int)
    ensures Covers(WholeFile(true, total), x) <==> 1 <= x <= total
  {
    if total > 0 {
      CoversOne(Interval(1, total + 1), x);
    }
  }

  /** A result that showed the whole file, or that it is empty, has done so for good, and no other has. */
  lemma FlagsStay(prev: Option<Lease>, m: Manifest)
    ensures m.completeFile || (Extends(prev, m) && prev.value.completeFile) <==> Apply(prev, m).completeFile
    ensures m.emptyFile || (Extends(prev, m) && prev.value.emptyFile) <==> Apply(prev, m).emptyFile
    ensures m.completeFile ==> forall leases, visible, x :: 1 <= x <= m.totalLines ==>
      LeaseCovers(leases, visible, Apply(prev, m), x)
  {
    hide MergeLines, MergedFragments, CompletedLines, WholeRanges, LineRanges, WholeFile, EarlierRanges, AllFragments, Covers;
    forall leases, visible, x | m.completeFile && 1 <= x <= m.totalLines
      ensures LeaseCovers(leases, visible, Apply(prev, m), x)
    {
      WholeFileIs(m.totalLines, x);
    }
  }

  /** A line that the result itself did not show is passed on only while every result it was built on is visible, and
      one of them showed the version it was made from. */
  lemma InheritedNeedsParents(leases: Leases, visible: Option<set<string>>, lease: Lease, line: int)
    requires LeaseCovers(leases, visible, lease, line)
    requires !Covers(lease.standalone, line) && !(lease.completeFile && 1 <= line <= lease.totalLines)
    ensures Covers(lease.inherited, line)
    ensures forall p :: p in lease.parents ==> p in leases && Visible(visible, p) && leases[p].fileKey == lease.fileKey
    ensures exists p :: p in lease.parents && p in leases && Visible(visible, p) && leases[p].digest == lease.beforeDigest
  {
    hide Covers;
    if lease.completeFile {
      WholeFileIs(lease.totalLines, line);
    } else {
      CoversNone(line);
    }
  }

  /** The groups come by line and length, each once. */
  predicate InKeyOrder(ks: seq<Key>) {
    forall i, j :: 0 <= i < j < |ks| ==>
      ks[i].line < ks[j].line || (ks[i].line == ks[j].line && ks[i].length < ks[j].length)
  }

  lemma {:induction false} InsertInOrder(k: Key, ks: seq<Key>)
    requires InKeyOrder(ks)
    ensures InKeyOrder(InsertKey(k, ks))
    decreases |ks|
  {
    if ks != [] && !KeyBefore(k, ks[0]) && k != ks[0] {
      var rest := InsertKey(k, ks[1..]);
      assert InKeyOrder(ks[1..]);
      InsertInOrder(k, ks[1..]);
      forall j | 0 <= j < |rest|
        ensures KeyBefore(ks[0], rest[j])
      {
        assert rest[j] in rest;
        if rest[j] != k {
          var i :| 0 <= i < |ks[1..]| && ks[1..][i] == rest[j];
        }
      }
    } else if ks != [] && KeyBefore(k, ks[0]) {
      assert forall j :: 0 < j < |ks| ==> KeyBefore(ks[0], ks[j]);
    }
  }

  lemma {:induction false} KeysInOrder(fs: seq<Fragment>)
    ensures InKeyOrder(KeysOf(fs))
    decreases |fs|
  {
    if fs != [] {
      KeysInOrder(fs[1..]);
      if Usable(fs[0]) {
        InsertInOrder(Key(fs[0].line, fs[0].length), KeysOf(fs[1..]));
      }
    }
  }

  // ----- a hidden result counts as if it were not there

  function Shown(leases: Leases, visible: Option<set<string>>): Leases {
    map rid | rid in leases && Visible(visible, rid) :: leases[rid]
  }

  lemma HiddenLease(leases: Leases, visible: Option<set<string>>, lease: Lease, line: int)
    ensures LeaseCovers(leases, visible, lease, line) <==> LeaseCovers(Shown(leases, visible), None, lease, line)
  {
    hide Covers;
    assert ParentsHold(leases, visible, lease) <==> ParentsHold(Shown(leases, visible), None, lease);
  }

  lemma HiddenSelected(leases: Leases, visible: Option<set<string>>, fileKey: string, digest: string, rid: string)
    ensures Selected(leases, visible, fileKey, digest, rid) <==> Selected(Shown(leases, visible), None, fileKey, digest, rid)
    ensures Selected(leases, visible, fileKey, digest, rid) ==> Shown(leases, visible)[rid] == leases[rid]
  {
  }

  /** Exactly the visible results decide what may be edited. */
  lemma OnlyVisibleCount(leases: Leases, visible: Option<set<string>>, fileKey: string, digest: string, line: int)
    ensures GrantCovers(leases, visible, fileKey, digest, line) <==>
      GrantCovers(Shown(leases, visible), None, fileKey, digest, line)
  {
    hide Selected, LeaseCovers, Shown, Shows;
    forall rid
      ensures Selected(leases, visible, fileKey, digest, rid) <==> Selected(Shown(leases, visible), None, fileKey, digest, rid)
      ensures Selected(leases, visible, fileKey, digest, rid) ==>
        && rid in leases && rid in Shown(leases, visible) && Shown(leases, visible)[rid] == leases[rid]
        && (LeaseCovers(leases, visible, leases[rid], line) <==> LeaseCovers(Shown(leases, visible), None, leases[rid], line))
    {
      HiddenSelected(leases, visible, fileKey, digest, rid);
      SelectedIn(leases, visible, fileKey, digest, rid);
      SelectedIn(Shown(leases, visible), None, fileKey, digest, rid);
      if rid in leases {
        HiddenLease(leases, visible, leases[rid], line);
      }
    }
    forall k, c
      ensures GrantShows(leases, visible, fileKey, digest, k, c) <==>
        GrantShows(Shown(leases, visible), None, fileKey, digest, k, c)
    {
    }
    hide GrantShows;
  }

  lemma SelectedIn(leases: Leases, visible: Option<set<string>>, fileKey: string, digest: string, rid: string)
    ensures Selected(leases, visible, fileKey, digest, rid) ==> rid in leases
  {
  }

  // ----- authority only shrinks: hiding, retiring and cutting never add a line

  /** Lease `a` proves no more than lease `b` of the same file version. */
  ghost predicate Below(a: Lease, b: Lease) {
    && a.fileKey == b.fileKey && a.digest == b.digest && a.totalLines == b.totalLines
    && a.beforeDigest == b.beforeDigest
    && (a.completeFile ==> b.completeFile) && (a.emptyFile ==> b.emptyFile)
    && (forall x :: Covers(a.standalone, x) ==> Covers(b.standalone, x))
    && (forall x :: Covers(a.inherited, x) ==> Covers(b.inherited, x))
    && (a.parents == {} || a.parents == b.parents)
    && (forall k, c :: Shows(a.fragments, k, c) ==> Shows(b.fragments, k, c))
  }

  lemma BelowReflexive(a: Lease)
    ensures Below(a, a)
  {
  }

  ghost predicate LeasesBelow(a: Leases, b: Leases) {
    forall rid :: rid in a ==> rid in b && Below(a[rid], b[rid])
  }

  lemma LeaseMonotone(a: Leases, b: Leases, v: Option<set<string>>, w: Option<set<string>>, rid: string, line: int)
    requires LeasesBelow(a, b) && rid in a
    requires forall r :: Visible(v, r) ==> Visible(w, r)
    requires LeaseCovers(a, v, a[rid], line)
    ensures LeaseCovers(b, w, b[rid], line)
  {
  }

  /** Fewer visible results, fewer retained results or weaker leases never cover another line. */
  lemma GrantMonotone(a: Leases, b: Leases, v: Option<set<string>>, w: Option<set<string>>,
                      fileKey: string, digest: string, line: int)
    requires LeasesBelow(a, b)
    requires forall r :: Visible(v, r) ==> Visible(w, r)
    requires GrantCovers(a, v, fileKey, digest, line)
    ensures GrantCovers(b, w, fileKey, digest, line)
  {
    hide LeaseCovers, Shows;
    if rid :| Selected(a, v, fileKey, digest, rid) && LeaseCovers(a, v, a[rid], line) {
      LeaseMonotone(a, b, v, w, rid, line);
      assert Below(a[rid], b[rid]);
      assert Selected(b, w, fileKey, digest, rid);
    } else {
      var n :| GrantWholly(a, v, fileKey, digest, Key(line, n));
      var k := Key(line, n);
      forall c | 0 <= c < n
        ensures GrantShows(b, w, fileKey, digest, k, c)
      {
        assert GrantShows(a, v, fileKey, digest, k, c);
        var rid :| Selected(a, v, fileKey, digest, rid) && Shows(a[rid].fragments, k, c);
        assert Below(a[rid], b[rid]);
        assert Selected(b, w, fileKey, digest, rid);
      }
      assert GrantWholly(b, w, fileKey, digest, k);
    }
  }

  /** Fragment `f` shows character `c` of the rendering. */
  predicate FragmentShows(f: Fragment, k: Key, c: int) {
    Usable(f) && Key(f.line, f.length) == k && Clip(f).lo <= c < Clip(f).hi
  }

  lemma WithinShows(d: Span, o: Span, k: Key, c: int)
    requires SpanWithin(d, o) && d.startLine == d.endLine && d.lineLength > 0 && FragmentShows(AsFragment(d), k, c)
    ensures o.startLine == o.endLine && o.lineLength > 0 && FragmentShows(AsFragment(o), k, c)
  {
  }

  lemma ShowsMeans(spans: seq<Span>, k: Key, c: int)
    ensures Shows(SpanFragments(spans), k, c) <==>
      exists s :: s in spans && s.startLine == s.endLine && s.lineLength > 0 && FragmentShows(AsFragment(s), k, c)
  {
    hide Clip;
    if s :| s in spans && s.startLine == s.endLine && s.lineLength > 0 && FragmentShows(AsFragment(s), k, c) {
      assert AsFragment(s) in SpanFragments(spans);
    }
  }

  /** The fragments of a checked delivery show nothing the staged manifest does not show. */
  lemma ValidProofShows(original: Manifest, delivered: Manifest, k: Key, c: int)
    requires ValidProof(original, delivered)
    requires Shows(SpanFragments(delivered.spans), k, c)
    ensures Shows(SpanFragments(original.spans), k, c)
  {
    hide Shows, SpanFragments, FragmentShows, SpanWithin;
    ShowsMeans(delivered.spans, k, c);
    ShowsMeans(original.spans, k, c);
    var d :| d in delivered.spans && d.startLine == d.endLine && d.lineLength > 0 && FragmentShows(AsFragment(d), k, c);
    var o :| o in original.spans && SpanWithin(d, o);
    WithinShows(d, o, k, c);
  }

  lemma {:induction false} LineRangesCover(lines: seq<int>, x: int)
    ensures Covers(LineRanges(lines), x) <==> x in lines
  {
  }

  /** What the standalone ranges cover after a delivery. */
  ghost predicate AppliedCovers(prev: Option<Lease>, m: Manifest, x: int) {
    || Covers(EarlierRanges(prev, m), x)
    || Covers(WholeRanges(m.spans), x)
    || x in CompletedLines(AllFragments(prev, m))
    || Covers(WholeFile(m.completeFile, m.totalLines), x)
  }

  lemma ConcatThree(a: seq<Interval>, b: seq<Interval>, c: seq<Interval>, d: seq<Interval>, x: int)
    ensures Covers(a + b + c + d, x) <==> Covers(a, x) || Covers(b, x) || Covers(c, x) || Covers(d, x)
  {
  }

  lemma CompletedOneBased(fs: seq<Fragment>)
    ensures OneBased(LineRanges(CompletedLines(fs)))
  {
    var rs := LineRanges(CompletedLines(fs));
    forall r | r in rs
      ensures 1 <= r.lo
    {
      var i :| 0 <= i < |rs| && rs[i] == r;
      CompletedIff(fs, CompletedLines(fs)[i]);
    }
  }

  lemma OneBasedConcat(a: seq<Interval>, b: seq<Interval>, c: seq<Interval>, d: seq<Interval>)
    requires OneBased(a) && OneBased(b) && OneBased(c) && OneBased(d)
    ensures OneBased(a + b + c + d)
  {
  }

  lemma ApplyStandalone(prev: Option<Lease>, m: Manifest, x: int)
    requires OneBased(EarlierRanges(prev, m))
    ensures Covers(Apply(prev, m).standalone, x) <==> AppliedCovers(prev, m, x)
    ensures OneBased(Apply(prev, m).standalone)
  {
    var fs := AllFragments(prev, m);
    var earlier, whole := EarlierRanges(prev, m), WholeRanges(m.spans);
    var lines, file := LineRanges(CompletedLines(fs)), WholeFile(m.completeFile, m.totalLines);
    assert OneBased(whole) && OneBased(file);
    hide Covers, OneBased, CompletedLines, LineRanges, WholeRanges, WholeFile, MergeLines, AllFragments, EarlierRanges;
    CompletedOneBased(fs);
    OneBasedConcat(earlier, whole, lines, file);
    MergeLinesFacts(earlier + whole + lines + file);
    ConcatThree(earlier, whole, lines, file, x);
    LineRangesCover(CompletedLines(fs), x);
  }

  lemma ValidProofWhole(original: Manifest, delivered: Manifest, x: int)
    requires ValidProof(original, delivered)
    requires AppliedCovers(None, delivered, x)
    ensures AppliedCovers(None, original, x)
  {
    assert AllFragments(None, delivered) == SpanFragments(delivered.spans);
    assert AllFragments(None, original) == SpanFragments(original.spans);
    if Covers(WholeRanges(delivered.spans), x) {
      var r :| r in WholeRanges(delivered.spans) && r.lo <= x < r.hi;
      var d :| d in delivered.spans && WholeLines(d) && r == Interval(d.startLine, d.endLine + 1);
      var o :| o in original.spans && SpanWithin(d, o);
      assert WholeLines(o);
      assert r in WholeRanges(original.spans);
    } else if x in CompletedLines(SpanFragments(delivered.spans)) {
      CompletedIff(SpanFragments(delivered.spans), x);
      var n :| WhollyShown(SpanFragments(delivered.spans), Key(x, n));
      forall c | 0 <= c < n
        ensures Shows(SpanFragments(original.spans), Key(x, n), c)
      {
        assert Shows(SpanFragments(delivered.spans), Key(x, n), c);
        ValidProofShows(original, delivered, Key(x, n), c);
      }
      assert WhollyShown(SpanFragments(original.spans), Key(x, n));
      CompletedIff(SpanFragments(original.spans), x);
    }
  }

  /** A delivery the worker accepts leaves a lease no stronger than the staged manifest's. */
  lemma ValidProofBelow(original: Manifest, delivered: Manifest)
    requires ValidProof(original, delivered)
    ensures Below(Apply(None, delivered), Apply(None, original))
  {
    var a, b := Apply(None, delivered), Apply(None, original);
    forall x | Covers(a.standalone, x)
      ensures Covers(b.standalone, x)
    {
      ApplyStandalone(None, delivered, x);
      ValidProofWhole(original, delivered, x);
      ApplyStandalone(None, original, x);
    }
    forall k, c | Shows(a.fragments, k, c)
      ensures Shows(b.fragments, k, c)
    {
      FirstFragments(delivered, k, c);
      ValidProofShows(original, delivered, k, c);
      FirstFragments(original, k, c);
    }
    assert delivered.inherited + [] == delivered.inherited && original.inherited + [] == original.inherited;
    forall x | Covers(a.inherited, x)
      ensures Covers(b.inherited, x)
    {
      MergeLinesFacts(delivered.inherited);
      MergeLinesFacts(original.inherited);
    }
  }

  lemma FirstFragments(m: Manifest, k: Key, c: int)
    ensures Shows(Apply(None, m).fragments, k, c) <==> Shows(SpanFragments(m.spans), k, c)
  {
    assert [] + SpanFragments(m.spans) == SpanFragments(m.spans);
    MergedShowsSame(SpanFragments(m.spans), k, c);
  }

  /** Accepting a delivery in any context covers only lines the staged manifest would have covered. */
  lemma AcceptedProofNeverGrows(leases: Leases, rid: string, original: Manifest, delivered: Manifest,
                                visible: Option<set<string>>, fileKey: string, digest: string, line: int)
    requires ValidProof(original, delivered)
    requires GrantCovers(leases[rid := Apply(None, delivered)], visible, fileKey, digest, line)
    ensures GrantCovers(leases[rid := Apply(None, original)], visible, fileKey, digest, line)
  {
    hide *;
    ValidProofBelow(original, delivered);
    var a, b := leases[rid := Apply(None, delivered)], leases[rid := Apply(None, original)];
    BelowInPlace(leases, rid, Apply(None, delivered), Apply(None, original));
    GrantMonotone(a, b, visible, visible, fileKey, digest, line);
  }

  lemma BelowInPlace(leases: Leases, rid: string, x: Lease, y: Lease)
    requires Below(x, y)
    ensures LeasesBelow(leases[rid := x], leases[rid := y])
  {
    hide Below;
    forall r | r in leases && r != rid
      ensures Below(leases[r], leases[r])
    {
      BelowReflexive(leases[r]);
    }
  }
}
