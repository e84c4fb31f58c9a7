/** Interval lists: the line ranges and line fragments that carry read authority.

    An inclusive pair `(start, end)` of line numbers is written here as the half-open
    `Interval(start, end + 1)`, which makes line ranges and character fragments merge by
    the same rule: an interval joins its predecessor unless a gap separates them.
 */
module Ranges {
  import opened Prelude

  datatype Interval = Interval(lo: int, hi: int)

  predicate Covers(rs: seq<Interval>, x: int) {
    exists r :: r in rs && r.lo <= x < r.hi
  }

  lemma CoversConcat(a: seq<Interval>, b: seq<Interval>, x: int)
    ensures Covers(a + b, x) <==> Covers(a, x) || Covers(b, x)
  {
  }

  lemma CoversOne(r: Interval, x: int)
    ensures Covers([r], x) <==> r.lo <= x < r.hi
  {
  }

  predicate Proper(rs: seq<Interval>) {
    forall r :: r in rs ==> r.lo < r.hi
  }

  /** Nonempty, increasing, and pairwise separated: the normal form of a set of integers. */
  predicate Canonical(rs: seq<Interval>) {
    && Proper(rs)
    && forall i, j :: 0 <= i < j < |rs| ==> rs[i].hi < rs[j].lo
  }

  predicate Before(a: Interval, b: Interval) {
    a.lo < b.lo || (a.lo == b.lo && a.hi <= b.hi)
  }

  predicate Sorted(rs: seq<Interval>) {
    forall i, j :: 0 <= i < j < |rs| ==> rs[i].lo <= rs[j].lo
  }

  function Insert(r: Interval, rs: seq<Interval>): (s: seq<Interval>)
    requires Sorted(rs)
    ensures Sorted(s)
    ensures forall x :: x in s <==> x == r || x in rs
  {
    if rs == [] then [r]
    else if Before(r, rs[0]) then [r] + rs
    else
      assert rs == [rs[0]] + rs[1..];
      var rest := Insert(r, rs[1..]);
      assert forall j :: 0 <= j < |rest| ==> rest[j] in rest;
      [rs[0]] + rest
  }

  /** Python's `sorted` on pairs. */
  function Sort(rs: seq<Interval>): (s: seq<Interval>)
    ensures Sorted(s)
    ensures forall x :: x in s <==> x in rs
  {
    if rs == [] then [] else
      assert rs == [rs[0]] + rs[1..];
      Insert(rs[0], Sort(rs[1..]))
  }

  /** One step of the merge loop: `r` starts a new interval or extends the last one. */
  function Absorb(acc: seq<Interval>, r: Interval): seq<Interval> {
    if acc == [] || r.lo > acc[|acc| - 1].hi then acc + [r]
    else acc[..|acc| - 1] + [Interval(acc[|acc| - 1].lo, Max(acc[|acc| - 1].hi, r.hi))]
  }

  function MergeInto(acc: seq<Interval>, rs: seq<Interval>): seq<Interval>
    decreases |rs|
  {
    if rs == [] then acc else MergeInto(Absorb(acc, rs[0]), rs[1..])
  }

  /** The canonical form of a list of proper intervals. */
  function Merge(rs: seq<Interval>): seq<Interval> {
    MergeInto([], Sort(rs))
  }

  lemma AbsorbFacts(acc: seq<Interval>, r: Interval)
    requires Canonical(acc) && r.lo < r.hi
    requires acc != [] ==> acc[|acc| - 1].lo <= r.lo
    ensures Canonical(Absorb(acc, r))
    ensures Absorb(acc, r) != [] && Absorb(acc, r)[|Absorb(acc, r)| - 1].lo <= r.lo
    ensures forall x :: Covers(Absorb(acc, r), x) <==> Covers(acc, x) || r.lo <= x < r.hi
  {
    hide Canonical, Covers;
    if acc == [] || r.lo > acc[|acc| - 1].hi {
      AppendFacts(acc, r);
    } else {
      WidenFacts(acc, r.hi);
      hide Absorb;
      assert Absorb(acc, r) == Widened(acc, r.hi) by {
        AbsorbWidens(acc, r);
      }
    }
  }

  /** The last interval reaches at least up to `hi`. */
  function Widened(acc: seq<Interval>, hi: int): seq<Interval>
    requires acc != []
  {
    acc[..|acc| - 1] + [Interval(acc[|acc| - 1].lo, Max(acc[|acc| - 1].hi, hi))]
  }

  lemma AbsorbWidens(acc: seq<Interval>, r: Interval)
    requires acc != [] && r.lo <= acc[|acc| - 1].hi
    ensures Absorb(acc, r) == Widened(acc, r.hi)
  {
  }

  lemma WidenFacts(acc: seq<Interval>, hi: int)
    requires Canonical(acc) && acc != []
    ensures Canonical(Widened(acc, hi)) && |Widened(acc, hi)| == |acc|
    ensures Widened(acc, hi)[|acc| - 1].lo == acc[|acc| - 1].lo
    ensures forall x :: acc[|acc| - 1].lo <= x < acc[|acc| - 1].hi ==> Covers(acc, x)
    ensures forall x :: Covers(Widened(acc, hi), x) <==> Covers(acc, x) || acc[|acc| - 1].lo <= x < hi
  {
    var front, last := acc[..|acc| - 1], acc[|acc| - 1];
    hide Canonical, Covers;
    FrontCanonical(acc);
    AppendFacts(front, Interval(last.lo, Max(last.hi, hi)));
    hide Widened;
    forall x
      ensures last.lo <= x < last.hi ==> Covers(acc, x)
      ensures Covers(Widened(acc, hi), x) <==> Covers(acc, x) || last.lo <= x < hi
    {
      WidenCovers(acc, hi, x);
    }
  }

  lemma WidenCovers(acc: seq<Interval>, hi: int, x: int)
    requires acc != []
    ensures var last := acc[|acc| - 1];
      && (last.lo <= x < last.hi ==> Covers(acc, x))
      && (Covers(Widened(acc, hi), x) <==> Covers(acc, x) || last.lo <= x < hi)
  {
    var front, last := acc[..|acc| - 1], acc[|acc| - 1];
    var wide := Interval(last.lo, Max(last.hi, hi));
    assert acc == front + [last] && Widened(acc, hi) == front + [wide];
    hide Covers;
    CoversConcat(front, [last], x);
    CoversConcat(front, [wide], x);
    CoversOne(last, x);
    CoversOne(wide, x);
  }

  lemma FrontCanonical(acc: seq<Interval>)
    requires Canonical(acc) && acc != []
    ensures Canonical(acc[..|acc| - 1])
    ensures |acc| > 1 ==> acc[|acc| - 2].hi < acc[|acc| - 1].lo
    ensures acc[|acc| - 1].lo < acc[|acc| - 1].hi
  {
  }

  lemma AppendFacts(acc: seq<Interval>, r: Interval)
    requires Canonical(acc) && r.lo < r.hi
    requires acc != [] ==> acc[|acc| - 1].hi < r.lo
    ensures Canonical(acc + [r])
    ensures forall x :: Covers(acc + [r], x) <==> Covers(acc, x) || r.lo <= x < r.hi
  {
  }

  lemma {:induction false} MergeIntoFacts(acc: seq<Interval>, rs: seq<Interval>)
    requires Canonical(acc) && Proper(rs) && Sorted(rs)
    requires acc != [] && rs != [] ==> acc[|acc| - 1].lo <= rs[0].lo
    ensures Canonical(MergeInto(acc, rs))
    ensures forall x :: Covers(MergeInto(acc, rs), x) <==> Covers(acc, x) || Covers(rs, x)
    decreases |rs|
  {
    if rs != [] {
      AbsorbFacts(acc, rs[0]);
      MergeIntoFacts(Absorb(acc, rs[0]), rs[1..]);
      assert rs == [rs[0]] + rs[1..];
      forall x
        ensures Covers(rs, x) <==> rs[0].lo <= x < rs[0].hi || Covers(rs[1..], x)
      {
        CoversConcat([rs[0]], rs[1..], x);
        CoversOne(rs[0], x);
      }
    }
  }

  /** Merging keeps exactly the covered integers and reaches the normal form. */
  lemma MergeFacts(rs: seq<Interval>)
    requires Proper(rs)
    ensures Canonical(Merge(rs))
    ensures forall x :: Covers(Merge(rs), x) <==> Covers(rs, x)
  {
    MergeIntoFacts([], Sort(rs));
    forall x
      ensures Covers(Sort(rs), x) <==> Covers(rs, x)
    {
    }
  }

  /** A normal form is determined by what it covers, so merging forgets order and grouping. */
  lemma {:induction false} CanonicalUnique(a: seq<Interval>, b: seq<Interval>)
    requires Canonical(a) && Canonical(b)
    requires forall x :: Covers(a, x) <==> Covers(b, x)
    ensures a == b
    decreases |a|
  {
    hide Covers, Canonical;
    if a != [] && b != [] {
      HeadIsLeast(a);
      HeadIsLeast(b);
      HeadIsMaximal(a);
      HeadIsMaximal(b);
      TailCanonical(a);
      TailCanonical(b);
      assert a[0].lo == b[0].lo;
      assert a[0].hi == b[0].hi;
      forall x
        ensures Covers(a[1..], x) <==> Covers(b[1..], x)
      {
        TailCovers(a, x);
        TailCovers(b, x);
      }
      CanonicalUnique(a[1..], b[1..]);
      assert a == [a[0]] + a[1..] && b == [b[0]] + b[1..];
    } else if a != [] {
      HeadIsLeast(a);
      CoversNone(a[0].lo);
    } else if b != [] {
      HeadIsLeast(b);
      CoversNone(b[0].lo);
    }
  }

  lemma CoversNone(x: int)
    ensures !Covers([], x)
  {
  }

  lemma TailCanonical(a: seq<Interval>)
    requires Canonical(a) && a != []
    ensures Canonical(a[1..]) && a[0].lo < a[0].hi
  {
  }

  lemma HeadIsLeast(a: seq<Interval>)
    requires Canonical(a) && a != []
    ensures Covers(a, a[0].lo)
    ensures forall x :: Covers(a, x) ==> a[0].lo <= x
  {
  }

  lemma HeadIsMaximal(a: seq<Interval>)
    requires Canonical(a) && a != []
    ensures !Covers(a, a[0].hi)
    ensures forall x :: a[0].lo <= x < a[0].hi ==> Covers(a, x)
  {
  }

  lemma TailCovers(a: seq<Interval>, x: int)
    requires Canonical(a) && a != []
    ensures Covers(a[1..], x) <==> Covers(a, x) && x >= a[0].hi
  {
  }

  /** In normal form, a run of covered integers lies inside a single interval. */
  lemma {:induction false} RunInOneInterval(rs: seq<Interval>, a: int, b: int)
    requires Canonical(rs) && a < b
    requires forall x :: a <= x < b ==> Covers(rs, x)
    ensures exists r :: r in rs && r.lo <= a && b <= r.hi
    decreases b - a
  {
    assert Covers(rs, a);
    if b > a + 1 {
      RunInOneInterval(rs, a, b - 1);
      var r :| r in rs && r.lo <= a && b - 1 <= r.hi;
      assert Covers(rs, b - 1);
      var q :| q in rs && q.lo <= b - 1 < q.hi;
      var i :| 0 <= i < |rs| && rs[i] == r;
      var j :| 0 <= j < |rs| && rs[j] == q;
    }
  }

  /** `FileState.covers_lines` and `FileGrant.complete`: one interval holds the whole request. */
  predicate HoldsRun(rs: seq<Interval>, first: int, last: int) {
    exists r :: r in rs && r.lo <= first && last < r.hi
  }

  /** On merged ranges the one-interval test answers whether every single line was delivered. */
  lemma HoldsRunIsEveryLine(rs: seq<Interval>, first: int, last: int)
    requires Canonical(rs) && first <= last
    ensures HoldsRun(rs, first, last) <==> forall x :: first <= x <= last ==> Covers(rs, x)
  {
    if forall x :: first <= x <= last ==> Covers(rs, x) {
      RunInOneInterval(rs, first, last + 1);
    }
  }

  /** The normalization in front of `_merge_ranges`: drop inverted pairs, raise both ends to 1. */
  function NormalizeLines(rs: seq<Interval>): (s: seq<Interval>)
    ensures Proper(s)
    ensures forall r :: r in s ==> r.lo >= 1
    ensures forall x :: Covers(s, x) <==>
      exists r :: r in rs && r.lo < r.hi && Max(1, r.lo) <= x < Max(2, r.hi)
  {
    if rs == [] then []
    else
      assert rs == [rs[0]] + rs[1..];
      var rest := NormalizeLines(rs[1..]);
      if rs[0].lo < rs[0].hi then
        var r := Interval(Max(1, rs[0].lo), Max(2, rs[0].hi));
        assert forall x :: Covers([r] + rest, x) <==> r.lo <= x < r.hi || Covers(rest, x) by {
          forall x
            ensures Covers([r] + rest, x) <==> r.lo <= x < r.hi || Covers(rest, x)
          {
            CoversConcat([r], rest, x);
            CoversOne(r, x);
          }
        }
        [r] + rest
      else rest
  }

  function MergeLines(rs: seq<Interval>): seq<Interval> {
    Merge(NormalizeLines(rs))
  }

  predicate OneBased(rs: seq<Interval>) {
    forall r :: r in rs ==> 1 <= r.lo
  }

  lemma MergeLinesFacts(rs: seq<Interval>)
    ensures Canonical(MergeLines(rs)) && OneBased(MergeLines(rs))
    ensures forall x :: Covers(MergeLines(rs), x) <==> Covers(NormalizeLines(rs), x)
    ensures OneBased(rs) ==> forall x :: Covers(MergeLines(rs), x) <==> Covers(rs, x)
  {
    MergeFacts(NormalizeLines(rs));
    forall r | r in MergeLines(rs)
      ensures 1 <= r.lo
    {
      assert Covers(MergeLines(rs), r.lo);
      assert Covers(NormalizeLines(rs), r.lo);
    }
  }

  /** The source's merge loop over the sorted pairs. */
  method MergeRanges(ranges: seq<Interval>) returns (merged: seq<Interval>)
    ensures merged == MergeLines(ranges)
  {
    var sorted := Sort(NormalizeLines(ranges));
    merged := [];
    for i := 0 to |sorted|
      invariant MergeInto(merged, sorted[i..]) == MergeInto([], sorted)
    {
      var r := sorted[i];
      assert sorted[i..][1..] == sorted[i + 1..];
      if merged == [] || r.lo > merged[|merged| - 1].hi {
        merged := merged + [r];
      } else {
        merged := merged[..|merged| - 1]
                  + [Interval(merged[|merged| - 1].lo, Max(merged[|merged| - 1].hi, r.hi))];
      }
    }
  }

  /** Cutting merged removals out of one source interval leaves exactly its unremoved integers. */
  method SubtractFromOne(source: Interval, removed: seq<Interval>) returns (remaining: seq<Interval>)
    requires Canonical(removed) && source.lo < source.hi
    ensures Proper(remaining)
    ensures forall r :: r in remaining ==> source.lo <= r.lo && r.hi <= source.hi
    ensures forall x :: Covers(remaining, x) <==> source.lo <= x < source.hi && !Covers(removed, x)
  {
    remaining := [];
    var cursor := source.lo;
    var i := 0;
    while i < |removed|
      invariant 0 <= i <= |removed|
      invariant source.lo <= cursor
      invariant Proper(remaining)
      invariant forall r :: r in remaining ==> source.lo <= r.lo && r.hi <= source.hi && r.hi <= cursor
      invariant forall k :: 0 <= k < i ==> removed[k].hi <= cursor || removed[k].lo >= source.hi
      invariant forall x :: source.lo <= x < cursor && x < source.hi ==>
        (Covers(remaining, x) <==> !Covers(removed, x))
    {
      var cut := removed[i];
      i := i + 1;
      if cut.hi <= cursor || cut.lo >= source.hi {
        continue;
      }
      ghost var before := remaining;
      if cut.lo > cursor {
        remaining := remaining + [Interval(cursor, cut.lo)];
      }
      forall x | source.lo <= x < cut.hi && x < source.hi
        ensures Covers(remaining, x) <==> !Covers(removed, x)
      {
        CutStep(before, removed, i - 1, cursor, source, x);
      }
      cursor := Max(cursor, cut.hi);
      if cursor >= source.hi {
        break;
      }
    }
    ghost var before := remaining;
    assert cursor < source.hi ==> i == |removed|;
    if cursor < source.hi {
      remaining := remaining + [Interval(cursor, source.hi)];
    }
    hide Covers, Canonical;
    forall x
      ensures Covers(remaining, x) <==> source.lo <= x < source.hi && !Covers(removed, x)
    {
      LastPart(before, removed, cursor, source, x);
    }
  }

  /** What is left behind the last cut. */
  lemma LastPart(before: seq<Interval>, removed: seq<Interval>, cursor: int, source: Interval, x: int)
    requires source.lo <= cursor
    requires forall r :: r in before ==> source.lo <= r.lo && r.hi <= source.hi && r.hi <= cursor
    requires cursor < source.hi ==> forall r :: r in removed ==> r.hi <= cursor || r.lo >= source.hi
    requires source.lo <= x < cursor && x < source.hi ==> (Covers(before, x) <==> !Covers(removed, x))
    ensures var after := if cursor < source.hi then before + [Interval(cursor, source.hi)] else before;
      Covers(after, x) <==> source.lo <= x < source.hi && !Covers(removed, x)
  {
    CoversConcat(before, [Interval(cursor, source.hi)], x);
    CoversOne(Interval(cursor, source.hi), x);
  }

  /** One cut: what is covered below the end of the `i`-th removal once it has been taken out. */
  lemma CutStep(before: seq<Interval>, removed: seq<Interval>, i: nat, cursor: int,
                source: Interval, x: int)
    requires Canonical(removed) && i < |removed| && source.lo <= cursor < removed[i].hi
    requires forall r :: r in before ==> r.hi <= cursor
    requires forall k :: 0 <= k < i ==> removed[k].hi <= cursor || removed[k].lo >= source.hi
    requires source.lo <= x < removed[i].hi && x < source.hi
    requires x < cursor ==> (Covers(before, x) <==> !Covers(removed, x))
    ensures var after := if removed[i].lo > cursor then before + [Interval(cursor, removed[i].lo)] else before;
            Covers(after, x) <==> !Covers(removed, x)
  {
  }

  method SubtractLineRanges(sources: seq<Interval>, removed: seq<Interval>)
    returns (remaining: seq<Interval>)
    ensures Proper(remaining)
    ensures forall r :: r in remaining ==> r.lo >= 1
    ensures forall x :: Covers(remaining, x) <==>
      Covers(MergeLines(sources), x) && !Covers(MergeLines(removed), x)
  {
    var from := MergeRanges(sources);
    var cuts := MergeRanges(removed);
    MergeLinesFacts(sources);
    MergeLinesFacts(removed);
    hide MergeLines, NormalizeLines;
    remaining := [];
    assert from[..0] == [];
    for i := 0 to |from|
      invariant Proper(remaining)
      invariant forall r :: r in remaining ==> r.lo >= 1
      invariant forall x :: Covers(remaining, x) <==> Covers(from[..i], x) && !Covers(cuts, x)
    {
      var part := SubtractFromOne(from[i], cuts);
      assert from[..i + 1] == from[..i] + [from[i]];
      forall x
        ensures Covers(remaining + part, x) <==> Covers(from[..i + 1], x) && !Covers(cuts, x)
      {
        CoversConcat(remaining, part, x);
        CoversConcat(from[..i], [from[i]], x);
        CoversOne(from[i], x);
      }
      remaining := remaining + part;
    }
    assert from[..|from|] == from;
  }
}
