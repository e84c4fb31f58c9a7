/** The whole edit call: validate and plan each edit, drop what overlaps, apply the rest.

    The reference is order-free: an edit survives when it is not refused and no other planned
    match overlaps one of its matches, and the new text substitutes the surviving matches.
 */
module BatchEdit {
  import opened EditAuthority
  import opened Edits
  import opened Prelude
  import opened Ranges
  import opened Splicing
  import opened TextLines

  /** Why an edit cannot be planned on its own, checked in the tool's order. */
  ghost function Refusal(content: string, state: FileState, e: Edit): Option<Reason> {
    if e.oldString == "" then Some(EmptyOldString)
    else if e.oldString == e.newString then Some(NoChange)
    else if forall s: nat :: !Occurs(content, e.oldString, s) then Some(NotFoundMatch)
    else if !e.replaceAll
            && exists s: nat, t: nat :: s != t && Occurs(content, e.oldString, s) && Occurs(content, e.oldString, t)
    then Some(MultipleMatches)
    else if exists s: nat :: Occurs(content, e.oldString, s) && !MatchCovered(content, state, e, s)
    then Some(PartialRead)
    else None
  }

  /** Every line a match can affect was delivered. */
  predicate MatchCovered(content: string, state: FileState, e: Edit, s: nat) {
    CoversLines(state, LineNumber(content, s), LineNumber(content, s + |e.oldString|))
  }

  function MatchOf(e: Edit, s: nat): Patch {
    Patch(s, s + |e.oldString|, e.newString)
  }

  /** Some planned match, other than match `s` of edit `i` itself, overlaps a match of edit `i`. */
  ghost predicate Clashing(content: string, state: FileState, edits: seq<Edit>, i: nat)
    requires i < |edits|
  {
    exists j: nat, s: nat, t: nat ::
      && j < |edits| && Refusal(content, state, edits[j]).None?
      && Occurs(content, edits[i].oldString, s) && Occurs(content, edits[j].oldString, t)
      && (i != j || s != t)
      && Overlap(MatchOf(edits[i], s), MatchOf(edits[j], t))
  }

  ghost predicate Survives(content: string, state: FileState, edits: seq<Edit>, i: nat)
    requires i < |edits|
  {
    Refusal(content, state, edits[i]).None? && !Clashing(content, state, edits, i)
  }

  /** The matches that are applied, as a set. */
  ghost function Survivors(content: string, state: FileState, edits: seq<Edit>): set<Patch> {
    set i: nat, s: nat | i < |edits| && s <= |content|
      && Survives(content, state, edits, i) && Occurs(content, edits[i].oldString, s)
      :: MatchOf(edits[i], s)
  }

  // ----- planning one edit

  method PlanExactEdit(content: string, state: FileState, e: Edit)
    returns (starts: seq<nat>, refusal: Option<Reason>)
    ensures refusal == Refusal(content, state, e)
    ensures refusal.None? ==> AllMatches(content, e.oldString, starts)
  {
    hide Refusal, AllMatches, LineNumber, CoversLines;
    starts := [];
    MalformedRefusal(content, state, e);
    if e.oldString == "" {
      return starts, Some(EmptyOldString);
    }
    if e.oldString == e.newString {
      return starts, Some(NoChange);
    }
    starts := MatchOffsets(content, e.oldString);
    PlannedRefusal(content, state, e, starts);
    if starts == [] {
      return starts, Some(NotFoundMatch);
    }
    if |starts| > 1 && !e.replaceAll {
      return starts, Some(MultipleMatches);
    }
    for k := 0 to |starts|
      invariant forall i :: 0 <= i < k ==> MatchCovered(content, state, e, starts[i])
    {
      var first, last := LineRangeForOffsets(content, starts[k], starts[k] + |e.oldString|);
      if !CoversLines(state, first, last) {
        return starts, Some(PartialRead);
      }
    }
    return starts, None;
  }

  lemma MalformedRefusal(content: string, state: FileState, e: Edit)
    ensures e.oldString == "" ==> Refusal(content, state, e) == Some(EmptyOldString)
    ensures e.oldString != "" && e.oldString == e.newString ==> Refusal(content, state, e) == Some(NoChange)
  {
  }

  /** The refusal of an edit that is not malformed, told from the list of its matches. */
  lemma PlannedRefusal(content: string, state: FileState, e: Edit, starts: seq<nat>)
    requires e.oldString != "" && e.oldString != e.newString && AllMatches(content, e.oldString, starts)
    ensures Refusal(content, state, e) ==
      if starts == [] then Some(NotFoundMatch)
      else if |starts| > 1 && !e.replaceAll then Some(MultipleMatches)
      else if exists k :: 0 <= k < |starts| && !MatchCovered(content, state, e, starts[k]) then Some(PartialRead)
      else None
  {
    hide MatchCovered, Occurs;
    if starts != [] {
      assert starts[0] in starts;
      if |starts| > 1 {
        assert starts[1] in starts;
      } else {
        assert starts == [starts[0]];
      }
    }
    assert forall k :: 0 <= k < |starts| ==> starts[k] in starts;
  }

  // ----- collecting, sorting and filtering the planned matches

  ghost predicate PlannedMatch(content: string, state: FileState, edits: seq<Edit>, r: Replacement) {
    && r.owner < |edits| && Refusal(content, state, edits[r.owner]).None?
    && Occurs(content, edits[r.owner].oldString, r.patch.start)
    && r.patch == MatchOf(edits[r.owner], r.patch.start)
  }

  predicate Distinct(rs: seq<Replacement>) {
    forall i, j :: 0 <= i < j < |rs| ==> rs[i] != rs[j]
  }

  predicate KeyLess(a: Replacement, b: Replacement) {
    a.patch.start < b.patch.start || (a.patch.start == b.patch.start && a.patch.end < b.patch.end)
  }

  lemma Cons(r: Replacement, rs: seq<Replacement>)
    ensures forall x :: x in [r] + rs <==> x == r || x in rs
    ensures ByStart(rs) && (forall x :: x in rs ==> r.patch.start <= x.patch.start) ==> ByStart([r] + rs)
    ensures Distinct(rs) && r !in rs ==> Distinct([r] + rs)
  {
  }

  lemma Uncons(rs: seq<Replacement>)
    requires rs != []
    ensures rs == [rs[0]] + rs[1..]
    ensures forall x :: x in rs <==> x == rs[0] || x in rs[1..]
    ensures ByStart(rs) ==> ByStart(rs[1..]) && forall x :: x in rs[1..] ==> rs[0].patch.start <= x.patch.start
    ensures Distinct(rs) ==> Distinct(rs[1..]) && rs[0] !in rs[1..]
  {
  }

  function InsertMatch(r: Replacement, rs: seq<Replacement>): (s: seq<Replacement>) {
    if rs == [] then [r]
    else if !KeyLess(rs[0], r) then [r] + rs
    else [rs[0]] + InsertMatch(r, rs[1..])
  }

  lemma {:induction false} InsertFacts(r: Replacement, rs: seq<Replacement>)
    requires ByStart(rs)
    ensures ByStart(InsertMatch(r, rs))
    ensures forall x :: x in InsertMatch(r, rs) <==> x == r || x in rs
    ensures Distinct(rs) && r !in rs ==> Distinct(InsertMatch(r, rs))
    decreases |rs|
  {
    hide ByStart, Distinct;
    if rs == [] {
      assert ByStart([r]) && Distinct([r]) by { Singleton(r); }
    } else {
      Uncons(rs);
      if !KeyLess(rs[0], r) {
        assert InsertMatch(r, rs) == [r] + rs;
        hide InsertMatch;
        Cons(r, rs);
      } else {
        var rest := InsertMatch(r, rs[1..]);
        assert InsertMatch(r, rs) == [rs[0]] + rest;
        hide InsertMatch;
        InsertFacts(r, rs[1..]);
        Cons(rs[0], rest);
      }
    }
  }

  lemma Singleton(r: Replacement)
    ensures ByStart([r]) && Distinct([r])
  {
  }

  /** The stable sort by `(start, end)`. */
  function SortMatches(rs: seq<Replacement>): seq<Replacement> {
    if rs == [] then [] else InsertMatch(rs[0], SortMatches(rs[1..]))
  }

  lemma {:induction false} SortFacts(rs: seq<Replacement>)
    ensures ByStart(SortMatches(rs))
    ensures forall x :: x in SortMatches(rs) <==> x in rs
    ensures Distinct(rs) ==> Distinct(SortMatches(rs))
    decreases |rs|
  {
    if rs != [] {
      Uncons(rs);
      SortFacts(rs[1..]);
      InsertFacts(rs[0], SortMatches(rs[1..]));
    }
  }

  /** The matches whose edit is not among `bad`, in order. */
  function Keep(rs: seq<Replacement>, bad: set<nat>): seq<Replacement> {
    if rs == [] then []
    else if rs[0].owner in bad then Keep(rs[1..], bad)
    else [rs[0]] + Keep(rs[1..], bad)
  }

  lemma {:induction false} KeepFacts(rs: seq<Replacement>, bad: set<nat>)
    ensures forall x :: x in Keep(rs, bad) <==> x in rs && x.owner !in bad
    ensures ByStart(rs) ==> ByStart(Keep(rs, bad))
    ensures Distinct(rs) ==> Distinct(Keep(rs, bad))
    decreases |rs|
  {
    if rs != [] {
      hide ByStart, Distinct;
      Uncons(rs);
      KeepFacts(rs[1..], bad);
      Cons(rs[0], Keep(rs[1..], bad));
    }
  }

  function Patches(rs: seq<Replacement>): (ps: seq<Patch>)
    ensures |ps| == |rs| && forall i :: 0 <= i < |rs| ==> ps[i] == rs[i].patch
  {
    seq(|rs|, i requires 0 <= i < |rs| => rs[i].patch)
  }

  lemma {:induction false} PlacedWhenDisjoint(content: string, ps: seq<Patch>, cursor: nat)
    requires cursor <= |content|
    requires forall i :: 0 <= i < |ps| ==> cursor <= ps[i].start < ps[i].end <= |content|
    requires forall i, j :: 0 <= i < j < |ps| ==> ps[i].end <= ps[j].start
    ensures Placed(content, ps, cursor)
    decreases |ps|
  {
    if ps != [] {
      assert forall i :: 0 <= i < |ps[1..]| ==> ps[1..][i] == ps[i + 1];
      PlacedWhenDisjoint(content, ps[1..], ps[0].end);
    }
  }

  ghost predicate Collected(content: string, state: FileState, edits: seq<Edit>, n: nat, rs: seq<Replacement>) {
    && Distinct(rs)
    && forall r :: r in rs <==> r.owner < n && PlannedMatch(content, state, edits, r)
  }

  /** Plan every edit against the same pre-image. */
  method CollectMatches(content: string, state: FileState, edits: seq<Edit>)
    returns (rs: seq<Replacement>, failures: map<nat, Reason>)
    ensures Collected(content, state, edits, |edits|, rs)
    ensures failures.Keys == set i: nat | i < |edits| && Refusal(content, state, edits[i]).Some?
    ensures forall i :: i in failures ==> Refusal(content, state, edits[i]) == Some(failures[i])
  {
    rs, failures := [], map[];
    for n := 0 to |edits|
      invariant Collected(content, state, edits, n, rs)
      invariant failures.Keys == set i: nat | i < n && Refusal(content, state, edits[i]).Some?
      invariant forall i :: i in failures ==> Refusal(content, state, edits[i]) == Some(failures[i])
    {
      var starts, refusal := PlanExactEdit(content, state, edits[n]);
      if refusal.Some? {
        failures := failures[n := refusal.value];
      } else {
        var own := OwnMatches(content, state, edits, n, starts);
        AppendOwn(content, state, edits, n, rs, own);
        rs := rs + own;
      }
    }
  }

  method OwnMatches(ghost content: string, ghost state: FileState, edits: seq<Edit>, n: nat, starts: seq<nat>)
    returns (own: seq<Replacement>)
    requires n < |edits| && Refusal(content, state, edits[n]).None?
    requires AllMatches(content, edits[n].oldString, starts)
    ensures Distinct(own)
    ensures forall r :: r in own <==> r.owner == n && PlannedMatch(content, state, edits, r)
  {
    own := seq(|starts|, k requires 0 <= k < |starts| => Replacement(MatchOf(edits[n], starts[k]), n));
    forall r: Replacement | r.owner == n && PlannedMatch(content, state, edits, r)
      ensures r in own
    {
      assert r.patch.start in starts;
      var k :| 0 <= k < |starts| && starts[k] == r.patch.start;
      assert own[k] == r;
    }
    forall r | r in own
      ensures r.owner == n && PlannedMatch(content, state, edits, r)
    {
      var k :| 0 <= k < |own| && own[k] == r;
      assert starts[k] in starts;
    }
  }

  lemma AppendOwn(content: string, state: FileState, edits: seq<Edit>, n: nat,
                  rs: seq<Replacement>, own: seq<Replacement>)
    requires Collected(content, state, edits, n, rs) && Distinct(own)
    requires forall r :: r in own <==> r.owner == n && PlannedMatch(content, state, edits, r)
    ensures Collected(content, state, edits, n + 1, rs + own)
  {
  }

  /** Clashes among the sorted matches are clashes among the edits. */
  lemma ClashIsClashing(content: string, state: FileState, edits: seq<Edit>, rs: seq<Replacement>, i: nat)
    requires Collected(content, state, edits, |edits|, rs) && i < |edits|
    ensures (exists j: nat :: Clash(rs, i, j)) <==>
      Refusal(content, state, edits[i]).None? && Clashing(content, state, edits, i)
  {
    hide Refusal, Clashing, Clash, Collected;
    if j: nat :| Clash(rs, i, j) {
      ClashOfMatches(content, state, edits, rs, i, j);
    }
    if Refusal(content, state, edits[i]).None? && Clashing(content, state, edits, i) {
      var j := MatchesClash(content, state, edits, rs, i);
    }
  }

  lemma ClashOfMatches(content: string, state: FileState, edits: seq<Edit>, rs: seq<Replacement>, i: nat, j: nat)
    requires Collected(content, state, edits, |edits|, rs) && i < |edits| && Clash(rs, i, j)
    ensures Refusal(content, state, edits[i]).None? && Clashing(content, state, edits, i)
  {
    hide Refusal, Occurs, Overlap;
    var a, b :| 0 <= a < |rs| && 0 <= b < |rs| && a != b
      && rs[a].owner == i && rs[b].owner == j && Overlap(rs[a].patch, rs[b].patch);
    assert rs[a] in rs && rs[b] in rs && rs[a] != rs[b];
    assert PlannedMatch(content, state, edits, rs[a]) && PlannedMatch(content, state, edits, rs[b]);
  }

  lemma MatchesClash(content: string, state: FileState, edits: seq<Edit>, rs: seq<Replacement>, i: nat) returns (j: nat)
    requires Collected(content, state, edits, |edits|, rs) && i < |edits|
    requires Refusal(content, state, edits[i]).None? && Clashing(content, state, edits, i)
    ensures Clash(rs, i, j)
  {
    hide Refusal, Occurs, Overlap;
    var s: nat, t: nat;
    j, s, t :|
      && j < |edits| && Refusal(content, state, edits[j]).None?
      && Occurs(content, edits[i].oldString, s) && Occurs(content, edits[j].oldString, t)
      && (i != j || s != t) && Overlap(MatchOf(edits[i], s), MatchOf(edits[j], t));
    var x, y := Replacement(MatchOf(edits[i], s), i), Replacement(MatchOf(edits[j], t), j);
    assert PlannedMatch(content, state, edits, x) && PlannedMatch(content, state, edits, y);
    assert x in rs && y in rs && x != y;
    var a :| 0 <= a < |rs| && rs[a] == x;
    var b :| 0 <= b < |rs| && rs[b] == y;
  }

  lemma PlannedWithin(content: string, state: FileState, edits: seq<Edit>, r: Replacement)
    requires PlannedMatch(content, state, edits, r)
    ensures r.patch.start < r.patch.end <= |content|
  {
  }

  /** What remains after dropping clashing edits is disjoint and is exactly the survivors. */
  lemma KeptIsPlaced(content: string, state: FileState, edits: seq<Edit>, rs: seq<Replacement>, bad: set<nat>)
    requires Collected(content, state, edits, |edits|, rs) && ByStart(rs)
    requires forall i: nat :: i in bad <==> exists j: nat :: Clash(rs, i, j)
    ensures Placed(content, Patches(Keep(rs, bad)), 0)
  {
    var kept := Keep(rs, bad);
    KeepFacts(rs, bad);
    var ps := Patches(kept);
    forall i | 0 <= i < |ps|
      ensures 0 <= ps[i].start < ps[i].end <= |content|
    {
      assert kept[i] in kept;
      PlannedWithin(content, state, edits, kept[i]);
    }
    forall i, j | 0 <= i < j < |ps|
      ensures ps[i].end <= ps[j].start
    {
      assert kept[i] in kept && kept[j] in kept && kept[i] != kept[j];
      var a :| 0 <= a < |rs| && rs[a] == kept[i];
      var b :| 0 <= b < |rs| && rs[b] == kept[j];
      assert !Clash(rs, kept[i].owner, kept[j].owner);
      assert !Overlap(rs[a].patch, rs[b].patch);
    }
    PlacedWhenDisjoint(content, ps, 0);
  }

  lemma KeptIsSurvivors(content: string, state: FileState, edits: seq<Edit>, rs: seq<Replacement>, bad: set<nat>)
    requires Collected(content, state, edits, |edits|, rs)
    requires forall i: nat :: i in bad <==> exists j: nat :: Clash(rs, i, j)
    ensures ToSet(Patches(Keep(rs, bad))) == Survivors(content, state, edits)
  {
    var kept := Keep(rs, bad);
    KeepFacts(rs, bad);
    var ps := Patches(kept);
    hide Clash, Keep, Collected, Survives;
    forall p | p in ToSet(ps)
      ensures p in Survivors(content, state, edits)
    {
      var k :| 0 <= k < |ps| && ps[k] == p;
      assert kept[k] in kept;
      KeptSurvives(content, state, edits, rs, bad, kept[k]);
    }
    forall p | p in Survivors(content, state, edits)
      ensures p in ToSet(ps)
    {
      var i: nat, s: nat :| i < |edits| && s <= |content| && Survives(content, state, edits, i)
        && Occurs(content, edits[i].oldString, s) && p == MatchOf(edits[i], s);
      SurvivorKept(content, state, edits, rs, bad, i, s);
      assert Replacement(p, i) in kept;
      var k :| 0 <= k < |kept| && kept[k] == Replacement(p, i);
      assert ps[k] == p;
    }
  }

  lemma KeptSurvives(content: string, state: FileState, edits: seq<Edit>, rs: seq<Replacement>, bad: set<nat>,
                     r: Replacement)
    requires Collected(content, state, edits, |edits|, rs) && r in rs && r.owner !in bad
    requires forall i: nat :: i in bad <==> exists j: nat :: Clash(rs, i, j)
    ensures r.owner < |edits| && r.patch.start <= |content| && Survives(content, state, edits, r.owner)
    ensures Occurs(content, edits[r.owner].oldString, r.patch.start)
    ensures r.patch == MatchOf(edits[r.owner], r.patch.start)
  {
    hide Refusal, Clash, Clashing;
    assert PlannedMatch(content, state, edits, r);
    ClashIsClashing(content, state, edits, rs, r.owner);
  }

  lemma SurvivorKept(content: string, state: FileState, edits: seq<Edit>, rs: seq<Replacement>, bad: set<nat>,
                     i: nat, s: nat)
    requires Collected(content, state, edits, |edits|, rs) && i < |edits|
    requires forall i: nat :: i in bad <==> exists j: nat :: Clash(rs, i, j)
    requires Survives(content, state, edits, i) && Occurs(content, edits[i].oldString, s)
    ensures Replacement(MatchOf(edits[i], s), i) in rs && i !in bad
  {
    hide Refusal, Clash, Clashing, Occurs;
    assert PlannedMatch(content, state, edits, Replacement(MatchOf(edits[i], s), i));
    ClashIsClashing(content, state, edits, rs, i);
  }

  // ----- the call

  datatype Outcome =
    | Rejected(failures: map<nat, Reason>)
    | Applied(text: string, patches: seq<Patch>, failures: map<nat, Reason>)

  /** The reason recorded for an edit that does not survive. */
  ghost function FailureOf(content: string, state: FileState, edits: seq<Edit>, i: nat): Reason
    requires i < |edits| && !Survives(content, state, edits, i)
  {
    if Refusal(content, state, edits[i]).Some? then Refusal(content, state, edits[i]).value
    else Overlapping
  }

  lemma SortedSolid(content: string, state: FileState, edits: seq<Edit>, rs: seq<Replacement>)
    requires Collected(content, state, edits, |edits|, rs)
    ensures Solid(rs)
  {
  }

  lemma SurvivorHasPatch(content: string, state: FileState, edits: seq<Edit>, i: nat)
    requires i < |edits| && Survives(content, state, edits, i)
    ensures exists s: nat :: Occurs(content, edits[i].oldString, s) &&
              MatchOf(edits[i], s) in Survivors(content, state, edits)
  {
  }

  lemma SurvivorIsPlanned(content: string, state: FileState, edits: seq<Edit>, i: nat)
    requires i < |edits| && Survives(content, state, edits, i)
    ensures exists r :: PlannedMatch(content, state, edits, r) && r.owner == i
  {
    var s: nat :| Occurs(content, edits[i].oldString, s);
    assert PlannedMatch(content, state, edits, Replacement(MatchOf(edits[i], s), i));
  }

  /** `bad` is exactly the planned edits that clash. */
  ghost predicate IsClashSet(content: string, state: FileState, edits: seq<Edit>, bad: set<nat>) {
    forall i: nat :: i < |edits| ==>
      (i in bad <==> Refusal(content, state, edits[i]).None? && Clashing(content, state, edits, i))
  }

  lemma ReportedIsClashSet(content: string, state: FileState, edits: seq<Edit>,
                           rs: seq<Replacement>, conflicts: map<nat, set<nat>>)
    requires Collected(content, state, edits, |edits|, rs)
    requires forall i: nat, j: nat :: Reports(conflicts, i, j) <==> Clash(rs, i, j)
    requires forall i :: i in conflicts ==> exists j: nat :: Reports(conflicts, i, j)
    ensures forall i: nat :: i in conflicts.Keys <==> exists j: nat :: Clash(rs, i, j)
    ensures IsClashSet(content, state, edits, conflicts.Keys)
  {
    forall i: nat
      ensures i in conflicts.Keys <==> exists j: nat :: Clash(rs, i, j)
    {
      if i in conflicts {
        var j: nat :| Reports(conflicts, i, j);
        assert Clash(rs, i, j);
      }
      if exists j: nat :: Clash(rs, i, j) {
        var j: nat :| Clash(rs, i, j);
        assert Reports(conflicts, i, j);
      }
    }
    hide Clash, Clashing, Refusal, Collected;
    forall i: nat | i < |edits|
      ensures i in conflicts.Keys <==>
        Refusal(content, state, edits[i]).None? && Clashing(content, state, edits, i)
    {
      ClashIsClashing(content, state, edits, rs, i);
    }
  }

  lemma KeptAreSurvivors(content: string, state: FileState, edits: seq<Edit>, rs: seq<Replacement>, bad: set<nat>)
    requires Collected(content, state, edits, |edits|, rs) && IsClashSet(content, state, edits, bad)
    ensures forall r :: r in Keep(rs, bad) <==>
      PlannedMatch(content, state, edits, r) && Survives(content, state, edits, r.owner)
  {
    hide Clashing, Keep;
    KeepFacts(rs, bad);
  }

  /** Plan all edits, drop the clashing ones, and record a reason for every edit left out. */
  method SelectMatches(content: string, state: FileState, edits: seq<Edit>)
    returns (kept: seq<Replacement>, failures: map<nat, Reason>)
    ensures Placed(content, Patches(kept), 0)
    ensures ToSet(Patches(kept)) == Survivors(content, state, edits)
    ensures forall r :: r in kept <==>
      PlannedMatch(content, state, edits, r) && Survives(content, state, edits, r.owner)
    ensures forall i: nat :: i < |edits| ==> (i in failures <==> !Survives(content, state, edits, i))
    ensures forall i: nat :: i < |edits| && i in failures ==> failures[i] == FailureOf(content, state, edits, i)
  {
    hide Refusal, Clashing, Clash, Reports, Placed, Occurs;
    var collected, refused := CollectMatches(content, state, edits);
    var rs := SortMatches(collected);
    SortFacts(collected);
    assert Collected(content, state, edits, |edits|, rs);
    hide Collected, PlannedMatch, Keep, Patches, ToSet, Survivors;
    SortedSolid(content, state, edits, rs);
    var conflicts := OverlappingEdits(rs);
    ReportedIsClashSet(content, state, edits, rs, conflicts);
    failures := refused + map i | i in conflicts :: Overlapping;
    kept := Keep(rs, conflicts.Keys);
    KeptIsPlaced(content, state, edits, rs, conflicts.Keys);
    KeptIsSurvivors(content, state, edits, rs, conflicts.Keys);
    KeptAreSurvivors(content, state, edits, rs, conflicts.Keys);
  }

  /** The new text is the simultaneous substitution of the surviving matches, and an edit is left
      out exactly when it is refused by itself or overlaps; nothing is applied when nothing
      survives or when the surviving edits together change nothing.
   */
  method ApplyEdits(content: string, state: FileState, edits: seq<Edit>) returns (out: Outcome)
    ensures out.Applied? <==>
      Survivors(content, state, edits) != {} && Substitute(content, Survivors(content, state, edits)) != content
    ensures out.Applied? ==>
      && out.text == Substitute(content, Survivors(content, state, edits))
      && Placed(content, out.patches, 0)
      && out.text == Splice(content, out.patches, 0)
      && ToSet(out.patches) == Survivors(content, state, edits)
    ensures out.Applied? ==> forall i: nat :: i < |edits| ==>
      (i in out.failures <==> !Survives(content, state, edits, i))
    ensures out.Rejected? ==> forall i: nat :: i < |edits| ==> i in out.failures
    ensures forall i: nat :: i < |edits| && i in out.failures ==>
      out.failures[i] == if Survives(content, state, edits, i) then NoChange else FailureOf(content, state, edits, i)
  {
    hide Refusal, Clashing, Occurs, Survivors, Survives, Placed, Splice, Substitute, FailureOf;
    var kept, failures := SelectMatches(content, state, edits);
    var patches := Patches(kept);
    if patches == [] {
      forall i: nat | i < |edits|
        ensures i in failures
      {
        if Survives(content, state, edits, i) {
          SurvivorHasPatch(content, state, edits, i);
          assert false;
        }
      }
      return Rejected(failures);
    }
    assert patches[0] in ToSet(patches);
    var text := ApplyReplacements(content, patches);
    SpliceIsSubstitution(content, patches);
    if text == content {
      var owners := set r | r in kept :: r.owner;
      forall i: nat | i < |edits| && Survives(content, state, edits, i)
        ensures i in owners
      {
        SurvivorIsPlanned(content, state, edits, i);
      }
      failures := failures + map i | i in owners :: NoChange;
      return Rejected(failures);
    }
    return Applied(text, patches, failures);
  }

  // ----- the order of the edits does not matter

  ghost predicate Meet(content: string, d: Edit, e: Edit) {
    exists s: nat, t: nat :: Occurs(content, d.oldString, s) && Occurs(content, e.oldString, t)
                             && Overlap(MatchOf(d, s), MatchOf(e, t))
  }

  ghost predicate MeetsItself(content: string, e: Edit) {
    exists s: nat, t: nat :: s != t && Occurs(content, e.oldString, s) && Occurs(content, e.oldString, t)
                             && Overlap(MatchOf(e, s), MatchOf(e, t))
  }

  /** Survival in a bag of edits: said without positions. */
  ghost predicate SurvivesIn(content: string, state: FileState, bag: multiset<Edit>, e: Edit) {
    && Refusal(content, state, e).None?
    && !MeetsItself(content, e)
    && forall d :: d in bag - multiset{e} && Refusal(content, state, d).None? ==> !Meet(content, e, d)
  }

  lemma Others(edits: seq<Edit>, i: nat, d: Edit)
    requires i < |edits|
    ensures d in multiset(edits) - multiset{edits[i]} <==>
      exists j :: 0 <= j < |edits| && j != i && edits[j] == d
  {
    var front, back := edits[..i], edits[i + 1..];
    BagWithout(edits, i, d);
    if d in front {
      var k :| 0 <= k < |front| && front[k] == d;
      assert edits[k] == d;
    }
    if d in back {
      var k :| 0 <= k < |back| && back[k] == d;
      assert edits[i + 1 + k] == d;
    }
    if j :| 0 <= j < |edits| && j != i && edits[j] == d {
      assert if j < i then front[j] == d else back[j - i - 1] == d;
    }
  }

  lemma BagWithout(edits: seq<Edit>, i: nat, d: Edit)
    requires i < |edits|
    ensures d in multiset(edits) - multiset{edits[i]} <==> d in edits[..i] || d in edits[i + 1..]
  {
    assert edits == edits[..i] + [edits[i]] + edits[i + 1..];
    assert multiset(edits) == multiset(edits[..i]) + multiset{edits[i]} + multiset(edits[i + 1..]);
  }

  lemma ClashingApart(content: string, state: FileState, edits: seq<Edit>, i: nat)
    requires i < |edits| && Refusal(content, state, edits[i]).None?
    ensures Clashing(content, state, edits, i) <==>
      || MeetsItself(content, edits[i])
      || exists j: nat :: j < |edits| && j != i && Refusal(content, state, edits[j]).None?
                          && Meet(content, edits[i], edits[j])
  {
  }

  lemma SurvivesByBag(content: string, state: FileState, edits: seq<Edit>, i: nat)
    requires i < |edits|
    ensures Survives(content, state, edits, i) <==> SurvivesIn(content, state, multiset(edits), edits[i])
  {
    hide Refusal, Clashing, Meet, MeetsItself;
    if Refusal(content, state, edits[i]).None? {
      ClashingApart(content, state, edits, i);
      forall d
        ensures d in multiset(edits) - multiset{edits[i]} <==>
          exists j :: 0 <= j < |edits| && j != i && edits[j] == d
      {
        Others(edits, i, d);
      }
    }
  }

  lemma SurvivorsWithin(content: string, state: FileState, es: seq<Edit>, fs: seq<Edit>, p: Patch)
    requires multiset(es) == multiset(fs) && p in Survivors(content, state, es)
    ensures p in Survivors(content, state, fs)
  {
    var i: nat, s: nat :| i < |es| && s <= |content| && Survives(content, state, es, i)
      && Occurs(content, es[i].oldString, s) && p == MatchOf(es[i], s);
    assert es[i] in multiset(fs);
    var j: nat :| j < |fs| && fs[j] == es[i];
    SurvivesByBag(content, state, es, i);
    SurvivesByBag(content, state, fs, j);
  }

  /** An edit meets the same fate wherever it stands: it survives, or fails for the same reason. */
  lemma SameFate(content: string, state: FileState, es: seq<Edit>, fs: seq<Edit>, i: nat, j: nat)
    requires multiset(es) == multiset(fs) && i < |es| && j < |fs| && es[i] == fs[j]
    ensures Survives(content, state, es, i) <==> Survives(content, state, fs, j)
    ensures !Survives(content, state, es, i) ==> FailureOf(content, state, es, i) == FailureOf(content, state, fs, j)
  {
    hide Survives, SurvivesIn, Refusal;
    SurvivesByBag(content, state, es, i);
    SurvivesByBag(content, state, fs, j);
  }

  /** Reordering the edits changes neither which matches are applied nor the new text, nor why an edit fails. */
  lemma OrderIrrelevant(content: string, state: FileState, es: seq<Edit>, fs: seq<Edit>)
    requires multiset(es) == multiset(fs)
    ensures Survivors(content, state, es) == Survivors(content, state, fs)
    ensures Substitute(content, Survivors(content, state, es))
         == Substitute(content, Survivors(content, state, fs))
    ensures forall i: nat, j: nat :: i < |es| && j < |fs| && es[i] == fs[j] ==>
      && (Survives(content, state, es, i) <==> Survives(content, state, fs, j))
      && (!Survives(content, state, es, i) ==> FailureOf(content, state, es, i) == FailureOf(content, state, fs, j))
  {
    hide Survives, FailureOf, Substitute;
    forall i: nat, j: nat | i < |es| && j < |fs| && es[i] == fs[j]
      ensures Survives(content, state, es, i) <==> Survives(content, state, fs, j)
      ensures !Survives(content, state, es, i) ==> FailureOf(content, state, es, i) == FailureOf(content, state, fs, j)
    {
      SameFate(content, state, es, fs, i, j);
    }
    forall p
      ensures p in Survivors(content, state, es) <==> p in Survivors(content, state, fs)
    {
      if p in Survivors(content, state, es) { SurvivorsWithin(content, state, es, fs, p); }
      if p in Survivors(content, state, fs) { SurvivorsWithin(content, state, fs, es, p); }
    }
  }

  // ----- one edit

  /** The searched text stands there. */
  predicate StandsAt(text: string, search: string, s: nat) {
    s + |search| <= |text| && text[s..s + |search|] == search
  }

  lemma StandsIs(text: string, search: string, s: nat)
    ensures Occurs(text, search, s) <==> StandsAt(text, search, s)
  {
  }

  /** The plain case: a text that stands in one place, in view, is replaced there and nothing else changes. */
  lemma OneEdit(before: string, e: Edit, behind: string, state: FileState)
    requires e.oldString != "" && e.oldString != e.newString && state.fullView
    requires forall s: nat :: StandsAt(before + e.oldString + behind, e.oldString, s) ==> s == |before|
    ensures var content := before + e.oldString + behind;
      && Survives(content, state, [e], 0)
      && Survivors(content, state, [e]) == {Patch(|before|, |before| + |e.oldString|, e.newString)}
      && Substitute(content, Survivors(content, state, [e])) == before + e.newString + behind
  {
    var content, at := before + e.oldString + behind, |before|;
    assert content[at..at + |e.oldString|] == e.oldString;
    forall s: nat
      ensures Occurs(content, e.oldString, s) <==> s == at
    {
      StandsIs(content, e.oldString, s);
    }
    assert Occurs(content, e.oldString, at);
    hide Occurs, Substitute, LineNumber;
    var p := Patch(at, at + |e.oldString|, e.newString);
    assert Refusal(content, state, e).None?;
    assert !Clashing(content, state, [e], 0);
    assert Survives(content, state, [e], 0) && MatchOf([e][0], at) == p;
    forall q
      ensures q in Survivors(content, state, [e]) <==> q == p
    {
    }
    assert Survivors(content, state, [e]) == {p};
    OneSplice(before, e.oldString, e.newString, behind);
    assert ToSet([p]) == {p};
    SpliceIsSubstitution(content, [p]);
  }

  lemma OneSplice(before: string, gone: string, text: string, behind: string)
    requires gone != ""
    ensures var content, p := before + gone + behind, Patch(|before|, |before| + |gone|, text);
      Placed(content, [p], 0) && Splice(content, [p], 0) == before + text + behind
  {
    var content, p := before + gone + behind, Patch(|before|, |before| + |gone|, text);
    assert [p][1..] == [];
    assert content[..|before|] == before && content[|before| + |gone|..] == behind;
  }

  /** A text that stands nowhere is refused. */
  lemma NowhereRefused(content: string, e: Edit, state: FileState)
    requires e.oldString != "" && e.oldString != e.newString && forall s: nat :: !StandsAt(content, e.oldString, s)
    ensures Refusal(content, state, e) == Some(NotFoundMatch)
  {
    forall s: nat
      ensures !Occurs(content, e.oldString, s)
    {
      StandsIs(content, e.oldString, s);
    }
  }

  // ----- an edit is refused for lines that were not read, and for no others

  /** The match at `s` affects a line that was not delivered. */
  ghost predicate TouchesUnread(content: string, state: FileState, e: Edit, s: nat) {
    exists n: nat :: LineNumber(content, s) <= n <= LineNumber(content, s + |e.oldString|) && !Covers(state.covered, n)
  }

  lemma CoveredIff(content: string, state: FileState, e: Edit, s: nat)
    requires Canonical(state.covered) && !state.fullView
    ensures MatchCovered(content, state, e, s) <==> !TouchesUnread(content, state, e, s)
  {
    var first, last := LineNumber(content, s), LineNumber(content, s + |e.oldString|);
    LineNumberMonotone(content, s, s + |e.oldString|);
    hide LineNumber;
    HoldsRunIsEveryLine(state.covered, first, last);
    hide Covers, HoldsRun;
  }

  /** Of the edits that name a change and match as they should, exactly those are refused that touch an unread line;
      with the whole file in view, none is. */
  lemma RefusedIffUnread(content: string, state: FileState, e: Edit)
    requires Canonical(state.covered)
    requires Refusal(content, state.(fullView := true), e).None?
    ensures Refusal(content, state, e).None? <==>
      state.fullView || forall s: nat :: Occurs(content, e.oldString, s) ==> !TouchesUnread(content, state, e, s)
    ensures Refusal(content, state, e).Some? ==> Refusal(content, state, e) == Some(PartialRead)
  {
    hide Occurs, TouchesUnread, LineNumber;
    if !state.fullView {
      forall s: nat
        ensures MatchCovered(content, state, e, s) <==> !TouchesUnread(content, state, e, s)
      {
        CoveredIff(content, state, e, s);
      }
    }
    hide CoversLines;
  }

  // ----- an applied edit only touches lines that were read

  lemma SurvivorCovered(content: string, state: FileState, edits: seq<Edit>, p: Patch)
    requires p in Survivors(content, state, edits)
    ensures CoversLines(state, LineNumber(content, p.start), LineNumber(content, p.end))
  {
  }

  /** Every line the applied patches affect was covered when the edit was planned. */
  lemma AffectedWasRead(content: string, state: FileState, edits: seq<Edit>, patches: seq<Patch>, n: nat)
    requires ToSet(patches) == Survivors(content, state, edits)
    requires Affected(content, patches, n) && !state.fullView
    ensures Covers(state.covered, n)
  {
    hide Survivors, LineNumber;
    var k :| 0 <= k < |patches|
      && LineNumber(content, patches[k].start) <= n <= LineNumber(content, patches[k].end);
    assert patches[k] in ToSet(patches);
    SurvivorCovered(content, state, edits, patches[k]);
  }
}
