/** Applying a batch of disjoint replacements to one pre-image.

    `Splice` is the cursor form the edit tool runs. `Substitute` is the order-free meaning of
    "replace all of these at once". `Origin` records, for each character of the result, the
    pre-image offset it was kept from.
 */
module Splicing {

  datatype Patch = Patch(start: nat, end: nat, text: string)

  function Growth(p: Patch): int {
    |p.text| - (p.end - p.start)
  }

  /** Nonempty, increasing and disjoint patches of `pre`, none before `cursor`. */
  predicate Placed(pre: string, patches: seq<Patch>, cursor: nat)
    decreases |patches|
  {
    if patches == [] then cursor <= |pre|
    else
      && cursor <= patches[0].start < patches[0].end <= |pre|
      && Placed(pre, patches[1..], patches[0].end)
  }

  function Splice(pre: string, patches: seq<Patch>, cursor: nat): string
    requires Placed(pre, patches, cursor)
    decreases |patches|
  {
    if patches == [] then pre[cursor..]
    else pre[cursor..patches[0].start] + patches[0].text + Splice(pre, patches[1..], patches[0].end)
  }

  lemma {:induction false} PlacedFacts(pre: string, patches: seq<Patch>, cursor: nat)
    requires Placed(pre, patches, cursor)
    ensures cursor <= |pre|
    ensures forall i :: 0 <= i < |patches| ==>
      cursor <= patches[i].start < patches[i].end <= |pre|
    ensures forall i, j :: 0 <= i < j < |patches| ==> patches[i].end <= patches[j].start
    decreases |patches|
  {
    if patches != [] {
      PlacedFacts(pre, patches[1..], patches[0].end);
      assert forall i :: 0 < i < |patches| ==> patches[i] == patches[1..][i - 1];
    }
  }

  /** The source's loop: copy up to each match, emit its text, continue after it. */
  method ApplyReplacements(pre: string, patches: seq<Patch>) returns (text: string)
    requires Placed(pre, patches, 0)
    ensures text == Splice(pre, patches, 0)
  {
    text := "";
    var cursor: nat := 0;
    assert patches[0..] == patches;
    for i := 0 to |patches|
      invariant Placed(pre, patches[i..], cursor)
      invariant text + Splice(pre, patches[i..], cursor) == Splice(pre, patches, 0)
    {
      var p := patches[i];
      assert patches[i..][0] == p && patches[i..][1..] == patches[i + 1..];
      assert text + Splice(pre, patches[i..], cursor)
        == text + pre[cursor..p.start] + p.text + Splice(pre, patches[i + 1..], p.end);
      text := text + pre[cursor..p.start] + p.text;
      cursor := p.end;
    }
    assert patches[|patches|..] == [];
    text := text + pre[cursor..];
  }

  // ----- simultaneous substitution

  function ToSet(patches: seq<Patch>): set<Patch> {
    set r | r in patches
  }

  ghost predicate Inside(patches: set<Patch>, p: nat) {
    exists r :: r in patches && r.start <= p < r.end
  }

  ghost function TextAt(patches: set<Patch>, p: nat): string {
    if exists r :: r in patches && r.start == p
    then (var r :| r in patches && r.start == p; r.text)
    else ""
  }

  /** What offset `p` of the pre-image contributes: the text of a patch starting there, then the
      character itself unless a patch removes it.
   */
  ghost function Emit(pre: string, patches: set<Patch>, p: nat): string
    requires p < |pre|
  {
    TextAt(patches, p) + if Inside(patches, p) then "" else [pre[p]]
  }

  ghost function SubstituteFrom(pre: string, patches: set<Patch>, p: nat): string
    requires p <= |pre|
    decreases |pre| - p
  {
    if p == |pre| then "" else Emit(pre, patches, p) + SubstituteFrom(pre, patches, p + 1)
  }

  /** All patches at once, with no order among them. */
  ghost function Substitute(pre: string, patches: set<Patch>): string {
    SubstituteFrom(pre, patches, 0)
  }

  lemma EmitRemoved(pre: string, patches: seq<Patch>, k: nat, p: nat)
    requires Placed(pre, patches, 0) && k < |patches|
    requires patches[k].start < p < patches[k].end
    ensures p < |pre| && Emit(pre, ToSet(patches), p) == ""
  {
    PlacedFacts(pre, patches, 0);
    var all := ToSet(patches);
    assert patches[k] in all;
    forall r | r in all
      ensures r.start != p
    {
      var i :| 0 <= i < |patches| && patches[i] == r;
    }
  }

  lemma {:induction false} RemovedEmitsNothing(pre: string, patches: seq<Patch>, k: nat, p: nat)
    requires Placed(pre, patches, 0) && k < |patches|
    requires patches[k].start < p <= patches[k].end <= |pre|
    ensures SubstituteFrom(pre, ToSet(patches), p)
         == SubstituteFrom(pre, ToSet(patches), patches[k].end)
    decreases patches[k].end - p
  {
    hide SubstituteFrom, Emit, ToSet, Placed;
    if p < patches[k].end {
      EmitRemoved(pre, patches, k, p);
      SubstituteStep(pre, ToSet(patches), p);
      RemovedEmitsNothing(pre, patches, k, p + 1);
    }
  }

  lemma EmitAtStart(pre: string, patches: seq<Patch>, k: nat)
    requires Placed(pre, patches, 0) && k < |patches|
    ensures patches[k].start < patches[k].end <= |pre|
    ensures Emit(pre, ToSet(patches), patches[k].start) == patches[k].text
  {
    PlacedFacts(pre, patches, 0);
    var all := ToSet(patches);
    assert patches[k] in all;
    forall r | r in all && r.start == patches[k].start
      ensures r == patches[k]
    {
      var i :| 0 <= i < |patches| && patches[i] == r;
    }
    assert Inside(all, patches[k].start);
  }

  lemma EmitInGap(pre: string, patches: seq<Patch>, k: nat, p: nat)
    requires Placed(pre, patches, 0) && k <= |patches|
    requires k > 0 ==> patches[k - 1].end <= p
    requires p < if k < |patches| then patches[k].start else |pre|
    ensures p < |pre| && Emit(pre, ToSet(patches), p) == [pre[p]]
  {
    PlacedFacts(pre, patches, 0);
    forall r | r in ToSet(patches)
      ensures !(r.start <= p < r.end) && r.start != p
    {
      var i :| 0 <= i < |patches| && patches[i] == r;
      if i < k {
        assert i < k - 1 ==> patches[i].end <= patches[k - 1].start;
      } else {
        assert k < i ==> patches[k].end <= patches[i].start;
      }
    }
  }

  lemma SubstituteStep(pre: string, patches: set<Patch>, p: nat)
    requires p < |pre|
    ensures SubstituteFrom(pre, patches, p)
         == Emit(pre, patches, p) + SubstituteFrom(pre, patches, p + 1)
  {
  }

  lemma {:induction false} SpliceIsSubstitutionFrom(pre: string, patches: seq<Patch>, k: nat, p: nat)
    requires Placed(pre, patches, 0) && k <= |patches|
    requires Placed(pre, patches[k..], p)
    requires k > 0 ==> patches[k - 1].end <= p
    requires p <= |pre|
    ensures Splice(pre, patches[k..], p) == SubstituteFrom(pre, ToSet(patches), p)
    decreases |pre| - p
  {
    hide *;
    if p == |pre| {
      SpliceAtEnd(pre, patches, k);
    } else if k < |patches| && patches[k].start == p {
      StepInto(pre, patches, k);
      EmitAtStart(pre, patches, k);
      SubstituteStep(pre, ToSet(patches), p);
      RemovedEmitsNothing(pre, patches, k, p + 1);
      SpliceIsSubstitutionFrom(pre, patches, k + 1, patches[k].end);
    } else {
      StepOver(pre, patches, k, p);
      EmitInGap(pre, patches, k, p);
      SubstituteStep(pre, ToSet(patches), p);
      SpliceIsSubstitutionFrom(pre, patches, k, p + 1);
    }
  }

  lemma SpliceAtEnd(pre: string, patches: seq<Patch>, k: nat)
    requires k <= |patches| && Placed(pre, patches[k..], |pre|)
    ensures Splice(pre, patches[k..], |pre|) == SubstituteFrom(pre, ToSet(patches), |pre|)
  {
  }

  lemma StepInto(pre: string, patches: seq<Patch>, k: nat)
    requires k < |patches| && Placed(pre, patches[k..], patches[k].start)
    ensures Placed(pre, patches[k + 1..], patches[k].end)
    ensures Splice(pre, patches[k..], patches[k].start)
         == patches[k].text + Splice(pre, patches[k + 1..], patches[k].end)
  {
  }

  lemma StepOver(pre: string, patches: seq<Patch>, k: nat, p: nat)
    requires k <= |patches| && Placed(pre, patches[k..], p) && p < |pre|
    requires k < |patches| ==> patches[k].start != p
    ensures Placed(pre, patches[k..], p + 1)
    ensures Splice(pre, patches[k..], p) == [pre[p]] + Splice(pre, patches[k..], p + 1)
    ensures p < if k < |patches| then patches[k].start else |pre|
  {
  }

  /** The cursor splice is simultaneous substitution of its set of patches. */
  lemma SpliceIsSubstitution(pre: string, patches: seq<Patch>)
    requires Placed(pre, patches, 0)
    ensures Splice(pre, patches, 0) == Substitute(pre, ToSet(patches))
  {
    assert patches[0..] == patches;
    SpliceIsSubstitutionFrom(pre, patches, 0, 0);
  }

  // ----- where each character of the result comes from

  /** Total growth of the first `k` patches. */
  function Delta(patches: seq<Patch>, k: nat): int
    requires k <= |patches|
  {
    if k == 0 then 0 else Growth(patches[0]) + Delta(patches[1..], k - 1)
  }

  lemma {:induction false} DeltaStep(patches: seq<Patch>, k: nat)
    requires k < |patches|
    ensures Delta(patches, k + 1) == Delta(patches, k) + Growth(patches[k])
  {
    if k > 0 {
      DeltaStep(patches[1..], k - 1);
    }
  }

  function Kept(from: nat, to: nat): (s: seq<int>)
    requires from <= to
    ensures |s| == to - from
    ensures forall i :: 0 <= i < |s| ==> s[i] == from + i
  {
    seq(to - from, i => from + i)
  }

  function Fresh(n: nat): (s: seq<int>)
    ensures |s| == n
    ensures forall i :: 0 <= i < |s| ==> s[i] == -1
  {
    seq(n, _ => -1)
  }

  /** For each character of the splice: the pre-image offset it was kept from, or -1 if a
      replacement brought it in.
   */
  function Origin(pre: string, patches: seq<Patch>, cursor: nat): seq<int>
    requires Placed(pre, patches, cursor)
    decreases |patches|
  {
    if patches == [] then Kept(cursor, |pre|)
    else Kept(cursor, patches[0].start) + Fresh(|patches[0].text|)
         + Origin(pre, patches[1..], patches[0].end)
  }

  /** The pre-image stretch kept before patch `k` (or after the last patch). */
  function GapLow(patches: seq<Patch>, cursor: nat, k: nat): nat
    requires k <= |patches|
  {
    if k == 0 then cursor else patches[k - 1].end
  }

  function GapHigh(pre: string, patches: seq<Patch>, k: nat): nat
    requires k <= |patches|
  {
    if k < |patches| then patches[k].start else |pre|
  }

  lemma {:induction false} SpliceLength(pre: string, patches: seq<Patch>, cursor: nat)
    requires Placed(pre, patches, cursor)
    ensures |Splice(pre, patches, cursor)| == |Origin(pre, patches, cursor)|
    ensures |Splice(pre, patches, cursor)| == |pre| - cursor + Delta(patches, |patches|)
    decreases |patches|
  {
    if patches != [] {
      SpliceLength(pre, patches[1..], patches[0].end);
    }
  }

  /** The result starts with the text kept before the first patch... */
  lemma HeadChar(pre: string, patches: seq<Patch>, cursor: nat, i: nat)
    requires Placed(pre, patches, cursor) && i < GapHigh(pre, patches, 0) - cursor
    ensures i < |Splice(pre, patches, cursor)| == |Origin(pre, patches, cursor)| && cursor + i < |pre|
    ensures Splice(pre, patches, cursor)[i] == pre[cursor + i] && Origin(pre, patches, cursor)[i] == cursor + i
  {
    SpliceLength(pre, patches, cursor);
    PlacedFacts(pre, patches, cursor);
  }

  /** ... goes on with that patch's text... */
  lemma FreshChar(pre: string, patches: seq<Patch>, cursor: nat, i: nat)
    requires Placed(pre, patches, cursor) && patches != [] && i < |patches[0].text|
    ensures var x := patches[0].start - cursor + i;
      && 0 <= x < |Splice(pre, patches, cursor)| == |Origin(pre, patches, cursor)|
      && Splice(pre, patches, cursor)[x] == patches[0].text[i] && Origin(pre, patches, cursor)[x] == -1
  {
    PlacedFacts(pre, patches, cursor);
    SpliceParts(pre, patches, cursor);
    hide Splice, Origin, Placed;
    SecondPart(pre[cursor..patches[0].start], patches[0].text, Splice(pre, patches[1..], patches[0].end), i);
    SecondPart(Kept(cursor, patches[0].start), Fresh(|patches[0].text|), Origin(pre, patches[1..], patches[0].end), i);
  }

  /** ... and then with the result of the other patches. */
  lemma TailChar(pre: string, patches: seq<Patch>, cursor: nat, i: nat)
    requires Placed(pre, patches, cursor) && patches != []
    requires i < |Splice(pre, patches[1..], patches[0].end)|
    ensures var x := patches[0].start - cursor + |patches[0].text| + i;
      && 0 <= x < |Splice(pre, patches, cursor)| == |Origin(pre, patches, cursor)|
      && i < |Origin(pre, patches[1..], patches[0].end)|
      && Splice(pre, patches, cursor)[x] == Splice(pre, patches[1..], patches[0].end)[i]
      && Origin(pre, patches, cursor)[x] == Origin(pre, patches[1..], patches[0].end)[i]
  {
    PlacedFacts(pre, patches, cursor);
    SpliceParts(pre, patches, cursor);
    hide Splice, Origin, Placed;
    ThirdPart(pre[cursor..patches[0].start], patches[0].text, Splice(pre, patches[1..], patches[0].end), i);
    ThirdPart(Kept(cursor, patches[0].start), Fresh(|patches[0].text|), Origin(pre, patches[1..], patches[0].end), i);
  }

  lemma SecondPart<T>(a: seq<T>, b: seq<T>, c: seq<T>, i: nat)
    requires i < |b|
    ensures (a + b + c)[|a| + i] == b[i]
  {
  }

  lemma ThirdPart<T>(a: seq<T>, b: seq<T>, c: seq<T>, i: nat)
    requires i < |c|
    ensures (a + b + c)[|a| + |b| + i] == c[i]
  {
  }

  lemma SpliceParts(pre: string, patches: seq<Patch>, cursor: nat)
    requires Placed(pre, patches, cursor) && patches != []
    ensures cursor <= patches[0].start <= patches[0].end <= |pre| && Placed(pre, patches[1..], patches[0].end)
    ensures |Splice(pre, patches[1..], patches[0].end)| == |Origin(pre, patches[1..], patches[0].end)|
    ensures Splice(pre, patches, cursor)
      == pre[cursor..patches[0].start] + patches[0].text + Splice(pre, patches[1..], patches[0].end)
    ensures Origin(pre, patches, cursor)
      == Kept(cursor, patches[0].start) + Fresh(|patches[0].text|) + Origin(pre, patches[1..], patches[0].end)
  {
    SpliceLength(pre, patches[1..], patches[0].end);
    PlacedFacts(pre, patches, cursor);
  }

  /** A kept character sits in the result at its old offset shifted by the growth before it. */
  lemma {:induction false} KeptAt(pre: string, patches: seq<Patch>, cursor: nat, k: nat, p: nat)
    requires Placed(pre, patches, cursor) && k <= |patches|
    requires GapLow(patches, cursor, k) <= p < GapHigh(pre, patches, k)
    ensures 0 <= p - cursor + Delta(patches, k) < |Splice(pre, patches, cursor)|
    ensures |Splice(pre, patches, cursor)| == |Origin(pre, patches, cursor)|
    ensures p < |pre| && Splice(pre, patches, cursor)[p - cursor + Delta(patches, k)] == pre[p]
    ensures Origin(pre, patches, cursor)[p - cursor + Delta(patches, k)] == p
    decreases |patches|
  {
    hide Splice, Origin;
    if k == 0 {
      HeadChar(pre, patches, cursor, p - cursor);
    } else {
      assert k > 1 ==> patches[1..][k - 2] == patches[k - 1];
      assert k < |patches| ==> patches[1..][k - 1] == patches[k];
      KeptAt(pre, patches[1..], patches[0].end, k - 1, p);
      TailChar(pre, patches, cursor, p - patches[0].end + Delta(patches[1..], k - 1));
    }
  }

  /** Replacement text sits at its patch's start shifted by the growth before it. */
  lemma {:induction false} FreshAt(pre: string, patches: seq<Patch>, cursor: nat, k: nat, j: nat)
    requires Placed(pre, patches, cursor) && k < |patches| && j < |patches[k].text|
    ensures 0 <= patches[k].start - cursor + Delta(patches, k) + j < |Splice(pre, patches, cursor)|
    ensures |Splice(pre, patches, cursor)| == |Origin(pre, patches, cursor)|
    ensures Splice(pre, patches, cursor)[patches[k].start - cursor + Delta(patches, k) + j]
         == patches[k].text[j]
    ensures Origin(pre, patches, cursor)[patches[k].start - cursor + Delta(patches, k) + j] == -1
    decreases |patches|
  {
    hide Splice, Origin;
    if k == 0 {
      FreshChar(pre, patches, cursor, j);
    } else {
      assert patches[1..][k - 1] == patches[k];
      FreshAt(pre, patches[1..], patches[0].end, k - 1, j);
      TailChar(pre, patches, cursor, patches[k].start - patches[0].end + Delta(patches[1..], k - 1) + j);
    }
  }

  /** Every character of the result is kept from some gap or brought in by some patch. */
  lemma {:induction false} Locate(pre: string, patches: seq<Patch>, cursor: nat, x: nat)
    returns (k: nat, p: int)
    requires Placed(pre, patches, cursor) && x < |Splice(pre, patches, cursor)|
    ensures k <= |patches|
    ensures |Splice(pre, patches, cursor)| == |Origin(pre, patches, cursor)|
    ensures p == Origin(pre, patches, cursor)[x]
    ensures p == -1 || GapLow(patches, cursor, k) <= p < GapHigh(pre, patches, k)
    ensures p != -1 ==> x == p - cursor + Delta(patches, k)
    ensures p == -1 ==> k < |patches|
    ensures p == -1 ==> patches[k].start - cursor + Delta(patches, k) <= x
    ensures p == -1 ==> x < patches[k].start - cursor + Delta(patches, k) + |patches[k].text|
    decreases |patches|
  {
    hide Splice, Origin;
    SpliceLength(pre, patches, cursor);
    if x < GapHigh(pre, patches, 0) - cursor {
      HeadChar(pre, patches, cursor, x);
      return 0, cursor + x;
    }
    var head := patches[0].start - cursor;
    if x < head + |patches[0].text| {
      FreshChar(pre, patches, cursor, x - head);
      return 0, -1;
    }
    SpliceLength(pre, patches[1..], patches[0].end);
    TailChar(pre, patches, cursor, x - head - |patches[0].text|);
    var j, q := Locate(pre, patches[1..], patches[0].end, x - head - |patches[0].text|);
    assert j > 0 ==> patches[1..][j - 1] == patches[j];
    assert j < |patches| - 1 ==> patches[1..][j] == patches[j + 1];
    return j + 1, q;
  }

  lemma {:induction false} PatchBounds(pre: string, patches: seq<Patch>, cursor: nat, k: nat)
    requires Placed(pre, patches, cursor) && k < |patches|
    ensures 0 <= patches[k].start - cursor + Delta(patches, k)
    ensures patches[k].start - cursor + Delta(patches, k) + |patches[k].text|
         <= |Splice(pre, patches, cursor)|
    decreases |patches|
  {
    if k > 0 {
      assert patches[1..][k - 1] == patches[k];
      PatchBounds(pre, patches[1..], patches[0].end, k - 1);
    }
  }

  /** Where the text of patch `k` starts and ends in the result. */
  function NewStart(patches: seq<Patch>, k: nat): int
    requires k < |patches|
  {
    patches[k].start + Delta(patches, k)
  }

  function NewEnd(patches: seq<Patch>, k: nat): int
    requires k < |patches|
  {
    NewStart(patches, k) + |patches[k].text|
  }

  /** Two neighbouring characters of the result were neighbours before, or replacement text
      or a removal lies exactly between them.
   */
  lemma Junction(pre: string, patches: seq<Patch>, z: nat) returns (k: nat)
    requires Placed(pre, patches, 0) && 0 < z < |Splice(pre, patches, 0)|
    ensures |Splice(pre, patches, 0)| == |Origin(pre, patches, 0)|
    ensures var o := Origin(pre, patches, 0);
      || (o[z - 1] >= 0 && o[z] == o[z - 1] + 1)
      || (k < |patches| && z == NewStart(patches, k))
      || (o[z - 1] == -1 && o[z] == -1)
      || (o[z - 1] == -1 && k < |patches| && o[z] == patches[k].end)
  {
    hide Splice, Origin;
    var g, p := Locate(pre, patches, 0, z);
    if p == -1 {
      k := g;
      if z > NewStart(patches, k) {
        FreshAt(pre, patches, 0, k, z - 1 - NewStart(patches, k));
      }
    } else if p > GapLow(patches, 0, g) {
      k := g;
      KeptAt(pre, patches, 0, g, p - 1);
    } else {
      k := g - 1;
      DeltaStep(patches, k);
      if patches[k].text != "" {
        FreshAt(pre, patches, 0, k, |patches[k].text| - 1);
      }
    }
  }
}
