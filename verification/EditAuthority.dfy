/** Read authority across an edit.

    After an edit the tool credits two kinds of lines of the new text without another read:
    *standalone* lines around each replacement, shown by the patch, and *inherited* lines,
    which were readable before and which no replacement touched. These lemmas say what each
    kind really contains.
 */
module EditAuthority {
  import opened TextLines
  import opened Splicing
  import opened Ranges

  function NewText(pre: string, patches: seq<Patch>): string
    requires Placed(pre, patches, 0)
  {
    Splice(pre, patches, 0)
  }

  /** Line `n` of the pre-image is one the edit plan required to be covered. */
  ghost predicate Affected(pre: string, patches: seq<Patch>, n: nat) {
    exists k :: 0 <= k < |patches|
      && LineNumber(pre, patches[k].start) <= n <= LineNumber(pre, patches[k].end)
  }

  /** Character `x` of the new text is replacement text or comes from a line the plan required. */
  ghost predicate Authorized(pre: string, patches: seq<Patch>, x: nat)
    requires Placed(pre, patches, 0)
  {
    var o := Origin(pre, patches, 0);
    x < |o| && (o[x] < 0 || o[x] >= |pre| || Affected(pre, patches, LineAt(pre, o[x])))
  }

  /** Line `m` of the new text is credited as shown by the patch. */
  ghost predicate Standalone(pre: string, patches: seq<Patch>, m: nat)
    requires Placed(pre, patches, 0)
  {
    var text := NewText(pre, patches);
    exists k :: 0 <= k < |patches|
      && LineNumber(text, NewStart(patches, k)) <= m <= LineNumber(text, NewEnd(patches, k))
  }

  /** No standalone line contains a character of a line that was not required to be read. */
  ghost predicate StandaloneSound(pre: string, patches: seq<Patch>)
    requires Placed(pre, patches, 0)
  {
    var text := NewText(pre, patches);
    forall x :: 0 <= x < |text| && Standalone(pre, patches, LineAt(text, x)) ==> Authorized(pre, patches, x)
  }

  /** The left edge of patch `k` is safe: nothing stands before it, or what stands before it was
      required too, or a line break of the new text falls exactly on the edge.
   */
  ghost predicate SafeEdge(pre: string, patches: seq<Patch>, k: nat)
    requires Placed(pre, patches, 0) && k < |patches|
  {
    var text, x := NewText(pre, patches), NewStart(patches, k);
    x <= 0 || Authorized(pre, patches, x - 1) || Break(text, x)
  }

  lemma OriginFacts(pre: string, patches: seq<Patch>, x: nat)
    requires Placed(pre, patches, 0) && x < |NewText(pre, patches)|
    ensures |Origin(pre, patches, 0)| == |NewText(pre, patches)|
    ensures var p := Origin(pre, patches, 0)[x];
            p == -1 || (0 <= p < |pre| && NewText(pre, patches)[x] == pre[p])
  {
    var k, p := Locate(pre, patches, 0, x);
    PlacedFacts(pre, patches, 0);
    if p != -1 {
      KeptAt(pre, patches, 0, k, p);
    }
  }

  /** The text kept right after a patch belongs to a required line. */
  lemma AfterPatchRequired(pre: string, patches: seq<Patch>, k: nat)
    requires k < |patches| && patches[k].start < patches[k].end < |pre|
    ensures Affected(pre, patches, LineAt(pre, patches[k].end))
  {
    LineNumberMonotone(pre, patches[k].start, patches[k].end);
  }

  /** Text kept right after a patch is authorized. */
  lemma KeptAfterPatch(pre: string, patches: seq<Patch>, k: nat)
    requires Placed(pre, patches, 0) && k < |patches| && patches[k].end < GapHigh(pre, patches, k + 1)
    ensures 0 <= NewEnd(patches, k) && Authorized(pre, patches, NewEnd(patches, k))
  {
    hide Splice, Origin, Affected, Delta, Placed;
    PlacedFacts(pre, patches, 0);
    DeltaStep(patches, k);
    SpliceLength(pre, patches, 0);
    KeptAt(pre, patches, 0, k + 1, patches[k].end);
    AfterPatchRequired(pre, patches, k);
  }

  /** The character right after a patch's text, if any, is authorized. */
  lemma {:induction false} PatchEndAuthorized(pre: string, patches: seq<Patch>, k: nat)
    requires Placed(pre, patches, 0) && k < |patches|
    requires NewEnd(patches, k) < |NewText(pre, patches)|
    ensures 0 <= NewEnd(patches, k) && Authorized(pre, patches, NewEnd(patches, k))
    decreases |patches| - k
  {
    hide Splice, Origin, Affected, Delta, Placed;
    PlacedFacts(pre, patches, 0);
    PatchBounds(pre, patches, 0, k);
    DeltaStep(patches, k);
    SpliceLength(pre, patches, 0);
    if patches[k].end < GapHigh(pre, patches, k + 1) {
      KeptAfterPatch(pre, patches, k);
    } else if k + 1 < |patches| {
      assert NewStart(patches, k + 1) == NewEnd(patches, k);
      if patches[k + 1].text != "" {
        FreshAt(pre, patches, 0, k + 1, 0);
      } else {
        PatchEndAuthorized(pre, patches, k + 1);
      }
    }
  }

  /** Every character from a patch's start to its end point is authorized. */
  lemma PatchAuthorized(pre: string, patches: seq<Patch>, k: nat, x: nat)
    requires Placed(pre, patches, 0) && k < |patches|
    requires NewStart(patches, k) <= x <= NewEnd(patches, k) && x < |NewText(pre, patches)|
    ensures Authorized(pre, patches, x)
  {
    if x < NewEnd(patches, k) {
      FreshAt(pre, patches, 0, k, x - NewStart(patches, k));
    } else {
      PatchEndAuthorized(pre, patches, k);
    }
  }

  /** Neighbours kept from the same stretch of the pre-image break alike before and after. */
  lemma KeptNeighbours(pre: string, patches: seq<Patch>, z: nat)
    requires Placed(pre, patches, 0) && 0 < z < |NewText(pre, patches)|
    requires |Origin(pre, patches, 0)| == |NewText(pre, patches)|
    requires Origin(pre, patches, 0)[z - 1] >= 0
    requires Origin(pre, patches, 0)[z] == Origin(pre, patches, 0)[z - 1] + 1
    ensures 0 < Origin(pre, patches, 0)[z] < |pre|
    ensures Break(NewText(pre, patches), z) <==> Break(pre, Origin(pre, patches, 0)[z])
  {
    OriginFacts(pre, patches, z - 1);
    OriginFacts(pre, patches, z);
  }

  /** Neighbours kept from one line are authorized alike. */
  lemma KeptAlike(pre: string, patches: seq<Patch>, z: nat)
    requires Placed(pre, patches, 0) && 0 < z < |NewText(pre, patches)| && !Break(NewText(pre, patches), z)
    requires |Origin(pre, patches, 0)| == |NewText(pre, patches)|
    requires Origin(pre, patches, 0)[z - 1] >= 0
    requires Origin(pre, patches, 0)[z] == Origin(pre, patches, 0)[z - 1] + 1
    ensures FromOneLine(pre, patches, z - 1, z)
    ensures Authorized(pre, patches, z - 1) <==> Authorized(pre, patches, z)
  {
    hide Splice, Origin, Placed, Affected;
    KeptNeighbours(pre, patches, z);
  }

  /** Both characters were kept from one line of the pre-image. */
  ghost predicate FromOneLine(pre: string, patches: seq<Patch>, x: nat, y: nat)
    requires Placed(pre, patches, 0)
  {
    var o := Origin(pre, patches, 0);
    x < |o| && y < |o| && 0 <= o[x] < |pre| && 0 <= o[y] < |pre| && LineAt(pre, o[x]) == LineAt(pre, o[y])
  }

  /** A line number between those of two offsets is the line of some offset between them. */
  lemma {:induction false} LineBetween(s: string, a: nat, b: nat, m: nat) returns (y: nat)
    requires a <= b < |s|
    requires LineAt(s, a) <= m <= LineAt(s, b)
    ensures a <= y <= b && LineAt(s, y) == m
    decreases b
  {
    if LineAt(s, b) == m {
      return b;
    }
    y := LineBetween(s, a, b - 1, m);
  }

  /** A standalone line of the new text contains a character of its patch, or the patch ends the
      text and removed its tail.
   */
  lemma StandaloneWitness(pre: string, patches: seq<Patch>, k: nat, m: nat) returns (y: nat)
    requires Placed(pre, patches, 0) && k < |patches| && NewText(pre, patches) != ""
    requires LineNumber(NewText(pre, patches), NewStart(patches, k)) <= m
          <= LineNumber(NewText(pre, patches), NewEnd(patches, k))
    ensures y < |NewText(pre, patches)| && LineAt(NewText(pre, patches), y) == m
    ensures NewStart(patches, k) <= y <= NewEnd(patches, k)
         || NewStart(patches, k) == NewEnd(patches, k) == y + 1 == |NewText(pre, patches)|
  {
    var text := NewText(pre, patches);
    PatchBounds(pre, patches, 0, k);
    var a: nat := if NewStart(patches, k) < |text| then NewStart(patches, k) else |text| - 1;
    var b: nat := if NewEnd(patches, k) < |text| then NewEnd(patches, k) else |text| - 1;
    y := LineBetween(text, a, b, m);
  }

  // ----- when an edge is safe, and the two ways it can fail

  lemma {:induction false} PatchOrder(pre: string, patches: seq<Patch>, j: nat, k: nat)
    requires Placed(pre, patches, 0) && j < k < |patches|
    ensures NewStart(patches, j) <= NewEnd(patches, j) <= NewStart(patches, k)
    decreases k
  {
    PlacedFacts(pre, patches, 0);
    DeltaStep(patches, k - 1);
    if j < k - 1 {
      PatchOrder(pre, patches, j, k - 1);
    }
  }

  /** The kept character right before a patch was followed by a patch in the pre-image as well. */
  lemma BeforePatch(pre: string, patches: seq<Patch>, k: nat) returns (g: nat, p: int)
    requires Placed(pre, patches, 0) && k < |patches| && 0 < NewStart(patches, k)
    ensures NewStart(patches, k) <= |NewText(pre, patches)| == |Origin(pre, patches, 0)|
    ensures p == Origin(pre, patches, 0)[NewStart(patches, k) - 1]
    ensures p == -1 || (0 <= p < |pre| && g < |patches| && patches[g].start == p + 1)
  {
    hide Splice, Origin, Placed, Delta;
    PatchBounds(pre, patches, 0, k);
    PlacedFacts(pre, patches, 0);
    var x := NewStart(patches, k);
    g, p := Locate(pre, patches, 0, x - 1);
    if p != -1 {
      if g > k {
        DeltaStep(patches, g - 1);
        if k < g - 1 { PatchOrder(pre, patches, k, g - 1); }
        assert false;
      }
      if g < k { PatchOrder(pre, patches, g, k); }
    }
  }

  /** The kept character before the edge ends a line that no patch affects, and no line starts at the edge:
      the new text ends there, or a carriage return meets a line feed.
   */
  ghost predicate LeakyEdge(pre: string, patches: seq<Patch>, k: nat)
    requires Placed(pre, patches, 0) && k < |patches|
  {
    var text, x, o := NewText(pre, patches), NewStart(patches, k), Origin(pre, patches, 0);
    && 0 < x <= |text| == |o| && 0 <= o[x - 1] < |pre|
    && Break(pre, o[x - 1] + 1) && !Affected(pre, patches, LineAt(pre, o[x - 1]))
    && (x == |text| || (text[x - 1] == '\r' && text[x] == '\n'))
  }

  /** What a patch follows in the pre-image ends a line, or its line is affected. */
  lemma BeforePatchEnds(pre: string, patches: seq<Patch>, g: nat, p: nat)
    requires Placed(pre, patches, 0) && g < |patches| && patches[g].start == p + 1 && p < |pre|
    ensures Break(pre, p + 1) || Affected(pre, patches, LineAt(pre, p))
  {
    PlacedFacts(pre, patches, 0);
    if !Break(pre, p + 1) {
      LineNumberMonotone(pre, patches[g].start, patches[g].end);
      assert LineNumber(pre, patches[g].start) == LineAt(pre, p);
    }
  }

  /** After a terminator a line starts, unless the text ends or a carriage return meets a line feed. */
  lemma BreakAfter(pre: string, p: nat, text: string, x: nat)
    requires p < |pre| && Break(pre, p + 1) && 0 < x <= |text| && text[x - 1] == pre[p]
    ensures Break(text, x) <==> !(x == |text| || (text[x - 1] == '\r' && text[x] == '\n'))
  {
  }

  /** An edge is unsafe exactly when it is leaky. */
  lemma EdgeSafeIff(pre: string, patches: seq<Patch>, k: nat)
    requires Placed(pre, patches, 0) && k < |patches|
    ensures SafeEdge(pre, patches, k) <==> !LeakyEdge(pre, patches, k)
  {
    var text, x := NewText(pre, patches), NewStart(patches, k);
    if x > 0 {
      var g, p := BeforePatch(pre, patches, k);
      OriginFacts(pre, patches, x - 1);
      if p != -1 && !Affected(pre, patches, LineAt(pre, p)) {
        BeforePatchEnds(pre, patches, g, p);
        BreakAfter(pre, p, text, x);
      }
      hide Affected, Break, Splice, Origin, Placed, LineAt;
    }
  }

  // ----- whose text leaks

  /** Inside a line of the new text authority begins only at a leaky edge... */
  lemma AuthorityBegins(pre: string, patches: seq<Patch>, z: nat) returns (k: nat)
    requires Placed(pre, patches, 0) && 0 < z < |NewText(pre, patches)| && !Break(NewText(pre, patches), z)
    requires !Authorized(pre, patches, z - 1) && Authorized(pre, patches, z)
    ensures k < |patches| && z == NewStart(patches, k) && LeakyEdge(pre, patches, k)
  {
    hide Splice, Origin, Placed, Delta, LeakyEdge, Affected;
    var o := Origin(pre, patches, 0);
    k := Junction(pre, patches, z);
    OriginFacts(pre, patches, z - 1);
    if o[z - 1] >= 0 && o[z] == o[z - 1] + 1 {
      KeptAlike(pre, patches, z);
      assert false;
    }
    EdgeSafeIff(pre, patches, k);
  }

  /** ... and never ends. */
  lemma AuthorityStays(pre: string, patches: seq<Patch>, z: nat)
    requires Placed(pre, patches, 0) && 0 < z < |NewText(pre, patches)| && !Break(NewText(pre, patches), z)
    requires Authorized(pre, patches, z - 1)
    ensures Authorized(pre, patches, z)
  {
    hide Splice, Origin, Placed, Delta, Affected;
    var o := Origin(pre, patches, 0);
    var k := Junction(pre, patches, z);
    OriginFacts(pre, patches, z);
    if o[z - 1] >= 0 && o[z] == o[z - 1] + 1 {
      KeptAlike(pre, patches, z);
    } else if k < |patches| && z == NewStart(patches, k) {
      PatchAuthorized(pre, patches, k, z);
    } else if o[z] >= 0 {
      PlacedFacts(pre, patches, 0);
      AfterPatchRequired(pre, patches, k);
    }
  }

  lemma {:induction false} AuthorityOnward(pre: string, patches: seq<Patch>, x: nat, y: nat)
    requires Placed(pre, patches, 0) && x <= y < |NewText(pre, patches)|
    requires LineAt(NewText(pre, patches), x) == LineAt(NewText(pre, patches), y) && Authorized(pre, patches, x)
    ensures Authorized(pre, patches, y)
    decreases y
  {
    if x < y {
      LineAtSpan(NewText(pre, patches), x, y);
      LineAtSpan(NewText(pre, patches), x, y - 1);
      hide NewText, Authorized, Placed, Break, LineAt;
      AuthorityOnward(pre, patches, x, y - 1);
      AuthorityStays(pre, patches, y);
    }
  }

  /** Two neighbours without authority on one line of the new text were neighbours on one line before. */
  lemma LeakStep(pre: string, patches: seq<Patch>, z: nat)
    requires Placed(pre, patches, 0) && 0 < z < |NewText(pre, patches)| && !Break(NewText(pre, patches), z)
    requires !Authorized(pre, patches, z - 1) && !Authorized(pre, patches, z)
    ensures FromOneLine(pre, patches, z - 1, z)
  {
    hide Splice, Origin, Placed, Delta, Affected;
    var o := Origin(pre, patches, 0);
    var k := Junction(pre, patches, z);
    OriginFacts(pre, patches, z - 1);
    OriginFacts(pre, patches, z);
    if o[z] == o[z - 1] + 1 {
      KeptAlike(pre, patches, z);
    } else {
      PatchAuthorized(pre, patches, k, z);
      assert false;
    }
  }

  lemma Unauthorized(pre: string, patches: seq<Patch>, x: nat)
    requires Placed(pre, patches, 0) && x < |NewText(pre, patches)| && !Authorized(pre, patches, x)
    ensures FromOneLine(pre, patches, x, x)
  {
    hide Origin, NewText, Placed, Affected, LineAt;
    OriginFacts(pre, patches, x);
  }

  lemma FromOneLineTransitive(pre: string, patches: seq<Patch>, x: nat, y: nat, z: nat)
    requires Placed(pre, patches, 0) && FromOneLine(pre, patches, x, y) && FromOneLine(pre, patches, y, z)
    ensures FromOneLine(pre, patches, x, z)
  {
    hide Origin, Placed, LineAt;
  }

  lemma NextOnLine(s: string, x: nat, y: nat)
    requires x < y < |s| && LineAt(s, x) == LineAt(s, y)
    ensures !Break(s, x + 1) && LineAt(s, x + 1) == LineAt(s, y)
  {
    hide LineAt, Break;
    LineAtSpan(s, x, y);
    LineAtSpan(s, x, x + 1);
  }

  /** From a character without authority on, its line of the new text shows the same old line up to a leaky edge. */
  lemma {:induction false} LeakRun(pre: string, patches: seq<Patch>, x: nat, y: nat) returns (k: nat)
    requires Placed(pre, patches, 0) && x <= y < |NewText(pre, patches)|
    requires LineAt(NewText(pre, patches), x) == LineAt(NewText(pre, patches), y) && !Authorized(pre, patches, x)
    ensures k <= |patches|
    ensures k < |patches| ==>
      0 < NewStart(patches, k) && LeakyEdge(pre, patches, k) && FromOneLine(pre, patches, x, NewStart(patches, k) - 1)
    ensures k == |patches| ==> !Authorized(pre, patches, y) && FromOneLine(pre, patches, x, y)
    decreases y - x
  {
    hide *;
    if x == y {
      Unauthorized(pre, patches, x);
      return |patches|;
    }
    NextOnLine(NewText(pre, patches), x, y);
    if Authorized(pre, patches, x + 1) {
      k := AuthorityBegins(pre, patches, x + 1);
      Unauthorized(pre, patches, x);
    } else {
      LeakStep(pre, patches, x + 1);
      k := LeakRun(pre, patches, x + 1, y);
      FromOneLineTransitive(pre, patches, x, x + 1, if k < |patches| then NewStart(patches, k) - 1 else y);
    }
  }

  /** An edge at the end of the new text behind a character without authority is leaky. */
  lemma TailEdge(pre: string, patches: seq<Patch>, k: nat)
    requires Placed(pre, patches, 0) && k < |patches| && 0 < NewStart(patches, k) == |NewText(pre, patches)|
    requires !Authorized(pre, patches, NewStart(patches, k) - 1)
    ensures LeakyEdge(pre, patches, k)
  {
    hide LeakyEdge, Placed, Authorized;
    EdgeSafeIff(pre, patches, k);
  }

  /** A standalone line has an authorized character, or is the last one and lost its tail. */
  lemma StandaloneText(pre: string, patches: seq<Patch>, m: nat) returns (k: nat, y: nat)
    requires Placed(pre, patches, 0) && Standalone(pre, patches, m) && NewText(pre, patches) != ""
    ensures k < |patches| && y < |NewText(pre, patches)| && LineAt(NewText(pre, patches), y) == m
    ensures Authorized(pre, patches, y) || NewStart(patches, k) == y + 1 == |NewText(pre, patches)|
  {
    var text := NewText(pre, patches);
    k :| 0 <= k < |patches| && LineNumber(text, NewStart(patches, k)) <= m <= LineNumber(text, NewEnd(patches, k));
    hide *;
    y := StandaloneWitness(pre, patches, k, m);
    if NewStart(patches, k) <= y {
      PatchAuthorized(pre, patches, k, y);
    }
  }

  /** Text that is credited as standalone without authority comes from the line before a leaky edge. */
  lemma LeakSource(pre: string, patches: seq<Patch>, x: nat) returns (k: nat)
    requires Placed(pre, patches, 0) && x < |NewText(pre, patches)|
    requires Standalone(pre, patches, LineAt(NewText(pre, patches), x)) && !Authorized(pre, patches, x)
    ensures k < |patches| && 0 < NewStart(patches, k) && LeakyEdge(pre, patches, k)
    ensures FromOneLine(pre, patches, x, NewStart(patches, k) - 1)
  {
    hide *;
    var j, y := StandaloneText(pre, patches, LineAt(NewText(pre, patches), x));
    if Authorized(pre, patches, y) && y <= x {
      AuthorityOnward(pre, patches, y, x);
    }
    k := LeakRun(pre, patches, x, y);
    if k == |patches| {
      k := j;
      TailEdge(pre, patches, j);
    }
  }

  /** The text before a leaky edge is credited as standalone, without authority. */
  lemma LeakIsCredited(pre: string, patches: seq<Patch>, k: nat)
    requires Placed(pre, patches, 0) && k < |patches| && LeakyEdge(pre, patches, k)
    ensures 0 < NewStart(patches, k) <= |NewText(pre, patches)|
    ensures Standalone(pre, patches, LineAt(NewText(pre, patches), NewStart(patches, k) - 1))
    ensures !Authorized(pre, patches, NewStart(patches, k) - 1)
  {
    var text, x := NewText(pre, patches), NewStart(patches, k);
    PatchBounds(pre, patches, 0, k);
    assert !Break(text, x);
    assert LineAt(text, x - 1) == LineNumber(text, x);
    hide NewText, NewStart, NewEnd, LineAt, LineNumber, Break, Placed;
    LineNumberMonotone(text, x, NewEnd(patches, k));
  }

  // ----- the credit is sound exactly without leaky edges

  lemma SafeEdgesSuffice(pre: string, patches: seq<Patch>, x: nat)
    requires Placed(pre, patches, 0) && x < |NewText(pre, patches)|
    requires forall k :: 0 <= k < |patches| ==> SafeEdge(pre, patches, k)
    requires Standalone(pre, patches, LineAt(NewText(pre, patches), x))
    ensures Authorized(pre, patches, x)
  {
    hide *;
    if !Authorized(pre, patches, x) {
      var k := LeakSource(pre, patches, x);
      EdgeSafeIff(pre, patches, k);
    }
  }

  lemma SafeEdgesNeeded(pre: string, patches: seq<Patch>, k: nat)
    requires Placed(pre, patches, 0) && k < |patches|
    requires StandaloneSound(pre, patches)
    ensures SafeEdge(pre, patches, k)
  {
    hide Placed, NewText, Standalone, Authorized, LeakyEdge, SafeEdge, LineAt;
    EdgeSafeIff(pre, patches, k);
    if LeakyEdge(pre, patches, k) {
      LeakIsCredited(pre, patches, k);
    }
  }

  /** Standalone credit never leaks a line exactly when every patch has a safe left edge. */
  lemma StandaloneSoundIff(pre: string, patches: seq<Patch>)
    requires Placed(pre, patches, 0)
    ensures StandaloneSound(pre, patches) <==> forall k :: 0 <= k < |patches| ==> SafeEdge(pre, patches, k)
  {
    hide SafeEdge, Standalone, Authorized, NewText, Placed, LineAt;
    if StandaloneSound(pre, patches) {
      forall k | 0 <= k < |patches|
        ensures SafeEdge(pre, patches, k)
      {
        SafeEdgesNeeded(pre, patches, k);
      }
    }
    if forall k :: 0 <= k < |patches| ==> SafeEdge(pre, patches, k) {
      var text := NewText(pre, patches);
      forall x: nat | x < |text| && Standalone(pre, patches, LineAt(text, x))
        ensures Authorized(pre, patches, x)
      {
        SafeEdgesSuffice(pre, patches, x);
      }
    }
  }

  /** Standalone credit leaks a line exactly when some patch has a leaky left edge. */
  lemma StandaloneSoundExactly(pre: string, patches: seq<Patch>)
    requires Placed(pre, patches, 0)
    ensures StandaloneSound(pre, patches) <==> forall k :: 0 <= k < |patches| ==> !LeakyEdge(pre, patches, k)
  {
    StandaloneSoundIff(pre, patches);
    hide StandaloneSound, SafeEdge, LeakyEdge, Placed;
    forall k | 0 <= k < |patches|
      ensures SafeEdge(pre, patches, k) <==> !LeakyEdge(pre, patches, k)
    {
      EdgeSafeIff(pre, patches, k);
    }
  }

  // ----- two inputs that leak

  /** Removing the tail of a file credits the line before it, although nobody had to read it. */
  lemma TailRemovalLeaks()
    ensures Placed("key\nX", [Patch(4, 5, "")], 0)
    ensures !StandaloneSound("key\nX", [Patch(4, 5, "")])
  {
    var pre, patches := "key\nX", [Patch(4, 5, "")];
    assert patches[1..] == [];
    SpliceLength(pre, patches, 0);
    assert NewText(pre, patches) == "key\n";
    assert Origin(pre, patches, 0)[0] == 0;
    assert LineAt(pre, 0) == 1;
    assert LineAt(pre, 1) == 1 && LineAt(pre, 2) == 1 && LineAt(pre, 3) == 1;
    assert LineNumber(pre, 4) == 2 && LineNumber(pre, 5) == 2;
    assert !Authorized(pre, patches, 0);
    assert Standalone(pre, patches, 1) by {
      assert LineAt("key\n", 0) == 1 && LineAt("key\n", 1) == 1 && LineAt("key\n", 2) == 1;
      assert LineNumber("key\n", NewStart(patches, 0)) == 1;
    }
  }

  /** A line feed inserted after a bare carriage return pulls the unread line before it in. */
  lemma FusedTerminatorLeaks()
    ensures Placed("a\rX", [Patch(2, 3, "\nY")], 0)
    ensures !StandaloneSound("a\rX", [Patch(2, 3, "\nY")])
  {
    var pre, patches := "a\rX", [Patch(2, 3, "\nY")];
    assert patches[1..] == [];
    SpliceLength(pre, patches, 0);
    assert NewText(pre, patches) == "a\r\nY";
    assert Origin(pre, patches, 0)[0] == 0;
    assert LineAt(pre, 0) == 1 && LineAt(pre, 1) == 1;
    assert LineNumber(pre, 2) == 2 && LineNumber(pre, 3) == 2;
    assert !Authorized(pre, patches, 0);
    assert Standalone(pre, patches, 1) by {
      assert LineAt("a\r\nY", 0) == 1 && LineAt("a\r\nY", 1) == 1 && LineAt("a\r\nY", 2) == 1;
      assert LineNumber("a\r\nY", NewStart(patches, 0)) == 1;
    }
  }

  // ----- inherited lines

  /** The shift the tool applies to an offset: the growth of every patch that ends at or before it. */
  function ShiftAt(patches: seq<Patch>, p: nat): int {
    if patches == [] then 0
    else (if patches[0].end <= p then Growth(patches[0]) else 0) + ShiftAt(patches[1..], p)
  }

  lemma {:induction false} ShiftIsDelta(pre: string, patches: seq<Patch>, cursor: nat, k: nat, p: nat)
    requires Placed(pre, patches, cursor) && k <= |patches|
    requires GapLow(patches, cursor, k) <= p
    requires k < |patches| ==> p < patches[k].end
    ensures ShiftAt(patches, p) == Delta(patches, k)
    decreases |patches|
  {
    PlacedFacts(pre, patches, cursor);
    if patches != [] {
      if k > 0 {
        assert k > 1 ==> patches[1..][k - 2] == patches[k - 1];
        assert k < |patches| ==> patches[1..][k - 1] == patches[k];
        ShiftIsDelta(pre, patches[1..], patches[0].end, k - 1, p);
      } else {
        NoShift(pre, patches[1..], patches[0].end, p);
      }
    }
  }

  lemma {:induction false} NoShift(pre: string, patches: seq<Patch>, cursor: nat, p: nat)
    requires Placed(pre, patches, cursor) && p < cursor
    ensures ShiftAt(patches, p) == 0
    decreases |patches|
  {
    if patches != [] {
      NoShift(pre, patches[1..], patches[0].end, p);
    }
  }

  function StartOf(pre: string, n: nat): (p: nat)
    requires 1 <= n <= NumLines(pre)
    ensures p < |pre| && (p == 0 || Break(pre, p)) && LineAt(pre, p) == n
  {
    LineFacts(pre, n);
    LineStarts(pre)[n - 1]
  }

  /** The line of the new text that line `n` of the pre-image moves to. */
  function NewLine(pre: string, patches: seq<Patch>, n: nat): nat
    requires Placed(pre, patches, 0) && 1 <= n <= NumLines(pre)
  {
    LineNumber(NewText(pre, patches), StartOf(pre, n) + ShiftAt(patches, StartOf(pre, n)))
  }

  /** A line no patch affects lies, with the terminator before it, inside one kept stretch. */
  lemma UnaffectedLine(pre: string, patches: seq<Patch>, n: nat) returns (k: nat)
    requires Placed(pre, patches, 0) && 1 <= n <= NumLines(pre) && !Affected(pre, patches, n)
    ensures k <= |patches|
    ensures GapLow(patches, 0, k) <= StartOf(pre, n)
    ensures StartOf(pre, n) > 0 ==> GapLow(patches, 0, k) < StartOf(pre, n)
    ensures LineEnd(pre, StartOf(pre, n)) <= GapHigh(pre, patches, k)
    ensures ShiftAt(patches, StartOf(pre, n)) == Delta(patches, k)
    ensures StartOf(pre, n) == 0 ==> k == 0
  {
    LineFacts(pre, n);
    PlacedFacts(pre, patches, 0);
    var start := StartOf(pre, n);
    k := 0;
    while k < |patches| && patches[k].end <= start
      invariant 0 <= k <= |patches|
      invariant k > 0 ==> patches[k - 1].end <= start
    {
      k := k + 1;
    }
    if k > 0 && patches[k - 1].end == start {
      AfterPatchRequired(pre, patches, k - 1);
    }
    hide Affected, ShiftAt, Delta, Placed, StartOf, LineEnd;
    if k < |patches| {
      PatchBehindLine(pre, patches, n, k);
    }
    ShiftIsDelta(pre, patches, 0, k, start);
  }

  /** A patch that ends behind the start of an unaffected line starts behind its end. */
  lemma PatchBehindLine(pre: string, patches: seq<Patch>, n: nat, k: nat)
    requires 1 <= n <= NumLines(pre) && !Affected(pre, patches, n) && k < |patches|
    requires patches[k].start < patches[k].end <= |pre| && StartOf(pre, n) < patches[k].end
    ensures LineEnd(pre, StartOf(pre, n)) <= patches[k].start
  {
    var start := StartOf(pre, n);
    if patches[k].start < LineEnd(pre, start) {
      hide LineEnd, LineAt, NumLines, LineStarts;
      var q := if patches[k].start < start then start else patches[k].start;
      InLine(pre, n, q);
      NumberInside(pre, q);
      LineNumberMonotone(pre, patches[k].start, q);
      LineNumberMonotone(pre, q, patches[k].end);
    }
  }

  predicate CopiedAt(pre: string, text: string, d: int, p: nat) {
    p < |pre| && 0 <= p + d < |text| && text[p + d] == pre[p]
  }

  /** A line copied into `text` at distance `d`, together with the character before it, keeps its
      start and its inner structure; its end moves only if its bare carriage return now meets a
      line feed.
   */
  ghost predicate Copied(pre: string, text: string, start: nat, end: nat, d: int) {
    && start < end <= |pre| && 0 <= start + d && end + d <= |text|
    && (start == 0 ==> d == 0) && (end == |pre| ==> end + d == |text|)
    && forall p: nat :: start - 1 <= p < end ==> CopiedAt(pre, text, d, p)
  }

  lemma CopiedSlice(pre: string, text: string, start: nat, end: nat, d: int)
    requires Copied(pre, text, start, end, d)
    ensures text[start + d..end + d] == pre[start..end]
  {
    forall k | 0 <= k < end - start
      ensures text[start + d..end + d][k] == pre[start..end][k]
    {
      assert CopiedAt(pre, text, d, start + k);
    }
  }

  lemma CopiedLine(pre: string, text: string, start: nat, end: nat, d: int)
    requires start < |pre| && (start == 0 || Break(pre, start)) && end == LineEnd(pre, start)
    requires Copied(pre, text, start, end, d)
    ensures 0 <= start + d < end + d <= |text|
    ensures start + d == 0 || Break(text, start + d)
    ensures LineEnd(text, start + d) == end + d
         || (LineEnd(text, start + d) == end + d + 1 && pre[end - 1] == '\r' && text[end + d] == '\n')
    ensures Break(text, end + d) ==> LineEnd(text, start + d) == end + d
  {
    if start > 0 {
      assert CopiedAt(pre, text, d, start - 1) && CopiedAt(pre, text, d, start);
    }
    forall z | start + d < z < end + d
      ensures !Break(text, z)
    {
      assert CopiedAt(pre, text, d, z - 1 - d) && CopiedAt(pre, text, d, z - d);
      assert !Break(pre, z - d);
    }
    assert CopiedAt(pre, text, d, end - 1);
    var e := LineEnd(text, start + d);
    assert e >= end + d;
    if e > end + d {
      assert !Break(text, end + d);
      assert Break(text, end + d + 1) || end + d + 1 == |text|;
    }
  }

  /** The copied line reads the same, up to the fused terminator. */
  lemma CopiedChomp(pre: string, text: string, start: nat, end: nat, d: int)
    requires start < |pre| && (start == 0 || Break(pre, start)) && end == LineEnd(pre, start)
    requires Copied(pre, text, start, end, d)
    ensures 0 <= start + d < |text|
    ensures Chomp(text[start + d..LineEnd(text, start + d)]) == Chomp(pre[start..end])
  {
    hide *;
    CopiedLine(pre, text, start, end, d);
    CopiedSlice(pre, text, start, end, d);
    assert text[start + d..end + d][end - start - 1] == pre[start..end][end - start - 1];
    FusedSlice(text, start + d, end + d, LineEnd(text, start + d));
  }

  lemma FusedSlice(text: string, x: nat, y: nat, e: nat)
    requires x < y <= e <= |text|
    requires e == y || (e == y + 1 && text[y - 1] == '\r' && text[y] == '\n')
    ensures Chomp(text[x..e]) == Chomp(text[x..y])
  {
  }

  lemma MovedLine(pre: string, patches: seq<Patch>, n: nat)
    requires Placed(pre, patches, 0) && 1 <= n <= NumLines(pre) && !Affected(pre, patches, n)
    ensures Copied(pre, NewText(pre, patches), StartOf(pre, n), LineEnd(pre, StartOf(pre, n)),
                   ShiftAt(patches, StartOf(pre, n)))
  {
    var text := NewText(pre, patches);
    var start := StartOf(pre, n);
    var end := LineEnd(pre, start);
    hide Affected, StartOf, LineEnd, ShiftAt, Splice, Origin, NumLines, Placed, Break, LineAt, GapLow, GapHigh, Delta;
    var k := UnaffectedLine(pre, patches, n);
    GapCopied(pre, patches, k, start, end);
  }

  /** A stretch that lies, with the character before it, in one gap is copied as it is. */
  lemma GapCopied(pre: string, patches: seq<Patch>, k: nat, start: nat, end: nat)
    requires Placed(pre, patches, 0) && k <= |patches| && start < end <= |pre|
    requires GapLow(patches, 0, k) <= start && (start > 0 ==> GapLow(patches, 0, k) < start)
    requires end <= GapHigh(pre, patches, k) && (start == 0 ==> k == 0)
    ensures Copied(pre, NewText(pre, patches), start, end, Delta(patches, k))
  {
    var text, d := NewText(pre, patches), Delta(patches, k);
    assert start == 0 ==> d == 0;
    CopiedChar(pre, patches, k, start);
    CopiedChar(pre, patches, k, end - 1);
    if end == |pre| {
      LastGap(pre, patches, k);
      SpliceLength(pre, patches, 0);
    }
    hide CopiedAt, Splice, Origin, Placed, Delta;
    forall p: nat | start - 1 <= p < end
      ensures CopiedAt(pre, text, d, p)
    {
      CopiedChar(pre, patches, k, p);
    }
  }

  lemma CopiedChar(pre: string, patches: seq<Patch>, k: nat, p: nat)
    requires Placed(pre, patches, 0) && k <= |patches| && GapLow(patches, 0, k) <= p < GapHigh(pre, patches, k)
    ensures CopiedAt(pre, NewText(pre, patches), Delta(patches, k), p)
  {
    hide Splice, Origin, Placed, Delta;
    KeptAt(pre, patches, 0, k, p);
  }

  lemma LastGap(pre: string, patches: seq<Patch>, k: nat)
    requires Placed(pre, patches, 0) && k <= |patches| && GapHigh(pre, patches, k) >= |pre|
    ensures k == |patches|
  {
    PlacedFacts(pre, patches, 0);
  }

  /** An inherited line shows exactly the text of the unaffected line it was moved from. */
  lemma InheritedLineText(pre: string, patches: seq<Patch>, n: nat)
    requires Placed(pre, patches, 0) && 1 <= n <= NumLines(pre) && !Affected(pre, patches, n)
    ensures |SplitLines(pre)| == NumLines(pre)
    ensures |SplitLines(NewText(pre, patches))| == NumLines(NewText(pre, patches))
    ensures 1 <= NewLine(pre, patches, n) <= NumLines(NewText(pre, patches))
    ensures Chomp(SplitLines(NewText(pre, patches))[NewLine(pre, patches, n) - 1])
         == Chomp(SplitLines(pre)[n - 1])
  {
    hide StartOf, NewText, ShiftAt, Copied, Affected, LineNumber;
    MovedLine(pre, patches, n);
    CopiedLineText(pre, NewText(pre, patches), n, ShiftAt(patches, StartOf(pre, n)));
  }

  lemma CopiedLineText(pre: string, text: string, n: nat, d: int)
    requires 1 <= n <= NumLines(pre)
    requires Copied(pre, text, StartOf(pre, n), LineEnd(pre, StartOf(pre, n)), d)
    ensures |SplitLines(pre)| == NumLines(pre) && |SplitLines(text)| == NumLines(text)
    ensures 1 <= LineNumber(text, StartOf(pre, n) + d) <= NumLines(text)
    ensures Chomp(SplitLines(text)[LineNumber(text, StartOf(pre, n) + d) - 1])
         == Chomp(SplitLines(pre)[n - 1])
  {
    hide *;
    var start := StartOf(pre, n);
    CopiedChomp(pre, text, start, LineEnd(pre, start), d);
    CopiedLine(pre, text, start, LineEnd(pre, start), d);
    LineOfStart(pre, start);
    LineOfStart(text, start + d);
  }

  lemma LineOfStart(s: string, p: nat)
    requires p < |s| && (p == 0 || Break(s, p))
    ensures 1 <= LineAt(s, p) <= NumLines(s) == |SplitLines(s)|
    ensures LineNumber(s, p) == LineAt(s, p)
    ensures SplitLines(s)[LineAt(s, p) - 1] == s[p..LineEnd(s, p)]
  {
    hide *;
    StartOfLine(s, p);
    LineFacts(s, LineAt(s, p));
    NumberInside(s, p);
  }

  lemma NumberInside(s: string, p: nat)
    requires p < |s|
    ensures LineNumber(s, p) == LineAt(s, p)
  {
  }

  /** Consecutive unaffected lines stay consecutive. */
  lemma NewLineNext(pre: string, patches: seq<Patch>, n: nat)
    requires Placed(pre, patches, 0) && 1 <= n < NumLines(pre)
    requires !Affected(pre, patches, n) && !Affected(pre, patches, n + 1)
    ensures NewLine(pre, patches, n + 1) == NewLine(pre, patches, n) + 1
  {
    hide StartOf, NewText, ShiftAt, Copied, Affected, LineNumber;
    SameShift(pre, patches, n);
    MovedLine(pre, patches, n);
    MovedLine(pre, patches, n + 1);
    CopiedNext(pre, NewText(pre, patches), n, ShiftAt(patches, StartOf(pre, n)));
  }

  lemma SameShift(pre: string, patches: seq<Patch>, n: nat)
    requires Placed(pre, patches, 0) && 1 <= n < NumLines(pre)
    requires !Affected(pre, patches, n) && !Affected(pre, patches, n + 1)
    ensures ShiftAt(patches, StartOf(pre, n)) == ShiftAt(patches, StartOf(pre, n + 1))
  {
    var k := UnaffectedLine(pre, patches, n);
    var k2 := UnaffectedLine(pre, patches, n + 1);
    NextStart(pre, n);
    SameGap(pre, patches, k, k2, StartOf(pre, n + 1) - 1, StartOf(pre, n));
  }

  lemma NextStart(pre: string, n: nat)
    requires 1 <= n < NumLines(pre)
    ensures StartOf(pre, n + 1) == LineEnd(pre, StartOf(pre, n))
  {
    CountLines(pre);
    SplitAt(pre, 0, n - 1);
  }

  lemma CopiedNext(pre: string, text: string, n: nat, d: int)
    requires 1 <= n < NumLines(pre)
    requires Copied(pre, text, StartOf(pre, n), LineEnd(pre, StartOf(pre, n)), d)
    requires Copied(pre, text, StartOf(pre, n + 1), LineEnd(pre, StartOf(pre, n + 1)), d)
    ensures LineNumber(text, StartOf(pre, n + 1) + d) == LineNumber(text, StartOf(pre, n) + d) + 1
  {
    hide *;
    var x, y := StartOf(pre, n) + d, StartOf(pre, n + 1) + d;
    NextStart(pre, n);
    CopiedLine(pre, text, StartOf(pre, n), StartOf(pre, n + 1), d);
    CopiedLine(pre, text, StartOf(pre, n + 1), LineEnd(pre, StartOf(pre, n + 1)), d);
    NextLineNumber(text, x, y);
  }

  lemma NextLineNumber(s: string, x: nat, y: nat)
    requires x < y < |s| && Break(s, y) && y <= LineEnd(s, x)
    ensures LineNumber(s, y) == LineNumber(s, x) + 1
  {
    hide Break, LineEnd;
    LineAtSpan(s, x, y - 1);
  }

  /** Offset `p`, kept in gap `j`, and offset `q` of the line before it, kept in gap `i`. */
  lemma SameGap(pre: string, patches: seq<Patch>, i: nat, j: nat, p: nat, q: nat)
    requires Placed(pre, patches, 0) && i <= |patches| && j <= |patches|
    requires GapLow(patches, 0, j) <= p < GapHigh(pre, patches, j) && q <= p
    requires GapLow(patches, 0, i) <= q && p < GapHigh(pre, patches, i)
    ensures i == j
  {
    PlacedFacts(pre, patches, 0);
  }

  lemma {:induction false} NewLineRun(pre: string, patches: seq<Patch>, first: nat, n: nat)
    requires Placed(pre, patches, 0) && 1 <= first <= n <= NumLines(pre)
    requires forall m :: first <= m <= n ==> !Affected(pre, patches, m)
    ensures NewLine(pre, patches, n) == NewLine(pre, patches, first) + (n - first)
    decreases n
  {
    if first < n {
      NewLineRun(pre, patches, first, n - 1);
      NewLineNext(pre, patches, n - 1);
    }
  }

  // ----- the tool's computation of both kinds of credit

  /** Line `n` was readable before the edit and no patch affected it. */
  ghost predicate Carried(pre: string, patches: seq<Patch>, covered: seq<Interval>, n: int) {
    1 <= n <= NumLines(pre) && Covers(MergeLines(covered), n) && !Affected(pre, patches, n)
  }

  /** Line `m` of the new text is where some carried line moved to. */
  ghost predicate Inherited(pre: string, patches: seq<Patch>, covered: seq<Interval>, m: int)
    requires Placed(pre, patches, 0)
  {
    exists n :: Carried(pre, patches, covered, n) && NewLine(pre, patches, n) == m
  }

  /** A last line that no patch affects stays last. */
  lemma LastStaysLast(pre: string, patches: seq<Patch>)
    requires Placed(pre, patches, 0) && pre != "" && !Affected(pre, patches, NumLines(pre))
    ensures NewLine(pre, patches, NumLines(pre)) == NumLines(NewText(pre, patches))
  {
    var n, text := NumLines(pre), NewText(pre, patches);
    var start := StartOf(pre, n);
    var d := ShiftAt(patches, start);
    LastEnds(pre, start);
    MovedLine(pre, patches, n);
    assert |pre| + d == |text|;
    hide StartOf, NewText, ShiftAt, Affected, Placed, Copied;
    CopiedLine(pre, text, start, LineEnd(pre, start), d);
    LastLine(text, start + d);
  }

  lemma LastEnds(s: string, p: nat)
    requires p < |s| && LineAt(s, p) == NumLines(s)
    ensures LineEnd(s, p) == |s|
  {
    var e := LineEnd(s, p);
    LineAtSpan(s, p, |s| - 1);
  }

  lemma LastLine(s: string, p: nat)
    requires p < |s| && LineEnd(s, p) == |s|
    ensures LineNumber(s, p) == NumLines(s)
  {
    LineAtSpan(s, p, |s| - 1);
    assert LineNumber(s, p) == LineAt(s, p);
  }

  lemma CoversAppend(rs: seq<Interval>, r: Interval, x: int)
    ensures Covers(rs + [r], x) <==> Covers(rs, x) || r.lo <= x < r.hi
  {
  }

  /** Pre-image lines each patch affects, as half-open line intervals. */
  method AffectedRanges(pre: string, patches: seq<Patch>) returns (affected: seq<Interval>)
    requires Placed(pre, patches, 0)
    ensures OneBased(affected)
    ensures forall n: nat :: Covers(affected, n) <==> Affected(pre, patches, n)
  {
    PlacedFacts(pre, patches, 0);
    affected := [];
    for i := 0 to |patches|
      invariant OneBased(affected)
      invariant forall n: nat :: Covers(affected, n) <==> Affected(pre, patches[..i], n)
    {
      var first, last := LineRangeForOffsets(pre, patches[i].start, patches[i].end);
      var r := Interval(first, last + 1);
      forall n: nat
        ensures Covers(affected + [r], n) <==> Affected(pre, patches[..i + 1], n)
      {
        CoversAppend(affected, r, n);
        AffectedAppend(pre, patches[..i], patches[i], n);
        assert patches[..i + 1] == patches[..i] + [patches[i]];
      }
      affected := affected + [r];
    }
    assert patches[..|patches|] == patches;
  }

  lemma AffectedAppend(pre: string, patches: seq<Patch>, p: Patch, n: nat)
    ensures Affected(pre, patches + [p], n) <==>
      Affected(pre, patches, n) || LineNumber(pre, p.start) <= n <= LineNumber(pre, p.end)
  {
    var all := patches + [p];
    if Affected(pre, patches, n) {
      var k :| 0 <= k < |patches|
        && LineNumber(pre, patches[k].start) <= n <= LineNumber(pre, patches[k].end);
      assert all[k] == patches[k];
    }
    if LineNumber(pre, p.start) <= n <= LineNumber(pre, p.end) {
      assert all[|patches|] == p;
    }
  }

  /** Lines of the new text around each replacement, with the tool's running offset delta. */
  method StandaloneRanges(pre: string, patches: seq<Patch>, text: string) returns (ranges: seq<Interval>)
    requires Placed(pre, patches, 0) && text == NewText(pre, patches)
    ensures OneBased(ranges)
    ensures forall m: nat :: Covers(ranges, m) <==> Standalone(pre, patches, m)
  {
    ranges := [];
    var delta := 0;
    for i := 0 to |patches|
      invariant delta == Delta(patches, i)
      invariant OneBased(ranges)
      invariant forall m: nat :: Covers(ranges, m) <==>
        (exists k :: 0 <= k < i &&
           LineNumber(text, NewStart(patches, k)) <= m <= LineNumber(text, NewEnd(patches, k)))
    {
      var newStart := patches[i].start + delta;
      var newEnd := newStart + |patches[i].text|;
      var first, last := LineRangeForOffsets(text, newStart, newEnd);
      var r := Interval(first, last + 1);
      forall m: nat
        ensures Covers(ranges + [r], m) <==>
          (exists k :: 0 <= k < i + 1 &&
             LineNumber(text, NewStart(patches, k)) <= m <= LineNumber(text, NewEnd(patches, k)))
      {
        CoversAppend(ranges, r, m);
        assert LineNumber(text, NewStart(patches, i)) == first;
      }
      ranges := ranges + [r];
      DeltaStep(patches, i);
      delta := delta + |patches[i].text| - (patches[i].end - patches[i].start);
    }
  }

  /** The shift of one offset, summed over the recorded growths. */
  method SumShifts(patches: seq<Patch>, offset: nat) returns (shift: int)
    ensures shift == ShiftAt(patches, offset)
  {
    shift := 0;
    assert patches[0..] == patches;
    for i := 0 to |patches|
      invariant shift + ShiftAt(patches[i..], offset) == ShiftAt(patches, offset)
    {
      assert patches[i..][1..] == patches[i + 1..];
      if patches[i].end <= offset {
        shift := shift + |patches[i].text| - (patches[i].end - patches[i].start);
      }
    }
    assert patches[|patches|..] == [];
  }

  /** The fragments are the readable lines no patch affects, also past the end of the file. */
  ghost predicate Fragments(pre: string, patches: seq<Patch>, covered: seq<Interval>, fragments: seq<Interval>) {
    && Proper(fragments) && OneBased(fragments)
    && forall n: nat :: 1 <= n ==>
         (Covers(fragments, n) <==> Covers(MergeLines(covered), n) && !Affected(pre, patches, n))
  }

  /** Some carried line of the fragments moved to line `m`. */
  ghost predicate MovedTo(pre: string, patches: seq<Patch>, covered: seq<Interval>, fragments: seq<Interval>, m: int)
    requires Placed(pre, patches, 0)
  {
    exists n :: Covers(fragments, n) && Carried(pre, patches, covered, n) && NewLine(pre, patches, n) == m
  }

  /** Unaffected covered fragments, moved to their lines of the new text. */
  method InheritedRanges(pre: string, patches: seq<Patch>, text: string, fragments: seq<Interval>,
                         ghost covered: seq<Interval>)
    returns (ranges: seq<Interval>)
    requires Placed(pre, patches, 0) && text == NewText(pre, patches)
    requires Fragments(pre, patches, covered, fragments)
    ensures OneBased(ranges)
    ensures forall m :: 1 <= m <= NumLines(text) ==> (Covers(ranges, m) <==> Inherited(pre, patches, covered, m))
  {
    hide *;
    ranges := [];
    var starts := TextLineStarts(pre);
    CountLines(pre);
    NoneMoved(pre, patches, covered);
    for i := 0 to |fragments|
      invariant Moved(pre, patches, covered, fragments[..i], ranges)
    {
      var f := fragments[i];
      assert fragments[..i + 1] == fragments[..i] + [f];
      FragmentFacts(pre, patches, covered, fragments, i);
      if |starts| == 0 || f.lo > |starts| {
        MovedBeyond(pre, patches, covered, fragments[..i], f, ranges);
        continue;
      }
      var offset := starts[f.lo - 1];
      var shift := SumShifts(patches, offset);
      var first := LineNumberAtOffset(text, offset + shift);
      MovedFirst(pre, patches, f.lo, offset, shift, text);
      MovedMore(pre, patches, covered, fragments[..i], f, ranges);
      ranges := ranges + [Interval(first, first + (f.hi - 1 - f.lo) + 1)];
    }
    assert fragments[..|fragments|] == fragments;
    MovedIsInherited(pre, patches, covered, fragments, ranges);
  }

  lemma MovedIsInherited(pre: string, patches: seq<Patch>, covered: seq<Interval>, fragments: seq<Interval>,
                         ranges: seq<Interval>)
    requires Placed(pre, patches, 0) && Fragments(pre, patches, covered, fragments)
    requires Moved(pre, patches, covered, fragments, ranges)
    ensures OneBased(ranges)
    ensures forall m :: 1 <= m <= NumLines(NewText(pre, patches)) ==>
      (Covers(ranges, m) <==> Inherited(pre, patches, covered, m))
  {
    hide MovedTo, Inherited, Placed, NumLines, Covers, Fragments, NewText;
    forall m {
      AllMoved(pre, patches, covered, fragments, m);
    }
  }

  /** Among the lines of the new text, the ranges are where the carried lines of the fragments moved. */
  ghost predicate Moved(pre: string, patches: seq<Patch>, covered: seq<Interval>, fragments: seq<Interval>,
                        ranges: seq<Interval>)
    requires Placed(pre, patches, 0)
  {
    && OneBased(ranges)
    && forall m :: 1 <= m <= NumLines(NewText(pre, patches)) ==>
         (Covers(ranges, m) <==> MovedTo(pre, patches, covered, fragments, m))
  }

  lemma NoneMoved(pre: string, patches: seq<Patch>, covered: seq<Interval>)
    requires Placed(pre, patches, 0)
    ensures Moved(pre, patches, covered, [], [])
  {
    hide NewLine, Carried, Placed;
  }

  lemma MovedBeyond(pre: string, patches: seq<Patch>, covered: seq<Interval>, before: seq<Interval>, f: Interval,
                    ranges: seq<Interval>)
    requires Placed(pre, patches, 0) && Moved(pre, patches, covered, before, ranges) && f.lo > NumLines(pre)
    ensures Moved(pre, patches, covered, before + [f], ranges)
  {
    hide MovedTo, Placed, NumLines, Covers;
    forall m {
      FragmentBeyond(pre, patches, covered, before, f, m);
    }
  }

  lemma MovedMore(pre: string, patches: seq<Patch>, covered: seq<Interval>, before: seq<Interval>, f: Interval,
                  ranges: seq<Interval>)
    requires Placed(pre, patches, 0) && Moved(pre, patches, covered, before, ranges)
    requires 1 <= f.lo < f.hi && f.lo <= NumLines(pre)
    requires forall n: nat :: f.lo <= n < f.hi ==> Covers(MergeLines(covered), n) && !Affected(pre, patches, n)
    ensures var first := NewLine(pre, patches, f.lo);
      Moved(pre, patches, covered, before + [f], ranges + [Interval(first, first + (f.hi - 1 - f.lo) + 1)])
  {
    var first := NewLine(pre, patches, f.lo);
    assert first >= 1;
    var r := Interval(first, first + (f.hi - 1 - f.lo) + 1);
    hide MovedTo, Placed, NumLines, Covers, NewLine, Affected, MergeLines;
    assert OneBased(ranges + [r]);
    forall m | 1 <= m <= NumLines(NewText(pre, patches))
      ensures Covers(ranges + [r], m) <==> MovedTo(pre, patches, covered, before + [f], m)
    {
      CoversAppend(ranges, r, m);
      FragmentMoves(pre, patches, covered, before, f, m);
    }
  }

  lemma AllMoved(pre: string, patches: seq<Patch>, covered: seq<Interval>, fragments: seq<Interval>, m: int)
    requires Placed(pre, patches, 0) && Fragments(pre, patches, covered, fragments)
    ensures MovedTo(pre, patches, covered, fragments, m) <==> Inherited(pre, patches, covered, m)
  {
    hide NewLine, MergeLines, Affected, Placed;
    assert forall n :: Carried(pre, patches, covered, n) ==> Covers(fragments, n);
  }

  lemma MovedFirst(pre: string, patches: seq<Patch>, n: nat, offset: nat, shift: int, text: string)
    requires Placed(pre, patches, 0) && 1 <= n <= NumLines(pre) == |LineStarts(pre)|
    requires offset == LineStarts(pre)[n - 1] && shift == ShiftAt(patches, offset)
    requires text == NewText(pre, patches)
    ensures LineNumber(text, offset + shift) == NewLine(pre, patches, n)
  {
  }

  lemma FragmentFacts(pre: string, patches: seq<Patch>, covered: seq<Interval>, fragments: seq<Interval>, i: nat)
    requires Fragments(pre, patches, covered, fragments) && i < |fragments|
    ensures 1 <= fragments[i].lo < fragments[i].hi
    ensures forall n: nat :: fragments[i].lo <= n < fragments[i].hi ==>
      Covers(MergeLines(covered), n) && !Affected(pre, patches, n)
  {
    var f := fragments[i];
    assert f in fragments;
    hide MergeLines, Affected;
    forall n: nat | f.lo <= n < f.hi
      ensures Covers(MergeLines(covered), n) && !Affected(pre, patches, n)
    {
      assert Covers(fragments, n);
    }
  }

  /** A fragment past the end of the file moves no line. */
  lemma FragmentBeyond(pre: string, patches: seq<Patch>, covered: seq<Interval>,
                       before: seq<Interval>, f: Interval, m: int)
    requires Placed(pre, patches, 0) && f.lo > NumLines(pre)
    ensures MovedTo(pre, patches, covered, before + [f], m) <==> MovedTo(pre, patches, covered, before, m)
  {
    hide NewLine, MergeLines, Affected, Placed;
    forall n
      ensures Covers(before + [f], n) <==> Covers(before, n) || f.lo <= n < f.hi
    {
      CoversAppend(before, f, n);
    }
  }

  /** The lines of a fragment that exist move together, and the last line of the file to the last line. */
  lemma FragmentRun(pre: string, patches: seq<Patch>, f: Interval, n: nat)
    requires Placed(pre, patches, 0) && 1 <= f.lo <= n < f.hi && n <= NumLines(pre)
    requires forall k: nat :: f.lo <= k < f.hi ==> !Affected(pre, patches, k)
    ensures NewLine(pre, patches, n) == NewLine(pre, patches, f.lo) + (n - f.lo)
    ensures n == NumLines(pre) ==> NewLine(pre, patches, n) == NumLines(NewText(pre, patches))
  {
    hide NewLine, Affected, Placed, NewText;
    NewLineRun(pre, patches, f.lo, n);
    if n == NumLines(pre) {
      LastStaysLast(pre, patches);
    }
  }

  /** Within the new text a moved fragment covers exactly the lines its carried lines moved to. */
  lemma FragmentMoves(pre: string, patches: seq<Patch>, covered: seq<Interval>,
                      before: seq<Interval>, f: Interval, m: int)
    requires Placed(pre, patches, 0) && 1 <= f.lo < f.hi && f.lo <= NumLines(pre)
    requires forall n: nat :: f.lo <= n < f.hi ==> Covers(MergeLines(covered), n) && !Affected(pre, patches, n)
    requires m <= NumLines(NewText(pre, patches))
    ensures MovedTo(pre, patches, covered, before + [f], m)
      <==> MovedTo(pre, patches, covered, before, m)
           || (NewLine(pre, patches, f.lo) <= m < NewLine(pre, patches, f.lo) + (f.hi - f.lo))
  {
    hide NewLine, MergeLines, Affected, Placed, NewText, NumLines;
    forall n: nat | f.lo <= n < f.hi && n <= NumLines(pre)
      ensures Carried(pre, patches, covered, n)
      ensures NewLine(pre, patches, n) == NewLine(pre, patches, f.lo) + (n - f.lo)
      ensures n == NumLines(pre) ==> NewLine(pre, patches, n) == NumLines(NewText(pre, patches))
    {
      FragmentRun(pre, patches, f, n);
    }
    forall n
      ensures Covers(before + [f], n) <==> Covers(before, n) || f.lo <= n < f.hi
    {
      CoversAppend(before, f, n);
    }
    hide Covers;
    var first := NewLine(pre, patches, f.lo);
    if first <= m < first + (f.hi - f.lo) {
      var n: nat := f.lo + (m - first);
      if f.hi > NumLines(pre) {
        assert NewLine(pre, patches, NumLines(pre)) == first + (NumLines(pre) - f.lo);
      }
      assert Covers(before + [f], n) && Carried(pre, patches, covered, n) && NewLine(pre, patches, n) == m;
    }
  }

  /** Both kinds of credit, in normal form: `standalone` is exactly the lines around the patches,
      `inherited` exactly the lines the carried lines moved to, among the lines there are.
   */
  method PostEditAuthority(pre: string, text: string, patches: seq<Patch>, covered: seq<Interval>)
    returns (standalone: seq<Interval>, inherited: seq<Interval>)
    requires Placed(pre, patches, 0) && text == NewText(pre, patches)
    ensures Canonical(standalone) && Canonical(inherited) && OneBased(standalone) && OneBased(inherited)
    ensures forall m: nat :: Covers(standalone, m) <==> Standalone(pre, patches, m)
    ensures forall m :: 1 <= m <= NumLines(text) ==> (Covers(inherited, m) <==> Inherited(pre, patches, covered, m))
  {
    var affected := AffectedRanges(pre, patches);
    var ranges := StandaloneRanges(pre, patches, text);
    var fragments := SubtractLineRanges(covered, affected);
    MergeLinesFacts(affected);
    assert Fragments(pre, patches, covered, fragments) by {
      hide MergeLines, Affected;
    }
    hide Fragments, Inherited, Standalone, NumLines, MergeLines;
    var moved := InheritedRanges(pre, patches, text, fragments, covered);
    standalone := MergeRanges(ranges);
    inherited := MergeRanges(moved);
    MergeLinesFacts(ranges);
    MergeLinesFacts(moved);
  }

  /** Everything inherited was read before: the text of the line is that of a covered line of the
      pre-image that no replacement touched.
   */
  lemma InheritedWasRead(pre: string, patches: seq<Patch>, covered: seq<Interval>, m: int)
    requires Placed(pre, patches, 0)
    requires Inherited(pre, patches, covered, m)
    ensures |SplitLines(pre)| == NumLines(pre)
    ensures 1 <= m <= |SplitLines(NewText(pre, patches))|
    ensures exists n :: Carried(pre, patches, covered, n) &&
              Chomp(SplitLines(NewText(pre, patches))[m - 1]) == Chomp(SplitLines(pre)[n - 1])
  {
    hide Chomp, SplitLines, NewText, NewLine, Affected, NumLines, Covers, Placed;
    CountLines(pre);
    var n :| Carried(pre, patches, covered, n) && NewLine(pre, patches, n) == m;
    InheritedLineText(pre, patches, n);
  }
}
