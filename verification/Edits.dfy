/** Batch exact replacement: find every match, refuse what clashes, splice the rest.

    Every edit is matched against the same pre-image. A sweep over the sorted matches with a
    priority queue of open ones reports which edits overlap; those are dropped as a whole and
    the others are applied together.
 */
module Edits {
  import opened Ranges
  import opened Splicing
  import opened TextLines

  datatype Edit = Edit(oldString: string, newString: string, replaceAll: bool)

  datatype Reason =
    | EmptyOldString | NoChange | NotFoundMatch | MultipleMatches | PartialRead | Overlapping

  datatype FileState = FileState(fullView: bool, covered: seq<Interval>)

  predicate CoversLines(state: FileState, first: int, last: int) {
    state.fullView || HoldsRun(state.covered, first, last)
  }

  // ----- matches

  predicate Occurs(content: string, search: string, at: int) {
    0 <= at <= |content| - |search| && content[at..at + |search|] == search
  }

  /** `content.find(search, from)`. */
  function Find(content: string, search: string, from: nat): (at: int)
    ensures at == -1 || (from <= at && Occurs(content, search, at))
    ensures forall i :: from <= i && (at == -1 || i < at) ==> !Occurs(content, search, i)
    decreases |content| - from
  {
    if from + |search| > |content| then -1
    else if Occurs(content, search, from) then from
    else Find(content, search, from + 1)
  }

  /** Every match, overlapping ones included, from left to right. */
  ghost predicate AllMatches(content: string, search: string, starts: seq<nat>) {
    && (forall i, j :: 0 <= i < j < |starts| ==> starts[i] < starts[j])
    && forall s: nat :: s in starts <==> Occurs(content, search, s)
  }

  method MatchOffsets(content: string, search: string) returns (starts: seq<nat>)
    ensures AllMatches(content, search, starts)
  {
    starts := [];
    var cursor: nat := 0;
    while true
      invariant forall i, j :: 0 <= i < j < |starts| ==> starts[i] < starts[j]
      invariant forall i :: 0 <= i < |starts| ==> starts[i] < cursor
      invariant forall s: nat :: s in starts <==> s < cursor && Occurs(content, search, s)
      invariant cursor <= |content| + 1
      decreases |content| + 1 - cursor
    {
      var at := Find(content, search, cursor);
      if at < 0 {
        return;
      }
      starts := starts + [at];
      cursor := at + 1;
    }
  }

  // ----- the sweep over sorted matches

  datatype Replacement = Replacement(patch: Patch, owner: nat)

  predicate Overlap(p: Patch, q: Patch) {
    p.start < q.end && q.start < p.end
  }

  predicate ByStart(rs: seq<Replacement>) {
    forall i, j :: 0 <= i < j < |rs| ==> rs[i].patch.start <= rs[j].patch.start
  }

  predicate Solid(rs: seq<Replacement>) {
    forall i :: 0 <= i < |rs| ==> rs[i].patch.start < rs[i].patch.end
  }

  /** Edits `i` and `j` have overlapping matches; for `i == j`, two different matches of it. */
  ghost predicate Clash(rs: seq<Replacement>, i: nat, j: nat) {
    exists a, b :: 0 <= a < |rs| && 0 <= b < |rs| && a != b
      && rs[a].owner == i && rs[b].owner == j && Overlap(rs[a].patch, rs[b].patch)
  }

  ghost predicate Reports(conflicts: map<nat, set<nat>>, i: nat, j: nat) {
    i in conflicts && j in conflicts[i]
  }

  /** The priority queue: entries `(end, owner)` in increasing order, as `heapq` serves them. */
  datatype Entry = Entry(end: nat, owner: nat)

  predicate HeapOrdered(heap: seq<Entry>) {
    forall i, j :: 0 <= i < j < |heap| ==> heap[i].end <= heap[j].end
  }

  function HeapPush(heap: seq<Entry>, e: Entry): (h: seq<Entry>)
    requires HeapOrdered(heap)
    ensures HeapOrdered(h)
    ensures forall x :: x in h <==> x in heap || x == e
  {
    if heap == [] then [e]
    else if e.end < heap[0].end || (e.end == heap[0].end && e.owner <= heap[0].owner) then [e] + heap
    else
      assert heap == [heap[0]] + heap[1..];
      var rest := HeapPush(heap[1..], e);
      assert forall i :: 0 <= i < |rest| ==> rest[i] in rest;
      [heap[0]] + rest
  }

  /** Open entries of one owner. */
  function Count(heap: seq<Entry>, owner: nat): nat {
    if heap == [] then 0
    else (if heap[0].owner == owner then 1 else 0) + Count(heap[1..], owner)
  }

  lemma {:induction false} CountPositive(heap: seq<Entry>, owner: nat)
    ensures Count(heap, owner) > 0 <==> exists e :: e in heap && e.owner == owner
    decreases |heap|
  {
    if heap != [] {
      CountPositive(heap[1..], owner);
      assert heap == [heap[0]] + heap[1..];
      if heap[0].owner == owner { assert heap[0] in heap; }
    }
  }

  lemma {:induction false} CountPush(heap: seq<Entry>, e: Entry, owner: nat)
    requires HeapOrdered(heap)
    ensures Count(HeapPush(heap, e), owner)
         == Count(heap, owner) + (if e.owner == owner then 1 else 0)
    decreases |heap|
  {
    var h := HeapPush(heap, e);
    if heap == [] {
    } else if e.end < heap[0].end || (e.end == heap[0].end && e.owner <= heap[0].owner) {
      assert h[1..] == heap;
    } else {
      CountPush(heap[1..], e, owner);
      assert h[1..] == HeapPush(heap[1..], e);
    }
  }

  /** Owners with an open match, each with how many. */
  ghost predicate Tallied(heap: seq<Entry>, owners: map<nat, nat>) {
    && (forall o: nat :: o in owners <==> Count(heap, o) > 0)
    && (forall o: nat :: o in owners ==> owners[o] == Count(heap, o))
  }

  /** The queue holds every match of the first `k` still open after `bound`, and nothing foreign. */
  ghost predicate Tracks(rs: seq<Replacement>, k: nat, bound: int, heap: seq<Entry>)
    requires k <= |rs|
  {
    && HeapOrdered(heap)
    && (forall a :: 0 <= a < k && rs[a].patch.end > bound ==> Entry(rs[a].patch.end, rs[a].owner) in heap)
    && (forall e :: e in heap ==> exists a :: 0 <= a < k && e == Entry(rs[a].patch.end, rs[a].owner))
  }

  lemma PopTracks(rs: seq<Replacement>, k: nat, start: int, heap: seq<Entry>)
    requires k <= |rs| && Tracks(rs, k, start, heap) && heap != [] && heap[0].end <= start
    ensures Tracks(rs, k, start, heap[1..])
  {
    assert heap == [heap[0]] + heap[1..];
    forall a | 0 <= a < k && rs[a].patch.end > start
      ensures Entry(rs[a].patch.end, rs[a].owner) in heap[1..]
    {
      assert Entry(rs[a].patch.end, rs[a].owner) in heap;
    }
    forall e | e in heap[1..]
      ensures exists a :: 0 <= a < k && e == Entry(rs[a].patch.end, rs[a].owner)
    {
      assert e in heap;
    }
    assert HeapOrdered(heap[1..]);
  }

  lemma PushTracks(rs: seq<Replacement>, k: nat, heap: seq<Entry>)
    requires k < |rs| && Tracks(rs, k, rs[k].patch.start, heap)
    ensures Tracks(rs, k + 1, rs[k].patch.start, HeapPush(heap, Entry(rs[k].patch.end, rs[k].owner)))
  {
  }

  function Untally(owners: map<nat, nat>, owner: nat): map<nat, nat>
    requires owner in owners && owners[owner] > 0
  {
    if owners[owner] == 1 then owners - {owner} else owners[owner := owners[owner] - 1]
  }

  function Tally(owners: map<nat, nat>, owner: nat): map<nat, nat> {
    owners[owner := (if owner in owners then owners[owner] else 0) + 1]
  }

  lemma PopTallied(heap: seq<Entry>, owners: map<nat, nat>)
    requires heap != [] && Tallied(heap, owners)
    ensures heap[0].owner in owners && owners[heap[0].owner] > 0
    ensures Tallied(heap[1..], Untally(owners, heap[0].owner))
  {
  }

  lemma PushTallied(heap: seq<Entry>, owners: map<nat, nat>, e: Entry)
    requires HeapOrdered(heap) && Tallied(heap, owners)
    ensures Tallied(HeapPush(heap, e), Tally(owners, e.owner))
  {
    forall o: nat
      ensures Count(HeapPush(heap, e), o) == Count(heap, o) + (if e.owner == o then 1 else 0)
    {
      CountPush(heap, e, o);
    }
  }

  /** Close every match that ends at or before `start`. */
  method CloseEnded(ghost rs: seq<Replacement>, ghost k: nat, start: nat,
                    heap0: seq<Entry>, owners0: map<nat, nat>)
    returns (heap: seq<Entry>, owners: map<nat, nat>)
    requires k <= |rs|
    requires Tracks(rs, k, start, heap0) && Tallied(heap0, owners0)
    ensures Tracks(rs, k, start, heap) && Tallied(heap, owners)
    ensures forall e :: e in heap ==> e.end > start
  {
    heap, owners := heap0, owners0;
    while heap != [] && heap[0].end <= start
      invariant Tracks(rs, k, start, heap) && Tallied(heap, owners)
      decreases |heap|
    {
      PopTracks(rs, k, start, heap);
      PopTallied(heap, owners);
      owners := Untally(owners, heap[0].owner);
      heap := heap[1..];
    }
  }

  /** `conflicts.setdefault(i, set()).add(j)`. */
  function Link(conflicts: map<nat, set<nat>>, i: nat, j: nat): (c: map<nat, set<nat>>)
    ensures forall x: nat, y: nat :: Reports(c, x, y) <==> Reports(conflicts, x, y) || (x == i && y == j)
    ensures c.Keys == conflicts.Keys + {i}
  {
    conflicts[i := (if i in conflicts then conflicts[i] else {}) + {j}]
  }

  /** Record `index` against every owner with an open match, both ways. */
  method LinkAll(conflicts0: map<nat, set<nat>>, index: nat, owners: set<nat>)
    returns (conflicts: map<nat, set<nat>>)
    requires forall x :: x in conflicts0 ==> exists y: nat :: Reports(conflicts0, x, y)
    ensures forall x: nat, y: nat :: Reports(conflicts, x, y) <==>
      Reports(conflicts0, x, y) || (x == index && y in owners) || (y == index && x in owners)
    ensures forall x :: x in conflicts ==> exists y: nat :: Reports(conflicts, x, y)
  {
    conflicts := conflicts0;
    var todo := owners;
    while todo != {}
      invariant todo <= owners
      invariant forall x: nat, y: nat :: Reports(conflicts, x, y) <==>
        || Reports(conflicts0, x, y)
        || (x == index && y in owners - todo)
        || (y == index && x in owners - todo)
      invariant forall x :: x in conflicts ==> exists y: nat :: Reports(conflicts, x, y)
      decreases todo
    {
      var owner :| owner in todo;
      conflicts := Link(Link(conflicts, index, owner), owner, index);
      assert Reports(conflicts, index, owner) && Reports(conflicts, owner, index);
      todo := todo - {owner};
    }
  }

  lemma ClashStep(rs: seq<Replacement>, k: nat, i: nat, j: nat)
    requires k < |rs| && ByStart(rs) && Solid(rs)
    ensures Clash(rs[..k + 1], i, j) <==>
      || Clash(rs[..k], i, j)
      || (i == rs[k].owner && exists a :: 0 <= a < k && rs[a].owner == j && rs[a].patch.end > rs[k].patch.start)
      || (j == rs[k].owner && exists a :: 0 <= a < k && rs[a].owner == i && rs[a].patch.end > rs[k].patch.start)
  {
  }

  lemma OpenOwners(rs: seq<Replacement>, k: nat, start: nat, heap: seq<Entry>, owners: map<nat, nat>, o: nat)
    requires k <= |rs| && Tracks(rs, k, start, heap) && Tallied(heap, owners)
    requires forall e :: e in heap ==> e.end > start
    ensures o in owners <==> exists a :: 0 <= a < k && rs[a].owner == o && rs[a].patch.end > start
  {
    CountPositive(heap, o);
    if exists a :: 0 <= a < k && rs[a].owner == o && rs[a].patch.end > start {
      var a :| 0 <= a < k && rs[a].owner == o && rs[a].patch.end > start;
      assert Entry(rs[a].patch.end, rs[a].owner) in heap;
    }
  }

  lemma ClashWithOpen(rs: seq<Replacement>, k: nat, heap: seq<Entry>, owners: map<nat, nat>, i: nat, j: nat)
    requires k < |rs| && ByStart(rs) && Solid(rs)
    requires Tracks(rs, k, rs[k].patch.start, heap) && Tallied(heap, owners)
    requires forall e :: e in heap ==> e.end > rs[k].patch.start
    ensures Clash(rs[..k + 1], i, j) <==>
      Clash(rs[..k], i, j) || (i == rs[k].owner && j in owners) || (j == rs[k].owner && i in owners)
  {
    ClashStep(rs, k, i, j);
    OpenOwners(rs, k, rs[k].patch.start, heap, owners, i);
    OpenOwners(rs, k, rs[k].patch.start, heap, owners, j);
  }

  /** The sweep reports a pair of edits exactly when two of their matches overlap. */
  method OverlappingEdits(rs: seq<Replacement>) returns (conflicts: map<nat, set<nat>>)
    requires ByStart(rs) && Solid(rs)
    ensures forall i: nat, j: nat :: Reports(conflicts, i, j) <==> Clash(rs, i, j)
    ensures forall i :: i in conflicts ==> exists j: nat :: Reports(conflicts, i, j)
  {
    var heap: seq<Entry>, owners: map<nat, nat> := [], map[];
    conflicts := map[];
    for k := 0 to |rs|
      invariant Tracks(rs, k, if k == 0 then -1 else rs[k - 1].patch.start, heap)
      invariant Tallied(heap, owners)
      invariant forall i: nat, j: nat :: Reports(conflicts, i, j) <==> Clash(rs[..k], i, j)
      invariant forall i :: i in conflicts ==> exists j: nat :: Reports(conflicts, i, j)
    {
      var start, index := rs[k].patch.start, rs[k].owner;
      assert Tracks(rs, k, start, heap);
      heap, owners := CloseEnded(rs, k, start, heap, owners);
      forall i: nat, j: nat
        ensures Clash(rs[..k + 1], i, j) <==>
          Clash(rs[..k], i, j) || (i == index && j in owners) || (j == index && i in owners)
      {
        ClashWithOpen(rs, k, heap, owners, i, j);
      }
      hide Clash, Tracks, Tallied, Reports, ByStart, Solid;
      conflicts := LinkAll(conflicts, index, owners.Keys);
      PushTracks(rs, k, heap);
      TracksOrdered(rs, k, start, heap);
      PushTallied(heap, owners, Entry(rs[k].patch.end, index));
      heap := HeapPush(heap, Entry(rs[k].patch.end, index));
      owners := Tally(owners, index);
    }
    assert rs[..|rs|] == rs;
  }

  lemma TracksOrdered(rs: seq<Replacement>, k: nat, bound: int, heap: seq<Entry>)
    requires k <= |rs| && Tracks(rs, k, bound, heap)
    ensures HeapOrdered(heap)
  {
  }
}
