/** The worker's half of the file context: one scope per logical context, changed only by
    revision-fenced synchronization and by executed operations.
 */
module FileRegistry {
  import opened Delivery
  import opened FileAuthority
  import opened Prelude
  import opened Ranges

  /** A committed result: the operation that produced it and the proof that was delivered. */
  datatype Item = Item(oid: string, manifest: Manifest)

  /** One synchronized context. Its digest is taken to be injective, so the snapshot stands for it. */
  datatype Snapshot = Snapshot(live: map<string, Item>, pending: seq<string>, closed: bool,
                               visible: Option<seq<string>>)

  datatype Scope = Scope(
    revision: int, fingerprint: Option<Snapshot>, staged: map<string, Manifest>,
    retiredResults: set<string>, retiredOps: set<string>,
    live: map<string, Item>, visible: Option<set<string>>, closed: bool)

  const NEW_SCOPE := Scope(-1, None, map[], {}, {}, map[], None, false)

  datatype Verdict =
    | Accepted | Invalid | Stale | Conflicting | ScopeClosed
    | BadIdentity | Resurrected | UnknownStaged | BadProof | Immutable | RetiredOperation

  function LiveOps(live: map<string, Item>): set<string> {
    set rid | rid in live :: live[rid].oid
  }

  /** The operations a snapshot still speaks for. */
  function Keep(s: Snapshot): set<string> {
    (set oid | oid in s.pending) + LiveOps(s.live)
  }

  function VisibleSet(v: Option<seq<string>>): Option<set<string>> {
    if v.None? then None else Some(set rid | rid in v.value)
  }

  /** The worker shows its tools the results the host lists, or all when the host lists none. */
  ghost predicate SeesAlike(visible: Option<set<string>>, listed: Option<seq<string>>) {
    forall rid :: Visible(visible, rid) <==> listed.None? || rid in listed.value
  }

  predicate WellTyped(revision: int, s: Snapshot) {
    revision >= 0 && "" !in s.pending && (s.visible.Some? ==> "" !in s.visible.value)
  }

  /** The checks in front of the item loop; `None` lets the synchronization go on. */
  function Precheck(w: Scope, revision: int, s: Snapshot): Option<Verdict> {
    if !WellTyped(revision, s) then Some(Invalid)
    else if revision < w.revision then Some(Stale)
    else if revision == w.revision then Some(if w.fingerprint == Some(s) then Accepted else Conflicting)
    else if w.closed || (s.closed && (s.live != map[] || s.pending != [])) then Some(ScopeClosed)
    else None
  }

  function CheckItem(w: Scope, rid: string, item: Item): Verdict {
    if rid == "" || item.oid == "" then BadIdentity
    else if rid in w.retiredResults || item.oid in w.retiredOps then Resurrected
    else if item.oid !in w.staged then UnknownStaged
    else if !ValidProof(w.staged[item.oid], item.manifest) then BadProof
    else if rid in w.live && w.live[rid] != item then Immutable
    else Accepted
  }

  /** The scope after an accepted newer snapshot. */
  function Synced(w: Scope, revision: int, s: Snapshot): Scope {
    Scope(revision, Some(s),
          map oid | oid in w.staged && oid in Keep(s) :: w.staged[oid],
          w.retiredResults + (w.live.Keys - s.live.Keys),
          w.retiredOps + (w.staged.Keys - Keep(s)),
          s.live, VisibleSet(s.visible), s.closed)
  }

  lemma SyncedSees(w: Scope, revision: int, s: Snapshot)
    ensures SeesAlike(Synced(w, revision, s).visible, s.visible)
  {
  }

  /** Every outcome of one synchronization; which bad item is named first is left open. */
  ghost predicate SyncStep(w: Scope, revision: int, s: Snapshot, after: Scope, verdict: Verdict) {
    if Precheck(w, revision, s).Some? then
      after == w && verdict == Precheck(w, revision, s).value
    else if exists rid :: rid in s.live && CheckItem(w, rid, s.live[rid]) != Accepted then
      after == w && exists rid :: rid in s.live && CheckItem(w, rid, s.live[rid]) == verdict && verdict != Accepted
    else if Keep(s) * w.retiredOps != {} then
      after == w && verdict == RetiredOperation
    else
      after == Synced(w, revision, s) && verdict == Accepted
  }

  /** Execution is refused unless the caller names the current revision and a new operation. */
  predicate Executable(w: Scope, revision: int, oid: string) {
    !w.closed && revision == w.revision && revision >= 0 && oid !in w.retiredOps && oid !in w.staged
  }

  /** An operation's delivery, if it has one, is staged. */
  function Executed(w: Scope, oid: string, delivery: Option<Manifest>): Scope {
    if delivery.None? then w else w.(staged := w.staged[oid := delivery.value])
  }

  /** The registry runs an operation again exactly when its run staged no delivery. */
  lemma RunsAgainIff(w: Scope, revision: int, oid: string, delivery: Option<Manifest>)
    requires Executable(w, revision, oid)
    ensures Executable(Executed(w, oid, delivery), revision, oid) <==> delivery.None?
  {
  }

  ghost predicate ExecuteStep(w: Scope, revision: int, oid: string, delivery: Option<Manifest>, after: Scope, ran: bool) {
    ran == Executable(w, revision, oid) && after == if ran then Executed(w, oid, delivery) else w
  }

  // ----- the registry

  class Registry {
    var scopes: map<string, Scope>
    const capacity: nat

    constructor (limit: nat)
      ensures scopes == map[] && capacity == limit
    {
      scopes, capacity := map[], limit;
    }

    ghost predicate Valid()
      reads this
    {
      |scopes| <= capacity
    }

    /** The named scope, created on first use. */
    method Open(name: string) returns (scope: Option<Scope>)
      requires Valid()
      modifies this
      ensures Valid()
      ensures scope.Some? <==> name != "" && |name| <= 512 && (name in old(scopes) || |old(scopes)| < capacity)
      ensures scope.None? ==> scopes == old(scopes)
      ensures scope.Some? ==>
        && scope.value == (if name in old(scopes) then old(scopes)[name] else NEW_SCOPE)
        && scopes == old(scopes)[name := scope.value]
    {
      if name == "" || |name| > 512 {
        return None;
      }
      if name !in scopes {
        if |scopes| >= capacity {
          return None;
        }
        scopes := scopes[name := NEW_SCOPE];
      }
      return Some(scopes[name]);
    }

    /** No scope, or one synchronization step of the named scope and of no other. */
    method Sync(name: string, revision: int, s: Snapshot) returns (verdict: Option<Verdict>)
      requires Valid()
      modifies this
      ensures Valid()
      ensures verdict.None? ==> scopes == old(scopes)
      ensures verdict.Some? ==>
        var before := if name in old(scopes) then old(scopes)[name] else NEW_SCOPE;
        && name in scopes && scopes == old(scopes)[name := scopes[name]]
        && SyncStep(before, revision, s, scopes[name], verdict.value)
        && (verdict.value == Accepted && revision > before.revision ==> SeesAlike(scopes[name].visible, s.visible))
    {
      var found := Open(name);
      if found.None? {
        return None;
      }
      var w := found.value;
      var first := Precheck(w, revision, s);
      if first.Some? {
        return first;
      }
      var bad := CheckItems(w, s);
      if bad.Some? {
        return bad;
      }
      if Keep(s) * w.retiredOps != {} {
        return Some(RetiredOperation);
      }
      SyncedSees(w, revision, s);
      scopes := scopes[name := Synced(w, revision, s)];
      return Some(Accepted);
    }

    /** The executed tool's delivery is an input here. */
    method Execute(name: string, revision: int, oid: string, delivery: Option<Manifest>) returns (ran: Option<bool>)
      requires Valid()
      modifies this
      ensures Valid()
      ensures ran.None? ==> scopes == old(scopes)
      ensures ran.Some? ==>
        var before := if name in old(scopes) then old(scopes)[name] else NEW_SCOPE;
        && name in scopes && scopes == old(scopes)[name := scopes[name]]
        && ExecuteStep(before, revision, oid, delivery, scopes[name], ran.value)
    {
      var found := Open(name);
      if found.None? {
        return None;
      }
      var w := found.value;
      if !Executable(w, revision, oid) {
        return Some(false);
      }
      scopes := scopes[name := Executed(w, oid, delivery)];
      return Some(true);
    }
  }

  /** The loop over the live items: a verdict against one of them, or none at all. */
  method CheckItems(w: Scope, s: Snapshot) returns (bad: Option<Verdict>)
    ensures bad.None? <==> forall rid :: rid in s.live ==> CheckItem(w, rid, s.live[rid]) == Accepted
    ensures bad.Some? ==> bad.value != Accepted
    ensures bad.Some? ==> exists rid :: rid in s.live && CheckItem(w, rid, s.live[rid]) == bad.value
  {
    var todo := s.live.Keys;
    while todo != {}
      invariant todo <= s.live.Keys
      invariant forall rid :: rid in s.live && rid !in todo ==> CheckItem(w, rid, s.live[rid]) == Accepted
      decreases |todo|
    {
      var rid :| rid in todo;
      todo := todo - {rid};
      var verdict := CheckItem(w, rid, s.live[rid]);
      if verdict != Accepted {
        return Some(verdict);
      }
    }
    return None;
  }

  // ----- every run of a scope

  /** What every reachable scope satisfies. */
  ghost predicate Inv(w: Scope) {
    && w.revision >= -1
    && w.retiredOps !! w.staged.Keys
    && w.retiredResults !! w.live.Keys
    && (forall rid :: rid in w.live ==>
          w.live[rid].oid in w.staged && ValidProof(w.staged[w.live[rid].oid], w.live[rid].manifest))
    && (w.closed ==> w.live == map[] && w.staged == map[])
  }

  /** One change of a scope, by whatever requests arrive. */
  ghost predicate Step(w: Scope, after: Scope) {
    || (exists revision, s, verdict :: SyncStep(w, revision, s, after, verdict))
    || (exists revision, oid, delivery, ran :: ExecuteStep(w, revision, oid, delivery, after, ran))
  }

  /** What a change may do to a scope. */
  ghost predicate Forward(w: Scope, after: Scope) {
    && w.revision <= after.revision
    && w.retiredResults <= after.retiredResults && w.retiredOps <= after.retiredOps
    && (w.closed ==> after == w)
    && (forall rid :: rid in w.live && rid !in after.live ==> rid in after.retiredResults)
    && (forall oid :: oid in w.staged && oid !in after.staged ==> oid in after.retiredOps)
    && (forall oid :: oid in w.staged && oid in after.staged ==> after.staged[oid] == w.staged[oid])
    && (forall rid :: rid in w.live && rid in after.live ==> after.live[rid] == w.live[rid])
  }

  lemma SyncedKeeps(w: Scope, revision: int, s: Snapshot)
    requires Inv(w) && Precheck(w, revision, s).None?
    requires forall rid :: rid in s.live ==> CheckItem(w, rid, s.live[rid]) == Accepted
    requires Keep(s) * w.retiredOps == {}
    ensures Inv(Synced(w, revision, s)) && Forward(w, Synced(w, revision, s))
  {
    var after := Synced(w, revision, s);
    hide ValidProof;
    forall rid | rid in after.live
      ensures after.live[rid].oid in after.staged
        && ValidProof(after.staged[after.live[rid].oid], after.live[rid].manifest)
      ensures rid !in after.retiredResults
    {
      assert CheckItem(w, rid, s.live[rid]) == Accepted;
      assert s.live[rid].oid in LiveOps(s.live);
    }
    if after.closed {
      assert Keep(s) == {};
    }
  }

  /** A synchronization keeps the invariant; unless accepted for a new revision it changes nothing. */
  lemma SyncKeeps(w: Scope, revision: int, s: Snapshot, after: Scope, verdict: Verdict)
    requires Inv(w) && SyncStep(w, revision, s, after, verdict)
    ensures Inv(after) && Forward(w, after)
    ensures verdict != Accepted ==> after == w
    ensures after != w ==> verdict == Accepted && after.revision == revision > w.revision
  {
    if Precheck(w, revision, s).None?
       && (forall rid :: rid in s.live ==> CheckItem(w, rid, s.live[rid]) == Accepted)
       && Keep(s) * w.retiredOps == {} {
      SyncedKeeps(w, revision, s);
    }
  }

  lemma ExecuteKeeps(w: Scope, revision: int, oid: string, delivery: Option<Manifest>, after: Scope, ran: bool)
    requires Inv(w) && ExecuteStep(w, revision, oid, delivery, after, ran)
    ensures Inv(after) && Forward(w, after) && after.revision == w.revision
    ensures !ran ==> after == w
  {
  }

  ghost predicate Run(states: seq<Scope>) {
    states != [] && states[0] == NEW_SCOPE && forall i :: 0 <= i < |states| - 1 ==> Step(states[i], states[i + 1])
  }

  lemma StepKeeps(w: Scope, after: Scope)
    requires Inv(w) && Step(w, after)
    ensures Inv(after) && Forward(w, after)
  {
    hide Inv, Forward;
    if revision, s, verdict :| SyncStep(w, revision, s, after, verdict) {
      SyncKeeps(w, revision, s, after, verdict);
    } else {
      var revision, oid, delivery, ran :| ExecuteStep(w, revision, oid, delivery, after, ran);
      ExecuteKeeps(w, revision, oid, delivery, after, ran);
    }
  }

  lemma {:induction false} RunKeeps(states: seq<Scope>, i: nat)
    requires Run(states) && i < |states|
    ensures Inv(states[i])
    decreases i
  {
    if i > 0 {
      RunKeeps(states, i - 1);
      hide Step, Inv;
      assert Step(states[i - 1], states[i]);
      StepKeeps(states[i - 1], states[i]);
    }
  }

  /** Over any stretch of a run, revisions and tombstones only grow and a closed scope is final. */
  lemma RunForward(states: seq<Scope>, i: nat, j: nat)
    requires Run(states) && i <= j < |states|
    ensures states[i].revision <= states[j].revision
    ensures states[i].retiredResults <= states[j].retiredResults && states[i].retiredOps <= states[j].retiredOps
    ensures states[i].closed ==> states[j] == states[i]
    ensures forall rid :: rid in states[i].live ==> rid in states[j].live || rid in states[j].retiredResults
    ensures forall oid :: oid in states[i].staged ==>
      (oid in states[j].staged && states[j].staged[oid] == states[i].staged[oid]) || oid in states[j].retiredOps
  {
    ForwardOverRun(states, i, j);
    hide Run;
  }

  lemma ForwardThrough(a: Scope, b: Scope, c: Scope)
    requires Inv(b) && Inv(c) && Forward(a, b) && Forward(b, c)
    ensures Forward(a, c)
  {
  }

  lemma {:induction false} ForwardOverRun(states: seq<Scope>, i: nat, j: nat)
    requires Run(states) && i <= j < |states|
    ensures Forward(states[i], states[j])
    decreases j
  {
    hide *;
    RunKeeps(states, i);
    if i < j {
      ForwardOverRun(states, i, j - 1);
      RunKeeps(states, j - 1);
      RunStep(states, j - 1);
      StepKeeps(states[j - 1], states[j]);
      ForwardThrough(states[i], states[j - 1], states[j]);
    } else {
      ForwardSame(states[i]);
    }
  }

  lemma RunStep(states: seq<Scope>, i: nat)
    requires Run(states) && i + 1 < |states|
    ensures Step(states[i], states[i + 1])
  {
    hide Step;
  }

  lemma ForwardSame(w: Scope)
    ensures Forward(w, w)
  {
  }

  /** A result that was live and is gone, or an operation that was staged and is gone, never returns. */
  lemma NeverResurrected(states: seq<Scope>, i: nat, j: nat, k: nat, id: string)
    requires Run(states) && i <= j <= k < |states|
    ensures id in states[i].live && id !in states[j].live ==> id !in states[k].live
    ensures id in states[i].staged && id !in states[j].staged ==> id !in states[k].staged
  {
    RunForward(states, i, j);
    RunForward(states, j, k);
    RunKeeps(states, k);
    hide Run;
  }

  /** A closed scope holds nothing, for good. */
  lemma ClosedForGood(states: seq<Scope>, i: nat, j: nat)
    requires Run(states) && i <= j < |states| && states[i].closed
    ensures states[j] == states[i] && states[j].live == map[] && states[j].staged == map[]
  {
    RunForward(states, i, j);
    RunKeeps(states, i);
  }

  /** An operation that staged a delivery is refused from then on, also after it was dropped. */
  lemma StagedNeverRuns(states: seq<Scope>, i: nat, j: nat, revision: int, oid: string)
    requires Run(states) && i <= j < |states| && oid in states[i].staged
    ensures !Executable(states[j], revision, oid)
  {
    RunForward(states, i, j);
  }

  /** An operation that failed, or showed nothing, runs as often as it is asked for. */
  lemma RunsTwice() returns (w: Scope, states: seq<Scope>)
    ensures Run(states) && states[|states| - 1] == w
    ensures ExecuteStep(w, 0, "op", None, w, true)
  {
    var s := Snapshot(map[], ["op"], false, None);
    w := Synced(NEW_SCOPE, 0, s);
    states := [NEW_SCOPE, w];
    assert SyncStep(NEW_SCOPE, 0, s, w, Accepted);
  }

  // ----- the authority of a scope

  /** The leases of a set of committed results. */
  function LeasesOf(live: map<string, Item>): Leases {
    map rid | rid in live && live[rid].manifest.fileKey != "" && live[rid].manifest.digest != "" ::
      Apply(None, live[rid].manifest)
  }

  /** What the leases would be had every staged proof been delivered in full. */
  function StagedLeases(w: Scope): Leases
    requires forall rid :: rid in w.live ==> w.live[rid].oid in w.staged
  {
    map rid | rid in w.live && w.live[rid].manifest.fileKey != "" && w.live[rid].manifest.digest != "" ::
      Apply(None, w.staged[w.live[rid].oid])
  }

  lemma DeliveredBelowStaged(w: Scope)
    requires Inv(w)
    ensures LeasesBelow(LeasesOf(w.live), StagedLeases(w))
  {
    hide Apply, Below, ValidProof;
    forall rid | rid in LeasesOf(w.live)
      ensures rid in StagedLeases(w) && Below(LeasesOf(w.live)[rid], StagedLeases(w)[rid])
    {
      ValidProofBelow(w.staged[w.live[rid].oid], w.live[rid].manifest);
    }
  }

  /** In every reachable scope the host's deliveries grant no line beyond what the worker itself staged. */
  lemma GrantWithinStaged(states: seq<Scope>, i: nat, fileKey: string, digest: string, line: int)
    requires Run(states) && i < |states|
    requires GrantCovers(LeasesOf(states[i].live), states[i].visible, fileKey, digest, line)
    ensures Inv(states[i])
    ensures GrantCovers(StagedLeases(states[i]), states[i].visible, fileKey, digest, line)
  {
    RunKeeps(states, i);
    var w := states[i];
    assert forall rid :: rid in w.live ==> w.live[rid].oid in w.staged;
    hide *;
    DeliveredBelowStaged(w);
    GrantMonotone(LeasesOf(w.live), StagedLeases(w), w.visible, w.visible, fileKey, digest, line);
  }
}
