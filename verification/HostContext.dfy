/** What the host's context says, told from what happened.

    At any time of a run an operation is pending exactly when it was announced and not settled
    since, a result is live exactly when it was committed and not retired since, and the
    revision counts the changes.
 */
module HostContext {
  import opened FileRegistry
  import opened Prelude
  import opened RemoteScope
  import opened SyncProtocol

  /** The operation needs no further announcement. */
  predicate Settles(a: Action, oid: string) {
    (a.Commit? && a.item.oid == oid) || a == Discard(oid) || a.Close?
  }

  predicate TakesBack(a: Action, rid: string) {
    (a.Retire? && rid in a.rids) || a.Close?
  }

  ghost predicate Pending(actions: seq<Action>, n: nat, oid: string)
    requires n <= |actions|
  {
    exists i :: 0 <= i < n && actions[i] == Begin(oid) && forall j :: i < j < n ==> !Settles(actions[j], oid)
  }

  ghost predicate Committed(actions: seq<Action>, n: nat, rid: string, item: Item)
    requires n <= |actions|
  {
    exists i :: 0 <= i < n && actions[i].Commit? && actions[i].rid == rid && actions[i].item == item
                && forall j :: i < j < n ==> !TakesBack(actions[j], rid)
  }

  /** The results last said to be visible; all of them before anything was said. */
  function LastVisible(actions: seq<Action>, n: nat): Option<seq<string>>
    requires n <= |actions|
  {
    if n == 0 then None
    else if actions[n - 1].SetVisible? then actions[n - 1].visible else LastVisible(actions, n - 1)
  }

  /** A change of what the host would say. */
  predicate Changes(a: Action) {
    a.Begin? || a.Commit? || a.Discard? || a.Retire? || a.Close? || a.SetVisible?
  }

  function ChangeCount(actions: seq<Action>, n: nat): nat
    requires n <= |actions|
  {
    if n == 0 then 0 else ChangeCount(actions, n - 1) + if Changes(actions[n - 1]) then 1 else 0
  }

  // ----- one step

  lemma WithoutMembers(ids: seq<string>, id: string, x: string)
    requires Distinct(ids)
    ensures x in Without(ids, id) <==> x in ids && x != id
  {
    WithoutDistinct(ids, id);
  }

  lemma NotPendingYet(sys: System, oid: string)
    requires HistoryInv(sys) && !Announced(sys.hist, |sys.hist|, oid)
    ensures oid !in sys.host.snap.pending
  {
    assert oid !in Keep(sys.hist[sys.host.revision]);
  }

  /** No operation is announced twice. */
  lemma DistinctStep(sys: System, a: Action, after: System)
    requires Next(sys, a, after) && Distinct(sys.host.snap.pending) && HistoryInv(sys)
    ensures Distinct(after.host.snap.pending)
  {
    hide SyncStep, ExecuteStep, Without;
    if a.Begin? {
      NotPendingYet(sys, a.oid);
    } else if a.Commit? {
      WithoutDistinct(sys.host.snap.pending, a.item.oid);
    } else if a.Discard? {
      WithoutDistinct(sys.host.snap.pending, a.oid);
    }
  }

  lemma {:induction false} DistinctAlways(states: seq<System>, actions: seq<Action>, n: nat)
    requires Reaches(states, actions) && n < |states|
    ensures Distinct(states[n].host.snap.pending)
    decreases n
  {
    if n > 0 {
      DistinctAlways(states, actions, n - 1);
      ReachableInv(states, actions, n - 1);
      StepOfRun(states, actions, n - 1);
      hide Next, Reaches, HistoryInv;
      DistinctStep(states[n - 1], actions[n - 1], states[n]);
    }
  }

  lemma PendingStep(sys: System, a: Action, after: System, oid: string)
    requires Next(sys, a, after) && Distinct(sys.host.snap.pending)
    ensures oid in after.host.snap.pending <==> a == Begin(oid) || (oid in sys.host.snap.pending && !Settles(a, oid))
  {
    hide SyncStep, ExecuteStep, Without, Announced;
    if a.Commit? {
      WithoutMembers(sys.host.snap.pending, a.item.oid, oid);
    } else if a.Discard? {
      WithoutMembers(sys.host.snap.pending, a.oid, oid);
    }
  }

  lemma LiveStep(sys: System, a: Action, after: System, rid: string, item: Item)
    requires Next(sys, a, after)
    ensures (rid in after.host.snap.live && after.host.snap.live[rid] == item) <==>
      || (a.Commit? && a.rid == rid && a.item == item)
      || (rid in sys.host.snap.live && sys.host.snap.live[rid] == item && !TakesBack(a, rid))
  {
    hide SyncStep, ExecuteStep, Without, Announced;
  }

  lemma OtherStep(sys: System, a: Action, after: System)
    requires Next(sys, a, after)
    ensures after.host.snap.closed <==> sys.host.snap.closed || a.Close?
    ensures after.host.snap.visible == if a.SetVisible? then a.visible else sys.host.snap.visible
    ensures after.host.revision == sys.host.revision + if Changes(a) then 1 else 0
  {
    hide SyncStep, ExecuteStep, Without, Announced;
  }

  // ----- the history told again

  lemma PendingMore(actions: seq<Action>, n: nat, oid: string)
    requires n < |actions|
    ensures Pending(actions, n + 1, oid) <==>
      actions[n] == Begin(oid) || (Pending(actions, n, oid) && !Settles(actions[n], oid))
  {
  }

  lemma CommittedMore(actions: seq<Action>, n: nat, rid: string, item: Item)
    requires n < |actions|
    ensures Committed(actions, n + 1, rid, item) <==>
      || (actions[n].Commit? && actions[n].rid == rid && actions[n].item == item)
      || (Committed(actions, n, rid, item) && !TakesBack(actions[n], rid))
  {
  }

  lemma {:induction false} PendingIs(states: seq<System>, actions: seq<Action>, n: nat, oid: string)
    requires Reaches(states, actions) && n < |states|
    ensures oid in states[n].host.snap.pending <==> Pending(actions, n, oid)
    decreases n
  {
    hide Next, Settles;
    if n > 0 {
      PendingIs(states, actions, n - 1, oid);
      StepOfRun(states, actions, n - 1);
      DistinctAlways(states, actions, n - 1);
      PendingStep(states[n - 1], actions[n - 1], states[n], oid);
      PendingMore(actions, n - 1, oid);
    }
  }

  lemma {:induction false} LiveIs(states: seq<System>, actions: seq<Action>, n: nat, rid: string, item: Item)
    requires Reaches(states, actions) && n < |states|
    ensures (rid in states[n].host.snap.live && states[n].host.snap.live[rid] == item) <==> Committed(actions, n, rid, item)
    decreases n
  {
    hide Next, TakesBack;
    if n > 0 {
      LiveIs(states, actions, n - 1, rid, item);
      StepOfRun(states, actions, n - 1);
      LiveStep(states[n - 1], actions[n - 1], states[n], rid, item);
      CommittedMore(actions, n - 1, rid, item);
    }
  }

  lemma {:induction false} RestIs(states: seq<System>, actions: seq<Action>, n: nat)
    requires Reaches(states, actions) && n < |states|
    ensures states[n].host.snap.closed <==> exists i :: 0 <= i < n && actions[i].Close?
    ensures states[n].host.snap.visible == LastVisible(actions, n)
    ensures states[n].host.revision == ChangeCount(actions, n)
    decreases n
  {
    hide Next;
    if n > 0 {
      RestIs(states, actions, n - 1);
      StepOfRun(states, actions, n - 1);
      OtherStep(states[n - 1], actions[n - 1], states[n]);
    }
  }

  /** In every run the host's context is what was announced and not settled, committed and not taken back, and last
      said to be visible; the revision counts the changes, so equal revisions mean equal contexts. */
  lemma ContextIs(states: seq<System>, actions: seq<Action>, n: nat)
    requires Reaches(states, actions) && n < |states|
    ensures forall oid :: oid in states[n].host.snap.pending <==> Pending(actions, n, oid)
    ensures forall rid, item :: (rid in states[n].host.snap.live && states[n].host.snap.live[rid] == item)
                                <==> Committed(actions, n, rid, item)
    ensures states[n].host.snap.closed <==> exists i :: 0 <= i < n && actions[i].Close?
    ensures states[n].host.snap.visible == LastVisible(actions, n)
    ensures states[n].host.revision == ChangeCount(actions, n)
  {
    hide Reaches, Pending, Committed, LastVisible, ChangeCount;
    forall oid {
      PendingIs(states, actions, n, oid);
    }
    forall rid, item {
      LiveIs(states, actions, n, rid, item);
    }
    RestIs(states, actions, n);
  }
}
