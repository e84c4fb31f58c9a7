/** The host's scope object: each of its methods is a step of the synchronization protocol. */
module HostScope {
  import opened Delivery
  import opened FileRegistry
  import opened Prelude
  import opened RemoteScope
  import SyncProtocol

  /** The protocol with the host's new state and its history. */
  function Advanced(sys: SyncProtocol.System, after: Host): SyncProtocol.System {
    sys.(host := after, hist := sys.hist + [after.snap])
  }

  /** What the action asks of the world outside the host: an unused operation id, or a worker's receipt. */
  ghost predicate Allowed(sys: SyncProtocol.System, a: SyncProtocol.Action) {
    match a
    case Begin(oid) => oid != "" && !SyncProtocol.Announced(sys.hist, |sys.hist|, oid)
    case Commit(rid, item, staged) =>
      rid != "" && SyncProtocol.Receipt(item.oid, staged) in sys.net && ValidProof(staged, item.manifest)
    case SetVisible(v) => v.Some? ==> "" !in v.value
    case _ => true
  }

  /** In every state of the protocol with this host, the change is that step of the protocol. */
  ghost predicate IsStep(before: Host, a: SyncProtocol.Action, after: Host)
    requires a.Begin? || a.Commit? || a.Discard? || a.Retire? || a.Close? || a.SetVisible?
  {
    forall sys: SyncProtocol.System :: sys.host == before && Allowed(sys, a) ==>
      SyncProtocol.HostStep(sys, a, Advanced(sys, after))
  }

  class Scope {
    var revision: nat
    var acked: int
    var live: map<string, Item>
    var pending: seq<string>
    var closed: bool
    var visible: Option<seq<string>>

    function State(): Host
      reads this
    {
      Host(revision, acked, Snapshot(live, pending, closed, visible))
    }

    constructor ()
      ensures State() == Host(0, -1, EMPTY_CONTEXT)
    {
      revision, acked, live, pending, closed, visible := 0, -1, map[], [], false, None;
    }

    /** A new operation is announced before it is sent. */
    method Begin(oid: string)
      modifies this
      ensures State() == Changed(old(State()), Begun(old(State()).snap, oid))
      ensures IsStep(old(State()), SyncProtocol.Begin(oid), State())
    {
      pending := pending + [oid];
      revision := revision + 1;
    }

    method Commit(rid: string, item: Item) returns (answer: CommitResult)
      modifies this
      ensures answer == CommitAnswer(old(State()).snap, rid, item)
      ensures State() ==
        if answer.Done? then Changed(old(State()), Committed(old(State()).snap, rid, item)) else old(State())
      ensures forall staged :: answer.Done? ==> IsStep(old(State()), SyncProtocol.Commit(rid, item, staged), State())
    {
      if closed {
        return NoActiveScope;
      }
      if rid in live {
        return if live[rid] == item then Repeated else IdentityChanged;
      }
      if item.oid !in pending {
        return RetiredBefore;
      }
      live := live[rid := item];
      pending := Without(pending, item.oid);
      revision := revision + 1;
      return Done;
    }

    method Discard(oid: string)
      modifies this
      ensures State() ==
        if oid in old(pending) then Changed(old(State()), Discarded(old(State()).snap, oid)) else old(State())
      ensures oid in old(pending) ==> IsStep(old(State()), SyncProtocol.Discard(oid), State())
    {
      if oid in pending {
        pending := Without(pending, oid);
        revision := revision + 1;
      }
    }

    /** Any number of results leave in one revision; naming unknown ones changes nothing. */
    method Retire(rids: seq<string>)
      modifies this
      ensures State() ==
        if exists rid :: rid in rids && rid in old(live)
        then Changed(old(State()), Retired(old(State()).snap, set rid | rid in rids))
        else old(State())
      ensures State() != old(State()) ==> IsStep(old(State()), SyncProtocol.Retire(set rid | rid in rids), State())
    {
      var changed := false;
      for i := 0 to |rids|
        invariant live == old(live) - (set rid | rid in rids[..i])
        invariant changed <==> exists rid :: rid in rids[..i] && rid in old(live)
        invariant State().(snap := State().snap.(live := old(live))) == old(State())
      {
        assert rids[..i + 1] == rids[..i] + [rids[i]];
        changed := changed || rids[i] in live;
        live := live - {rids[i]};
      }
      assert rids[..|rids|] == rids;
      if changed {
        revision := revision + 1;
      } else {
        assert live == old(live);
      }
    }

    method Close()
      modifies this
      ensures State() == if old(closed) then old(State()) else Changed(old(State()), Closed(old(State()).snap))
      ensures !old(closed) ==> IsStep(old(State()), SyncProtocol.Close, State())
    {
      if !closed {
        live, pending, closed, revision := map[], [], true, revision + 1;
      }
    }

    method SetVisible(v: Option<seq<string>>)
      modifies this
      ensures State() ==
        if old(visible) == v then old(State()) else Changed(old(State()), old(State()).snap.(visible := v))
      ensures old(visible) != v ==> IsStep(old(State()), SyncProtocol.SetVisible(v), State())
    {
      if visible != v {
        visible := v;
        revision := revision + 1;
      }
    }

    /** The worker confirmed the revision that was sent. If that is still the current one, the worker now holds
        this very context, in every reachable state of the protocol. */
    method Confirm(sent: nat)
      modifies this
      ensures forall sys: SyncProtocol.System :: sys.host == old(State()) && SyncProtocol.Ack(sent) in sys.net ==>
        SyncProtocol.NetStep(sys, SyncProtocol.Confirm(sent), sys.(host := State()))
      ensures forall sys: SyncProtocol.System :: SyncProtocol.Reachable(sys) && sys.host == State() && sent == revision ==>
        SyncProtocol.Agrees(sys.worker, State().snap)
    {
      acked := sent;
      forall sys: SyncProtocol.System | SyncProtocol.Reachable(sys) && sys.host == State() && sent == revision
        ensures SyncProtocol.Agrees(sys.worker, State().snap)
      {
        SyncProtocol.ConfirmedIsEqual(sys);
      }
    }
  }
}
