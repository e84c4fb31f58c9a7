/** Host and worker over a network that may lose, delay, duplicate and reorder every message.

    The network only ever gains messages: one that is never delivered is lost, one delivered twice
    is duplicated. `hist` records the snapshot the host had at each of its revisions.
 */
module SyncProtocol {
  import opened Delivery
  import opened FileAuthority
  import opened FileRegistry
  import opened Prelude
  import opened RemoteScope

  datatype Message =
    | SyncMsg(revision: int, snap: Snapshot)
    | ExecMsg(revision: int, oid: string)
    | Receipt(oid: string, manifest: Manifest)
    | Ack(revision: int)

  datatype System = System(host: Host, hist: seq<Snapshot>, worker: FileRegistry.Scope, net: set<Message>)

  datatype Action =
    | Begin(oid: string)
    | Commit(rid: string, item: Item, staged: Manifest)
    | Discard(oid: string)
    | Retire(rids: set<string>)
    | Close
    | SetVisible(visible: Option<seq<string>>)
    | SendSync
    | SendExec(oid: string)
    | Confirm(revision: int)
    | DeliverSync(revision: int, snap: Snapshot, verdict: Verdict)
    | DeliverExec(revision: int, oid: string, delivery: Option<Manifest>, ran: bool)

  const START := System(Host(0, -1, EMPTY_CONTEXT), [EMPTY_CONTEXT], NEW_SCOPE, {})

  /** The operation was announced at or before revision `n`. */
  ghost predicate Announced(hist: seq<Snapshot>, n: int, oid: string) {
    exists i :: 0 <= i <= n && i < |hist| && oid in Keep(hist[i])
  }

  /** A host change appends the new snapshot to the history. */
  ghost predicate HostChange(sys: System, s: Snapshot, after: System) {
    after == sys.(host := Changed(sys.host, s), hist := sys.hist + [s])
  }

  ghost predicate HostStep(sys: System, a: Action, after: System)
    requires a.Begin? || a.Commit? || a.Discard? || a.Retire? || a.Close? || a.SetVisible?
  {
    var s := sys.host.snap;
    match a
    case Begin(oid) =>
      oid != "" && !Announced(sys.hist, |sys.hist|, oid) && HostChange(sys, Begun(s, oid), after)
    case Commit(rid, item, staged) =>
      && rid != "" && Receipt(item.oid, staged) in sys.net && ValidProof(staged, item.manifest)
      && CommitAnswer(s, rid, item) == Done && HostChange(sys, Committed(s, rid, item), after)
    case Discard(oid) => oid in s.pending && HostChange(sys, Discarded(s, oid), after)
    case Retire(rids) => HostChange(sys, Retired(s, rids), after)
    case Close => !s.closed && HostChange(sys, Closed(s), after)
    case SetVisible(v) => (v.Some? ==> "" !in v.value) && HostChange(sys, s.(visible := v), after)
  }

  ghost predicate NetStep(sys: System, a: Action, after: System)
    requires !(a.Begin? || a.Commit? || a.Discard? || a.Retire? || a.Close? || a.SetVisible?)
  {
    match a
    case SendSync => after == sys.(net := sys.net + {SyncMsg(sys.host.revision, sys.host.snap)})
    case SendExec(oid) =>
      && sys.host.acked == sys.host.revision && Announced(sys.hist, |sys.hist|, oid)
      && after == sys.(net := sys.net + {ExecMsg(sys.host.revision, oid)})
    case Confirm(revision) =>
      Ack(revision) in sys.net && after == sys.(host := sys.host.(acked := revision))
    case DeliverSync(revision, snap, verdict) =>
      && SyncMsg(revision, snap) in sys.net
      && SyncStep(sys.worker, revision, snap, after.worker, verdict)
      && after == sys.(worker := after.worker,
                       net := if verdict == Accepted then sys.net + {Ack(revision)} else sys.net)
    case DeliverExec(revision, oid, delivery, ran) =>
      && ExecMsg(revision, oid) in sys.net
      && ExecuteStep(sys.worker, revision, oid, delivery, after.worker, ran)
      && after == sys.(worker := after.worker,
                       net := if ran && delivery.Some? then sys.net + {Receipt(oid, delivery.value)} else sys.net)
  }

  ghost predicate Next(sys: System, a: Action, after: System) {
    if a.Begin? || a.Commit? || a.Discard? || a.Retire? || a.Close? || a.SetVisible?
    then HostStep(sys, a, after) else NetStep(sys, a, after)
  }

  // ----- the host's history

  predicate Clean(s: Snapshot) {
    && "" !in s.pending && (s.visible.Some? ==> "" !in s.visible.value)
    && "" !in s.live && forall rid :: rid in s.live ==> s.live[rid].oid != ""
  }

  /** An operation, once dropped, is never spoken for again. */
  ghost predicate OpsOnce(hist: seq<Snapshot>) {
    forall i, j, k, oid :: 0 <= i <= j <= k < |hist| && oid in Keep(hist[i]) && oid in Keep(hist[k])
      ==> oid in Keep(hist[j])
  }

  /** A result id, once retired, is never committed again. */
  ghost predicate ResultsOnce(hist: seq<Snapshot>) {
    forall i, j, k, rid :: 0 <= i <= j <= k < |hist| && rid in hist[i].live && rid in hist[k].live
      ==> rid in hist[j].live && hist[j].live[rid] == hist[i].live[rid]
  }

  ghost predicate Backed(net: set<Message>, item: Item) {
    exists m :: Receipt(item.oid, m) in net && ValidProof(m, item.manifest)
  }

  ghost predicate AllBacked(net: set<Message>, s: Snapshot) {
    forall rid :: rid in s.live ==> Backed(net, s.live[rid])
  }

  ghost predicate HistoryInv(sys: System) {
    && |sys.hist| == sys.host.revision + 1 && sys.hist[sys.host.revision] == sys.host.snap
    && (forall i :: 0 <= i < |sys.hist| ==> Clean(sys.hist[i]) && AllBacked(sys.net, sys.hist[i]))
    && (forall i, j :: 0 <= i <= j < |sys.hist| && sys.hist[i].closed ==> sys.hist[j].closed)
    && OpsOnce(sys.hist)
  }

  // ----- the worker against the history

  ghost predicate OpGone(hist: seq<Snapshot>, n: int, oid: string) {
    exists i, j :: 0 <= i <= j <= n && j < |hist| && oid in Keep(hist[i]) && oid !in Keep(hist[j])
  }

  ghost predicate ResultGone(hist: seq<Snapshot>, n: int, rid: string) {
    exists i, j :: 0 <= i <= j <= n && j < |hist| && rid in hist[i].live && rid !in hist[j].live
  }

  /** The worker's context is the host's at the worker's revision. */
  ghost predicate Agrees(w: FileRegistry.Scope, s: Snapshot) {
    w.fingerprint == Some(s) && w.live == s.live && SeesAlike(w.visible, s.visible) && w.closed == s.closed
  }

  ghost predicate WorkerInv(hist: seq<Snapshot>, w: FileRegistry.Scope) {
    && -1 <= w.revision < |hist|
    && (if w.revision == -1 then w == NEW_SCOPE else Agrees(w, hist[w.revision]))
    && (forall oid :: oid in w.staged ==> Announced(hist, w.revision, oid))
    && (forall oid :: oid in w.retiredOps ==> OpGone(hist, w.revision, oid))
    && (forall rid :: rid in w.retiredResults ==> ResultGone(hist, w.revision, rid))
  }

  ghost predicate MessageInv(sys: System, m: Message) {
    match m
    case SyncMsg(revision, snap) => 0 <= revision < |sys.hist| && snap == sys.hist[revision]
    case ExecMsg(revision, oid) => 0 <= revision < |sys.hist| && Announced(sys.hist, revision, oid)
    case Receipt(oid, m) =>
      (oid in sys.worker.staged && sys.worker.staged[oid] == m) || oid in sys.worker.retiredOps
    case Ack(revision) => revision <= sys.worker.revision
  }

  ghost predicate SystemInv(sys: System) {
    && HistoryInv(sys) && WorkerInv(sys.hist, sys.worker)
    && (forall m :: m in sys.net ==> MessageInv(sys, m))
    && sys.host.acked <= sys.worker.revision
  }

  // ----- host steps keep it

  lemma AnnouncedLater(hist: seq<Snapshot>, s: Snapshot, n: int, oid: string)
    requires Announced(hist, n, oid)
    ensures Announced(hist + [s], n, oid)
  {
    var i :| 0 <= i <= n && i < |hist| && oid in Keep(hist[i]);
    assert (hist + [s])[i] == hist[i];
  }

  lemma OpGoneLater(hist: seq<Snapshot>, s: Snapshot, n: int, oid: string)
    requires OpGone(hist, n, oid)
    ensures OpGone(hist + [s], n, oid)
  {
    var i, j :| 0 <= i <= j <= n && j < |hist| && oid in Keep(hist[i]) && oid !in Keep(hist[j]);
    assert (hist + [s])[i] == hist[i] && (hist + [s])[j] == hist[j];
  }

  lemma ResultGoneLater(hist: seq<Snapshot>, s: Snapshot, n: int, rid: string)
    requires ResultGone(hist, n, rid)
    ensures ResultGone(hist + [s], n, rid)
  {
    var i, j :| 0 <= i <= j <= n && j < |hist| && rid in hist[i].live && rid !in hist[j].live;
    assert (hist + [s])[i] == hist[i] && (hist + [s])[j] == hist[j];
  }

  lemma WorkerInvLater(hist: seq<Snapshot>, s: Snapshot, w: FileRegistry.Scope)
    requires WorkerInv(hist, w)
    ensures WorkerInv(hist + [s], w)
  {
    hide Announced, OpGone, ResultGone;
    forall oid | oid in w.staged
      ensures Announced(hist + [s], w.revision, oid)
    {
      AnnouncedLater(hist, s, w.revision, oid);
    }
    forall oid | oid in w.retiredOps
      ensures OpGone(hist + [s], w.revision, oid)
    {
      OpGoneLater(hist, s, w.revision, oid);
    }
    forall rid | rid in w.retiredResults
      ensures ResultGone(hist + [s], w.revision, rid)
    {
      ResultGoneLater(hist, s, w.revision, rid);
    }
  }

  /** What a new snapshot may speak for: what the last one did, or a newly announced operation. */
  ghost predicate OpsFrom(hist: seq<Snapshot>, s: Snapshot) {
    hist != [] && forall oid :: oid in Keep(s) ==>
      oid in Keep(hist[|hist| - 1]) || !Announced(hist, |hist|, oid)
  }

  lemma OpsOnceStep(hist: seq<Snapshot>, s: Snapshot)
    requires OpsOnce(hist) && OpsFrom(hist, s)
    ensures OpsOnce(hist + [s])
  {
  }

  /** The obligations of a host change, in one place. */
  lemma HostChangeKeeps(sys: System, s: Snapshot, after: System)
    requires SystemInv(sys) && HostChange(sys, s, after)
    requires Clean(s) && AllBacked(sys.net, s) && OpsFrom(sys.hist, s)
    requires sys.host.snap.closed ==> s.closed
    ensures SystemInv(after)
  {
    hide Clean, AllBacked, OpsFrom, OpsOnce, Announced;
    OpsOnceStep(sys.hist, s);
    assert HistoryInv(after);
    WorkerInvLater(sys.hist, s, sys.worker);
    forall m | m in after.net
      ensures MessageInv(after, m)
    {
      assert MessageInv(sys, m);
      if m.ExecMsg? {
        AnnouncedLater(sys.hist, s, m.revision, m.oid);
      }
    }
  }

  /** The snapshot names nothing the other does not. */
  ghost predicate Shrinks(s: Snapshot, less: Snapshot) {
    && (forall rid :: rid in less.live ==> rid in s.live && less.live[rid] == s.live[rid])
    && (forall oid :: oid in less.pending ==> oid in s.pending)
  }

  lemma ShrinkKeep(s: Snapshot, less: Snapshot)
    requires Shrinks(s, less)
    ensures Keep(less) <= Keep(s)
  {
  }

  lemma ShrinkKeeps(sys: System, s: Snapshot, after: System)
    requires SystemInv(sys) && HostChange(sys, s, after) && Shrinks(sys.host.snap, s)
    requires s.visible.Some? ==> "" !in s.visible.value
    requires sys.host.snap.closed ==> s.closed
    ensures SystemInv(after)
  {
    assert Clean(sys.host.snap) && AllBacked(sys.net, sys.host.snap);
    ShrinkKeep(sys.host.snap, s);
    assert Clean(s) && AllBacked(sys.net, s) by { hide Backed, Keep; }
    assert OpsFrom(sys.hist, s) by { hide Keep, Announced, OpsOnce; }
    hide *;
    HostChangeKeeps(sys, s, after);
  }

  lemma BeginKeeps(sys: System, oid: string, after: System)
    requires SystemInv(sys) && HostChange(sys, Begun(sys.host.snap, oid), after)
    requires oid != "" && !Announced(sys.hist, |sys.hist|, oid)
    ensures SystemInv(after)
  {
    var s := Begun(sys.host.snap, oid);
    assert Clean(sys.host.snap) && AllBacked(sys.net, sys.host.snap);
    assert Clean(s) && AllBacked(sys.net, s) by { hide Backed, Keep; }
    assert OpsFrom(sys.hist, s) by {
      hide Announced, OpsOnce, LiveOps;
      assert Keep(s) == Keep(sys.host.snap) + {oid};
    }
    assert sys.host.snap.closed ==> s.closed;
    hide *;
    HostChangeKeeps(sys, s, after);
  }

  lemma CommitKeep(s: Snapshot, rid: string, item: Item)
    requires item.oid in s.pending
    ensures Keep(Committed(s, rid, item)) <= Keep(s)
  {
  }

  lemma CommitClean(net: set<Message>, s: Snapshot, rid: string, item: Item)
    requires Clean(s) && AllBacked(net, s)
    requires rid != "" && item.oid in s.pending && Backed(net, item)
    ensures Clean(Committed(s, rid, item)) && AllBacked(net, Committed(s, rid, item))
  {
  }

  lemma CommitKeeps(sys: System, rid: string, item: Item, staged: Manifest, after: System)
    requires SystemInv(sys) && HostChange(sys, Committed(sys.host.snap, rid, item), after)
    requires rid != "" && Receipt(item.oid, staged) in sys.net && ValidProof(staged, item.manifest)
    requires CommitAnswer(sys.host.snap, rid, item) == Done
    ensures SystemInv(after)
  {
    hide ValidProof;
    var s := Committed(sys.host.snap, rid, item);
    assert Clean(sys.host.snap) && AllBacked(sys.net, sys.host.snap);
    assert Backed(sys.net, item);
    assert item.oid in sys.host.snap.pending;
    CommitClean(sys.net, sys.host.snap, rid, item);
    CommitKeep(sys.host.snap, rid, item);
    assert OpsFrom(sys.hist, s) by { hide Keep, Announced, OpsOnce; }
    assert sys.host.snap.closed ==> s.closed;
    hide *;
    HostChangeKeeps(sys, s, after);
  }

  lemma HostStepKeeps(sys: System, a: Action, after: System)
    requires a.Begin? || a.Commit? || a.Discard? || a.Retire? || a.Close? || a.SetVisible?
    requires SystemInv(sys) && HostStep(sys, a, after)
    ensures SystemInv(after)
  {
    if a.Begin? {
      BeginKeeps(sys, a.oid, after);
    } else if a.Commit? {
      CommitKeeps(sys, a.rid, a.item, a.staged, after);
    } else {
      var s := sys.host.snap;
      assert Clean(s);
      var less := match a
        case Discard(oid) => Discarded(s, oid)
        case Retire(rids) => Retired(s, rids)
        case Close => Closed(s)
        case SetVisible(v) => s.(visible := v)
        case _ => s;
      hide HostChange, SystemInv, Clean;
      ShrinkKeeps(sys, less, after);
    }
  }

  // ----- network steps keep it

  lemma SendKeeps(sys: System, after: System, m: Message)
    requires SystemInv(sys) && after == sys.(net := sys.net + {m})
    requires MessageInv(sys, m)
    ensures SystemInv(after)
  {
    BackedLater(sys, after);
    hide OpsOnce, Clean, AllBacked, WorkerInv, Announced;
    forall x | x in after.net
      ensures MessageInv(after, x)
    {
      assert MessageInv(sys, x);
    }
  }

  lemma BackedLater(sys: System, after: System)
    requires HistoryInv(sys) && after.hist == sys.hist && sys.net <= after.net
    ensures forall i :: 0 <= i < |sys.hist| ==> AllBacked(after.net, sys.hist[i])
  {
  }

  /** An operation gone by the worker's revision is in no snapshot from there on. */
  lemma GoneStaysGone(hist: seq<Snapshot>, n: int, k: int, oid: string)
    requires OpsOnce(hist) && OpGone(hist, n, oid) && n <= k < |hist|
    ensures oid !in Keep(hist[k])
  {
  }

  /** A host snapshot newer than the worker never names a dropped or an unknown operation. */
  lemma HonestItem(sys: System, revision: int, rid: string)
    requires SystemInv(sys) && sys.worker.revision <= revision < |sys.hist| && 0 <= revision
    requires rid in sys.hist[revision].live
    ensures var w, item := sys.worker, sys.hist[revision].live[rid];
      && rid != "" && item.oid != "" && item.oid !in w.retiredOps && item.oid in w.staged
      && ValidProof(w.staged[item.oid], item.manifest)
  {
    var w, item := sys.worker, sys.hist[revision].live[rid];
    assert Clean(sys.hist[revision]) && AllBacked(sys.net, sys.hist[revision]);
    assert item.oid in LiveOps(sys.hist[revision].live);
    hide ValidProof, OpsOnce, Announced;
    if item.oid in w.retiredOps {
      GoneStaysGone(sys.hist, w.revision, revision, item.oid);
      assert false;
    }
    assert Backed(sys.net, item);
    var m :| Receipt(item.oid, m) in sys.net && ValidProof(m, item.manifest);
    assert MessageInv(sys, Receipt(item.oid, m));
  }

  lemma HonestKeep(sys: System, revision: int)
    requires SystemInv(sys) && sys.worker.revision <= revision < |sys.hist| && 0 <= revision
    ensures Keep(sys.hist[revision]) * sys.worker.retiredOps == {}
  {
  }

  /** The result ids of a snapshot the worker would refuse: reused after retirement, or rebound. */
  predicate ReusedResult(w: FileRegistry.Scope, s: Snapshot, rid: string) {
    rid in s.live && (rid in w.retiredResults || (rid in w.live && w.live[rid] != s.live[rid]))
  }

  lemma HonestCheck(sys: System, revision: int, rid: string)
    requires SystemInv(sys) && sys.worker.revision <= revision < |sys.hist| && 0 <= revision
    requires rid in sys.hist[revision].live
    ensures var v := CheckItem(sys.worker, rid, sys.hist[revision].live[rid]);
      && (v == Accepted <==> !ReusedResult(sys.worker, sys.hist[revision], rid))
      && (v == Accepted || v == Resurrected || v == Immutable)
  {
    HonestItem(sys, revision, rid);
    hide SystemInv, ValidProof;
  }

  /** The exact answer to every synchronization the host ever sent, whenever it arrives. */
  lemma HonestSync(sys: System, revision: int, s: Snapshot, after: FileRegistry.Scope, verdict: Verdict)
    requires SystemInv(sys) && SyncMsg(revision, s) in sys.net
    requires SyncStep(sys.worker, revision, s, after, verdict)
    ensures verdict == Stale <==> revision < sys.worker.revision
    ensures verdict == ScopeClosed <==>
      revision > sys.worker.revision && (sys.worker.closed || (s.closed && (s.live != map[] || s.pending != [])))
    ensures verdict == ScopeClosed ==> s.closed
    ensures verdict == Resurrected || verdict == Immutable <==>
      revision > sys.worker.revision && verdict != ScopeClosed && exists rid :: ReusedResult(sys.worker, s, rid)
    ensures verdict in {Accepted, Stale, ScopeClosed, Resurrected, Immutable}
    ensures verdict == Accepted && revision != sys.worker.revision ==>
      revision > sys.worker.revision && after == Synced(sys.worker, revision, s)
    ensures revision == sys.worker.revision ==> verdict == Accepted && after == sys.worker
  {
    var w := sys.worker;
    HonestFacts(sys, revision, s);
    hide *;
    if revision > w.revision {
      forall rid | rid in s.live
        ensures CheckItem(w, rid, s.live[rid]) == Accepted <==> !ReusedResult(w, s, rid)
        ensures CheckItem(w, rid, s.live[rid]) in {Accepted, Resurrected, Immutable}
      {
        HonestCheck(sys, revision, rid);
      }
      HonestKeep(sys, revision);
    }
    HonestAnswer(w, revision, s, after, verdict);
  }

  /** The answer to a well-typed snapshot whose items can only be refused for their result ids. */
  lemma HonestAnswer(w: FileRegistry.Scope, revision: int, s: Snapshot, after: FileRegistry.Scope, verdict: Verdict)
    requires SyncStep(w, revision, s, after, verdict) && WellTyped(revision, s)
    requires revision == w.revision ==> w.fingerprint == Some(s)
    requires revision > w.revision && w.closed ==> s.closed
    requires revision > w.revision ==> Keep(s) * w.retiredOps == {}
    requires revision > w.revision ==> forall rid :: rid in s.live ==>
      && (CheckItem(w, rid, s.live[rid]) == Accepted <==> !ReusedResult(w, s, rid))
      && CheckItem(w, rid, s.live[rid]) in {Accepted, Resurrected, Immutable}
    ensures verdict == Stale <==> revision < w.revision
    ensures verdict == ScopeClosed <==>
      revision > w.revision && (w.closed || (s.closed && (s.live != map[] || s.pending != [])))
    ensures verdict == ScopeClosed ==> s.closed
    ensures verdict == Resurrected || verdict == Immutable <==>
      revision > w.revision && verdict != ScopeClosed && exists rid :: ReusedResult(w, s, rid)
    ensures verdict in {Accepted, Stale, ScopeClosed, Resurrected, Immutable}
    ensures verdict == Accepted && revision != w.revision ==> revision > w.revision && after == Synced(w, revision, s)
    ensures revision == w.revision ==> verdict == Accepted && after == w
  {
    NoneReused(w, s);
    hide CheckItem, ReusedResult, Synced, Keep, WellTyped;
  }

  lemma NoneReused(w: FileRegistry.Scope, s: Snapshot)
    ensures forall rid :: ReusedResult(w, s, rid) ==> rid in s.live
  {
  }

  /** A sent snapshot is the host's own at its revision, well typed, and still open if the worker is. */
  lemma HonestFacts(sys: System, revision: int, s: Snapshot)
    requires SystemInv(sys) && SyncMsg(revision, s) in sys.net
    ensures 0 <= revision < |sys.hist| && s == sys.hist[revision] && WellTyped(revision, s)
    ensures revision > sys.worker.revision && sys.worker.closed ==> s.closed
    ensures revision == sys.worker.revision ==> sys.worker.fingerprint == Some(s)
  {
    assert MessageInv(sys, SyncMsg(revision, s));
    assert Clean(s);
    hide OpsOnce, Announced, OpGone, ResultGone, AllBacked;
  }

  // ----- the worker's steps

  lemma SyncedWorker(hist: seq<Snapshot>, w: FileRegistry.Scope, revision: int)
    requires WorkerInv(hist, w) && w.revision < revision < |hist|
    ensures WorkerInv(hist, Synced(w, revision, hist[revision]))
  {
  }

  lemma ReceiptLater(sys: System, after: System, m: Message)
    requires MessageInv(sys, m) && after.hist == sys.hist
    requires after.worker == sys.worker || exists revision, s ::
      revision > sys.worker.revision && after.worker == Synced(sys.worker, revision, s)
    ensures MessageInv(after, m)
  {
  }

  lemma DeliverSyncKeeps(sys: System, revision: int, s: Snapshot, verdict: Verdict, after: System)
    requires SystemInv(sys) && NetStep(sys, DeliverSync(revision, s, verdict), after)
    ensures SystemInv(after)
  {
    HonestSync(sys, revision, s, after.worker, verdict);
    assert MessageInv(sys, SyncMsg(revision, s));
    BackedLater(sys, after);
    if after.worker != sys.worker {
      SyncedWorker(sys.hist, sys.worker, revision);
    }
    assert HistoryInv(after) by { hide OpsOnce, Clean, AllBacked; }
    hide HistoryInv, WorkerInv, Announced, Keep, ReusedResult, SyncStep;
    forall m | m in after.net
      ensures MessageInv(after, m)
    {
      if m in sys.net {
        assert MessageInv(sys, m);
        ReceiptLater(sys, after, m);
      }
    }
  }

  lemma ExecutedWorker(hist: seq<Snapshot>, w: FileRegistry.Scope, oid: string, delivery: Option<Manifest>)
    requires WorkerInv(hist, w) && w.revision >= 0 && Announced(hist, w.revision, oid)
    ensures WorkerInv(hist, Executed(w, oid, delivery))
  {
    hide Announced, OpGone, ResultGone, Agrees;
    assert Agrees(Executed(w, oid, delivery), hist[w.revision]) by {
      SameContext(w, oid, delivery, hist[w.revision]);
    }
  }

  lemma SameContext(w: FileRegistry.Scope, oid: string, delivery: Option<Manifest>, s: Snapshot)
    requires Agrees(w, s)
    ensures Agrees(Executed(w, oid, delivery), s)
  {
  }

  /** Staging a new operation disturbs no message; its receipt is the first. */
  lemma ExecutedMessages(sys: System, revision: int, oid: string, delivery: Option<Manifest>, after: System, m: Message)
    requires Executable(sys.worker, revision, oid) && after.worker == Executed(sys.worker, oid, delivery)
    requires after.hist == sys.hist && (m in sys.net ==> MessageInv(sys, m))
    requires m in sys.net || (delivery.Some? && m == Receipt(oid, delivery.value))
    ensures MessageInv(after, m)
  {
    hide Announced;
  }

  lemma DeliverExecKeeps(sys: System, revision: int, oid: string, delivery: Option<Manifest>, ran: bool, after: System)
    requires SystemInv(sys) && NetStep(sys, DeliverExec(revision, oid, delivery, ran), after)
    ensures SystemInv(after)
  {
    BackedLater(sys, after);
    assert HistoryInv(after) by { hide OpsOnce, Clean, AllBacked; }
    hide HistoryInv, WorkerInv, Announced, Executed, Executable, MessageInv;
    if ran {
      assert sys.worker.revision == revision >= 0 by { IsCurrent(sys.worker, revision, oid); }
      assert Announced(sys.hist, revision, oid) by {
        assert MessageInv(sys, ExecMsg(revision, oid));
        SentAnnounced(sys, revision, oid);
      }
      ExecutedWorker(sys.hist, sys.worker, oid, delivery);
      SameRevision(sys.worker, oid, delivery);
      forall m | m in after.net
        ensures MessageInv(after, m)
      {
        ExecutedMessages(sys, revision, oid, delivery, after, m);
      }
    } else {
      assert after == sys;
    }
  }

  lemma IsCurrent(w: FileRegistry.Scope, revision: int, oid: string)
    requires Executable(w, revision, oid)
    ensures w.revision == revision >= 0
  {
  }

  lemma SentAnnounced(sys: System, revision: int, oid: string)
    requires MessageInv(sys, ExecMsg(revision, oid))
    ensures Announced(sys.hist, revision, oid)
  {
  }

  lemma SameRevision(w: FileRegistry.Scope, oid: string, delivery: Option<Manifest>)
    ensures Executed(w, oid, delivery).revision == w.revision
  {
  }

  lemma NextKeeps(sys: System, a: Action, after: System)
    requires SystemInv(sys) && Next(sys, a, after)
    ensures SystemInv(after)
  {
    if a.Begin? || a.Commit? || a.Discard? || a.Retire? || a.Close? || a.SetVisible? {
      hide HostStep, SystemInv;
      HostStepKeeps(sys, a, after);
    } else {
      match a
      case SendSync => SendKeeps(sys, after, SyncMsg(sys.host.revision, sys.host.snap));
      case SendExec(oid) =>
        assert Announced(sys.hist, sys.host.revision, oid);
        SendKeeps(sys, after, ExecMsg(sys.host.revision, oid));
      case Confirm(revision) =>
        assert MessageInv(sys, Ack(revision));
        ConfirmKeeps(sys, revision, after);
      case DeliverSync(revision, s, verdict) => DeliverSyncKeeps(sys, revision, s, verdict, after);
      case DeliverExec(revision, oid, delivery, ran) => DeliverExecKeeps(sys, revision, oid, delivery, ran, after);
    }
  }

  lemma ConfirmKeeps(sys: System, revision: int, after: System)
    requires SystemInv(sys) && revision <= sys.worker.revision
    requires after == sys.(host := sys.host.(acked := revision))
    ensures SystemInv(after)
  {
    assert HistoryInv(after) by { hide OpsOnce, Clean, AllBacked; }
    hide HistoryInv, WorkerInv, Announced, Keep;
    forall m | m in after.net
      ensures MessageInv(after, m)
    {
      assert MessageInv(sys, m);
    }
  }

  // ----- every run

  ghost predicate Reaches(states: seq<System>, actions: seq<Action>) {
    && states != [] && states[0] == START && |actions| == |states| - 1
    && forall i :: 0 <= i < |actions| ==> Next(states[i], actions[i], states[i + 1])
  }

  lemma StartInv()
    ensures SystemInv(START)
  {
  }

  lemma {:induction false} ReachableInv(states: seq<System>, actions: seq<Action>, i: nat)
    requires Reaches(states, actions) && i < |states|
    ensures SystemInv(states[i])
    decreases i
  {
    StartInv();
    if i > 0 {
      ReachableInv(states, actions, i - 1);
      hide Next, SystemInv;
      assert Next(states[i - 1], actions[i - 1], states[i]);
      NextKeeps(states[i - 1], actions[i - 1], states[i]);
    }
  }

  /** The worker is never ahead, and its context is exactly the host's at the worker's revision. */
  lemma WorkerMirrorsHost(states: seq<System>, actions: seq<Action>, i: nat)
    requires Reaches(states, actions) && i < |states|
    ensures var sys := states[i];
      && sys.worker.revision <= sys.host.revision == |sys.hist| - 1
      && (sys.worker.revision >= 0 ==> Agrees(sys.worker, sys.hist[sys.worker.revision]))
      && (sys.worker.revision < 0 ==> sys.worker == NEW_SCOPE)
  {
    ReachableInv(states, actions, i);
  }

  /** The live results that a snapshot lists as visible. */
  function ListedResults(s: Snapshot): map<string, Item> {
    map rid | rid in s.live && (s.visible.None? || rid in s.visible.value) :: s.live[rid]
  }

  /** In every reachable state the worker lets a line be edited exactly when the results that the host's context
      at the worker's revision lists as visible cover it. */
  lemma CoveredByListed(states: seq<System>, actions: seq<Action>, i: nat, fileKey: string, digest: string, line: int)
    requires Reaches(states, actions) && i < |states| && 0 <= states[i].worker.revision
    ensures states[i].worker.revision < |states[i].hist|
    ensures GrantCovers(LeasesOf(states[i].worker.live), states[i].worker.visible, fileKey, digest, line) <==>
      GrantCovers(LeasesOf(ListedResults(states[i].hist[states[i].worker.revision])), None, fileKey, digest, line)
  {
    WorkerMirrorsHost(states, actions, i);
    var w := states[i].worker;
    ListedIsShown(w, states[i].hist[w.revision]);
    hide *;
    OnlyVisibleCount(LeasesOf(w.live), w.visible, fileKey, digest, line);
  }

  lemma ListedIsShown(w: FileRegistry.Scope, s: Snapshot)
    requires Agrees(w, s)
    ensures Shown(LeasesOf(w.live), w.visible) == LeasesOf(ListedResults(s))
  {
    hide Apply, Visible;
  }

  /** Once the host's last revision is confirmed, both sides hold the same context. */
  lemma ConfirmedMeansEqual(states: seq<System>, actions: seq<Action>, i: nat)
    requires Reaches(states, actions) && i < |states|
    requires states[i].host.acked == states[i].host.revision
    ensures states[i].worker.revision == states[i].host.revision
    ensures Agrees(states[i].worker, states[i].host.snap)
  {
    ReachableInv(states, actions, i);
  }

  /** An operation runs only under the very context its sender had when it sent it. */
  lemma ExecutedInSentContext(states: seq<System>, actions: seq<Action>, i: nat,
                              revision: int, oid: string, delivery: Option<Manifest>)
    requires Reaches(states, actions) && i < |actions|
    requires actions[i] == DeliverExec(revision, oid, delivery, true)
    ensures 0 <= revision < |states[i].hist| && Agrees(states[i].worker, states[i].hist[revision])
    ensures !states[i].hist[revision].closed
    ensures Announced(states[i].hist, revision, oid)
  {
    ReachableInv(states, actions, i);
    assert Next(states[i], actions[i], states[i + 1]);
    assert MessageInv(states[i], ExecMsg(revision, oid));
  }

  // ----- receipts

  ghost predicate OneReceipt(net: set<Message>) {
    forall oid, m, n :: Receipt(oid, m) in net && Receipt(oid, n) in net ==> m == n
  }

  lemma OneReceiptStep(sys: System, a: Action, after: System)
    requires SystemInv(sys) && Next(sys, a, after) && OneReceipt(sys.net)
    ensures OneReceipt(after.net)
  {
    hide HistoryInv, WorkerInv, SyncStep;
    if a.DeliverExec? && a.ran && a.delivery.Some? {
      assert forall m :: Receipt(a.oid, m) in sys.net ==> MessageInv(sys, Receipt(a.oid, m));
    }
  }

  /** However often its messages arrive, an operation has at most one receipt. */
  lemma {:induction false} ReceiptOnce(states: seq<System>, actions: seq<Action>, i: nat)
    requires Reaches(states, actions) && i < |states|
    ensures OneReceipt(states[i].net)
    decreases i
  {
    if i > 0 {
      hide Next, SystemInv, OneReceipt;
      ReceiptOnce(states, actions, i - 1);
      ReachableInv(states, actions, i - 1);
      assert Next(states[i - 1], actions[i - 1], states[i]);
      hide Reaches;
      OneReceiptStep(states[i - 1], actions[i - 1], states[i]);
    }
  }

  lemma NetStepKeeps(sys: System, a: Action, after: System, m: Message)
    requires Next(sys, a, after) && m in sys.net
    ensures m in after.net
  {
    hide SyncStep, ExecuteStep;
  }

  lemma {:induction false} NetKeeps(states: seq<System>, actions: seq<Action>, i: nat, j: nat, m: Message)
    requires Reaches(states, actions) && i <= j < |states| && m in states[i].net
    ensures m in states[j].net
    decreases j
  {
    hide *;
    if i < j {
      NetKeeps(states, actions, i, j - 1, m);
      StepOfRun(states, actions, j - 1);
      NetStepKeeps(states[j - 1], actions[j - 1], states[j], m);
    }
  }

  lemma StepOfRun(states: seq<System>, actions: seq<Action>, i: nat)
    requires Reaches(states, actions) && i + 1 < |states|
    ensures i < |actions| && Next(states[i], actions[i], states[i + 1])
  {
    hide Next;
  }

  /** An operation that staged a delivery is never run again. */
  lemma RunsOnceWithDelivery(states: seq<System>, actions: seq<Action>, i: nat, j: nat, oid: string)
    requires Reaches(states, actions) && i < j < |actions|
    requires actions[i].DeliverExec? && actions[i].oid == oid && actions[i].ran && actions[i].delivery.Some?
    requires actions[j].DeliverExec? && actions[j].oid == oid
    ensures !actions[j].ran
  {
    assert Next(states[i], actions[i], states[i + 1]) && Next(states[j], actions[j], states[j + 1]);
    NetKeeps(states, actions, i + 1, j, Receipt(oid, actions[i].delivery.value));
    ReachableInv(states, actions, j);
    assert MessageInv(states[j], Receipt(oid, actions[i].delivery.value));
    hide OneReceipt, HistoryInv, WorkerInv;
  }

  /** With result ids used once, a host's synchronization is refused only as stale or closed. */
  lemma NeverConflicting(states: seq<System>, actions: seq<Action>, i: nat, revision: int, s: Snapshot, verdict: Verdict)
    requires Reaches(states, actions) && i < |actions| && actions[i] == DeliverSync(revision, s, verdict)
    requires ResultsOnce(states[i].hist)
    ensures verdict in {Accepted, Stale, ScopeClosed}
    ensures verdict == Stale ==> revision < states[i].worker.revision
    ensures 0 <= revision < |states[i].hist| && s == states[i].hist[revision]
    ensures verdict == ScopeClosed ==> s.closed
    ensures verdict == Accepted ==> states[i + 1].worker.revision == revision && Agrees(states[i + 1].worker, s)
  {
    var sys := states[i];
    ReachableInv(states, actions, i);
    ReachableInv(states, actions, i + 1);
    assert Next(sys, actions[i], states[i + 1]);
    assert MessageInv(sys, SyncMsg(revision, s));
    HonestSync(sys, revision, s, states[i + 1].worker, verdict);
    if revision > sys.worker.revision {
      forall rid | ReusedResult(sys.worker, s, rid)
        ensures false
      {
        UsedOnceIsAccepted(sys, revision, rid);
      }
    }
  }

  lemma UsedOnceIsAccepted(sys: System, revision: int, rid: string)
    requires SystemInv(sys) && ResultsOnce(sys.hist) && sys.worker.revision < revision < |sys.hist|
    ensures !ReusedResult(sys.worker, sys.hist[revision], rid)
  {
  }

  /** Each result of the new snapshot was in the last one, or is the one being committed. */
  lemma HostStepLive(sys: System, a: Action, after: System, rid: string)
    requires a.Begin? || a.Commit? || a.Discard? || a.Retire? || a.Close? || a.SetVisible?
    requires HostStep(sys, a, after) && rid in after.host.snap.live
    ensures after.hist == sys.hist + [after.host.snap]
    ensures (a.Commit? && rid == a.rid)
      || (rid in sys.host.snap.live && sys.host.snap.live[rid] == after.host.snap.live[rid])
  {
  }

  ghost predicate NeverLive(hist: seq<Snapshot>, rid: string) {
    forall i :: 0 <= i < |hist| ==> rid !in hist[i].live
  }

  lemma ResultsOnceStep(hist: seq<Snapshot>, s: Snapshot)
    requires ResultsOnce(hist) && hist != []
    requires forall rid :: rid in s.live ==>
      NeverLive(hist, rid) || (rid in hist[|hist| - 1].live && hist[|hist| - 1].live[rid] == s.live[rid])
    ensures ResultsOnce(hist + [s])
  {
    var more := hist + [s];
    forall i, j, k, rid | 0 <= i <= j <= k < |more| && rid in more[i].live && rid in more[k].live
      ensures rid in more[j].live && more[j].live[rid] == more[i].live[rid]
    {
      hide ResultsOnce, NeverLive;
      if k < |hist| {
        UsedOnce(hist, i, j, k, rid);
      } else if i < k {
        StillUsed(hist, s, i, rid);
        if j < k {
          UsedOnce(hist, i, j, |hist| - 1, rid);
        }
      }
    }
  }

  /** A result that was live and is again never left. */
  lemma StillUsed(hist: seq<Snapshot>, s: Snapshot, i: nat, rid: string)
    requires ResultsOnce(hist) && i < |hist| && rid in hist[i].live && rid in s.live
    requires NeverLive(hist, rid) || (rid in hist[|hist| - 1].live && hist[|hist| - 1].live[rid] == s.live[rid])
    ensures rid in hist[|hist| - 1].live && s.live[rid] == hist[i].live[rid]
  {
    hide ResultsOnce;
    UsedOnce(hist, i, |hist| - 1, |hist| - 1, rid);
  }

  lemma UsedOnce(hist: seq<Snapshot>, i: nat, j: nat, k: nat, rid: string)
    requires ResultsOnce(hist) && i <= j <= k < |hist| && rid in hist[i].live && rid in hist[k].live
    ensures rid in hist[j].live && hist[j].live[rid] == hist[i].live[rid]
  {
  }

  /** Result ids stay used once exactly as long as every commit takes an id that was never live. */
  lemma FreshCommitsExactly(sys: System, a: Action, after: System)
    requires SystemInv(sys) && Next(sys, a, after) && ResultsOnce(sys.hist)
    ensures ResultsOnce(after.hist) <==> (a.Commit? ==> NeverLive(sys.hist, a.rid))
  {
    if a.Begin? || a.Commit? || a.Discard? || a.Retire? || a.Close? || a.SetVisible? {
      var s := after.host.snap;
      assert after.hist == sys.hist + [s];
      assert sys.hist != [] && sys.hist[|sys.hist| - 1] == sys.host.snap;
      hide ResultsOnce, SystemInv, NeverLive;
      if a.Commit? && !NeverLive(sys.hist, a.rid) {
        CommitAgain(sys, a, after);
      } else {
        forall rid | rid in s.live
          ensures NeverLive(sys.hist, rid)
            || (rid in sys.host.snap.live && sys.host.snap.live[rid] == s.live[rid])
        {
          HostStepLive(sys, a, after, rid);
        }
        hide HostStep;
        ResultsOnceStep(sys.hist, s);
      }
    } else {
      hide ResultsOnce, SystemInv, SyncStep, ExecuteStep;
    }
  }

  lemma CommitAgain(sys: System, a: Action, after: System)
    requires a.Commit? && HostStep(sys, a, after) && !NeverLive(sys.hist, a.rid)
    requires sys.hist != [] && sys.hist[|sys.hist| - 1] == sys.host.snap
    ensures !ResultsOnce(after.hist)
  {
    hide ValidProof, Without;
    var i :| 0 <= i < |sys.hist| && a.rid in sys.hist[i].live;
    var j, k := |sys.hist| - 1, |sys.hist|;
    assert after.hist[i] == sys.hist[i] && after.hist[j] == sys.hist[j];
    assert a.rid in after.hist[k].live && a.rid !in after.hist[j].live;
  }

  // ----- reachable states

  ghost predicate Reachable(sys: System) {
    exists states, actions :: Reaches(states, actions) && states[|states| - 1] == sys
  }

  lemma ReachableStart()
    ensures Reachable(START)
  {
    assert Reaches([START], []);
  }

  lemma ReachableNext(sys: System, a: Action, after: System)
    requires Reachable(sys) && Next(sys, a, after)
    ensures Reachable(after)
  {
    hide Next;
    var states, actions :| Reaches(states, actions) && states[|states| - 1] == sys;
    var more, acts := states + [after], actions + [a];
    forall i | 0 <= i < |acts|
      ensures Next(more[i], acts[i], more[i + 1])
    {
      if i < |actions| {
        assert Next(states[i], actions[i], states[i + 1]);
      }
    }
    assert Reaches(more, acts);
  }

  lemma ReachableIsInv(sys: System)
    requires Reachable(sys)
    ensures SystemInv(sys)
  {
    hide SystemInv;
    var states, actions :| Reaches(states, actions) && states[|states| - 1] == sys;
    ReachableInv(states, actions, |states| - 1);
  }

  lemma ConfirmedIsEqual(sys: System)
    requires Reachable(sys) && sys.host.acked == sys.host.revision
    ensures Agrees(sys.worker, sys.host.snap)
  {
    ReachableIsInv(sys);
  }

  function SentSync(sys: System): System {
    sys.(net := sys.net + {SyncMsg(sys.host.revision, sys.host.snap)})
  }

  /** Both sides after one uninterrupted synchronization. */
  function Caught(sys: System): System {
    var sent := SentSync(sys);
    sent.(worker := Synced(sys.worker, sys.host.revision, sys.host.snap),
          net := sent.net + {Ack(sys.host.revision)},
          host := sys.host.(acked := sys.host.revision))
  }

  /** Whatever was lost before, one delivered synchronization and its answer bring an open scope up to date. */
  lemma CatchUp(sys: System)
    requires Reachable(sys) && !sys.host.snap.closed && sys.worker.revision < sys.host.revision
    requires forall rid :: !ReusedResult(sys.worker, sys.host.snap, rid)
    ensures Reachable(Caught(sys))
    ensures Caught(sys).host.acked == sys.host.revision && Agrees(Caught(sys).worker, sys.host.snap)
  {
    var sent := SentSync(sys);
    ReachableNext(sys, SendSync, sent);
    ReachableIsInv(sent);
    var revision, s := sys.host.revision, sys.host.snap;
    var w := Synced(sys.worker, revision, s);
    assert SyncStep(sys.worker, revision, s, w, Accepted) by {
      SyncedIsStep(sent, revision, s);
    }
    var told := sent.(worker := w, net := sent.net + {Ack(revision)});
    hide Synced, SyncStep, SystemInv, Reachable;
    ReachableNext(sent, DeliverSync(revision, s, Accepted), told);
    ReachableNext(told, Confirm(revision), Caught(sys));
  }

  lemma SyncedIsStep(sys: System, revision: int, s: Snapshot)
    requires SystemInv(sys) && SyncMsg(revision, s) in sys.net
    requires !s.closed && sys.worker.revision < revision
    requires forall rid :: !ReusedResult(sys.worker, s, rid)
    ensures SyncStep(sys.worker, revision, s, Synced(sys.worker, revision, s), Accepted)
  {
    assert MessageInv(sys, SyncMsg(revision, s));
    assert Clean(s);
    assert !sys.worker.closed;
    forall rid | rid in s.live
      ensures CheckItem(sys.worker, rid, s.live[rid]) == Accepted
    {
      HonestCheck(sys, revision, rid);
    }
    HonestKeep(sys, revision);
    hide CheckItem, Synced, SystemInv, ReusedResult;
  }

  function SentExec(sys: System, oid: string): System {
    sys.(net := sys.net + {ExecMsg(sys.host.revision, oid)})
  }

  function Ran(sys: System, oid: string, m: Manifest): System {
    var sent := SentExec(sys, oid);
    sent.(worker := Executed(sys.worker, oid, Some(m)), net := sent.net + {Receipt(oid, m)})
  }

  lemma RunNow(sys: System, oid: string, m: Manifest)
    requires Reachable(sys) && sys.host.acked == sys.host.revision && !sys.host.snap.closed
    requires Announced(sys.hist, |sys.hist|, oid) && oid !in sys.worker.staged && oid !in sys.worker.retiredOps
    ensures Reachable(Ran(sys, oid, m))
  {
    ReachableIsInv(sys);
    var sent := SentExec(sys, oid);
    assert Executable(sys.worker, sys.host.revision, oid);
    hide SystemInv, Reachable, Announced;
    ReachableNext(sys, SendExec(oid), sent);
    var after := Ran(sys, oid, m);
    var a := DeliverExec(sys.host.revision, oid, Some(m), true);
    assert ExecuteStep(sent.worker, a.revision, a.oid, a.delivery, after.worker, true);
    assert NetStep(sent, a, after) by { hide ExecuteStep, Executed, Executable; }
    hide NetStep;
    ReachableNext(sent, a, after);
  }

  // ----- a result id committed twice

  const READ := Manifest("file", "version", 0, [], false, false, "read", "", [], [])

  function Change(sys: System, s: Snapshot): System {
    sys.(host := Changed(sys.host, s), hist := sys.hist + [s])
  }

  /** Announce one more operation, synchronize and run it. */
  function RanNext(sys: System, oid: string): System {
    Ran(Caught(Change(sys, Begun(sys.host.snap, oid))), oid, READ)
  }

  lemma RunOne(sys: System, oid: string)
    requires Reachable(sys) && !sys.host.snap.closed && sys.host.snap.live == map[]
    requires oid != "" && !Announced(sys.hist, |sys.hist|, oid)
    requires oid !in sys.worker.staged && oid !in sys.worker.retiredOps
    ensures Reachable(RanNext(sys, oid))
  {
    ReachableIsInv(sys);
    assert |sys.hist| == sys.host.revision + 1 && sys.worker.revision <= sys.host.revision;
    hide SystemInv, Reachable;
    var s := Begun(sys.host.snap, oid);
    var x := Change(sys, s);
    assert HostStep(sys, Begin(oid), x);
    ReachableNext(sys, Begin(oid), x);
    hide HostStep;
    CatchUp(x);
    assert Caught(x).hist[|sys.hist|] == s && oid in Keep(s);
    assert Announced(Caught(x).hist, |Caught(x).hist|, oid);
    hide Announced, Agrees, Keep;
    RunNow(Caught(x), oid, READ);
  }

  lemma RanNextFields(sys: System, oid: string)
    ensures var after := RanNext(sys, oid);
      && after.host.snap == Begun(sys.host.snap, oid) && after.hist == sys.hist + [after.host.snap]
      && after.host.revision == after.worker.revision == sys.host.revision + 1
      && after.worker.live == sys.host.snap.live
      && after.worker.retiredResults == sys.worker.retiredResults + (sys.worker.live.Keys - sys.host.snap.live.Keys)
      && after.worker.retiredOps == sys.worker.retiredOps + (sys.worker.staged.Keys - Keep(after.host.snap))
      && (forall o :: o in after.worker.staged ==> o == oid || o in sys.worker.staged)
      && sys.net <= after.net && Receipt(oid, READ) in after.net
  {
  }

  /** One operation ran and waits to be committed. */
  lemma OneWaiting() returns (x: System)
    ensures Reachable(x) && x.host.snap == Snapshot(map[], ["a"], false, None) && x.hist == [EMPTY_CONTEXT, x.host.snap]
    ensures x.worker.revision == x.host.revision == 1 && x.worker.live == map[]
    ensures x.worker.retiredResults == {} && x.worker.retiredOps == {} && x.worker.staged.Keys <= {"a"}
    ensures Receipt("a", READ) in x.net
  {
    ReachableStart();
    hide Reachable, RanNext;
    NotAnnounced(START.hist, "a");
    RunOne(START, "a");
    RanNextFields(START, "a");
    x := RanNext(START, "a");
    assert x.host.snap == Snapshot(map[], ["a"], false, None);
  }

  /** Two operations run and wait to be committed. */
  lemma TwoWaiting() returns (sys: System)
    ensures Reachable(sys) && sys.host.snap == Snapshot(map[], ["a", "b"], false, None) && |sys.hist| == 3
    ensures sys.worker.revision == sys.host.revision == 2 && sys.worker.live == map[]
    ensures sys.worker.retiredResults == {}
    ensures Receipt("a", READ) in sys.net && Receipt("b", READ) in sys.net
  {
    hide Reachable, RanNext;
    var x := OneWaiting();
    NotAnnounced(x.hist, "b");
    RunOne(x, "b");
    RanNextFields(x, "b");
    sys := RanNext(x, "b");
  }

  lemma NotAnnounced(hist: seq<Snapshot>, oid: string)
    requires forall i :: 0 <= i < |hist| ==> oid !in hist[i].pending && hist[i].live == map[]
    ensures !Announced(hist, |hist|, oid)
  {
  }

  /** The first was committed as `r` and retired, and the worker knows. */
  lemma CommittedAndRetired() returns (sys: System)
    ensures Reachable(sys) && sys.host.snap == Snapshot(map[], ["b"], false, None)
    ensures sys.worker.revision == sys.host.revision && "r" in sys.worker.retiredResults
    ensures sys.worker.live == map[] && !sys.worker.closed && Receipt("b", READ) in sys.net
  {
    var x0 := TwoWaiting();
    var first := Item("a", READ);
    var x1 := Change(x0, Committed(x0.host.snap, "r", first));
    ReachableNext(x0, Commit("r", first, READ), x1);
    CatchUp(x1);
    var x2 := Caught(x1);
    var x3 := Change(x2, Retired(x2.host.snap, {"r"}));
    ReachableNext(x2, Retire({"r"}), x3);
    CatchUp(x3);
    sys := Caught(x3);
  }

  /** A host that commits a retired result id again is refused, with every message delivered in order. */
  lemma ReusedResultRefused() returns (sys: System, s: Snapshot)
    ensures Reachable(sys) && SyncMsg(sys.host.revision, s) in sys.net && s == sys.host.snap && !s.closed
    ensures SyncStep(sys.worker, sys.host.revision, s, sys.worker, Resurrected)
  {
    var x4 := CommittedAndRetired();
    var again := Item("b", READ);
    var x5 := Change(x4, Committed(x4.host.snap, "r", again));
    ReachableNext(x4, Commit("r", again, READ), x5);
    sys, s := SentSync(x5), x5.host.snap;
    ReachableNext(x5, SendSync, sys);
    assert s.live.Keys == {"r"};
    assert CheckItem(sys.worker, "r", s.live["r"]) == Resurrected;
  }
}
