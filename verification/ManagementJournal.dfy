/** The root helper's journal and the worker's permission for one signed grant.

    Any number of helper processes for the grant run at once and may die at any point. The file
    system, the exclusive lock and the clock are shared, the clock may be set to any time, and
    replies of the worker may be lost. Records of other grants do not matter.
 */
module ManagementJournal {
  import opened Prelude

  /** Seconds a settled record is kept after its grant expired. */
  const RETENTION := 86400

  const GRANT_WINDOW := 610

  // ----- the worker's permission

  datatype ApprovalState = ApprovalRequired | Submitted | Expired

  /** The worker's record of one approved operation; `closed`: that worker is gone. */
  datatype Approval = Approval(state: ApprovalState, available: bool, consumed: bool, closed: bool)

  datatype CommitAnswer = Committed | Repeated | TooLate | BadSignature | Draining | NoCapacity

  function CommitReply(p: Approval, expires: int, now: int, signed: bool, draining: bool, room: bool): CommitAnswer {
    if p.state != ApprovalRequired then Repeated
    else if now > expires then TooLate
    else if !signed then BadSignature
    else if draining then Draining
    else if !room then NoCapacity
    else Committed
  }

  function AfterCommit(p: Approval, answer: CommitAnswer): Approval {
    match answer
    case Committed => p.(state := Submitted, available := true)
    case TooLate => p.(state := Expired)
    case _ => p
  }

  /** The worker hands the permission out. */
  predicate Grants(p: Approval, expires: int, now: int) {
    !p.closed && p.available && !p.consumed && now <= expires
  }

  function Spent(p: Approval): Approval {
    p.(available := false, consumed := true)
  }

  /** Open only between the signed commit and the first use. */
  predicate Sound(p: Approval) {
    && (p.state != Submitted ==> !p.available && !p.consumed)
    && !(p.available && p.consumed)
  }

  // ----- helpers, journal and worker together

  datatype Record = Pending | Complete | NotStarted

  /** How far a helper process got. */
  datatype Phase = Verified | Reserved | Asked(yes: bool) | Authorized | Running

  /** The worker's own program, or anything that answers on its socket. */
  datatype Worker = Ours | Untrusted

  /** `given`: how often the worker said yes. `started`: children created so far. */
  datatype World = World(
    now: int,
    approval: Approval,
    record: Option<Record>,
    helpers: map<nat, Phase>,
    given: nat,
    started: nat)

  /** `Ask` is the moment the worker answers; `claim` is the answer of an untrusted one. `Spend` is a
      permission used without a helper that hears of it: another caller, or a reply after the timeout. */
  datatype Action =
    | Tick(to: int)
    | Commit(signed: bool, draining: bool, room: bool)
    | Close
    | Spend
    | Verify(pid: nat)
    | Lock(pid: nat, full: bool)
    | Prune
    | Ask(pid: nat, claim: bool)
    | Hear(pid: nat)
    | GiveUp(pid: nat)
    | Start(pid: nat)
    | Finish(pid: nat)
    | Crash(pid: nat)

  function At(w: World, pid: nat): Option<Phase> {
    if pid in w.helpers then Some(w.helpers[pid]) else None
  }

  predicate Prunable(expires: int, w: World) {
    w.record in {Some(Complete), Some(NotStarted)} && expires < w.now - RETENTION
  }

  function Moved(w: World, pid: nat, to: Phase): World {
    w.(helpers := w.helpers[pid := to])
  }

  function Left(w: World, pid: nat): World {
    w.(helpers := w.helpers - {pid})
  }

  function Answered(expires: int, worker: Worker, w: World, pid: nat, claim: bool): World {
    var yes := if worker.Ours? then Grants(w.approval, expires, w.now) else claim;
    var heard := Moved(w, pid, Asked(yes));
    if !yes then heard
    else heard.(given := w.given + 1, approval := Spent(w.approval))
  }

  /** One atomic step; an action that is not possible now leaves the world as it is. */
  function Next(expires: int, worker: Worker, w: World, a: Action): World {
    match a
    case Tick(to) => w.(now := to)
    case Commit(signed, draining, room) =>
      w.(approval := AfterCommit(w.approval, CommitReply(w.approval, expires, w.now, signed, draining, room)))
    case Close => w.(approval := w.approval.(closed := true))
    case Spend =>
      if !Grants(w.approval, expires, w.now) then w
      else w.(given := w.given + 1, approval := Spent(w.approval))
    case Verify(pid) =>
      if pid in w.helpers || !(w.now < expires <= w.now + GRANT_WINDOW) then w
      else Moved(w, pid, Verified)
    case Lock(pid, full) =>
      if At(w, pid) != Some(Verified) then w
      else if w.record.Some? || full then Left(w, pid)
      else Moved(w, pid, Reserved).(record := Some(Pending))
    case Prune => if Prunable(expires, w) then w.(record := None) else w
    case Ask(pid, claim) => if At(w, pid) != Some(Reserved) then w else Answered(expires, worker, w, pid, claim)
    case Hear(pid) => if At(w, pid) != Some(Asked(true)) then w else Moved(w, pid, Authorized)
    case GiveUp(pid) =>
      if At(w, pid) !in {Some(Reserved), Some(Asked(true)), Some(Asked(false))} then w
      else Left(w, pid).(record := Some(NotStarted))
    case Start(pid) =>
      if At(w, pid) != Some(Authorized) then w
      else Moved(w, pid, Running).(started := w.started + 1)
    case Finish(pid) =>
      if At(w, pid) != Some(Running) then w
      else Left(w, pid).(record := Some(Complete))
    case Crash(pid) => Left(w, pid)
  }

  predicate Initial(w: World) {
    && w.approval == Approval(ApprovalRequired, false, false, false)
    && w.record.None? && w.helpers == map[] && w.given == w.started == 0
  }

  ghost predicate Run(expires: int, worker: Worker, worlds: seq<World>, actions: seq<Action>) {
    && worlds != [] && |actions| == |worlds| - 1
    && Initial(worlds[0])
    && forall i :: 0 <= i < |actions| ==> worlds[i + 1] == Next(expires, worker, worlds[i], actions[i])
  }

  // ----- one owner at a time

  /** A helper that holds the reservation. */
  ghost predicate Active(w: World, pid: nat) {
    pid in w.helpers && !w.helpers[pid].Verified?
  }

  /** Whoever is past the journal holds the pending record, alone. */
  ghost predicate OneOwner(w: World) {
    && (forall p, q :: Active(w, p) && Active(w, q) ==> p == q)
    && (forall p :: Active(w, p) ==> w.record == Some(Pending))
  }

  lemma OneOwnerStep(expires: int, worker: Worker, w: World, a: Action)
    requires OneOwner(w)
    ensures OneOwner(Next(expires, worker, w, a))
  {
    var after := Next(expires, worker, w, a);
    forall p | Active(after, p)
      ensures Active(w, p) || (a.Lock? && a.pid == p && w.record.None?)
      ensures after.record == Some(Pending)
    {
      if !(a.Lock? && a.pid == p && w.record.None?) {
        assert Active(w, p);
      }
      if a.Finish? && At(w, a.pid) == Some(Running) {
        assert Active(w, a.pid);
      }
      if a.GiveUp? && At(w, a.pid) in {Some(Reserved), Some(Asked(true)), Some(Asked(false))} {
        assert Active(w, a.pid);
      }
    }
  }

  lemma {:induction false} OneOwnerAlways(
      expires: int, worker: Worker, worlds: seq<World>, actions: seq<Action>, i: nat)
    requires Run(expires, worker, worlds, actions) && i < |worlds|
    ensures OneOwner(worlds[i])
    decreases i
  {
    if i > 0 {
      OneOwnerAlways(expires, worker, worlds, actions, i - 1);
      hide OneOwner, Next;
      OneOwnerStep(expires, worker, worlds[i - 1], actions[i - 1]);
    }
  }

  // ----- with the worker's own program

  /** A helper that was told yes and has not started its child yet. */
  ghost predicate Holds(w: World, pid: nat) {
    pid in w.helpers && w.helpers[pid] in {Asked(true), Authorized}
  }

  /** The one permission pays for one child, started or about to start. */
  ghost predicate Paid(w: World) {
    && Sound(w.approval)
    && w.given == (if w.approval.consumed then 1 else 0)
    && w.started <= w.given
    && (forall p :: Holds(w, p) ==> w.given == 1 && w.started == 0)
    && (forall p, q :: Holds(w, p) && Holds(w, q) ==> p == q)
  }

  lemma PaidStep(expires: int, w: World, a: Action)
    requires Paid(w)
    ensures Paid(Next(expires, Ours, w, a))
  {
    var after := Next(expires, Ours, w, a);
    forall p | Holds(after, p)
      ensures Holds(w, p) || (a.Ask? && a.pid == p && w.given == 0)
    {
    }
    if a.Start? && At(w, a.pid) == Some(Authorized) {
      assert Holds(w, a.pid);
    }
  }

  /** Whatever crashes, waits, is lost or is pruned: the worker says yes at most once, only after the
      signed commit, and the child process is started at most once. */
  lemma {:induction false} StartedOnce(expires: int, worlds: seq<World>, actions: seq<Action>, i: nat)
    requires Run(expires, Ours, worlds, actions) && i < |worlds|
    ensures worlds[i].started <= worlds[i].given <= 1
    ensures worlds[i].given == 1 ==> worlds[i].approval.state == Submitted
    ensures Paid(worlds[i])
    decreases i
  {
    if i > 0 {
      StartedOnce(expires, worlds, actions, i - 1);
      assert Paid(worlds[i]) by {
        hide Next, Paid;
        PaidStep(expires, worlds[i - 1], actions[i - 1]);
      }
    }
  }

  /** Step `k` is a commit that was signed, came in time and was accepted. */
  ghost predicate CommitsAt(expires: int, worlds: seq<World>, actions: seq<Action>, k: nat)
    requires k < |actions| < |worlds|
  {
    actions[k] == Commit(true, false, true) && worlds[k].now <= expires && worlds[k].approval.state == ApprovalRequired
  }

  /** Step `n` is the worker's yes, given in time and before the worker was closed. */
  ghost predicate SaysYesAt(expires: int, worlds: seq<World>, actions: seq<Action>, n: nat)
    requires n < |actions| < |worlds|
  {
    && (actions[n].Ask? || actions[n].Spend?) && worlds[n + 1].given == worlds[n].given + 1
    && worlds[n].now <= expires && forall c :: 0 <= c < n ==> !actions[c].Close?
  }

  lemma {:induction false} ClosedSince(expires: int, worker: Worker, worlds: seq<World>, actions: seq<Action>, i: nat)
    requires Run(expires, worker, worlds, actions) && i < |worlds|
    ensures worlds[i].approval.closed <==> exists c :: 0 <= c < i && actions[c].Close?
    decreases i
  {
    if i > 0 {
      ClosedSince(expires, worker, worlds, actions, i - 1);
      assert worlds[i] == Next(expires, worker, worlds[i - 1], actions[i - 1]);
    }
  }

  lemma {:induction false} CommittedBefore(expires: int, worlds: seq<World>, actions: seq<Action>, i: nat) returns (k: nat)
    requires Run(expires, Ours, worlds, actions) && i < |worlds|
    requires worlds[i].approval.available || worlds[i].approval.consumed
    ensures k < i && CommitsAt(expires, worlds, actions, k)
    decreases i
  {
    assert i > 0 && |actions| == |worlds| - 1;
    assert worlds[i] == Next(expires, Ours, worlds[i - 1], actions[i - 1]);
    hide Run, Next;
    if worlds[i - 1].approval.available || worlds[i - 1].approval.consumed {
      k := CommittedBefore(expires, worlds, actions, i - 1);
    } else {
      k := i - 1;
      CommitStep(expires, worlds[k], actions[k]);
    }
  }

  lemma CommitStep(expires: int, w: World, a: Action)
    requires !w.approval.available && !w.approval.consumed
    requires var after := Next(expires, Ours, w, a).approval; after.available || after.consumed
    ensures a == Commit(true, false, true) && w.now <= expires && w.approval.state == ApprovalRequired
  {
  }

  lemma YesStep(expires: int, w: World, a: Action)
    requires Next(expires, Ours, w, a).given != w.given
    ensures (a.Ask? || a.Spend?) && Next(expires, Ours, w, a).given == w.given + 1
    ensures w.now <= expires && !w.approval.closed && w.approval.available
  {
  }

  /** No yes, and so no child, without a signed commit in time before it; and none after the end of the grant or the
      end of the worker. */
  lemma {:induction false} YesNeedsCommit(expires: int, worlds: seq<World>, actions: seq<Action>, i: nat)
      returns (k: nat, n: nat)
    requires Run(expires, Ours, worlds, actions) && i < |worlds| && worlds[i].given > 0
    ensures k < n < i && CommitsAt(expires, worlds, actions, k) && SaysYesAt(expires, worlds, actions, n)
    decreases i
  {
    assert i > 0;
    assert worlds[i] == Next(expires, Ours, worlds[i - 1], actions[i - 1]);
    if worlds[i - 1].given > 0 {
      k, n := YesNeedsCommit(expires, worlds, actions, i - 1);
    } else {
      n := i - 1;
      hide Next;
      YesStep(expires, worlds[n], actions[n]);
      ClosedSince(expires, Ours, worlds, actions, n);
      k := CommittedBefore(expires, worlds, actions, n);
    }
  }

  /** A helper goes to the lock only with a grant that has not ended and does not reach too far. */
  lemma HelperChecked(expires: int, worker: Worker, w: World, a: Action, pid: nat)
    requires pid !in w.helpers && pid in Next(expires, worker, w, a).helpers
    ensures a == Verify(pid) && w.now < expires <= w.now + GRANT_WINDOW
    ensures At(Next(expires, worker, w, a), pid) == Some(Verified)
  {
  }

  // ----- with anything that answers on the worker's socket

  /** The clock has passed the time records of this grant are kept. */
  ghost predicate Late(expires: int, worlds: seq<World>, i: int)
    requires i < |worlds|
  {
    exists j :: 0 <= j <= i && expires + RETENTION < worlds[j].now
  }

  /** No helper takes the lock so late. */
  ghost predicate Timely(expires: int, worlds: seq<World>, actions: seq<Action>)
    requires |actions| == |worlds| - 1
  {
    forall i :: 0 <= i < |actions| && TakesLock(worlds[i], actions[i]) ==> !Late(expires, worlds, i)
  }

  ghost predicate TakesLock(w: World, a: Action) {
    a.Lock? && At(w, a.pid) == Some(Verified)
  }

  /** One reservation pays for one child, and settled records say whether it was started. */
  ghost predicate Journaled(w: World, late: bool) {
    && OneOwner(w)
    && w.started <= 1
    && (w.started == 1 ==> w.record.Some? || late)
    && (w.record == Some(NotStarted) ==> w.started == 0)
    && (w.record == Some(Complete) ==> w.started == 1)
    && (forall p :: Active(w, p) ==> w.started == if w.helpers[p].Running? then 1 else 0)
  }

  lemma JournalStep(expires: int, worker: Worker, w: World, a: Action, late: bool)
    requires Journaled(w, late) && (expires + RETENTION < w.now ==> late) && (TakesLock(w, a) ==> !late)
    ensures Journaled(Next(expires, worker, w, a), late)
  {
    var after := Next(expires, worker, w, a);
    OneOwnerStep(expires, worker, w, a);
    forall p | Active(after, p)
      ensures after.started == if after.helpers[p].Running? then 1 else 0
    {
      if Active(w, p) {
        if a.Start? && At(w, a.pid) == Some(Authorized) {
          assert Active(w, a.pid);
        }
      } else {
        assert a.Lock?;
      }
    }
    if a.GiveUp? && At(w, a.pid) in {Some(Reserved), Some(Asked(true)), Some(Asked(false))} {
      assert Active(w, a.pid);
    }
    if (a.Start? && At(w, a.pid) == Some(Authorized)) || (a.Finish? && At(w, a.pid) == Some(Running)) {
      assert Active(w, a.pid);
    }
    hide OneOwner;
  }

  /** When no helper takes the lock later than records are kept, the journal alone starts the child at most
      once, whoever answers for the worker, and what it says of the child is true. */
  lemma {:induction false} StartedOnceByJournal(
      expires: int, worker: Worker, worlds: seq<World>, actions: seq<Action>, i: nat)
    requires Run(expires, worker, worlds, actions) && Timely(expires, worlds, actions) && i < |worlds|
    ensures worlds[i].started <= 1
    ensures worlds[i].record == Some(NotStarted) ==> worlds[i].started == 0
    ensures worlds[i].record == Some(Complete) ==> worlds[i].started == 1
    ensures Journaled(worlds[i], Late(expires, worlds, i))
    decreases i
  {
    if i > 0 {
      StartedOnceByJournal(expires, worker, worlds, actions, i - 1);
      var before, late := worlds[i - 1], Late(expires, worlds, i - 1);
      assert late ==> Late(expires, worlds, i);
      assert worlds[i] == Next(expires, worker, before, actions[i - 1]);
      hide Next, OneOwner;
      JournalStep(expires, worker, before, actions[i - 1], late);
    }
  }

  ghost predicate Reachable(expires: int, worker: Worker, w: World) {
    exists worlds, actions :: Run(expires, worker, worlds, actions) && worlds[|worlds| - 1] == w
  }

  lemma ReachableNext(expires: int, worker: Worker, w: World, a: Action)
    requires Reachable(expires, worker, w)
    ensures Reachable(expires, worker, Next(expires, worker, w, a))
  {
    hide Next, Initial;
    var worlds, actions :| Run(expires, worker, worlds, actions) && worlds[|worlds| - 1] == w;
    var more, acts := worlds + [Next(expires, worker, w, a)], actions + [a];
    forall i | 0 <= i < |acts|
      ensures more[i + 1] == Next(expires, worker, more[i], acts[i])
    {
    }
    assert Run(expires, worker, more, acts);
  }

  lemma Play(expires: int, worker: Worker, w: World, a: Action) returns (after: World)
    requires Reachable(expires, worker, w)
    ensures Reachable(expires, worker, after) && after == Next(expires, worker, w, a)
  {
    ReachableNext(expires, worker, w, a);
    after := Next(expires, worker, w, a);
  }

  /** A child ended, and a helper that checked the grant before still waits for the lock. */
  ghost predicate Waiting(w: World, pid: nat) {
    w.started == 1 && w.record == Some(Complete) && At(w, pid) == Some(Verified)
  }

  /** Whenever such a helper waits until the record may be pruned, it can still reserve the grant. */
  lemma LateLockReserves(expires: int, worker: Worker, w: World, pid: nat, to: int) returns (after: World)
    requires Reachable(expires, worker, w) && Waiting(w, pid) && expires + RETENTION < to
    ensures Reachable(expires, worker, after) && At(after, pid) == Some(Reserved) && after.started == 1
    ensures after.now == to && after.approval == w.approval && after.given == w.given
  {
    hide Reachable;
    after := Play(expires, worker, w, Tick(to));
    after := Play(expires, worker, after, Prune);
    after := Play(expires, worker, after, Lock(pid, false));
  }

  /** So without the worker's program behind the socket it starts a second child... */
  lemma LateLockStartsAgain(expires: int, w: World, pid: nat, to: int) returns (after: World)
    requires Reachable(expires, Untrusted, w) && Waiting(w, pid) && expires + RETENTION < to
    ensures Reachable(expires, Untrusted, after) && after.started == 2
  {
    after := LateLockReserves(expires, Untrusted, w, pid, to);
    hide Reachable;
    after := Play(expires, Untrusted, after, Ask(pid, true));
    after := Play(expires, Untrusted, after, Hear(pid));
    after := Play(expires, Untrusted, after, Start(pid));
  }

  /** ... and with it the child is not started again, but the journal says it never was. */
  lemma LateLockForgets(expires: int, w: World, pid: nat, to: int) returns (after: World)
    requires Reachable(expires, Ours, w) && Waiting(w, pid) && expires + RETENTION < to
    ensures Reachable(expires, Ours, after) && after.started == 1 && after.record == Some(NotStarted)
  {
    after := LateLockReserves(expires, Ours, w, pid, to);
    hide Reachable;
    after := Play(expires, Ours, after, Ask(pid, false));
    after := Play(expires, Ours, after, GiveUp(pid));
  }

  /** Two helpers checked a committed grant, and one of them has the lock. */
  lemma OneReserves(worker: Worker) returns (w: World)
    ensures Reachable(10, worker, w) && At(w, 1) == Some(Reserved) && At(w, 2) == Some(Verified)
    ensures Grants(w.approval, 10, w.now) && w.started == 0
  {
    w := World(0, Approval(ApprovalRequired, false, false, false), None, map[], 0, 0);
    assert Run(10, worker, [w], []);
    hide Reachable;
    w := Play(10, worker, w, Commit(true, false, true));
    w := Play(10, worker, w, Verify(1));
    w := Play(10, worker, w, Verify(2));
    w := Play(10, worker, w, Lock(1, false));
  }

  /** So a waiting helper exists, whoever answers: the other one runs the child to its end. */
  lemma OneWaits(worker: Worker) returns (w: World)
    ensures Reachable(10, worker, w) && Waiting(w, 2)
  {
    w := OneReserves(worker);
    hide Reachable;
    w := Play(10, worker, w, Ask(1, true));
    w := Play(10, worker, w, Hear(1));
    w := Play(10, worker, w, Start(1));
    w := Play(10, worker, w, Finish(1));
  }

  /** A grant is good up to its last moment: committed and asked for just then, the child is started. */
  lemma LastMoment(now: int, expires: int) returns (w: World)
    requires now < expires <= now + GRANT_WINDOW
    ensures Reachable(expires, Ours, w) && w.now == expires && w.started == 1
  {
    w := World(now, Approval(ApprovalRequired, false, false, false), None, map[], 0, 0);
    assert Run(expires, Ours, [w], []);
    hide Reachable, Run;
    w := Play(expires, Ours, w, Verify(1));
    w := Play(expires, Ours, w, Tick(expires));
    w := Play(expires, Ours, w, Commit(true, false, true));
    assert w == World(expires, Approval(Submitted, true, false, false), None, map[1 := Verified], 0, 0);
    w := StartNow(expires, w);
  }

  /** A committed grant that is still free, and one helper that checked it: the helper starts the child. */
  lemma StartNow(expires: int, committed: World) returns (w: World)
    requires Reachable(expires, Ours, committed) && At(committed, 1) == Some(Verified) && committed.started == 0
    requires committed.approval.available && !committed.approval.closed && !committed.approval.consumed
    requires committed.record.None? && committed.now <= expires
    ensures Reachable(expires, Ours, w) && w.now == committed.now && w.started == 1
  {
    hide Reachable, Run;
    w := Play(expires, Ours, committed, Lock(1, false));
    w := Play(expires, Ours, w, Ask(1, false));
    w := Play(expires, Ours, w, Hear(1));
    w := Play(expires, Ours, w, Start(1));
  }

  // ----- records left pending

  /** A pending record changes only by the helper that owns it. */
  lemma PendingHeld(expires: int, worker: Worker, w: World, a: Action)
    requires OneOwner(w) && w.record == Some(Pending)
    ensures Next(expires, worker, w, a).record == Some(Pending)
      || ((a.GiveUp? || a.Finish?) && Active(w, a.pid))
  {
  }

  /** A record whose helper died stays pending for good. */
  lemma {:induction false} LeftPending(
      expires: int, worker: Worker, worlds: seq<World>, actions: seq<Action>, i: nat, j: nat)
    requires Run(expires, worker, worlds, actions) && i <= j < |worlds|
    requires worlds[i].record == Some(Pending) && forall p :: !Active(worlds[i], p)
    ensures worlds[j].record == Some(Pending) && forall p :: !Active(worlds[j], p)
    decreases j
  {
    if i < j {
      LeftPending(expires, worker, worlds, actions, i, j - 1);
      var w, a := worlds[j - 1], actions[j - 1];
      assert worlds[j] == Next(expires, worker, w, a);
      OneOwnerAlways(expires, worker, worlds, actions, j - 1);
      PendingHeld(expires, worker, w, a);
      forall p
        ensures !Active(worlds[j], p)
      {
        assert !Active(w, p);
      }
    }
  }

  // ----- the worker's object

  /** The worker's record of one approved operation, updated in place as the steps above say. */
  class Permission {
    const expires: int
    var state: ApprovalState
    var available: bool
    var consumed: bool

    ghost function View(closed: bool): Approval
      reads this
    {
      Approval(state, available, consumed, closed)
    }

    constructor (deadline: int)
      ensures expires == deadline && View(false) == Approval(ApprovalRequired, false, false, false)
    {
      expires, state, available, consumed := deadline, ApprovalRequired, false, false;
    }

    /** The signed approval arms the permission once; a repetition only reads the record. */
    method Commit(now: int, signed: bool, draining: bool, room: bool) returns (answer: CommitAnswer)
      requires Sound(View(false))
      modifies this`state, this`available
      ensures answer == CommitReply(old(View(false)), expires, now, signed, draining, room)
      ensures View(false) == AfterCommit(old(View(false)), answer) && Sound(View(false))
      ensures available && !old(available) ==> signed && now <= expires && !old(consumed)
    {
      if state != ApprovalRequired {
        return Repeated;
      }
      if now > expires {
        state := Expired;
        return TooLate;
      }
      if !signed {
        return BadSignature;
      }
      if draining {
        return Draining;
      }
      if !room {
        return NoCapacity;
      }
      available := true;
      state := Submitted;
      return Committed;
    }

    /** Only the exact signed grant is answered, and a yes leaves nothing for any later request. */
    method Consume(now: int, closed: bool, sameGrant: bool, signed: bool) returns (authorized: bool)
      requires Sound(View(closed))
      modifies this`available, this`consumed
      ensures authorized <==> Grants(old(View(closed)), expires, now) && sameGrant && signed
      ensures View(closed) == (if authorized then Spent(old(View(closed))) else old(View(closed)))
      ensures Sound(View(closed))
      ensures authorized ==> forall later :: !Grants(View(closed), expires, later)
    {
      if closed || !available || consumed || now > expires || !sameGrant || !signed {
        return false;
      }
      consumed, available := true, false;
      return true;
    }
  }
}
