/** The native session runtime: a single-threaded reactor over bounded sessions.

    Process exit, closed pipes, timer expiry and the end of the flow arrive in any order as calls.
 */
module SessionRuntime {
  import opened Prelude
  import SessionClock

  /** A request that waits on a session; `initial` is the request that started it. */
  datatype Wait = Wait(request: nat, initial: bool)

  datatype Session = Session(
    initial: nat, waits: seq<Wait>, spawned: bool, exposed: bool, delivered: bool, stopping: bool,
    exitSeen: bool, outputOpen: bool, errorsOpen: bool,
    settled: bool, flowDone: bool, finished: bool, clock: SessionClock.State, resultDelivered: bool)

  /** What the host is told: a reply to a request, or news of a session nobody asked for. */
  datatype Entry = Reply(request: nat) | News(session: nat)

  // ----- who is owed a reply

  function Requests(waits: seq<Wait>): set<nat> {
    set w | w in waits :: w.request
  }

  /** A session owes its waiting requests, and its first one until the session is exposed or finished. */
  function Owes(s: Session): set<nat> {
    Requests(s.waits) + if s.finished || s.exposed then {} else {s.initial}
  }

  ghost predicate Owed(sessions: map<nat, Session>, r: nat) {
    exists id :: id in sessions && r in Owes(sessions[id])
  }

  function Replies(log: seq<Entry>, r: nat): nat {
    if log == [] then 0
    else Replies(log[..|log| - 1], r) + (if log[|log| - 1] == Reply(r) then 1 else 0)
  }

  lemma RepliesAppend(log: seq<Entry>, e: Entry, r: nat)
    ensures Replies(log + [e], r) == Replies(log, r) + if e == Reply(r) then 1 else 0
  {
  }

  // ----- invariants

  ghost predicate DistinctWaits(waits: seq<Wait>) {
    forall i, j :: 0 <= i < j < |waits| ==> waits[i].request != waits[j].request
  }

  ghost predicate SessionInv(s: Session) {
    && DistinctWaits(s.waits)
    && (forall w :: w in s.waits ==> (w.initial <==> w.request == s.initial))
    && (s.exposed ==> s.initial !in Requests(s.waits))
    && (!s.spawned ==> s.waits == [] && !s.exposed)
    && (s.finished ==> s.waits == [] && s.settled && s.flowDone)
    && (s.resultDelivered ==> s.finished)
    && SettledRight(s) && StopRight(s)
  }

  /** The clock of a session that was asked to stop, or has ended, is stopped. */
  predicate StopRight(s: Session) {
    (s.stopping ==> s.spawned) && (s.stopping || s.finished ==> s.clock.stopped)
  }

  /** A process that started is settled exactly when its exit was seen and nothing is left in its pipes. */
  predicate SettledRight(s: Session) {
    if s.spawned then s.settled <==> s.exitSeen && !s.outputOpen && !s.errorsOpen
    else !s.outputOpen && !s.errorsOpen && (s.exitSeen ==> s.settled)
  }

  ghost predicate OwnedOnce(sessions: map<nat, Session>) {
    forall i, j, r :: i in sessions && j in sessions && r in Owes(sessions[i]) && r in Owes(sessions[j]) ==> i == j
  }

  /** Every request ever made has one reply, or is still owed one by exactly one session. */
  ghost predicate ReplyInv(sessions: map<nat, Session>, log: seq<Entry>, asked: set<nat>) {
    && OwnedOnce(sessions)
    && (forall r :: Owed(sessions, r) ==> r in asked)
    && (forall r :: Replies(log, r) == if r in asked && !Owed(sessions, r) then 1 else 0)
  }

  ghost predicate DistinctIds(ids: seq<nat>) {
    forall i, j :: 0 <= i < j < |ids| ==> ids[i] != ids[j]
  }

  /** The completed queue lists exactly the finished sessions, once each. */
  ghost predicate QueueInv(sessions: map<nat, Session>, completed: seq<nat>) {
    && DistinctIds(completed)
    && (forall id :: id in completed <==> id in sessions && sessions[id].finished)
  }

  // ----- one session changes

  /** The log gained exactly one reply for each request that is no longer owed. */
  ghost predicate Paid(was: set<nat>, now: set<nat>, log: seq<Entry>, after: seq<Entry>) {
    forall r :: Replies(after, r) == Replies(log, r) + if r in was - now then 1 else 0
  }

  lemma OwedAfter(sessions: map<nat, Session>, id: nat, s: Session, r: nat)
    requires id in sessions && OwnedOnce(sessions) && Owes(s) <= Owes(sessions[id])
    ensures Owed(sessions[id := s], r) <==> Owed(sessions, r) && r !in Owes(sessions[id]) - Owes(s)
  {
    var after := sessions[id := s];
    hide Owes;
    if Owed(after, r) {
      var i :| i in after && r in Owes(after[i]);
      assert r in Owes(sessions[i]);
    }
    if Owed(sessions, r) && r !in Owes(sessions[id]) - Owes(s) {
      var i :| i in sessions && r in Owes(sessions[i]);
      assert i in after && r in Owes(after[i]);
    }
  }

  /** Replying to what a session no longer owes keeps every account straight. */
  lemma PayUp(sessions: map<nat, Session>, log: seq<Entry>, asked: set<nat>, id: nat, s: Session, after: seq<Entry>)
    requires ReplyInv(sessions, log, asked) && id in sessions
    requires Owes(s) <= Owes(sessions[id]) && Paid(Owes(sessions[id]), Owes(s), log, after)
    ensures ReplyInv(sessions[id := s], after, asked)
  {
    hide Owes, Replies, Owed;
    forall r
      ensures Owed(sessions[id := s], r) <==> Owed(sessions, r) && r !in Owes(sessions[id]) - Owes(s)
      ensures r in Owes(sessions[id]) ==> Owed(sessions, r)
    {
      OwedAfter(sessions, id, s, r);
      OwedBy(sessions, id, r);
    }
  }

  lemma OwedBy(sessions: map<nat, Session>, id: nat, r: nat)
    requires id in sessions
    ensures r in Owes(sessions[id]) ==> Owed(sessions, r)
  {
  }

  /** A session that owes nothing can go. */
  lemma Forget(sessions: map<nat, Session>, log: seq<Entry>, asked: set<nat>, id: nat)
    requires ReplyInv(sessions, log, asked) && id in sessions && Owes(sessions[id]) == {}
    ensures ReplyInv(sessions - {id}, log, asked)
  {
    hide Owes, Replies;
    forall r
      ensures Owed(sessions - {id}, r) <==> Owed(sessions, r)
    {
      if Owed(sessions, r) {
        var i :| i in sessions && r in Owes(sessions[i]);
        assert i in sessions - {id};
      }
    }
  }

  /** A request refused on the spot. */
  lemma Refuse(sessions: map<nat, Session>, log: seq<Entry>, asked: set<nat>, r: nat)
    requires ReplyInv(sessions, log, asked) && r !in asked
    ensures ReplyInv(sessions, log + [Reply(r)], asked + {r})
  {
  }

  /** A session takes on one new request. */
  lemma TakeOn(sessions: map<nat, Session>, log: seq<Entry>, asked: set<nat>, id: nat, s: Session, r: nat)
    requires ReplyInv(sessions, log, asked) && r !in asked
    requires Owes(s) == (if id in sessions then Owes(sessions[id]) else {}) + {r}
    ensures ReplyInv(sessions[id := s], log, asked + {r})
  {
    var after := sessions[id := s];
    hide Owes, Replies;
    forall q
      ensures Owed(after, q) <==> Owed(sessions, q) || q == r
    {
      if Owed(after, q) {
        var i :| i in after && q in Owes(after[i]);
        assert i == id || i in sessions;
      }
      if Owed(sessions, q) {
        var i :| i in sessions && q in Owes(sessions[i]);
        assert i in after && q in Owes(after[i]);
      }
      assert id in after && r in Owes(after[id]);
    }
    forall i, j, q | i in after && j in after && q in Owes(after[i]) && q in Owes(after[j])
      ensures i == j
    {
      if q == r {
        assert !Owed(sessions, r);
      } else {
        assert i in sessions && q in Owes(sessions[i]) && j in sessions && q in Owes(sessions[j]);
      }
    }
  }

  lemma TakeOnNew(sessions: map<nat, Session>, log: seq<Entry>, asked: set<nat>, id: nat, s: Session, r: nat)
    requires ReplyInv(sessions, log, asked) && r !in asked && id !in sessions && Owes(s) == {r}
    ensures ReplyInv(sessions[id := s], log, asked + {r})
  {
    hide ReplyInv, Owes;
    assert {} + {r} == {r};
    TakeOn(sessions, log, asked, id, s, r);
  }

  // ----- waits

  /** Every waiting request gets its reply. */
  method ReplyAll(waits: seq<Wait>, log: seq<Entry>) returns (after: seq<Entry>)
    requires DistinctWaits(waits)
    ensures Paid(Requests(waits), {}, log, after)
  {
    after := log;
    var i := 0;
    assert Requests(waits[..0]) == {};
    while i < |waits|
      invariant 0 <= i <= |waits|
      invariant Paid(Requests(waits[..i]), {}, log, after)
    {
      hide Replies;
      var r := waits[i].request;
      assert waits[..i + 1] == waits[..i] + [waits[i]];
      assert Requests(waits[..i + 1]) == Requests(waits[..i]) + {r} by {
        RequestsAppend(waits[..i], waits[i]);
      }
      assert r !in Requests(waits[..i]);
      forall q {
        RepliesAppend(after, Reply(r), q);
      }
      after := after + [Reply(r)];
      i := i + 1;
    }
    assert waits[..i] == waits;
  }

  lemma RequestsAppend(waits: seq<Wait>, w: Wait)
    ensures Requests(waits + [w]) == Requests(waits) + {w.request}
  {
  }

  function DropAt<T>(xs: seq<T>, k: nat): seq<T>
    requires k < |xs|
  {
    xs[..k] + xs[k + 1..]
  }

  lemma DroppedMembers<T>(xs: seq<T>, k: nat, x: T)
    requires k < |xs|
    requires forall i, j :: 0 <= i < j < |xs| ==> xs[i] != xs[j]
    ensures x in DropAt(xs, k) <==> x in xs && x != xs[k]
  {
  }

  // ----- the finished session and the queue

  function Done(s: Session): Session {
    s.(finished := true, waits := [], clock := SessionClock.Stopped(s.clock),
       resultDelivered := s.resultDelivered || !s.clock.watching)
  }

  /** The process is settled once it was seen to exit and both pipes are drained. */
  function Settled(s: Session): Session {
    if s.settled || !s.exitSeen || s.outputOpen || s.errorsOpen then s else s.(settled := true)
  }

  lemma MapFacts(sessions: map<nat, Session>, id: nat, a: Session, b: Session)
    requires id in sessions
    ensures sessions[id := sessions[id]] == sessions && sessions[id := a][id := b] == sessions[id := b]
  {
  }

  lemma FinishedOwes(s: Session)
    requires SessionInv(s) && s.finished
    ensures Owes(s) == {}
  {
  }

  lemma DoneOwesNothing(s: Session)
    requires SessionInv(s) && s.settled && s.flowDone
    ensures SessionInv(Done(s)) && Owes(Done(s)) == {} && Done(s).initial == s.initial && Done(s).finished
  {
  }

  lemma QueuePush(sessions: map<nat, Session>, completed: seq<nat>, id: nat, s: Session)
    requires QueueInv(sessions, completed) && id in sessions && !sessions[id].finished && s.finished
    ensures QueueInv(sessions[id := s], completed + [id])
  {
  }

  lemma QueueSame(sessions: map<nat, Session>, completed: seq<nat>, id: nat, s: Session)
    requires QueueInv(sessions, completed)
    requires s.finished == (id in sessions && sessions[id].finished)
    ensures QueueInv(sessions[id := s], completed)
  {
  }

  /** The queue without one id. */
  function Removed(completed: seq<nat>, id: nat): (r: seq<nat>)
    ensures forall x :: x in r <==> x in completed && x != id
  {
    if completed == [] then []
    else
      assert completed == [completed[0]] + completed[1..];
      if completed[0] == id then Removed(completed[1..], id) else [completed[0]] + Removed(completed[1..], id)
  }

  lemma {:induction false} RemovedDistinct(completed: seq<nat>, id: nat)
    requires DistinctIds(completed)
    ensures DistinctIds(Removed(completed, id))
    decreases |completed|
  {
    if completed != [] {
      var first, rest := completed[0], completed[1..];
      assert first !in rest;
      RemovedDistinct(rest, id);
      assert first !in Removed(rest, id);
    }
  }

  lemma QueueDrop(sessions: map<nat, Session>, completed: seq<nat>, id: nat)
    requires QueueInv(sessions, completed)
    ensures QueueInv(sessions - {id}, Removed(completed, id))
  {
    RemovedDistinct(completed, id);
    hide DistinctIds;
  }

  lemma OneInv(sessions: map<nat, Session>, id: nat)
    requires AllInv(sessions) && id in sessions
    ensures SessionInv(sessions[id])
  {
  }

  lemma AllAfter(sessions: map<nat, Session>, id: nat, s: Session)
    requires AllInv(sessions) && SessionInv(s)
    ensures AllInv(sessions[id := s]) && AllInv(sessions - {id})
  {
  }

  /** An admitted session whose process does not exist yet. */
  function NewSession(request: nat): Session {
    Session(request, [], false, false, false, false, false, false, false, false, false, false, SessionClock.FRESH, false)
  }

  lemma NewOwes(request: nat)
    ensures SessionInv(NewSession(request)) && Owes(NewSession(request)) == {request} && !NewSession(request).finished
    ensures var s := NewSession(request);
      && s.initial == request && !s.spawned && !s.exposed && !s.delivered && !s.stopping
      && !s.exitSeen && !s.settled && !s.flowDone && s.clock.watching && !s.clock.stopped
  {
  }

  /** The process starts, with its first wait and its deadline; or it does not and there is nothing to settle. */
  function Spawned(s: Session, ok: bool, hasOutput: bool, hasErrors: bool, now: SessionClock.Clock,
                   timeout: SessionClock.Clock): Session {
    if ok then s.(spawned := true, waits := [Wait(s.initial, true)], outputOpen := hasOutput, errorsOpen := hasErrors,
                  clock := SessionClock.Started(s.clock, now, timeout))
    else s.(settled := true)
  }

  lemma SpawnedOwes(s: Session, ok: bool, hasOutput: bool, hasErrors: bool, now: SessionClock.Clock,
                    timeout: SessionClock.Clock)
    requires SessionInv(s) && !s.spawned && !s.finished && !s.settled
    ensures var after := Spawned(s, ok, hasOutput, hasErrors, now, timeout);
      && SessionInv(after) && Owes(after) == Owes(s) && !after.finished && after.initial == s.initial
      && after.resultDelivered == s.resultDelivered
      && if ok then
           && after.spawned && after.waits == [Wait(s.initial, true)]
           && after.outputOpen == hasOutput && after.errorsOpen == hasErrors
         else !after.spawned && after.settled && after.waits == []
  {
    assert Requests([Wait(s.initial, true)]) == {s.initial};
  }

  /** A running process is asked to end; its clock stops at once. */
  function AskedToStop(s: Session): Session {
    if s.settled || !s.spawned then s else s.(stopping := true, clock := SessionClock.Stopped(s.clock))
  }

  /** The session after one of its waits expired. */
  function Fired(s: Session, k: nat): Session
    requires k < |s.waits|
  {
    s.(waits := DropAt(s.waits, k), exposed := s.exposed || s.waits[k].initial)
  }

  /** The position of the first finished session whose result was delivered. */
  method FindDelivered(sessions: map<nat, Session>, completed: seq<nat>) returns (k: nat)
    requires forall id :: id in completed ==> id in sessions
    ensures k <= |completed|
    ensures k < |completed| ==> sessions[completed[k]].resultDelivered
    ensures forall i :: 0 <= i < k ==> !sessions[completed[i]].resultDelivered
  {
    k := 0;
    while k < |completed| && !sessions[completed[k]].resultDelivered
      invariant k <= |completed|
      invariant forall i :: 0 <= i < k ==> !sessions[completed[i]].resultDelivered
    {
      k := k + 1;
    }
  }

  lemma PaidNews(was: set<nat>, log: seq<Entry>, after: seq<Entry>, id: nat)
    requires Paid(was, {}, log, after)
    ensures Paid(was, {}, log, after + [News(id)])
  {
  }

  /** All the replies a session still owes, and the news of its end for a session the host knows. */
  method LastReplies(id: nat, s: Session, log: seq<Entry>) returns (after: seq<Entry>)
    requires SessionInv(s) && !s.finished
    ensures Paid(Owes(s), {}, log, after)
  {
    hide Paid;
    after := ReplyAll(s.waits, log);
    if s.exposed {
      PaidNews(Requests(s.waits), log, after, id);
      assert Owes(s) == Requests(s.waits);
      after := after + [News(id)];
    } else if s.initial !in Requests(s.waits) {
      LastReply(Requests(s.waits), s.initial, log, after);
      after := after + [Reply(s.initial)];
    } else {
      assert Owes(s) == Requests(s.waits);
    }
  }

  ghost predicate AllInv(sessions: map<nat, Session>) {
    forall id :: id in sessions ==> SessionInv(sessions[id])
  }

  /** A session that ended while it was watched stays, with its result, until somebody let it go. */
  ghost predicate HeldInv(sessions: map<nat, Session>, ended: set<nat>, letGo: set<nat>) {
    forall id :: id in ended && id !in letGo ==>
      id in sessions && sessions[id].finished && !sessions[id].resultDelivered
  }

  lemma HeldLess(sessions: map<nat, Session>, ended: set<nat>, letGo: set<nat>, id: nat, more: set<nat>)
    requires HeldInv(sessions, ended, letGo) && id in sessions
    requires sessions[id].resultDelivered || id in more
    ensures HeldInv(sessions - {id}, ended, letGo + more)
    ensures sessions[id].resultDelivered ==> id !in ended || id in letGo
  {
  }

  /** The session if it ends here while watched. */
  function EndsWatched(id: nat, before: Session, after: Session): set<nat> {
    if after.finished && !before.finished && before.clock.watching then {id} else {}
  }

  lemma HeldDone(sessions: map<nat, Session>, ended: set<nat>, letGo: set<nat>, id: nat)
    requires HeldInv(sessions, ended, letGo) && id in sessions && !sessions[id].finished && SessionInv(sessions[id])
    ensures HeldInv(sessions[id := Done(sessions[id])], ended + EndsWatched(id, sessions[id], Done(sessions[id])), letGo)
  {
  }

  lemma HeldSame(sessions: map<nat, Session>, ended: set<nat>, letGo: set<nat>, id: nat, s: Session)
    requires HeldInv(sessions, ended, letGo) && id in sessions && s.finished == sessions[id].finished
    requires id in ended && id !in letGo ==> !s.resultDelivered || s.resultDelivered == sessions[id].resultDelivered
    ensures HeldInv(sessions[id := s], ended, letGo)
  {
  }

  /** A result counts as delivered exactly when the session ended unwatched or was let go afterwards. */
  predicate FreedRight(id: nat, s: Session, ended: set<nat>, letGo: set<nat>) {
    if s.finished then s.resultDelivered <==> id !in ended || id in letGo else id !in ended && id !in letGo
  }

  ghost predicate FreedInv(sessions: map<nat, Session>, nextId: nat, ended: set<nat>, letGo: set<nat>) {
    && (forall id :: id in ended || id in letGo ==> id < nextId)
    && (forall id :: id in sessions ==> FreedRight(id, sessions[id], ended, letGo))
  }

  lemma FreedSame(sessions: map<nat, Session>, nextId: nat, ended: set<nat>, letGo: set<nat>, id: nat, s: Session)
    requires FreedInv(sessions, nextId, ended, letGo) && id in sessions
    requires s.finished == sessions[id].finished && s.resultDelivered == sessions[id].resultDelivered
    ensures FreedInv(sessions[id := s], nextId, ended, letGo)
  {
    assert FreedRight(id, sessions[id], ended, letGo);
  }

  lemma FreedDone(sessions: map<nat, Session>, nextId: nat, ended: set<nat>, letGo: set<nat>, id: nat)
    requires FreedInv(sessions, nextId, ended, letGo) && id in sessions && id < nextId
    requires !sessions[id].finished && !sessions[id].resultDelivered
    ensures FreedInv(sessions[id := Done(sessions[id])], nextId, ended + EndsWatched(id, sessions[id], Done(sessions[id])), letGo)
  {
    assert FreedRight(id, sessions[id], ended, letGo);
  }

  lemma FreedNew(sessions: map<nat, Session>, nextId: nat, ended: set<nat>, letGo: set<nat>, s: Session)
    requires FreedInv(sessions, nextId, ended, letGo) && !s.finished
    ensures FreedInv(sessions[nextId := s], nextId + 1, ended, letGo)
  {
  }

  /** Letting a result go, whether its session stays or leaves. */
  lemma FreedMore(sessions: map<nat, Session>, nextId: nat, ended: set<nat>, letGo: set<nat>, id: nat, s: Session)
    requires FreedInv(sessions, nextId, ended, letGo) && id in sessions && id < nextId && s.finished && s.resultDelivered
    ensures FreedInv(sessions[id := s], nextId, ended, letGo + {id})
  {
  }

  lemma FreedLess(sessions: map<nat, Session>, nextId: nat, ended: set<nat>, letGo: set<nat>, id: nat, more: set<nat>)
    requires FreedInv(sessions, nextId, ended, letGo) && id < nextId && more <= {id}
    ensures FreedInv(sessions - {id}, nextId, ended, letGo + more)
  {
    forall i | i in sessions - {id}
      ensures FreedRight(i, (sessions - {id})[i], ended, letGo + more)
    {
      assert FreedRight(i, sessions[i], ended, letGo) && i !in more;
    }
  }

  lemma HeldNew(sessions: map<nat, Session>, ended: set<nat>, letGo: set<nat>, id: nat, s: Session)
    requires HeldInv(sessions, ended, letGo) && id !in sessions
    ensures HeldInv(sessions[id := s], ended, letGo)
  {
  }

  ghost predicate IdsInv(sessions: map<nat, Session>, nextId: nat, asked: set<nat>) {
    forall id :: id in sessions ==> id < nextId && sessions[id].initial in asked
  }

  lemma IdsSame(sessions: map<nat, Session>, nextId: nat, asked: set<nat>, id: nat, s: Session)
    requires IdsInv(sessions, nextId, asked) && id in sessions && s.initial == sessions[id].initial
    ensures IdsInv(sessions[id := s], nextId, asked)
  {
  }

  lemma IdsLess(sessions: map<nat, Session>, nextId: nat, asked: set<nat>, id: nat)
    requires IdsInv(sessions, nextId, asked)
    ensures IdsInv(sessions - {id}, nextId, asked)
  {
  }

  lemma IdsNew(sessions: map<nat, Session>, nextId: nat, asked: set<nat>, s: Session)
    requires IdsInv(sessions, nextId, asked)
    ensures nextId !in sessions && IdsInv(sessions[nextId := s], nextId + 1, asked + {s.initial})
  {
  }

  function IndexOf(waits: seq<Wait>, w: Wait): (k: nat)
    ensures k <= |waits| && w !in waits[..k] && (k < |waits| ==> waits[k] == w)
  {
    if waits == [] || waits[0] == w then 0
    else
      var k := IndexOf(waits[1..], w);
      assert waits[..k + 1] == [waits[0]] + waits[1..][..k];
      k + 1
  }

  /** A session whose first request nobody took the answer of is asked to stop. */
  function StoppedFor(s: Session, target: nat): Session {
    if s.initial == target && !s.delivered && !s.finished then AskedToStop(s) else s
  }

  /** The session without a read of that request waiting on it. */
  function Cancelled(s: Session, target: nat): Session {
    var k := IndexOf(s.waits, Wait(target, false));
    if k < |s.waits| then s.(waits := DropAt(s.waits, k)) else s
  }

  lemma CancelledGone(s: Session, target: nat)
    requires SessionInv(s)
    ensures Wait(target, false) !in Cancelled(s, target).waits
    ensures forall w :: w in Cancelled(s, target).waits <==> w in s.waits && w != Wait(target, false)
  {
    var k := IndexOf(s.waits, Wait(target, false));
    if k < |s.waits| {
      forall w {
        DroppedMembers(s.waits, k, w);
      }
      hide DropAt;
    } else {
      assert s.waits[..k] == s.waits;
    }
  }

  // ----- the whole runtime

  /** All of the runtime's state. `asked`: the requests ever made. `ended`: the sessions that ended while
      watched. `letGo`: those acknowledged, unwatched or released after their end. */
  datatype Books = Books(
    capacity: nat, sessions: map<nat, Session>, completed: seq<nat>, log: seq<Entry>, nextId: nat,
    asked: set<nat>, ended: set<nat>, letGo: set<nat>)

  ghost predicate Inv(b: Books) {
    && |b.sessions| <= b.capacity && AllInv(b.sessions)
    && ReplyInv(b.sessions, b.log, b.asked) && QueueInv(b.sessions, b.completed)
    && IdsInv(b.sessions, b.nextId, b.asked) && HeldInv(b.sessions, b.ended, b.letGo)
    && FreedInv(b.sessions, b.nextId, b.ended, b.letGo)
  }

  lemma SessionOf(b: Books, id: nat)
    requires Inv(b) && id in b.sessions
    ensures SessionInv(b.sessions[id]) && id < b.nextId && b.sessions[id].initial in b.asked
  {
    hide ReplyInv, QueueInv, SessionInv, HeldInv, FreedInv;
  }

  lemma QueuedSessions(b: Books)
    requires Inv(b)
    ensures forall id :: id in b.completed ==> id in b.sessions && b.sessions[id].finished
    ensures forall id :: id in b.sessions && b.sessions[id].resultDelivered ==> id in b.completed
  {
    hide ReplyInv, IdsInv, HeldInv, FreedInv;
    assert forall id :: id in b.sessions ==> SessionInv(b.sessions[id]);
  }

  function Told(b: Books, request: nat): Books {
    b.(log := b.log + [Reply(request)], asked := b.asked + {request})
  }

  lemma ToldKeeps(b: Books, request: nat)
    requires Inv(b) && request !in b.asked
    ensures Inv(Told(b, request))
  {
    hide ReplyInv, QueueInv, AllInv, HeldInv, FreedInv;
    Refuse(b.sessions, b.log, b.asked, request);
  }

  function Erased(b: Books, id: nat): Books {
    b.(sessions := b.sessions - {id}, completed := Removed(b.completed, id))
  }

  /** A finished session leaves, delivered or let go now. */
  lemma ErasedKeeps(b: Books, id: nat, more: set<nat>)
    requires Inv(b) && id in b.sessions && b.sessions[id].finished && more <= {id}
    requires b.sessions[id].resultDelivered || id in more
    ensures Inv(Erased(b.(letGo := b.letGo + more), id))
    ensures b.sessions[id].resultDelivered ==> id !in b.ended || id in b.letGo
  {
    hide ReplyInv, QueueInv, SessionInv, AllInv, Owes, HeldInv, FreedInv, IdsInv, Removed, Inv;
    SessionOf(b, id);
    ErasedParts(b, id, more);
  }

  lemma ErasedParts(b: Books, id: nat, more: set<nat>)
    requires Inv(b) && id in b.sessions && b.sessions[id].finished && id < b.nextId && more <= {id}
    requires b.sessions[id].resultDelivered || id in more
    ensures Inv(Erased(b.(letGo := b.letGo + more), id))
    ensures b.sessions[id].resultDelivered ==> id !in b.ended || id in b.letGo
  {
    hide ReplyInv, QueueInv, SessionInv, AllInv, Owes, HeldInv, FreedInv, IdsInv, Removed;
    IdsLess(b.sessions, b.nextId, b.asked, id);
    FreedLess(b.sessions, b.nextId, b.ended, b.letGo, id, more);
    OneInv(b.sessions, id);
    FinishedOwes(b.sessions[id]);
    AllAfter(b.sessions, id, b.sessions[id]);
    Forget(b.sessions, b.log, b.asked, id);
    QueueDrop(b.sessions, b.completed, id);
    FewerSessions(b.sessions, id);
    HeldLess(b.sessions, b.ended, b.letGo, id, more);
  }

  function Admitted(b: Books, request: nat): Books {
    b.(sessions := b.sessions[b.nextId := NewSession(request)], asked := b.asked + {request}, nextId := b.nextId + 1)
  }

  lemma AdmittedKeeps(b: Books, request: nat)
    requires Inv(b) && |b.sessions| < b.capacity && request !in b.asked
    ensures b.nextId !in b.sessions && Inv(Admitted(b, request))
  {
    hide ReplyInv, QueueInv, SessionInv, Owes, AllInv, HeldInv, FreedInv, NewSession, IdsInv, Inv;
    NewOwes(request);
    AdmittedParts(b, request, NewSession(request));
  }

  lemma AdmittedParts(b: Books, request: nat, s: Session)
    requires Inv(b) && |b.sessions| < b.capacity && request !in b.asked
    requires SessionInv(s) && s.initial == request && Owes(s) == {request} && !s.finished
    ensures b.nextId !in b.sessions
    ensures Inv(b.(sessions := b.sessions[b.nextId := s], asked := b.asked + {request}, nextId := b.nextId + 1))
  {
    hide ReplyInv, QueueInv, SessionInv, Owes, AllInv, HeldInv, FreedInv, IdsInv;
    IdsNew(b.sessions, b.nextId, b.asked, s);
    var sessions := b.sessions[b.nextId := s];
    assert AllInv(sessions) by { AllAfter(b.sessions, b.nextId, s); }
    assert |sessions| <= b.capacity by { MoreSessions(b.sessions, b.nextId, s); }
    assert ReplyInv(sessions, b.log, b.asked + {request}) by {
      TakeOnNew(b.sessions, b.log, b.asked, b.nextId, s, request);
    }
    assert QueueInv(sessions, b.completed) by { QueueSame(b.sessions, b.completed, b.nextId, s); }
    assert HeldInv(sessions, b.ended, b.letGo) by { HeldNew(b.sessions, b.ended, b.letGo, b.nextId, s); }
    FreedNew(b.sessions, b.nextId, b.ended, b.letGo, s);
  }

  function Updated(b: Books, id: nat, s: Session): Books {
    b.(sessions := b.sessions[id := s])
  }

  /** The session owes what it owed and is as finished as it was. */
  ghost predicate Harmless(s: Session, after: Session) {
    SessionInv(after) && Owes(after) == Owes(s) && after.finished == s.finished && after.initial == s.initial
  }

  /** A change that leaves the waits alone and undoes no end. */
  lemma SameDebts(s: Session, after: Session)
    requires SessionInv(s) && after.waits == s.waits && after.initial == s.initial && after.exposed == s.exposed
    requires after.spawned == s.spawned && after.finished == s.finished && StopRight(after)
    requires (s.settled ==> after.settled) && (s.flowDone ==> after.flowDone)
    requires (after.resultDelivered ==> after.finished) && SettledRight(after)
    ensures Harmless(s, after)
  {
    hide DistinctWaits, Requests;
  }

  lemma UpdatedKeeps(b: Books, id: nat, s: Session)
    requires Inv(b) && id in b.sessions && Harmless(b.sessions[id], s)
    requires s.resultDelivered == b.sessions[id].resultDelivered
    ensures Inv(Updated(b, id, s))
  {
    hide ReplyInv, QueueInv, SessionInv, Owes, Replies, AllInv, HeldInv, FreedInv, IdsInv;
    FreedSame(b.sessions, b.nextId, b.ended, b.letGo, id, s);
    IdsSame(b.sessions, b.nextId, b.asked, id, s);
    HeldSame(b.sessions, b.ended, b.letGo, id, s);
    AllAfter(b.sessions, id, s);
    PayUp(b.sessions, b.log, b.asked, id, s, b.log);
    QueueSame(b.sessions, b.completed, id, s);
    SameSize(b.sessions, id, s);
  }

  lemma SameSize(sessions: map<nat, Session>, id: nat, s: Session)
    requires id in sessions
    ensures |sessions[id := s]| == |sessions|
  {
    assert sessions[id := s].Keys == sessions.Keys;
  }

  function PaidOff(b: Books, id: nat, s: Session, request: nat): Books {
    b.(sessions := b.sessions[id := s], log := b.log + [Reply(request)])
  }

  lemma PaidOffKeeps(b: Books, id: nat, s: Session, request: nat)
    requires Inv(b) && id in b.sessions && request in Owes(b.sessions[id])
    requires SessionInv(s) && Owes(s) == Owes(b.sessions[id]) - {request} && s.finished == b.sessions[id].finished
    requires s.initial == b.sessions[id].initial && s.resultDelivered == b.sessions[id].resultDelivered
    ensures Inv(PaidOff(b, id, s, request))
  {
    hide ReplyInv, QueueInv, SessionInv, Owes, Replies, AllInv, Paid, HeldInv, FreedInv, IdsInv;
    FreedSame(b.sessions, b.nextId, b.ended, b.letGo, id, s);
    IdsSame(b.sessions, b.nextId, b.asked, id, s);
    HeldSame(b.sessions, b.ended, b.letGo, id, s);
    AllAfter(b.sessions, id, s);
    PaidOne(Owes(b.sessions[id]), request, b.log);
    PayUp(b.sessions, b.log, b.asked, id, s, b.log + [Reply(request)]);
    QueueSame(b.sessions, b.completed, id, s);
    SameSize(b.sessions, id, s);
  }

  function Concluded(b: Books, id: nat, after: seq<Entry>): Books
    requires id in b.sessions
  {
    b.(sessions := b.sessions[id := Done(b.sessions[id])], completed := b.completed + [id], log := after,
       ended := b.ended + EndsWatched(id, b.sessions[id], Done(b.sessions[id])))
  }

  lemma ConcludedKeeps(b: Books, id: nat, after: seq<Entry>)
    requires Inv(b) && id in b.sessions
    requires b.sessions[id].settled && b.sessions[id].flowDone && !b.sessions[id].finished
    requires Paid(Owes(b.sessions[id]), {}, b.log, after)
    ensures Inv(Concluded(b, id, after))
    ensures forall r :: r in Owes(b.sessions[id]) ==> Replies(after, r) == 1
  {
    var s := b.sessions[id];
    SessionOf(b, id);
    assert !s.resultDelivered;
    hide ReplyInv, QueueInv, AllInv, Replies, Paid, SessionInv, Owes, Done, HeldInv, FreedInv, EndsWatched, IdsInv;
    FreedDone(b.sessions, b.nextId, b.ended, b.letGo, id);
    DoneOwesNothing(s);
    IdsSame(b.sessions, b.nextId, b.asked, id, Done(s));
    HeldDone(b.sessions, b.ended, b.letGo, id);
    AllAfter(b.sessions, id, Done(s));
    PayUp(b.sessions, b.log, b.asked, id, Done(s), after);
    QueuePush(b.sessions, b.completed, id, Done(s));
    PaidInFull(b.sessions, b.log, b.asked, id, Done(s), after);
    SameSize(b.sessions, id, Done(s));
  }

  function Waiting(s: Session, request: nat): Session {
    s.(waits := s.waits + [Wait(request, false)])
  }

  function Joined(b: Books, id: nat, request: nat): Books
    requires id in b.sessions
  {
    b.(sessions := b.sessions[id := Waiting(b.sessions[id], request)], asked := b.asked + {request})
  }

  lemma JoinedKeeps(b: Books, id: nat, request: nat)
    requires Inv(b) && request !in b.asked && id in b.sessions
    requires b.sessions[id].exposed && !b.sessions[id].finished
    ensures Inv(Joined(b, id, request))
  {
    var s := b.sessions[id];
    var after := Waiting(s, request);
    hide ReplyInv, QueueInv, SessionInv, Owes, AllInv, HeldInv, FreedInv;
    SessionOf(b, id);
    NotWaiting(b.sessions, b.log, b.asked, id, request);
    MoreWaits(s, request);
    JoinedParts(b, id, request, after);
  }

  lemma JoinedParts(b: Books, id: nat, request: nat, after: Session)
    requires Inv(b) && request !in b.asked && id in b.sessions
    requires SessionInv(after) && Owes(after) == Owes(b.sessions[id]) + {request} && after.initial == b.sessions[id].initial
    requires after.finished == b.sessions[id].finished && after.resultDelivered == b.sessions[id].resultDelivered
    ensures Inv(b.(sessions := b.sessions[id := after], asked := b.asked + {request}))
  {
    hide ReplyInv, QueueInv, SessionInv, Owes, AllInv, HeldInv, FreedInv;
    FreedSame(b.sessions, b.nextId, b.ended, b.letGo, id, after);
    HeldSame(b.sessions, b.ended, b.letGo, id, after);
    AllAfter(b.sessions, id, after);
    TakeOn(b.sessions, b.log, b.asked, id, after, request);
    QueueSame(b.sessions, b.completed, id, after);
    SameSize(b.sessions, id, after);
  }

  /** A result is let go, and its session stays. */
  lemma FreeKeeps(b: Books, id: nat, s: Session)
    requires Inv(b) && id in b.sessions && Harmless(b.sessions[id], s) && s.finished && s.resultDelivered
    ensures Inv(Updated(b.(letGo := b.letGo + {id}), id, s))
  {
    SessionOf(b, id);
    hide ReplyInv, QueueInv, SessionInv, Owes, Replies, AllInv, HeldInv, FreedInv, IdsInv;
    FreedMore(b.sessions, b.nextId, b.ended, b.letGo, id, s);
    HeldMore(b.sessions, b.ended, b.letGo, id, s);
    IdsSame(b.sessions, b.nextId, b.asked, id, s);
    AllAfter(b.sessions, id, s);
    PayUp(b.sessions, b.log, b.asked, id, s, b.log);
    QueueSame(b.sessions, b.completed, id, s);
    SameSize(b.sessions, id, s);
  }

  lemma HeldMore(sessions: map<nat, Session>, ended: set<nat>, letGo: set<nat>, id: nat, s: Session)
    requires HeldInv(sessions, ended, letGo)
    ensures HeldInv(sessions[id := s], ended, letGo + {id})
  {
  }

  class Runtime {
    var sessions: map<nat, Session>
    var completed: seq<nat>
    var log: seq<Entry>
    var nextId: nat
    const capacity: nat
    ghost var asked: set<nat>
    ghost var ended: set<nat>
    ghost var letGo: set<nat>

    ghost function View(): Books
      reads this
    {
      Books(capacity, sessions, completed, log, nextId, asked, ended, letGo)
    }

    ghost predicate Valid()
      reads this
    {
      Inv(View())
    }

    constructor (limit: nat)
      ensures Valid() && View() == Books(limit, map[], [], [], 1, {}, {}, {})
    {
      sessions, completed, log, nextId, capacity, asked, ended, letGo := map[], [], [], 1, limit, {}, {}, {};
    }

    /** A request answered on the spot. */
    method Answer(request: nat)
      requires Valid() && request !in asked
      modifies this`log, this`asked
      ensures Valid() && View() == Told(old(View()), request)
    {
      hide Inv;
      ToldKeeps(View(), request);
      log, asked := log + [Reply(request)], asked + {request};
    }

    /** A finished session is forgotten. */
    method Erase(id: nat)
      requires Valid() && id in sessions && sessions[id].finished && sessions[id].resultDelivered
      modifies this`sessions, this`completed
      ensures Valid() && View() == Erased(old(View()), id) && (id in ended ==> id in letGo)
    {
      hide Inv, Removed;
      ErasedKeeps(View(), id, {});
      assert letGo + {} == letGo;
      sessions, completed := sessions - {id}, Removed(completed, id);
    }

    /** Make room for one more session by dropping delivered results, oldest first. */
    method MakeRoom() returns (ok: bool)
      requires Valid()
      modifies this`sessions, this`completed
      ensures Valid() && (ok <==> |sessions| < capacity)
      ensures forall id :: id in sessions ==> id in old(sessions) && sessions[id] == old(sessions)[id]
      ensures forall id :: id in old(sessions) && id !in sessions ==>
        old(sessions)[id].resultDelivered && (id in ended ==> id in letGo)
      ensures !ok ==> forall id :: id in sessions ==> !sessions[id].resultDelivered
    {
      while |sessions| >= capacity
        invariant Valid()
        invariant forall id :: id in sessions ==> id in old(sessions) && sessions[id] == old(sessions)[id]
        invariant forall id :: id in old(sessions) && id !in sessions ==>
          old(sessions)[id].resultDelivered && (id in ended ==> id in letGo)
        decreases |sessions|
      {
        hide Inv;
        QueuedSessions(View());
        var k := FindDelivered(sessions, completed);
        if k == |completed| {
          return false;
        }
        assert completed[k] in completed;
        FewerSessions(sessions, completed[k]);
        Erase(completed[k]);
      }
      return true;
    }

    /** Admit a session. Its slot is reserved before the process exists, or the request is refused. */
    method Begin(request: nat) returns (id: Option<nat>)
      requires Valid() && request !in asked
      modifies this`sessions, this`completed, this`log, this`nextId, this`asked
      ensures Valid() && asked == old(asked) + {request}
      ensures forall i :: i in old(sessions) && !old(sessions)[i].resultDelivered ==>
        i in sessions && sessions[i] == old(sessions)[i]
      ensures id.Some? ==> id.value !in old(sessions) && id.value in sessions && request in Owes(sessions[id.value])
      ensures id.Some? ==> log == old(log)
      ensures id.Some? ==>
        var s := sessions[id.value];
        && s.initial == request && !s.spawned && !s.exposed && !s.delivered && !s.stopping
        && !s.exitSeen && !s.settled && !s.flowDone && !s.finished && s.clock.watching && !s.clock.stopped
      ensures id.None? ==> log == old(log) + [Reply(request)]
      ensures id.None? ==> forall i :: i in sessions ==> !sessions[i].resultDelivered
    {
      hide Inv, Owes, NewSession;
      NoneYet(View());
      var ok := MakeRoom();
      if !ok {
        Answer(request);
        return None;
      }
      NewOwes(request);
      AdmittedKeeps(View(), request);
      id := Some(nextId);
      sessions, asked, nextId := sessions[nextId := NewSession(request)], asked + {request}, nextId + 1;
    }

    /** The process of an admitted session is created, or cannot be. */
    method Spawn(id: nat, ok: bool, hasOutput: bool, hasErrors: bool, now: SessionClock.Clock, timeout: SessionClock.Clock)
      requires Valid() && id in sessions && !sessions[id].spawned && !sessions[id].settled && !sessions[id].finished
      modifies this`sessions
      ensures Valid() && View() == Updated(old(View()), id, Spawned(old(sessions[id]), ok, hasOutput, hasErrors, now, timeout))
      ensures var s := sessions[id];
        if ok then
          s.spawned && s.waits == [Wait(s.initial, true)] && s.outputOpen == hasOutput && s.errorsOpen == hasErrors
        else !s.spawned && s.settled && s.waits == []
    {
      hide Inv, Spawned;
      SessionOf(View(), id);
      SpawnedOwes(sessions[id], ok, hasOutput, hasErrors, now, timeout);
      Update(id, Spawned(sessions[id], ok, hasOutput, hasErrors, now, timeout));
    }

    /** Replace one session by a state in which it owes the same. */
    method Update(id: nat, s: Session)
      requires Valid() && id in sessions && Harmless(sessions[id], s)
      requires s.resultDelivered == sessions[id].resultDelivered
      modifies this`sessions
      ensures Valid() && View() == Updated(old(View()), id, s)
    {
      hide Inv, Harmless;
      UpdatedKeeps(View(), id, s);
      sessions := sessions[id := s];
    }

    /** A wait expires: its request is answered; the first one exposes the session. */
    method FireWait(id: nat, k: nat)
      requires Valid() && id in sessions && k < |sessions[id].waits|
      modifies this`sessions, this`log
      ensures Valid()
      ensures View() == PaidOff(old(View()), id, Fired(old(sessions[id]), k), old(sessions[id]).waits[k].request)
    {
      hide Inv, SessionInv, Owes, Fired;
      SessionOf(View(), id);
      FiredOwes(sessions[id], k);
      PaidOffKeeps(View(), id, Fired(sessions[id], k), sessions[id].waits[k].request);
      sessions, log := sessions[id := Fired(sessions[id], k)], log + [Reply(sessions[id].waits[k].request)];
    }

    /** The end of a session: everybody who waits is told, and the first request if nobody told it before. */
    method Conclude(id: nat)
      requires Valid() && id in sessions
      requires sessions[id].settled && sessions[id].flowDone && !sessions[id].finished
      modifies this`sessions, this`log, this`completed, this`ended
      ensures Valid() && View() == Concluded(old(View()), id, log)
      ensures forall r :: r in Owes(old(sessions[id])) ==> Replies(log, r) == 1
    {
      hide Inv, Replies, Paid, SessionInv, Owes, Done, EndsWatched;
      SessionOf(View(), id);
      var after := LastReplies(id, sessions[id], log);
      ConcludedKeeps(View(), id, after);
      ended := ended + EndsWatched(id, sessions[id], Done(sessions[id]));
      sessions, completed, log := sessions[id := Done(sessions[id])], completed + [id], after;
    }

    /** What happened to one session, and to no other: it changed, or it also ended. */
    ghost predicate Ended(was: Books, id: nat, s: Session)
      requires id in was.sessions
      reads this
    {
      if s.settled && s.flowDone && !s.finished then View() == Concluded(Updated(was, id, s), id, log)
      else View() == Updated(was, id, s)
    }

    /** The session is over once the process is settled and the flow has ended, in either order. */
    method Complete(id: nat)
      requires Valid() && id in sessions
      modifies this`sessions, this`log, this`completed, this`ended
      ensures Valid() && Ended(old(View()), id, old(sessions[id]))
      ensures sessions[id].finished && !old(sessions[id]).finished ==>
        forall r :: r in Owes(old(sessions[id])) ==> Replies(log, r) == 1
    {
      hide Inv, Replies, Owes, Done, EndsWatched;
      MapFacts(sessions, id, sessions[id], sessions[id]);
      if sessions[id].settled && sessions[id].flowDone && !sessions[id].finished {
        Conclude(id);
      }
    }

    method Settle(id: nat)
      requires Valid() && id in sessions
      modifies this`sessions, this`log, this`completed, this`ended
      ensures Valid()
      ensures Ended(old(View()), id, Settled(old(sessions[id])))
    {
      var s := Settled(sessions[id]);
      PipeHarmless(View(), id, sessions[id]);
      hide Inv, Harmless, Settled, Done, EndsWatched;
      Change(id, s);
    }

    /** The session changes without owing anything else, and ends if that was the last thing it waited for. */
    method Change(id: nat, s: Session)
      requires Valid() && id in sessions && Harmless(sessions[id], s)
      requires s.resultDelivered == sessions[id].resultDelivered
      modifies this`sessions, this`log, this`completed, this`ended
      ensures Valid() && Ended(old(View()), id, s)
    {
      hide Inv, Harmless, Done, EndsWatched;
      MapFacts(sessions, id, s, s);
      Update(id, s);
      Complete(id);
    }

    method SeeExit(id: nat)
      requires Valid() && id in sessions
      modifies this`sessions, this`log, this`completed, this`ended
      ensures Valid() && Ended(old(View()), id, Settled(old(sessions[id]).(exitSeen := true)))
    {
      PipeHarmless(View(), id, sessions[id].(exitSeen := true));
      hide Inv, Harmless, Settled, Done, EndsWatched;
      Change(id, Settled(sessions[id].(exitSeen := true)));
    }

    /** One of the child's pipes reaches its end. */
    method DrainPipe(id: nat, errors: bool)
      requires Valid() && id in sessions
      modifies this`sessions, this`log, this`completed, this`ended
      ensures Valid()
      ensures Ended(old(View()), id, Settled(
        if errors then old(sessions[id]).(errorsOpen := false) else old(sessions[id]).(outputOpen := false)))
    {
      var s := if errors then sessions[id].(errorsOpen := false) else sessions[id].(outputOpen := false);
      PipeHarmless(View(), id, s);
      hide Inv, Harmless, Settled, Done, EndsWatched;
      Change(id, Settled(s));
    }

    /** The flow that started the process ends; a process that never started is settled already. */
    method EndFlow(id: nat)
      requires Valid() && id in sessions
      modifies this`sessions, this`log, this`completed, this`ended
      ensures Valid() && Ended(old(View()), id, old(sessions[id]).(flowDone := true))
    {
      FlowHarmless(View(), id);
      hide Inv, Harmless, Done, EndsWatched;
      Change(id, sessions[id].(flowDone := true));
    }

    predicate Known(id: nat)
      reads this
    {
      id in sessions && sessions[id].exposed
    }

    /** A read of a live session waits; any other read is answered at once. */
    method Read(request: nat, id: nat)
      requires Valid() && request !in asked
      modifies this`sessions, this`log, this`asked
      ensures Valid()
      ensures View() == if old(Known(id)) && !old(sessions[id]).finished then Joined(old(View()), id, request)
                        else Told(old(View()), request)
    {
      hide Inv;
      if id in sessions && sessions[id].exposed && !sessions[id].finished {
        JoinedKeeps(View(), id, request);
        sessions, asked := sessions[id := Waiting(sessions[id], request)], asked + {request};
      } else {
        Answer(request);
      }
    }

    /** A watch is refused for an unknown session, after the exit, or by the session's own clock. */
    method Watch(request: nat, id: nat, now: SessionClock.Clock, wait: SessionClock.Clock, delta: SessionClock.Clock)
      requires Valid() && request !in asked && 0 < wait <= SessionClock.MAX_WAIT
      modifies this`sessions, this`log, this`asked
      ensures Valid()
      ensures View() == Told(
        if !old(Known(id)) || old(sessions[id]).exitSeen then old(View())
        else Reclocked(old(View()), id, SessionClock.Watched(old(sessions[id]).clock, now, wait, delta)), request)
    {
      hide Inv;
      if id in sessions && sessions[id].exposed && !sessions[id].exitSeen {
        SessionClock.WatchIff(sessions[id].clock, now, wait, delta);
        Reclock(id, SessionClock.Watched(sessions[id].clock, now, wait, delta));
      }
      Answer(request);
    }

    /** So is an extension of the deadline. */
    method Extend(request: nat, id: nat, now: SessionClock.Clock, delta: SessionClock.Clock)
      requires Valid() && request !in asked && 0 < delta
      modifies this`sessions, this`log, this`asked
      ensures Valid()
      ensures View() == Told(
        if !old(Known(id)) || old(sessions[id]).exitSeen then old(View())
        else Reclocked(old(View()), id, SessionClock.Extended(old(sessions[id]).clock, now, delta)), request)
    {
      hide Inv;
      if id in sessions && sessions[id].exposed && !sessions[id].exitSeen {
        SessionClock.ExtendIff(sessions[id].clock, now, delta);
        Reclock(id, SessionClock.Extended(sessions[id].clock, now, delta));
      }
      Answer(request);
    }

    method Reclock(id: nat, outcome: SessionClock.Outcome)
      requires Valid() && id in sessions && (outcome.Done? ==> outcome.state.stopped == sessions[id].clock.stopped)
      modifies this`sessions
      ensures Valid() && View() == Reclocked(old(View()), id, outcome)
    {
      hide Inv, Harmless;
      if outcome.Done? {
        SessionOf(View(), id);
        ClockHarmless(View(), id, sessions[id].(clock := outcome.state));
        Update(id, sessions[id].(clock := outcome.state));
      }
    }

    /** A finished result nobody watches any more counts as delivered. */
    method Unwatch(request: nat, id: nat)
      requires Valid() && request !in asked
      modifies this`sessions, this`log, this`asked, this`letGo
      ensures Valid()
      ensures View() == Told(
        if !old(Known(id)) then old(View())
        else Handed(old(View()), id, old(sessions[id]).(clock := SessionClock.Unwatched(old(sessions[id]).clock)),
                    old(sessions[id]).finished), request)
    {
      hide Inv, Handed, Told;
      if id in sessions && sessions[id].exposed {
        Hand(id, sessions[id].(clock := SessionClock.Unwatched(sessions[id].clock)), sessions[id].finished);
      }
      Answer(request);
    }

    method Acknowledge(request: nat, id: nat, terminal: bool)
      requires Valid() && request !in asked
      modifies this`sessions, this`log, this`asked, this`letGo
      ensures Valid()
      ensures View() == Told(
        if !old(Known(id)) then old(View())
        else Handed(old(View()), id, old(sessions[id]).(delivered := true), terminal && old(sessions[id]).finished),
        request)
    {
      hide Inv, Handed, Told;
      if id in sessions && sessions[id].exposed {
        Hand(id, sessions[id].(delivered := true), terminal && sessions[id].finished);
      }
      Answer(request);
    }

    /** The session changes, and its result is let go or not. */
    method Hand(id: nat, s: Session, free: bool)
      requires Valid() && id in sessions && (free ==> sessions[id].finished)
      requires s == sessions[id].(clock := s.clock, delivered := s.delivered) && s.clock.stopped == sessions[id].clock.stopped
      modifies this`sessions, this`letGo
      ensures Valid() && View() == Handed(old(View()), id, s, free)
    {
      hide Inv, Harmless;
      HandHarmless(View(), id, s, free);
      var after := s.(resultDelivered := s.resultDelivered || free);
      if free {
        LetGo(id, after);
      } else {
        Update(id, after);
      }
    }

    method LetGo(id: nat, s: Session)
      requires Valid() && id in sessions && Harmless(sessions[id], s) && s.finished && s.resultDelivered
      modifies this`sessions, this`letGo
      ensures Valid() && View() == Updated(old(View()).(letGo := old(letGo) + {id}), id, s)
    {
      hide Inv, Harmless;
      FreeKeeps(View(), id, s);
      sessions, letGo := sessions[id := s], letGo + {id};
    }

    method Release(request: nat, id: nat)
      requires Valid() && request !in asked
      modifies this`sessions, this`completed, this`log, this`asked, this`letGo
      ensures Valid()
      ensures View() == Told(
        if old(Known(id)) && old(sessions[id]).finished then Discarded(old(View()), id) else old(View()), request)
    {
      hide Inv, Removed;
      if id in sessions && sessions[id].exposed && sessions[id].finished {
        Discard(id);
      }
      Answer(request);
    }

    /** The handoff of an output may be acknowledged again after its reply was lost. */
    method ReleaseOutput(request: nat, id: nat)
      requires Valid() && request !in asked
      modifies this`sessions, this`completed, this`log, this`asked, this`letGo
      ensures Valid()
      ensures View() == Told(
        if id in old(sessions) && old(sessions[id]).finished then Discarded(old(View()), id) else old(View()), request)
    {
      hide Inv, Removed;
      if id in sessions && sessions[id].finished {
        Discard(id);
      }
      Answer(request);
    }

    method Discard(id: nat)
      requires Valid() && id in sessions && sessions[id].finished
      modifies this`sessions, this`completed, this`letGo
      ensures Valid() && View() == Discarded(old(View()), id)
    {
      hide Inv, Removed;
      ErasedKeeps(View(), id, {id});
      sessions, completed, letGo := sessions - {id}, Removed(completed, id), letGo + {id};
    }

    /** A session is asked to stop, by its deadline or by a caller. */
    method RequestStop(id: nat)
      requires Valid() && id in sessions
      modifies this`sessions
      ensures Valid() && View() == Updated(old(View()), id, AskedToStop(old(sessions[id])))
      ensures if old(sessions[id]).spawned && !old(sessions[id]).settled
              then sessions[id].stopping && sessions[id].clock.stopped else sessions == old(sessions)
    {
      MapFacts(sessions, id, sessions[id], sessions[id]);
      assert if sessions[id].spawned && !sessions[id].settled
             then AskedToStop(sessions[id]).stopping && AskedToStop(sessions[id]).clock.stopped
             else AskedToStop(sessions[id]) == sessions[id];
      ClockHarmless(View(), id, AskedToStop(sessions[id]));
      hide Inv, Harmless, AskedToStop;
      Update(id, AskedToStop(sessions[id]));
    }

    method Terminate(request: nat, id: nat)
      requires Valid() && request !in asked
      modifies this`sessions, this`log, this`asked
      ensures Valid()
      ensures View() == Told(
        if !old(Known(id)) || old(sessions[id]).finished then old(View())
        else Updated(old(View()), id, AskedToStop(old(sessions[id]))), request)
    {
      hide Inv, AskedToStop;
      if id in sessions && sessions[id].exposed && !sessions[id].finished {
        RequestStop(id);
      }
      Answer(request);
    }

    /** A cancelled read is answered as such; a cancelled first request stops its session, which answers it. */
    method CancelRequest(request: nat, target: nat)
      requires Valid() && request !in asked
      modifies this`sessions, this`log, this`asked
      ensures Valid() && asked == old(asked) + {request}
      ensures sessions == Visited(old(sessions), {}, target)
    {
      hide Inv, Cancelled, StoppedFor, Visited;
      ghost var before := sessions;
      var todo := sessions.Keys;
      assert Visited(before, todo, target) == before by {
        NoneVisited(before, target);
      }
      while todo != {}
        invariant Valid() && asked == old(asked) && todo <= before.Keys && sessions == Visited(before, todo, target)
        decreases |todo|
      {
        var id :| id in todo;
        VisitedStep(before, todo, target, id);
        todo := todo - {id};
        CancelIn(id, target);
      }
      Answer(request);
    }

    method CancelIn(id: nat, target: nat)
      requires Valid() && id in sessions
      modifies this`sessions, this`log
      ensures Valid() && sessions == old(sessions)[id := Cancelled(StoppedFor(old(sessions[id]), target), target)]
    {
      hide Inv, Cancelled, AskedToStop;
      MapFacts(sessions, id, StoppedFor(sessions[id], target), Cancelled(StoppedFor(sessions[id], target), target));
      if sessions[id].initial == target && !sessions[id].delivered && !sessions[id].finished {
        RequestStop(id);
      }
      CancelWait(id, target);
    }

    method CancelWait(id: nat, target: nat)
      requires Valid() && id in sessions
      modifies this`sessions, this`log
      ensures Valid() && sessions == old(sessions)[id := Cancelled(old(sessions[id]), target)]
    {
      SessionOf(View(), id);
      hide Inv, DropAt;
      var k := IndexOf(sessions[id].waits, Wait(target, false));
      MapFacts(sessions, id, sessions[id], sessions[id]);
      if k < |sessions[id].waits| {
        FireWait(id, k);
      }
    }
  }

  lemma NoneYet(b: Books)
    requires Inv(b)
    ensures forall id :: id in b.sessions ==> id < b.nextId
  {
    hide ReplyInv, QueueInv, AllInv, HeldInv, FreedInv;
  }

  function Reclocked(b: Books, id: nat, outcome: SessionClock.Outcome): Books
    requires id in b.sessions
  {
    if outcome.Rejected? then b else Updated(b, id, b.sessions[id].(clock := outcome.state))
  }

  function Handed(b: Books, id: nat, s: Session, free: bool): Books {
    Updated(if free then b.(letGo := b.letGo + {id}) else b, id, s.(resultDelivered := s.resultDelivered || free))
  }

  function Discarded(b: Books, id: nat): Books {
    Erased(b.(letGo := b.letGo + {id}), id)
  }

  lemma FlowHarmless(b: Books, id: nat)
    requires Inv(b) && id in b.sessions
    ensures Harmless(b.sessions[id], b.sessions[id].(flowDone := true))
  {
    hide Inv, Harmless, DistinctWaits, Requests;
    SessionOf(b, id);
    SameDebts(b.sessions[id], b.sessions[id].(flowDone := true));
  }

  lemma HandHarmless(b: Books, id: nat, s: Session, free: bool)
    requires Inv(b) && id in b.sessions && (free ==> b.sessions[id].finished)
    requires s == b.sessions[id].(clock := s.clock, delivered := s.delivered) && s.clock.stopped == b.sessions[id].clock.stopped
    ensures var after := s.(resultDelivered := s.resultDelivered || free);
      && Harmless(b.sessions[id], after)
      && (if free then after.finished && after.resultDelivered else after.resultDelivered == b.sessions[id].resultDelivered)
  {
    hide Inv, Harmless, DistinctWaits, Requests;
    SessionOf(b, id);
    SameDebts(b.sessions[id], s.(resultDelivered := s.resultDelivered || free));
  }

  lemma ClockHarmless(b: Books, id: nat, s: Session)
    requires Inv(b) && id in b.sessions && s == b.sessions[id].(clock := s.clock, stopping := s.stopping)
    requires (s.stopping ==> s.spawned) && (b.sessions[id].clock.stopped || s.stopping ==> s.clock.stopped)
    ensures Harmless(b.sessions[id], s)
  {
    hide Inv, Harmless, DistinctWaits, Requests;
    SessionOf(b, id);
    SameDebts(b.sessions[id], s);
  }

  /** Seeing an end and settling the process changes nothing that is owed. */
  lemma PipeHarmless(b: Books, id: nat, s: Session)
    requires Inv(b) && id in b.sessions
    requires s == b.sessions[id].(exitSeen := s.exitSeen, outputOpen := s.outputOpen, errorsOpen := s.errorsOpen)
    requires (b.sessions[id].exitSeen ==> s.exitSeen)
    requires (s.outputOpen ==> b.sessions[id].outputOpen) && (s.errorsOpen ==> b.sessions[id].errorsOpen)
    ensures Harmless(b.sessions[id], Settled(s)) && Settled(s).resultDelivered == b.sessions[id].resultDelivered
  {
    hide Inv, Harmless, DistinctWaits, Requests;
    SessionOf(b, id);
    SameDebts(b.sessions[id], Settled(s));
  }

  /** The sessions while a cancelled request is looked for, `todo` still to be visited. */
  function Visited(before: map<nat, Session>, todo: set<nat>, target: nat): map<nat, Session> {
    map id | id in before :: if id in todo then before[id] else Cancelled(StoppedFor(before[id], target), target)
  }

  lemma NoneVisited(before: map<nat, Session>, target: nat)
    ensures Visited(before, before.Keys, target) == before
  {
    hide Cancelled, StoppedFor;
  }

  lemma VisitedStep(before: map<nat, Session>, todo: set<nat>, target: nat, id: nat)
    requires id in before && id in todo
    ensures id in Visited(before, todo, target) && Visited(before, todo, target)[id] == before[id]
    ensures Visited(before, todo, target)[id := Cancelled(StoppedFor(before[id], target), target)]
      == Visited(before, todo - {id}, target)
  {
    hide Cancelled, StoppedFor;
  }

  /** The result of a session that ended while watched is there until it is acknowledged, unwatched or released:
      no admission and no other request removes it. */
  lemma KeptUntilLetGo(rt: Runtime, id: nat)
    requires rt.Valid() && id in rt.ended && id !in rt.letGo
    ensures id in rt.sessions && rt.sessions[id].finished && !rt.sessions[id].resultDelivered && id in rt.completed
  {
    hide ReplyInv, AllInv;
  }

  /** The result of a finished session may be dropped exactly when the session ended unwatched or was let go since. */
  lemma DroppableIff(rt: Runtime, id: nat)
    requires rt.Valid() && id in rt.sessions
    ensures rt.sessions[id].resultDelivered <==> rt.sessions[id].finished && (id !in rt.ended || id in rt.letGo)
    ensures !rt.sessions[id].finished ==> id !in rt.ended && id !in rt.letGo
  {
    assert FreedRight(id, rt.sessions[id], rt.ended, rt.letGo);
    SessionOf(rt.View(), id);
    hide ReplyInv, QueueInv, AllInv, HeldInv, FreedInv;
  }

  /** A session that was asked to stop, or has ended, is watched, extended and woken no more. */
  lemma StopsForGood(rt: Runtime, id: nat, now: SessionClock.Clock, wait: SessionClock.Clock, delta: SessionClock.Clock)
    requires rt.Valid() && id in rt.sessions && (rt.sessions[id].stopping || rt.sessions[id].finished)
    ensures var clock := rt.sessions[id].clock;
      && SessionClock.Watched(clock, now, wait, delta).Rejected? && SessionClock.Extended(clock, now, delta).Rejected?
      && !SessionClock.Fires(clock, now, clock.generation)
  {
    SessionOf(rt.View(), id);
    hide Inv;
  }

  /** A cancellation asks exactly the running sessions to stop whose first request it names and nobody took the
      answer of. */
  lemma StoppedExactly(before: map<nat, Session>, target: nat, id: nat)
    requires id in before
    ensures id in Visited(before, {}, target)
    ensures var s := before[id];
      Visited(before, {}, target)[id].stopping <==>
        || s.stopping
        || (s.initial == target && !s.delivered && !s.finished && s.spawned && !s.settled)
  {
  }

  /** A session ends, and its last requests are answered, only once its process was seen to exit, all of its output
      was read and the flow that started it is over. */
  lemma EndsWhenDrained(rt: Runtime, id: nat)
    requires rt.Valid() && id in rt.sessions && rt.sessions[id].spawned
    ensures rt.sessions[id].finished ==>
      rt.sessions[id].exitSeen && !rt.sessions[id].outputOpen && !rt.sessions[id].errorsOpen && rt.sessions[id].flowDone
    ensures rt.sessions[id].settled <==>
      rt.sessions[id].exitSeen && !rt.sessions[id].outputOpen && !rt.sessions[id].errorsOpen
  {
    hide ReplyInv, QueueInv, HeldInv, IdsInv, DistinctWaits, Requests;
    SessionOf(rt.View(), id);
  }

  /** At any time every request has its one reply, or is owed it by a session that has not finished. */
  lemma AnsweredOnce(rt: Runtime, r: nat)
    requires rt.Valid()
    ensures r in rt.asked ==>
      Replies(rt.log, r) == 1 || (Replies(rt.log, r) == 0 && exists id ::
        id in rt.sessions && !rt.sessions[id].finished && r in Owes(rt.sessions[id]))
    ensures r !in rt.asked ==> Replies(rt.log, r) == 0
  {
    hide Replies, Owes, SessionInv;
    if r in rt.asked && Owed(rt.sessions, r) {
      var id :| id in rt.sessions && r in Owes(rt.sessions[id]);
      if rt.sessions[id].finished {
        FinishedOwes(rt.sessions[id]);
        assert false;
      }
    }
  }

  lemma NotWaiting(sessions: map<nat, Session>, log: seq<Entry>, asked: set<nat>, id: nat, r: nat)
    requires ReplyInv(sessions, log, asked) && id in sessions && r !in asked
    ensures r !in Owes(sessions[id])
  {
  }

  lemma MoreWaits(s: Session, r: nat)
    requires SessionInv(s) && s.exposed && !s.finished && r !in Owes(s) && r != s.initial
    ensures SessionInv(Waiting(s, r)) && Owes(Waiting(s, r)) == Owes(s) + {r}
  {
  }

  lemma MoreSessions(sessions: map<nat, Session>, id: nat, s: Session)
    ensures |sessions[id := s]| <= |sessions| + 1
  {
  }

  lemma LastReply(was: set<nat>, r: nat, log: seq<Entry>, after: seq<Entry>)
    requires Paid(was, {}, log, after) && r !in was
    ensures Paid(was + {r}, {}, log, after + [Reply(r)])
  {
  }

  /** What a session owed before it owed nothing has been answered once. */
  lemma PaidInFull(sessions: map<nat, Session>, log: seq<Entry>, asked: set<nat>, id: nat, s: Session, after: seq<Entry>)
    requires ReplyInv(sessions, log, asked) && id in sessions && Owes(s) == {}
    requires ReplyInv(sessions[id := s], after, asked)
    ensures forall r :: r in Owes(sessions[id]) ==> Replies(after, r) == 1
  {
  }

  lemma PaidOne(was: set<nat>, r: nat, log: seq<Entry>)
    requires r in was
    ensures Paid(was, was - {r}, log, log + [Reply(r)]) && was - {r} <= was
  {
  }

  lemma FewerSessions(sessions: map<nat, Session>, id: nat)
    requires id in sessions
    ensures |sessions - {id}| == |sessions| - 1
  {
  }

  /** An expired wait is owed no longer, and nothing else changes. */
  lemma FiredOwes(s: Session, k: nat)
    requires SessionInv(s) && k < |s.waits|
    ensures var after := Fired(s, k);
      && SessionInv(after) && after.finished == s.finished && after.initial == s.initial
      && after.resultDelivered == s.resultDelivered
      && s.waits[k].request in Owes(s) && Owes(after) == Owes(s) - {s.waits[k].request}
  {
  }
}
