/** Bounded, cancellable admission in front of a connection.

    A queued request waits on a future. The event loop may resolve, cancel and resume it at
    different moments, so a grant can race with a cancellation or a timeout.
 */
module Admission {
  import opened Prelude

  datatype Future = Waiting | Granted | Cancelled | Failed

  datatype Outcome = Admitted | Queued | Closed | QueueFull

  function GrantedIds(futures: map<nat, Future>): set<nat> {
    set id | id in futures && futures[id] == Granted
  }

  /** The queue holds every request that still waits, and only requests nobody granted. */
  ghost predicate QueueInv(waiters: seq<nat>, futures: map<nat, Future>) {
    && Distinct(waiters)
    && (forall id :: id in waiters ==> id in futures && futures[id] in {Waiting, Cancelled})
    && (forall id :: id in futures && futures[id] == Waiting ==> id in waiters)
  }

  /** The first `k` waiters are all done already. */
  ghost predicate SkippedTo(waiters: seq<nat>, futures: map<nat, Future>, k: nat)
    requires k <= |waiters|
  {
    forall i :: 0 <= i < k ==> waiters[i] in futures && futures[waiters[i]] != Waiting
  }

  lemma QueueTail(waiters: seq<nat>, futures: map<nat, Future>, k: nat)
    requires QueueInv(waiters, futures) && k <= |waiters| && SkippedTo(waiters, futures, k)
    ensures QueueInv(waiters[k..], futures)
  {
  }

  lemma QueueGrant(waiters: seq<nat>, futures: map<nat, Future>, k: nat)
    requires QueueInv(waiters, futures) && k < |waiters| && SkippedTo(waiters, futures, k)
    requires futures[waiters[k]] == Waiting
    ensures QueueInv(waiters[k + 1..], futures[waiters[k] := Granted])
    ensures GrantedIds(futures[waiters[k] := Granted]) == GrantedIds(futures) + {waiters[k]}
    ensures waiters[k] !in GrantedIds(futures)
  {
  }

  // ----- first come, first served

  /** The order of arrival: each request that has or awaits a permit, with the number of its arrival. */
  type Arrivals = map<nat, nat>

  ghost predicate Ascending(ids: seq<nat>, arrived: Arrivals) {
    && (forall id :: id in ids ==> id in arrived)
    && forall i, j :: 0 <= i < j < |ids| ==> arrived[ids[i]] < arrived[ids[j]]
  }

  ghost predicate Holds(held: set<nat>, futures: map<nat, Future>, id: nat) {
    id in held || (id in futures && futures[id] == Granted)
  }

  ghost predicate Waits(futures: map<nat, Future>, id: nat) {
    id in futures && futures[id] == Waiting
  }

  /** Whoever has a permit came before everybody who still waits, and the queue is in order of arrival. */
  ghost predicate Fair(waiters: seq<nat>, futures: map<nat, Future>, held: set<nat>, arrived: Arrivals, count: nat) {
    && (forall id :: id in arrived ==> arrived[id] < count)
    && (forall id :: id in held || id in futures ==> id in arrived)
    && Ascending(waiters, arrived)
    && (forall a, w :: Holds(held, futures, a) && Waits(futures, w) ==> arrived[a] < arrived[w])
  }

  lemma FairAdmit(futures: map<nat, Future>, held: set<nat>, arrived: Arrivals, count: nat, id: nat)
    requires QueueInv([], futures) && Fair([], futures, held, arrived, count)
    ensures Fair([], futures, held + {id}, arrived[id := count], count + 1)
  {
    forall w
      ensures !Waits(futures, w)
    {
    }
  }

  lemma FairQueue(waiters: seq<nat>, futures: map<nat, Future>, held: set<nat>, arrived: Arrivals, count: nat, id: nat)
    requires QueueInv(waiters, futures) && Fair(waiters, futures, held, arrived, count) && id !in held && id !in futures
    ensures Fair(waiters + [id], futures[id := Waiting], held, arrived[id := count], count + 1)
  {
    assert id !in waiters;
    var after, more := arrived[id := count], waiters + [id];
    forall i, j | 0 <= i < j < |more|
      ensures after[more[i]] < after[more[j]]
    {
      assert more[i] in waiters && (j < |waiters| ==> more[j] in waiters);
    }
    forall a, w | Holds(held, futures[id := Waiting], a) && Waits(futures[id := Waiting], w)
      ensures after[a] < after[w]
    {
      assert Holds(held, futures, a);
      assert w != id ==> Waits(futures, w);
    }
  }

  /** The first request that still waits takes the permit. */
  lemma FairGrant(waiters: seq<nat>, futures: map<nat, Future>, held: set<nat>, arrived: Arrivals, count: nat, k: nat)
    requires QueueInv(waiters, futures) && Fair(waiters, futures, held, arrived, count)
    requires k < |waiters| && SkippedTo(waiters, futures, k) && futures[waiters[k]] == Waiting
    ensures Fair(waiters[k + 1..], futures[waiters[k] := Granted], held, arrived, count)
  {
    var id, after := waiters[k], futures[waiters[k] := Granted];
    forall a, w | Holds(held, after, a) && Waits(after, w)
      ensures arrived[a] < arrived[w]
    {
      assert Waits(futures, w);
      if a == id {
        var i :| 0 <= i < |waiters| && waiters[i] == w;
      } else {
        assert Holds(held, futures, a);
      }
    }
  }

  lemma FairTail(waiters: seq<nat>, futures: map<nat, Future>, held: set<nat>, arrived: Arrivals, count: nat)
    requires Fair(waiters, futures, held, arrived, count)
    ensures Fair([], futures, held, arrived, count)
  {
  }

  /** Requests that no longer wait leave, with or without their permit. */
  lemma FairFewer(waiters: seq<nat>, futures: map<nat, Future>, held: set<nat>, arrived: Arrivals, count: nat,
                  rest: seq<nat>, fewer: map<nat, Future>, less: set<nat>)
    requires Fair(waiters, futures, held, arrived, count) && Ascending(rest, arrived)
    requires forall id :: id in fewer || id in less ==> id in futures || id in held
    requires forall id :: Holds(less, fewer, id) ==> Holds(held, futures, id)
    requires forall id :: Waits(fewer, id) ==> Waits(futures, id)
    ensures Fair(rest, fewer, less, arrived, count)
  {
  }

  lemma {:induction false} WithoutAscending(ids: seq<nat>, id: nat, arrived: Arrivals)
    requires Ascending(ids, arrived)
    ensures Ascending(Without(ids, id), arrived)
    decreases |ids|
  {
    hide Ascending;
    if ids != [] {
      TailAscending(ids, arrived);
      if ids[0] != id {
        WithoutAscending(ids[1..], id, arrived);
        ConsAscending(ids[0], Without(ids[1..], id), arrived);
      }
    }
  }

  lemma TailAscending(ids: seq<nat>, arrived: Arrivals)
    requires Ascending(ids, arrived) && ids != []
    ensures Ascending(ids[1..], arrived) && ids[0] in arrived
    ensures forall id :: id in ids[1..] ==> id in arrived && arrived[ids[0]] < arrived[id]
  {
    forall id | id in ids[1..]
      ensures id in arrived && arrived[ids[0]] < arrived[id]
    {
      var j :| 0 <= j < |ids| - 1 && ids[1..][j] == id;
      assert ids[j + 1] == id;
    }
  }

  lemma ConsAscending(first: nat, rest: seq<nat>, arrived: Arrivals)
    requires Ascending(rest, arrived) && first in arrived
    requires forall id :: id in rest ==> id in arrived && arrived[first] < arrived[id]
    ensures Ascending([first] + rest, arrived)
  {
  }

  // ----- the whole gate

  datatype Gate = Gate(capacity: nat, active: nat, waiters: seq<nat>, closed: bool, futures: map<nat, Future>,
                       held: set<nat>, arrived: Arrivals, count: nat)

  /** Every permit in use is held or granted. */
  ghost predicate Counted(g: Gate) {
    && g.active == |g.held| + |GrantedIds(g.futures)| && g.active <= g.capacity
    && g.held !! g.futures.Keys
    && QueueInv(g.waiters, g.futures)
    && (g.closed ==> g.waiters == [])
    && Fair(g.waiters, g.futures, g.held, g.arrived, g.count)
  }

  /** A request queues only behind a full house. */
  ghost predicate Sound(g: Gate) {
    Counted(g) && (g.waiters != [] ==> g.active == g.capacity)
  }

  /** One permit was just given back. */
  ghost predicate Loose(g: Gate) {
    Counted(g) && !g.closed && g.active < g.capacity && (g.waiters != [] ==> g.active + 1 == g.capacity)
  }

  function Arrived(g: Gate, id: nat): Gate {
    g.(arrived := g.arrived[id := g.count], count := g.count + 1)
  }

  function Acquired(g: Gate, id: nat, outcome: Outcome): Gate {
    match outcome
    case Admitted => Arrived(g, id).(active := g.active + 1, held := g.held + {id})
    case Queued => Arrived(g, id).(waiters := g.waiters + [id], futures := g.futures[id := Waiting])
    case Closed => g
    case QueueFull => g
  }

  lemma FullHouse(g: Gate)
    requires Sound(g)
    ensures g.active <= g.capacity && (g.waiters != [] ==> g.active == g.capacity)
  {
  }

  lemma AdmitSound(g: Gate, id: nat)
    requires Sound(g) && g.active < g.capacity && g.waiters == [] && id !in g.held && id !in g.futures
    ensures Sound(Acquired(g, id, Admitted))
  {
    hide Fair, QueueInv, GrantedIds;
    FairAdmit(g.futures, g.held, g.arrived, g.count, id);
  }

  lemma QueueSound(g: Gate, id: nat)
    requires Sound(g) && !g.closed && !(g.active < g.capacity && g.waiters == []) && id !in g.held && id !in g.futures
    ensures Sound(Acquired(g, id, Queued))
  {
    hide Fair, QueueInv, GrantedIds;
    FairQueue(g.waiters, g.futures, g.held, g.arrived, g.count, id);
    QueueMore(g.waiters, g.futures, id);
  }

  lemma QueueMore(waiters: seq<nat>, futures: map<nat, Future>, id: nat)
    requires QueueInv(waiters, futures) && id !in futures
    ensures QueueInv(waiters + [id], futures[id := Waiting])
    ensures GrantedIds(futures[id := Waiting]) == GrantedIds(futures)
  {
    assert GrantedIds(futures[id := Waiting]) == GrantedIds(futures);
    hide GrantedIds;
  }

  function Rest(ids: seq<nat>, k: nat): seq<nat>
    requires k <= |ids|
  {
    ids[k..]
  }

  lemma RestFacts(ids: seq<nat>, k: nat)
    requires k <= |ids| && Rest(ids, k) != []
    ensures k < |ids| && Rest(ids, k)[0] == ids[k] && ids[k] in ids && Rest(ids, k)[1..] == Rest(ids, k + 1)
  {
  }

  lemma RestEmpty(ids: seq<nat>, k: nat)
    requires k <= |ids| && Rest(ids, k) == []
    ensures k == |ids|
  {
  }

  lemma NoneSkipped(waiters: seq<nat>, futures: map<nat, Future>)
    ensures SkippedTo(waiters, futures, 0) && Rest(waiters, 0) == waiters
  {
  }

  lemma OneMoreSkipped(waiters: seq<nat>, futures: map<nat, Future>, k: nat)
    requires k < |waiters| && SkippedTo(waiters, futures, k) && waiters[k] in futures && futures[waiters[k]] != Waiting
    ensures SkippedTo(waiters, futures, k + 1)
  {
  }

  lemma PassedTo(waiters: seq<nat>, futures: map<nat, Future>, k: nat)
    requires k < |waiters| && SkippedTo(waiters, futures, k) && Waits(futures, waiters[k])
    ensures PassedOn(waiters, futures, Rest(waiters, k + 1), futures[waiters[k] := Granted])
    ensures futures[waiters[k] := Granted] != futures
  {
    assert Passed(waiters, futures, k, Rest(waiters, k + 1), futures[waiters[k] := Granted]);
    assert futures[waiters[k] := Granted][waiters[k]] != futures[waiters[k]];
  }

  lemma NobodyLeft(waiters: seq<nat>, futures: map<nat, Future>)
    requires SkippedTo(waiters, futures, |waiters|)
    ensures PassedOn(waiters, futures, [], futures)
  {
  }

  lemma GrantSound(g: Gate, k: nat)
    requires Loose(g) && k < |g.waiters| && SkippedTo(g.waiters, g.futures, k) && Waits(g.futures, g.waiters[k])
    ensures Sound(g.(active := g.active + 1, waiters := Rest(g.waiters, k + 1), futures := g.futures[g.waiters[k] := Granted]))
  {
    hide Fair, QueueInv, GrantedIds, SkippedTo;
    FairGrant(g.waiters, g.futures, g.held, g.arrived, g.count, k);
    QueueGrant(g.waiters, g.futures, k);
  }

  lemma TailSound(g: Gate)
    requires Loose(g) && SkippedTo(g.waiters, g.futures, |g.waiters|)
    ensures Sound(g.(waiters := []))
  {
    hide Fair, QueueInv, GrantedIds, SkippedTo;
    FairTail(g.waiters, g.futures, g.held, g.arrived, g.count);
    QueueTail(g.waiters, g.futures, |g.waiters|);
    assert g.waiters[|g.waiters|..] == [];
  }

  lemma ReleaseSound(g: Gate, id: nat)
    requires Sound(g) && id in g.held
    ensures g.active > 0
    ensures var after := g.(active := g.active - 1, held := g.held - {id});
      if g.closed then Sound(after) else Loose(after)
  {
    FairFewer(g.waiters, g.futures, g.held, g.arrived, g.count, g.waiters, g.futures, g.held - {id});
    hide Fair, QueueInv, GrantedIds;
  }

  lemma InterruptSound(g: Gate, id: nat)
    requires Sound(g) && Waits(g.futures, id)
    ensures Sound(g.(futures := g.futures[id := Cancelled]))
  {
    FairFewer(g.waiters, g.futures, g.held, g.arrived, g.count, g.waiters, g.futures[id := Cancelled], g.held);
    assert GrantedIds(g.futures[id := Cancelled]) == GrantedIds(g.futures);
    assert QueueInv(g.waiters, g.futures[id := Cancelled]);
    hide Fair, QueueInv;
  }

  lemma LessGranted(g: Gate, id: nat)
    requires Sound(g) && id in g.futures && g.futures[id] == Granted
    ensures |GrantedIds(g.futures - {id})| == |GrantedIds(g.futures)| - 1
    ensures id !in g.waiters && QueueInv(g.waiters, g.futures - {id})
  {
    assert GrantedIds(g.futures - {id}) == GrantedIds(g.futures) - {id};
    assert id in GrantedIds(g.futures);
    DropFuture(g.waiters, g.futures, id);
  }

  /** A granted request takes its permit. */
  lemma TakeSound(g: Gate, id: nat)
    requires Sound(g) && id in g.futures && g.futures[id] == Granted
    ensures Sound(g.(futures := g.futures - {id}, held := g.held + {id}))
  {
    LessGranted(g, id);
    FairFewer(g.waiters, g.futures, g.held, g.arrived, g.count, g.waiters, g.futures - {id}, g.held + {id});
    hide Fair, QueueInv, GrantedIds;
  }

  /** A granted request gives its permit back unused. */
  lemma ReturnSound(g: Gate, id: nat)
    requires Sound(g) && id in g.futures && g.futures[id] == Granted
    ensures g.active > 0
    ensures var after := g.(futures := g.futures - {id}, active := g.active - 1);
      if g.closed then Sound(after) else Loose(after)
  {
    LessGranted(g, id);
    FairFewer(g.waiters, g.futures, g.held, g.arrived, g.count, g.waiters, g.futures - {id}, g.held);
    hide Fair, QueueInv, GrantedIds;
  }

  /** A request that gave up leaves the queue. */
  lemma GoneSound(g: Gate, id: nat)
    requires Sound(g) && id in g.futures && g.futures[id] !in {Waiting, Granted}
    ensures Sound(g.(futures := g.futures - {id}, waiters := Without(g.waiters, id)))
  {
    hide Fair, QueueInv, GrantedIds, Without;
    FairGone(g.waiters, g.futures, g.held, g.arrived, g.count, id);
    DropFuture(g.waiters, g.futures, id);
    GrantedWithout(g.futures, id);
    assert Without([], id) == [] by { WithoutNone(id); }
  }

  lemma WithoutNone(id: nat)
    ensures Without([], id) == []
  {
  }

  lemma GrantedWithout(futures: map<nat, Future>, id: nat)
    requires id in futures && futures[id] != Granted
    ensures GrantedIds(futures - {id}) == GrantedIds(futures)
  {
  }

  lemma FairGone(waiters: seq<nat>, futures: map<nat, Future>, held: set<nat>, arrived: Arrivals, count: nat, id: nat)
    requires Fair(waiters, futures, held, arrived, count) && id in futures && futures[id] != Granted
    ensures Fair(Without(waiters, id), futures - {id}, held, arrived, count)
  {
    assert Ascending(waiters, arrived);
    hide Fair, Ascending, Without;
    WithoutAscending(waiters, id, arrived);
    FairFewer(waiters, futures, held, arrived, count, Without(waiters, id), futures - {id}, held);
  }

  /** Every future that was waiting is failed. */
  ghost predicate AllFailed(futures: map<nat, Future>, after: map<nat, Future>) {
    && after.Keys == futures.Keys
    && forall id :: id in futures ==> after[id] == if futures[id] == Waiting then Failed else futures[id]
  }

  lemma CloseSound(g: Gate, after: map<nat, Future>)
    requires Sound(g) && AllFailed(g.futures, after)
    ensures Sound(g.(closed := true, waiters := [], futures := after))
  {
    FairFewer(g.waiters, g.futures, g.held, g.arrived, g.count, [], after, g.held);
    assert GrantedIds(after) == GrantedIds(g.futures);
    assert QueueInv([], after);
    hide Fair, QueueInv;
  }

  lemma QueuedOnly(g: Gate)
    requires Sound(g) || Loose(g)
    ensures forall id :: id in g.waiters ==> id in g.futures
    ensures forall id :: Waits(g.futures, id) ==> id in g.waiters
  {
  }

  class RequestAdmission {
    const capacity: nat
    const queueLimit: nat
    var active: nat
    var waiters: seq<nat>
    var closed: bool

    /** The futures nobody has resumed yet, the requests that hold a permit, and the order of arrival. */
    var futures: map<nat, Future>
    ghost var held: set<nat>
    ghost var arrived: Arrivals
    ghost var count: nat

    ghost function View(): Gate
      reads this
    {
      Gate(capacity, active, waiters, closed, futures, held, arrived, count)
    }

    ghost predicate Valid()
      reads this
    {
      Sound(View())
    }

    constructor (permits: nat, limit: nat)
      ensures Valid() && queueLimit == limit && View() == Gate(permits, 0, [], false, map[], {}, map[], 0)
    {
      capacity, queueLimit, active, waiters, closed, futures, held := permits, limit, 0, [], false, map[], {};
      arrived, count := map[], 0;
    }

    method Acquire(id: nat) returns (outcome: Outcome)
      requires Valid() && id !in held && id !in futures
      modifies this
      ensures Valid()
      ensures outcome == if closed then Closed
                         else if old(active) < capacity then Admitted
                         else if |old(waiters)| >= queueLimit then QueueFull else Queued
      ensures View() == Acquired(old(View()), id, outcome)
    {
      hide Sound;
      FullHouse(View());
      if closed {
        return Closed;
      }
      if active < capacity && waiters == [] {
        AdmitSound(View(), id);
        active, held := active + 1, held + {id};
        arrived, count := arrived[id := count], count + 1;
        return Admitted;
      }
      if |waiters| >= queueLimit {
        return QueueFull;
      }
      QueueSound(View(), id);
      waiters, futures := waiters + [id], futures[id := Waiting];
      arrived, count := arrived[id := count], count + 1;
      return Queued;
    }

    /** The permit goes to the first request that still waits; those before it have given up. */
    method PassOn()
      requires Loose(View())
      modifies this`active, this`waiters, this`futures
      ensures Valid()
      ensures PassedOn(old(waiters), old(futures), waiters, futures)
      ensures active == old(active) + if futures == old(futures) then 0 else 1
    {
      hide Loose, Sound, Counted, PassedOn, SkippedTo;
      ghost var before := View();
      QueuedOnly(before);
      ghost var k := 0;
      NoneSkipped(waiters, futures);
      while waiters != []
        invariant k <= |before.waiters| && waiters == Rest(before.waiters, k) && SkippedTo(before.waiters, futures, k)
        invariant View() == before.(waiters := waiters)
        decreases |waiters|
      {
        hide Rest;
        RestFacts(before.waiters, k);
        var id := waiters[0];
        waiters := waiters[1..];
        if futures[id] == Waiting {
          GrantSound(before, k);
          PassedTo(before.waiters, before.futures, k);
          active := active + 1;
          futures := futures[id := Granted];
          return;
        }
        OneMoreSkipped(before.waiters, futures, k);
        k := k + 1;
      }
      assert k == |before.waiters| by {
        RestEmpty(before.waiters, k);
      }
      TailSound(before);
      NobodyLeft(before.waiters, futures);
    }

    /** A permit is given back. */
    method Release(id: nat)
      requires Valid() && id in held
      modifies this
      ensures Valid() && held == old(held) - {id} && closed == old(closed)
      ensures if closed then waiters == old(waiters) && futures == old(futures)
              else PassedOn(old(waiters), old(futures), waiters, futures)
    {
      ReleaseSound(View(), id);
      hide Sound, Loose;
      active, held := active - 1, held - {id};
      if !closed {
        PassOn();
      }
    }

    /** A timeout or a cancellation reaches a future that is not resolved yet; a resolved one is not changed. */
    method Interrupt(id: nat)
      requires Valid() && id in futures
      modifies this`futures
      ensures Valid()
      ensures futures == if old(futures)[id] == Waiting then old(futures)[id := Cancelled] else old(futures)
    {
      hide Sound;
      if futures[id] == Waiting {
        InterruptSound(View(), id);
        futures := futures[id := Cancelled];
      }
    }

    /** The waiting task runs again; an interrupted one returns a permit it was granted meanwhile. */
    method Resume(id: nat, interrupted: bool) returns (admitted: bool)
      requires Valid() && id in futures && futures[id] != Waiting
      modifies this
      ensures Valid() && id !in futures && closed == old(closed)
      ensures admitted == (old(futures)[id] == Granted && !interrupted)
      ensures held == if admitted then old(held) + {id} else old(held)
      ensures if old(futures)[id] == Granted && interrupted && !closed
              then PassedOn(old(waiters), old(futures) - {id}, waiters, futures)
              else futures == old(futures) - {id} && waiters == Without(old(waiters), id)
    {
      hide Sound, Loose;
      admitted := futures[id] == Granted && !interrupted;
      if futures[id] == Granted {
        LessGranted(View(), id);
        WithoutAbsent(waiters, id);
        if admitted {
          TakeSound(View(), id);
          futures, held := futures - {id}, held + {id};
        } else {
          Return(id);
        }
      } else {
        GoneSound(View(), id);
        futures, waiters := futures - {id}, Without(waiters, id);
      }
    }

    method Return(id: nat)
      requires Valid() && id in futures && futures[id] == Granted
      modifies this
      ensures Valid() && id !in futures && closed == old(closed) && held == old(held)
      ensures if closed then futures == old(futures) - {id} && waiters == old(waiters)
              else PassedOn(old(waiters), old(futures) - {id}, waiters, futures)
    {
      hide Sound, Loose;
      ReturnSound(View(), id);
      LessGranted(View(), id);
      futures, active := futures - {id}, active - 1;
      if !closed {
        PassOn();
      }
    }

    /** Closing fails everybody who waits and grants nothing. */
    method Close()
      requires Valid()
      modifies this`closed, this`waiters, this`futures
      ensures Valid() && closed && waiters == [] && AllFailed(old(futures), futures)
    {
      hide Sound, Loose, FailedTo, Rest, AllFailed, Waits;
      ghost var before := View();
      QueuedOnly(before);
      closed := true;
      ghost var k := 0;
      NoneFailed(before);
      while waiters != []
        invariant closed && k <= |before.waiters| && waiters == Rest(before.waiters, k)
        invariant FailedTo(before, k, futures)
        decreases |waiters|
      {
        RestFacts(before.waiters, k);
        FailedOne(before, k, futures);
        var id := waiters[0];
        waiters := waiters[1..];
        if futures[id] == Waiting {
          futures := futures[id := Failed];
        }
        k := k + 1;
      }
      RestEmpty(before.waiters, k);
      QueueFailed(before, futures);
      CloseSound(before, futures);
      assert View() == before.(closed := true, waiters := [], futures := futures);
    }
  }

  /** The first `k` waiters that still waited were failed. */
  ghost predicate FailedTo(g: Gate, k: nat, futures: map<nat, Future>)
    requires k <= |g.waiters|
  {
    && futures.Keys == g.futures.Keys
    && forall id :: id in g.futures ==>
         futures[id] == if g.futures[id] == Waiting && id in g.waiters[..k] then Failed else g.futures[id]
  }

  lemma NoneFailed(g: Gate)
    ensures FailedTo(g, 0, g.futures) && Rest(g.waiters, 0) == g.waiters
  {
  }

  lemma FailedOne(g: Gate, k: nat, futures: map<nat, Future>)
    requires k < |g.waiters| && FailedTo(g, k, futures) && g.waiters[k] in g.futures
    ensures g.waiters[k] in futures
    ensures FailedTo(g, k + 1, if futures[g.waiters[k]] == Waiting then futures[g.waiters[k] := Failed] else futures)
  {
    assert g.waiters[..k + 1] == g.waiters[..k] + [g.waiters[k]];
  }

  lemma QueueFailed(g: Gate, futures: map<nat, Future>)
    requires FailedTo(g, |g.waiters|, futures) && forall id :: Waits(g.futures, id) ==> id in g.waiters
    ensures AllFailed(g.futures, futures)
  {
    assert g.waiters[..|g.waiters|] == g.waiters;
    assert forall id :: id in g.futures && g.futures[id] == Waiting ==> Waits(g.futures, id);
  }

  /** The `k`-th waiter got the permit, and nobody before it was still waiting. */
  ghost predicate Passed(waiters: seq<nat>, futures: map<nat, Future>, k: nat,
                         rest: seq<nat>, after: map<nat, Future>) {
    && k < |waiters| && SkippedTo(waiters, futures, k)
    && waiters[k] in futures && futures[waiters[k]] == Waiting
    && rest == waiters[k + 1..] && after == futures[waiters[k] := Granted]
  }

  /** A free permit went to the first request still waiting, or nobody was waiting. */
  ghost predicate PassedOn(waiters: seq<nat>, futures: map<nat, Future>, rest: seq<nat>, after: map<nat, Future>) {
    || (rest == [] && after == futures && SkippedTo(waiters, futures, |waiters|))
    || exists k :: Passed(waiters, futures, k, rest, after)
  }

  lemma DropFuture(waiters: seq<nat>, futures: map<nat, Future>, id: nat)
    requires QueueInv(waiters, futures) && id in futures && futures[id] != Waiting
    ensures id !in waiters ==> QueueInv(waiters, futures - {id})
    ensures QueueInv(Without(waiters, id), futures - {id})
  {
    WithoutDistinct(waiters, id);
  }

  /** Nobody overtakes: every request with a permit arrived before every request that still waits. */
  lemma NoOvertaking(gate: RequestAdmission, a: nat, w: nat)
    requires gate.Valid()
    requires Holds(gate.held, gate.futures, a) && Waits(gate.futures, w)
    ensures a in gate.arrived && w in gate.arrived && gate.arrived[a] < gate.arrived[w]
  {
  }
}
