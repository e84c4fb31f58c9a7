/** A session's deadline and its one-shot wake-ups, in wrapping 64-bit milliseconds. */
module SessionClock {
  const MODULUS: nat := 18446744073709551616
  const MAX_WAIT := 300000

  type Clock = c: nat | c < MODULUS

  function Wrap(n: nat): Clock {
    n % MODULUS
  }

  /** `deadline` and `wake` are 0 when there is none. */
  datatype State = State(started: Clock, deadline: Clock, wake: Clock, generation: Clock, watching: bool, stopped: bool)

  const FRESH := State(0, 0, 0, 0, true, false)

  /** A budget of 0 is none. */
  function Started(s: State, now: Clock, budget: Clock): State {
    s.(started := now, deadline := if budget != 0 then Wrap(now + budget) else 0)
  }

  predicate IsRunning(s: State, now: Clock) {
    !s.stopped && (s.deadline == 0 || now < s.deadline)
  }

  datatype Error = NotRunning | NoDeadline | InvalidExtension | InvalidWait

  datatype Outcome = Done(state: State) | Rejected(error: Error)

  function Extended(s: State, now: Clock, delta: Clock): Outcome {
    if !IsRunning(s, now) then Rejected(NotRunning)
    else if s.deadline == 0 then Rejected(NoDeadline)
    else if delta == 0 || delta > MODULUS - 1 - s.deadline then Rejected(InvalidExtension)
    else Done(s.(deadline := s.deadline + delta))
  }

  function Watched(s: State, now: Clock, wait: Clock, delta: Clock): Outcome {
    if !IsRunning(s, now) then Rejected(NotRunning)
    else if wait == 0 || wait > MAX_WAIT then Rejected(InvalidWait)
    else
      var extended := if delta != 0 then Extended(s, now, delta) else Done(s);
      if extended.Rejected? then extended
      else Done(extended.state.(watching := true, wake := Wrap(now + wait), generation := Wrap(s.generation + 1)))
  }

  function Unwatched(s: State): State {
    s.(watching := false, wake := 0, generation := Wrap(s.generation + 1))
  }

  function Stopped(s: State): State {
    s.(stopped := true, wake := 0)
  }

  predicate Fires(s: State, now: Clock, captured: Clock) {
    && !s.stopped && s.watching && captured == s.generation
    && s.wake != 0 && s.wake <= now && (s.deadline == 0 || now < s.deadline)
  }

  class SessionLifecycle {
    var started: Clock
    var deadline: Clock
    var wake: Clock
    var generation: Clock
    var watching: bool
    var stopped: bool

    function Now(): State
      reads this
    {
      State(started, deadline, wake, generation, watching, stopped)
    }

    constructor ()
      ensures Now() == FRESH
    {
      started, deadline, wake, generation, watching, stopped := 0, 0, 0, 0, true, false;
    }

    method Start(now: Clock, budget: Clock)
      modifies this
      ensures Now() == Started(old(Now()), now, budget)
    {
      started := now;
      deadline := if budget != 0 then Wrap(now + budget) else 0;
    }

    /** A refused extension changes nothing. */
    method Extend(now: Clock, delta: Clock) returns (outcome: Outcome)
      modifies this
      ensures outcome == Extended(old(Now()), now, delta)
      ensures Now() == if outcome.Done? then outcome.state else old(Now())
    {
      if stopped || (deadline != 0 && now >= deadline) {
        return Rejected(NotRunning);
      }
      if deadline == 0 {
        return Rejected(NoDeadline);
      }
      if delta == 0 || delta > MODULUS - 1 - deadline {
        return Rejected(InvalidExtension);
      }
      deadline := deadline + delta;
      return Done(Now());
    }

    /** A refused watch changes nothing, not even the deadline. */
    method Watch(now: Clock, wait: Clock, delta: Clock) returns (outcome: Outcome)
      modifies this
      ensures outcome == Watched(old(Now()), now, wait, delta)
      ensures Now() == if outcome.Done? then outcome.state else old(Now())
    {
      if stopped || (deadline != 0 && now >= deadline) {
        return Rejected(NotRunning);
      }
      if wait == 0 || wait > MAX_WAIT {
        return Rejected(InvalidWait);
      }
      if delta != 0 {
        outcome := Extend(now, delta);
        if outcome.Rejected? {
          return;
        }
      }
      watching := true;
      wake := Wrap(now + wait);
      generation := Wrap(generation + 1);
      return Done(Now());
    }

    method Unwatch()
      modifies this
      ensures Now() == Unwatched(old(Now()))
    {
      watching, wake, generation := false, 0, Wrap(generation + 1);
    }

    method Stop()
      modifies this
      ensures Now() == Stopped(old(Now()))
    {
      stopped, wake := true, 0;
    }

    method Fire(now: Clock, captured: Clock) returns (fired: bool)
      modifies this
      ensures fired == Fires(old(Now()), now, captured)
      ensures Now() == if fired then old(Now()).(wake := 0) else old(Now())
    {
      if stopped || !watching || captured != generation || wake == 0 || now < wake || (deadline != 0 && now >= deadline) {
        return false;
      }
      wake := 0;
      return true;
    }
  }

  /** A session with a budget runs for exactly that time, and one without it until it is stopped, exactly when
      the end of the budget is on the clock. */
  lemma RunsForItsBudget(s: State, now: Clock, budget: Clock)
    requires !s.stopped
    ensures (forall later: Clock :: now <= later ==>
              (IsRunning(Started(s, now, budget), later) <==> budget == 0 || later < now + budget))
      <==> now + budget <= MODULUS
  {
    if now + budget >= MODULUS {
      Wrapped(now, budget);
      assert now + budget > MODULUS ==> !IsRunning(Started(s, now, budget), now);
    }
  }

  /** A session whose budget ends past the clock is over as soon as it starts. */
  lemma BudgetPastTheClock()
    ensures var s := Started(FRESH, MODULUS - 1, 2);
      s.deadline == 1 && !IsRunning(s, MODULUS - 1)
  {
    Wrapped(MODULUS - 1, 2);
  }

  lemma Wrapped(now: Clock, budget: Clock)
    requires now + budget >= MODULUS
    ensures Wrap(now + budget) == now + budget - MODULUS < now
  {
  }

  // ----- runs of a started session

  datatype Call =
    | Extend(delta: Clock) | Watch(wait: Clock, delta: Clock) | Unwatch | Stop | Fire(captured: Clock)

  function Next(s: State, now: Clock, c: Call): State {
    match c
    case Extend(delta) => (var o := Extended(s, now, delta); if o.Done? then o.state else s)
    case Watch(wait, delta) => (var o := Watched(s, now, wait, delta); if o.Done? then o.state else s)
    case Unwatch => Unwatched(s)
    case Stop => Stopped(s)
    case Fire(captured) => if Fires(s, now, captured) then s.(wake := 0) else s
  }

  ghost predicate Run(states: seq<State>, times: seq<Clock>, calls: seq<Call>) {
    && states != [] && |calls| == |times| == |states| - 1
    && forall i :: 0 <= i < |calls| ==> states[i + 1] == Next(states[i], times[i], calls[i])
  }

  ghost predicate FiredAt(states: seq<State>, times: seq<Clock>, calls: seq<Call>, i: nat)
    requires i < |calls| && |calls| == |times| == |states| - 1
  {
    calls[i].Fire? && Fires(states[i], times[i], calls[i].captured)
  }

  ghost predicate WatchedAt(states: seq<State>, times: seq<Clock>, calls: seq<Call>, i: nat)
    requires i < |calls| && |calls| == |times| == |states| - 1
  {
    calls[i].Watch? && Watched(states[i], times[i], calls[i].wait, calls[i].delta).Done?
  }

  lemma {:induction false} Silent(states: seq<State>, times: seq<Clock>, calls: seq<Call>, i: nat, j: nat)
    requires Run(states, times, calls) && i <= j < |states| && states[i].wake == 0
    requires forall k :: i <= k < j ==> !WatchedAt(states, times, calls, k)
    ensures states[j].wake == 0
    decreases j
  {
    if i < j {
      Silent(states, times, calls, i, j - 1);
      assert !WatchedAt(states, times, calls, j - 1);
      assert states[j] == Next(states[j - 1], times[j - 1], calls[j - 1]);
    }
  }

  /** Between two wake-ups there is always a new successful watch, so each watch fires at most once. */
  lemma FiresOncePerWatch(states: seq<State>, times: seq<Clock>, calls: seq<Call>, i: nat, j: nat)
    requires Run(states, times, calls) && i < j < |calls|
    requires FiredAt(states, times, calls, i) && FiredAt(states, times, calls, j)
    ensures exists k :: i < k < j && WatchedAt(states, times, calls, k)
  {
    if forall k :: i < k < j ==> !WatchedAt(states, times, calls, k) {
      assert states[i + 1] == Next(states[i], times[i], calls[i]);
      Silent(states, times, calls, i + 1, j);
      assert false;
    }
  }

  /** A stopped session stays stopped and never fires. */
  lemma {:induction false} StoppedNeverFires(states: seq<State>, times: seq<Clock>, calls: seq<Call>, i: nat, j: nat)
    requires Run(states, times, calls) && i <= j < |calls| && states[i].stopped
    ensures states[j].stopped && !FiredAt(states, times, calls, j)
    decreases j
  {
    if i < j {
      StoppedNeverFires(states, times, calls, i, j - 1);
      assert states[j] == Next(states[j - 1], times[j - 1], calls[j - 1]);
    }
  }

  /** A deadline is never lifted, lowered or wrapped. */
  lemma {:induction false} DeadlineOnlyGrows(states: seq<State>, times: seq<Clock>, calls: seq<Call>, i: nat, j: nat)
    requires Run(states, times, calls) && i <= j < |states|
    ensures states[i].deadline <= states[j].deadline
    ensures states[i].deadline == 0 <==> states[j].deadline == 0
    decreases j
  {
    if i < j {
      DeadlineOnlyGrows(states, times, calls, i, j - 1);
      assert states[j] == Next(states[j - 1], times[j - 1], calls[j - 1]);
    }
  }

  // ----- when a request is granted and when it wakes

  /** An extension is granted exactly to a session with a deadline to come, if the new one is on the clock. */
  lemma ExtendIff(s: State, now: Clock, delta: Clock)
    ensures var o := Extended(s, now, delta);
      && (o.Done? <==> !s.stopped && now < s.deadline && 0 < delta && s.deadline + delta < MODULUS)
      && (o.Done? ==> o.state == s.(deadline := s.deadline + delta))
  {
  }

  /** A watch is granted exactly to a running session for a wait of at most five minutes, with the extension it asks
      for. */
  lemma WatchIff(s: State, now: Clock, wait: Clock, delta: Clock)
    ensures var o := Watched(s, now, wait, delta);
      && (o.Done? <==> IsRunning(s, now) && 0 < wait <= 300000 && (delta == 0 || Extended(s, now, delta).Done?))
      && (o.Done? ==>
            && o.state.watching && o.state.deadline == s.deadline + delta && o.state.generation != s.generation
            && o.state.started == s.started && !o.state.stopped)
  {
  }

  /** Nothing between steps `i` and `j` sets, takes back or uses up a watch. */
  ghost predicate Undisturbed(states: seq<State>, times: seq<Clock>, calls: seq<Call>, i: nat, j: nat)
    requires i <= j <= |calls| && |calls| == |times| == |states| - 1
  {
    forall k :: i <= k < j ==>
      && !calls[k].Unwatch? && !calls[k].Stop?
      && !WatchedAt(states, times, calls, k) && !FiredAt(states, times, calls, k)
  }

  lemma {:induction false} WatchStays(states: seq<State>, times: seq<Clock>, calls: seq<Call>, i: nat, j: nat)
    requires Run(states, times, calls) && i <= j <= |calls| && Undisturbed(states, times, calls, i, j)
    ensures states[j].wake == states[i].wake && states[j].generation == states[i].generation
    ensures states[j].watching == states[i].watching && states[j].stopped == states[i].stopped
    decreases j
  {
    if i < j {
      WatchStays(states, times, calls, i, j - 1);
      assert !WatchedAt(states, times, calls, j - 1) && !FiredAt(states, times, calls, j - 1);
      assert states[j] == Next(states[j - 1], times[j - 1], calls[j - 1]);
    }
  }

  /** A watch that nothing disturbs wakes exactly when its time has come and the deadline has not. */
  lemma WatchWakes(states: seq<State>, times: seq<Clock>, calls: seq<Call>, i: nat, j: nat)
    requires Run(states, times, calls) && i < j < |calls| && WatchedAt(states, times, calls, i)
    requires times[i] + calls[i].wait < MODULUS && Undisturbed(states, times, calls, i + 1, j)
    requires calls[j] == Fire(states[i + 1].generation)
    ensures FiredAt(states, times, calls, j) <==>
      times[i] + calls[i].wait <= times[j] && (states[j].deadline == 0 || times[j] < states[j].deadline)
  {
    assert states[i + 1] == Next(states[i], times[i], calls[i]);
    WatchStays(states, times, calls, i + 1, j);
  }

  /** Once the watch is taken back nobody watches, and nothing wakes, until a new watch is granted. */
  lemma {:induction false} NobodyWatches(states: seq<State>, times: seq<Clock>, calls: seq<Call>, i: nat, j: nat)
    requires Run(states, times, calls) && i < j < |states| && calls[i].Unwatch?
    requires forall k :: i < k < j ==> !WatchedAt(states, times, calls, k)
    ensures !states[j].watching && (j < |calls| ==> !FiredAt(states, times, calls, j))
    decreases j
  {
    assert states[j] == Next(states[j - 1], times[j - 1], calls[j - 1]);
    if i + 1 < j {
      NobodyWatches(states, times, calls, i, j - 1);
      assert !WatchedAt(states, times, calls, j - 1);
    }
  }

  /** A timer set before a watch was renewed or taken back does not wake any more. */
  lemma StaleNeverWakes(states: seq<State>, times: seq<Clock>, calls: seq<Call>, i: nat, j: nat)
    requires Run(states, times, calls) && i < j < |calls| && (WatchedAt(states, times, calls, i) || calls[i].Unwatch?)
    requires Undisturbed(states, times, calls, i + 1, j) && calls[j] == Fire(states[i].generation)
    ensures !FiredAt(states, times, calls, j)
  {
    assert states[i + 1] == Next(states[i], times[i], calls[i]);
    WatchStays(states, times, calls, i + 1, j);
  }
}
