/** The router's remote sessions: which result may be adopted, and what it may replace.

    Every request has one ticket object, named here by its operation id. `operations` and `tickets`
    are the router's two tables; both refer to the same objects, and a request in flight keeps its
    object after it left the tables.
 */
module Router {
  import opened EpochFence
  import opened Prelude

  type Epoch = e: string | e != "" witness "0"

  /** The parts of a session report that identify it and order reports of one session. */
  datatype Report = Report(epoch: Epoch, generation: nat, sequence: nat, stdout: nat, stderr: nat,
                           terminal: bool, session: nat, output: string)

  /** `publicId` is 0 until the first report with a session; `epoch` is unknown until the worker named it. */
  datatype Ticket = Ticket(target: int, epoch: Option<Epoch>, output: string, publicId: nat, latest: Option<Report>,
                           control: bool, resolved: bool)

  const FIRST_ID: nat := 281474976710656

  /** The earlier report knew more. */
  predicate Older(r: Report, previous: Report) {
    || r.generation < previous.generation || r.sequence < previous.sequence
    || (previous.terminal && !r.terminal)
    || r.stdout < previous.stdout || r.stderr < previous.stderr
  }

  /** The later report is at least the earlier one in every respect, and an end stays an end. */
  predicate Advances(previous: Report, r: Report) {
    && previous.generation <= r.generation && previous.sequence <= r.sequence
    && previous.stdout <= r.stdout && previous.stderr <= r.stderr
    && (previous.terminal ==> r.terminal)
  }

  /** The test for an older report fails exactly for the reports that advance. */
  lemma OlderIff(r: Report, previous: Report)
    ensures Older(r, previous) <==> !Advances(previous, r)
  {
  }

  datatype State = State(
    fences: map<int, Fence>,
    objects: map<string, Ticket>,
    operations: set<string>,
    tickets: map<nat, string>,
    consumed: set<nat>,
    nextId: nat)

  const EMPTY := State(map[], map[], {}, map[], {}, FIRST_ID)

  function FenceOf(fences: map<int, Fence>, target: int): Fence {
    if target in fences then fences[target] else OPEN
  }

  // ----- adopting a result

  datatype Outcome = Adopted(publicId: nat, report: Report) | RuntimeChanged | OutputReleased | NoTicket

  predicate SameEpoch(s: State, t: Ticket, r: Report) {
    t.epoch in {None, Some(r.epoch)} && Admits(FenceOf(s.fences, t.target), r.epoch)
  }

  /** What is known of the session: by its current ticket, or by the ticket in hand. */
  function Previous(s: State, t: Ticket): Option<Report> {
    if t.publicId in s.tickets && s.tickets[t.publicId] in s.objects && s.objects[s.tickets[t.publicId]].latest.Some?
    then s.objects[s.tickets[t.publicId]].latest
    else t.latest
  }

  function Kept(s: State, t: Ticket, r: Report): Report {
    if Previous(s, t).Some? && Older(r, Previous(s, t).value) then Previous(s, t).value else r
  }

  function AdoptedId(s: State, t: Ticket, r: Report): nat {
    if Kept(s, t, r).session != 0 && t.publicId == 0 then s.nextId else t.publicId
  }

  function AdoptedTicket(s: State, t: Ticket, r: Report): Ticket {
    var kept := Kept(s, t, r);
    t.(latest := Some(kept), epoch := Some(kept.epoch), output := kept.output, resolved := true,
       publicId := AdoptedId(s, t, r))
  }

  function Answer(s: State, oid: string, r: Report): Outcome {
    if oid !in s.objects then NoTicket
    else
      var t := s.objects[oid];
      if !SameEpoch(s, t, r) then RuntimeChanged
      else if oid !in s.operations || t.publicId in s.consumed then OutputReleased
      else Adopted(AdoptedId(s, t, r), Kept(s, t, r))
  }

  function AfterAdopt(s: State, oid: string, r: Report): State {
    match Answer(s, oid, r)
    case NoTicket => s
    case RuntimeChanged => s
    case OutputReleased => if s.objects[oid].control then s.(operations := s.operations - {oid}) else s
    case Adopted(pid, kept) =>
      var t := s.objects[oid];
      var stored := s.(objects := s.objects[oid := AdoptedTicket(s, t, r)]);
      if kept.session == 0 then stored
      else stored.(tickets := s.tickets[pid := oid], nextId := if t.publicId == 0 then s.nextId + 1 else s.nextId)
  }

  // ----- letting an output go

  /** The same output, and not a control that still waits for its answer. */
  predicate SameOutput(s: State, oid: string, t: Ticket) {
    && oid in s.objects
    && s.objects[oid].target == t.target && s.objects[oid].epoch == t.epoch && s.objects[oid].output == t.output
    && !(s.objects[oid].control && !s.objects[oid].resolved)
  }

  function AfterForget(s: State, oid: string): State {
    if oid !in s.operations || oid !in s.objects then s
    else
      var t := s.objects[oid];
      s.(operations := (set o | o in s.operations && !SameOutput(s, o, t)),
         tickets := s.tickets - {t.publicId},
         consumed := s.consumed + if t.publicId != 0 then {t.publicId} else {})
  }

  // ----- requests

  function AfterRegister(s: State, oid: string, target: int): State {
    if oid in s.objects then s
    else
      s.(objects := s.objects[oid := Ticket(target, None, "", 0, None, false, false)],
         operations := s.operations + {oid})
  }

  /** The worker named its epoch to a request that has none yet. */
  function AfterBind(s: State, oid: string, epoch: Epoch): State {
    if oid !in s.objects || s.objects[oid].epoch.Some? then s
    else s.(objects := s.objects[oid := s.objects[oid].(epoch := Some(epoch))])
  }

  /** A read or control of a session has a ticket of its own, under the same public id. */
  function AfterControl(s: State, oid: string, pid: nat): State {
    if oid in s.objects || pid !in s.tickets || s.tickets[pid] !in s.objects then s
    else
      s.(objects := s.objects[oid := s.objects[s.tickets[pid]].(latest := None, control := true, resolved := false)],
         operations := s.operations + {oid})
  }

  datatype Action =
    | ObserveEpoch(target: int, epoch: Epoch, sequence: nat)
    | EpochChanged(target: int, epoch: Epoch, sequence: nat)
    | Register(oid: string, target: int)
    | Bind(oid: string, epoch: Epoch)
    | Control(oid: string, pid: nat)
    | Adopt(oid: string, report: Report)
    | Drop(oid: string)
    | Forget(oid: string)

  function NextFences(fences: map<int, Fence>, a: Action): map<int, Fence> {
    match a
    case ObserveEpoch(target, epoch, sequence) =>
      fences[target := Observe(FenceOf(fences, target), epoch, sequence)]
    case EpochChanged(target, epoch, sequence) =>
      fences[target := ReportChanged(FenceOf(fences, target), epoch, sequence)]
    case Register(_, _) => fences
    case Bind(_, _) => fences
    case Control(_, _) => fences
    case Adopt(_, _) => fences
    case Drop(_) => fences
    case Forget(_) => fences
  }

  function After(s: State, a: Action): State {
    match a
    case ObserveEpoch(_, _, _) => s.(fences := NextFences(s.fences, a))
    case EpochChanged(_, _, _) => s.(fences := NextFences(s.fences, a))
    case Register(oid, target) => AfterRegister(s, oid, target)
    case Bind(oid, epoch) => AfterBind(s, oid, epoch)
    case Control(oid, pid) => AfterControl(s, oid, pid)
    case Adopt(oid, report) => AfterAdopt(s, oid, report)
    case Drop(oid) => s.(operations := s.operations - {oid})
    case Forget(oid) => AfterForget(s, oid)
  }

  // ----- what every step keeps

  /** Every object's session is in the table or was let go, and its epoch is that of its reports. */
  ghost predicate Sound(s: State, t: Ticket) {
    && t.publicId < s.nextId
    && (t.latest.Some? ==> t.epoch == Some(t.latest.value.epoch) && t.output == t.latest.value.output)
    && (t.resolved <==> t.latest.Some?) && (t.latest.None? && !t.control ==> t.output == "")
    && (t.publicId != 0 ==> t.publicId in s.tickets || t.publicId in s.consumed)
  }

  /** A public id stands for one object with a report, and was not let go. */
  ghost predicate Listed(s: State, p: nat) {
    && p in s.tickets && p != 0 && p !in s.consumed && s.tickets[p] in s.objects
    && s.objects[s.tickets[p]].publicId == p && s.objects[s.tickets[p]].latest.Some?
  }

  /** All objects of a session belong to one runtime of one target. */
  ghost predicate OneRuntime(s: State, t: Ticket) {
    t.publicId in s.tickets && s.tickets[t.publicId] in s.objects ==>
      var current := s.objects[s.tickets[t.publicId]];
      t.epoch == current.epoch && t.target == current.target
  }

  ghost predicate Inv(s: State) {
    && FIRST_ID <= s.nextId
    && s.operations <= s.objects.Keys
    && (forall p :: p in s.consumed ==> p < s.nextId)
    && (forall p :: p in s.tickets ==> Listed(s, p))
    && (forall o :: o in s.objects ==> Sound(s, s.objects[o]) && OneRuntime(s, s.objects[o]))
  }

  ghost predicate FencesInv(fences: map<int, Fence>) {
    forall t :: t in fences ==> FenceInv(fences[t])
  }

  /** The report known under a public id. */
  ghost function Known(s: State, p: nat): Report
    requires Listed(s, p)
  {
    s.objects[s.tickets[p]].latest.value
  }

  lemma ListedIn(s: State, p: nat)
    requires Inv(s) && p in s.tickets
    ensures Listed(s, p)
  {
  }

  /** Nothing known of a session goes back, and a session leaves the table only for good. */
  ghost predicate Forward(s: State, after: State) {
    && s.consumed <= after.consumed && s.nextId <= after.nextId
    && (forall p :: p in s.tickets ==>
          || p in after.consumed
          || (Listed(s, p) && Listed(after, p) && Advances(Known(s, p), Known(after, p))))
    && (forall p :: p in after.tickets && p !in s.tickets ==> s.nextId <= p)
  }

  lemma RegisterStep(s: State, oid: string, target: int)
    requires Inv(s)
    ensures Inv(AfterRegister(s, oid, target)) && Forward(s, AfterRegister(s, oid, target))
  {
    NewObject(s, oid, Ticket(target, None, "", 0, None, false, false));
  }

  lemma ControlStep(s: State, oid: string, pid: nat)
    requires Inv(s)
    ensures Inv(AfterControl(s, oid, pid)) && Forward(s, AfterControl(s, oid, pid))
  {
    if oid !in s.objects && pid in s.tickets {
      assert Listed(s, pid);
      NewObject(s, oid, s.objects[s.tickets[pid]].(latest := None, control := true, resolved := false));
    }
  }

  /** A new object changes nothing about the others. */
  lemma NewObject(s: State, oid: string, t: Ticket)
    requires Inv(s) && (oid !in s.objects ==> Sound(s, t) && OneRuntime(s, t))
    ensures oid !in s.objects ==>
      var after := s.(objects := s.objects[oid := t], operations := s.operations + {oid});
      Inv(after) && Forward(s, after)
  {
    if oid !in s.objects {
      var after := s.(objects := s.objects[oid := t], operations := s.operations + {oid});
      forall p | p in s.tickets
        ensures Listed(after, p) && Known(after, p) == Known(s, p)
      {
        assert Listed(s, p);
      }
      forall o | o in after.objects
        ensures Sound(after, after.objects[o]) && OneRuntime(after, after.objects[o])
      {
        if o != oid {
          assert Sound(s, s.objects[o]) && OneRuntime(s, s.objects[o]);
        }
      }
    }
  }

  lemma BindStep(s: State, oid: string, epoch: Epoch)
    requires Inv(s)
    ensures Inv(AfterBind(s, oid, epoch)) && Forward(s, AfterBind(s, oid, epoch))
  {
    if oid in s.objects && s.objects[oid].epoch.None? {
      var after := AfterBind(s, oid, epoch);
      assert Sound(s, s.objects[oid]) && OneRuntime(s, s.objects[oid]);
      forall p | p in s.tickets
        ensures s.tickets[p] != oid && Listed(after, p) && Known(after, p) == Known(s, p)
      {
        assert Listed(s, p);
        assert Sound(s, s.objects[s.tickets[p]]);
      }
      forall o | o in after.objects
        ensures Sound(after, after.objects[o]) && OneRuntime(after, after.objects[o])
      {
        assert Sound(s, s.objects[o]) && OneRuntime(s, s.objects[o]);
        if s.objects[o].publicId in s.tickets {
          assert Listed(s, s.objects[o].publicId);
        }
      }
    }
  }

  lemma ForgetStep(s: State, oid: string)
    requires Inv(s)
    ensures Inv(AfterForget(s, oid)) && Forward(s, AfterForget(s, oid))
  {
    if oid in s.operations {
      var after, t := AfterForget(s, oid), s.objects[oid];
      assert Sound(s, t);
      forall p | p in s.tickets && p != t.publicId
        ensures Listed(after, p) && Known(after, p) == Known(s, p)
      {
        assert Listed(s, p);
      }
      forall o | o in after.objects
        ensures Sound(after, after.objects[o]) && OneRuntime(after, after.objects[o])
      {
        assert Sound(s, s.objects[o]) && OneRuntime(s, s.objects[o]);
      }
    }
  }

  /** What is kept advances what was known, and belongs to the same runtime. */
  lemma KeptFacts(s: State, oid: string, r: Report)
    requires Inv(s) && oid in s.objects && SameEpoch(s, s.objects[oid], r)
    ensures var t := s.objects[oid];
      && (Previous(s, t).Some? ==> Advances(Previous(s, t).value, Kept(s, t, r)))
      && Kept(s, t, r).epoch == r.epoch
      && (t.publicId in s.tickets ==> t.epoch == Some(r.epoch) && Previous(s, t) == Some(Known(s, t.publicId)))
  {
    var t := s.objects[oid];
    assert Sound(s, t) && OneRuntime(s, t);
    if t.publicId in s.tickets {
      assert Listed(s, t.publicId);
      assert Sound(s, s.objects[s.tickets[t.publicId]]);
    }
  }

  /** One object takes a report; the table names it from now on, or stays as it is. */
  function Stored(s: State, oid: string, t: Ticket, named: bool, next: nat): State {
    s.(objects := s.objects[oid := t], tickets := if named then s.tickets[t.publicId := oid] else s.tickets,
       nextId := next)
  }

  /** The report and the public id that the object takes fit what is known. */
  ghost predicate Fits(s: State, oid: string, t: Ticket, named: bool, next: nat) {
    && oid in s.objects && t.latest.Some? && t.epoch == Some(t.latest.value.epoch) && t.output == t.latest.value.output
    && t.resolved
    && var was := s.objects[oid];
    && t.target == was.target && was.publicId !in s.consumed
    && t.publicId == (if named && was.publicId == 0 then s.nextId else was.publicId)
    && next == (if named && was.publicId == 0 then s.nextId + 1 else s.nextId)
    && (was.publicId in s.tickets ==>
          t.epoch == was.epoch && Listed(s, was.publicId) && Advances(Known(s, was.publicId), t.latest.value))
  }

  lemma StoredListed(s: State, oid: string, t: Ticket, named: bool, next: nat, p: nat)
    requires Inv(s) && Fits(s, oid, t, named, next)
    requires p in Stored(s, oid, t, named, next).tickets
    ensures Listed(Stored(s, oid, t, named, next), p)
    ensures p in s.tickets ==> Listed(s, p) && Advances(Known(s, p), Known(Stored(s, oid, t, named, next), p))
    ensures p in s.tickets || s.nextId <= p
  {
    assert Sound(s, s.objects[oid]);
    if p in s.tickets {
      ListedIn(s, p);
    }
  }

  lemma StoredObject(s: State, oid: string, t: Ticket, named: bool, next: nat, o: string)
    requires Inv(s) && Fits(s, oid, t, named, next) && o in s.objects
    ensures var after := Stored(s, oid, t, named, next);
      Sound(after, after.objects[o]) && OneRuntime(after, after.objects[o])
  {
    assert Sound(s, s.objects[oid]) && OneRuntime(s, s.objects[oid]);
    assert Sound(s, s.objects[o]) && OneRuntime(s, s.objects[o]);
    if s.objects[o].publicId in s.tickets {
      ListedIn(s, s.objects[o].publicId);
    }
  }

  lemma StoredStep(s: State, oid: string, t: Ticket, named: bool, next: nat)
    requires Inv(s) && Fits(s, oid, t, named, next)
    ensures Inv(Stored(s, oid, t, named, next)) && Forward(s, Stored(s, oid, t, named, next))
  {
    var after := Stored(s, oid, t, named, next);
    hide Listed, Sound, OneRuntime, Advances;
    forall p | p in after.tickets
      ensures Listed(after, p)
      ensures p in s.tickets ==> Listed(s, p) && Advances(Known(s, p), Known(after, p))
      ensures p in s.tickets || s.nextId <= p
    {
      StoredListed(s, oid, t, named, next, p);
    }
    forall o | o in after.objects
      ensures Sound(after, after.objects[o]) && OneRuntime(after, after.objects[o])
    {
      StoredObject(s, oid, t, named, next, o);
    }
  }

  lemma AdoptedStep(s: State, oid: string, r: Report)
    requires Inv(s) && Answer(s, oid, r).Adopted?
    ensures Inv(AfterAdopt(s, oid, r)) && Forward(s, AfterAdopt(s, oid, r))
  {
    var t := s.objects[oid];
    var named := Kept(s, t, r).session != 0;
    var next := if named && t.publicId == 0 then s.nextId + 1 else s.nextId;
    KeptFacts(s, oid, r);
    assert t.publicId in s.tickets ==> Listed(s, t.publicId);
    hide Inv, Forward, Listed, Advances, Previous, Known, FenceOf, Admits;
    assert AfterAdopt(s, oid, r) == Stored(s, oid, AdoptedTicket(s, t, r), named, next);
    StoredStep(s, oid, AdoptedTicket(s, t, r), named, next);
  }

  lemma AdoptStep(s: State, oid: string, r: Report)
    requires Inv(s)
    ensures Inv(AfterAdopt(s, oid, r)) && Forward(s, AfterAdopt(s, oid, r))
  {
    if Answer(s, oid, r).Adopted? {
      AdoptedStep(s, oid, r);
    } else {
      Shrunk(s, AfterAdopt(s, oid, r));
    }
  }

  /** Fewer operations or other fences leave the sessions alone. */
  lemma Shrunk(s: State, after: State)
    requires Inv(s) && after.operations <= s.operations
    requires after == s.(operations := after.operations, fences := after.fences)
    ensures Inv(after) && Forward(s, after)
  {
    forall o | o in s.objects
      ensures Sound(after, s.objects[o]) && OneRuntime(after, s.objects[o])
    {
      assert Sound(s, s.objects[o]) && OneRuntime(s, s.objects[o]);
    }
    forall p | p in s.tickets
      ensures Listed(after, p) && Known(after, p) == Known(s, p)
    {
      assert Listed(s, p);
    }
  }

  lemma Step(s: State, a: Action)
    requires Inv(s)
    ensures Inv(After(s, a)) && Forward(s, After(s, a))
  {
    hide Inv, Forward;
    match a
    case ObserveEpoch(_, _, _) => Shrunk(s, After(s, a));
    case EpochChanged(_, _, _) => Shrunk(s, After(s, a));
    case Register(oid, target) => RegisterStep(s, oid, target);
    case Bind(oid, epoch) => BindStep(s, oid, epoch);
    case Control(oid, pid) => ControlStep(s, oid, pid);
    case Adopt(oid, report) => AdoptStep(s, oid, report);
    case Drop(oid) => Shrunk(s, After(s, a));
    case Forget(oid) => ForgetStep(s, oid);
  }

  lemma FencesStep(s: State, a: Action, target: int)
    requires FencesInv(s.fences)
    ensures FencesInv(After(s, a).fences)
    ensures FenceOf(s.fences, target).retired <= FenceOf(After(s, a).fences, target).retired
  {
    assert After(s, a).fences == NextFences(s.fences, a);
  }

  // ----- over whole runs

  ghost predicate Run(states: seq<State>, actions: seq<Action>) {
    && states != [] && states[0] == EMPTY && |actions| == |states| - 1
    && forall i :: 0 <= i < |actions| ==> states[i + 1] == After(states[i], actions[i])
  }

  lemma {:induction false} Always(states: seq<State>, actions: seq<Action>, i: nat)
    requires Run(states, actions) && i < |states|
    ensures Inv(states[i]) && FencesInv(states[i].fences)
    decreases i
  {
    if i > 0 {
      Always(states, actions, i - 1);
      hide Inv, FencesInv, After;
      Step(states[i - 1], actions[i - 1]);
      FencesStep(states[i - 1], actions[i - 1], 0);
    }
  }

  lemma AdvancesTransitive(a: Report, b: Report, c: Report)
    requires Advances(a, b) && Advances(b, c)
    ensures Advances(a, c)
  {
  }

  lemma ForwardTransitive(s: State, t: State, u: State)
    requires Forward(s, t) && Forward(t, u) && Inv(s) && Inv(t)
    ensures Forward(s, u)
  {
    forall p | p in s.tickets && p !in u.consumed
      ensures Listed(s, p) && Listed(u, p) && Advances(Known(s, p), Known(u, p))
    {
      assert p !in t.consumed;
      AdvancesTransitive(Known(s, p), Known(t, p), Known(u, p));
    }
  }

  lemma {:induction false} ForwardAlways(states: seq<State>, actions: seq<Action>, i: nat, j: nat)
    requires Run(states, actions) && i <= j < |states|
    ensures Forward(states[i], states[j])
    decreases j
  {
    hide Inv, Forward, After, FencesInv;
    Always(states, actions, i);
    if i == j {
      Shrunk(states[i], states[i]);
    } else {
      ForwardAlways(states, actions, i, j - 1);
      Always(states, actions, j - 1);
      Step(states[j - 1], actions[j - 1]);
      ForwardTransitive(states[i], states[j - 1], states[j]);
    }
  }

  /** When an output is let go, exactly the requests whose last report names that output of that runtime leave with it;
      a control that still waits for its answer stays. */
  lemma ForgetExactly(s: State, oid: string, r: Report, o: string)
    requires Inv(s) && oid in s.operations && oid in s.objects && s.objects[oid].latest == Some(r) && o in s.operations
    ensures o in s.objects
    ensures var t := s.objects[o];
      o !in AfterForget(s, oid).operations <==>
        && t.target == s.objects[oid].target
        && (if t.latest.Some? then t.latest.value.epoch == r.epoch && t.latest.value.output == r.output
            else !t.control && t.epoch == Some(r.epoch) && r.output == "")
  {
    assert Sound(s, s.objects[oid]) && Sound(s, s.objects[o]);
  }

  /** A control whose answer comes after its session was let go leaves at once; any other request is not touched. */
  lemma LateAnswer(s: State, oid: string, r: Report, o: string)
    requires Answer(s, oid, r) == OutputReleased
    ensures o in AfterAdopt(s, oid, r).operations <==> o in s.operations && !(o == oid && s.objects[oid].control)
    ensures AfterAdopt(s, oid, r).tickets == s.tickets && AfterAdopt(s, oid, r).objects == s.objects
  {
  }

  /** A public id that was let go is never in the table again. */
  lemma ConsumedForGood(states: seq<State>, actions: seq<Action>, i: nat, j: nat, p: nat)
    requires Run(states, actions) && i <= j < |states| && p in states[i].consumed
    ensures p in states[j].consumed && p !in states[j].tickets
  {
    ForwardAlways(states, actions, i, j);
    Always(states, actions, j);
    assert p in states[j].tickets ==> Listed(states[j], p);
  }

  /** What is known under one public id never goes back. */
  lemma ReportsAdvance(states: seq<State>, actions: seq<Action>, i: nat, j: nat, p: nat)
    requires Run(states, actions) && i <= j < |states| && p in states[i].tickets && p in states[j].tickets
    ensures Listed(states[i], p) && Listed(states[j], p)
    ensures var earlier, later := Known(states[i], p), Known(states[j], p);
      && earlier.generation <= later.generation && earlier.sequence <= later.sequence
      && earlier.stdout <= later.stdout && earlier.stderr <= later.stderr
      && (earlier.terminal ==> later.terminal)
  {
    ForwardAlways(states, actions, i, j);
    Always(states, actions, j);
    assert Listed(states[j], p);
  }

  /** Step `i` answered a request with this report under this public id. */
  ghost predicate Answered(states: seq<State>, actions: seq<Action>, i: nat, p: nat, r: Report)
    requires i < |actions| < |states|
  {
    actions[i].Adopt? && Answer(states[i], actions[i].oid, actions[i].report) == Adopted(p, r)
  }

  /** An answer under a listed id advances what was known. */
  lemma AnswerIsKnown(s: State, oid: string, report: Report, p: nat, r: Report)
    requires Inv(s) && Answer(s, oid, report) == Adopted(p, r) && p != 0
    ensures p in s.tickets ==> Listed(s, p) && Advances(Known(s, p), r)
    ensures p !in s.consumed && (r.session == 0 ==> p in s.tickets)
  {
    KeptFacts(s, oid, report);
    assert Sound(s, s.objects[oid]);
  }

  /** The router still knows what it answered: the answer names its session, or came through the ticket that
      stands for the session, or says no more than was known. */
  ghost predicate Remembered(s: State, oid: string, p: nat, r: Report) {
    || r.session != 0
    || (p in s.tickets && s.tickets[p] == oid)
    || (Listed(s, p) && Advances(r, Known(s, p)))
  }

  lemma RememberedIsKnown(s: State, oid: string, report: Report, p: nat, r: Report)
    requires Inv(s) && Answer(s, oid, report) == Adopted(p, r) && p != 0 && Remembered(s, oid, p, r)
    requires Inv(AfterAdopt(s, oid, report))
    ensures Listed(AfterAdopt(s, oid, report), p) && Advances(r, Known(AfterAdopt(s, oid, report), p))
  {
    AnswerIsKnown(s, oid, report, p, r);
    ListedIn(AfterAdopt(s, oid, report), p);
  }

  /** Every later answer under a public id advances an earlier one that is remembered, whichever of the session's
      tickets they come through... */
  lemma AnswersAdvance(states: seq<State>, actions: seq<Action>, i: nat, j: nat, p: nat, r: Report, later: Report)
    requires Run(states, actions) && i < j < |actions| && p != 0
    requires Answered(states, actions, i, p, r) && Answered(states, actions, j, p, later)
    requires Remembered(states[i], actions[i].oid, p, r)
    ensures r.generation <= later.generation && r.sequence <= later.sequence
    ensures r.stdout <= later.stdout && r.stderr <= later.stderr
    ensures r.terminal ==> later.terminal
  {
    Always(states, actions, i);
    Always(states, actions, i + 1);
    Always(states, actions, j);
    assert states[i + 1] == After(states[i], actions[i]);
    assert Answer(states[j], actions[j].oid, actions[j].report) == Adopted(p, later);
    hide Inv, After, Run, FencesInv, Answer, AfterAdopt, Remembered, Answered;
    RememberedIsKnown(states[i], actions[i].oid, actions[i].report, p, r);
    AnswerIsKnown(states[j], actions[j].oid, actions[j].report, p, later);
    ForwardAlways(states, actions, i + 1, j);
    AdvancesTransitive(r, Known(states[i + 1], p), Known(states[j], p));
    AdvancesTransitive(r, Known(states[j], p), later);
  }

  /** ... and one that is not remembered is always followed by an older one: a control that hears what is known. */
  lemma ForgottenGoesBack(s: State, oid: string, report: Report, p: nat, r: Report, next: string)
    requires Inv(s) && Answer(s, oid, report) == Adopted(p, r) && p != 0 && !Remembered(s, oid, p, r)
    requires next !in s.objects
    ensures Listed(s, p) && Older(Known(s, p), r)
    ensures var after := AfterControl(AfterAdopt(s, oid, report), next, p);
      Answer(after, next, Known(s, p)) == Adopted(p, Known(s, p))
  {
    AnswerIsKnown(s, oid, report, p, r);
    KeptFacts(s, oid, report);
    var known := s.tickets[p];
    assert Sound(s, s.objects[known]) && OneRuntime(s, s.objects[oid]);
    var mid := AfterAdopt(s, oid, report);
    assert mid.tickets == s.tickets && mid.objects[known] == s.objects[known] && next !in mid.objects;
    var after := AfterControl(mid, next, p);
    assert after.objects[known] == s.objects[known] && after.objects[next].publicId == p;
    hide Inv, Older;
  }

  lemma Extended(states: seq<State>, actions: seq<Action>, a: Action) returns (more: seq<State>, acts: seq<Action>)
    requires Run(states, actions)
    ensures Run(more, acts) && more == states + [After(states[|states| - 1], a)] && acts == actions + [a]
  {
    hide After;
    more, acts := states + [After(states[|states| - 1], a)], actions + [a];
    forall i | 0 <= i < |acts|
      ensures more[i + 1] == After(more[i], acts[i])
    {
    }
  }

  /** A session with one report, and a control of it. */
  lemma Controlled(known: Report) returns (states: seq<State>, actions: seq<Action>)
    requires known.session != 0
    ensures Run(states, actions) && |actions| == 3
    ensures var owner := Ticket(1, Some(known.epoch), known.output, FIRST_ID, Some(known), false, true);
      states[3] == State(map[], map["o" := owner, "c" := owner.(latest := None, control := true, resolved := false)],
                         {"o", "c"}, map[FIRST_ID := "o"], {}, FIRST_ID + 1)
  {
    states, actions := Extended([EMPTY], [], Register("o", 1));
    var owner := Ticket(1, Some(known.epoch), known.output, FIRST_ID, Some(known), false, true);
    assert states[1] == EMPTY.(objects := map["o" := Ticket(1, None, "", 0, None, false, false)], operations := {"o"});
    states, actions := Extended(states, actions, Adopt("o", known));
    assert states[2] == State(map[], map["o" := owner], {"o"}, map[FIRST_ID := "o"], {}, FIRST_ID + 1);
    states, actions := Extended(states, actions, Control("c", FIRST_ID));
    assert states[3].operations == {"o", "c"};
  }

  /** A run in which that happens: the control hears a report without a session. */
  lemma UnnamedMayGoBack() returns (states: seq<State>, actions: seq<Action>, first: Report)
    ensures Run(states, actions) && |actions| == 4 && Answered(states, actions, 3, FIRST_ID, first)
    ensures !Remembered(states[3], "c", FIRST_ID, first) && actions[3].oid == "c"
  {
    var known := Report("e", 0, 1, 0, 0, false, 7, "");
    first := Report("e", 0, 5, 0, 0, false, 0, "");
    states, actions := Controlled(known);
    var s := states[3];
    states, actions := Extended(states, actions, Adopt("c", first));
    assert Answer(s, "c", first) == Adopted(FIRST_ID, first);
  }

  lemma {:induction false} RetiredAlways(states: seq<State>, actions: seq<Action>, i: nat, j: nat, target: int)
    requires Run(states, actions) && i <= j < |states|
    ensures FenceOf(states[i].fences, target).retired <= FenceOf(states[j].fences, target).retired
    decreases j
  {
    if i < j {
      RetiredAlways(states, actions, i, j - 1, target);
      Always(states, actions, j - 1);
      hide After, FencesInv, FenceOf;
      FencesStep(states[j - 1], actions[j - 1], target);
    }
  }

  /** Once an epoch of a target is retired, no answer for that target carries it, not even a kept one. */
  lemma RetiredNeverAnswers(states: seq<State>, actions: seq<Action>, i: nat, j: nat, p: nat, r: Report)
    requires Run(states, actions) && i <= j < |actions| && Answered(states, actions, j, p, r)
    ensures actions[j].oid in states[j].objects
    ensures r.epoch !in FenceOf(states[i].fences, states[j].objects[actions[j].oid].target).retired
  {
    Always(states, actions, j);
    var oid := actions[j].oid;
    KeptFacts(states[j], oid, actions[j].report);
    RetiredAlways(states, actions, i, j, states[j].objects[oid].target);
  }

  // ----- the object

  class ShellRouter {
    var fences: map<int, Fence>
    var objects: map<string, Ticket>
    var operations: set<string>
    var tickets: map<nat, string>
    var consumed: set<nat>
    var nextId: nat

    ghost function View(): State
      reads this
    {
      State(fences, objects, operations, tickets, consumed, nextId)
    }

    ghost predicate Valid()
      reads this
    {
      Inv(View()) && FencesInv(fences)
    }

    constructor ()
      ensures Valid() && View() == EMPTY
    {
      fences, objects, operations, tickets, consumed, nextId := map[], map[], {}, map[], {}, FIRST_ID;
    }

    method ObserveWorkerEpoch(target: int, epoch: Epoch, sequence: nat)
      requires Valid()
      modifies this`fences
      ensures Valid() && View() == After(old(View()), ObserveEpoch(target, epoch, sequence))
      ensures epoch in old(FenceOf(fences, target)).retired ==> !Admits(FenceOf(fences, target), epoch)
      ensures forall e :: Admits(old(FenceOf(fences, target)), e) && old(FenceOf(fences, target)).observed.Some? ==>
        Admits(FenceOf(fences, target), e) || e in FenceOf(fences, target).retired
    {
      Step(View(), ObserveEpoch(target, epoch, sequence));
      FencesStep(View(), ObserveEpoch(target, epoch, sequence), target);
      hide Inv;
      fences := fences[target := Observe(FenceOf(fences, target), epoch, sequence)];
    }

    method RuntimeReportedChanged(target: int, epoch: Epoch, sequence: nat)
      requires Valid()
      modifies this`fences
      ensures Valid() && FencesAgree(fences, After(old(View()), EpochChanged(target, epoch, sequence)).fences)
      ensures Concerns(old(FenceOf(fences, target)), epoch) ==> !Admits(FenceOf(fences, target), epoch)
    {
      Step(View(), EpochChanged(target, epoch, sequence));
      FencesStep(View(), EpochChanged(target, epoch, sequence), target);
      hide Inv;
      if Concerns(FenceOf(fences, target), epoch) {
        fences := fences[target := ReportChanged(FenceOf(fences, target), epoch, sequence)];
      }
    }

    /** A request is owned from before it is sent. */
    method Submit(oid: string, target: int)
      requires Valid() && oid !in objects
      modifies this`objects, this`operations
      ensures Valid() && View() == After(old(View()), Register(oid, target))
    {
      Step(View(), Register(oid, target));
      hide Inv;
      objects := objects[oid := Ticket(target, None, "", 0, None, false, false)];
      operations := operations + {oid};
    }

    method BindEpoch(oid: string, epoch: Epoch)
      requires Valid() && oid in objects && objects[oid].epoch.None?
      modifies this`objects
      ensures Valid() && View() == After(old(View()), Bind(oid, epoch))
    {
      Step(View(), Bind(oid, epoch));
      hide Inv;
      objects := objects[oid := objects[oid].(epoch := Some(epoch))];
    }

    /** A read or control of a session; unknown public ids are rejected. */
    method BeginControl(oid: string, pid: nat) returns (known: bool)
      requires Valid() && oid !in objects
      modifies this`objects, this`operations
      ensures Valid() && View() == After(old(View()), Control(oid, pid))
      ensures known <==> pid in tickets
      ensures known ==> oid in operations && objects[oid].publicId == pid && objects[oid].latest.None?
    {
      Step(View(), Control(oid, pid));
      known := pid in tickets;
      if known {
        ListedIn(View(), pid);
        hide Inv;
        objects := objects[oid := objects[tickets[pid]].(latest := None, control := true, resolved := false)];
        operations := operations + {oid};
      }
    }

    /** The report is taken into the ticket, and the ticket into the table. */
    method Keep(oid: string, kept: Report) returns (pid: nat)
      requires oid in objects
      modifies this`objects, this`tickets, this`nextId
      ensures pid == if kept.session != 0 && old(objects[oid]).publicId == 0 then old(nextId) else old(objects[oid]).publicId
      ensures View() == Stored(old(View()), oid,
        old(objects[oid]).(latest := Some(kept), epoch := Some(kept.epoch), output := kept.output, resolved := true,
                           publicId := pid),
        kept.session != 0,
        if kept.session != 0 && old(objects[oid]).publicId == 0 then old(nextId) + 1 else old(nextId))
    {
      var ticket := objects[oid].(latest := Some(kept), epoch := Some(kept.epoch), output := kept.output, resolved := true);
      if kept.session != 0 {
        if ticket.publicId == 0 {
          ticket := ticket.(publicId := nextId);
          nextId := nextId + 1;
        }
        tickets := tickets[ticket.publicId := oid];
      }
      objects := objects[oid := ticket];
      pid := ticket.publicId;
    }

    /** The result, or what is known if the result is behind it, is stored and answered. */
    method Take(oid: string, result: Report) returns (outcome: Outcome)
      requires oid in objects && SameEpoch(View(), objects[oid], result)
      requires oid in operations && objects[oid].publicId !in consumed
      modifies this`objects, this`operations, this`tickets, this`nextId
      ensures View() == AfterAdopt(old(View()), oid, result) && outcome == Answer(old(View()), oid, result)
    {
      hide Advances, Older, SameEpoch;
      var ticket := objects[oid];
      var current := if ticket.publicId in tickets && tickets[ticket.publicId] in objects
                     then objects[tickets[ticket.publicId]].latest else None;
      var previous := if current.Some? then current else ticket.latest;
      var kept := if previous.Some? && Older(result, previous.value) then previous.value else result;
      assert kept == Kept(View(), ticket, result);
      hide Kept;
      var pid := Keep(oid, kept);
      outcome := Adopted(pid, kept);
    }

    /** A result is answered for an owned operation of a session nobody let go, in the right epoch; what is
        answered is never behind what was known of the session. */
    method AdoptResult(oid: string, result: Report) returns (outcome: Outcome)
      requires Valid() && oid in objects
      modifies this`objects, this`operations, this`tickets, this`nextId
      ensures Valid() && View() == After(old(View()), Adopt(oid, result)) && outcome == Answer(old(View()), oid, result)
      ensures outcome.Adopted? && outcome.publicId in old(tickets) ==>
        Listed(old(View()), outcome.publicId) && Advances(old(Known(View(), outcome.publicId)), outcome.report)
      ensures outcome.Adopted? ==>
        var known := KnownTo(old(View()), oid);
        outcome.report == if known.Some? && !Advances(known.value, result) then known.value else result
    {
      hide Inv, Listed, Advances, Older, Admits, FenceOf, FencesInv, Known;
      var ticket := objects[oid];
      if !(ticket.epoch in {None, Some(result.epoch)} && Admits(FenceOf(fences, ticket.target), result.epoch)) {
        outcome := RuntimeChanged;
      } else if oid !in operations || ticket.publicId in consumed {
        if ticket.control {
          operations := operations - {oid};
        }
        outcome := OutputReleased;
      } else {
        outcome := Take(oid, result);
      }
      assert View() == AfterAdopt(old(View()), oid, result) && outcome == Answer(old(View()), oid, result);
      hide *;
      Step(old(View()), Adopt(oid, result));
      KnownFacts(old(View()), oid, result);
      if outcome.Adopted? {
        NewestIsAnswered(old(View()), oid, result);
      }
    }

    method DropOperation(oid: string)
      requires Valid()
      modifies this`operations
      ensures Valid() && View() == After(old(View()), Drop(oid))
    {
      Step(View(), Drop(oid));
      hide Inv;
      operations := operations - {oid};
    }

    /** The output was delivered and let go: every settled request for it leaves, its public id for good. */
    method ForgetOutput(oid: string)
      requires Valid()
      modifies this`tickets, this`operations, this`consumed
      ensures Valid() && View() == After(old(View()), Forget(oid))
      ensures oid in old(operations) ==> objects[oid].publicId !in tickets
    {
      Step(View(), Forget(oid));
      if oid !in operations {
        return;
      }
      assert oid in objects;
      hide Inv;
      var ticket := objects[oid];
      var todo := operations;
      while todo != {}
        invariant todo <= old(operations) && operations <= old(operations)
        invariant unchanged(`tickets) && unchanged(`consumed)
        invariant forall o :: o in old(operations) ==>
          (o in operations <==> o in todo || !SameOutput(old(View()), o, ticket))
        decreases |todo|
      {
        var op :| op in todo;
        todo := todo - {op};
        if op in objects && objects[op].target == ticket.target && objects[op].epoch == ticket.epoch
           && objects[op].output == ticket.output && !(objects[op].control && !objects[op].resolved) {
          operations := operations - {op};
        }
      }
      assert operations == set o | o in old(operations) && !SameOutput(old(View()), o, ticket);
      tickets := tickets - {ticket.publicId};
      consumed := consumed + if ticket.publicId != 0 then {ticket.publicId} else {};
    }
  }

  /** The same fence for every target, whether or not it is in the table yet. */
  ghost predicate FencesAgree(a: map<int, Fence>, b: map<int, Fence>) {
    forall t :: FenceOf(a, t) == FenceOf(b, t)
  }

  lemma KnownFacts(s: State, oid: string, r: Report)
    requires Inv(s)
    ensures var outcome := Answer(s, oid, r);
      outcome.Adopted? && outcome.publicId in s.tickets ==>
        Listed(s, outcome.publicId) && Advances(Known(s, outcome.publicId), outcome.report)
  {
    var outcome := Answer(s, oid, r);
    if outcome.Adopted? && outcome.publicId in s.tickets {
      ListedIn(s, outcome.publicId);
      AnswerIsKnown(s, oid, r, outcome.publicId, outcome.report);
    }
  }

  /** The report that stands for the request's session, or that the request itself got last. */
  ghost function KnownTo(s: State, oid: string): Option<Report>
    requires Inv(s) && oid in s.objects
  {
    var p := s.objects[oid].publicId;
    if p in s.tickets then ListedIn(s, p); Some(Known(s, p)) else s.objects[oid].latest
  }

  /** The arriving report is answered exactly when it is at least what is known, otherwise what is known is. */
  lemma NewestIsAnswered(s: State, oid: string, r: Report)
    requires Inv(s) && oid in s.objects && Answer(s, oid, r).Adopted?
    ensures Answer(s, oid, r).report ==
      if KnownTo(s, oid).Some? && !Advances(KnownTo(s, oid).value, r) then KnownTo(s, oid).value else r
  {
    var t := s.objects[oid];
    KeptFacts(s, oid, r);
    if Previous(s, t).Some? {
      OlderIff(r, Previous(s, t).value);
    }
  }
}
