/** The object that owns a target's remote operations; each method is one call of the specification. */
module ExecutionGate {
  import opened Lifecycle
  import opened OperationGate
  import opened OperationLaws
  import opened Prelude

  datatype ClaimOutcome = Created | Owned | Settled | OtherRuntime | OtherRequest

  function ClaimAnswer(g: Gate, oid: string, epoch: Epoch, kind: Kind, session: nat): ClaimOutcome {
    match ViewOf(g, oid)
    case Unseen => Created
    case Tomb(_) => Settled
    case Live(item) =>
      if item.epoch != epoch then OtherRuntime
      else if item.kind != kind || (kind == Control && item.session != session) then OtherRequest
      else Owned
  }

  /** A claim is new exactly for an id nobody claimed; it is the caller's own exactly when the live record is of the
      same runtime and the same request. */
  lemma ClaimAnswerIs(g: Gate, oid: string, epoch: Epoch, kind: Kind, session: nat)
    ensures var answer := ClaimAnswer(g, oid, epoch, kind, session);
      && (answer == Created <==> oid !in g.operations && oid !in g.retired)
      && (answer == Settled <==> oid !in g.operations && oid in g.retired)
      && (oid in g.operations ==>
            var item := g.operations[oid];
            && (answer == Owned <==> item.epoch == epoch && item.kind == kind && (kind == Control ==> item.session == session))
            && (answer == OtherRuntime <==> item.epoch != epoch))
  {
  }

  class ExecutionGate {
    var operations: map<string, Item>
    var retired: map<string, Epoch>
    var current: Epoch

    function State(): Gate
      reads this
    {
      Gate(operations, retired, current)
    }

    ghost predicate Valid()
      reads this
    {
      GateInv(State())
    }

    constructor ()
      ensures Valid() && State() == EMPTY_GATE
    {
      operations, retired, current := map[], map[], None;
    }

    /** Nothing but one operation changes. */
    twostate predicate OnlyChanges(oid: string)
      reads this
    {
      && Disjoint(State()) && current == old(current)
      && forall o :: o != oid ==> ViewOf(State(), o) == old(ViewOf(State(), o))
    }

    /** One event for one operation; an id without a record is left alone. */
    method AdvanceOne(oid: string, e: Event)
      requires Disjoint(State())
      modifies this
      ensures OnlyChanges(oid)
      ensures ViewOf(State(), oid) ==
        if oid in old(operations) then Advance(old(operations[oid]), e) else old(ViewOf(State(), oid))
    {
      if oid !in operations {
        return;
      }
      var item := operations[oid];
      var phase := NextPhase(item.kind, item.hold, PhaseOf(item), e);
      hide NextPhase, PhaseOf, Store;
      if phase == Retired {
        retired := retired[oid := item.epoch];
        operations := operations - {oid};
      } else {
        operations := operations[oid := Store(item, phase)];
      }
    }

    method ConnectOne(oid: string, epoch: Epoch)
      requires Disjoint(State()) && oid in operations
      modifies this
      ensures OnlyChanges(oid) && ViewOf(State(), oid) == AfterConnect(old(operations[oid]), epoch)
    {
      if operations[oid].epoch.Some? && operations[oid].epoch != epoch {
        AdvanceOne(oid, EpochChanged);
      }
    }

    method Connect(epoch: Epoch)
      requires Valid()
      modifies this
      ensures Valid() && Step(old(State()), Connected(epoch), State())
    {
      ghost var g, c := State(), Connected(epoch);
      assert Disjoint(g);
      hide AfterConnect, GateInv, Step, Partly, NextView;
      PartlyStart(g, c);
      current := epoch;
      var todo := operations.Keys;
      while todo != {}
        invariant Partly(g, c, State(), todo)
        decreases |todo|
      {
        var oid :| oid in todo;
        ghost var now := State();
        PartlyAt(g, c, now, todo, oid);
        ConnectOne(oid, epoch);
        PartlyStep(g, c, now, todo, State(), oid);
        todo := todo - {oid};
      }
      PartlyDone(g, c, State());
      StepKeeps(g, c, State());
    }

    method ReleaseOne(oid: string, output: string, epoch: Epoch)
      requires Disjoint(State()) && oid in operations
      modifies this
      ensures OnlyChanges(oid)
      ensures ViewOf(State(), oid) == AfterRelease(old(operations[oid]), output, epoch, current)
    {
      if output != "" && operations[oid].output == output && SameEpoch(operations[oid], epoch, current) {
        AdvanceOne(oid, ReleaseOutput);
      }
    }

    method ReleaseAll(output: string, epoch: Epoch)
      requires Valid()
      modifies this
      ensures Valid() && Step(old(State()), Release(output, epoch), State())
    {
      ghost var g, c := State(), Release(output, epoch);
      assert Disjoint(g);
      hide AfterRelease, GateInv, Step, Partly, NextView;
      PartlyStart(g, c);
      var todo := operations.Keys;
      while todo != {}
        invariant Partly(g, c, State(), todo)
        decreases |todo|
      {
        var oid :| oid in todo;
        ghost var now := State();
        PartlyAt(g, c, now, todo, oid);
        ReleaseOne(oid, output, epoch);
        PartlyStep(g, c, now, todo, State(), oid);
        todo := todo - {oid};
      }
      PartlyDone(g, c, State());
      StepKeeps(g, c, State());
    }

    /** One live operation under a report. */
    method ObserveOne(oid: string, r: Report, epoch: Epoch, about: string)
      requires Disjoint(State()) && oid in operations && !WrongRuntime(r, epoch)
      modifies this
      ensures OnlyChanges(oid)
      ensures ViewOf(State(), oid) == Observed(oid, old(operations[oid]), r, epoch, about, current)
    {
      var item := operations[oid];
      var relation := if oid == about then Exact
                      else if r.session != 0 && item.session == r.session then SameSession else Unrelated;
      if !Permitted(item.kind, PhaseOf(item), relation, SameEpoch(item, epoch, current)) {
        return;
      }
      if item.output != "" && r.output != "" && item.output != r.output {
        return;
      }
      if item.session != 0 && r.session != 0 && item.session != r.session {
        return;
      }
      hide Advance, PhaseOf, NextPhase;
      operations := operations[oid := WithEvidence(item, r)];
      AdvanceOne(oid, Reported(r));
    }

    /** A report is shown to every operation. */
    method ObserveAll(r: Report, epoch: Epoch, about: string)
      requires Disjoint(State())
      modifies this
      ensures Disjoint(State()) && current == old(current)
      ensures forall o ::
        ViewOf(State(), o) ==
          if o in old(operations) then Observed(o, old(operations[o]), r, epoch, about, current)
          else old(ViewOf(State(), o))
    {
      if WrongRuntime(r, epoch) {
        return;
      }
      ghost var g := State();
      var todo := operations.Keys;
      while todo != {}
        invariant Disjoint(State()) && current == g.current && todo <= operations.Keys && todo <= g.operations.Keys
        invariant forall o :: o in todo ==> ViewOf(State(), o) == ViewOf(g, o)
        invariant forall o ::
          o !in todo ==>
            ViewOf(State(), o) ==
            if o in g.operations then Observed(o, g.operations[o], r, epoch, about, g.current) else ViewOf(g, o)
        decreases |todo|
      {
        hide Observed, WrongRuntime;
        var oid :| oid in todo;
        todo := todo - {oid};
        assert ViewOf(State(), oid) == Live(g.operations[oid]);
        ObserveOne(oid, r, epoch, about);
      }
    }

    method TakeSnapshot(r: Report, epoch: Epoch)
      requires Valid()
      modifies this
      ensures Valid() && Step(old(State()), Snapshot(r, epoch), State())
      ensures forall o :: o in old(operations) ==>
        ViewOf(State(), o) == AfterCall(old(State()), Snapshot(r, epoch), o, old(operations)[o])
    {
      assert Disjoint(State()) && GateInv(State());
      hide Observed, GateInv, Step, AfterCall;
      ObserveAll(r, epoch, r.executionId);
      SnapshotStep(old(State()), r, epoch, State());
      StepKeeps(old(State()), Snapshot(r, epoch), State());
      AllLead(old(State()), Snapshot(r, epoch), State());
    }

    method Create(oid: string, epoch: Epoch, hold: bool, kind: Kind, session: nat)
      requires Disjoint(State()) && ViewOf(State(), oid).Unseen?
      modifies this
      ensures OnlyChanges(oid) && ViewOf(State(), oid) == ClaimedItem(epoch, hold, kind, session)
    {
      ClaimedFacts(epoch, hold, kind, session);
      hide Advance, PhaseOf, ItemOk;
      operations := operations[oid := NewItem(epoch, hold, kind)];
      AdvanceOne(oid, if Signable(kind) then Prepare else Claimed);
      if kind == Control {
        ghost var mid := State();
        operations := operations[oid := operations[oid].(session := session)];
        assert forall o :: o != oid ==> ViewOf(State(), o) == ViewOf(mid, o);
        assert Disjoint(State());
        assert ViewOf(State(), oid) == ClaimedItem(epoch, hold, kind, session);
      }
    }

    /** A repeated claim answers that the operation is owned or why it may not be claimed. */
    method ClaimOperation(oid: string, epoch: Epoch, hold: bool, kind: Kind, session: nat) returns (outcome: ClaimOutcome)
      requires Valid()
      modifies this
      ensures outcome == ClaimAnswer(old(State()), oid, epoch, kind, session)
      ensures Valid() && Step(old(State()), Claim(oid, epoch, hold, kind, session), State())
    {
      ghost var g := State();
      assert Disjoint(g);
      hide ClaimedItem, GateInv, NextLive;
      if oid in retired {
        outcome := Settled;
      } else if oid in operations {
        var item := operations[oid];
        outcome := if item.epoch != epoch then OtherRuntime
                   else if item.kind != kind || (kind == Control && item.session != session) then OtherRequest
                   else Owned;
      } else {
        Create(oid, epoch, hold, kind, session);
        outcome := Created;
      }
      ClaimStep(g, oid, epoch, hold, kind, session, State());
      hide Step;
      StepKeeps(g, Claim(oid, epoch, hold, kind, session), State());
    }

    /** The epoch is written once and only while it is current. */
    method TryBind(oid: string, epoch: Epoch) returns (refused: bool)
      requires Disjoint(State()) && oid in operations
      modifies this
      ensures OnlyChanges(oid) && refused == Bound(old(operations[oid]), epoch, current).None?
      ensures ViewOf(State(), oid) ==
        Live(if refused then old(operations[oid]) else Bound(old(operations[oid]), epoch, current).value)
    {
      var item := operations[oid];
      refused := (item.epoch.Some? && item.epoch != epoch) || (current.Some? && current != epoch);
      if !refused {
        operations := operations[oid := item.(epoch := epoch)];
      }
    }

    method BindEpoch(oid: string, epoch: Epoch) returns (refused: bool)
      requires Valid()
      modifies this
      ensures refused == (oid in old(operations) && Bound(old(operations[oid]), epoch, current).None?)
      ensures Valid() && Step(old(State()), Bind(oid, epoch), State())
    {
      refused := false;
      assert Disjoint(State());
      hide GateInv;
      if oid in operations {
        refused := TryBind(oid, epoch);
      }
      SingleStep(old(State()), Bind(oid, epoch), State());
      hide Step, NextView;
      StepKeeps(old(State()), Bind(oid, epoch), State());
    }

    /** The phase turns at most here; the answer says whether it did, or that approval is missing. */
    method Turn(oid: string) returns (signed: Option<bool>)
      requires Disjoint(State()) && oid in operations
      modifies this
      ensures OnlyChanges(oid) && ViewOf(State(), oid) == Advance(old(operations[oid]), Sign)
      ensures signed == Some(true) <==> Turns(old(operations[oid]))
    {
      var item := operations[oid];
      var before, after := PhaseOf(item), NextPhase(item.kind, item.hold, PhaseOf(item), Sign);
      AdvanceOne(oid, Sign);
      signed := if before == Preparing then None else Some(after == Signing && before != Signing);
    }

    /** `None` is an error; True goes only to the caller that turned the phase. */
    method SignOperation(oid: string, epoch: Epoch) returns (signed: Option<bool>)
      requires Valid()
      modifies this
      ensures signed == Some(true) <==> Signs(old(State()), SignCall(oid, epoch), oid)
      ensures Valid() && Step(old(State()), SignCall(oid, epoch), State())
    {
      ghost var g := State();
      assert Disjoint(g);
      hide Advance, GateInv, Step;
      signed := None;
      if oid in operations && Signable(operations[oid].kind) {
        var refused := TryBind(oid, epoch);
        if !refused {
          TurnsBound(g.operations[oid], epoch, g.current);
          hide Turns, Bound;
          signed := Turn(oid);
        }
      }
      SignStep(g, oid, epoch, State());
      StepKeeps(g, SignCall(oid, epoch), State());
    }

    /** An operation that has no epoch yet is bound to the failing one first. */
    method Fail(oid: string, notStarted: bool, epoch: Epoch)
      requires Valid()
      modifies this
      ensures Valid() && Step(old(State()), Failed(oid, notStarted, epoch), State())
    {
      ghost var g := State();
      assert Disjoint(State());
      hide Advance, GateInv;
      if oid in operations {
        var e := Or(epoch, operations[oid].epoch);
        var refused := false;
        if operations[oid].epoch.None? {
          refused := TryBind(oid, e);
        }
        if !refused && SameEpoch(operations[oid], e, current) {
          AdvanceOne(oid, if notStarted then NotStarted else Lost);
        }
      }
      SingleStep(g, Failed(oid, notStarted, epoch), State());
      hide Step, NextView;
      StepKeeps(g, Failed(oid, notStarted, epoch), State());
    }

    method Cancel(oid: string)
      requires Valid()
      modifies this
      ensures Valid() && Step(old(State()), CancelPrepared(oid), State())
    {
      assert Disjoint(State());
      hide Advance, GateInv;
      AdvanceOne(oid, CancelUnsigned);
      SingleStep(old(State()), CancelPrepared(oid), State());
      hide Step, NextView;
      StepKeeps(old(State()), CancelPrepared(oid), State());
    }

    method FailQuery(oid: string, epoch: Epoch)
      requires Valid()
      modifies this
      ensures Valid() && Step(old(State()), QueryFailed(oid, epoch), State())
    {
      assert Disjoint(State());
      hide Advance, GateInv;
      if oid in operations && SameEpoch(operations[oid], epoch, current) {
        AdvanceOne(oid, QueryFailure);
      }
      SingleStep(old(State()), QueryFailed(oid, epoch), State());
      hide Step, NextView;
      StepKeeps(old(State()), QueryFailed(oid, epoch), State());
    }

    method Reconcile(oid: string, epoch: Epoch)
      requires Valid()
      modifies this
      ensures Valid() && Step(old(State()), ReconcilePrepared(oid, epoch), State())
    {
      assert Disjoint(State());
      hide Advance, GateInv;
      if oid in operations && SameEpoch(operations[oid], epoch, current) {
        AdvanceOne(oid, CancelUnsigned);
      }
      SingleStep(old(State()), ReconcilePrepared(oid, epoch), State());
      hide Step, NextView;
      StepKeeps(old(State()), ReconcilePrepared(oid, epoch), State());
    }

    /** A worker's answer for one operation; a report in it is shown to all. */
    method TakeResult(oid: string, response: Response, epoch: Epoch)
      requires Valid()
      modifies this
      ensures Valid() && Step(old(State()), Result(oid, response, epoch), State())
      ensures forall o :: o in old(operations) ==>
        ViewOf(State(), o) == AfterCall(old(State()), Result(oid, response, epoch), o, old(operations)[o])
    {
      ghost var g := State();
      assert GateInv(g);
      assert Disjoint(g);
      hide Advance, GateInv, Observed, Step, AfterCall;
      if oid in operations && !(response.result.Some? && WrongRuntime(response.result.value, epoch)) {
        var refused := false;
        if operations[oid].epoch.None? {
          refused := TryBind(oid, epoch);
        }
        if !refused && SameEpoch(operations[oid], epoch, current) {
          assert Addressed(g.operations[oid], response, epoch, g.current) == Some(operations[oid]);
          assert operations[oid].kind == g.operations[oid].kind;
          hide Addressed, SameEpoch, Bound;
          Settle(g, oid, response, epoch);
        } else {
          ResultStep(g, oid, response, epoch, State());
        }
      } else {
        ResultStep(g, oid, response, epoch, State());
      }
      StepKeeps(g, Result(oid, response, epoch), State());
      AllLead(g, Result(oid, response, epoch), State());
    }

    /** The answer applies: an error, a question, a delay, a report or nothing usable. */
    method Settle(ghost g: Gate, oid: string, response: Response, epoch: Epoch)
      requires Disjoint(State()) && current == g.current && oid in operations && oid in g.operations
      requires Addressed(g.operations[oid], response, epoch, g.current) == Some(operations[oid])
      requires operations[oid].kind == g.operations[oid].kind
      requires forall o :: o != oid ==> ViewOf(State(), o) == ViewOf(g, o)
      modifies this
      ensures current == g.current && Step(g, Result(oid, response, epoch), State())
    {
      hide Advance, Observed, Step, Addressed;
      var control := operations[oid].kind == Control;
      if response.error.None? && response.state != ApprovalRequired && response.state != PendingReply
         && response.result.Some? && response.result.value.status != NoStatus {
        var about := if control || oid == "" then response.result.value.executionId else oid;
        forall o | o != oid
          ensures o in operations <==> o in g.operations
          ensures o in operations ==> operations[o] == g.operations[o]
        {
          assert ViewOf(State(), o) == ViewOf(g, o);
        }
        ObserveAll(response.result.value, epoch, about);
        if control && response.state == Complete {
          AdvanceOne(oid, ControlComplete);
        }
        assert ViewOf(State(), oid) == AfterResult(g.operations[oid], oid, response, epoch, g.current);
        SpreadStep(g, oid, response, epoch, State());
      } else {
        var e := if response.error.Some? then (if response.error.value then NotStarted else Lost)
                 else if response.state == ApprovalRequired then Approval
                 else if response.state == PendingReply then PendingReported
                 else Missing;
        AdvanceOne(oid, e);
        ResultStep(g, oid, response, epoch, State());
      }
    }

    /** One record of an earlier process; a live owner or a tombstone wins over it. */
    method RestoreOne(record: Record)
      requires Disjoint(State())
      modifies this
      ensures OnlyChanges(record.oid)
      ensures ViewOf(State(), record.oid) ==
        if old(ViewOf(State(), record.oid)).Unseen? then Restored(record.item, current)
        else old(ViewOf(State(), record.oid))
    {
      var oid, item := record.oid, record.item;
      if oid in retired || oid in operations {
        return;
      }
      RestoredFacts(item, current);
      operations := operations[oid := item.(state := PAbsent)];
      var e := if item.unsigned then (if item.state == PAwaitingApproval then RestorePrepared else RestoreUnsigned)
               else if item.output != "" && item.state == PRunning then RestoreRunning
               else if item.output != "" && item.state == PDelivery then RestoreDelivery
               else RestoreUnknown;
      hide Advance, PhaseOf, ItemOk;
      AdvanceOne(oid, e);
      if current.Some? && item.epoch != current {
        AdvanceOne(oid, EpochChanged);
      }
    }

    method RestoreAll(records: seq<Record>)
      requires Valid()
      modifies this
      ensures Valid() && Step(old(State()), Restore(records), State())
    {
      ghost var g := State();
      assert Disjoint(g);
      hide GateInv, Restored, Step;
      assert records[..0] == [];
      for i := 0 to |records|
        invariant Disjoint(State()) && current == g.current
        invariant forall o ::
          ViewOf(State(), o) == if ViewOf(g, o).Unseen? then RestoredFrom(records[..i], o, g.current) else ViewOf(g, o)
      {
        forall o {
          RestoredAppend(records, i, o, g.current);
        }
        hide RestoredFrom;
        RestoreOne(records[i]);
      }
      assert records[..|records|] == records;
      RestoreStep(g, records, State());
      StepKeeps(g, Restore(records), State());
    }
  }

  /** A later record matters only for an id no earlier record named. */
  lemma {:induction false} RestoredAppend(records: seq<Record>, i: nat, oid: string, current: Epoch)
    requires i < |records|
    ensures RestoredFrom(records[..i + 1], oid, current) ==
      if RestoredFrom(records[..i], oid, current).Unseen? && records[i].oid == oid then Restored(records[i].item, current)
      else RestoredFrom(records[..i], oid, current)
    decreases i
  {
    if i == 0 {
      assert records[..1][1..] == [];
    } else {
      var rest := records[1..];
      assert records[..i + 1][1..] == rest[..i] && records[..i][1..] == rest[..i - 1];
      assert records[..i + 1][0] == records[0] && records[..i][0] == records[0];
      RestoredFacts(records[0].item, current);
      hide Restored;
      RestoredAppend(rest, i - 1, oid, current);
    }
  }
}
