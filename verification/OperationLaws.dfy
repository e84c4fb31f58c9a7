/** Where each call leads an operation, and what follows over whole runs.

    A record is described here by what it says: its public state, whether it is signed, its
    epoch, session and output. The phases and the transition table behind it are not mentioned.
 */
module OperationLaws {
  import opened Lifecycle
  import opened OperationGate
  import opened Prelude

  /** Nothing was sent under the operation yet. */
  predicate Unsent(item: Item) {
    item.kind in {Privileged, Shutdown} && item.unsigned
  }

  /** The operation owns a session and its output. */
  predicate Owner(item: Item) {
    item.kind in {Execution, Privileged}
  }

  /** Sent, and the worker has said nothing of it. */
  predicate Awaited(item: Item) {
    !Unsent(item) && (item.state == PSubmitting || item.state == PPending)
  }

  function Shown(item: Item, state: Public): View {
    Live(item.(state := state))
  }

  // ----- what is learnt

  /** Nothing is known of the operation. */
  function AfterSilence(item: Item): View {
    if Unsent(item) || Awaited(item) then Shown(item, PUnknown) else Live(item)
  }

  /** The operation certainly had no effect; what was seen running is not taken back. */
  function AfterRefusal(item: Item): View {
    if item.state == PRunning || item.state == PDelivery then Live(item) else Tomb(item.epoch)
  }

  function WithOutput(item: Item, r: Report): Item {
    item.(session := if item.session != 0 then item.session else r.session, output := r.output)
  }

  /** A report about the operation: it runs, it ended, it was accepted, or the worker does not know it. */
  function AfterReport(item: Item, r: Report): View {
    if r.status == TerminalStatus && r.output != "" then
      if !Owner(item) || Unsent(item) then Live(item)
      else if item.hold then Live(WithOutput(item, r).(state := PDelivery)) else Tomb(item.epoch)
    else if r.status == RunningStatus && r.output != "" then
      if !Owner(item) || Unsent(item) || item.state == PDelivery then Live(item)
      else Live(WithOutput(item, r).(state := PRunning))
    else if r.status == AcceptedStatus then
      if item.kind == Shutdown && !Unsent(item) then Tomb(item.epoch) else Live(item)
    else AfterSilence(item)
  }

  /** The report is about this operation, or about its session while it runs, and contradicts nothing known. */
  predicate IsAbout(oid: string, item: Item, r: Report, epoch: Epoch, about: string, current: Epoch) {
    && (r.runtimeEpoch.None? || r.runtimeEpoch.value == epoch)
    && item.epoch == epoch && (current.None? || current == epoch)
    && (|| oid == about
        || (Owner(item) && (item.state == PRunning || item.state == PDelivery) && item.session == r.session != 0))
    && (item.output == "" || r.output == "" || item.output == r.output)
    && (item.session == 0 || r.session == 0 || item.session == r.session)
  }

  function AfterHearing(oid: string, item: Item, r: Report, epoch: Epoch, about: string, current: Epoch): View {
    if IsAbout(oid, item, r, epoch, about, current) then AfterReport(item, r) else Live(item)
  }

  /** The reply brings a report. */
  predicate Tells(response: Response) {
    && response.error.None? && response.state != ApprovalRequired && response.state != PendingReply
    && response.result.Some? && response.result.value.status != NoStatus
  }

  /** Whom it speaks of: the execution it names where a control was asked, else the operation that asked. */
  function Subject(item: Item, oid: string, response: Response): string
    requires Tells(response)
  {
    if oid != "" && item.kind != Control then oid else response.result.value.executionId
  }

  /** The reply to the operation's own call, for the record `own`. */
  function AfterReply(own: Item, oid: string, response: Response, epoch: Epoch, about: string, current: Epoch): View {
    if response.error == Some(true) then AfterRefusal(own)
    else if response.error == Some(false) then AfterSilence(own)
    else if response.state == ApprovalRequired then
      if Unsent(own) then Shown(own, PAwaitingApproval) else Live(own)
    else if response.state == PendingReply then
      if !Unsent(own) && (own.state == PSubmitting || own.state == PUnknown) then Shown(own, PPending) else Live(own)
    else if Tells(response) then
      if own.kind == Control && response.state == Complete then Tomb(own.epoch)
      else AfterHearing(oid, own, response.result.value, epoch, about, current)
    else AfterSilence(own)
  }

  /** What a call leaves of a live record. */
  function AfterCall(g: Gate, c: Call, oid: string, item: Item): View {
    match c
    case Connected(epoch) =>
      if item.epoch.Some? && item.epoch != epoch then Shown(item, PUnknown) else Live(item)
    case Restore(_) => Live(item)
    case Claim(_, _, _, _, _) => Live(item)
    case Bind(o, epoch) => if o == oid && Binds(item, epoch, g.current) then Live(item.(epoch := epoch)) else Live(item)
    case SignCall(o, epoch) =>
      if o != oid || item.kind !in {Privileged, Shutdown} || !Binds(item, epoch, g.current) then Live(item)
      else if item.unsigned && item.state != PSubmitting
      then Live(item.(epoch := epoch, state := PSubmitting, unsigned := false))
      else Live(item.(epoch := epoch))
    case Failed(o, notStarted, epoch) =>
      var e := if epoch.Some? && epoch.value != "" then epoch else item.epoch;
      if o != oid || (item.epoch.None? && !Binds(item, e, g.current)) then Live(item)
      else if item.epoch.Some? && (item.epoch != e || (g.current.Some? && g.current != e)) then Live(item)
      else if notStarted then AfterRefusal(item.(epoch := e)) else AfterSilence(item.(epoch := e))
    case CancelPrepared(o) => if o == oid && Unsent(item) then Tomb(item.epoch) else Live(item)
    case QueryFailed(o, epoch) =>
      if o == oid && InEpoch(item, epoch, g.current) && Awaited(item) then Shown(item, PUnknown) else Live(item)
    case ReconcilePrepared(o, epoch) =>
      if o == oid && InEpoch(item, epoch, g.current) && Unsent(item) then Tomb(item.epoch) else Live(item)
    case Result(o, response, epoch) =>
      if o == oid then
        if !Answers(item, response, epoch, g.current) then Live(item)
        else AfterReply(item.(epoch := epoch), oid, response, epoch, if Tells(response) then Subject(item, oid, response) else "",
                        g.current)
      else if o in g.operations && Tells(response) && Answers(g.operations[o], response, epoch, g.current) then
        AfterHearing(oid, item, response.result.value, epoch, Subject(g.operations[o], o, response), g.current)
      else Live(item)
    case Snapshot(report, epoch) => AfterHearing(oid, item, report, epoch, report.executionId, g.current)
    case Release(output, epoch) =>
      if output != "" && item.output == output && InEpoch(item, epoch, g.current)
         && (item.state == PRunning || item.state == PDelivery)
      then Tomb(item.epoch) else Live(item)
  }

  predicate InEpoch(item: Item, epoch: Epoch, current: Epoch) {
    item.epoch == epoch && (current.None? || current == epoch)
  }

  /** The record may take, or has, the epoch. */
  predicate Binds(item: Item, epoch: Epoch, current: Epoch) {
    (item.epoch.None? || item.epoch == epoch) && (current.None? || current == epoch)
  }

  /** The reply is for this record: from the runtime it was sent to, in the epoch it has or takes. */
  predicate Answers(item: Item, response: Response, epoch: Epoch, current: Epoch) {
    && (response.result.Some? ==> response.result.value.runtimeEpoch in {None, Some(epoch)})
    && Binds(item, epoch, current)
  }

  // ----- the table says the same

  lemma SilenceIs(item: Item)
    requires ItemOk(item)
    ensures Advance(item, Lost) == Advance(item, Missing) == Advance(item, TerminalEmpty) == AfterSilence(item)
  {
  }

  lemma RefusalIs(item: Item)
    requires ItemOk(item)
    ensures Advance(item, NotStarted) == AfterRefusal(item)
  {
  }

  lemma EpochIs(item: Item)
    requires ItemOk(item)
    ensures Advance(item, EpochChanged) == Shown(item, PUnknown)
  {
  }

  lemma ReleaseIs(item: Item)
    requires ItemOk(item)
    ensures Advance(item, ReleaseOutput) == if item.state == PRunning || item.state == PDelivery then Tomb(item.epoch) else Live(item)
  {
  }

  lemma QueryIs(item: Item)
    requires ItemOk(item)
    ensures Advance(item, QueryFailure) == if Awaited(item) then Shown(item, PUnknown) else Live(item)
    ensures Advance(item, CancelUnsigned) == if Unsent(item) then Tomb(item.epoch) else Live(item)
  {
  }

  lemma SignIs(item: Item)
    requires ItemOk(item) && Signable(item.kind)
    ensures Advance(item, Sign) ==
      if item.unsigned && item.state != PSubmitting then Live(item.(state := PSubmitting, unsigned := false)) else Live(item)
  {
  }

  /** The one call that may send the request: the record is unsigned, waits, and is of the caller's epoch. */
  lemma SignsIff(g: Gate, oid: string, epoch: Epoch)
    requires GateInv(g)
    ensures Signs(g, SignCall(oid, epoch), oid) <==>
      && oid in g.operations && g.operations[oid].kind in {Privileged, Shutdown}
      && Binds(g.operations[oid], epoch, g.current)
      && g.operations[oid].unsigned && g.operations[oid].state != PSubmitting
  {
    if oid in g.operations {
      assert ItemOk(g.operations[oid]);
    }
  }

  lemma RepliesAre(item: Item)
    requires ItemOk(item)
    ensures Advance(item, Approval) == if Unsent(item) then Shown(item, PAwaitingApproval) else Live(item)
    ensures Advance(item, PendingReported) ==
      if !Unsent(item) && (item.state == PSubmitting || item.state == PUnknown) then Shown(item, PPending) else Live(item)
    ensures item.kind == Control ==> Advance(item, ControlComplete) == Tomb(item.epoch)
  {
  }

  lemma TerminalIs(item: Item, r: Report)
    requires ItemOk(item) && r.status == TerminalStatus && r.output != ""
    ensures Advance(WithEvidence(item, r), Terminal) == AfterReport(item, r)
  {
  }

  lemma RunningIs(item: Item, r: Report)
    requires ItemOk(item) && r.status == RunningStatus && r.output != ""
    ensures Advance(WithEvidence(item, r), RunningReported) == AfterReport(item, r)
  {
  }

  lemma AcceptedIs(item: Item, r: Report)
    requires ItemOk(item) && r.status == AcceptedStatus
    ensures Advance(WithEvidence(item, r), Accepted) == AfterReport(item, r)
  {
  }

  lemma ReportIs(item: Item, r: Report)
    requires ItemOk(item)
    ensures Advance(WithEvidence(item, r), Reported(r)) == AfterReport(item, r)
  {
    if r.status == TerminalStatus && r.output != "" {
      hide Advance, WithEvidence, AfterReport, ItemOk;
      TerminalIs(item, r);
    } else if r.status == RunningStatus && r.output != "" {
      hide Advance, WithEvidence, AfterReport, ItemOk;
      RunningIs(item, r);
    } else if r.status == AcceptedStatus {
      hide Advance, WithEvidence, AfterReport, ItemOk;
      AcceptedIs(item, r);
    } else {
      assert WithEvidence(item, r) == item by { hide NextPhase, PhaseOf; }
      hide Advance, WithEvidence, ItemOk;
      SilenceIs(item);
    }
  }

  lemma HearingIs(oid: string, item: Item, r: Report, epoch: Epoch, about: string, current: Epoch)
    requires ItemOk(item)
    ensures Observed(oid, item, r, epoch, about, current) == AfterHearing(oid, item, r, epoch, about, current)
  {
    PhaseShown(item);
    hide Advance, WithEvidence, AfterReport, ItemOk, PhaseOf, Reported;
    ReportIs(item, r);
  }

  lemma PhaseShown(item: Item)
    requires ItemOk(item)
    ensures PhaseOf(item) == Running <==> item.state == PRunning
    ensures PhaseOf(item) == Delivery <==> item.state == PDelivery
  {
  }

  lemma RecordTakesEpoch(item: Item, epoch: Epoch)
    requires ItemOk(item)
    ensures ItemOk(item.(epoch := epoch))
  {
  }

  lemma AddressedIs(item: Item, response: Response, epoch: Epoch, current: Epoch)
    ensures Addressed(item, response, epoch, current) ==
      if Answers(item, response, epoch, current) then Some(item.(epoch := epoch)) else None
  {
  }

  lemma ReplyIs(item: Item, oid: string, response: Response, epoch: Epoch, current: Epoch)
    requires ItemOk(item) && Answers(item, response, epoch, current)
    ensures AfterResult(item, oid, response, epoch, current) ==
      AfterReply(item.(epoch := epoch), oid, response, epoch, if Tells(response) then Subject(item, oid, response) else "", current)
  {
    var own := item.(epoch := epoch);
    AddressedIs(item, response, epoch, current);
    RecordTakesEpoch(item, epoch);
    assert Tells(response) == Carries(response);
    assert Tells(response) ==> Subject(item, oid, response) == About(item, oid, response);
    hide ItemOk, Advance, Addressed, Answers, Observed, AfterHearing, AfterRefusal, AfterSilence, Subject, About, Unsent;
    RefusalIs(own);
    SilenceIs(own);
    RepliesAre(own);
    if Tells(response) {
      ToldIs(item, oid, response, epoch, current);
    }
  }

  lemma ToldIs(item: Item, oid: string, response: Response, epoch: Epoch, current: Epoch)
    requires Tells(response) && ItemOk(item.(epoch := epoch))
    ensures var own, r, about := item.(epoch := epoch), response.result.value, Subject(item, oid, response);
      var seen := Observed(oid, own, r, epoch, about, current);
      && seen == AfterHearing(oid, own, r, epoch, about, current)
      && (item.kind == Control && response.state == Complete ==>
            seen.Live? && Advance(seen.item, ControlComplete) == Tomb(own.epoch))
  {
    var own, r, about := item.(epoch := epoch), response.result.value, Subject(item, oid, response);
    hide ItemOk, Advance, Observed, AfterHearing, Tells, Subject;
    HearingIs(oid, own, r, epoch, about, current);
    if own.kind == Control && response.state == Complete {
      ControlReply(oid, own, r, epoch, about, current);
    }
  }

  lemma ControlReply(oid: string, own: Item, r: Report, epoch: Epoch, about: string, current: Epoch)
    requires ItemOk(own) && own.kind == Control
    ensures var seen := Observed(oid, own, r, epoch, about, current);
      seen.Live? && Advance(seen.item, ControlComplete) == Tomb(own.epoch)
  {
    hide Advance, ItemOk, Observed;
    ControlObserved(oid, own, r, epoch, about, current);
    ObservedFacts(oid, own, r, epoch, about, current);
    ObservedEpoch(oid, own, r, epoch, about, current);
    RepliesAre(Observed(oid, own, r, epoch, about, current).item);
  }

  lemma ObservedEpoch(oid: string, own: Item, r: Report, epoch: Epoch, about: string, current: Epoch)
    requires ItemOk(own) && own.kind == Control
    ensures var seen := Observed(oid, own, r, epoch, about, current);
      seen.Live? ==> seen.item.epoch == own.epoch && seen.item.kind == Control && ItemOk(seen.item)
  {
    hide ItemOk, Observed, Advance;
    ObservedFacts(oid, own, r, epoch, about, current);
    HearingIs(oid, own, r, epoch, about, current);
    hide IsAbout;
    assert ViewOk(Observed(oid, own, r, epoch, about, current));
  }

  lemma FailedIs(item: Item, notStarted: bool, epoch: Epoch, current: Epoch)
    requires ItemOk(item)
    ensures AfterFailed(item, notStarted, epoch, current) ==
      var e := if epoch.Some? && epoch.value != "" then epoch else item.epoch;
      if item.epoch.None? && !Binds(item, e, current) then Live(item)
      else if item.epoch.Some? && (item.epoch != e || (current.Some? && current != e)) then Live(item)
      else if notStarted then AfterRefusal(item.(epoch := e)) else AfterSilence(item.(epoch := e))
  {
    var e := if epoch.Some? && epoch.value != "" then epoch else item.epoch;
    RecordTakesEpoch(item, e);
    hide ItemOk, Advance, AfterRefusal, AfterSilence;
    RefusalIs(item.(epoch := e));
    SilenceIs(item.(epoch := e));
    assert item.epoch == e ==> item.(epoch := e) == item;
  }

  lemma SignCallIs(item: Item, epoch: Epoch, current: Epoch)
    requires ItemOk(item)
    ensures AfterSign(item, epoch, current) ==
      if item.kind !in {Privileged, Shutdown} || !Binds(item, epoch, current) then Live(item)
      else if item.unsigned && item.state != PSubmitting
      then Live(item.(epoch := epoch, state := PSubmitting, unsigned := false))
      else Live(item.(epoch := epoch))
  {
    RecordTakesEpoch(item, epoch);
    hide ItemOk, Advance;
    if Signable(item.kind) {
      SignIs(item.(epoch := epoch));
    }
  }

  /** What each call leaves of a live record, said by what the record shows. */
  lemma CallLeads(g: Gate, c: Call, oid: string, item: Item)
    requires ItemOk(item)
    ensures NextLive(g, c, oid, item) == AfterCall(g, c, oid, item)
  {
    hide ItemOk, Advance, Observed, AfterResult, AfterFailed, AfterSign, AfterReply, AfterHearing, AfterRefusal, AfterSilence,
      Addressed;
    match c
    case Connected(epoch) => EpochIs(item);
    case Restore(_) =>
    case Claim(_, _, _, _, _) =>
    case Bind(o, epoch) =>
    case SignCall(o, epoch) => SignCallIs(item, epoch, g.current);
    case Failed(o, notStarted, epoch) => FailedIs(item, notStarted, epoch, g.current);
    case CancelPrepared(o) => QueryIs(item);
    case QueryFailed(o, epoch) => QueryIs(item);
    case ReconcilePrepared(o, epoch) => QueryIs(item);
    case Result(o, response, epoch) => ResultIs(g, o, response, epoch, oid, item);
    case Snapshot(report, epoch) => HearingIs(oid, item, report, epoch, report.executionId, g.current);
    case Release(output, epoch) => ReleaseIs(item);
  }

  lemma ResultIs(g: Gate, o: string, response: Response, epoch: Epoch, oid: string, item: Item)
    requires ItemOk(item)
    ensures NextByResult(g, o, response, epoch, oid, item) == AfterCall(g, Result(o, response, epoch), oid, item)
  {
    hide ItemOk, Advance, Observed, AfterReply, AfterHearing, AfterRefusal, AfterSilence, Addressed, Answers;
    AddressedIs(item, response, epoch, g.current);
    if o == oid {
      if Answers(item, response, epoch, g.current) {
        hide AfterResult;
        ReplyIs(item, oid, response, epoch, g.current);
      }
    } else if o in g.operations && Tells(response) {
      AddressedIs(g.operations[o], response, epoch, g.current);
      HearingIs(oid, item, response.result.value, epoch, Subject(g.operations[o], o, response), g.current);
    }
  }

  /** A restored record is what it was while it awaited approval or had an output in the current epoch; of any other
      one nothing is known. */
  lemma RestoredIs(item: Item, current: Epoch)
    ensures Restored(item, current) ==
      if current.Some? && item.epoch != current then Shown(item, PUnknown)
      else if Unsent(item) && item.state == PAwaitingApproval then Live(item)
      else if Owner(item) && !item.unsigned && item.output != "" && (item.state == PRunning || item.state == PDelivery)
      then Live(item)
      else Shown(item, PUnknown)
  {
    hide Advance, RestoreEvent, ItemOk;
    FirstIs(item);
    RestoredFacts(item, None);
    EpochIs(Restored(item, None).item);
  }

  lemma FirstIs(item: Item)
    ensures Advance(item.(state := PAbsent), RestoreEvent(item)) ==
      if Unsent(item) && item.state == PAwaitingApproval then Live(item)
      else if Owner(item) && !item.unsigned && item.output != "" && (item.state == PRunning || item.state == PDelivery)
      then Live(item)
      else Shown(item, PUnknown)
  {
  }

  // ----- over whole runs

  lemma StepLeads(g: Gate, c: Call, after: Gate, oid: string)
    requires GateInv(g) && Step(g, c, after) && oid in g.operations
    ensures ViewOf(after, oid) == AfterCall(g, c, oid, g.operations[oid])
  {
    assert ItemOk(g.operations[oid]) && ViewOf(after, oid) == NextView(g, c, oid);
    hide Step, GateInv, ItemOk, AfterCall, NextLive;
    CallLeads(g, c, oid, g.operations[oid]);
  }

  lemma AllLead(g: Gate, c: Call, after: Gate)
    requires GateInv(g) && Step(g, c, after)
    ensures forall oid :: oid in g.operations ==> ViewOf(after, oid) == AfterCall(g, c, oid, g.operations[oid])
  {
    hide GateInv, Step, AfterCall;
    forall oid | oid in g.operations {
      StepLeads(g, c, after, oid);
    }
  }

  lemma RunLeads(gates: seq<Gate>, calls: seq<Call>, i: nat, oid: string)
    requires Run(gates, calls) && i < |calls| && oid in gates[i].operations
    ensures ViewOf(gates[i + 1], oid) == AfterCall(gates[i], calls[i], oid, gates[i].operations[oid])
    ensures ItemOk(gates[i].operations[oid])
  {
    RunInv(gates, calls, i);
    assert Step(gates[i], calls[i], gates[i + 1]);
    hide Step, AfterCall;
    StepLeads(gates[i], calls[i], gates[i + 1], oid);
  }

  /** The call brings the report to the operation. */
  ghost predicate Brings(g: Gate, c: Call, oid: string, r: Report)
    requires oid in g.operations
  {
    var item := g.operations[oid];
    match c
    case Snapshot(report, epoch) => r == report && IsAbout(oid, item, r, epoch, report.executionId, g.current)
    case Result(o, response, epoch) =>
      && Tells(response) && r == response.result.value
      && o in g.operations && Answers(g.operations[o], response, epoch, g.current)
      && IsAbout(oid, if o == oid then item.(epoch := epoch) else item, r, epoch, Subject(g.operations[o], o, response), g.current)
    case _ => false
  }

  lemma BroughtReport(g: Gate, c: Call, oid: string, r: Report)
    requires oid in g.operations && Brings(g, c, oid, r) && g.operations[oid].kind != Control
    ensures var item := g.operations[oid];
      || AfterCall(g, c, oid, item) == AfterReport(item, r)
      || (c.Result? && c.oid == oid && AfterCall(g, c, oid, item) == AfterReport(item.(epoch := c.epoch), r))
  {
    hide AfterReport, IsAbout, Answers;
  }

  /** The operation has ended, its output is kept for delivery, and it is the output named. */
  predicate KeepsOutput(v: View, output: string) {
    v.Live? && v.item.hold && v.item.state == PDelivery && v.item.output == output
  }

  /** The end of an operation, with its output, is kept if its output is to be delivered, and settles it otherwise. */
  lemma EndIsTaken(gates: seq<Gate>, calls: seq<Call>, i: nat, oid: string, r: Report)
    requires Run(gates, calls) && i < |calls| && oid in gates[i].operations && Brings(gates[i], calls[i], oid, r)
    requires r.status == TerminalStatus && r.output != ""
    requires Owner(gates[i].operations[oid]) && !Unsent(gates[i].operations[oid])
    ensures if gates[i].operations[oid].hold then KeepsOutput(ViewOf(gates[i + 1], oid), r.output)
            else ViewOf(gates[i + 1], oid).Tomb?
  {
    assert |gates| == |calls| + 1;
    hide Run, Brings, AfterCall;
    RunLeads(gates, calls, i, oid);
    BroughtReport(gates[i], calls[i], oid, r);
  }

  /** A report that it runs, with its output, shows the operation running with that output. */
  lemma StartIsTaken(gates: seq<Gate>, calls: seq<Call>, i: nat, oid: string, r: Report)
    requires Run(gates, calls) && i < |calls| && oid in gates[i].operations && Brings(gates[i], calls[i], oid, r)
    requires r.status == RunningStatus && r.output != ""
    requires var item := gates[i].operations[oid]; Owner(item) && !Unsent(item) && item.state != PDelivery
    ensures var v := ViewOf(gates[i + 1], oid);
      v.Live? && v.item.state == PRunning && v.item.output == r.output && !Unsent(v.item)
    ensures var v, item := ViewOf(gates[i + 1], oid), gates[i].operations[oid];
      v.item.kind == item.kind && v.item.hold == item.hold && v.item.session == (if item.session != 0 then item.session else r.session)
    ensures var v, item := ViewOf(gates[i + 1], oid), gates[i].operations[oid];
      v.item.epoch == item.epoch || (calls[i].Result? && v.item.epoch == calls[i].epoch)
  {
    assert |gates| == |calls| + 1;
    hide Run, Brings, AfterCall;
    RunLeads(gates, calls, i, oid);
    BroughtReport(gates[i], calls[i], oid, r);
  }

  /** The output is let go, or the worker it is on is gone. */
  predicate LetsGo(g: Gate, c: Call, item: Item) {
    || (c.Release? && c.output == item.output && InEpoch(item, c.epoch, g.current))
    || (c.Connected? && item.epoch.Some? && item.epoch != c.epoch)
  }

  lemma KeptStep(g: Gate, c: Call, oid: string, item: Item)
    requires ItemOk(item) && KeepsOutput(Live(item), item.output) && !LetsGo(g, c, item)
    ensures KeepsOutput(AfterCall(g, c, oid, item), item.output)
    ensures item.epoch.Some? ==> AfterCall(g, c, oid, item).item.epoch == item.epoch
  {
    assert Owner(item) && !Unsent(item) && item.output != "";
    hide ItemOk;
  }

  lemma KeepsIsLive(g: Gate, oid: string, output: string)
    requires KeepsOutput(ViewOf(g, oid), output)
    ensures oid in g.operations && ViewOf(g, oid) == Live(g.operations[oid])
  {
  }

  lemma KeptOnce(gates: seq<Gate>, calls: seq<Call>, i: nat, oid: string, output: string)
    requires Run(gates, calls) && i + 1 < |gates| && oid in gates[i].operations && KeepsOutput(ViewOf(gates[i], oid), output)
    requires i < |calls| && !LetsGo(gates[i], calls[i], gates[i].operations[oid])
    ensures KeepsOutput(ViewOf(gates[i + 1], oid), output) && oid in gates[i + 1].operations
    ensures gates[i].operations[oid].epoch.Some? ==>
      gates[i + 1].operations[oid].epoch == gates[i].operations[oid].epoch
  {
    hide Run, LetsGo, AfterCall, ItemOk;
    RunLeads(gates, calls, i, oid);
    KeptStep(gates[i], calls[i], oid, gates[i].operations[oid]);
  }

  /** An output that waits for delivery stays until it is let go or its worker is gone, whatever else happens. */
  lemma {:induction false} KeptUntilLetGo(gates: seq<Gate>, calls: seq<Call>, i: nat, j: nat, oid: string, output: string)
    requires Run(gates, calls) && i <= j <= |calls| && KeepsOutput(ViewOf(gates[i], oid), output)
    requires forall n :: i <= n < j && oid in gates[n].operations ==> !LetsGo(gates[n], calls[n], gates[n].operations[oid])
    ensures KeepsOutput(ViewOf(gates[j], oid), output)
    ensures gates[i].operations[oid].epoch.Some? ==> gates[j].operations[oid].epoch == gates[i].operations[oid].epoch
    decreases j
  {
    assert |gates| == |calls| + 1;
    hide *;
    KeepsIsLive(gates[i], oid, output);
    if i < j {
      KeptUntilLetGo(gates, calls, i, j - 1, oid, output);
      KeepsIsLive(gates[j - 1], oid, output);
      KeptOnce(gates, calls, j - 1, oid, output);
    }
  }

  /** Letting it go settles the operation for good. */
  lemma ReleaseSettles(gates: seq<Gate>, calls: seq<Call>, i: nat, j: nat, oid: string, output: string)
    requires Run(gates, calls) && i < j < |gates| && KeepsOutput(ViewOf(gates[i], oid), output) && output != ""
    requires calls[i].Release? && calls[i].output == output && InEpoch(gates[i].operations[oid], calls[i].epoch, gates[i].current)
    ensures ViewOf(gates[j], oid) == Tomb(gates[i].operations[oid].epoch)
  {
    assert |gates| == |calls| + 1;
    hide Run;
    RunLeads(gates, calls, i, oid);
    hide AfterCall;
    RunEvolves(gates, calls, i + 1, j, oid);
  }

  /** A new worker leaves it unknown whether the output is still there. */
  lemma WorkerGone(gates: seq<Gate>, calls: seq<Call>, i: nat, oid: string)
    requires Run(gates, calls) && i < |calls| && oid in gates[i].operations && calls[i].Connected?
    requires gates[i].operations[oid].epoch.Some? && gates[i].operations[oid].epoch != calls[i].epoch
    ensures ViewOf(gates[i + 1], oid) == Live(gates[i].operations[oid].(state := PUnknown))
  {
    assert |gates| == |calls| + 1;
    hide Run;
    RunLeads(gates, calls, i, oid);
  }

  /** A whole life: claimed, reported running, reported at its end, and its output let go at some later time. */
  lemma WholeLife(gates: seq<Gate>, calls: seq<Call>, i: nat, k: nat, j: nat, oid: string, e: string, started: Report,
                  ended: Report)
    requires Run(gates, calls) && i + 3 <= k < |calls| && k < j < |gates|
    requires ViewOf(gates[i], oid).Unseen? && calls[i] == Claim(oid, Some(e), true, Execution, 0)
    requires oid in gates[i + 1].operations && Brings(gates[i + 1], calls[i + 1], oid, started)
    requires oid in gates[i + 2].operations && Brings(gates[i + 2], calls[i + 2], oid, ended)
    requires started.status == RunningStatus && ended.status == TerminalStatus && started.output == ended.output != ""
    requires forall n :: i + 3 <= n < k && oid in gates[n].operations ==> !LetsGo(gates[n], calls[n], gates[n].operations[oid])
    requires calls[k] == Release(ended.output, Some(e)) && gates[k].current in {None, Some(e)}
    ensures gates[i + 1].operations[oid] == Item(Execution, PSubmitting, false, true, Some(e), 0, "")
    ensures gates[i + 2].operations[oid] == Item(Execution, PRunning, false, true, Some(e), started.session, started.output)
    ensures KeepsOutput(ViewOf(gates[i + 3], oid), ended.output) && KeepsOutput(ViewOf(gates[k], oid), ended.output)
    ensures ViewOf(gates[j], oid) == Tomb(Some(e))
  {
    ClaimIsTaken(gates, calls, i, oid);
    StartedOnce(gates, calls, i + 1, oid, e, started);
    EndedOnce(gates, calls, i + 2, oid, e, ended);
    hide Run, LetsGo, Brings;
    KeptUntilLetGo(gates, calls, i + 3, k, oid, ended.output);
    ReleaseSettles(gates, calls, k, j, oid, ended.output);
  }

  /** A new operation is submitted, or prepared for its signature. */
  lemma ClaimIsTaken(gates: seq<Gate>, calls: seq<Call>, i: nat, oid: string)
    requires Run(gates, calls) && i < |calls| && ViewOf(gates[i], oid).Unseen? && calls[i].Claim? && calls[i].oid == oid
    ensures var c := calls[i];
      ViewOf(gates[i + 1], oid) == Live(Item(c.kind, PSubmitting, c.kind in {Privileged, Shutdown}, c.hold, c.epoch,
                                             if c.kind == Control then c.session else 0, ""))
  {
    assert Step(gates[i], calls[i], gates[i + 1]);
    assert ViewOf(gates[i + 1], oid) == NextView(gates[i], calls[i], oid);
  }

  lemma StartedOnce(gates: seq<Gate>, calls: seq<Call>, i: nat, oid: string, e: string, r: Report)
    requires Run(gates, calls) && i < |calls| && oid in gates[i].operations && Brings(gates[i], calls[i], oid, r)
    requires gates[i].operations[oid] == Item(Execution, PSubmitting, false, true, Some(e), 0, "")
    requires r.status == RunningStatus && r.output != ""
    ensures oid in gates[i + 1].operations
    ensures gates[i + 1].operations[oid] == Item(Execution, PRunning, false, true, Some(e), r.session, r.output)
  {
    assert |gates| == |calls| + 1;
    hide Run;
    RunLeads(gates, calls, i, oid);
    BroughtReport(gates[i], calls[i], oid, r);
    BroughtEpoch(gates[i], calls[i], oid, r);
    hide AfterCall, Brings;
  }

  lemma EndedOnce(gates: seq<Gate>, calls: seq<Call>, i: nat, oid: string, e: string, r: Report)
    requires Run(gates, calls) && i < |calls| && oid in gates[i].operations && Brings(gates[i], calls[i], oid, r)
    requires var item := gates[i].operations[oid];
      item.kind == Execution && item.state == PRunning && item.hold && item.epoch == Some(e)
    requires r.status == TerminalStatus && r.output != ""
    ensures KeepsOutput(ViewOf(gates[i + 1], oid), r.output) && gates[i + 1].operations[oid].epoch == Some(e)
  {
    assert |gates| == |calls| + 1;
    hide Run;
    RunLeads(gates, calls, i, oid);
    BroughtReport(gates[i], calls[i], oid, r);
    BroughtEpoch(gates[i], calls[i], oid, r);
    hide AfterCall, Brings;
  }

  lemma BroughtEpoch(g: Gate, c: Call, oid: string, r: Report)
    requires oid in g.operations && Brings(g, c, oid, r) && g.operations[oid].epoch.Some?
    ensures c.Result? && c.oid == oid ==> c.epoch == g.operations[oid].epoch
  {
  }
}
