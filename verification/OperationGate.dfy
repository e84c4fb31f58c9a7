/** The owner of all remote operations of one target: identities, evidence and tombstones.

    Each operation id is unseen, live or a tombstone. Every call moves each id on its own, so a
    call is specified by what it does to one id.
 */
module OperationGate {
  import opened Lifecycle
  import opened Prelude

  datatype View = Unseen | Live(item: Item) | Tomb(epoch: Epoch)

  datatype Gate = Gate(operations: map<string, Item>, retired: map<string, Epoch>, current: Epoch)

  function ViewOf(g: Gate, oid: string): View {
    if oid in g.operations then Live(g.operations[oid])
    else if oid in g.retired then Tomb(g.retired[oid])
    else Unseen
  }

  /** One event: the record with its new phase stored, or a tombstone that keeps its epoch. */
  function Advance(item: Item, e: Event): View {
    var phase := NextPhase(item.kind, item.hold, PhaseOf(item), e);
    if phase == Retired then Tomb(item.epoch) else Live(Store(item, phase))
  }

  predicate SameEpoch(item: Item, epoch: Epoch, current: Epoch) {
    item.epoch == epoch && (current.None? || current == epoch)
  }

  // ----- what the callers report

  datatype Status = NoStatus | AcceptedStatus | TerminalStatus | RunningStatus | OtherStatus

  datatype Report = Report(runtimeEpoch: Option<Epoch>, executionId: string, session: nat, output: string, status: Status)

  datatype Reply = ApprovalRequired | PendingReply | Complete | OtherReply

  /** `error`: whether the failed call certainly had no effect. */
  datatype Response = Response(result: Option<Report>, error: Option<bool>, state: Reply)

  datatype Record = Record(oid: string, item: Item)

  datatype Call =
    | Connected(epoch: Epoch)
    | Restore(records: seq<Record>)
    | Claim(oid: string, epoch: Epoch, hold: bool, kind: Kind, session: nat)
    | Bind(oid: string, epoch: Epoch)
    | SignCall(oid: string, epoch: Epoch)
    | Failed(oid: string, notStarted: bool, epoch: Epoch)
    | CancelPrepared(oid: string)
    | QueryFailed(oid: string, epoch: Epoch)
    | ReconcilePrepared(oid: string, epoch: Epoch)
    | Result(oid: string, response: Response, epoch: Epoch)
    | Snapshot(report: Report, epoch: Epoch)
    | Release(output: string, epoch: Epoch)

  // ----- one id under one call

  /** Binding an epoch; `None` is the refusal. */
  function Bound(item: Item, epoch: Epoch, current: Epoch): Option<Item> {
    if (item.epoch.Some? && item.epoch != epoch) || (current.Some? && current != epoch) then None
    else Some(item.(epoch := epoch))
  }

  /** A missing or empty epoch falls back to the record's own. */
  function Or(epoch: Epoch, fallback: Epoch): Epoch {
    if epoch.Some? && epoch.value != "" then epoch else fallback
  }

  function Reported(r: Report): Event {
    match r.status
    case AcceptedStatus => Accepted
    case TerminalStatus => if r.output != "" then Terminal else TerminalEmpty
    case RunningStatus => if r.output != "" then RunningReported else Missing
    case NoStatus | OtherStatus => Missing
  }

  predicate WrongRuntime(r: Report, epoch: Epoch) {
    r.runtimeEpoch.Some? && r.runtimeEpoch.value != epoch
  }

  /** Evidence is stored with the event that needs it. */
  function WithEvidence(item: Item, r: Report): Item {
    var after := NextPhase(item.kind, item.hold, PhaseOf(item), Reported(r));
    if (Reported(r) == RunningReported && after == Running)
       || (Reported(r) == Terminal && (after == Delivery || after == Retired))
       || (Reported(r) == Accepted && after == Retired)
    then item.(session := if item.session != 0 then item.session else r.session, output := r.output)
    else item
  }

  /** One live record under a report about operation `about`. */
  function Observed(oid: string, item: Item, r: Report, epoch: Epoch, about: string, current: Epoch): View {
    var relation := if oid == about then Exact
                    else if r.session != 0 && item.session == r.session then SameSession else Unrelated;
    if WrongRuntime(r, epoch) then Live(item)
    else if !Permitted(item.kind, PhaseOf(item), relation, SameEpoch(item, epoch, current)) then Live(item)
    else if item.output != "" && r.output != "" && item.output != r.output then Live(item)
    else if item.session != 0 && r.session != 0 && item.session != r.session then Live(item)
    else Advance(WithEvidence(item, r), Reported(r))
  }

  function RestoreEvent(item: Item): Event {
    if item.unsigned then (if item.state == PAwaitingApproval then RestorePrepared else RestoreUnsigned)
    else if item.output != "" && item.state == PRunning then RestoreRunning
    else if item.output != "" && item.state == PDelivery then RestoreDelivery
    else RestoreUnknown
  }

  function Restored(item: Item, current: Epoch): View {
    var first := Advance(item.(state := PAbsent), RestoreEvent(item));
    if first.Live? && current.Some? && item.epoch != current then Advance(first.item, EpochChanged) else first
  }

  /** The first record for the id counts. */
  function RestoredFrom(records: seq<Record>, oid: string, current: Epoch): View {
    if records == [] then Unseen
    else if records[0].oid == oid then Restored(records[0].item, current)
    else RestoredFrom(records[1..], oid, current)
  }

  function NewItem(epoch: Epoch, hold: bool, kind: Kind): Item {
    Item(kind, PAbsent, false, hold, epoch, 0, "")
  }

  /** A control names the session it acts on. */
  function ClaimedItem(epoch: Epoch, hold: bool, kind: Kind, session: nat): View {
    var v := Advance(NewItem(epoch, hold, kind), if Signable(kind) then Prepare else Claimed);
    if v.Live? && kind == Control then Live(v.item.(session := session)) else v
  }

  function AfterSign(item: Item, epoch: Epoch, current: Epoch): View {
    var bound := Bound(item, epoch, current);
    if !Signable(item.kind) || bound.None? then Live(item) else Advance(bound.value, Sign)
  }

  function AfterFailed(item: Item, notStarted: bool, epoch: Epoch, current: Epoch): View {
    var e := Or(epoch, item.epoch);
    var bound := if item.epoch.None? then Bound(item, e, current) else Some(item);
    if bound.None? then Live(item)
    else if !SameEpoch(bound.value, e, current) then Live(bound.value)
    else Advance(bound.value, if notStarted then NotStarted else Lost)
  }

  /** The record a result is applied to: bound if it had no epoch; `None` when the result is not for it. */
  function Addressed(item: Item, response: Response, epoch: Epoch, current: Epoch): Option<Item> {
    if response.result.Some? && WrongRuntime(response.result.value, epoch) then None
    else
      var bound := if item.epoch.None? then Bound(item, epoch, current) else Some(item);
      if bound.None? || !SameEpoch(bound.value, epoch, current) then None else bound
  }

  /** The result carries a report that every operation gets to see. */
  predicate Carries(response: Response) {
    && response.error.None? && response.state != ApprovalRequired && response.state != PendingReply
    && response.result.Some? && response.result.value.status != NoStatus
  }

  /** Who a carried report is about: a control's reply speaks of the execution it names. */
  function About(item: Item, oid: string, response: Response): string
    requires Carries(response)
  {
    if item.kind == Control || oid == "" then response.result.value.executionId else oid
  }

  function AfterResult(item: Item, oid: string, response: Response, epoch: Epoch, current: Epoch): View {
    var own := Addressed(item, response, epoch, current);
    if own.None? then Live(item)
    else if response.error.Some? then Advance(own.value, if response.error.value then NotStarted else Lost)
    else if response.state == ApprovalRequired then Advance(own.value, Approval)
    else if response.state == PendingReply then Advance(own.value, PendingReported)
    else if Carries(response) then
      var seen := Observed(oid, own.value, response.result.value, epoch, About(item, oid, response), current);
      if item.kind == Control && response.state == Complete && seen.Live? then Advance(seen.item, ControlComplete)
      else seen
    else Advance(own.value, Missing)
  }

  /** The report of this result reaches the other operations. */
  predicate Spreads(g: Gate, oid: string, response: Response, epoch: Epoch) {
    oid in g.operations && Carries(response) && Addressed(g.operations[oid], response, epoch, g.current).Some?
  }

  /** What a call does to a live record under its own id, or to any live record by a sweep. */
  function NextLive(g: Gate, c: Call, oid: string, item: Item): View {
    match c
    case Connected(epoch) => AfterConnect(item, epoch)
    case Restore(_) => Live(item)
    case Claim(_, _, _, _, _) => Live(item)
    case Bind(o, epoch) =>
      if o == oid && Bound(item, epoch, g.current).Some? then Live(Bound(item, epoch, g.current).value) else Live(item)
    case SignCall(o, epoch) => if o == oid then AfterSign(item, epoch, g.current) else Live(item)
    case Failed(o, notStarted, epoch) =>
      if o == oid then AfterFailed(item, notStarted, epoch, g.current) else Live(item)
    case CancelPrepared(o) => if o == oid then Advance(item, CancelUnsigned) else Live(item)
    case QueryFailed(o, epoch) =>
      if o == oid && SameEpoch(item, epoch, g.current) then Advance(item, QueryFailure) else Live(item)
    case ReconcilePrepared(o, epoch) =>
      if o == oid && SameEpoch(item, epoch, g.current) then Advance(item, CancelUnsigned) else Live(item)
    case Result(o, response, epoch) => NextByResult(g, o, response, epoch, oid, item)
    case Snapshot(report, epoch) => Observed(oid, item, report, epoch, report.executionId, g.current)
    case Release(output, epoch) => AfterRelease(item, output, epoch, g.current)
  }

  function AfterConnect(item: Item, epoch: Epoch): View {
    if item.epoch.Some? && item.epoch != epoch then Advance(item, EpochChanged) else Live(item)
  }

  function AfterRelease(item: Item, output: string, epoch: Epoch, current: Epoch): View {
    if output != "" && item.output == output && SameEpoch(item, epoch, current) then Advance(item, ReleaseOutput)
    else Live(item)
  }

  function NextByResult(g: Gate, o: string, response: Response, epoch: Epoch, oid: string, item: Item): View {
    if o == oid then AfterResult(item, oid, response, epoch, g.current)
    else if Spreads(g, o, response, epoch) then
      Observed(oid, item, response.result.value, epoch, About(g.operations[o], o, response), g.current)
    else Live(item)
  }

  /** Everything a call does to one id. */
  function NextView(g: Gate, c: Call, oid: string): View {
    match ViewOf(g, oid)
    case Live(item) => NextLive(g, c, oid, item)
    case Tomb(epoch) => Tomb(epoch)
    case Unseen =>
      if c.Restore? then RestoredFrom(c.records, oid, g.current)
      else if c.Claim? && c.oid == oid then ClaimedItem(c.epoch, c.hold, c.kind, c.session)
      else Unseen
  }

  ghost predicate Disjoint(g: Gate) {
    g.operations.Keys !! g.retired.Keys
  }

  /** The gate after a call. */
  ghost predicate Step(g: Gate, c: Call, after: Gate) {
    && Disjoint(after)
    && after.current == (if c.Connected? then c.epoch else g.current)
    && forall oid :: ViewOf(after, oid) == NextView(g, c, oid)
  }

  // ----- what every reachable record satisfies

  ghost predicate ItemOk(item: Item) {
    && ValidPhase(item.kind, PhaseOf(item)) && PhaseOf(item) != Absent && PhaseOf(item) != Retired
    && (PhaseOf(item) in {Running, Delivery} ==> item.output != "")
    && Canonical(item)
  }

  ghost predicate GateInv(g: Gate) {
    Disjoint(g) && forall oid :: oid in g.operations ==> ItemOk(g.operations[oid])
  }

  /** The same operation later: identity and evidence are written once, a signature stays. */
  ghost predicate Evolves(a: Item, b: Item) {
    && b.kind == a.kind && b.hold == a.hold
    && (a.epoch.Some? ==> b.epoch == a.epoch)
    && (a.session != 0 ==> b.session == a.session)
    && (a.output != "" ==> b.output == a.output)
    && (!Unsigned(PhaseOf(a)) ==> !Unsigned(PhaseOf(b)))
  }

  ghost predicate ViewOk(v: View) {
    v.Live? ==> ItemOk(v.item)
  }

  ghost predicate ViewEvolves(v: View, w: View) {
    match v
    case Unseen => true
    case Tomb(_) => w == v
    case Live(a) => w.Tomb? || (w.Live? && Evolves(a, w.item))
  }

  /** The event finds the output it needs. */
  ghost predicate Ready(item: Item, e: Event) {
    NextPhase(item.kind, item.hold, PhaseOf(item), e) in {Running, Delivery} ==> item.output != ""
  }

  lemma MostlyReady(item: Item, e: Event)
    requires ItemOk(item) && e !in {RunningReported, Terminal, RestoreRunning, RestoreDelivery}
    ensures Ready(item, e)
  {
  }

  lemma Advanced(item: Item, e: Event)
    requires ItemOk(item) && Ready(item, e)
    ensures ViewOk(Advance(item, e)) && ViewEvolves(Live(item), Advance(item, e))
    ensures Advance(item, e).Tomb? <==> NextPhase(item.kind, item.hold, PhaseOf(item), e) == Retired
    ensures Advance(item, e).Live? ==>
      && PhaseOf(Advance(item, e).item) == NextPhase(item.kind, item.hold, PhaseOf(item), e)
      && Advance(item, e).item.(state := item.state, unsigned := item.unsigned) == item
  {
    var k, p := item.kind, PhaseOf(item);
    NextPhaseValid(k, item.hold, p, e);
    NextPhaseForward(k, item.hold, p, e);
    SignedForGood(k, item.hold, p, e);
    StoredPhase(item, NextPhase(k, item.hold, p, e));
    hide NextPhase, PhaseOf, Store, ValidPhase, Canonical;
  }

  /** A record's first phase. */
  lemma FirstPhase(item: Item, e: Event)
    requires PhaseOf(item) == Absent && Ready(item, e)
    requires NextPhase(item.kind, item.hold, Absent, e) !in {Absent, Retired}
    ensures Advance(item, e).Live? && ItemOk(Advance(item, e).item)
    ensures PhaseOf(Advance(item, e).item) == NextPhase(item.kind, item.hold, Absent, e)
    ensures Advance(item, e).item.(state := item.state, unsigned := item.unsigned) == item
  {
    NextPhaseValid(item.kind, item.hold, Absent, e);
    StoredPhase(item, NextPhase(item.kind, item.hold, Absent, e));
    hide NextPhase, PhaseOf, Store, ValidPhase, Canonical;
  }

  lemma EvolvesThen(a: Item, b: Item, v: View)
    requires Evolves(a, b) && ViewEvolves(Live(b), v)
    ensures ViewEvolves(Live(a), v)
  {
  }

  /** Epoch, session and output are only filled in; the phase is untouched. */
  ghost predicate Fills(a: Item, b: Item) {
    && b.(epoch := a.epoch, session := a.session, output := a.output) == a
    && (a.epoch.Some? ==> b.epoch == a.epoch)
    && (a.session != 0 ==> b.session == a.session)
    && (a.output != "" ==> b.output == a.output)
  }

  lemma Filled(a: Item, b: Item)
    requires ItemOk(a) && Fills(a, b)
    ensures ItemOk(b) && Evolves(a, b) && PhaseOf(b) == PhaseOf(a)
  {
  }

  lemma AdvancedFrom(a: Item, b: Item, e: Event)
    requires ItemOk(a) && Fills(a, b) && Ready(b, e)
    ensures ViewOk(Advance(b, e)) && ViewEvolves(Live(a), Advance(b, e))
  {
    Filled(a, b);
    hide *;
    Advanced(b, e);
    EvolvesThen(a, b, Advance(b, e));
  }

  lemma PlainAdvance(a: Item, b: Item, e: Event)
    requires ItemOk(a) && Fills(a, b) && e !in {RunningReported, Terminal, RestoreRunning, RestoreDelivery}
    ensures ViewOk(Advance(b, e)) && ViewEvolves(Live(a), Advance(b, e))
  {
    Filled(a, b);
    hide *;
    MostlyReady(b, e);
    AdvancedFrom(a, b, e);
  }

  /** The evidence a report leaves is what its event needs, and overwrites nothing on a live record. */
  lemma EvidenceFits(item: Item, r: Report)
    requires ItemOk(item)
    requires !(item.output != "" && r.output != "" && item.output != r.output)
    ensures var b := WithEvidence(item, r);
      if Reported(r) == Accepted && NextPhase(item.kind, item.hold, PhaseOf(item), Accepted) == Retired
      then Advance(b, Accepted).Tomb?
      else Fills(item, b) && Ready(b, Reported(r))
  {
    var b := WithEvidence(item, r);
    assert PhaseOf(b) == PhaseOf(item);
    if Reported(r) !in {RunningReported, Terminal} {
      MostlyReady(item, Reported(r));
    } else {
      ReportPhases(item.kind, item.hold, PhaseOf(item), Reported(r));
    }
    hide NextPhase, PhaseOf, ValidPhase, Store;
  }

  /** A running or terminal report either moves the phase where evidence is stored or leaves it. */
  lemma ReportPhases(k: Kind, hold: bool, p: Phase, e: Event)
    requires e in {RunningReported, Terminal}
    ensures var after := NextPhase(k, hold, p, e);
      after == p || (e == RunningReported && after == Running) || (e == Terminal && after in {Delivery, Retired})
  {
  }

  lemma ObservedFacts(oid: string, item: Item, r: Report, epoch: Epoch, about: string, current: Epoch)
    requires ItemOk(item)
    ensures ViewOk(Observed(oid, item, r, epoch, about, current))
    ensures ViewEvolves(Live(item), Observed(oid, item, r, epoch, about, current))
  {
    assert Fills(item, item);
    if !(item.output != "" && r.output != "" && item.output != r.output) {
      EvidenceFits(item, r);
      var b := WithEvidence(item, r);
      if Fills(item, b) && Ready(b, Reported(r)) {
        AdvancedFrom(item, b, Reported(r));
      }
    }
    Filled(item, item);
    hide Advance, ItemOk, WithEvidence, Reported, Ready, Evolves, Fills, PhaseOf, NextPhase;
  }

  /** A report changes an operation only in its own epoch, and one it is not about only while they share a session. */
  lemma ReportTouches(oid: string, item: Item, r: Report, epoch: Epoch, about: string, current: Epoch)
    requires ItemOk(item) && Observed(oid, item, r, epoch, about, current) != Live(item)
    ensures SameEpoch(item, epoch, current) && !WrongRuntime(r, epoch)
    ensures oid == about || (Yields(item.kind) && item.session == r.session != 0 && PhaseOf(item) in {Running, Delivery})
    ensures item.session == 0 || r.session == 0 || item.session == r.session
    ensures item.output == "" || r.output == "" || item.output == r.output
  {
    hide Advance, WithEvidence, Reported, PhaseOf;
  }

  lemma RestoredFacts(item: Item, current: Epoch)
    ensures Restored(item, current).Live? && ItemOk(Restored(item, current).item)
    ensures Restored(item, current).item.epoch == item.epoch
    ensures current.Some? && item.epoch != current ==>
      PhaseOf(Restored(item, current).item) in {Unknown, UnsignedUnknown}
  {
    var blank, e := item.(state := PAbsent), RestoreEvent(item);
    RestoreReady(item);
    RestoredPhases(item.kind, item.hold, e);
    hide Advance, Ready, ItemOk, ViewOk, ViewEvolves, Evolves, RestoreEvent, NextPhase, PhaseOf;
    FirstPhase(blank, e);
    var first := Advance(blank, e).item;
    MostlyReady(first, EpochChanged);
    Advanced(first, EpochChanged);
    assert ViewOk(Advance(first, EpochChanged)) ==>
      (Advance(first, EpochChanged).Live? ==> ItemOk(Advance(first, EpochChanged).item)) by {
      OkView(Advance(first, EpochChanged));
    }
  }

  lemma OkView(v: View)
    requires ViewOk(v)
    ensures v.Live? ==> ItemOk(v.item)
    ensures !v.Unseen? ==> v.Live? || v.Tomb?
  {
  }

  lemma RestoreReady(item: Item)
    ensures PhaseOf(item.(state := PAbsent)) == Absent
    ensures Ready(item.(state := PAbsent), RestoreEvent(item))
    ensures RestoreEvent(item) in {RestorePrepared, RestoreUnsigned, RestoreRunning, RestoreDelivery, RestoreUnknown}
  {
  }

  /** A restored phase is a live one, and a new epoch makes it unknown. */
  lemma RestoredPhases(k: Kind, hold: bool, e: Event)
    requires e in {RestorePrepared, RestoreUnsigned, RestoreRunning, RestoreDelivery, RestoreUnknown}
    ensures NextPhase(k, hold, Absent, e) !in {Absent, Retired}
    ensures NextPhase(k, hold, NextPhase(k, hold, Absent, e), EpochChanged) in {Unknown, UnsignedUnknown}
  {
  }

  lemma {:induction false} RestoredFromFacts(records: seq<Record>, oid: string, current: Epoch)
    ensures !RestoredFrom(records, oid, current).Tomb? && ViewOk(RestoredFrom(records, oid, current))
    decreases |records|
  {
    if records != [] {
      RestoredFacts(records[0].item, current);
      hide Restored;
      RestoredFromFacts(records[1..], oid, current);
    }
  }

  lemma ClaimedFacts(epoch: Epoch, hold: bool, kind: Kind, session: nat)
    ensures ClaimedItem(epoch, hold, kind, session).Live? && ItemOk(ClaimedItem(epoch, hold, kind, session).item)
    ensures PhaseOf(ClaimedItem(epoch, hold, kind, session).item) == if Signable(kind) then Preparing else Submitting
    ensures ClaimedItem(epoch, hold, kind, session).item.epoch == epoch
  {
    FirstPhase(NewItem(epoch, hold, kind), if Signable(kind) then Prepare else Claimed);
  }

  lemma ResultFacts(item: Item, oid: string, response: Response, epoch: Epoch, current: Epoch)
    requires ItemOk(item)
    ensures ViewOk(AfterResult(item, oid, response, epoch, current))
    ensures ViewEvolves(Live(item), AfterResult(item, oid, response, epoch, current))
  {
    Filled(item, item);
    var own := Addressed(item, response, epoch, current);
    if own.Some? {
      assert Fills(item, own.value);
      Filled(item, own.value);
      forall e | e in {NotStarted, Lost, Approval, PendingReported, Missing}
        ensures ViewOk(Advance(own.value, e)) && ViewEvolves(Live(item), Advance(own.value, e))
      {
        PlainAdvance(item, own.value, e);
      }
      if Carries(response) {
        ReportedResult(item, own.value, oid, response, epoch, current);
      }
    }
    hide Advance, ItemOk, Addressed, Observed, Evolves, Fills, PhaseOf;
  }

  lemma ReportedResult(item: Item, own: Item, oid: string, response: Response, epoch: Epoch, current: Epoch)
    requires ItemOk(item) && ItemOk(own) && Evolves(item, own) && Carries(response)
    ensures var seen := Observed(oid, own, response.result.value, epoch, About(item, oid, response), current);
      && ViewOk(seen) && ViewEvolves(Live(item), seen)
      && (seen.Live? ==> ViewOk(Advance(seen.item, ControlComplete))
                         && ViewEvolves(Live(item), Advance(seen.item, ControlComplete)))
  {
    var about := About(item, oid, response);
    var seen := Observed(oid, own, response.result.value, epoch, about, current);
    ObservedFacts(oid, own, response.result.value, epoch, about, current);
    EvolvesThen(item, own, seen);
    if seen.Live? {
      assert ItemOk(seen.item) && Evolves(item, seen.item) && Fills(seen.item, seen.item);
      hide *;
      PlainAdvance(seen.item, seen.item, ControlComplete);
      EvolvesThen(item, seen.item, Advance(seen.item, ControlComplete));
    }
  }

  /** Every call keeps every record valid, lets it only move forward and never touches a tombstone. */
  lemma NextViewFacts(g: Gate, c: Call, oid: string)
    requires GateInv(g)
    ensures ViewOk(NextView(g, c, oid)) && ViewEvolves(ViewOf(g, oid), NextView(g, c, oid))
  {
    var v := ViewOf(g, oid);
    hide ClaimedItem, RestoredFrom, NextLive, ItemOk;
    if v.Live? {
      LiveFacts(g, c, oid, v.item);
    } else {
      match c {
        case Restore(records) => RestoredFromFacts(records, oid, g.current);
        case Claim(o, epoch, hold, kind, session) => ClaimedFacts(epoch, hold, kind, session);
        case _ =>
      }
    }
  }

  lemma LiveFacts(g: Gate, c: Call, oid: string, item: Item)
    requires ItemOk(item)
    ensures ViewOk(NextLive(g, c, oid, item)) && ViewEvolves(Live(item), NextLive(g, c, oid, item))
  {
    Filled(item, item);
    hide Advance, ItemOk, Observed, NextByResult, AfterFailed, AfterSign, Evolves, PhaseOf;
    match c {
      case Bind(o, epoch) =>
        if Bound(item, epoch, g.current).Some? {
          Filled(item, Bound(item, epoch, g.current).value);
        }
      case SignCall(o, epoch) => SignFacts(item, epoch, g.current);
      case Failed(o, notStarted, epoch) => FailedFacts(item, notStarted, epoch, g.current);
      case Result(o, response, epoch) => ByResultFacts(g, o, response, epoch, oid, item);
      case Snapshot(report, epoch) => ObservedFacts(oid, item, report, epoch, report.executionId, g.current);
      case Connected(_) => PlainAdvance(item, item, EpochChanged);
      case CancelPrepared(_) => PlainAdvance(item, item, CancelUnsigned);
      case QueryFailed(_, _) => PlainAdvance(item, item, QueryFailure);
      case ReconcilePrepared(_, _) => PlainAdvance(item, item, CancelUnsigned);
      case Release(_, _) => PlainAdvance(item, item, ReleaseOutput);
      case _ =>
    }
  }

  lemma SignFacts(item: Item, epoch: Epoch, current: Epoch)
    requires ItemOk(item)
    ensures ViewOk(AfterSign(item, epoch, current)) && ViewEvolves(Live(item), AfterSign(item, epoch, current))
  {
    Filled(item, item);
    hide Advance, ItemOk, Evolves, PhaseOf;
    var bound := Bound(item, epoch, current);
    if bound.Some? {
      PlainAdvance(item, bound.value, Sign);
    }
  }

  lemma ByResultFacts(g: Gate, o: string, response: Response, epoch: Epoch, oid: string, item: Item)
    requires ItemOk(item)
    ensures ViewOk(NextByResult(g, o, response, epoch, oid, item))
    ensures ViewEvolves(Live(item), NextByResult(g, o, response, epoch, oid, item))
  {
    Filled(item, item);
    hide ItemOk, Observed, AfterResult, Evolves, PhaseOf;
    if o == oid {
      ResultFacts(item, oid, response, epoch, g.current);
    } else if Spreads(g, o, response, epoch) {
      ObservedFacts(oid, item, response.result.value, epoch, About(g.operations[o], o, response), g.current);
    }
  }

  lemma FailedFacts(item: Item, notStarted: bool, epoch: Epoch, current: Epoch)
    requires ItemOk(item)
    ensures ViewOk(AfterFailed(item, notStarted, epoch, current))
    ensures ViewEvolves(Live(item), AfterFailed(item, notStarted, epoch, current))
  {
    var e := Or(epoch, item.epoch);
    var bound := if item.epoch.None? then Bound(item, e, current) else Some(item);
    Filled(item, item);
    if bound.Some? {
      Filled(item, bound.value);
      PlainAdvance(item, bound.value, if notStarted then NotStarted else Lost);
    }
    hide Advance, ItemOk, Evolves, Fills, PhaseOf;
  }

  // ----- runs

  const EMPTY_GATE := Gate(map[], map[], None)

  ghost predicate Run(gates: seq<Gate>, calls: seq<Call>) {
    && gates != [] && gates[0] == EMPTY_GATE && |calls| == |gates| - 1
    && forall i :: 0 <= i < |calls| ==> Step(gates[i], calls[i], gates[i + 1])
  }

  lemma StepKeeps(g: Gate, c: Call, after: Gate)
    requires GateInv(g) && Step(g, c, after)
    ensures GateInv(after)
    ensures forall oid :: ViewEvolves(ViewOf(g, oid), ViewOf(after, oid))
  {
    hide ItemOk, NextView, ViewEvolves;
    forall oid
      ensures ViewEvolves(ViewOf(g, oid), ViewOf(after, oid)) && ViewOk(ViewOf(after, oid))
    {
      assert ViewOf(after, oid) == NextView(g, c, oid);
      NextViewFacts(g, c, oid);
    }
    forall oid | oid in after.operations
      ensures ItemOk(after.operations[oid])
    {
      assert ViewOk(ViewOf(after, oid));
    }
  }

  lemma {:induction false} RunInv(gates: seq<Gate>, calls: seq<Call>, i: nat)
    requires Run(gates, calls) && i < |gates|
    ensures GateInv(gates[i])
    decreases i
  {
    if i > 0 {
      RunInv(gates, calls, i - 1);
      hide GateInv, Step;
      assert Step(gates[i - 1], calls[i - 1], gates[i]);
      StepKeeps(gates[i - 1], calls[i - 1], gates[i]);
    }
  }

  lemma ViewEvolvesThen(u: View, v: View, w: View)
    requires ViewEvolves(u, v) && ViewEvolves(v, w) && (u.Unseen? || !v.Unseen?)
    ensures ViewEvolves(u, w)
  {
  }

  /** Over any stretch of a run each operation only moves forward. */
  lemma {:induction false} RunEvolves(gates: seq<Gate>, calls: seq<Call>, i: nat, j: nat, oid: string)
    requires Run(gates, calls) && i <= j < |gates|
    ensures ViewEvolves(ViewOf(gates[i], oid), ViewOf(gates[j], oid))
    ensures !ViewOf(gates[i], oid).Unseen? ==> !ViewOf(gates[j], oid).Unseen?
    decreases j
  {
    if i < j {
      RunEvolves(gates, calls, i, j - 1, oid);
      RunInv(gates, calls, j - 1);
      assert Step(gates[j - 1], calls[j - 1], gates[j]);
      hide Step, GateInv, ViewOf, Evolves, ViewEvolves, Run;
      StepKeeps(gates[j - 1], calls[j - 1], gates[j]);
      ViewEvolvesThen(ViewOf(gates[i], oid), ViewOf(gates[j - 1], oid), ViewOf(gates[j], oid));
    } else {
      hide Run;
    }
  }

  // ----- at most once

  /** `claim` answers True. */
  ghost predicate Claims(g: Gate, c: Call, oid: string) {
    c.Claim? && c.oid == oid && ViewOf(g, oid).Unseen?
  }

  /** `sign` answers True: the record is bound, unsigned and prepared, and leaves as signing. */
  predicate Signs(g: Gate, c: Call, oid: string) {
    && c.SignCall? && c.oid == oid && oid in g.operations
    && Signable(g.operations[oid].kind) && Bound(g.operations[oid], c.epoch, g.current).Some?
    && Turns(g.operations[oid])
  }

  predicate Turns(item: Item) {
    PhaseOf(item) != Signing && NextPhase(item.kind, item.hold, PhaseOf(item), Sign) == Signing
  }

  /** No operation id is ever claimed twice, whatever happens in between. */
  lemma ClaimedOnce(gates: seq<Gate>, calls: seq<Call>, i: nat, j: nat, oid: string)
    requires Run(gates, calls) && i < j < |calls|
    requires Claims(gates[i], calls[i], oid)
    ensures !Claims(gates[j], calls[j], oid)
  {
    var c := calls[i];
    assert Step(gates[i], c, gates[i + 1]);
    ClaimedFacts(c.epoch, c.hold, c.kind, c.session);
    assert ViewOf(gates[i + 1], oid) == NextView(gates[i], c, oid);
    hide Step, ClaimedItem;
    RunEvolves(gates, calls, i + 1, j, oid);
  }

  lemma SignedAfter(g: Gate, c: Call, after: Gate, oid: string)
    requires GateInv(g) && Step(g, c, after) && Signs(g, c, oid)
    ensures oid in after.operations && PhaseOf(after.operations[oid]) == Signing
  {
    var bound := Bound(g.operations[oid], c.epoch, g.current).value;
    assert ItemOk(g.operations[oid]) && Fills(g.operations[oid], bound);
    Filled(g.operations[oid], bound);
    MostlyReady(bound, Sign);
    Advanced(bound, Sign);
    assert ViewOf(after, oid) == NextView(g, c, oid);
    hide Step, NextPhase, PhaseOf, ItemOk;
  }

  /** No operation id is ever signed twice, and what was signed is never unsigned again. */
  lemma SignedOnce(gates: seq<Gate>, calls: seq<Call>, i: nat, j: nat, oid: string)
    requires Run(gates, calls) && i < j < |gates|
    requires Signs(gates[i], calls[i], oid)
    ensures oid in gates[j].operations ==> !Unsigned(PhaseOf(gates[j].operations[oid]))
    ensures j < |calls| ==> !Signs(gates[j], calls[j], oid)
  {
    RunInv(gates, calls, i);
    assert Step(gates[i], calls[i], gates[i + 1]);
    SignedAfter(gates[i], calls[i], gates[i + 1], oid);
    RunEvolves(gates, calls, i + 1, j, oid);
    assert oid in gates[j].operations ==> Evolves(gates[i + 1].operations[oid], gates[j].operations[oid]);
    hide Step, Signs, PhaseOf, GateInv;
    if j < |calls| && Signs(gates[j], calls[j], oid) {
      SigningNeedsUnsigned(gates[j], calls[j], oid);
    }
  }

  lemma SigningNeedsUnsigned(g: Gate, c: Call, oid: string)
    requires Signs(g, c, oid)
    ensures Unsigned(PhaseOf(g.operations[oid]))
  {
  }

  // ----- controls

  /** A receipt or a proven failure for this very id. */
  predicate OwnSettlement(c: Call, oid: string) {
    || (c.Failed? && c.oid == oid && c.notStarted)
    || (c.Result? && c.oid == oid
        && (c.response.error == Some(true) || (Carries(c.response) && c.response.state == Complete)))
  }

  lemma ControlEvents(item: Item, e: Event)
    requires item.kind == Control && ItemOk(item) && Advance(item, e).Tomb?
    ensures e in {ControlComplete, NotStarted}
  {
  }

  lemma ControlObserved(oid: string, item: Item, r: Report, epoch: Epoch, about: string, current: Epoch)
    requires item.kind == Control && ItemOk(item)
    ensures Observed(oid, item, r, epoch, about, current).Live?
  {
  }

  /** A control operation retires only on a receipt or a proven failure for its own id. */
  lemma ControlSettlesItself(g: Gate, c: Call, after: Gate, oid: string)
    requires GateInv(g) && Step(g, c, after)
    requires oid in g.operations && g.operations[oid].kind == Control && oid !in after.operations
    ensures OwnSettlement(c, oid)
  {
    assert ItemOk(g.operations[oid]);
    assert ViewOf(after, oid) == NextView(g, c, oid);
    hide Step, GateInv, NextLive, ItemOk, OwnSettlement;
    ControlSettled(g, c, oid, g.operations[oid]);
  }

  lemma ControlStays(item: Item, b: Item, e: Event)
    requires item.kind == Control && ItemOk(item) && Fills(item, b) && e !in {ControlComplete, NotStarted}
    ensures !Advance(b, e).Tomb?
  {
    Filled(item, b);
    if Advance(b, e).Tomb? {
      ControlEvents(b, e);
    }
  }

  lemma ControlSettled(g: Gate, c: Call, oid: string, item: Item)
    requires item.kind == Control && ItemOk(item) && NextLive(g, c, oid, item).Tomb?
    ensures OwnSettlement(c, oid)
  {
    hide Advance, Observed, NextByResult, ItemOk;
    match c
    case Connected(_) => ControlStays(item, item, EpochChanged);
    case Restore(_) =>
    case Claim(_, _, _, _, _) =>
    case Bind(_, _) =>
    case SignCall(_, _) =>
    case Failed(_, _, _) =>
      var e := Or(c.epoch, item.epoch);
      var bound := if item.epoch.None? then Bound(item, e, g.current) else Some(item);
      if bound.Some? {
        ControlStays(item, bound.value, Lost);
      }
    case CancelPrepared(_) => ControlStays(item, item, CancelUnsigned);
    case QueryFailed(_, _) => ControlStays(item, item, QueryFailure);
    case ReconcilePrepared(_, _) => ControlStays(item, item, CancelUnsigned);
    case Result(o, response, epoch) => ControlResult(g, o, response, epoch, oid, item);
    case Snapshot(report, epoch) => ControlObserved(oid, item, report, epoch, report.executionId, g.current);
    case Release(_, _) => ControlStays(item, item, ReleaseOutput);
  }

  lemma ControlResult(g: Gate, o: string, response: Response, epoch: Epoch, oid: string, item: Item)
    requires item.kind == Control && ItemOk(item) && NextByResult(g, o, response, epoch, oid, item).Tomb?
    ensures o == oid && (response.error == Some(true) || (Carries(response) && response.state == Complete))
  {
    if o == oid {
      var own := Addressed(item, response, epoch, g.current);
      assert own.Some? && Fills(item, own.value);
      Filled(item, own.value);
      forall e | Advance(own.value, e).Tomb?
        ensures e in {ControlComplete, NotStarted}
      {
        ControlEvents(own.value, e);
      }
      if Carries(response) {
        ControlObserved(oid, own.value, response.result.value, epoch, About(item, oid, response), g.current);
      }
      hide Advance, Observed, ItemOk, Addressed;
    } else if Spreads(g, o, response, epoch) {
      ControlObserved(oid, item, response.result.value, epoch, About(g.operations[o], o, response), g.current);
    }
  }

  // ----- epochs

  /** The operation is bound to an epoch that is not the current one. */
  predicate ForeignTo(item: Item, current: Epoch) {
    current.Some? && item.epoch.Some? && item.epoch != current
  }

  ghost predicate ForeignUnknown(g: Gate) {
    forall oid :: oid in g.operations && ForeignTo(g.operations[oid], g.current) ==>
      PhaseOf(g.operations[oid]) in {Unknown, UnsignedUnknown}
  }

  /** A claim that creates an operation for an epoch other than the current one. */
  ghost predicate ClaimsForeign(g: Gate, c: Call) {
    c.Claim? && ViewOf(g, c.oid).Unseen? && g.current.Some? && c.epoch.Some? && c.epoch != g.current
  }

  lemma EpochChangedPhase(item: Item)
    requires ItemOk(item)
    ensures Advance(item, EpochChanged).Live?
    ensures PhaseOf(Advance(item, EpochChanged).item) in {Unknown, UnsignedUnknown}
    ensures Advance(item, EpochChanged).item.epoch == item.epoch
  {
  }

  /** After a connection every operation of another epoch is unknown. */
  lemma ConnectedUnknown(g: Gate, c: Call, after: Gate)
    requires GateInv(g) && c.Connected? && Step(g, c, after)
    ensures ForeignUnknown(after)
  {
    forall oid | oid in after.operations && ForeignTo(after.operations[oid], after.current)
      ensures PhaseOf(after.operations[oid]) in {Unknown, UnsignedUnknown}
    {
      assert ViewOf(after, oid) == NextView(g, c, oid);
      assert oid in g.operations && ItemOk(g.operations[oid]);
      hide ItemOk, PhaseOf, Advance;
      EpochChangedPhase(g.operations[oid]);
    }
  }

  /** While the epoch stays current an operation of another epoch is frozen, but for cancelling it unsigned. */
  lemma ForeignFrozen(g: Gate, c: Call, after: Gate, oid: string)
    requires GateInv(g) && Step(g, c, after) && !c.Connected?
    requires oid in g.operations && ForeignTo(g.operations[oid], g.current)
    ensures var item := g.operations[oid];
      if c == CancelPrepared(oid) && Unsigned(PhaseOf(item)) then ViewOf(after, oid) == Tomb(item.epoch)
      else ViewOf(after, oid) == Live(item)
  {
    var item := g.operations[oid];
    assert ItemOk(item);
    assert ViewOf(after, oid) == NextView(g, c, oid);
    hide Step;
    if c == CancelPrepared(oid) {
      CancelKeepsSigned(item);
    } else {
      hide Advance, ItemOk, PhaseOf, WithEvidence, RestoredFrom, ClaimedItem, Reported, NextPhase, Permitted;
    }
  }

  lemma CancelKeepsSigned(item: Item)
    requires ItemOk(item)
    ensures Advance(item, CancelUnsigned) == if Unsigned(PhaseOf(item)) then Tomb(item.epoch) else Live(item)
  {
  }

  /** A live record is only ever bound to the current epoch. */
  lemma BindsCurrent(g: Gate, c: Call, oid: string, item: Item)
    requires ItemOk(item) && !c.Connected? && NextLive(g, c, oid, item).Live?
    ensures var e := NextLive(g, c, oid, item).item.epoch;
      e == item.epoch || (item.epoch.None? && (g.current.None? || e == g.current))
  {
    hide NextPhase, PhaseOf, Store, ItemOk;
    forall b, e | Advance(b, e).Live?
      ensures Advance(b, e).item.epoch == b.epoch
    {
      AdvanceKeepsEpoch(b, e);
    }
    hide Advance, Reported;
  }

  lemma AdvanceKeepsEpoch(item: Item, e: Event)
    requires Advance(item, e).Live?
    ensures Advance(item, e).item.epoch == item.epoch
  {
  }

  lemma ForeignLater(g: Gate, c: Call, after: Gate, oid: string)
    requires GateInv(g) && ForeignUnknown(g) && Step(g, c, after) && !c.Connected?
    requires oid in after.operations && ForeignTo(after.operations[oid], after.current)
    ensures PhaseOf(after.operations[oid]) in {Unknown, UnsignedUnknown} || (ClaimsForeign(g, c) && c.oid == oid)
  {
    assert ViewOf(after, oid) == NextView(g, c, oid);
    var v := ViewOf(g, oid);
    match v {
      case Live(item) =>
        assert ItemOk(item);
        BindsCurrent(g, c, oid, item);
        if ForeignTo(item, g.current) {
          ForeignFrozen(g, c, after, oid);
        }
      case Unseen =>
        if c.Restore? {
          RestoredForeign(c.records, oid, g.current);
        }
        if c.Claim? {
          ClaimedFacts(c.epoch, c.hold, c.kind, c.session);
        }
      case Tomb(_) =>
    }
    hide Step, NextLive, RestoredFrom, ClaimedItem, ItemOk, PhaseOf;
  }

  lemma {:induction false} RestoredForeign(records: seq<Record>, oid: string, current: Epoch)
    requires RestoredFrom(records, oid, current).Live?
    ensures var item := RestoredFrom(records, oid, current).item;
      current.Some? && item.epoch != current ==> PhaseOf(item) in {Unknown, UnsignedUnknown}
    decreases |records|
  {
    RestoredFacts(records[0].item, current);
    hide Restored, PhaseOf, ItemOk;
    if records[0].oid != oid {
      RestoredForeign(records[1..], oid, current);
    }
  }

  /** Operations of other epochs stay unknown exactly until a claim creates one for such an epoch. */
  lemma ForeignUnknownExactly(g: Gate, c: Call, after: Gate)
    requires GateInv(g) && ForeignUnknown(g) && Step(g, c, after)
    ensures ForeignUnknown(after) <==> !ClaimsForeign(g, c)
  {
    if c.Connected? {
      ConnectedUnknown(g, c, after);
    } else {
      if ClaimsForeign(g, c) {
        assert ViewOf(after, c.oid) == NextView(g, c, c.oid);
        ClaimedFacts(c.epoch, c.hold, c.kind, c.session);
      } else {
        hide Step, PhaseOf, GateInv, ClaimsForeign;
        forall oid | oid in after.operations && ForeignTo(after.operations[oid], after.current)
          ensures PhaseOf(after.operations[oid]) in {Unknown, UnsignedUnknown}
        {
          ForeignLater(g, c, after, oid);
        }
      }
    }
  }

  /** From a connection on, also across later ones, as long as no claim names another epoch. */
  lemma {:induction false} ForeignStaysUnknown(gates: seq<Gate>, calls: seq<Call>, i: nat, j: nat)
    requires Run(gates, calls) && i < j < |gates| && calls[i].Connected?
    requires forall n :: i < n < j ==> !ClaimsForeign(gates[n], calls[n])
    ensures ForeignUnknown(gates[j])
    decreases j
  {
    RunInv(gates, calls, j - 1);
    assert Step(gates[j - 1], calls[j - 1], gates[j]);
    hide Step, GateInv, ForeignUnknown, ClaimsForeign;
    if j == i + 1 {
      ConnectedUnknown(gates[i], calls[i], gates[j]);
    } else {
      ForeignStaysUnknown(gates, calls, i, j - 1);
      ForeignUnknownExactly(gates[j - 1], calls[j - 1], gates[j]);
    }
  }

  /** The condition is needed: a claim for another epoch leaves an operation submitting for good. */
  lemma ForeignClaimExample() returns (gates: seq<Gate>, calls: seq<Call>)
    ensures Run(gates, calls) && |calls| == 2 && calls[0].Connected?
    ensures GateInv(gates[1]) && ForeignUnknown(gates[1]) && !ForeignUnknown(gates[2])
  {
    var now, other := Some("now"), Some("other");
    var item := Item(Execution, PSubmitting, false, false, other, 0, "");
    var open, claimed := Gate(map[], map[], now), Gate(map["id" := item], map[], now);
    gates, calls := [EMPTY_GATE, open, claimed], [Connected(now), Claim("id", other, false, Execution, 0)];
    assert Step(EMPTY_GATE, calls[0], open);
    forall oid
      ensures ViewOf(claimed, oid) == NextView(open, calls[1], oid)
    {
    }
    assert Step(open, calls[1], claimed);
    assert ForeignTo(claimed.operations["id"], now);
  }

  /** Calls that name one id touch no other. */
  predicate Single(c: Call) {
    c.Claim? || c.Bind? || c.SignCall? || c.Failed? || c.CancelPrepared? || c.QueryFailed? || c.ReconcilePrepared?
  }

  lemma SingleStep(g: Gate, c: Call, after: Gate)
    requires Single(c) && Disjoint(after) && after.current == g.current
    requires ViewOf(after, c.oid) == NextView(g, c, c.oid)
    requires forall o :: o != c.oid ==> ViewOf(after, o) == ViewOf(g, o)
    ensures Step(g, c, after)
  {
    hide ClaimedItem, AfterSign, AfterFailed, Advance, Disjoint;
  }

  /** The gate in the middle of a call that visits every operation, `todo` still to be visited. */
  ghost predicate Partly(g: Gate, c: Call, now: Gate, todo: set<string>) {
    && Disjoint(now) && now.current == (if c.Connected? then c.epoch else g.current) && todo <= g.operations.Keys
    && forall o :: ViewOf(now, o) == if o in todo then ViewOf(g, o) else NextView(g, c, o)
  }

  lemma PartlyStart(g: Gate, c: Call)
    requires Disjoint(g) && (c.Connected? || c.Release?)
    ensures Partly(g, c, if c.Connected? then g.(current := c.epoch) else g, g.operations.Keys)
  {
    hide NextLive;
  }

  lemma PartlyAt(g: Gate, c: Call, now: Gate, todo: set<string>, oid: string)
    requires Partly(g, c, now, todo) && oid in todo
    ensures Disjoint(now) && oid in g.operations && oid in now.operations && now.operations[oid] == g.operations[oid]
    ensures now.current == if c.Connected? then c.epoch else g.current
    ensures c.Connected? ==> NextView(g, c, oid) == AfterConnect(g.operations[oid], c.epoch)
    ensures c.Release? ==> NextView(g, c, oid) == AfterRelease(g.operations[oid], c.output, c.epoch, g.current)
  {
    assert ViewOf(now, oid) == ViewOf(g, oid);
    hide AfterConnect, AfterRelease;
  }

  lemma PartlyStep(g: Gate, c: Call, now: Gate, todo: set<string>, after: Gate, oid: string)
    requires Partly(g, c, now, todo) && oid in todo
    requires Disjoint(after) && after.current == now.current && ViewOf(after, oid) == NextView(g, c, oid)
    requires forall o :: o != oid ==> ViewOf(after, o) == ViewOf(now, o)
    ensures Partly(g, c, after, todo - {oid})
  {
    hide NextView, ViewOf;
  }

  lemma PartlyDone(g: Gate, c: Call, now: Gate)
    requires Partly(g, c, now, {})
    ensures Step(g, c, now)
  {
    hide NextView, ViewOf;
  }

  lemma SnapshotStep(g: Gate, r: Report, epoch: Epoch, after: Gate)
    requires Disjoint(after) && after.current == g.current
    requires forall o ::
      ViewOf(after, o) ==
        if o in g.operations then Observed(o, g.operations[o], r, epoch, r.executionId, g.current) else ViewOf(g, o)
    ensures Step(g, Snapshot(r, epoch), after)
  {
    hide Observed;
  }

  /** A result that carries no report touches its own operation only. */
  lemma ResultStep(g: Gate, oid: string, response: Response, epoch: Epoch, after: Gate)
    requires Disjoint(after) && after.current == g.current && !Spreads(g, oid, response, epoch)
    requires ViewOf(after, oid) ==
      if oid in g.operations then AfterResult(g.operations[oid], oid, response, epoch, g.current) else ViewOf(g, oid)
    requires forall o :: o != oid ==> ViewOf(after, o) == ViewOf(g, o)
    ensures Step(g, Result(oid, response, epoch), after)
  {
  }

  lemma SpreadStep(g: Gate, oid: string, response: Response, epoch: Epoch, after: Gate)
    requires Disjoint(after) && after.current == g.current && Spreads(g, oid, response, epoch)
    requires ViewOf(after, oid) == AfterResult(g.operations[oid], oid, response, epoch, g.current)
    requires var about := About(g.operations[oid], oid, response);
      forall o :: o != oid ==>
        ViewOf(after, o) == if o in g.operations
          then Observed(o, g.operations[o], response.result.value, epoch, about, g.current) else ViewOf(g, o)
    ensures Step(g, Result(oid, response, epoch), after)
  {
    hide AfterResult, Observed;
  }

  lemma RestoreStep(g: Gate, records: seq<Record>, after: Gate)
    requires Disjoint(after) && after.current == g.current
    requires forall o ::
      ViewOf(after, o) == if ViewOf(g, o).Unseen? then RestoredFrom(records, o, g.current) else ViewOf(g, o)
    ensures Step(g, Restore(records), after)
  {
  }

  lemma ClaimStep(g: Gate, oid: string, epoch: Epoch, hold: bool, kind: Kind, session: nat, after: Gate)
    requires Disjoint(after) && after.current == g.current
    requires ViewOf(after, oid) ==
      if ViewOf(g, oid).Unseen? then ClaimedItem(epoch, hold, kind, session) else ViewOf(g, oid)
    requires forall o :: o != oid ==> ViewOf(after, o) == ViewOf(g, o)
    ensures Step(g, Claim(oid, epoch, hold, kind, session), after)
  {
  }

  lemma SignStep(g: Gate, oid: string, epoch: Epoch, after: Gate)
    requires Disjoint(after) && after.current == g.current
    requires ViewOf(after, oid) ==
      if oid in g.operations then AfterSign(g.operations[oid], epoch, g.current) else ViewOf(g, oid)
    requires forall o :: o != oid ==> ViewOf(after, o) == ViewOf(g, o)
    ensures Step(g, SignCall(oid, epoch), after)
  {
  }

  lemma TurnsBound(item: Item, epoch: Epoch, current: Epoch)
    requires Bound(item, epoch, current).Some?
    ensures Turns(Bound(item, epoch, current).value) == Turns(item)
  {
  }
}
