/** The phases of a remote operation and how its record stores them. */
module Lifecycle {
  import opened Prelude

  datatype Kind = Control | Execution | Privileged | Shutdown

  datatype Phase =
    | Absent | Delivery | Pending | Prepared | Preparing | Retired
    | Running | Signing | Submitting | Unknown | UnsignedUnknown

  datatype Event =
    | Accepted | Approval | CancelUnsigned | Claimed | ControlComplete | EpochChanged | Foreign | Lost | Missing
    | NotStarted | PendingReported | Prepare | QueryFailure | ReleaseOutput
    | RestoreDelivery | RestorePrepared | RestoreRunning | RestoreSubmitting | RestoreUnknown | RestoreUnsigned
    | RunningReported | Sign | Terminal | TerminalEmpty

  /** Kinds that are approved and signed before they are sent. */
  predicate Signable(k: Kind) {
    k == Privileged || k == Shutdown
  }

  /** Kinds that own a session and its output. */
  predicate Yields(k: Kind) {
    k == Execution || k == Privileged
  }

  predicate ValidPhase(k: Kind, p: Phase) {
    match p
    case Absent | Pending | Retired | Unknown => true
    case Running | Delivery => Yields(k)
    case Submitting => !Signable(k)
    case Preparing | Prepared | Signing | UnsignedUnknown => Signable(k)
  }

  predicate Unsigned(p: Phase) {
    p == Prepared || p == Preparing || p == UnsignedUnknown
  }

  /** Sent to the worker and not answered yet. */
  predicate InFlight(p: Phase) {
    p == Submitting || p == Signing || p == Pending
  }

  /** The transition table; a pair it does not list keeps its phase. */
  function NextPhase(k: Kind, hold: bool, p: Phase, e: Event): Phase {
    match e
    case Claimed => if p == Absent && !Signable(k) then Submitting else p
    case Prepare => if p == Absent && Signable(k) then Preparing else p
    case RestorePrepared => if p != Absent then p else if Signable(k) then Prepared else Unknown
    case RestoreUnsigned => if p != Absent then p else if Signable(k) then UnsignedUnknown else Unknown
    case RestoreRunning => if p != Absent then p else if Yields(k) then Running else Unknown
    case RestoreDelivery => if p != Absent then p else if Yields(k) then Delivery else Unknown
    case RestoreSubmitting | RestoreUnknown => if p == Absent then Unknown else p
    case Approval => if p == Preparing || p == UnsignedUnknown then Prepared else p
    case Sign => if p == Prepared || p == UnsignedUnknown then Signing else p
    case CancelUnsigned => if Unsigned(p) then Retired else p
    case NotStarted => if InFlight(p) || p == Unknown || Unsigned(p) then Retired else p
    case Lost | Missing | TerminalEmpty =>
      if InFlight(p) then Unknown else if p == Prepared || p == Preparing then UnsignedUnknown else p
    case QueryFailure => if InFlight(p) then Unknown else p
    case EpochChanged =>
      if InFlight(p) || p == Running || p == Delivery then Unknown
      else if p == Prepared || p == Preparing then UnsignedUnknown else p
    case PendingReported => if p == Submitting || p == Signing || p == Unknown then Pending else p
    case RunningReported => if Yields(k) && (InFlight(p) || p == Unknown) then Running else p
    case Terminal =>
      if !Yields(k) then p
      else if InFlight(p) || p == Unknown || p == Running then (if hold then Delivery else Retired)
      else if p == Delivery && !hold then Retired else p
    case Accepted => if k == Shutdown && (InFlight(p) || p == Unknown) then Retired else p
    case ControlComplete => if k == Control && p != Absent && p != Retired then Retired else p
    case ReleaseOutput => if p == Running || p == Delivery then Retired else p
    case Foreign => p
  }

  /** No event leaves the phases of its kind. */
  lemma NextPhaseValid(k: Kind, hold: bool, p: Phase, e: Event)
    requires ValidPhase(k, p)
    ensures ValidPhase(k, NextPhase(k, hold, p, e))
  {
  }

  /** No event makes an operation absent again or revives a retired one. */
  lemma NextPhaseForward(k: Kind, hold: bool, p: Phase, e: Event)
    ensures p != Absent ==> NextPhase(k, hold, p, e) != Absent
    ensures p == Retired ==> NextPhase(k, hold, p, e) == Retired
  {
  }

  /** A signature is never undone, and leaving the unsigned phases is signing or retiring. */
  lemma SignedForGood(k: Kind, hold: bool, p: Phase, e: Event)
    requires ValidPhase(k, p) && p != Absent
    ensures !Unsigned(p) ==> !Unsigned(NextPhase(k, hold, p, e))
    ensures Unsigned(p) && !Unsigned(NextPhase(k, hold, p, e)) ==>
      NextPhase(k, hold, p, e) == Retired || (e == Sign && NextPhase(k, hold, p, e) == Signing)
  {
    hide NextPhase, ValidPhase, Unsigned;
    if Unsigned(p) {
      LeavesUnsigned(k, hold, p, e);
    } else {
      StaysSigned(k, hold, p, e);
    }
  }

  lemma StaysSigned(k: Kind, hold: bool, p: Phase, e: Event)
    requires !Unsigned(p) && p != Absent
    ensures !Unsigned(NextPhase(k, hold, p, e))
  {
  }

  lemma LeavesUnsigned(k: Kind, hold: bool, p: Phase, e: Event)
    requires Unsigned(p)
    ensures Unsigned(NextPhase(k, hold, p, e)) || NextPhase(k, hold, p, e) == Retired
         || (e == Sign && NextPhase(k, hold, p, e) == Signing)
  {
  }

  // ----- how a record stores its phase

  /** The public state names; two of them stand for more than one phase. */
  datatype Public = PAbsent | PDelivery | PPending | PAwaitingApproval | PSubmitting | PRetired | PRunning | PUnknown

  function PublicPhase(p: Phase): Public {
    match p
    case Absent => PAbsent
    case Delivery => PDelivery
    case Pending => PPending
    case Prepared => PAwaitingApproval
    case Preparing | Signing | Submitting => PSubmitting
    case Retired => PRetired
    case Running => PRunning
    case Unknown | UnsignedUnknown => PUnknown
  }

  type Epoch = Option<string>

  datatype Item = Item(kind: Kind, state: Public, unsigned: bool, hold: bool, epoch: Epoch, session: nat, output: string)

  function PhaseOf(item: Item): Phase {
    match item.state
    case PSubmitting => if !Signable(item.kind) then Submitting else if item.unsigned then Preparing else Signing
    case PAwaitingApproval => if item.unsigned then Prepared else Signing
    case PUnknown => if item.unsigned && Signable(item.kind) then UnsignedUnknown else Unknown
    case PAbsent => Absent
    case PDelivery => Delivery
    case PPending => Pending
    case PRetired => Retired
    case PRunning => Running
  }

  function Store(item: Item, p: Phase): Item {
    item.(state := PublicPhase(p), unsigned := if Signable(item.kind) then Unsigned(p) else item.unsigned)
  }

  /** The record says its phase the one way it is written. */
  predicate Canonical(item: Item) {
    Store(item, PhaseOf(item)) == item
  }

  /** Reading back what was stored gives the same phase, for every phase the kind can be in. */
  lemma StoredPhase(item: Item, p: Phase)
    requires ValidPhase(item.kind, p)
    ensures PhaseOf(Store(item, p)) == p
    ensures Store(item, p).(state := item.state, unsigned := item.unsigned) == item
    ensures Canonical(Store(item, p))
  {
  }

  datatype Relation = Exact | SameSession | Unrelated

  /** Which reports may touch an operation. */
  predicate Permitted(k: Kind, p: Phase, r: Relation, sameEpoch: bool) {
    sameEpoch && (r == Exact || (r == SameSession && Yields(k) && (p == Running || p == Delivery)))
  }
}
