/** What the router believes about the runtime epoch of one target.

    Replies carry the sequence number of their request, so a late reply can be told from a new one.
 */
module EpochFence {
  import opened Prelude

  /** The last request that spoke about the epoch, and the epoch unless it is known to be gone. */
  datatype Seen = Seen(sequence: nat, epoch: Option<string>)

  datatype Fence = Fence(observed: Option<Seen>, retired: set<string>)

  const OPEN := Fence(None, {})

  function Latest(f: Fence, sequence: nat): nat {
    if f.observed.Some? then Max(sequence, f.observed.value.sequence) else sequence
  }

  /** A reachable worker named its epoch. */
  function Observe(f: Fence, epoch: string, sequence: nat): Fence {
    if epoch in f.retired then f
    else if f.observed.Some? && f.observed.value.epoch.Some? && sequence < f.observed.value.sequence then f
    else
      var replaced := if f.observed.Some? && f.observed.value.epoch.Some? && f.observed.value.epoch != Some(epoch)
                      then {f.observed.value.epoch.value} else {};
      Fence(Some(Seen(Latest(f, sequence), Some(epoch))), f.retired + replaced)
  }

  /** The report is about the epoch that is believed current, or nothing is believed. */
  predicate Concerns(f: Fence, epoch: string) {
    f.observed.None? || f.observed.value.epoch.None? || f.observed.value.epoch == Some(epoch)
  }

  /** A worker refused a request made under an epoch that is no longer its own. */
  function ReportChanged(f: Fence, epoch: string, sequence: nat): Fence {
    if Concerns(f, epoch) then Fence(Some(Seen(Latest(f, sequence), None)), f.retired + {epoch}) else f
  }

  /** Results of the epoch may be taken: nothing is known, or this is the epoch. */
  predicate Admits(f: Fence, epoch: string) {
    f.observed.None? || f.observed.value.epoch == Some(epoch)
  }

  datatype Call = Observed(epoch: string, sequence: nat) | Changed(epoch: string, sequence: nat)

  function Next(f: Fence, c: Call): Fence {
    match c
    case Observed(epoch, sequence) => Observe(f, epoch, sequence)
    case Changed(epoch, sequence) => ReportChanged(f, epoch, sequence)
  }

  ghost predicate Run(fences: seq<Fence>, calls: seq<Call>) {
    && fences != [] && fences[0] == OPEN && |calls| == |fences| - 1
    && forall i :: 0 <= i < |calls| ==> fences[i + 1] == Next(fences[i], calls[i])
  }

  ghost predicate FenceInv(f: Fence) {
    && (f.observed.None? ==> f.retired == {})
    && (f.observed.Some? && f.observed.value.epoch.Some? ==> f.observed.value.epoch.value !in f.retired)
  }

  lemma {:induction false} RunInv(fences: seq<Fence>, calls: seq<Call>, i: nat)
    requires Run(fences, calls) && i < |fences|
    ensures FenceInv(fences[i])
    decreases i
  {
    if i > 0 {
      RunInv(fences, calls, i - 1);
      assert fences[i] == Next(fences[i - 1], calls[i - 1]);
    }
  }

  lemma {:induction false} RetiredGrows(fences: seq<Fence>, calls: seq<Call>, i: nat, j: nat)
    requires Run(fences, calls) && i <= j < |fences|
    ensures fences[i].retired <= fences[j].retired
    ensures fences[i].observed.Some? ==> fences[j].observed.Some?
    ensures fences[i].observed.Some? ==> fences[i].observed.value.sequence <= fences[j].observed.value.sequence
    decreases j
  {
    if i < j {
      RetiredGrows(fences, calls, i, j - 1);
      assert fences[j] == Next(fences[j - 1], calls[j - 1]);
    }
  }

  /** A retired epoch is never observed again and none of its results are taken. */
  lemma RetiredForGood(fences: seq<Fence>, calls: seq<Call>, i: nat, j: nat, epoch: string)
    requires Run(fences, calls) && i <= j < |fences| && epoch in fences[i].retired
    ensures !Admits(fences[j], epoch)
  {
    RetiredGrows(fences, calls, i, j);
    RunInv(fences, calls, j);
  }

  /** An epoch that was believed current and is not any more is retired. */
  lemma {:induction false} ReplacedIsRetired(fences: seq<Fence>, calls: seq<Call>, i: nat, j: nat, epoch: string)
    requires Run(fences, calls) && i <= j < |fences|
    requires fences[i].observed.Some? && fences[i].observed.value.epoch == Some(epoch)
    ensures Admits(fences[j], epoch) || epoch in fences[j].retired
    ensures fences[j].observed.Some?
    decreases j
  {
    if i < j {
      ReplacedIsRetired(fences, calls, i, j - 1, epoch);
      assert fences[j] == Next(fences[j - 1], calls[j - 1]);
    }
  }

  /** So an epoch that lost its place never gets it back. */
  lemma NeverBack(fences: seq<Fence>, calls: seq<Call>, i: nat, j: nat, k: nat, epoch: string)
    requires Run(fences, calls) && i <= j <= k < |fences|
    requires fences[i].observed.Some? && fences[i].observed.value.epoch == Some(epoch)
    requires !Admits(fences[j], epoch)
    ensures !Admits(fences[k], epoch)
  {
    ReplacedIsRetired(fences, calls, i, j, epoch);
    RetiredForGood(fences, calls, j, k, epoch);
  }

  /** The epoch the fence takes to be current. */
  function Believed(f: Fence): Option<string> {
    if f.observed.Some? then f.observed.value.epoch else None
  }

  /** A reply that names an epoch is believed unless the epoch was retired or a later request heard another one, and
      then it changes nothing. */
  lemma ObservedExactly(f: Fence, epoch: string, sequence: nat)
    requires FenceInv(f)
    ensures Believed(Observe(f, epoch, sequence)) == Some(epoch) <==>
      epoch !in f.retired && (Believed(f) in {None, Some(epoch)} || f.observed.value.sequence <= sequence)
    ensures Believed(Observe(f, epoch, sequence)) != Some(epoch) ==> Observe(f, epoch, sequence) == f
    ensures Observe(f, epoch, sequence).retired ==
      f.retired + if Believed(f).Some? && Believed(Observe(f, epoch, sequence)) != Believed(f) then {Believed(f).value} else {}
  {
  }

  /** Every call before came from an earlier request. */
  ghost predicate Newest(calls: seq<Call>, i: nat)
    requires i < |calls|
  {
    forall n :: 0 <= n < i ==> calls[n].sequence <= calls[i].sequence
  }

  lemma {:induction false} SequenceWasHeard(fences: seq<Fence>, calls: seq<Call>, i: nat) returns (n: nat)
    requires Run(fences, calls) && i < |fences| && fences[i].observed.Some?
    ensures n < i && calls[n].sequence == fences[i].observed.value.sequence
    decreases i
  {
    assert i > 0;
    assert fences[i] == Next(fences[i - 1], calls[i - 1]);
    var before, after := fences[i - 1], fences[i];
    if before.observed.Some? && after.observed.value.sequence == before.observed.value.sequence {
      n := SequenceWasHeard(fences, calls, i - 1);
    } else {
      n := i - 1;
    }
  }

  /** What the newest request hears is believed at once. */
  lemma NewestIsBelieved(fences: seq<Fence>, calls: seq<Call>, i: nat)
    requires Run(fences, calls) && i < |calls| && calls[i].Observed? && calls[i].epoch !in fences[i].retired
    requires Newest(calls, i)
    ensures Believed(fences[i + 1]) == Some(calls[i].epoch)
  {
    RunInv(fences, calls, i);
    assert fences[i + 1] == Next(fences[i], calls[i]);
    if fences[i].observed.Some? {
      var n := SequenceWasHeard(fences, calls, i);
    }
  }

  /** The epoch that a request heard stays believed, and no epoch is retired, however many late replies arrive. */
  lemma {:induction false} LateRepliesIgnored(fences: seq<Fence>, calls: seq<Call>, i: nat, j: nat)
    requires Run(fences, calls) && i <= j < |fences| && Believed(fences[i]).Some?
    requires forall n :: i <= n < j ==>
      calls[n].Observed? && (calls[n].sequence < fences[i].observed.value.sequence || calls[n].epoch in fences[i].retired)
    ensures fences[j] == fences[i]
    decreases j
  {
    if i < j {
      LateRepliesIgnored(fences, calls, i, j - 1);
      assert fences[j] == Next(fences[j - 1], calls[j - 1]);
    }
  }

  /** A report retires its epoch exactly when that epoch, or none, is believed current, or it was retired before; then
      nothing is believed any more, and otherwise nothing changes. */
  lemma ReportRetires(f: Fence, epoch: string, sequence: nat)
    ensures var after := ReportChanged(f, epoch, sequence);
      && (epoch in after.retired <==> Believed(f) in {None, Some(epoch)} || epoch in f.retired)
      && (if Believed(f) in {None, Some(epoch)}
          then Believed(after) == None && after.retired == f.retired + {epoch} && !Admits(after, epoch)
          else after == f)
  {
  }

  /** Otherwise a reported epoch can still be observed later. */
  lemma ReportIgnored() returns (fences: seq<Fence>, calls: seq<Call>)
    ensures Run(fences, calls) && |calls| == 3 && calls[1].Changed? && calls[1].epoch == "old"
    ensures Admits(fences[3], "old")
  {
    var f1 := Fence(Some(Seen(1, Some("other"))), {});
    var f3 := Fence(Some(Seen(3, Some("old"))), {"other"});
    calls := [Observed("other", 1), Changed("old", 2), Observed("old", 3)];
    fences := [OPEN, f1, f1, f3];
    assert Next(OPEN, calls[0]) == f1 && Next(f1, calls[1]) == f1;
    assert {} + {"other"} == {"other"};
    assert Next(f1, calls[2]) == f3;
  }
}
