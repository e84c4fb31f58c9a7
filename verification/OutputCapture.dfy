/** Bounded capture of a child's two output streams. */
module OutputCapture {
  datatype Stream = Out | Err

  /** What a failed append of `amount` characters may have left behind. */
  datatype Append = Stored | Failed(kept: nat)

  class Capture {
    const limit: nat
    var captured: nat
    var failed: bool
    var truncated: bool
    var out: string
    var err: string

    /** Everything the child wrote so far. */
    ghost var writtenOut: string
    ghost var writtenErr: string

    /** Each file is a prefix of its stream, the limit holds, and no error means nothing is missing. */
    ghost predicate Valid()
      reads this
    {
      && out <= writtenOut && err <= writtenErr
      && (limit > 0 ==> |out| + |err| <= limit)
      && (truncated ==> failed)
      && (!failed ==> out == writtenOut && err == writtenErr && captured == |out| + |err|)
    }

    /** A limit of 0 means no limit. */
    constructor (max: nat)
      ensures Valid() && limit == max && !failed && !truncated && out == "" && err == ""
      ensures writtenOut == "" && writtenErr == ""
    {
      limit, captured, failed, truncated, out, err := max, 0, false, false, "", "";
      writtenOut, writtenErr := "", "";
    }

    /** One read of the child's output; after the first error later output is drained and dropped. */
    method Read(bytes: string, stream: Stream, io: Append)
      requires Valid()
      modifies this
      ensures Valid()
      ensures writtenOut == old(writtenOut) + if stream == Out then bytes else ""
      ensures writtenErr == old(writtenErr) + if stream == Err then bytes else ""
      ensures if stream == Out then err == old(err) else out == old(out)
      ensures old(failed) ==> failed && out == old(out) && err == old(err) && truncated == old(truncated)
      ensures !old(failed) && io.Stored? ==>
        && (failed <==> limit > 0 && |old(out)| + |old(err)| + |bytes| > limit)
        && truncated == failed
        && (failed ==> |out| + |err| == limit)
    {
      if stream == Out {
        writtenOut := writtenOut + bytes;
      } else {
        writtenErr := writtenErr + bytes;
      }
      if failed {
        return;
      }
      var amount := if limit > 0 && limit - captured < |bytes| then limit - captured else |bytes|;
      var kept := if io.Failed? then (if io.kept < amount then io.kept else amount) else amount;
      if stream == Out {
        Longer(out, bytes, kept);
        out := out + bytes[..kept];
      } else {
        Longer(err, bytes, kept);
        err := err + bytes[..kept];
      }
      if io.Failed? {
        failed := true;
        return;
      }
      captured := captured + amount;
      if amount != |bytes| {
        truncated, failed := true, true;
      }
    }
  }

  lemma Longer(done: string, bytes: string, kept: nat)
    requires kept <= |bytes|
    ensures done + bytes[..kept] <= done + bytes && |done + bytes[..kept]| == |done| + kept
    ensures kept == |bytes| ==> bytes[..kept] == bytes
  {
  }
}
