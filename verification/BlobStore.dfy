/** The worker's file-transfer store: blobs, unfinished uploads and the bytes reserved for both. */
module BlobStore {
  import opened Prelude

  const CHUNK := 131072
  const MAX_BLOB := 33554432

  type Bytes = seq<int>

  /** `whole` stands for the announced digest, which is taken to identify the content. */
  datatype Upload = Upload(size: nat, whole: Bytes, data: Bytes)

  datatype Outcome = Ok | Capacity | Conflict | Missing | OutOfBounds | BadDigest

  // ----- sums over tables

  ghost function Total(m: map<string, nat>): nat {
    if m == map[] then 0
    else
      var k :| k in m;
      m[k] + Total(m - {k})
  }

  lemma {:induction false} TotalWithout(m: map<string, nat>, k: string)
    requires k in m
    ensures Total(m) == m[k] + Total(m - {k})
    decreases |m|
  {
    var p :| p in m && Total(m) == m[p] + Total(m - {p});
    if p != k {
      assert |m - {p}| < |m| by {
        assert m == (m - {p})[p := m[p]];
      }
      TotalWithout(m - {p}, k);
      assert |m - {k}| < |m| by {
        assert m == (m - {k})[k := m[k]];
      }
      TotalWithout(m - {k}, p);
      assert m - {p} - {k} == m - {k} - {p};
    }
  }

  lemma TotalWith(m: map<string, nat>, k: string, v: nat)
    requires k !in m
    ensures Total(m[k := v]) == v + Total(m)
  {
    TotalWithout(m[k := v], k);
    assert m[k := v] - {k} == m;
  }

  ghost function BlobSizes(blobs: map<string, Bytes>): map<string, nat> {
    map t | t in blobs :: |blobs[t]|
  }

  ghost function UploadSizes(uploads: map<string, Upload>): map<string, nat> {
    map t | t in uploads :: uploads[t].size
  }

  /** An upload has received a part of what it announced. */
  predicate UploadOk(u: Upload) {
    |u.data| <= u.size <= MAX_BLOB
  }

  /** What an operation's receipt says about its result: where it is kept and what it is. */
  datatype Ref = Ref(token: string, size: nat, whole: Bytes)

  /** The result a receipt names can be loaded. */
  predicate Loads(blobs: map<string, Bytes>, ref: Ref) {
    ref.token in blobs && |blobs[ref.token]| == ref.size && blobs[ref.token] == ref.whole
  }

  class Store {
    const limit: nat
    var blobs: map<string, Bytes>
    var uploads: map<string, Upload>
    var reserved: nat

    /** Exactly the bytes of the blobs and the announced sizes of the uploads are reserved, within the limit. */
    ghost predicate Valid()
      reads this
    {
      && reserved == Total(BlobSizes(blobs)) + Total(UploadSizes(uploads)) && reserved <= limit
      && blobs.Keys !! uploads.Keys
      && (forall t :: t in uploads ==> UploadOk(uploads[t]))
      && (forall t :: t in blobs ==> |blobs[t]| <= MAX_BLOB)
    }

    constructor (max: nat)
      ensures Valid() && limit == max && blobs == map[] && uploads == map[] && reserved == 0
    {
      limit, blobs, uploads, reserved := max, map[], map[], 0;
      new;
      assert BlobSizes(blobs) == map[] && UploadSizes(uploads) == map[];
    }

    /** A result is kept under a new token. */
    method Keep(token: string, data: Bytes) returns (outcome: Outcome)
      requires Valid() && token !in blobs && token !in uploads
      modifies this
      ensures Valid() && uploads == old(uploads)
      ensures outcome == if |data| > MAX_BLOB then OutOfBounds
                         else if old(reserved) + |data| > limit then Capacity else Ok
      ensures blobs == if outcome == Ok then old(blobs)[token := data] else old(blobs)
      ensures reserved == old(reserved) + if outcome == Ok then |data| else 0
    {
      if |data| > MAX_BLOB {
        return OutOfBounds;
      }
      if reserved + |data| > limit {
        return Capacity;
      }
      TotalWith(BlobSizes(blobs), token, |data|);
      assert BlobSizes(blobs[token := data]) == BlobSizes(blobs)[token := |data|];
      reserved := reserved + |data|;
      blobs := blobs[token := data];
      return Ok;
    }

    method BeginUpload(token: string, size: nat, whole: Bytes) returns (outcome: Outcome)
      requires Valid()
      modifies this
      ensures Valid() && blobs == old(blobs)
      ensures outcome == if size > MAX_BLOB then OutOfBounds
                         else if token in old(uploads) || token in old(blobs) then Conflict
                         else if old(reserved) + size > limit then Capacity else Ok
      ensures uploads == if outcome == Ok then old(uploads)[token := Upload(size, whole, [])] else old(uploads)
    {
      if size > MAX_BLOB {
        return OutOfBounds;
      }
      if token in uploads || token in blobs {
        return Conflict;
      }
      if reserved + size > limit {
        return Capacity;
      }
      TotalWith(UploadSizes(uploads), token, size);
      assert UploadSizes(uploads[token := Upload(size, whole, [])]) == UploadSizes(uploads)[token := size];
      reserved := reserved + size;
      uploads := uploads[token := Upload(size, whole, [])];
      return Ok;
    }

    /** A chunk that extends the upload or repeats what is there; the last one turns it into a blob. */
    method PutChunk(token: string, offset: nat, chunk: Bytes) returns (outcome: Outcome)
      requires Valid()
      modifies this
      ensures Valid() && reserved == old(reserved)
      ensures token !in old(uploads) ==> outcome == Missing && blobs == old(blobs) && uploads == old(uploads)
      ensures token in old(uploads) ==>
        var u := old(uploads)[token];
        var more := Received(u, offset, chunk);
        && outcome == ChunkOutcome(u, offset, chunk)
        && (if outcome == Ok && |more.data| == u.size
            then more.data == u.whole && blobs == old(blobs)[token := u.whole] && uploads == old(uploads) - {token}
            else blobs == old(blobs) && uploads == old(uploads)[token := more])
    {
      hide Total, BlobSizes, UploadSizes;
      if token !in uploads {
        return Missing;
      }
      var u := uploads[token];
      if offset > u.size || |chunk| > CHUNK || offset > |u.data| || offset + |chunk| > u.size {
        return OutOfBounds;
      }
      if offset < |u.data| {
        var end := if offset + |chunk| < |u.data| then offset + |chunk| else |u.data|;
        if u.data[offset..end] != chunk {
          return Conflict;
        }
      } else {
        u := u.(data := u.data + chunk);
      }
      SameSizes(uploads, token, u);
      uploads := uploads[token := u];
      if |u.data| == u.size {
        if u.data != u.whole {
          return BadDigest;
        }
        MoveSizes(blobs, uploads, token);
        blobs := blobs[token := u.data];
        uploads := uploads - {token};
      }
      return Ok;
    }

    /** At most one chunk of a blob from an offset on; `None` when there is no such blob or offset. */
    method ReadBlob(token: string, offset: nat) returns (chunk: Option<Bytes>)
      requires Valid()
      ensures chunk.Some? <==> token in blobs && offset <= |blobs[token]|
      ensures chunk.Some? ==> chunk.value == blobs[token][offset..Min(offset + CHUNK, |blobs[token]|)]
    {
      if token !in blobs || offset > |blobs[token]| {
        return None;
      }
      return Some(blobs[token][offset..Min(offset + CHUNK, |blobs[token]|)]);
    }

    /** The text of an operation's result gives way to a summary, under a new token. If the summary does not fit
        the text is gone all the same, and the receipt names nothing.
     */
    method RetireResult(ref: Ref, retired: bool, summary: Bytes, token: string) returns (outcome: Outcome, receipt: Ref)
      requires Valid() && token !in blobs && token !in uploads
      modifies this
      ensures Valid() && uploads == old(uploads)
      ensures !Loads(old(blobs), ref) ==> outcome == Missing
      ensures !Loads(old(blobs), ref) || retired ==> blobs == old(blobs) && receipt == ref
      ensures Loads(old(blobs), ref) ==>
        outcome == if retired then Ok else if |summary| > MAX_BLOB then OutOfBounds
                   else if old(reserved) - ref.size + |summary| > limit then Capacity else Ok
      ensures Loads(old(blobs), ref) && !retired ==>
        blobs == if outcome == Ok then (old(blobs) - {ref.token})[token := summary] else old(blobs) - {ref.token}
      ensures Loads(blobs, receipt) <==> outcome == Ok
      ensures Loads(old(blobs), ref) && |summary| <= ref.size ==> Loads(blobs, receipt)
      ensures forall t :: t in old(blobs) && t != ref.token ==> t in blobs && blobs[t] == old(blobs)[t]
    {
      receipt := ref;
      if !Loads(blobs, ref) {
        return Missing, ref;
      }
      if retired {
        return Ok, ref;
      }
      DropSize(blobs, ref.token);
      hide Total, BlobSizes, UploadSizes;
      reserved := reserved - |blobs[ref.token]|;
      blobs := blobs - {ref.token};
      outcome := Keep(token, summary);
      if outcome == Ok {
        receipt := Ref(token, |summary|, summary);
      }
    }

    /** Whatever the token names is dropped and its reservation given back; unknown tokens are ignored. */
    method Release(token: string)
      requires Valid()
      modifies this
      ensures Valid() && blobs == old(blobs) - {token} && uploads == old(uploads) - {token}
    {
      if token in blobs {
        TotalWithout(BlobSizes(blobs), token);
        assert BlobSizes(blobs) - {token} == BlobSizes(blobs - {token});
        reserved := reserved - |blobs[token]|;
      }
      if token in uploads {
        TotalWithout(UploadSizes(uploads), token);
        assert UploadSizes(uploads) - {token} == UploadSizes(uploads - {token});
        reserved := reserved - uploads[token].size;
      }
      assert token !in blobs ==> blobs - {token} == blobs;
      assert token !in uploads ==> uploads - {token} == uploads;
      blobs := blobs - {token};
      uploads := uploads - {token};
    }
  }

  lemma DropSize(blobs: map<string, Bytes>, token: string)
    requires token in blobs
    ensures Total(BlobSizes(blobs)) == |blobs[token]| + Total(BlobSizes(blobs - {token}))
  {
    TotalWithout(BlobSizes(blobs), token);
    assert BlobSizes(blobs) - {token} == BlobSizes(blobs - {token});
  }

  lemma SameSizes(uploads: map<string, Upload>, token: string, u: Upload)
    requires token in uploads && u.size == uploads[token].size
    ensures UploadSizes(uploads[token := u]) == UploadSizes(uploads)
  {
  }

  lemma MoveSizes(blobs: map<string, Bytes>, uploads: map<string, Upload>, token: string)
    requires token in uploads && token !in blobs && |uploads[token].data| == uploads[token].size
    ensures Total(BlobSizes(blobs[token := uploads[token].data])) + Total(UploadSizes(uploads - {token}))
      == Total(BlobSizes(blobs)) + Total(UploadSizes(uploads))
  {
    var u := uploads[token];
    TotalWith(BlobSizes(blobs), token, u.size);
    assert BlobSizes(blobs[token := u.data]) == BlobSizes(blobs)[token := u.size];
    TotalWithout(UploadSizes(uploads), token);
    assert UploadSizes(uploads) - {token} == UploadSizes(uploads - {token});
  }

  // ----- what a chunk does to an upload

  predicate InBounds(u: Upload, offset: nat, chunk: Bytes) {
    |chunk| <= CHUNK && offset <= |u.data| && offset + |chunk| <= u.size
  }

  /** A repeated chunk has to say what was already received, as far as it goes. */
  predicate Repeats(u: Upload, offset: nat, chunk: Bytes)
    requires offset < |u.data|
  {
    u.data[offset..(if offset + |chunk| < |u.data| then offset + |chunk| else |u.data|)] == chunk
  }

  function Received(u: Upload, offset: nat, chunk: Bytes): Upload {
    if InBounds(u, offset, chunk) && offset == |u.data| then u.(data := u.data + chunk) else u
  }

  function ChunkOutcome(u: Upload, offset: nat, chunk: Bytes): Outcome {
    if !InBounds(u, offset, chunk) then OutOfBounds
    else if offset < |u.data| && !Repeats(u, offset, chunk) then Conflict
    else if |Received(u, offset, chunk).data| == u.size && Received(u, offset, chunk).data != u.whole then BadDigest
    else Ok
  }

  /** The chunk is cut out of the file at its offset. */
  predicate ChunkOf(file: Bytes, offset: nat, chunk: Bytes) {
    offset + |chunk| <= |file| && chunk == file[offset..offset + |chunk|]
  }

  /** The state of an upload after a sequence of chunks, each sent any number of times in any order. */
  function After(u: Upload, chunks: seq<(nat, Bytes)>): Upload
    decreases |chunks|
  {
    if chunks == [] then u
    else
      var before := After(u, chunks[..|chunks| - 1]);
      Received(before, chunks[|chunks| - 1].0, chunks[|chunks| - 1].1)
  }

  /** Chunks of one file, lost, repeated and reordered, always leave a prefix of that file. */
  lemma {:induction false} AlwaysPrefix(file: Bytes, chunks: seq<(nat, Bytes)>)
    requires forall c :: c in chunks ==> ChunkOf(file, c.0, c.1)
    ensures After(Upload(|file|, file, []), chunks).data <= file
    ensures After(Upload(|file|, file, []), chunks).size == |file|
    decreases |chunks|
  {
    if chunks != [] {
      var front, c := chunks[..|chunks| - 1], chunks[|chunks| - 1];
      assert c in chunks && chunks == front + [c];
      AlwaysPrefix(file, front);
      var u := After(Upload(|file|, file, []), front);
      if InBounds(u, c.0, c.1) && c.0 == |u.data| {
        assert file[..c.0] + file[c.0..c.0 + |c.1|] == file[..c.0 + |c.1|];
        assert u.data == file[..c.0];
      }
    }
  }

  /** Such a chunk within the received part is taken as a repetition, never as a conflict. */
  lemma RepeatAccepted(file: Bytes, u: Upload, offset: nat, chunk: Bytes)
    requires u.data <= file && u.size == |file| && u.whole == file
    requires ChunkOf(file, offset, chunk) && |chunk| <= CHUNK && offset <= |u.data|
    ensures ChunkOutcome(u, offset, chunk) == Ok <==> offset == |u.data| || offset + |chunk| <= |u.data|
    ensures ChunkOutcome(u, offset, chunk) in {Ok, Conflict}
  {
  }

  /** A full store loses the text of a result whose summary is longer. */
  method LongerSummaryLost() returns (store: Store, outcome: Outcome, receipt: Ref)
    ensures fresh(store) && store.Valid() && outcome == Capacity
    ensures store.blobs == map[] && !Loads(store.blobs, receipt)
  {
    store := new Store(1);
    var kept := store.Keep("text", [7]);
    hide Total, BlobSizes, UploadSizes;
    assert store.blobs == map["text" := [7]];
    outcome, receipt := store.RetireResult(Ref("text", 1, [7]), false, [1, 2], "summary");
  }

  /** A repetition that reaches further than what was received is refused, though it says nothing new or wrong. */
  lemma LongerRepeatRefused()
    ensures ChunkOutcome(Upload(3, [1, 2, 3], [1, 2]), 0, [1, 2, 3]) == Conflict
    ensures ChunkOf([1, 2, 3], 0, [1, 2, 3])
  {
  }
}
