/** The host's side of a file transfer: a value goes up in chunks and comes down in chunks. */
module FileTransfer {
  import opened BlobStore
  import opened Prelude

  /** Send the value chunk by chunk; it arrives whole. Without any bytes there is no chunk that would
      complete the upload, but the host only sends JSON text, which is never empty.
   */
  method Upload(store: Store, token: string, data: Bytes) returns (outcome: Outcome)
    requires store.Valid()
    modifies store
    ensures store.Valid()
    ensures outcome == Ok <==>
      && |data| <= MAX_BLOB && token !in old(store.uploads) && token !in old(store.blobs)
      && old(store.reserved) + |data| <= store.limit
    ensures outcome == Ok && data != [] ==>
      token in store.blobs && store.blobs[token] == data && token !in store.uploads
    ensures outcome == Ok && data == [] ==> token !in store.blobs && token in store.uploads
    ensures |data| > MAX_BLOB ==> store.blobs == old(store.blobs) && store.uploads == old(store.uploads)
    ensures outcome != Ok && |data| <= MAX_BLOB ==>
      store.blobs == old(store.blobs) - {token} && store.uploads == old(store.uploads) - {token}
    ensures forall t :: t != token && t in old(store.blobs) ==> t in store.blobs && store.blobs[t] == old(store.blobs)[t]
  {
    if |data| > MAX_BLOB {
      return OutOfBounds;
    }
    outcome := store.BeginUpload(token, |data|, data);
    if outcome != Ok {
      store.Release(token);
      return;
    }
    var offset := 0;
    hide Received, ChunkOutcome;
    while offset < |data|
      invariant 0 <= offset <= |data| && store.Valid() && outcome == Ok
      invariant if offset < |data| || data == []
                then token in store.uploads && store.uploads[token] == BlobStore.Upload(|data|, data, data[..offset])
                     && token !in store.blobs
                else token in store.blobs && store.blobs[token] == data && token !in store.uploads
      invariant forall t :: t != token && t in old(store.blobs) ==> t in store.blobs && store.blobs[t] == old(store.blobs)[t]
    {
      var end := Min(offset + CHUNK, |data|);
      var chunk := data[offset..end];
      NextChunk(data, offset, end);
      outcome := store.PutChunk(token, offset, chunk);
      offset := end;
    }
  }

  /** The next chunk is in bounds, extends what was sent, and the last one completes it. */
  lemma NextChunk(data: Bytes, offset: nat, end: nat)
    requires offset < end <= |data| <= MAX_BLOB && end - offset <= CHUNK
    ensures var u := BlobStore.Upload(|data|, data, data[..offset]);
      && Received(u, offset, data[offset..end]) == BlobStore.Upload(|data|, data, data[..end])
      && ChunkOutcome(u, offset, data[offset..end]) == Ok
      && (end == |data| ==> data[..end] == data)
  {
    assert data[..offset] + data[offset..end] == data[..end];
  }

  /** The answers of a worker nobody has to trust, one per request. */
  method Download(size: nat, whole: Bytes, answers: seq<Option<Bytes>>) returns (data: Option<Bytes>)
    ensures data.Some? ==> data.value == whole && |whole| == size <= MAX_BLOB
  {
    if size > MAX_BLOB {
      return None;
    }
    var got: Bytes := [];
    var i := 0;
    while |got| < size
      invariant |got| <= size && 0 <= i
      decreases size - |got|
    {
      if i >= |answers| || answers[i].None? {
        return None;
      }
      var raw := answers[i].value;
      if raw == [] || |raw| > CHUNK || |got| + |raw| > size {
        return None;
      }
      got := got + raw;
      i := i + 1;
    }
    return if got == whole then Some(got) else None;
  }

  /** From a worker that keeps the blob, the host gets exactly that blob. */
  method Fetch(store: Store, token: string, size: nat, whole: Bytes) returns (data: Option<Bytes>)
    requires store.Valid()
    ensures data.Some? ==> data.value == whole && |whole| == size
    ensures token in store.blobs && store.blobs[token] == whole && |whole| == size <= MAX_BLOB ==> data == Some(whole)
  {
    if size > MAX_BLOB {
      return None;
    }
    var got: Bytes := [];
    while |got| < size
      invariant |got| <= size
      invariant got != [] ==> token in store.blobs && got <= store.blobs[token]
      decreases size - |got|
    {
      var raw := store.ReadBlob(token, |got|);
      if raw.None? || raw.value == [] || |raw.value| > CHUNK || |got| + |raw.value| > size {
        return None;
      }
      ghost var blob := store.blobs[token];
      assert blob[..|got|] == got;
      assert got + raw.value == blob[..|got| + |raw.value|];
      got := got + raw.value;
    }
    assert got != [] ==> store.blobs[token][..size] == got;
    return if got == whole then Some(got) else None;
  }

  /** What was uploaded is what is downloaded. */
  method RoundTrip(store: Store, token: string, value: Bytes) returns (back: Option<Bytes>)
    requires store.Valid() && value != [] && |value| <= MAX_BLOB && store.reserved + |value| <= store.limit
    requires token !in store.uploads && token !in store.blobs
    modifies store
    ensures store.Valid() && back == Some(value)
  {
    var outcome := Upload(store, token, value);
    back := Fetch(store, token, |value|, value);
  }
}
