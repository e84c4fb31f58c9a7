/** One RPC connection: outgoing frames wait in a bounded queue, incoming bytes are cut into frames,
    and every request is answered exactly once.
 */
module RpcChannel {
  import opened Framing
  import opened Prelude

  const QUEUE_LIMIT := 8388608
  const MAX_REQUESTS := 32
  const ROUNDS := 16
  const READ_SIZE := 65536

  /** Why a request was completed. */
  datatype Outcome =
    | Answer(frame: Buffer, response: Buffer) | TimedOut | Cancelled | Finished
    | ClosedBeforeSend | CapacityBeforeSend

  /** What the owner of the channel is told, in order. */
  datatype Entry = FrameEvent(frame: Buffer) | Completed(token: nat, outcome: Outcome)

  datatype Write = Write(bytes: Buffer, offset: nat)

  /** `token` is the identity of one request; ids may be used again. */
  datatype Pending = Pending(token: nat, deadline: nat)

  // ----- what the log says

  function FramesIn(log: seq<Entry>): seq<Buffer> {
    if log == [] then []
    else
      var front, e := FramesIn(log[..|log| - 1]), log[|log| - 1];
      if e.FrameEvent? then front + [e.frame]
      else if e.outcome.Answer? then front + [e.outcome.frame] else front
  }

  /** How often a request was completed. */
  function Completions(log: seq<Entry>, token: nat): nat {
    if log == [] then 0
    else Completions(log[..|log| - 1], token)
         + (if log[|log| - 1].Completed? && log[|log| - 1].token == token then 1 else 0)
  }

  lemma LogAppend(log: seq<Entry>, e: Entry, token: nat)
    ensures Completions(log + [e], token) ==
      Completions(log, token) + if e.Completed? && e.token == token then 1 else 0
    ensures FramesIn(log + [e]) == FramesIn(log)
      + if e.FrameEvent? then [e.frame] else if e.outcome.Answer? then [e.outcome.frame] else []
  {
  }

  // ----- the send queue

  function Rest(w: Write): Buffer {
    if w.offset <= |w.bytes| then w.bytes[w.offset..] else []
  }

  function Unsent(writes: seq<Write>): Buffer {
    if writes == [] then [] else Rest(writes[0]) + Unsent(writes[1..])
  }

  lemma {:induction false} UnsentAppend(writes: seq<Write>, w: Write)
    requires w.offset == 0
    ensures Unsent(writes + [w]) == Unsent(writes) + w.bytes
    decreases |writes|
  {
    if writes == [] {
      assert [] + [w] == [w];
      assert Unsent([w]) == Rest(w) + Unsent([]);
    } else {
      assert (writes + [w])[1..] == writes[1..] + [w];
      assert Unsent(writes + [w]) == Rest(writes[0]) + Unsent(writes[1..] + [w]);
      assert Unsent(writes) == Rest(writes[0]) + Unsent(writes[1..]);
      hide Unsent, Rest;
      UnsentAppend(writes[1..], w);
      Regroup(Rest(writes[0]), Unsent(writes[1..]), w.bytes);
    }
  }

  lemma {:induction false} EncodeAppend(fs: seq<Buffer>, f: Buffer)
    ensures Encode(fs + [f]) == Encode(fs) + Frame(f)
    decreases |fs|
  {
    if fs == [] {
      assert [] + [f] == [f];
      assert Encode([f]) == Frame(f) + Encode([]);
    } else {
      assert (fs + [f])[1..] == fs[1..] + [f];
      EncodeAppend(fs[1..], f);
    }
  }

  /** The queue: counted bytes are the unsent ones, and they continue what is already on the wire. */
  ghost predicate QueueInv(closed: bool, writes: seq<Write>, queued: nat, frames: seq<Buffer>, wire: Buffer) {
    && (forall w :: w in writes ==> w.offset < |w.bytes|)
    && queued == |Unsent(writes)| <= QUEUE_LIMIT
    && wire <= Encode(frames)
    && (if closed then writes == [] else wire + Unsent(writes) == Encode(frames))
    && forall f :: f in frames ==> 0 < |f| <= FRAME_LIMIT
  }

  /** The receiver: the log holds exactly the frames of the bytes received, and less than one frame is buffered. */
  ghost predicate InputInv(closed: bool, input: Buffer, expected: nat, log: seq<Entry>, stream: Buffer) {
    && FramesIn(log) == Parse(stream).frames
    && (!closed ==> !Parse(stream).bad && input == Parse(stream).rest && Awaiting(input, expected))
    && (closed ==> input == [])
  }

  /** Waiting for the rest of a length, or for the rest of a frame of known length. */
  predicate Awaiting(input: Buffer, expected: nat) {
    || (expected == 4 && |input| < 4)
    || (|input| >= 4 && 0 < LengthOf(input) <= FRAME_LIMIT && expected == LengthOf(input) + 4 && |input| < expected)
  }

  /** Every request is open or completed once; after closing none is open. */
  ghost predicate RequestInv(closed: bool, requests: map<nat, Pending>, log: seq<Entry>, asked: set<nat>) {
    && |requests| <= MAX_REQUESTS && (closed ==> requests == map[])
    && Distinct(requests) && Known(requests, asked) && Tally(requests, log, asked)
  }

  ghost predicate Distinct(requests: map<nat, Pending>) {
    forall i, j :: i in requests && j in requests && requests[i].token == requests[j].token ==> i == j
  }

  ghost predicate Known(requests: map<nat, Pending>, asked: set<nat>) {
    forall i :: i in requests ==> requests[i].token in asked
  }

  ghost predicate Tally(requests: map<nat, Pending>, log: seq<Entry>, asked: set<nat>) {
    forall t :: Completions(log, t) == if t in asked && !Open(requests, t) then 1 else 0
  }

  ghost predicate Open(requests: map<nat, Pending>, token: nat) {
    exists i :: i in requests && requests[i].token == token
  }

  // ----- one received chunk

  /** What there is after a chunk: still too little, a length, or a frame. */
  ghost predicate ChunkRead(more: Buffer, expected: nat)
    requires 4 <= expected && (|more| >= expected)
  {
    if expected == 4 && |more| == 4 then
      if LengthOf(more) == 0 || LengthOf(more) > FRAME_LIMIT then Parse(more) == Parsed([], [], true)
      else Parse(more) == Parsed([], more, false) && Awaiting(more, LengthOf(more) + 4)
    else if !Acceptable(more[4..]) then Parse(more) == Parsed([], [], true)
    else Parse(more) == Parsed([more[4..]], [], false)
  }

  lemma LengthKept(input: Buffer, chunk: Buffer)
    requires |input| >= 4
    ensures LengthOf(input + chunk) == LengthOf(input)
  {
    assert (input + chunk)[..4] == input[..4];
  }

  /** Exactly one frame, or none yet. */
  lemma ParseOne(s: Buffer, n: nat)
    requires |s| >= 4 && n == LengthOf(s) && 0 < n <= FRAME_LIMIT && |s| <= n + 4
    ensures |s| < n + 4 ==> Parse(s) == Parsed([], s, false)
    ensures |s| == n + 4 && !Acceptable(s[4..]) ==> Parse(s) == Parsed([], [], true)
    ensures |s| == n + 4 && Acceptable(s[4..]) ==> Parse(s) == Parsed([s[4..]], [], false)
  {
    hide LengthOf, Acceptable;
    if |s| == n + 4 {
      assert s[4..n + 4] == s[4..] && s[n + 4..] == [];
      assert Parse([]) == Parsed([], [], false);
    }
  }

  lemma ChunkParse(input: Buffer, expected: nat, chunk: Buffer)
    requires Awaiting(input, expected) && 0 < |chunk| <= expected - |input|
    ensures var more := input + chunk;
      if |more| < expected then Parse(more) == Parsed([], more, false) && Awaiting(more, expected)
      else ChunkRead(more, expected)
  {
    var more := input + chunk;
    if |input| >= 4 {
      LengthKept(input, chunk);
      hide Parse, LengthOf, Acceptable;
      ParseOne(more, LengthOf(input));
    } else if |more| == 4 {
      hide LengthOf, Acceptable;
    }
  }

  // ----- one request

  lemma AskedOpen(requests: map<nat, Pending>, log: seq<Entry>, asked: set<nat>, id: nat, p: Pending)
    requires RequestInv(false, requests, log, asked) && id !in requests && |requests| < MAX_REQUESTS
    requires p.token !in asked
    ensures RequestInv(false, requests[id := p], log, asked + {p.token})
  {
    var more := requests[id := p];
    assert more[id] == p;
    forall t
      ensures Completions(log, t) == if t in asked + {p.token} && !Open(more, t) then 1 else 0
    {
      if Open(requests, t) {
        var i :| i in requests && requests[i].token == t;
        assert i in more && more[i].token == t;
      }
    }
  }

  lemma AskedRefused(closed: bool, requests: map<nat, Pending>, log: seq<Entry>, asked: set<nat>, token: nat, o: Outcome)
    requires RequestInv(closed, requests, log, asked) && token !in asked
    ensures RequestInv(closed, requests, log + [Completed(token, o)], asked + {token})
  {
  }

  lemma OpenLess(requests: map<nat, Pending>, id: nat, t: nat)
    requires id in requests
    requires Distinct(requests)
    ensures Open(requests - {id}, t) <==> Open(requests, t) && t != requests[id].token
  {
    var less := requests - {id};
    if Open(requests, t) && t != requests[id].token {
      var i :| i in requests && requests[i].token == t;
      assert i in less;
    }
    if Open(less, t) {
      var i :| i in less && less[i].token == t;
      assert i in requests;
    }
  }

  lemma FewerRequests(requests: map<nat, Pending>, id: nat)
    requires id in requests
    ensures |requests - {id}| == |requests| - 1
  {
  }

  lemma Answered(requests: map<nat, Pending>, log: seq<Entry>, asked: set<nat>, id: nat, o: Outcome)
    requires RequestInv(false, requests, log, asked) && id in requests
    ensures RequestInv(false, requests - {id}, log + [Completed(requests[id].token, o)], asked)
  {
    var token, less := requests[id].token, requests - {id};
    FewerRequests(requests, id);
    LessKnown(requests, asked, id);
    TallyLess(requests, log, asked, id, o);
    hide Distinct, Known, Tally;
  }

  lemma StillOpen(closed: bool, requests: map<nat, Pending>, log: seq<Entry>, asked: set<nat>, id: nat)
    requires RequestInv(closed, requests, log, asked) && id in requests
    ensures !closed
  {
  }

  lemma LessKnown(requests: map<nat, Pending>, asked: set<nat>, id: nat)
    requires Distinct(requests) && Known(requests, asked)
    ensures Distinct(requests - {id}) && Known(requests - {id}, asked)
  {
  }

  lemma TallyLess(requests: map<nat, Pending>, log: seq<Entry>, asked: set<nat>, id: nat, o: Outcome)
    requires Distinct(requests) && Known(requests, asked) && Tally(requests, log, asked) && id in requests
    ensures Tally(requests - {id}, log + [Completed(requests[id].token, o)], asked)
  {
    var token, less := requests[id].token, requests - {id};
    assert Open(requests, token) && token in asked;
    hide Open, Completions, Distinct, Known;
    forall t
      ensures Completions(log + [Completed(token, o)], t) == if t in asked && !Open(less, t) then 1 else 0
    {
      LogAppend(log, Completed(token, o), t);
      OpenLess(requests, id, t);
    }
  }

  lemma EventOnly(closed: bool, requests: map<nat, Pending>, log: seq<Entry>, asked: set<nat>, f: Buffer)
    requires RequestInv(closed, requests, log, asked)
    ensures RequestInv(closed, requests, log + [FrameEvent(f)], asked)
  {
  }

  lemma NoneOpen(requests: map<nat, Pending>, log: seq<Entry>, asked: set<nat>)
    requires RequestInv(true, requests, log, asked)
    ensures forall t :: t in asked ==> Completions(log, t) == 1
  {
  }

  lemma NoneLeft(log: seq<Entry>, asked: set<nat>)
    requires RequestInv(false, map[], log, asked)
    ensures RequestInv(true, map[], log, asked)
  {
  }

  /** Closing answers every request that is still open. */
  method CompleteAll(requests: map<nat, Pending>, log: seq<Entry>, ghost asked: set<nat>) returns (after: seq<Entry>)
    requires RequestInv(false, requests, log, asked)
    ensures RequestInv(true, map[], after, asked) && FramesIn(after) == FramesIn(log)
    ensures forall t :: t in asked ==> Completions(after, t) == 1
  {
    var pending := requests;
    after := log;
    while pending != map[]
      invariant RequestInv(false, pending, after, asked)
      invariant FramesIn(after) == FramesIn(log)
      decreases |pending|
    {
      hide RequestInv, FramesIn;
      var id :| id in pending;
      Answered(pending, after, asked, id, Finished);
      LogAppend(after, Completed(pending[id].token, Finished), 0);
      FewerRequests(pending, id);
      after := after + [Completed(pending[id].token, Finished)];
      pending := pending - {id};
    }
    NoneLeft(after, asked);
    NoneOpen(map[], after, asked);
  }

  lemma QueueClosed(writes: seq<Write>, queued: nat, frames: seq<Buffer>, wire: Buffer)
    requires QueueInv(false, writes, queued, frames, wire)
    ensures QueueInv(true, [], 0, frames, wire)
  {
  }

  lemma InputClosed(input: Buffer, expected: nat, log: seq<Entry>, stream: Buffer)
    requires InputInv(false, input, expected, log, stream)
    ensures InputInv(true, [], expected, log, stream)
  {
  }

  lemma InputSame(log: seq<Entry>, after: seq<Entry>, stream: Buffer)
    requires FramesIn(after) == FramesIn(log)
    ensures forall closed, input, expected ::
      InputInv(closed, input, expected, log, stream) ==> InputInv(closed, input, expected, after, stream)
  {
  }

  lemma Regroup(a: Buffer, b: Buffer, c: Buffer)
    ensures (a + b) + c == a + (b + c) && a + b <= (a + b) + c && a <= a + b
    ensures b == [] ==> (a + b) + c == a + c
    ensures |(a + b) + c| == |a| + |b| + |c|
  {
  }

  /** A frame joins the queue. */
  lemma QueueMore(writes: seq<Write>, queued: nat, frames: seq<Buffer>, wire: Buffer, f: Buffer)
    requires QueueInv(false, writes, queued, frames, wire)
    requires 0 < |f| <= FRAME_LIMIT && queued + |f| + 4 <= QUEUE_LIMIT
    ensures QueueInv(false, writes + [Write(Frame(f), 0)], queued + |Frame(f)|, frames + [f], wire)
    ensures |Frame(f)| == |f| + 4
  {
    var w := Write(Frame(f), 0);
    assert |Frame(f)| == |f| + 4;
    hide Unsent, Encode, Frame;
    UnsentAppend(writes, w);
    EncodeAppend(frames, f);
    WireAhead(wire, Unsent(writes), Encode(frames), Frame(f));
    assert forall x :: x in writes + [w] ==> x.offset < |x.bytes|;
    assert forall x :: x in frames + [f] ==> 0 < |x| <= FRAME_LIMIT;
  }

  lemma WireAhead(wire: Buffer, unsent: Buffer, all: Buffer, more: Buffer)
    requires wire + unsent == all
    ensures wire + (unsent + more) == all + more && wire <= all + more && |unsent + more| == |unsent| + |more|
  {
    assert wire + (unsent + more) == (wire + unsent) + more;
  }

  /** The next `n` bytes of a frame. */
  function Head(w: Write, n: nat): Buffer
    requires w.offset + n <= |w.bytes|
  {
    w.bytes[w.offset..w.offset + n]
  }

  function Beyond(w: Write, n: nat): Write {
    w.(offset := w.offset + n)
  }

  /** The queue after the socket took `n` bytes of its first frame. */
  function Taken(writes: seq<Write>, n: nat): seq<Write>
    requires writes != []
  {
    if writes[0].offset + n == |writes[0].bytes| then writes[1..] else [Beyond(writes[0], n)] + writes[1..]
  }

  lemma UnsentTaken(writes: seq<Write>, n: nat)
    requires writes != [] && 0 < n <= |writes[0].bytes| - writes[0].offset
    ensures Unsent(writes) == Head(writes[0], n) + Unsent(Taken(writes, n))
  {
  }

  lemma TakenFacts(writes: seq<Write>, n: nat)
    requires writes != [] && 0 < n <= |writes[0].bytes| - writes[0].offset
    requires forall w :: w in writes ==> w.offset < |w.bytes|
    ensures forall w :: w in Taken(writes, n) ==> w.offset < |w.bytes|
    ensures |Head(writes[0], n)| == n
  {
  }

  lemma QueueLess(writes: seq<Write>, queued: nat, frames: seq<Buffer>, wire: Buffer, n: nat)
    requires QueueInv(false, writes, queued, frames, wire)
    requires writes != [] && 0 < n <= |writes[0].bytes| - writes[0].offset
    ensures n <= queued && QueueInv(false, Taken(writes, n), queued - n, frames, wire + Head(writes[0], n))
  {
    hide Unsent, Encode, Taken, Head, Rest;
    TakenFacts(writes, n);
    UnsentTaken(writes, n);
    Regroup(wire, Head(writes[0], n), Unsent(Taken(writes, n)));
  }

  lemma InputMore(input: Buffer, expected: nat, log: seq<Entry>, stream: Buffer, chunk: Buffer)
    requires InputInv(false, input, expected, log, stream) && 0 < |chunk| <= expected - |input|
    ensures var more := input + chunk;
      && (|more| < expected ==> InputInv(false, more, expected, log, stream + chunk))
      && (|more| == expected == 4 ==>
            if LengthOf(more) == 0 || LengthOf(more) > FRAME_LIMIT
            then InputInv(true, [], expected, log, stream + chunk) && Parse(stream + chunk).bad
            else InputInv(false, more, LengthOf(more) + 4, log, stream + chunk))
      && (|more| == expected && expected != 4 && !Acceptable(more[4..]) ==>
            InputInv(true, [], 4, log, stream + chunk) && Parse(stream + chunk).bad)
      && (|more| == expected && expected != 4 && Acceptable(more[4..]) ==>
            forall e :: FramesIn(log + [e]) == FramesIn(log) + [more[4..]] ==>
              InputInv(false, [], 4, log + [e], stream + chunk))
  {
    hide Parse, Acceptable, LengthOf, FramesIn;
    ChunkParse(input, expected, chunk);
    ParseAppend(stream, chunk);
    assert Parse(stream).frames + [] == Parse(stream).frames;
  }

  // ----- expired requests

  predicate Ascending(ids: seq<nat>) {
    forall i, j :: 0 <= i < j < |ids| ==> ids[i] < ids[j]
  }

  /** One timeout for each of the ids. */
  function TimeOuts(requests: map<nat, Pending>, ids: seq<nat>): seq<Entry>
    requires forall i :: i in ids ==> i in requests
  {
    seq(|ids|, k requires 0 <= k < |ids| => Completed(requests[ids[k]].token, TimedOut))
  }

  /** The ids before those in `todo` have been looked at, in order. */
  ghost predicate Looked(before: map<nat, Pending>, now: nat, todo: set<nat>, expired: seq<nat>) {
    && Ascending(expired)
    && (forall i :: i in expired <==> i in before && i !in todo && before[i].deadline <= now)
    && (forall i, j :: i in expired && j in todo ==> i < j)
  }

  lemma NothingYet(before: map<nat, Pending>, now: nat, log: seq<Entry>)
    ensures before - (set i | i in []) == before && log + TimeOuts(before, []) == log
    ensures Looked(before, now, before.Keys, [])
  {
    assert (set i: nat | i in []) == {};
  }

  lemma LookedAt(before: map<nat, Pending>, now: nat, todo: set<nat>, expired: seq<nat>, id: nat)
    requires Looked(before, now, todo, expired) && id in todo && id in before
    requires forall j :: j in todo ==> id <= j
    ensures id !in expired && forall i :: i in expired ==> i in before
    ensures before[id].deadline > now ==> Looked(before, now, todo - {id}, expired)
    ensures before[id].deadline <= now ==> Looked(before, now, todo - {id}, expired + [id])
  {
    assert forall k :: 0 <= k < |expired| ==> expired[k] in expired;
  }

  lemma TimeOutsMore(before: map<nat, Pending>, expired: seq<nat>, id: nat, log: seq<Entry>)
    requires id in before && forall i :: i in expired ==> i in before
    ensures log + TimeOuts(before, expired + [id])
      == (log + TimeOuts(before, expired)) + [Completed(before[id].token, TimedOut)]
  {
  }

  lemma LessRequests(before: map<nat, Pending>, expired: seq<nat>, id: nat)
    requires id in before && id !in expired
    ensures var less := before - (set i | i in expired);
      id in less && less[id] == before[id] && less - {id} == before - (set i | i in expired + [id])
  {
  }

  /** The smallest id of a set. */
  method LeastOf(ids: set<nat>) returns (least: nat)
    requires ids != {}
    ensures least in ids && forall i :: i in ids ==> least <= i
  {
    least :| least in ids;
    var rest := ids - {least};
    while rest != {}
      invariant rest < ids && least in ids && forall i :: i in ids && i !in rest ==> least <= i
      decreases |rest|
    {
      var i :| i in rest;
      rest := rest - {i};
      if i < least {
        least := i;
      }
    }
  }

  class Channel {
    var closed: bool
    var input: Buffer
    var expected: nat
    var queuedBytes: nat
    var writes: seq<Write>
    var requests: map<nat, Pending>
    var log: seq<Entry>

    /** Frames queued, bytes handed to the socket, bytes received, requests ever made. */
    ghost var frames: seq<Buffer>
    ghost var wire: Buffer
    ghost var stream: Buffer
    ghost var asked: set<nat>

    ghost predicate Valid()
      reads this
    {
      && QueueInv(closed, writes, queuedBytes, frames, wire)
      && InputInv(closed, input, expected, log, stream)
      && RequestInv(closed, requests, log, asked)
    }

    constructor ()
      ensures Valid() && !closed && frames == [] && wire == [] && stream == [] && asked == {} && log == []
    {
      closed, input, expected, queuedBytes, writes, requests, log := false, [], 4, 0, [], map[], [];
      frames, wire, stream, asked := [], [], [], {};
    }

    /** Drop what is buffered and answer every open request. */
    method CloseDown()
      requires !closed && QueueInv(false, writes, queuedBytes, frames, wire)
      requires InputInv(true, [], expected, log, stream) && RequestInv(false, requests, log, asked)
      modifies this
      ensures Valid() && closed && unchanged(`frames) && unchanged(`wire) && unchanged(`stream) && unchanged(`asked)
      ensures forall t :: t in asked ==> Completions(log, t) == 1
    {
      hide QueueInv, InputInv, RequestInv, Completions;
      QueueClosed(writes, queuedBytes, frames, wire);
      ghost var before := log;
      closed, writes, input, queuedBytes := true, [], [], 0;
      var pending := requests;
      requests := map[];
      log := CompleteAll(pending, log, asked);
      InputSame(before, log, stream);
    }

    /** Closing a closed channel does nothing. */
    method Finish()
      requires Valid()
      modifies this
      ensures Valid() && closed && unchanged(`frames) && unchanged(`wire) && unchanged(`stream) && unchanged(`asked)
      ensures old(closed) ==> log == old(log)
      ensures forall t :: t in asked ==> Completions(log, t) == 1
    {
      hide QueueInv, InputInv, RequestInv, Completions;
      if closed {
        NoneOpen(requests, log, asked);
      } else {
        InputClosed(input, expected, log, stream);
        CloseDown();
      }
    }

    /** A frame is queued whole, or the channel closes. */
    method Send(bytes: Buffer)
      requires Valid()
      modifies this
      ensures Valid() && unchanged(`wire) && unchanged(`stream) && unchanged(`asked)
      ensures old(closed) ==> closed && frames == old(frames) && log == old(log)
      ensures !old(closed) ==>
        closed == (bytes == [] || |bytes| > FRAME_LIMIT || old(queuedBytes) + |bytes| + 4 > QUEUE_LIMIT)
      ensures closed ==> frames == old(frames)
      ensures !closed ==> frames == old(frames) + [bytes] && unchanged(`requests) && unchanged(`log)
    {
      hide QueueInv, InputInv, RequestInv;
      if closed {
        return;
      }
      if bytes == [] || |bytes| > FRAME_LIMIT || queuedBytes + |bytes| + 4 > QUEUE_LIMIT {
        Finish();
        return;
      }
      QueueMore(writes, queuedBytes, frames, wire, bytes);
      hide Frame;
      var frame := Frame(bytes);
      queuedBytes := queuedBytes + |frame|;
      writes := writes + [Write(frame, 0)];
      frames := frames + [bytes];
    }

    /** A request is refused with an answer, or admitted; an admitted one always fits the send queue. */
    method Request(token: nat, id: nat, request: Buffer, timeout: nat, now: nat)
      requires Valid() && token !in asked && 0 < |request| <= FRAME_LIMIT - 8
      modifies this
      ensures Valid() && closed == old(closed) && asked == old(asked) + {token}
      ensures unchanged(`wire) && unchanged(`stream)
      ensures var admitted :=
          !old(closed) && |old(requests)| < MAX_REQUESTS && id !in old(requests)
          && old(queuedBytes) + |request| + 12 <= QUEUE_LIMIT;
        if admitted then
          && frames == old(frames) + [Envelope(id, request)] && log == old(log)
          && requests == old(requests)[id := Pending(token, timeout + now)]
        else
          && frames == old(frames) && requests == old(requests)
          && log == old(log) + [Completed(token, if closed then ClosedBeforeSend else CapacityBeforeSend)]
    {
      hide QueueInv, InputInv;
      if closed || |requests| >= MAX_REQUESTS || id in requests || queuedBytes + |request| + 12 > QUEUE_LIMIT {
        var outcome := if closed then ClosedBeforeSend else CapacityBeforeSend;
        hide RequestInv;
        AskedRefused(closed, requests, log, asked, token, outcome);
        LogAppend(log, Completed(token, outcome), token);
        InputSame(log, log + [Completed(token, outcome)], stream);
        asked := asked + {token};
        log := log + [Completed(token, outcome)];
        return;
      }
      AskedOpen(requests, log, asked, id, Pending(token, timeout + now));
      hide RequestInv;
      requests := requests[id := Pending(token, timeout + now)];
      asked := asked + {token};
      Send(Envelope(id, request));
    }

    /** One open request is answered. */
    method CompleteOne(id: nat, outcome: Outcome)
      requires Valid() && id in requests && !outcome.Answer?
      modifies this`requests, this`log
      ensures Valid() && requests == old(requests) - {id}
      ensures log == old(log) + [Completed(old(requests[id]).token, outcome)]
    {
      hide QueueInv, InputInv, RequestInv, Completions, FramesIn;
      var p := requests[id];
      StillOpen(closed, requests, log, asked, id);
      Answered(requests, log, asked, id, outcome);
      LogAppend(log, Completed(p.token, outcome), p.token);
      InputSame(log, log + [Completed(p.token, outcome)], stream);
      requests := requests - {id};
      log := log + [Completed(p.token, outcome)];
    }

    method Cancel(id: nat)
      requires Valid()
      modifies this`requests, this`log
      ensures Valid() && requests == old(requests) - {id}
      ensures log == old(log) + if id in old(requests) then [Completed(old(requests[id]).token, Cancelled)] else []
    {
      if id in requests {
        CompleteOne(id, Cancelled);
      } else {
        assert requests == requests - {id};
      }
    }

    /** Exactly the requests past their deadline are timed out, in the order of their ids. */
    method Tick(now: nat) returns (expired: seq<nat>)
      requires Valid()
      modifies this`requests, this`log
      ensures Valid()
      ensures Ascending(expired)
      ensures forall i :: i in expired <==> i in old(requests) && old(requests)[i].deadline <= now
      ensures requests == old(requests) - (set i | i in expired)
      ensures log == old(log) + TimeOuts(old(requests), expired)
    {
      hide QueueInv, InputInv, RequestInv, Ascending, TimeOuts;
      ghost var before := requests;
      expired := [];
      var todo := requests.Keys;
      NothingYet(before, now, log);
      while todo != {}
        invariant Valid() && todo <= before.Keys
        invariant Looked(before, now, todo, expired)
        invariant requests == before - (set i | i in expired)
        invariant log == old(log) + TimeOuts(before, expired)
        decreases |todo|
      {
        hide Looked;
        var id := LeastOf(todo);
        LookedAt(before, now, todo, expired, id);
        todo := todo - {id};
        if requests[id].deadline <= now {
          TimeOutsMore(before, expired, id, old(log));
          LessRequests(before, expired, id);
          CompleteOne(id, TimedOut);
          expired := expired + [id];
        }
      }
    }

    /** The socket takes `n` bytes of the first frame. */
    method WriteOne(n: nat)
      requires Valid() && writes != [] && 0 < n <= |writes[0].bytes| - writes[0].offset
      modifies this`writes, this`queuedBytes, this`wire
      ensures Valid() && wire == old(wire) + Head(old(writes[0]), n)
      ensures queuedBytes == old(queuedBytes) - n
    {
      assert !closed;
      hide QueueInv, InputInv, RequestInv, Head, Taken;
      QueueLess(writes, queuedBytes, frames, wire, n);
      wire := wire + Head(writes[0], n);
      queuedBytes := queuedBytes - n;
      writes := Taken(writes, n);
    }

    /** The socket takes what it will, `accepts[round]` bytes at a time; nothing is lost or reordered. */
    method WriteSome(accepts: seq<nat>)
      requires Valid()
      modifies this`writes, this`queuedBytes, this`wire
      ensures Valid() && old(wire) <= wire
      ensures |wire| - |old(wire)| == old(queuedBytes) - queuedBytes
    {
      var round := 0;
      while round < ROUNDS && round < |accepts| && writes != []
        invariant 0 <= round && Valid() && old(wire) <= wire
        invariant |wire| - |old(wire)| == old(queuedBytes) - queuedBytes
      {
        var w := writes[0];
        assert w in writes;
        if accepts[round] == 0 {
          break;
        }
        assert w.offset < |w.bytes|;
        hide QueueInv, InputInv, RequestInv;
        WriteOne(Min(accepts[round], |w.bytes| - w.offset));
        round := round + 1;
      }
    }

    /** A whole frame answers the open request it names, or is passed on. */
    method Deliver(frame: Buffer)
      requires !closed && QueueInv(false, writes, queuedBytes, frames, wire) && Acceptable(frame)
      requires RequestInv(false, requests, log, asked)
      requires forall e :: FramesIn(log + [e]) == FramesIn(log) + [frame] ==> InputInv(false, [], 4, log + [e], stream)
      modifies this`input, this`expected, this`requests, this`log
      ensures Valid()
      ensures requests == old(requests) - {IdOf(frame)}
      ensures log == old(log) + [
        if IdOf(frame) in old(requests) then Completed(old(requests)[IdOf(frame)].token, Answer(frame, Payload(frame)))
        else FrameEvent(frame)]
    {
      hide QueueInv, InputInv, RequestInv, IdOf, Payload, FramesIn, Completions, Acceptable;
      input, expected := [], 4;
      var id := IdOf(frame);
      if id in requests {
        var e := Completed(requests[id].token, Answer(frame, Payload(frame)));
        Answered(requests, log, asked, id, Answer(frame, Payload(frame)));
        LogAppend(log, e, 0);
        requests := requests - {id};
        log := log + [e];
      } else {
        EventOnly(false, requests, log, asked, frame);
        LogAppend(log, FrameEvent(frame), 0);
        assert requests == requests - {id};
        log := log + [FrameEvent(frame)];
      }
    }

    /** One chunk of at most the bytes asked for. A bad length or envelope closes the channel. */
    method Receive(chunk: Buffer)
      requires Valid() && !closed && 0 < |chunk| <= expected - |input|
      modifies this
      ensures Valid() && stream == old(stream) + chunk
      ensures unchanged(`wire) && unchanged(`frames) && unchanged(`asked)
      ensures closed == Parse(stream).bad
    {
      hide QueueInv, RequestInv;
      InputMore(input, expected, log, stream, chunk);
      hide InputInv;
      stream := stream + chunk;
      input := input + chunk;
      if |input| < expected {
        OpenIsGood(input, expected, log, stream);
        return;
      }
      if expected == 4 {
        var size := LengthOf(input);
        if size == 0 || size > FRAME_LIMIT {
          CloseDown();
          return;
        }
        expected := size + 4;
        OpenIsGood(input, expected, log, stream);
        return;
      }
      var frame := input[4..];
      if !Acceptable(frame) {
        expected := 4;
        CloseDown();
        return;
      }
      Deliver(frame);
      OpenIsGood(input, expected, log, stream);
    }

    /** Up to 16 reads of whatever the socket has; `cuts` says where it stops short of what was asked. */
    method ReadSome(available: Buffer, cuts: seq<nat>) returns (taken: nat)
      requires Valid() && !closed
      modifies this
      ensures Valid() && taken <= |available| && stream == old(stream) + available[..taken]
      ensures unchanged(`wire) && unchanged(`frames) && unchanged(`asked)
      ensures closed == Parse(stream).bad
    {
      taken := 0;
      var round := 0;
      OpenIsGood(input, expected, log, stream);
      hide QueueInv, RequestInv, InputInv, Parse;
      while round < ROUNDS && !closed && taken < |available|
        invariant 0 <= round && taken <= |available| && Valid()
        invariant stream == old(stream) + available[..taken]
        invariant wire == old(wire) && frames == old(frames) && asked == old(asked)
        invariant closed == Parse(stream).bad
      {
        OpenIsGood(input, expected, log, stream);
        assert |input| < expected;
        hide Awaiting, ChunkSize, Min;
        var n := ChunkSize(expected - |input|, |available| - taken, if round < |cuts| then cuts[round] else 0);
        MoreTaken(old(stream), available, taken, n);
        Receive(available[taken..taken + n]);
        taken := taken + n;
        round := round + 1;
      }
    }
  }

  /** What one read takes: at most what is asked for and available, or less if the socket cuts it. */
  function ChunkSize(asked: nat, available: nat, cut: nat): (n: nat)
    requires asked > 0 && available > 0
    ensures 0 < n <= asked && n <= available && n <= READ_SIZE
  {
    var most := Min(READ_SIZE, Min(asked, available));
    if 0 < cut < most then cut else most
  }

  lemma MoreTaken(s: Buffer, available: Buffer, taken: nat, n: nat)
    requires taken + n <= |available|
    ensures |available[taken..taken + n]| == n
    ensures s + available[..taken] + available[taken..taken + n] == s + available[..taken + n]
  {
  }

  lemma OpenIsGood(input: Buffer, expected: nat, log: seq<Entry>, stream: Buffer)
    requires InputInv(false, input, expected, log, stream)
    ensures !Parse(stream).bad && Awaiting(input, expected)
  {
  }

  lemma AllSent(sender: Channel)
    requires sender.Valid() && !sender.closed && sender.queuedBytes == 0
    ensures sender.wire == Encode(sender.frames)
  {
    assert Unsent(sender.writes) == [];
  }

  /** Two ends of one connection. What arrived is whole frames of the sender, in order, all of them before the
      first one without a marker or a full envelope. When everything was sent and received, exactly those arrived;
      they are all frames exactly when none was refused, and a refused one closed the receiver. */
  lemma EndToEnd(sender: Channel, receiver: Channel)
    requires sender.Valid() && receiver.Valid() && receiver.stream <= sender.wire
    ensures FramesIn(receiver.log) <= Welcome(sender.frames) <= sender.frames
    ensures !sender.closed && sender.queuedBytes == 0 && receiver.stream == sender.wire ==>
      && FramesIn(receiver.log) == Welcome(sender.frames)
      && (FramesIn(receiver.log) == sender.frames <==> forall f :: f in sender.frames ==> Acceptable(f))
      && (FramesIn(receiver.log) != sender.frames ==> receiver.closed)
  {
    assert receiver.stream <= Encode(sender.frames);
    assert forall f :: f in sender.frames ==> Framed(f);
    assert FramesIn(receiver.log) == Parse(receiver.stream).frames;
    assert Parse(receiver.stream).bad ==> receiver.closed;
    if !sender.closed && sender.queuedBytes == 0 {
      AllSent(sender);
    }
    hide *;
    PrefixDelivers(sender.frames, receiver.stream);
    WelcomeFacts(sender.frames);
  }

  /** Whatever arrives and whatever is sent, a channel holds at most one unfinished frame and a full queue. */
  lemma BoundedMemory(c: Channel)
    requires c.Valid()
    ensures |c.input| < FRAME_LIMIT + 4 && c.queuedBytes <= QUEUE_LIMIT && |c.requests| <= MAX_REQUESTS
  {
  }
}
