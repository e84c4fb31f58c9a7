/** Length-prefixed frames on a byte stream, and the request envelope inside them. */
module Framing {
  type Byte = b: int | 0 <= b < 256
  type Buffer = seq<Byte>

  const FRAME_LIMIT := 1048576

  /** The number as `k` bytes, most significant first. */
  function BigEndian(n: nat, k: nat): (b: Buffer)
    ensures |b| == k
  {
    if k == 0 then [] else BigEndian(n / 256, k - 1) + [n % 256]
  }

  function Number(b: Buffer): nat {
    if b == [] then 0 else Number(b[..|b| - 1]) * 256 + b[|b| - 1]
  }

  function Power(k: nat): nat {
    if k == 0 then 1 else 256 * Power(k - 1)
  }

  lemma {:induction false} NumberRoundTrip(n: nat, k: nat)
    requires n < Power(k)
    ensures Number(BigEndian(n, k)) == n
    decreases k
  {
    if k > 0 {
      assert n / 256 < Power(k - 1);
      NumberRoundTrip(n / 256, k - 1);
      var b := BigEndian(n, k);
      assert b[..k - 1] == BigEndian(n / 256, k - 1);
    }
  }

  // ----- frames

  function LengthOf(s: Buffer): nat
    requires |s| >= 4
  {
    Number(s[..4])
  }

  function Frame(f: Buffer): Buffer {
    BigEndian(|f|, 4) + f
  }

  function Encode(fs: seq<Buffer>): Buffer {
    if fs == [] then [] else Frame(fs[0]) + Encode(fs[1..])
  }

  /** Frames of the older protocol carry their own marker and no request id. */
  predicate Legacy(f: Buffer) {
    |f| >= 4 && (f[..4] == [68, 82, 80, 82] || f[..4] == [68, 82, 80, 67])
  }

  /** A receiver takes a frame only with a marker or with an envelope and something in it. */
  predicate Acceptable(f: Buffer) {
    Legacy(f) || |f| >= 9
  }

  datatype Parsed = Parsed(frames: seq<Buffer>, rest: Buffer, bad: bool)

  /** The whole stream read at once: its frames up to the first unacceptable one, and what is left over. */
  function Parse(s: Buffer): Parsed
    decreases |s|
  {
    if |s| < 4 then Parsed([], s, false)
    else
      var n := LengthOf(s);
      if n == 0 || n > FRAME_LIMIT then Parsed([], [], true)
      else if |s| < n + 4 then Parsed([], s, false)
      else if !Acceptable(s[4..n + 4]) then Parsed([], [], true)
      else
        var p := Parse(s[n + 4..]);
        p.(frames := [s[4..n + 4]] + p.frames)
  }

  function Joined(p: Parsed, q: Parsed): Parsed {
    if p.bad then p else Parsed(p.frames + q.frames, q.rest, q.bad)
  }

  lemma JoinedAssoc(p: Parsed, q: Parsed, r: Parsed)
    ensures Joined(Joined(p, q), r) == Joined(p, Joined(q, r))
  {
  }

  /** The stream starts with a complete acceptable frame. */
  predicate StartsWithFrame(s: Buffer) {
    && |s| >= 4 && 0 < LengthOf(s) <= FRAME_LIMIT && |s| >= LengthOf(s) + 4
    && Acceptable(s[4..LengthOf(s) + 4])
  }

  lemma ParseFrame(s: Buffer)
    requires StartsWithFrame(s)
    ensures Parse(s) == Joined(Parsed([s[4..LengthOf(s) + 4]], [], false), Parse(s[LengthOf(s) + 4..]))
    ensures Parse(s).rest == Parse(s[LengthOf(s) + 4..]).rest && Parse(s).bad == Parse(s[LengthOf(s) + 4..]).bad
  {
  }

  lemma ParseStuck(a: Buffer, b: Buffer)
    requires !StartsWithFrame(a)
    ensures Parse(a) == Parsed([], a, false) || (Parse(a) == Parsed([], [], true) && Parse(a + b) == Parse(a))
  {
    if |a| >= 4 {
      assert (a + b)[..4] == a[..4];
      var n := LengthOf(a);
      if |a| >= n + 4 {
        assert (a + b)[4..n + 4] == a[4..n + 4];
      }
    }
    hide Number, Acceptable;
  }

  /** Reading on from what was left over is reading the whole. */
  lemma {:induction false} ParseAppend(a: Buffer, b: Buffer)
    ensures Parse(a + b) == Joined(Parse(a), Parse(Parse(a).rest + b))
    decreases |a|
  {
    if StartsWithFrame(a) {
      hide *;
      FrameFirst(a, b);
      var rest := a[LengthOf(a) + 4..];
      ParseFrame(a);
      ParseFrame(a + b);
      ParseAppend(rest, b);
      var first := Parsed([a[4..LengthOf(a) + 4]], [], false);
      JoinedAssoc(first, Parse(rest), Parse(Parse(rest).rest + b));
    } else {
      ParseStuck(a, b);
      hide Parse;
      assert [] + Parse(a + b).frames == Parse(a + b).frames;
    }
  }

  /** The first frame of a stream is that of every longer stream. */
  lemma FrameFirst(a: Buffer, b: Buffer)
    requires StartsWithFrame(a)
    ensures |a| >= 4 && LengthOf(a) + 4 <= |a|
    ensures StartsWithFrame(a + b) && LengthOf(a + b) == LengthOf(a)
    ensures (a + b)[4..LengthOf(a) + 4] == a[4..LengthOf(a) + 4]
    ensures (a + b)[LengthOf(a) + 4..] == a[LengthOf(a) + 4..] + b
  {
    var n := LengthOf(a);
    assert (a + b)[..4] == a[..4];
    hide Number, Acceptable;
    assert (a + b)[4..n + 4] == a[4..n + 4];
  }

  /** A receiver fed chunk by chunk: frames so far and the unfinished part. */
  function Feed(p: Parsed, chunks: seq<Buffer>): Parsed
    decreases |chunks|
  {
    if chunks == [] then p else Feed(Joined(p, Parse(p.rest + chunks[0])), chunks[1..])
  }

  function Concat(chunks: seq<Buffer>): Buffer {
    if chunks == [] then [] else chunks[0] + Concat(chunks[1..])
  }

  /** However the stream is cut, the receiver ends up as if it had read it in one piece. */
  lemma {:induction false} ChunkingIrrelevant(s: Buffer, chunks: seq<Buffer>)
    ensures Feed(Parse(s), chunks) == Parse(s + Concat(chunks))
    decreases |chunks|
  {
    if chunks == [] {
      assert s + [] == s;
    } else {
      assert s + chunks[0] + Concat(chunks[1..]) == s + Concat(chunks);
      hide Parse, Concat;
      ParseAppend(s, chunks[0]);
      ChunkingIrrelevant(s + chunks[0], chunks[1..]);
    }
  }

  /** Fits the length prefix; all that a sender checks. */
  predicate Framed(f: Buffer) {
    0 < |f| <= FRAME_LIMIT
  }

  predicate Sendable(f: Buffer) {
    Framed(f) && Acceptable(f)
  }

  lemma PowerFour()
    ensures Power(4) == 4294967296
  {
  }

  lemma FirstFrame(f: Buffer, s: Buffer)
    requires Sendable(f)
    ensures Parse(Frame(f) + s) == Joined(Parsed([f], [], false), Parse(s))
  {
    PowerFour();
    NumberRoundTrip(|f|, 4);
    var t := Frame(f) + s;
    assert t[..4] == BigEndian(|f|, 4);
    assert t[4..|f| + 4] == f && t[|f| + 4..] == s;
  }

  /** Frames come out as they went in, followed by whatever the rest of the stream says. */
  lemma {:induction false} FramesRoundTrip(fs: seq<Buffer>, s: Buffer)
    requires forall f :: f in fs ==> Sendable(f)
    ensures Parse(Encode(fs) + s) == Joined(Parsed(fs, [], false), Parse(s))
    decreases |fs|
  {
    if fs == [] {
      assert Encode(fs) + s == s;
    } else {
      assert Encode(fs) + s == Frame(fs[0]) + (Encode(fs[1..]) + s);
      assert [fs[0]] + fs[1..] == fs;
      hide Parse, Encode, Sendable, Frame;
      FirstFrame(fs[0], Encode(fs[1..]) + s);
      FramesRoundTrip(fs[1..], s);
      JoinedAssoc(Parsed([fs[0]], [], false), Parsed(fs[1..], [], false), Parse(s));
    }
  }

  /** A marker alone makes a frame acceptable, whatever follows it, also nothing. */
  lemma MarkedIsAcceptable(f: Buffer, rest: Buffer)
    requires f == [68, 82, 80, 82] || f == [68, 82, 80, 67]
    ensures Acceptable(f + rest)
  {
    assert (f + rest)[..4] == f;
  }

  /** A frame without content is neither sent nor taken. */
  lemma EmptyFrame(s: Buffer)
    ensures !Framed([]) && Parse([0, 0, 0, 0] + s) == Parsed([], [], true)
  {
    var t := [0, 0, 0, 0] + s;
    assert t[..4] == [0, 0, 0, 0];
    assert [0, 0, 0, 0][..3] == [0, 0, 0] && [0, 0, 0][..2] == [0, 0] && [0, 0][..1] == [0] && [0][..0] == [];
    assert Number([0, 0, 0]) == 0;
  }

  /** The frames before the first one a receiver refuses. */
  function Welcome(fs: seq<Buffer>): seq<Buffer> {
    if fs == [] || !Acceptable(fs[0]) then [] else [fs[0]] + Welcome(fs[1..])
  }

  lemma {:induction false} WelcomeFacts(fs: seq<Buffer>)
    ensures Welcome(fs) <= fs
    ensures Welcome(fs) == fs <==> forall f :: f in fs ==> Acceptable(f)
    decreases |fs|
  {
    if fs != [] {
      assert fs == [fs[0]] + fs[1..];
      WelcomeFacts(fs[1..]);
    }
  }

  /** A refused frame ends the stream for good. */
  lemma RefusedFrame(f: Buffer, s: Buffer)
    requires Framed(f) && !Acceptable(f)
    ensures Parse(Frame(f) + s) == Parsed([], [], true)
  {
    PowerFour();
    NumberRoundTrip(|f|, 4);
    var t := Frame(f) + s;
    assert t[..4] == BigEndian(|f|, 4);
    assert t[4..|f| + 4] == f;
  }

  lemma WelcomeFirst(fs: seq<Buffer>)
    requires fs != []
    ensures Acceptable(fs[0]) ==> Welcome(fs) == [fs[0]] + Welcome(fs[1..])
    ensures !Acceptable(fs[0]) ==> Welcome(fs) == []
    ensures Welcome(fs) == fs <==> Acceptable(fs[0]) && Welcome(fs[1..]) == fs[1..]
  {
    assert fs == [fs[0]] + fs[1..];
  }

  /** The first frame has arrived whole, or only part of it. */
  lemma HeadOf(fs: seq<Buffer>, s: Buffer)
    requires fs != [] && s <= Encode(fs)
    ensures var head := Frame(fs[0]);
      if |s| < |head| then s <= head && s != Encode(fs)
      else s == head + s[|head|..] && s[|head|..] <= Encode(fs[1..])
           && (s == Encode(fs) ==> s[|head|..] == Encode(fs[1..]))
  {
    var head := Frame(fs[0]);
    assert Encode(fs) == head + Encode(fs[1..]);
    if |s| < |head| {
      assert Encode(fs)[..|s|] == head[..|s|];
    } else {
      assert s[..|head|] == head;
    }
  }

  /** A stream that stops anywhere has delivered whole frames, in order, and none from the first refused one on. */
  lemma {:induction false} PrefixDelivers(fs: seq<Buffer>, s: Buffer)
    requires (forall f :: f in fs ==> Framed(f)) && s <= Encode(fs)
    ensures Parse(s).frames <= Welcome(fs) && |Parse(s).rest| < FRAME_LIMIT + 4
    ensures Parse(s).bad ==> Welcome(fs) != fs
    ensures s == Encode(fs) ==> Parse(s) == Parsed(Welcome(fs), [], Welcome(fs) != fs)
    decreases |fs|
  {
    if fs != [] {
      var head := Frame(fs[0]);
      assert Framed(fs[0]) && |head| == |fs[0]| + 4;
      HeadOf(fs, s);
      WelcomeFirst(fs);
      hide Parse, Encode, Frame, Welcome, Acceptable;
      if |s| < |head| {
        PartialHead(fs[0], s);
      } else if Acceptable(fs[0]) {
        FirstFrame(fs[0], s[|head|..]);
        PrefixDelivers(fs[1..], s[|head|..]);
      } else {
        RefusedFrame(fs[0], s[|head|..]);
      }
    }
  }

  lemma PartialHead(f: Buffer, s: Buffer)
    requires Framed(f) && |s| < |Frame(f)|
    ensures s <= Frame(f) ==> Parse(s) == Parsed([], s, false)
  {
    if s <= Frame(f) && |s| >= 4 {
      PowerFour();
      NumberRoundTrip(|f|, 4);
      assert s[..4] == BigEndian(|f|, 4);
    }
  }

  /** Eight bytes without a marker are such a frame, and nothing after it arrives. */
  lemma ShortFrameEndsStream(s: Buffer)
    ensures Framed([0, 0, 0, 0, 0, 0, 0, 1]) && Parse(Frame([0, 0, 0, 0, 0, 0, 0, 1]) + s) == Parsed([], [], true)
  {
    var f: Buffer := [0, 0, 0, 0, 0, 0, 0, 1];
    assert f[..4][0] == 0;
    RefusedFrame(f, s);
  }

  // ----- the request envelope

  const ID_LIMIT: nat := 18446744073709551616

  /** Id 0 means a frame without an envelope. */
  function Envelope(id: nat, request: Buffer): Buffer {
    (if id != 0 then BigEndian(id, 8) else []) + request
  }

  function IdOf(f: Buffer): nat
    requires Acceptable(f)
  {
    if Legacy(f) then 0 else Number(f[..8])
  }

  function Payload(f: Buffer): Buffer
    requires Acceptable(f)
  {
    if Legacy(f) then f else f[8..]
  }

  /** An id survives the envelope exactly when its leading bytes do not spell a marker of the older protocol. */
  lemma EnvelopeRoundTrip(id: nat, request: Buffer)
    requires 0 < id < ID_LIMIT && request != []
    ensures Acceptable(Envelope(id, request))
    ensures IdOf(Envelope(id, request)) == id && Payload(Envelope(id, request)) == request <==> !Legacy(BigEndian(id, 8))
  {
    PowerFour();
    assert Power(5) == 1099511627776;
    assert Power(6) == 281474976710656;
    assert Power(7) == 72057594037927936;
    assert Power(8) == ID_LIMIT;
    NumberRoundTrip(id, 8);
    var f := Envelope(id, request);
    assert f[..8] == BigEndian(id, 8);
    assert f[..4] == BigEndian(id, 8)[..4];
  }

  lemma {:induction false} BytesRoundTrip(b: Buffer)
    ensures BigEndian(Number(b), |b|) == b
    decreases |b|
  {
    if b != [] {
      var front, last := b[..|b| - 1], b[|b| - 1];
      assert b == front + [last] && Number(b) == Number(front) * 256 + last;
      hide Number;
      BytesRoundTrip(front);
      DigitApart(Number(front), last);
      assert BigEndian(Number(b), |b|) == BigEndian(Number(b) / 256, |front|) + [Number(b) % 256];
      hide BigEndian;
    }
  }

  lemma DigitApart(high: nat, low: nat)
    requires low < 256
    ensures (high * 256 + low) / 256 == high && (high * 256 + low) % 256 == low
  {
  }

  lemma {:induction false} NumberPositive(b: Buffer)
    requires b != [] && b[0] > 0
    ensures Number(b) > 0
    decreases |b|
  {
    if |b| > 1 {
      NumberPositive(b[..|b| - 1]);
    }
  }

  /** The ids that do: their requests are read as frames of the older protocol, without an id. */
  lemma MarkerIdIsLost(tail: Buffer, request: Buffer)
    requires |tail| == 4 && request != []
    ensures var id := Number([68, 82, 80, 67] + tail);
      id > 0 && Acceptable(Envelope(id, request)) && IdOf(Envelope(id, request)) == 0
  {
    var b: Buffer := [68, 82, 80, 67] + tail;
    BytesRoundTrip(b);
    NumberPositive(b);
    assert Envelope(Number(b), request)[..4] == [68, 82, 80, 67];
  }
}
