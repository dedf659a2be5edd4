/** How records are framed in the append-only logs, and how a log is split into frames again. */
module Framing {
  import opened Wrappers
  import opened Hashing
  import opened BigEndian

  /** Upper bound on one framed record. */
  const MAX_FRAME: nat := 0x10_0000

  const HEADER: nat := 8

  /** The text `JLR-frame`. */
  const CONTEXT: seq<byte> := [74, 76, 82, 45, 102, 114, 97, 109, 101]

  /** Domain-separated hash of several parts, each framed with its length. */
  function HashParts(h: Sha, context: seq<byte>, parts: seq<seq<byte>>): Digest {
    h(Be(|context|, 8) + context + PartsMessage(parts))
  }

  function PartsMessage(parts: seq<seq<byte>>): seq<byte> {
    if parts == [] then [] else Be(|parts[0]|, 8) + parts[0] + PartsMessage(parts[1..])
  }

  /** The header of a body of `len` bytes: the length and four bytes of its hash. */
  function FrameHeader(h: Sha, len: nat): (s: seq<byte>)
    ensures |s| == HEADER
  {
    Be(len, 4) + HashParts(h, CONTEXT, [Be(len, 4)])[..4]
  }

  function Frame(h: Sha, envelope: seq<byte>): (s: seq<byte>)
    ensures |s| == HEADER + |envelope|
  {
    FrameHeader(h, |envelope|) + envelope
  }

  function Frames(h: Sha, envelopes: seq<seq<byte>>): seq<byte> {
    if envelopes == [] then [] else Frame(h, envelopes[0]) + Frames(h, envelopes[1..])
  }

  predicate Framable(envelope: seq<byte>) {
    1 <= |envelope| <= MAX_FRAME
  }

  predicate AllFramable(envelopes: seq<seq<byte>>) {
    forall i :: 0 <= i < |envelopes| ==> Framable(envelopes[i])
  }

  datatype Reason = HeaderCheck | ImplausibleLength

  datatype BadFrame = BadFrame(seqno: nat, reason: Reason)

  /** The complete frames of a log, the bytes they cover, and the bytes of an incomplete last frame. */
  datatype Split = Split(frames: seq<seq<byte>>, covered: nat, torn: nat)

  /** What stands at the front of a log. */
  datatype Front = Whole(envelope: seq<byte>) | Torn | Bad(reason: Reason)

  function FrontOf(h: Sha, data: seq<byte>): (f: Front)
    ensures f.Whole? ==> HEADER + |f.envelope| <= |data|
  {
    if |data| < HEADER then Torn
    else
      var len := FromBe(data[..4]);
      if data[..HEADER] != FrameHeader(h, len) then Bad(HeaderCheck)
      else if len == 0 || len > MAX_FRAME then Bad(ImplausibleLength)
      else if |data| - HEADER < len then Torn
      else Whole(data[HEADER..HEADER + len])
  }

  /** Splits `data`, of which `frames` have already been read from in front of it. */
  function SplitAfter(h: Sha, frames: seq<seq<byte>>, covered: nat, data: seq<byte>): Result<Split, BadFrame>
    decreases |data|
  {
    match FrontOf(h, data)
    case Torn => Ok(Split(frames, covered, |data|))
    case Bad(reason) => Err(BadFrame(|frames|, reason))
    case Whole(envelope) =>
      var n := HEADER + |envelope|;
      SplitAfter(h, frames + [envelope], covered + n, data[n..])
  }

  function SplitLog(h: Sha, data: seq<byte>): Result<Split, BadFrame> {
    SplitAfter(h, [], 0, data)
  }

  /** Reads the header, and the body if it is complete, at `pos`. */
  method ReadFront(h: Sha, data: seq<byte>, pos: nat) returns (f: Front)
    requires pos <= |data|
    ensures f == FrontOf(h, data[pos..])
  {
    ghost var rest := data[pos..];
    if |data| - pos < HEADER {
      return Torn;
    }
    var len := FromBe(data[pos..pos + 4]);
    assert data[pos..pos + 4] == rest[..4] && data[pos..pos + HEADER] == rest[..HEADER];
    if data[pos..pos + HEADER] != FrameHeader(h, len) {
      return Bad(HeaderCheck);
    }
    if len == 0 || len > MAX_FRAME {
      return Bad(ImplausibleLength);
    }
    if |data| - pos - HEADER < len {
      return Torn;
    }
    assert data[pos + HEADER..pos + HEADER + len] == rest[HEADER..HEADER + len];
    f := Whole(data[pos + HEADER..pos + HEADER + len]);
  }

  lemma SplitNext(h: Sha, frames: seq<seq<byte>>, pos: nat, data: seq<byte>)
    requires pos <= |data| && FrontOf(h, data[pos..]).Whole?
    ensures var envelope := FrontOf(h, data[pos..]).envelope;
            var next := pos + HEADER + |envelope|;
            && next <= |data|
            && SplitAfter(h, frames, pos, data[pos..]) == SplitAfter(h, frames + [envelope], next, data[next..])
  {
    var n := HEADER + |FrontOf(h, data[pos..]).envelope|;
    assert data[pos + n..] == data[pos..][n..];
  }

  method SplitFrames(h: Sha, data: seq<byte>) returns (r: Result<Split, BadFrame>)
    ensures r == SplitLog(h, data)
  {
    var frames: seq<seq<byte>> := [];
    var pos := 0;
    assert data[0..] == data;
    while pos < |data|
      invariant pos <= |data|
      invariant SplitLog(h, data) == SplitAfter(h, frames, pos, data[pos..])
    {
      var front := ReadFront(h, data, pos);
      if front.Torn? {
        break;
      }
      if front.Bad? {
        return Err(BadFrame(|frames|, front.reason));
      }
      SplitNext(h, frames, pos, data);
      frames, pos := frames + [front.envelope], pos + HEADER + |front.envelope|;
    }
    r := Ok(Split(frames, pos, |data| - pos));
  }

  // ----- What splitting recovers -----

  lemma FrontOfFrame(h: Sha, envelope: seq<byte>, rest: seq<byte>)
    requires Framable(envelope)
    ensures FrontOf(h, Frame(h, envelope) + rest) == Whole(envelope)
  {
    var data := Frame(h, envelope) + rest;
    Ranges();
    FromBeOfBe(|envelope|, 4);
    assert data[..4] == Be(|envelope|, 4) && data[..HEADER] == FrameHeader(h, |envelope|);
    assert data[HEADER..HEADER + |envelope|] == envelope;
  }

  /** An incomplete frame is torn, never corrupt. */
  lemma FrontOfTorn(h: Sha, envelope: seq<byte>, n: nat)
    requires Framable(envelope) && n < |Frame(h, envelope)|
    ensures FrontOf(h, Frame(h, envelope)[..n]) == Torn
  {
    var data := Frame(h, envelope)[..n];
    if n >= HEADER {
      Ranges();
      FromBeOfBe(|envelope|, 4);
      assert data[..4] == Be(|envelope|, 4) && data[..HEADER] == FrameHeader(h, |envelope|);
    }
  }

  lemma FramesCons(h: Sha, more: seq<seq<byte>>, tail: seq<byte>)
    requires more != []
    ensures Frames(h, more) + tail == Frame(h, more[0]) + (Frames(h, more[1..]) + tail)
  {
  }

  lemma Regroup<T>(done: seq<T>, more: seq<T>)
    requires more != []
    ensures done + [more[0]] + more[1..] == done + more
  {
  }

  lemma DropFrame(h: Sha, envelope: seq<byte>, rest: seq<byte>)
    ensures (Frame(h, envelope) + rest)[HEADER + |envelope|..] == rest
  {
  }

  /** A whole frame at the front is a frame of its envelope. */
  lemma WholeFront(h: Sha, data: seq<byte>)
    requires FrontOf(h, data).Whole?
    ensures var e := FrontOf(h, data).envelope;
            Framable(e) && data == Frame(h, e) + data[HEADER + |e|..]
  {
    var e := FrontOf(h, data).envelope;
    assert data == data[..HEADER] + e + data[HEADER + |e|..];
  }

  lemma SplitStep(h: Sha, done: seq<seq<byte>>, covered: nat, envelope: seq<byte>, rest: seq<byte>)
    requires Framable(envelope)
    ensures SplitAfter(h, done, covered, Frame(h, envelope) + rest) ==
            SplitAfter(h, done + [envelope], covered + |Frame(h, envelope)|, rest)
  {
    FrontOfFrame(h, envelope, rest);
    DropFrame(h, envelope, rest);
  }

  /** Splitting reads past whole frames. */
  lemma {:induction false} SplitAfterFrames(h: Sha, done: seq<seq<byte>>, covered: nat, more: seq<seq<byte>>,
                                            tail: seq<byte>)
    requires AllFramable(more)
    ensures SplitAfter(h, done, covered, Frames(h, more) + tail) ==
            SplitAfter(h, done + more, covered + |Frames(h, more)|, tail)
    decreases |more|
  {
    if more == [] {
      assert Frames(h, more) + tail == tail && done + more == done;
    } else {
      RestFramable(more);
      SplitAfterFrames(h, done + [more[0]], covered + |Frame(h, more[0])|, more[1..], tail);
      Regroup(done, more);
      SplitStep(h, done, covered, more[0], Frames(h, more[1..]) + tail);
      FramesCons(h, more, tail);
      FramesLength(h, more);
    }
  }

  lemma RestFramable(more: seq<seq<byte>>)
    requires AllFramable(more) && more != []
    ensures Framable(more[0]) && AllFramable(more[1..])
  {
  }

  lemma FramesLength(h: Sha, more: seq<seq<byte>>)
    requires more != []
    ensures |Frames(h, more)| == |Frame(h, more[0])| + |Frames(h, more[1..])|
  {
  }

  /** A frame longer than the bound is written like any other but is never read back. */
  lemma FrontOfOversize(h: Sha, envelope: seq<byte>)
    requires !Framable(envelope) && |envelope| < 0x1_0000_0000
    ensures FrontOf(h, Frame(h, envelope)) == Bad(ImplausibleLength)
  {
    var data := Frame(h, envelope);
    Ranges();
    FromBeOfBe(|envelope|, 4);
    assert data[..4] == Be(|envelope|, 4) && data[..HEADER] == FrameHeader(h, |envelope|);
  }

  /** Any frames followed by an incomplete one split into exactly those frames, and the rest is the torn tail. */
  lemma SplitRecovers(h: Sha, envelopes: seq<seq<byte>>, next: seq<byte>, n: nat)
    requires AllFramable(envelopes) && Framable(next) && n < |Frame(h, next)|
    ensures SplitLog(h, Frames(h, envelopes) + Frame(h, next)[..n]) ==
            Ok(Split(envelopes, |Frames(h, envelopes)|, n))
  {
    FrontOfTorn(h, next, n);
    SplitAfterFrames(h, [], 0, envelopes, Frame(h, next)[..n]);
    assert [] + envelopes == envelopes;
  }

  lemma FramesAppend(h: Sha, envelopes: seq<seq<byte>>, next: seq<byte>)
    ensures Frames(h, envelopes + [next]) == Frames(h, envelopes) + Frame(h, next)
  {
    if envelopes == [] {
      assert [] + [next] == [next] && Frames(h, [next]) == Frame(h, next) + Frames(h, []);
    } else {
      FramesAppend(h, envelopes[1..], next);
      assert (envelopes + [next])[1..] == envelopes[1..] + [next];
    }
  }

  /** `data` is these frames followed by an incomplete one of `torn` bytes. */
  predicate Composed(h: Sha, data: seq<byte>, frames: seq<seq<byte>>, torn: nat) {
    && AllFramable(frames) && torn <= |data|
    && FrontOf(h, data[|data| - torn..]) == Torn
    && data == Frames(h, frames) + data[|data| - torn..]
  }

  lemma ComposedCons(h: Sha, data: seq<byte>, envelope: seq<byte>, frames: seq<seq<byte>>, torn: nat)
    requires Framable(envelope) && HEADER + |envelope| <= |data|
    requires data == Frame(h, envelope) + data[HEADER + |envelope|..]
    requires Composed(h, data[HEADER + |envelope|..], frames, torn)
    ensures Composed(h, data, [envelope] + frames, torn)
  {
    var rest := data[HEADER + |envelope|..];
    var all := [envelope] + frames;
    assert rest[|rest| - torn..] == data[|data| - torn..];
    assert all[1..] == frames;
    assert AllFramable(all);
    FramesCons(h, all, data[|data| - torn..]);
  }

  /** `s` continues `done` with the frames that `data` is composed of. */
  predicate Continues(h: Sha, done: seq<seq<byte>>, covered: nat, data: seq<byte>, s: Split) {
    && done <= s.frames && Composed(h, data, s.frames[|done|..], s.torn)
    && s.covered == covered + |data| - s.torn
  }

  lemma ContinuesTorn(h: Sha, done: seq<seq<byte>>, covered: nat, data: seq<byte>)
    requires FrontOf(h, data) == Torn
    ensures Continues(h, done, covered, data, Split(done, covered, |data|))
  {
    assert done[|done|..] == [] && data[0..] == data && Frames(h, []) + data == data;
  }

  lemma ContinuesWhole(h: Sha, done: seq<seq<byte>>, covered: nat, data: seq<byte>, envelope: seq<byte>, s: Split)
    requires Framable(envelope) && HEADER + |envelope| <= |data|
    requires data == Frame(h, envelope) + data[HEADER + |envelope|..]
    requires Continues(h, done + [envelope], covered + HEADER + |envelope|, data[HEADER + |envelope|..], s)
    ensures Continues(h, done, covered, data, s)
  {
    ComposedCons(h, data, envelope, s.frames[|done| + 1..], s.torn);
    assert s.frames[|done|] == (done + [envelope])[|done|] == envelope;
    assert s.frames[|done|..] == [envelope] + s.frames[|done| + 1..];
  }

  /** What splitting accepts: the log is the frames it found followed by an incomplete one. */
  lemma {:induction false} SplitAfterSound(h: Sha, done: seq<seq<byte>>, covered: nat, data: seq<byte>)
    requires SplitAfter(h, done, covered, data).Ok?
    ensures Continues(h, done, covered, data, SplitAfter(h, done, covered, data).value)
    decreases |data|
  {
    var front := FrontOf(h, data);
    if front.Torn? {
      ContinuesTorn(h, done, covered, data);
    } else {
      var n := HEADER + |front.envelope|;
      SplitAfterSound(h, done + [front.envelope], covered + n, data[n..]);
      WholeFront(h, data);
      ContinuesWhole(h, done, covered, data, front.envelope, SplitAfter(h, done, covered, data).value);
    }
  }

  /** Conservation: covered and torn bytes are the whole log; trimming the torn tail off leaves the same frames. */
  lemma SplitConserves(h: Sha, data: seq<byte>)
    requires SplitLog(h, data).Ok?
    ensures var s := SplitLog(h, data).value;
            && s.covered + s.torn == |data|
            && AllFramable(s.frames)
            && data[..s.covered] == Frames(h, s.frames)
            && data == Frames(h, s.frames) + data[s.covered..]
            && SplitLog(h, data[..s.covered]) == Ok(Split(s.frames, s.covered, 0))
  {
    SplitAfterSound(h, [], 0, data);
    var s := SplitLog(h, data).value;
    assert s.frames[0..] == s.frames;
    assert data[..s.covered] == Frames(h, s.frames);
    SplitAfterFrames(h, [], 0, s.frames, []);
    assert Frames(h, s.frames) + [] == Frames(h, s.frames) && [] + s.frames == s.frames;
  }
}
