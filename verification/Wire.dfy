/** Frame framing: `[len:u32][req_id:u32][kind:u8][payload]`, and the incremental parser. */
module Wire {
  import opened Bytes

  const MAX_FRAME_PAYLOAD: nat := 16 * 1024 * 1024

  datatype Frame = Frame(reqId: nat, kind: Byte, payload: seq<Byte>)

  /** What fits the two u32 header fields; the source throws a range error otherwise. */
  predicate Encodable(f: Frame) {
    f.reqId < 0x1_0000_0000 && 5 + |f.payload| < 0x1_0000_0000
  }

  predicate WithinCap(f: Frame) {
    Encodable(f) && |f.payload| <= MAX_FRAME_PAYLOAD
  }

  predicate AllWithinCap(fs: seq<Frame>) {
    forall i :: 0 <= i < |fs| ==> WithinCap(fs[i])
  }

  function EncodeFrame(f: Frame): (bs: seq<Byte>)
    requires Encodable(f)
    ensures |bs| == 9 + |f.payload|
  {
    BigEndian(5 + |f.payload|, 4) + BigEndian(f.reqId, 4) + [f.kind] + f.payload
  }

  /** Where the parts of a frame lie: length, request id, kind, payload. */
  lemma FrameLayout(f: Frame)
    requires Encodable(f)
    ensures var bs := EncodeFrame(f);
      && IsNumber(bs[0..4], 5 + |f.payload|) && IsNumber(bs[4..8], f.reqId) && bs[8] == f.kind && bs[9..] == f.payload
  {
    var bs := EncodeFrame(f);
    BigEndianIs(5 + |f.payload|, 4);
    BigEndianIs(f.reqId, 4);
    assert bs[0..4] == BigEndian(5 + |f.payload|, 4) && bs[4..8] == BigEndian(f.reqId, 4);
  }

  function EncodeAll(fs: seq<Frame>): seq<Byte>
    requires forall i :: 0 <= i < |fs| ==> Encodable(fs[i])
  {
    if fs == [] then [] else EncodeFrame(fs[0]) + EncodeAll(fs[1..])
  }

  datatype FramingError = TooSmall(len: nat) | TooLarge(len: nat)

  datatype Parse = NeedMore | Bad(error: FramingError) | Got(frame: Frame, rest: seq<Byte>)

  function ParseNext(buf: seq<Byte>): Parse {
    if |buf| < 4 then NeedMore else
    var len := FromBigEndian(buf[..4]);
    if len < 5 then Bad(TooSmall(len))
    else if len > MAX_FRAME_PAYLOAD + 5 then Bad(TooLarge(len))
    else if |buf| < 4 + len then NeedMore
    else Got(Frame(FromBigEndian(buf[4..8]), buf[8], buf[9..4 + len]), buf[4 + len..])
  }

  /** The next frame is decided by the length at the front: no frame before it and its bytes are
      there, none for a length outside the limits, else the parts at their places. */
  lemma ParseIs(buf: seq<Byte>, len: nat)
    ensures |buf| < 4 ==> ParseNext(buf) == NeedMore
    ensures |buf| >= 4 && IsNumber(buf[..4], len) && len < 0x1_0000_0000 ==>
      if len < 5 then ParseNext(buf) == Bad(TooSmall(len))
      else if len > 16777221 then ParseNext(buf) == Bad(TooLarge(len))
      else if |buf| < 4 + len then ParseNext(buf) == NeedMore
      else ParseNext(buf).Got? && var f := ParseNext(buf).frame;
        && f.reqId < 0x1_0000_0000 && IsNumber(buf[4..8], f.reqId) && f.kind == buf[8]
        && f.payload == buf[9..4 + len] && ParseNext(buf).rest == buf[4 + len..]
  {
    if |buf| >= 4 && IsNumber(buf[..4], len) && len < 0x1_0000_0000 {
      Spans();
      NumberIs(buf[..4], len);
      if |buf| >= 8 {
        WritesBack(buf[4..8]);
        BigEndianIs(FromBigEndian(buf[4..8]), 4);
      }
    }
  }

  /** All complete frames at the front of `buf`, the framing error met, and the bytes left. */
  datatype Drained = Drained(frames: seq<Frame>, error: Error, rest: seq<Byte>)
  datatype Error = NoError | Framing(error: FramingError)

  function Drain(buf: seq<Byte>): Drained
    decreases |buf|
  {
    match ParseNext(buf)
    case NeedMore => Drained([], NoError, buf)
    case Bad(e) => Drained([], Framing(e), buf)
    case Got(f, rest) => var d := Drain(rest); Drained([f] + d.frames, d.error, d.rest)
  }

  /** A parse outcome does not depend on the bytes that follow. */
  lemma ParseExtends(a: seq<Byte>, b: seq<Byte>)
    ensures ParseNext(a).Bad? ==> ParseNext(a + b) == ParseNext(a)
    ensures ParseNext(a).Got? ==> ParseNext(a + b) == Got(ParseNext(a).frame, ParseNext(a).rest + b)
  {
    if |a| >= 4 {
      var len := FromBigEndian(a[..4]);
      assert (a + b)[..4] == a[..4];
      if 5 <= len && 4 + len <= |a| {
        assert (a + b)[4..8] == a[4..8] && (a + b)[9..4 + len] == a[9..4 + len];
        assert (a + b)[4 + len..] == a[4 + len..] + b;
      }
    }
  }

  /** What two drains in a row yield. */
  function Append(d: Drained, e: Drained): Drained { Drained(d.frames + e.frames, e.error, e.rest) }

  lemma DrainFrame(buf: seq<Byte>, f: Frame, rest: seq<Byte>)
    requires ParseNext(buf) == Got(f, rest)
    ensures Drain(buf) == Append(Drained([f], NoError, rest), Drain(rest))
  {
  }

  lemma AppendAssociates(a: Drained, b: Drained, c: Drained)
    ensures Append(a, Append(b, c)) == Append(Append(a, b), c)
  {
  }

  /** Draining early, then draining what is left with the next bytes, is draining once; a framing
      error found early is the error of the whole. */
  lemma {:induction false} DrainSplits(a: seq<Byte>, b: seq<Byte>)
    ensures var d := Drain(a);
      Drain(a + b) == if d.error.NoError? then Append(d, Drain(d.rest + b)) else d.(rest := d.rest + b)
    decreases |a|
  {
    ParseExtends(a, b);
    match ParseNext(a)
    case Got(f, rest) =>
      DrainFrame(a, f, rest);
      DrainFrame(a + b, f, rest + b);
      DrainSplits(rest, b);
      var d := Drain(rest);
      AppendAssociates(Drained([f], NoError, rest), d, Drain(d.rest + b));
    case NeedMore => assert Append(Drain(a), Drain(a + b)) == Drain(a + b);
    case Bad(_) =>
  }

  ghost predicate ExactDrain(buf: seq<Byte>, d: Drained) {
    && AllWithinCap(d.frames)
    && buf == EncodeAll(d.frames) + d.rest
    && (if d.error.NoError? then ParseNext(d.rest).NeedMore? else ParseNext(d.rest) == Bad(d.error.error))
  }

  /** What is drained, re-encoded, is what was received; and what is left holds no frame. */
  lemma {:induction false} DrainIsExact(buf: seq<Byte>)
    ensures ExactDrain(buf, Drain(buf))
    decreases |buf|
  {
    match ParseNext(buf)
    case Got(f, rest) =>
      GotIsEncoded(buf);
      DrainIsExact(rest);
      EncodeCons(f, Drain(rest));
    case _ =>
  }

  lemma EncodeCons(f: Frame, d: Drained)
    requires WithinCap(f) && AllWithinCap(d.frames)
    ensures EncodeAll([f] + d.frames) + d.rest == EncodeFrame(f) + (EncodeAll(d.frames) + d.rest)
  {
    assert ([f] + d.frames)[1..] == d.frames;
  }

  lemma GotIsEncoded(buf: seq<Byte>)
    requires ParseNext(buf).Got?
    ensures var p := ParseNext(buf); WithinCap(p.frame) && buf == EncodeFrame(p.frame) + p.rest
  {
    var len := FromBigEndian(buf[..4]);
    WritesBack(buf[..4]);
    WritesBack(buf[4..8]);
    Spans();
    assert buf == buf[..4] + buf[4..8] + [buf[8]] + buf[9..4 + len] + buf[4 + len..];
  }

  /** A frame is read back exactly when it is within the size cap; a larger one is refused. */
  lemma FrameRoundTrip(f: Frame, tail: seq<Byte>)
    requires Encodable(f)
    ensures ParseNext(EncodeFrame(f) + tail) ==
      if WithinCap(f) then Got(f, tail) else Bad(TooLarge(5 + |f.payload|))
  {
    var buf := EncodeFrame(f) + tail;
    Spans();
    ReadsBack(5 + |f.payload|, 4);
    ReadsBack(f.reqId, 4);
    assert buf[..4] == BigEndian(5 + |f.payload|, 4) && buf[4..8] == BigEndian(f.reqId, 4);
    assert buf[9..9 + |f.payload|] == f.payload && buf[9 + |f.payload|..] == tail;
  }

  /** Concatenated frames parse back to exactly those frames, with no bytes left. */
  lemma {:induction false} StreamRoundTrip(fs: seq<Frame>)
    requires AllWithinCap(fs)
    ensures Drain(EncodeAll(fs)) == Drained(fs, NoError, [])
  {
    if fs == [] {
    } else {
      FrameRoundTrip(fs[0], EncodeAll(fs[1..]));
      StreamRoundTrip(fs[1..]);
    }
  }

  /** A frame is delivered by its last byte, not before. */
  lemma PartialFrameWaits(f: Frame, k: nat)
    requires WithinCap(f) && k < |EncodeFrame(f)|
    ensures ParseNext(EncodeFrame(f)[..k]) == NeedMore
  {
    if k >= 4 {
      Spans();
      ReadsBack(5 + |f.payload|, 4);
      assert EncodeFrame(f)[..k][..4] == BigEndian(5 + |f.payload|, 4);
    }
  }

  function Concat(chunks: seq<seq<Byte>>): seq<Byte> {
    if chunks == [] then [] else Concat(chunks[..|chunks| - 1]) + chunks[|chunks| - 1]
  }

  class FrameParser {
    var buf: seq<Byte>

    constructor ()
      ensures buf == []
    {
      buf := [];
    }

    method Push(chunk: seq<Byte>)
      modifies this
      ensures buf == old(buf) + chunk
    {
      buf := if |buf| == 0 then chunk else buf + chunk;
    }

    /** The next complete frame, if any; only a frame moves the buffer. */
    method Next() returns (p: Parse)
      modifies this
      ensures p == ParseNext(old(buf))
      ensures buf == if p.Got? then p.rest else old(buf)
    {
      if |buf| < 4 { return NeedMore; }
      var len := FromBigEndian(buf[..4]);
      if len < 5 { return Bad(TooSmall(len)); }
      if len > MAX_FRAME_PAYLOAD + 5 { return Bad(TooLarge(len)); }
      if |buf| < 4 + len { return NeedMore; }
      var reqId, kind := FromBigEndian(buf[4..8]), buf[8];
      var payload := buf[9..4 + len];
      buf := buf[4 + len..];
      return Got(Frame(reqId, kind, payload), buf);
    }

    /** Pull frames until one is incomplete or malformed. */
    method DrainReady() returns (frames: seq<Frame>, error: Error)
      modifies this
      ensures Drained(frames, error, buf) == Drain(old(buf))
    {
      frames := [];
      ghost var whole := Drain(buf);
      var p := Next();
      while p.Got?
        invariant whole == match p
          case Got(f, rest) => Append(Drained(frames + [f], NoError, rest), Drain(rest))
          case NeedMore => Drained(frames, NoError, buf)
          case Bad(e) => Drained(frames, Framing(e), buf)
        invariant p.Got? ==> buf == p.rest
        decreases |buf|, if p.Got? then 1 else 0
      {
        frames := frames + [p.frame];
        ghost var before := buf;
        p := Next();
        if p.Got? {
          DrainFrame(before, p.frame, p.rest);
          AppendAssociates(Drained(frames, NoError, before), Drained([p.frame], NoError, p.rest), Drain(p.rest));
        }
      }
      error := if p.Bad? then Framing(p.error) else NoError;
    }
  }

  /** Chunk independence: however the bytes are split, draining after each chunk yields the
      frames and the first framing error of the whole. */
  method ReceiveChunks(chunks: seq<seq<Byte>>) returns (frames: seq<Frame>, error: Error)
    ensures frames == Drain(Concat(chunks)).frames && error == Drain(Concat(chunks)).error
  {
    var parser := new FrameParser();
    frames, error := [], NoError;
    for i := 0 to |chunks|
      invariant error.NoError? ==> Drain(Concat(chunks[..i])) == Drained(frames, NoError, parser.buf)
      invariant frames == Drain(Concat(chunks[..i])).frames && error == Drain(Concat(chunks[..i])).error
    {
      assert chunks[..i + 1][..i] == chunks[..i];
      DrainSplits(Concat(chunks[..i]), chunks[i]);
      if error.NoError? {
        parser.Push(chunks[i]);
        var more;
        more, error := parser.DrainReady();
        frames := frames + more;
      }
    }
    assert chunks[..|chunks|] == chunks;
  }
}
