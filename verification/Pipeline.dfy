/** Pipelined requests on one connection: replies carry no checkable id, so the k-th frame must
    settle the k-th request. */
module Pipeline {
  import opened Bytes
  import opened Wire

  datatype PipeError = Io | BadFraming(error: FramingError) | Unsolicited | ConnectionClosed | FrameRange
  datatype Outcome = Waiting | Resolved(frame: Frame) | Rejected(error: PipeError)

  /** Request promises in issue order, the waiting queue, and what was asked, sent and received. */
  datatype Pipe = Pipe(outcomes: seq<Outcome>, pending: seq<nat>, dead: bool, nextReqId: nat, buf: seq<Byte>,
                       asked: seq<Call>, sent: seq<Frame>, got: seq<Frame>)

  /** A request as its caller gave it. */
  datatype Call = Call(kind: Byte, payload: seq<Byte>)

  const Connected: Pipe := Pipe([], [], false, 1, [], [], [], [])

  /** A promise settles once. */
  function Settle(outcomes: seq<Outcome>, k: nat, o: Outcome): (r: seq<Outcome>)
    ensures |r| == |outcomes|
  {
    if k < |outcomes| && outcomes[k].Waiting? then outcomes[k := o] else outcomes
  }

  function RejectAll(outcomes: seq<Outcome>, ks: seq<nat>, e: PipeError): (r: seq<Outcome>)
    ensures |r| == |outcomes|
  {
    if ks == [] then outcomes else Settle(RejectAll(outcomes, ks[..|ks| - 1], e), ks[|ks| - 1], Rejected(e))
  }

  function Fail(p: Pipe, e: PipeError): Pipe {
    if p.dead then p else p.(dead := true, pending := [], outcomes := RejectAll(p.outcomes, p.pending, e))
  }

  /** The first waiting request is answered. */
  function Answered(p: Pipe, f: Frame, rest: seq<Byte>): Pipe
    requires p.pending != []
  {
    p.(buf := rest, pending := p.pending[1..], got := p.got + [f],
       outcomes := Settle(p.outcomes, p.pending[0], Resolved(f)))
  }

  /** Handle the complete frames of the buffer; a frame nobody waits for fails the connection. */
  function Consume(p: Pipe): Pipe
    decreases |p.buf|
  {
    match ParseNext(p.buf)
    case NeedMore => p
    case Bad(e) => Fail(p, BadFraming(e))
    case Got(f, rest) =>
      if p.pending == [] then Fail(p.(buf := rest), Unsolicited)
      else Consume(Answered(p, f, rest))
  }

  /** The frame is built after the request has joined the queue; one that does not fit its length
      field rejects the promise and leaves its place in the queue. */
  function Request(p: Pipe, kind: Byte, payload: seq<Byte>): Pipe {
    var asked := p.asked + [Call(kind, payload)];
    if p.dead then p.(outcomes := p.outcomes + [Rejected(ConnectionClosed)], asked := asked) else
    var f := Frame(p.nextReqId, kind, payload);
    var q := p.(pending := p.pending + [|p.outcomes|], nextReqId := (p.nextReqId + 1) % 0x1_0000_0000, asked := asked);
    if Encodable(f) then q.(outcomes := q.outcomes + [Waiting], sent := q.sent + [f])
    else q.(outcomes := q.outcomes + [Rejected(FrameRange)])
  }

  datatype Event = Data(chunk: seq<Byte>) | SocketFailed | CloseCall | RequestCall(kind: Byte, payload: seq<Byte>)

  function Step(p: Pipe, e: Event): Pipe {
    match e
    case Data(chunk) => Consume(p.(buf := p.buf + chunk))
    case SocketFailed => Fail(p, Io)
    case CloseCall => Fail(p, ConnectionClosed)
    case RequestCall(kind, payload) => Request(p, kind, payload)
  }

  function Run(p: Pipe, es: seq<Event>): Pipe
    decreases |es|
  {
    if es == [] then p else Run(Step(p, es[0]), es[1..])
  }

  /** A request fits a frame. */
  predicate Sendable(e: Event) {
    e.RequestCall? ==> 5 + |e.payload| < 0x1_0000_0000
  }

  /** Frame `k` has settled request `k`; the requests after the last frame wait, in order, while
      the connection lives, and are rejected once it is dead. */
  ghost predicate Fifo(outcomes: seq<Outcome>, pending: seq<nat>, dead: bool, got: seq<Frame>) {
    && |got| <= |outcomes|
    && (forall k :: 0 <= k < |got| ==> outcomes[k] == Resolved(got[k]))
    && (forall k :: |got| <= k < |outcomes| ==> if dead then outcomes[k].Rejected? else outcomes[k] == Waiting)
    && |pending| == (if dead then 0 else |outcomes| - |got|)
    && (forall i :: 0 <= i < |pending| ==> pending[i] == |got| + i)
  }

  /** The k-th frame sent is the k-th request, under the id counted from 1 in 32 bits. */
  ghost predicate SentInOrder(p: Pipe) {
    && |p.got| <= |p.sent| <= |p.outcomes| == |p.asked| && (!p.dead ==> |p.sent| == |p.outcomes|)
    && (!p.dead ==> p.nextReqId == (|p.sent| + 1) % 0x1_0000_0000)
    && forall k :: 0 <= k < |p.sent| ==>
      p.sent[k] == Frame((k + 1) % 0x1_0000_0000, p.asked[k].kind, p.asked[k].payload)
  }

  ghost predicate Inv(p: Pipe) { Fifo(p.outcomes, p.pending, p.dead, p.got) && SentInOrder(p) }

  /** Rejecting the queue settles exactly the requests in it. */
  lemma {:induction false} RejectedAll(outcomes: seq<Outcome>, ks: seq<nat>, e: PipeError, from: nat)
    requires from + |ks| <= |outcomes| && forall i :: 0 <= i < |ks| ==> ks[i] == from + i
    requires forall k :: from <= k < |outcomes| ==> outcomes[k] == Waiting
    ensures var r := RejectAll(outcomes, ks, e);
      forall k :: 0 <= k < |outcomes| ==> r[k] == if from <= k < from + |ks| then Rejected(e) else outcomes[k]
  {
    if ks == [] {
    } else {
      RejectedAll(outcomes, ks[..|ks| - 1], e, from);
    }
  }

  lemma FailKeeps(p: Pipe, e: PipeError)
    requires Inv(p)
    ensures Inv(Fail(p, e))
  {
    if !p.dead {
      RejectedAll(p.outcomes, p.pending, e, |p.got|);
      var r := RejectAll(p.outcomes, p.pending, e);
      assert |p.pending| == |p.outcomes| - |p.got|;
      assert forall k :: 0 <= k < |p.got| ==> r[k] == p.outcomes[k];
      forall k | |p.got| <= k < |r| ensures r[k] == Rejected(e) {
        assert p.outcomes[k] == Waiting;
      }
    }
  }

  lemma {:induction false} ConsumeKeeps(p: Pipe)
    requires Inv(p)
    ensures Inv(Consume(p))
    decreases |p.buf|
  {
    match ParseNext(p.buf)
    case NeedMore =>
    case Bad(e) => FailKeeps(p, BadFraming(e));
    case Got(f, rest) =>
      if p.pending == [] {
        FailKeeps(p.(buf := rest), Unsolicited);
      } else {
        var q := Answered(p, f, rest);
        assert Inv(q);
        ConsumeKeeps(q);
      }
  }

  /** The precondition of a request: on a live connection its frame fits. Under it, and only under
      it, a request keeps the order. */
  lemma RequestKeepsIff(p: Pipe, kind: Byte, payload: seq<Byte>)
    requires Inv(p)
    ensures Inv(Request(p, kind, payload)) <==> p.dead || 5 + |payload| < 0x1_0000_0000
  {
    var q := Request(p, kind, payload);
    if p.dead {
      assert Fifo(q.outcomes, q.pending, q.dead, q.got) && SentInOrder(q);
    } else if 5 + |payload| >= 0x1_0000_0000 {
      assert q.outcomes[|p.outcomes|] == Rejected(FrameRange);
    } else {
      SendKeeps(p, kind, payload, q);
    }
  }

  /** A request that fits joins the queue and the frames sent. */
  lemma SendKeeps(p: Pipe, kind: Byte, payload: seq<Byte>, q: Pipe)
    requires Inv(p) && !p.dead && 5 + |payload| < 0x1_0000_0000 && q == Request(p, kind, payload)
    ensures Inv(q)
  {
    var f := Frame(p.nextReqId, kind, payload);
    assert Encodable(f) && q.sent == p.sent + [f] && q.outcomes == p.outcomes + [Waiting];
    WrapsOnce(|p.sent|);
    AddedKeeps(p.outcomes, p.pending, p.got);
  }

  lemma WrapsOnce(n: nat)
    ensures ((n + 1) % 0x1_0000_0000 + 1) % 0x1_0000_0000 == (n + 2) % 0x1_0000_0000
  {
  }

  lemma AddedKeeps(outcomes: seq<Outcome>, pending: seq<nat>, got: seq<Frame>)
    requires Fifo(outcomes, pending, false, got)
    ensures Fifo(outcomes + [Waiting], pending + [|outcomes|], false, got)
  {
  }

  /** A socket failure and a close reject everything waiting, each with its own error, and leave
      what is settled. */
  lemma FailureRejects(p: Pipe, k: nat)
    requires Inv(p) && k < |p.outcomes|
    ensures Step(p, SocketFailed).dead && Step(p, CloseCall).dead
    ensures Step(p, SocketFailed).outcomes[k] == if p.outcomes[k] == Waiting then Rejected(Io) else p.outcomes[k]
    ensures Step(p, CloseCall).outcomes[k] ==
      if p.outcomes[k] == Waiting then Rejected(ConnectionClosed) else p.outcomes[k]
  {
    if !p.dead {
      RejectedAll(p.outcomes, p.pending, Io, |p.got|);
      RejectedAll(p.outcomes, p.pending, ConnectionClosed, |p.got|);
    }
  }

  /** Over every run of requests that fit. */
  lemma {:induction false} RunKeeps(p: Pipe, es: seq<Event>)
    requires Inv(p) && forall i :: 0 <= i < |es| ==> Sendable(es[i])
    ensures Inv(Run(p, es))
    decreases |es|
  {
    if es == [] {
    } else {
      match es[0] {
        case Data(chunk) => ConsumeKeeps(p.(buf := p.buf + chunk));
        case SocketFailed => FailKeeps(p, Io);
        case CloseCall => FailKeeps(p, ConnectionClosed);
        case RequestCall(kind, payload) => RequestKeepsIff(p, kind, payload);
      }
      RunKeeps(Step(p, es[0]), es[1..]);
    }
  }

  // ---- The callers meet the precondition ----

  /** The longest UTF-8 form of a JavaScript string: at most 2^29 - 24 code units, 3 bytes each. */
  const MAX_TEXT: nat := 3 * 0x1FFF_FFE8

  /** What the public methods send. */
  datatype ClientCall = Ping | Query(text: seq<Byte>) | Prepare(text: seq<Byte>) | Execute(stmt: nat)
    | Ingest(batch: seq<Byte>)

  function EventOf(call: ClientCall): Event {
    match call
    case Ping => RequestCall(0x02, [])
    case Query(text) => RequestCall(0x01, BigEndian(|text|, 4) + text)
    case Prepare(text) => RequestCall(0x04, BigEndian(|text|, 4) + text)
    case Execute(stmt) => RequestCall(0x05, BigEndian(stmt, 8))
    case Ingest(batch) => RequestCall(0x03, batch)
  }

  /** A larger batch is refused before any request; a longer text is no string. */
  predicate Reaches(call: ClientCall) {
    match call
    case Query(text) => |text| <= MAX_TEXT
    case Prepare(text) => |text| <= MAX_TEXT
    case Ingest(batch) => |batch| <= MAX_FRAME_PAYLOAD
    case _ => true
  }

  /** So replies are in order over every run of the public methods. */
  lemma PublicRunKeeps(p: Pipe, es: seq<Event>)
    requires Inv(p)
    requires forall i :: 0 <= i < |es| && es[i].RequestCall? ==> exists call :: Reaches(call) && es[i] == EventOf(call)
    ensures Inv(Run(p, es))
  {
    forall i | 0 <= i < |es| ensures Sendable(es[i]) {
      if es[i].RequestCall? {
        var call :| Reaches(call) && es[i] == EventOf(call);
      }
    }
    RunKeeps(p, es);
  }

  /** Settled stays settled, dead stays dead, and the dead connection queues and sends nothing. */
  ghost predicate Continues(p: Pipe, q: Pipe) {
    && |p.outcomes| <= |q.outcomes|
    && (forall k :: 0 <= k < |p.outcomes| && !p.outcomes[k].Waiting? ==> q.outcomes[k] == p.outcomes[k])
    && (p.dead ==> q.dead && q.sent == p.sent && q.got == p.got)
    && (p.dead ==> forall k :: |p.outcomes| <= k < |q.outcomes| ==> q.outcomes[k] == Rejected(ConnectionClosed))
  }

  lemma {:induction false} RejectAllContinues(outcomes: seq<Outcome>, ks: seq<nat>, e: PipeError)
    ensures forall k :: 0 <= k < |outcomes| && !outcomes[k].Waiting? ==> RejectAll(outcomes, ks, e)[k] == outcomes[k]
  {
    if ks == [] {
    } else {
      RejectAllContinues(outcomes, ks[..|ks| - 1], e);
    }
  }

  lemma {:induction false} ConsumeContinues(p: Pipe)
    requires p.dead ==> p.pending == []
    ensures Continues(p, Consume(p)) && (Consume(p).dead ==> Consume(p).pending == [])
    ensures |Consume(p).outcomes| == |p.outcomes|
    decreases |p.buf|
  {
    RejectAllContinues(p.outcomes, p.pending, Unsolicited);
    match ParseNext(p.buf)
    case Bad(e) => RejectAllContinues(p.outcomes, p.pending, BadFraming(e));
    case Got(f, rest) =>
      if p.pending != [] {
        ConsumeContinues(Answered(p, f, rest));
      }
    case _ =>
  }

  lemma StepContinues(p: Pipe, e: Event)
    requires p.dead ==> p.pending == []
    ensures Continues(p, Step(p, e)) && (Step(p, e).dead ==> Step(p, e).pending == [])
    ensures p.dead && !e.RequestCall? ==> |Step(p, e).outcomes| == |p.outcomes|
  {
    match e
    case Data(chunk) => ConsumeContinues(p.(buf := p.buf + chunk));
    case SocketFailed => RejectAllContinues(p.outcomes, p.pending, Io);
    case CloseCall => RejectAllContinues(p.outcomes, p.pending, ConnectionClosed);
    case RequestCall(_, _) =>
  }

  /** Each request settles at most once over every run, sendable or not, and once dead every later
      request is rejected. */
  lemma {:induction false} RunContinues(p: Pipe, es: seq<Event>)
    requires p.dead ==> p.pending == []
    ensures Continues(p, Run(p, es)) && (Run(p, es).dead ==> Run(p, es).pending == [])
    decreases |es|
  {
    if es == [] {
    } else {
      StepContinues(p, es[0]);
      RunContinues(Step(p, es[0]), es[1..]);
    }
  }

  // ---- Conservation ----

  function Count(outcomes: seq<Outcome>, which: Outcome -> bool): nat {
    if outcomes == [] then 0 else
    Count(outcomes[..|outcomes| - 1], which) + if which(outcomes[|outcomes| - 1]) then 1 else 0
  }

  const IsResolved: Outcome -> bool := (o: Outcome) => o.Resolved?
  const IsRejected: Outcome -> bool := (o: Outcome) => o.Rejected?

  lemma {:induction false} CountUniform(outcomes: seq<Outcome>, which: Outcome -> bool, m: nat)
    requires m <= |outcomes| && forall k :: 0 <= k < |outcomes| ==> which(outcomes[k]) == (k < m)
    ensures Count(outcomes, which) == m
  {
    if outcomes == [] {
    } else {
      var n := |outcomes| - 1;
      CountUniform(outcomes[..n], which, if m <= n then m else n);
    }
  }

  lemma {:induction false} CountFrom(outcomes: seq<Outcome>, which: Outcome -> bool, m: nat)
    requires m <= |outcomes| && forall k :: 0 <= k < |outcomes| ==> which(outcomes[k]) == (m <= k)
    ensures Count(outcomes, which) == |outcomes| - m
  {
    if m < |outcomes| {
      CountFrom(outcomes[..|outcomes| - 1], which, m);
    } else {
      CountUniform(outcomes, which, 0);
    }
  }

  /** Issued = resolved + rejected + pending, and resolved is the number of frames handled. */
  lemma Conserved(p: Pipe)
    requires Inv(p)
    ensures Count(p.outcomes, IsResolved) == |p.got|
    ensures |p.outcomes| == Count(p.outcomes, IsResolved) + Count(p.outcomes, IsRejected) + |p.pending|
  {
    CountUniform(p.outcomes, IsResolved, |p.got|);
    if p.dead {
      CountFrom(p.outcomes, IsRejected, |p.got|);
    } else {
      CountUniform(p.outcomes, IsRejected, 0);
    }
  }

  class AsyncClient {
    var pending: seq<nat>
    var dead: bool
    var nextReqId: nat
    var buf: seq<Byte>
    /** The promises given out, in issue order. */
    var outcomes: seq<Outcome>
    ghost var asked: seq<Call>
    ghost var sent: seq<Frame>
    ghost var got: seq<Frame>

    ghost function Abs(): Pipe
      reads this
    {
      Pipe(outcomes, pending, dead, nextReqId, buf, asked, sent, got)
    }

    constructor ()
      ensures Abs() == Connected
    {
      pending, dead, nextReqId, buf, outcomes := [], false, 1, [], [];
      asked, sent, got := [], [], [];
    }

    /** Latch dead and reject everything waiting. */
    method FailWith(e: PipeError)
      modifies this
      ensures Abs() == Fail(old(Abs()), e)
    {
      if dead { return; }
      dead := true;
      var waiting := pending;
      pending := [];
      for i := 0 to |waiting|
        invariant outcomes == RejectAll(old(outcomes), waiting[..i], e)
        invariant Abs() == old(Abs()).(dead := true, pending := [], outcomes := outcomes)
      {
        assert waiting[..i + 1][..i] == waiting[..i];
        outcomes := Settle(outcomes, waiting[i], Rejected(e));
      }
      assert waiting[..|waiting|] == waiting;
    }

    method OnData(chunk: seq<Byte>)
      modifies this
      ensures Abs() == Step(old(Abs()), Data(chunk))
    {
      buf := buf + chunk;
      var p := ParseNext(buf);
      while p.Got?
        invariant p == ParseNext(buf) && Consume(Abs()) == old(Step(Abs(), Data(chunk)))
        decreases |buf|
      {
        buf := p.rest;
        if pending == [] {
          FailWith(Unsolicited);
          return;
        }
        outcomes := Settle(outcomes, pending[0], Resolved(p.frame));
        pending, got := pending[1..], got + [p.frame];
        p := ParseNext(buf);
      }
      if p.Bad? {
        FailWith(BadFraming(p.error));
      }
    }

    method RoundTrip(kind: Byte, payload: seq<Byte>)
      modifies this
      ensures Abs() == Request(old(Abs()), kind, payload)
    {
      asked := asked + [Call(kind, payload)];
      if dead {
        outcomes := outcomes + [Rejected(ConnectionClosed)];
        return;
      }
      var reqId := nextReqId;
      nextReqId := (nextReqId + 1) % 0x1_0000_0000;
      pending := pending + [|outcomes|];
      if Encodable(Frame(reqId, kind, payload)) {
        outcomes := outcomes + [Waiting];
        sent := sent + [Frame(reqId, kind, payload)];
      } else {
        outcomes := outcomes + [Rejected(FrameRange)];
      }
    }
  }
}
