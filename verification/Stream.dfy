/** What a subscription delivers, as a value: the items received in order and how the stream
    ended. `Subscription` is the object that hands them to callers. */
module Stream {
  import opened Prelude
  import opened Bytes
  import opened Wire

  const RESP_DONE: Byte := 0x82
  const RESP_ERROR: Byte := 0x83
  const RESP_SUBSCRIBED: Byte := 0x86
  const RESP_EVENT: Byte := 0x87
  const RESP_SUB_LAGGED: Byte := 0x88

  /** A change as the payload decoder returns it; `content` stands for all but the origin. */
  datatype Change = Change(origin: Option<nat>, content: seq<Byte>)
  datatype Notification = Changed(change: Change) | Lagged
  datatype SubError = Io | BadFraming(error: FramingError) | Server(payload: seq<Byte>) | Unexpected(kind: Byte)
    | Decode(payload: seq<Byte>) | Closed
  datatype Item = Note(note: Notification) | Malformed(error: SubError)

  /** The payload decoder (no result for a malformed event) and the origin to drop. */
  datatype Filter = Filter(decode: seq<Byte> -> Option<Change>, excludeOrigin: Option<nat>)

  /** A stream ends cleanly on an acknowledged unsubscribe, on a close by its owner, or when it was
      never subscribed. */
  datatype Reason = Acknowledged | ByOwner | NotSubscribed
  datatype End = Live | Clean(reason: Reason) | Fatal(error: SubError)
  datatype Ack = Accepted | Refused(error: SubError)

  /** `asks` counts the calls of `unsubscribe` while the stream was live. */
  datatype State = State(log: seq<Item>, end: End, ack: Option<Ack>, asks: nat, buf: seq<Byte>)

  const Opened: State := State([], Live, None, 0, [])

  /** The item an event or lag frame adds, if it is kept. */
  function ItemOf(filter: Filter, f: Frame): Option<Item> {
    if f.kind == RESP_SUB_LAGGED then Some(Note(Lagged)) else
    match filter.decode(f.payload)
    case None => Some(Malformed(Decode(f.payload)))
    case Some(change) =>
      if filter.excludeOrigin.Some? && change.origin == filter.excludeOrigin then None else Some(Note(Changed(change)))
  }

  predicate Terminal(f: Frame) { f.kind != RESP_EVENT && f.kind != RESP_SUB_LAGGED }

  /** How a terminal frame ends the stream. */
  function EndOf(f: Frame, asked: bool): End {
    if f.kind == RESP_DONE && asked then Clean(Acknowledged)
    else if f.kind == RESP_ERROR then Fatal(Server(f.payload))
    else Fatal(Unexpected(f.kind))
  }

  function Fail(s: State, error: SubError): State {
    if s.end != Live then s else
    s.(end := Fatal(error), ack := if s.ack.None? then Some(Refused(error)) else s.ack)
  }

  function Close(s: State): State {
    if s.end != Live then s else
    s.(end := Clean(ByOwner), ack := if s.ack.None? then Some(Refused(Closed)) else s.ack)
  }

  function RefusalOf(f: Frame): SubError {
    if f.kind == RESP_ERROR then Server(f.payload) else Unexpected(f.kind)
  }

  /** One frame. The first answers the subscribe request; none counts after the end. */
  function Receive(filter: Filter, s: State, f: Frame): State {
    if s.end != Live then s
    else if s.ack.None? then
      if f.kind == RESP_SUBSCRIBED then s.(ack := Some(Accepted))
      else s.(ack := Some(Refused(RefusalOf(f))), end := Clean(NotSubscribed))
    else if Terminal(f) then s.(end := EndOf(f, s.asks > 0))
    else match ItemOf(filter, f)
      case Some(item) => s.(log := s.log + [item])
      case None => s
  }

  function ReceiveAll(filter: Filter, s: State, fs: seq<Frame>): State
    decreases |fs|
  {
    if fs == [] then s else ReceiveAll(filter, Receive(filter, s, fs[0]), fs[1..])
  }

  /** Settle a drained buffer: its frames, then its framing error. */
  function Absorb(filter: Filter, s: State, d: Drained): State {
    var t := ReceiveAll(filter, s, d.frames);
    if d.error.NoError? then t.(buf := d.rest) else Fail(t, BadFraming(d.error.error)).(buf := d.rest)
  }

  function OnData(filter: Filter, s: State, chunk: seq<Byte>): State {
    Absorb(filter, s, Drain(s.buf + chunk))
  }

  /** What the `k`-th call of `next` gets: item `k`; past the items the terminal error, once; then done. */
  datatype Outcome = Waiting | Value(note: Notification) | Rejected(error: SubError) | Done

  function Answer(log: seq<Item>, end: End, k: nat): Outcome {
    if k < |log| then (match log[k] case Note(n) => Value(n) case Malformed(e) => Rejected(e))
    else match end
      case Live => Waiting
      case Clean(_) => Done
      case Fatal(e) => if k == |log| then Rejected(e) else Done
  }

  function OutcomeOf(s: State, k: nat): Outcome { Answer(s.log, s.end, k) }

  /** The promise of a call of `unsubscribe`. */
  datatype Promise = Unsettled | Resolved | Failed(error: SubError)

  /** What the end of a stream does to the promise it holds. */
  function Settlement(end: End): Promise {
    match end
    case Live => Unsettled
    case Fatal(e) => Failed(e)
    case Clean(Acknowledged) => Resolved
    case Clean(ByOwner) => Failed(Closed)
    case Clean(NotSubscribed) => Unsettled
  }

  /** The `k`-th promise, `asks` of them made while the stream was live. Only the last of those is
      held; a later one resolves at once. */
  function PromiseOf(end: End, asks: nat, k: nat): Promise {
    if k >= asks then Resolved else if k == asks - 1 then Settlement(end) else Unsettled
  }

  // ---- Over whole runs ----

  datatype Event = Data(chunk: seq<Byte>) | SocketFailed | CloseCall | UnsubscribeCall

  function Step(filter: Filter, s: State, e: Event): State {
    match e
    case Data(chunk) => OnData(filter, s, chunk)
    case SocketFailed => Fail(s, Io)
    case CloseCall => Close(s)
    case UnsubscribeCall => if s.end == Live then s.(asks := s.asks + 1) else s
  }

  function Run(filter: Filter, s: State, es: seq<Event>): State
    decreases |es|
  {
    if es == [] then s else Run(filter, Step(filter, s, es[0]), es[1..])
  }

  /** `t` continues `s`: no item is taken back, an end is final. */
  ghost predicate Continues(s: State, t: State) {
    && s.log <= t.log
    && (s.end != Live ==> t.log == s.log && t.end == s.end && t.asks == s.asks)
    && (s.ack.Some? ==> t.ack == s.ack)
  }

  lemma {:induction false} ReceiveAllContinues(filter: Filter, s: State, fs: seq<Frame>)
    ensures var t := ReceiveAll(filter, s, fs); Continues(s, t) && t.buf == s.buf && t.asks == s.asks
    decreases |fs|
  {
    if fs == [] {
    } else {
      ReceiveAllContinues(filter, Receive(filter, s, fs[0]), fs[1..]);
    }
  }

  lemma {:induction false} RunContinues(filter: Filter, s: State, es: seq<Event>)
    ensures Continues(s, Run(filter, s, es))
    decreases |es|
  {
    if es == [] {
    } else {
      if es[0].Data? {
        ReceiveAllContinues(filter, s, Drain(s.buf + es[0].chunk).frames);
      }
      RunContinues(filter, Step(filter, s, es[0]), es[1..]);
    }
  }

  /** A settled call keeps its outcome, and after the end no call is left waiting. */
  lemma OutcomesFinal(filter: Filter, s: State, es: seq<Event>, k: nat)
    ensures OutcomeOf(s, k) != Waiting ==> OutcomeOf(Run(filter, s, es), k) == OutcomeOf(s, k)
    ensures s.end != Live ==> OutcomeOf(Run(filter, s, es), k) != Waiting
  {
    RunContinues(filter, s, es);
  }

  // ---- What is delivered ----

  /** The kept items of a list of frames. */
  function Kept(filter: Filter, fs: seq<Frame>): seq<Item> {
    if fs == [] then [] else
    (match ItemOf(filter, fs[0]) case Some(item) => [item] case None => []) + Kept(filter, fs[1..])
  }

  /** Settling twice: frames add up; after a framing error nothing counts. */
  lemma AbsorbTwice(filter: Filter, s: State, d: Drained, e: Drained)
    requires d.error.NoError?
    ensures Absorb(filter, Absorb(filter, s, d), e) == Absorb(filter, s, Drained(d.frames + e.frames, e.error, e.rest))
  {
    ReceiveAllAppend(filter, s, d.frames, e.frames);
    ReceiveAllIgnoresBuf(filter, ReceiveAll(filter, s, d.frames), e.frames, d.rest);
  }

  lemma AbsorbAfterError(filter: Filter, s: State, d: Drained, rest: seq<Byte>)
    requires !d.error.NoError?
    ensures Absorb(filter, Absorb(filter, s, d), Drained([], d.error, rest)) ==
      Absorb(filter, s, Drained(d.frames, d.error, rest))
  {
  }

  /** Two chunks are one: the split of the byte stream never shows. */
  lemma DataSplits(filter: Filter, s: State, a: seq<Byte>, b: seq<Byte>)
    ensures OnData(filter, OnData(filter, s, a), b) == OnData(filter, s, a + b)
  {
    assert s.buf + (a + b) == s.buf + a + b;
    DrainSplits(s.buf + a, b);
    var d := Drain(s.buf + a);
    if d.error.NoError? {
      AbsorbTwice(filter, s, d, Drain(d.rest + b));
    } else {
      StuckOnError(s.buf + a, b);
      AbsorbAfterError(filter, s, d, d.rest + b);
    }
  }

  lemma StuckOnError(a: seq<Byte>, b: seq<Byte>)
    requires !Drain(a).error.NoError?
    ensures var d := Drain(a); Drain(d.rest + b) == Drained([], d.error, d.rest + b)
  {
    DrainIsExact(a);
    ParseExtends(Drain(a).rest, b);
  }

  lemma {:induction false} ReceiveAllAppend(filter: Filter, s: State, fs: seq<Frame>, gs: seq<Frame>)
    ensures ReceiveAll(filter, s, fs + gs) == ReceiveAll(filter, ReceiveAll(filter, s, fs), gs)
    decreases |fs|
  {
    if fs == [] {
      assert fs + gs == gs;
    } else {
      assert (fs + gs)[1..] == fs[1..] + gs;
      ReceiveAllAppend(filter, Receive(filter, s, fs[0]), fs[1..], gs);
    }
  }

  lemma {:induction false} ReceiveAllIgnoresBuf(filter: Filter, s: State, fs: seq<Frame>, buf: seq<Byte>)
    ensures ReceiveAll(filter, s.(buf := buf), fs) == ReceiveAll(filter, s, fs).(buf := buf)
    decreases |fs|
  {
    if fs == [] {
    } else {
      assert Receive(filter, s.(buf := buf), fs[0]) == Receive(filter, s, fs[0]).(buf := buf);
      ReceiveAllIgnoresBuf(filter, Receive(filter, s, fs[0]), fs[1..], buf);
    }
  }

  function DataEvents(chunks: seq<seq<Byte>>): seq<Event> {
    if chunks == [] then [] else DataEvents(chunks[..|chunks| - 1]) + [Data(chunks[|chunks| - 1])]
  }

  lemma {:induction false} RunLast(filter: Filter, s: State, es: seq<Event>, e: Event)
    ensures Run(filter, s, es + [e]) == Step(filter, Run(filter, s, es), e)
    decreases |es|
  {
    if es == [] {
    } else {
      assert (es + [e])[1..] == es[1..] + [e];
      RunLast(filter, Step(filter, s, es[0]), es[1..], e);
    }
  }

  /** However the socket splits its bytes, the stream ends up as if they had come at once. */
  lemma {:induction false} ChunkingNeverShows(filter: Filter, s: State, chunks: seq<seq<Byte>>)
    requires chunks != []
    ensures Run(filter, s, DataEvents(chunks)) == OnData(filter, s, Concat(chunks))
  {
    var n := |chunks| - 1;
    RunLast(filter, s, DataEvents(chunks[..n]), Data(chunks[n]));
    if n == 0 {
      assert Concat(chunks) == chunks[0] && DataEvents(chunks[..n]) == [];
    } else {
      ChunkingNeverShows(filter, s, chunks[..n]);
      DataSplits(filter, s, Concat(chunks[..n]), chunks[n]);
    }
  }

  // ---- A whole run, explained ----

  /** The bytes of the data events. */
  function BytesOf(es: seq<Event>): seq<Byte> {
    if es == [] then [] else BytesOf(es[..|es| - 1]) + if es[|es| - 1].Data? then es[|es| - 1].chunk else []
  }

  /** A socket failure or a close ends the stream whatever was received. */
  predicate Stops(e: Event) { e.SocketFailed? || e.CloseCall? }

  function FirstStop(es: seq<Event>): (m: nat)
    ensures m <= |es|
  {
    if es == [] || Stops(es[0]) then 0 else 1 + FirstStop(es[1..])
  }

  lemma {:induction false} FirstStopIs(es: seq<Event>)
    ensures var m := FirstStop(es); (m < |es| ==> Stops(es[m])) && forall i :: 0 <= i < m ==> !Stops(es[i])
  {
    if es == [] || Stops(es[0]) {
    } else {
      FirstStopIs(es[1..]);
      assert forall i :: 1 <= i < |es| ==> es[i] == es[1..][i - 1];
    }
  }

  /** How many frames had arrived when `unsubscribe` was first called. */
  function AskedAfter(es: seq<Event>): Option<nat> {
    if es == [] then None else
    var n := |es| - 1;
    var before := AskedAfter(es[..n]);
    if before.Some? || !es[n].UnsubscribeCall? then before else Some(|Drain(BytesOf(es[..n])).frames|)
  }

  /** The first terminal frame after the acknowledgement, or the number of frames. */
  function FirstTerminal(fs: seq<Frame>): (t: nat)
    ensures t <= |fs| && (t < |fs| ==> t > 0)
  {
    if |fs| <= 1 then |fs| else
    var n := |fs| - 1;
    var t := FirstTerminal(fs[..n]);
    if t < n || Terminal(fs[n]) then t else n + 1
  }

  lemma {:induction false} FirstTerminalIs(fs: seq<Frame>)
    ensures var t := FirstTerminal(fs);
      (t < |fs| ==> Terminal(fs[t])) && forall i :: 1 <= i < t ==> !Terminal(fs[i])
  {
    if |fs| <= 1 {
    } else {
      FirstTerminalIs(fs[..|fs| - 1]);
    }
  }

  predicate Subscribed(fs: seq<Frame>) { fs != [] && fs[0].kind == RESP_SUBSCRIBED }

  /** What the frames deliver: the kept items between the acknowledgement and the first terminal frame. */
  function LogOf(filter: Filter, fs: seq<Frame>): seq<Item> {
    if Subscribed(fs) && FirstTerminal(fs) >= 1 then Kept(filter, fs[1..FirstTerminal(fs)]) else []
  }

  /** How the stream ends: by the first terminal frame, else as `otherwise` says. */
  function EndFor(fs: seq<Frame>, asked: Option<nat>, otherwise: End): End {
    if fs == [] then otherwise
    else if !Subscribed(fs) then Clean(NotSubscribed)
    else var t := FirstTerminal(fs);
      if t < |fs| then EndOf(fs[t], asked.Some? && asked.value <= t) else otherwise
  }

  /** How the open settles: by the first frame, else by the end. */
  function AckFor(fs: seq<Frame>, otherwise: End): Option<Ack> {
    if fs != [] then
      Some(if Subscribed(fs) then Accepted else Refused(RefusalOf(fs[0])))
    else match otherwise
      case Live => None
      case Clean(_) => Some(Refused(Closed))
      case Fatal(e) => Some(Refused(e))
  }

  /** What is delivered, how the stream ends and how the open settles, from the frames received. */
  ghost predicate Delivered(filter: Filter, fs: seq<Frame>, asked: Option<nat>, otherwise: End, s: State) {
    s.log == LogOf(filter, fs) && s.end == EndFor(fs, asked, otherwise) && s.ack == AckFor(fs, otherwise)
  }

  ghost predicate Explained(filter: Filter, fs: seq<Frame>, asked: Option<nat>, otherwise: End, s: State) {
    && Delivered(filter, fs, asked, otherwise, s)
    && (s.end == Live ==> (s.asks > 0 <==> asked.Some?))
  }

  lemma {:induction false} KeptLast(filter: Filter, fs: seq<Frame>, f: Frame)
    ensures Kept(filter, fs + [f]) ==
      Kept(filter, fs) + match ItemOf(filter, f) case Some(item) => [item] case None => []
    decreases |fs|
  {
    if fs == [] {
      assert [f][1..] == [];
    } else {
      assert (fs + [f])[1..] == fs[1..] + [f];
      KeptLast(filter, fs[1..], f);
    }
  }

  lemma FirstTerminalLast(fs: seq<Frame>, f: Frame)
    requires fs != []
    ensures FirstTerminal(fs + [f]) == if FirstTerminal(fs) < |fs| || Terminal(f) then FirstTerminal(fs) else |fs| + 1
  {
    assert (fs + [f])[..|fs|] == fs;
  }

  /** While nothing has ended the stream, a frame adds its item or ends it. */
  lemma LiveFrame(filter: Filter, fs: seq<Frame>, asked: Option<nat>, f: Frame, s: State)
    requires Explained(filter, fs, asked, Live, s) && (asked.Some? ==> asked.value <= |fs|)
    requires Subscribed(fs) && FirstTerminal(fs) == |fs|
    ensures Explained(filter, fs + [f], asked, Live, Receive(filter, s, f))
  {
    var all := fs + [f];
    assert all[|fs|] == f && all[0] == fs[0];
    FirstTerminalLast(fs, f);
    ItemsLast(filter, fs, f);
  }

  lemma ItemsLast(filter: Filter, fs: seq<Frame>, f: Frame)
    requires fs != []
    ensures (fs + [f])[1..|fs|] == fs[1..|fs|]
    ensures Kept(filter, (fs + [f])[1..|fs| + 1]) ==
      Kept(filter, fs[1..|fs|]) + match ItemOf(filter, f) case Some(item) => [item] case None => []
  {
    assert (fs + [f])[1..|fs| + 1] == fs[1..|fs|] + [f];
    KeptLast(filter, fs[1..|fs|], f);
  }

  /** Once a frame has ended it, no further frame changes what the frames say. */
  lemma LateFrame(filter: Filter, fs: seq<Frame>, asked: Option<nat>, f: Frame)
    requires fs != [] && (Subscribed(fs) ==> FirstTerminal(fs) < |fs|)
    ensures LogOf(filter, fs + [f]) == LogOf(filter, fs)
    ensures EndFor(fs + [f], asked, Live) == EndFor(fs, asked, Live) != Live
    ensures AckFor(fs + [f], Live) == AckFor(fs, Live)
  {
    var all := fs + [f];
    assert all[0] == fs[0];
    if Subscribed(fs) {
      FirstTerminalLast(fs, f);
      SamePrefix(fs, f, FirstTerminal(fs));
    }
  }

  lemma SamePrefix(fs: seq<Frame>, f: Frame, t: nat)
    requires 1 <= t < |fs|
    ensures (fs + [f])[1..t] == fs[1..t] && (fs + [f])[t] == fs[t]
  {
  }

  lemma OneFrame(filter: Filter, fs: seq<Frame>, asked: Option<nat>, f: Frame, s: State)
    requires Explained(filter, fs, asked, Live, s) && (asked.Some? ==> asked.value <= |fs|)
    ensures Explained(filter, fs + [f], asked, Live, Receive(filter, s, f))
  {
    if fs == [] {
      assert fs + [f] == [f] && [f][1..1] == [];
    } else if Subscribed(fs) && FirstTerminal(fs) == |fs| {
      LiveFrame(filter, fs, asked, f, s);
    } else {
      LateFrame(filter, fs, asked, f);
    }
  }

  lemma {:induction false} MoreFrames(filter: Filter, fs: seq<Frame>, asked: Option<nat>, gs: seq<Frame>, s: State)
    requires Explained(filter, fs, asked, Live, s) && (asked.Some? ==> asked.value <= |fs|)
    ensures Explained(filter, fs + gs, asked, Live, ReceiveAll(filter, s, gs))
    decreases |gs|
  {
    if gs == [] {
      assert fs + gs == fs;
    } else {
      OneFrame(filter, fs, asked, gs[0], s);
      MoreFrames(filter, fs + [gs[0]], asked, gs[1..], Receive(filter, s, gs[0]));
      assert fs + [gs[0]] + gs[1..] == fs + gs;
    }
  }

  function ErrorEnd(error: Wire.Error): End { if error.NoError? then Live else Fatal(BadFraming(error.error)) }

  lemma AbsorbExplained(filter: Filter, fs: seq<Frame>, asked: Option<nat>, d: Drained, s: State)
    requires Explained(filter, fs, asked, Live, s) && (asked.Some? ==> asked.value <= |fs|)
    ensures Explained(filter, fs + d.frames, asked, ErrorEnd(d.error), Absorb(filter, s, d))
  {
    MoreFrames(filter, fs, asked, d.frames, s);
    if !d.error.NoError? {
      FailExplained(filter, fs + d.frames, asked, ReceiveAll(filter, s, d.frames), BadFraming(d.error.error));
    }
  }

  lemma FailExplained(filter: Filter, fs: seq<Frame>, asked: Option<nat>, s: State, error: SubError)
    requires Explained(filter, fs, asked, Live, s)
    ensures Explained(filter, fs, asked, Fatal(error), Fail(s, error))
  {
  }

  /** `unsubscribe` is asked for after the frames that have arrived. */
  lemma {:induction false} AskedBound(es: seq<Event>)
    ensures AskedAfter(es).Some? ==> AskedAfter(es).value <= |Drain(BytesOf(es)).frames|
  {
    if es == [] {
    } else {
      var n := |es| - 1;
      AskedBound(es[..n]);
      if es[n].Data? {
        DrainSplits(BytesOf(es[..n]), es[n].chunk);
      } else {
        assert BytesOf(es[..n]) + [] == BytesOf(es[..n]);
      }
    }
  }

  /** Data and unsubscribe calls, in any mix. */
  lemma {:induction false} PrefixExplained(filter: Filter, es: seq<Event>)
    requires forall i :: 0 <= i < |es| ==> !Stops(es[i])
    ensures var s, d := Run(filter, Opened, es), Drain(BytesOf(es));
      Explained(filter, d.frames, AskedAfter(es), ErrorEnd(d.error), s) && s.buf == d.rest
  {
    if es == [] {
    } else {
      var n := |es| - 1;
      var pre, e := es[..n], es[n];
      assert es == pre + [e];
      PrefixExplained(filter, pre);
      RunLast(filter, Opened, pre, e);
      AskedBound(pre);
      if e.Data? {
        DataExplained(filter, Run(filter, Opened, pre), BytesOf(pre), AskedAfter(pre), e.chunk);
      } else {
        assert BytesOf(pre) + [] == BytesOf(pre);
      }
    }
  }

  lemma DataExplained(filter: Filter, s: State, received: seq<Byte>, asked: Option<nat>, chunk: seq<Byte>)
    requires var d := Drain(received);
      Explained(filter, d.frames, asked, ErrorEnd(d.error), s) && s.buf == d.rest && (asked.Some? ==>
        asked.value <= |d.frames|)
    ensures var s', d' := OnData(filter, s, chunk), Drain(received + chunk);
      Explained(filter, d'.frames, asked, ErrorEnd(d'.error), s') && s'.buf == d'.rest
  {
    var d := Drain(received);
    DrainSplits(received, chunk);
    if d.error.NoError? {
      AbsorbExplained(filter, d.frames, asked, Drain(d.rest + chunk), s);
    } else {
      StuckOnError(received, chunk);
    }
  }

  function StopEnd(error: Wire.Error, e: Event): End {
    if !error.NoError? then ErrorEnd(error) else if e.SocketFailed? then Fatal(Io) else Clean(ByOwner)
  }

  /** What ends the stream when no frame does: a framing error, else the first failure or close. */
  function Otherwise(es: seq<Event>): End {
    var m := FirstStop(es);
    var error := Drain(BytesOf(es[..m])).error;
    if m == |es| then ErrorEnd(error) else StopEnd(error, es[m])
  }

  lemma {:induction false} RunAppend(filter: Filter, s: State, a: seq<Event>, b: seq<Event>)
    ensures Run(filter, s, a + b) == Run(filter, Run(filter, s, a), b)
    decreases |a|
  {
    if a == [] {
      assert a + b == b;
    } else {
      assert (a + b)[1..] == a[1..] + b;
      RunAppend(filter, Step(filter, s, a[0]), a[1..], b);
    }
  }

  /** The whole run. For every sequence of events from the open, what is delivered are the kept
      items between the acknowledgement and the first terminal frame of the bytes received before
      the first failure or close; and the stream ends by that frame, else by a framing error, else
      by that failure or close. */
  lemma RunExplained(filter: Filter, es: seq<Event>)
    ensures var pre := es[..FirstStop(es)];
      Delivered(filter, Drain(BytesOf(pre)).frames, AskedAfter(pre), Otherwise(es), Run(filter, Opened, es))
  {
    var m := FirstStop(es);
    var pre := es[..m];
    assert forall i :: 0 <= i < |pre| ==> !Stops(pre[i]) by { FirstStopIs(es); }
    PrefixExplained(filter, pre);
    if m == |es| {
      assert pre == es;
    } else {
      assert Stops(es[m]) by { FirstStopIs(es); }
      StoppedAt(filter, es, m);
    }
  }

  lemma StoppedAt(filter: Filter, es: seq<Event>, m: nat)
    requires m < |es| && Stops(es[m])
    requires var d := Drain(BytesOf(es[..m]));
      Explained(filter, d.frames, AskedAfter(es[..m]), ErrorEnd(d.error), Run(filter, Opened, es[..m]))
    ensures var d := Drain(BytesOf(es[..m]));
      Delivered(filter, d.frames, AskedAfter(es[..m]), StopEnd(d.error, es[m]), Run(filter, Opened, es))
  {
    assert es == es[..m] + [es[m]] + es[m + 1..];
    StoppedExplained(filter, es[..m], es[m], es[m + 1..]);
  }

  lemma StoppedExplained(filter: Filter, pre: seq<Event>, e: Event, more: seq<Event>)
    requires Stops(e)
    requires var d := Drain(BytesOf(pre)); Explained(filter, d.frames, AskedAfter(pre), ErrorEnd(d.error),
      Run(filter, Opened, pre))
    ensures var d, r := Drain(BytesOf(pre)), Run(filter, Opened, pre + [e] + more);
      Delivered(filter, d.frames, AskedAfter(pre), StopEnd(d.error, e), r)
  {
    var d, s := Drain(BytesOf(pre)), Run(filter, Opened, pre);
    StopExplained(filter, d.frames, AskedAfter(pre), d.error, s, e);
    StopIsFinal(filter, s, pre, e, more);
  }

  lemma StopExplained(filter: Filter, fs: seq<Frame>, asked: Option<nat>, error: Wire.Error, s: State, e: Event)
    requires Explained(filter, fs, asked, ErrorEnd(error), s) && Stops(e)
    ensures Explained(filter, fs, asked, StopEnd(error, e), Step(filter, s, e)) && Step(filter, s, e).end != Live
  {
  }

  lemma StopIsFinal(filter: Filter, s: State, pre: seq<Event>, e: Event, more: seq<Event>)
    requires s == Run(filter, Opened, pre) && Step(filter, s, e).end != Live
    requires Step(filter, s, e).ack.Some?
    ensures var r, t := Run(filter, Opened, pre + [e] + more), Step(filter, s, e);
      r.log == t.log && r.end == t.end && r.ack == t.ack
  {
    RunAppend(filter, Opened, pre + [e], more);
    RunLast(filter, Opened, pre, e);
    RunContinues(filter, Step(filter, s, e), more);
  }

  // ---- Which notifications are delivered ----

  /** The item a lag (0x88) or event (0x87) frame delivers: a lag as such, an event that does not
      decode as an error, and a change unless it has the excluded origin. */
  ghost predicate Delivers(filter: Filter, f: Frame, item: Item) {
    match item
    case Note(Lagged) => f.kind == 0x88
    case Malformed(e) => f.kind == 0x87 && filter.decode(f.payload).None? && e == Decode(f.payload)
    case Note(Changed(change)) =>
      && f.kind == 0x87 && filter.decode(f.payload) == Some(change)
      && (filter.excludeOrigin.None? || change.origin != filter.excludeOrigin)
  }

  /** An event with the excluded origin. */
  ghost predicate Excluded(filter: Filter, f: Frame) {
    && f.kind == 0x87 && filter.decode(f.payload).Some? && filter.excludeOrigin.Some?
    && filter.decode(f.payload).value.origin == filter.excludeOrigin
  }

  /** The items are what the frames at these positions deliver, in order, and every frame left out
      has the excluded origin. */
  ghost predicate Selected(filter: Filter, fs: seq<Frame>, at: seq<nat>, log: seq<Item>) {
    && Ascending(at) && |at| == |log|
    && (forall j :: 0 <= j < |at| ==> at[j] < |fs| && Delivers(filter, fs[at[j]], log[j]))
    && (forall i: nat :: i < |fs| && i !in at ==> Excluded(filter, fs[i]))
  }

  lemma {:induction false} KeptSelected(filter: Filter, fs: seq<Frame>) returns (at: seq<nat>)
    requires forall i :: 0 <= i < |fs| ==> fs[i].kind == 0x87 || fs[i].kind == 0x88
    ensures Selected(filter, fs, at, Kept(filter, fs))
  {
    if fs == [] {
      at := [];
    } else {
      var n := |fs| - 1;
      var init, f := fs[..n], fs[n];
      assert fs == init + [f];
      at := KeptSelected(filter, init);
      KeptLast(filter, init, f);
      if ItemOf(filter, f).Some? {
        SelectedMore(filter, init, at, Kept(filter, init), f, ItemOf(filter, f).value);
        at := at + [n];
      } else {
        SelectedLess(filter, init, at, Kept(filter, init), f);
        assert Kept(filter, fs) == Kept(filter, init);
      }
    }
  }

  lemma SelectedMore(filter: Filter, fs: seq<Frame>, at: seq<nat>, log: seq<Item>, f: Frame, item: Item)
    requires Selected(filter, fs, at, log) && Delivers(filter, f, item)
    ensures Selected(filter, fs + [f], at + [|fs|], log + [item])
  {
    var at' := at + [|fs|];
    assert |fs| in at' && forall i :: i in at ==> i in at';
  }

  lemma SelectedLess(filter: Filter, fs: seq<Frame>, at: seq<nat>, log: seq<Item>, f: Frame)
    requires Selected(filter, fs, at, log) && Excluded(filter, f)
    ensures Selected(filter, fs + [f], at, log)
  {
  }

  /** The frames between the acknowledgement and frame `t`, which is the first after it that is
      neither an event nor a lag. */
  ghost predicate Notified(filter: Filter, fs: seq<Frame>, t: nat, at: seq<nat>, log: seq<Item>) {
    if fs == [] || fs[0].kind != 0x86 then log == []
    else
      && 1 <= t <= |fs| && (forall i :: 1 <= i < t ==> fs[i].kind == 0x87 || fs[i].kind == 0x88)
      && (t < |fs| ==> fs[t].kind != 0x87 && fs[t].kind != 0x88)
      && Selected(filter, fs[1..t], at, log)
  }

  lemma LogNotified(filter: Filter, fs: seq<Frame>) returns (t: nat, at: seq<nat>)
    ensures Notified(filter, fs, t, at, LogOf(filter, fs))
  {
    t, at := FirstTerminal(fs), [];
    if Subscribed(fs) {
      FirstTerminalIs(fs);
      assert forall i :: 0 <= i < t - 1 ==> fs[1..t][i] == fs[i + 1];
      at := KeptSelected(filter, fs[1..t]);
    }
  }

  /** Over every run: exactly the lags, the events that do not decode and the changes of other
      origins are delivered, in arrival order. */
  lemma RunNotifies(filter: Filter, es: seq<Event>) returns (t: nat, at: seq<nat>)
    ensures Notified(filter, Drain(BytesOf(es[..FirstStop(es)])).frames, t, at, Run(filter, Opened, es).log)
  {
    RunExplained(filter, es);
    t, at := LogNotified(filter, Drain(BytesOf(es[..FirstStop(es)])).frames);
  }

  // ---- Unsubscribing ----

  /** The end of a run, from its events. */
  function EndAfter(es: seq<Event>): End {
    var pre := es[..FirstStop(es)];
    EndFor(Drain(BytesOf(pre)).frames, AskedAfter(pre), Otherwise(es))
  }

  /** The calls of `unsubscribe`, and those of them the stream was live for. */
  function Asks(es: seq<Event>): nat {
    if es == [] then 0 else Asks(es[..|es| - 1]) + if es[|es| - 1].UnsubscribeCall? then 1 else 0
  }

  function LiveAsks(es: seq<Event>): (n: nat)
    ensures n <= Asks(es)
  {
    if es == [] then 0 else
    var n := |es| - 1;
    LiveAsks(es[..n]) + if es[n].UnsubscribeCall? && EndAfter(es[..n]) == Live then 1 else 0
  }

  lemma {:induction false} RunAsks(filter: Filter, es: seq<Event>)
    ensures Run(filter, Opened, es).asks == LiveAsks(es)
  {
    if es == [] {
    } else {
      var n := |es| - 1;
      var s := Run(filter, Opened, es[..n]);
      assert es == es[..n] + [es[n]];
      RunLast(filter, Opened, es[..n], es[n]);
      RunAsks(filter, es[..n]);
      if es[n].Data? {
        ReceiveAllContinues(filter, s, Drain(s.buf + es[n].chunk).frames);
      } else {
        RunExplained(filter, es[..n]);
      }
    }
  }

  /** Once a stream has ended, every promise of `unsubscribe` is settled if and only if at most one
      call was made while it was live, and that one not before a refused subscribe. */
  lemma AsksSettledIff(es: seq<Event>)
    requires EndAfter(es) != Live
    ensures (forall k: nat :: k < Asks(es) ==> PromiseOf(EndAfter(es), LiveAsks(es), k) != Unsettled) <==>
      LiveAsks(es) == 0 || (LiveAsks(es) == 1 && EndAfter(es) != Clean(NotSubscribed))
  {
    var end, n := EndAfter(es), LiveAsks(es);
    if n > 1 {
      assert PromiseOf(end, n, 0) == Unsettled;
    } else if n == 1 {
      assert PromiseOf(end, n, 0) == Settlement(end);
    }
  }

  /** A settled promise keeps its outcome for ever. */
  lemma PromisesFinal(filter: Filter, s: State, es: seq<Event>, made: nat, k: nat)
    requires k < made && s.asks <= made && (s.end == Live ==> s.asks == made)
    ensures var t := Run(filter, s, es);
      PromiseOf(s.end, s.asks, k) != Unsettled ==> PromiseOf(t.end, t.asks, k) == PromiseOf(s.end, s.asks, k)
  {
    RunContinues(filter, s, es);
  }

  /** One frame, arriving whole on an empty buffer. */
  lemma WholeFrame(filter: Filter, s: State, f: Frame)
    requires WithinCap(f) && s.buf == []
    ensures Step(filter, s, Data(EncodeFrame(f))) == Receive(filter, s, f)
  {
    assert EncodeAll([f]) == EncodeFrame(f) + [] == [] + EncodeFrame(f);
    StreamRoundTrip([f]);
    assert Drain(s.buf + EncodeFrame(f)).frames == [f];
    assert ReceiveAll(filter, s, [f]) == Receive(filter, s, f);
  }

  /** Subscribed, unsubscribed twice, acknowledged. */
  function TwoAsks(): seq<Event> {
    [Data(EncodeFrame(Frame(1, RESP_SUBSCRIBED, []))), UnsubscribeCall, UnsubscribeCall,
     Data(EncodeFrame(Frame(1, RESP_DONE, [])))]
  }

  /** A second `unsubscribe` on a live stream takes the place of the first, whose promise the
      acknowledgement then never settles. */
  lemma OverlappingAsks()
    ensures EndAfter(TwoAsks()) == Clean(Acknowledged) && LiveAsks(TwoAsks()) == Asks(TwoAsks()) == 2
    ensures PromiseOf(EndAfter(TwoAsks()), 2, 0) == Unsettled && PromiseOf(EndAfter(TwoAsks()), 2, 1) == Resolved
  {
    var filter := Filter((_: seq<Byte>) => None, None);
    RunTwoAsks(filter);
    assert EndAfter(TwoAsks()) == Clean(Acknowledged) by { RunExplained(filter, TwoAsks()); }
    assert LiveAsks(TwoAsks()) == 2 by { RunAsks(filter, TwoAsks()); }
    AskedTwice(TwoAsks());
  }

  lemma RunTwoAsks(filter: Filter)
    ensures Run(filter, Opened, TwoAsks()) == State([], Clean(Acknowledged), Some(Accepted), 2, [])
  {
    var ack, done := Frame(1, RESP_SUBSCRIBED, []), Frame(1, RESP_DONE, []);
    RunFour(filter, Opened, Data(EncodeFrame(ack)), UnsubscribeCall, UnsubscribeCall, Data(EncodeFrame(done)));
    WholeFrame(filter, Opened, ack);
    WholeFrame(filter, Opened.(ack := Some(Accepted), asks := 2), done);
  }

  lemma RunFour(filter: Filter, s: State, a: Event, b: Event, c: Event, d: Event)
    ensures Run(filter, s, [a, b, c, d]) ==
      Step(filter, Step(filter, Step(filter, Step(filter, s, a), b), c), d)
  {
    RunLast(filter, s, [], a);
    RunLast(filter, s, [a], b);
    RunLast(filter, s, [a, b], c);
    RunLast(filter, s, [a, b, c], d);
    assert [] + [a] == [a] && [a] + [b] == [a, b] && [a, b] + [c] == [a, b, c] && [a, b, c] + [d] == [a, b, c, d];
  }

  lemma AskedTwice(es: seq<Event>)
    requires |es| == 4 && es[0].Data? && es[1].UnsubscribeCall? && es[2].UnsubscribeCall? && es[3].Data?
    ensures Asks(es) == 2
  {
    var a, b, c := es[..3], es[..2], es[..1];
    assert a[..2] == b && b[..1] == c && c[..0] == [];
    assert Asks(c) == 0 && Asks(b) == 1 && Asks(a) == 2;
  }
}
