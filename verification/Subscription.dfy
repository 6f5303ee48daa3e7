/** The subscription object: an item queue, a queue of waiting `next` calls, and terminal flags,
    proved to hand out exactly what `Stream` says each call gets. */
module Subscription {
  import opened Prelude
  import opened Bytes
  import opened Wire
  import opened Stream

  /** The item queue and flags, when `answered` calls have been answered. */
  ghost predicate Delivery(log: seq<Item>, end: End, answered: nat, items: seq<Item>, ended: bool, terminated: bool,
                           fatal: Option<SubError>) {
    && |items| <= |log| && items == log[|log| - |items|..]
    && (answered <= |log| ==> |log| - |items| == answered)
    && (answered > |log| ==> items == [] && end != Live)
    && terminated == (end != Live)
    && fatal == (if end.Fatal? && answered <= |log| then Some(end.error) else None)
    && ended == (end.Clean? || (end.Fatal? && answered > |log|))
  }

  /** Calls are numbered in call order; those not answered wait in order. */
  ghost predicate Calls(log: seq<Item>, end: End, calls: nat, waiters: seq<nat>, settled: map<nat, Outcome>) {
    && |waiters| <= calls
    && (forall i :: 0 <= i < |waiters| ==> waiters[i] == calls - |waiters| + i)
    && (forall k: nat :: k in settled <==> k < calls - |waiters|)
    && (forall k: nat :: k in settled ==> settled[k] == Answer(log, end, k) && settled[k] != Waiting)
  }

  /** What is ready for the next call to be answered, from the queue and flags alone. */
  function Ready(items: seq<Item>, ended: bool, fatal: Option<SubError>): Outcome {
    if items != [] then (match items[0] case Note(n) => Value(n) case Malformed(e) => Rejected(e))
    else if fatal.Some? then Rejected(fatal.value)
    else if ended then Done
    else Waiting
  }

  lemma ReadyIsNext(log: seq<Item>, end: End, answered: nat, items: seq<Item>, ended: bool, terminated: bool,
                    fatal: Option<SubError>)
    requires Delivery(log, end, answered, items, ended, terminated, fatal)
    ensures Ready(items, ended, fatal) == Answer(log, end, answered)
  {
  }

  /** Answering one call takes the first item, else the error (which ends the stream), else nothing. */
  lemma AnswerKeeps(log: seq<Item>, end: End, answered: nat, items: seq<Item>, ended: bool, terminated: bool,
                    fatal: Option<SubError>)
    requires Delivery(log, end, answered, items, ended, terminated, fatal) && Ready(items, ended, fatal) != Waiting
    ensures if items != [] then Delivery(log, end, answered + 1, items[1..], ended, terminated, fatal)
      else Delivery(log, end, answered + 1, items, true, terminated, None)
  {
  }

  /** Ending a live stream leaves the queued items. */
  lemma DeliveryEnds(log: seq<Item>, answered: nat, items: seq<Item>, ended: bool, terminated: bool,
                     fatal: Option<SubError>, end: End)
    requires Delivery(log, Live, answered, items, ended, terminated, fatal) && end != Live
    ensures !ended && fatal.None?
    ensures Delivery(log, end, answered, items, end.Clean?, true, if end.Fatal? then Some(end.error) else None)
  {
  }

  lemma CallAnswered(log: seq<Item>, end: End, calls: nat, waiters: seq<nat>, settled: map<nat, Outcome>)
    requires Calls(log, end, calls, waiters, settled) && waiters != [] && Answer(log, end, waiters[0]) != Waiting
    ensures waiters[0] !in settled && waiters[0] == calls - |waiters|
    ensures Calls(log, end, calls, waiters[1..], settled[waiters[0] := Answer(log, end, waiters[0])])
  {
  }

  /** Every continuation of the stream keeps the answers given. */
  lemma ContinuedCalls(log: seq<Item>, end: End, log': seq<Item>, end': End, calls: nat, waiters: seq<nat>,
                       settled: map<nat, Outcome>)
    requires Calls(log, end, calls, waiters, settled) && log <= log' && (end != Live ==> log' == log && end' == end)
    ensures Calls(log', end', calls, waiters, settled)
  {
  }

  lemma CallAdded(log: seq<Item>, end: End, calls: nat, waiters: seq<nat>, settled: map<nat, Outcome>)
    requires Calls(log, end, calls, waiters, settled)
    ensures Calls(log, end, calls + 1, waiters + [calls], settled)
  {
  }

  /** Between events the calls answered are exactly those the stream has an answer for: no call
      waits for something it could have, and after the end none waits. */
  lemma EveryCallAnswered(sub: AsyncSubscription, k: nat)
    requires sub.Valid() && sub.Pumped() && k < sub.calls
    ensures k in sub.settled <==> OutcomeOf(sub.Abs(), k) != Waiting
    ensures k in sub.settled ==> sub.settled[k] == OutcomeOf(sub.Abs(), k)
    ensures sub.end != Live ==> k in sub.settled
  {
  }

  /** The promises of `unsubscribe`; a live stream holds the last of them. */
  ghost predicate Promises(end: End, asks: nat, promises: seq<Promise>, unsub: Option<nat>) {
    && asks <= |promises|
    && (forall k :: 0 <= k < |promises| ==> promises[k] == PromiseOf(end, asks, k))
    && (end == Live ==> |promises| == asks && unsub == if asks == 0 then None else Some(asks - 1))
  }

  /** Ending a live stream settles the promise it holds. */
  lemma PromisesSettled(asks: nat, promises: seq<Promise>, unsub: Option<nat>, end: End, unsub': Option<nat>)
    requires Promises(Live, asks, promises, unsub) && end != Live
    ensures unsub.Some? ==> unsub.value < |promises|
    ensures Promises(end, asks, if unsub.Some? then promises[unsub.value := Settlement(end)] else promises, unsub')
  {
  }

  /** A refused subscribe leaves it as it is. */
  lemma RefusedPromises(asks: nat, promises: seq<Promise>, unsub: Option<nat>)
    requires Promises(Live, asks, promises, unsub)
    ensures Promises(Clean(NotSubscribed), asks, promises, unsub)
  {
  }

  class AsyncSubscription {
    const filter: Filter
    var items: seq<Item>
    var waiters: seq<nat>
    var ended: bool
    var terminated: bool
    var fatal: Option<SubError>
    var awaitingAck: bool
    var unsub: Option<nat>
    var buf: seq<Byte>
    /** The promises given out: how the open, each `next` call and each `unsubscribe` settled. */
    var ackResult: Option<Ack>
    var calls: nat
    var settled: map<nat, Outcome>
    var promises: seq<Promise>
    ghost var asks: nat
    ghost var log: seq<Item>
    ghost var end: End

    ghost function Abs(): State
      reads this
    {
      State(log, end, ackResult, asks, buf)
    }

    ghost predicate Valid()
      reads this
    {
      Serving() && Promises(end, asks, promises, unsub)
    }

    /** The open and the `next` calls. */
    ghost predicate Serving()
      reads this
    {
      && Calls(log, end, calls, waiters, settled)
      && Delivery(log, end, calls - |waiters|, items, ended, terminated, fatal)
      && awaitingAck == ackResult.None?
    }

    /** Nothing deliverable is held back from a waiting call. */
    ghost predicate Pumped()
      reads this
    {
      waiters != [] ==> items == [] && end == Live
    }

    constructor (filter: Filter)
      ensures Valid() && Pumped() && Abs() == Opened && this.filter == filter && calls == 0
      ensures promises == []
    {
      this.filter := filter;
      items, waiters, ended, terminated, fatal := [], [], false, false, None;
      awaitingAck, unsub, buf := true, None, [];
      ackResult, calls, settled, promises := None, 0, map[], [];
      log, end, asks := [], Live, 0;
    }

    /** The `k`-th call is answered at once when something is ready, else it waits its turn. */
    method Next() returns (k: nat)
      requires Valid() && Pumped()
      modifies this
      ensures Valid() && Pumped() && Abs() == old(Abs())
      ensures k == old(calls) && calls == k + 1 && promises == old(promises)
    {
      k := calls;
      AddCall();
      if Ready(items, ended, fatal) != Waiting {
        AnswerFirst();
      }
    }

    /** A new call queues behind the others; there are none when something is ready. */
    method AddCall()
      requires Valid() && Pumped()
      modifies this`calls, this`waiters
      ensures Valid() && calls == old(calls) + 1 && waiters == old(waiters) + [old(calls)]
      ensures Ready(items, ended, fatal) != Waiting ==> waiters == [old(calls)]
      ensures Ready(items, ended, fatal) == Waiting ==> Pumped()
    {
      ReadyIsNext(log, end, calls - |waiters|, items, ended, terminated, fatal);
      CallAdded(log, end, calls, waiters, settled);
      calls, waiters := calls + 1, waiters + [calls];
    }

    /** Hand the first waiting call what is ready. */
    method AnswerFirst()
      requires Valid() && waiters != [] && Ready(items, ended, fatal) != Waiting
      modifies this
      ensures Valid() && Abs() == old(Abs()) && calls == old(calls) && waiters == old(waiters)[1..]
      ensures promises == old(promises)
    {
      ghost var answered := calls - |waiters|;
      ReadyIsNext(log, end, answered, items, ended, terminated, fatal);
      AnswerKeeps(log, end, answered, items, ended, terminated, fatal);
      CallAnswered(log, end, calls, waiters, settled);
      var w, outcome := waiters[0], Ready(items, ended, fatal);
      if items != [] {
        waiters, settled, items := waiters[1..], settled[w := outcome], items[1..];
      } else if fatal.Some? {
        waiters, settled, fatal, ended := waiters[1..], settled[w := outcome], None, true;
      } else {
        waiters, settled := waiters[1..], settled[w := outcome];
      }
    }

    method Pump()
      requires Valid()
      modifies this
      ensures Valid() && Pumped() && Abs() == old(Abs()) && calls == old(calls) && promises == old(promises)
    {
      while waiters != [] && Ready(items, ended, fatal) != Waiting
        invariant Valid() && Abs() == old(Abs()) && calls == old(calls) && promises == old(promises)
        decreases |waiters|
      {
        AnswerFirst();
      }
      ReadyIsNext(log, end, calls - |waiters|, items, ended, terminated, fatal);
    }

    /** Settle the promise of `unsubscribe` that is held. */
    method SettleUnsub(p: Promise, ghost end': End)
      requires Promises(Live, asks, promises, unsub) && end' != Live && p == Settlement(end')
      modifies this`promises, this`unsub
      ensures Promises(end', asks, promises, unsub) && |promises| == |old(promises)|
    {
      PromisesSettled(asks, promises, unsub, end', None);
      if unsub.Some? {
        promises := promises[unsub.value := p];
      }
      unsub := None;
    }

    /** Refuse the open if it still waits. */
    method RefuseOpen(error: SubError)
      requires awaitingAck == ackResult.None?
      modifies this`awaitingAck, this`ackResult
      ensures !awaitingAck && ackResult == if old(ackResult).None? then Some(Refused(error)) else old(ackResult)
    {
      if awaitingAck {
        awaitingAck, ackResult := false, Some(Refused(error));
      }
    }

    /** A socket, framing or protocol failure: surface it once, after the queued items. */
    method Terminate(error: SubError)
      requires Valid()
      modifies this
      ensures Valid() && Abs() == Fail(old(Abs()), error) && calls == old(calls) && |promises| == |old(promises)|
      ensures old(end) == Live || old(Pumped()) ==> Pumped()
    {
      if terminated || ended { return; }
      DeliveryEnds(log, calls - |waiters|, items, ended, terminated, fatal, Fatal(error));
      ContinuedCalls(log, end, log, Fatal(error), calls, waiters, settled);
      terminated := true;
      SettleUnsub(Failed(error), Fatal(error));
      RefuseOpen(error);
      if fatal.None? { fatal := Some(error); }
      end := Fatal(error);
      Pump();
    }

    /** Hard close: queued items still drain, then done. */
    method CloseNow()
      requires Valid() && Pumped()
      modifies this
      ensures Valid() && Pumped() && Abs() == Close(old(Abs())) && calls == old(calls)
      ensures |promises| == |old(promises)|
    {
      if terminated { return; }
      DeliveryEnds(log, calls - |waiters|, items, ended, terminated, fatal, Clean(ByOwner));
      fatal := None;
      SettleUnsub(Failed(Closed), Clean(ByOwner));
      RefuseOpen(Closed);
      EndClean(ByOwner);
    }

    method EndClean(ghost reason: Reason)
      requires Serving() && end == Live && Promises(Clean(reason), asks, promises, unsub)
      modifies this
      ensures Valid() && Pumped() && Abs() == old(Abs()).(end := Clean(reason)) && calls == old(calls)
      ensures promises == old(promises)
    {
      DeliveryEnds(log, calls - |waiters|, items, ended, terminated, fatal, Clean(reason));
      ContinuedCalls(log, end, log, Clean(reason), calls, waiters, settled);
      ended, terminated := true, true;
      end := Clean(reason);
      Pump();
    }

    /** The `k`-th promise: resolved at once after the end, else held until the end, in place of
        one already held. */
    method Unsubscribe() returns (k: nat)
      requires Valid() && Pumped()
      modifies this
      ensures Valid() && Pumped() && calls == old(calls) && Abs() == Step(filter, old(Abs()), UnsubscribeCall)
      ensures k == |old(promises)| && |promises| == k + 1
    {
      k := |promises|;
      if ended || terminated {
        promises := promises + [Resolved];
        return;
      }
      promises, unsub, asks := promises + [Unsettled], Some(k), asks + 1;
    }

    method Push(item: Item)
      requires Valid() && end == Live
      modifies this
      ensures Valid() && calls == old(calls) && Abs() == old(Abs()).(log := old(log) + [item])
      ensures promises == old(promises)
    {
      items := items + [item];
      log := log + [item];
      ContinuedCalls(old(log), old(end), log, end, calls, waiters, settled);
    }

    method Classify(f: Frame)
      requires Valid()
      modifies this
      ensures Valid() && calls == old(calls) && Abs() == Receive(filter, old(Abs()), f)
      ensures |promises| == |old(promises)|
      ensures old(end) != Live && old(Pumped()) ==> Pumped()
      ensures old(end) == Live && end != Live ==> Pumped()
    {
      if terminated { return; }
      if awaitingAck {
        awaitingAck := false;
        if f.kind == RESP_SUBSCRIBED {
          ackResult := Some(Accepted);
        } else {
          ackResult := Some(Refused(RefusalOf(f)));
          RefusedPromises(asks, promises, unsub);
          EndClean(NotSubscribed);
        }
      } else if f.kind == RESP_EVENT || f.kind == RESP_SUB_LAGGED {
        var item := ItemOf(filter, f);
        if item.Some? { Push(item.value); }
      } else if f.kind == RESP_DONE && unsub.Some? {
        SettleUnsub(Resolved, Clean(Acknowledged));
        EndClean(Acknowledged);
      } else {
        Terminate(RefusalOf(f));
      }
    }

    /** Take one frame off the buffer and classify it. */
    method TakeFrame(f: Frame, rest: seq<Byte>)
      requires Valid() && (end != Live ==> Pumped()) && ParseNext(buf) == Got(f, rest)
      modifies this
      ensures Valid() && (end != Live ==> Pumped()) && calls == old(calls) && buf == rest
      ensures |promises| == |old(promises)|
      ensures Absorb(filter, Abs(), Drain(buf)) == old(Absorb(filter, Abs(), Drain(buf)))
    {
      AbsorbFrame(filter, Abs(), f, rest);
      buf := rest;
      Classify(f);
    }

    /** Classify every complete frame, then pump; a framing error terminates. */
    method OnChunk(chunk: seq<Byte>)
      requires Valid() && Pumped()
      modifies this
      ensures Valid() && Pumped() && calls == old(calls) && Abs() == OnData(filter, old(Abs()), chunk)
      ensures |promises| == |old(promises)|
    {
      ghost var target := OnData(filter, Abs(), chunk);
      AbsorbIgnoresBuf(filter, Abs(), buf + chunk, Drain(buf + chunk));
      buf := buf + chunk;
      var p := ParseNext(buf);
      while p.Got?
        invariant Valid() && calls == old(calls) && |promises| == |old(promises)| && p == ParseNext(buf)
        invariant Absorb(filter, Abs(), Drain(buf)) == target
        invariant end != Live ==> Pumped()
        decreases |buf|
      {
        TakeFrame(p.frame, p.rest);
        p := ParseNext(buf);
      }
      if p.Bad? {
        Terminate(BadFraming(p.error));
      } else {
        Pump();
      }
    }
  }

  lemma AbsorbIgnoresBuf(filter: Filter, s: State, buf: seq<Byte>, d: Drained)
    ensures Absorb(filter, s.(buf := buf), d) == Absorb(filter, s, d)
  {
    ReceiveAllIgnoresBuf(filter, s, d.frames, buf);
  }

  /** Settling a buffer is receiving its first frame, then settling the rest. */
  lemma AbsorbFrame(filter: Filter, s: State, f: Frame, rest: seq<Byte>)
    requires ParseNext(s.buf) == Got(f, rest)
    ensures Absorb(filter, Receive(filter, s.(buf := rest), f), Drain(rest)) == Absorb(filter, s, Drain(s.buf))
  {
    assert Receive(filter, s.(buf := rest), f) == Receive(filter, s, f).(buf := rest);
    AbsorbIgnoresBuf(filter, Receive(filter, s, f), rest, Drain(rest));
    assert Drain(s.buf).frames[1..] == Drain(rest).frames;
  }

  // ---- Every sequence of events and calls ----

  datatype Input = Happens(event: Event) | NextCall

  function EventsOf(inputs: seq<Input>): seq<Event> {
    if inputs == [] then [] else
    EventsOf(inputs[..|inputs| - 1]) + if inputs[|inputs| - 1].Happens? then [inputs[|inputs| - 1].event] else []
  }

  function CallsIn(inputs: seq<Input>): nat {
    if inputs == [] then 0 else CallsIn(inputs[..|inputs| - 1]) + if inputs[|inputs| - 1].NextCall? then 1 else 0
  }

  /** What the `k`-th `next` call of a run gets: kept item `k` of the frames between the
      acknowledgement and the first terminal one; past the items the terminal error, once; then done. */
  function Receives(filter: Filter, es: seq<Event>, k: nat): Outcome {
    Answer(LogOf(filter, Drain(BytesOf(es[..FirstStop(es)])).frames), EndAfter(es), k)
  }

  /** Run the object over any sequence of socket events, unsubscribes, closes and `next` calls: the
      calls, in call order, are settled exactly as the run says, each as soon as it has an answer,
      and so are the promises of `unsubscribe`. The first calls get the notifications `log`, one
      each. */
  method Drive(filter: Filter, inputs: seq<Input>)
    returns (sub: AsyncSubscription, ghost t: nat, ghost at: seq<nat>, ghost log: seq<Item>)
    ensures sub.calls == CallsIn(inputs)
    ensures forall k: nat :: k in sub.settled <==> k < sub.calls && Receives(filter, EventsOf(inputs), k) != Waiting
    ensures forall k: nat :: k in sub.settled ==> sub.settled[k] == Receives(filter, EventsOf(inputs), k)
    ensures var es := EventsOf(inputs);
      Notified(filter, Drain(BytesOf(es[..FirstStop(es)])).frames, t, at, log)
    ensures forall k: nat :: k < sub.calls && k < |log| ==>
      && k in sub.settled
      && sub.settled[k] == match log[k] case Note(note) => Value(note) case Malformed(e) => Rejected(e)
    ensures var es := EventsOf(inputs);
      && |sub.promises| == Asks(es)
      && forall k :: 0 <= k < |sub.promises| ==> sub.promises[k] == PromiseOf(EndAfter(es), LiveAsks(es), k)
  {
    sub := new AsyncSubscription(filter);
    for i := 0 to |inputs|
      invariant sub.filter == filter && sub.Valid() && sub.Pumped() && sub.calls == CallsIn(inputs[..i])
      invariant sub.Abs() == Run(filter, Opened, EventsOf(inputs[..i]))
      invariant |sub.promises| == Asks(EventsOf(inputs[..i]))
    {
      assert inputs[..i + 1][..i] == inputs[..i];
      match inputs[i] {
        case NextCall =>
          assert EventsOf(inputs[..i]) + [] == EventsOf(inputs[..i]);
          var _ := sub.Next();
        case Happens(event) =>
          RunLast(filter, Opened, EventsOf(inputs[..i]), event);
          assert (EventsOf(inputs[..i]) + [event])[..|EventsOf(inputs[..i])|] == EventsOf(inputs[..i]);
          Handle(sub, event);
      }
    }
    assert inputs[..|inputs|] == inputs;
    RunAsks(filter, EventsOf(inputs));
    log := sub.log;
    t, at := RunNotifies(filter, EventsOf(inputs));
    AllServed(sub, filter, EventsOf(inputs));
  }

  lemma AllServed(sub: AsyncSubscription, filter: Filter, es: seq<Event>)
    requires sub.Valid() && sub.Pumped() && sub.Abs() == Run(filter, Opened, es)
    ensures sub.end == EndAfter(es)
    ensures forall k: nat :: k in sub.settled <==> k < sub.calls && Receives(filter, es, k) != Waiting
    ensures forall k: nat :: k in sub.settled ==> sub.settled[k] == Receives(filter, es, k)
    ensures forall k: nat :: k < sub.calls && k < |sub.log| ==>
      && k in sub.settled
      && sub.settled[k] == match sub.log[k] case Note(note) => Value(note) case Malformed(e) => Rejected(e)
  {
    RunExplained(filter, es);
    forall k: nat ensures k < sub.calls ==> (k in sub.settled <==> OutcomeOf(sub.Abs(), k) != Waiting) {
      if k < sub.calls { EveryCallAnswered(sub, k); }
    }
  }

  /** One event, as the stream's step. */
  method Handle(sub: AsyncSubscription, e: Event)
    requires sub.Valid() && sub.Pumped()
    modifies sub
    ensures sub.Valid() && sub.Pumped() && sub.calls == old(sub.calls)
    ensures sub.Abs() == Step(sub.filter, old(sub.Abs()), e)
    ensures |sub.promises| == |old(sub.promises)| + if e.UnsubscribeCall? then 1 else 0
  {
    match e
    case Data(chunk) => sub.OnChunk(chunk);
    case SocketFailed => sub.Terminate(Io);
    case CloseCall => sub.CloseNow();
    case UnsubscribeCall => var _ := sub.Unsubscribe();
  }
}
