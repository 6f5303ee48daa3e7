/** One request/reply connection whose calls can fail or be dropped at any await. Replies carry no
    checkable id: the frame read after a write is taken to be its reply. */
module AsyncConnection {

  /** How far a write or read got on the socket before it stopped. */
  datatype Progress = Nothing | Part | Whole

  /** What happens at the two awaits: completion, an error or timeout, or the future dropped. */
  datatype Await = Completes | Fails(after: Progress) | Dropped(after: Progress)
  datatype Weather = Weather(write: Await, read: Await)

  /** The reply of the server to call `call`, or bytes that are no reply. */
  datatype Reply = ReplyTo(call: nat) | Garbage

  /** `Abandoned` is a dropped call: nobody sees a result. */
  datatype Result = Ok(reply: Reply) | Closed | IoError | Abandoned

  /** The socket: calls the server received, in order, how many of their replies were read, and
      whether a partial frame went either way. The server answers each request once, in order. */
  datatype Socket = Socket(received: seq<nat>, read: nat, torn: bool)

  datatype Conn = Conn(dead: bool, nextReqId: nat, socket: Socket)

  const Connected: Conn := Conn(false, 1, Socket([], 0, false))

  function Sent(s: Socket, call: nat, after: Progress): Socket {
    match after
    case Nothing => s
    case Part => s.(torn := true)
    case Whole => if s.torn then s else s.(received := s.received + [call])
  }

  function Read(s: Socket, after: Progress): Socket {
    match after
    case Nothing => s
    case Part => s.(torn := true)
    case Whole => if s.torn || s.read >= |s.received| then s else s.(read := s.read + 1)
  }

  /** The frame a completed read returns. A read with no reply on the way does not complete:
      what it would return is left to `Garbage`. */
  function Head(s: Socket): Reply {
    if s.torn || s.read >= |s.received| then Garbage else ReplyTo(s.received[s.read])
  }

  /** The write and the read of one call. */
  function DoRoundTrip(s: Socket, call: nat, w: Weather): (Result, Socket) {
    match w.write
    case Fails(after) => (IoError, Sent(s, call, after))
    case Dropped(after) => (Abandoned, Sent(s, call, after))
    case Completes =>
      var t := Sent(s, call, Whole);
      match w.read
      case Fails(after) => (IoError, Read(t, after))
      case Dropped(after) => (Abandoned, Read(t, after))
      case Completes => (Ok(Head(t)), Read(t, Whole))
  }

  /** The latch armed before the awaits, or (`pessimistic` false) set only on a returned error. */
  function Step(pessimistic: bool, c: Conn, call: nat, w: Weather): (Result, Conn) {
    if c.dead then (Closed, c) else
    var (r, s) := DoRoundTrip(c.socket, call, w);
    var dead := if pessimistic then !r.Ok? else r == IoError;
    (r, Conn(dead, (c.nextReqId + 1) % 0x1_0000_0000, s))
  }

  /** The connection after the first `n` calls of a run. */
  function After(pessimistic: bool, ws: seq<Weather>, n: nat): Conn
    requires n <= |ws|
  {
    if n == 0 then Connected else Step(pessimistic, After(pessimistic, ws, n - 1), n - 1, ws[n - 1]).1
  }

  function ResultOf(pessimistic: bool, ws: seq<Weather>, k: nat): Result
    requires k < |ws|
  {
    Step(pessimistic, After(pessimistic, ws, k), k, ws[k]).0
  }

  /** A live connection has read every reply it was sent. */
  ghost predicate Settled(c: Conn) {
    !c.dead ==> !c.socket.torn && c.socket.read == |c.socket.received|
  }

  lemma {:induction false} AlwaysSettled(ws: seq<Weather>, n: nat)
    requires n <= |ws|
    ensures Settled(After(true, ws, n))
  {
    if n == 0 {
    } else {
      AlwaysSettled(ws, n - 1);
    }
  }

  /** Every reply is the reply to the call that received it, whatever fails or is dropped. */
  lemma RepliesCorrelate(ws: seq<Weather>, k: nat)
    requires k < |ws|
    ensures ResultOf(true, ws, k).Ok? ==> ResultOf(true, ws, k) == Ok(ReplyTo(k))
  {
    AlwaysSettled(ws, k);
  }

  /** The connection is dead exactly when some call so far did not return its reply. */
  lemma {:induction false} DeadIff(ws: seq<Weather>, n: nat)
    requires n <= |ws|
    ensures After(true, ws, n).dead <==> exists k :: 0 <= k < n && !ResultOf(true, ws, k).Ok?
  {
    if n == 0 {
    } else {
      DeadIff(ws, n - 1);
      var c := After(true, ws, n - 1);
      assert After(true, ws, n).dead <==> c.dead || !ResultOf(true, ws, n - 1).Ok?;
    }
  }

  /** Once dead, every later call fails at once and touches nothing. */
  lemma {:induction false} DeadForGood(ws: seq<Weather>, n: nat, k: nat)
    requires n <= k < |ws| && After(true, ws, n).dead
    ensures After(true, ws, k) == After(true, ws, n) && ResultOf(true, ws, k) == Closed
  {
    if n >= k {
    } else {
      DeadForGood(ws, n, k - 1);
    }
  }

  /** A latch set only on errors mis-correlates: the first call is dropped with its reply unread,
      and the second returns that reply as its own. */
  lemma OptimisticMisCorrelates()
    ensures var ws := [Weather(Completes, Dropped(Nothing)), Weather(Completes, Completes)];
      ResultOf(false, ws, 1) == Ok(ReplyTo(0))
  {
    var ws := [Weather(Completes, Dropped(Nothing)), Weather(Completes, Completes)];
    assert After(false, ws, 0) == Connected;
    assert After(false, ws, 1) == Conn(false, 2, Socket([0], 0, false));
  }

  /** The latch set only on errors is right as long as no call is dropped. */
  lemma {:induction false} OptimisticWithoutDrops(ws: seq<Weather>, n: nat)
    requires n <= |ws| && forall k :: 0 <= k < n ==> !ws[k].write.Dropped? && !ws[k].read.Dropped?
    ensures After(false, ws, n) == After(true, ws, n)
  {
    if n == 0 {
    } else {
      OptimisticWithoutDrops(ws, n - 1);
    }
  }

  class Connection {
    var dead: bool
    var nextReqId: nat
    ghost var socket: Socket

    ghost function Abs(): Conn
      reads this
    {
      Conn(dead, nextReqId, socket)
    }

    constructor ()
      ensures Abs() == Connected
    {
      dead, nextReqId, socket := false, 1, Socket([], 0, false);
    }

    /** A dropped call stops where it was: whatever the fields hold then is what stays. */
    method RoundTrip(ghost call: nat, w: Weather) returns (ghost r: Result)
      modifies this
      ensures (r, Abs()) == Step(true, old(Abs()), call, w)
    {
      if dead { return Closed; }
      nextReqId := (nextReqId + 1) % 0x1_0000_0000;
      dead := true;
      if !w.write.Completes? {
        socket := Sent(socket, call, w.write.after);
        r := if w.write.Fails? then IoError else Abandoned;
        return;
      }
      socket := Sent(socket, call, Whole);
      if !w.read.Completes? {
        socket := Read(socket, w.read.after);
        r := if w.read.Fails? then IoError else Abandoned;
        return;
      }
      r := Ok(Head(socket));
      socket := Read(socket, Whole);
      dead := false;
    }
  }
}
