/** The write side of `WSNetConn` as a value, and what each of its locked sections
    does to it (internal/transport/wsconn.go). */
module WSSpec {
  import opened Bytes

  datatype Error = ErrClosed | EOF | SocketError(code: nat)

  /** What the peer's websocket sees. `Cut` is a message whose tail never arrived;
      `Other` is a text, ping or pong message put on the wire by someone else. */
  datatype Frame = Binary(data: seq<byte>) | Cut(data: seq<byte>) | Other(data: seq<byte>)

  /** How the websocket answers one NextWriter / Write / Close sequence. `reached`
      is how much of the message got onto the wire before the failure. */
  datatype Outcome =
    | Sent
    | NoWriter(err: Error)
    | ShortWrite(err: Error, reported: nat, reached: nat)
    | NotFinished(err: Error, reached: nat)

  function Reached(o: Outcome, m: seq<byte>): (k: nat)
    ensures k <= |m|
  {
    var k := match o
             case Sent => |m|
             case NoWriter(_) => 0
             case ShortWrite(_, _, r) => r
             case NotFinished(_, r) => r;
    if k <= |m| then k else |m|
  }

  function Reported(o: Outcome, m: seq<byte>): nat
  {
    match o
    case NoWriter(_) => 0
    case ShortWrite(_, n, _) => if n <= |m| then n else |m|
    case _ => |m|
  }

  function ErrOf(o: Outcome): Option<Error>
  {
    if o.Sent? then None else Some(o.err)
  }

  /** One attempt to put a group of whole payloads on the wire; `own` if the writer of the last of them
      made it, before it returned. */
  datatype Entry = Entry(payloads: seq<seq<byte>>, reached: nat, whole: bool, own: bool)

  /** `closed`, the timers and the queue are the fields of the Go struct; `armed` holds
      the timers the runtime will still fire and `fired` those whose callback has been
      started but has not yet got `upMu`. `handed` (payloads in the order in which their
      writers got `upMu`), `accepted` (those whose Write returned nil), `ledger` and
      `wire` are history. */
  datatype Conn = Conn(
    upPack: nat, maxQueue: nat,
    queue: seq<seq<byte>>, size: nat,
    timer: Option<nat>, armed: set<nat>, fired: set<nat>, nextTimer: nat,
    closed: bool, broken: bool, deadErr: Option<Error>, dead: bool,
    handed: seq<seq<byte>>, accepted: seq<seq<byte>>, ledger: seq<Entry>, wire: seq<Frame>)

  function Init(upPack: nat, maxQueue: nat): Conn
  {
    Conn(upPack, maxQueue, [], 0, None, {}, {}, 0, false, false, None, false, [], [], [], [])
  }

  /** `signalDead` with a non-nil error. */
  function Signal(c: Conn, e: Error): Conn
  {
    c.(deadErr := if c.deadErr.None? then Some(e) else c.deadErr, dead := true)
  }

  /** A failed websocket stays failed: nothing more gets onto the wire. */
  predicate Possible(c: Conn, m: seq<byte>, o: Outcome)
  {
    c.broken ==> !o.Sent? && Reached(o, m) == 0
  }

  function FrameOf(e: Entry): seq<Frame>
    requires e.reached <= |Flat(e.payloads)|
  {
    if e.whole then [Binary(Flat(e.payloads))]
    else if e.reached > 0 then [Cut(Flat(e.payloads)[..e.reached])]
    else []
  }

  /** Lines 199-219 and 161-178: hand one message to the websocket. */
  function Send(c: Conn, group: seq<seq<byte>>, o: Outcome, own: bool): Conn
  {
    var m := Flat(group);
    var e := Entry(group, Reached(o, m), o.Sent?, own);
    var d := c.(ledger := c.ledger + [e], wire := c.wire + FrameOf(e), broken := c.broken || !o.Sent?);
    if o.Sent? then d else Signal(d, o.err)
  }

  /** Lines 185-197: stop the timer and empty the queue. */
  function Unqueue(c: Conn): Conn
  {
    c.(queue := [], size := 0, timer := None,
       armed := if c.timer.Some? then c.armed - {c.timer.value} else c.armed)
  }

  /** `flushLocked`. */
  function Flush(c: Conn, o: Outcome, own: bool): (Conn, Option<Error>)
  {
    if c.size == 0 then (c, None)
    else if c.closed then
      (Unqueue(c).(ledger := c.ledger + [Entry(c.queue, 0, false, own)]), Some(ErrClosed))
    else (Send(Unqueue(c), c.queue, o, own), ErrOf(o))
  }

  /** What the tail of `Write` (lines 138-157) leaves before it looks at the threshold. */
  function Append(c: Conn, p: seq<byte>): Conn
  {
    c.(queue := c.queue + [p], size := c.size + |p|)
  }

  /** Line 151: a new timer replaces, and stops, the old one. */
  function Rearm(c: Conn): Conn
  {
    c.(timer := Some(c.nextTimer), nextTimer := c.nextTimer + 1,
       armed := (if c.timer.Some? then c.armed - {c.timer.value} else c.armed) + {c.nextTimer})
  }

  datatype Reply = Reply(n: nat, err: Option<Error>)

  function Enqueue(c: Conn, p: seq<byte>, o: Outcome): (Conn, Reply)
  {
    var d := Append(c, p);
    if d.size >= d.upPack then
      var (f, e) := Flush(d, o, true);
      (f, Reply(if e.Some? then 0 else |p|, e))
    else (Rearm(d), Reply(|p|, None))
  }

  /** Such a payload does not go into an over-full queue's place. */
  predicate TooBig(c: Conn, p: seq<byte>)
  {
    |p| >= c.upPack || |p| > c.maxQueue
  }

  /** The payload is written as its own message, past the queue and past `closed`. */
  predicate Direct(c: Conn, p: seq<byte>)
  {
    c.size + |p| > c.maxQueue && TooBig(c, p)
  }

  /** Lines 130-157, after the flush of an over-full queue. */
  function AfterFlush(c: Conn, p: seq<byte>, o: Outcome): (Conn, Reply)
  {
    if TooBig(c, p) then (Send(c, [p], o, true), Reply(Reported(o, p), ErrOf(o))) else Enqueue(c, p, o)
  }

  function Locked(c: Conn, p: seq<byte>, o1: Outcome, o2: Outcome): (Conn, Reply)
  {
    if c.size + |p| > c.maxQueue then
      var (d, e) := Flush(c, o1, false);
      if e.Some? then (d.(ledger := d.ledger + [Entry([p], 0, false, true)]), Reply(0, e))
      else AfterFlush(d, p, o2)
    else Enqueue(c, p, o2)
  }

  /** `Write` from the moment it holds `upMu` (lines 123-157). */
  function WriteLocked(c: Conn, p: seq<byte>, o1: Outcome, o2: Outcome): (Conn, Reply)
  {
    var (d, r) := Locked(c, p, o1, o2);
    (d.(handed := d.handed + [p], accepted := if r.err.None? then d.accepted + [p] else d.accepted), r)
  }

  /** The outcomes a `Write` may meet: the second message follows the first. */
  predicate PossibleWrite(c: Conn, p: seq<byte>, o1: Outcome, o2: Outcome)
  {
    Possible(c, Flat(c.queue), o1)
    && var d := if c.size + |p| > c.maxQueue then Flush(c, o1, false).0 else c;
       Possible(d, if Direct(c, p) then p else Flat(d.queue + [p]), o2)
  }

  /** `Write` as one atomic call (lines 115-157). */
  function Write(c: Conn, p: seq<byte>, o1: Outcome, o2: Outcome): (Conn, Reply)
  {
    if c.closed then (c, Reply(0, Some(ErrClosed)))
    else if p == [] then (c, Reply(0, None))
    else WriteLocked(c, p, o1, o2)
  }

  /** The runtime starts the callback of an unstopped timer. */
  function Expire(c: Conn, id: nat): Conn
  {
    c.(armed := c.armed - {id}, fired := c.fired + {id})
  }

  /** The callback of line 151 once it holds `upMu`, whether or not `id` is still `timer`. */
  function Callback(c: Conn, id: nat, o: Outcome): Conn
  {
    Flush(c.(fired := c.fired - {id}), o, false).0
  }

  /** Lines 226-233 of `Close`: the flush after `closed` was set. */
  function CloseFlush(c: Conn, o: Outcome): Conn
  {
    var (d, e) := Flush(c, o, false);
    if e.Some? then Signal(d, e.value) else d
  }

  /** Lines 235-240: the socket goes away, whatever its Close returned. */
  function CloseSocket(c: Conn, e: Option<Error>): Conn
  {
    Signal(c.(broken := true), if e.Some? then e.value else EOF)
  }

  // ----- what every locked section keeps -----

  predicate EntryOk(maxQueue: nat, e: Entry)
  {
    && e.payloads != [] && AllNonEmpty(e.payloads)
    && e.reached <= |Flat(e.payloads)|
    && (e.whole ==> e.reached == |Flat(e.payloads)|)
    && (|Flat(e.payloads)| <= maxQueue || |e.payloads| == 1)
  }

  predicate InRange(l: seq<Entry>)
  {
    forall i :: 0 <= i < |l| ==> l[i].reached <= |Flat(l[i].payloads)|
  }

  function Payloads(l: seq<Entry>): (r: seq<seq<byte>>)
  {
    if l == [] then [] else l[0].payloads + Payloads(l[1..])
  }

  function Frames(l: seq<Entry>): (r: seq<Frame>)
    requires InRange(l)
  {
    if l == [] then [] else FrameOf(l[0]) + Frames(l[1..])
  }

  /** Every byte that reached the wire, in wire order. */
  function SentBytes(l: seq<Entry>): (r: seq<byte>)
    requires InRange(l)
  {
    if l == [] then [] else Flat(l[0].payloads)[..l[0].reached] + SentBytes(l[1..])
  }

  /** Some entry was not sent as one complete message. */
  predicate Flawed(l: seq<Entry>)
  {
    exists i :: 0 <= i < |l| && !l[i].whole
  }

  predicate LedgerOk(maxQueue: nat, l: seq<Entry>)
  {
    forall i :: 0 <= i < |l| ==> EntryOk(maxQueue, l[i])
  }

  /** Some byte of some entry never reached the wire. */
  predicate Lossy(l: seq<Entry>)
  {
    exists i :: 0 <= i < |l| && l[i].reached < |Flat(l[i].payloads)|
  }

  /** The batching shape: what is queued, what is counted, and their bounds. */
  predicate QueueOk(c: Conn)
  {
    && c.size == |Flat(c.queue)| && AllNonEmpty(c.queue)
    && c.size < c.upPack && c.size <= c.maxQueue
  }

  /** Something is queued exactly when a timer is set, and that timer still has its callback to run. */
  predicate TimerOk(c: Conn)
  {
    && (c.size == 0 <==> c.timer.None?)
    && (c.timer.Some? ==> c.timer.value in c.armed || c.timer.value in c.fired)
    && TimersOk(c)
  }

  /** No timer but the current one is still armed, and ids are never reused. */
  predicate TimersOk(c: Conn)
  {
    && (c.timer.Some? ==> c.timer.value < c.nextTimer)
    && (forall id :: id in c.armed ==> c.timer == Some(id) && id !in c.fired)
    && (forall id :: id in c.fired ==> id < c.nextTimer)
  }

  predicate Accounts(c: Conn)
  {
    && LedgerOk(c.maxQueue, c.ledger)
    && Payloads(c.ledger) + c.queue == c.handed
    && c.wire == Frames(c.ledger)
    && (Flawed(c.ledger) ==> c.closed || c.broken)
  }

  predicate DeadOk(c: Conn)
  {
    (c.dead <==> c.deadErr.Some?) && (c.broken ==> c.dead)
  }

  predicate Inv(c: Conn)
  {
    QueueOk(c) && TimerOk(c) && Accounts(c) && DeadOk(c)
  }

  // ----- ledger algebra -----

  lemma {:induction false} PayloadsAppend(a: seq<Entry>, b: seq<Entry>)
    ensures Payloads(a + b) == Payloads(a) + Payloads(b)
  {
    if a == [] {
      assert a + b == b;
    } else {
      assert (a + b)[1..] == a[1..] + b;
      PayloadsAppend(a[1..], b);
    }
  }

  lemma {:induction false} FramesAppend(a: seq<Entry>, b: seq<Entry>)
    requires InRange(a) && InRange(b)
    ensures Frames(a + b) == Frames(a) + Frames(b)
  {
    if a == [] {
      assert a + b == b;
    } else {
      assert (a + b)[1..] == a[1..] + b;
      FramesAppend(a[1..], b);
    }
  }

  lemma {:induction false} SentBytesAppend(a: seq<Entry>, b: seq<Entry>)
    requires InRange(a) && InRange(b)
    ensures SentBytes(a + b) == SentBytes(a) + SentBytes(b)
  {
    if a == [] {
      assert a + b == b;
    } else {
      assert (a + b)[1..] == a[1..] + b;
      SentBytesAppend(a[1..], b);
    }
  }

  lemma LedgerSnoc(a: seq<Entry>, e: Entry)
    requires InRange(a)
    requires e.reached <= |Flat(e.payloads)|
    ensures Payloads(a + [e]) == Payloads(a) + e.payloads
    ensures Frames(a + [e]) == Frames(a) + FrameOf(e)
    ensures SentBytes(a + [e]) == SentBytes(a) + Flat(e.payloads)[..e.reached]
  {
    PayloadsAppend(a, [e]);
    FramesAppend(a, [e]);
    SentBytesAppend(a, [e]);
    assert [e][1..] == [];
  }

  lemma LedgerSnocOk(maxQueue: nat, a: seq<Entry>, e: Entry)
    ensures LedgerOk(maxQueue, a + [e]) <==> LedgerOk(maxQueue, a) && EntryOk(maxQueue, e)
    ensures Lossy(a + [e]) <==> Lossy(a) || e.reached < |Flat(e.payloads)|
    ensures Flawed(a + [e]) <==> Flawed(a) || !e.whole
  {
    assert (a + [e])[|a|] == e && forall i :: 0 <= i < |a| ==> (a + [e])[i] == a[i];
  }

  // ----- the invariant, one locked section at a time -----

  lemma InitInv(upPack: nat, maxQueue: nat)
    requires upPack > 0
    ensures Inv(Init(upPack, maxQueue))
  {}

  /** Between two steps of `Write` the timer may lag behind the queue, so `Flush` is
      shown to restore everything from the accounting alone. */
  predicate Loose(c: Conn)
  {
    && c.size == |Flat(c.queue)| && AllNonEmpty(c.queue)
    && (|Flat(c.queue)| <= c.maxQueue)
    && (c.timer.Some? ==> c.size > 0)
    && TimersOk(c)
    && LedgerOk(c.maxQueue, c.ledger) && c.wire == Frames(c.ledger)
    && (Flawed(c.ledger) ==> c.closed || c.broken)
    && DeadOk(c)
  }

  lemma SendKeeps(c: Conn, group: seq<seq<byte>>, o: Outcome, own: bool)
    requires LedgerOk(c.maxQueue, c.ledger) && c.wire == Frames(c.ledger) && DeadOk(c)
    requires Flawed(c.ledger) ==> c.closed || c.broken
    requires group != [] && AllNonEmpty(group)
    requires |Flat(group)| <= c.maxQueue || |group| == 1
    ensures var d := Send(c, group, o, own);
            && LedgerOk(d.maxQueue, d.ledger) && d.wire == Frames(d.ledger) && DeadOk(d)
            && (Flawed(d.ledger) ==> d.closed || d.broken)
            && Payloads(d.ledger) == Payloads(c.ledger) + group
            && SentBytes(d.ledger) == SentBytes(c.ledger) + Flat(group)[..Reached(o, Flat(group))]
  {
    LedgerSnoc(c.ledger, Entry(group, Reached(o, Flat(group)), o.Sent?, own));
    LedgerSnocOk(c.maxQueue, c.ledger, Entry(group, Reached(o, Flat(group)), o.Sent?, own));
  }

  lemma FlushKeeps(c: Conn, o: Outcome, own: bool)
    requires Loose(c) && c.upPack > 0
    ensures var d := Flush(c, o, own).0;
            && d.queue == [] && QueueOk(d) && TimerOk(d)
            && LedgerOk(d.maxQueue, d.ledger) && d.wire == Frames(d.ledger) && DeadOk(d)
            && (Flawed(d.ledger) ==> d.closed || d.broken)
            && Payloads(d.ledger) == Payloads(c.ledger) + c.queue
            && d.handed == c.handed && d.accepted == c.accepted
  {
    FlatNonEmpty(c.queue);
    if c.size == 0 {
    } else if c.closed {
      LedgerSnoc(c.ledger, Entry(c.queue, 0, false, own));
      LedgerSnocOk(c.maxQueue, c.ledger, Entry(c.queue, 0, false, own));
    } else {
      SendKeeps(Unqueue(c), c.queue, o, own);
    }
  }

  /** What a locked section of `Write` leaves once `p` counts as handed in. */
  predicate Settled(c: Conn, p: seq<byte>, d: Conn)
  {
    && QueueOk(d) && TimerOk(d) && DeadOk(d) && LedgerOk(d.maxQueue, d.ledger) && d.wire == Frames(d.ledger)
    && (Flawed(d.ledger) ==> d.closed || d.broken)
    && Payloads(d.ledger) + d.queue == c.handed + [p]
    && d.handed == c.handed
  }

  lemma RearmKeeps(c: Conn)
    requires TimersOk(c) && c.size > 0
    ensures TimerOk(Rearm(c))
  {}

  lemma AppendAccounts(ledger: seq<seq<byte>>, queue: seq<seq<byte>>, p: seq<byte>, handed: seq<seq<byte>>)
    requires ledger + queue == handed
    ensures ledger + (queue + [p]) == handed + [p]
  {}

  lemma AppendLoose(c: Conn, p: seq<byte>)
    requires Inv(c) && p != [] && c.size + |p| <= c.maxQueue
    ensures Loose(Append(c, p)) && Append(c, p).size > 0
  {
    FlatSnoc(c.queue, p);
  }

  lemma EnqueueKeeps(c: Conn, p: seq<byte>, o: Outcome)
    requires Inv(c) && p != [] && c.size + |p| <= c.maxQueue
    ensures Settled(c, p, Enqueue(c, p, o).0)
  {
    var d := Append(c, p);
    AppendLoose(c, p);
    AppendAccounts(Payloads(c.ledger), c.queue, p, c.handed);
    if d.size >= d.upPack {
      FlushKeeps(d, o, true);
    } else {
      RearmKeeps(d);
    }
  }

  lemma FlushInv(c: Conn, o: Outcome, own: bool)
    requires Inv(c)
    ensures Inv(Flush(c, o, own).0) && Flush(c, o, own).0.queue == [] && Flush(c, o, own).0.handed == c.handed
  {
    FlushKeeps(c, o, own);
  }

  /** The flush of an over-full queue failed: `p` is refused. */
  lemma RefusedKeeps(c: Conn, p: seq<byte>)
    requires Inv(c) && p != [] && c.queue == [] && (c.closed || c.broken)
    ensures Settled(c, p, c.(ledger := c.ledger + [Entry([p], 0, false, true)]))
  {
    FlatOne(p);
    LedgerSnoc(c.ledger, Entry([p], 0, false, true));
    LedgerSnocOk(c.maxQueue, c.ledger, Entry([p], 0, false, true));
  }

  lemma DirectKeeps(c: Conn, p: seq<byte>, o: Outcome)
    requires Inv(c) && p != [] && c.queue == []
    ensures Settled(c, p, Send(c, [p], o, true))
  {
    SendKeeps(c, [p], o, true);
  }

  lemma LockedKeeps(c: Conn, p: seq<byte>, o1: Outcome, o2: Outcome)
    requires Inv(c) && p != []
    ensures Settled(c, p, Locked(c, p, o1, o2).0)
  {
    if c.size + |p| > c.maxQueue {
      var (d, e) := Flush(c, o1, false);
      FlushInv(c, o1, false);
      if e.Some? {
        RefusedKeeps(d, p);
      } else if TooBig(d, p) {
        DirectKeeps(d, p, o2);
      } else {
        EnqueueKeeps(d, p, o2);
      }
    } else {
      EnqueueKeeps(c, p, o2);
    }
  }

  lemma SettledInv(c: Conn, p: seq<byte>, d: Conn, accepted: seq<seq<byte>>)
    requires Settled(c, p, d)
    ensures Inv(d.(handed := d.handed + [p], accepted := accepted))
  {}

  lemma WriteLockedKeeps(c: Conn, p: seq<byte>, o1: Outcome, o2: Outcome)
    requires Inv(c) && p != []
    ensures Inv(WriteLocked(c, p, o1, o2).0)
  {
    LockedKeeps(c, p, o1, o2);
    var (d, r) := Locked(c, p, o1, o2);
    SettledInv(c, p, d, if r.err.None? then d.accepted + [p] else d.accepted);
  }

  /** `Write` as a whole keeps the invariant. */
  lemma WriteKeeps(c: Conn, p: seq<byte>, o1: Outcome, o2: Outcome)
    requires Inv(c)
    ensures Inv(Write(c, p, o1, o2).0)
  {
    if p != [] {
      WriteLockedKeeps(c, p, o1, o2);
    }
  }

  lemma ExpireKeeps(c: Conn, id: nat)
    requires Inv(c) && id in c.armed
    ensures Inv(Expire(c, id))
  {}

  lemma CallbackKeeps(c: Conn, id: nat, o: Outcome)
    requires Inv(c) && id in c.fired
    ensures Inv(Callback(c, id, o))
  {
    FlushKeeps(c.(fired := c.fired - {id}), o, false);
  }

  lemma CloseFlushInv(c: Conn, o: Outcome)
    requires Inv(c)
    ensures Inv(CloseFlush(c, o)) && CloseFlush(c, o).queue == []
  {
    FlushInv(c, o, false);
    var (d, err) := Flush(c, o, false);
    if err.Some? {
      SignalInv(d, err.value);
    }
  }

  lemma CloseSocketInv(c: Conn, e: Option<Error>)
    requires Inv(c)
    ensures Inv(CloseSocket(c, e))
  {}

  lemma ClosedInv(c: Conn)
    requires Inv(c)
    ensures Inv(c.(closed := true))
  {}

  lemma SignalInv(c: Conn, e: Error)
    requires Inv(c)
    ensures Inv(Signal(c, e))
  {}
}
