/** Every interleaving of writers, timer callbacks, `Close` and the peer's reader over
    one direction of a `WSNetConn` pair (internal/transport/wsconn.go).

    A `Write` is two steps: its unlocked test of `closed`, and its section under `upMu`.
    One such section reads `closed` at most once, so letting `Close` set the flag only
    between sections loses no interleaving. */
module WSRun {
  import opened Bytes
  import opened WSSpec

  /** `writers` are the payloads of writers past the `closed` test but not yet under `upMu`;
      `closing` counts the finished steps of `Close`; `inbound` is in flight to the peer. */
  datatype World = World(
    conn: Conn, writers: multiset<seq<byte>>, closing: nat,
    inbound: seq<Frame>, reader: Option<Frame>, delivered: seq<byte>)

  datatype Event =
    | BeginWrite(p: seq<byte>)
    | LockedWrite(p: seq<byte>, o1: Outcome, o2: Outcome)
    | TimerExpires(id: nat)
    | TimerCallback(id: nat, o: Outcome)
    | SetClosed
    | FlushOnClose(o: Outcome)
    | SocketClose(err: Option<Error>)
    | Inject(f: Frame)
    | Fetch
    | Pull(n: nat, eof: bool)

  function Start(upPack: nat, maxQueue: nat): World
  {
    World(Init(upPack, maxQueue), multiset{}, 0, [], None, [])
  }

  predicate Enabled(w: World, e: Event)
  {
    match e
    case BeginWrite(p) => !w.conn.closed && p != []
    case LockedWrite(p, o1, o2) => p in w.writers && PossibleWrite(w.conn, p, o1, o2)
    case TimerExpires(id) => id in w.conn.armed
    case TimerCallback(id, o) => id in w.conn.fired && Possible(w.conn, Flat(w.conn.queue), o)
    case SetClosed => !w.conn.closed
    case FlushOnClose(_) => w.closing == 1
    case SocketClose(_) => w.closing == 2
    case Inject(f) => f.Other? || f == Binary([])
    case Fetch => w.reader.None? && w.inbound != []
    case Pull(n, eof) =>
      w.reader.Some? && n <= |w.reader.value.data|
      && (eof ==> w.reader.value.Binary? && n == |w.reader.value.data|)
  }

  /** Whatever `d` has put on the wire beyond `w.conn` is now in flight. */
  function Carry(w: World, d: Conn): World
  {
    w.(conn := d, inbound := w.inbound + (if |w.conn.wire| <= |d.wire| then d.wire[|w.conn.wire|..] else []))
  }

  function Step(w: World, e: Event): World
    requires Enabled(w, e)
  {
    match e
    case BeginWrite(p) => w.(writers := w.writers + multiset{p})
    case LockedWrite(p, o1, o2) =>
      Carry(w, WriteLocked(w.conn, p, o1, o2).0).(writers := w.writers - multiset{p})
    case TimerExpires(id) => w.(conn := Expire(w.conn, id))
    case TimerCallback(id, o) => Carry(w, Callback(w.conn, id, o))
    case SetClosed => w.(conn := w.conn.(closed := true), closing := 1)
    case FlushOnClose(o) => Carry(w, CloseFlush(w.conn, o)).(closing := 2)
    case SocketClose(err) => w.(conn := CloseSocket(w.conn, err), closing := 3)
    case Inject(f) => w.(inbound := w.inbound + [f])
    case Fetch =>
      var f := w.inbound[0];
      w.(inbound := w.inbound[1..], reader := if f.Other? then None else Some(f))
    case Pull(n, eof) =>
      var f := w.reader.value;
      w.(delivered := w.delivered + f.data[..n],
         reader := if eof then None else Some(Advance(f, n)))
  }

  function Advance(f: Frame, n: nat): Frame
    requires n <= |f.data|
  {
    match f
    case Binary(d) => Binary(d[n..])
    case Cut(d) => Cut(d[n..])
    case Other(d) => Other(d[n..])
  }

  predicate Legal(w: World, es: seq<Event>)
    decreases |es|
  {
    es == [] || (Enabled(w, es[0]) && Legal(Step(w, es[0]), es[1..]))
  }

  function Run(w: World, es: seq<Event>): (r: World)
    requires Legal(w, es)
    decreases |es|
  {
    if es == [] then w else Run(Step(w, es[0]), es[1..])
  }

  /** The stream bytes a list of messages carries. */
  function FrameBytes(fs: seq<Frame>): (r: seq<byte>)
  {
    if fs == [] then []
    else (if fs[0].Other? then [] else fs[0].data) + FrameBytes(fs[1..])
  }

  function Unread(w: World): seq<byte>
  {
    (if w.reader.Some? then w.reader.value.data else []) + FrameBytes(w.inbound)
  }

  predicate WorldInv(w: World)
  {
    && Inv(w.conn)
    && (w.conn.closed <==> w.closing > 0)
    && (forall p :: p in w.writers ==> p != [])
    && w.delivered + Unread(w) == FrameBytes(w.conn.wire)
    && (w.reader.Some? ==> !w.reader.value.Other?)
    && (!w.conn.closed && !w.conn.broken ==> w.conn.accepted == w.conn.handed)
  }

  // ----- frames -----

  lemma {:induction false} FrameBytesAppend(a: seq<Frame>, b: seq<Frame>)
    ensures FrameBytes(a + b) == FrameBytes(a) + FrameBytes(b)
  {
    if a == [] {
      assert a + b == b;
    } else {
      assert (a + b)[1..] == a[1..] + b;
      FrameBytesAppend(a[1..], b);
    }
  }

  lemma {:induction false} WireCarriesSent(q: nat, l: seq<Entry>)
    requires InRange(l) && LedgerOk(q, l)
    ensures FrameBytes(Frames(l)) == SentBytes(l)
  {
    if l != [] {
      WireCarriesSent(q, l[1..]);
      var f := FrameOf(l[0]);
      FrameBytesAppend(f, Frames(l[1..]));
      if f != [] {
        assert f == [f[0]] && f[1..] == [];
      }
    }
  }

  /** What no section under `upMu` changes, and what it only adds to. */
  predicate Extends(c: Conn, d: Conn)
  {
    && d.closed == c.closed && (c.broken ==> d.broken)
    && d.upPack == c.upPack && d.maxQueue == c.maxQueue
    && c.wire <= d.wire && c.ledger <= d.ledger
  }

  lemma SendExtends(c: Conn, group: seq<seq<byte>>, o: Outcome, own: bool)
    ensures var d := Send(c, group, o, own);
            Extends(c, d) && d.handed == c.handed && d.accepted == c.accepted && (o.Sent? ==> d.broken == c.broken)
            && (!o.Sent? ==> d.broken)
  {}

  lemma FlushExtends(c: Conn, o: Outcome, own: bool)
    ensures var (d, e) := Flush(c, o, own);
            Extends(c, d) && d.handed == c.handed && d.accepted == c.accepted
            && (e.Some? && !c.closed ==> d.broken)
  {
    SendExtends(Unqueue(c), c.queue, o, own);
  }

  lemma EnqueueExtends(c: Conn, p: seq<byte>, o: Outcome)
    ensures var (d, r) := Enqueue(c, p, o);
            Extends(c, d) && d.handed == c.handed && d.accepted == c.accepted
            && (r != Reply(|p|, None) && !c.closed ==> d.broken)
  {
    FlushExtends(Append(c, p), o, true);
  }

  lemma LockedExtends(c: Conn, p: seq<byte>, o1: Outcome, o2: Outcome)
    ensures var (d, r) := Locked(c, p, o1, o2);
            Extends(c, d) && d.handed == c.handed && d.accepted == c.accepted
            && (r != Reply(|p|, None) && !c.closed ==> d.broken)
  {
    var f := Flush(c, o1, false).0;
    FlushExtends(c, o1, false);
    SendExtends(f, [p], o2, true);
    EnqueueExtends(f, p, o2);
    EnqueueExtends(c, p, o2);
  }

  /** Until a failure or a close, a `Write` that got its lock reports full success. */
  lemma WriteLockedExtends(c: Conn, p: seq<byte>, o1: Outcome, o2: Outcome)
    ensures var (d, r) := WriteLocked(c, p, o1, o2);
            Extends(c, d) && d.handed == c.handed + [p]
            && (!d.closed && !d.broken ==> r == Reply(|p|, None) && d.accepted == c.accepted + [p])
  {
    LockedExtends(c, p, o1, o2);
  }

  lemma Regroup(a: seq<byte>, b: seq<byte>, c: seq<byte>, d: seq<byte>)
    ensures a + (b + (c + d)) == a + (b + c) + d && (a + b) + (c + d) == a + ((b + c) + d)
  {}

  lemma CarryKeeps(w: World, d: Conn)
    requires WorldInv(w) && w.conn.wire <= d.wire
    ensures Carry(w, d).delivered + Unread(Carry(w, d)) == FrameBytes(d.wire)
  {
    var more := d.wire[|w.conn.wire|..];
    var data := if w.reader.Some? then w.reader.value.data else [];
    assert d.wire == w.conn.wire + more;
    FrameBytesAppend(w.conn.wire, more);
    FrameBytesAppend(w.inbound, more);
    Regroup(w.delivered, data, FrameBytes(w.inbound), FrameBytes(more));
  }

  // ----- the invariant over all runs -----

  lemma WriteStepKeeps(w: World, p: seq<byte>, o1: Outcome, o2: Outcome)
    requires WorldInv(w) && Enabled(w, LockedWrite(p, o1, o2))
    ensures WorldInv(Step(w, LockedWrite(p, o1, o2)))
  {
    var d := WriteLocked(w.conn, p, o1, o2).0;
    WriteLockedKeeps(w.conn, p, o1, o2);
    WriteLockedExtends(w.conn, p, o1, o2);
    CarryKeeps(w, d);
  }

  lemma CallbackStepKeeps(w: World, id: nat, o: Outcome)
    requires WorldInv(w) && Enabled(w, TimerCallback(id, o))
    ensures WorldInv(Step(w, TimerCallback(id, o)))
  {
    var c := w.conn.(fired := w.conn.fired - {id});
    CallbackKeeps(w.conn, id, o);
    FlushExtends(c, o, false);
    CarryKeeps(w, Flush(c, o, false).0);
  }

  lemma CloseStepKeeps(w: World, o: Outcome)
    requires WorldInv(w) && Enabled(w, FlushOnClose(o))
    ensures WorldInv(Step(w, FlushOnClose(o)))
  {
    CloseFlushInv(w.conn, o);
    FlushExtends(w.conn, o, false);
    CarryKeeps(w, CloseFlush(w.conn, o));
  }

  lemma InjectStepKeeps(w: World, f: Frame)
    requires WorldInv(w) && Enabled(w, Inject(f))
    ensures WorldInv(Step(w, Inject(f)))
  {
    FrameBytesAppend(w.inbound, [f]);
    assert [f][1..] == [];
    assert Unread(Step(w, Inject(f))) == Unread(w);
  }

  lemma FetchStepKeeps(w: World)
    requires WorldInv(w) && Enabled(w, Fetch)
    ensures WorldInv(Step(w, Fetch))
  {
    assert Unread(Step(w, Fetch)) == Unread(w);
  }

  /** The peer's reader moves bytes from the message to its caller, and loses none. */
  lemma PullStepKeeps(w: World, n: nat, eof: bool)
    requires WorldInv(w) && Enabled(w, Pull(n, eof))
    ensures WorldInv(Step(w, Pull(n, eof)))
  {
    var f := w.reader.value;
    var d := Step(w, Pull(n, eof));
    Regroup(w.delivered, f.data[..n], f.data[n..], FrameBytes(w.inbound));
    assert f.data[..n] + f.data[n..] == f.data;
    assert d.delivered + Unread(d) == w.delivered + Unread(w);
  }

  lemma StepKeeps(w: World, e: Event)
    requires WorldInv(w) && Enabled(w, e)
    ensures WorldInv(Step(w, e))
  {
    match e
    case BeginWrite(p) =>
    case LockedWrite(p, o1, o2) => WriteStepKeeps(w, p, o1, o2);
    case TimerExpires(id) => ExpireKeeps(w.conn, id);
    case TimerCallback(id, o) => CallbackStepKeeps(w, id, o);
    case SetClosed => ClosedInv(w.conn);
    case FlushOnClose(o) => CloseStepKeeps(w, o);
    case SocketClose(err) => CloseSocketInv(w.conn, err);
    case Inject(f) => InjectStepKeeps(w, f);
    case Fetch => FetchStepKeeps(w);
    case Pull(n, eof) => PullStepKeeps(w, n, eof);
  }

  /** Every state of every run keeps the invariant: batching bounds, timers, accounting, delivery. */
  lemma {:induction false} RunKeeps(w: World, es: seq<Event>)
    requires WorldInv(w) && Legal(w, es)
    ensures WorldInv(Run(w, es))
    decreases |es|
  {
    if es != [] {
      StepKeeps(w, es[0]);
      RunKeeps(Step(w, es[0]), es[1..]);
    }
  }

  lemma Reachable(upPack: nat, maxQueue: nat, es: seq<Event>)
    requires upPack > 0 && Legal(Start(upPack, maxQueue), es)
    ensures WorldInv(Run(Start(upPack, maxQueue), es))
  {
    RunKeeps(Start(upPack, maxQueue), es);
  }
}
