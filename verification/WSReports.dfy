/** What a `Write` of `WSNetConn` reports to its caller, and what it does to queue, wire and timer, said in
    terms of the fields (internal/transport/wsconn.go). */
module WSReports {
  import opened Bytes
  import opened WSSpec
  import opened WSRun

  // ----- success means queued or sent -----

  predicate EndsWith(xs: seq<seq<byte>>, p: seq<byte>)
  {
    xs != [] && xs[|xs| - 1] == p
  }

  /** `p` is the last payload of a message handed to the websocket since `c`; `whole` says how it went. */
  predicate LastSent(c: Conn, d: Conn, p: seq<byte>, whole: bool)
  {
    && |d.ledger| > |c.ledger|
    && var e := d.ledger[|d.ledger| - 1];
       e.whole == whole && EndsWith(e.payloads, p)
  }

  /** A `Write` of `p` that led from `c` to `d` reports success exactly when `p` is the end of the queue or
      of a whole message that has just gone out, and then it reports all of `p`; after an error `p` is the
      end of a message that was cut off or dropped, and nothing is queued. */
  predicate Truthful(c: Conn, d: Conn, p: seq<byte>, r: Reply)
  {
    && (r.err.None? <==> EndsWith(d.queue, p) || LastSent(c, d, p, true))
    && (r.err.None? ==> r.n == |p|)
    && (r.err.Some? ==> d.queue == [] && LastSent(c, d, p, false))
  }

  lemma SendLast(c: Conn, b: Conn, group: seq<seq<byte>>, o: Outcome, p: seq<byte>)
    requires EndsWith(group, p) && |b.ledger| >= |c.ledger|
    ensures LastSent(c, Send(b, group, o, true), p, o.Sent?)
  {}

  lemma EnqueueTruthful(c: Conn, b: Conn, p: seq<byte>, o: Outcome)
    requires b.size == |Flat(b.queue)| && p != [] && |b.ledger| >= |c.ledger|
    ensures var (d, r) := Enqueue(b, p, o); Truthful(c, d, p, r)
  {
    var d := Append(b, p);
    assert EndsWith(d.queue, p) && d.size > 0;
    if d.size >= d.upPack && !d.closed {
      SendLast(c, Unqueue(d), d.queue, o, p);
    }
  }

  /** The flush of an over-full queue failed: `p` is refused. */
  lemma RefusedTruthful(c: Conn, b: Conn, p: seq<byte>, e: Error)
    requires b.queue == [] && |b.ledger| >= |c.ledger|
    ensures Truthful(c, b.(ledger := b.ledger + [Entry([p], 0, false, true)]), p, Reply(0, Some(e)))
  {}

  lemma DirectTruthful(c: Conn, b: Conn, p: seq<byte>, o: Outcome)
    requires b.queue == [] && |b.ledger| >= |c.ledger|
    ensures Truthful(c, Send(b, [p], o, true), p, Reply(Reported(o, p), ErrOf(o)))
  {
    SendLast(c, b, [p], o, p);
  }

  lemma LockedTruthful(c: Conn, p: seq<byte>, o1: Outcome, o2: Outcome)
    requires Inv(c) && p != []
    ensures var (d, r) := Locked(c, p, o1, o2); Truthful(c, d, p, r)
  {
    if c.size + |p| > c.maxQueue {
      var (b, e) := Flush(c, o1, false);
      assert b.queue == [] && b.size == |Flat(b.queue)| && |b.ledger| >= |c.ledger| by {
        FlushInv(c, o1, false);
        FlushExtends(c, o1, false);
      }
      if e.Some? {
        RefusedTruthful(c, b, p, e.value);
      } else if TooBig(b, p) {
        DirectTruthful(c, b, p, o2);
      } else {
        EnqueueTruthful(c, b, p, o2);
      }
    } else {
      EnqueueTruthful(c, c, p, o2);
    }
  }

  lemma WriteIsTruthful(c: Conn, p: seq<byte>, o1: Outcome, o2: Outcome)
    requires Inv(c) && p != []
    ensures var (d, r) := WriteLocked(c, p, o1, o2); Truthful(c, d, p, r)
  {
    LockedTruthful(c, p, o1, o2);
  }

  // ----- accepted bytes, over all runs -----

  /** The payloads of a message whose writers were told of success: all of them, but for the last of a
      message that its own writer saw fail. */
  function Promise(e: Entry): seq<seq<byte>>
  {
    if e.whole || !e.own || e.payloads == [] then e.payloads else e.payloads[..|e.payloads| - 1]
  }

  function Promised(l: seq<Entry>): (r: seq<seq<byte>>)
  {
    if l == [] then [] else Promise(l[0]) + Promised(l[1..])
  }

  lemma {:induction false} PromisedSnoc(a: seq<Entry>, e: Entry)
    ensures Promised(a + [e]) == Promised(a) + Promise(e)
  {
    if a == [] {
      assert a + [e] == [e] && [e][1..] == [];
    } else {
      assert (a + [e])[1..] == a[1..] + [e];
      PromisedSnoc(a[1..], e);
    }
  }

  function Kept(c: Conn): seq<seq<byte>>
  {
    Promised(c.ledger) + c.queue
  }

  lemma SendKept(c: Conn, group: seq<seq<byte>>, o: Outcome, own: bool)
    requires c.queue == [] && group != []
    ensures Kept(Send(c, group, o, own)) ==
              Promised(c.ledger) + if o.Sent? || !own then group else group[..|group| - 1]
  {
    PromisedSnoc(c.ledger, Entry(group, Reached(o, Flat(group)), o.Sent?, own));
  }

  lemma FlushKept(c: Conn, o: Outcome, own: bool)
    requires c.size == |Flat(c.queue)| && AllNonEmpty(c.queue)
    ensures var (d, e) := Flush(c, o, own);
            && (e.Some? ==> c.queue != [])
            && Kept(d) == Promised(c.ledger) + if e.None? || !own then c.queue else c.queue[..|c.queue| - 1]
  {
    FlatNonEmpty(c.queue);
    if c.size > 0 && c.closed {
      PromisedSnoc(c.ledger, Entry(c.queue, 0, false, own));
    } else if c.size > 0 {
      SendKept(Unqueue(c), c.queue, o, own);
    }
  }

  function Told(r: Reply, p: seq<byte>): seq<seq<byte>>
  {
    if r.err.None? then [p] else []
  }

  lemma EnqueueKept(c: Conn, p: seq<byte>, o: Outcome)
    requires c.size == |Flat(c.queue)| && AllNonEmpty(c.queue) && p != []
    ensures var (d, r) := Enqueue(c, p, o); Kept(d) == Kept(c) + Told(r, p)
  {
    FlatSnoc(c.queue, p);
    FlushKept(Append(c, p), o, true);
    assert Append(c, p).queue[..|c.queue|] == c.queue;
    assert Promised(c.ledger) + (c.queue + [p]) == Kept(c) + [p];
  }

  lemma LockedKept(c: Conn, p: seq<byte>, o1: Outcome, o2: Outcome)
    requires Inv(c) && p != []
    ensures var (d, r) := Locked(c, p, o1, o2); Kept(d) == Kept(c) + Told(r, p)
  {
    if c.size + |p| > c.maxQueue {
      var (d, e) := Flush(c, o1, false);
      FlushInv(c, o1, false);
      FlushKept(c, o1, false);
      if e.Some? {
        PromisedSnoc(d.ledger, Entry([p], 0, false, true));
      } else if TooBig(d, p) {
        SendKept(d, [p], o2, true);
      } else {
        EnqueueKept(d, p, o2);
      }
    } else {
      EnqueueKept(c, p, o2);
    }
  }

  lemma StepKept(w: World, e: Event)
    requires WorldInv(w) && Enabled(w, e) && Kept(w.conn) == w.conn.accepted
    ensures Kept(Step(w, e).conn) == Step(w, e).conn.accepted
  {
    match e
    case LockedWrite(p, o1, o2) =>
      LockedKept(w.conn, p, o1, o2);
      LockedExtends(w.conn, p, o1, o2);
    case TimerCallback(id, o) =>
      var c := w.conn.(fired := w.conn.fired - {id});
      FlushKept(c, o, false);
      FlushExtends(c, o, false);
    case FlushOnClose(o) =>
      FlushKept(w.conn, o, false);
      FlushExtends(w.conn, o, false);
    case _ =>
  }

  lemma {:induction false} RunKept(w: World, es: seq<Event>)
    requires WorldInv(w) && Legal(w, es) && Kept(w.conn) == w.conn.accepted
    ensures Kept(Run(w, es).conn) == Run(w, es).conn.accepted
    decreases |es|
  {
    if es != [] {
      StepKept(w, es[0]);
      StepKeeps(w, es[0]);
      RunKept(Step(w, es[0]), es[1..]);
    }
  }

  /** In every interleaving, with failures and closes: the payloads whose `Write` reported success are, in
      order, all that were handed in, except those that were last in a message which their own `Write` saw
      cut off or dropped. So each of them is queued, or went out in a whole message, or was in the queue
      when a later flush lost it, to a failure or after `closed`. */
  lemma AcceptedIsKept(upPack: nat, maxQueue: nat, es: seq<Event>)
    requires upPack > 0 && Legal(Start(upPack, maxQueue), es)
    ensures var c := Run(Start(upPack, maxQueue), es).conn;
            && c.accepted == Promised(c.ledger) + c.queue
            && c.handed == Payloads(c.ledger) + c.queue
            && ((exists i :: 0 <= i < |c.ledger| && !c.ledger[i].whole) ==> c.closed || c.broken)
  {
    InitInv(upPack, maxQueue);
    RunKept(Start(upPack, maxQueue), es);
    Reachable(upPack, maxQueue, es);
  }

  // ----- an open connection, case by case -----

  /** The error is reported dead, unless an earlier one was. */
  predicate Blamed(c: Conn, d: Conn, e: Error)
  {
    d.broken && d.dead && d.deadErr == if c.deadErr.Some? then c.deadErr else Some(e)
  }

  /** A fresh timer, and no other one, is running. */
  predicate Restarted(c: Conn, d: Conn)
  {
    d.timer.Some? && d.timer.value !in c.armed && d.timer.value !in c.fired && d.armed == {d.timer.value}
  }

  /** A message `m` in answer to the write of `p`, behind what `wire` has: `k` bytes are reported if it fails. */
  predicate Sends(c: Conn, d: Conn, p: seq<byte>, r: Reply, wire: seq<Frame>, m: seq<byte>, o: Outcome, k: nat)
  {
    && d.queue == [] && d.timer == None
    && if o.Sent? then d.wire == wire + [Binary(m)] && r == Reply(|p|, None) && d.deadErr == c.deadErr
       else r == Reply(k, Some(o.err)) && Blamed(c, d, o.err)
  }

  /** What a failing NextWriter / Write / Close says it has written of `p`. */
  function Claimed(o: Outcome, p: seq<byte>): nat
  {
    match o
    case Sent => |p|
    case NoWriter(_) => 0
    case ShortWrite(_, n, _) => if n <= |p| then n else |p|
    case NotFinished(_, _) => |p|
  }

  /** With `queue` left to join: past the queue, as one message with it, or into it. */
  predicate Joins(c: Conn, d: Conn, p: seq<byte>, r: Reply, queue: seq<seq<byte>>, wire: seq<Frame>,
                  over: bool, o: Outcome)
  {
    if over && (|p| >= c.upPack || |p| > c.maxQueue) then Sends(c, d, p, r, wire, p, o, Claimed(o, p))
    else if |Flat(queue)| + |p| >= c.upPack then Sends(c, d, p, r, wire, Flat(queue) + p, o, 0)
    else d.wire == wire && d.queue == queue + [p] && r == Reply(|p|, None) && Restarted(c, d) && d.deadErr == c.deadErr
  }

  /** A payload that would overfill the queue sends the queue first. */
  predicate Behaves(c: Conn, d: Conn, p: seq<byte>, r: Reply, o1: Outcome, o2: Outcome)
  {
    var over := |Flat(c.queue)| + |p| > c.maxQueue;
    if !over then Joins(c, d, p, r, c.queue, c.wire, false, o2)
    else if c.queue == [] then Joins(c, d, p, r, [], c.wire, true, o2)
    else if o1.Sent? then Joins(c, d, p, r, [], c.wire + [Binary(Flat(c.queue))], true, o2)
    else d.queue == [] && d.timer == None && r == Reply(0, Some(o1.err)) && Blamed(c, d, o1.err)
  }

  lemma EnqueueJoins(c: Conn, b: Conn, p: seq<byte>, o: Outcome)
    requires Inv(b) && !b.closed && p != [] && b.size + |p| <= b.maxQueue
    requires b.upPack == c.upPack && b.maxQueue == c.maxQueue && b.deadErr == c.deadErr
    requires b.armed <= c.armed && b.fired == c.fired && b.nextTimer == c.nextTimer && TimersOk(c)
    ensures var (d, r) := Enqueue(b, p, o); Joins(c, d, p, r, b.queue, b.wire, false, o)
  {
    FlatSnoc(b.queue, p);
    var d := Append(b, p);
    if d.size < d.upPack {
      assert Rearm(d).armed == {d.nextTimer};
    }
  }

  lemma LockedBehaves(c: Conn, p: seq<byte>, o1: Outcome, o2: Outcome)
    requires Inv(c) && p != [] && !c.closed
    ensures var (d, r) := Locked(c, p, o1, o2); Behaves(c, d, p, r, o1, o2)
  {
    if c.size + |p| > c.maxQueue {
      var (b, e) := Flush(c, o1, false);
      FlushInv(c, o1, false);
      FlatNonEmpty(c.queue);
      if e.None? && TooBig(b, p) {
        FlatOne(p);
      } else if e.None? {
        EnqueueJoins(c, b, p, o2);
      }
    } else {
      EnqueueJoins(c, c, p, o2);
    }
  }

  lemma WriteBehaves(c: Conn, p: seq<byte>, o1: Outcome, o2: Outcome)
    requires Inv(c) && p != [] && !c.closed
    ensures var (d, r) := WriteLocked(c, p, o1, o2); Behaves(c, d, p, r, o1, o2)
  {
    LockedBehaves(c, p, o1, o2);
  }
}
