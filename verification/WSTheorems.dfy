/** What `WSNetConn` promises, over every run of `WSRun`. */
module WSTheorems {
  import opened Bytes
  import opened WSSpec
  import opened WSRun

  // ----- the pipe -----

  lemma {:induction false} WholeLedger(q: nat, l: seq<Entry>)
    requires InRange(l) && !Flawed(l) && LedgerOk(q, l)
    ensures SentBytes(l) == Flat(Payloads(l))
  {
    if l != [] {
      assert !Flawed(l[1..]) by {
        assert forall i :: 0 <= i < |l[1..]| ==> l[1..][i] == l[i + 1];
      }
      WholeLedger(q, l[1..]);
      FlatAppend(l[0].payloads, Payloads(l[1..]));
      assert l[0].whole;
    }
  }

  lemma OpenWire(w: World)
    requires WorldInv(w) && !w.conn.closed && !w.conn.broken
    ensures FrameBytes(w.conn.wire) + Flat(w.conn.queue) == Flat(w.conn.accepted)
  {
    WireCarriesSent(w.conn.maxQueue, w.conn.ledger);
    WholeLedger(w.conn.maxQueue, w.conn.ledger);
    FlatAppend(Payloads(w.conn.ledger), w.conn.queue);
  }

  /** A pair of endpoints is a byte pipe: until the socket fails or `Close` is called, what the
      peer has read, what is unread in flight and what is queued are together exactly the bytes
      that `Write` accepted, in order. */
  lemma EndToEnd(upPack: nat, maxQueue: nat, es: seq<Event>)
    requires upPack > 0 && Legal(Start(upPack, maxQueue), es)
    ensures var w := Run(Start(upPack, maxQueue), es);
            !w.conn.closed && !w.conn.broken ==>
              w.delivered + Unread(w) + Flat(w.conn.queue) == Flat(w.conn.accepted)
  {
    Reachable(upPack, maxQueue, es);
    var w := Run(Start(upPack, maxQueue), es);
    if !w.conn.closed && !w.conn.broken {
      OpenWire(w);
    }
  }

  // ----- batching -----

  function Join(groups: seq<seq<seq<byte>>>): seq<seq<byte>>
  {
    if groups == [] then [] else groups[0] + Join(groups[1..])
  }

  function Messages(groups: seq<seq<seq<byte>>>): seq<Frame>
  {
    if groups == [] then [] else [Binary(Flat(groups[0]))] + Messages(groups[1..])
  }

  function Groups(l: seq<Entry>): (g: seq<seq<seq<byte>>>)
    ensures |g| == |l| && forall i :: 0 <= i < |l| ==> g[i] == l[i].payloads
  {
    if l == [] then [] else [l[0].payloads] + Groups(l[1..])
  }

  lemma {:induction false} GroupsJoin(l: seq<Entry>)
    ensures Join(Groups(l)) == Payloads(l)
  {
    if l != [] {
      GroupsJoin(l[1..]);
      assert Groups(l)[1..] == Groups(l[1..]);
    }
  }

  lemma {:induction false} GroupsAreMessages(l: seq<Entry>)
    requires InRange(l) && !Flawed(l)
    ensures Messages(Groups(l)) == Frames(l)
  {
    if l != [] {
      assert !Flawed(l[1..]) by {
        assert forall i :: 0 <= i < |l[1..]| ==> l[1..][i] == l[i + 1];
      }
      GroupsAreMessages(l[1..]);
      assert l[0].whole;
      assert Groups(l)[1..] == Groups(l[1..]);
    }
  }

  /** In every reachable state what was handed to `Write` is a contiguous regrouping of whole payloads,
      in order, followed by the queue; no group is empty, and each holds at most `maxQueue` bytes or
      exactly one payload; the queue is within its bounds. Each group went out as one message, was cut
      off or was lost, as its ledger entry says - as one message each until a failure or a `Close`. */
  lemma Batching(upPack: nat, maxQueue: nat, es: seq<Event>) returns (groups: seq<seq<seq<byte>>>)
    requires upPack > 0 && Legal(Start(upPack, maxQueue), es)
    ensures var c := Run(Start(upPack, maxQueue), es).conn;
            && Join(groups) + c.queue == c.handed
            && (forall g :: g in groups ==> Flat(g) != [] && (|Flat(g)| <= maxQueue || |g| == 1))
            && c.size == |Flat(c.queue)| && c.size < upPack && c.size <= maxQueue
            && groups == Groups(c.ledger) && InRange(c.ledger) && c.wire == Frames(c.ledger)
            && (!c.closed && !c.broken ==> c.wire == Messages(groups) && c.handed == c.accepted)
  {
    Reachable(upPack, maxQueue, es);
    BoundsFixed(Start(upPack, maxQueue), es);
    var c := Run(Start(upPack, maxQueue), es).conn;
    GroupsJoin(c.ledger);
    groups := Groups(c.ledger);
    if !c.closed && !c.broken {
      GroupsAreMessages(c.ledger);
    }
    forall g | g in groups
      ensures Flat(g) != [] && (|Flat(g)| <= maxQueue || |g| == 1)
    {
      var i :| 0 <= i < |c.ledger| && c.ledger[i].payloads == g;
      assert EntryOk(c.maxQueue, c.ledger[i]);
      FlatNonEmpty(g);
    }
  }

  lemma StepBounds(w: World, e: Event)
    requires Enabled(w, e)
    ensures Step(w, e).conn.upPack == w.conn.upPack && Step(w, e).conn.maxQueue == w.conn.maxQueue
    ensures w.conn.closed ==> Step(w, e).conn.closed
  {
    match e
    case LockedWrite(p, o1, o2) => WriteLockedExtends(w.conn, p, o1, o2);
    case TimerCallback(id, o) => FlushExtends(w.conn.(fired := w.conn.fired - {id}), o, false);
    case FlushOnClose(o) => FlushExtends(w.conn, o, false);
    case _ =>
  }

  lemma {:induction false} BoundsFixed(w: World, es: seq<Event>)
    requires Legal(w, es)
    ensures Run(w, es).conn.upPack == w.conn.upPack && Run(w, es).conn.maxQueue == w.conn.maxQueue
    decreases |es|
  {
    if es != [] {
      StepBounds(w, es[0]);
      BoundsFixed(Step(w, es[0]), es[1..]);
    }
  }

  // ----- no stranded bytes -----

  /** In every reachable state, bytes wait in the queue exactly when a timer is set, and that timer
      is either still armed or has a callback waiting for the lock. */
  lemma NoStrandedBytes(upPack: nat, maxQueue: nat, es: seq<Event>)
    requires upPack > 0 && Legal(Start(upPack, maxQueue), es)
    ensures var c := Run(Start(upPack, maxQueue), es).conn;
            && (c.queue != [] <==> c.timer.Some?)
            && (c.timer.Some? ==> c.timer.value in c.armed || c.timer.value in c.fired)
  {
    Reachable(upPack, maxQueue, es);
    FlatNonEmpty(Run(Start(upPack, maxQueue), es).conn.queue);
  }

  /** A run that starts with `e` goes on from the state after `e`. */
  lemma RunCons(w: World, e: Event, es: seq<Event>)
    requires Enabled(w, e) && Legal(Step(w, e), es)
    ensures Legal(w, [e] + es) && Run(w, [e] + es) == Run(Step(w, e), es)
  {
    var all := [e] + es;
    assert all[0] == e && all[1..] == es;
  }

  lemma CallbackDrains(w: World, id: nat)
    requires WorldInv(w) && !w.conn.closed && !w.conn.broken && w.conn.queue != [] && id in w.conn.fired
    ensures var d := Step(w, TimerCallback(id, Sent));
            d.conn.queue == [] && d.conn.timer == None
            && FrameBytes(d.conn.wire) == Flat(d.conn.accepted) && d.conn.accepted == w.conn.accepted
  {
    var d := Step(w, TimerCallback(id, Sent));
    var c := w.conn.(fired := w.conn.fired - {id});
    StepKeeps(w, TimerCallback(id, Sent));
    FlatNonEmpty(c.queue);
    FlushExtends(c, Sent, false);
    SendExtends(Unqueue(c), c.queue, Sent, false);
    OpenWire(d);
    assert d.conn.queue == [] && FrameBytes(d.conn.wire) + [] == FrameBytes(d.conn.wire);
  }

  /** Letting just that timer run, whatever stale callbacks are still about, sends everything queued. */
  lemma TimerDrains(w: World) returns (es: seq<Event>)
    requires WorldInv(w) && !w.conn.closed && !w.conn.broken && w.conn.queue != []
    ensures w.conn.timer.Some? && Legal(w, es)
    ensures var id := w.conn.timer.value;
            es == [TimerExpires(id), TimerCallback(id, Sent)] || es == [TimerCallback(id, Sent)]
    ensures var d := Run(w, es);
            d.conn.queue == [] && d.conn.timer == None
            && FrameBytes(d.conn.wire) == Flat(d.conn.accepted) && d.conn.accepted == w.conn.accepted
  {
    FlatNonEmpty(w.conn.queue);
    var id := w.conn.timer.value;
    var fire := TimerCallback(id, Sent);
    if id in w.conn.armed {
      var expire := TimerExpires(id);
      StepKeeps(w, expire);
      RunCons(Step(w, expire), fire, []);
      RunCons(w, expire, [fire] + []);
      CallbackDrains(Step(w, expire), id);
      es := [expire] + ([fire] + []);
    } else {
      RunCons(w, fire, []);
      CallbackDrains(w, id);
      es := [fire] + [];
    }
  }

  // ----- failure and close: is the wire a prefix of what was handed in? -----

  predicate LossyEntry(e: Entry)
  {
    e.reached < |Flat(e.payloads)|
  }

  /** Nothing reached the wire after something failed to. */
  predicate GapFree(l: seq<Entry>)
  {
    forall i, j :: 0 <= i < j < |l| && l[j].reached > 0 ==> !LossyEntry(l[i])
  }

  lemma GapFreeSnoc(l: seq<Entry>, e: Entry)
    ensures GapFree(l + [e]) <==> GapFree(l) && (e.reached > 0 ==> !Lossy(l))
  {
    var m := l + [e];
    assert m[|l|] == e && forall i :: 0 <= i < |l| ==> m[i] == l[i];
    if GapFree(m) {
      assert forall i, j :: 0 <= i < j < |l| && l[j].reached > 0 ==> m[j].reached > 0 && !LossyEntry(m[i]);
      assert e.reached > 0 ==> forall i :: 0 <= i < |l| ==> !LossyEntry(m[i]) && m[i] == l[i];
    }
    if GapFree(l) && (e.reached > 0 ==> !Lossy(l)) {
      forall i, j | 0 <= i < j < |m| && m[j].reached > 0
        ensures !LossyEntry(m[i])
      {
        if j == |l| {
          assert !(l[i].reached < |Flat(l[i].payloads)|);
        } else {
          assert l[j].reached > 0;
        }
      }
    }
  }

  /** A gap-free ledger puts a prefix of the payloads on the wire. */
  lemma {:induction false} GapFreePrefix(q: nat, l: seq<Entry>)
    requires InRange(l) && GapFree(l) && LedgerOk(q, l)
    ensures SentBytes(l) <= Flat(Payloads(l))
    ensures !Lossy(l) ==> SentBytes(l) == Flat(Payloads(l))
  {
    if l != [] {
      var n := |l| - 1;
      var init, e := l[..n], l[n];
      assert l == init + [e];
      GapFreeSnoc(init, e);
      LedgerSnoc(init, e);
      GapFreePrefix(q, init);
      FlatAppend(Payloads(init), e.payloads);
      if e.reached > 0 {
        assert SentBytes(init) == Flat(Payloads(init));
      }
    }
  }

  /** The one step that leaves a gap: a payload above `maxQueue`, whose writer had passed the
      `closed` test before `Close`, goes straight to the wire after queued bytes were dropped. */
  predicate LateDirect(w: World, e: Event)
  {
    e.LockedWrite? && w.conn.closed && w.conn.queue == [] && |e.p| > w.conn.maxQueue
    && Lossy(w.conn.ledger) && Reached(e.o2, e.p) > 0
  }

  predicate Late(w: World, es: seq<Event>)
    requires Legal(w, es)
    decreases |es|
  {
    es != [] && (LateDirect(w, es[0]) || Late(Step(w, es[0]), es[1..]))
  }

  lemma LossyIsFlawed(c: Conn)
    requires Inv(c)
    ensures Lossy(c.ledger) ==> Flawed(c.ledger)
  {
    if Lossy(c.ledger) {
      var i :| 0 <= i < |c.ledger| && c.ledger[i].reached < |Flat(c.ledger[i].payloads)|;
      assert EntryOk(c.maxQueue, c.ledger[i]) && !c.ledger[i].whole;
    }
  }

  lemma SendGap(c: Conn, group: seq<seq<byte>>, o: Outcome, own: bool)
    requires Possible(c, Flat(group), o) && (Lossy(c.ledger) ==> c.closed || c.broken)
    ensures GapFree(Send(c, group, o, own).ledger) <==>
              GapFree(c.ledger) && !(Reached(o, Flat(group)) > 0 && c.closed && Lossy(c.ledger))
  {
    GapFreeSnoc(c.ledger, Entry(group, Reached(o, Flat(group)), o.Sent?, own));
  }

  lemma FlushGap(c: Conn, o: Outcome, own: bool)
    requires Possible(c, Flat(c.queue), o) && (Lossy(c.ledger) ==> c.closed || c.broken)
    ensures GapFree(Flush(c, o, own).0.ledger) <==> GapFree(c.ledger)
  {
    SendGap(Unqueue(c), c.queue, o, own);
    GapFreeSnoc(c.ledger, Entry(c.queue, 0, false, own));
  }

  lemma EnqueueGap(c: Conn, p: seq<byte>, o: Outcome)
    requires Possible(c, Flat(c.queue + [p]), o) && (Lossy(c.ledger) ==> c.closed || c.broken)
    ensures GapFree(Enqueue(c, p, o).0.ledger) <==> GapFree(c.ledger)
  {
    FlushGap(Append(c, p), o, true);
  }

  lemma WriteGap(w: World, p: seq<byte>, o1: Outcome, o2: Outcome)
    requires WorldInv(w) && Enabled(w, LockedWrite(p, o1, o2))
    ensures GapFree(WriteLocked(w.conn, p, o1, o2).0.ledger) <==>
              GapFree(w.conn.ledger) && !LateDirect(w, LockedWrite(p, o1, o2))
  {
    var c := w.conn;
    var d := Flush(c, o1, false).0;
    FlatOne(p);
    FlatNonEmpty(c.queue);
    LossyIsFlawed(c);
    if c.size + |p| > c.maxQueue {
      FlushInv(c, o1, false);
      FlushExtends(c, o1, false);
      LossyIsFlawed(d);
      FlushGap(c, o1, false);
      if Flush(c, o1, false).1.Some? {
        GapFreeSnoc(d.ledger, Entry([p], 0, false, true));
      } else if TooBig(d, p) {
        SendGap(d, [p], o2, true);
      } else {
        EnqueueGap(d, p, o2);
      }
    } else {
      EnqueueGap(c, p, o2);
    }
  }

  lemma StepGap(w: World, e: Event)
    requires WorldInv(w) && Enabled(w, e)
    ensures GapFree(Step(w, e).conn.ledger) <==> GapFree(w.conn.ledger) && !LateDirect(w, e)
  {
    LossyIsFlawed(w.conn);
    match e
    case LockedWrite(p, o1, o2) => WriteGap(w, p, o1, o2);
    case TimerCallback(id, o) => FlushGap(w.conn.(fired := w.conn.fired - {id}), o, false);
    case FlushOnClose(o) =>
      assert w.conn.closed;
      GapFreeSnoc(w.conn.ledger, Entry(w.conn.queue, 0, false, false));
    case _ =>
  }

  /** Exactly when a run keeps the wire gap-free, in every interleaving, with failures and closes. */
  lemma {:induction false} GapFreeIffNoLateDirect(w: World, es: seq<Event>)
    requires WorldInv(w) && Legal(w, es) && GapFree(w.conn.ledger)
    ensures GapFree(Run(w, es).conn.ledger) <==> !Late(w, es)
    decreases |es|
  {
    if es != [] {
      StepGap(w, es[0]);
      StepKeeps(w, es[0]);
      if LateDirect(w, es[0]) {
        GapStays(Step(w, es[0]), es[1..]);
      } else {
        GapFreeIffNoLateDirect(Step(w, es[0]), es[1..]);
      }
    }
  }

  lemma {:induction false} GapStays(w: World, es: seq<Event>)
    requires WorldInv(w) && Legal(w, es) && !GapFree(w.conn.ledger)
    ensures !GapFree(Run(w, es).conn.ledger)
    decreases |es|
  {
    if es != [] {
      StepGap(w, es[0]);
      StepKeeps(w, es[0]);
      GapStays(Step(w, es[0]), es[1..]);
    }
  }

  /** Prefix safety: without a late direct write, the bytes the peer has read or can still read are a
      prefix of the bytes handed to `Write`, whatever failed and whenever `Close` came. */
  lemma PrefixSafety(upPack: nat, maxQueue: nat, es: seq<Event>)
    requires upPack > 0 && Legal(Start(upPack, maxQueue), es) && !Late(Start(upPack, maxQueue), es)
    ensures var w := Run(Start(upPack, maxQueue), es);
            w.delivered <= w.delivered + Unread(w) <= Flat(w.conn.handed)
  {
    Reachable(upPack, maxQueue, es);
    GapFreeIffNoLateDirect(Start(upPack, maxQueue), es);
    var w := Run(Start(upPack, maxQueue), es);
    WireCarriesSent(w.conn.maxQueue, w.conn.ledger);
    GapFreePrefix(w.conn.maxQueue, w.conn.ledger);
    FlatPrefix(Payloads(w.conn.ledger), w.conn.handed);
  }

  // ----- the gap without failures -----

  /** The websocket fails only once it has been closed. */
  predicate Sound(w: World, es: seq<Event>)
    requires Legal(w, es)
    decreases |es|
  {
    es != [] ==> (w.conn.broken || AllSent(es[0])) && Sound(Step(w, es[0]), es[1..])
  }

  predicate AllSent(e: Event)
  {
    match e
    case LockedWrite(_, o1, o2) => o1.Sent? && o2.Sent?
    case TimerCallback(_, o) => o.Sent?
    case FlushOnClose(o) => o.Sent?
    case _ => true
  }

  /** A flush after `closed` was set finds something in the queue, and drops it: the flush of `Close`, a
      timer's, or that of a late writer whose payload would overfill the queue or fills it. */
  predicate DropsQueue(w: World, e: Event)
  {
    w.conn.closed
    && match e
       case TimerCallback(_, _) => w.conn.queue != []
       case FlushOnClose(_) => w.conn.queue != []
       case LockedWrite(p, _, _) =>
         if w.conn.size + |p| > w.conn.maxQueue then w.conn.queue != [] else w.conn.size + |p| >= w.conn.upPack
       case _ => false
  }

  /** A late writer finds the queue empty and the socket still open, with a payload above `maxQueue`. */
  predicate LateLarge(w: World, e: Event)
  {
    e.LockedWrite? && w.conn.closed && !w.conn.broken && w.conn.queue == [] && |e.p| > w.conn.maxQueue
  }

  /** Such a payload comes after such a drop; `dropped` says that one has happened already. */
  predicate DropThenLarge(w: World, dropped: bool, es: seq<Event>)
    requires Legal(w, es)
    decreases |es|
  {
    es != [] && ((dropped && LateLarge(w, es[0]))
                 || DropThenLarge(Step(w, es[0]), dropped || DropsQueue(w, es[0]), es[1..]))
  }

  lemma SendLossy(c: Conn, group: seq<seq<byte>>, own: bool)
    ensures Lossy(Send(c, group, Sent, own).ledger) <==> Lossy(c.ledger)
    ensures Send(c, group, Sent, own).broken == c.broken
  {
    LedgerSnocOk(c.maxQueue, c.ledger, Entry(group, |Flat(group)|, true, own));
  }

  lemma FlushLossy(c: Conn, own: bool)
    requires c.size == |Flat(c.queue)| && AllNonEmpty(c.queue)
    ensures Lossy(Flush(c, Sent, own).0.ledger) <==> Lossy(c.ledger) || (c.closed && c.queue != [])
    ensures Flush(c, Sent, own).0.broken == c.broken
  {
    FlatNonEmpty(c.queue);
    SendLossy(Unqueue(c), c.queue, own);
    LedgerSnocOk(c.maxQueue, c.ledger, Entry(c.queue, 0, false, own));
  }

  lemma EnqueueLossy(c: Conn, p: seq<byte>)
    requires c.size == |Flat(c.queue)| && AllNonEmpty(c.queue) && p != []
    ensures var d := Enqueue(c, p, Sent).0;
            && (Lossy(d.ledger) <==> Lossy(c.ledger) || (c.closed && c.size + |p| >= c.upPack))
            && d.broken == c.broken
  {
    FlatSnoc(c.queue, p);
    FlushLossy(Append(c, p), true);
  }

  lemma WriteLossy(w: World, p: seq<byte>)
    requires Inv(w.conn) && p != []
    ensures var d := WriteLocked(w.conn, p, Sent, Sent).0;
            && (Lossy(d.ledger) <==> Lossy(w.conn.ledger) || DropsQueue(w, LockedWrite(p, Sent, Sent)))
            && d.broken == w.conn.broken
  {
    var c := w.conn;
    if c.size + |p| > c.maxQueue {
      var (d, e) := Flush(c, Sent, false);
      FlushInv(c, Sent, false);
      FlushLossy(c, false);
      FlatNonEmpty(c.queue);
      if e.Some? {
        LedgerSnocOk(d.maxQueue, d.ledger, Entry([p], 0, false, true));
      } else if TooBig(d, p) {
        SendLossy(d, [p], true);
      } else {
        EnqueueLossy(d, p);
      }
    } else {
      EnqueueLossy(c, p);
    }
  }

  /** On a working socket bytes are lost exactly in a drop. */
  lemma StepLossy(w: World, e: Event)
    requires WorldInv(w) && Enabled(w, e) && AllSent(e) && !w.conn.broken
    ensures Lossy(Step(w, e).conn.ledger) <==> Lossy(w.conn.ledger) || DropsQueue(w, e)
  {
    match e
    case LockedWrite(p, o1, o2) => WriteLossy(w, p);
    case TimerCallback(id, o) => FlushLossy(w.conn.(fired := w.conn.fired - {id}), false);
    case FlushOnClose(o) => FlushLossy(w.conn, false);
    case _ =>
  }

  lemma LateIsLarge(w: World, e: Event)
    requires WorldInv(w) && Enabled(w, e) && (w.conn.broken || AllSent(e))
    ensures LateDirect(w, e) <==> Lossy(w.conn.ledger) && LateLarge(w, e)
  {
    if e.LockedWrite? && w.conn.queue == [] && |e.p| > w.conn.maxQueue {
      FlatNonEmpty(w.conn.queue);
      assert Direct(w.conn, e.p);
    }
  }

  lemma StaysBroken(w: World, e: Event)
    requires Enabled(w, e) && w.conn.broken
    ensures Step(w, e).conn.broken
  {
    match e
    case LockedWrite(p, o1, o2) => WriteLockedExtends(w.conn, p, o1, o2);
    case TimerCallback(id, o) => FlushExtends(w.conn.(fired := w.conn.fired - {id}), o, false);
    case FlushOnClose(o) => FlushExtends(w.conn, o, false);
    case _ =>
  }

  /** After the socket is gone neither form of the step can happen any more. */
  lemma {:induction false} BrokenIsSafe(w: World, dropped: bool, es: seq<Event>)
    requires Legal(w, es) && WorldInv(w) && w.conn.broken && Sound(w, es)
    ensures !Late(w, es) && !DropThenLarge(w, dropped, es)
    decreases |es|
  {
    if es != [] {
      LateIsLarge(w, es[0]);
      StepKeeps(w, es[0]);
      StaysBroken(w, es[0]);
      BrokenIsSafe(Step(w, es[0]), dropped || DropsQueue(w, es[0]), es[1..]);
    }
  }

  lemma {:induction false} LateIffDropThenLarge(w: World, es: seq<Event>)
    requires Legal(w, es) && WorldInv(w) && Sound(w, es)
    ensures Late(w, es) <==> DropThenLarge(w, Lossy(w.conn.ledger), es)
    decreases |es|
  {
    if w.conn.broken {
      BrokenIsSafe(w, Lossy(w.conn.ledger), es);
    } else if es != [] {
      LateIsLarge(w, es[0]);
      StepLossy(w, es[0]);
      StepKeeps(w, es[0]);
      LateIffDropThenLarge(Step(w, es[0]), es[1..]);
    }
  }

  /** Without failures, in every interleaving: something reaches the wire behind lost bytes if and only
      if a flush after `closed` dropped a queue and a late payload above `maxQueue` came after it. */
  lemma GapIffDropThenLarge(upPack: nat, maxQueue: nat, es: seq<Event>)
    requires upPack > 0 && Legal(Start(upPack, maxQueue), es) && Sound(Start(upPack, maxQueue), es)
    ensures GapFree(Run(Start(upPack, maxQueue), es).conn.ledger) <==>
              !DropThenLarge(Start(upPack, maxQueue), false, es)
  {
    InitInv(upPack, maxQueue);
    GapFreeIffNoLateDirect(Start(upPack, maxQueue), es);
    LateIffDropThenLarge(Start(upPack, maxQueue), es);
  }

  // ----- when it cannot happen, and that it does -----

  /** Payloads no larger than `maxQueue` never leave a gap. */
  predicate SmallWrites(es: seq<Event>, maxQueue: nat)
  {
    forall i :: 0 <= i < |es| && es[i].LockedWrite? ==> |es[i].p| <= maxQueue
  }

  lemma {:induction false} SmallWritesAreSafe(w: World, es: seq<Event>)
    requires Legal(w, es) && SmallWrites(es, w.conn.maxQueue)
    ensures !Late(w, es)
    decreases |es|
  {
    if es != [] {
      StepBounds(w, es[0]);
      assert forall i :: 0 <= i < |es[1..]| ==> es[1..][i] == es[i + 1];
      SmallWritesAreSafe(Step(w, es[0]), es[1..]);
    }
  }

  /** `Close` never overlaps a `Write`: every call is one atomic step. */
  predicate QuietClose(w: World, es: seq<Event>)
    requires Legal(w, es)
    decreases |es|
  {
    es != [] ==> (es[0].SetClosed? ==> w.writers == multiset{}) && QuietClose(Step(w, es[0]), es[1..])
  }

  lemma {:induction false} AtomicCallsAreSafe(w: World, es: seq<Event>)
    requires Legal(w, es) && QuietClose(w, es) && (w.conn.closed ==> w.writers == multiset{})
    ensures !Late(w, es)
    decreases |es|
  {
    if es != [] {
      var e := es[0];
      if e.LockedWrite? {
        WriteLockedExtends(w.conn, e.p, e.o1, e.o2);
      } else if e.TimerCallback? {
        FlushExtends(w.conn.(fired := w.conn.fired - {e.id}), e.o, false);
      } else if e.FlushOnClose? {
        FlushExtends(w.conn, e.o, false);
      }
      AtomicCallsAreSafe(Step(w, e), es[1..]);
    }
  }

  /** A `Close` that overlaps no `Write` loses exactly the queue it found, less than `upPack` bytes:
      whatever still happens, the wire carries all the rest and nothing more is handed in. */
  lemma CloseLosesTheQueue(w: World, after: seq<Event>)
    requires WorldInv(w) && !w.conn.closed && !w.conn.broken && w.writers == multiset{}
    requires Legal(Step(w, SetClosed), after)
    ensures var d := Run(Step(w, SetClosed), after);
            && d.delivered + Unread(d) + Flat(w.conn.queue) == Flat(d.conn.handed)
            && d.conn.handed == w.conn.accepted && |Flat(w.conn.queue)| < w.conn.upPack
  {
    var v := Step(w, SetClosed);
    var d := Run(v, after);
    StepKeeps(w, SetClosed);
    RunKeeps(v, after);
    ClosedSendsNothing(v, after);
    WireCarriesSent(d.conn.maxQueue, d.conn.ledger);
    WholeLedger(w.conn.maxQueue, w.conn.ledger);
    FlatAppend(Payloads(w.conn.ledger), w.conn.queue);
  }

  lemma {:induction false} ClosedSendsNothing(w: World, es: seq<Event>)
    requires WorldInv(w) && w.conn.closed && w.writers == multiset{} && Legal(w, es)
    ensures var d := Run(w, es);
            InRange(d.conn.ledger) && SentBytes(d.conn.ledger) == SentBytes(w.conn.ledger)
            && d.conn.handed == w.conn.handed
    decreases |es|
  {
    if es != [] {
      var e := es[0];
      StepKeeps(w, e);
      if e.TimerCallback? || e.FlushOnClose? {
        var c := if e.TimerCallback? then w.conn.(fired := w.conn.fired - {e.id}) else w.conn;
        FlushExtends(c, e.o, false);
        LedgerSnoc(c.ledger, Entry(c.queue, 0, false, false));
      }
      ClosedSendsNothing(Step(w, e), es[1..]);
    }
  }

  lemma FlushSilent(c: Conn, o: Outcome, own: bool)
    requires c.broken && Possible(c, Flat(c.queue), o)
    ensures Flush(c, o, own).0.wire == c.wire && Flush(c, o, own).0.broken
  {}

  lemma WriteSilent(c: Conn, p: seq<byte>, o1: Outcome, o2: Outcome)
    requires Inv(c) && c.broken && p != [] && PossibleWrite(c, p, o1, o2)
    ensures var d := WriteLocked(c, p, o1, o2).0; d.wire == c.wire && d.broken
  {
    FlatOne(p);
    if c.size + |p| > c.maxQueue {
      var (d, e) := Flush(c, o1, false);
      FlushInv(c, o1, false);
      FlushSilent(c, o1, false);
      FlushExtends(c, o1, false);
      FlatNonEmpty(c.queue);
      if e.None? && !TooBig(d, p) {
        FlushSilent(Append(d, p), o2, true);
      }
    } else {
      FlushSilent(Append(c, p), o2, true);
    }
  }

  lemma {:induction false} BrokenIsSilent(w: World, es: seq<Event>)
    requires WorldInv(w) && w.conn.broken && Legal(w, es)
    ensures Run(w, es).conn.wire == w.conn.wire && Run(w, es).conn.broken
    decreases |es|
  {
    if es != [] {
      var e := es[0];
      StepKeeps(w, e);
      match e {
        case LockedWrite(p, o1, o2) => WriteSilent(w.conn, p, o1, o2);
        case TimerCallback(id, o) => FlushSilent(w.conn.(fired := w.conn.fired - {id}), o, false);
        case _ =>
      }
      BrokenIsSilent(Step(w, e), es[1..]);
    }
  }

  /** Once `Close` has closed the socket nothing reaches the wire any more, whatever writers and timers
      are still about. */
  lemma NothingAfterSocketClose(w: World, err: Option<Error>, after: seq<Event>)
    requires WorldInv(w) && Enabled(w, SocketClose(err)) && Legal(Step(w, SocketClose(err)), after)
    ensures Run(Step(w, SocketClose(err)), after).conn.wire == w.conn.wire
  {
    StepKeeps(w, SocketClose(err));
    BrokenIsSilent(Step(w, SocketClose(err)), after);
  }

  lemma {:induction false} RunAppend(w: World, a: seq<Event>, b: seq<Event>)
    requires Legal(w, a) && Legal(Run(w, a), b)
    ensures Legal(w, a + b) && Run(w, a + b) == Run(Run(w, a), b)
    decreases |a|
  {
    if a == [] {
      assert a + b == b;
    } else {
      var first, rest := a[0], a[1..];
      RunAppend(Step(w, first), rest, b);
      RunCons(w, first, rest + b);
      assert a + b == [first] + (rest + b);
    }
  }

  /** One byte is queued under a limit of one byte. */
  function Queued(): World
  {
    World(Conn(3, 1, [[7]], 1, Some(0), {0}, {}, 1, false, false, None, false, [[7]], [[7]], [], []),
          multiset{}, 0, [], None, [])
  }

  lemma QueuedReached() returns (es: seq<Event>)
    ensures Legal(Start(3, 1), es) && Run(Start(3, 1), es) == Queued()
  {
    var w := Start(3, 1);
    var v := Step(w, BeginWrite([7]));
    var e := LockedWrite([7], Sent, Sent);
    assert Flat([]) == [] && v.conn.queue == [];
    assert Step(v, e) == Queued();
    RunCons(v, e, []);
    RunCons(w, BeginWrite([7]), [e] + []);
    es := [BeginWrite([7])] + ([e] + []);
  }

  /** ... a second writer has passed the `closed` test, and `Close` has dropped the queue. */
  function Dropped(): World
  {
    World(Conn(3, 1, [], 0, None, {}, {}, 1, true, false, Some(ErrClosed), true, [[7]], [[7]],
               [Entry([[7]], 0, false, false)], []),
          multiset{[8, 9]}, 2, [], None, [])
  }

  lemma DroppedReached() returns (es: seq<Event>)
    ensures Legal(Queued(), es) && Run(Queued(), es) == Dropped()
  {
    var w := Queued();
    var v1 := Step(w, BeginWrite([8, 9]));
    var v2 := Step(v1, SetClosed);
    assert Unqueue(v2.conn).armed == {};
    assert Step(v2, FlushOnClose(Sent)) == Dropped();
    RunCons(v2, FlushOnClose(Sent), []);
    RunCons(v1, SetClosed, [FlushOnClose(Sent)] + []);
    es := [SetClosed] + ([FlushOnClose(Sent)] + []);
    RunCons(w, BeginWrite([8, 9]), es);
    es := [BeginWrite([8, 9])] + es;
  }

  lemma LateStep(e: Event)
    requires e == LockedWrite([8, 9], Sent, Sent)
    ensures Enabled(Dropped(), e) && LateDirect(Dropped(), e)
    ensures var d := Step(Dropped(), e);
            Unread(d) == [8, 9] && Flat(d.conn.accepted) == [7, 8, 9] && !GapFree(d.conn.ledger)
  {
    var w := Dropped();
    FlatOne([7]);
    FlatOne([8, 9]);
    assert w.conn.ledger[0].reached < |Flat(w.conn.ledger[0].payloads)|;
    var d := Step(w, e);
    assert d.inbound == [Binary([8, 9])] && [Binary([8, 9])][1..] == [];
    FlatSnoc([[7]], [8, 9]);
    assert LossyEntry(d.conn.ledger[0]) && d.conn.ledger[1].reached > 0;
  }

  /** ... and still the second payload goes out: a run in which `Write` accepts 7 and then 8, 9, no
      message fails, and the peer can read only 8, 9. */
  lemma LateDirectHappens() returns (es: seq<Event>)
    ensures Legal(Start(3, 1), es) && Late(Start(3, 1), es)
    ensures var w := Run(Start(3, 1), es);
            w.delivered == [] && Unread(w) == [8, 9] && Flat(w.conn.accepted) == [7, 8, 9]
  {
    var a := QueuedReached();
    var b := DroppedReached();
    var e := LockedWrite([8, 9], Sent, Sent);
    LateStep(e);
    RunCons(Dropped(), e, []);
    RunAppend(Queued(), b, [e] + []);
    RunAppend(Start(3, 1), a, b + ([e] + []));
    es := a + (b + ([e] + []));
    InitInv(3, 1);
    GapFreeIffNoLateDirect(Start(3, 1), es);
  }
}
