/** `DnAggregator` at the granularity of its lock (internal/transport/dnagg.go): writers append,
    one flusher goroutine takes snapshots of the queue, writes them with the lock released, and
    then clears the queue. */
module DnAggSpec {
  import opened Bytes

  /** Where the flusher is. `AboutToPark` still holds the lock, between its test of the queue and
      `cond.Wait` giving the lock up. `since` are the chunks appended after the snapshot. */
  datatype Pc =
    | Top
    | AboutToPark
    | Parked(woken: bool)
    | Selecting
    | Writing(snap: seq<seq<byte>>, since: seq<seq<byte>>, last: bool)
    | Clearing(snap: seq<seq<byte>>, since: seq<seq<byte>>, last: bool, ok: bool)
    | Exited

  /** One finished flush: what was handed to the stream, what was thrown away with it. */
  datatype Round = Round(batch: seq<seq<byte>>, dropped: seq<seq<byte>>, ok: bool)

  datatype Config = Config(dnPack: nat, dnTail: nat, dnQr: nat, maxQueue: nat)

  /** `closing` counts the finished steps of `Close`; `signals` are writers about to Signal. */
  datatype State = State(
    cfg: Config, queue: seq<seq<byte>>, total: nat,
    closed: bool, stopped: bool, closing: nat, signals: nat,
    timer: bool, qr: nat, pc: Pc,
    accepted: seq<seq<byte>>, rounds: seq<Round>, emitted: seq<seq<byte>>)

  datatype Event =
    | Write(d: seq<byte>)
    | Signal
    | Decide
    | Park
    | Wake
    | TimerFires
    | SeesStop
    | StreamWrite(ok: bool)
    | Clear
    | SetClosed
    | CloseStopCh
    | CloseSignal

  function Start(cfg: Config): State
  {
    State(cfg, [], 0, false, false, 0, 0, false, 0, Top, [], [], [])
  }

  function Low(cfg: Config): nat
  {
    if cfg.dnTail * 12 < 4096 then 4096 else cfg.dnTail * 12
  }

  predicate Full(s: State)
  {
    s.total >= s.cfg.dnPack || |s.queue| >= s.cfg.dnQr
  }

  predicate InFlight(s: State)
  {
    s.pc.Writing? || s.pc.Clearing?
  }

  /** `copyQueueLocked`, and on to the unlocked write. */
  function Snapshot(s: State, last: bool): State
  {
    s.(pc := Writing(if s.total == 0 then [] else s.queue, [], last))
  }

  /** Lines 58-89, for a chunk that fits under `maxQueue`. */
  function Append(s: State, d: seq<byte>): State
  {
    var t := s.(queue := s.queue + [d], total := s.total + |d|, accepted := s.accepted + [d],
                pc := match s.pc
                      case Writing(a, b, l) => Writing(a, b + [d], l)
                      case Clearing(a, b, l, ok) => Clearing(a, b + [d], l, ok)
                      case p => p);
    t.(signals := t.signals + if Full(t) then 1 else 0)
  }

  /** Lines 114-145: one turn of the flusher's loop up to its `select`. */
  function AtTop(s: State): State
  {
    if !s.closed && s.queue == [] then s.(pc := AboutToPark)
    else if s.closed && s.queue == [] then s.(pc := Exited)
    else if Full(s) then Snapshot(s, false).(qr := 0)
    else if s.cfg.dnPack - s.total < s.cfg.dnTail then Snapshot(s, false).(qr := 0)
    else if !s.timer then s.(timer := true, qr := 0, pc := Selecting)
    else s.(pc := Selecting)
  }

  /** Lines 148-189: the timer case. */
  function AtTimer(s0: State): State
  {
    var s := s0.(timer := false);
    if s.closed then (if |s.queue| > 0 then Snapshot(s, false) else s.(pc := Top))
    else if s.queue == [] then s.(pc := Top)
    else if Full(s) then Snapshot(s, false).(qr := 0)
    else if s.total >= Low(s.cfg) || s.qr >= s.cfg.dnQr then Snapshot(s, false).(qr := 0)
    else if s.qr + 1 < s.cfg.dnQr then s.(qr := s.qr + 1, pc := Top)
    else Snapshot(s, false).(qr := 0)
  }

  /** Lines 190-204: the stop case. */
  function AtStop(s0: State): State
  {
    var s := s0.(timer := false);
    if |s.queue| > 0 then Snapshot(s, true) else s.(pc := Exited)
  }

  /** Lines 233-244: whatever the stream said, the whole queue goes. */
  function Cleared(s: State): State
    requires s.pc.Clearing?
  {
    s.(closed := s.closed || !s.pc.ok, queue := [], total := 0,
       rounds := s.rounds + [Round(s.pc.snap, s.pc.since, s.pc.ok)],
       pc := if s.pc.last then Exited else Top)
  }

  predicate Enabled(s: State, e: Event)
  {
    match e
    case Write(d) => d != [] && !s.closed && s.total + |d| <= s.cfg.maxQueue && !s.pc.AboutToPark?
    case Signal => s.signals > 0
    case Decide => s.pc.Top?
    case Park => s.pc.AboutToPark?
    case Wake => s.pc == Parked(true)
    case TimerFires => s.pc.Selecting? && s.timer
    case SeesStop => s.pc.Selecting? && s.stopped
    case StreamWrite(_) => s.pc.Writing?
    case Clear => s.pc.Clearing?
    case SetClosed => !s.closed
    case CloseStopCh => s.closing == 1
    case CloseSignal => s.closing == 2
  }

  function Step(s: State, e: Event): State
    requires Enabled(s, e)
  {
    match e
    case Write(d) => Append(s, d)
    case Signal => Woken(s).(signals := s.signals - 1)
    case Decide => AtTop(s)
    case Park => s.(pc := Parked(false))
    case Wake => s.(pc := Top)
    case TimerFires => AtTimer(s)
    case SeesStop => AtStop(s)
    case StreamWrite(ok) =>
      s.(pc := Clearing(s.pc.snap, s.pc.since, s.pc.last, ok),
         emitted := if ok then s.emitted + s.pc.snap else s.emitted)
    case Clear => Cleared(s)
    case SetClosed => s.(closed := true, closing := 1)
    case CloseStopCh => s.(stopped := true, closing := 2)
    case CloseSignal => Woken(s).(closing := 3)
  }

  /** `cond.Signal` wakes the flusher only if it is already parked. */
  function Woken(s: State): State
  {
    if s.pc == Parked(false) then s.(pc := Parked(true)) else s
  }

  predicate Legal(s: State, es: seq<Event>)
    decreases |es|
  {
    es == [] || (Enabled(s, es[0]) && Legal(Step(s, es[0]), es[1..]))
  }

  function Run(s: State, es: seq<Event>): State
    requires Legal(s, es)
    decreases |es|
  {
    if es == [] then s else Run(Step(s, es[0]), es[1..])
  }

  // ----- the invariant -----

  function Chunks(rs: seq<Round>): seq<seq<byte>>
  {
    if rs == [] then [] else rs[0].batch + rs[0].dropped + Chunks(rs[1..])
  }

  function Batches(rs: seq<Round>): seq<seq<byte>>
  {
    if rs == [] then [] else (if rs[0].ok then rs[0].batch else []) + Batches(rs[1..])
  }

  lemma {:induction false} ChunksAppend(a: seq<Round>, b: seq<Round>)
    ensures Chunks(a + b) == Chunks(a) + Chunks(b)
  {
    if a == [] {
      assert a + b == b;
    } else {
      assert (a + b)[1..] == a[1..] + b;
      ChunksAppend(a[1..], b);
    }
  }

  lemma {:induction false} BatchesAppend(a: seq<Round>, b: seq<Round>)
    ensures Batches(a + b) == Batches(a) + Batches(b)
  {
    if a == [] {
      assert a + b == b;
    } else {
      assert (a + b)[1..] == a[1..] + b;
      BatchesAppend(a[1..], b);
    }
  }

  lemma RoundsSnoc(a: seq<Round>, r: Round)
    ensures Chunks(a + [r]) == Chunks(a) + (r.batch + r.dropped)
    ensures Batches(a + [r]) == Batches(a) + if r.ok then r.batch else []
  {
    ChunksAppend(a, [r]);
    BatchesAppend(a, [r]);
    assert [r][1..] == [];
  }

  predicate QueueOk(s: State)
  {
    && s.total == |Flat(s.queue)| && AllNonEmpty(s.queue)
    && s.total <= s.cfg.maxQueue && s.cfg.dnPack > 0 && s.cfg.dnQr > 0
  }

  predicate FlusherOk(s: State)
  {
    && (s.pc.Writing? || s.pc.Clearing? ==> s.pc.snap != [] && s.queue == s.pc.snap + s.pc.since)
    && (s.pc.AboutToPark? ==> s.queue == [])
    && (s.pc.Exited? ==> s.closed && s.queue == [])
    && (s.pc.Selecting? ==> s.queue != [] && s.qr == 0)
    && (s.timer <==> s.pc.Selecting?)
    && ((s.pc.Writing? || s.pc.Clearing?) && s.pc.last ==> s.closed)
  }

  /** A flusher asleep on a full queue has a Signal on its way. */
  predicate SignalsOk(s: State)
  {
    && (s.pc == Parked(false) && Full(s) && s.queue != [] ==> s.signals > 0)
    && (s.stopped ==> s.closed) && (s.closing > 0 ==> s.closed) && s.closing <= 3
    && (s.closing >= 2 ==> s.stopped)
  }

  predicate Accounts(s: State)
  {
    && s.accepted == Chunks(s.rounds) + s.queue
    && s.emitted == Batches(s.rounds) + (if s.pc.Clearing? && s.pc.ok then s.pc.snap else [])
  }

  /** Some stream write has failed. */
  predicate Failed(rs: seq<Round>)
  {
    exists i :: 0 <= i < |rs| && !rs[i].ok
  }

  predicate Inv(s: State)
  {
    QueueOk(s) && FlusherOk(s) && SignalsOk(s) && Accounts(s) && (Failed(s.rounds) ==> s.closed)
  }

  lemma FailedSnoc(a: seq<Round>, r: Round)
    ensures Failed(a + [r]) <==> Failed(a) || !r.ok
  {
    assert (a + [r])[|a|] == r && forall i :: 0 <= i < |a| ==> (a + [r])[i] == a[i];
  }

  lemma TotalZero(s: State)
    requires QueueOk(s)
    ensures s.total == 0 <==> s.queue == []
  {
    FlatNonEmpty(s.queue);
  }

  lemma WriteKeeps(s: State, d: seq<byte>)
    requires Inv(s) && Enabled(s, Write(d))
    ensures Inv(Append(s, d))
  {
    FlatSnoc(s.queue, d);
    var t := Append(s, d);
    assert t.accepted == Chunks(s.rounds) + (s.queue + [d]);
    if InFlight(s) {
      assert s.queue + [d] == s.pc.snap + (s.pc.since + [d]);
    }
  }

  lemma DecideKeeps(s: State)
    requires Inv(s) && s.pc.Top?
    ensures Inv(AtTop(s))
  {
    TotalZero(s);
    assert s.queue + [] == s.queue;
  }

  lemma TimerKeeps(s: State)
    requires Inv(s) && s.pc.Selecting?
    ensures Inv(AtTimer(s))
  {
    TotalZero(s);
    assert s.queue + [] == s.queue;
  }

  lemma StopKeeps(s: State)
    requires Inv(s) && s.pc.Selecting? && s.stopped
    ensures Inv(AtStop(s))
  {
    TotalZero(s);
    assert s.queue + [] == s.queue;
  }

  lemma ParkKeeps(s: State, e: Event)
    requires Inv(s) && Enabled(s, e) && (e.Park? || e.Wake?)
    ensures Inv(Step(s, e))
  {}

  lemma ClearKeeps(s: State)
    requires Inv(s) && s.pc.Clearing?
    ensures Inv(Cleared(s))
  {
    RoundsSnoc(s.rounds, Round(s.pc.snap, s.pc.since, s.pc.ok));
    FailedSnoc(s.rounds, Round(s.pc.snap, s.pc.since, s.pc.ok));
    assert Cleared(s).accepted == Chunks(Cleared(s).rounds) + [];
  }

  lemma StreamWriteKeeps(s: State, ok: bool)
    requires Inv(s) && s.pc.Writing?
    ensures Inv(Step(s, StreamWrite(ok)))
  {
    assert s.emitted == Batches(s.rounds);
    assert s.emitted == Batches(s.rounds) + [];
  }

  lemma SignalKeeps(s: State, e: Event)
    requires Inv(s) && Enabled(s, e) && (e.Signal? || e.SetClosed? || e.CloseStopCh? || e.CloseSignal?)
    ensures Inv(Step(s, e))
  {}

  lemma StepKeeps(s: State, e: Event)
    requires Inv(s) && Enabled(s, e)
    ensures Inv(Step(s, e))
  {
    match e
    case Write(d) => WriteKeeps(s, d);
    case Clear => ClearKeeps(s);
    case StreamWrite(ok) => StreamWriteKeeps(s, ok);
    case Signal => SignalKeeps(s, e);
    case SetClosed => SignalKeeps(s, e);
    case CloseStopCh => SignalKeeps(s, e);
    case CloseSignal => SignalKeeps(s, e);
    case Decide => DecideKeeps(s);
    case TimerFires => TimerKeeps(s);
    case SeesStop => StopKeeps(s);
    case _ => ParkKeeps(s, e);
  }

  lemma {:induction false} RunKeeps(s: State, es: seq<Event>)
    requires Inv(s) && Legal(s, es)
    ensures Inv(Run(s, es))
    decreases |es|
  {
    if es != [] {
      StepKeeps(s, es[0]);
      RunKeeps(Step(s, es[0]), es[1..]);
    }
  }

  predicate GoodConfig(cfg: Config)
  {
    cfg.dnPack > 0 && cfg.dnTail > 0 && cfg.dnQr > 0
  }

  lemma Reachable(cfg: Config, es: seq<Event>)
    requires GoodConfig(cfg) && Legal(Start(cfg), es)
    ensures Inv(Run(Start(cfg), es))
  {
    RunKeeps(Start(cfg), es);
  }
}
