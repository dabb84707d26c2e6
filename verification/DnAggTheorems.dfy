/** What `DnAggregator` does over every run within `maxQueue` (internal/transport/dnagg.go). */
module DnAggTheorems {
  import opened Bytes
  import opened DnAggSpec

  // ----- exact accounting -----

  /** Every accepted chunk is accounted for, in order: the snapshots S1, S2, ... with behind each the
      chunks appended until its clear, then the queue, which during a flush is the snapshot still
      being written and what came since. The stream has got the snapshots, each at most once; one failed
      stream write closes the aggregator for good, so that no `Write` is accepted any more. */
  lemma ExactAccounting(cfg: Config, es: seq<Event>)
    requires GoodConfig(cfg) && Legal(Start(cfg), es)
    ensures var s := Run(Start(cfg), es);
            && s.accepted == Chunks(s.rounds) + s.queue
            && (InFlight(s) ==> s.queue == s.pc.snap + s.pc.since)
            && s.emitted == Batches(s.rounds) + (if s.pc.Clearing? && s.pc.ok then s.pc.snap else [])
            && (s.pc.Exited? ==> s.closed && s.queue == [])
            && ((exists i :: 0 <= i < |s.rounds| && !s.rounds[i].ok) ==>
                  s.closed && forall d :: !Enabled(s, Write(d)))
  {
    Reachable(cfg, es);
  }

  /** A chunk was accepted while a snapshot was out: it will be thrown away at the clear. */
  predicate Overlaps(s: State, es: seq<Event>)
    requires Legal(s, es)
    decreases |es|
  {
    es != [] && ((es[0].Write? && InFlight(s)) || Overlaps(Step(s, es[0]), es[1..]))
  }

  predicate NoFailure(es: seq<Event>)
  {
    forall i :: 0 <= i < |es| ==> es[i] != StreamWrite(false)
  }

  predicate Lossless(s: State)
  {
    && (forall i :: 0 <= i < |s.rounds| ==> s.rounds[i].dropped == [])
    && (InFlight(s) ==> s.pc.since == [])
  }

  predicate AllSent(s: State)
  {
    && (forall i :: 0 <= i < |s.rounds| ==> s.rounds[i].ok)
    && (s.pc.Clearing? ==> s.pc.ok)
  }

  lemma ClearLossless(s: State)
    requires s.pc.Clearing?
    ensures Lossless(Cleared(s)) <==> Lossless(s)
    ensures AllSent(s) ==> AllSent(Cleared(s))
  {
    var t := Cleared(s);
    assert t.rounds[|s.rounds|] == Round(s.pc.snap, s.pc.since, s.pc.ok);
    assert forall i :: 0 <= i < |s.rounds| ==> t.rounds[i] == s.rounds[i];
  }

  /** Only a clear ends a round, and only a write changes what came since a snapshot. */
  lemma RoundsKept(s: State, e: Event)
    requires Enabled(s, e) && !e.Clear?
    ensures Step(s, e).rounds == s.rounds
    ensures InFlight(Step(s, e)) ==>
              Step(s, e).pc.since == if !InFlight(s) then [] else if e.Write? then s.pc.since + [e.d] else s.pc.since
    ensures InFlight(s) ==> InFlight(Step(s, e))
    ensures Step(s, e).pc.Clearing? ==>
              if s.pc.Clearing? then Step(s, e).pc.ok == s.pc.ok else e == StreamWrite(Step(s, e).pc.ok)
  {}

  lemma StepLossless(s: State, e: Event)
    requires Enabled(s, e)
    ensures Lossless(Step(s, e)) <==> Lossless(s) && !(e.Write? && InFlight(s))
    ensures AllSent(s) && e != StreamWrite(false) ==> AllSent(Step(s, e))
  {
    if e.Clear? {
      ClearLossless(s);
    } else {
      RoundsKept(s, e);
    }
  }

  lemma {:induction false} RunLossless(s: State, es: seq<Event>)
    requires Legal(s, es) && NoFailure(es) && AllSent(s)
    ensures Lossless(Run(s, es)) <==> Lossless(s) && !Overlaps(s, es)
    ensures AllSent(Run(s, es))
    decreases |es|
  {
    if es != [] {
      StepLossless(s, es[0]);
      assert forall i :: 0 <= i < |es[1..]| ==> es[1..][i] == es[i + 1];
      RunLossless(Step(s, es[0]), es[1..]);
    }
  }

  lemma {:induction false} ChunkCounts(rs: seq<Round>)
    requires forall i :: 0 <= i < |rs| ==> rs[i].ok
    ensures |Batches(rs)| <= |Chunks(rs)|
    ensures |Batches(rs)| == |Chunks(rs)| <==> forall i :: 0 <= i < |rs| ==> rs[i].dropped == []
    ensures |Batches(rs)| == |Chunks(rs)| ==> Batches(rs) == Chunks(rs)
  {
    if rs != [] {
      assert forall i :: 0 <= i < |rs[1..]| ==> rs[1..][i] == rs[i + 1];
      ChunkCounts(rs[1..]);
    }
  }

  /** Without stream failures, when the flusher has exited the stream has got exactly the accepted
      chunks if and only if no `Write` was accepted while a snapshot was being written. */
  lemma CompleteIffNoOverlap(cfg: Config, es: seq<Event>)
    requires GoodConfig(cfg) && Legal(Start(cfg), es) && NoFailure(es)
    requires Run(Start(cfg), es).pc.Exited?
    ensures var s := Run(Start(cfg), es);
            s.emitted == s.accepted <==> !Overlaps(Start(cfg), es)
  {
    Reachable(cfg, es);
    RunLossless(Start(cfg), es);
    var s := Run(Start(cfg), es);
    ChunkCounts(s.rounds);
    assert s.accepted == Chunks(s.rounds) && s.emitted == Batches(s.rounds);
  }

  /** Such a run exists for every configuration whose queue may outgrow one pack, as by default: no
      stream write fails, both chunks are accepted, and the second never reaches the stream. */
  lemma OverlapLoses(cfg: Config, d: seq<byte>) returns (es: seq<Event>)
    requires GoodConfig(cfg) && |d| == cfg.dnPack < cfg.maxQueue
    ensures Legal(Start(cfg), es) && NoFailure(es) && Overlaps(Start(cfg), es)
    ensures var s := Run(Start(cfg), es);
            s.pc.Exited? && s.accepted == [d, [0]] && s.emitted == [d]
  {
    var full := OverlapStart(cfg, d);
    es := OverlapEnd(full, d);
    RunCons(Step(Start(cfg), Write(d)), Decide, es);
    RunCons(Start(cfg), Write(d), [Decide] + es);
    es := [Write(d)] + ([Decide] + es);
  }

  /** The second chunk comes, then the snapshot is written, the queue cleared and the flusher closed. */
  lemma OverlapEnd(full: State, d: seq<byte>) returns (es: seq<Event>)
    requires full.pc == Writing([d], [], false) && !full.closed && full.total < full.cfg.maxQueue
    requires full.accepted == [d] && full.emitted == []
    ensures Legal(full, es) && NoFailure(es) && Overlaps(full, es)
    ensures var s := Run(full, es); s.pc.Exited? && s.accepted == [d, [0]] && s.emitted == [d]
  {
    var lost := Step(full, Write([0]));
    var clearing := Step(lost, StreamWrite(true));
    var top := Step(clearing, Clear);
    RunCons(Step(top, SetClosed), Decide, []);
    es := [Decide] + [];
    RunCons(top, SetClosed, es);
    es := [SetClosed] + es;
    RunCons(clearing, Clear, es);
    es := [Clear] + es;
    RunCons(lost, StreamWrite(true), es);
    es := [StreamWrite(true)] + es;
    RunCons(full, Write([0]), es);
    es := [Write([0])] + es;
  }

  /** The flusher takes the first chunk, a full pack, and has released the lock to write it. */
  lemma OverlapStart(cfg: Config, d: seq<byte>) returns (full: State)
    requires GoodConfig(cfg) && |d| == cfg.dnPack < cfg.maxQueue
    ensures Enabled(Start(cfg), Write(d))
    ensures var s := Step(Start(cfg), Write(d)); Enabled(s, Decide) && Step(s, Decide) == full
    ensures full.cfg == cfg && full.pc == Writing([d], [], false) && !full.closed && full.total == |d|
    ensures full.accepted == [d] && full.emitted == []
  {
    full := Step(Step(Start(cfg), Write(d)), Decide);
  }

  // ----- the timer -----

  /** What makes the flusher take a snapshot before `Close`. */
  predicate Due(s: State)
  {
    AtLimit(s) || s.cfg.dnPack - s.total < s.cfg.dnTail || (s.total >= 4096 && s.total >= 12 * s.cfg.dnTail)
  }

  predicate AtLimit(s: State)
  {
    s.total >= s.cfg.dnPack || |s.queue| >= s.cfg.dnQr
  }

  /** A turn of the flusher's loop takes a snapshot exactly when a limit is reached or the pack is nearly
      full; otherwise it waits: for a chunk, for the timer, or - closed and empty - no more. */
  lemma TurnFlushesOnlyAtLimits(cfg: Config, es: seq<Event>)
    requires GoodConfig(cfg) && Legal(Start(cfg), es) && Enabled(Run(Start(cfg), es), Decide)
    ensures var s := Run(Start(cfg), es);
            var t := Step(s, Decide);
            && (InFlight(t) <==> s.queue != [] && (AtLimit(s) || cfg.dnPack - s.total < cfg.dnTail))
            && (s.queue != [] && !InFlight(t) ==> t.pc.Selecting? && t.timer)
            && (s.queue == [] ==> t.pc == if s.closed then Exited else AboutToPark)
  {
    Reachable(cfg, es);
    CfgFixed(Start(cfg), es);
  }

  /** The retry counter never matters: whenever the timer fires it is 0, so for every `dnQr` the timer
      case takes a snapshot exactly when a size or count limit is reached (or on close). */
  lemma TimerFlushesOnlyAtLimits(cfg: Config, es: seq<Event>)
    requires GoodConfig(cfg) && Legal(Start(cfg), es) && Enabled(Run(Start(cfg), es), TimerFires)
    ensures var s := Run(Start(cfg), es);
            s.qr == 0 && s.queue != []
            && (InFlight(Step(s, TimerFires)) <==>
                  s.closed || AtLimit(s) || (s.total >= 4096 && s.total >= 12 * cfg.dnTail))
  {
    Reachable(cfg, es);
    CfgFixed(Start(cfg), es);
  }

  lemma {:induction false} CfgFixed(s: State, es: seq<Event>)
    requires Legal(s, es)
    ensures Run(s, es).cfg == s.cfg
    decreases |es|
  {
    if es != [] {
      CfgFixed(Step(s, es[0]), es[1..]);
    }
  }

  predicate NoInput(es: seq<Event>)
  {
    forall i :: 0 <= i < |es| ==> !es[i].Write? && !es[i].SetClosed?
  }

  /** So a trickle below every limit is never flushed by time: however often the timer fires, without
      another `Write` or a `Close` the queue stays and the stream gets nothing. */
  lemma {:induction false} TrickleIsHeld(s: State, es: seq<Event>)
    requires Inv(s) && !s.closed && !InFlight(s) && !Due(s) && Legal(s, es) && NoInput(es)
    ensures var t := Run(s, es);
            t.queue == s.queue && t.emitted == s.emitted && !t.closed && !InFlight(t)
    decreases |es|
  {
    if es != [] {
      StepKeeps(s, es[0]);
      assert forall i :: 0 <= i < |es[1..]| ==> es[1..][i] == es[i + 1];
      TrickleIsHeld(Step(s, es[0]), es[1..]);
    }
  }

  // ----- wake-ups -----

  /** A flusher asleep with nobody about to signal it holds less than `dnPack` bytes in fewer than
      `dnQr` chunks. */
  lemma SleepsOnlyBelowLimits(cfg: Config, es: seq<Event>)
    requires GoodConfig(cfg) && Legal(Start(cfg), es)
    ensures var s := Run(Start(cfg), es);
            s.pc == Parked(false) && s.signals == 0 ==>
              s.queue == [] || (s.total < cfg.dnPack && |s.queue| < cfg.dnQr)
  {
    Reachable(cfg, es);
    CfgFixed(Start(cfg), es);
  }

  // ----- when `Close` returns -----

  /** With `Close` waiting, nothing can move exactly when no signal is left and the flusher has exited
      or sleeps. */
  lemma StandstillIff(cfg: Config, es: seq<Event>)
    requires GoodConfig(cfg) && Legal(Start(cfg), es) && Run(Start(cfg), es).closing == 3
    ensures var s := Run(Start(cfg), es);
            (forall e :: !Enabled(s, e)) <==> (s.pc.Exited? || s.pc == Parked(false)) && s.signals == 0
  {
    Reachable(cfg, es);
    var s := Run(Start(cfg), es);
    if (s.pc.Exited? || s.pc == Parked(false)) && s.signals == 0 {
      forall e
        ensures !Enabled(s, e)
      {
      }
    } else {
      var e := match s.pc
               case Top => Decide
               case AboutToPark => Park
               case Parked(woken) => if woken then Wake else Signal
               case Selecting => TimerFires
               case Writing(_, _, _) => StreamWrite(true)
               case Clearing(_, _, _, _) => Clear
               case Exited => Signal;
      assert Enabled(s, e);
    }
  }

  /** The flusher has missed the signal of `Close`: it sleeps, or is about to. */
  predicate Oversleeps(s: State)
  {
    s.closing == 3 && (s.pc == Parked(false) || s.pc.AboutToPark?)
  }

  /** A writer's signal, still on its way, finds the flusher asleep. */
  predicate Rescued(s: State, es: seq<Event>)
    requires Legal(s, es)
    decreases |es|
  {
    es != [] && ((es[0].Signal? && s.pc == Parked(false)) || Rescued(Step(s, es[0]), es[1..]))
  }

  /** `Close` signals while the flusher is between its test of `closed` and its wait, and no writer's
      signal comes later. */
  predicate Missed(s: State, es: seq<Event>)
    requires Legal(s, es)
    decreases |es|
  {
    es != [] && (var t := Step(s, es[0]);
                 (es[0].CloseSignal? && s.pc.AboutToPark? && !Rescued(t, es[1..])) || Missed(t, es[1..]))
  }

  lemma StepOversleeps(s: State, e: Event)
    requires Inv(s) && Enabled(s, e)
    ensures Oversleeps(Step(s, e)) <==>
              (Oversleeps(s) && !(e.Signal? && s.pc == Parked(false))) || (e.CloseSignal? && s.pc.AboutToPark?)
  {}

  lemma {:induction false} RunOversleeps(s: State, es: seq<Event>)
    requires Inv(s) && Legal(s, es)
    ensures Oversleeps(Run(s, es)) <==> Missed(s, es) || (Oversleeps(s) && !Rescued(s, es))
    decreases |es|
  {
    if es != [] {
      StepKeeps(s, es[0]);
      StepOversleeps(s, es[0]);
      RunOversleeps(Step(s, es[0]), es[1..]);
    }
  }

  /** When a run in which `Close` waits for the flusher has come to a standstill, the flusher has
      exited, so that `Close` returns, if and only if its signal was not missed. */
  lemma CloseReturnsIff(cfg: Config, es: seq<Event>)
    requires GoodConfig(cfg) && Legal(Start(cfg), es)
    requires Run(Start(cfg), es).closing == 3 && forall e :: !Enabled(Run(Start(cfg), es), e)
    ensures Run(Start(cfg), es).pc.Exited? <==> !Missed(Start(cfg), es)
  {
    Reachable(cfg, es);
    StandstillIff(cfg, es);
    RunOversleeps(Start(cfg), es);
  }

  /** How many more turns the flusher can make by itself, by where it is. */
  function Rank(s: State): nat
  {
    match s.pc
    case Exited => 0
    case Parked(woken) => if woken then 7 else 0
    case AboutToPark => 1
    case Top => if s.queue == [] then 2 else 6
    case Clearing(_, _, _, _) => 3
    case Writing(_, _, _) => 4
    case Selecting => 5
  }

  function StepsLeft(s: State): nat
    requires s.closing <= 3
  {
    10 * s.signals + 10 * (3 - s.closing) + Rank(s)
  }

  lemma TurnFalls(s: State, e: Event)
    requires FlusherOk(s) && s.closed && s.closing <= 3 && Enabled(s, e)
    requires e.Decide? || e.TimerFires? || e.SeesStop?
    ensures Step(s, e).closed && Step(s, e).closing == s.closing && Step(s, e).signals == s.signals
    ensures Rank(Step(s, e)) < Rank(s)
  {}

  lemma StepsFall(s: State, e: Event)
    requires FlusherOk(s) && s.closed && s.closing <= 3 && Enabled(s, e)
    ensures Step(s, e).closed && Step(s, e).closing <= 3 && StepsLeft(Step(s, e)) < StepsLeft(s)
  {
    if e.Decide? || e.TimerFires? || e.SeesStop? {
      TurnFalls(s, e);
    }
  }

  /** From the moment `closed` is set no run goes on for more than `StepsLeft` steps: every run comes to
      the standstill that `CloseReturnsIff` speaks of. */
  lemma {:induction false} ClosedRunsAreShort(s: State, es: seq<Event>)
    requires Inv(s) && s.closed && Legal(s, es)
    ensures |es| <= StepsLeft(s)
    decreases |es|
  {
    if es != [] {
      StepsFall(s, es[0]);
      StepKeeps(s, es[0]);
      ClosedRunsAreShort(Step(s, es[0]), es[1..]);
    }
  }

  /** Chained steps of a run. */
  lemma RunCons(s: State, e: Event, es: seq<Event>)
    requires Enabled(s, e) && Legal(Step(s, e), es)
    ensures Legal(s, [e] + es) && Run(s, [e] + es) == Run(Step(s, e), es)
  {
    var all := [e] + es;
    assert all[0] == e && all[1..] == es;
  }

  /** The signal can be missed under every configuration, and then `Close` waits for ever. */
  lemma CloseCanHang(cfg: Config) returns (es: seq<Event>)
    requires GoodConfig(cfg)
    ensures Legal(Start(cfg), es)
    ensures var s := Run(Start(cfg), es);
            s.closing == 3 && s.pc == Parked(false) && Missed(Start(cfg), es) && forall e :: !Enabled(s, e)
  {
    var s1 := Step(Start(cfg), Decide);
    var s2 := Step(s1, SetClosed);
    var s3 := Step(s2, CloseStopCh);
    var s4 := Step(s3, CloseSignal);
    es := [Park] + [];
    RunCons(s4, Park, []);
    RunCons(s3, CloseSignal, es);
    es := [CloseSignal] + es;
    RunCons(s2, CloseStopCh, es);
    es := [CloseStopCh] + es;
    RunCons(s1, SetClosed, es);
    es := [SetClosed] + es;
    RunCons(Start(cfg), Decide, es);
    es := [Decide] + es;
    StandstillIff(cfg, es);
    CloseReturnsIff(cfg, es);
  }
}
