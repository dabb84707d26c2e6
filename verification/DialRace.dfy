/** `DialTCPWithRace` for more than one attempt (internal/relay/dial.go): one goroutine an attempt,
    a buffered channel, a cancellation, a wait group and the loop that drains the channel, as
    interleaved steps. Connection `i` is the one that attempt `i` may establish. */
module DialRace {
  import opened Bytes

  datatype Pc = Dialing | HasConn | Closing | Exiting | Done

  datatype Main = Ranging | Cancelling | Discarding(conn: nat) | Returned

  /** `est[i]`: the dial succeeded. `closes[i]`: how often connection `i` was closed. */
  datatype Race = Race(
    pc: seq<Pc>, est: seq<bool>, closes: seq<nat>,
    chan: seq<nat>, chanClosed: bool, wg: nat,
    main: Main, winner: Option<nat>, cancelled: bool)

  datatype Event =
    | DialFails(i: nat)
    | DialWorks(i: nat)
    | Sends(i: nat)
    | GivesUp(i: nat)
    | ClosesOwn(i: nat)
    | Leaves(i: nat)
    | ClosesChannel
    | Receives
    | Cancels
    | Discards
    | Ends

  function Start(concur: nat): Race
  {
    Race(seq(concur, _ => Dialing), seq(concur, _ => false), seq(concur, _ => 0),
         [], false, concur, Ranging, None, false)
  }

  predicate At(s: Race, i: nat, p: Pc)
  {
    i < |s.pc| && s.pc[i] == p
  }

  /** A send needs room in the channel; `select` may take either ready branch. */
  predicate Enabled(s: Race, e: Event)
  {
    match e
    case DialFails(i) => At(s, i, Dialing)
    case DialWorks(i) => At(s, i, Dialing) && i < |s.est|
    case Sends(i) => At(s, i, HasConn) && |s.chan| < |s.pc| && !s.chanClosed
    case GivesUp(i) => At(s, i, HasConn) && s.cancelled
    case ClosesOwn(i) => At(s, i, Closing) && i < |s.closes|
    case Leaves(i) => At(s, i, Exiting) && s.wg > 0
    case ClosesChannel => s.wg == 0 && !s.chanClosed
    case Receives => s.main.Ranging? && s.chan != []
    case Cancels => s.main.Cancelling?
    case Discards => s.main.Discarding? && s.main.conn < |s.closes|
    case Ends => s.main.Ranging? && s.chan == [] && s.chanClosed
  }

  function Step(s: Race, e: Event): Race
    requires Enabled(s, e)
  {
    match e
    case DialFails(i) => s.(pc := s.pc[i := Exiting])
    case DialWorks(i) => s.(pc := s.pc[i := HasConn], est := s.est[i := true])
    case Sends(i) => s.(pc := s.pc[i := Exiting], chan := s.chan + [i])
    case GivesUp(i) => s.(pc := s.pc[i := Closing])
    case ClosesOwn(i) => s.(pc := s.pc[i := Exiting], closes := s.closes[i := s.closes[i] + 1])
    case Leaves(i) => s.(pc := s.pc[i := Done], wg := s.wg - 1)
    case ClosesChannel => s.(chanClosed := true)
    case Receives =>
      var c := s.chan[0];
      if s.winner.None? then s.(chan := s.chan[1..], winner := Some(c), main := Cancelling)
      else s.(chan := s.chan[1..], main := Discarding(c))
    case Cancels => s.(cancelled := true, main := Ranging)
    case Discards =>
      s.(closes := s.closes[s.main.conn := s.closes[s.main.conn] + 1], main := Ranging)
    case Ends => s.(main := Returned)
  }

  predicate Legal(s: Race, es: seq<Event>)
    decreases |es|
  {
    es == [] || (Enabled(s, es[0]) && Legal(Step(s, es[0]), es[1..]))
  }

  function Run(s: Race, es: seq<Event>): Race
    requires Legal(s, es)
    decreases |es|
  {
    if es == [] then s else Run(Step(s, es[0]), es[1..])
  }

  // ----- counting over the goroutines -----

  function Sum(pc: seq<Pc>, f: Pc -> nat): nat
  {
    if pc == [] then 0 else f(pc[0]) + Sum(pc[1..], f)
  }

  lemma {:induction false} SumUpdate(pc: seq<Pc>, i: nat, p: Pc, f: Pc -> nat)
    requires i < |pc|
    ensures Sum(pc[i := p], f) + f(pc[i]) == Sum(pc, f) + f(p)
  {
    if i > 0 {
      SumUpdate(pc[1..], i - 1, p, f);
      assert pc[i := p][1..] == pc[1..][i - 1 := p];
    } else {
      assert pc[i := p][1..] == pc[1..];
    }
  }

  lemma {:induction false} SumAtLeast(pc: seq<Pc>, i: nat, f: Pc -> nat)
    requires i < |pc|
    ensures f(pc[i]) <= Sum(pc, f)
  {
    if i > 0 {
      SumAtLeast(pc[1..], i - 1, f);
    }
  }

  lemma {:induction false} SumStart(n: nat, f: Pc -> nat)
    ensures Sum(seq(n, _ => Dialing), f) == n * f(Dialing)
  {
    if n > 0 {
      SumStart(n - 1, f);
      assert seq(n, _ => Dialing)[1..] == seq(n - 1, _ => Dialing);
    }
  }

  const Live: Pc -> nat := p => if p == Done then 0 else 1
  const Unsent: Pc -> nat := p => if p == Dialing || p == HasConn then 1 else 0
  const Rank: Pc -> nat := (p: Pc) => match p
                                case Dialing => 6
                                case HasConn => 5
                                case Closing => 2
                                case Exiting => 1
                                case Done => 0

  function Bit(b: bool): nat
  {
    if b then 1 else 0
  }

  /** How many places hold connection `i`, a closed one counting once for every Close. */
  function Holders(s: Race, i: nat): nat
    requires i < |s.pc| && i < |s.closes|
  {
    Bit(s.pc[i] == HasConn || s.pc[i] == Closing) + multiset(s.chan)[i]
    + Bit(s.main == Discarding(i)) + Bit(s.winner == Some(i)) + s.closes[i]
  }

  predicate Shape(s: Race)
  {
    && |s.pc| == |s.est| == |s.closes|
    && (forall c :: c in s.chan ==> c < |s.pc|)
    && (s.main.Discarding? ==> s.main.conn < |s.pc|)
    && (s.winner.Some? ==> s.winner.value < |s.pc|)
  }

  /** Conservation: an established connection is in exactly one place, another in none. */
  predicate Conserved(s: Race)
    requires Shape(s)
  {
    forall i :: 0 <= i < |s.pc| ==>
      Holders(s, i) == Bit(s.est[i]) && (s.pc[i] == Dialing ==> !s.est[i])
  }

  predicate Counted(s: Race)
  {
    && s.wg == Sum(s.pc, Live)
    && |s.chan| + Sum(s.pc, Unsent) <= |s.pc|
    && (s.chanClosed ==> s.wg == 0)
    && (s.main.Returned? ==> s.chanClosed && s.chan == [])
  }

  /** Nothing is closed, and nobody gives up, before there is a winner. */
  predicate WinnerFirst(s: Race)
    requires Shape(s)
  {
    (s.cancelled || s.main.Cancelling? || s.main.Discarding?
     || exists i :: 0 <= i < |s.pc| && (s.closes[i] > 0 || s.pc[i] == Closing)) ==> s.winner.Some?
  }

  predicate Inv(s: Race)
  {
    Shape(s) && Conserved(s) && Counted(s) && WinnerFirst(s)
  }

  lemma StartInv(concur: nat)
    ensures Inv(Start(concur))
  {
    SumStart(concur, Live);
    SumStart(concur, Unsent);
  }

  lemma WorkerCounted(s: Race, e: Event)
    requires Inv(s) && Enabled(s, e)
    requires e.DialFails? || e.DialWorks? || e.Sends? || e.GivesUp? || e.ClosesOwn? || e.Leaves?
    ensures Counted(Step(s, e))
  {
    Moves(s, e.i, Step(s, e).pc[e.i]);
  }

  lemma MainCounted(s: Race, e: Event)
    requires Inv(s) && Enabled(s, e)
    requires e.ClosesChannel? || e.Receives? || e.Cancels? || e.Discards? || e.Ends?
    ensures Counted(Step(s, e))
  {}

  lemma StepCounted(s: Race, e: Event)
    requires Inv(s) && Enabled(s, e)
    ensures Counted(Step(s, e))
  {
    if e.ClosesChannel? || e.Receives? || e.Cancels? || e.Discards? || e.Ends? {
      MainCounted(s, e);
    } else {
      WorkerCounted(s, e);
    }
  }

  lemma Moves(s: Race, i: nat, p: Pc)
    requires i < |s.pc|
    ensures Sum(s.pc[i := p], Live) + Live(s.pc[i]) == Sum(s.pc, Live) + Live(p)
    ensures Sum(s.pc[i := p], Unsent) + Unsent(s.pc[i]) == Sum(s.pc, Unsent) + Unsent(p)
    ensures Live(s.pc[i]) <= Sum(s.pc, Live)
  {
    SumUpdate(s.pc, i, p, Live);
    SumUpdate(s.pc, i, p, Unsent);
    SumAtLeast(s.pc, i, Live);
  }

  lemma StepShape(s: Race, e: Event)
    requires Inv(s) && Enabled(s, e)
    ensures Shape(Step(s, e))
  {
    if e.Receives? {
      assert s.chan[0] in s.chan;
      assert forall c :: c in s.chan[1..] ==> c in s.chan;
    }
  }

  lemma StepWinnerFirst(s: Race, e: Event)
    requires Inv(s) && Enabled(s, e) && Shape(Step(s, e))
    ensures WinnerFirst(Step(s, e))
  {
    var t := Step(s, e);
    if t.winner.None? {
      assert forall i :: 0 <= i < |s.pc| ==> s.closes[i] == 0 && s.pc[i] != Closing;
      assert forall i :: 0 <= i < |t.pc| ==> t.closes[i] == 0 && t.pc[i] != Closing;
    }
  }

  lemma ReceiveConserves(s: Race, i: nat)
    requires Inv(s) && Enabled(s, Receives) && i < |s.pc|
    ensures Holders(Step(s, Receives), i) == Holders(s, i)
  {
    assert s.chan == [s.chan[0]] + s.chan[1..];
    assert multiset(s.chan) == multiset{s.chan[0]} + multiset(s.chan[1..]);
  }

  lemma WorkerConserves(s: Race, e: Event, i: nat)
    requires Shape(s) && Enabled(s, e) && (e.Sends? || e.GivesUp? || e.ClosesOwn? || e.Leaves?) && i < |s.pc|
    ensures Holders(Step(s, e), i) == Holders(s, i)
  {
    if e.Sends? {
      assert multiset(s.chan + [e.i]) == multiset(s.chan) + multiset{e.i};
    }
  }

  lemma MainConserves(s: Race, e: Event, i: nat)
    requires Shape(s) && Enabled(s, e) && (e.ClosesChannel? || e.Cancels? || e.Discards? || e.Ends?) && i < |s.pc|
    ensures Holders(Step(s, e), i) == Holders(s, i)
  {}

  lemma StepConserved(s: Race, e: Event)
    requires Inv(s) && Enabled(s, e) && Shape(Step(s, e))
    ensures Conserved(Step(s, e))
  {
    var t := Step(s, e);
    forall i | 0 <= i < |t.pc|
      ensures Holders(t, i) == Bit(t.est[i]) && (t.pc[i] == Dialing ==> !t.est[i])
    {
      assert Holders(s, i) == Bit(s.est[i]) && (s.pc[i] == Dialing ==> !s.est[i]);
      if e.Receives? {
        ReceiveConserves(s, i);
      } else if e.Sends? || e.GivesUp? || e.ClosesOwn? || e.Leaves? {
        WorkerConserves(s, e, i);
      } else if !e.DialFails? && !e.DialWorks? {
        MainConserves(s, e, i);
      }
    }
  }

  lemma {:induction false} RunInv(s: Race, es: seq<Event>)
    requires Inv(s) && Legal(s, es)
    ensures Inv(Run(s, es))
    decreases |es|
  {
    if es != [] {
      StepCounted(s, es[0]);
      StepShape(s, es[0]);
      StepWinnerFirst(s, es[0]);
      StepConserved(s, es[0]);
      RunInv(Step(s, es[0]), es[1..]);
    }
  }

  lemma {:induction false} AllDone(pc: seq<Pc>, i: nat)
    requires Sum(pc, Live) == 0 && i < |pc|
    ensures pc[i] == Done
  {
    SumAtLeast(pc, i, Live);
  }

  /** Ownership: when the race returns, its winner is the only open connection, every other
      established one has been closed exactly once, and it fails exactly when no dial succeeded. */
  lemma Ownership(concur: nat, es: seq<Event>)
    requires Legal(Start(concur), es) && Run(Start(concur), es).main.Returned?
    ensures var s := Run(Start(concur), es);
            && |s.pc| == |s.est| == |s.closes| == concur
            && (forall i :: 0 <= i < concur ==>
                  s.closes[i] == if s.est[i] && s.winner != Some(i) then 1 else 0)
            && (s.winner.Some? ==> s.winner.value < concur && s.est[s.winner.value])
            && (s.winner.None? <==> forall i :: 0 <= i < concur ==> !s.est[i])
            && (forall i :: 0 <= i < concur ==> s.pc[i] == Done)
  {
    StartInv(concur);
    RunInv(Start(concur), es);
    WidthFixed(Start(concur), es);
    var s := Run(Start(concur), es);
    forall i | 0 <= i < concur
      ensures s.pc[i] == Done && s.closes[i] + Bit(s.winner == Some(i)) == Bit(s.est[i])
    {
      AllDone(s.pc, i);
      assert Holders(s, i) == Bit(s.est[i]);
    }
  }

  // ----- who wins -----

  /** The attempt that sends its connection first, read off the run. */
  function FirstSent(es: seq<Event>): Option<nat>
  {
    if es == [] then None
    else if es[0].Sends? then Some(es[0].i)
    else FirstSent(es[1..])
  }

  /** The winner, or who will be it: the head of the channel. */
  function Leader(s: Race): Option<nat>
  {
    if s.winner.Some? then s.winner else if s.chan != [] then Some(s.chan[0]) else None
  }

  lemma StepLeader(s: Race, e: Event)
    requires Enabled(s, e)
    ensures Leader(Step(s, e)) == if Leader(s).Some? then Leader(s) else if e.Sends? then Some(e.i) else None
    ensures s.winner.Some? ==> Step(s, e).winner == s.winner
    ensures (s.winner.Some? <==> s.cancelled || s.main.Cancelling?) && (s.main.Discarding? ==> s.winner.Some?) ==>
              var t := Step(s, e);
              (t.winner.Some? <==> t.cancelled || t.main.Cancelling?) && (t.main.Discarding? ==> t.winner.Some?)
  {}

  lemma {:induction false} RunLeader(s: Race, es: seq<Event>)
    requires Legal(s, es)
    requires (s.winner.Some? <==> s.cancelled || s.main.Cancelling?) && (s.main.Discarding? ==> s.winner.Some?)
    ensures var z := Run(s, es);
            && Leader(z) == (if Leader(s).Some? then Leader(s) else FirstSent(es))
            && (s.winner.Some? ==> z.winner == s.winner)
            && (z.winner.Some? <==> z.cancelled || z.main.Cancelling?)
    decreases |es|
  {
    if es != [] {
      StepLeader(s, es[0]);
      RunLeader(Step(s, es[0]), es[1..]);
    }
  }

  /** The fastest connection wins: in every run the winner, once there is one, is the first that was sent,
      it never changes, and it is followed at once by the cancellation, which nothing else causes; and when
      the race returns, there is a winner exactly if anything was sent. */
  lemma FirstSentWins(concur: nat, es: seq<Event>, later: seq<Event>)
    requires Legal(Start(concur), es) && Legal(Run(Start(concur), es), later)
    ensures var s := Run(Start(concur), es);
            && (s.winner.Some? ==> s.winner == FirstSent(es) && Run(s, later).winner == s.winner)
            && (s.winner.Some? <==> s.cancelled || s.main.Cancelling?)
            && (s.main.Returned? ==> s.winner == FirstSent(es))
  {
    StartInv(concur);
    RunInv(Start(concur), es);
    RunLeader(Start(concur), es);
    RunLeader(Run(Start(concur), es), later);
  }

  lemma {:induction false} WidthFixed(s: Race, es: seq<Event>)
    requires Legal(s, es)
    ensures |Run(s, es).pc| == |s.pc|
    decreases |es|
  {
    if es != [] {
      WidthFixed(Step(s, es[0]), es[1..]);
    }
  }

  /** A goroutine with a connection in hand can always send it: the channel is neither full nor closed. */
  lemma SendNeverBlocks(concur: nat, es: seq<Event>, i: nat)
    requires Legal(Start(concur), es) && At(Run(Start(concur), es), i, HasConn)
    ensures Enabled(Run(Start(concur), es), Sends(i))
  {
    StartInv(concur);
    RunInv(Start(concur), es);
    var s := Run(Start(concur), es);
    SumAtLeast(s.pc, i, Unsent);
    SumAtLeast(s.pc, i, Live);
  }

  /** The race cannot get stuck: until it returns, some step is possible. */
  lemma NeverStuck(concur: nat, es: seq<Event>) returns (e: Event)
    requires Legal(Start(concur), es) && !Run(Start(concur), es).main.Returned?
    ensures Enabled(Run(Start(concur), es), e)
  {
    StartInv(concur);
    RunInv(Start(concur), es);
    var s := Run(Start(concur), es);
    if s.main.Cancelling? {
      e := Cancels;
    } else if s.main.Discarding? {
      e := Discards;
    } else if s.chan != [] {
      e := Receives;
    } else if s.chanClosed {
      e := Ends;
    } else if s.wg == 0 {
      e := ClosesChannel;
    } else {
      var i := LiveOne(s.pc);
      SumAtLeast(s.pc, i, Unsent);
      e := match s.pc[i]
           case Dialing => DialFails(i)
           case HasConn => Sends(i)
           case Closing => ClosesOwn(i)
           case _ => Leaves(i);
    }
  }

  lemma {:induction false} LiveOne(pc: seq<Pc>) returns (i: nat)
    requires Sum(pc, Live) > 0
    ensures i < |pc| && pc[i] != Done
  {
    if pc[0] != Done {
      i := 0;
    } else {
      i := LiveOne(pc[1..]);
      i := i + 1;
    }
  }

  function Variant(s: Race): nat
  {
    Sum(s.pc, Rank) + 2 * |s.chan| + Bit(s.main.Cancelling? || s.main.Discarding?)
    + Bit(!s.chanClosed) + Bit(!s.main.Returned?)
  }

  lemma StepShrinks(s: Race, e: Event)
    requires Enabled(s, e)
    ensures Variant(Step(s, e)) < Variant(s)
  {
    match e
    case DialFails(i) => SumUpdate(s.pc, i, Exiting, Rank);
    case DialWorks(i) => SumUpdate(s.pc, i, HasConn, Rank);
    case Sends(i) => SumUpdate(s.pc, i, Exiting, Rank);
    case GivesUp(i) => SumUpdate(s.pc, i, Closing, Rank);
    case ClosesOwn(i) => SumUpdate(s.pc, i, Exiting, Rank);
    case Leaves(i) => SumUpdate(s.pc, i, Done, Rank);
    case _ =>
  }

  /** ... and no run is longer than `6 * concur + 2` steps, so with `NeverStuck` every race returns. */
  lemma RunsAreShort(concur: nat, es: seq<Event>)
    requires Legal(Start(concur), es)
    ensures |es| <= 6 * concur + 2
  {
    SumStart(concur, Rank);
    Shrinks(Start(concur), es);
  }

  lemma {:induction false} Shrinks(s: Race, es: seq<Event>)
    requires Legal(s, es)
    ensures |es| <= Variant(s)
    decreases |es|
  {
    if es != [] {
      StepShrinks(s, es[0]);
      Shrinks(Step(s, es[0]), es[1..]);
    }
  }
}
