/** `handleTCPStream` (internal/relay/tcp.go): a reader goroutine, a dialer goroutine, the main
    loop and the goroutine that copies back, joined by three buffered channels and one cancellation,
    as interleaved steps. */
module TcpPipe {
  import opened Bytes

  const DATA_CAP := 1024
  const ERR_CAP := 2
  const DIAL_CAP := 1

  /** A reader that is `Leaving` runs its deferred close of `dataCh`, and then it is gone. */
  datatype Reader = Reading | HasData(d: seq<byte>) | HasErr | Leaving | ReaderGone

  datatype Dialer = Dialing | HasConn | DialFailed | DialerGone

  datatype Exit = NotStarted | Drained(cancelled: bool) | SawCancel | WriteFailed

  /** `Holding` is the loop between its receive from `dataCh` and the write of that chunk. */
  datatype Main = WaitDial | Pumping | Holding(chunk: seq<byte>) | Finished(how: Exit)

  /** `read` is everything the stream's Read returned; `errData` what it returned along with an error,
      `quitData` what the reader held when it saw the cancellation, `unwritten` the part of a chunk that
      a failing Write did not write. */
  datatype Pipe = Pipe(
    reader: Reader, dialer: Dialer, main: Main, cancelled: bool,
    dataCh: seq<seq<byte>>, errs: nat, conns: nat,
    read: seq<byte>, written: seq<byte>,
    errData: seq<byte>, quitData: seq<byte>, unwritten: seq<byte>)

  datatype Event =
    | StreamReads(d: seq<byte>)
    | StreamFails(d: seq<byte>)
    | SendsData
    | SendsReadErr
    | ReaderQuits
    | ClosesData
    | Dials(ok: bool)
    | SendsConn
    | SendsDialErr
    | DialerQuits
    | TakesConn
    | TakesErr
    | TimesOut
    | TakesData
    | Writes
    | WriteFails(k: nat)
    | SeesEnd
    | SeesCancel
    | CopierStops

  function Start(): Pipe
  {
    Pipe(Reading, Dialing, WaitDial, false, [], 0, 0, [], [], [], [], [])
  }

  predicate Enabled(s: Pipe, e: Event)
  {
    match e
    case StreamReads(_) => s.reader.Reading?
    case StreamFails(_) => s.reader.Reading?
    case SendsData => s.reader.HasData? && |s.dataCh| < DATA_CAP
    case SendsReadErr => s.reader.HasErr? && s.errs < ERR_CAP
    case ReaderQuits => (s.reader.HasData? || s.reader.HasErr?) && s.cancelled
    case ClosesData => s.reader.Leaving?
    case Dials(_) => s.dialer.Dialing?
    case SendsConn => s.dialer.HasConn? && s.conns < DIAL_CAP
    case SendsDialErr => s.dialer.DialFailed? && s.errs < ERR_CAP
    case DialerQuits => (s.dialer.HasConn? || s.dialer.DialFailed?) && s.cancelled
    case TakesConn => s.main.WaitDial? && s.conns > 0
    case TakesErr => s.main.WaitDial? && s.errs > 0
    case TimesOut => s.main.WaitDial?
    case TakesData => s.main.Pumping? && s.dataCh != []
    case Writes => s.main.Holding?
    case WriteFails(k) => s.main.Holding? && k <= |s.main.chunk|
    case SeesEnd => s.main.Pumping? && s.dataCh == [] && s.reader.ReaderGone?
    case SeesCancel => s.main.Pumping? && s.cancelled
    case CopierStops => s.main.Pumping? || s.main.Holding?
  }

  function Step(s: Pipe, e: Event): Pipe
    requires Enabled(s, e)
  {
    match e
    case StreamReads(d) =>
      if d == [] then s else s.(reader := HasData(d), read := s.read + d)
    case StreamFails(d) => s.(reader := HasErr, read := s.read + d, errData := d)
    case SendsData => s.(reader := Reading, dataCh := s.dataCh + [s.reader.d])
    case SendsReadErr => s.(reader := Leaving, errs := s.errs + 1)
    case ReaderQuits =>
      s.(reader := Leaving, quitData := if s.reader.HasData? then s.reader.d else [])
    case ClosesData => s.(reader := ReaderGone)
    case Dials(ok) => s.(dialer := if ok then HasConn else DialFailed)
    case SendsConn => s.(dialer := DialerGone, conns := s.conns + 1)
    case SendsDialErr => s.(dialer := DialerGone, errs := s.errs + 1)
    case DialerQuits => s.(dialer := DialerGone)
    case TakesConn => s.(main := Pumping, conns := s.conns - 1)
    case TakesErr => s.(main := Finished(NotStarted), errs := s.errs - 1, cancelled := true)
    case TimesOut => s.(main := Finished(NotStarted), cancelled := true)
    case TakesData => s.(dataCh := s.dataCh[1..], main := Holding(s.dataCh[0]))
    case Writes => s.(written := s.written + s.main.chunk, main := Pumping)
    case WriteFails(k) =>
      s.(written := s.written + s.main.chunk[..k], unwritten := s.main.chunk[k..],
         main := Finished(WriteFailed), cancelled := true)
    case SeesEnd => s.(main := Finished(Drained(s.cancelled)), cancelled := true)
    case SeesCancel => s.(main := Finished(SawCancel), cancelled := true)
    case CopierStops => s.(cancelled := true)
  }

  predicate Legal(s: Pipe, es: seq<Event>)
    decreases |es|
  {
    es == [] || (Enabled(s, es[0]) && Legal(Step(s, es[0]), es[1..]))
  }

  function Run(s: Pipe, es: seq<Event>): Pipe
    requires Legal(s, es)
    decreases |es|
  {
    if es == [] then s else Run(Step(s, es[0]), es[1..])
  }

  function Held(s: Pipe): seq<byte>
  {
    if s.reader.HasData? then s.reader.d else []
  }

  predicate ReaderDone(s: Pipe)
  {
    s.reader.Leaving? || s.reader.ReaderGone?
  }

  /** The chunk in the loop's hand, or what a failing write left of it. */
  function Taken(s: Pipe): seq<byte>
  {
    if s.main.Holding? then s.main.chunk else s.unwritten
  }

  /** What comes behind the bytes written and taken: queued, in the reader's hand, or thrown away by the
      reader as its last act. */
  function Behind(s: Pipe): seq<byte>
  {
    Flat(s.dataCh) + (Held(s) + (s.errData + s.quitData))
  }

  predicate Flags(s: Pipe)
  {
    && (s.errData != [] ==> (s.reader.HasErr? || ReaderDone(s)) && s.quitData == [])
    && (s.quitData != [] ==> ReaderDone(s) && s.cancelled)
    && (s.unwritten != [] ==> s.main == Finished(WriteFailed))
    && (s.main.Finished? && s.main.how.Drained? ==>
          s.dataCh == [] && s.reader.ReaderGone? && (s.quitData != [] ==> s.main.how.cancelled))
  }

  /** Everything read, in order: written, in the loop's hand or cut off by a failing write, and behind. */
  predicate Accounts(s: Pipe)
  {
    Flags(s) && s.read == s.written + (Taken(s) + Behind(s))
  }

  predicate Bounds(s: Pipe)
  {
    && |s.dataCh| <= DATA_CAP
    && s.errs + (if ReaderDone(s) then 0 else 1) + (if s.dialer.DialerGone? then 0 else 1) <= ERR_CAP
    && s.conns + (if s.dialer.DialerGone? then 0 else 1) <= DIAL_CAP
  }

  lemma StepBounds(s: Pipe, e: Event)
    requires Bounds(s) && Enabled(s, e)
    ensures Bounds(Step(s, e))
  {}

  lemma StepFlags(s: Pipe, e: Event)
    requires Flags(s) && Enabled(s, e)
    ensures Flags(Step(s, e))
  {}

  lemma Regroup(w: seq<byte>, a: seq<byte>, b: seq<byte>, rest: seq<byte>)
    ensures w + ((a + b) + rest) == (w + a) + (b + rest)
  {}

  lemma AddAtEnd(w: seq<byte>, a: seq<byte>, b: seq<byte>, more: seq<byte>)
    ensures w + (a + (b + more)) == (w + (a + b)) + more
  {}

  /** The reader's steps move bytes about behind the ones already taken, or add to them. */
  lemma ReaderMoves(s: Pipe, e: Event)
    requires Flags(s) && Enabled(s, e)
    requires e.StreamReads? || e.StreamFails? || e.SendsData? || e.SendsReadErr? || e.ReaderQuits? || e.ClosesData?
    ensures Behind(Step(s, e)) == Behind(s) + if e.StreamReads? || e.StreamFails? then e.d else []
  {
    var q, h, last := Flat(s.dataCh), Held(s), s.errData + s.quitData;
    if e.SendsData? {
      FlatSnoc(s.dataCh, s.reader.d);
      assert [] + last == last && (q + h) + last == q + (h + last);
    } else if e.StreamReads? || e.StreamFails? {
      assert h == [] && last == [];
      assert q + (e.d + ([] + [])) == (q + ([] + ([] + []))) + e.d == q + ([] + (e.d + []));
    }
  }

  lemma ReaderAccounts(s: Pipe, e: Event)
    requires Accounts(s) && Enabled(s, e)
    requires e.StreamReads? || e.StreamFails? || e.SendsData? || e.SendsReadErr? || e.ReaderQuits? || e.ClosesData?
    ensures Accounts(Step(s, e))
  {
    var more := if e.StreamReads? || e.StreamFails? then e.d else [];
    ReaderMoves(s, e);
    StepFlags(s, e);
    AddAtEnd(s.written, Taken(s), Behind(s), more);
    assert s.read == s.read + [];
  }

  lemma TakeAccounts(s: Pipe)
    requires Accounts(s) && Enabled(s, TakesData)
    ensures Accounts(Step(s, TakesData))
  {
    var d, rest, last := s.dataCh[0], Flat(s.dataCh[1..]), Held(s) + (s.errData + s.quitData);
    StepFlags(s, TakesData);
    assert Taken(s) == [] && [] + Behind(s) == Behind(s);
    assert Behind(s) == (d + rest) + last == d + (rest + last);
  }

  lemma WriteAccounts(s: Pipe, e: Event)
    requires Accounts(s) && Enabled(s, e) && (e.Writes? || e.WriteFails?)
    ensures Accounts(Step(s, e))
  {
    var d := s.main.chunk;
    var k := if e.Writes? then |d| else e.k;
    assert Step(s, e).written == s.written + d[..k] && Taken(Step(s, e)) == d[k..] by {
      assert d[..|d|] == d;
    }
    StepFlags(s, e);
    assert d[..k] + d[k..] == d;
    Regroup(s.written, d[..k], d[k..], Behind(s));
  }

  lemma OtherAccounts(s: Pipe, e: Event)
    requires Accounts(s) && Enabled(s, e)
    requires e.Dials? || e.SendsConn? || e.SendsDialErr? || e.DialerQuits? || e.TakesConn? || e.TakesErr?
             || e.TimesOut? || e.SeesEnd? || e.SeesCancel? || e.CopierStops?
    ensures Accounts(Step(s, e))
  {
    StepFlags(s, e);
  }

  lemma {:induction false} RunKeeps(s: Pipe, es: seq<Event>)
    requires Accounts(s) && Bounds(s) && Legal(s, es)
    ensures Accounts(Run(s, es)) && Bounds(Run(s, es))
    decreases |es|
  {
    if es != [] {
      var e := es[0];
      StepBounds(s, e);
      match e {
        case TakesData => TakeAccounts(s);
        case Writes => WriteAccounts(s, e);
        case WriteFails(_) => WriteAccounts(s, e);
        case StreamReads(_) => ReaderAccounts(s, e);
        case StreamFails(_) => ReaderAccounts(s, e);
        case SendsData => ReaderAccounts(s, e);
        case SendsReadErr => ReaderAccounts(s, e);
        case ReaderQuits => ReaderAccounts(s, e);
        case ClosesData => ReaderAccounts(s, e);
        case _ => OtherAccounts(s, e);
      }
      RunKeeps(Step(s, e), es[1..]);
    }
  }

  /** In every interleaving the target gets a prefix of what the stream delivered, including what was
      buffered before the dial finished. */
  lemma OrderKept(es: seq<Event>)
    requires Legal(Start(), es)
    ensures Run(Start(), es).written <= Run(Start(), es).read
  {
    RunKeeps(Start(), es);
  }

  /** If the loop ends because `dataCh` is closed and drained while nothing was cancelled, the target
      has got everything but the bytes that the last Read returned along with its error - so all of it
      exactly when reads return either data or an error. */
  lemma DrainedIsComplete(es: seq<Event>)
    requires Legal(Start(), es) && Run(Start(), es).main == Finished(Drained(false))
    ensures var s := Run(Start(), es);
            s.read == s.written + s.errData && (s.written == s.read <==> s.errData == [])
  {
    RunKeeps(Start(), es);
    var s := Run(Start(), es);
    assert s.quitData == [] && s.unwritten == [] && s.dataCh == [] && Held(s) == [];
    assert s.errData + [] == s.errData;
    assert s.read == s.written + s.errData;
  }

  /** No goroutine waits for the error channel or the dial channel, whatever the main loop does. */
  lemma ErrorsNeverBlock(es: seq<Event>)
    requires Legal(Start(), es)
    ensures var s := Run(Start(), es);
            && (s.reader.HasErr? ==> Enabled(s, SendsReadErr))
            && (s.dialer.DialFailed? ==> Enabled(s, SendsDialErr))
            && (s.dialer.HasConn? ==> Enabled(s, SendsConn))
  {
    RunKeeps(Start(), es);
  }

  /** A reader that does wait, for `dataCh`, is let go by the main loop or by the cancellation: as
      long as it waits, some step of the loop is possible or it can quit. */
  lemma ReaderIsReleased(es: seq<Event>) returns (e: Event)
    requires Legal(Start(), es) && Run(Start(), es).reader.HasData?
    ensures Enabled(Run(Start(), es), e)
    ensures e.SendsData? || e.ReaderQuits? || e.TakesData? || e.Writes? || e.TimesOut?
  {
    RunKeeps(Start(), es);
    FinishedIsCancelled(Start(), es);
    var s := Run(Start(), es);
    if |s.dataCh| < DATA_CAP {
      e := SendsData;
    } else if s.main.Finished? {
      e := ReaderQuits;
    } else if s.main.Pumping? {
      e := TakesData;
    } else if s.main.Holding? {
      e := Writes;
    } else {
      e := TimesOut;
    }
  }

  lemma {:induction false} FinishedIsCancelled(s: Pipe, es: seq<Event>)
    requires Legal(s, es) && (s.main.Finished? ==> s.cancelled)
    ensures Run(s, es).main.Finished? ==> Run(s, es).cancelled
    decreases |es|
  {
    if es != [] {
      FinishedIsCancelled(Step(s, es[0]), es[1..]);
    }
  }

  // ----- how the relay ends -----

  /** The main loop has heard of an error, a timeout, a failing write, the end of the data, or the
      cancellation. */
  predicate Ends(e: Event)
  {
    e.TakesErr? || e.TimesOut? || e.WriteFails? || e.SeesEnd? || e.SeesCancel?
  }

  predicate Ended(es: seq<Event>)
  {
    es != [] && (Ends(es[0]) || Ended(es[1..]))
  }

  predicate CopierStopped(es: seq<Event>)
  {
    es != [] && (es[0].CopierStops? || CopierStopped(es[1..]))
  }

  predicate Connected(es: seq<Event>)
  {
    es != [] && (es[0].TakesConn? || Connected(es[1..]))
  }

  predicate Started(s: Pipe)
  {
    !s.main.WaitDial? && s.main != Finished(NotStarted)
  }

  lemma {:induction false} RunEnds(s: Pipe, es: seq<Event>)
    requires Legal(s, es)
    ensures var z := Run(s, es);
            && (z.main.Finished? <==> s.main.Finished? || Ended(es))
            && (z.cancelled <==> s.cancelled || Ended(es) || CopierStopped(es))
            && (Started(z) <==> Started(s) || Connected(es))
            && (s.main.Finished? ==> z.written == s.written && z.main == s.main)
    decreases |es|
  {
    if es != [] {
      RunEnds(Step(s, es[0]), es[1..]);
    }
  }

  /** The relay has ended exactly if its loop was told so; it is cancelled exactly then or when the copier
      has stopped; it got past the dial exactly if a connection came; and after its end nothing is written. */
  lemma EndedIff(es: seq<Event>, later: seq<Event>)
    requires Legal(Start(), es) && Legal(Run(Start(), es), later)
    ensures var s := Run(Start(), es);
            && (s.main.Finished? <==> Ended(es))
            && (s.cancelled <==> Ended(es) || CopierStopped(es))
            && (Started(s) <==> Connected(es))
            && (s.main.Finished? ==> Run(s, later).written == s.written && Run(s, later).main == s.main)
  {
    RunEnds(Start(), es);
    RunEnds(Run(Start(), es), later);
  }

  lemma RunOne(s: Pipe, a: Event)
    requires Enabled(s, a)
    ensures Legal(s, [a]) && Run(s, [a]) == Step(s, a)
  {
    var es := [a];
    assert es[0] == a && es[1..] == [];
    assert Legal(Step(s, a), []);
  }

  lemma RunTwo(s: Pipe, a: Event, b: Event)
    requires Enabled(s, a) && Enabled(Step(s, a), b)
    ensures Legal(s, [a, b]) && Run(s, [a, b]) == Step(Step(s, a), b)
  {
    var es := [a, b];
    assert es[0] == a && es[1..] == [b];
    RunOne(Step(s, a), b);
  }

  /** A failed dial, or a failed read, ends a waiting relay in two steps, before anything was written. */
  lemma ErrorEnds(es: seq<Event>) returns (next: seq<Event>)
    requires Legal(Start(), es) && Run(Start(), es).main.WaitDial?
    requires Run(Start(), es).dialer.DialFailed? || Run(Start(), es).reader.HasErr?
    ensures Legal(Run(Start(), es), next) && |next| <= 2
    ensures var z := Run(Run(Start(), es), next);
            z.main == Finished(NotStarted) && z.cancelled && z.written == []
  {
    var s := Run(Start(), es);
    RunKeeps(Start(), es);
    NothingBeforeConnection(Start(), es);
    var sends := if s.dialer.DialFailed? then SendsDialErr else SendsReadErr;
    next := [sends, TakesErr];
    RunTwo(s, sends, TakesErr);
  }

  /** A connection starts a waiting relay in two steps. */
  lemma ConnectionStarts(es: seq<Event>) returns (next: seq<Event>)
    requires Legal(Start(), es) && Run(Start(), es).main.WaitDial? && Run(Start(), es).dialer.HasConn?
    ensures Legal(Run(Start(), es), next) && |next| <= 2
    ensures Run(Run(Start(), es), next).main == Pumping
  {
    RunKeeps(Start(), es);
    next := [SendsConn, TakesConn];
    RunTwo(Run(Start(), es), SendsConn, TakesConn);
  }

  /** When the copier has stopped, the loop ends after at most the chunk it holds. */
  lemma CopierEndStops(es: seq<Event>) returns (next: seq<Event>)
    requires Legal(Start(), es) && CopierStopped(es) && !Run(Start(), es).main.Finished?
    ensures Legal(Run(Start(), es), next) && |next| <= 2
    ensures Run(Run(Start(), es), next).main == Finished(SawCancel)
  {
    var s := Run(Start(), es);
    RunEnds(Start(), es);
    CopierNeedsConnection(Start(), es);
    if s.main.Holding? {
      next := [Writes, SeesCancel];
      RunTwo(s, Writes, SeesCancel);
    } else {
      next := [SeesCancel];
      RunOne(s, SeesCancel);
    }
  }

  lemma {:induction false} NothingBeforeConnection(s: Pipe, es: seq<Event>)
    requires Legal(s, es) && (Started(s) || s.written == [])
    ensures Started(Run(s, es)) || Run(s, es).written == []
    decreases |es|
  {
    if es != [] {
      NothingBeforeConnection(Step(s, es[0]), es[1..]);
    }
  }

  lemma {:induction false} CopierNeedsConnection(s: Pipe, es: seq<Event>)
    requires Legal(s, es) && CopierStopped(es)
    ensures Started(Run(s, es))
    decreases |es|
  {
    RunEnds(s, es);
    if es[0].CopierStops? {
      RunEnds(Step(s, es[0]), es[1..]);
    } else {
      CopierNeedsConnection(Step(s, es[0]), es[1..]);
    }
  }
}
