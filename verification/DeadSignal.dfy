/** `signalDead` called by any number of goroutines at once: the error is stored under `deadMu`,
    and only afterwards does `deadOnce` close the channel (internal/transport/wsconn.go). */
module DeadSignal {
  import opened Bytes

  datatype Caller<E> = Idle | Entered(err: E) | Stored | Returned

  datatype State<E> = State(deadErr: Option<E>, closes: nat, callers: seq<Caller<E>>)

  datatype Event<E> = Enter(i: nat, err: E) | Store(i: nat) | CloseOnce(i: nat)

  predicate Enabled<E>(s: State<E>, e: Event<E>)
  {
    e.i < |s.callers| && match e
                         case Enter(i, _) => s.callers[i].Idle?
                         case Store(i) => s.callers[i].Entered?
                         case CloseOnce(i) => s.callers[i].Stored?
  }

  function Step<E>(s: State<E>, e: Event<E>): State<E>
    requires Enabled(s, e)
  {
    match e
    case Enter(i, err) => s.(callers := s.callers[i := Entered(err)])
    case Store(i) =>
      s.(deadErr := if s.deadErr.None? then Some(s.callers[i].err) else s.deadErr,
         callers := s.callers[i := Stored])
    case CloseOnce(i) =>
      s.(closes := if s.closes == 0 then 1 else s.closes, callers := s.callers[i := Returned])
  }

  predicate Legal<E>(s: State<E>, es: seq<Event<E>>)
    decreases |es|
  {
    es == [] || (Enabled(s, es[0]) && Legal(Step(s, es[0]), es[1..]))
  }

  function Run<E>(s: State<E>, es: seq<Event<E>>): State<E>
    requires Legal(s, es)
    decreases |es|
  {
    if es == [] then s else Run(Step(s, es[0]), es[1..])
  }

  predicate Inv<E>(s: State<E>)
  {
    && s.closes <= 1
    && (s.closes == 1 ==> s.deadErr.Some?)
    && (forall i :: 0 <= i < |s.callers| ==>
          (s.callers[i].Stored? ==> s.deadErr.Some?) && (s.callers[i].Returned? ==> s.closes == 1))
  }

  /** The dead channel is closed at most once; an error is stored before that, and the one stored
      first stays for the rest of every run; a caller returns only from a dead connection. */
  lemma {:induction false} WriteOnceDeath<E>(s: State<E>, es: seq<Event<E>>)
    requires Inv(s) && Legal(s, es)
    ensures Inv(Run(s, es))
    ensures s.deadErr.Some? ==> Run(s, es).deadErr == s.deadErr
    ensures s.closes == 1 ==> Run(s, es).closes == 1 && Run(s, es).deadErr == s.deadErr && s.deadErr.Some?
    decreases |es|
  {
    if es != [] {
      WriteOnceDeath(Step(s, es[0]), es[1..]);
    }
  }

  /** Lines 158-164 of cmd/client/main.go: whoever has seen the channel closed reads a non-nil
      error, so the EOF fallback is never taken, however many goroutines are still in `signalDead`. */
  lemma NoFallback<E>(callers: nat, seen: seq<Event<E>>, later: seq<Event<E>>)
    requires var s := State(None, 0, seq(callers, _ => Idle));
             Legal(s, seen) && Run(s, seen).closes > 0 && Legal(Run(s, seen), later)
    ensures var s := State(None, 0, seq(callers, _ => Idle));
            Run(Run(s, seen), later).deadErr == Run(s, seen).deadErr && Run(s, seen).deadErr.Some?
  {
    WriteOnceDeath(State(None, 0, seq(callers, _ => Idle)), seen);
    WriteOnceDeath(Run(State(None, 0, seq(callers, _ => Idle)), seen), later);
  }
}
