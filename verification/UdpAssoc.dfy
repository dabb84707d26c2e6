/** `UDPAssociation` (cmd/client/main.go): a small state machine behind one lock, whose callers act on
    what they saw under the lock only after releasing it. */
module UdpAssoc {
  import opened Bytes

  /** What a `Close` that got through still has to do after unlocking. */
  datatype Tail = Tail(stream: Option<nat>, target: seq<byte>, chID: int, done: bool)

  /** An open or close event, as it is logged. */
  datatype Log = Log(target: seq<byte>, channel: int)

  /** The fields of the struct, and then history: the tunnel streams opened and closed, the open and close
      events logged, the streams that senders carry out of the lock. */
  datatype Assoc = Assoc(
    closed: bool, receiving: bool, channelID: int, target: seq<byte>, stream: Option<nat>,
    streams: seq<OpenStream>, streamCloses: seq<nat>, openEvents: seq<Log>, closeEvents: seq<Log>,
    tails: seq<Tail>, carried: seq<Option<nat>>)

  /** `openUDPStream`: a fresh stream on channel `chID`, or an error. */
  datatype Open = Opened(stream: nat, chID: int) | OpenFailed

  type OpenStream = o: Open | o.Opened? witness Opened(0, 1)

  datatype Event =
    | Send(target: seq<byte>, open: Open)
    | Close
    | TailRuns(i: nat)

  function Start(): Assoc
  {
    Assoc(false, false, -1, [], None, [], [], [], [], [], [])
  }

  /** Lines 917-960. */
  function Sent(a: Assoc, target: seq<byte>, open: Open): Assoc
  {
    if a.closed then a
    else if !a.receiving then
      match open
      case OpenFailed => a.(receiving := true, target := target, closed := true, stream := None)
      case Opened(st, id) =>
        a.(receiving := true, target := target, stream := Some(st), channelID := id,
           streams := a.streams + [open], openEvents := a.openEvents + [Log(target, id)],
           carried := a.carried + [Some(st)])
    else
      a.(target := if target != [] && target != a.target then target else a.target,
         carried := a.carried + [a.stream])
  }

  /** Lines 991-1001. */
  function Closed(a: Assoc): Assoc
  {
    if a.closed then a
    else a.(closed := true, stream := None, tails := a.tails + [Tail(a.stream, a.target, a.channelID, false)])
  }

  /** Lines 1002-1007. */
  function TailRun(a: Assoc, i: nat): Assoc
    requires i < |a.tails|
  {
    var t := a.tails[i];
    a.(tails := a.tails[i := t.(done := true)],
       streamCloses := if t.stream.Some? then a.streamCloses + [t.stream.value] else a.streamCloses,
       closeEvents := if t.chID > 0 && t.target != [] then a.closeEvents + [Log(t.target, t.chID)]
                      else a.closeEvents)
  }

  /** Channel numbers count from 1, and every parsed packet names a target. */
  predicate Enabled(a: Assoc, e: Event)
  {
    match e
    case Send(target, open) => target != [] && (open.Opened? ==> open.chID > 0)
    case Close => true
    case TailRuns(i) => i < |a.tails| && !a.tails[i].done
  }

  function Step(a: Assoc, e: Event): Assoc
    requires Enabled(a, e)
  {
    match e
    case Send(target, open) => Sent(a, target, open)
    case Close => Closed(a)
    case TailRuns(i) => TailRun(a, i)
  }

  predicate Legal(a: Assoc, es: seq<Event>)
    decreases |es|
  {
    es == [] || (Enabled(a, es[0]) && Legal(Step(a, es[0]), es[1..]))
  }

  function Run(a: Assoc, es: seq<Event>): Assoc
    requires Legal(a, es)
    decreases |es|
  {
    if es == [] then a else Run(Step(a, es[0]), es[1..])
  }

  /** The one stream that was opened, with its channel. */
  predicate StreamOk(a: Assoc)
  {
    && |a.streams| <= 1 && |a.openEvents| == |a.streams|
    && (a.streams != [] ==>
          && a.streams[0].chID > 0 && a.target != []
          && a.channelID == a.streams[0].chID == a.openEvents[0].channel
          && (a.stream.Some? ==> a.stream.value == a.streams[0].stream)
          && forall i :: 0 <= i < |a.carried| ==> a.carried[i] == Some(a.streams[0].stream))
  }

  predicate Inv(a: Assoc)
  {
    && (a.closed ==> a.stream.None?)
    && (a.receiving && !a.closed ==> a.stream.Some?)
    && (!a.receiving ==> a.streams == [] && a.channelID == -1)
    && (a.streams == [] ==> a.stream.None? && a.channelID == -1 && a.carried == [])
    && (!a.closed ==> a.tails == [])
    && |a.tails| <= 1
    && StreamOk(a)
    && TailOk(a)
  }

  /** The stream of a closed association is with the one tail, until that has run. */
  predicate TailOk(a: Assoc)
  {
    if a.tails == [] then
      a.streamCloses == [] && a.closeEvents == [] && (a.closed ==> a.streams == [])
    else
      var t := a.tails[0];
      && (if a.streams == [] then t.stream.None? && t.chID == -1
          else t.stream == Some(a.streams[0].stream) && t.chID == a.streams[0].chID && t.target == a.target)
      && a.streamCloses == (if t.done && t.stream.Some? then [t.stream.value] else [])
      && a.closeEvents == (if t.done && t.stream.Some? then [Log(t.target, t.chID)] else [])
  }

  lemma StepKeeps(a: Assoc, e: Event)
    requires Inv(a) && Enabled(a, e)
    ensures Inv(Step(a, e))
    ensures a.closed ==> Step(a, e).closed && Step(a, e).streams == a.streams
  {}

  /** Over every run: `closed` never reverts, a live association that has started has its stream, every
      sender leaves the lock with the one tunnel stream that was opened, it is closed at most once, and
      never before the association is. */
  lemma {:induction false} RunKeeps(a: Assoc, es: seq<Event>)
    requires Inv(a) && Legal(a, es)
    ensures var z := Run(a, es);
            && Inv(z)
            && (a.closed ==> z.closed && z.streams == a.streams)
            && |z.streams| <= 1 && |z.streamCloses| <= |z.streams| && (z.streamCloses != [] ==> z.closed)
            && forall i :: 0 <= i < |z.carried| ==> z.streams != [] && z.carried[i] == Some(z.streams[0].stream)
    decreases |es|
  {
    if es != [] {
      StepKeeps(a, es[0]);
      RunKeeps(Step(a, es[0]), es[1..]);
    }
  }

  /** Once closed and settled, a stream that was opened has been closed exactly once, with one open event
      and one close event, both on the stream's own channel; without one there are no events. */
  lemma SettledExactlyOnce(es: seq<Event>)
    requires Legal(Start(), es)
    requires var z := Run(Start(), es); z.closed && forall i :: 0 <= i < |z.tails| ==> z.tails[i].done
    ensures var z := Run(Start(), es);
            && |z.streams| == |z.streamCloses| == |z.openEvents| == |z.closeEvents| <= 1
            && (z.streams != [] ==>
                  && z.streamCloses == [z.streams[0].stream]
                  && z.openEvents[0].channel == z.streams[0].chID
                  && z.closeEvents == [Log(z.target, z.streams[0].chID)])
  {
    RunKeeps(Start(), es);
  }

  class UDPAssociation {
    var closed: bool
    var receiving: bool
    var channelID: int
    var target: seq<byte>
    var stream: Option<nat>
    var streamCloses: seq<nat>
    var openEvents: seq<Log>
    var closeEvents: seq<Log>
    ghost var streams: seq<OpenStream>
    ghost var tails: seq<Tail>
    ghost var carried: seq<Option<nat>>

    ghost function Value(): Assoc
      reads this
    {
      Assoc(closed, receiving, channelID, target, stream,
            streams, streamCloses, openEvents, closeEvents, tails, carried)
    }

    constructor ()
      ensures Value() == Start() && Inv(Value())
    {
      closed, receiving, channelID, target, stream := false, false, -1, [], None;
      streamCloses, openEvents, closeEvents := [], [], [];
      streams, tails, carried := [], [], [];
    }

    /** The locked part of `send`: the stream to write the chunk to, if the association is alive. */
    method SendLocked(tgt: seq<byte>, open: Open) returns (st: Option<nat>)
      requires Inv(Value()) && Enabled(Value(), Send(tgt, open))
      modifies this
      ensures Inv(Value())
      ensures Value() == Sent(old(Value()), tgt, open)
      ensures st.Some? <==> !closed
      ensures st.Some? ==> st == stream && target == tgt && receiving
      ensures !old(closed) && !old(receiving) ==>
                if open.Opened? then st == Some(open.stream) && openEvents == old(openEvents) + [Log(tgt, open.chID)]
                else closed
      ensures old(closed) || old(receiving) ==> closed == old(closed) && openEvents == old(openEvents)
    {
      StepKeeps(Value(), Send(tgt, open));
      if closed {
        return None;
      }
      var needStart := !receiving;
      if needStart {
        receiving := true;
        target := tgt;
        if open.OpenFailed? {
          closed := true;
          stream := None;
          return None;
        }
        stream := Some(open.stream);
        channelID := open.chID;
        openEvents := openEvents + [Log(tgt, open.chID)];
        streams := streams + [open];
      } else {
        if tgt != [] && tgt != target {
          target := tgt;
        }
      }
      carried := carried + [stream];
      return stream;
    }

    /** The locked part of `Close`: what it leaves to be done after unlocking. */
    method CloseLocked() returns (tail: Option<Tail>)
      requires Inv(Value())
      modifies this
      ensures Inv(Value()) && closed && stream.None?
      ensures Value() == Closed(old(Value()))
      ensures tail == if old(closed) then None else Some(Tail(old(stream), old(target), old(channelID), false))
    {
      StepKeeps(Value(), Close);
      if closed {
        return None;
      }
      tail := Some(Tail(stream, target, channelID, false));
      closed := true;
      stream := None;
      tails := tails + [tail.value];
    }

    /** The unlocked part of `Close`. */
    method FinishClose(ghost i: nat, st: Option<nat>, tgt: seq<byte>, chID: int)
      requires Inv(Value()) && Enabled(Value(), TailRuns(i)) && tails[i] == Tail(st, tgt, chID, false)
      modifies this
      ensures Inv(Value())
      ensures Value() == TailRun(old(Value()), i)
      ensures streamCloses == old(streamCloses) + (if st.Some? then [st.value] else [])
    {
      StepKeeps(Value(), TailRuns(i));
      if st.Some? {
        streamCloses := streamCloses + [st.value];
      }
      if chID > 0 && tgt != [] {
        closeEvents := closeEvents + [Log(tgt, chID)];
      }
      tails := tails[i := tails[i].(done := true)];
    }
  }
}
