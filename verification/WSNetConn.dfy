/** `WSNetConn` with its fields and methods (internal/transport/wsconn.go). Each method is proved
    to do to its fields what `WSSpec` does to the value; `WSRun` and `WSTheorems` say what that
    adds up to. */
module WSNetConns {
  import opened Bytes
  import opened WSSpec
  import opened WSRun
  import opened WSReports

  datatype ReadResult =
    | Data(n: nat)
    | Failed(n: nat, err: Error)
    | WouldBlock

  class WSNetConn {
    const upPack: nat
    const chunkMs: nat
    const maxQueue: nat

    // read side: the message being read, and the messages the websocket holds
    var reader: Option<Frame>
    var inbound: seq<Frame>
    var inboundEnd: Option<Error>

    // death and close
    var deadErr: Option<Error>
    var deadOnce: bool
    var deadCloses: nat
    var closed: bool

    // write side
    var upQueue: seq<seq<byte>>
    var upSize: nat
    var timer: Option<nat>
    var broken: bool
    var wire: seq<Frame>

    // the runtime's timers
    var armed: set<nat>
    var fired: set<nat>
    var nextTimer: nat

    // history
    ghost var handed: seq<seq<byte>>
    ghost var accepted: seq<seq<byte>>
    ghost var ledger: seq<Entry>

    ghost function Value(): Conn
      reads this
    {
      Conn(upPack, maxQueue, upQueue, upSize, timer, armed, fired, nextTimer,
           closed, broken, deadErr, deadOnce, handed, accepted, ledger, wire)
    }

    /** `close(deadCh)` ran exactly as often as `deadOnce` allows, and the queue is what it should be. */
    ghost predicate Valid()
      reads this
    {
      && upPack > 0 && chunkMs > 0 && maxQueue > 0
      && deadCloses == (if deadOnce then 1 else 0)
      && (reader.Some? ==> !reader.value.Other?)
      && Inv(Value())
    }

    ghost function Unread(): seq<byte>
      reads this
    {
      (if reader.Some? then reader.value.data else []) + FrameBytes(inbound)
    }

    /** The message the next bytes or the next error come from: text, ping and empty ones do not count. */
    ghost function Current(): Option<Frame>
      reads this
    {
      if reader.Some? && reader.value != Binary([]) then reader else FirstFilled(inbound)
    }

    /** The read side, as the peer's half of a `World`. */
    ghost function ReadView(delivered: seq<byte>): World
      reads this
    {
      World(Init(1, 1), multiset{}, 0, inbound, reader, delivered)
    }

    constructor (upPack: int, chunkMs: int, maxQueue: int)
      ensures Valid() && Value() == Init(this.upPack, this.maxQueue)
      ensures this.upPack == if upPack <= 0 then 20 * 1024 else upPack
      ensures this.chunkMs == if chunkMs <= 0 then 20 else chunkMs
      ensures this.maxQueue == if maxQueue <= 0 then 128 * 1024 else maxQueue
    {
      this.upPack := if upPack <= 0 then 20 * 1024 else upPack;
      this.chunkMs := if chunkMs <= 0 then 20 else chunkMs;
      this.maxQueue := if maxQueue <= 0 then 128 * 1024 else maxQueue;
      reader, inbound, inboundEnd := None, [], None;
      deadErr, deadOnce, deadCloses, closed := None, false, 0, false;
      upQueue, upSize, timer, broken, wire := [], 0, None, false, [];
      armed, fired, nextTimer := {}, {}, 0;
      handed, accepted, ledger := [], [], [];
      new;
      InitInv(this.upPack, this.maxQueue);
    }

    /** The first error stays for ever, and the channel is closed at most once. */
    method SignalDead(err: Option<Error>)
      requires deadCloses == (if deadOnce then 1 else 0)
      modifies this`deadErr, this`deadOnce, this`deadCloses
      ensures deadCloses == (if deadOnce then 1 else 0)
      ensures Value() == if err.Some? then Signal(old(Value()), err.value) else old(Value())
    {
      if err.None? {
        return;
      }
      if deadErr.None? {
        deadErr := err;
      }
      if !deadOnce {
        deadOnce := true;
        deadCloses := deadCloses + 1;
      }
    }

    /** What one NextWriter / Write / Close sequence does to the socket. */
    method Transmit(m: seq<byte>, ghost group: seq<seq<byte>>, o: Outcome, ghost own: bool)
      requires m == Flat(group)
      modifies this`broken, this`wire, this`ledger
      ensures ledger == old(ledger) + [Entry(group, Reached(o, m), o.Sent?, own)]
      ensures wire == old(wire) + FrameOf(Entry(group, Reached(o, m), o.Sent?, own))
      ensures broken == (old(broken) || !o.Sent?)
    {
      if o.Sent? {
        wire := wire + [Binary(m)];
      } else {
        broken := true;
        if Reached(o, m) > 0 {
          wire := wire + [Cut(m[..Reached(o, m)])];
        }
      }
      ledger := ledger + [Entry(group, Reached(o, m), o.Sent?, own)];
    }

    /** One message to the socket, and `signalDead` if that fails. */
    method SendMessage(m: seq<byte>, ghost group: seq<seq<byte>>, o: Outcome, ghost own: bool)
      requires deadCloses == (if deadOnce then 1 else 0) && m == Flat(group)
      modifies this`broken, this`wire, this`ledger, this`deadErr, this`deadOnce, this`deadCloses
      ensures deadCloses == (if deadOnce then 1 else 0)
      ensures Value() == Send(old(Value()), group, o, own)
    {
      Transmit(m, group, o, own);
      if !o.Sent? {
        SignalDead(Some(o.err));
      }
    }

    method WriteDirect(p: array<byte>, o: Outcome) returns (n: nat, err: Option<Error>)
      requires deadCloses == (if deadOnce then 1 else 0)
      modifies this`broken, this`wire, this`ledger, this`deadErr, this`deadOnce, this`deadCloses
      ensures deadCloses == (if deadOnce then 1 else 0)
      ensures Value() == Send(old(Value()), [p[..]], o, true)
      ensures n == Reported(o, p[..]) && err == ErrOf(o)
    {
      FlatOne(p[..]);
      SendMessage(p[..], [p[..]], o, true);
      match o
      case Sent => return p.Length, None;
      case NoWriter(e) => return 0, Some(e);
      case ShortWrite(e, k, _) => return if k <= p.Length then k else p.Length, Some(e);
      case NotFinished(e, _) => return p.Length, Some(e);
    }

    /** Lines 185-197. */
    method TakeQueue() returns (buf: array<byte>)
      requires upSize == |Flat(upQueue)|
      modifies this`timer, this`armed, this`upQueue, this`upSize
      ensures Value() == Unqueue(old(Value())) && fresh(buf) && buf[..] == Flat(old(upQueue))
    {
      if timer.Some? {
        armed := armed - {timer.value};
        timer := None;
      }
      buf := CopyChunks(upQueue, upSize);
      upQueue := [];
      upSize := 0;
    }

    method FlushLocked(o: Outcome, ghost own: bool) returns (err: Option<Error>)
      requires deadCloses == (if deadOnce then 1 else 0) && upSize == |Flat(upQueue)|
      modifies this`timer, this`armed, this`upQueue, this`upSize,
               this`broken, this`wire, this`ledger, this`deadErr, this`deadOnce, this`deadCloses
      ensures deadCloses == (if deadOnce then 1 else 0) && upSize == |Flat(upQueue)|
      ensures (Value(), err) == Flush(old(Value()), o, own)
    {
      if upSize == 0 {
        return None;
      }
      ghost var group := upQueue;
      var buf := TakeQueue();
      if closed {
        ledger := ledger + [Entry(group, 0, false, own)];
        return Some(ErrClosed);
      }
      SendMessage(buf[..], group, o, own);
      return if o.Sent? then None else Some(o.err);
    }

    method Write(p: array<byte>, o1: Outcome, o2: Outcome) returns (n: nat, err: Option<Error>)
      requires Valid()
      modifies this`timer, this`armed, this`nextTimer, this`upQueue, this`upSize, this`handed, this`accepted,
               this`broken, this`wire, this`ledger, this`deadErr, this`deadOnce, this`deadCloses
      ensures Valid()
      ensures (Value(), Reply(n, err)) == WSSpec.Write(old(Value()), p[..], o1, o2)
      ensures old(closed) ==> n == 0 && err == Some(ErrClosed) && Value() == old(Value())
      ensures !old(closed) && p.Length == 0 ==> n == 0 && err == None && Value() == old(Value())
      ensures !old(closed) && p.Length > 0 ==> Truthful(old(Value()), Value(), p[..], Reply(n, err))
      ensures !old(closed) && p.Length > 0 ==> Behaves(old(Value()), Value(), p[..], Reply(n, err), o1, o2)
    {
      WriteKeeps(Value(), p[..], o1, o2);
      if !closed && p.Length > 0 {
        WriteIsTruthful(Value(), p[..], o1, o2);
        WriteBehaves(Value(), p[..], o1, o2);
      }
      n, err := WriteCall(p, o1, o2);
    }

    /** Lines 115-157. */
    method WriteCall(p: array<byte>, o1: Outcome, o2: Outcome) returns (n: nat, err: Option<Error>)
      requires deadCloses == (if deadOnce then 1 else 0) && upSize == |Flat(upQueue)| && chunkMs > 0
      modifies this`timer, this`armed, this`nextTimer, this`upQueue, this`upSize, this`handed, this`accepted,
               this`broken, this`wire, this`ledger, this`deadErr, this`deadOnce, this`deadCloses
      ensures deadCloses == (if deadOnce then 1 else 0)
      ensures (Value(), Reply(n, err)) == WSSpec.Write(old(Value()), p[..], o1, o2)
    {
      if closed {
        return 0, Some(ErrClosed);
      }
      if p.Length == 0 {
        return 0, None;
      }
      n, err := WriteUnderLock(p, o1, o2);
      Record(p[..], err.None?);
    }

    /** History: `p` was handed in, and accepted if `ok`. */
    ghost method Record(p: seq<byte>, ok: bool)
      modifies this`handed, this`accepted
      ensures handed == old(handed) + [p] && accepted == if ok then old(accepted) + [p] else old(accepted)
    {
      handed := handed + [p];
      if ok {
        accepted := accepted + [p];
      }
    }

    /** Lines 126-157, with `upMu` held. */
    method WriteUnderLock(p: array<byte>, o1: Outcome, o2: Outcome) returns (n: nat, err: Option<Error>)
      requires deadCloses == (if deadOnce then 1 else 0) && upSize == |Flat(upQueue)| && chunkMs > 0
      modifies this`timer, this`armed, this`nextTimer, this`upQueue, this`upSize,
               this`broken, this`wire, this`ledger, this`deadErr, this`deadOnce, this`deadCloses
      ensures deadCloses == (if deadOnce then 1 else 0)
      ensures (Value(), Reply(n, err)) == Locked(old(Value()), p[..], o1, o2)
    {
      if upSize + p.Length > maxQueue {
        err := FlushLocked(o1, false);
        if err.Some? {
          Refuse(p[..]);
          return 0, err;
        }
        n, err := WriteAfterFlush(p, o2);
      } else {
        n, err := EnqueueUnderLock(p, o2);
      }
    }

    /** History: `p` was refused. */
    ghost method Refuse(p: seq<byte>)
      modifies this`ledger
      ensures Value() == old(Value()).(ledger := old(ledger) + [Entry([p], 0, false, true)])
    {
      ledger := ledger + [Entry([p], 0, false, true)];
    }

    /** Lines 130-157, after a successful flush. */
    method WriteAfterFlush(p: array<byte>, o: Outcome) returns (n: nat, err: Option<Error>)
      requires deadCloses == (if deadOnce then 1 else 0) && upSize == |Flat(upQueue)| && chunkMs > 0
      modifies this`timer, this`armed, this`nextTimer, this`upQueue, this`upSize,
               this`broken, this`wire, this`ledger, this`deadErr, this`deadOnce, this`deadCloses
      ensures deadCloses == (if deadOnce then 1 else 0)
      ensures (Value(), Reply(n, err)) == AfterFlush(old(Value()), p[..], o)
    {
      if p.Length >= upPack {
        n, err := WriteDirect(p, o);
        return;
      }
      if p.Length > maxQueue {
        n, err := WriteDirect(p, o);
        return;
      }
      n, err := EnqueueUnderLock(p, o);
    }

    /** Lines 138-157. */
    method EnqueueUnderLock(p: array<byte>, o: Outcome) returns (n: nat, err: Option<Error>)
      requires deadCloses == (if deadOnce then 1 else 0) && upSize == |Flat(upQueue)| && chunkMs > 0
      modifies this`timer, this`armed, this`nextTimer, this`upQueue, this`upSize,
               this`broken, this`wire, this`ledger, this`deadErr, this`deadOnce, this`deadCloses
      ensures deadCloses == (if deadOnce then 1 else 0)
      ensures (Value(), Reply(n, err)) == Enqueue(old(Value()), p[..], o)
    {
      AppendCopy(p[..]);
      if upSize >= upPack {
        err := FlushLocked(o, true);
        if err.Some? {
          return 0, err;
        }
      } else if chunkMs > 0 {
        StartTimer();
      }
      return p.Length, None;
    }

    /** Lines 138-141: the queue keeps its own copy. */
    method AppendCopy(data: seq<byte>)
      requires upSize == |Flat(upQueue)|
      modifies this`upQueue, this`upSize
      ensures Value() == Append(old(Value()), data) && upSize == |Flat(upQueue)|
    {
      FlatSnoc(upQueue, data);
      upQueue := upQueue + [data];
      upSize := upSize + |data|;
    }

    /** Lines 148-155. */
    method StartTimer()
      modifies this`timer, this`armed, this`nextTimer
      ensures Value() == Rearm(old(Value()))
    {
      if timer.Some? {
        armed := armed - {timer.value};
      }
      armed := armed + {nextTimer};
      timer := Some(nextTimer);
      nextTimer := nextTimer + 1;
    }

    /** The timer callback, run once the runtime has fired timer `id`. */
    method OnTimer(id: nat, o: Outcome)
      requires Valid() && id in fired
      modifies this`fired, this`timer, this`armed, this`upQueue, this`upSize,
               this`broken, this`wire, this`ledger, this`deadErr, this`deadOnce, this`deadCloses
      ensures Valid()
      ensures Value() == Callback(old(Value()), id, o)
      ensures upQueue == [] && timer == None
      ensures old(closed) || old(upQueue) == [] ==> wire == old(wire)
      ensures !old(closed) && old(upQueue) != [] ==>
                if o.Sent? then wire == old(wire) + [Binary(Flat(old(upQueue)))]
                else Blamed(old(Value()), Value(), o.err)
    {
      ghost var was := Value();
      fired := fired - {id};
      FlatNonEmpty(upQueue);
      var err := FlushLocked(o, false);
      CallbackKeeps(was, id, o);
    }

    /** `Close`: a second call changes nothing; the first drops the queue and leaves a dead error behind. */
    method Close(o: Outcome, socketErr: Option<Error>) returns (err: Option<Error>)
      requires Valid()
      modifies this`closed, this`timer, this`armed, this`upQueue, this`upSize,
               this`broken, this`wire, this`ledger, this`deadErr, this`deadOnce, this`deadCloses
      ensures Valid() && closed
      ensures old(closed) ==> Value() == old(Value()) && err == Some(ErrClosed)
      ensures !old(closed) ==>
                err == socketErr
                && Value() == CloseSocket(CloseFlush(old(Value()).(closed := true), o), socketErr)
      ensures !old(closed) ==> upQueue == [] && wire == old(wire) && broken && deadCloses == 1
      ensures !old(closed) ==> deadErr == FirstError(old(deadErr), old(upQueue) != [], socketErr)
    {
      if closed {
        return Some(ErrClosed);
      }
      ClosingKeeps(Value(), o, socketErr);
      CloseOnce(o, socketErr);
      return socketErr;
    }

    /** `Close` once its compare-and-swap has succeeded. */
    method CloseOnce(o: Outcome, socketErr: Option<Error>)
      requires deadCloses == (if deadOnce then 1 else 0) && upSize == |Flat(upQueue)| && !closed
      modifies this`timer, this`armed, this`upQueue, this`upSize, this`closed,
               this`broken, this`wire, this`ledger, this`deadErr, this`deadOnce, this`deadCloses
      ensures deadCloses == (if deadOnce then 1 else 0)
      ensures Value() == CloseSocket(CloseFlush(old(Value()).(closed := true), o), socketErr)
    {
      closed := true;
      Shutdown(o, socketErr);
    }

    /** Lines 226-240, once `closed` is set. */
    method Shutdown(o: Outcome, socketErr: Option<Error>)
      requires deadCloses == (if deadOnce then 1 else 0) && upSize == |Flat(upQueue)|
      modifies this`timer, this`armed, this`upQueue, this`upSize,
               this`broken, this`wire, this`ledger, this`deadErr, this`deadOnce, this`deadCloses
      ensures deadCloses == (if deadOnce then 1 else 0)
      ensures Value() == CloseSocket(CloseFlush(old(Value()), o), socketErr)
    {
      var err := FlushLocked(o, false);
      if err.Some? {
        SignalDead(err);
      }
      broken := true;
      if socketErr.Some? {
        SignalDead(socketErr);
      } else {
        SignalDead(Some(EOF));
      }
    }

    /** Lines 90-98: take the next message; only a binary one becomes `reader`. */
    method NextMessage()
      requires reader.None? && inbound != []
      modifies this`reader, this`inbound
      ensures inbound == old(inbound)[1..]
      ensures ReadView([]) == Step(old(ReadView([])), Fetch)
      ensures reader.Some? ==> !reader.value.Other?
      ensures Unread() == old(Unread()) && Current() == old(Current())
    {
      var f := inbound[0];
      inbound := inbound[1..];
      if !f.Other? {
        reader := Some(f);
      }
    }

    /** Lines 90-94, with nothing to take: the websocket's error, or a wait. */
    method NoMessage() returns (r: ReadResult)
      requires deadCloses == (if deadOnce then 1 else 0)
      modifies this`deadErr, this`deadOnce, this`deadCloses
      ensures deadCloses == (if deadOnce then 1 else 0)
      ensures r == if inboundEnd.Some? then Failed(0, inboundEnd.value) else WouldBlock
      ensures Value() == if r.Failed? then Signal(old(Value()), r.err) else old(Value())
    {
      if inboundEnd.Some? {
        SignalDead(inboundEnd);
        return Failed(0, inboundEnd.value);
      }
      return WouldBlock;
    }

    /** Line 100: `reader.Read(p)`, which may be short, may end the message, and may find it cut off. */
    method PullInto(p: array<byte>) returns (n: nat, eof: bool, cut: bool)
      requires reader.Some? && !reader.value.Other?
      modifies this`reader, p
      ensures n <= p.Length && n <= |old(reader).value.data|
      ensures eof ==> old(reader).value.Binary? && n == |old(reader).value.data|
      ensures !(eof && cut) && (eof ==> reader.None?) && (reader.Some? ==> !reader.value.Other?)
      ensures cut ==> reader == Some(Cut([])) && old(reader).value.Cut?
      ensures p.Length > 0 ==> n > 0 || (|old(reader).value.data| == 0 && (eof || cut))
      ensures p[..n] == old(reader).value.data[..n] && p[n..] == old(p[n..])
      ensures ReadView(p[..n]) == Step(old(ReadView([])), Pull(n, eof))
      ensures p[..n] + Unread() == old(Unread())
    {
      var f := reader.value;
      var least := if p.Length > 0 && |f.data| > 0 then 1 else 0;
      assert least <= |f.data| && least <= p.Length;
      n :| least <= n <= |f.data| && n <= p.Length;
      var told := *;
      told := (told || n == 0) && n == |f.data|;
      eof := told && f.Binary?;
      cut := told && f.Cut?;
      forall i | 0 <= i < n {
        p[i] := f.data[i];
      }
      reader := if eof then None else Some(Advance(f, n));
      assert p[..n] == f.data[..n] && [] + p[..n] == p[..n];
      assert f.data[..n] + f.data[n..] == f.data;
    }

    /** `Read` makes only `Fetch` and `Pull` steps of `WSRun`, and what it puts into `p` is exactly
        what the stream loses: skipped text, ping and empty messages cost nothing. */
    method Read(p: array<byte>) returns (r: ReadResult, ghost steps: seq<Event>)
      requires Valid()
      modifies this`reader, this`inbound, this`deadErr, this`deadOnce, this`deadCloses, p
      ensures Valid()
      ensures old(closed) ==> r == Failed(0, ErrClosed) && Unread() == old(Unread())
      ensures Count(r) <= p.Length && p[Count(r)..] == old(p[Count(r)..])
      ensures p[..Count(r)] + Unread() == old(Unread())
      ensures Legal(old(ReadView([])), steps) && Run(old(ReadView([])), steps) == ReadView(p[..Count(r)])
      ensures r.WouldBlock? ==> Unread() == [] && inboundEnd.None?
      ensures Value() == if r.Failed? && !old(closed) then Signal(old(Value()), r.err) else old(Value())
      ensures r.Failed? && !old(closed) ==>
                (inboundEnd.Some? && r == Failed(0, inboundEnd.value) && Unread() == []) || reader == Some(Cut([]))
      ensures !old(closed) && p.Length > 0 ==>
                match old(Current())
                case None => r == if inboundEnd.Some? then Failed(0, inboundEnd.value) else WouldBlock
                case Some(f) =>
                  && !f.Other? && !r.WouldBlock? && Count(r) <= |f.data| && p[..Count(r)] == f.data[..Count(r)]
                  && (f.data != [] ==> Count(r) > 0) && (f.Binary? ==> r.Data?) && (f.data == [] ==> r.Failed?)
    {
      if closed {
        return Failed(0, ErrClosed), [];
      }
      ghost var was := Value();
      r, steps := ReadLocked(p);
      if r.Failed? {
        SignalInv(was, r.err);
      }
    }

    /** Lines 88-112, with `readMu` held. */
    method ReadLocked(p: array<byte>) returns (r: ReadResult, ghost steps: seq<Event>)
      requires deadCloses == (if deadOnce then 1 else 0) && (reader.Some? ==> !reader.value.Other?)
      modifies this`reader, this`inbound, this`deadErr, this`deadOnce, this`deadCloses, p
      ensures deadCloses == (if deadOnce then 1 else 0) && (reader.Some? ==> !reader.value.Other?)
      ensures Count(r) <= p.Length && p[Count(r)..] == old(p[Count(r)..])
      ensures p[..Count(r)] + Unread() == old(Unread())
      ensures Legal(old(ReadView([])), steps) && Run(old(ReadView([])), steps) == ReadView(p[..Count(r)])
      ensures r.WouldBlock? ==> Unread() == [] && inboundEnd.None?
      ensures Value() == if r.Failed? then Signal(old(Value()), r.err) else old(Value())
      ensures r.Failed? ==>
                (inboundEnd.Some? && r == Failed(0, inboundEnd.value) && Unread() == []) || reader == Some(Cut([]))
      ensures p.Length > 0 ==>
                match old(Current())
                case None => r == if inboundEnd.Some? then Failed(0, inboundEnd.value) else WouldBlock
                case Some(f) =>
                  && !f.Other? && !r.WouldBlock? && Count(r) <= |f.data| && p[..Count(r)] == f.data[..Count(r)]
                  && (f.data != [] ==> Count(r) > 0) && (f.Binary? ==> r.Data?) && (f.data == [] ==> r.Failed?)
    {
      var n, cut, dry;
      n, cut, dry, steps := PullNext(p);
      if dry {
        r := NoMessage();
      } else if cut {
        SignalDead(Some(SocketError(1006)));
        r := Failed(n, SocketError(1006));
      } else {
        r := Data(n);
      }
    }

    /** The loop of lines 88-112: fetch messages until one gives up bytes, or there is none. */
    method PullNext(p: array<byte>) returns (n: nat, cut: bool, dry: bool, ghost steps: seq<Event>)
      requires reader.Some? ==> !reader.value.Other?
      modifies this`reader, this`inbound, p
      ensures reader.Some? ==> !reader.value.Other?
      ensures n <= p.Length && p[n..] == old(p[n..]) && p[..n] + Unread() == old(Unread())
      ensures Legal(old(ReadView([])), steps) && Run(old(ReadView([])), steps) == ReadView(p[..n])
      ensures dry ==> n == 0 && Unread() == []
      ensures cut ==> reader == Some(Cut([]))
      ensures p.Length > 0 ==>
                match old(Current())
                case None => dry
                case Some(f) =>
                  && !f.Other? && !dry && n <= |f.data| && p[..n] == f.data[..n]
                  && (f.data != [] ==> n > 0) && (f.Binary? ==> !cut) && (f.data == [] ==> cut)
    {
      n, cut, dry, steps := 0, false, false, [];
      ghost var start := ReadView([]);
      while true
        invariant reader.Some? ==> !reader.value.Other?
        invariant Unread() == old(Unread()) && Current() == old(Current())
        invariant Legal(start, steps) && Run(start, steps) == ReadView([])
        invariant p[..] == old(p[..])
        decreases |inbound|, if reader.Some? then 1 else 0
      {
        if reader.None? {
          if inbound == [] {
            return 0, false, true, steps;
          }
          Extend(start, steps, Fetch);
          steps := steps + [Fetch];
          NextMessage();
          if reader.None? {
            continue;
          }
        }
        var eof: bool;
        n, eof, cut := PullInto(p);
        Extend(start, steps, Pull(n, eof));
        steps := steps + [Pull(n, eof)];
        if eof && n == 0 {
          assert p[..0] == [];
          continue;
        }
        return n, cut, false, steps;
      }
    }
  }

  function FirstFilled(fs: seq<Frame>): Option<Frame>
  {
    if fs == [] then None
    else if fs[0].Other? || fs[0] == Binary([]) then FirstFilled(fs[1..])
    else Some(fs[0])
  }

  function Count(r: ReadResult): nat
  {
    if r.WouldBlock? then 0 else r.n
  }

  /** The dead error after `Close`: an earlier one, or that bytes were dropped, or what closing the socket
      gave, or EOF. */
  function FirstError(earlier: Option<Error>, dropped: bool, socketErr: Option<Error>): Option<Error>
  {
    if earlier.Some? then earlier
    else if dropped then Some(ErrClosed)
    else if socketErr.Some? then socketErr
    else Some(EOF)
  }

  lemma ClosingKeeps(c: Conn, o: Outcome, e: Option<Error>)
    requires Inv(c) && !c.closed
    ensures var d := CloseSocket(CloseFlush(c.(closed := true), o), e);
            Inv(d) && d.queue == [] && d.wire == c.wire && d.broken && d.dead
            && d.deadErr == FirstError(c.deadErr, c.queue != [], e)
  {
    FlatNonEmpty(c.queue);
    var was := c.(closed := true);
    ClosedInv(c);
    CloseFlushInv(was, o);
    CloseSocketInv(CloseFlush(was, o), e);
  }

  lemma {:induction false} Extend(w: World, es: seq<Event>, e: Event)
    requires Legal(w, es) && Enabled(Run(w, es), e)
    ensures Legal(w, es + [e]) && Run(w, es + [e]) == Step(Run(w, es), e)
    decreases |es|
  {
    var all := es + [e];
    if es == [] {
      assert all == [e] && all[1..] == [];
      assert Legal(Step(w, e), []);
    } else {
      Extend(Step(w, es[0]), es[1..], e);
      assert all[1..] == es[1..] + [e];
    }
  }
}
