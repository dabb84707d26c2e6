/** `DnAggregator` with its fields and methods (internal/transport/dnagg.go). `pc` is where its
    flusher goroutine stands; each locked section of the flusher is a method. */
module DnAggregators {
  import opened Bytes
  import opened DnAggSpec

  datatype WriteError = ClosedPipe

  class DnAggregator {
    const dnPack: nat
    const dnTail: nat
    const dnQr: nat
    const maxQueue: nat

    var stream: seq<byte>
    var queue: seq<seq<byte>>
    var total: nat
    var closed: bool
    var stopped: bool
    var closing: nat
    var signals: nat
    var timer: bool
    var qr: nat
    var pc: Pc

    ghost var accepted: seq<seq<byte>>
    ghost var rounds: seq<Round>
    ghost var emitted: seq<seq<byte>>

    ghost function Value(): State
      reads this
    {
      State(Config(dnPack, dnTail, dnQr, maxQueue), queue, total, closed, stopped, closing, signals,
            timer, qr, pc, accepted, rounds, emitted)
    }

    ghost predicate Valid()
      reads this
    {
      dnTail > 0 && Inv(Value()) && stream == Flat(emitted)
    }

    constructor (dnPack: int, dnTail: int, dnQr: int, maxQueue: int)
      ensures Valid() && Value() == Start(Value().cfg)
      ensures this.dnPack == if dnPack <= 0 then 32768 else dnPack
      ensures this.dnTail == if dnTail <= 0 then 512 else dnTail
      ensures this.dnQr == if dnQr <= 0 then 4 else dnQr
      ensures this.maxQueue == if maxQueue <= 0 then this.dnPack * 4 else maxQueue
    {
      var pack := if dnPack <= 0 then 32768 else dnPack;
      this.dnPack := pack;
      this.dnTail := if dnTail <= 0 then 512 else dnTail;
      this.dnQr := if dnQr <= 0 then 4 else dnQr;
      this.maxQueue := if maxQueue <= 0 then pack * 4 else maxQueue;
      stream, queue, total := [], [], 0;
      closed, stopped, closing, signals, timer, qr, pc := false, false, 0, 0, false, 0, Top;
      accepted, rounds, emitted := [], [], [];
    }

    /** `Write`, for data that fits: the chunk joins the queue even while a snapshot is being written. */
    method Write(data: array<byte>) returns (n: nat, err: Option<WriteError>)
      requires Valid() && !pc.AboutToPark?
      requires data.Length > 0 && !closed ==> total + data.Length <= maxQueue
      modifies this
      ensures Valid()
      ensures data.Length == 0 ==> n == 0 && err.None? && Value() == old(Value())
      ensures data.Length > 0 && old(closed) ==> n == 0 && err == Some(ClosedPipe) && Value() == old(Value())
      ensures data.Length > 0 && !old(closed) ==>
                n == data.Length && err.None? && Value() == Append(old(Value()), data[..])
      ensures data.Length > 0 && !old(closed) ==>
                && queue == old(queue) + [data[..]] && stream == old(stream)
                && signals == old(signals) + if total >= dnPack || |queue| >= dnQr then 1 else 0
    {
      if data.Length == 0 {
        return 0, None;
      }
      if closed {
        return 0, Some(ClosedPipe);
      }
      WriteKeeps(Value(), data[..]);
      AppendChunk(data[..]);
      return data.Length, None;
    }

    /** Lines 80-88. */
    method AppendChunk(d: seq<byte>)
      modifies this`queue, this`total, this`accepted, this`pc, this`signals
      ensures Value() == Append(old(Value()), d) && stream == old(stream) && emitted == old(emitted)
    {
      Enqueue(d);
      pc := match pc
            case Writing(a, b, l) => Writing(a, b + [d], l)
            case Clearing(a, b, l, ok) => Clearing(a, b + [d], l, ok)
            case p => p;
      var shouldSignal := total >= dnPack || |queue| >= dnQr;
      if shouldSignal {
        signals := signals + 1;
      }
    }

    /** Lines 80-83. */
    method Enqueue(d: seq<byte>)
      modifies this`queue, this`total, this`accepted
      ensures queue == old(queue) + [d] && total == old(total) + |d| && accepted == old(accepted) + [d]
    {
      queue := queue + [d];
      total := total + |d|;
      accepted := accepted + [d];
    }

    method CopyQueueLocked() returns (copied: seq<seq<byte>>)
      ensures copied == if total == 0 then [] else queue
    {
      if total == 0 {
        return [];
      }
      copied := queue;
    }

    /** Lines 114-145. */
    method FlusherTop()
      requires pc.Top?
      modifies this
      ensures old(Valid()) ==> Valid()
      ensures Value() == AtTop(old(Value()))
    {
      if Valid() {
        DecideKeeps(Value());
      }
      if !closed && |queue| == 0 {
        pc := AboutToPark;
        return;
      }
      if closed && |queue| == 0 {
        pc := Exited;
        return;
      }
      if total >= dnPack || |queue| >= dnQr {
        var queueCopy := CopyQueueLocked();
        pc := Writing(queueCopy, [], false);
        qr := 0;
        return;
      }
      if dnPack - total < dnTail {
        var queueCopy := CopyQueueLocked();
        pc := Writing(queueCopy, [], false);
        qr := 0;
        return;
      }
      if !timer {
        timer := true;
        qr := 0;
      }
      pc := Selecting;
    }

    /** Lines 148-189. */
    method FlusherTimer()
      requires pc.Selecting?
      modifies this
      ensures old(Valid()) ==> Valid()
      ensures Value() == AtTimer(old(Value()))
    {
      if Valid() {
        TimerKeeps(Value());
      }
      var low := dnTail * 12;
      if low < 4096 {
        low := 4096;
      }
      timer := false;
      if closed {
        if |queue| > 0 {
          var queueCopy := CopyQueueLocked();
          pc := Writing(queueCopy, [], false);
        } else {
          pc := Top;
        }
        return;
      }
      if |queue| == 0 {
        pc := Top;
        return;
      }
      if total >= dnPack || |queue| >= dnQr {
        var queueCopy := CopyQueueLocked();
        pc := Writing(queueCopy, [], false);
        qr := 0;
        return;
      }
      if total >= low || qr >= dnQr {
        var queueCopy := CopyQueueLocked();
        pc := Writing(queueCopy, [], false);
        qr := 0;
        return;
      }
      qr := qr + 1;
      if qr < dnQr {
        pc := Top;
        return;
      }
      var queueCopy := CopyQueueLocked();
      pc := Writing(queueCopy, [], false);
      qr := 0;
    }

    /** Lines 190-204. */
    method FlusherStop()
      requires pc.Selecting? && stopped
      modifies this
      ensures old(Valid()) ==> Valid()
      ensures Value() == AtStop(old(Value()))
    {
      if Valid() {
        StopKeeps(Value());
      }
      timer := false;
      if |queue| > 0 {
        var queueCopy := CopyQueueLocked();
        pc := Writing(queueCopy, [], true);
      } else {
        pc := Exited;
      }
    }

    /** Lines 222-232: the batch, built by offset into one buffer, goes to the stream or fails. */
    method WriteBatch(ok: bool)
      requires Valid() && pc.Writing?
      modifies this
      ensures Valid()
      ensures Value() == Step(old(Value()), StreamWrite(ok))
      ensures stream == if ok then old(stream) + Flat(old(pc).snap) else old(stream)
    {
      StreamWriteKeeps(Value(), ok);
      FlatAppend(emitted, pc.snap);
      var batch := pc.snap;
      var buf := Gather(batch);
      if ok {
        stream := stream + buf[..];
        emitted := emitted + batch;
      }
      pc := Clearing(batch, pc.since, pc.last, ok);
    }

    /** Lines 233-244. */
    method ClearQueue()
      requires Valid() && pc.Clearing?
      modifies this
      ensures Valid()
      ensures Value() == Cleared(old(Value()))
      ensures closed == (old(closed) || !old(pc).ok) && queue == [] && total == 0 && stream == old(stream)
    {
      ClearKeeps(Value());
      rounds := rounds + [Round(pc.snap, pc.since, pc.ok)];
      if !pc.ok {
        closed := true;
      }
      queue := [];
      total := 0;
      pc := if pc.last then Exited else Top;
    }
  }

  /** A flush that fails: the stream gets nothing, and the next `Write` is told. */
  method FailingFlush(a: DnAggregator, data: array<byte>) returns (n: nat, err: Option<WriteError>)
    requires a.Valid() && a.pc.Writing? && data.Length > 0
    modifies a
    ensures a.Valid() && a.closed && a.queue == [] && a.stream == old(a.stream)
    ensures n == 0 && err == Some(ClosedPipe)
  {
    a.WriteBatch(false);
    a.ClearQueue();
    n, err := a.Write(data);
  }

  method Gather(queue: seq<seq<byte>>) returns (buf: array<byte>)
    ensures fresh(buf) && buf[..] == Flat(queue)
  {
    var totalSize := 0;
    assert queue[..0] == [] && queue[..|queue|] == queue;
    for i := 0 to |queue|
      invariant totalSize == |Flat(queue[..i])|
    {
      assert queue[..i + 1] == queue[..i] + [queue[i]];
      FlatSnoc(queue[..i], queue[i]);
      totalSize := totalSize + |queue[i]|;
    }
    buf := CopyChunks(queue, totalSize);
  }
}
