/** The code that reads and writes the tunnel's encodings over streams with arbitrarily short reads
    (cmd/client/main.go, internal/protocol/stream.go, internal/relay/tcp.go). */
module Tunnel {
  import opened Bytes
  import opened Codec

  const KIND_PING: byte := 0x01
  const KIND_TCP: byte := 0x02
  const KIND_UDP: byte := 0x03

  datatype ReadError = EOF | UnexpectedEOF

  /** The receiving end of a stream: the bytes that will still arrive before it ends. */
  class Source {
    var data: seq<byte>

    constructor (data: seq<byte>)
      ensures this.data == data
    {
      this.data := data;
    }

    /** `Read(buf[lo:])`: at least one byte while there are any, and as few as it likes. */
    method Read(buf: array<byte>, lo: nat) returns (n: nat)
      requires lo < buf.Length
      modifies this, buf
      ensures n <= buf.Length - lo && n <= |old(data)| && (n == 0 <==> old(data) == [])
      ensures buf[..lo] == old(buf[..lo]) && buf[lo..lo + n] == old(data)[..n]
      ensures data == old(data)[n..]
    {
      if data == [] {
        return 0;
      }
      n :| 1 <= n <= |data| && n <= buf.Length - lo;
      forall i | 0 <= i < n {
        buf[lo + i] := data[i];
      }
      data := data[n..];
    }
  }

  // ----- the sending end of a stream -----

  /** `n` more bytes go out; `None` is a stream that never fails. */
  predicate Fits(room: Option<nat>, n: nat)
  {
    room.None? || n <= room.value
  }

  function Taken(room: Option<nat>, n: nat): (k: nat)
    ensures k <= n
  {
    if Fits(room, n) then n else room.value
  }

  function Left(room: Option<nat>, n: nat): Option<nat>
  {
    if room.None? then None else Some(room.value - Taken(room, n))
  }

  /** As much of `enc` as there is room for was put behind `before`. */
  predicate Appended(before: seq<byte>, room: Option<nat>, enc: seq<byte>, out: seq<byte>, left: Option<nat>)
  {
    out == before + enc[..Taken(room, |enc|)] && left == Left(room, |enc|)
  }

  /** The stream fails, for good, when `room` more bytes have gone out. */
  class Sink {
    var out: seq<byte>
    var room: Option<nat>

    constructor (room: Option<nat>)
      ensures out == [] && this.room == room
    {
      out, this.room := [], room;
    }

    method Write(b: seq<byte>) returns (ok: bool)
      modifies this
      ensures ok <==> Fits(old(room), |b|)
      ensures Appended(old(out), old(room), b, out, room)
    {
      ok := Fits(room, |b|);
      out, room := out + b[..Taken(room, |b|)], Left(room, |b|);
    }
  }

  /** Two writes in a row are one: the second follows if the first went through. */
  lemma Chain(before: seq<byte>, room: Option<nat>, a: seq<byte>, mid: seq<byte>, between: Option<nat>,
              b: seq<byte>, out: seq<byte>, left: Option<nat>)
    requires Appended(before, room, a, mid, between)
    requires if Fits(room, |a|) then Appended(mid, between, b, out, left) else out == mid && left == between
    ensures Appended(before, room, a + b, out, left)
    ensures Fits(room, |a + b|) <==> Fits(room, |a|) && Fits(between, |b|)
  {
    if Fits(room, |a|) {
      assert (a + b)[..|a| + Taken(between, |b|)] == a + b[..Taken(between, |b|)];
    } else {
      assert (a + b)[..Taken(room, |a|)] == a[..Taken(room, |a|)];
    }
  }

  lemma NothingMore(out: seq<byte>, room: Option<nat>)
    ensures Appended(out, room, [], out, room) && Fits(room, 0)
  {}

  /** `io.ReadFull`: however the bytes arrive, either exactly the next `len(buf)` of them, or an error
      and nothing left. */
  method ReadFull(s: Source, buf: array<byte>) returns (err: Option<ReadError>)
    modifies s, buf
    ensures err.None? <==> |old(s.data)| >= buf.Length
    ensures err.None? ==> buf[..] == old(s.data)[..buf.Length] && s.data == old(s.data)[buf.Length..]
    ensures err.Some? ==> s.data == [] && (err.value == EOF <==> old(s.data) == [])
  {
    var off := 0;
    while off < buf.Length
      invariant off <= buf.Length && off <= |old(s.data)|
      invariant buf[..off] == old(s.data)[..off] && s.data == old(s.data)[off..]
    {
      ghost var had := buf[..off];
      var n := s.Read(buf, off);
      if n == 0 {
        return Some(if off == 0 then EOF else UnexpectedEOF);
      }
      assert buf[..off + n] == had + buf[off..off + n];
      off := off + n;
    }
    return None;
  }

  lemma DropTake(s: seq<byte>, a: nat, n: nat)
    requires a + n <= |s|
    ensures s[a..][..n] == s[a..a + n] && s[a..][n..] == s[a + n..]
  {}

  method WriteSmuxOpenHeader(w: Sink, h: Header) returns (ok: bool)
    modifies w
    ensures ok <==> |h.target| <= 65535 && Fits(old(w.room), |EncHeader(h)|)
    ensures Appended(old(w.out), old(w.room), if |h.target| <= 65535 then EncHeader(h) else [], w.out, w.room)
  {
    NothingMore(w.out, w.room);
    if |h.target| > 65535 {
      return false;
    }
    var head := [h.kind, h.strategy] + Put16(|h.target|);
    ok := WriteTwo(w, head, h.target);
  }

  /** A header, and what it announces if that is anything. */
  method WriteTwo(w: Sink, head: seq<byte>, body: seq<byte>) returns (ok: bool)
    modifies w
    ensures ok <==> Fits(old(w.room), |head + body|)
    ensures Appended(old(w.out), old(w.room), head + body, w.out, w.room)
  {
    ghost var was, room := w.out, w.room;
    ok := w.Write(head);
    ghost var mid, between := w.out, w.room;
    NothingMore(mid, between);
    if ok && |body| > 0 {
      ok := w.Write(body);
    }
    Chain(was, room, head, mid, between, body, w.out, w.room);
  }

  method ReadSmuxOpenHeader(s: Source) returns (h: Option<Header>)
    modifies s
    ensures match DecHeader(old(s.data))
            case Got(v, rest) => h == Some(v) && s.data == rest
            case Short => h.None? && s.data == []
  {
    var header := new byte[4](_ => 0);
    ghost var was := s.data;
    var err := ReadFull(s, header);
    if err.Some? {
      return None;
    }
    assert Get16(was, 2) == Get16(header[..], 2);
    var tlen := Get16(header[..], 2);
    if tlen == 0 {
      assert was[4..4 + tlen] == [];
      return Some(Header(header[0], header[1], []));
    }
    var buf := new byte[tlen](_ => 0);
    err := ReadFull(s, buf);
    if err.Some? {
      return None;
    }
    DropTake(was, 4, tlen);
    return Some(Header(header[0], header[1], buf[..]));
  }

  method WriteChunk(w: Sink, b: seq<byte>) returns (ok: bool)
    modifies w
    ensures ok <==> |b| < 65536 && Fits(old(w.room), |EncChunk(b)|)
    ensures Appended(old(w.out), old(w.room), if |b| < 65536 then EncChunk(b) else [], w.out, w.room)
  {
    NothingMore(w.out, w.room);
    if |b| >= 65536 {
      return false;
    }
    ok := WriteTwo(w, Put16(|b|), b);
  }

  method ReadChunk(s: Source) returns (b: Option<seq<byte>>)
    modifies s
    ensures match DecChunk(old(s.data))
            case Got(v, rest) => b == Some(v) && s.data == rest
            case Short => b.None? && s.data == []
  {
    var h := new byte[2](_ => 0);
    ghost var was := s.data;
    var err := ReadFull(s, h);
    if err.Some? {
      return None;
    }
    assert Get16(was, 0) == Get16(h[..], 0);
    var n := Get16(h[..], 0);
    if n == 0 {
      assert was[2..2 + n] == [];
      return Some([]);
    }
    var buf := new byte[n](_ => 0);
    err := ReadFull(s, buf);
    if err.Some? {
      return None;
    }
    DropTake(was, 2, n);
    return Some(buf[..]);
  }

  method WriteUDPReply(w: Sink, p: Reply) returns (ok: bool)
    modifies w
    ensures ok <==> |p.addr| <= 65535 && Fits(old(w.room), |EncReply(p)|)
    ensures Appended(old(w.out), old(w.room), if |p.addr| <= 65535 then EncReply(p) else [], w.out, w.room)
  {
    NothingMore(w.out, w.room);
    if |p.addr| > 65535 {
      return false;
    }
    ghost var was, room := w.out, w.room;
    var head := Put16(|p.addr|) + Put16(|p.data|);
    ok := WriteTwo(w, head, p.addr);
    ghost var mid, between := w.out, w.room;
    NothingMore(mid, between);
    if ok && |p.data| > 0 {
      ok := w.Write(p.data);
    }
    Chain(was, room, head + p.addr, mid, between, p.data, w.out, w.room);
  }

  method ReadUDPReply(s: Source) returns (p: Option<Reply>)
    modifies s
    ensures match DecReply(old(s.data))
            case Got(v, rest) => p == Some(v) && s.data == rest
            case Short => p.None? && s.data == []
  {
    var head := new byte[4](_ => 0);
    ghost var was := s.data;
    var err := ReadFull(s, head);
    if err.Some? {
      return None;
    }
    assert Get16(was, 0) == Get16(head[..], 0) && Get16(was, 2) == Get16(head[..], 2);
    var addrLen, dataLen := Get16(head[..], 0), Get16(head[..], 2);
    var addrRaw := new byte[addrLen](_ => 0);
    if addrLen > 0 {
      err := ReadFull(s, addrRaw);
      if err.Some? {
        return None;
      }
    }
    assert addrRaw[..] == was[4..4 + addrLen] && s.data == was[4 + addrLen..];
    var data := new byte[dataLen](_ => 0);
    if dataLen > 0 {
      err := ReadFull(s, data);
      if err.Some? {
        return None;
      }
    }
    assert data[..] == was[4 + addrLen..][..dataLen] && s.data == was[4 + addrLen..][dataLen..];
    DropTake(was, 4 + addrLen, dataLen);
    return Some(Reply(addrRaw[..], data[..]));
  }

  method WriteUDPChunk(w: Sink, p: Reply) returns (ok: bool)
    modifies w
    ensures ok <==> |p.addr| <= 65535 && Fits(old(w.room), |EncUDPChunk(p)|)
    ensures Appended(old(w.out), old(w.room), if |p.addr| <= 65535 then EncUDPChunk(p) else [], w.out, w.room)
  {
    NothingMore(w.out, w.room);
    if |p.addr| > 65535 {
      return false;
    }
    ok := w.Write(Put16(|p.addr|) + p.addr + Put16(|p.data|) + p.data);
  }

  method ReadUDPChunk(s: Source) returns (p: Option<Reply>)
    modifies s
    ensures match DecUDPChunk(old(s.data))
            case Got(v, rest) => p == Some(v) && s.data == rest
            case Short => p.None? && s.data == []
  {
    var a := ReadChunk(s);
    if a.None? {
      return None;
    }
    var d := ReadChunk(s);
    if d.None? {
      return None;
    }
    return Some(Reply(a.value, d.value));
  }

  /** The stream-to-UDP loop of `handleUDPStream`; the write of a datagram fails once `room` of them
      have gone out. */
  method RelayChunks(s: Source, room: Option<nat>) returns (relayed: seq<seq<byte>>)
    modifies s
    ensures relayed == Relayed(old(s.data))[..Taken(room, |Relayed(old(s.data))|)]
    ensures Fits(room, |Relayed(old(s.data))|) ==> s.data == []
  {
    relayed := [];
    while true
      invariant relayed + Relayed(s.data) == Relayed(old(s.data)) && Fits(room, |relayed|)
      decreases |s.data|
    {
      ghost var was := relayed;
      ghost var rest := s.data;
      var data := ReadChunk(s);
      if data.None? {
        assert relayed + [] == relayed;
        return;
      }
      if |data.value| == 0 {
        assert [] + Relayed(s.data) == Relayed(s.data);
        continue;
      }
      assert Relayed(old(s.data)) == was + ([data.value] + Relayed(s.data));
      if room == Some(|relayed|) {
        return;
      }
      relayed := relayed + [data.value];
      assert was + ([data.value] + Relayed(s.data)) == relayed + Relayed(s.data);
    }
  }

  /** The replies up to the first whose address is too long to be written. */
  function Sendable(rs: seq<Reply>): seq<Reply>
  {
    if rs == [] || |rs[0].addr| > 65535 then [] else [rs[0]] + Sendable(rs[1..])
  }

  lemma SendableStep(rs: seq<Reply>, i: nat)
    requires i < |rs|
    ensures EncReplies(Sendable(rs[i..])) ==
              if |rs[i].addr| > 65535 then [] else EncReply(rs[i]) + EncReplies(Sendable(rs[i + 1..]))
  {
    var later := Sendable(rs[i + 1..]);
    assert rs[i..][0] == rs[i] && rs[i..][1..] == rs[i + 1..];
    assert ([rs[i]] + later)[1..] == later;
  }

  lemma Assoc(a: seq<byte>, b: seq<byte>, c: seq<byte>)
    ensures a + (b + c) == (a + b) + c && a + [] == a
  {}

  /** One more reply behind what was sent so far. */
  method SendReply(w: Sink, p: Reply, ghost out0: seq<byte>, ghost room0: Option<nat>, ghost sent: seq<byte>)
    returns (ok: bool)
    requires Appended(out0, room0, sent, w.out, w.room) && Fits(room0, |sent|)
    modifies w
    ensures |p.addr| > 65535 ==> !ok && w.out == old(w.out) && w.room == old(w.room)
    ensures |p.addr| <= 65535 ==>
              && Appended(out0, room0, sent + EncReply(p), w.out, w.room)
              && (ok <==> Fits(room0, |sent + EncReply(p)|))
  {
    ghost var out1, room1 := w.out, w.room;
    ok := WriteUDPReply(w, p);
    if |p.addr| <= 65535 {
      Chain(out0, room0, sent, out1, room1, EncReply(p), w.out, w.room);
    }
  }

  /** After a failure nothing more goes out. */
  lemma Cut(out0: seq<byte>, room0: Option<nat>, sent: seq<byte>, rest: seq<byte>, out: seq<byte>, left: Option<nat>)
    requires Appended(out0, room0, sent, out, left) && !Fits(room0, |sent|)
    ensures Appended(out0, room0, sent + rest, out, left)
  {
    Chain(out0, room0, sent, out, left, rest, out, left);
  }

  /** The UDP-to-stream loop of `handleUDPStream`: `incoming` is what the relay reads until it ends. */
  method SendReplies(w: Sink, incoming: seq<Reply>)
    modifies w
    ensures Appended(old(w.out), old(w.room), EncReplies(Sendable(incoming)), w.out, w.room)
  {
    ghost var total := EncReplies(Sendable(incoming));
    ghost var sent := [];
    NothingMore(w.out, w.room);
    for i := 0 to |incoming|
      invariant total == sent + EncReplies(Sendable(incoming[i..]))
      invariant Appended(old(w.out), old(w.room), sent, w.out, w.room) && Fits(old(w.room), |sent|)
    {
      SendableStep(incoming, i);
      var ok := SendReply(w, incoming[i], old(w.out), old(w.room), sent);
      if |incoming[i].addr| > 65535 {
        Assoc(sent, [], []);
        return;
      }
      ghost var rest := EncReplies(Sendable(incoming[i + 1..]));
      Assoc(sent, EncReply(incoming[i]), rest);
      sent := sent + EncReply(incoming[i]);
      if !ok {
        Cut(old(w.out), old(w.room), sent, rest, w.out, w.room);
        return;
      }
    }
    Assoc(sent, [], []);
  }

  /** The reply goroutine of `UDPAssociation.send`. */
  method CollectReplies(s: Source) returns (replies: seq<Reply>)
    modifies s
    ensures replies == Replies(old(s.data)) && s.data == []
  {
    replies := [];
    while true
      invariant replies + Replies(s.data) == Replies(old(s.data))
      decreases |s.data|
    {
      ghost var was := replies;
      var p := ReadUDPReply(s);
      if p.None? {
        assert replies + [] == replies;
        return;
      }
      replies := replies + [p.value];
      assert was + ([p.value] + Replies(s.data)) == replies + Replies(s.data);
    }
  }

  datatype Handled =
    | NoHeader
    | Ping(echoed: bool)
    | Tcp(strategy: byte, target: seq<byte>)
    | Unresolved(strategy: byte, target: seq<byte>)
    | Udp(strategy: byte, target: seq<byte>, relayed: seq<seq<byte>>)
    | Unknown

  /** What the network does for one UDP stream: whether a relay opens and the target resolves, how many datagrams go out
      before one fails, and what comes back until the relay ends. */
  datatype Network = Network(resolves: bool, datagrams: Option<nat>, incoming: seq<Reply>)

  /** The bytes `HandleSmuxStream` writes to a stream whose bytes are `s`. */
  function Answer(s: seq<byte>, net: Network): seq<byte>
  {
    match DecHeader(s)
    case Short => []
    case Got(h, rest) =>
      if h.kind == 0x01 && |rest| >= 8 then rest[..8]
      else if h.kind == 0x03 && net.resolves then EncReplies(Sendable(net.incoming))
      else []
  }

  /** `HandleSmuxStream`: a ping echoes its eight bytes; the TCP case is in `TcpPipe`. The two directions of
      a UDP stream share nothing but their end, so one is shown behind the other. */
  method HandleSmuxStream(s: Source, w: Sink, net: Network) returns (r: Handled)
    modifies s, w
    ensures Appended(old(w.out), old(w.room), Answer(old(s.data), net), w.out, w.room)
    ensures match DecHeader(old(s.data))
            case Short => r == NoHeader
            case Got(h, rest) =>
              if h.kind == 0x01 then r == Ping(|rest| >= 8 && Fits(old(w.room), 8))
              else if h.kind == 0x02 then r == Tcp(h.strategy, h.target)
              else if h.kind != 0x03 then r == Unknown
              else if !net.resolves then r == Unresolved(h.strategy, h.target)
              else r == Udp(h.strategy, h.target, Relayed(rest)[..Taken(net.datagrams, |Relayed(rest)|)])
  {
    NothingMore(w.out, w.room);
    var h := ReadSmuxOpenHeader(s);
    if h.None? {
      return NoHeader;
    }
    if h.value.kind == KIND_PING {
      var payload := new byte[8](_ => 0);
      var err := ReadFull(s, payload);
      if err.Some? {
        return Ping(false);
      }
      var ok := w.Write(payload[..]);
      return Ping(ok);
    } else if h.value.kind == KIND_TCP {
      return Tcp(h.value.strategy, h.value.target);
    } else if h.value.kind == KIND_UDP {
      if !net.resolves {
        return Unresolved(h.value.strategy, h.value.target);
      }
      var relayed := RelayChunks(s, net.datagrams);
      SendReplies(w, net.incoming);
      return Udp(h.value.strategy, h.value.target, relayed);
    }
    return Unknown;
  }

  /** The client's side of a UDP session, up to the first write that fails. */
  method SendSession(up: Sink, h: Header, chunks: seq<seq<byte>>)
    requires |h.target| <= 65535 && ChunksFit(chunks)
    modifies up
    ensures Appended(old(up.out), old(up.room), EncHeader(h) + EncChunks(chunks), up.out, up.room)
  {
    ghost var out0, room0, total := up.out, up.room, EncHeader(h) + EncChunks(chunks);
    ghost var sent := EncHeader(h);
    var ok := WriteSmuxOpenHeader(up, h);
    if !ok {
      Cut(out0, room0, sent, EncChunks(chunks), up.out, up.room);
      return;
    }
    for i := 0 to |chunks|
      invariant total == sent + EncChunks(chunks[i..])
      invariant Appended(out0, room0, sent, up.out, up.room) && Fits(room0, |sent|)
    {
      assert chunks[i..][0] == chunks[i] && chunks[i..][1..] == chunks[i + 1..];
      ghost var rest, out1, room1 := EncChunks(chunks[i + 1..]), up.out, up.room;
      ok := WriteChunk(up, chunks[i]);
      Chain(out0, room0, sent, out1, room1, EncChunk(chunks[i]), up.out, up.room);
      Assoc(sent, EncChunk(chunks[i]), rest);
      sent := sent + EncChunk(chunks[i]);
      if !ok {
        Cut(out0, room0, sent, rest, up.out, up.room);
        return;
      }
    }
    assert total == sent + [] == sent;
  }

  lemma {:induction false} AllSendable(rs: seq<Reply>)
    requires RepliesFit(rs)
    ensures Sendable(rs) == rs
  {
    if rs != [] {
      assert forall i :: 0 <= i < |rs[1..]| ==> rs[1..][i] == rs[i + 1];
      AllSendable(rs[1..]);
    }
  }

  /** A whole UDP session over two streams that may fail at any byte and are read in any pieces: the
      server relays a prefix of the nonempty chunks, in order, to the target the client named, the client
      gets a prefix of the replies, and without failures each gets all of them. */
  method UDPSession(h: Header, chunks: seq<seq<byte>>, net: Network, upRoom: Option<nat>, downRoom: Option<nat>)
    returns (r: Handled, replies: seq<Reply>)
    requires h.kind == 0x03 && |h.target| <= 65535 && ChunksFit(chunks) && RepliesFit(net.incoming)
    ensures match r
            case NoHeader => !Fits(upRoom, |EncHeader(h)|)
            case Unresolved(strategy, target) => !net.resolves && strategy == h.strategy && target == h.target
            case Udp(strategy, target, relayed) =>
              strategy == h.strategy && target == h.target && relayed <= NonEmpty(chunks)
            case _ => false
    ensures Fits(upRoom, |EncHeader(h) + EncChunks(chunks)|) && net.resolves && net.datagrams.None? ==>
              r == Udp(h.strategy, h.target, NonEmpty(chunks))
    ensures replies <= net.incoming
    ensures r.Udp? && Fits(downRoom, |EncReplies(net.incoming)|) ==> replies == net.incoming
  {
    var up := new Sink(upRoom);
    var down := new Sink(downRoom);
    SendSession(up, h, chunks);
    ghost var total, answer := EncHeader(h) + EncChunks(chunks), EncReplies(net.incoming);
    assert up.out == total[..Taken(upRoom, |total|)];
    SessionRoundTrip(h, chunks, up.out);
    AllSendable(net.incoming);
    var server := new Source(up.out);
    r := HandleSmuxStream(server, down, net);
    assert down.out == if r.Udp? then answer[..Taken(downRoom, |answer|)] else [];
    RepliesArrive(net.incoming, down.out);
    var client := new Source(down.out);
    replies := CollectReplies(client);
  }

  /** The client's RTT probe against the server, over streams that may fail at any byte and are read in any
      pieces: the ping header and eight bytes go up, the client takes the same eight bytes for its answer,
      and the probe succeeds exactly if both streams take what they are given. */
  method ProbeChannel(payload: seq<byte>, net: Network, upRoom: Option<nat>, downRoom: Option<nat>)
    returns (ok: bool, sent: seq<byte>)
    requires |payload| == 8
    ensures sent == ([0x01, 0x00, 0x00, 0x00] + payload)[..Taken(upRoom, 12)]
    ensures ok <==> Fits(upRoom, 12) && Fits(downRoom, 8)
  {
    var up := new Sink(upRoom);
    var down := new Sink(downRoom);
    var head := Header(KIND_PING, 0, []);
    assert EncHeader(head) == [0x01, 0x00, 0x00, 0x00];
    NothingMore(up.out, up.room);
    ok := WriteSmuxOpenHeader(up, head);
    ghost var mid, between := up.out, up.room;
    NothingMore(mid, between);
    if ok {
      ok := up.Write(payload);
    }
    Chain([], upRoom, EncHeader(head), mid, between, payload, up.out, up.room);
    sent := up.out;
    if !ok {
      return;
    }
    assert sent == EncHeader(head) + payload;
    HeaderRoundTrip(head, payload);
    var server := new Source(sent);
    var r := HandleSmuxStream(server, down, net);
    assert payload[..8] == payload;
    var client := new Source(down.out);
    var ack := new byte[8](_ => 0);
    var err := ReadFull(client, ack);
    ok := err.None? && ack[..] == payload;
  }
}
