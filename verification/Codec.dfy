/** The tunnel's self-delimiting encodings as functions on byte strings: the open header, chunks,
    addressed replies and addressed chunks (cmd/client/main.go, internal/protocol/stream.go,
    internal/relay/tcp.go), and that they survive concatenation, truncation and splitting. */
module Codec {
  import opened Bytes

  /** A decoded value and the bytes behind it, or too few bytes. */
  datatype Dec<T> = Got(value: T, rest: seq<byte>) | Short

  datatype Header = Header(kind: byte, strategy: byte, target: seq<byte>)

  datatype Reply = Reply(addr: seq<byte>, data: seq<byte>)

  function EncHeader(h: Header): seq<byte>
  {
    [h.kind, h.strategy] + Put16(|h.target|) + h.target
  }

  function DecHeader(s: seq<byte>): Dec<Header>
  {
    if |s| < 4 then Short
    else
      var n := Get16(s, 2);
      if |s| < 4 + n then Short else Got(Header(s[0], s[1], s[4..4 + n]), s[4 + n..])
  }

  function EncChunk(b: seq<byte>): (r: seq<byte>)
  {
    Put16(|b|) + b
  }

  function DecChunk(s: seq<byte>): Dec<seq<byte>>
  {
    if |s| < 2 then Short
    else
      var n := Get16(s, 0);
      if |s| < 2 + n then Short else Got(s[2..2 + n], s[2 + n..])
  }

  function EncReply(p: Reply): (r: seq<byte>)
  {
    Put16(|p.addr|) + Put16(|p.data|) + p.addr + p.data
  }

  function DecReply(s: seq<byte>): Dec<Reply>
  {
    if |s| < 4 then Short
    else
      var a, d := Get16(s, 0), Get16(s, 2);
      if |s| < 4 + a + d then Short
      else Got(Reply(s[4..4 + a], s[4 + a..4 + a + d]), s[4 + a + d..])
  }

  /** `WriteUDPChunk` puts each length in front of its own field. */
  function EncUDPChunk(p: Reply): seq<byte>
  {
    Put16(|p.addr|) + p.addr + Put16(|p.data|) + p.data
  }

  function DecUDPChunk(s: seq<byte>): Dec<Reply>
  {
    match DecChunk(s)
    case Short => Short
    case Got(a, s') =>
      match DecChunk(s')
      case Short => Short
      case Got(d, rest) => Got(Reply(a, d), rest)
  }

  /** In bytes: lengths are big-endian, and each stands where the format puts it. */
  lemma WireBytes()
    ensures EncHeader(Header(3, 1, [97, 98])) == [3, 1, 0, 2, 97, 98]
    ensures EncChunk([7, 8, 9]) == [0, 3, 7, 8, 9]
    ensures EncReply(Reply([97], [7, 8])) == [0, 1, 0, 2, 97, 7, 8]
    ensures EncUDPChunk(Reply([97], [7, 8])) == [0, 1, 97, 0, 2, 7, 8]
    ensures Put16(0x1234) == [0x12, 0x34] && Get16([0x12, 0x34], 0) == 0x1234
  {}

  // ----- one value -----

  lemma HeaderRoundTrip(h: Header, rest: seq<byte>)
    requires |h.target| <= 65535
    ensures DecHeader(EncHeader(h) + rest) == Got(h, rest)
  {
    var s := EncHeader(h) + rest;
    GetPut16(|h.target|, s, 2);
    assert s[4..4 + |h.target|] == h.target && s[4 + |h.target|..] == rest;
  }

  lemma ChunkRoundTrip(b: seq<byte>, rest: seq<byte>)
    requires |b| < 65536
    ensures DecChunk(EncChunk(b) + rest) == Got(b, rest)
  {
    var s := EncChunk(b) + rest;
    GetPut16(|b|, s, 0);
    assert s[2..2 + |b|] == b && s[2 + |b|..] == rest;
  }

  lemma ReplyFields(p: Reply, rest: seq<byte>)
    requires |p.addr| <= 65535
    ensures var s := EncReply(p) + rest;
            |s| >= 4 && Get16(s, 0) == |p.addr| && Get16(s, 2) == |p.data| % 65536
            && s[4..4 + |p.addr|] == p.addr && s[4 + |p.addr|..] == p.data + rest
  {
    var s := EncReply(p) + rest;
    GetPut16(|p.addr|, s, 0);
    GetPut16(|p.data|, s, 2);
  }

  /** `writeUDPReply` checks only the address: a reply comes back, and the stream stays in step,
      exactly when its payload fits the 16-bit length. */
  lemma ReplyRoundTripIff(p: Reply, rest: seq<byte>)
    requires |p.addr| <= 65535
    ensures DecReply(EncReply(p) + rest) == Got(p, rest) <==> |p.data| < 65536
  {
    var s := EncReply(p) + rest;
    var a, n := |p.addr|, |p.data| % 65536;
    ReplyFields(p, rest);
    var tail := p.data + rest;
    assert |s| == 4 + a + |tail| && n <= |p.data|;
    assert s[4 + a..4 + a + n] == tail[..n] && s[4 + a + n..] == tail[n..];
    if |p.data| < 65536 {
      assert tail[..n] == p.data && tail[n..] == rest;
    } else {
      assert |tail[..n]| < |p.data|;
    }
  }

  lemma UDPChunkRoundTrip(p: Reply, rest: seq<byte>)
    requires |p.addr| <= 65535 && |p.data| <= 65535
    ensures DecUDPChunk(EncUDPChunk(p) + rest) == Got(p, rest)
  {
    var tail := EncChunk(p.data) + rest;
    assert EncUDPChunk(p) + rest == EncChunk(p.addr) + tail;
    ChunkRoundTrip(p.addr, tail);
    ChunkRoundTrip(p.data, rest);
  }

  // ----- whole sessions -----

  function EncChunks(cs: seq<seq<byte>>): seq<byte>
  {
    if cs == [] then [] else EncChunk(cs[0]) + EncChunks(cs[1..])
  }

  /** What the loop of lines 163-174 of internal/relay/tcp.go relays from a stream. */
  function Relayed(s: seq<byte>): (r: seq<seq<byte>>)
    decreases |s|
  {
    match DecChunk(s)
    case Short => []
    case Got(b, rest) => (if b == [] then [] else [b]) + Relayed(rest)
  }

  function NonEmpty(cs: seq<seq<byte>>): seq<seq<byte>>
  {
    if cs == [] then [] else (if cs[0] == [] then [] else [cs[0]]) + NonEmpty(cs[1..])
  }

  predicate ChunksFit(cs: seq<seq<byte>>)
  {
    forall i :: 0 <= i < |cs| ==> |cs[i]| < 65536
  }

  lemma ChunkShort(b: seq<byte>, s: seq<byte>, rest: seq<byte>)
    requires |b| < 65536 && s <= EncChunk(b) + rest && |s| < |EncChunk(b)|
    ensures DecChunk(s) == Short
  {
    if |s| >= 2 {
      var all := EncChunk(b) + rest;
      GetPut16(|b|, all, 0);
      assert s[0] == all[0] && s[1] == all[1];
    }
  }

  /** However much of the encoding has arrived, only whole chunks come out, in order, and with all
      of it all of them. */
  lemma {:induction false} ChunksArrive(cs: seq<seq<byte>>, s: seq<byte>)
    requires ChunksFit(cs) && s <= EncChunks(cs)
    ensures Relayed(s) <= NonEmpty(cs)
    ensures s == EncChunks(cs) ==> Relayed(s) == NonEmpty(cs)
    decreases |cs|
  {
    if cs != [] {
      var b := cs[0];
      var first := EncChunk(b);
      if |s| < |first| {
        ChunkShort(b, s, EncChunks(cs[1..]));
      } else {
        var rest := s[|first|..];
        assert Relayed(s) == (if b == [] then [] else [b]) + Relayed(rest) by {
          assert s == first + rest;
          ChunkRoundTrip(b, rest);
        }
        assert rest <= EncChunks(cs[1..]) && (s == EncChunks(cs) ==> rest == EncChunks(cs[1..]));
        assert ChunksFit(cs[1..]) by {
          assert forall i :: 0 <= i < |cs[1..]| ==> cs[1..][i] == cs[i + 1];
        }
        ChunksArrive(cs[1..], rest);
      }
    }
  }

  function EncReplies(rs: seq<Reply>): seq<byte>
  {
    if rs == [] then [] else EncReply(rs[0]) + EncReplies(rs[1..])
  }

  /** What the reply goroutine (lines 944-953 of cmd/client/main.go) hands on from a stream. */
  function Replies(s: seq<byte>): (r: seq<Reply>)
    decreases |s|
  {
    match DecReply(s)
    case Short => []
    case Got(p, rest) => [p] + Replies(rest)
  }

  predicate RepliesFit(rs: seq<Reply>)
  {
    forall i :: 0 <= i < |rs| ==> |rs[i].addr| <= 65535 && |rs[i].data| <= 65535
  }

  lemma ReplyShort(p: Reply, s: seq<byte>, rest: seq<byte>)
    requires |p.addr| <= 65535 && |p.data| <= 65535 && s <= EncReply(p) + rest && |s| < |EncReply(p)|
    ensures DecReply(s) == Short
  {
    if |s| >= 4 {
      var all := EncReply(p) + rest;
      ReplyFields(p, rest);
      assert s[0] == all[0] && s[1] == all[1] && s[2] == all[2] && s[3] == all[3];
    }
  }

  lemma {:induction false} RepliesArrive(rs: seq<Reply>, s: seq<byte>)
    requires RepliesFit(rs) && s <= EncReplies(rs)
    ensures Replies(s) <= rs
    ensures s == EncReplies(rs) ==> Replies(s) == rs
    decreases |rs|
  {
    if rs != [] {
      var first, rest := EncReply(rs[0]), EncReplies(rs[1..]);
      assert EncReplies(rs) == first + rest;
      if |s| < |first| {
        ReplyShort(rs[0], s, rest);
      } else {
        assert s == first + s[|first|..] && s[|first|..] <= rest;
        ReplyRoundTripIff(rs[0], s[|first|..]);
        assert RepliesFit(rs[1..]) by {
          assert forall i :: 0 <= i < |rs[1..]| ==> rs[1..][i] == rs[i + 1];
        }
        RepliesArrive(rs[1..], s[|first|..]);
      }
    }
  }

  /** A UDP session as the server sees it: one open header, then chunks until the stream ends. */
  lemma SessionRoundTrip(h: Header, cs: seq<seq<byte>>, s: seq<byte>)
    requires |h.target| <= 65535 && ChunksFit(cs) && s <= EncHeader(h) + EncChunks(cs)
    ensures DecHeader(s).Got? ==> DecHeader(s).value == h && Relayed(DecHeader(s).rest) <= NonEmpty(cs)
    ensures DecHeader(s).Short? <==> |s| < |EncHeader(h)|
    ensures s == EncHeader(h) + EncChunks(cs) ==> DecHeader(s).Got? && Relayed(DecHeader(s).rest) == NonEmpty(cs)
  {
    var head, body := EncHeader(h), EncChunks(cs);
    if |s| < |head| {
      if |s| >= 4 {
        assert s[2..4] == (head + body)[2..4] == Put16(|h.target|);
        GetPut16(|h.target|, s, 2);
      }
    } else {
      var rest := s[|head|..];
      assert s == head + rest && rest <= body;
      HeaderRoundTrip(h, rest);
      ChunksArrive(cs, rest);
      if s == head + body {
        assert rest == body;
      }
    }
  }
}
