/** Walking a DNS response for the ECH parameter of an HTTPS record, and building the query
    (internal/transport/ech.go). The walks are total: they are defined on every byte string. */
module EchParser {
  import opened Bytes

  const TYPE_HTTPS := 65
  const SVC_ECH := 5
  const DOT: byte := 46

  datatype Reply =
    | Ech(list: seq<byte>)
    | TooShort
    | NoAnswers
    | PointerCut
    | BadPointer
    | QuestionCut
    | NotFound

  /** `b & 0xC0 == 0xC0`. */
  predicate IsPointer(b: byte)
  {
    b / 64 == 3
  }

  /** `binary.BigEndian.Uint16(r[off:off+2]) & 0x3FFF`. */
  function PointerTarget(r: seq<byte>, off: nat): nat
    requires off + 2 <= |r|
  {
    Get16(r, off) % 0x4000
  }

  /** How a walk over a name ends: behind the name, at the end of the answers, or with an error. */
  datatype Walk = At(off: nat) | Stop | Bad(reply: Reply)

  /** Lines 145-162: the question's name. */
  function QuestionWalk(r: seq<byte>, off: nat): (w: Walk)
    ensures w.At? ==> w.off >= off
    ensures !w.Stop? && (w.Bad? ==> w.reply == PointerCut || w.reply == BadPointer)
    decreases |r| - off
  {
    if off >= |r| then At(off)
    else if r[off] == 0 then At(off + 1)
    else if IsPointer(r[off]) then
      if off + 2 > |r| then Bad(PointerCut)
      else if PointerTarget(r, off) >= |r| then Bad(BadPointer)
      else At(off + 2)
    else QuestionWalk(r, off + r[off] as int + 1)
  }

  /** Lines 182-184 and 216-218: length-prefixed labels up to a zero byte or the end. */
  function LabelWalk(r: seq<byte>, off: nat): (o: nat)
    ensures o >= off
    decreases |r| - off
  {
    if off < |r| && r[off] != 0 then LabelWalk(r, off + r[off] as int + 1) else off
  }

  /** Lines 172-186: the owner name of an answer. */
  function OwnerWalk(r: seq<byte>, off: nat): (w: Walk)
    requires off < |r|
    ensures w.At? ==> w.off > off
    ensures w.Bad? ==> w.reply == BadPointer
  {
    if IsPointer(r[off]) then
      if off + 2 > |r| then Stop
      else if PointerTarget(r, off) >= |r| then Bad(BadPointer)
      else At(off + 2)
    else At(LabelWalk(r, off) + 1)
  }

  /** Lines 221-234: the service parameters. */
  function Params(d: seq<byte>, off: nat): Option<seq<byte>>
    decreases |d| - off
  {
    if off + 4 <= |d| then
      var len := Get16(d, off + 2);
      if off + 4 + len > |d| then None
      else if Get16(d, off) == SVC_ECH then Some(d[off + 4..off + 4 + len])
      else Params(d, off + 4 + len)
    else None
  }

  /** `parseHTTPSRecord`; `None` is Go's nil slice, an empty value is not. */
  function HttpsEch(d: seq<byte>): Option<seq<byte>>
  {
    if |d| < 2 then None else Params(d, LabelWalk(d, 2) + 1)
  }

  /** Lines 168-203: at most `n` answers from `off` on. */
  function Answers(r: seq<byte>, off: nat, n: nat): Reply
    decreases n
  {
    if n == 0 || off >= |r| then NotFound
    else
      match OwnerWalk(r, off)
      case Stop => NotFound
      case Bad(e) => e
      case At(o) =>
        if o + 10 > |r| then NotFound
        else
          var d := o + 10;
          var len := Get16(r, o + 8);
          if d + len > |r| then NotFound
          else
            var ech := if Get16(r, o) == TYPE_HTTPS then HttpsEch(r[d..d + len]) else None;
            if ech.Some? then Ech(ech.value) else Answers(r, d + len, n - 1)
  }

  /** `parseDNSResponse`. */
  function Parse(r: seq<byte>): Reply
  {
    if |r| < 12 then TooShort
    else if Get16(r, 6) == 0 then NoAnswers
    else
      match QuestionWalk(r, 12)
      case Bad(e) => e
      case At(o) => if o + 4 > |r| then QuestionCut else Answers(r, o + 4, Get16(r, 6))
  }

  method ParseHTTPSRecord(data: seq<byte>) returns (ech: Option<seq<byte>>)
    ensures ech == HttpsEch(data)
  {
    if |data| < 2 {
      return None;
    }
    var offset := 2;
    if offset < |data| && data[offset] == 0 {
      offset := offset + 1;
    } else {
      while offset < |data| && data[offset] != 0
        invariant offset >= 2 && LabelWalk(data, offset) == LabelWalk(data, 2)
        decreases |data| - offset
      {
        offset := offset + data[offset] as int + 1;
      }
      offset := offset + 1;
    }
    while offset + 4 <= |data|
      invariant offset >= 2 && Params(data, offset) == HttpsEch(data)
      decreases |data| - offset
    {
      var key := Get16(data, offset);
      var length := Get16(data, offset + 2);
      offset := offset + 4;
      if offset + length > |data| {
        break;
      }
      var value := data[offset..offset + length];
      offset := offset + length;
      if key == SVC_ECH {
        return Some(value);
      }
    }
    return None;
  }

  /** The walk over the question's name, as the loop of lines 146-162 makes it. */
  method WalkQuestion(response: seq<byte>) returns (w: Walk)
    requires |response| >= 12
    ensures w == QuestionWalk(response, 12)
  {
    var offset := 12;
    while offset < |response|
      invariant offset >= 12 && QuestionWalk(response, offset) == QuestionWalk(response, 12)
      decreases |response| - offset
    {
      if response[offset] == 0 {
        offset := offset + 1;
        return At(offset);
      }
      if IsPointer(response[offset]) {
        if offset + 2 > |response| {
          return Bad(PointerCut);
        }
        if PointerTarget(response, offset) >= |response| {
          return Bad(BadPointer);
        }
        offset := offset + 2;
        return At(offset);
      }
      offset := offset + response[offset] as int + 1;
    }
    return At(offset);
  }

  /** The walk over an answer's owner name, lines 172-186. */
  method WalkOwner(response: seq<byte>, start: nat) returns (w: Walk)
    requires start < |response|
    ensures w == OwnerWalk(response, start)
  {
    var offset := start;
    if IsPointer(response[offset]) {
      if offset + 2 > |response| {
        return Stop;
      }
      if PointerTarget(response, offset) >= |response| {
        return Bad(BadPointer);
      }
      offset := offset + 2;
    } else {
      while offset < |response| && response[offset] != 0
        invariant offset >= start && LabelWalk(response, offset) == LabelWalk(response, start)
        decreases |response| - offset
      {
        offset := offset + response[offset] as int + 1;
      }
      offset := offset + 1;
    }
    return At(offset);
  }

  method ParseDNSResponse(response: seq<byte>) returns (reply: Reply)
    ensures reply == Parse(response)
  {
    if |response| < 12 {
      return TooShort;
    }
    var ancount := Get16(response, 6);
    if ancount == 0 {
      return NoAnswers;
    }
    var q := WalkQuestion(response);
    if q.Bad? {
      return q.reply;
    }
    var offset := q.off;
    if offset + 4 > |response| {
      return QuestionCut;
    }
    offset := offset + 4;
    for i := 0 to ancount
      invariant offset >= 0 && Answers(response, offset, ancount - i) == Parse(response)
    {
      if offset >= |response| {
        return NotFound;
      }
      var w := WalkOwner(response, offset);
      if !w.At? {
        return if w.Stop? then NotFound else w.reply;
      }
      offset := w.off;
      if offset + 10 > |response| {
        return NotFound;
      }
      var rrType := Get16(response, offset);
      offset := offset + 8;
      var dataLen := Get16(response, offset);
      offset := offset + 2;
      if offset + dataLen > |response| {
        return NotFound;
      }
      var data := response[offset..offset + dataLen];
      offset := offset + dataLen;
      if rrType == TYPE_HTTPS {
        var ech := ParseHTTPSRecord(data);
        if ech.Some? {
          return Ech(ech.value);
        }
      }
    }
    return NotFound;
  }

  // ----- what can be said of every byte string -----

  predicate SliceOf(v: seq<byte>, r: seq<byte>)
  {
    exists i, j :: 0 <= i <= j <= |r| && v == r[i..j]
  }

  lemma {:induction false} ParamsSlice(d: seq<byte>, off: nat)
    ensures Params(d, off).Some? ==> SliceOf(Params(d, off).value, d)
    decreases |d| - off
  {
    if off + 4 <= |d| {
      var len := Get16(d, off + 2);
      if off + 4 + len <= |d| && Get16(d, off) != SVC_ECH {
        ParamsSlice(d, off + 4 + len);
      }
    }
  }

  lemma RecordSlice(r: seq<byte>, d: nat, len: nat)
    requires d + len <= |r|
    ensures HttpsEch(r[d..d + len]).Some? ==> SliceOf(HttpsEch(r[d..d + len]).value, r)
  {
    var data := r[d..d + len];
    if HttpsEch(data).Some? {
      ParamsSlice(data, LabelWalk(data, 2) + 1);
      var i, j :| 0 <= i <= j <= |data| && HttpsEch(data).value == data[i..j];
      assert forall k :: 0 <= k < j - i ==> data[i..j][k] == data[i + k] == r[d + (i + k)] == r[d + i..d + j][k];
      assert data[i..j] == r[d + i..d + j];
    }
  }

  lemma {:induction false} AnswersSlice(r: seq<byte>, off: nat, n: nat)
    ensures Answers(r, off, n).Ech? ==> SliceOf(Answers(r, off, n).list, r)
    decreases n
  {
    if n > 0 && off < |r| && OwnerWalk(r, off).At? {
      var o := OwnerWalk(r, off).off;
      if o + 10 <= |r| && o + 10 + Get16(r, o + 8) <= |r| {
        var len := Get16(r, o + 8);
        RecordSlice(r, o + 10, len);
        AnswersSlice(r, o + 10 + len, n - 1);
      }
    }
  }

  /** Whatever bytes come back, a list that is found is a piece of the response, and finding one
      needs an announced answer. */
  lemma FoundIsSlice(r: seq<byte>)
    ensures Parse(r).Ech? ==> SliceOf(Parse(r).list, r) && |r| >= 16 && Get16(r, 6) > 0
  {
    if |r| >= 12 && Get16(r, 6) > 0 && QuestionWalk(r, 12).At? {
      AnswersSlice(r, QuestionWalk(r, 12).off + 4, Get16(r, 6));
    }
  }

  // ----- a response that was cut off -----

  lemma {:induction false} LabelWalkPrefix(s: seq<byte>, r: seq<byte>, off: nat)
    requires s <= r && LabelWalk(s, off) < |s|
    ensures LabelWalk(r, off) == LabelWalk(s, off)
    decreases |s| - off
  {
    if off < |s| && s[off] != 0 {
      LabelWalkPrefix(s, r, off + s[off] as int + 1);
    }
  }

  lemma {:induction false} QuestionWalkPrefix(s: seq<byte>, r: seq<byte>, off: nat)
    requires s <= r && QuestionWalk(s, off).At? && QuestionWalk(s, off).off < |s|
    ensures QuestionWalk(r, off) == QuestionWalk(s, off)
    decreases |s| - off
  {
    if off < |s| && s[off] != 0 && !IsPointer(s[off]) {
      QuestionWalkPrefix(s, r, off + s[off] as int + 1);
    }
  }

  lemma OwnerWalkPrefix(s: seq<byte>, r: seq<byte>, off: nat)
    requires s <= r && off < |s| && OwnerWalk(s, off).At? && OwnerWalk(s, off).off < |s|
    ensures OwnerWalk(r, off) == OwnerWalk(s, off)
  {
    if !IsPointer(s[off]) {
      LabelWalkPrefix(s, r, off);
    }
  }

  /** One turn of the loop over the answers. */
  lemma AnswersTurn(r: seq<byte>, off: nat, n: nat, o: nat, data: seq<byte>)
    requires n > 0 && off < |r| && OwnerWalk(r, off) == At(o) && o + 10 + |data| <= |r|
    requires Get16(r, o + 8) == |data| && r[o + 10..o + 10 + |data|] == data
    ensures Answers(r, off, n) ==
              if Get16(r, o) == TYPE_HTTPS && HttpsEch(data).Some? then Ech(HttpsEch(data).value)
              else Answers(r, o + 10 + |data|, n - 1)
  {}

  /** A loop that finds something gets through its first turn. */
  lemma FoundTurn(s: seq<byte>, off: nat, n: nat)
    requires Answers(s, off, n).Ech?
    ensures n > 0 && off < |s| && OwnerWalk(s, off).At?
    ensures var o := OwnerWalk(s, off).off; o + 10 <= |s| && o + 10 + Get16(s, o + 8) <= |s|
  {}

  /** That turn is the same on every longer response: it ends with the same value, or goes on at `next`. */
  lemma TurnPrefix(s: seq<byte>, r: seq<byte>, off: nat, n: nat) returns (next: nat, found: bool)
    requires s <= r && Answers(s, off, n).Ech?
    ensures n > 0
    ensures found ==> Answers(r, off, n) == Answers(s, off, n)
    ensures !found ==> Answers(s, off, n) == Answers(s, next, n - 1) && Answers(r, off, n) == Answers(r, next, n - 1)
  {
    FoundTurn(s, off, n);
    var o := OwnerWalk(s, off).off;
    var data := s[o + 10..o + 10 + Get16(s, o + 8)];
    AnswersTurn(s, off, n, o, data);
    OwnerWalkPrefix(s, r, off);
    assert r[o + 10..o + 10 + |data|] == data;
    AnswersTurn(r, off, n, o, data);
    next := o + 10 + |data|;
    found := Get16(s, o) == TYPE_HTTPS && HttpsEch(data).Some?;
  }

  lemma {:induction false} AnswersPrefix(s: seq<byte>, r: seq<byte>, off: nat, n: nat)
    requires s <= r && Answers(s, off, n).Ech?
    ensures Answers(r, off, n) == Answers(s, off, n)
    decreases n
  {
    var next, found := TurnPrefix(s, r, off, n);
    if !found {
      AnswersPrefix(s, r, next, n - 1);
    }
  }

  /** Cutting a response off, anywhere and whatever its bytes, never makes the parser find another value:
      it finds the same one or none. */
  lemma TruncationIsSafe(s: seq<byte>, r: seq<byte>)
    requires s <= r && Parse(s).Ech?
    ensures Parse(r) == Parse(s)
  {
    QuestionWalkPrefix(s, r, 12);
    AnswersPrefix(s, r, QuestionWalk(s, 12).off + 4, Get16(s, 6));
  }

  lemma {:induction false} AnswersComplain(r: seq<byte>, off: nat, n: nat)
    ensures var reply := Answers(r, off, n); reply.Ech? || reply == BadPointer || reply == NotFound
    decreases n
  {
    if n > 0 && off < |r| && OwnerWalk(r, off).At? {
      var o := OwnerWalk(r, off).off;
      if o + 10 <= |r| {
        AnswersComplain(r, o + 10 + Get16(r, o + 8), n - 1);
      }
    }
  }

  /** What is wrong with a response that is too short, has no answers, ends inside its question, or has a
      question's or an owner's name that is a pointer which is cut off or leads out of it. */
  lemma Complaints(r: seq<byte>)
    ensures Parse(r) == TooShort <==> |r| < 12
    ensures Parse(r) == NoAnswers <==> |r| >= 12 && r[6] == 0 && r[7] == 0
    ensures |r| == 13 && (r[6] > 0 || r[7] > 0) && r[12] >= 192 ==> Parse(r) == PointerCut
    ensures |r| >= 14 && (r[6] > 0 || r[7] > 0) && r[12] >= 192 && (r[12] as int - 192) * 256 + r[13] as int >= |r| ==>
              Parse(r) == BadPointer
    ensures 13 <= |r| < 17 && (r[6] > 0 || r[7] > 0) && r[12] == 0 ==> Parse(r) == QuestionCut
    ensures |r| >= 19 && (r[6] > 0 || r[7] > 0) && r[12] == 0 && r[17] >= 192
            && (r[17] as int - 192) * 256 + r[18] as int >= |r| ==>
              Parse(r) == BadPointer
  {
    if |r| >= 12 {
      var w := QuestionWalk(r, 12);
      if w.At? {
        AnswersComplain(r, w.off + 4, Get16(r, 6));
      }
    }
  }

  // ----- the query -----

  /** `strings.Split(domain, ".")`. */
  function SplitDots(domain: seq<byte>): (ls: seq<seq<byte>>)
    ensures ls != []
  {
    if domain == [] then [[]]
    else
      var rest := SplitDots(domain[1..]);
      if domain[0] == DOT then [[]] + rest else [[domain[0]] + rest[0]] + rest[1..]
  }

  function JoinDots(ls: seq<seq<byte>>): seq<byte>
    requires ls != []
  {
    if |ls| == 1 then ls[0] else ls[0] + [DOT] + JoinDots(ls[1..])
  }

  lemma {:induction false} SplitJoin(domain: seq<byte>)
    ensures JoinDots(SplitDots(domain)) == domain
    ensures forall i :: 0 <= i < |SplitDots(domain)| ==> DOT !in SplitDots(domain)[i]
  {
    if domain != [] {
      SplitJoin(domain[1..]);
      var rest := SplitDots(domain[1..]);
      var ls := SplitDots(domain);
      if domain[0] == DOT {
        assert ls[1..] == rest;
      } else {
        assert ls[1..] == rest[1..];
        assert ls[0] == [domain[0]] + rest[0];
      }
    }
  }

  /** Labels as lines 128-131 write them: one length byte, truncated, then the label. */
  function LabelBytes(ls: seq<seq<byte>>): (r: seq<byte>)
  {
    if ls == [] then [] else [|ls[0]| % 256] + ls[0] + LabelBytes(ls[1..])
  }

  lemma {:induction false} LabelBytesSnoc(ls: seq<seq<byte>>, l: seq<byte>)
    ensures LabelBytes(ls + [l]) == LabelBytes(ls) + [|l| % 256] + l
  {
    if ls == [] {
      assert ls + [l] == [l] && [l][1..] == [];
    } else {
      assert (ls + [l])[1..] == ls[1..] + [l];
      LabelBytesSnoc(ls[1..], l);
    }
  }

  const QUERY_HEADER: seq<byte> := [0x00, 0x01, 0x01, 0x00, 0x00, 0x01, 0x00, 0x00, 0x00, 0x00, 0x00, 0x00]

  function Query(domain: seq<byte>, qtype: nat): seq<byte>
  {
    QUERY_HEADER + LabelBytes(SplitDots(domain)) + [0x00] + Put16(qtype) + Put16(1)
  }

  method BuildDNSQuery(domain: seq<byte>, qtype: nat) returns (query: seq<byte>)
    requires qtype < 65536
    ensures query == Query(domain, qtype)
  {
    query := [0x00, 0x01, 0x01, 0x00, 0x00, 0x01, 0x00, 0x00, 0x00, 0x00, 0x00, 0x00];
    var labels := SplitDots(domain);
    assert labels[..0] == [] && labels[..|labels|] == labels;
    for i := 0 to |labels|
      invariant query == QUERY_HEADER + LabelBytes(labels[..i])
    {
      assert labels[..i + 1] == labels[..i] + [labels[i]];
      LabelBytesSnoc(labels[..i], labels[i]);
      query := query + [|labels[i]| % 256];
      query := query + labels[i];
    }
    query := query + [0x00];
    query := query + [qtype / 256, qtype % 256, 0x00, 0x01];
  }
}
