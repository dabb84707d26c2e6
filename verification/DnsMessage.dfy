/** DNS responses as section 4.1 of RFC 1035 and section 2.2 of RFC 9460 lay them out, and what
    `parseDNSResponse` makes of them (internal/transport/ech.go). */
module DnsMessage {
  import opened Bytes
  import opened EchParser

  /** A name ends with the root label or with a pointer to an earlier name. */
  datatype Tail = Root | Pointer(target: nat)

  datatype Name = Name(labels: seq<seq<byte>>, tail: Tail)

  datatype SvcParam = SvcParam(key: nat, value: seq<byte>)

  datatype RData =
    | Https(priority: nat, target: seq<seq<byte>>, params: seq<SvcParam>)
    | Raw(rrType: nat, bytes: seq<byte>)

  datatype Record = Record(owner: Name, rclass: nat, ttl: nat, rdata: RData)

  /** `rest` are the authority and additional sections. */
  datatype Message = Message(id: nat, flags: nat, question: Name, qtype: nat, qclass: nat,
    answers: seq<Record>, authorities: nat, additionals: nat, rest: seq<byte>)

  // ----- the wire format -----

  function EncTail(t: Tail): seq<byte>
  {
    match t
    case Root => [0]
    case Pointer(target) => Put16(0xC000 + target % 0x4000)
  }

  function EncName(n: Name): seq<byte>
  {
    LabelBytes(n.labels) + EncTail(n.tail)
  }

  function EncParams(ps: seq<SvcParam>): seq<byte>
  {
    if ps == [] then []
    else (Put16(ps[0].key) + Put16(|ps[0].value|)) + ps[0].value + EncParams(ps[1..])
  }

  function EncRData(d: RData): seq<byte>
  {
    match d
    case Https(priority, target, params) => Put16(priority) + (LabelBytes(target) + [0]) + EncParams(params)
    case Raw(_, bytes) => bytes
  }

  function TypeOf(d: RData): nat
  {
    if d.Https? then 65 else d.rrType
  }

  function EncFixed(rec: Record): seq<byte>
  {
    Put16(TypeOf(rec.rdata)) + Put16(rec.rclass) + (Put16(rec.ttl / 65536) + Put16(rec.ttl))
    + Put16(|EncRData(rec.rdata)|)
  }

  function EncRecord(rec: Record): seq<byte>
  {
    EncName(rec.owner) + (EncFixed(rec) + EncRData(rec.rdata))
  }

  function Blocks(rs: seq<Record>): (xs: seq<seq<byte>>)
    ensures |xs| == |rs| && forall i :: 0 <= i < |rs| ==> xs[i] == EncRecord(rs[i])
  {
    if rs == [] then [] else [EncRecord(rs[0])] + Blocks(rs[1..])
  }

  function EncRecords(rs: seq<Record>): seq<byte>
  {
    Flat(Blocks(rs))
  }

  function EncHeader(m: Message): seq<byte>
  {
    Put16(m.id) + Put16(m.flags) + Put16(1) + Put16(|m.answers|) + (Put16(m.authorities) + Put16(m.additionals))
  }

  function Encode(m: Message): seq<byte>
  {
    EncHeader(m) + EncBody(m)
  }

  function EncBody(m: Message): seq<byte>
  {
    EncName(m.question) + ((Put16(m.qtype) + Put16(m.qclass)) + (EncRecords(m.answers) + m.rest))
  }

  // ----- well-formedness -----

  predicate LabelsOk(ls: seq<seq<byte>>)
  {
    forall i :: 0 <= i < |ls| ==> 1 <= |ls[i]| <= 63
  }

  /** Labels of 1 to 63 bytes, and a pointer that stays inside a message of `size` bytes. */
  predicate NameOk(n: Name, size: nat)
  {
    LabelsOk(n.labels) && (n.tail.Pointer? ==> n.tail.target < 0x4000 && n.tail.target < size)
  }

  predicate RDataOk(d: RData)
  {
    && |EncRData(d)| < 65536
    && (d.Raw? ==> d.rrType < 65536 && d.rrType != 65)
    && (d.Https? ==> LabelsOk(d.target)
                     && forall i :: 0 <= i < |d.params| ==> d.params[i].key < 65536 && |d.params[i].value| < 65536)
  }

  predicate RecordOk(rec: Record, size: nat)
  {
    NameOk(rec.owner, size) && RDataOk(rec.rdata)
  }

  predicate RecordsOk(rs: seq<Record>, size: nat)
  {
    forall i :: 0 <= i < |rs| ==> RecordOk(rs[i], size)
  }

  predicate MessageOk(m: Message)
  {
    && |m.answers| < 65536
    && NameOk(m.question, |Encode(m)|)
    && RecordsOk(m.answers, |Encode(m)|)
  }

  /** The owner names that the walk of lines 172-186 understands: written out, or only a pointer. */
  predicate Plain(n: Name)
  {
    n.labels == [] || n.tail.Root?
  }

  // ----- what should be found -----

  function FirstKey5(ps: seq<SvcParam>): Option<seq<byte>>
  {
    if ps == [] then None
    else if ps[0].key == 5 then Some(ps[0].value)
    else FirstKey5(ps[1..])
  }

  function EchOf(d: RData): Option<seq<byte>>
  {
    if d.Https? then FirstKey5(d.params) else None
  }

  function FirstEch(rs: seq<Record>): Option<seq<byte>>
  {
    if rs == [] then None
    else if EchOf(rs[0].rdata).Some? then EchOf(rs[0].rdata)
    else FirstEch(rs[1..])
  }

  function Expected(rs: seq<Record>): Reply
  {
    if FirstEch(rs).Some? then Ech(FirstEch(rs).value) else NotFound
  }

  /** Every owner name is one the walk understands, up to the record whose value is returned. */
  predicate Walkable(rs: seq<Record>)
  {
    rs == [] || (Plain(rs[0].owner) && (EchOf(rs[0].rdata).Some? || Walkable(rs[1..])))
  }

  /** The records in front of the first owner name that the walk misreads. */
  function Understood(rs: seq<Record>): (good: seq<Record>)
    ensures |good| <= |rs|
  {
    if rs == [] || !Plain(rs[0].owner) then [] else [rs[0]] + Understood(rs[1..])
  }

  // ----- finding an encoding inside a byte string -----

  predicate Here(r: seq<byte>, off: nat, x: seq<byte>)
  {
    off + |x| <= |r| && r[off..off + |x|] == x
  }

  lemma HereSplit(r: seq<byte>, off: nat, a: seq<byte>, b: seq<byte>)
    requires Here(r, off, a + b)
    ensures Here(r, off, a) && Here(r, off + |a|, b)
  {
    var s := r[off..off + |a + b|];
    assert s[..|a|] == a && s[|a|..] == b;
    assert r[off..off + |a|] == s[..|a|];
    assert r[off + |a|..off + |a| + |b|] == s[|a|..];
  }

  lemma HereSelf(x: seq<byte>)
    ensures Here(x, 0, x)
  {}

  lemma HereAt(r: seq<byte>, off: nat, x: seq<byte>, k: nat)
    requires Here(r, off, x) && k < |x|
    ensures r[off + k] == x[k]
  {
    assert r[off..off + |x|][k] == r[off + k];
  }

  lemma Here16(r: seq<byte>, off: nat, v: nat)
    requires Here(r, off, Put16(v)) && v < 65536
    ensures Get16(r, off) == v
  {
    GetPut16(v, r, off);
  }

  /** Labels written one behind the other: first one label, then the others. */
  lemma HereLabel(r: seq<byte>, off: nat, ls: seq<seq<byte>>)
    requires ls != [] && |ls[0]| < 256 && Here(r, off, LabelBytes(ls))
    ensures off < |r| && r[off] == |ls[0]| && Here(r, off + |ls[0]| + 1, LabelBytes(ls[1..]))
    ensures |LabelBytes(ls)| == 1 + |ls[0]| + |LabelBytes(ls[1..])|
  {
    HereAt(r, off, LabelBytes(ls), 0);
    HereSplit(r, off, [|ls[0]| % 256] + ls[0], LabelBytes(ls[1..]));
  }

  // ----- names -----

  lemma LabelsTail(ls: seq<seq<byte>>)
    requires LabelsOk(ls) && ls != []
    ensures LabelsOk(ls[1..]) && 1 <= |ls[0]| <= 63
  {
    assert forall i :: 0 <= i < |ls[1..]| ==> ls[1..][i] == ls[i + 1];
  }

  lemma {:induction false} LabelWalkOver(r: seq<byte>, off: nat, ls: seq<seq<byte>>)
    requires LabelsOk(ls) && Here(r, off, LabelBytes(ls))
    ensures LabelWalk(r, off) == LabelWalk(r, off + |LabelBytes(ls)|)
    decreases |ls|
  {
    if ls != [] {
      HereLabel(r, off, ls);
      LabelsTail(ls);
      LabelWalkOver(r, off + |ls[0]| + 1, ls[1..]);
    }
  }

  lemma {:induction false} QuestionWalkOver(r: seq<byte>, off: nat, ls: seq<seq<byte>>)
    requires LabelsOk(ls) && Here(r, off, LabelBytes(ls)) && off + |LabelBytes(ls)| < |r|
    ensures QuestionWalk(r, off) == QuestionWalk(r, off + |LabelBytes(ls)|)
    decreases |ls|
  {
    if ls != [] {
      HereLabel(r, off, ls);
      LabelsTail(ls);
      QuestionWalkOver(r, off + |ls[0]| + 1, ls[1..]);
    }
  }

  lemma PointerHere(r: seq<byte>, off: nat, target: nat)
    requires target < 0x4000 && Here(r, off, EncTail(Pointer(target)))
    ensures off + 2 <= |r| && IsPointer(r[off]) && PointerTarget(r, off) == target
  {
    var v := 0xC000 + target;
    assert v < 65536 && EncTail(Pointer(target)) == Put16(v);
    assert Get16(r, off) == v by {
      Here16(r, off, v);
    }
    assert r[off] == Put16(v)[0] by {
      HereAt(r, off, Put16(v), 0);
    }
    PointerBytes(target);
  }

  lemma PointerBytes(target: nat)
    requires target < 0x4000
    ensures ((0xC000 + target) / 256) % 256 / 64 == 3 && (0xC000 + target) % 0x4000 == target
  {}

  /** What both walks find at the end of a name. */
  lemma TailWalk(r: seq<byte>, p: nat, t: Tail)
    requires Here(r, p, EncTail(t)) && (t.Pointer? ==> t.target < 0x4000 && t.target < |r|)
    ensures p < |r| && |EncTail(t)| == (if t.Root? then 1 else 2)
    ensures QuestionWalk(r, p) == At(p + |EncTail(t)|)
    ensures if t.Root? then r[p] == 0 else IsPointer(r[p]) && OwnerWalk(r, p) == At(p + 2)
  {
    if t.Root? {
      HereAt(r, p, [0], 0);
    } else {
      PointerHere(r, p, t.target);
    }
  }

  lemma QuestionName(r: seq<byte>, off: nat, n: Name)
    requires NameOk(n, |r|) && Here(r, off, EncName(n))
    ensures QuestionWalk(r, off) == At(off + |EncName(n)|)
  {
    var p := off + |LabelBytes(n.labels)|;
    HereSplit(r, off, LabelBytes(n.labels), EncTail(n.tail));
    TailWalk(r, p, n.tail);
    QuestionWalkOver(r, off, n.labels);
  }

  /** The walk over an owner name ends behind the name exactly for the names it understands: labels
      followed by a pointer, which section 4.1.4 of RFC 1035 also allows, throw it off. */
  lemma OwnerNameIff(r: seq<byte>, off: nat, n: Name)
    requires NameOk(n, |r|) && Here(r, off, EncName(n))
    ensures OwnerWalk(r, off) == At(off + |EncName(n)|) <==> Plain(n)
  {
    var p := off + |LabelBytes(n.labels)|;
    HereSplit(r, off, LabelBytes(n.labels), EncTail(n.tail));
    TailWalk(r, p, n.tail);
    LabelWalkOver(r, off, n.labels);
    if n.labels != [] {
      HereLabel(r, off, n.labels);
    }
  }

  // ----- records -----

  lemma ParamHere(d: seq<byte>, off: nat, key: nat, value: seq<byte>, rest: seq<byte>)
    requires key < 65536 && |value| < 65536
    requires Here(d, off, (Put16(key) + Put16(|value|)) + value + rest)
    ensures off + 4 + |value| <= |d| && Get16(d, off) == key && Get16(d, off + 2) == |value|
    ensures d[off + 4..off + 4 + |value|] == value && Here(d, off + 4 + |value|, rest)
  {
    HereSplit(d, off, (Put16(key) + Put16(|value|)) + value, rest);
    HereSplit(d, off, Put16(key) + Put16(|value|), value);
    HereSplit(d, off, Put16(key), Put16(|value|));
    Here16(d, off, key);
    Here16(d, off + 2, |value|);
  }

  lemma ParamStep(d: seq<byte>, off: nat, key: nat, value: seq<byte>)
    requires off + 4 + |value| <= |d| && Get16(d, off) == key && Get16(d, off + 2) == |value|
    requires d[off + 4..off + 4 + |value|] == value
    ensures Params(d, off) == if key == SVC_ECH then Some(value) else Params(d, off + 4 + |value|)
  {}

  lemma {:induction false} ParamsOver(d: seq<byte>, off: nat, ps: seq<SvcParam>)
    requires forall i :: 0 <= i < |ps| ==> ps[i].key < 65536 && |ps[i].value| < 65536
    requires Here(d, off, EncParams(ps)) && off + |EncParams(ps)| == |d|
    ensures Params(d, off) == FirstKey5(ps)
    decreases |ps|
  {
    if ps != [] {
      var key, value, next := ps[0].key, ps[0].value, off + 4 + |ps[0].value|;
      assert Params(d, next) == FirstKey5(ps[1..]) by {
        ParamHere(d, off, key, value, EncParams(ps[1..]));
        assert forall i :: 0 <= i < |ps[1..]| ==> ps[1..][i] == ps[i + 1];
        ParamsOver(d, next, ps[1..]);
      }
      assert Params(d, off) == (if key == SVC_ECH then Some(value) else Params(d, next)) by {
        ParamHere(d, off, key, value, EncParams(ps[1..]));
        ParamStep(d, off, key, value);
      }
    }
  }

  /** The target name of an HTTPS record, and where its parameters start. */
  lemma TargetName(d: seq<byte>, target: seq<seq<byte>>)
    requires LabelsOk(target) && Here(d, 2, LabelBytes(target) + [0])
    ensures LabelWalk(d, 2) + 1 == 2 + |LabelBytes(target) + [0]|
  {
    HereSplit(d, 2, LabelBytes(target), [0]);
    LabelWalkOver(d, 2, target);
    HereAt(d, 2 + |LabelBytes(target)|, [0], 0);
  }

  lemma HttpsRecord(rd: RData)
    requires rd.Https? && RDataOk(rd)
    ensures HttpsEch(EncRData(rd)) == FirstKey5(rd.params)
  {
    var d := EncRData(rd);
    var head, name, ps := Put16(rd.priority), LabelBytes(rd.target) + [0], EncParams(rd.params);
    HereSelf(d);
    HereSplit(d, 0, head + name, ps);
    HereSplit(d, 0, head, name);
    TargetName(d, rd.target);
    ParamsOver(d, 2 + |name|, rd.params);
  }

  /** What the parser makes of a record's data. */
  lemma RDataEch(d: RData)
    requires RDataOk(d)
    ensures EchOf(d) == if TypeOf(d) == TYPE_HTTPS then HttpsEch(EncRData(d)) else None
  {
    if d.Https? {
      HttpsRecord(d);
    }
  }

  /** The ten bytes between the owner name and the data. */
  lemma FixedPart(r: seq<byte>, o: nat, rec: Record)
    requires RDataOk(rec.rdata) && Here(r, o, EncFixed(rec))
    ensures |EncFixed(rec)| == 10
    ensures Get16(r, o) == TypeOf(rec.rdata) && Get16(r, o + 8) == |EncRData(rec.rdata)|
  {
    var a, b := Put16(TypeOf(rec.rdata)), Put16(rec.rclass);
    var c, e := Put16(rec.ttl / 65536) + Put16(rec.ttl), Put16(|EncRData(rec.rdata)|);
    HereSplit(r, o, a + b + c, e);
    HereSplit(r, o, a + b, c);
    HereSplit(r, o, a, b);
    Here16(r, o, TypeOf(rec.rdata));
    Here16(r, o + 8, |EncRData(rec.rdata)|);
  }

  /** Where the parts of an encoded record are found. */
  lemma RecordParts(r: seq<byte>, off: nat, rec: Record)
    requires RecordOk(rec, |r|) && Here(r, off, EncRecord(rec))
    ensures var o := off + |EncName(rec.owner)|;
            && Here(r, off, EncName(rec.owner)) && o + 10 <= |r|
            && Get16(r, o) == TypeOf(rec.rdata) && Get16(r, o + 8) == |EncRData(rec.rdata)|
            && Here(r, o + 10, EncRData(rec.rdata))
            && off + |EncRecord(rec)| == o + 10 + |EncRData(rec.rdata)| && off < |r|
  {
    var name, fixed, data := EncName(rec.owner), EncFixed(rec), EncRData(rec.rdata);
    HereSplit(r, off, name, fixed + data);
    HereSplit(r, off + |name|, fixed, data);
    FixedPart(r, off + |name|, rec);
  }

  /** What the loop over the answers needs to know of a record it meets at `off`. */
  predicate Met(r: seq<byte>, off: nat, size: nat, rrType: nat, data: seq<byte>)
  {
    && off < |r| && OwnerWalk(r, off).At?
    && var o := OwnerWalk(r, off).off;
       && o + 10 <= |r|
       && Get16(r, o) == rrType && Get16(r, o + 8) == |data|
       && Here(r, o + 10, data) && off + size == o + 10 + |data|
  }

  /** One turn of the loop over the answers. */
  lemma AnswerStep(r: seq<byte>, off: nat, n: nat, size: nat, rrType: nat, data: seq<byte>)
    requires n > 0 && Met(r, off, size, rrType, data)
    ensures Answers(r, off, n) ==
              if rrType == TYPE_HTTPS && HttpsEch(data).Some? then Ech(HttpsEch(data).value)
              else Answers(r, off + size, n - 1)
  {}

  lemma RecordMet(r: seq<byte>, off: nat, rec: Record)
    requires RecordOk(rec, |r|) && Plain(rec.owner) && Here(r, off, EncRecord(rec))
    ensures Met(r, off, |EncRecord(rec)|, TypeOf(rec.rdata), EncRData(rec.rdata))
  {
    RecordParts(r, off, rec);
    OwnerNameIff(r, off, rec.owner);
  }

  /** A record's value, if it has one, or else what the later records give. */
  function OneAnswer(value: Option<seq<byte>>, later: Reply): Reply
  {
    if value.Some? then Ech(value.value) else later
  }

  /** One turn over a well-formed record with a plain owner name. */
  lemma RecordTurn(r: seq<byte>, off: nat, n: nat, rec: Record)
    requires n > 0 && RecordOk(rec, |r|) && Plain(rec.owner) && Here(r, off, EncRecord(rec))
    ensures Answers(r, off, n) == OneAnswer(EchOf(rec.rdata), Answers(r, off + |EncRecord(rec)|, n - 1))
  {
    var size, rrType, data := |EncRecord(rec)|, TypeOf(rec.rdata), EncRData(rec.rdata);
    assert Met(r, off, size, rrType, data) by {
      RecordMet(r, off, rec);
    }
    assert EchOf(rec.rdata) == if rrType == TYPE_HTTPS then HttpsEch(data) else None by {
      RDataEch(rec.rdata);
    }
    AnswerStep(r, off, n, size, rrType, data);
  }

  /** Wherever the block `x` stands, one turn of the loop gets its value or goes on behind it. */
  ghost predicate Turns(r: seq<byte>, x: seq<byte>, value: Option<seq<byte>>)
  {
    forall o: nat, n: nat :: n > 0 && Here(r, o, x) ==>
      Answers(r, o, n) == OneAnswer(value, Answers(r, o + |x|, n - 1))
  }

  lemma TurnsTail(r: seq<byte>, xs: seq<seq<byte>>, rs: seq<Record>)
    requires |xs| == |rs| > 0
    requires forall i :: 0 <= i < |rs| && Plain(rs[i].owner) ==> Turns(r, xs[i], EchOf(rs[i].rdata))
    ensures forall i :: 0 <= i < |rs[1..]| && Plain(rs[1..][i].owner) ==> Turns(r, xs[1..][i], EchOf(rs[1..][i].rdata))
  {
    assert forall i :: 0 <= i < |rs[1..]| ==> rs[1..][i] == rs[i + 1] && xs[1..][i] == xs[i + 1];
  }

  /** The loop reads the records it understands, and then goes on behind them. */
  lemma {:induction false} BlocksAnswer(r: seq<byte>, off: nat, xs: seq<seq<byte>>, rs: seq<Record>)
    returns (next: nat, later: Reply)
    requires |xs| == |rs| && Here(r, off, Flat(xs))
    requires forall i :: 0 <= i < |rs| && Plain(rs[i].owner) ==> Turns(r, xs[i], EchOf(rs[i].rdata))
    ensures Answers(r, off, |rs|) == OneAnswer(FirstEch(Understood(rs)), later)
    ensures next >= off && if |Understood(rs)| == |rs| then later == NotFound
                           else Here(r, next, xs[|Understood(rs)|])
                                && later == Answers(r, next, |rs| - |Understood(rs)|)
    decreases |rs|
  {
    next, later := off, Answers(r, off, |rs|);
    if rs != [] {
      assert Here(r, off, xs[0]) && Here(r, off + |xs[0]|, Flat(xs[1..])) by {
        HereSplit(r, off, xs[0], Flat(xs[1..]));
      }
      if Plain(rs[0].owner) {
        assert Turns(r, xs[0], EchOf(rs[0].rdata));
        assert Answers(r, off, |rs|) == OneAnswer(EchOf(rs[0].rdata), Answers(r, off + |xs[0]|, |rs| - 1));
        TurnsTail(r, xs, rs);
        next, later := BlocksAnswer(r, off + |xs[0]|, xs[1..], rs[1..]);
        assert Understood(rs)[1..] == Understood(rs[1..]);
      }
    }
  }

  lemma RecordTurns(r: seq<byte>, rec: Record)
    requires RecordOk(rec, |r|) && Plain(rec.owner)
    ensures Turns(r, EncRecord(rec), EchOf(rec.rdata))
  {
    forall o: nat, n: nat | n > 0 && Here(r, o, EncRecord(rec))
      ensures Answers(r, o, n) == OneAnswer(EchOf(rec.rdata), Answers(r, o + |EncRecord(rec)|, n - 1))
    {
      RecordTurn(r, o, n, rec);
    }
  }

  lemma {:induction false} UnderstoodIff(rs: seq<Record>)
    ensures Understood(rs) <= rs
    ensures |Understood(rs)| < |rs| ==> !Plain(rs[|Understood(rs)|].owner)
    ensures Walkable(rs) <==> FirstEch(Understood(rs)).Some? || Understood(rs) == rs
    ensures FirstEch(Understood(rs)).Some? ==> FirstEch(rs) == FirstEch(Understood(rs))
    ensures Expected(Understood(rs)) == Expected(rs) <==> Walkable(rs) || FirstEch(rs).None?
  {
    if rs != [] && Plain(rs[0].owner) {
      assert Understood(rs)[0] == rs[0] && Understood(rs)[1..] == Understood(rs[1..]);
      UnderstoodIff(rs[1..]);
    }
  }

  lemma WalkableResult(rs: seq<Record>, later: Reply)
    requires Walkable(rs) && (|Understood(rs)| == |rs| ==> later == NotFound)
    ensures OneAnswer(FirstEch(Understood(rs)), later) == Expected(rs)
  {
    UnderstoodIff(rs);
  }

  lemma BlocksTurn(r: seq<byte>, rs: seq<Record>)
    requires RecordsOk(rs, |r|)
    ensures forall i :: 0 <= i < |rs| && Plain(rs[i].owner) ==> Turns(r, Blocks(rs)[i], EchOf(rs[i].rdata))
  {
    forall i | 0 <= i < |rs| && Plain(rs[i].owner)
      ensures Turns(r, Blocks(rs)[i], EchOf(rs[i].rdata))
    {
      RecordTurns(r, rs[i]);
    }
  }

  lemma WalkableAnswers(r: seq<byte>, off: nat, rs: seq<Record>)
    requires RecordsOk(rs, |r|) && Here(r, off, EncRecords(rs)) && Walkable(rs)
    ensures Answers(r, off, |rs|) == Expected(rs)
  {
    BlocksTurn(r, rs);
    var next, later := BlocksAnswer(r, off, Blocks(rs), rs);
    WalkableResult(rs, later);
  }

  lemma HeaderPart(m: Message)
    requires |m.answers| < 65536
    ensures var r := Encode(m);
            |r| >= 12 && Get16(r, 6) == |m.answers|
            && Here(r, 12, EncBody(m))
  {
    var r := Encode(m);
    HereSelf(r);
    HereSplit(r, 0, EncHeader(m), EncBody(m));
    HereSplit(r, 0, Put16(m.id) + Put16(m.flags) + Put16(1) + Put16(|m.answers|),
              Put16(m.authorities) + Put16(m.additionals));
    HereSplit(r, 0, Put16(m.id) + Put16(m.flags) + Put16(1), Put16(|m.answers|));
    Here16(r, 6, |m.answers|);
  }

  /** Where the question and the answers of an encoded message stand. */
  lemma BodyParts(m: Message)
    requires |m.answers| < 65536
    ensures var r := Encode(m);
            var o := 12 + |EncName(m.question)|;
            Here(r, 12, EncName(m.question)) && o + 4 <= |r| && Here(r, o + 4, EncRecords(m.answers))
  {
    var r := Encode(m);
    var fixed := Put16(m.qtype) + Put16(m.qclass);
    var o := 12 + |EncName(m.question)|;
    HeaderPart(m);
    HereSplit(r, 12, EncName(m.question), fixed + (EncRecords(m.answers) + m.rest));
    HereSplit(r, o, fixed, EncRecords(m.answers) + m.rest);
    HereSplit(r, o + 4, EncRecords(m.answers), m.rest);
  }

  /** On every well-formed response with one question, if the owner names up to the record that should
      be returned - all of them, if there is none - are written out or a bare pointer: the parser returns
      the first key-5 value of the first HTTPS record that has one, whatever else the records and the
      later sections hold; and it fails when there is none. */
  lemma ExtractionCorrect(m: Message)
    requires MessageOk(m) && Walkable(m.answers)
    ensures Parse(Encode(m)) == if m.answers == [] then NoAnswers else Expected(m.answers)
  {
    ParseIsAnswers(m);
    if m.answers != [] {
      BodyParts(m);
      WalkableAnswers(Encode(m), 16 + |EncName(m.question)|, m.answers);
    }
  }

  /** The parser gets to the answers of every well-formed response. */
  lemma ParseIsAnswers(m: Message)
    requires MessageOk(m)
    ensures Parse(Encode(m)) ==
              if m.answers == [] then NoAnswers
              else Answers(Encode(m), 16 + |EncName(m.question)|, |m.answers|)
  {
    HeaderPart(m);
    BodyParts(m);
    QuestionName(Encode(m), 12, m.question);
  }

  // ----- labels followed by a pointer -----

  /** The pointer's first byte, taken for a length, leads at least 193 bytes on. */
  lemma OddOwner(r: seq<byte>, off: nat, n: Name)
    requires NameOk(n, |r|) && !Plain(n) && Here(r, off, EncName(n))
    ensures off < |r| && OwnerWalk(r, off).At? && OwnerWalk(r, off).off >= off + 196
  {
    var p := off + |LabelBytes(n.labels)|;
    HereSplit(r, off, LabelBytes(n.labels), EncTail(n.tail));
    TailWalk(r, p, n.tail);
    LabelWalkOver(r, off, n.labels);
    HereLabel(r, off, n.labels);
    LabelsTail(n.labels);
    assert LabelWalk(r, p) >= p + 193;
  }

  lemma OddRecord(r: seq<byte>, off: nat, n: nat, rec: Record)
    requires n > 0 && RecordOk(rec, |r|) && !Plain(rec.owner) && Here(r, off, EncRecord(rec)) && |r| < off + 206
    ensures Answers(r, off, n) == NotFound
  {
    HereSplit(r, off, EncName(rec.owner), EncFixed(rec) + EncRData(rec.rdata));
    OddOwner(r, off, rec.owner);
  }

  /** Wherever the block `x` stands from `lo` on, the loop over the answers ends there in vain. */
  ghost predicate Loses(r: seq<byte>, x: seq<byte>, lo: nat)
  {
    forall o: nat, n: nat :: n > 0 && o >= lo && Here(r, o, x) ==> Answers(r, o, n) == NotFound
  }

  lemma ShortBlocks(r: seq<byte>, off: nat, xs: seq<seq<byte>>, rs: seq<Record>)
    requires |xs| == |rs| && Here(r, off, Flat(xs))
    requires forall i :: 0 <= i < |rs| && Plain(rs[i].owner) ==> Turns(r, xs[i], EchOf(rs[i].rdata))
    requires forall i :: 0 <= i < |rs| && !Plain(rs[i].owner) ==> Loses(r, xs[i], off)
    ensures Answers(r, off, |rs|) == Expected(Understood(rs))
  {
    var next, later := BlocksAnswer(r, off, xs, rs);
    UnderstoodIff(rs);
    if |Understood(rs)| < |rs| {
      assert Loses(r, xs[|Understood(rs)|], off);
    }
  }

  lemma ShortAnswers(r: seq<byte>, off: nat, rs: seq<Record>)
    requires RecordsOk(rs, |r|) && Here(r, off, EncRecords(rs)) && |r| < off + 206
    ensures Answers(r, off, |rs|) == Expected(Understood(rs))
  {
    BlocksTurn(r, rs);
    forall i | 0 <= i < |rs| && !Plain(rs[i].owner)
      ensures Loses(r, Blocks(rs)[i], off)
    {
      OddRecordLoses(r, off, rs[i]);
    }
    ShortBlocks(r, off, Blocks(rs), rs);
  }

  lemma OddRecordLoses(r: seq<byte>, off: nat, rec: Record)
    requires RecordOk(rec, |r|) && !Plain(rec.owner) && |r| < off + 206
    ensures Loses(r, EncRecord(rec), off)
  {
    forall o: nat, n: nat | n > 0 && o >= off && Here(r, o, EncRecord(rec))
      ensures Answers(r, o, n) == NotFound
    {
      OddRecord(r, o, n, rec);
    }
  }

  /** Every well-formed response with fewer than 206 bytes behind its question: the answers from the
      first owner name of labels and a pointer on are lost. So the parser is right if and only if that
      name does not stand in front of, or on, the record that should be returned. */
  lemma ShortResponseIff(m: Message)
    requires MessageOk(m) && m.answers != [] && |Encode(m)| < 16 + |EncName(m.question)| + 206
    ensures Parse(Encode(m)) == Expected(Understood(m.answers))
    ensures Parse(Encode(m)) == Expected(m.answers) <==> Walkable(m.answers) || FirstEch(m.answers).None?
  {
    ParseIsAnswers(m);
    BodyParts(m);
    ShortAnswers(Encode(m), 16 + |EncName(m.question)|, m.answers);
    UnderstoodIff(m.answers);
  }

  /** A question for the one-letter name "a", and an HTTPS record for "b.a" with key 5 that refers to it. */
  function PointedAt(): Message
  {
    Message(1, 0x8180, Name([[97]], Root), 65, 1,
            [Record(Name([[98]], Pointer(12)), 1, 300, Https(1, [], [SvcParam(5, [1, 2, 3])]))], 0, 0, [])
  }

  /** The response is well formed and holds the value, and the parser does not find it. */
  lemma PointedAtIsMissed()
    ensures MessageOk(PointedAt()) && FirstEch(PointedAt().answers) == Some([1, 2, 3])
    ensures |Encode(PointedAt())| == 43 && Parse(Encode(PointedAt())) == NotFound
  {
    PointedAtSize();
    ShortResponseIff(PointedAt());
  }

  lemma PointedAtSize()
    ensures MessageOk(PointedAt()) && |Encode(PointedAt())| == 43 && !Walkable(PointedAt().answers)
  {
    var m := PointedAt();
    var rec := m.answers[0];
    assert |LabelBytes([[97]])| == 2 && |LabelBytes([[98]])| == 2;
    assert |EncParams([SvcParam(5, [1, 2, 3])])| == 7;
    assert |EncRData(rec.rdata)| == 10 && |EncFixed(rec)| == 10 && |EncName(rec.owner)| == 4;
    assert Blocks(m.answers) == [EncRecord(rec)];
    FlatOne(EncRecord(rec));
  }

  // ----- the question section of our own query -----

  /** Up to 191 bytes a label's length byte is neither zero nor a pointer. */
  predicate LengthsOk(ls: seq<seq<byte>>)
  {
    forall i :: 0 <= i < |ls| ==> 1 <= |ls[i]| <= 191
  }

  lemma LengthsOkCons(ls: seq<seq<byte>>)
    requires ls != []
    ensures LengthsOk(ls) <==> 1 <= |ls[0]| <= 191 && LengthsOk(ls[1..])
  {
    assert ls == [ls[0]] + ls[1..];
    if 1 <= |ls[0]| <= 191 && LengthsOk(ls[1..]) {
      assert forall i :: 0 < i < |ls| ==> ls[i] == ls[1..][i - 1];
    }
  }

  /** A zero or pointer byte in place of a length ends the walk at once. */
  lemma OddLabel(r: seq<byte>, off: nat, end: nat)
    requires off < end < |r| && (r[off] == 0 || (r[off] >= 192 && off + r[off] as int < end))
    ensures QuestionWalk(r, off) != At(end + 1)
  {}

  lemma {:induction false} LabelsWalkIff(r: seq<byte>, off: nat, ls: seq<seq<byte>>)
    requires forall i :: 0 <= i < |ls| ==> |ls[i]| < 256
    requires Here(r, off, LabelBytes(ls)) && Here(r, off + |LabelBytes(ls)|, [0])
    ensures QuestionWalk(r, off) == At(off + |LabelBytes(ls)| + 1) <==> LengthsOk(ls)
    decreases |ls|
  {
    if ls == [] {
      HereAt(r, off, [0], 0);
    } else {
      HereLabel(r, off, ls);
      LengthsOkCons(ls);
      if 1 <= |ls[0]| <= 191 {
        assert forall i :: 0 <= i < |ls[1..]| ==> ls[1..][i] == ls[i + 1];
        LabelsWalkIff(r, off + |ls[0]| + 1, ls[1..]);
      } else {
        OddLabel(r, off, off + |LabelBytes(ls)|);
      }
    }
  }

  /** For a domain of labels below 256 bytes, the walk over a response that repeats our question stops
      exactly at the first answer byte if and only if every label has 1 to 191 bytes - so for every
      domain that section 3.1 of RFC 1035 allows. */
  lemma QuestionMatchesQueryIff(domain: seq<byte>, qtype: nat, r: seq<byte>)
    requires forall i :: 0 <= i < |SplitDots(domain)| ==> |SplitDots(domain)[i]| < 256
    requires var q := Query(domain, qtype); |r| >= |q| && r[12..|q|] == q[12..]
    ensures QuestionWalk(r, 12) == At(|Query(domain, qtype)| - 4) <==> LengthsOk(SplitDots(domain))
  {
    var ls := SplitDots(domain);
    var q := Query(domain, qtype);
    var name, tail := LabelBytes(ls) + [0x00], Put16(qtype) + Put16(1);
    assert q == QUERY_HEADER + (name + tail);
    assert q[12..] == name + tail && 12 + |name + tail| == |q|;
    assert Here(r, 12, name + tail);
    HereSplit(r, 12, name, tail);
    HereSplit(r, 12, LabelBytes(ls), [0x00]);
    LabelsWalkIff(r, 12, ls);
  }

  // ----- byte for byte -----

  /** The query is a message of the grammar: one question for the domain's labels, with the type asked for,
      class 1, recursion desired, and no records. */
  lemma QueryIsMessage(domain: seq<byte>, qtype: nat)
    ensures Query(domain, qtype) ==
              Encode(Message(1, 0x0100, Name(SplitDots(domain), Root), qtype, 1, [], 0, 0, []))
  {
    var m := Message(1, 0x0100, Name(SplitDots(domain), Root), qtype, 1, [], 0, 0, []);
    assert EncHeader(m) == QUERY_HEADER;
    assert EncRecords(m.answers) + m.rest == [];
    assert EncBody(m) == (LabelBytes(SplitDots(domain)) + [0x00]) + (Put16(qtype) + Put16(1));
  }

  lemma SplitCons(c: byte, rest: seq<byte>)
    ensures SplitDots([c] + rest) ==
              if c == 46 then [[]] + SplitDots(rest) else [[c] + SplitDots(rest)[0]] + SplitDots(rest)[1..]
  {
    assert ([c] + rest)[1..] == rest;
  }

  lemma LabelsOfAB()
    ensures SplitDots([97, 46, 98]) == [[97], [98]] && LabelBytes([[97], [98]]) == [1, 97, 1, 98]
  {
    var a: seq<byte>, dot: seq<byte>, b: seq<byte> := [97], [46], [98];
    SplitCons(98, []);
    SplitCons(46, b);
    SplitCons(97, dot + b);
    assert b + [] == b && [97, 46, 98] == a + (dot + b);
    assert SplitDots(b) == [b] && SplitDots(dot + b) == [[], b];
    assert SplitDots(dot + b)[0] == [] && SplitDots(dot + b)[1..] == [b] && a + [] == a;
    assert SplitDots(a + (dot + b)) == [a + []] + [b] == [a, b];
    assert LabelBytes([b]) == [1, 98] && [a, b][1..] == [b];
    assert LabelBytes([a, b]) == [1, 97, 1, 98];
  }

  /** The HTTPS query for "a.b". */
  lemma QueryBytes()
    ensures Query([97, 46, 98], 65) == [0, 1, 1, 0, 0, 1, 0, 0, 0, 0, 0, 0, 1, 97, 1, 98, 0, 0, 65, 0, 1]
  {
    LabelsOfAB();
    assert Put16(65) == [0, 65] && Put16(1) == [0, 1];
  }

  /** A response for "a" whose HTTPS record, named by a pointer to the question, has key 5. */
  function Answered(): Message
  {
    Message(1, 0x8180, Name([[97]], Root), 65, 1,
            [Record(Name([], Pointer(12)), 1, 300, Https(1, [], [SvcParam(5, [7, 8, 9])]))], 0, 0, [])
  }

  function AnsweredBytes(): seq<byte>
  {
    [0, 1, 0x81, 0x80, 0, 1, 0, 1, 0, 0, 0, 0]
    + ([1, 97, 0] + ([0, 65, 0, 1]
       + ([0xC0, 12] + ([0, 65, 0, 1, 0, 0, 1, 44, 0, 10] + ([0, 1, 0] + [0, 5, 0, 3, 7, 8, 9])))))
  }

  lemma AnsweredRecord()
    ensures EncRecord(Answered().answers[0]) ==
              [0xC0, 12] + ([0, 65, 0, 1, 0, 0, 1, 44, 0, 10] + ([0, 1, 0] + [0, 5, 0, 3, 7, 8, 9]))
    ensures RecordOk(Answered().answers[0], 41) && Plain(Answered().answers[0].owner)
  {
    var rec := Answered().answers[0];
    assert EncParams([SvcParam(5, [7, 8, 9])]) == [0, 5, 0, 3, 7, 8, 9];
    assert EncRData(rec.rdata) == [0, 1, 0] + [0, 5, 0, 3, 7, 8, 9];
    assert EncFixed(rec) == [0, 65, 0, 1, 0, 0, 1, 44, 0, 10];
    assert EncName(rec.owner) == [0xC0, 12];
  }

  lemma AnsweredIsBytes()
    ensures MessageOk(Answered()) && Walkable(Answered().answers) && Encode(Answered()) == AnsweredBytes()
  {
    var m := Answered();
    AnsweredRecord();
    assert Blocks(m.answers) == [EncRecord(m.answers[0])];
    FlatOne(EncRecord(m.answers[0]));
    assert EncRecords(m.answers) + m.rest == EncRecord(m.answers[0]);
    assert EncHeader(m) == [0, 1, 0x81, 0x80, 0, 1, 0, 1, 0, 0, 0, 0];
    assert EncName(m.question) == [1, 97, 0];
  }

  /** In bytes: this response of type 65 and key 5 gives 7, 8, 9. */
  lemma AnsweredIsFound()
    ensures Parse(AnsweredBytes()) == Ech([7, 8, 9])
  {
    AnsweredIsBytes();
    ExtractionCorrect(Answered());
  }
}
