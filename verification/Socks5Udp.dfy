/** SOCKS5 UDP datagrams, section 7 of RFC 1928 (cmd/client/main.go). Hosts are what `net.ParseIP` and
    `net.IP.String` make of their text, which are taken to be inverse. */
module Socks5Udp {
  import opened Bytes

  /** A host as text denotes it. */
  datatype Host = Ip4(bytes: seq<byte>) | Ip6(bytes: seq<byte>) | Domain(name: seq<byte>)

  /** The parsed target: only an address of type 4 is printed in brackets. */
  datatype Packet = Packet(host: Host, bracketed: bool, port: int, data: seq<byte>)

  const MAPPED_PREFIX: seq<byte> := [0, 0, 0, 0, 0, 0, 0, 0, 0, 0, 0xFF, 0xFF]

  predicate Mapped(b: seq<byte>)
  {
    |b| == 16 && b[..12] == MAPPED_PREFIX
  }

  /** `net.IP.String` prints an IPv4-mapped address as the IPv4 address. */
  function Printed16(b: seq<byte>): Host
    requires |b| == 16
  {
    if Mapped(b) then Ip4(b[12..]) else Ip6(b)
  }

  /** The address as it stands in a datagram. */
  datatype Addr = V4(bytes: seq<byte>) | Name(name: seq<byte>) | V6(bytes: seq<byte>)

  predicate AddrOk(a: Addr)
  {
    match a
    case V4(b) => |b| == 4
    case Name(n) => |n| <= 255
    case V6(b) => |b| == 16
  }

  function EncAddr(a: Addr): seq<byte>
  {
    match a
    case V4(b) => [0x01] + b
    case Name(n) => [0x03, |n| % 256] + n
    case V6(b) => [0x04] + b
  }

  /** What follows the two reserved bytes and the fragment number. */
  function Wire(a: Addr, port: int, data: seq<byte>): seq<byte>
  {
    EncAddr(a) + (Put16(port) + data)
  }

  /** In bytes, as section 5 of RFC 1928 numbers the address types. */
  lemma WireBytes(b6: seq<byte>)
    ensures Wire(V4([127, 0, 0, 1]), 53, [7]) == [1, 127, 0, 0, 1, 0, 53, 7]
    ensures Wire(Name([97, 98]), 0x1234, [7]) == [3, 2, 97, 98, 0x12, 0x34, 7]
    ensures Wire(V6(b6), 53, [7]) == [4] + b6 + [0, 53, 7]
  {
    assert Put16(53) + [7] == [0, 53, 7] && Put16(0x1234) + [7] == [0x12, 0x34, 7];
    assert EncAddr(V4([127, 0, 0, 1])) == [1, 127, 0, 0, 1];
    assert EncAddr(Name([97, 98])) == [3, 2, 97, 98];
  }

  function Printed(a: Addr): Host
    requires AddrOk(a)
  {
    match a
    case V4(b) => Ip4(b)
    case Name(n) => Domain(n)
    case V6(b) => Printed16(b)
  }

  /** A datagram that section 7 of RFC 1928 allows, not a fragment, and at least ten bytes long. */
  predicate Wellformed(b: seq<byte>, a: Addr, port: nat, data: seq<byte>)
  {
    && |b| >= 10 && b[2] == 0 && AddrOk(a) && port < 65536
    && b[3..] == Wire(a, port, data)
  }

  /** The address at offset 3, if it is whole. */
  function AddrAt(b: seq<byte>): Option<Addr>
    requires |b| >= 10
  {
    if b[3] == 0x01 then Some(V4(b[4..8]))
    else if b[3] == 0x03 then
      if 5 + b[4] as int <= |b| then Some(Name(b[5..5 + b[4] as int])) else None
    else if b[3] == 0x04 then
      if 20 <= |b| then Some(V6(b[4..20])) else None
    else None
  }

  method ParseSOCKS5UDPPacket(b: seq<byte>) returns (r: Option<Packet>)
    ensures r.Some? ==> exists a: Addr, port: nat ::
                Wellformed(b, a, port, r.value.data)
                && r.value == Packet(Printed(a), a.V6?, port, r.value.data)
    ensures forall a: Addr, port: nat, data: seq<byte> ::
              Wellformed(b, a, port, data) ==> r == Some(Packet(Printed(a), a.V6?, port, data))
  {
    forall a: Addr, port: nat, data: seq<byte> | Wellformed(b, a, port, data)
      ensures AddrAt(b) == Some(a) && |b| >= 5 + |EncAddr(a)| && Get16(b, 3 + |EncAddr(a)|) == port
              && b[5 + |EncAddr(a)|..] == data
    {
      WireFields(b, a, port, data);
    }
    if |b| < 10 || b[2] != 0 {
      return None;
    }
    var off := 4;
    var h: Host;
    ghost var addr: Addr;
    if b[3] == 0x01 {
      h := Ip4(b[off..off + 4]);
      addr := V4(b[4..8]);
      off := off + 4;
    } else if b[3] == 0x03 {
      var l := b[off] as int;
      off := off + 1;
      if off + l > |b| {
        return None;
      }
      h := Domain(b[off..off + l]);
      addr := Name(b[5..5 + l]);
      off := off + l;
    } else if b[3] == 0x04 {
      if off + 16 > |b| {
        return None;
      }
      h := Printed16(b[off..off + 16]);
      addr := V6(b[4..20]);
      off := off + 16;
    } else {
      return None;
    }
    if off + 2 > |b| {
      return None;
    }
    var p := b[off] as int * 256 + b[off + 1] as int;
    off := off + 2;
    assert AddrAt(b) == Some(addr) && off == 5 + |EncAddr(addr)|;
    FieldsWire(b, addr);
    return Some(Packet(h, b[3] == 0x04, p, b[off..]));
  }

  lemma Behind(b: seq<byte>, e: seq<byte>, port: nat, data: seq<byte>)
    requires |b| >= 3 && b[3..] == e + (Put16(port) + data) && port < 65536
    ensures |b| == 5 + |e| + |data| && b[3..3 + |e|] == e
    ensures Get16(b, 3 + |e|) == port && b[5 + |e|..] == data
  {
    var w := b[3..];
    assert w[..|e|] == e && w[|e|..|e| + 2] == Put16(port) && w[|e| + 2..] == data;
    assert b[3..3 + |e|] == w[..|e|] && b[3 + |e|..5 + |e|] == w[|e|..|e| + 2] && b[5 + |e|..] == w[|e| + 2..];
    GetPut16(port, b, 3 + |e|);
  }

  /** The fields of a well-formed datagram are where the parser looks. */
  lemma WireFields(b: seq<byte>, a: Addr, port: nat, data: seq<byte>)
    requires Wellformed(b, a, port, data)
    ensures AddrAt(b) == Some(a) && |b| >= 5 + |EncAddr(a)|
    ensures Get16(b, 3 + |EncAddr(a)|) == port && b[5 + |EncAddr(a)|..] == data
  {
    Behind(b, EncAddr(a), port, data);
    AddrFound(b, a);
  }

  lemma AddrFound(b: seq<byte>, a: Addr)
    requires |b| >= 10 && AddrOk(a) && 3 + |EncAddr(a)| <= |b| && b[3..3 + |EncAddr(a)|] == EncAddr(a)
    ensures AddrAt(b) == Some(a)
  {
    var e := EncAddr(a);
    var s := b[3..3 + |e|];
    assert b[3] == s[0];
    match a
    case V4(x) => assert b[4..8] == s[1..] == x;
    case Name(n) =>
      assert b[4] == s[1];
      assert b[5..5 + |n|] == s[2..] == n;
    case V6(x) => assert b[4..20] == s[1..] == x;
  }

  /** ... and fields found there make a well-formed datagram. */
  lemma FieldsWire(b: seq<byte>, a: Addr)
    requires |b| >= 10 && b[2] == 0 && AddrAt(b) == Some(a) && |b| >= 5 + |EncAddr(a)|
    ensures Wellformed(b, a, Get16(b, 3 + |EncAddr(a)|), b[5 + |EncAddr(a)|..])
  {
    var e := EncAddr(a);
    var p := Get16(b, 3 + |e|);
    assert b[3..3 + |e|] == e;
    assert Put16(p) == [b[3 + |e|], b[4 + |e|]];
    assert b[3..] == e + (Put16(p) + b[5 + |e|..]);
  }

  /** The address `buildSOCKS5UDPPacket` writes for a host. */
  function AddrOf(h: Host): Addr
  {
    match h
    case Ip4(b) => V4(b)
    case Ip6(b) => if Mapped(b) then V4(b[12..]) else V6(b)
    case Domain(n) => Name(n)
  }

  predicate HostOk(h: Host)
  {
    match h
    case Ip4(b) => |b| == 4
    case Ip6(b) => |b| == 16
    case Domain(n) => true
  }

  method BuildSOCKS5UDPPacket(h: Host, p: int, d: seq<byte>) returns (r: Option<seq<byte>>)
    requires HostOk(h)
    ensures r.None? <==> h.Domain? && |h.name| > 255
    ensures r.Some? ==> r.value == [0, 0, 0] + Wire(AddrOf(h), p, d)
  {
    if h.Domain? && |h.name| > 255 {
      return None;
    }
    var buf := AppendAddr([0, 0, 0], h);
    var e := EncAddr(AddrOf(h));
    buf := buf + [(p / 256) % 256, p % 256];
    assert buf == [0, 0, 0] + e + Put16(p);
    buf := buf + d;
    assert buf == [0, 0, 0] + (e + (Put16(p) + d));
    return Some(buf);
  }

  /** Lines 1064-1074: the address type and the address. */
  method AppendAddr(head: seq<byte>, h: Host) returns (buf: seq<byte>)
    requires HostOk(h)
    ensures buf == head + EncAddr(AddrOf(h))
  {
    buf := head;
    if h.Ip4? {
      buf := buf + [0x01];
      buf := buf + h.bytes;
      assert buf == head + ([0x01] + h.bytes);
    } else if h.Ip6? && Mapped(h.bytes) {
      buf := buf + [0x01];
      buf := buf + h.bytes[12..];
      assert buf == head + ([0x01] + h.bytes[12..]);
    } else if h.Ip6? {
      buf := buf + [0x04];
      buf := buf + h.bytes;
      assert buf == head + ([0x04] + h.bytes);
    } else {
      buf := buf + [0x03, |h.name| % 256];
      buf := buf + h.name;
      assert buf == head + ([0x03, |h.name| % 256] + h.name);
    }
  }

  /** A mapped address comes back as the IPv4 address it stands for. */
  function Canonical(h: Host): Host
    requires HostOk(h)
  {
    if h.Ip6? && Mapped(h.bytes) then Ip4(h.bytes[12..]) else h
  }

  /** Parsing what was built gives back host, port and data exactly when the port has 16 bits and the
      datagram ten bytes - which only a name and data of together less than three bytes miss. */
  method BuildThenParse(h: Host, p: int, d: seq<byte>) returns (r: Option<Packet>)
    requires HostOk(h) && (h.Domain? ==> |h.name| <= 255)
    ensures r == Some(Packet(Canonical(h), h.Ip6? && !Mapped(h.bytes), p, d)) <==>
              0 <= p < 65536 && (h.Domain? ==> |h.name| + |d| >= 3)
  {
    var b := BuildSOCKS5UDPPacket(h, p, d);
    var a := AddrOf(h);
    assert b.value[3..] == Wire(a, p, d) && b.value[2] == 0;
    assert |b.value| == 3 + |EncAddr(a)| + 2 + |d|;
    assert Put16(p % 65536) == Put16(p) by {
      LowBits(p);
    }
    if |b.value| >= 10 {
      assert Wellformed(b.value, a, p % 65536, d);
    }
    r := ParseSOCKS5UDPPacket(b.value);
  }

  lemma LowBits(p: int)
    ensures (p % 65536) / 256 % 256 == (p / 256) % 256 && (p % 65536) % 256 == p % 256
  {
    var q, r := p / 65536, p % 65536;
    assert p == 65536 * q + r;
    assert p / 256 == 256 * q + r / 256;
  }
}
