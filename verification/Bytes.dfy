/** Byte strings, their concatenation, and the big-endian 16-bit integers that
    every length field of the program uses. */
module Bytes {
  type byte = x: int | 0 <= x < 256

  datatype Option<+T> = None | Some(value: T)

  /** The concatenation of a list of byte strings. */
  function Flat(cs: seq<seq<byte>>): (r: seq<byte>)
  {
    if cs == [] then [] else cs[0] + Flat(cs[1..])
  }

  lemma {:induction false} FlatAppend(a: seq<seq<byte>>, b: seq<seq<byte>>)
    ensures Flat(a + b) == Flat(a) + Flat(b)
  {
    if a == [] {
      assert a + b == b;
    } else {
      assert (a + b)[1..] == a[1..] + b;
      FlatAppend(a[1..], b);
    }
  }

  lemma FlatOne(x: seq<byte>)
    ensures Flat([x]) == x
  {
    assert [x][1..] == [];
  }

  lemma FlatSnoc(a: seq<seq<byte>>, x: seq<byte>)
    ensures Flat(a + [x]) == Flat(a) + x
  {
    FlatAppend(a, [x]);
    FlatOne(x);
  }

  /** Every string of the list has at least one byte. */
  predicate AllNonEmpty(cs: seq<seq<byte>>)
  {
    forall i :: 0 <= i < |cs| ==> cs[i] != []
  }

  lemma FlatNonEmpty(cs: seq<seq<byte>>)
    requires AllNonEmpty(cs)
    ensures |Flat(cs)| == 0 <==> cs == []
  {}

  lemma {:induction false} FlatPrefix(a: seq<seq<byte>>, b: seq<seq<byte>>)
    requires a <= b
    ensures Flat(a) <= Flat(b)
  {
    assert b == a + b[|a|..];
    FlatAppend(a, b[|a|..]);
  }

  /** `binary.BigEndian.PutUint16(_, uint16(v))`: the conversion keeps the low 16 bits. */
  function Put16(v: int): (r: seq<byte>)
    ensures |r| == 2
  {
    [(v / 256) % 256, v % 256]
  }

  /** `binary.BigEndian.Uint16(s[off:off+2])`. */
  function Get16(s: seq<byte>, off: nat): (v: nat)
    requires off + 2 <= |s|
    ensures v < 65536
  {
    (s[off] as int) * 256 + s[off + 1] as int
  }

  lemma GetPut16(v: int, s: seq<byte>, off: nat)
    requires off + 2 <= |s| && s[off..off + 2] == Put16(v)
    ensures Get16(s, off) == v % 65536
  {
    assert s[off] == s[off..off + 2][0] && s[off + 1] == s[off..off + 2][1];
  }

  /** Chunks copied one behind the other into a buffer of exactly their size. */
  method CopyChunks(chunks: seq<seq<byte>>, total: nat) returns (buf: array<byte>)
    requires total == |Flat(chunks)|
    ensures fresh(buf) && buf[..] == Flat(chunks)
  {
    buf := new byte[total](_ => 0);
    var off := 0;
    assert chunks[..0] == [] && chunks[..|chunks|] == chunks;
    for i := 0 to |chunks|
      invariant off == |Flat(chunks[..i])| <= total
      invariant buf[..off] == Flat(chunks[..i])
    {
      var chunk := chunks[i];
      assert chunks[..i + 1] == chunks[..i] + [chunk];
      FlatSnoc(chunks[..i], chunk);
      FlatPrefix(chunks[..i + 1], chunks);
      ghost var done := buf[..off];
      forall j | 0 <= j < |chunk| {
        buf[off + j] := chunk[j];
      }
      assert buf[..off + |chunk|] == done + chunk;
      off := off + |chunk|;
    }
    assert buf[..] == buf[..off];
  }
}
