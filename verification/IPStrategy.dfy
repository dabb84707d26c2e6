/** Which addresses a dial tries, and in what order (internal/relay/dial.go). */
module IPStrategy {
  import opened Bytes
  import opened Arith

  /** `net.IP` up to its family: `To4() != nil` tells them apart. */
  datatype IP = V4(addr: nat) | V6(addr: nat)

  const IPV4_ONLY := 0x01
  const IPV6_ONLY := 0x02
  const IPV4_PREFER := 0x03
  const IPV6_PREFER := 0x04

  /** The addresses of one family, in their original order. */
  function Family(ips: seq<IP>, four: bool): (r: seq<IP>)
  {
    if ips == [] then []
    else (if ips[0].V4? == four then [ips[0]] else []) + Family(ips[1..], four)
  }

  lemma {:induction false} FamilyIsOne(ips: seq<IP>, four: bool)
    ensures forall i :: 0 <= i < |Family(ips, four)| ==> Family(ips, four)[i].V4? == four
  {
    if ips != [] {
      FamilyIsOne(ips[1..], four);
    }
  }

  lemma {:induction false} FamilyAppend(a: seq<IP>, b: seq<IP>, four: bool)
    ensures Family(a + b, four) == Family(a, four) + Family(b, four)
  {
    if a == [] {
      assert a + b == b;
    } else {
      assert (a + b)[1..] == a[1..] + b;
      FamilyAppend(a[1..], b, four);
    }
  }

  lemma FamilySnoc(a: seq<IP>, ip: IP, four: bool)
    ensures Family(a + [ip], four) == Family(a, four) + (if ip.V4? == four then [ip] else [])
  {
    FamilyAppend(a, [ip], four);
    assert [ip][1..] == [];
  }

  lemma {:induction false} NoneOf(r: seq<IP>, four: bool)
    requires forall j :: 0 <= j < |r| ==> r[j].V4? != four
    ensures Family(r, four) == [] && Family(r, !four) == r
  {
    if r != [] {
      assert forall j :: 0 <= j < |r[1..]| ==> r[1..][j] == r[j + 1];
      NoneOf(r[1..], four);
    }
  }

  lemma {:induction false} FamiliesPartition(ips: seq<IP>)
    ensures multiset(Family(ips, true)) + multiset(Family(ips, false)) == multiset(ips)
  {
    if ips != [] {
      FamiliesPartition(ips[1..]);
      assert ips == [ips[0]] + ips[1..];
    }
  }

  method FilterIPv4(ips: seq<IP>) returns (result: seq<IP>)
    ensures result == Family(ips, true)
  {
    result := [];
    assert ips[..0] == [];
    for i := 0 to |ips|
      invariant result == Family(ips[..i], true)
    {
      assert ips[..i + 1] == ips[..i] + [ips[i]];
      FamilySnoc(ips[..i], ips[i], true);
      if ips[i].V4? {
        result := result + [ips[i]];
      }
    }
    assert ips[..|ips|] == ips;
  }

  method FilterIPv6(ips: seq<IP>) returns (result: seq<IP>)
    ensures result == Family(ips, false)
  {
    result := [];
    assert ips[..0] == [];
    for i := 0 to |ips|
      invariant result == Family(ips[..i], false)
    {
      assert ips[..i + 1] == ips[..i] + [ips[i]];
      FamilySnoc(ips[..i], ips[i], false);
      if !ips[i].V4? {
        result := result + [ips[i]];
      }
    }
    assert ips[..|ips|] == ips;
  }

  /** No address of the preferred family comes after one of the other. */
  predicate PreferredFirst(r: seq<IP>, four: bool)
  {
    forall i, j :: 0 <= i < j < |r| && r[j].V4? == four ==> r[i].V4? == four
  }

  predicate SameFamilies(a: seq<IP>, b: seq<IP>)
  {
    Family(a, true) == Family(b, true) && Family(a, false) == Family(b, false)
  }

  /** The order in which a strategy wants the resolved addresses tried: the same addresses, the
      preferred family first, each family in its resolved order - or only one family. */
  predicate Ordered(ips: seq<IP>, strategy: int, r: seq<IP>)
  {
    if strategy == 0x01 || strategy == 0x02 then
      var f := strategy == 0x01;
      Family(r, f) == Family(ips, f) && Family(r, !f) == []
    else if strategy == 0x03 || strategy == 0x04 then
      PreferredFirst(r, strategy == 0x03) && SameFamilies(r, ips)
    else r == ips
  }

  lemma PreferConcat(a: seq<IP>, b: seq<IP>, four: bool)
    requires forall i :: 0 <= i < |a| ==> a[i].V4? == four
    requires forall i :: 0 <= i < |b| ==> b[i].V4? != four
    ensures PreferredFirst(a + b, four)
  {}

  lemma ConcatOrdered(ips: seq<IP>, four: bool)
    ensures var r := Family(ips, four) + Family(ips, !four);
            PreferredFirst(r, four) && SameFamilies(r, ips) && multiset(r) == multiset(ips)
  {
    var a, b := Family(ips, four), Family(ips, !four);
    FamilyAppend(a, b, four);
    FamilyAppend(a, b, !four);
    FamilyIsOne(ips, four);
    FamilyIsOne(ips, !four);
    PreferConcat(a, b, four);
    NoneOf(a, !four);
    NoneOf(b, four);
    FamiliesPartition(ips);
  }

  /** The list a strategy asks for, written down. */
  function Arranged(ips: seq<IP>, strategy: int): (r: seq<IP>)
  {
    if strategy == IPV4_ONLY then Family(ips, true)
    else if strategy == IPV6_ONLY then Family(ips, false)
    else if strategy == IPV4_PREFER then Family(ips, true) + Family(ips, false)
    else if strategy == IPV6_PREFER then Family(ips, false) + Family(ips, true)
    else ips
  }

  lemma ArrangedOrdered(ips: seq<IP>, strategy: int)
    ensures Ordered(ips, strategy, Arranged(ips, strategy))
    ensures strategy != IPV4_ONLY && strategy != IPV6_ONLY ==> multiset(Arranged(ips, strategy)) == multiset(ips)
  {
    if strategy == IPV4_ONLY || strategy == IPV6_ONLY {
      var four := strategy == IPV4_ONLY;
      FamilyIsOne(ips, four);
      NoneOf(Family(ips, four), !four);
    } else if strategy == IPV4_PREFER || strategy == IPV6_PREFER {
      ConcatOrdered(ips, strategy == IPV4_PREFER);
    }
  }

  lemma LiteralOrdered(ip: IP, strategy: int)
    ensures Ordered([ip], strategy,
                    if (strategy == IPV4_ONLY && !ip.V4?) || (strategy == IPV6_ONLY && ip.V4?) then [] else [ip])
  {
    assert [ip][1..] == [];
  }

  /** `resolveIPsForDial`. `literal` is what `net.ParseIP(host)` gave, `resolved` what the resolver gave. */
  method ResolveIPsForDial(literal: Option<IP>, resolved: Option<seq<IP>>, strategy: int) returns (r: seq<IP>)
    ensures literal.Some? ==> Ordered([literal.value], strategy, r)
    ensures literal.None? && resolved.None? ==> r == []
    ensures literal.None? && resolved.Some? ==> Ordered(resolved.value, strategy, r)
    ensures literal.None? && resolved.Some? && strategy != IPV4_ONLY && strategy != IPV6_ONLY ==>
              multiset(r) == multiset(resolved.value)
  {
    if literal.Some? {
      var ip := literal.value;
      LiteralOrdered(ip, strategy);
      if strategy == IPV4_ONLY && !ip.V4? {
        return [];
      }
      if strategy == IPV6_ONLY && ip.V4? {
        return [];
      }
      return [ip];
    }
    if resolved.None? {
      return [];
    }
    r := OrderResolved(resolved.value, strategy);
  }

  /** Lines 111-132. */
  method OrderResolved(ips: seq<IP>, strategy: int) returns (r: seq<IP>)
    ensures Ordered(ips, strategy, r)
    ensures strategy != IPV4_ONLY && strategy != IPV6_ONLY ==> multiset(r) == multiset(ips)
  {
    ArrangedOrdered(ips, strategy);
    r := Arrange(ips, strategy);
  }

  method Arrange(ips: seq<IP>, strategy: int) returns (r: seq<IP>)
    ensures r == Arranged(ips, strategy)
  {
    if strategy == IPV4_ONLY {
      r := FilterIPv4(ips);
    } else if strategy == IPV6_ONLY {
      r := FilterIPv6(ips);
    } else if strategy == IPV4_PREFER {
      var v4 := FilterIPv4(ips);
      var v6 := FilterIPv6(ips);
      assert [] + v6 == v6;
      r := if |v4| > 0 then v4 + v6 else v6;
    } else if strategy == IPV6_PREFER {
      var v4 := FilterIPv4(ips);
      var v6 := FilterIPv6(ips);
      assert [] + v4 == v4;
      r := if |v6| > 0 then v6 + v4 else v4;
    } else {
      r := ips;
    }
  }

  /** A strategy leaves no choice: two lists it accepts for the same addresses are the same list. */
  lemma {:induction false} OrderUnique(ips: seq<IP>, strategy: int, a: seq<IP>, b: seq<IP>)
    requires Ordered(ips, strategy, a) && Ordered(ips, strategy, b)
    ensures a == b
  {
    if strategy == IPV4_ONLY || strategy == IPV6_ONLY {
      var f := strategy == IPV4_ONLY;
      OneFamily(a, f);
      OneFamily(b, f);
    } else if strategy == IPV4_PREFER || strategy == IPV6_PREFER {
      var f := strategy == IPV4_PREFER;
      Split(a, f);
      Split(b, f);
    }
  }

  lemma {:induction false} OneFamily(r: seq<IP>, four: bool)
    requires Family(r, !four) == []
    ensures Family(r, four) == r
  {
    if r != [] {
      OneFamily(r[1..], four);
    }
  }

  lemma PreferredTail(r: seq<IP>, four: bool)
    requires PreferredFirst(r, four) && r != []
    ensures PreferredFirst(r[1..], four)
    ensures r[0].V4? != four ==> forall j :: 0 <= j < |r| ==> r[j].V4? != four
  {
    var t := r[1..];
    assert forall i, j :: 0 <= i < j < |t| && t[j].V4? == four ==> r[j + 1].V4? == four && t[i] == r[i + 1];
    assert forall j :: 0 < j < |r| && r[j].V4? == four ==> r[0].V4? == four;
  }

  lemma {:induction false} Split(r: seq<IP>, four: bool)
    requires PreferredFirst(r, four)
    ensures r == Family(r, four) + Family(r, !four)
  {
    if r != [] {
      PreferredTail(r, four);
      if r[0].V4? == four {
        Split(r[1..], four);
      } else {
        NoneOf(r, four);
      }
    }
  }

  // ----- which attempt dials which address -----

  /** The attempts below `concur` that dial address `k` of `len`: attempt `i` dials `i % len`. */
  function Attempts(concur: nat, len: nat, k: nat): nat
    requires len > 0
  {
    if concur == 0 then 0
    else Attempts(concur - 1, len, k) + if (concur - 1) % len == k then 1 else 0
  }

  /** The race spreads its attempts evenly: every address gets `concur / len` of them, and the first
      `concur % len` one more, so each of the first `min(concur, len)` addresses is tried. */
  lemma {:induction false} AttemptsBalanced(concur: nat, len: nat, k: nat)
    requires k < len
    ensures Attempts(concur, len, k) == concur / len + if k < concur % len then 1 else 0
    ensures k < concur ==> Attempts(concur, len, k) > 0
  {
    if concur > 0 {
      AttemptsBalanced(concur - 1, len, k);
      Successor(concur - 1, len);
      if k < concur && concur / len == 0 {
        DivUnique(concur, len, 0, concur % len);
      }
      if k < concur && k == concur - 1 {
        DivUnique(k, len, 0, k);
      }
    } else {
      DivUnique(0, len, 0, 0);
    }
  }
}
