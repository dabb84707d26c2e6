/** The channel selection of `openBestStream` (cmd/client/main.go): the channels within 10 ms of the
    fastest take turns. */
module BestStream {
  import opened Bytes
  import opened Arith

  const TIE_WINDOW: int := 10_000_000
  const TWO63: nat := 0x8000_0000_0000_0000
  const TWO64: nat := 0x1_0000_0000_0000_0000

  /** A channel slot at the snapshot: is its session there and open, and its measured RTT. */
  datatype Slot = Slot(alive: bool, rtt: int)

  /** `IndexPanic` is a negative index; `Gone` a channel that has closed since the snapshot; an opened
      stream comes with the channel's number and the decision, both counted from one. */
  datatype Pick =
    | NoChannel
    | IndexPanic
    | Gone(idx: nat)
    | NotOpened(idx: nat)
    | Opened(idx: nat, channel: nat, decision: nat)

  /** An RTT not measured yet counts as the dial timeout. */
  function Effective(s: Slot, dialTimeout: int): int
  {
    if s.rtt <= 0 then dialTimeout else s.rtt
  }

  /** `i` is a live channel within the tie window of every live channel. */
  predicate IsNear(slots: seq<Slot>, dialTimeout: int, i: nat)
  {
    && i < |slots| && slots[i].alive
    && forall j :: 0 <= j < |slots| && slots[j].alive ==>
         Effective(slots[i], dialTimeout) <= Effective(slots[j], dialTimeout) + TIE_WINDOW
  }

  /** The same in the measured RTTs, nanoseconds that are positive once there is a measurement: `i` is live,
      and no live channel is more than 10 ms faster, an unmeasured one counting as the dial timeout. */
  predicate Closest(slots: seq<Slot>, dialTimeout: int, i: nat)
  {
    && i < |slots| && slots[i].alive
    && forall j :: 0 <= j < |slots| && slots[j].alive ==>
         if slots[i].rtt > 0 then slots[i].rtt <= (if slots[j].rtt > 0 then slots[j].rtt else dialTimeout) + 10_000_000
         else slots[j].rtt > 0 ==> dialTimeout <= slots[j].rtt + 10_000_000
  }

  lemma NearIsClosest(slots: seq<Slot>, dialTimeout: int, i: nat)
    ensures IsNear(slots, dialTimeout, i) <==> Closest(slots, dialTimeout, i)
  {}

  /** The near channels below `n`, in slot order. */
  function Near(slots: seq<Slot>, dialTimeout: int, n: nat): (r: seq<nat>)
    requires n <= |slots|
    ensures forall i: nat :: i in r <==> i < n && IsNear(slots, dialTimeout, i)
    ensures Increasing(r)
  {
    if n == 0 then []
    else
      var r := Near(slots, dialTimeout, n - 1);
      assert forall k :: 0 <= k < |r| ==> r[k] in r;
      r + if IsNear(slots, dialTimeout, n - 1) then [n - 1] else []
  }

  /** `int(atomic.AddUint64(&counter, 1) - 1) % n`: the conversion is signed and Go's `%` truncates. */
  function GoIndex(counter: nat, n: nat): int
    requires counter < TWO64 && n > 0
  {
    if counter < TWO63 then counter % n else -((TWO64 - counter) % n)
  }

  /** Which slot the counter picks from the near set, if it does. */
  function Turned(near: seq<nat>, counter: nat): Option<nat>
    requires counter < TWO64 && near != []
  {
    var index := GoIndex(counter, |near|);
    if 0 <= index < |near| then Some(near[index]) else None
  }

  /** `later` says which slots are alive at the second look, `opens` whether `OpenStream` succeeds. A
      stream is opened only on a channel that was near at the snapshot and is still alive. */
  method OpenBestStream(slots: seq<Slot>, later: seq<bool>, opens: bool, dialTimeout: int, counter: nat)
    returns (pick: Pick, next: nat)
    requires counter < TWO64 && |later| == |slots|
    ensures pick.NoChannel? <==> forall i :: 0 <= i < |slots| ==> !slots[i].alive
    ensures next == if pick.NoChannel? then counter else (counter + 1) % TWO64
    ensures !pick.NoChannel? ==>
              var near := Near(slots, dialTimeout, |slots|);
              && near != []
              && (pick.IndexPanic? <==> Turned(near, counter).None?)
              && (!pick.IndexPanic? ==>
                    && Turned(near, counter) == Some(pick.idx) && IsNear(slots, dialTimeout, pick.idx)
                    && (pick.Gone? <==> !later[pick.idx]) && (pick.NotOpened? ==> !opens))
    ensures pick.Opened? ==> later[pick.idx] && opens && pick.channel == pick.decision == pick.idx + 1
    ensures !pick.NoChannel? && !pick.IndexPanic? ==> Closest(slots, dialTimeout, pick.idx)
  {
    var cands := Candidates(slots);
    if |cands| == 0 {
      return NoChannel, counter;
    }
    var minRTT, best := Minimum(slots, dialTimeout, cands);
    var near := CollectNear(slots, dialTimeout, cands, minRTT, best);
    next := (counter + 1) % TWO64;
    var index := GoIndex(counter, |near|);
    if index < 0 || index >= |near| {
      return IndexPanic, next;
    }
    assert near[index] in near;
    var idx := near[index];
    NearIsClosest(slots, dialTimeout, idx);
    if !later[idx] {
      return Gone(idx), next;
    }
    if !opens {
      return NotOpened(idx), next;
    }
    return Opened(idx, idx + 1, idx + 1), next;
  }

  /** ... and every such channel has its turn: some counter value picks it. */
  method PickAny(slots: seq<Slot>, later: seq<bool>, opens: bool, dialTimeout: int, i: nat)
    returns (counter: nat, pick: Pick)
    requires |later| == |slots| < TWO63 && Closest(slots, dialTimeout, i)
    ensures counter < |slots| && !pick.NoChannel? && !pick.IndexPanic? && pick.idx == i
  {
    NearIsClosest(slots, dialTimeout, i);
    var near := Near(slots, dialTimeout, |slots|);
    assert i in near;
    counter :| counter < |near| && near[counter] == i;
    NearIsShort(slots, dialTimeout, |slots|);
    DivUnique(counter, |near|, 0, counter);
    var next;
    pick, next := OpenBestStream(slots, later, opens, dialTimeout, counter);
  }

  lemma {:induction false} NearIsShort(slots: seq<Slot>, dialTimeout: int, n: nat)
    requires n <= |slots|
    ensures |Near(slots, dialTimeout, n)| <= n
  {
    if n > 0 {
      NearIsShort(slots, dialTimeout, n - 1);
    }
  }

  /** The live slots, in order. */
  predicate AreCandidates(slots: seq<Slot>, cands: seq<nat>, n: nat)
  {
    && (forall k :: 0 <= k < |cands| ==> cands[k] < n && cands[k] < |slots| && slots[cands[k]].alive)
    && (forall j: nat :: j < n && j < |slots| && slots[j].alive ==> j in cands)
    && Increasing(cands)
  }

  /** Lines 238-248. */
  method Candidates(slots: seq<Slot>) returns (cands: seq<nat>)
    ensures AreCandidates(slots, cands, |slots|)
  {
    cands := [];
    for i := 0 to |slots|
      invariant AreCandidates(slots, cands, i)
    {
      if slots[i].alive {
        cands := cands + [i];
      }
    }
  }

  /** Lines 253-258. */
  method Minimum(slots: seq<Slot>, dialTimeout: int, cands: seq<nat>) returns (minRTT: int, ghost best: nat)
    requires AreCandidates(slots, cands, |slots|) && cands != []
    ensures best < |slots| && slots[best].alive && Effective(slots[best], dialTimeout) == minRTT
    ensures forall j :: 0 <= j < |slots| && slots[j].alive ==> minRTT <= Effective(slots[j], dialTimeout)
  {
    minRTT := Effective(slots[cands[0]], dialTimeout);
    best := cands[0];
    for k := 1 to |cands|
      invariant best < |slots| && slots[best].alive && minRTT == Effective(slots[best], dialTimeout)
      invariant forall a :: 0 <= a < k ==> minRTT <= Effective(slots[cands[a]], dialTimeout)
    {
      if Effective(slots[cands[k]], dialTimeout) < minRTT {
        minRTT := Effective(slots[cands[k]], dialTimeout);
        best := cands[k];
      }
    }
    forall j: nat | j < |slots| && slots[j].alive
      ensures minRTT <= Effective(slots[j], dialTimeout)
    {
      assert j in cands;
    }
  }

  /** Lines 259-265. */
  method CollectNear(slots: seq<Slot>, dialTimeout: int, cands: seq<nat>, minRTT: int, ghost best: nat)
    returns (near: seq<nat>)
    requires AreCandidates(slots, cands, |slots|)
    requires best < |slots| && slots[best].alive && Effective(slots[best], dialTimeout) == minRTT
    requires forall j :: 0 <= j < |slots| && slots[j].alive ==> minRTT <= Effective(slots[j], dialTimeout)
    ensures near == Near(slots, dialTimeout, |slots|) && near != []
  {
    near := [];
    assert cands[..0] == [] && cands[..|cands|] == cands;
    for k := 0 to |cands|
      invariant forall x: nat :: x in near <==> x in cands[..k] && IsNear(slots, dialTimeout, x)
      invariant Increasing(near)
    {
      var c := cands[k];
      assert cands[..k + 1] == cands[..k] + [c];
      PrefixBelow(cands, k);
      IncreasingSnoc(near, c);
      assert IsNear(slots, dialTimeout, c) <==> Effective(slots[c], dialTimeout) <= minRTT + TIE_WINDOW;
      if Effective(slots[c], dialTimeout) <= minRTT + TIE_WINDOW {
        near := near + [c];
      }
    }
    assert IsNear(slots, dialTimeout, best) && best in cands;
    ghost var want := Near(slots, dialTimeout, |slots|);
    assert forall x: nat :: x in want <==> x in cands && IsNear(slots, dialTimeout, x);
    SortedUnique(near, want);
  }

  predicate Increasing(a: seq<nat>)
  {
    forall i, j :: 0 <= i < j < |a| ==> a[i] < a[j]
  }

  lemma PrefixBelow(a: seq<nat>, k: nat)
    requires Increasing(a) && k < |a|
    ensures forall x: nat :: x in a[..k] ==> x < a[k]
  {}

  lemma IncreasingSnoc(a: seq<nat>, c: nat)
    requires Increasing(a)
    ensures (forall x: nat :: x in a ==> x < c) ==> Increasing(a + [c])
  {
    if forall x: nat :: x in a ==> x < c {
      assert forall i :: 0 <= i < |a| ==> a[i] in a;
    }
  }

  lemma Member(a: seq<nat>)
    ensures a == [] || exists x: nat :: x in a
  {
    if a != [] {
      assert a[0] in a;
    }
  }

  /** Two strictly increasing lists with the same members are the same list. */
  lemma {:induction false} SortedUnique(a: seq<nat>, b: seq<nat>)
    requires Increasing(a) && Increasing(b)
    requires forall x: nat :: x in a <==> x in b
    ensures a == b
  {
    Member(a);
    Member(b);
    if a != [] && b != [] {
      assert a[0] in a && b[0] in b;
      assert a[0] == b[0];
      assert forall x: nat :: x in a[1..] <==> x in a && x != a[0];
      assert forall x: nat :: x in b[1..] <==> x in b && x != b[0];
      SortedUnique(a[1..], b[1..]);
    }
  }

  // ----- fairness -----

  /** Which of `n` consecutive counter values from `c` on picks member `k`. */
  function Turn(c: nat, n: nat, k: nat): nat
    requires k < n
  {
    if k >= c % n then k - c % n else k + n - c % n
  }

  /** While the near set stays as it is, any `n` consecutive counter values below 2^63 pick each of its
      `n` members exactly once. */
  lemma FairTurns(c: nat, n: nat, k: nat, i: nat)
    requires k < n && i < n && c + n <= TWO63
    ensures Turn(c, n, k) < n
    ensures GoIndex(c + i, n) == k <==> i == Turn(c, n, k)
  {
    var q, r := c / n, c % n;
    assert c == q * n + r;
    if r + i < n {
      DivUnique(c + i, n, q, r + i);
    } else {
      assert (q + 1) * n == q * n + n;
      DivUnique(c + i, n, q + 1, r + i - n);
    }
  }

  /** Beyond 2^63 the index stays in range only at multiples of the near set's size. */
  lemma IndexInRangeIff(counter: nat, n: nat)
    requires counter < TWO64 && n > 0
    ensures 0 <= GoIndex(counter, n) < n <==> counter < TWO63 || (TWO64 - counter) % n == 0
  {}
}
