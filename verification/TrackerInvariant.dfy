/** The table's invariant, and that probing it is looking a pointer up in a map. */
module TrackerInvariant {
  import opened Options
  import opened Tracker
  import Words

  predicate Used(slots: seq<Slot>, j: nat) {
    j < |slots| && !slots[j].state.Empty?
  }

  /** How many slots a probe for `p` passes before it visits slot `j`. */
  function Distance(h: Hash, p: nat, n: nat, j: nat): (d: nat)
    requires j < n
    ensures d < n && At(h, p, n, d) == j
  {
    var start := Home(h, p, n);
    var d := if j >= start then j - start else j + n - start;
    WrapOnce(start + d, n);
    d
  }

  predicate OnPath(h: Hash, slots: seq<Slot>, p: nat, j: nat)
    requires j < |slots|
  {
    forall i: nat :: i < Distance(h, p, |slots|, j) ==> Used(slots, At(h, p, |slots|, i))
  }

  /** A pointer is in one slot at most, every slot on its probe path before it is in use, and empty
      slots hold no pointer. */
  ghost predicate Inv(h: Hash, slots: seq<Slot>) {
    && |slots| > 0
    && (forall j :: 0 <= j < |slots| ==> (slots[j].state.Empty? <==> slots[j].ptr == 0))
    && (forall i, j :: 0 <= i < j < |slots| && Used(slots, i) && Used(slots, j) ==> slots[i].ptr != slots[j].ptr)
    && (forall j :: 0 <= j < |slots| && Used(slots, j) ==> OnPath(h, slots, slots[j].ptr, j))
  }

  lemma {:induction false} AtInjective(h: Hash, p: nat, n: nat, i: nat, k: nat)
    requires n > 0 && i < n && k < n && At(h, p, n, i) == At(h, p, n, k)
    ensures i == k
  {
    var start := Home(h, p, n);
    WrapOnce(start + i, n);
    WrapOnce(start + k, n);
  }

  lemma {:induction false} WrapOnce(a: nat, n: nat)
    requires a < 2 * n
    ensures a % n == if a < n then a else a - n
  {
    if a >= n { Words.ModUnique(a, n, 1, a - n); }
  }

  /** What has been seen after `i` probes for `p` without success. */
  ghost predicate Passed(h: Hash, slots: seq<Slot>, p: nat, i: nat) {
    |slots| > 0 &&
    forall k: nat :: k < i ==> Used(slots, At(h, p, |slots|, k)) && slots[At(h, p, |slots|, k)].ptr != p
  }

  ghost predicate Present(slots: seq<Slot>, p: nat) {
    exists j :: 0 <= j < |slots| && Used(slots, j) && slots[j].ptr == p
  }

  /** A probe that has passed `i` slots and meets an empty one, or has passed all, has shown that the
      pointer is absent. */
  lemma {:induction false} PassedAll(h: Hash, slots: seq<Slot>, p: nat, i: nat)
    requires Inv(h, slots) && Passed(h, slots, p, i) && i <= |slots|
    requires i == |slots| || !Used(slots, At(h, p, |slots|, i))
    ensures !Present(slots, p)
  {
    hide At;
    forall j | 0 <= j < |slots| && Used(slots, j) ensures slots[j].ptr != p {
      var d := Distance(h, p, |slots|, j);
    }
  }

  lemma {:induction false} FindFromFinds(h: Hash, slots: seq<Slot>, p: nat, i: nat)
    requires Inv(h, slots) && i <= |slots| && Passed(h, slots, p, i)
    ensures FindFrom(h, slots, p, i).None? ==> !Present(slots, p)
    decreases |slots| - i
  {
    hide At;
    if i == |slots| || slots[At(h, p, |slots|, i)].state.Empty? {
      PassedAll(h, slots, p, i);
    } else if slots[At(h, p, |slots|, i)].ptr != p {
      FindFromFinds(h, slots, p, i + 1);
    }
  }

  predicate Full(slots: seq<Slot>) {
    forall j :: 0 <= j < |slots| ==> Used(slots, j)
  }

  lemma {:induction false} PassedIsFull(h: Hash, slots: seq<Slot>, p: nat)
    requires Passed(h, slots, p, |slots|)
    ensures Full(slots)
  {
    forall j | 0 <= j < |slots| ensures Used(slots, j) {
      var d := Distance(h, p, |slots|, j);
      assert Used(slots, At(h, p, |slots|, d));
    }
  }

  /** Where the insertion probe may stop. */
  ghost predicate GoodSlot(h: Hash, slots: seq<Slot>, p: nat, j: nat) {
    j < |slots| &&
    if Used(slots, j) && slots[j].ptr == p then true
    else
      !Present(slots, p) &&
      if !Used(slots, j) then OnPath(h, slots, p, j) else slots[j].state.Freed? && Full(slots)
  }

  lemma {:induction false} InsertFromStops(h: Hash, slots: seq<Slot>, p: nat, i: nat, firstFreed: Option<nat>)
    requires Inv(h, slots) && p != 0 && i <= |slots| && Passed(h, slots, p, i)
    requires firstFreed.Some? ==> firstFreed.value < |slots| && slots[firstFreed.value].state.Freed?
    requires firstFreed.None? ==> forall k: nat :: k < i ==> !slots[At(h, p, |slots|, k)].state.Freed?
    ensures var r := InsertFrom(h, slots, p, i, firstFreed);
      if r.Some? then GoodSlot(h, slots, p, r.value)
      else !Present(slots, p) && forall j :: 0 <= j < |slots| ==> slots[j].state.Active?
    decreases |slots| - i
  {
    hide At;
    if i == |slots| {
      PassedAll(h, slots, p, i);
      PassedIsFull(h, slots, p);
      if firstFreed.None? {
        forall j | 0 <= j < |slots| ensures slots[j].state.Active? {
          var d := Distance(h, p, |slots|, j);
          assert !slots[At(h, p, |slots|, d)].state.Freed?;
        }
      }
    } else {
      var j := At(h, p, |slots|, i);
      if slots[j].ptr == p {
      } else if slots[j].state.Empty? {
        PassedAll(h, slots, p, i);
        PathIsPassed(h, slots, p, i);
      } else {
        InsertFromStops(h, slots, p, i + 1,
          if slots[j].state.Freed? && firstFreed.None? then Some(j) else firstFreed);
      }
    }
  }

  lemma {:induction false} PathIsPassed(h: Hash, slots: seq<Slot>, p: nat, i: nat)
    requires Passed(h, slots, p, i) && i < |slots|
    ensures OnPath(h, slots, p, At(h, p, |slots|, i))
  {
    var j := At(h, p, |slots|, i);
    AtInjective(h, p, |slots|, i, Distance(h, p, |slots|, j));
  }

  /** Writing a record into a slot the insertion probe may stop at keeps the invariant. */
  lemma {:induction false} InsertKeepsInv(h: Hash, slots: seq<Slot>, p: nat, j: nat, s: Slot)
    requires Inv(h, slots) && p != 0 && GoodSlot(h, slots, p, j) && s.ptr == p && !s.state.Empty?
    ensures Inv(h, slots[j := s])
  {
    hide At;
  }

  lemma {:induction false} InsertStops(h: Hash, slots: seq<Slot>, p: nat)
    requires Inv(h, slots) && p != 0
    ensures var r := InsertSlot(h, slots, p);
      if r.Some? then GoodSlot(h, slots, p, r.value)
      else !Present(slots, p) && forall j :: 0 <= j < |slots| ==> slots[j].state.Active?
    ensures var r := InsertSlot(h, slots, p);
      r.Some? && slots[r.value].state.Freed? && slots[r.value].ptr != p ==> FirstFreed(h, slots, p, |slots|, r)
  {
    InsertFromStops(h, slots, p, 0, None);
    TakesFirstFreed(h, slots, p, 0, None);
  }

  /** The first freed slot among the first `i` that a probe for `p` visits, if there is one. */
  ghost predicate FirstFreed(h: Hash, slots: seq<Slot>, p: nat, i: nat, r: Option<nat>) {
    |slots| > 0 &&
    match r
    case None => forall k: nat :: k < i ==> !slots[At(h, p, |slots|, k)].state.Freed?
    case Some(j) =>
      j < |slots| && slots[j].state.Freed? && Distance(h, p, |slots|, j) < i &&
      forall k: nat :: k < Distance(h, p, |slots|, j) ==> !slots[At(h, p, |slots|, k)].state.Freed?
  }

  /** Of several freed slots the insertion probe takes the first it came past. */
  lemma {:induction false} TakesFirstFreed(h: Hash, slots: seq<Slot>, p: nat, i: nat, firstFreed: Option<nat>)
    requires i <= |slots| && FirstFreed(h, slots, p, i, firstFreed)
    ensures var r := InsertFrom(h, slots, p, i, firstFreed); r.Some? ==> r.value < |slots|
    ensures var r := InsertFrom(h, slots, p, i, firstFreed);
      r.Some? && slots[r.value].state.Freed? && slots[r.value].ptr != p ==> FirstFreed(h, slots, p, |slots|, r)
    decreases |slots| - i
  {
    hide At;
    if i < |slots| {
      var j := At(h, p, |slots|, i);
      AtInjective(h, p, |slots|, i, Distance(h, p, |slots|, j));
      if slots[j].ptr != p && !slots[j].state.Empty? {
        TakesFirstFreed(h, slots, p, i + 1, if slots[j].state.Freed? && firstFreed.None? then Some(j) else firstFreed);
      }
    }
  }

  // ----- the table as a map -----

  predicate DistinctPointers(slots: seq<Slot>) {
    forall i, j :: 0 <= i < j < |slots| && Used(slots, i) && Used(slots, j) ==> slots[i].ptr != slots[j].ptr
  }

  /** The map holds exactly the used slots. */
  lemma {:induction false} AbsHolds(slots: seq<Slot>)
    requires DistinctPointers(slots)
    ensures forall j :: 0 <= j < |slots| && Used(slots, j) ==>
      slots[j].ptr in Abs(slots) && Abs(slots)[slots[j].ptr] == RecordOf(slots[j])
    ensures forall p :: p in Abs(slots) ==> Present(slots, p)
    decreases |slots|
  {
    if slots != [] {
      var n := |slots| - 1;
      var front := slots[..n];
      assert forall j :: 0 <= j < n ==> front[j] == slots[j] && (Used(front, j) <==> Used(slots, j));
      AbsHolds(front);
      forall p | p in Abs(slots) ensures Present(slots, p) {
        if p in Abs(front) && !(Used(slots, n) && slots[n].ptr == p) {
          var j :| 0 <= j < n && Used(front, j) && front[j].ptr == p;
          assert Used(slots, j);
        } else {
          assert Used(slots, n);
        }
      }
    }
  }

  /** Two tables with the same used records are the same map. */
  lemma {:induction false} AbsUpdate(slots: seq<Slot>, j: nat, s: Slot)
    requires j < |slots| && DistinctPointers(slots) && DistinctPointers(slots[j := s]) && !s.state.Empty?
    ensures Abs(slots[j := s])
      == (if Used(slots, j) then Abs(slots) - {slots[j].ptr} else Abs(slots))[s.ptr := RecordOf(s)]
  {
    hide Abs, RecordOf, Used, DistinctPointers;
    var want := (if Used(slots, j) then Abs(slots) - {slots[j].ptr} else Abs(slots))[s.ptr := RecordOf(s)];
    forall p: nat
      ensures p in Abs(slots[j := s]) <==> p in want
      ensures p in want ==> Abs(slots[j := s])[p] == want[p]
    {
      AbsUpdateAt(slots, j, s, p);
    }
  }

  lemma {:induction false} AbsUpdateAt(slots: seq<Slot>, j: nat, s: Slot, p: nat)
    requires j < |slots| && DistinctPointers(slots) && DistinctPointers(slots[j := s]) && !s.state.Empty?
    ensures var after := Abs(slots[j := s]);
      if p == s.ptr then p in after && after[p] == RecordOf(s)
      else if Used(slots, j) && p == slots[j].ptr then p !in after
      else (p in after <==> p in Abs(slots)) && (p in after ==> after[p] == Abs(slots)[p])
  {
    hide Abs, RecordOf;
    var after := slots[j := s];
    AbsHolds(slots);
    AbsHolds(after);
    assert Used(after, j);
    assert forall k :: 0 <= k < |slots| && k != j ==> after[k] == slots[k] && (Used(after, k) <==> Used(slots, k));
    if p in Abs(after) && p != s.ptr {
      var k :| 0 <= k < |after| && Used(after, k) && after[k].ptr == p;
      assert Used(slots, k);
    }
    if p in Abs(slots) && p != s.ptr && !(Used(slots, j) && p == slots[j].ptr) {
      var k :| 0 <= k < |slots| && Used(slots, k) && slots[k].ptr == p;
      assert Used(after, k);
    }
  }

  /** Finding is looking up. */
  lemma {:induction false} FindIsLookup(h: Hash, slots: seq<Slot>, p: nat)
    requires Inv(h, slots)
    ensures match Find(h, slots, p)
      case None => p !in Abs(slots)
      case Some(j) => p in Abs(slots) && Abs(slots)[p] == RecordOf(slots[j])
  {
    AbsHolds(slots);
    if p != 0 { FindFromFinds(h, slots, p, 0); }
  }

  lemma {:induction false} PresentIsKnown(h: Hash, slots: seq<Slot>, p: nat)
    requires Inv(h, slots)
    ensures Present(slots, p) <==> p in Abs(slots)
  {
    AbsHolds(slots);
  }

  // ----- counting -----

  function CountUsed(slots: seq<Slot>): nat {
    if slots == [] then 0
    else CountUsed(slots[..|slots| - 1]) + (if slots[|slots| - 1].state.Empty? then 0 else 1)
  }

  /** As many records as used slots. */
  lemma {:induction false} AbsSize(slots: seq<Slot>)
    requires DistinctPointers(slots)
    ensures |Abs(slots)| == CountUsed(slots)
    decreases |slots|
  {
    if slots != [] {
      var n := |slots| - 1;
      var front := slots[..n];
      assert forall j :: 0 <= j < n ==> front[j] == slots[j] && (Used(front, j) <==> Used(slots, j));
      AbsSize(front);
      AbsHolds(front);
      if Used(slots, n) {
        assert slots[n].ptr !in Abs(front);
        assert Abs(slots).Keys == Abs(front).Keys + {slots[n].ptr};
        assert |Abs(slots)| == |Abs(slots).Keys| && |Abs(front)| == |Abs(front).Keys|;
      }
    }
  }

  lemma {:induction false} CountUsedBound(slots: seq<Slot>)
    ensures CountUsed(slots) <= |slots|
    ensures CountUsed(slots) == |slots| <==> Full(slots)
    decreases |slots|
  {
    if slots != [] {
      var n := |slots| - 1;
      var front := slots[..n];
      CountUsedBound(front);
      assert forall j :: 0 <= j < n ==> (Used(front, j) <==> Used(slots, j));
      assert Full(slots) <==> Full(front) && Used(slots, n);
    }
  }

  /** The table is full exactly when it holds as many records as it has slots. */
  lemma {:induction false} FullIsAtCapacity(h: Hash, slots: seq<Slot>)
    requires Inv(h, slots)
    ensures |Abs(slots)| <= |slots|
    ensures |Abs(slots)| == |slots| <==> Full(slots)
  {
    AbsSize(slots);
    CountUsedBound(slots);
  }

  function Weight(s: Slot): nat {
    if s.state.Active? then 1 else 0
  }

  function Bytes(s: Slot): nat {
    if s.state.Active? then s.size else 0
  }

  lemma {:induction false} CountUpdate(slots: seq<Slot>, j: nat, s: Slot)
    requires j < |slots|
    ensures CountActive(slots[j := s]) == CountActive(slots) - Weight(slots[j]) + Weight(s)
    ensures Leaked(slots[j := s]) == Leaked(slots) - Bytes(slots[j]) + Bytes(s)
    decreases |slots|
  {
    var n := |slots| - 1;
    if j == n {
      assert slots[j := s][..n] == slots[..n];
    } else {
      CountUpdate(slots[..n], j, s);
      assert slots[j := s][..n] == slots[..n][j := s];
    }
  }

  lemma {:induction false} CountEmpty(n: nat)
    ensures CountActive(seq(n, _ => EMPTYSLOT)) == 0 && Leaked(seq(n, _ => EMPTYSLOT)) == 0
  {
    if n > 0 {
      assert seq(n, _ => EMPTYSLOT)[..n - 1] == seq(n - 1, _ => EMPTYSLOT);
      CountEmpty(n - 1);
    }
  }
}
