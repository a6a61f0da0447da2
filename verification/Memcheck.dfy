/** The memory checker as it runs: one fixed array of slots and global counters, changed in place by
    the wrappers. What the real allocator returns comes in as `result`; what it is asked to release or
    resize goes out as `forward`. */
module Memcheck {
  import opened Options
  import opened Tracker
  import Words

  class Runtime {
    const hash: Hash
    const slots: array<Slot>
    var active: nat
    var allocs: nat
    var frees: nat
    var doubleFrees: nat
    var unknownFrees: nat
    var failures: nat
    var generation: nat

    function View(): Table
      reads this, slots
    {
      Table(slots[..], active, allocs, frees, doubleFrees, unknownFrees, failures, generation)
    }

    constructor (hash: Hash, capacity: nat)
      ensures View() == Table(seq(capacity, _ => EMPTYSLOT), 0, 0, 0, 0, 0, 0, 0)
      ensures this.hash == hash && fresh(slots)
    {
      this.hash := hash;
      slots := new Slot[capacity](_ => EMPTYSLOT);
      active, allocs, frees, doubleFrees, unknownFrees, failures, generation := 0, 0, 0, 0, 0, 0, 0;
      new;
      assert slots[..] == seq(capacity, _ => EMPTYSLOT);
    }

    method FindSlot(p: nat) returns (r: Option<nat>)
      ensures r == Find(hash, slots[..], p)
    {
      if p == 0 { return None; }
      var i := 0;
      while i < slots.Length
        invariant 0 <= i <= slots.Length
        invariant Find(hash, slots[..], p) == FindFrom(hash, slots[..], p, i)
      {
        var j := At(hash, p, slots.Length, i);
        if slots[j].state.Empty? { return None; }
        if slots[j].ptr == p { return Some(j); }
        i := i + 1;
      }
      r := None;
    }

    method FindInsertSlot(p: nat) returns (r: Option<nat>)
      ensures r == InsertSlot(hash, slots[..], p)
      ensures r.Some? ==> r.value < slots.Length
    {
      if p == 0 { return None; }
      var firstFreed: Option<nat> := None;
      var i := 0;
      while i < slots.Length
        invariant 0 <= i <= slots.Length && (firstFreed.Some? ==> firstFreed.value < slots.Length)
        invariant InsertSlot(hash, slots[..], p) == InsertFrom(hash, slots[..], p, i, firstFreed)
      {
        var j := At(hash, p, slots.Length, i);
        if slots[j].ptr == p { return Some(j); }
        if slots[j].state.Freed? && firstFreed.None? { firstFreed := Some(j); }
        if slots[j].state.Empty? { return Some(j); }
        i := i + 1;
      }
      r := firstFreed;
    }

    method TrackAllocation(p: nat, size: nat, site: Site)
      modifies this, slots
      ensures View() == Track(hash, old(View()), p, size, site)
    {
      if p == 0 { return; }
      var slot := FindInsertSlot(p);
      if slot.None? {
        failures := failures + 1;
        generation := generation + 1;
        return;
      }
      var j := slot.value;
      if !slots[j].state.Active? { active := active + 1; }
      slots[j] := Slot(p, size, site, Active);
      allocs := allocs + 1;
      generation := generation + 1;
    }

    method MarkReleased(j: nat)
      requires j < slots.Length
      modifies this, slots
      ensures View() == Release(old(View()), j)
    {
      if !slots[j].state.Active? { return; }
      slots[j] := Slot(slots[j].ptr, 0, NOWHERE, Freed);
      if active > 0 { active := active - 1; }
      frees := frees + 1;
      generation := generation + 1;
    }

    method MallocSite(size: nat, site: Site, result: nat)
      modifies this, slots
      ensures View() == Track(hash, old(View()), result, size, site)
    {
      if result != 0 { TrackAllocation(result, size, site); }
    }

    method CallocSite(count: nat, size: nat, site: Site, result: nat)
      modifies this, slots
      ensures View() == Track(hash, old(View()), result, CallocSize(count, size), site)
    {
      if result != 0 { TrackAllocation(result, count * size % Words.WORD, site); }
    }

    method ReallocSite(p: nat, size: nat, site: Site, result: nat) returns (forward: Forward)
      modifies this, slots
      ensures (View(), forward) == ReallocCall(hash, old(View()), p, size, site, result)
    {
      hide Track, Release, Find;
      forward := Nothing;
      if p == 0 {
        TrackAllocation(result, size, site);
        return;
      }
      var slot := FindSlot(p);
      if slot.None? {
        unknownFrees := unknownFrees + 1;
        generation := generation + 1;
        return;
      }
      if !slots[slot.value].state.Active? {
        doubleFrees := doubleFrees + 1;
        generation := generation + 1;
        return;
      }
      forward := RealRealloc(p);
      if result == 0 { return; }
      MarkReleased(slot.value);
      TrackAllocation(result, size, site);
    }

    method FreeSite(p: nat) returns (forward: Forward)
      modifies this, slots
      ensures (View(), forward) == FreeCall(hash, old(View()), p)
    {
      hide Release, Find;
      forward := Nothing;
      if p == 0 { return; }
      var slot := FindSlot(p);
      if slot.None? {
        unknownFrees := unknownFrees + 1;
        generation := generation + 1;
        return;
      }
      if !slots[slot.value].state.Active? {
        doubleFrees := doubleFrees + 1;
        generation := generation + 1;
        return;
      }
      MarkReleased(slot.value);
      forward := RealFree(p);
    }

    method ComputeLeakedBytes() returns (bytes: nat)
      ensures bytes == Leaked(slots[..])
    {
      bytes := 0;
      for i := 0 to slots.Length
        invariant bytes == Leaked(slots[..i])
      {
        assert slots[..i + 1][..i] == slots[..i];
        if slots[i].state.Active? { bytes := bytes + slots[i].size; }
      }
      assert slots[..slots.Length] == slots[..];
    }

    method ResetTable()
      modifies this, slots
      ensures View() == Reset(old(View()))
    {
      for i := 0 to slots.Length
        modifies slots
        invariant forall k :: 0 <= k < i ==> slots[k] == EMPTYSLOT
      {
        slots[i] := EMPTYSLOT;
      }
      active, allocs, frees, doubleFrees, unknownFrees, failures, generation := 0, 0, 0, 0, 0, 0, 0;
      assert slots[..] == seq(slots.Length, _ => EMPTYSLOT);
    }
  }
}
