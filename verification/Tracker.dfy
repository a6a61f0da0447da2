/** The memory checker's table of allocations and its counters, as values: probing, recording,
    releasing, and what each wrapped allocator call does. */
module Tracker {
  import opened Options
  import Words

  datatype SlotState = Empty | Active | Freed

  /** Where an allocation was made. */
  datatype Site = Site(file: Option<string>, line: int)

  const NOWHERE := Site(None, 0)

  /** `ptr` is 0 for a null pointer. */
  datatype Slot = Slot(ptr: nat, size: nat, site: Site, state: SlotState)

  const EMPTYSLOT := Slot(0, 0, NOWHERE, Empty)

  datatype Table = Table(
    slots: seq<Slot>,
    active: nat,
    allocs: nat,
    frees: nat,
    doubleFrees: nat,
    unknownFrees: nat,
    failures: nat,
    generation: nat)

  type Hash = nat -> nat

  function Home(h: Hash, p: nat, n: nat): (r: nat)
    requires n > 0
    ensures r < n
  {
    h(p) % n
  }

  /** The `i`-th slot a probe for `p` visits. */
  function At(h: Hash, p: nat, n: nat, i: nat): (r: nat)
    requires n > 0
    ensures r < n
  {
    (Home(h, p, n) + i) % n
  }

  // ----- probing -----

  function FindFrom(h: Hash, slots: seq<Slot>, p: nat, i: nat): (r: Option<nat>)
    requires i <= |slots|
    ensures r.Some? ==> r.value < |slots| && slots[r.value].ptr == p && !slots[r.value].state.Empty?
    decreases |slots| - i
  {
    if i == |slots| then None
    else
      var j := At(h, p, |slots|, i);
      if slots[j].state.Empty? then None
      else if slots[j].ptr == p then Some(j)
      else FindFrom(h, slots, p, i + 1)
  }

  function Find(h: Hash, slots: seq<Slot>, p: nat): (r: Option<nat>)
    ensures r.Some? ==> r.value < |slots| && slots[r.value].ptr == p && !slots[r.value].state.Empty?
  {
    if p == 0 then None else FindFrom(h, slots, p, 0)
  }

  function InsertFrom(h: Hash, slots: seq<Slot>, p: nat, i: nat, firstFreed: Option<nat>): Option<nat>
    requires i <= |slots|
    decreases |slots| - i
  {
    if i == |slots| then firstFreed
    else
      var j := At(h, p, |slots|, i);
      if slots[j].ptr == p then Some(j)
      else if slots[j].state.Empty? then Some(j)
      else
        InsertFrom(h, slots, p, i + 1, if slots[j].state.Freed? && firstFreed.None? then Some(j) else firstFreed)
  }

  /** The slot `p` already has, else the first empty one on its path, else the first freed one. */
  function InsertSlot(h: Hash, slots: seq<Slot>, p: nat): Option<nat> {
    if p == 0 then None else InsertFrom(h, slots, p, 0, None)
  }

  // ----- recording -----

  function Track(h: Hash, t: Table, p: nat, size: nat, site: Site): (r: Table)
    ensures |r.slots| == |t.slots|
  {
    if p == 0 then t
    else
      match InsertSlot(h, t.slots, p)
      case None => t.(failures := t.failures + 1, generation := t.generation + 1)
      case Some(j) =>
        if j >= |t.slots| then t
        else
          t.(slots := t.slots[j := Slot(p, size, site, Active)],
             active := if t.slots[j].state.Active? then t.active else t.active + 1,
             allocs := t.allocs + 1,
             generation := t.generation + 1)
  }

  function Release(t: Table, j: nat): (r: Table)
    requires j < |t.slots|
    ensures |r.slots| == |t.slots|
  {
    if !t.slots[j].state.Active? then t
    else
      t.(slots := t.slots[j := Slot(t.slots[j].ptr, 0, NOWHERE, Freed)],
         active := if t.active > 0 then t.active - 1 else t.active,
         frees := t.frees + 1,
         generation := t.generation + 1)
  }

  function Unknown(t: Table): Table {
    t.(unknownFrees := t.unknownFrees + 1, generation := t.generation + 1)
  }

  function DoubleFree(t: Table): Table {
    t.(doubleFrees := t.doubleFrees + 1, generation := t.generation + 1)
  }

  /** What a call passes on to the real allocator. */
  datatype Forward = Nothing | RealFree(p: nat) | RealRealloc(p: nat)

  function Classify(h: Hash, t: Table, p: nat): (r: Option<nat>)
    ensures r.Some? ==> r.value < |t.slots| && t.slots[r.value].ptr == p && t.slots[r.value].state.Active?
  {
    match Find(h, t.slots, p)
    case None => None
    case Some(j) => if t.slots[j].state.Active? then Some(j) else None
  }

  /** Counts a pointer that is not active as freed twice or as unknown. */
  function Reject(h: Hash, t: Table, p: nat): Table {
    if Find(h, t.slots, p).None? then Unknown(t) else DoubleFree(t)
  }

  function FreeCall(h: Hash, t: Table, p: nat): (Table, Forward) {
    if p == 0 then (t, Nothing)
    else
      match Classify(h, t, p)
      case None => (Reject(h, t, p), Nothing)
      case Some(j) => (Release(t, j), RealFree(p))
  }

  /** `result` is what the real allocator returns if it is asked. */
  function ReallocCall(h: Hash, t: Table, p: nat, size: nat, site: Site, result: nat): (Table, Forward) {
    if p == 0 then (Track(h, t, result, size, site), Nothing)
    else
      match Classify(h, t, p)
      case None => (Reject(h, t, p), Nothing)
      case Some(j) =>
        (if result == 0 then t else Track(h, Release(t, j), result, size, site), RealRealloc(p))
  }

  function CallocSize(count: nat, size: nat): nat {
    count * size % Words.WORD
  }

  function Reset(t: Table): Table {
    Table(seq(|t.slots|, _ => EMPTYSLOT), 0, 0, 0, 0, 0, 0, 0)
  }

  // ----- sums over the table -----

  function CountActive(slots: seq<Slot>): nat {
    if slots == [] then 0
    else CountActive(slots[..|slots| - 1]) + (if slots[|slots| - 1].state.Active? then 1 else 0)
  }

  function Leaked(slots: seq<Slot>): nat {
    if slots == [] then 0
    else Leaked(slots[..|slots| - 1]) + (if slots[|slots| - 1].state.Active? then slots[|slots| - 1].size else 0)
  }

  /** What is known about a pointer. */
  datatype Record = IsActive(size: nat, site: Site) | IsFreed

  function RecordOf(s: Slot): Record {
    if s.state.Active? then IsActive(s.size, s.site) else IsFreed
  }

  /** The table as a map from pointers to records. */
  function Abs(slots: seq<Slot>): map<nat, Record> {
    if slots == [] then map[]
    else
      var s := slots[|slots| - 1];
      if s.state.Empty? then Abs(slots[..|slots| - 1]) else Abs(slots[..|slots| - 1])[s.ptr := RecordOf(s)]
  }
}
