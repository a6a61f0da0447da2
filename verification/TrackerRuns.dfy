/** The tracker against a plain map, and whole runs of a program that allocates through it. */
module TrackerRuns {
  import opened Tracker
  import opened TrackerInvariant
  import Words

  // ----- one operation on the map -----

  /** Recording `p` in a map of at most `n` records. Only when the map is full and does not know `p`
      is another record given up, and then a freed one; with none to give up, nothing is recorded. */
  ghost predicate MapTrack(m: map<nat, Record>, n: nat, p: nat, rec: Record, after: map<nat, Record>, failed: bool) {
    if p in m || |m| < n then !failed && after == m[p := rec]
    else if exists q :: q in m && m[q].IsFreed? then
      !failed && exists q :: q in m && m[q].IsFreed? && after == (m - {q})[p := rec]
    else failed && after == m
  }

  lemma {:induction false} TrackRefines(h: Hash, t: Table, p: nat, size: nat, site: Site)
    requires Inv(h, t.slots) && p != 0
    ensures var r := Track(h, t, p, size, site);
      Inv(h, r.slots) &&
      MapTrack(Abs(t.slots), |t.slots|, p, IsActive(size, site), Abs(r.slots), r.failures != t.failures)
  {
    hide Abs, InsertSlot;
    InsertStops(h, t.slots, p);
    FullIsAtCapacity(h, t.slots);
    PresentIsKnown(h, t.slots, p);
    var found := InsertSlot(h, t.slots, p);
    AbsHolds(t.slots);
    if found.None? {
      assert Full(t.slots);
      forall q | q in Abs(t.slots) ensures !Abs(t.slots)[q].IsFreed? {
        assert Present(t.slots, q);
      }
    } else {
      var j, s := found.value, Slot(p, size, site, Active);
      InsertKeepsInv(h, t.slots, p, j, s);
      AbsUpdate(t.slots, j, s);
      if Used(t.slots, j) && t.slots[j].ptr == p {
        assert (Abs(t.slots) - {p})[p := RecordOf(s)] == Abs(t.slots)[p := RecordOf(s)];
      } else if Used(t.slots, j) {
        assert t.slots[j].ptr in Abs(t.slots);
      }
    }
  }

  /** Releasing turns an active record into a freed one and touches no other. */
  lemma {:induction false} ReleaseRefines(h: Hash, t: Table, j: nat)
    requires Inv(h, t.slots) && j < |t.slots| && t.slots[j].state.Active?
    ensures Inv(h, Release(t, j).slots)
    ensures Abs(Release(t, j).slots) == Abs(t.slots)[t.slots[j].ptr := IsFreed]
  {
    hide Abs;
    var s := Slot(t.slots[j].ptr, 0, NOWHERE, Freed);
    assert GoodSlot(h, t.slots, s.ptr, j);
    InsertKeepsInv(h, t.slots, s.ptr, j, s);
    AbsUpdate(t.slots, j, s);
    assert (Abs(t.slots) - {s.ptr})[s.ptr := IsFreed] == Abs(t.slots)[s.ptr := IsFreed];
  }

  /** A call is let through exactly when the map has an active record. */
  lemma {:induction false} ClassifyRefines(h: Hash, t: Table, p: nat)
    requires Inv(h, t.slots)
    ensures Classify(h, t, p).Some? <==> p in Abs(t.slots) && Abs(t.slots)[p].IsActive?
    ensures Find(h, t.slots, p).Some? <==> p in Abs(t.slots)
  {
    hide Abs, Find;
    FindIsLookup(h, t.slots, p);
  }

  // ----- runs -----

  datatype Event =
    | Malloc(size: nat, site: Site, result: nat)
    | Calloc(count: nat, size: nat, site: Site, result: nat)
    | Realloc(p: nat, size: nat, site: Site, result: nat)
    | Free(p: nat)
    | ResetAll

  /** The tracker, the pointers the real allocator has handed out and not taken back, all it ever
      handed out, and a running total of the bytes recorded and not yet released. */
  datatype World = World(table: Table, live: set<nat>, ever: set<nat>, owed: int)

  function SizeAt(t: Table, p: nat): nat {
    if p in Abs(t.slots) && Abs(t.slots)[p].IsActive? then Abs(t.slots)[p].size else 0
  }

  /** A successful allocation of a new block. */
  function Allocate(h: Hash, w: World, p: nat, size: nat, site: Site): World {
    if p == 0 then w
    else
      var t := Track(h, w.table, p, size, site);
      World(t, w.live + {p}, w.ever + {p}, if t.failures == w.table.failures then w.owed + size else w.owed)
  }

  /** A null result of a resize to zero means that the block is gone. */
  function Resize(h: Hash, w: World, e: Event): World
    requires e.Realloc?
  {
    var (t, f) := ReallocCall(h, w.table, e.p, e.size, e.site, e.result);
    if !f.RealRealloc? then w.(table := t)
    else if e.result == 0 then w.(table := t, live := if e.size == 0 then w.live - {e.p} else w.live)
    else World(t, w.live - {e.p} + {e.result}, w.ever + {e.result}, w.owed - SizeAt(w.table, e.p) + e.size)
  }

  function Do(h: Hash, w: World, e: Event): World {
    match e
    case Malloc(size, site, result) => Allocate(h, w, result, size, site)
    case Calloc(count, size, site, result) => Allocate(h, w, result, CallocSize(count, size), site)
    case Realloc(p, size, site, result) =>
      if p == 0 then Allocate(h, w, result, size, site) else Resize(h, w, e)
    case Free(p) =>
      var (t, f) := FreeCall(h, w.table, p);
      if f.RealFree? then World(t, w.live - {p}, w.ever, w.owed - SizeAt(w.table, p)) else w.(table := t)
    case ResetAll => w.(table := Reset(w.table), owed := 0)
  }

  /** What the event passes on to the real allocator's `free` or `realloc`. */
  function Passes(h: Hash, w: World, e: Event): Forward {
    match e
    case Realloc(p, size, site, result) => ReallocCall(h, w.table, p, size, site, result).1
    case Free(p) => FreeCall(h, w.table, p).1
    case _ => Nothing
  }

  /** The real allocator returns null or a pointer that is not live; a resize may keep its own. */
  predicate Allowed(w: World, e: Event) {
    match e
    case Malloc(_, _, result) => result !in w.live
    case Calloc(_, _, _, result) => result !in w.live
    case Realloc(p, _, _, result) => result !in w.live || (result == p && p != 0)
    case _ => true
  }

  /** A resize to zero that releases the block and says so only by returning null. */
  predicate DropsSilently(h: Hash, w: World, e: Event) {
    e.Realloc? && e.size == 0 && e.result == 0 && Passes(h, w, e).RealRealloc?
  }

  ghost predicate ActiveIsLive(w: World) {
    forall p :: p in Abs(w.table.slots) && Abs(w.table.slots)[p].IsActive? ==> p in w.live
  }

  /** The counters agree with the table, with each other and with the running total. */
  predicate Balanced(t: Table, owed: int) {
    && t.active == CountActive(t.slots)
    && t.allocs == t.active + t.frees
    && t.generation == t.allocs + t.frees + t.doubleFrees + t.unknownFrees + t.failures
    && owed == Leaked(t.slots)
  }

  ghost predicate Good(h: Hash, w: World) {
    Inv(h, w.table.slots) && 0 !in w.live && ActiveIsLive(w) && Balanced(w.table, w.owed)
  }

  /** The tracker only ever hands live pointers to the real allocator. */
  predicate ForwardsLive(h: Hash, w: World, e: Event) {
    match Passes(h, w, e)
    case Nothing => true
    case RealFree(p) => p in w.live
    case RealRealloc(p) => p in w.live
  }

  lemma {:induction false} TrackBalances(h: Hash, t: Table, p: nat, size: nat, site: Site, owed: int)
    requires Inv(h, t.slots) && p != 0 && Balanced(t, owed)
    requires p in Abs(t.slots) ==> !Abs(t.slots)[p].IsActive?
    ensures var r := Track(h, t, p, size, site);
      Balanced(r, if r.failures == t.failures then owed + size else owed)
  {
    hide Abs, InsertSlot, CountActive, Leaked;
    InsertStops(h, t.slots, p);
    var found := InsertSlot(h, t.slots, p);
    if found.Some? {
      CountUpdate(t.slots, found.value, Slot(p, size, site, Active));
      AbsHolds(t.slots);
    }
  }

  /** The active counter stays right whatever the real allocator hands out, a recorded live block or null
      included. */
  lemma {:induction false} TrackCountsActive(h: Hash, t: Table, p: nat, size: nat, site: Site)
    requires Inv(h, t.slots) && t.active == CountActive(t.slots)
    ensures var r := Track(h, t, p, size, site); r.active == CountActive(r.slots)
  {
    hide InsertSlot, CountActive, Leaked;
    if p != 0 {
      InsertStops(h, t.slots, p);
      var found := InsertSlot(h, t.slots, p);
      if found.Some? { CountUpdate(t.slots, found.value, Slot(p, size, site, Active)); }
    }
  }

  lemma {:induction false} ReleaseBalances(h: Hash, t: Table, j: nat, owed: int)
    requires Inv(h, t.slots) && Balanced(t, owed) && j < |t.slots| && t.slots[j].state.Active?
    ensures Balanced(Release(t, j), owed - SizeAt(t, t.slots[j].ptr))
  {
    hide Abs, CountActive, Leaked;
    CountUpdate(t.slots, j, Slot(t.slots[j].ptr, 0, NOWHERE, Freed));
    AbsHolds(t.slots);
  }

  lemma {:induction false} AllocateKeeps(h: Hash, w: World, p: nat, size: nat, site: Site)
    requires Good(h, w) && p !in w.live
    ensures Good(h, Allocate(h, w, p, size, site))
  {
    hide Abs, Track, Balanced;
    if p != 0 {
      TrackRefines(h, w.table, p, size, site);
      TrackBalances(h, w.table, p, size, site, w.owed);
    }
  }

  lemma {:induction false} FreeKeeps(h: Hash, w: World, p: nat)
    requires Good(h, w)
    ensures Good(h, Do(h, w, Free(p))) && ForwardsLive(h, w, Free(p))
  {
    hide Abs, Release, CountActive, Leaked;
    ClassifyRefines(h, w.table, p);
    if p != 0 && Classify(h, w.table, p).Some? {
      var j := Classify(h, w.table, p).value;
      ReleaseRefines(h, w.table, j);
      ReleaseBalances(h, w.table, j, w.owed);
    }
  }

  /** A resized block stays recorded, whatever the state of the table. */
  lemma {:induction false} ResizeTracks(h: Hash, t: Table, p: nat, size: nat, site: Site, result: nat)
    requires Inv(h, t.slots) && p in Abs(t.slots) && Abs(t.slots)[p].IsActive? && p != 0 && result != 0
    ensures var r := ReallocCall(h, t, p, size, site, result).0;
      r.failures == t.failures && result in Abs(r.slots) && Abs(r.slots)[result] == IsActive(size, site)
  {
    hide Abs, Release, Track;
    ClassifyRefines(h, t, p);
    var j := Classify(h, t, p).value;
    var t1 := Release(t, j);
    ReleaseRefines(h, t, j);
    ReleaseCounters(t, j);
    assert Abs(t1.slots)[p].IsFreed?;
    TrackRefines(h, t1, result, size, site);
  }

  lemma {:induction false} ReleaseCounters(t: Table, j: nat)
    requires j < |t.slots|
    ensures Release(t, j).failures == t.failures && |Release(t, j).slots| == |t.slots|
  {}

  lemma {:induction false} ResizeKeeps(h: Hash, w: World, e: Event)
    requires Good(h, w) && Allowed(w, e) && e.Realloc? && e.p != 0 && !DropsSilently(h, w, e)
    ensures Good(h, Do(h, w, e)) && ForwardsLive(h, w, e)
  {
    hide Abs, Release, Track, CountActive, Leaked;
    ClassifyRefines(h, w.table, e.p);
    if Classify(h, w.table, e.p).Some? && e.result != 0 {
      var j := Classify(h, w.table, e.p).value;
      var t1 := Release(w.table, j);
      ReleaseRefines(h, w.table, j);
      ReleaseBalances(h, w.table, j, w.owed);
      ReleaseCounters(w.table, j);
      TrackRefines(h, t1, e.result, e.size, e.site);
      TrackBalances(h, t1, e.result, e.size, e.site, w.owed - SizeAt(w.table, e.p));
      ResizeTracks(h, w.table, e.p, e.size, e.site, e.result);
    }
  }

  lemma {:induction false} ResetKeeps(h: Hash, w: World)
    requires Good(h, w)
    ensures Good(h, Do(h, w, ResetAll)) && Abs(Do(h, w, ResetAll).table.slots) == map[]
    ensures Do(h, w, ResetAll).table == Initially(|w.table.slots|).table
  {
    hide Abs;
    var slots := Reset(w.table).slots;
    CountEmpty(|slots|);
    assert slots == seq(|slots|, _ => EMPTYSLOT);
    assert Inv(h, slots);
    AbsHolds(slots);
    assert forall p :: !Present(slots, p);
  }

  /** The recorded size of a `calloc` block is the low 64 bits of the product. */
  lemma {:induction false} CallocRecordsProduct(h: Hash, w: World, count: nat, size: nat, site: Site, result: nat)
    returns (n: nat, over: nat)
    requires Good(h, w) && result != 0
    ensures n < 0x1_0000_0000_0000_0000 && count * size == over * 0x1_0000_0000_0000_0000 + n
    ensures var t := Do(h, w, Calloc(count, size, site, result)).table;
      t.failures == w.table.failures ==> result in Abs(t.slots) && Abs(t.slots)[result] == IsActive(n, site)
  {
    hide Abs, Track;
    n := CallocSize(count, size);
    over := count * size / Words.WORD;
    TrackRefines(h, w.table, result, n, site);
  }

  /** Every event keeps the invariant and hands only live pointers on. */
  lemma {:induction false} StepKeeps(h: Hash, w: World, e: Event)
    requires Good(h, w) && Allowed(w, e) && !DropsSilently(h, w, e)
    ensures Good(h, Do(h, w, e)) && ForwardsLive(h, w, e)
  {
    hide Good, Allocate, FreeCall, Resize;
    match e
    case Malloc(size, site, result) =>
      ZeroIsNotLive(h, w);
      AllocateKeeps(h, w, result, size, site);
    case Calloc(count, size, site, result) => AllocateKeeps(h, w, result, CallocSize(count, size), site);
    case Realloc(p, size, site, result) =>
      if p == 0 { AllocateKeeps(h, w, result, size, site); } else { ResizeKeeps(h, w, e); }
    case Free(p) => FreeKeeps(h, w, p);
    case ResetAll => ResetKeeps(h, w);
  }

  lemma {:induction false} ZeroIsNotLive(h: Hash, w: World)
    requires Good(h, w)
    ensures 0 !in w.live
  {}

  /** The one way to lose the invariant: after a silent drop a dead block is still recorded active, so
      a later `free` of it reaches the real allocator. */
  lemma {:induction false} SilentDropBreaks(h: Hash, w: World, e: Event)
    requires Good(h, w) && DropsSilently(h, w, e)
    ensures !Good(h, Do(h, w, e))
    ensures Passes(h, Do(h, w, e), Free(e.p)) == RealFree(e.p) && e.p !in Do(h, w, e).live
  {
    hide Abs;
    ClassifyRefines(h, w.table, e.p);
    assert Do(h, w, e).table == w.table;
    assert e.p in Abs(w.table.slots) && Abs(w.table.slots)[e.p].IsActive?;
  }

  // ----- whole runs -----

  function Run(h: Hash, w: World, es: seq<Event>): World
    decreases |es|
  {
    if es == [] then w else Run(h, Do(h, w, es[0]), es[1..])
  }

  /** The allocator keeps its contract at every step and no resize drops a block silently. */
  predicate Lawful(h: Hash, w: World, es: seq<Event>)
    decreases |es|
  {
    es == [] || (Allowed(w, es[0]) && !DropsSilently(h, w, es[0]) && Lawful(h, Do(h, w, es[0]), es[1..]))
  }

  predicate AllForwardsLive(h: Hash, w: World, es: seq<Event>)
    decreases |es|
  {
    es == [] || (ForwardsLive(h, w, es[0]) && AllForwardsLive(h, Do(h, w, es[0]), es[1..]))
  }

  function Initially(n: nat): World {
    World(Table(seq(n, _ => EMPTYSLOT), 0, 0, 0, 0, 0, 0, 0), {}, {}, 0)
  }

  lemma {:induction false} InitiallyGood(h: Hash, n: nat)
    requires n > 0
    ensures Good(h, Initially(n)) && Abs(Initially(n).table.slots) == map[]
  {
    var t := Initially(n).table;
    CountEmpty(n);
    assert Inv(h, t.slots);
    AbsHolds(t.slots);
    assert forall p :: !Present(t.slots, p);
  }

  /** Over any lawful run the real `free` and `realloc` see only live pointers, and at its end the
      table and all counters balance. */
  lemma {:induction false} RunIsSafe(h: Hash, w: World, es: seq<Event>)
    requires Good(h, w) && Lawful(h, w, es)
    ensures Good(h, Run(h, w, es)) && AllForwardsLive(h, w, es)
    decreases |es|
  {
    hide Good, Do;
    if es != [] {
      StepKeeps(h, w, es[0]);
      RunIsSafe(h, Do(h, w, es[0]), es[1..]);
    }
  }

  // ----- exact verdicts while the table has room -----

  /** The table knows every pointer ever handed out, and which of them are live. */
  ghost predicate Exact(w: World) {
    Abs(w.table.slots).Keys == w.ever && w.live <= w.ever && w.table.failures == 0 &&
    forall p :: p in w.ever ==> (Abs(w.table.slots)[p].IsActive? <==> p in w.live)
  }

  lemma {:induction false} AllocateExact(h: Hash, w: World, p: nat, size: nat, site: Site)
    requires Good(h, w) && Exact(w) && p !in w.live && |w.ever + {p}| <= |w.table.slots|
    ensures Exact(Allocate(h, w, p, size, site))
  {
    hide Abs, Track;
    if p != 0 {
      TrackRefines(h, w.table, p, size, site);
      Room(w, p);
    }
  }

  lemma {:induction false} Room(w: World, p: nat)
    requires Exact(w) && |w.ever + {p}| <= |w.table.slots|
    ensures p in Abs(w.table.slots) || |Abs(w.table.slots)| < |w.table.slots|
  {
    hide Abs;
    var m := Abs(w.table.slots);
    assert |m| == |m.Keys|;
    assert p !in m ==> |w.ever + {p}| == |w.ever| + 1;
  }

  lemma {:induction false} ResizeExact(h: Hash, w: World, e: Event)
    requires Good(h, w) && Exact(w) && e.Realloc? && e.p != 0 && Allowed(w, e) && !DropsSilently(h, w, e)
    requires |Do(h, w, e).ever| <= |w.table.slots|
    ensures Exact(Do(h, w, e))
  {
    hide Abs, Release, Track, Inv;
    ClassifyRefines(h, w.table, e.p);
    if Classify(h, w.table, e.p).Some? && e.result != 0 {
      var j := Classify(h, w.table, e.p).value;
      var t1 := Release(w.table, j);
      ReleaseRefines(h, w.table, j);
      ReleaseCounters(w.table, j);
      var w1 := World(t1, w.live - {e.p}, w.ever, 0);
      assert Exact(w1);
      Room(w1, e.result);
      TrackRefines(h, t1, e.result, e.size, e.site);
    }
  }

  lemma {:induction false} FreeExact(h: Hash, w: World, p: nat)
    requires Good(h, w) && Exact(w)
    ensures Exact(Do(h, w, Free(p)))
  {
    hide Abs, Release;
    ClassifyRefines(h, w.table, p);
    if p != 0 && Classify(h, w.table, p).Some? {
      var j := Classify(h, w.table, p).value;
      ReleaseRefines(h, w.table, j);
      ReleaseCounters(w.table, j);
    }
  }

  lemma {:induction false} StepExact(h: Hash, w: World, e: Event)
    requires Good(h, w) && Exact(w) && Allowed(w, e) && !DropsSilently(h, w, e) && !e.ResetAll?
    requires |Do(h, w, e).ever| <= |w.table.slots|
    ensures Exact(Do(h, w, e)) && |Do(h, w, e).table.slots| == |w.table.slots| && w.ever <= Do(h, w, e).ever
  {
    hide Good, Exact, Abs;
    match e
    case Malloc(size, site, result) => NewExact(h, w, result, size, site);
    case Calloc(count, size, site, result) => NewExact(h, w, result, CallocSize(count, size), site);
    case Realloc(p, size, site, result) =>
      if p == 0 { NewExact(h, w, result, size, site); } else { ResizeExact(h, w, e); }
    case Free(p) => FreeExact(h, w, p);
  }

  lemma {:induction false} NewExact(h: Hash, w: World, p: nat, size: nat, site: Site)
    requires Good(h, w) && Exact(w) && p !in w.live && |Allocate(h, w, p, size, site).ever| <= |w.table.slots|
    ensures Exact(Allocate(h, w, p, size, site))
  {
    hide Abs, Track;
    if p != 0 { AllocateExact(h, w, p, size, site); }
  }

  /** A call that gives a pointer back: `free`, or `realloc` of a pointer that is not null. */
  predicate GivesBack(e: Event) {
    (e.Free? || e.Realloc?) && e.p != 0
  }

  /** Such a call is passed on exactly if the pointer is live, counted as a double free exactly if it was
      handed out and is dead, and as unknown exactly if it was never handed out. The block is counted as
      released unless the real allocator could not resize it. */
  predicate VerdictRight(h: Hash, w: World, e: Event)
    requires GivesBack(e)
  {
    var t, t1 := w.table, Do(h, w, e).table;
    && Passes(h, w, e) == (if e.p !in w.live then Nothing else if e.Free? then RealFree(e.p) else RealRealloc(e.p))
    && t1.frees == t.frees + (if e.p in w.live && !(e.Realloc? && e.result == 0) then 1 else 0)
    && t1.doubleFrees == t.doubleFrees + (if e.p in w.ever - w.live then 1 else 0)
    && t1.unknownFrees == t.unknownFrees + (if e.p !in w.ever then 1 else 0)
  }

  ghost predicate VerdictsRight(h: Hash, w: World) {
    forall e :: GivesBack(e) ==> VerdictRight(h, w, e)
  }

  /** A table that knows everything gives the right verdict on every pointer. */
  lemma {:induction false} VerdictIsExact(h: Hash, w: World, e: Event)
    requires Good(h, w) && Exact(w) && GivesBack(e)
    ensures VerdictRight(h, w, e)
  {
    hide Abs, Find, InsertSlot;
    ClassifyRefines(h, w.table, e.p);
  }

  /** A pointer that was handed out and is not in the table gets the wrong verdict. */
  lemma {:induction false} ForgottenIsWrong(h: Hash, w: World, e: Event)
    requires Inv(h, w.table.slots) && GivesBack(e) && e.p in w.ever && e.p !in Abs(w.table.slots)
    ensures !VerdictRight(h, w, e)
  {
    hide Abs, Find, InsertSlot;
    ClassifyRefines(h, w.table, e.p);
  }

  predicate NoReset(es: seq<Event>) {
    forall i :: 0 <= i < |es| ==> !es[i].ResetAll?
  }

  lemma {:induction false} EverGrows(h: Hash, w: World, es: seq<Event>)
    ensures w.ever <= Run(h, w, es).ever
    decreases |es|
  {
    hide Track, FreeCall, ReallocCall;
    if es != [] { EverGrows(h, Do(h, w, es[0]), es[1..]); }
  }

  lemma {:induction false} StaysExact(h: Hash, w: World, es: seq<Event>)
    requires Good(h, w) && Exact(w) && Lawful(h, w, es) && NoReset(es)
    requires |Run(h, w, es).ever| <= |w.table.slots|
    ensures Exact(Run(h, w, es))
    decreases |es|
  {
    hide Good, Exact, Do;
    if es != [] {
      var w1 := Do(h, w, es[0]);
      EverGrows(h, w1, es[1..]);
      SubsetSize(w1.ever, Run(h, w, es).ever);
      StepKeeps(h, w, es[0]);
      StepExact(h, w, es[0]);
      StaysExact(h, w1, es[1..]);
    }
  }

  lemma {:induction false} SlotsStay(h: Hash, w: World, es: seq<Event>)
    ensures |Run(h, w, es).table.slots| == |w.table.slots|
    decreases |es|
  {
    hide Track, Release;
    if es != [] { SlotsStay(h, Do(h, w, es[0]), es[1..]); }
  }

  /** Null is never handed out. */
  lemma {:induction false} ZeroIsNeverHandedOut(h: Hash, w: World, es: seq<Event>)
    requires 0 !in w.ever
    ensures 0 !in Run(h, w, es).ever
    decreases |es|
  {
    hide Track, FreeCall, ReallocCall;
    if es != [] { ZeroIsNeverHandedOut(h, Do(h, w, es[0]), es[1..]); }
  }

  lemma {:induction false} ZeroIsUnknown(h: Hash, w: World)
    requires Good(h, w) && Exact(w)
    ensures 0 !in w.ever
  {
    hide Abs;
    AbsHolds(w.table.slots);
  }

  /** With more pointers handed out than slots some verdict is wrong. */
  lemma {:induction false} TooManyIsWrong(h: Hash, w: World)
    requires Inv(h, w.table.slots) && 0 !in w.ever && |w.ever| > |w.table.slots|
    ensures !VerdictsRight(h, w) && !Exact(w)
  {
    hide Abs, VerdictRight;
    var known := Abs(w.table.slots).Keys;
    FullIsAtCapacity(h, w.table.slots);
    assert |known| == |Abs(w.table.slots)|;
    if w.ever <= known {
      SubsetSize(w.ever, known);
      assert false;
    }
    var p :| p in w.ever && p !in known;
    ForgottenIsWrong(h, w, Free(p));
  }

  /** The table knows everything, and every verdict is right, exactly as long as the program has been
      handed no more distinct pointers than the table has slots. */
  lemma {:induction false} RunIsExact(h: Hash, w: World, es: seq<Event>)
    requires Good(h, w) && Exact(w) && Lawful(h, w, es) && NoReset(es)
    ensures Exact(Run(h, w, es)) <==> |Run(h, w, es).ever| <= |w.table.slots|
    ensures VerdictsRight(h, Run(h, w, es)) <==> |Run(h, w, es).ever| <= |w.table.slots|
  {
    hide Run, Lawful, Abs, VerdictRight;
    RunIsSafe(h, w, es);
    SlotsStay(h, w, es);
    var end := Run(h, w, es);
    if |end.ever| <= |w.table.slots| {
      StaysExact(h, w, es);
      forall e | GivesBack(e) ensures VerdictRight(h, end, e) { VerdictIsExact(h, end, e); }
    } else {
      ZeroIsUnknown(h, w);
      ZeroIsNeverHandedOut(h, w, es);
      TooManyIsWrong(h, end);
    }
  }

  /** A whole program run, from the empty table: only live pointers reach the real allocator, everything
      balances at the end, and without a reset every verdict is right if and only if the table had
      room. */
  lemma {:induction false} ProgramRun(h: Hash, n: nat, es: seq<Event>)
    requires n > 0 && Lawful(h, Initially(n), es)
    ensures Good(h, Run(h, Initially(n), es)) && AllForwardsLive(h, Initially(n), es)
    ensures NoReset(es) ==> (Exact(Run(h, Initially(n), es)) <==> |Run(h, Initially(n), es).ever| <= n)
    ensures NoReset(es) ==> (VerdictsRight(h, Run(h, Initially(n), es)) <==> |Run(h, Initially(n), es).ever| <= n)
  {
    hide Good, Run, Lawful, AllForwardsLive, VerdictsRight;
    InitiallyGood(h, n);
    RunIsSafe(h, Initially(n), es);
    if NoReset(es) { RunIsExact(h, Initially(n), es); }
  }

  lemma {:induction false} SubsetSize(a: set<nat>, b: set<nat>)
    requires a <= b
    ensures |a| <= |b|
  {
    assert b == a + (b - a);
    assert |b| == |a| + |b - a|;
  }

  // ----- reports -----

  predicate NoLess(a: Table, b: Table) {
    a.allocs <= b.allocs && a.frees <= b.frees && a.doubleFrees <= b.doubleFrees &&
    a.unknownFrees <= b.unknownFrees && a.failures <= b.failures
  }

  lemma {:induction false} CountersGrow(h: Hash, w: World, es: seq<Event>)
    requires NoReset(es)
    ensures NoLess(w.table, Run(h, w, es).table)
    decreases |es|
  {
    if es != [] { CountersGrow(h, Do(h, w, es[0]), es[1..]); }
  }

  /** The report at exit is left out when the generation has not moved since the last one; then no
      counter has moved either. */
  lemma {:induction false} NothingNewToReport(h: Hash, w: World, es: seq<Event>)
    requires Good(h, w) && Lawful(h, w, es) && NoReset(es)
    requires w.table.generation == Run(h, w, es).table.generation
    ensures var now := Run(h, w, es).table;
      w.table.active == now.active && w.table.allocs == now.allocs && w.table.frees == now.frees &&
      w.table.doubleFrees == now.doubleFrees && w.table.unknownFrees == now.unknownFrees &&
      w.table.failures == now.failures
  {
    hide Run;
    RunIsSafe(h, w, es);
    CountersGrow(h, w, es);
  }
}
