/** The ledger of symbols collected from all translation units, and the hash index threaded through
    it: buckets with a head and a tail, entries with a link to the next entry of their bucket. */
module CrossTuIndex {
  import opened Options
  import opened Words
  import opened CrossTuSymbols

  type Hash = Key -> Word

  const SIZEMAX: nat := 0xFFFF_FFFF_FFFF_FFFF
  const BUCKETBYTES: nat := 16
  const FIRSTBUCKETS: nat := 64

  datatype Item = Item(def: Def, next: Option<nat>)

  datatype Bucket = Bucket(head: Option<nat>, tail: Option<nat>)

  function Defs(items: seq<Item>): (r: seq<Def>)
    ensures |r| == |items|
  {
    seq(|items|, i requires 0 <= i < |items| => items[i].def)
  }

  function BucketOf(h: Hash, key: Key, count: nat): (b: nat)
    requires count > 0
    ensures b < count
  {
    ToNat(h(key)) % count
  }

  ghost predicate IsPow2(n: nat) {
    exists k: nat :: k < 64 && n == Pow2(k)
  }

  /** `hash & (count - 1)`. */
  method CrossTuBucket(h: Hash, key: Key, count: nat) returns (b: nat)
    requires IsPow2(count)
    ensures count > 0 && b == BucketOf(h, key, count)
  {
    var hash := h(key);
    b := ToNat(And(hash, FromNat(count - 1, 64)));
    ghost var k: nat :| k < 64 && count == Pow2(k);
    MaskIsMod(hash, k);
  }

  // ----- what the links should be -----

  /** The first entry of bucket `b` at or after `from`. */
  function NextIn(h: Hash, defs: seq<Def>, count: nat, b: nat, from: nat): (r: Option<nat>)
    requires count > 0
    ensures r.Some? ==> from <= r.value < |defs| && BucketOf(h, KeyOf(defs[r.value]), count) == b
    decreases |defs| - from
  {
    if from >= |defs| then None
    else if BucketOf(h, KeyOf(defs[from]), count) == b then Some(from)
    else NextIn(h, defs, count, b, from + 1)
  }

  /** The last entry of bucket `b`. */
  function LastIn(h: Hash, defs: seq<Def>, count: nat, b: nat): (r: Option<nat>)
    requires count > 0
    ensures r.Some? ==> r.value < |defs| && BucketOf(h, KeyOf(defs[r.value]), count) == b
    decreases |defs|
  {
    if defs == [] then None
    else if BucketOf(h, KeyOf(defs[|defs| - 1]), count) == b then Some(|defs| - 1)
    else LastIn(h, defs[..|defs| - 1], count, b)
  }

  /** The first `n` entries are linked: each bucket's head and tail are its first and last entries,
      and each entry points to the next one of its bucket. */
  predicate Linked(h: Hash, items: seq<Item>, buckets: seq<Bucket>, n: nat) {
    n <= |items| &&
    var defs := Defs(items)[..n];
    var count := |buckets|;
    (forall b :: 0 <= b < count ==>
      buckets[b] == Bucket(NextIn(h, defs, count, b, 0), LastIn(h, defs, count, b))) &&
    (count > 0 ==> forall i :: 0 <= i < n ==>
      items[i].next == NextIn(h, defs, count, BucketOf(h, KeyOf(items[i].def), count), i + 1))
  }

  /** Appends `entry` to its bucket's chain. */
  method Link(h: Hash, items: seq<Item>, buckets: seq<Bucket>, entry: nat)
    returns (items1: seq<Item>, buckets1: seq<Bucket>)
    requires IsPow2(|buckets|) && entry < |items| && Linked(h, items, buckets, entry)
    ensures Defs(items1) == Defs(items) && |buckets1| == |buckets|
    ensures Linked(h, items1, buckets1, entry + 1)
  {
    var b := CrossTuBucket(h, KeyOf(items[entry].def), |buckets|);
    items1 := items[entry := items[entry].(next := None)];
    var bucket := buckets[b];
    if bucket.tail.None? {
      bucket := bucket.(head := Some(entry));
    } else {
      items1 := items1[bucket.tail.value := items1[bucket.tail.value].(next := Some(entry))];
    }
    buckets1 := buckets[b := bucket.(tail := Some(entry))];
    LinkKeeps(h, items, buckets, entry, b, items1, buckets1);
  }

  lemma {:induction false} NextInAppend(h: Hash, defs: seq<Def>, d: Def, count: nat, b: nat, from: nat)
    requires count > 0 && from <= |defs|
    ensures NextIn(h, defs + [d], count, b, from) ==
      if NextIn(h, defs, count, b, from).Some? then NextIn(h, defs, count, b, from)
      else if BucketOf(h, KeyOf(d), count) == b then Some(|defs|)
      else None
    decreases |defs| - from
  {
    hide BucketOf;
    if from < |defs| { NextInAppend(h, defs, d, count, b, from + 1); }
  }

  /** There is a next entry exactly before the last one. */
  lemma {:induction false} NextBeforeLast(h: Hash, defs: seq<Def>, count: nat, b: nat, from: nat)
    requires count > 0
    ensures NextIn(h, defs, count, b, from).Some? <==>
      LastIn(h, defs, count, b).Some? && from <= LastIn(h, defs, count, b).value
    decreases |defs|
  {
    hide BucketOf;
    if defs != [] {
      var n := |defs| - 1;
      var front := defs[..n];
      assert defs == front + [defs[n]];
      NextBeforeLast(h, front, count, b, from);
      if from <= n { NextInAppend(h, front, defs[n], count, b, from); }
    }
  }

  lemma {:induction false} LinkKeeps(
    h: Hash, items: seq<Item>, buckets: seq<Bucket>, entry: nat, b: nat, items1: seq<Item>, buckets1: seq<Bucket>)
    requires |buckets| > 0 && entry < |items| && Linked(h, items, buckets, entry)
    requires b == BucketOf(h, KeyOf(items[entry].def), |buckets|)
    requires var t := buckets[b].tail;
      var cleared := items[entry := items[entry].(next := None)];
      buckets1 == buckets[b := Bucket(if t.None? then Some(entry) else buckets[b].head, Some(entry))] &&
      (t.None? ==> items1 == cleared) &&
      (t.Some? ==> t.value < entry && items1 == cleared[t.value := cleared[t.value].(next := Some(entry))])
    ensures Defs(items1) == Defs(items)
    ensures Linked(h, items1, buckets1, entry + 1)
  {
    hide BucketOf, NextIn, LastIn;
    var count := |buckets|;
    var defs := Defs(items)[..entry];
    var d := items[entry].def;
    var defs1 := Defs(items1)[..entry + 1];
    assert Defs(items1) == Defs(items);
    assert defs1 == defs + [d] && defs1[..entry] == defs;
    forall c | 0 <= c < count
      ensures buckets1[c] == Bucket(NextIn(h, defs1, count, c, 0), LastIn(h, defs1, count, c))
    {
      NextInAppend(h, defs, d, count, c, 0);
      NextBeforeLast(h, defs, count, c, 0);
      LastInAppend(h, defs, d, count, c);
    }
    forall i | 0 <= i < entry + 1
      ensures items1[i].next == NextIn(h, defs1, count, BucketOf(h, KeyOf(items1[i].def), count), i + 1)
    {
      if i < entry {
        NextAfterLink(h, items, buckets, entry, i);
      } else {
        NextPastEnd(h, defs1, count, BucketOf(h, KeyOf(d), count));
      }
    }
  }

  /** Of the entries linked before, only the last of the new entry's bucket changes its link. */
  lemma {:induction false} NextAfterLink(h: Hash, items: seq<Item>, buckets: seq<Bucket>, entry: nat, i: nat)
    requires |buckets| > 0 && i < entry < |items| && Linked(h, items, buckets, entry)
    ensures var b := BucketOf(h, KeyOf(items[entry].def), |buckets|);
      var c := BucketOf(h, KeyOf(items[i].def), |buckets|);
      NextIn(h, Defs(items)[..entry] + [items[entry].def], |buckets|, c, i + 1)
      == if buckets[b].tail == Some(i) then Some(entry) else items[i].next
  {
    hide BucketOf, NextIn, LastIn;
    var count := |buckets|;
    var defs := Defs(items)[..entry];
    var c := BucketOf(h, KeyOf(items[i].def), count);
    assert items[i].def == defs[i];
    NextInAppend(h, defs, items[entry].def, count, c, i + 1);
    NextBeforeLast(h, defs, count, c, i + 1);
    NextBeforeLast(h, defs, count, c, i);
    StartsHere(h, defs, count, i);
  }

  lemma {:induction false} LastInAppend(h: Hash, defs: seq<Def>, d: Def, count: nat, b: nat)
    requires count > 0
    ensures LastIn(h, defs + [d], count, b) ==
      if BucketOf(h, KeyOf(d), count) == b then Some(|defs|) else LastIn(h, defs, count, b)
  {
    hide BucketOf;
    assert (defs + [d])[..|defs|] == defs;
  }

  lemma {:induction false} StartsHere(h: Hash, defs: seq<Def>, count: nat, i: nat)
    requires count > 0 && i < |defs|
    ensures NextIn(h, defs, count, BucketOf(h, KeyOf(defs[i]), count), i) == Some(i)
  {}

  lemma {:induction false} NextPastEnd(h: Hash, defs: seq<Def>, count: nat, b: nat)
    requires count > 0
    ensures NextIn(h, defs, count, b, |defs|) == None
  {}

  // ----- the chain agrees with a linear scan -----

  /** All entries for `key` from `from` on, in ledger order. */
  function Scan(defs: seq<Def>, key: Key, from: nat): seq<nat>
    decreases |defs| - from
  {
    if from >= |defs| then []
    else (if KeyOf(defs[from]) == key then [from] else []) + Scan(defs, key, from + 1)
  }

  /** Follows the links from `i`; an entry always links forward, so the walk ends. */
  function Walk(items: seq<Item>, i: Option<nat>): seq<nat>
    decreases if i.Some? && i.value < |items| then |items| - i.value else 0
  {
    if i.None? || i.value >= |items| then []
    else
      var next := items[i.value].next;
      [i.value] + if next.Some? && next.value <= i.value then [] else Walk(items, next)
  }

  /** The exact comparison the caller makes on every entry of the chain. */
  function Matching(defs: seq<Def>, key: Key, chain: seq<nat>): seq<nat> {
    if chain == [] then []
    else
      (if chain[0] < |defs| && KeyOf(defs[chain[0]]) == key then [chain[0]] else []) +
      Matching(defs, key, chain[1..])
  }

  predicate Increasing(s: seq<nat>) {
    forall i, j :: 0 <= i < j < |s| ==> s[i] < s[j]
  }

  lemma {:induction false} WalkIsScan(h: Hash, items: seq<Item>, buckets: seq<Bucket>, key: Key, from: nat)
    requires |buckets| > 0 && Linked(h, items, buckets, |items|)
    ensures var b := BucketOf(h, key, |buckets|);
      var chain := Walk(items, NextIn(h, Defs(items), |buckets|, b, from));
      Matching(Defs(items), key, chain) == Scan(Defs(items), key, from) &&
      Increasing(chain) && (forall k :: 0 <= k < |chain| ==> from <= chain[k] < |items|)
    decreases |items| - from
  {
    hide BucketOf;
    var defs := Defs(items);
    assert defs[..|items|] == defs;
    var b := BucketOf(h, key, |buckets|);
    if from < |items| {
      WalkIsScan(h, items, buckets, key, from + 1);
      if BucketOf(h, KeyOf(defs[from]), |buckets|) == b {
        var rest := Walk(items, NextIn(h, defs, |buckets|, b, from + 1));
        assert items[from].next == NextIn(h, defs, |buckets|, b, from + 1);
        assert Walk(items, Some(from)) == [from] + rest;
        assert ([from] + rest)[1..] == rest;
      }
    }
  }

  // ----- the ledger object -----

  class Ledger {
    const hash: Hash
    var items: seq<Item>
    var buckets: seq<Bucket>

    /** The bucket count is zero or a power of two not below the number of entries, and all entries
        are linked. */
    ghost predicate Valid()
      reads this
    {
      (|buckets| == 0 ==> |items| == 0) &&
      (|buckets| > 0 ==> IsPow2(|buckets|) && |items| <= |buckets|) &&
      Linked(hash, items, buckets, |items|)
    }

    function Entries(): seq<Def>
      reads this
    {
      Defs(items)
    }

    constructor (h: Hash)
      ensures Valid() && Entries() == [] && buckets == []
    {
      hash := h;
      items, buckets := [], [];
    }

    /** There are never as many entries as a `size_t` can count. */
    lemma {:induction false} FewBuckets()
      requires Valid()
      ensures |items| < SIZEMAX
    {
      if |buckets| > 0 {
        var k: nat :| k < 64 && |buckets| == Pow2(k);
        Pow2Monotone(k, 63);
        WordIsPow2();
      }
    }

    /** Makes room for one more entry, doubling and rebuilding the index when it is full. `memory`
        tells whether the allocation succeeds. A failure changes nothing. */
    method Reserve(memory: bool) returns (ok: bool)
      requires Valid()
      modifies this
      ensures Valid() && Entries() == old(Entries())
      ensures ok ==> |items| < |buckets|
      ensures |buckets| == (if !ok || old(|items| < |buckets|) then old(|buckets|)
        else if old(|buckets|) == 0 then FIRSTBUCKETS else 2 * old(|buckets|))
      ensures !ok || old(|items| < |buckets|) ==> items == old(items) && buckets == old(buckets)
      ensures ok <==> old(|items| < |buckets|) || (memory && old(|buckets|) <= SIZEMAX / BUCKETBYTES / 2)
    {
      FewBuckets();
      if |items| >= SIZEMAX { return false; }
      if |buckets| != 0 && |items| < |buckets| { return true; }
      var count := if |buckets| != 0 then |buckets| else FIRSTBUCKETS;
      if |buckets| != 0 {
        if count > SIZEMAX / 2 { return false; }
        count := count * 2;
      }
      if count > SIZEMAX / BUCKETBYTES { return false; }
      if !memory { return false; }
      CountIsPow2(count, |buckets|);
      Rebuild(count);
      return true;
    }

    /** Links every entry, in ledger order, into fresh buckets. */
    method Rebuild(count: nat)
      requires IsPow2(count) && |items| <= count
      modifies this
      ensures Linked(hash, items, buckets, |items|) && Entries() == old(Entries()) && |buckets| == count
    {
      hide BucketOf;
      var fresh1 := seq(count, _ => Bucket(None, None));
      var all, linked := items, items;
      assert Linked(hash, linked, fresh1, 0);
      for i := 0 to |all|
        invariant Defs(linked) == Defs(all) && |linked| == |all| && |fresh1| == count && Linked(hash, linked, fresh1, i)
      {
        linked, fresh1 := Link(hash, linked, fresh1, i);
      }
      items, buckets := linked, fresh1;
    }

    /** The start of the chain to search. */
    method First(key: Key) returns (i: Option<nat>)
      requires Valid()
      ensures i == if |buckets| == 0 then None
        else NextIn(hash, Entries(), |buckets|, BucketOf(hash, key, |buckets|), 0)
    {
      if |buckets| == 0 { return None; }
      var b := CrossTuBucket(hash, key, |buckets|);
      assert Defs(items)[..|items|] == Defs(items);
      return buckets[b].head;
    }

    /** Appends one symbol; `memory` and `room` tell whether the two allocations succeed. */
    method Push(def: Def, memory: bool, room: bool) returns (ok: bool)
      requires Valid()
      modifies this
      ensures Valid()
      ensures Entries() == if ok then old(Entries()) + [def] else old(Entries())
      ensures ok <==>
        room && (old(|items| < |buckets|) || (memory && old(|buckets|) <= SIZEMAX / BUCKETBYTES / 2))
    {
      hide BucketOf;
      ok := Reserve(memory);
      if !ok { return false; }
      if !room { return false; }
      var n := |items|;
      var grown := items + [Item(def, None)];
      assert Defs(grown)[..n] == Defs(items)[..n];
      items, buckets := Link(hash, grown, buckets, n);
    }

    /** All entries for `key`, found through the index: the same list as a scan of the whole ledger,
        in the same order. */
    method Lookup(key: Key) returns (found: seq<nat>)
      requires Valid()
      ensures found == Scan(Entries(), key, 0)
    {
      hide BucketOf, NextIn, Linked, Scan, Walk, Matching, IsPow2;
      found := [];
      var i := First(key);
      if |buckets| == 0 {
        NothingToScan(key);
        return;
      }
      WalkIsScan(hash, items, buckets, key, 0);
      WalkEnds(items, key);
      while i.Some?
        invariant i.Some? ==> i.value < |items|
        invariant found + Matching(Entries(), key, Walk(items, i)) == Scan(Entries(), key, 0)
        decreases if i.Some? then |items| - i.value else 0
      {
        var item := items[i.value];
        WalkStep(hash, items, buckets, key, i.value);
        if KeyOf(item.def) == key { found := found + [i.value]; }
        i := item.next;
      }
    }
  }

  lemma {:induction false} NothingToScan(key: Key)
    ensures Scan([], key, 0) == []
  {}

  lemma {:induction false} WalkEnds(items: seq<Item>, key: Key)
    ensures Matching(Defs(items), key, Walk(items, None)) == []
  {}

  lemma {:induction false} WalkStep(h: Hash, items: seq<Item>, buckets: seq<Bucket>, key: Key, i: nat)
    requires |buckets| > 0 && i < |items| && Linked(h, items, buckets, |items|)
    ensures items[i].next.Some? ==> i < items[i].next.value < |items|
    ensures Matching(Defs(items), key, Walk(items, Some(i)))
      == (if KeyOf(items[i].def) == key then [i] else []) + Matching(Defs(items), key, Walk(items, items[i].next))
  {
    var rest := Walk(items, items[i].next);
    assert Walk(items, Some(i)) == [i] + rest;
    assert ([i] + rest)[1..] == rest;
  }

  lemma {:induction false} CountIsPow2(count: nat, before: nat)
    requires (before == 0 && count == FIRSTBUCKETS) || (IsPow2(before) && count == 2 * before)
    requires count <= SIZEMAX / BUCKETBYTES
    ensures IsPow2(count)
  {
    if before == 0 {
      assert Pow2(6) == 64;
    } else {
      var k: nat :| k < 64 && before == Pow2(k);
      assert Pow2(k + 1) == count;
      WordIsPow2();
    }
  }
}
