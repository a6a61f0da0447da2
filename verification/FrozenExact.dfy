/** Exactly when freezing succeeds and exactly which snapshots verifying accepts. */
module FrozenExact {
  import opened Options
  import opened Frozen
  import opened FrozenAgree

  /** Files by identity, each in the role it plays. */
  type Held = map<string, (Role, Bytes)>

  predicate Has(m: Held, id: string, role: Role) {
    id in m && m[id].0 == role
  }

  // ----- a complete closure -----

  function ManifestIn(docs: Docs, m: Held, root: string, kind: Kind): Option<Manifest> {
    if docs.canonical(root) && Has(m, root, ManifestRole(kind)) then docs.manifest(kind, m[root].1) else None
  }

  predicate OneTo1024(values: seq<string>) {
    1 <= |values| <= 1024
  }

  /** Three manifests of one project, with lists of admissible length. */
  predicate OneProject(docs: Docs, s: Manifest, p: Manifest, h: Manifest) {
    && s.SemanticM? && p.PhysicalM? && h.HardwareM?
    && docs.nameOk(s.project) && p.project == s.project && h.project == s.project
    && OneTo1024(s.units) && OneTo1024(p.metadata) && OneTo1024(p.catalogs) && OneTo1024(h.catalogs)
  }

  /** One of the manifests names the item. */
  predicate Names(roots: Roots, s: Manifest, p: Manifest, h: Manifest, item: Item)
    requires s.SemanticM? && p.PhysicalM? && h.HardwareM?
  {
    match item
    case Meta(owner, value, SemanticMeta) => owner == roots.semantic && value in s.units
    case Meta(owner, value, UnitsMeta) => owner == roots.physical && value in p.metadata
    case Leaf(owner, value, PhysicalCatalog) => owner == roots.physical && value in p.catalogs
    case Leaf(owner, value, HardwareCatalog) => owner == roots.hardware && value in h.catalogs
    case Leaf(owner, value, Topology) => owner == roots.hardware && value == h.topology
    case _ => false
  }

  /** A source file is there and agrees with the length and the digest in its receipt. */
  predicate SourceHeld(docs: Docs, m: Held, src: Source) {
    docs.canonical(src.path) && Has(m, src.path, SourceRole) &&
    |m[src.path].1| == src.length && docs.fnv(m[src.path].1) == src.fnv
  }

  /** What the item leads to is there, in its role, and well formed. */
  predicate ItemHeld(docs: Docs, m: Held, project: string, item: Item) {
    var id := docs.normalize(item.owner, item.value);
    item.value != "" && '\\' !in item.value && docs.canonical(id) &&
    match item
    case Leaf(_, _, role) => Has(m, id, role) && docs.leafOk(role, project, m[id].1)
    case Meta(_, _, kind) =>
      Has(m, id, MetaRole(kind)) &&
      match docs.metadata(kind, m[id].1) case None => false case Some(src) => SourceHeld(docs, m, src)
  }

  ghost predicate AllHeld(docs: Docs, m: Held, roots: Roots, s: Manifest, p: Manifest, h: Manifest)
    requires s.SemanticM? && p.PhysicalM? && h.HardwareM?
  {
    forall item :: Names(roots, s, p, h, item) ==> ItemHeld(docs, m, s.project, item)
  }

  /** The manifests, all they name, and the attachments. */
  ghost predicate Complete(docs: Docs, m: Held, roots: Roots) {
    var s, p, h := ManifestIn(docs, m, roots.semantic, Semantic), ManifestIn(docs, m, roots.physical, Physical),
      ManifestIn(docs, m, roots.hardware, Hardware);
    && s.Some? && p.Some? && h.Some? && OneProject(docs, s.value, p.value, h.value)
    && AllHeld(docs, m, roots, s.value, p.value, h.value)
    && docs.canonical(roots.attachments) && Has(m, roots.attachments, Attachments)
  }

  /** The project of a complete closure. */
  function ProjectOf(docs: Docs, m: Held, roots: Roots): string
    requires ManifestIn(docs, m, roots.semantic, Semantic).Some?
  {
    ManifestIn(docs, m, roots.semantic, Semantic).value.project
  }

  /** The plan lists exactly what the manifests name. */
  lemma {:induction false} PlanIff(docs: Docs, roots: Roots, s: Manifest, p: Manifest, h: Manifest)
    ensures Plan(docs, roots, s, p, h).Some? <==> OneProject(docs, s, p, h)
    ensures Plan(docs, roots, s, p, h).Some? ==>
      forall item :: item in Plan(docs, roots, s, p, h).value <==> Names(roots, s, p, h, item)
  {
    if Plan(docs, roots, s, p, h).Some? {
      var a := seq(|s.units|, i requires 0 <= i < |s.units| => Meta(roots.semantic, s.units[i], SemanticMeta));
      var b := seq(|p.metadata|, i requires 0 <= i < |p.metadata| => Meta(roots.physical, p.metadata[i], UnitsMeta));
      var c := seq(|p.catalogs|,
        i requires 0 <= i < |p.catalogs| => Leaf(roots.physical, p.catalogs[i], PhysicalCatalog));
      var d := seq(|h.catalogs|,
        i requires 0 <= i < |h.catalogs| => Leaf(roots.hardware, h.catalogs[i], HardwareCatalog));
      var e := [Leaf(roots.hardware, h.topology, Topology)];
      assert Plan(docs, roots, s, p, h).value == a + b + c + d + e;
      forall item ensures item in a + b + c + d + e <==> Names(roots, s, p, h, item) {
        assert item in a + b + c + d + e <==> item in a || item in b || item in c || item in d || item in e;
        if Names(roots, s, p, h, item) {
          match item
          case Meta(_, value, SemanticMeta) =>
            var i :| 0 <= i < |s.units| && s.units[i] == value;
            assert a[i] == item;
          case Meta(_, value, UnitsMeta) =>
            var i :| 0 <= i < |p.metadata| && p.metadata[i] == value;
            assert b[i] == item;
          case Leaf(_, value, PhysicalCatalog) =>
            var i :| 0 <= i < |p.catalogs| && p.catalogs[i] == value;
            assert c[i] == item;
          case Leaf(_, value, HardwareCatalog) =>
            var i :| 0 <= i < |h.catalogs| && h.catalogs[i] == value;
            assert d[i] == item;
          case Leaf(_, value, Topology) => assert e[0] == item;
        }
      }
    }
  }

  // ----- a run that is served -----

  /** The files are on disk with those contents, and within the two budgets. */
  ghost predicate Affordable(disk: Contents, m: Held, order: seq<string>) {
    Listed(m, order) && |order| <= 1024 && SumLen(m, order) <= 256 * 1024 * 1024 &&
    forall id :: id in m ==> id in disk && m[id].1 == disk[id]
  }

  /** The run can be given every file of `m`. */
  ghost predicate Serves(mode: Mode, m: Held, order: seq<string>, st: State) {
    match mode
    case Verifying => st.captured == m
    case Freezing(disk) =>
      Affordable(disk, m, order) && Includes(m, st.captured) && Listed(st.captured, st.order) &&
      st.total == SumLen(st.captured, st.order)
  }

  /** A list without repetitions sums to no more than any list it is part of. */
  lemma {:induction false} SumLenSub(m: Held, a: seq<string>, b: seq<string>)
    requires NoDup(a) && forall x <- a :: x in b
    ensures SumLen(m, a) <= SumLen(m, b)
    decreases |a|
  {
    if a != [] {
      var n := |a| - 1;
      assert a[n] in b;
      var k :| 0 <= k < |b| && b[k] == a[n];
      var rest := b[..k] + b[k + 1..];
      forall x | x in a[..n] ensures x in rest {
        assert x in b && x != b[k];
      }
      SumLenSub(m, a[..n], rest);
      SumLenWithout(m, b, k);
      SumLenWithout(m, a, n);
      assert a[..n] + a[n + 1..] == a[..n];
    }
  }

  lemma {:induction false} RoomForOneMore(disk: Contents, m: Held, order: seq<string>, st: State, id: string)
    requires Serves(Freezing(disk), m, order, st) && id in m && id !in st.captured
    ensures |st.captured| < MAXFILES && st.total + |m[id].1| <= MAXTOTAL
    ensures Serves(Freezing(disk), m, order,
      State(st.order + [id], st.captured[id := m[id]], st.total + |m[id].1|, st.used))
  {
    hide SumLen, NoDup;
    AddListed(st.captured, st.order, id, m[id]);
    AddCounted(st.captured, st.order, id, m[id]);
    var more := st.order + [id];
    SumLenAgree(st.captured[id := m[id]], m, more);
    SumLenSub(m, more, order);
    FewerKeys(st.captured[id := m[id]], m);
  }

  lemma {:induction false} FewerKeys(a: Held, b: Held)
    requires a.Keys <= b.Keys
    ensures |a| <= |b|
  {
    assert b.Keys == a.Keys + (b.Keys - a.Keys);
    assert |a| == |a.Keys| && |b| == |b.Keys|;
  }

  lemma {:induction false} FetchServed(mode: Mode, m: Held, order: seq<string>, st: State, id: string, role: Role)
    requires Serves(mode, m, order, st) && Has(m, id, role)
    ensures var r := Fetch(mode, st, id, role);
      r.Some? && r.value.1 == m[id].1 && Serves(mode, m, order, r.value.0)
  {
    hide SumLen, Listed;
    if mode.Freezing? && id !in st.captured { RoomForOneMore(mode.disk, m, order, st, id); }
  }

  lemma {:induction false} ManifestServed(
    mode: Mode, docs: Docs, m: Held, order: seq<string>, st: State, root: string, kind: Kind)
    requires Serves(mode, m, order, st) && ManifestIn(docs, m, root, kind).Some?
    ensures var r := FetchManifest(mode, docs, st, root, kind);
      r.Some? && Some(r.value.1) == ManifestIn(docs, m, root, kind) && Serves(mode, m, order, r.value.0)
  {
    hide Fetch, Serves;
    FetchServed(mode, m, order, st, root, ManifestRole(kind));
  }

  lemma {:induction false} ItemServed(
    mode: Mode, docs: Docs, m: Held, order: seq<string>, project: string, st: State, item: Item)
    requires Serves(mode, m, order, st) && ItemHeld(docs, m, project, item)
    ensures var r := Follow(mode, docs, project, st, item); r.Some? && Serves(mode, m, order, r.value)
  {
    hide Fetch, Serves;
    var id := docs.normalize(item.owner, item.value);
    match item
    case Meta(_, _, kind) =>
      FetchServed(mode, m, order, st, id, MetaRole(kind));
      var st1 := Fetch(mode, st, id, MetaRole(kind)).value.0;
      FetchServed(mode, m, order, st1, docs.metadata(kind, m[id].1).value.path, SourceRole);
    case Leaf(_, _, role) => FetchServed(mode, m, order, st, id, role);
  }

  lemma {:induction false} ItemsServed(
    mode: Mode, docs: Docs, m: Held, order: seq<string>, project: string, st: State, items: seq<Item>, n: nat)
    requires n <= |items| && Serves(mode, m, order, st)
    requires forall item <- items :: ItemHeld(docs, m, project, item)
    ensures var r := FollowAll(mode, docs, project, st, items, n); r.Some? && Serves(mode, m, order, r.value)
  {
    hide Follow, Serves, ItemHeld;
    if n > 0 {
      ItemsServed(mode, docs, m, order, project, st, items, n - 1);
      ItemServed(mode, docs, m, order, project, FollowAll(mode, docs, project, st, items, n - 1).value, items[n - 1]);
    }
  }

  /** A run that is served a complete closure succeeds. */
  lemma {:induction false} DiscoverServed(
    mode: Mode, docs: Docs, m: Held, order: seq<string>, roots: Roots, st: State)
    requires Serves(mode, m, order, st) && Complete(docs, m, roots)
    ensures var r := Discover(mode, docs, roots, st); r.Some? && r.value.1 == ProjectOf(docs, m, roots)
  {
    hide Fetch, Serves, FetchManifest, FollowAll, Plan, ItemHeld, Names, OneProject, ManifestIn;
    ManifestServed(mode, docs, m, order, st, roots.semantic, Semantic);
    var (st1, s) := FetchManifest(mode, docs, st, roots.semantic, Semantic).value;
    ManifestServed(mode, docs, m, order, st1, roots.physical, Physical);
    var (st2, p) := FetchManifest(mode, docs, st1, roots.physical, Physical).value;
    ManifestServed(mode, docs, m, order, st2, roots.hardware, Hardware);
    var (st3, h) := FetchManifest(mode, docs, st2, roots.hardware, Hardware).value;
    PlanIff(docs, roots, s, p, h);
    var items := Plan(docs, roots, s, p, h).value;
    ItemsServed(mode, docs, m, order, s.project, st3, items, |items|);
    FetchServed(mode, m, order, FollowAll(mode, docs, s.project, st3, items, |items|).value, roots.attachments,
                Attachments);
  }

  // ----- a verifying run that succeeds -----

  lemma {:induction false} FetchHas(st: State, id: string, role: Role)
    requires Fetch(Verifying, st, id, role).Some?
    ensures Has(st.captured, id, role)
    ensures var (st1, raw) := Fetch(Verifying, st, id, role).value;
      st1.captured == st.captured && raw == st.captured[id].1
  {}

  lemma {:induction false} ManifestHas(docs: Docs, st: State, root: string, kind: Kind)
    requires FetchManifest(Verifying, docs, st, root, kind).Some?
    ensures var (st1, manifest) := FetchManifest(Verifying, docs, st, root, kind).value;
      st1.captured == st.captured && ManifestIn(docs, st.captured, root, kind) == Some(manifest)
  {
    hide Fetch;
    FetchHas(st, root, ManifestRole(kind));
  }

  lemma {:induction false} ItemHas(docs: Docs, project: string, st: State, item: Item)
    requires Follow(Verifying, docs, project, st, item).Some?
    ensures ItemHeld(docs, st.captured, project, item)
    ensures Follow(Verifying, docs, project, st, item).value.captured == st.captured
  {
    hide Fetch;
    var id := Resolve(docs, item.owner, item.value).value;
    match item
    case Meta(_, _, kind) =>
      FetchHas(st, id, MetaRole(kind));
      var (st1, raw) := Fetch(Verifying, st, id, MetaRole(kind)).value;
      FetchHas(st1, docs.metadata(kind, raw).value.path, SourceRole);
    case Leaf(_, _, role) => FetchHas(st, id, role);
  }

  lemma {:induction false} ItemsHave(docs: Docs, project: string, st: State, items: seq<Item>, n: nat)
    requires n <= |items| && FollowAll(Verifying, docs, project, st, items, n).Some?
    ensures forall i :: 0 <= i < n ==> ItemHeld(docs, st.captured, project, items[i])
    ensures FollowAll(Verifying, docs, project, st, items, n).value.captured == st.captured
  {
    hide Follow, ItemHeld;
    if n > 0 {
      ItemsHave(docs, project, st, items, n - 1);
      ItemHas(docs, project, FollowAll(Verifying, docs, project, st, items, n - 1).value, items[n - 1]);
    }
  }

  lemma {:induction false} DiscoverHas(docs: Docs, roots: Roots, st: State)
    requires Discover(Verifying, docs, roots, st).Some?
    ensures Complete(docs, st.captured, roots)
  {
    hide Fetch, FetchManifest, FollowAll, Plan, ItemHeld, Names, OneProject, ManifestIn;
    ManifestHas(docs, st, roots.semantic, Semantic);
    var (st1, s) := FetchManifest(Verifying, docs, st, roots.semantic, Semantic).value;
    ManifestHas(docs, st1, roots.physical, Physical);
    var (st2, p) := FetchManifest(Verifying, docs, st1, roots.physical, Physical).value;
    ManifestHas(docs, st2, roots.hardware, Hardware);
    var (st3, h) := FetchManifest(Verifying, docs, st2, roots.hardware, Hardware).value;
    PlanIff(docs, roots, s, p, h);
    var items := Plan(docs, roots, s, p, h).value;
    ItemsHave(docs, s.project, st3, items, |items|);
    FetchHas(FollowAll(Verifying, docs, s.project, st3, items, |items|).value, roots.attachments, Attachments);
  }

  // ----- freezing -----

  /** Freezing succeeds exactly if some choice of files on disk, within the budgets, is complete. */
  lemma {:induction false} CaptureIff(docs: Docs, disk: Contents, roots: Roots)
    ensures Capture(docs, disk, roots).Some? <==>
      exists m, order :: Affordable(disk, m, order) && Complete(docs, m, roots)
  {
    hide Discover, Complete, Reach, SumLen;
    if Capture(docs, disk, roots).Some? {
      var st := Capture(docs, disk, roots).value.0;
      CapturedFromDisk(docs, disk, roots);
      var replay := st.(used := {});
      DiscoverReplays(docs, disk, roots, replay);
      DiscoverHas(docs, roots, replay);
      assert Affordable(disk, st.captured, st.order);
    }
    if m, order :| Affordable(disk, m, order) && Complete(docs, m, roots) {
      assert SumLen(map[], []) == 0 by { NothingSums(); }
      assert Serves(Freezing(disk), m, order, START);
      DiscoverServed(Freezing(disk), docs, m, order, roots, START);
    }
  }

  lemma {:induction false} NothingSums()
    ensures SumLen(map[], []) == 0
  {}

  // ----- verifying -----

  /** The files an inventory stands for, after its first `n` entries. */
  function Inventory(snap: Snapshot, n: nat): Held
    requires n <= |snap.receipt.inputs|
  {
    if n == 0 then map[]
    else
      var e := snap.receipt.inputs[n - 1];
      Inventory(snap, n - 1)[e.identity := (e.role, if e.path in snap.files then snap.files[e.path] else [])]
  }

  function Lengths(snap: Snapshot, n: nat): nat
    requires n <= |snap.receipt.inputs|
  {
    if n == 0 then 0 else Lengths(snap, n - 1) + snap.receipt.inputs[n - 1].length
  }

  /** An entry that names a canonical identity for the first time and agrees with its file in path,
      length and digest. */
  predicate EntryAgrees(docs: Docs, snap: Snapshot, i: nat)
    requires i < |snap.receipt.inputs|
  {
    var e := snap.receipt.inputs[i];
    && docs.canonical(e.identity)
    && (forall j :: 0 <= j < i ==> snap.receipt.inputs[j].identity != e.identity)
    && e.path == (if e.role == SourceRole then "sources" + e.identity else "data/" + docs.idSha(e.identity) + ".json")
    && e.path in snap.files && |snap.files[e.path]| == e.length && docs.sha(snap.files[e.path]) == e.sha
  }

  predicate EntriesAgree(docs: Docs, snap: Snapshot, n: nat)
    requires n <= |snap.receipt.inputs|
  {
    forall i :: 0 <= i < n ==> EntryAgrees(docs, snap, i)
  }

  lemma {:induction false} InventoryKeys(snap: Snapshot, n: nat)
    requires n <= |snap.receipt.inputs|
    ensures forall id :: id in Inventory(snap, n) <==> exists j :: 0 <= j < n && snap.receipt.inputs[j].identity == id
  {
    if n > 0 {
      InventoryKeys(snap, n - 1);
      assert snap.receipt.inputs[n - 1].identity in Inventory(snap, n);
    }
  }

  /** The inventory is read back exactly if all entries agree with their files and the total length is
      within the budget; then it stands for those files. */
  lemma {:induction false} ReadBackIff(docs: Docs, snap: Snapshot, n: nat)
    requires n <= |snap.receipt.inputs|
    ensures ReadBack(docs, snap, n).Some? <==>
      EntriesAgree(docs, snap, n) && Lengths(snap, n) <= 256 * 1024 * 1024
    ensures ReadBack(docs, snap, n).Some? ==>
      var st := ReadBack(docs, snap, n).value;
      st.captured == Inventory(snap, n) && st.total == Lengths(snap, n) && st.used == {}
  {
    if n > 0 {
      ReadBackIff(docs, snap, n - 1);
      InventoryKeys(snap, n - 1);
      EntriesStep(docs, snap, n);
    }
  }

  lemma {:induction false} EntriesStep(docs: Docs, snap: Snapshot, n: nat)
    requires 0 < n <= |snap.receipt.inputs|
    ensures EntriesAgree(docs, snap, n) <==> EntriesAgree(docs, snap, n - 1) && EntryAgrees(docs, snap, n - 1)
  {
    hide EntryAgrees;
  }

  /** A snapshot is accepted exactly if its inventory is neither empty nor too long, agrees entry by entry
      with the files, stands for a complete closure of its project, and lists only what discovery
      reaches; then those files are what is handed out. */
  lemma {:induction false} VerifyIff(docs: Docs, snap: Snapshot)
    ensures var n, roots := |snap.receipt.inputs|, snap.receipt.roots;
      var m := Inventory(snap, n);
      Verify(docs, snap) ==
        if && 1 <= n <= 1024 && EntriesAgree(docs, snap, n) && Lengths(snap, n) <= 256 * 1024 * 1024
           && Complete(docs, m, roots) && ProjectOf(docs, m, roots) == snap.receipt.project
           && m.Keys == Reach(docs, ContentsOf(m), roots)
        then Some(m) else None
  {
    hide Discover, ReadBack, EntriesAgree, Complete, Reach, Lengths, Inventory;
    var n, roots := |snap.receipt.inputs|, snap.receipt.roots;
    var m := Inventory(snap, n);
    ReadBackIff(docs, snap, n);
    if ReadBack(docs, snap, n).Some? {
      var st := ReadBack(docs, snap, n).value;
      if Discover(Verifying, docs, roots, st).Some? {
        DiscoverHas(docs, roots, st);
        DiscoverTouches(Verifying, docs, roots, st, ContentsOf(m));
      }
      if Complete(docs, m, roots) { DiscoverServed(Verifying, docs, m, [], roots, st); }
    }
  }
}
