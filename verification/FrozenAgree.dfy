/** Verifying accepts what freezing wrote, and accepts nothing with a file too few or too many. */
module FrozenAgree {
  import opened Options
  import opened Frozen

  // ----- what discovery reaches, as a set -----

  type Contents = map<string, Bytes>

  /** The document an item names, and the source its receipt names. */
  function ItemReach(docs: Docs, c: Contents, item: Item): set<string> {
    match Resolve(docs, item.owner, item.value)
    case None => {}
    case Some(id) =>
      if item.Meta? && id in c && docs.metadata(item.kind, c[id]).Some?
      then {id, docs.metadata(item.kind, c[id]).value.path}
      else {id}
  }

  function ItemsReach(docs: Docs, c: Contents, items: seq<Item>, n: nat): set<string>
    requires n <= |items|
  {
    if n == 0 then {} else ItemsReach(docs, c, items, n - 1) + ItemReach(docs, c, items[n - 1])
  }

  function ManifestAt(docs: Docs, c: Contents, id: string, kind: Kind): Option<Manifest> {
    if id in c then docs.manifest(kind, c[id]) else None
  }

  function PlanAt(docs: Docs, c: Contents, roots: Roots): Option<seq<Item>> {
    var s, p, h := ManifestAt(docs, c, roots.semantic, Semantic), ManifestAt(docs, c, roots.physical, Physical),
      ManifestAt(docs, c, roots.hardware, Hardware);
    if s.Some? && p.Some? && h.Some? then Plan(docs, roots, s.value, p.value, h.value) else None
  }

  /** Every identity reachable from the roots through the given file contents. */
  function Reach(docs: Docs, c: Contents, roots: Roots): set<string> {
    {roots.semantic, roots.physical, roots.hardware, roots.attachments} +
    match PlanAt(docs, c, roots) case None => {} case Some(items) => ItemsReach(docs, c, items, |items|)
  }

  function Touched(mode: Mode, st: State): set<string> {
    if mode.Verifying? then st.used else st.captured.Keys
  }

  /** The contents a run sees. */
  predicate Sees(mode: Mode, st: State, c: Contents) {
    match mode
    case Verifying => c.Keys == st.captured.Keys && forall id :: id in c ==> c[id] == st.captured[id].1
    case Freezing(disk) => c == disk && forall id :: id in st.captured ==> id in disk && st.captured[id].1 == disk[id]
  }

  lemma {:induction false} FetchTouches(mode: Mode, st: State, id: string, role: Role, c: Contents)
    requires Fetch(mode, st, id, role).Some? && Sees(mode, st, c)
    ensures var (st1, raw) := Fetch(mode, st, id, role).value;
      Touched(mode, st1) == Touched(mode, st) + {id} && Sees(mode, st1, c) && id in c && raw == c[id]
  {}

  lemma {:induction false} ManifestTouches(mode: Mode, docs: Docs, st: State, root: string, kind: Kind, c: Contents)
    requires FetchManifest(mode, docs, st, root, kind).Some? && Sees(mode, st, c)
    ensures var (st1, m) := FetchManifest(mode, docs, st, root, kind).value;
      Touched(mode, st1) == Touched(mode, st) + {root} && Sees(mode, st1, c) &&
      ManifestAt(docs, c, root, kind) == Some(m)
  {
    hide Fetch, Sees;
    FetchTouches(mode, st, root, ManifestRole(kind), c);
  }

  lemma {:induction false} FollowTouches(mode: Mode, docs: Docs, project: string, st: State, item: Item, c: Contents)
    requires Follow(mode, docs, project, st, item).Some? && Sees(mode, st, c)
    ensures var st1 := Follow(mode, docs, project, st, item).value;
      Touched(mode, st1) == Touched(mode, st) + ItemReach(docs, c, item) && Sees(mode, st1, c)
  {
    hide Fetch, Sees, Touched;
    var id := Resolve(docs, item.owner, item.value).value;
    match item
    case Meta(_, _, kind) =>
      FetchTouches(mode, st, id, MetaRole(kind), c);
      var (st1, raw) := Fetch(mode, st, id, MetaRole(kind)).value;
      FetchTouches(mode, st1, docs.metadata(kind, raw).value.path, SourceRole, c);
    case Leaf(_, _, role) => FetchTouches(mode, st, id, role, c);
  }

  lemma {:induction false} FollowAllTouches(
    mode: Mode, docs: Docs, project: string, st: State, items: seq<Item>, n: nat, c: Contents)
    requires n <= |items| && FollowAll(mode, docs, project, st, items, n).Some? && Sees(mode, st, c)
    ensures var st1 := FollowAll(mode, docs, project, st, items, n).value;
      Touched(mode, st1) == Touched(mode, st) + ItemsReach(docs, c, items, n) && Sees(mode, st1, c)
  {
    hide Follow, Sees, Touched, ItemReach;
    if n > 0 {
      FollowAllTouches(mode, docs, project, st, items, n - 1, c);
      FollowTouches(mode, docs, project, FollowAll(mode, docs, project, st, items, n - 1).value, items[n - 1], c);
    }
  }

  lemma {:induction false} ManifestsTouch(mode: Mode, docs: Docs, roots: Roots, st: State, c: Contents)
    requires ReadManifests(mode, docs, roots, st).Some? && Sees(mode, st, c)
    ensures var m := ReadManifests(mode, docs, roots, st).value;
      Touched(mode, m.st) == Touched(mode, st) + {roots.semantic, roots.physical, roots.hardware} &&
      Sees(mode, m.st, c) &&
      PlanAt(docs, c, roots) == Plan(docs, roots, m.semantic, m.physical, m.hardware)
  {
    hide FetchManifest, Sees, Touched, ManifestAt, Plan;
    ManifestTouches(mode, docs, st, roots.semantic, Semantic, c);
    var (st1, _) := FetchManifest(mode, docs, st, roots.semantic, Semantic).value;
    ManifestTouches(mode, docs, st1, roots.physical, Physical, c);
    var (st2, _) := FetchManifest(mode, docs, st1, roots.physical, Physical).value;
    ManifestTouches(mode, docs, st2, roots.hardware, Hardware, c);
  }

  /** Discovery uses or captures exactly the reachable identities, whichever way it runs. */
  lemma {:induction false} DiscoverTouches(mode: Mode, docs: Docs, roots: Roots, st: State, c: Contents)
    requires Discover(mode, docs, roots, st).Some? && Sees(mode, st, c)
    ensures var (st1, _) := Discover(mode, docs, roots, st).value;
      Touched(mode, st1) == Touched(mode, st) + Reach(docs, c, roots)
  {
    hide Fetch, Sees, Touched, ReadManifests, FollowAll, PlanAt, ItemsReach, Plan;
    ManifestsTouch(mode, docs, roots, st, c);
    var m := ReadManifests(mode, docs, roots, st).value;
    var items := Plan(docs, roots, m.semantic, m.physical, m.hardware).value;
    FollowAllTouches(mode, docs, m.semantic.project, m.st, items, |items|, c);
    var st1 := FollowAll(mode, docs, m.semantic.project, m.st, items, |items|).value;
    FetchTouches(mode, st1, roots.attachments, Attachments, c);
  }

  // ----- freezing keeps its books -----

  predicate NoDup(s: seq<string>) {
    forall i, j :: 0 <= i < j < |s| ==> s[i] != s[j]
  }

  function SumLen(captured: map<string, (Role, Bytes)>, order: seq<string>): nat {
    if order == [] then 0
    else
      var id := order[|order| - 1];
      SumLen(captured, order[..|order| - 1]) + if id in captured then |captured[id].1| else 0
  }

  /** Each captured file is listed once, has a canonical identity and is counted. */
  ghost predicate Books(docs: Docs, st: State) {
    Listed(st.captured, st.order) && |st.order| <= MAXFILES &&
    (forall id :: id in st.captured ==> docs.canonical(id)) &&
    st.total == SumLen(st.captured, st.order) <= MAXTOTAL
  }

  ghost predicate Listed(captured: map<string, (Role, Bytes)>, order: seq<string>) {
    NoDup(order) && |captured| == |order| && forall id :: id in captured <==> id in order
  }

  ghost predicate Includes(big: map<string, (Role, Bytes)>, small: map<string, (Role, Bytes)>) {
    forall id :: id in small ==> id in big && big[id] == small[id]
  }

  /** A verifying run in step with a freezing one, over everything that is captured in the end. */
  ghost predicate InStep(sf: State, sv: State) {
    sv.used == sf.captured.Keys && Includes(sv.captured, sf.captured)
  }

  lemma {:induction false} SumLenAgree(a: map<string, (Role, Bytes)>, b: map<string, (Role, Bytes)>, order: seq<string>)
    requires forall id <- order :: id in a && id in b && a[id] == b[id]
    ensures SumLen(a, order) == SumLen(b, order)
  {
    if order != [] {
      assert order[|order| - 1] in order;
      SumLenAgree(a, b, order[..|order| - 1]);
    }
  }

  lemma {:induction false} AddKeepsBooks(docs: Docs, st: State, id: string, entry: (Role, Bytes))
    requires Books(docs, st) && docs.canonical(id) && id !in st.captured
    requires |st.captured| < MAXFILES && st.total + |entry.1| <= MAXTOTAL
    ensures Books(docs, State(st.order + [id], st.captured[id := entry], st.total + |entry.1|, st.used))
  {
    hide Listed, SumLen, NoDup;
    AddListed(st.captured, st.order, id, entry);
    AddCounted(st.captured, st.order, id, entry);
  }

  lemma {:induction false} AddListed(
    captured: map<string, (Role, Bytes)>, order: seq<string>, id: string, entry: (Role, Bytes))
    requires Listed(captured, order) && id !in captured
    ensures Listed(captured[id := entry], order + [id]) && |captured| == |order|
  {
    assert captured[id := entry].Keys == captured.Keys + {id};
    assert |captured[id := entry]| == |captured[id := entry].Keys| && |captured| == |captured.Keys|;
  }

  lemma {:induction false} AddCounted(
    captured: map<string, (Role, Bytes)>, order: seq<string>, id: string, entry: (Role, Bytes))
    requires Listed(captured, order) && id !in captured
    ensures SumLen(captured[id := entry], order + [id]) == SumLen(captured, order) + |entry.1|
  {
    assert (order + [id])[..|order|] == order;
    SumLenAgree(captured, captured[id := entry], order);
  }

  lemma {:induction false} FetchKeepsBooks(docs: Docs, disk: Contents, st: State, id: string, role: Role)
    requires Books(docs, st) && docs.canonical(id) && Fetch(Freezing(disk), st, id, role).Some?
    ensures var st1 := Fetch(Freezing(disk), st, id, role).value.0;
      Books(docs, st1) && Includes(st1.captured, st.captured)
  {
    hide Books;
    if id !in st.captured { AddKeepsBooks(docs, st, id, (role, disk[id])); }
  }

  /** A fetch that succeeds while freezing succeeds, with the same answer, while verifying. */
  lemma {:induction false} FetchInStep(disk: Contents, sf: State, sv: State, id: string, role: Role)
    requires Fetch(Freezing(disk), sf, id, role).Some? && InStep(sf, sv)
    requires Includes(sv.captured, Fetch(Freezing(disk), sf, id, role).value.0.captured)
    ensures Fetch(Verifying, sv, id, role).Some?
    ensures var (sf1, raw) := Fetch(Freezing(disk), sf, id, role).value;
      var (sv1, raw1) := Fetch(Verifying, sv, id, role).value;
      InStep(sf1, sv1) && raw1 == raw && sv1.captured == sv.captured
  {
    var sf1 := Fetch(Freezing(disk), sf, id, role).value.0;
    assert id in sf1.captured;
  }

  lemma {:induction false} ManifestInStep(docs: Docs, disk: Contents, sf: State, root: string, kind: Kind, sv: State)
    requires Books(docs, sf) && FetchManifest(Freezing(disk), docs, sf, root, kind).Some?
    ensures var (sf1, m) := FetchManifest(Freezing(disk), docs, sf, root, kind).value;
      Books(docs, sf1) && Includes(sf1.captured, sf.captured) &&
      (InStep(sf, sv) && Includes(sv.captured, sf1.captured) ==>
        var r := FetchManifest(Verifying, docs, sv, root, kind);
        r.Some? && r.value.1 == m && InStep(sf1, r.value.0) && r.value.0.captured == sv.captured)
  {
    hide Fetch, Books, Includes, InStep;
    FetchKeepsBooks(docs, disk, sf, root, ManifestRole(kind));
    var sf1 := FetchManifest(Freezing(disk), docs, sf, root, kind).value.0;
    if InStep(sf, sv) && Includes(sv.captured, sf1.captured) {
      FetchInStep(disk, sf, sv, root, ManifestRole(kind));
    }
  }

  lemma {:induction false} IncludesTransitive(
    a: map<string, (Role, Bytes)>, b: map<string, (Role, Bytes)>, c: map<string, (Role, Bytes)>)
    requires Includes(a, b) && Includes(b, c)
    ensures Includes(a, c)
  {}

  /** What every stage of discovery does: keeps the books, only adds, and can be replayed. */
  ghost predicate Replays(docs: Docs, sf: State, sf1: State, sv: State, r: Option<State>) {
    Books(docs, sf1) && Includes(sf1.captured, sf.captured) &&
    (InStep(sf, sv) && Includes(sv.captured, sf1.captured) ==>
      r.Some? && InStep(sf1, r.value) && r.value.captured == sv.captured)
  }

  lemma {:induction false} MetaInStep(docs: Docs, disk: Contents, sf: State, id: string, kind: MetaKind, sv: State)
    requires Books(docs, sf) && docs.canonical(id) && FollowMeta(Freezing(disk), docs, sf, id, kind).Some?
    ensures Replays(docs, sf, FollowMeta(Freezing(disk), docs, sf, id, kind).value, sv,
      FollowMeta(Verifying, docs, sv, id, kind))
  {
    hide Fetch, Books, Includes, InStep, ReceiptOk;
    FetchKeepsBooks(docs, disk, sf, id, MetaRole(kind));
    var (sf1, raw) := Fetch(Freezing(disk), sf, id, MetaRole(kind)).value;
    var path := docs.metadata(kind, raw).value.path;
    FetchKeepsBooks(docs, disk, sf1, path, SourceRole);
    var (sf2, raw2) := Fetch(Freezing(disk), sf1, path, SourceRole).value;
    IncludesTransitive(sf2.captured, sf1.captured, sf.captured);
    if InStep(sf, sv) && Includes(sv.captured, sf2.captured) {
      IncludesTransitive(sv.captured, sf2.captured, sf1.captured);
      FetchInStep(disk, sf, sv, id, MetaRole(kind));
      var (sv1, _) := Fetch(Verifying, sv, id, MetaRole(kind)).value;
      FetchInStep(disk, sf1, sv1, path, SourceRole);
    }
  }

  lemma {:induction false} LeafInStep(
    docs: Docs, disk: Contents, project: string, sf: State, id: string, role: Role, sv: State)
    requires Books(docs, sf) && docs.canonical(id) && FollowLeaf(Freezing(disk), docs, project, sf, id, role).Some?
    ensures Replays(docs, sf, FollowLeaf(Freezing(disk), docs, project, sf, id, role).value, sv,
      FollowLeaf(Verifying, docs, project, sv, id, role))
  {
    hide Fetch, Books, Includes, InStep;
    FetchKeepsBooks(docs, disk, sf, id, role);
    var (sf1, raw) := Fetch(Freezing(disk), sf, id, role).value;
    if InStep(sf, sv) && Includes(sv.captured, sf1.captured) { FetchInStep(disk, sf, sv, id, role); }
  }

  lemma {:induction false} FollowInStep(docs: Docs, disk: Contents, project: string, sf: State, item: Item, sv: State)
    requires Books(docs, sf) && Follow(Freezing(disk), docs, project, sf, item).Some?
    ensures Replays(docs, sf, Follow(Freezing(disk), docs, project, sf, item).value, sv,
      Follow(Verifying, docs, project, sv, item))
  {
    hide FollowMeta, FollowLeaf, Replays, Books;
    var id := Resolve(docs, item.owner, item.value).value;
    match item
    case Meta(_, _, kind) => MetaInStep(docs, disk, sf, id, kind, sv);
    case Leaf(_, _, role) => LeafInStep(docs, disk, project, sf, id, role, sv);
  }

  lemma {:induction false} FollowAllInStep(
    docs: Docs, disk: Contents, project: string, sf: State, items: seq<Item>, n: nat, sv: State)
    requires Books(docs, sf) && n <= |items| && FollowAll(Freezing(disk), docs, project, sf, items, n).Some?
    ensures Replays(docs, sf, FollowAll(Freezing(disk), docs, project, sf, items, n).value, sv,
      FollowAll(Verifying, docs, project, sv, items, n))
  {
    hide Follow, Books, InStep;
    if n > 0 {
      FollowAllInStep(docs, disk, project, sf, items, n - 1, sv);
      var sf1 := FollowAll(Freezing(disk), docs, project, sf, items, n - 1).value;
      var sf2 := FollowAll(Freezing(disk), docs, project, sf, items, n).value;
      FollowInStep(docs, disk, project, sf1, items[n - 1], sv);
      if InStep(sf, sv) && Includes(sv.captured, sf2.captured) {
        IncludesTransitive(sv.captured, sf2.captured, sf1.captured);
        var sv1 := FollowAll(Verifying, docs, project, sv, items, n - 1).value;
        FollowInStep(docs, disk, project, sf1, items[n - 1], sv1);
      }
    }
  }

  lemma {:induction false} ManifestsInStep(docs: Docs, disk: Contents, roots: Roots, sf: State, sv: State)
    requires Books(docs, sf) && ReadManifests(Freezing(disk), docs, roots, sf).Some?
    ensures var m := ReadManifests(Freezing(disk), docs, roots, sf).value;
      var r := ReadManifests(Verifying, docs, roots, sv);
      Replays(docs, sf, m.st, sv, if r.None? then None else Some(r.value.st)) &&
      (InStep(sf, sv) && Includes(sv.captured, m.st.captured) ==> r.Some? && r.value.(st := m.st) == m)
  {
    hide FetchManifest, Books, InStep;
    var mode := Freezing(disk);
    ManifestInStep(docs, disk, sf, roots.semantic, Semantic, sv);
    var (sf1, s) := FetchManifest(mode, docs, sf, roots.semantic, Semantic).value;
    ManifestInStep(docs, disk, sf1, roots.physical, Physical, sv);
    var (sf2, p) := FetchManifest(mode, docs, sf1, roots.physical, Physical).value;
    ManifestInStep(docs, disk, sf2, roots.hardware, Hardware, sv);
    var sf3 := FetchManifest(mode, docs, sf2, roots.hardware, Hardware).value.0;
    if InStep(sf, sv) && Includes(sv.captured, sf3.captured) {
      var sv1 := FetchManifest(Verifying, docs, sv, roots.semantic, Semantic).value.0;
      ManifestInStep(docs, disk, sf1, roots.physical, Physical, sv1);
      var sv2 := FetchManifest(Verifying, docs, sv1, roots.physical, Physical).value.0;
      ManifestInStep(docs, disk, sf2, roots.hardware, Hardware, sv2);
    }
  }

  /** Discovery replayed over what it captured takes the same course and uses all of it. */
  lemma {:induction false} DiscoverReplays(docs: Docs, disk: Contents, roots: Roots, sv: State)
    requires Capture(docs, disk, roots).Some?
    ensures var (sf, project) := Capture(docs, disk, roots).value;
      Books(docs, sf) &&
      (sv.used == {} && sv.captured == sf.captured ==>
        var r := Discover(Verifying, docs, roots, sv);
        r.Some? && r.value.1 == project && r.value.0.used == sf.captured.Keys)
  {
    hide Fetch, ReadManifests, FollowAll, Plan;
    var mode := Freezing(disk);
    assert Books(docs, START);
    ManifestsInStep(docs, disk, roots, START, sv);
    var m := ReadManifests(mode, docs, roots, START).value;
    var items := Plan(docs, roots, m.semantic, m.physical, m.hardware).value;
    var project := m.semantic.project;
    FollowAllInStep(docs, disk, project, m.st, items, |items|, sv);
    var sf1 := FollowAll(mode, docs, project, m.st, items, |items|).value;
    FetchKeepsBooks(docs, disk, sf1, roots.attachments, Attachments);
    var sf2 := Fetch(mode, sf1, roots.attachments, Attachments).value.0;
    if sv.used == {} && sv.captured == sf2.captured {
      hide Books;
      IncludesTransitive(sf2.captured, sf1.captured, m.st.captured);
      var m1 := ReadManifests(Verifying, docs, roots, sv).value;
      FollowAllInStep(docs, disk, project, m.st, items, |items|, m1.st);
      var sv1 := FollowAll(Verifying, docs, project, m1.st, items, |items|).value;
      FetchInStep(disk, sf1, sv1, roots.attachments, Attachments);
    }
  }

  // ----- writing out and reading back -----

  /** No two of the given identities have the same digest. */
  predicate CollisionFree(docs: Docs, ids: set<string>) {
    forall a, b :: a in ids && b in ids && docs.idSha(a) == docs.idSha(b) ==> a == b
  }

  predicate SharePath(docs: Docs, captured: map<string, (Role, Bytes)>, a: string, b: string)
    requires a in captured && b in captured
  {
    LocalPath(docs, a, captured[a].0) == LocalPath(docs, b, captured[b].0)
  }

  /** Captured files that share a local path have the same bytes. */
  predicate PathsAgree(docs: Docs, captured: map<string, (Role, Bytes)>) {
    forall a, b :: a in captured && b in captured && SharePath(docs, captured, a, b) ==> captured[a].1 == captured[b].1
  }

  lemma {:induction false} LocalPathInjective(docs: Docs, ids: set<string>, a: string, ra: Role, b: string, rb: Role)
    requires CollisionFree(docs, ids) && a in ids && b in ids && LocalPath(docs, a, ra) == LocalPath(docs, b, rb)
    ensures a == b
  {
    var pa, pb := LocalPath(docs, a, ra), LocalPath(docs, b, rb);
    assert pa[0] == pb[0];
    if ra.SourceRole? {
      assert pa[7..] == a && pb[7..] == b;
    } else {
      assert pa[5..|pa| - 5] == docs.idSha(a) && pb[5..|pb| - 5] == docs.idSha(b);
    }
  }

  /** Every entry describes its identity, and a file is written at its path. */
  lemma {:induction false} EntriesWritten(docs: Docs, captured: map<string, (Role, Bytes)>, order: seq<string>)
    requires forall id <- order :: id in captured
    ensures var (entries, files) := WriteOut(docs, captured, order);
      |entries| == |order| &&
      forall i :: 0 <= i < |order| ==>
        var (role, raw) := captured[order[i]];
        var path := LocalPath(docs, order[i], role);
        entries[i] == Entry(order[i], role, path, docs.sha(raw), |raw|) && path in files
    decreases |order|
  {
    hide LocalPath;
    if order != [] {
      var front := order[..|order| - 1];
      EntriesWritten(docs, captured, front);
      forall i | 0 <= i < |front| ensures front[i] == order[i] {}
    }
  }

  /** Where shared paths agree, every file written is still there at the end. */
  lemma {:induction false} FilesWritten(docs: Docs, captured: map<string, (Role, Bytes)>, order: seq<string>)
    requires PathsAgree(docs, captured) && forall id <- order :: id in captured
    ensures var files := WriteOut(docs, captured, order).1;
      forall i :: 0 <= i < |order| ==>
        var path := LocalPath(docs, order[i], captured[order[i]].0);
        path in files && files[path] == captured[order[i]].1
    decreases |order|
  {
    hide LocalPath;
    if order != [] {
      var front := order[..|order| - 1];
      FilesWritten(docs, captured, front);
      forall i | 0 <= i < |front| ensures front[i] == order[i] {}
    }
  }

  lemma {:induction false} SumLenPrefix(captured: map<string, (Role, Bytes)>, order: seq<string>, n: nat)
    requires n <= |order|
    ensures SumLen(captured, order[..n]) <= SumLen(captured, order)
    decreases |order|
  {
    if n == |order| {
      assert order[..n] == order;
    } else {
      SumLenPrefix(captured, order[..|order| - 1], n);
      assert order[..|order| - 1][..n] == order[..n];
    }
  }

  lemma {:induction false} SumLenWithout(captured: map<string, (Role, Bytes)>, order: seq<string>, k: nat)
    requires k < |order|
    ensures SumLen(captured, order) == SumLen(captured, order[..k] + order[k + 1..]) + SumLen(captured, [order[k]])
    decreases |order|
  {
    var n := |order| - 1;
    var rest := order[..k] + order[k + 1..];
    assert [order[k]][..0] == [];
    if k == n {
      assert rest == order[..n];
    } else {
      SumLenWithout(captured, order[..n], k);
      assert rest[..|rest| - 1] == order[..n][..k] + order[..n][k + 1..];
      assert rest[|rest| - 1] == order[n];
    }
  }

  /** The total does not depend on the order. */
  lemma {:induction false} SumLenPermutes(captured: map<string, (Role, Bytes)>, a: seq<string>, b: seq<string>)
    requires multiset(a) == multiset(b)
    ensures SumLen(captured, a) == SumLen(captured, b)
    decreases |a|
  {
    if a == [] {
      assert |multiset(b)| == 0;
    } else {
      var n := |a| - 1;
      Without(a, n);
      assert a[..n] + a[n + 1..] == a[..n];
      assert a[n] in multiset(b);
      var k :| 0 <= k < |b| && b[k] == a[n];
      Without(b, k);
      SumLenPermutes(captured, a[..n], b[..k] + b[k + 1..]);
      SumLenWithout(captured, b, k);
      SumLenWithout(captured, a, n);
    }
  }

  lemma {:induction false} Without(s: seq<string>, k: nat)
    requires k < |s|
    ensures multiset(s[..k] + s[k + 1..]) == multiset(s) - multiset{s[k]}
  {
    assert s == s[..k] + [s[k]] + s[k + 1..];
  }

  lemma {:induction false} NoDupPermutes(a: seq<string>, b: seq<string>)
    requires multiset(a) == multiset(b) && NoDup(a)
    ensures NoDup(b)
  {
    forall i, j | 0 <= i < j < |b| ensures b[i] != b[j] {
      if b[i] == b[j] {
        assert b == b[..i] + [b[i]] + b[i + 1..j] + [b[j]] + b[j + 1..];
        assert multiset(b)[b[i]] >= 2;
        NoDupCount(a, b[i]);
      }
    }
  }

  lemma {:induction false} NoDupCount(a: seq<string>, x: string)
    requires NoDup(a)
    ensures multiset(a)[x] <= 1
    decreases |a|
  {
    if a != [] {
      var n := |a| - 1;
      assert a == a[..n] + [a[n]];
      NoDupCount(a[..n], x);
      if a[n] == x { assert x !in a[..n]; }
    }
  }

  ghost predicate Restricts(small: map<string, (Role, Bytes)>, big: map<string, (Role, Bytes)>, keys: seq<string>) {
    (forall id :: id in small <==> id in keys) && forall id <- keys :: id in small && id in big && small[id] == big[id]
  }

  lemma {:induction false} EntryReadsBack(
    docs: Docs, files: Contents, st: State, captured: map<string, (Role, Bytes)>, seen: seq<string>, id: string)
    requires Restricts(st.captured, captured, seen) && id in captured && id !in seen && docs.canonical(id)
    requires st.total + |captured[id].1| <= MAXTOTAL
    requires LocalPath(docs, id, captured[id].0) in files
    requires files[LocalPath(docs, id, captured[id].0)] == captured[id].1
    ensures var (role, raw) := captured[id];
      var r := ReadEntry(docs, files, st, Entry(id, role, LocalPath(docs, id, role), docs.sha(raw), |raw|));
      r.Some? && r.value.used == {} && r.value.total == st.total + |raw| &&
      Restricts(r.value.captured, captured, seen + [id])
  {
    hide LocalPath;
  }

  /** Reading back gives what was captured. */
  lemma {:induction false} ReadsBack(docs: Docs, found: (State, string), roots: Roots, order: seq<string>, n: nat)
    requires PathsAgree(docs, found.0.captured) && NoDup(order) && n <= |order|
    requires forall id <- order :: id in found.0.captured && docs.canonical(id)
    requires SumLen(found.0.captured, order) <= MAXTOTAL
    ensures var snap := Freeze(docs, roots, found, order);
      |snap.receipt.inputs| == |order| &&
      var r := ReadBack(docs, snap, n);
      r.Some? && r.value.used == {} && Restricts(r.value.captured, found.0.captured, order[..n]) &&
      r.value.total == SumLen(found.0.captured, order[..n])
    decreases n
  {
    hide LocalPath, WriteOut, PathsAgree, Restricts, ReadEntry, NoDup;
    var captured := found.0.captured;
    EntriesWritten(docs, captured, order);
    FilesWritten(docs, captured, order);
    var snap := Freeze(docs, roots, found, order);
    if n == 0 {
      assert Restricts(map[], captured, []) by { NothingRestricts(captured); }
    } else {
      ReadsBack(docs, found, roots, order, n - 1);
      var id := order[n - 1];
      assert order[..n] == order[..n - 1] + [id] && order[..n][..n - 1] == order[..n - 1];
      SumLenPrefix(captured, order, n);
      NoDupPrefix(order, n - 1);
      EntryReadsBack(docs, snap.files, ReadBack(docs, snap, n - 1).value, captured, order[..n - 1], id);
    }
  }

  lemma {:induction false} NoDupPrefix(order: seq<string>, n: nat)
    requires NoDup(order) && n < |order|
    ensures order[n] !in order[..n]
  {}

  lemma {:induction false} NothingRestricts(captured: map<string, (Role, Bytes)>)
    ensures Restricts(map[], captured, [])
  {}

  /** A snapshot written where shared paths agree is accepted, and gives back what was captured. */
  lemma {:induction false} AgreeingPathsVerify(docs: Docs, disk: Contents, roots: Roots, order: seq<string>)
    requires Capture(docs, disk, roots).Some? && Enumerates(order, Capture(docs, disk, roots).value.0)
    requires PathsAgree(docs, Capture(docs, disk, roots).value.0.captured)
    ensures var found := Capture(docs, disk, roots).value;
      (forall id <- order :: id in found.0.captured) &&
      Verify(docs, Freeze(docs, roots, found, order)) == Some(found.0.captured)
  {
    hide Discover, WriteOut, ReadBack, LocalPath, SumLen, PathsAgree, Reach, ReadEntry;
    var found := Capture(docs, disk, roots).value;
    var st := found.0;
    DiscoverReplays(docs, disk, roots, st);
    SameElements(st.order, order);
    NoDupPermutes(st.order, order);
    SumLenPermutes(st.captured, st.order, order);
    ReadsBack(docs, found, roots, order, |order|);
    assert order[..|order|] == order;
    var snap := Freeze(docs, roots, found, order);
    var back := ReadBack(docs, snap, |order|).value;
    assert back.captured == st.captured;
    DiscoverReplays(docs, disk, roots, back);
    CapturedFromDisk(docs, disk, roots);
    RootsReached(docs, disk, roots);
  }

  /** Reading back gives each identity the bytes at its path. */
  lemma {:induction false} ReadBackGives(docs: Docs, snap: Snapshot, n: nat)
    requires n <= |snap.receipt.inputs| && ReadBack(docs, snap, n).Some?
    ensures var captured := ReadBack(docs, snap, n).value.captured;
      forall i :: 0 <= i < n ==>
        var e := snap.receipt.inputs[i];
        e.identity in captured && e.path in snap.files && captured[e.identity] == (e.role, snap.files[e.path])
  {
    hide LocalPath;
    if n > 0 { ReadBackGives(docs, snap, n - 1); }
  }

  /** Verifying accepts what freezing wrote, in whatever order, and hands out the same bytes in the same
      roles under the same identities, exactly when files that share a local path have the same
      bytes. */
  lemma {:induction false} VerifyAcceptsFreezeIff(docs: Docs, disk: Contents, roots: Roots, order: seq<string>)
    requires Capture(docs, disk, roots).Some? && Enumerates(order, Capture(docs, disk, roots).value.0)
    ensures forall id <- order :: id in Capture(docs, disk, roots).value.0.captured
    ensures var found := Capture(docs, disk, roots).value;
      var verified := Verify(docs, Freeze(docs, roots, found, order));
      verified == Some(found.0.captured) <==> PathsAgree(docs, found.0.captured)
  {
    hide Discover, WriteOut, ReadBack, PathsAgree, Listed, NoDup, SumLen;
    var found := Capture(docs, disk, roots).value;
    var captured := found.0.captured;
    DiscoverReplays(docs, disk, roots, found.0);
    EnumeratesCaptured(docs, found.0, order);
    var snap := Freeze(docs, roots, found, order);
    if PathsAgree(docs, captured) {
      AgreeingPathsVerify(docs, disk, roots, order);
    } else if Verify(docs, snap) == Some(captured) {
      AcceptedPathsAgree(docs, found, roots, order);
    }
  }

  lemma {:induction false} EnumeratesCaptured(docs: Docs, st: State, order: seq<string>)
    requires Books(docs, st) && Enumerates(order, st)
    ensures forall id :: id in st.captured <==> id in order
  {
    SameElements(st.order, order);
  }

  lemma {:induction false} AcceptedPathsAgree(docs: Docs, found: (State, string), roots: Roots, order: seq<string>)
    requires forall id :: id in found.0.captured <==> id in order
    requires Verify(docs, Freeze(docs, roots, found, order)) == Some(found.0.captured)
    ensures PathsAgree(docs, found.0.captured)
  {
    hide Discover, WriteOut, ReadBack, LocalPath;
    var captured := found.0.captured;
    var snap := Freeze(docs, roots, found, order);
    EntriesWritten(docs, captured, order);
    ReadBackGives(docs, snap, |order|);
    forall id | id in captured
      ensures LocalPath(docs, id, captured[id].0) in snap.files
      ensures captured[id].1 == snap.files[LocalPath(docs, id, captured[id].0)]
    {
      var i :| 0 <= i < |order| && order[i] == id;
      assert snap.receipt.inputs[i].identity == id;
    }
  }

  /** No digest collision among the identities reached is enough. */
  lemma {:induction false} VerifyAcceptsFreeze(docs: Docs, disk: Contents, roots: Roots, order: seq<string>)
    requires Capture(docs, disk, roots).Some? && Enumerates(order, Capture(docs, disk, roots).value.0)
    requires CollisionFree(docs, Reach(docs, disk, roots))
    ensures var found := Capture(docs, disk, roots).value;
      (forall id <- order :: id in found.0.captured) &&
      Verify(docs, Freeze(docs, roots, found, order)) == Some(found.0.captured) &&
      forall id :: id in found.0.captured ==> id in disk && found.0.captured[id].1 == disk[id]
  {
    hide Capture, Verify, Freeze, LocalPath, Reach, CollisionFree, Enumerates;
    CapturedFromDisk(docs, disk, roots);
    var captured := Capture(docs, disk, roots).value.0.captured;
    forall a, b | a in captured && b in captured && SharePath(docs, captured, a, b)
      ensures captured[a].1 == captured[b].1
    {
      LocalPathInjective(docs, Reach(docs, disk, roots), a, captured[a].0, b, captured[b].0);
    }
    VerifyAcceptsFreezeIff(docs, disk, roots, order);
  }

  lemma {:induction false} RootsReached(docs: Docs, c: Contents, roots: Roots)
    ensures roots.semantic in Reach(docs, c, roots)
  {}

  lemma {:induction false} SameElements(a: seq<string>, b: seq<string>)
    requires multiset(a) == multiset(b)
    ensures |a| == |b| && forall x :: x in a <==> x in b
  {
    assert |multiset(a)| == |a| && |multiset(b)| == |b|;
    forall x ensures x in a <==> x in b {
      assert x in a <==> x in multiset(a);
      assert x in b <==> x in multiset(b);
    }
  }

  /** Freezing captures exactly what is reachable on disk, with the contents on disk. */
  lemma {:induction false} CapturedFromDisk(docs: Docs, disk: Contents, roots: Roots)
    requires Capture(docs, disk, roots).Some?
    ensures var st := Capture(docs, disk, roots).value.0;
      st.captured.Keys == Reach(docs, disk, roots) &&
      forall id :: id in st.captured ==> id in disk && st.captured[id].1 == disk[id]
  {
    hide Reach;
    DiscoverTouches(Freezing(disk), docs, roots, START, disk);
    DiscoverSees(Freezing(disk), docs, roots, START, disk);
  }

  lemma {:induction false} DiscoverSees(mode: Mode, docs: Docs, roots: Roots, st: State, c: Contents)
    requires Discover(mode, docs, roots, st).Some? && Sees(mode, st, c)
    ensures Sees(mode, Discover(mode, docs, roots, st).value.0, c)
  {
    hide Fetch, Sees, Touched, ReadManifests, FollowAll, PlanAt, ItemsReach, Plan;
    ManifestsTouch(mode, docs, roots, st, c);
    var m := ReadManifests(mode, docs, roots, st).value;
    var items := Plan(docs, roots, m.semantic, m.physical, m.hardware).value;
    FollowAllTouches(mode, docs, m.semantic.project, m.st, items, |items|, c);
    var st1 := FollowAll(mode, docs, m.semantic.project, m.st, items, |items|).value;
    FetchTouches(mode, st1, roots.attachments, Attachments, c);
  }

  /** The contents of an accepted snapshot. */
  function ContentsOf(captured: map<string, (Role, Bytes)>): Contents {
    map id | id in captured :: captured[id].1
  }

  lemma {:induction false} InventoryIsCaptured(docs: Docs, snap: Snapshot, n: nat)
    requires n <= |snap.receipt.inputs| && ReadBack(docs, snap, n).Some?
    ensures var st := ReadBack(docs, snap, n).value;
      st.used == {} && (forall i :: 0 <= i < n ==> snap.receipt.inputs[i].identity in st.captured) &&
      (forall id :: id in st.captured ==> exists i :: 0 <= i < n && snap.receipt.inputs[i].identity == id)
  {
    hide LocalPath;
    if n > 0 { InventoryIsCaptured(docs, snap, n - 1); }
  }

  /** The inventory of any accepted snapshot is exactly what discovery reaches through its files: none
      missing and none extra. */
  lemma {:induction false} AcceptedIsClosed(docs: Docs, snap: Snapshot)
    requires Verify(docs, snap).Some?
    ensures var captured := Verify(docs, snap).value;
      (set i | 0 <= i < |snap.receipt.inputs| :: snap.receipt.inputs[i].identity)
      == captured.Keys == Reach(docs, ContentsOf(captured), snap.receipt.roots)
  {
    hide Reach, Discover, ReadBack;
    var n := |snap.receipt.inputs|;
    InventoryIsCaptured(docs, snap, n);
    var st := ReadBack(docs, snap, n).value;
    DiscoverTouches(Verifying, docs, snap.receipt.roots, st, ContentsOf(st.captured));
  }
}
