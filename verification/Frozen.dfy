/** Freezing the inputs of an offline graph build and replaying them from the snapshot. Parsing,
    digests and path normalisation come in as functions; files are maps from paths to bytes. */
module Frozen {
  import opened Options

  type Bytes = seq<nat>

  const MAXFILES: nat := 1024
  const MAXTOTAL: nat := 256 * 1024 * 1024

  datatype Kind = Semantic | Physical | Hardware

  datatype MetaKind = SemanticMeta | UnitsMeta

  datatype Role =
    | ManifestRole(kind: Kind)
    | MetaRole(meta: MetaKind)
    | SourceRole
    | PhysicalCatalog
    | HardwareCatalog
    | Topology
    | Attachments

  datatype Manifest =
    | SemanticM(project: string, units: seq<string>)
    | PhysicalM(project: string, metadata: seq<string>, catalogs: seq<string>)
    | HardwareM(project: string, catalogs: seq<string>, topology: string)

  /** The receipt that metadata keeps of its source file. */
  datatype Source = Source(path: string, length: nat, fnv: nat)

  /** Parsers answer nothing for a document that fails its schema checks. */
  datatype Docs = Docs(
    manifest: (Kind, Bytes) -> Option<Manifest>,
    metadata: (MetaKind, Bytes) -> Option<Source>,
    leafOk: (Role, string, Bytes) -> bool,
    nameOk: string -> bool,
    fnv: Bytes -> nat,
    sha: Bytes -> string,
    idSha: string -> string,
    canonical: string -> bool,
    normalize: (string, string) -> string)

  datatype Roots = Roots(semantic: string, physical: string, hardware: string, attachments: string)

  function Identity(docs: Docs, value: string): Option<string> {
    if docs.canonical(value) then Some(value) else None
  }

  function Resolve(docs: Docs, owner: string, value: string): Option<string> {
    if value == "" || '\\' in value then None else Identity(docs, docs.normalize(owner, value))
  }

  // ----- fetching -----

  /** What a run has captured (in order of first use), how many bytes, and what it has used. */
  datatype State = State(order: seq<string>, captured: map<string, (Role, Bytes)>, total: nat, used: set<string>)

  const START := State([], map[], 0, {})

  /** Freezing reads files and remembers them; verifying answers only from what the snapshot holds. */
  datatype Mode = Freezing(disk: map<string, Bytes>) | Verifying

  function Fetch(mode: Mode, st: State, id: string, role: Role): Option<(State, Bytes)> {
    if mode.Verifying? then
      if id in st.captured && st.captured[id].0 == role
      then Some((st.(used := st.used + {id}), st.captured[id].1)) else None
    else if id in st.captured then
      if st.captured[id].0 == role then Some((st, st.captured[id].1)) else None
    else if id !in mode.disk then None
    else
      var raw := mode.disk[id];
      if |st.captured| < MAXFILES && st.total + |raw| <= MAXTOTAL
      then Some((State(st.order + [id], st.captured[id := (role, raw)], st.total + |raw|, st.used), raw))
      else None
  }

  // ----- discovery -----

  /** One path named by a manifest: metadata, which leads to a source file, or a plain document. */
  datatype Item = Meta(owner: string, value: string, kind: MetaKind) | Leaf(owner: string, value: string, role: Role)

  function FetchManifest(mode: Mode, docs: Docs, st: State, root: string, kind: Kind): Option<(State, Manifest)> {
    match Identity(docs, root)
    case None => None
    case Some(id) =>
      match Fetch(mode, st, id, ManifestRole(kind))
      case None => None
      case Some((st1, raw)) =>
        match docs.manifest(kind, raw)
        case None => None
        case Some(m) => Some((st1, m))
  }

  predicate SizeOk(values: seq<string>) {
    0 < |values| <= MAXFILES
  }

  /** All the paths to follow, if the three manifests belong to one project and name enough files. */
  function Plan(docs: Docs, roots: Roots, s: Manifest, p: Manifest, h: Manifest): Option<seq<Item>> {
    if s.SemanticM? && p.PhysicalM? && h.HardwareM? && docs.nameOk(s.project) &&
      p.project == s.project && h.project == s.project &&
      SizeOk(s.units) && SizeOk(p.metadata) && SizeOk(p.catalogs) && SizeOk(h.catalogs)
    then
      Some(seq(|s.units|, i requires 0 <= i < |s.units| => Meta(roots.semantic, s.units[i], SemanticMeta)) +
        seq(|p.metadata|, i requires 0 <= i < |p.metadata| => Meta(roots.physical, p.metadata[i], UnitsMeta)) +
        seq(|p.catalogs|, i requires 0 <= i < |p.catalogs| => Leaf(roots.physical, p.catalogs[i], PhysicalCatalog)) +
        seq(|h.catalogs|, i requires 0 <= i < |h.catalogs| => Leaf(roots.hardware, h.catalogs[i], HardwareCatalog)) +
        [Leaf(roots.hardware, h.topology, Topology)])
    else None
  }

  predicate ReceiptOk(docs: Docs, src: Source, raw: Bytes) {
    src.length == |raw| && src.fnv == docs.fnv(raw)
  }

  function FollowMeta(mode: Mode, docs: Docs, st: State, id: string, kind: MetaKind): Option<State> {
    match Fetch(mode, st, id, MetaRole(kind))
    case None => None
    case Some((st1, raw)) =>
      match docs.metadata(kind, raw)
      case None => None
      case Some(src) =>
        if !docs.canonical(src.path) then None
        else
          match Fetch(mode, st1, src.path, SourceRole)
          case None => None
          case Some((st2, raw2)) => if ReceiptOk(docs, src, raw2) then Some(st2) else None
  }

  function FollowLeaf(mode: Mode, docs: Docs, project: string, st: State, id: string, role: Role): Option<State> {
    match Fetch(mode, st, id, role)
    case None => None
    case Some((st1, raw)) => if docs.leafOk(role, project, raw) then Some(st1) else None
  }

  function Follow(mode: Mode, docs: Docs, project: string, st: State, item: Item): Option<State> {
    match Resolve(docs, item.owner, item.value)
    case None => None
    case Some(id) =>
      match item
      case Meta(_, _, kind) => FollowMeta(mode, docs, st, id, kind)
      case Leaf(_, _, role) => FollowLeaf(mode, docs, project, st, id, role)
  }

  /** After the first `n` items. */
  function FollowAll(mode: Mode, docs: Docs, project: string, st: State, items: seq<Item>, n: nat): Option<State>
    requires n <= |items|
  {
    if n == 0 then Some(st)
    else
      match FollowAll(mode, docs, project, st, items, n - 1)
      case None => None
      case Some(st1) => Follow(mode, docs, project, st1, items[n - 1])
  }

  datatype Manifests = Manifests(st: State, semantic: Manifest, physical: Manifest, hardware: Manifest)

  function ReadManifests(mode: Mode, docs: Docs, roots: Roots, st: State): Option<Manifests> {
    match FetchManifest(mode, docs, st, roots.semantic, Semantic)
    case None => None
    case Some((st1, s)) =>
      match FetchManifest(mode, docs, st1, roots.physical, Physical)
      case None => None
      case Some((st2, p)) =>
        match FetchManifest(mode, docs, st2, roots.hardware, Hardware)
        case None => None
        case Some((st3, h)) => Some(Manifests(st3, s, p, h))
  }

  function FetchAttachments(mode: Mode, docs: Docs, roots: Roots, st: State): Option<State> {
    if !docs.canonical(roots.attachments) then None
    else
      match Fetch(mode, st, roots.attachments, Attachments)
      case None => None
      case Some((st1, _)) => Some(st1)
  }

  /** The whole closure: the manifests, everything they name, and the attachments. */
  function Discover(mode: Mode, docs: Docs, roots: Roots, st: State): Option<(State, string)> {
    match ReadManifests(mode, docs, roots, st)
    case None => None
    case Some(m) =>
      match Plan(docs, roots, m.semantic, m.physical, m.hardware)
      case None => None
      case Some(items) =>
        match FollowAll(mode, docs, m.semantic.project, m.st, items, |items|)
        case None => None
        case Some(st1) =>
          match FetchAttachments(mode, docs, roots, st1)
          case None => None
          case Some(st2) => Some((st2, m.semantic.project))
  }

  // ----- snapshots -----

  datatype Entry = Entry(identity: string, role: Role, path: string, sha: string, length: nat)

  datatype Receipt = Receipt(project: string, roots: Roots, inputs: seq<Entry>)

  datatype Snapshot = Snapshot(receipt: Receipt, files: map<string, Bytes>)

  function LocalPath(docs: Docs, id: string, role: Role): string {
    if role.SourceRole? then "sources" + id else "data/" + docs.idSha(id) + ".json"
  }

  /** Writes the captured files, in the order given, and their inventory. */
  function WriteOut(
    docs: Docs, captured: map<string, (Role, Bytes)>, order: seq<string>): (seq<Entry>, map<string, Bytes>)
    requires forall id <- order :: id in captured
  {
    if order == [] then ([], map[])
    else
      var (entries, files) := WriteOut(docs, captured, order[..|order| - 1]);
      var id := order[|order| - 1];
      var (role, raw) := captured[id];
      var path := LocalPath(docs, id, role);
      (entries + [Entry(id, role, path, docs.sha(raw), |raw|)], files[path := raw])
  }

  predicate Enumerates(order: seq<string>, st: State) {
    multiset(order) == multiset(st.order)
  }

  /** The files found, to be written out in any order (the program sorts them by identity). */
  function Capture(docs: Docs, disk: map<string, Bytes>, roots: Roots): Option<(State, string)> {
    Discover(Freezing(disk), docs, roots, START)
  }

  function Freeze(docs: Docs, roots: Roots, found: (State, string), order: seq<string>): Snapshot
    requires forall id <- order :: id in found.0.captured
  {
    var (entries, files) := WriteOut(docs, found.0.captured, order);
    Snapshot(Receipt(found.1, roots, entries), files)
  }

  /** Reads back the first `n` entries of the inventory, checking each against its file. */
  function ReadBack(docs: Docs, snap: Snapshot, n: nat): Option<State>
    requires n <= |snap.receipt.inputs|
  {
    if n == 0 then Some(START)
    else
      match ReadBack(docs, snap, n - 1)
      case None => None
      case Some(st) => ReadEntry(docs, snap.files, st, snap.receipt.inputs[n - 1])
  }

  function ReadEntry(docs: Docs, files: map<string, Bytes>, st: State, e: Entry): Option<State> {
    if docs.canonical(e.identity) && e.identity !in st.captured &&
      e.path == LocalPath(docs, e.identity, e.role) && e.path in files
    then
      var data := files[e.path];
      if st.total + |data| <= MAXTOTAL && e.length == |data| && docs.sha(data) == e.sha
      then
        Some(State(st.order + [e.identity], st.captured[e.identity := (e.role, data)], st.total + |data|, {}))
      else None
    else None
  }

  /** Accepts a snapshot whose files match its inventory and whose inventory is exactly what
      discovery uses. */
  function Verify(docs: Docs, snap: Snapshot): Option<map<string, (Role, Bytes)>> {
    if !(0 < |snap.receipt.inputs| <= MAXFILES) then None
    else
      match ReadBack(docs, snap, |snap.receipt.inputs|)
      case None => None
      case Some(st) =>
        match Discover(Verifying, docs, snap.receipt.roots, st)
        case None => None
        case Some((st1, project)) =>
          if st1.used == st.captured.Keys && project == snap.receipt.project then Some(st.captured) else None
  }

  // ----- step by step -----

  class Session {
    const mode: Mode
    const docs: Docs
    var order: seq<string>
    var captured: map<string, (Role, Bytes)>
    var total: nat
    var used: set<string>

    constructor (mode: Mode, docs: Docs)
      ensures this.mode == mode && this.docs == docs && View() == START
    {
      this.mode, this.docs := mode, docs;
      order, captured, total, used := [], map[], 0, {};
    }

    function View(): State
      reads this
    {
      State(order, captured, total, used)
    }

    method FetchFile(id: string, role: Role) returns (raw: Option<Bytes>)
      modifies this
      ensures raw.Some? <==> Fetch(mode, old(View()), id, role).Some?
      ensures raw.Some? ==> Fetch(mode, old(View()), id, role) == Some((View(), raw.value))
    {
      if mode.Verifying? {
        if id !in captured || captured[id].0 != role { return None; }
        used := used + {id};
        return Some(captured[id].1);
      }
      if id in captured {
        if captured[id].0 != role { return None; }
        return Some(captured[id].1);
      }
      if id !in mode.disk { return None; }
      var data := mode.disk[id];
      total := total + |data|;
      if |captured| >= MAXFILES || total > MAXTOTAL { return None; }
      order, captured := order + [id], captured[id := (role, data)];
      return Some(data);
    }

    method FollowItem(project: string, item: Item) returns (ok: bool)
      modifies this
      ensures ok <==> Follow(mode, docs, project, old(View()), item).Some?
      ensures ok ==> Follow(mode, docs, project, old(View()), item) == Some(View())
    {
      hide Fetch, ReceiptOk;
      var id := Resolve(docs, item.owner, item.value);
      if id.None? { return false; }
      match item
      case Meta(_, _, kind) =>
        var raw := FetchFile(id.value, MetaRole(kind));
        if raw.None? { return false; }
        var src := docs.metadata(kind, raw.value);
        if src.None? || !docs.canonical(src.value.path) { return false; }
        var data := FetchFile(src.value.path, SourceRole);
        if data.None? || !ReceiptOk(docs, src.value, data.value) { return false; }
        return true;
      case Leaf(_, _, role) =>
        var raw := FetchFile(id.value, role);
        return raw.Some? && docs.leafOk(role, project, raw.value);
    }

    method FollowItems(project: string, items: seq<Item>) returns (ok: bool)
      modifies this
      ensures ok <==> FollowAll(mode, docs, project, old(View()), items, |items|).Some?
      ensures ok ==> FollowAll(mode, docs, project, old(View()), items, |items|) == Some(View())
    {
      hide Follow;
      for i := 0 to |items|
        invariant FollowAll(mode, docs, project, old(View()), items, i) == Some(View())
      {
        ok := FollowItem(project, items[i]);
        if !ok {
          FollowStops(mode, docs, project, old(View()), items, i + 1, |items|);
          return false;
        }
      }
      return true;
    }

    method ReadManifest(root: string, kind: Kind) returns (m: Option<Manifest>)
      modifies this
      ensures m.Some? <==> FetchManifest(mode, docs, old(View()), root, kind).Some?
      ensures m.Some? ==> FetchManifest(mode, docs, old(View()), root, kind) == Some((View(), m.value))
    {
      hide Fetch;
      if !docs.canonical(root) { return None; }
      var raw := FetchFile(root, ManifestRole(kind));
      if raw.None? { return None; }
      return docs.manifest(kind, raw.value);
    }

    method DiscoverClosure(roots: Roots) returns (project: Option<string>)
      modifies this
      ensures project.Some? <==> Discover(mode, docs, roots, old(View())).Some?
      ensures project.Some? ==> Discover(mode, docs, roots, old(View())) == Some((View(), project.value))
    {
      hide Fetch, FollowAll, FetchManifest, Plan;
      var s := ReadManifest(roots.semantic, Semantic);
      if s.None? { return None; }
      var p := ReadManifest(roots.physical, Physical);
      if p.None? { return None; }
      var h := ReadManifest(roots.hardware, Hardware);
      if h.None? { return None; }
      var items := Plan(docs, roots, s.value, p.value, h.value);
      if items.None? { return None; }
      var ok := FollowItems(s.value.project, items.value);
      if !ok || !docs.canonical(roots.attachments) { return None; }
      var raw := FetchFile(roots.attachments, Attachments);
      if raw.None? { return None; }
      return Some(s.value.project);
    }
  }

  /** The loop that checks every inventory entry against its file. */
  method LoadInventory(docs: Docs, snap: Snapshot) returns (r: Option<State>)
    ensures r == ReadBack(docs, snap, |snap.receipt.inputs|)
  {
    var inputs := snap.receipt.inputs;
    var st := START;
    for i := 0 to |inputs|
      invariant ReadBack(docs, snap, i) == Some(st)
    {
      var e := inputs[i];
      if !docs.canonical(e.identity) || e.identity in st.captured || e.path != LocalPath(docs, e.identity, e.role)
        || e.path !in snap.files
      {
        LoadStops(docs, snap, i + 1, |inputs|);
        return None;
      }
      var data := snap.files[e.path];
      var total := st.total + |data|;
      if total > MAXTOTAL || e.length != |data| || docs.sha(data) != e.sha {
        LoadStops(docs, snap, i + 1, |inputs|);
        return None;
      }
      st := State(st.order + [e.identity], st.captured[e.identity := (e.role, data)], total, {});
    }
    return Some(st);
  }

  method VerifySnapshot(docs: Docs, snap: Snapshot) returns (r: Option<map<string, (Role, Bytes)>>)
    ensures r == Verify(docs, snap)
  {
    hide Discover, ReadBack;
    if |snap.receipt.inputs| == 0 || |snap.receipt.inputs| > MAXFILES { return None; }
    var loaded := LoadInventory(docs, snap);
    if loaded.None? { return None; }
    var session := new Session(Verifying, docs);
    session.order, session.captured := loaded.value.order, loaded.value.captured;
    session.total, session.used := loaded.value.total, loaded.value.used;
    var project := session.DiscoverClosure(snap.receipt.roots);
    if project.None? || session.used != loaded.value.captured.Keys || project.value != snap.receipt.project {
      return None;
    }
    return Some(loaded.value.captured);
  }

  /** The loop that writes the files and collects their inventory. */
  method WriteFiles(docs: Docs, captured: map<string, (Role, Bytes)>, order: seq<string>)
    returns (entries: seq<Entry>, files: map<string, Bytes>)
    requires forall id <- order :: id in captured
    ensures (entries, files) == WriteOut(docs, captured, order)
  {
    entries, files := [], map[];
    for i := 0 to |order|
      invariant (entries, files) == WriteOut(docs, captured, order[..i])
    {
      assert order[..i + 1][..i] == order[..i];
      var id := order[i];
      var (role, raw) := captured[id];
      var path := LocalPath(docs, id, role);
      entries := entries + [Entry(id, role, path, docs.sha(raw), |raw|)];
      files := files[path := raw];
    }
    assert order[..|order|] == order;
  }

  lemma {:induction false} LoadStops(docs: Docs, snap: Snapshot, i: nat, n: nat)
    requires i <= n <= |snap.receipt.inputs| && ReadBack(docs, snap, i).None?
    ensures ReadBack(docs, snap, n).None?
    decreases n
  {
    hide ReadEntry;
    if i < n { LoadStops(docs, snap, i, n - 1); }
  }

  lemma {:induction false} FollowStops(
    mode: Mode, docs: Docs, project: string, st: State, items: seq<Item>, i: nat, n: nat)
    requires i <= n <= |items| && FollowAll(mode, docs, project, st, items, i).None?
    ensures FollowAll(mode, docs, project, st, items, n).None?
    decreases n
  {
    hide Follow;
    if i < n { FollowStops(mode, docs, project, st, items, i, n - 1); }
  }
}
