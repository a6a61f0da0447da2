/** The cross-translation-unit check over a whole link: each collected symbol is compared with the
    ledger and, if it clashes with nothing there, added to it. */
module CrossTuConflicts {
  import opened Options
  import opened CrossTuSymbols
  import opened CrossTuIndex

  /** A clashing symbol and the ledger entry it clashed with. */
  datatype Conflict = Conflict(symbol: Def, prior: nat)

  /** The earliest ledger entry from `from` on that clashes with `d`. */
  function FirstClash(rules: Rules, defs: seq<Def>, d: Def, from: nat): (r: Option<nat>)
    ensures r.Some? ==> from <= r.value < |defs| && Clash(rules, defs[r.value], d)
    ensures r.Some? ==> forall k :: from <= k < r.value ==> !Clash(rules, defs[k], d)
    ensures r.None? ==> forall k :: from <= k < |defs| ==> !Clash(rules, defs[k], d)
    decreases |defs| - from
  {
    if from >= |defs| then None
    else if Clash(rules, defs[from], d) then Some(from)
    else FirstClash(rules, defs, d, from + 1)
  }

  function FirstInChain(rules: Rules, defs: seq<Def>, d: Def, chain: seq<nat>): Option<nat> {
    if chain == [] then None
    else if chain[0] < |defs| && Clash(rules, defs[chain[0]], d) then Some(chain[0])
    else FirstInChain(rules, defs, d, chain[1..])
  }

  /** Searching the chain finds the same entry as searching the whole ledger. */
  lemma {:induction false} ChainFindsClash(
    h: Hash, items: seq<Item>, buckets: seq<Bucket>, rules: Rules, d: Def, from: nat)
    requires |buckets| > 0 && Linked(h, items, buckets, |items|)
    ensures var b := BucketOf(h, KeyOf(d), |buckets|);
      FirstInChain(rules, Defs(items), d, Walk(items, NextIn(h, Defs(items), |buckets|, b, from)))
      == FirstClash(rules, Defs(items), d, from)
    decreases |items| - from
  {
    hide BucketOf, Agree, Linked;
    var defs := Defs(items);
    var b := BucketOf(h, KeyOf(d), |buckets|);
    if from < |items| {
      ChainFindsClash(h, items, buckets, rules, d, from + 1);
      if BucketOf(h, KeyOf(defs[from]), |buckets|) == b {
        NextLink(h, items, buckets, from);
        ChainStep(h, items, buckets, rules, d, from);
      }
    }
  }

  lemma {:induction false} NextLink(h: Hash, items: seq<Item>, buckets: seq<Bucket>, i: nat)
    requires |buckets| > 0 && i < |items| && Linked(h, items, buckets, |items|)
    ensures items[i].next ==
      NextIn(h, Defs(items), |buckets|, BucketOf(h, KeyOf(Defs(items)[i]), |buckets|), i + 1)
  {
    assert Defs(items)[..|items|] == Defs(items);
  }

  lemma {:induction false} ChainStep(h: Hash, items: seq<Item>, buckets: seq<Bucket>, rules: Rules, d: Def, i: nat)
    requires |buckets| > 0 && i < |items| && Linked(h, items, buckets, |items|)
    ensures items[i].next.Some? ==> i < items[i].next.value < |items|
    ensures FirstInChain(rules, Defs(items), d, Walk(items, Some(i)))
      == if Clash(rules, items[i].def, d) then Some(i)
         else FirstInChain(rules, Defs(items), d, Walk(items, items[i].next))
  {
    hide Clash, BucketOf;
    NextLink(h, items, buckets, i);
    var rest := Walk(items, items[i].next);
    assert Walk(items, Some(i)) == [i] + rest;
    assert ([i] + rest)[1..] == rest;
  }

  lemma {:induction false} ChainEnds(rules: Rules, items: seq<Item>, d: Def)
    ensures FirstInChain(rules, Defs(items), d, Walk(items, None)) == None
  {}

  lemma {:induction false} EmptyLedger(rules: Rules, d: Def)
    ensures FirstClash(rules, [], d, 0) == None
  {}

  /** What is known after some symbols: the ledger, and the first clash if there was one. */
  datatype Outcome = Outcome(ledger: seq<Def>, conflict: Option<Conflict>)

  function Admit(rules: Rules, o: Outcome, s: Symbol): Outcome {
    if o.conflict.Some? || !Collected(s) then o
    else
      match FirstClash(rules, o.ledger, s.def, 0)
      case Some(i) => o.(conflict := Some(Conflict(s.def, i)))
      case None => o.(ledger := o.ledger + [s.def])
  }

  function AdmitAll(rules: Rules, o: Outcome, syms: seq<Symbol>): Outcome {
    if syms == [] then o
    else Admit(rules, AdmitAll(rules, o, syms[..|syms| - 1]), syms[|syms| - 1])
  }

  const NOTHING := Outcome([], None)

  // ----- the collector object -----

  /** The index has room, or can be doubled. */
  predicate HasRoom(l: Ledger)
    reads l
  {
    |l.items| < |l.buckets| || |l.buckets| <= SIZEMAX / BUCKETBYTES / 2
  }

  class Collector {
    const ledger: Ledger
    const rules: Rules
    var conflict: Option<Conflict>
    var oom: bool

    constructor (ledger: Ledger, rules: Rules)
      ensures this.ledger == ledger && this.rules == rules && conflict == None && !oom
    {
      this.ledger, this.rules, conflict, oom := ledger, rules, None, false;
    }

    function State(): Outcome
      reads this, ledger
    {
      Outcome(ledger.Entries(), conflict)
    }

    /** Walks the chain of the symbol's bucket up to the first clash. */
    method FindClash(d: Def) returns (r: Option<nat>)
      requires ledger.Valid()
      ensures r == FirstClash(rules, ledger.Entries(), d, 0)
    {
      hide BucketOf, NextIn, Linked, Walk, FirstInChain, FirstClash, IsPow2, Agree;
      var i := ledger.First(KeyOf(d));
      if |ledger.buckets| == 0 {
        EmptyLedger(rules, d);
        assert ledger.Entries() == [];
        return None;
      }
      ChainFindsClash(ledger.hash, ledger.items, ledger.buckets, rules, d, 0);
      ChainEnds(rules, ledger.items, d);
      while i.Some?
        invariant i.Some? ==> i.value < |ledger.items|
        invariant FirstInChain(rules, ledger.Entries(), d, Walk(ledger.items, i))
          == FirstClash(rules, ledger.Entries(), d, 0)
        decreases if i.Some? then |ledger.items| - i.value else 0
      {
        var prior := ledger.items[i.value];
        ChainStep(ledger.hash, ledger.items, ledger.buckets, rules, d, i.value);
        if KeyOf(prior.def) == KeyOf(d) {
          var agree := Compare(prior.def, d);
          if !agree && (d.kind.Function? || prior.def.hasDefinition || d.hasDefinition) { return i; }
        }
        i := prior.next;
      }
      r := None;
    }

    method Compare(a: Def, b: Def) returns (agree: bool)
      ensures agree == Agree(rules, a, b)
    {
      var same := rules.compatible(a.ty, b.ty);
      if b.kind.Function? {
        var signatures := FunctionSignaturesMatch(rules, a.signature, b.signature);
        if rules.units { same := same && rules.contracts(a.ty, b.ty); }
        return same && signatures;
      }
      var bounds := ArrayBoundsCompatible(a.ty, b.ty);
      return same && bounds;
    }

    /** A conflict needs a name and memory to be recorded, an entry needs memory and room. */
    predicate CannotRecord(d: Def, memory: bool)
      reads this, ledger
    {
      !memory ||
      if exists k :: 0 <= k < |ledger.Entries()| && Clash(rules, ledger.Entries()[k], d) then d.name == ""
      else !HasRoom(ledger)
    }

    /** The callback for one symbol. With memory to spare it does what `Admit` says; without, it
        records nothing it should not and raises `oom`. */
    method CollectSymbol(s: Symbol, memory: bool)
      requires ledger.Valid()
      modifies this, ledger
      ensures ledger.Valid()
      ensures oom <==> old(oom) || (old(conflict).None? && Collected(s) && old(CannotRecord(s.def, memory)))
      ensures !oom ==> State() == Admit(rules, old(State()), s)
      ensures oom ==> State() == old(State())
    {
      if oom || conflict.Some? || !Collected(s) { return; }
      var prior := FindClash(s.def);
      if prior.Some? {
        if memory && s.def.name != "" {
          conflict := Some(Conflict(s.def, prior.value));
        } else {
          oom := true;
        }
        return;
      }
      var ok := ledger.Push(s.def, memory, memory);
      if !ok { oom := true; }
    }
  }

  // ----- the verdict -----

  /** The symbols that the check looks at. */
  function Picks(syms: seq<Symbol>): seq<Def> {
    if syms == [] then []
    else
      var s := syms[|syms| - 1];
      Picks(syms[..|syms| - 1]) + if Collected(s) then [s.def] else []
  }

  ghost predicate ClashingPair(rules: Rules, syms: seq<Symbol>, i: int, j: int) {
    0 <= i < |syms| && 0 <= j < |syms| && i != j &&
    Collected(syms[i]) && Collected(syms[j]) && Clash(rules, syms[i].def, syms[j].def)
  }

  ghost predicate Supplied(syms: seq<Symbol>, d: Def) {
    exists i :: 0 <= i < |syms| && Collected(syms[i]) && syms[i].def == d
  }

  lemma {:induction false} PicksMembers(syms: seq<Symbol>)
    ensures forall k :: 0 <= k < |Picks(syms)| ==> Supplied(syms, Picks(syms)[k])
    ensures forall i :: 0 <= i < |syms| && Collected(syms[i]) ==> syms[i].def in Picks(syms)
    decreases |syms|
  {
    if syms != [] {
      var n := |syms| - 1;
      var front := syms[..n];
      PicksMembers(front);
      forall k | 0 <= k < |Picks(syms)| ensures Supplied(syms, Picks(syms)[k]) {
        if k < |Picks(front)| {
          assert Supplied(front, Picks(front)[k]);
          var i :| 0 <= i < |front| && Collected(front[i]) && front[i].def == Picks(front)[k];
          assert syms[i] == front[i];
        } else {
          assert syms[n].def == Picks(syms)[k];
        }
      }
      forall i | 0 <= i < |syms| && Collected(syms[i]) ensures syms[i].def in Picks(syms) {
        if i < n { assert front[i] == syms[i]; }
      }
    }
  }

  ghost predicate OrderedClash(rules: Rules, syms: seq<Symbol>) {
    exists i, j :: i < j && ClashingPair(rules, syms, i, j)
  }

  /** The check finds a conflict exactly when some symbol clashes with an earlier one; otherwise the
      ledger holds all collected symbols in order of arrival. */
  lemma {:induction false} VerdictIsExact(rules: Rules, syms: seq<Symbol>)
    ensures var o := AdmitAll(rules, NOTHING, syms);
      (o.conflict.Some? <==> OrderedClash(rules, syms)) && (o.conflict.None? ==> o.ledger == Picks(syms))
    decreases |syms|
  {
    hide Clash;
    if syms != [] {
      var n := |syms| - 1;
      var front, s := syms[..n], syms[n];
      VerdictIsExact(rules, front);
      var o := AdmitAll(rules, NOTHING, front);
      forall i, j | 0 <= i < n && 0 <= j < n
        ensures ClashingPair(rules, front, i, j) == ClashingPair(rules, syms, i, j)
      {
      }
      if OrderedClash(rules, front) {
        var i, j :| i < j && ClashingPair(rules, front, i, j);
        assert ClashingPair(rules, syms, i, j);
      } else {
        NewClash(rules, syms);
      }
    }
  }

  lemma {:induction false} NewClash(rules: Rules, syms: seq<Symbol>)
    requires syms != [] && !OrderedClash(rules, syms[..|syms| - 1])
    ensures var n := |syms| - 1;
      OrderedClash(rules, syms) <==>
        Collected(syms[n]) && FirstClash(rules, Picks(syms[..n]), syms[n].def, 0).Some?
  {
    hide Clash, Picks;
    var n := |syms| - 1;
    var front, s := syms[..n], syms[n];
    PicksMembers(front);
    var r := FirstClash(rules, Picks(front), s.def, 0);
    if Collected(s) && r.Some? {
      assert Supplied(front, Picks(front)[r.value]);
      var i :| 0 <= i < n && Collected(front[i]) && front[i].def == Picks(front)[r.value];
      assert ClashingPair(rules, syms, i, n);
    }
    forall i, j | 0 <= i < j < n ensures !ClashingPair(rules, syms, i, j) {
      assert !ClashingPair(rules, front, i, j);
    }
    if OrderedClash(rules, syms) {
      var i, j :| i < j && ClashingPair(rules, syms, i, j);
      assert front[i].def in Picks(front);
    }
  }

  // ----- which clash is recorded -----

  lemma {:induction false} PicksPrefix(syms: seq<Symbol>, n: nat)
    requires n <= |syms|
    ensures Picks(syms[..n]) <= Picks(syms)
    decreases |syms|
  {
    if n < |syms| {
      var front := syms[..|syms| - 1];
      PicksPrefix(front, n);
      assert front[..n] == syms[..n];
    } else {
      assert syms[..n] == syms;
    }
  }

  /** A collected symbol's place in the ledger: the number of symbols collected before it. */
  lemma {:induction false} PickOf(syms: seq<Symbol>, i: nat)
    requires i < |syms| && Collected(syms[i])
    ensures |Picks(syms[..i])| < |Picks(syms)| && Picks(syms)[|Picks(syms[..i])|] == syms[i].def
  {
    PicksPrefix(syms, i + 1);
    assert syms[..i + 1][..i] == syms[..i];
  }

  lemma {:induction false} PickFrom(syms: seq<Symbol>, k: nat) returns (i: nat)
    requires k < |Picks(syms)|
    ensures i < |syms| && Collected(syms[i]) && |Picks(syms[..i])| == k
    decreases |syms|
  {
    var n := |syms| - 1;
    if k < |Picks(syms[..n])| {
      i := PickFrom(syms[..n], k);
      assert syms[..n][..i] == syms[..i];
    } else {
      i := n;
    }
  }

  lemma {:induction false} PicksInOrder(syms: seq<Symbol>, i: nat, j: nat)
    requires i < j <= |syms| && Collected(syms[i])
    ensures |Picks(syms[..i])| < |Picks(syms[..j])|
  {
    assert syms[..j][..i] == syms[..i];
    PickOf(syms[..j], i);
  }

  /** `n` is the first symbol that clashes with an earlier one, and `i` the first that it clashes with. */
  ghost predicate FirstPair(rules: Rules, syms: seq<Symbol>, i: nat, n: nat) {
    && i < n && ClashingPair(rules, syms, i, n)
    && !OrderedClash(rules, syms[..n])
    && forall j :: 0 <= j < i ==> !ClashingPair(rules, syms, j, n)
  }

  /** After a conflict nothing changes. */
  lemma {:induction false} ConflictStays(rules: Rules, syms: seq<Symbol>, n: nat)
    requires n <= |syms| && AdmitAll(rules, NOTHING, syms[..n]).conflict.Some?
    ensures AdmitAll(rules, NOTHING, syms) == AdmitAll(rules, NOTHING, syms[..n])
    decreases |syms|
  {
    if n < |syms| {
      var front := syms[..|syms| - 1];
      assert front[..n] == syms[..n];
      ConflictStays(rules, front, n);
    } else {
      assert syms[..n] == syms;
    }
  }

  /** The conflict recorded is the first pair: the earliest symbol that clashes with one before it, and
      the earliest of those it clashes with, which is the ledger entry that the record points to. */
  lemma {:induction false} RecordedIsFirstPair(rules: Rules, syms: seq<Symbol>, c: Conflict) returns (i: nat, n: nat)
    requires AdmitAll(rules, NOTHING, syms).conflict == Some(c)
    ensures FirstPair(rules, syms, i, n) && c.symbol == syms[n].def
    ensures var ledger := AdmitAll(rules, NOTHING, syms).ledger;
      ledger == Picks(syms[..n]) && c.prior == |Picks(syms[..i])| < |ledger| && ledger[c.prior] == syms[i].def
    decreases |syms|
  {
    hide Clash, OrderedClash, Picks;
    var last := |syms| - 1;
    var front := syms[..last];
    VerdictIsExact(rules, front);
    if AdmitAll(rules, NOTHING, front).conflict.Some? {
      i, n := RecordedIsFirstPair(rules, front, c);
      assert front[..n] == syms[..n] && front[..i] == syms[..i];
      forall j | 0 <= j < n ensures ClashingPair(rules, front, j, n) == ClashingPair(rules, syms, j, n) {}
    } else {
      n := last;
      i := PickFrom(front, c.prior);
      PickOf(front, i);
      assert front[..i] == syms[..i] && syms[..n] == front;
      forall j | 0 <= j < i ensures !ClashingPair(rules, syms, j, n) {
        if Collected(front[j]) {
          PicksInOrder(front, j, i);
          PickOf(front, j);
        }
      }
    }
  }

  /** Conversely a first pair is what gets recorded. */
  lemma {:induction false} FirstPairIsRecorded(rules: Rules, syms: seq<Symbol>, i: nat, n: nat)
    requires FirstPair(rules, syms, i, n)
    ensures AdmitAll(rules, NOTHING, syms) ==
      Outcome(Picks(syms[..n]), Some(Conflict(syms[n].def, |Picks(syms[..i])|)))
  {
    hide Clash, OrderedClash, Picks;
    var upto := syms[..n + 1];
    assert upto[..n] == syms[..n] && ClashingPair(rules, upto, i, n);
    assert OrderedClash(rules, upto) by { PairIsOrdered(rules, upto, i, n); }
    VerdictIsExact(rules, upto);
    VerdictIsExact(rules, syms[..n]);
    var c := AdmitAll(rules, NOTHING, upto).conflict.value;
    var i', n' := RecordedIsFirstPair(rules, upto, c);
    if n' < n {
      assert ClashingPair(rules, syms[..n], i', n') == ClashingPair(rules, upto, i', n');
      PairIsOrdered(rules, syms[..n], i', n');
    }
    assert ClashingPair(rules, upto, i', n) == ClashingPair(rules, syms, i', n);
    assert upto[..i'] == syms[..i'];
    ConflictStays(rules, syms, n + 1);
  }

  lemma {:induction false} PairIsOrdered(rules: Rules, syms: seq<Symbol>, i: nat, n: nat)
    requires i < n && ClashingPair(rules, syms, i, n)
    ensures OrderedClash(rules, syms)
  {
    hide ClashingPair;
  }

  // ----- what the check decides for two symbols -----

  predicate DimsMatch(a: Type, b: Type) {
    |a.dims| == |b.dims| &&
    forall k :: 0 <= k < |a.dims| ==> BracketsAgree(BracketsOf(a.dims[k]), BracketsOf(b.dims[k]))
  }

  /** Two prototypes agree parameter by parameter; a prototype stands for a declaration without one if it
      has a fixed list of parameters that promotion leaves alone. */
  predicate Interchangeable(rules: Rules, a: Signature, b: Signature) {
    match (a.hasPrototype, b.hasPrototype)
    case (true, true) =>
      |a.params| == |b.params| && a.variadic == b.variadic &&
      forall k :: 0 <= k < |a.params| ==> rules.compatible(a.params[k], b.params[k])
    case (true, false) => !a.variadic && forall p <- a.params :: rules.unpromoted(p)
    case (false, true) => !b.variadic && forall p <- b.params :: rules.unpromoted(p)
    case (false, false) => true
  }

  /** Two variables of one name conflict exactly if both are external, each is defined, tentative or
      declared `extern`, one of them at least is defined, and their types differ or their bounds do. */
  lemma {:induction false} TwoVariables(rules: Rules, s: Symbol, t: Symbol)
    requires s.def.kind.Variable? && t.def.kind.Variable?
    ensures AdmitAll(rules, NOTHING, [s, t]).conflict.Some? <==>
      && s.def.name == t.def.name && s.externalLinkage && t.externalLinkage
      && (s.def.hasDefinition || t.def.hasDefinition)
      && (s.def.hasDefinition || s.isTentative || s.storage == Extern)
      && (t.def.hasDefinition || t.isTentative || t.storage == Extern)
      && !(rules.compatible(s.def.ty, t.def.ty) && DimsMatch(s.def.ty, t.def.ty))
  {
    PairVerdict(rules, s, t);
    assert BoundsAgree(s.def.ty, t.def.ty) <==> DimsMatch(s.def.ty, t.def.ty) by {
      forall a, b ensures DimsAgree(a, b) <==> BracketsAgree(BracketsOf(a), BracketsOf(b)) { DimsAgreeIff(a, b); }
    }
  }

  /** Two functions of one name conflict exactly if both have bodies, neither is static, and their
      return types, unit contracts or signatures disagree. */
  lemma {:induction false} TwoFunctions(rules: Rules, s: Symbol, t: Symbol)
    requires s.def.kind.Function? && t.def.kind.Function?
    ensures AdmitAll(rules, NOTHING, [s, t]).conflict.Some? <==>
      && s.def.name == t.def.name && s.hasBody && t.hasBody && s.storage != Static && t.storage != Static
      && (|| !rules.compatible(s.def.ty, t.def.ty)
          || (rules.units && !rules.contracts(s.def.ty, t.def.ty))
          || !Interchangeable(rules, s.def.signature, t.def.signature))
  {
    PairVerdict(rules, s, t);
  }

  /** Symbols of different kinds, or of other kinds than variable and function, never conflict. */
  lemma {:induction false} OtherKindsNeverConflict(rules: Rules, s: Symbol, t: Symbol)
    requires s.def.kind != t.def.kind || s.def.kind.OtherKind?
    ensures AdmitAll(rules, NOTHING, [s, t]).conflict.None?
  {
    PairVerdict(rules, s, t);
  }

  lemma {:induction false} PairVerdict(rules: Rules, s: Symbol, t: Symbol)
    ensures AdmitAll(rules, NOTHING, [s, t]).conflict.Some? <==>
      Collected(s) && Collected(t) && Clash(rules, s.def, t.def)
  {
    hide Clash, Collected;
    VerdictIsExact(rules, [s, t]);
    if Collected(s) && Collected(t) && Clash(rules, s.def, t.def) {
      assert ClashingPair(rules, [s, t], 0, 1);
    }
  }

  /** No two entries of a ledger without conflict clash, whichever is taken first. */
  lemma {:induction false} LedgerIsCompatible(rules: Rules, syms: seq<Symbol>, a: nat, b: nat)
    requires Symmetric(rules) && AdmitAll(rules, NOTHING, syms).conflict.None?
    requires a < |syms| && b < |syms| && a != b && Collected(syms[a]) && Collected(syms[b])
    ensures !Clash(rules, syms[a].def, syms[b].def)
  {
    hide Clash, AdmitAll;
    VerdictIsExact(rules, syms);
    ClashIsSymmetric(rules, syms[a].def, syms[b].def);
    assert !ClashingPair(rules, syms, a, b) || !ClashingPair(rules, syms, b, a);
    if a < b { assert !ClashingPair(rules, syms, a, b); } else { assert !ClashingPair(rules, syms, b, a); }
  }

  // ----- order of arrival -----

  lemma {:induction false} TwoOf(syms: seq<Symbol>, s: Symbol) returns (i: nat, j: nat)
    requires multiset(syms)[s] >= 2
    ensures i < j < |syms| && syms[i] == s && syms[j] == s
    decreases |syms|
  {
    var n := |syms| - 1;
    assert syms == syms[..n] + [syms[n]];
    if syms[n] == s {
      assert multiset(syms[..n])[s] >= 1;
      assert s in syms[..n];
      i :| 0 <= i < n && syms[..n][i] == s;
      j := n;
    } else {
      i, j := TwoOf(syms[..n], s);
    }
  }

  lemma {:induction false} CountTwo(syms: seq<Symbol>, i: nat, j: nat)
    requires i < j < |syms| && syms[i] == syms[j]
    ensures multiset(syms)[syms[i]] >= 2
  {
    var s := syms[i];
    assert syms == syms[..j] + [syms[j]] + syms[j + 1..];
    assert syms[..j][i] == s;
    assert s in multiset(syms[..j]);
  }

  lemma {:induction false} PairSurvives(rules: Rules, xs: seq<Symbol>, ys: seq<Symbol>, i: nat, j: nat)
    requires Symmetric(rules) && multiset(xs) == multiset(ys) && ClashingPair(rules, xs, i, j)
    ensures OrderedClash(rules, ys)
  {
    hide Clash;
    var a, b;
    if xs[i] == xs[j] {
      CountTwo(xs, if i < j then i else j, if i < j then j else i);
      a, b := TwoOf(ys, xs[i]);
    } else {
      assert xs[i] in multiset(ys) && xs[j] in multiset(ys);
      a :| 0 <= a < |ys| && ys[a] == xs[i];
      b :| 0 <= b < |ys| && ys[b] == xs[j];
    }
    ClashIsSymmetric(rules, xs[i].def, xs[j].def);
    assert ClashingPair(rules, ys, a, b) && ClashingPair(rules, ys, b, a);
    assert a < b || b < a;
  }

  /** The verdict is the same for every order in which the symbols arrive. */
  lemma {:induction false} VerdictIgnoresOrder(rules: Rules, xs: seq<Symbol>, ys: seq<Symbol>)
    requires Symmetric(rules) && multiset(xs) == multiset(ys)
    ensures AdmitAll(rules, NOTHING, xs).conflict.Some? <==> AdmitAll(rules, NOTHING, ys).conflict.Some?
  {
    hide AdmitAll, Clash;
    VerdictIsExact(rules, xs);
    VerdictIsExact(rules, ys);
    if OrderedClash(rules, xs) {
      var i, j :| i < j && ClashingPair(rules, xs, i, j);
      PairSurvives(rules, xs, ys, i, j);
    }
    if OrderedClash(rules, ys) {
      var i, j :| i < j && ClashingPair(rules, ys, i, j);
      PairSurvives(rules, ys, xs, i, j);
    }
  }
}
