/** What an array initializer leaves in each leaf. */
module ArrayInitCorrect {
  import opened Options
  import opened ArrayInit
  import opened Words

  /** A leaf is named by one index per dimension. */
  predicate ValidPath(s: Shape, path: seq<nat>) {
    match s
    case Scalar => path == []
    case Arr(n, e) => |path| > 0 && path[0] < n && ValidPath(e, path[1..])
  }

  function LeafAt(v: Value, s: Shape, path: seq<nat>): int
    requires HasShape(v, s) && ValidPath(s, path)
  {
    match s
    case Scalar => v.v
    case Arr(_, e) => LeafAt(v.elems[path[0]], e, path[1..])
  }

  /** The position an undesignated `n`-th entry would have: one past its predecessor. */
  function NextPosition(es: seq<Entry>, n: nat): Option<nat>
    requires n <= |es|
    decreases n, 0
  {
    if n == 0 then Some(0)
    else if es[n - 1].expr.None? then NextPosition(es, n - 1)
    else
      match PositionOf(es, n - 1)
      case None => None
      case Some(k) => Some((k + 1) % WORD)
  }

  function PositionOf(es: seq<Entry>, n: nat): Option<nat>
    requires n < |es|
    decreases n, 1
  {
    match es[n].designator case Some(d) => d case None => NextPosition(es, n)
  }

  predicate SomeDesignator(es: seq<Entry>) {
    exists i :: 0 <= i < |es| && (es[i].designator.Some? || es[i].hasField)
  }

  /** Every entry that stores something stores a plain expression, without a designator. */
  predicate AllPlain(es: seq<Entry>) {
    |es| > 0 &&
    forall i :: 0 <= i < |es| && es[i].expr.Some? ==>
      es[i].expr.value.Expr? && es[i].designator.None? && !es[i].hasField
  }

  // ----- when there is a result -----

  /** The expressions have values, at any depth, as far as their entries aim inside the array, and all
      designators are constants. An elided list always has a result. */
  predicate Merges(ev: Evaluator, init: Init, s: Shape)
    decreases init, 1
  {
    if s.Scalar? || init.Expr? then ev(init, s).Some?
    else
      (AllPlain(init.entries) && !SomeDesignator(init.entries)) ||
      StoresFirst(ev, init, s, |init.entries|)
  }

  predicate StoresFirst(ev: Evaluator, init: Init, s: Shape, n: nat)
    requires init.Braces? && s.Arr? && n <= |init.entries|
    decreases init, 0, n, 1
  {
    forall i :: 0 <= i < n ==> Stores(ev, init, s, i)
  }

  predicate Stores(ev: Evaluator, init: Init, s: Shape, i: nat)
    requires init.Braces? && s.Arr? && i < |init.entries|
    decreases init, 0, i
  {
    var e := init.entries[i];
    e.expr.Some? ==>
      match PositionOf(init.entries, i)
      case None => false
      case Some(k) => k < s.length ==> Merges(ev, e.expr.value, s.elem)
  }

  lemma {:induction false} TestsAgree(es: seq<Entry>)
    ensures FlatScalars(es) == AllPlain(es) && HaveDesignators(es) == SomeDesignator(es)
  {
    if SomeDesignator(es) {
      var i :| 0 <= i < |es| && (es[i].designator.Some? || es[i].hasField);
      assert Designated(es[i]);
    }
  }

  /** Merging has a result exactly then. */
  lemma {:induction false} MergeSucceedsIff(ev: Evaluator, base: Option<Value>, init: Init, s: Shape)
    ensures Merge(ev, base, init, s).Some? <==> Merges(ev, init, s)
    decreases init, 2, 0
  {
    hide Entries, PositionOf, Stores;
    if s.Arr? && init.Braces? {
      var es := init.entries;
      TestsAgree(es);
      EntriesSucceedIff(ev, init, s, BaseValues(base, s.length, s.elem), |es|);
      EntriesSucceedIff(ev, init, s, BaseValues(None, s.length, s.elem), |es|);
    }
  }

  lemma {:induction false} EntriesSucceedIff(ev: Evaluator, init: Init, s: Shape, values: seq<Value>, n: nat)
    requires init.Braces? && s.Arr? && n <= |init.entries| && |values| == s.length
    ensures Entries(ev, init, s, values, n).Some? <==> StoresFirst(ev, init, s, n)
    ensures Entries(ev, init, s, values, n).Some? ==>
      NextPosition(init.entries, n) == Some(Entries(ev, init, s, values, n).value.1)
    decreases init, 1, n
  {
    if n > 0 {
      hide Merge, Merges;
      EntriesSucceedIff(ev, init, s, values, n - 1);
      var before, e := Entries(ev, init, s, values, n - 1), init.entries[n - 1];
      if before.Some? && e.expr.Some? && PositionOf(init.entries, n - 1).Some? {
        var now, k := before.value.0, PositionOf(init.entries, n - 1).value;
        if k < s.length {
          var was := if e.reset && e.expr.value.Braces? then Zero(s.elem) else now[k];
          MergeSucceedsIff(ev, Some(was), e.expr.value, s.elem);
        }
      }
      if before.Some? {
        assert EntryStep(ev, init, s, n - 1, before.value.0, before.value.1).Some? <==> Stores(ev, init, s, n - 1);
      }
    }
  }

  /** Building has a result exactly if the list can be elided or, being merged, would have one. */
  lemma {:induction false} BuildSucceedsIff(ev: Evaluator, init: Init, s: Shape)
    ensures Build(ev, init, s).Some? <==>
      (s.Arr? && init.Braces? && AllPlain(init.entries)) || Merges(ev, init, s)
  {
    hide Entries, PositionOf, Stores;
    if s.Arr? && init.Braces? {
      TestsAgree(init.entries);
      EntriesSucceedIff(ev, init, s, BaseValues(None, s.length, s.elem), |init.entries|);
    }
  }

  // ----- what it puts where -----

  /** What an initializer does to one leaf: leaves it alone or sets it. */
  datatype Effect = Keep | Set(v: int)

  /** The effect of the last of the first `n` entries that reaches the leaf, looked for from the end
      of the list. A reset entry reaches every leaf of its element. */
  function LastEffect(ev: Evaluator, init: Init, s: Shape, path: seq<nat>, n: nat): Effect
    requires init.Braces? && s.Arr? && ValidPath(s, path) && n <= |init.entries|
    decreases init, 1, n
  {
    if n == 0 then Keep
    else
      var e := init.entries[n - 1];
      if e.expr.None? || PositionOf(init.entries, n - 1) != Some(path[0])
      then LastEffect(ev, init, s, path, n - 1)
      else
        match EffectOf(ev, e.expr.value, s.elem, path[1..])
        case Set(v) => Set(v)
        case Keep => if e.reset && e.expr.value.Braces? then Set(0) else LastEffect(ev, init, s, path, n - 1)
  }

  /** A designated brace list touches only what its own entries reach; anything else sets the whole
      object: to the value of the expression, to the expressions of a plain list in row-major order, or
      to what the entries of a nested list leave in it. */
  function EffectOf(ev: Evaluator, init: Init, s: Shape, path: seq<nat>): Effect
    requires ValidPath(s, path)
    decreases init, 2, 0
  {
    if s.Scalar? || init.Expr? then
      match ev(init, s)
      case None => Keep
      case Some(v) => if HasShape(v, s) then Set(LeafAt(v, s, path)) else Keep
    else if SomeDesignator(init.entries) then LastEffect(ev, init, s, path, |init.entries|)
    else if AllPlain(init.entries) then Set(RowMajorLeaf(ev, init.entries, s, path))
    else Set(Apply(LastEffect(ev, init, s, path, |init.entries|), 0))
  }

  /** The leaf of an elided list. */
  function RowMajorLeaf(ev: Evaluator, es: seq<Entry>, s: Shape, path: seq<nat>): int
    requires ValidPath(s, path)
  {
    Padded(ev, Leading(es), 0, Leaves(s))[RowMajor(s, path)]
  }

  /** The leaf's number in row-major order. */
  function RowMajor(s: Shape, path: seq<nat>): (r: nat)
    requires ValidPath(s, path)
    ensures r < Leaves(s)
  {
    match s
    case Scalar => 0
    case Arr(n, e) =>
      TimesRoom(path[0], n, Leaves(e));
      Times(path[0], Leaves(e)) + RowMajor(e, path[1..])
  }

  lemma {:induction false} TimesRoom(k: nat, n: nat, l: nat)
    requires k < n
    ensures Times(k, l) + l <= Times(n, l)
    decreases n
  {
    TimesStep(n, l);
    if k < n - 1 { TimesRoom(k, n - 1, l); }
  }

  function Apply(e: Effect, was: int): int {
    match e case Keep => was case Set(v) => v
  }

  lemma {:induction false} ZeroLeaf(s: Shape, path: seq<nat>)
    requires ValidPath(s, path)
    ensures LeafAt(Zero(s), s, path) == 0
  {
    if s.Arr? { ZeroLeaf(s.elem, path[1..]); }
  }

  lemma {:induction false} BuildOfExpression(ev: Evaluator, init: Init, s: Shape)
    requires s.Scalar? || init.Expr?
    ensures Build(ev, init, s) == ev(init, s)
  {}

  /** Every leaf after a merge: the value of the last entry that reaches it, else the base's. */
  lemma {:induction false} MergeLeaf(ev: Evaluator, base: Value, init: Init, s: Shape, path: seq<nat>)
    requires Sound(ev) && HasShape(base, s) && ValidPath(s, path) && Merge(ev, Some(base), init, s).Some?
    ensures HasShape(Merge(ev, Some(base), init, s).value, s)
    ensures LeafAt(Merge(ev, Some(base), init, s).value, s, path)
      == Apply(EffectOf(ev, init, s, path), LeafAt(base, s, path))
    decreases init, 2, 0
  {
    hide Build, Entries, LastEffect, RowMajorLeaf;
    MergeShape(ev, Some(base), init, s);
    if s.Scalar? || init.Expr? {
      BuildOfExpression(ev, init, s);
    } else {
      TestsAgree(init.entries);
      if SomeDesignator(init.entries) {
        var values := BaseValues(Some(base), s.length, s.elem);
        assert values == base.elems;
        EntriesLeaf(ev, init, s, values, path, |init.entries|);
      } else if AllPlain(init.entries) {
        ElidedLeaf(ev, init.entries, s, path);
      } else {
        BuildLeaf(ev, init, s, path);
      }
    }
  }

  lemma {:induction false} EntriesLeaf(
    ev: Evaluator, init: Init, s: Shape, values: seq<Value>, path: seq<nat>, n: nat)
    requires Sound(ev) && init.Braces? && s.Arr? && n <= |init.entries|
    requires HasShape(Node(values), s) && ValidPath(s, path) && Entries(ev, init, s, values, n).Some?
    ensures var (now, next) := Entries(ev, init, s, values, n).value;
      NextPosition(init.entries, n) == Some(next) && HasShape(Node(now), s) &&
      LeafAt(Node(now), s, path) == Apply(LastEffect(ev, init, s, path, n), LeafAt(Node(values), s, path))
    decreases init, 1, n
  {
    EntriesShape(ev, init, s, values, n);
    if n > 0 {
      hide Merge, EffectOf;
      EntriesLeaf(ev, init, s, values, path, n - 1);
      var (now, next) := Entries(ev, init, s, values, n - 1).value;
      var e := init.entries[n - 1];
      if e.expr.Some? && PositionOf(init.entries, n - 1) == Some(path[0]) {
        var was := if e.reset && e.expr.value.Braces? then Zero(s.elem) else now[path[0]];
        MergeLeaf(ev, was, e.expr.value, s.elem, path[1..]);
        ZeroLeaf(s.elem, path[1..]);
      }
    }
  }

  /** Every leaf of a list built from scratch by position: the last entry that reaches it, else
      zero. */
  lemma {:induction false} BuildLeaf(ev: Evaluator, init: Init, s: Shape, path: seq<nat>)
    requires Sound(ev) && ValidPath(s, path) && s.Arr? && init.Braces? && !AllPlain(init.entries)
    requires Build(ev, init, s).Some?
    ensures HasShape(Build(ev, init, s).value, s)
    ensures LeafAt(Build(ev, init, s).value, s, path)
      == Apply(LastEffect(ev, init, s, path, |init.entries|), 0)
    decreases init, 1, |init.entries| + 1
  {
    hide Entries, LastEffect;
    BuildShape(ev, init, s);
    ZeroLeaf(s, path);
    if init.entries == [] {
      NoEntries(ev, init, s, path);
    } else {
      ZeroBase(s);
      EntriesLeaf(ev, init, s, Zero(s).elems, path, |init.entries|);
    }
  }

  lemma {:induction false} NoEntries(ev: Evaluator, init: Init, s: Shape, path: seq<nat>)
    requires init == Braces([]) && s.Arr? && ValidPath(s, path)
    ensures LastEffect(ev, init, s, path, 0) == Keep
  {}

  lemma {:induction false} ZeroBase(s: Shape)
    requires s.Arr?
    ensures BaseValues(None, s.length, s.elem) == Zero(s).elems
    ensures BaseValues(Some(Zero(s)), s.length, s.elem) == Zero(s).elems
  {}

  /** Building is merging into zero, unless the test for elision and the test for designators both
      succeed. */
  lemma {:induction false} BuildIsMergeUnlessBoth(ev: Evaluator, init: Init, s: Shape)
    requires init.Braces? && s.Arr? ==> !(AllPlain(init.entries) && SomeDesignator(init.entries))
    ensures Build(ev, init, s) == Merge(ev, Some(Zero(s)), init, s)
  {
    if s.Arr? && init.Braces? && SomeDesignator(init.entries) { ZeroBase(s); }
  }

  /** Every designator is followed by something to store, as in every list the parser builds. */
  predicate DesignatorsHaveValues(es: seq<Entry>) {
    forall i :: 0 <= i < |es| && Designated(es[i]) ==> es[i].expr.Some?
  }

  /** For those lists building is merging into zero. */
  lemma {:induction false} BuildIsMergeIntoZero(ev: Evaluator, init: Init, s: Shape)
    requires init.Braces? ==> DesignatorsHaveValues(init.entries)
    ensures Build(ev, init, s) == Merge(ev, Some(Zero(s)), init, s)
  {
    BuildIsMergeUnlessBoth(ev, init, s);
  }

  predicate Blank(es: seq<Entry>) {
    forall i :: 0 <= i < |es| ==> es[i].expr.None?
  }

  ghost predicate AlwaysMerges(init: Init, s: Shape) {
    forall ev: Evaluator :: Sound(ev) ==> Build(ev, init, s) == Merge(ev, Some(Zero(s)), init, s)
  }

  /** For any list: building is merging into zero, whatever the expressions mean, exactly when the two
      tests do not both succeed, the array is empty, or there is nothing to store. */
  lemma {:induction false} BuildIsMergeIff(init: Init, s: Shape)
    requires init.Braces? && s.Arr?
    ensures AlwaysMerges(init, s) <==>
      !(AllPlain(init.entries) && SomeDesignator(init.entries)) || s.length == 0 || Blank(init.entries)
  {
    var es := init.entries;
    if !(AllPlain(es) && SomeDesignator(es)) {
      forall ev: Evaluator | Sound(ev) ensures Build(ev, init, s) == Merge(ev, Some(Zero(s)), init, s) {
        BuildIsMergeUnlessBoth(ev, init, s);
      }
    } else if s.length == 0 || Blank(es) {
      forall ev: Evaluator | Sound(ev) ensures Build(ev, init, s) == Merge(ev, Some(Zero(s)), init, s) {
        NothingStored(ev, init, s);
      }
    } else {
      FailureTells(init, s);
    }
  }

  /** Nothing is stored in an empty array or from an empty list. */
  lemma {:induction false} NothingStored(ev: Evaluator, init: Init, s: Shape)
    requires init.Braces? && s.Arr? && AllPlain(init.entries) && SomeDesignator(init.entries)
    requires s.length == 0 || Blank(init.entries)
    ensures Build(ev, init, s) == Some(Zero(s)) == Merge(ev, Some(Zero(s)), init, s)
  {
    hide Entries, FlatElems;
    ZeroBase(s);
    EntriesStoreNothing(ev, init, s, Zero(s).elems, |init.entries|);
    FlatStoresNothing(ev, init, s, s.length);
    assert Zero(s).elems == seq(s.length, _ => Zero(s.elem));
  }

  lemma {:induction false} EntriesStoreNothing(ev: Evaluator, init: Init, s: Shape, values: seq<Value>, n: nat)
    requires init.Braces? && s.Arr? && AllPlain(init.entries) && n <= |init.entries| && |values| == s.length
    requires s.length == 0 || Blank(init.entries)
    ensures Entries(ev, init, s, values, n).Some? && Entries(ev, init, s, values, n).value.0 == values
    decreases n
  {
    hide Merge, Build;
    if n > 0 { EntriesStoreNothing(ev, init, s, values, n - 1); }
  }

  lemma {:induction false} FlatStoresNothing(ev: Evaluator, init: Init, s: Shape, n: nat)
    requires init.Braces? && s.Arr? && n <= s.length && (s.length == 0 || Blank(init.entries))
    ensures FlatElems(ev, init, s, 0, n) == (seq(n, _ => Zero(s.elem)), 0)
    decreases n
  {
    hide Build, Zero;
    if n == 0 {
      assert seq(n, _ => Zero(s.elem)) == [];
    } else {
      FlatStoresNothing(ev, init, s, n - 1);
      assert seq(n - 1, _ => Zero(s.elem)) + [Zero(s.elem)] == seq(n, _ => Zero(s.elem));
    }
  }

  /** Elision puts zero where an expression has no constant value, and merging gives up. */
  lemma {:induction false} FailureTells(init: Init, s: Shape)
    requires init.Braces? && s.Arr? && s.length > 0 && !Blank(init.entries)
    requires AllPlain(init.entries) && SomeDesignator(init.entries)
    ensures !AlwaysMerges(init, s)
  {
    var never: Evaluator := (_, _) => None;
    var values := BaseValues(Some(Zero(s)), s.length, s.elem);
    var f := FirstStored(init.entries, 0);
    EntriesFail(never, init, s, values, f, f);
    FailureStays(never, init, s, values, f + 1, |init.entries|);
    assert Sound(never) && Build(never, init, s).Some? && Merge(never, Some(Zero(s)), init, s).None?;
  }

  lemma {:induction false} FirstStored(es: seq<Entry>, from: nat) returns (f: nat)
    requires from <= |es| && exists i :: from <= i < |es| && es[i].expr.Some?
    ensures from <= f < |es| && es[f].expr.Some? && forall i :: from <= i < f ==> es[i].expr.None?
    decreases |es| - from
  {
    if es[from].expr.Some? { f := from; } else { f := FirstStored(es, from + 1); }
  }

  /** The first entry with an expression aims at position zero and fails. */
  lemma {:induction false} EntriesFail(ev: Evaluator, init: Init, s: Shape, values: seq<Value>, f: nat, n: nat)
    requires init.Braces? && s.Arr? && s.length > 0 && |values| == s.length && n <= f < |init.entries|
    requires AllPlain(init.entries) && init.entries[f].expr.Some? && ev(init.entries[f].expr.value, s.elem).None?
    requires forall i :: 0 <= i < f ==> init.entries[i].expr.None?
    ensures Entries(ev, init, s, values, n) == Some((values, 0))
    ensures n == f ==> Entries(ev, init, s, values, f + 1).None?
    decreases n
  {
    if n > 0 { EntriesFail(ev, init, s, values, f, n - 1); }
    if n == f {
      assert Merge(ev, Some(values[0]), init.entries[f].expr.value, s.elem) == None;
      assert EntryStep(ev, init, s, f, values, 0) == None;
    }
  }

  // ----- brace elision -----

  function Leaves(s: Shape): nat {
    match s case Scalar => 1 case Arr(n, e) => Times(n, Leaves(e))
  }

  /** The leaves in row-major order. */
  function Flatten(v: Value): seq<int> {
    match v
    case Leaf(x) => [x]
    case Node(vs) => FlattenFirst(v, |vs|)
  }

  function FlattenFirst(v: Value, n: nat): seq<int>
    requires v.Node? && n <= |v.elems|
    decreases v, n
  {
    if n == 0 then [] else FlattenFirst(v, n - 1) + Flatten(v.elems[n - 1])
  }

  /** What each entry is worth as a scalar. */
  function ScalarValue(ev: Evaluator, e: Entry): int {
    if e.expr.Some? && ev(e.expr.value, Scalar).Some? && ev(e.expr.value, Scalar).value.Leaf?
    then ev(e.expr.value, Scalar).value.v
    else 0
  }

  /** `k` entry values from `from` on, padded with zeros. */
  function Padded(ev: Evaluator, es: seq<Entry>, from: nat, k: nat): (r: seq<int>)
    ensures |r| == k
  {
    seq(k, j requires 0 <= j < k => if from + j < |es| then ScalarValue(ev, es[from + j]) else 0)
  }

  predicate PlainEntries(es: seq<Entry>) {
    forall i :: 0 <= i < |es| ==>
      es[i].expr.Some? && es[i].expr.value.Expr? && es[i].designator.None? && !es[i].hasField
  }

  function Advance(cursor: nat, k: nat, n: nat): nat {
    if cursor + k <= n then cursor + k else n
  }

  /** The flat builder takes the entries in row-major order, cut or padded with zeros, and moves the
      cursor by exactly the number it consumed. */
  lemma {:induction false} FlatArrayIsRowMajor(ev: Evaluator, init: Init, s: Shape, cursor: nat)
    requires Sound(ev) && init.Braces? && s.Arr? && PlainEntries(init.entries) && cursor <= |init.entries|
    ensures var (v, c) := FlatArray(ev, init, s, cursor);
      Flatten(v) == Padded(ev, init.entries, cursor, Leaves(s)) &&
      c == Advance(cursor, Leaves(s), |init.entries|)
    decreases s, s.length + 1
  {
    FlatElemsAreRowMajor(ev, init, s, cursor, s.length);
    var vs := FlatElems(ev, init, s, cursor, s.length).0;
    FlattenNode(vs);
  }

  /** Row-major order of a list of elements. */
  function FlattenAll(vs: seq<Value>): seq<int> {
    if vs == [] then [] else FlattenAll(vs[..|vs| - 1]) + Flatten(vs[|vs| - 1])
  }

  lemma {:induction false} FlattenPrefix(v: Value, n: nat)
    requires v.Node? && n <= |v.elems|
    ensures FlattenFirst(v, n) == FlattenAll(v.elems[..n])
    decreases n
  {
    if n > 0 {
      FlattenPrefix(v, n - 1);
      assert v.elems[..n][..n - 1] == v.elems[..n - 1];
    }
  }

  lemma {:induction false} FlattenNode(vs: seq<Value>)
    ensures Flatten(Node(vs)) == FlattenAll(vs)
  {
    FlattenPrefix(Node(vs), |vs|);
    assert vs[..|vs|] == vs;
  }

  lemma {:induction false} FlatElemsAreRowMajor(ev: Evaluator, init: Init, s: Shape, cursor: nat, n: nat)
    requires Sound(ev) && init.Braces? && s.Arr? && PlainEntries(init.entries) && cursor <= |init.entries|
    requires n <= s.length
    ensures var (vs, c) := FlatElems(ev, init, s, cursor, n);
      FlattenAll(vs) == Padded(ev, init.entries, cursor, Times(n, Leaves(s.elem))) &&
      c == Advance(cursor, Times(n, Leaves(s.elem)), |init.entries|)
    decreases s, n
  {
    if n > 0 {
      hide Flatten, Leaves, Times, Padded, Advance;
      var l := Leaves(s.elem);
      FlatElemsAreRowMajor(ev, init, s, cursor, n - 1);
      var (vs, c) := FlatElems(ev, init, s, cursor, n - 1);
      FlatElemIsRowMajor(ev, init, s, c, n - 1);
      var (v, c1) := FlatElem(ev, init, s, c, n - 1);
      assert (vs + [v])[..n - 1] == vs;
      TimesStep(n, l);
      PaddedAppend(ev, init.entries, cursor, Times(n - 1, l), l);
    }
  }

  lemma {:induction false} PaddedAppend(ev: Evaluator, es: seq<Entry>, from: nat, k: nat, l: nat)
    requires from <= |es|
    ensures Padded(ev, es, from, k) + Padded(ev, es, Advance(from, k, |es|), l) == Padded(ev, es, from, k + l)
    ensures Advance(Advance(from, k, |es|), l, |es|) == Advance(from, k + l, |es|)
  {}

  lemma {:induction false} FlatElemIsRowMajor(ev: Evaluator, init: Init, s: Shape, c: nat, n: nat)
    requires Sound(ev) && init.Braces? && s.Arr? && PlainEntries(init.entries) && c <= |init.entries| && n < s.length
    ensures var (v, c1) := FlatElem(ev, init, s, c, n);
      Flatten(v) == Padded(ev, init.entries, c, Leaves(s.elem)) && c1 == Advance(c, Leaves(s.elem), |init.entries|)
    decreases s, n
  {
    if c >= |init.entries| {
      ZeroFlat(s.elem);
      assert Padded(ev, init.entries, c, Leaves(s.elem)) == seq(Leaves(s.elem), _ => 0);
    } else if s.elem.Arr? {
      FlatArrayIsRowMajor(ev, init, s.elem, c);
    } else {
      ScalarElem(ev, init, c);
    }
  }

  lemma {:induction false} ScalarElem(ev: Evaluator, init: Init, c: nat)
    requires Sound(ev) && init.Braces? && PlainEntries(init.entries) && c < |init.entries|
    ensures Flatten(OrZero(Build(ev, init.entries[c].expr.value, Scalar), Scalar)) == Padded(ev, init.entries, c, 1)
  {
    var e := init.entries[c].expr.value;
    assert Build(ev, e, Scalar) == ev(e, Scalar);
    var v := OrZero(ev(e, Scalar), Scalar);
    assert HasShape(v, Scalar) && v == Leaf(ScalarValue(ev, init.entries[c]));
    assert Flatten(v) == [v.v];
    assert Padded(ev, init.entries, c, 1) == [v.v];
  }

  lemma {:induction false} ZeroFlat(s: Shape)
    ensures Flatten(Zero(s)) == seq(Leaves(s), _ => 0)
  {
    if s.Arr? {
      ZeroFlat(s.elem);
      ZeroFlatAll(s.elem, s.length);
      FlattenNode(Zero(s).elems);
      assert Zero(s).elems == seq(s.length, _ => Zero(s.elem));
    }
  }

  lemma {:induction false} ZeroFlatAll(e: Shape, n: nat)
    requires Flatten(Zero(e)) == seq(Leaves(e), _ => 0)
    ensures FlattenAll(seq(n, _ => Zero(e))) == seq(Times(n, Leaves(e)), _ => 0)
  {
    if n > 0 {
      ZeroFlatAll(e, n - 1);
      var all := seq(n, _ => Zero(e));
      assert all[..n - 1] == seq(n - 1, _ => Zero(e));
      TimesStep(n, Leaves(e));
    }
  }

  /** The entries before the first one without an expression. */
  function Leading(es: seq<Entry>): (r: seq<Entry>)
    ensures r <= es && (|r| < |es| ==> es[|r|].expr.None?)
    ensures forall i :: 0 <= i < |r| ==> r[i].expr.Some?
  {
    if es == [] || es[0].expr.None? then [] else [es[0]] + Leading(es[1..])
  }

  /** Elision never gets past an entry without an expression. */
  lemma {:induction false} FlatArrayStops(ev: Evaluator, es: seq<Entry>, s: Shape, cursor: nat)
    requires s.Arr? && cursor <= |Leading(es)|
    ensures FlatArray(ev, Braces(es), s, cursor) == FlatArray(ev, Braces(Leading(es)), s, cursor)
    ensures FlatArray(ev, Braces(es), s, cursor).1 <= |Leading(es)|
    decreases s, s.length + 1
  {
    FlatElemsStop(ev, es, s, cursor, s.length);
  }

  lemma {:induction false} FlatElemsStop(ev: Evaluator, es: seq<Entry>, s: Shape, cursor: nat, n: nat)
    requires s.Arr? && cursor <= |Leading(es)| && n <= s.length
    ensures FlatElems(ev, Braces(es), s, cursor, n) == FlatElems(ev, Braces(Leading(es)), s, cursor, n)
    ensures FlatElems(ev, Braces(es), s, cursor, n).1 <= |Leading(es)|
    decreases s, n
  {
    hide FlatElem, Leading;
    if n > 0 {
      FlatElemsStop(ev, es, s, cursor, n - 1);
      FlatElemStops(ev, es, s, FlatElems(ev, Braces(es), s, cursor, n - 1).1, n - 1);
    }
  }

  lemma {:induction false} FlatElemStops(ev: Evaluator, es: seq<Entry>, s: Shape, c: nat, n: nat)
    requires s.Arr? && c <= |Leading(es)| && n < s.length
    ensures FlatElem(ev, Braces(es), s, c, n) == FlatElem(ev, Braces(Leading(es)), s, c, n)
    ensures FlatElem(ev, Braces(es), s, c, n).1 <= |Leading(es)|
    decreases s, n
  {
    hide Build, Zero, FlatArray;
    if c < |Leading(es)| && s.elem.Arr? && es[c].expr.value.Expr? { FlatArrayStops(ev, es, s.elem, c); }
  }

  /** A list of plain expressions built for an array of any depth: the entries before the first blank
      one, in row-major order, cut or padded with zeros. */
  lemma {:induction false} ElidedBraces(ev: Evaluator, es: seq<Entry>, s: Shape)
    requires Sound(ev) && s.Arr? && AllPlain(es)
    ensures Build(ev, Braces(es), s).Some?
    ensures Flatten(Build(ev, Braces(es), s).value) == Padded(ev, Leading(es), 0, Leaves(s))
  {
    hide Flatten, Leaves, Padded;
    FlatArrayStops(ev, es, s, 0);
    FlatArrayIsRowMajor(ev, Braces(Leading(es)), s, 0);
  }

  /** The same, leaf by leaf. */
  lemma {:induction false} ElidedLeaf(ev: Evaluator, es: seq<Entry>, s: Shape, path: seq<nat>)
    requires Sound(ev) && s.Arr? && AllPlain(es) && ValidPath(s, path)
    ensures Build(ev, Braces(es), s).Some? && HasShape(Build(ev, Braces(es), s).value, s)
    ensures LeafAt(Build(ev, Braces(es), s).value, s, path) == RowMajorLeaf(ev, es, s, path)
  {
    hide Build, Flatten, Leaves, Padded;
    ElidedBraces(ev, es, s);
    BuildShape(ev, Braces(es), s);
    LeafInOrder(Build(ev, Braces(es), s).value, s, path);
  }

  lemma {:induction false} FlattenLength(v: Value, s: Shape)
    requires HasShape(v, s)
    ensures |Flatten(v)| == Leaves(s)
    decreases s, 0
  {
    if s.Arr? {
      FlattenNode(v.elems);
      FlattenAllLength(v.elems, s.elem);
    }
  }

  lemma {:induction false} FlattenAllLength(vs: seq<Value>, e: Shape)
    requires forall k :: 0 <= k < |vs| ==> HasShape(vs[k], e)
    ensures |FlattenAll(vs)| == Times(|vs|, Leaves(e))
    decreases e, |vs|
  {
    if vs != [] {
      FlattenAllLength(vs[..|vs| - 1], e);
      FlattenLength(vs[|vs| - 1], e);
      TimesStep(|vs|, Leaves(e));
    }
  }

  lemma {:induction false} FlattenAllAt(vs: seq<Value>, e: Shape, k: nat, j: nat)
    requires forall i :: 0 <= i < |vs| ==> HasShape(vs[i], e)
    requires k < |vs| && j < Leaves(e)
    ensures |Flatten(vs[k])| == Leaves(e) && Times(k, Leaves(e)) + j < |FlattenAll(vs)|
    ensures FlattenAll(vs)[Times(k, Leaves(e)) + j] == Flatten(vs[k])[j]
    decreases |vs|
  {
    var front := vs[..|vs| - 1];
    FlattenAllLength(front, e);
    FlattenLength(vs[k], e);
    if k < |front| { FlattenAllAt(front, e, k, j); }
  }

  /** A leaf is where its number says in the row-major order. */
  lemma {:induction false} LeafInOrder(v: Value, s: Shape, path: seq<nat>)
    requires HasShape(v, s) && ValidPath(s, path)
    ensures |Flatten(v)| == Leaves(s) && Flatten(v)[RowMajor(s, path)] == LeafAt(v, s, path)
  {
    FlattenLength(v, s);
    if s.Arr? {
      hide Flatten, Leaves, Times;
      FlattenNode(v.elems);
      LeafInOrder(v.elems[path[0]], s.elem, path[1..]);
      FlattenAllAt(v.elems, s.elem, path[0], RowMajor(s.elem, path[1..]));
    }
  }
}
