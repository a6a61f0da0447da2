/** Constant initializers of arrays: designated and positional entries merged over a base, and brace
    elision. Constants of other target types come from an evaluator given as a parameter. */
module ArrayInit {
  import opened Options
  import Words

  /** The type of an array of any depth with scalar leaves. */
  datatype Shape = Scalar | Arr(length: nat, elem: Shape)

  datatype Value = Leaf(v: int) | Node(elems: seq<Value>)

  /** `designator` is the array designator, if any, with its value when that is a constant. An entry
      without an expression is skipped. */
  datatype Entry = Entry(designator: Option<Option<nat>>, hasField: bool, reset: bool, expr: Option<Init>)

  datatype Init = Expr(id: nat) | Braces(entries: seq<Entry>)

  /** Builds a constant for any target that is not an array given in braces, or fails. */
  type Evaluator = (Init, Shape) -> Option<Value>

  predicate HasShape(v: Value, s: Shape) {
    match s
    case Scalar => v.Leaf?
    case Arr(n, e) => v.Node? && |v.elems| == n && forall k :: 0 <= k < n ==> HasShape(v.elems[k], e)
  }

  ghost predicate Sound(ev: Evaluator) {
    forall i, s :: ev(i, s).Some? ==> HasShape(ev(i, s).value, s)
  }

  function Zero(s: Shape): (r: Value)
    ensures HasShape(r, s)
  {
    match s
    case Scalar => Leaf(0)
    case Arr(n, e) => var z := Zero(e); Node(seq(n, _ => z))
  }

  /** Element `k` of the base, or zero when the base has none. */
  function Extract(base: Option<Value>, k: nat, elem: Shape): Value {
    if base.Some? && base.value.Node? && k < |base.value.elems| then base.value.elems[k] else Zero(elem)
  }

  function BaseValues(base: Option<Value>, n: nat, elem: Shape): (r: seq<Value>)
    ensures |r| == n
  {
    seq(n, k requires 0 <= k < n => Extract(base, k, elem))
  }

  predicate Designated(e: Entry) {
    e.designator.Some? || e.hasField
  }

  predicate HaveDesignators(es: seq<Entry>) {
    exists i :: 0 <= i < |es| && Designated(es[i])
  }

  /** Nothing but plain expressions. */
  predicate FlatScalars(es: seq<Entry>) {
    |es| > 0 &&
    forall i :: 0 <= i < |es| && es[i].expr.Some? ==> !Designated(es[i]) && es[i].expr.value.Expr?
  }

  // ----- building and merging -----

  function Build(ev: Evaluator, init: Init, s: Shape): Option<Value>
    decreases init, 3, s, 0
  {
    if s.Scalar? || init.Expr? then ev(init, s)
    else if init.entries == [] then Some(Zero(s))
    else if FlatScalars(init.entries) then Some(FlatArray(ev, init, s, 0).0)
    else Finish(Entries(ev, init, s, BaseValues(None, s.length, s.elem), |init.entries|))
  }

  function Finish(st: Option<(seq<Value>, nat)>): Option<Value> {
    match st case None => None case Some((values, _)) => Some(Node(values))
  }

  function Merge(ev: Evaluator, base: Option<Value>, init: Init, s: Shape): Option<Value>
    decreases init, 4, s, 0
  {
    if s.Arr? && init.Braces? && HaveDesignators(init.entries) then MergeArray(ev, base, init, s)
    else Build(ev, init, s)
  }

  function MergeArray(ev: Evaluator, base: Option<Value>, init: Init, s: Shape): Option<Value>
    requires init.Braces? && s.Arr?
    decreases init, 3, s, 0
  {
    Finish(Entries(ev, init, s, BaseValues(base, s.length, s.elem), |init.entries|))
  }

  /** The element values and the next implicit position after the first `n` entries. */
  function Entries(ev: Evaluator, init: Init, s: Shape, values: seq<Value>, n: nat): (r: Option<(seq<Value>, nat)>)
    requires init.Braces? && s.Arr? && n <= |init.entries| && |values| == s.length
    ensures r.Some? ==> |r.value.0| == s.length
    decreases init, 2, s, n
  {
    if n == 0 then Some((values, 0))
    else
      match Entries(ev, init, s, values, n - 1)
      case None => None
      case Some((now, implicitIndex)) => EntryStep(ev, init, s, n - 1, now, implicitIndex)
  }

  function EntryStep(ev: Evaluator, init: Init, s: Shape, i: nat, now: seq<Value>, implicitIndex: nat)
    : (r: Option<(seq<Value>, nat)>)
    requires init.Braces? && s.Arr? && i < |init.entries| && |now| == s.length
    ensures r.Some? ==> |r.value.0| == s.length
    decreases init, 1, s, i
  {
    var e := init.entries[i];
    if e.expr.None? then Some((now, implicitIndex))
    else
      match Target(e, implicitIndex)
      case None => None
      case Some(k) =>
        var next := (k + 1) % Words.WORD;
        if k >= s.length then Some((now, next))
        else
          match Merge(ev, Some(if e.reset && e.expr.value.Braces? then Zero(s.elem) else now[k]), e.expr.value, s.elem)
          case None => None
          case Some(v) => Some((now[k := v], next))
  }

  /** The position an entry aims at; none for a designator that is not a constant. */
  function Target(e: Entry, implicitIndex: nat): Option<nat> {
    match e.designator case None => Some(implicitIndex) case Some(d) => d
  }

  /** Brace elision: fills the array from the entries at `cursor` and returns the new cursor. */
  function FlatArray(ev: Evaluator, init: Init, s: Shape, cursor: nat): (Value, nat)
    requires init.Braces? && s.Arr?
    decreases init, 0, s, s.length + 1
  {
    var (values, c) := FlatElems(ev, init, s, cursor, s.length);
    (Node(values), c)
  }

  /** The first `n` elements. */
  function FlatElems(ev: Evaluator, init: Init, s: Shape, cursor: nat, n: nat): (r: (seq<Value>, nat))
    requires init.Braces? && s.Arr? && n <= s.length
    ensures |r.0| == n
    decreases init, 0, s, n
  {
    if n == 0 then ([], cursor)
    else
      var (values, c) := FlatElems(ev, init, s, cursor, n - 1);
      var (v, c1) := FlatElem(ev, init, s, c, n - 1);
      (values + [v], c1)
  }

  function FlatElem(ev: Evaluator, init: Init, s: Shape, c: nat, n: nat): (Value, nat)
    requires init.Braces? && s.Arr? && n < s.length
    decreases init, 0, s, n
  {
    if c >= |init.entries| || init.entries[c].expr.None? then (Zero(s.elem), c)
    else
      var e := init.entries[c].expr.value;
      if s.elem.Arr? && e.Expr? then FlatArray(ev, init, s.elem, c)
      else (OrZero(Build(ev, e, s.elem), s.elem), c + 1)
  }

  function OrZero(v: Option<Value>, s: Shape): Value {
    match v case None => Zero(s) case Some(x) => x
  }

  // ----- the loops -----

  method BuildInitializer(ev: Evaluator, init: Init, s: Shape) returns (r: Option<Value>)
    ensures r == Build(ev, init, s)
    decreases init, 3, s
  {
    if s.Scalar? || init.Expr? { return ev(init, s); }
    if init.entries == [] { return Some(Zero(s)); }
    if FlatScalars(init.entries) {
      var v, _ := BuildArrayFlat(ev, init, s, 0);
      return Some(v);
    }
    r := ApplyEntries(ev, init, s, BaseValues(None, s.length, s.elem));
  }

  method MergeInitializer(ev: Evaluator, base: Option<Value>, init: Init, s: Shape) returns (r: Option<Value>)
    ensures r == Merge(ev, base, init, s)
    decreases init, 4, s
  {
    if s.Arr? && init.Braces? && HaveDesignators(init.entries) {
      r := ApplyEntries(ev, init, s, BaseValues(base, s.length, s.elem));
    } else {
      r := BuildInitializer(ev, init, s);
    }
  }

  /** One pass over the entries, storing into the element array. */
  method ApplyEntries(ev: Evaluator, init: Init, s: Shape, base: seq<Value>) returns (r: Option<Value>)
    requires init.Braces? && s.Arr? && |base| == s.length
    ensures r == Finish(Entries(ev, init, s, base, |init.entries|))
    decreases init, 2, s
  {
    hide Merge, Build;
    var es := init.entries;
    var values := base;
    var implicitIndex: nat := 0;
    for i := 0 to |es|
      invariant |values| == s.length
      invariant Entries(ev, init, s, base, i) == Some((values, implicitIndex))
    {
      if es[i].expr.None? { continue; }
      var targetIndex := implicitIndex;
      if es[i].designator.Some? {
        if es[i].designator.value.None? {
          FailureStays(ev, init, s, base, i + 1, |es|);
          return None;
        }
        targetIndex := es[i].designator.value.value;
      }
      implicitIndex := (targetIndex + 1) % Words.WORD;
      if targetIndex >= s.length { continue; }
      var b := if es[i].reset && es[i].expr.value.Braces? then Zero(s.elem) else values[targetIndex];
      var v := MergeInitializer(ev, Some(b), es[i].expr.value, s.elem);
      if v.None? {
        FailureStays(ev, init, s, base, i + 1, |es|);
        return None;
      }
      values := values[targetIndex := v.value];
    }
    return Some(Node(values));
  }

  method BuildArrayFlat(ev: Evaluator, init: Init, s: Shape, start: nat) returns (v: Value, cursor: nat)
    requires init.Braces? && s.Arr?
    ensures (v, cursor) == FlatArray(ev, init, s, start)
    decreases init, 0, s
  {
    hide Build;
    var values: seq<Value> := [];
    cursor := start;
    for i := 0 to s.length
      invariant FlatElems(ev, init, s, start, i) == (values, cursor)
    {
      var elemConst := Zero(s.elem);
      if cursor < |init.entries| && init.entries[cursor].expr.Some? {
        var e := init.entries[cursor].expr.value;
        if s.elem.Arr? && e.Expr? {
          elemConst, cursor := BuildArrayFlat(ev, init, s.elem, cursor);
        } else {
          var built := BuildInitializer(ev, e, s.elem);
          elemConst := OrZero(built, s.elem);
          cursor := cursor + 1;
        }
      }
      values := values + [elemConst];
    }
    v := Node(values);
  }

  lemma {:induction false} FailureStays(ev: Evaluator, init: Init, s: Shape, values: seq<Value>, i: nat, n: nat)
    requires init.Braces? && s.Arr? && i <= n <= |init.entries| && |values| == s.length
    requires Entries(ev, init, s, values, i).None?
    ensures Entries(ev, init, s, values, n).None?
    decreases n
  {
    hide EntryStep;
    if i < n { FailureStays(ev, init, s, values, i, n - 1); }
  }

  // ----- shapes are kept -----

  lemma {:induction false} BuildShape(ev: Evaluator, init: Init, s: Shape)
    requires Sound(ev)
    ensures Build(ev, init, s).Some? ==> HasShape(Build(ev, init, s).value, s)
    decreases init, 3, s, 0
  {
    if s.Scalar? || init.Expr? {
    } else if init.entries == [] {
    } else if FlatScalars(init.entries) {
      FlatArrayShape(ev, init, s, 0);
    } else {
      EntriesShape(ev, init, s, BaseValues(None, s.length, s.elem), |init.entries|);
    }
  }

  lemma {:induction false} MergeShape(ev: Evaluator, base: Option<Value>, init: Init, s: Shape)
    requires Sound(ev) && (base.Some? ==> HasShape(base.value, s))
    ensures Merge(ev, base, init, s).Some? ==> HasShape(Merge(ev, base, init, s).value, s)
    decreases init, 4, s, 0
  {
    hide Build, Entries;
    if s.Arr? && init.Braces? && HaveDesignators(init.entries) {
      EntriesShape(ev, init, s, BaseValues(base, s.length, s.elem), |init.entries|);
    } else {
      BuildShape(ev, init, s);
    }
  }

  lemma {:induction false} EntriesShape(ev: Evaluator, init: Init, s: Shape, values: seq<Value>, n: nat)
    requires Sound(ev) && init.Braces? && s.Arr? && n <= |init.entries|
    requires HasShape(Node(values), s)
    ensures var r := Entries(ev, init, s, values, n); r.Some? ==> HasShape(Node(r.value.0), s)
    decreases init, 2, s, n
  {
    hide Merge;
    if n > 0 && Entries(ev, init, s, values, n).Some? {
      EntriesShape(ev, init, s, values, n - 1);
      var (now, implicitIndex) := Entries(ev, init, s, values, n - 1).value;
      var e := init.entries[n - 1];
      if e.expr.Some? && Target(e, implicitIndex).Some? && Target(e, implicitIndex).value < s.length {
        var k := Target(e, implicitIndex).value;
        MergeShape(ev, Some(if e.reset && e.expr.value.Braces? then Zero(s.elem) else now[k]), e.expr.value, s.elem);
      }
    }
  }

  lemma {:induction false} FlatArrayShape(ev: Evaluator, init: Init, s: Shape, cursor: nat)
    requires Sound(ev) && init.Braces? && s.Arr?
    ensures HasShape(FlatArray(ev, init, s, cursor).0, s)
    decreases init, 0, s, s.length + 1
  {
    FlatElemsShape(ev, init, s, cursor, s.length);
  }

  lemma {:induction false} FlatElemsShape(ev: Evaluator, init: Init, s: Shape, cursor: nat, n: nat)
    requires Sound(ev) && init.Braces? && s.Arr? && n <= s.length
    ensures forall k :: 0 <= k < n ==> HasShape(FlatElems(ev, init, s, cursor, n).0[k], s.elem)
    decreases init, 0, s, n
  {
    hide Build;
    if n > 0 {
      FlatElemsShape(ev, init, s, cursor, n - 1);
      var c := FlatElems(ev, init, s, cursor, n - 1).1;
      if c < |init.entries| && init.entries[c].expr.Some? {
        var e := init.entries[c].expr.value;
        if s.elem.Arr? && e.Expr? { FlatArrayShape(ev, init, s.elem, c); } else { BuildShape(ev, e, s.elem); }
      }
    }
  }
}
