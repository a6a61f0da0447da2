/** Symbols collected for the cross-translation-unit check, and when two of them clash. Whether two
    types agree structurally is decided elsewhere and comes in as a relation. */
module CrossTuSymbols {
  import opened Options

  datatype Kind = Variable | Function | OtherKind

  datatype Key = Key(name: string, kind: Kind)

  /** One array dimension. `sizeExpr` is the size written in the source, with its value when it is a
      literal that parses. */
  datatype Dim = Dim(isVLA: bool, isFlexible: bool, constantSize: Option<int>, sizeExpr: Option<Option<int>>)

  datatype Type = Type(id: nat, dims: seq<Dim>)

  datatype Signature = Signature(params: seq<Type>, variadic: bool, hasPrototype: bool)

  datatype Def = Def(name: string, kind: Kind, ty: Type, signature: Signature, hasDefinition: bool)

  datatype Storage = Extern | Static | OtherStorage

  datatype Symbol = Symbol(def: Def, externalLinkage: bool, storage: Storage, hasBody: bool, isTentative: bool)

  /** `compatible` compares types, `contracts` the unit contracts of return types (used when `units`
      is on), and `unpromoted` holds of types that default argument promotion leaves alone. */
  datatype Rules = Rules(
    compatible: (Type, Type) -> bool,
    contracts: (Type, Type) -> bool,
    units: bool,
    unpromoted: Type -> bool)

  function KeyOf(d: Def): Key {
    Key(d.name, d.kind)
  }

  /** Whether the check looks at a symbol at all. */
  predicate Collected(s: Symbol) {
    match s.def.kind
    case Variable => s.externalLinkage && (s.def.hasDefinition || s.isTentative || s.storage.Extern?)
    case Function => !s.storage.Static? && s.hasBody
    case OtherKind => false
  }

  // ----- array bounds -----

  function Bound(d: Dim): Option<int> {
    if d.isVLA || d.isFlexible then None
    else if d.constantSize.Some? then d.constantSize
    else if d.sizeExpr.Some? then d.sizeExpr.value
    else None
  }

  predicate Incomplete(d: Dim) {
    Bound(d).None? && !d.isVLA && !d.isFlexible && d.sizeExpr.None?
  }

  /** Two dimensions agree if they are of one kind and their bounds are equal where both are known;
      a known bound also agrees with a missing one. */
  predicate DimsAgree(a: Dim, b: Dim) {
    a.isVLA == b.isVLA &&
    (Bound(a).Some? && Bound(b).Some? ==> Bound(a) == Bound(b)) &&
    (Bound(a).Some? != Bound(b).Some? ==> Incomplete(a) || Incomplete(b))
  }

  predicate BoundsAgree(a: Type, b: Type) {
    |a.dims| == |b.dims| && forall i :: 0 <= i < |a.dims| ==> DimsAgree(a.dims[i], b.dims[i])
  }

  /** What is written between the brackets. */
  datatype Brackets = Variable | Flexible | Fixed(n: int) | Unread | Missing

  function BracketsOf(d: Dim): Brackets {
    match d
    case Dim(true, _, _, _) => Brackets.Variable
    case Dim(false, true, _, _) => Flexible
    case Dim(false, false, Some(n), _) => Fixed(n)
    case Dim(false, false, None, Some(Some(n))) => Fixed(n)
    case Dim(false, false, None, Some(None)) => Unread
    case Dim(false, false, None, None) => Missing
  }

  /** The whole table: a variable length agrees only with another, a fixed one with the same or a
      missing one, and the rest with each other. */
  predicate BracketsAgree(a: Brackets, b: Brackets) {
    match (a, b)
    case (Variable, _) => b.Variable?
    case (_, Variable) => false
    case (Fixed(m), Fixed(n)) => m == n
    case (Fixed(_), _) => b.Missing?
    case (_, Fixed(_)) => a.Missing?
    case _ => true
  }

  lemma {:induction false} DimsAgreeIff(a: Dim, b: Dim)
    ensures DimsAgree(a, b) <==> BracketsAgree(BracketsOf(a), BracketsOf(b))
  {}

  method ArrayBoundsCompatible(a: Type, b: Type) returns (ok: bool)
    ensures ok == BoundsAgree(a, b)
  {
    if |a.dims| != |b.dims| { return false; }
    for i := 0 to |a.dims|
      invariant forall k :: 0 <= k < i ==> DimsAgree(a.dims[k], b.dims[k])
    {
      var l, r := a.dims[i], b.dims[i];
      if l.isVLA != r.isVLA { return false; }
      var lhs, rhs := Bound(l), Bound(r);
      if lhs.Some? && rhs.Some? && lhs.value != rhs.value { return false; }
      if lhs.Some? != rhs.Some? && !(Incomplete(l) || Incomplete(r)) { return false; }
    }
    return true;
  }

  // ----- signatures -----

  /** A prototype that agrees with any declaration that has none. */
  predicate FitsUnprototyped(rules: Rules, s: Signature) {
    !s.variadic && forall i :: 0 <= i < |s.params| ==> rules.unpromoted(s.params[i])
  }

  predicate SignaturesAgree(rules: Rules, a: Signature, b: Signature) {
    if a.hasPrototype && b.hasPrototype then
      |a.params| == |b.params| && a.variadic == b.variadic &&
      forall i :: 0 <= i < |a.params| ==> rules.compatible(a.params[i], b.params[i])
    else
      (a.hasPrototype ==> FitsUnprototyped(rules, a)) && (b.hasPrototype ==> FitsUnprototyped(rules, b))
  }

  method FunctionSignaturesMatch(rules: Rules, a: Signature, b: Signature) returns (ok: bool)
    ensures ok == SignaturesAgree(rules, a, b)
  {
    if !a.hasPrototype || !b.hasPrototype {
      if !a.hasPrototype && !b.hasPrototype { return true; }
      var prototype := if a.hasPrototype then a else b;
      if prototype.variadic { return false; }
      for i := 0 to |prototype.params|
        invariant forall k :: 0 <= k < i ==> rules.unpromoted(prototype.params[k])
      {
        if !rules.unpromoted(prototype.params[i]) { return false; }
      }
      return true;
    }
    if |a.params| != |b.params| { return false; }
    if a.variadic != b.variadic { return false; }
    for i := 0 to |a.params|
      invariant forall k :: 0 <= k < i ==> rules.compatible(a.params[k], b.params[k])
    {
      if !rules.compatible(a.params[i], b.params[i]) { return false; }
    }
    return true;
  }

  // ----- clashes -----

  predicate Agree(rules: Rules, a: Def, b: Def) {
    if b.kind.Function? then
      rules.compatible(a.ty, b.ty) && (rules.units ==> rules.contracts(a.ty, b.ty)) &&
      SignaturesAgree(rules, a.signature, b.signature)
    else
      rules.compatible(a.ty, b.ty) && BoundsAgree(a.ty, b.ty)
  }

  /** Two symbols of one name and kind that must not be linked together. Variables clash only if at
      least one of them is a definition. */
  predicate Clash(rules: Rules, a: Def, b: Def) {
    KeyOf(a) == KeyOf(b) && !Agree(rules, a, b) && (b.kind.Function? || a.hasDefinition || b.hasDefinition)
  }

  ghost predicate Symmetric(rules: Rules) {
    (forall a, b :: rules.compatible(a, b) == rules.compatible(b, a)) &&
    (forall a, b :: rules.contracts(a, b) == rules.contracts(b, a))
  }

  /** Clashing does not depend on which of the two came first. */
  lemma {:induction false} ClashIsSymmetric(rules: Rules, a: Def, b: Def)
    requires Symmetric(rules)
    ensures Clash(rules, a, b) == Clash(rules, b, a)
  {
    assert SignaturesAgree(rules, a.signature, b.signature) == SignaturesAgree(rules, b.signature, a.signature);
    assert BoundsAgree(a.ty, b.ty) == BoundsAgree(b.ty, a.ty);
  }
}
