/** How an aggregate is returned: in floating-point registers, coerced to integers, through memory, or
    as it is. */
module Abi {
  import opened Options
  import opened FloatKinds

  datatype Ty =
    | Fp(kind: FpKind)
    | Vector(id: nat)
    | Int(width: nat)
    | OtherTy(id: nat)
    | Arr(elem: Ty, length: nat)
    | Struct(fields: seq<Ty>, packed: bool, incomplete: bool)

  /** What the target's data layout says, and whether the target is AArch64. */
  datatype Target = Target(size: Ty -> nat, sized: Ty -> bool, arm: bool)

  const I64 := Int(64)
  const PAIR := Arr(I64, 2)
  const QUADPAIR := Struct([Fp(Fp128), Fp(Fp128)], false, false)

  predicate IsAggregate(t: Ty) {
    t.Arr? || t.Struct?
  }

  // ----- homogeneous floating-point aggregates -----

  /** The scalar seen so far and the number of members. */
  datatype Tally = Tally(scalar: Option<FpKind>, count: nat)

  /** Counts the members of `t` on top of `s`, giving up at the first misfit. */
  function Members(t: Ty, s: Tally, depth: nat): Option<Tally>
    decreases t, 1, 0
  {
    if depth > 8 then None
    else
      match t
      case Fp(k) =>
        if k in {Float, Double} && (s.scalar.None? || s.scalar.value == k) && s.count + 1 <= 4
        then Some(Tally(Some(k), s.count + 1)) else None
      case Arr(elem, n) => if n == 0 || n > 4 then None else RepeatMembers(elem, s, depth + 1, n)
      case Struct(fs, packed, incomplete) =>
        if packed || incomplete || |fs| == 0 || |fs| > 4 then None else FieldMembers(t, s, depth + 1, |fs|)
      case _ => None
  }

  function RepeatMembers(elem: Ty, s: Tally, depth: nat, n: nat): Option<Tally>
    decreases elem, 2, n
  {
    if n == 0 then Some(s)
    else
      match RepeatMembers(elem, s, depth, n - 1)
      case None => None
      case Some(s1) => Members(elem, s1, depth)
  }

  function FieldMembers(t: Ty, s: Tally, depth: nat, n: nat): Option<Tally>
    requires t.Struct? && n <= |t.fields|
    decreases t, 0, n
  {
    if n == 0 then Some(s)
    else
      match FieldMembers(t, s, depth, n - 1)
      case None => None
      case Some(s1) => Members(t.fields[n - 1], s1, depth)
  }

  /** The recursion that updates the scalar and the count as it goes. */
  class Counter {
    var scalar: Option<FpKind>
    var count: nat

    constructor ()
      ensures State() == Tally(None, 0)
    {
      scalar, count := None, 0;
    }

    function State(): Tally
      reads this
    {
      Tally(scalar, count)
    }

    method CountMembers(t: Ty, depth: nat) returns (ok: bool)
      modifies this
      ensures ok <==> Members(t, old(State()), depth).Some?
      ensures ok ==> State() == Members(t, old(State()), depth).value
      decreases t, 1
    {
      if depth > 8 { return false; }
      match t
      case Fp(k) =>
        if k != Float && k != Double { return false; }
        if scalar.Some? && scalar.value != k { return false; }
        scalar := Some(k);
        count := count + 1;
        return count <= 4;
      case Arr(elem, n) =>
        if n == 0 || n > 4 { return false; }
        ok := CountElements(elem, depth + 1, n);
      case Struct(fs, packed, incomplete) =>
        if packed || incomplete || |fs| == 0 || |fs| > 4 { return false; }
        ok := CountFields(t, depth + 1);
      case _ => return false;
    }

    method CountElements(elem: Ty, depth: nat, n: nat) returns (ok: bool)
      modifies this
      ensures ok <==> RepeatMembers(elem, old(State()), depth, n).Some?
      ensures ok ==> State() == RepeatMembers(elem, old(State()), depth, n).value
      decreases elem, 2
    {
      hide Members;
      for i := 0 to n
        invariant RepeatMembers(elem, old(State()), depth, i) == Some(State())
      {
        var fits := CountMembers(elem, depth);
        if !fits {
          RepeatFails(elem, old(State()), depth, i + 1, n);
          return false;
        }
      }
      return true;
    }

    method CountFields(t: Ty, depth: nat) returns (ok: bool)
      requires t.Struct?
      modifies this
      ensures ok <==> FieldMembers(t, old(State()), depth, |t.fields|).Some?
      ensures ok ==> State() == FieldMembers(t, old(State()), depth, |t.fields|).value
      decreases t, 0
    {
      hide Members;
      for i := 0 to |t.fields|
        invariant FieldMembers(t, old(State()), depth, i) == Some(State())
      {
        var fits := CountMembers(t.fields[i], depth);
        if !fits {
          FieldFails(t, old(State()), depth, i + 1, |t.fields|);
          return false;
        }
      }
      return true;
    }
  }

  lemma {:induction false} RepeatFails(elem: Ty, s: Tally, depth: nat, i: nat, n: nat)
    requires i <= n && RepeatMembers(elem, s, depth, i).None?
    ensures RepeatMembers(elem, s, depth, n).None?
    decreases n
  {
    hide Members;
    if i < n { RepeatFails(elem, s, depth, i, n - 1); }
  }

  lemma {:induction false} FieldFails(t: Ty, s: Tally, depth: nat, i: nat, n: nat)
    requires t.Struct? && i <= n <= |t.fields| && FieldMembers(t, s, depth, i).None?
    ensures FieldMembers(t, s, depth, n).None?
    decreases n
  {
    hide Members;
    if i < n { FieldFails(t, s, depth, i, n - 1); }
  }

  // ----- the same by flattening first -----

  /** All scalar leaves of a type, in order; none if it holds anything but floating-point types, is
      nested too deeply, or has an empty, packed or incomplete part. */
  function Flatten(t: Ty, depth: nat): Option<seq<FpKind>>
    decreases t, 1, 0
  {
    if depth > 8 then None
    else
      match t
      case Fp(k) => Some([k])
      case Arr(elem, n) => if n == 0 then None else FlattenRepeat(elem, depth + 1, n)
      case Struct(fs, packed, incomplete) =>
        if packed || incomplete || |fs| == 0 then None else FlattenFields(t, depth + 1, |fs|)
      case _ => None
  }

  function Join(a: Option<seq<FpKind>>, b: Option<seq<FpKind>>): Option<seq<FpKind>> {
    if a.None? || b.None? then None else Some(a.value + b.value)
  }

  function FlattenRepeat(elem: Ty, depth: nat, n: nat): Option<seq<FpKind>>
    decreases elem, 2, n
  {
    if n == 0 then Some([]) else Join(FlattenRepeat(elem, depth, n - 1), Flatten(elem, depth))
  }

  function FlattenFields(t: Ty, depth: nat, n: nat): Option<seq<FpKind>>
    requires t.Struct? && n <= |t.fields|
    decreases t, 0, n
  {
    if n == 0 then Some([]) else Join(FlattenFields(t, depth, n - 1), Flatten(t.fields[n - 1], depth))
  }

  /** Leaves that can be added to a tally: all of its scalar type, and four members at most. */
  predicate Fits(s: Tally, leaves: seq<FpKind>) {
    s.count + |leaves| <= 4 &&
    (forall i :: 0 <= i < |leaves| ==> leaves[i] == leaves[0]) &&
    (leaves != [] && s.scalar.Some? ==> leaves[0] == s.scalar.value)
  }

  /** Only `float` and `double`: the types the counter knows. */
  predicate Known(leaves: seq<FpKind>) {
    forall i :: 0 <= i < |leaves| ==> leaves[i] in {Float, Double}
  }

  function Add(s: Tally, leaves: seq<FpKind>): Tally {
    Tally(if leaves == [] then s.scalar else Some(leaves[0]), s.count + |leaves|)
  }

  lemma {:induction false} FitsJoin(s: Tally, a: seq<FpKind>, b: seq<FpKind>)
    ensures Fits(s, a + b) <==> Fits(s, a) && Fits(Add(s, a), b)
    ensures Add(s, a + b) == Add(Add(s, a), b) || !Fits(s, a + b)
  {
    if Fits(s, a + b) {
      forall i | 0 <= i < |a| ensures a[i] == a[0] { assert (a + b)[i] == a[i]; }
      forall i | 0 <= i < |b| ensures b[i] == (a + b)[0] { assert (a + b)[|a| + i] == b[i]; }
    }
  }

  lemma {:induction false} KnownJoin(a: seq<FpKind>, b: seq<FpKind>)
    ensures Known(a + b) <==> Known(a) && Known(b)
  {
    if Known(a + b) {
      forall i | 0 <= i < |a| ensures a[i] in {Float, Double} { assert (a + b)[i] == a[i]; }
      forall i | 0 <= i < |b| ensures b[i] in {Float, Double} { assert (a + b)[|a| + i] == b[i]; }
    }
  }

  /** Nothing flattens to nothing. */
  lemma {:induction false} FlattenSize(t: Ty, depth: nat)
    requires Flatten(t, depth).Some?
    ensures |Flatten(t, depth).value| >= 1
    ensures t.Arr? ==> |Flatten(t, depth).value| >= t.length
    ensures t.Struct? ==> |Flatten(t, depth).value| >= |t.fields|
    decreases t, 1, 0
  {
    match t
    case Arr(elem, n) => RepeatSize(elem, depth + 1, n);
    case Struct(fs, _, _) => FieldsSize(t, depth + 1, |fs|);
    case _ =>
  }

  lemma {:induction false} RepeatSize(elem: Ty, depth: nat, n: nat)
    requires FlattenRepeat(elem, depth, n).Some?
    ensures |FlattenRepeat(elem, depth, n).value| >= n
    decreases elem, 2, n
  {
    hide Flatten;
    if n > 0 {
      RepeatSize(elem, depth, n - 1);
      FlattenSize(elem, depth);
    }
  }

  lemma {:induction false} FieldsSize(t: Ty, depth: nat, n: nat)
    requires t.Struct? && n <= |t.fields| && FlattenFields(t, depth, n).Some?
    ensures |FlattenFields(t, depth, n).value| >= n
    decreases t, 0, n
  {
    hide Flatten;
    if n > 0 {
      FieldsSize(t, depth, n - 1);
      FlattenSize(t.fields[n - 1], depth);
    }
  }

  /** What a counting result says, given the flattening. */
  predicate Counts(s: Tally, leaves: Option<seq<FpKind>>, r: Option<Tally>) {
    (r.Some? <==> leaves.Some? && Fits(s, leaves.value) && Known(leaves.value)) &&
    (r.Some? ==> r.value == Add(s, leaves.value))
  }

  /** The early-exit counter accepts exactly the types whose flattening fits. */
  lemma {:induction false} MembersIsFlatten(t: Ty, s: Tally, depth: nat)
    requires s.count <= 4
    ensures Counts(s, Flatten(t, depth), Members(t, s, depth))
    decreases t, 1, 0
  {
    if depth <= 8 {
      if Flatten(t, depth).Some? { FlattenSize(t, depth); }
      match t
      case Arr(elem, n) => RepeatIsFlatten(elem, s, depth + 1, n);
      case Struct(fs, _, _) => FieldsAreFlatten(t, s, depth + 1, |fs|);
      case Fp(k) =>
        var leaves := [k];
        assert leaves[0] == k && |leaves| == 1;
        assert Flatten(t, depth) == Some(leaves);
        assert Known(leaves) <==> k in {Float, Double};
      case _ =>
    }
  }

  lemma {:induction false} RepeatIsFlatten(elem: Ty, s: Tally, depth: nat, n: nat)
    requires s.count <= 4
    ensures Counts(s, FlattenRepeat(elem, depth, n), RepeatMembers(elem, s, depth, n))
    decreases elem, 2, n
  {
    hide Flatten, Members;
    if n > 0 {
      RepeatIsFlatten(elem, s, depth, n - 1);
      JoinStep(s, FlattenRepeat(elem, depth, n - 1), elem, RepeatMembers(elem, s, depth, n - 1), depth);
    }
  }

  lemma {:induction false} FieldsAreFlatten(t: Ty, s: Tally, depth: nat, n: nat)
    requires t.Struct? && n <= |t.fields| && s.count <= 4
    ensures Counts(s, FlattenFields(t, depth, n), FieldMembers(t, s, depth, n))
    decreases t, 0, n
  {
    hide Flatten, Members;
    if n > 0 {
      FieldsAreFlatten(t, s, depth, n - 1);
      JoinStep(s, FlattenFields(t, depth, n - 1), t.fields[n - 1], FieldMembers(t, s, depth, n - 1), depth);
    }
  }

  /** One more part after those already counted. */
  lemma {:induction false} JoinStep(s: Tally, before: Option<seq<FpKind>>, part: Ty, r: Option<Tally>, depth: nat)
    requires s.count <= 4 && Counts(s, before, r)
    ensures Counts(s, Join(before, Flatten(part, depth)), if r.None? then None else Members(part, r.value, depth))
    decreases part, 1, 1
  {
    hide Flatten, Members, Fits, Known;
    if r.Some? {
      assert r.value.count <= 4 by { FitsBound(s, before.value); }
      MembersIsFlatten(part, r.value, depth);
    }
    if before.Some? && Flatten(part, depth).Some? {
      FitsJoin(s, before.value, Flatten(part, depth).value);
      KnownJoin(before.value, Flatten(part, depth).value);
    }
  }

  lemma {:induction false} FitsBound(s: Tally, leaves: seq<FpKind>)
    requires Fits(s, leaves)
    ensures Add(s, leaves).count <= 4
  {}

  // ----- classification -----

  predicate Hfa(tgt: Target, t: Ty) {
    tgt.arm && IsAggregate(t) &&
    var r := Members(t, Tally(None, 0), 0);
    r.Some? && r.value.count > 0
  }

  /** One to four members of one floating-point type. */
  predicate Homogeneous(t: Ty) {
    IsAggregate(t) && Flatten(t, 0).Some? &&
    var leaves := Flatten(t, 0).value;
    1 <= |leaves| <= 4 && forall i :: 0 <= i < |leaves| ==> leaves[i] == leaves[0]
  }

  /** The floating-point type of a homogeneous aggregate. */
  function LeafKind(t: Ty): FpKind
    requires Homogeneous(t)
  {
    Flatten(t, 0).value[0]
  }

  /** The code recognises exactly the homogeneous aggregates of `float` and of `double`. */
  lemma {:induction false} HfaIsHomogeneous(tgt: Target, t: Ty)
    ensures Hfa(tgt, t) <==> tgt.arm && Homogeneous(t) && LeafKind(t) in {Float, Double}
  {
    hide Members, Flatten;
    MembersIsFlatten(t, Tally(None, 0), 0);
  }

  predicate IsFpOrVector(t: Ty) {
    t.Fp? || t.Vector?
  }

  /** Nothing but floating-point and vector leaves. */
  predicate AllFp(t: Ty, depth: nat) {
    depth <= 8 &&
    match t
    case Arr(elem, _) => AllFp(elem, depth + 1)
    case Struct(fs, _, _) => |fs| > 0 && forall i :: 0 <= i < |fs| ==> AllFp(fs[i], depth + 1)
    case _ => IsFpOrVector(t)
  }

  method AggregateAllFp(t: Ty, depth: nat) returns (r: bool)
    ensures r == AllFp(t, depth)
    decreases t
  {
    if depth > 8 { return false; }
    if IsFpOrVector(t) { return true; }
    match t
    case Arr(elem, _) => r := AggregateAllFp(elem, depth + 1);
    case Struct(fs, _, _) =>
      if |fs| == 0 { return false; }
      for i := 0 to |fs|
        invariant forall k :: 0 <= k < i ==> AllFp(fs[k], depth + 1)
      {
        var fp := AggregateAllFp(fs[i], depth + 1);
        if !fp { return false; }
      }
      return true;
    case _ => return false;
  }

  function Coerce(tgt: Target, t: Ty): Ty {
    if !IsAggregate(t) || !tgt.sized(t) then t
    else if tgt.size(t) == 0 || tgt.size(t) > 16 || AllFp(t, 0) then t
    else if tgt.size(t) <= 8 then I64
    else PAIR
  }

  predicate Indirect(tgt: Target, t: Ty) {
    IsAggregate(t) && tgt.sized(t) && tgt.size(t) > 16 && !Hfa(tgt, t)
  }

  /** `p` is a part of `t`, `d` arrays or structs below it. */
  ghost predicate PartAt(t: Ty, p: Ty, d: nat)
    decreases d
  {
    if d == 0 then p == t
    else
      match t
      case Arr(elem, _) => PartAt(elem, p, d - 1)
      case Struct(fs, _, _) => exists i :: 0 <= i < |fs| && PartAt(fs[i], p, d - 1)
      case _ => false
  }

  /** A part that floating-point registers cannot take. */
  predicate Blocks(p: Ty) {
    p.Int? || p.OtherTy? || (p.Struct? && p.fields == [])
  }

  /** No part of `t` blocks, and none is more than `room` levels down. */
  ghost predicate OnlyFp(t: Ty, room: int) {
    forall p, d: nat :: PartAt(t, p, d) ==> d <= room && !Blocks(p)
  }

  lemma {:induction false} ElementOnlyFp(t: Ty, room: int)
    requires t.Arr?
    ensures OnlyFp(t, room) <==> room >= 0 && OnlyFp(t.elem, room - 1)
  {
    assert PartAt(t, t, 0);
    if OnlyFp(t, room) {
      forall p, d: nat | PartAt(t.elem, p, d) ensures d <= room - 1 && !Blocks(p) { assert PartAt(t, p, d + 1); }
    }
    if room >= 0 && OnlyFp(t.elem, room - 1) {
      forall p, d: nat | PartAt(t, p, d) ensures d <= room && !Blocks(p) {
        if d > 0 { assert PartAt(t.elem, p, d - 1); }
      }
    }
  }

  lemma {:induction false} FieldsOnlyFp(t: Ty, room: int)
    requires t.Struct?
    ensures OnlyFp(t, room) <==>
      room >= 0 && t.fields != [] && forall i :: 0 <= i < |t.fields| ==> OnlyFp(t.fields[i], room - 1)
  {
    assert PartAt(t, t, 0);
    if OnlyFp(t, room) {
      forall i, p, d: nat | 0 <= i < |t.fields| && PartAt(t.fields[i], p, d) ensures d <= room - 1 && !Blocks(p) {
        assert PartAt(t, p, d + 1);
      }
    }
    if room >= 0 && t.fields != [] && forall i :: 0 <= i < |t.fields| ==> OnlyFp(t.fields[i], room - 1) {
      forall p, d: nat | PartAt(t, p, d) ensures d <= room && !Blocks(p) {
        if d > 0 { var i :| 0 <= i < |t.fields| && PartAt(t.fields[i], p, d - 1); }
      }
    }
  }

  /** The search with its depth limit says whether all parts at all levels are of the right kind. */
  lemma {:induction false} AllFpIff(t: Ty, depth: nat)
    ensures AllFp(t, depth) <==> OnlyFp(t, 8 - depth)
    decreases t
  {
    hide OnlyFp;
    match t
    case Arr(elem, _) =>
      ElementOnlyFp(t, 8 - depth);
      AllFpIff(elem, depth + 1);
    case Struct(fs, _, _) =>
      FieldsOnlyFp(t, 8 - depth);
      forall i | 0 <= i < |fs| ensures AllFp(fs[i], depth + 1) <==> OnlyFp(fs[i], 7 - depth) {
        AllFpIff(fs[i], depth + 1);
      }
    case _ => LeafOnlyFp(t, 8 - depth);
  }

  lemma {:induction false} LeafOnlyFp(t: Ty, room: int)
    requires !IsAggregate(t)
    ensures OnlyFp(t, room) <==> room >= 0 && (t.Fp? || t.Vector?)
  {
    assert PartAt(t, t, 0);
  }

  lemma {:induction false} FlattenIsFp(t: Ty, depth: nat)
    requires Flatten(t, depth).Some?
    ensures AllFp(t, depth)
    decreases t, 1, 0
  {
    match t
    case Arr(elem, n) => RepeatIsFp(elem, depth + 1, n);
    case Struct(fs, _, _) => FieldsAreFp(t, depth + 1, |fs|);
    case _ =>
  }

  lemma {:induction false} RepeatIsFp(elem: Ty, depth: nat, n: nat)
    requires n > 0 && FlattenRepeat(elem, depth, n).Some?
    ensures AllFp(elem, depth)
    decreases elem, 2, n
  {
    FlattenIsFp(elem, depth);
  }

  lemma {:induction false} FieldsAreFp(t: Ty, depth: nat, n: nat)
    requires t.Struct? && n <= |t.fields| && FlattenFields(t, depth, n).Some?
    ensures forall i :: 0 <= i < n ==> AllFp(t.fields[i], depth)
    decreases t, 0, n
  {
    hide AllFp;
    if n > 0 {
      FieldsAreFp(t, depth, n - 1);
      FlattenIsFp(t.fields[n - 1], depth);
    }
  }

  lemma {:induction false} HomogeneousIsFp(t: Ty)
    requires Homogeneous(t)
    ensures AllFp(t, 0)
  {
    FlattenIsFp(t, 0);
  }

  /** An aggregate that the code recognises is neither coerced nor returned through memory, whatever
      its size. */
  lemma {:induction false} HfaIsDirect(tgt: Target, t: Ty)
    requires Hfa(tgt, t)
    ensures Coerce(tgt, t) == t && !Indirect(tgt, t)
  {
    HfaIsHomogeneous(tgt, t);
    HomogeneousIsFp(t);
  }

  /** A homogeneous aggregate is never coerced. It escapes being returned through memory exactly when
      it is small, or of `float` or `double` on AArch64. */
  lemma {:induction false} HomogeneousEscapesIff(tgt: Target, t: Ty)
    requires Homogeneous(t) && tgt.sized(t)
    ensures Coerce(tgt, t) == t
    ensures !Indirect(tgt, t) <==> tgt.size(t) <= 16 || (tgt.arm && LeafKind(t) in {Float, Double})
  {
    HfaIsHomogeneous(tgt, t);
    HomogeneousIsFp(t);
  }

  /** A pair of quadruple-precision numbers, the `long double` of most AArch64 systems, is homogeneous
      and is still returned through memory. */
  lemma {:induction false} QuadPairIsMissed(tgt: Target)
    requires tgt.arm && tgt.sized(QUADPAIR) && tgt.size(QUADPAIR) == 32
    ensures Homogeneous(QUADPAIR) && !Hfa(tgt, QUADPAIR) && Indirect(tgt, QUADPAIR)
  {
    var t := QUADPAIR;
    assert t.fields[0] == Fp(Fp128) && t.fields[1] == Fp(Fp128);
    assert Flatten(t.fields[0], 1) == Some([Fp128]) && Flatten(t.fields[1], 1) == Some([Fp128]);
    var none: seq<FpKind> := [];
    assert FlattenFields(t, 1, 0) == Some(none);
    assert FlattenFields(t, 1, 1) == Some(none + [Fp128]);
    assert FlattenFields(t, 1, 2) == Some(none + [Fp128] + [Fp128]);
    assert |t.fields| == 2;
    assert Flatten(t, 0) == FlattenFields(t, 1, 2);
    HfaIsHomogeneous(tgt, QUADPAIR);
  }

  /** The layout knows the sizes of the two types that aggregates are coerced to. */
  predicate WfTarget(tgt: Target) {
    tgt.size(I64) == 8 && tgt.size(PAIR) == 16 && tgt.sized(PAIR)
  }

  /** Coercing twice is coercing once; the coerced type is large enough and never needs memory. */
  lemma {:induction false} CoerceIsStable(tgt: Target, t: Ty)
    requires WfTarget(tgt)
    ensures Coerce(tgt, Coerce(tgt, t)) == Coerce(tgt, t)
    ensures Coerce(tgt, t) != t ==> tgt.size(t) <= tgt.size(Coerce(tgt, t)) <= 16 && !Indirect(tgt, Coerce(tgt, t))
  {
    PairIsNotFp();
  }

  /** A type the classification is about. */
  predicate SizedAggregate(tgt: Target, t: Ty) {
    (t.Arr? || t.Struct?) && tgt.sized(t)
  }

  /** How any type is treated: a sized aggregate with a part that is neither floating-point nor vector
      goes as one integer up to 8 bytes and as two up to 16, a larger one goes through memory unless it
      is homogeneous of `float` or `double` on AArch64, and all else goes as it is. */
  lemma {:induction false} TreatmentIff(tgt: Target, t: Ty)
    requires WfTarget(tgt)
    ensures Coerce(tgt, t) ==
      if !SizedAggregate(tgt, t) || OnlyFp(t, 8) || tgt.size(t) == 0 || tgt.size(t) > 16 then t
      else if tgt.size(t) <= 8 then Int(64) else Arr(Int(64), 2)
    ensures Indirect(tgt, t) <==>
      SizedAggregate(tgt, t) && tgt.size(t) > 16 && !(tgt.arm && Homogeneous(t) && LeafKind(t) in {Float, Double})
  {
    hide Hfa, AllFp, OnlyFp, Homogeneous;
    AllFpIff(t, 0);
    HfaIsHomogeneous(tgt, t);
  }

  predicate ExactlyOne(a: bool, b: bool, c: bool) {
    (a || b || c) && !(a && b) && !(a && c) && !(b && c)
  }

  /** Each sized, non-empty aggregate is treated in exactly one way: as one or two integers, through
      memory, or as it is. */
  lemma {:induction false} OneTreatment(tgt: Target, t: Ty)
    requires WfTarget(tgt) && IsAggregate(t) && tgt.sized(t) && tgt.size(t) > 0
    ensures ExactlyOne(Coerce(tgt, t) in {I64, PAIR}, Indirect(tgt, t),
      !Indirect(tgt, t) && Coerce(tgt, t) == t && t != PAIR)
    ensures Coerce(tgt, t) in {I64, PAIR} ==> tgt.size(t) <= tgt.size(Coerce(tgt, t))
  {
    PairIsNotFp();
  }

  lemma {:induction false} PairIsNotFp()
    ensures !AllFp(PAIR, 0)
  {
    assert !AllFp(I64, 1);
  }
}
