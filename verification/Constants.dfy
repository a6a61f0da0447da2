/** Typed constants, their layout in memory and the bytes they occupy. */
module Constants {
  import opened Options
  import opened FloatKinds
  import opened Words
  import opened Bytes

  datatype Field = Field(offset: nat, ty: Ty)

  /** `OtherTy` stands for the type kinds the code generator does not take apart. */
  datatype Ty =
    | IntTy(width: nat)
    | FpTy(kind: BinaryKind)
    | PtrTy
    | ArrayTy(elem: Ty, length: nat)
    | StructTy(name: string, fields: seq<Field>, size: nat)
    | OtherTy(size: nat)

  /** A pointer constant is the address of a symbol or a number cast to a pointer. */
  datatype Pointer = Addr(symbol: nat) | FromBits(bits: Bits)

  /** `PtrInt` is an address cast to an integer of the pointer's width. */
  datatype Const =
    | IntC(bits: Bits)
    | PtrInt(symbol: nat, width: nat)
    | FpC(kind: BinaryKind, bits: Bits)
    | PtrC(pointer: Pointer)
    | ArrayC(elem: Ty, elems: seq<Const>)
    | StructC(ty: Ty, values: seq<Const>)
    | OpaqueC(ty: Ty)

  datatype Target = Target(bigEndian: bool, ptrBytes: nat)

  /** What one byte of memory holds: a number, or the `k`-th byte of a symbol's address. */
  datatype Cell = Data(byte: Byte) | Part(symbol: nat, k: nat)

  const ZEROCELL := Data(ZERO)

  function FpWidth(k: BinaryKind): nat {
    if k.Half? then 16 else if k.Float? then 32 else 64
  }

  // Positions in an array: the element and the byte inside it.

  function Slot(i: nat, stride: nat): nat
    requires stride > 0
  {
    i / stride
  }

  function Within(i: nat, stride: nat): nat
    requires stride > 0
  {
    i % stride
  }

  function Size(t: Target, ty: Ty): nat {
    match ty
    case IntTy(w) => (w + 7) / 8
    case FpTy(k) => FpWidth(k) / 8
    case PtrTy => t.ptrBytes
    case ArrayTy(elem, n) => Times(n, Size(t, elem))
    case StructTy(_, _, size) => size
    case OtherTy(size) => size
  }

  predicate Covers(t: Target, f: Field, i: nat) {
    Size(t, f.ty) != 0 && f.offset <= i < f.offset + Size(t, f.ty)
  }

  /** Fields lie inside their struct and no byte belongs to two of them. */
  ghost predicate WfTy(t: Target, ty: Ty) {
    match ty
    case ArrayTy(elem, _) => WfTy(t, elem)
    case StructTy(_, fs, size) =>
      (forall k :: 0 <= k < |fs| ==> WfTy(t, fs[k].ty) && fs[k].offset + Size(t, fs[k].ty) <= size) &&
      (forall j, k, i: nat :: 0 <= j < k < |fs| && Covers(t, fs[j], i) ==> !Covers(t, fs[k], i))
    case _ => true
  }

  function TypeOf(t: Target, c: Const): Ty {
    match c
    case IntC(bits) => IntTy(|bits|)
    case PtrInt(_, w) => IntTy(w)
    case FpC(k, _) => FpTy(k)
    case PtrC(_) => PtrTy
    case ArrayC(elem, es) => ArrayTy(elem, |es|)
    case StructC(ty, _) => ty
    case OpaqueC(ty) => ty
  }

  predicate WellTyped(t: Target, c: Const) {
    match c
    case IntC(_) => true
    case PtrInt(_, w) => w == 8 * t.ptrBytes
    case FpC(k, bits) => |bits| == FpWidth(k)
    case PtrC(Addr(_)) => true
    case PtrC(FromBits(bits)) => |bits| == 8 * t.ptrBytes
    case ArrayC(elem, es) => forall k :: 0 <= k < |es| ==> WellTyped(t, es[k]) && TypeOf(t, es[k]) == elem
    case StructC(ty, vs) =>
      ty.StructTy? && |vs| == |ty.fields| &&
      forall k :: 0 <= k < |vs| ==> WellTyped(t, vs[k]) && TypeOf(t, vs[k]) == ty.fields[k].ty
    case OpaqueC(ty) => ty.OtherTy?
  }

  /** A pointer of one to eight bytes. */
  predicate WfTarget(t: Target) {
    0 < t.ptrBytes <= 8
  }

  /** The null constant of a type. */
  function Null(t: Target, ty: Ty): (c: Const)
    ensures TypeOf(t, c) == ty && WellTyped(t, c)
  {
    match ty
    case IntTy(w) => IntC(Zeros(w))
    case FpTy(k) => FpC(k, Zeros(FpWidth(k)))
    case PtrTy => PtrC(FromBits(Zeros(8 * t.ptrBytes)))
    case ArrayTy(elem, n) => var e := Null(t, elem); ArrayC(elem, seq(n, _ => e))
    case StructTy(_, fs, _) => StructC(ty, seq(|fs|, k requires 0 <= k < |fs| => Null(t, fs[k].ty)))
    case OtherTy(_) => OpaqueC(ty)
  }

  /** The first field from `k` on that holds byte `i`, or the number of fields. */
  function FieldAt(t: Target, fs: seq<Field>, i: nat, k: nat): (r: nat)
    requires k <= |fs|
    ensures k <= r <= |fs|
    ensures r < |fs| ==> Covers(t, fs[r], i)
    ensures forall j :: k <= j < r ==> !Covers(t, fs[j], i)
    decreases |fs| - k
  {
    if k == |fs| || Covers(t, fs[k], i) then k else FieldAt(t, fs, i, k + 1)
  }

  /** An integer's stored byte; only whole-byte widths up to 64 bits can be read. */
  function IntByte(t: Target, bits: Bits, i: nat): Option<Byte> {
    if |bits| > 64 || |bits| % 8 != 0 || i >= |bits| / 8 then None
    else Some(ByteOf(bits, i, t.bigEndian))
  }

  function AsCell(b: Option<Byte>): Option<Cell> {
    match b case None => None case Some(x) => Some(Data(x))
  }

  function PointerCell(t: Target, p: Pointer, i: nat): Option<Cell> {
    match p
    case Addr(s) => if i < t.ptrBytes then Some(Part(s, i)) else None
    case FromBits(bits) => AsCell(IntByte(t, bits, i))
  }

  /** What memory holds at byte `i` of a constant. Bytes outside all elements are zero. */
  function CellAt(t: Target, c: Const, i: nat): Option<Cell> {
    match c
    case IntC(bits) => AsCell(IntByte(t, bits, i))
    case PtrInt(s, w) => if i < w / 8 then Some(Part(s, i)) else None
    case FpC(_, bits) => AsCell(IntByte(t, bits, i))
    case PtrC(p) => PointerCell(t, p, i)
    case ArrayC(elem, es) =>
      var stride := Size(t, elem);
      if stride == 0 || Slot(i, stride) >= |es| then Some(ZEROCELL)
      else CellAt(t, es[Slot(i, stride)], Within(i, stride))
    case StructC(ty, vs) =>
      if !ty.StructTy? then None
      else
        var k := FieldAt(t, ty.fields, i, 0);
        if k == |ty.fields| then Some(ZEROCELL)
        else if k >= |vs| then None
        else CellAt(t, vs[k], i - ty.fields[k].offset)
    case OpaqueC(_) => None
  }

  /** A constant as the source of a union member: zero past its end. */
  function MemberCell(t: Target, m: Const, j: nat): Option<Cell> {
    if j < Size(t, TypeOf(t, m)) then CellAt(t, m, j) else Some(ZEROCELL)
  }

  /** Whether byte `i` of a type carries a value; the other bytes are padding. */
  predicate IsData(t: Target, ty: Ty, i: nat) {
    match ty
    case ArrayTy(elem, n) =>
      var stride := Size(t, elem);
      stride != 0 && Slot(i, stride) < n && IsData(t, elem, Within(i, stride))
    case StructTy(_, fs, _) =>
      var k := FieldAt(t, fs, i, 0);
      k < |fs| && IsData(t, fs[k].ty, i - fs[k].offset)
    case _ => true
  }

  /** Every byte of the type can be read and rebuilt. */
  predicate Supported(t: Target, ty: Ty) {
    match ty
    case IntTy(w) => w <= 64 && w % 8 == 0
    case ArrayTy(elem, n) => n == 0 || Size(t, elem) == 0 || Supported(t, elem)
    case StructTy(_, fs, _) => forall k :: 0 <= k < |fs| ==> Supported(t, fs[k].ty)
    case OtherTy(size) => size == 0
    case _ => true
  }

  // ----- facts about images -----

  lemma {:induction false} IndexBound(i: nat, stride: nat, n: nat)
    requires stride > 0
    ensures Slot(i, stride) < n <==> i < Times(n, stride)
    ensures Within(i, stride) < stride && i == Times(Slot(i, stride), stride) + Within(i, stride)
  {
    var q := i / stride;
    assert i == stride * q + i % stride;
    if q < n {
      MulMonotone(q + 1, n, stride);
    } else {
      MulMonotone(n, q, stride);
    }
  }

  lemma {:induction false} IndexSplit(k: nat, stride: nat, j: nat)
    requires j < stride
    ensures Slot(Times(k, stride) + j, stride) == k && Within(Times(k, stride) + j, stride) == j
  {
    ModUnique(k * stride + j, stride, k, j);
    var q := (k * stride + j) / stride;
    assert stride * (q - k) == 0;
    MultiplesApart(stride, q - k);
  }

  /** Padding is zero in every constant. */
  lemma {:induction false} PaddingIsZero(t: Target, c: Const, i: nat)
    requires WellTyped(t, c) && i < Size(t, TypeOf(t, c)) && !IsData(t, TypeOf(t, c), i)
    ensures CellAt(t, c, i) == Some(ZEROCELL)
    decreases c
  {
    hide Times, Slot, Within;
    match c
    case ArrayC(elem, es) =>
      var stride := Size(t, elem);
      if stride != 0 && Slot(i, stride) < |es| {
        IndexBound(i, stride, |es|);
        PaddingIsZero(t, es[Slot(i, stride)], Within(i, stride));
      }
    case StructC(ty, vs) =>
      var k := FieldAt(t, ty.fields, i, 0);
      if k < |ty.fields| { PaddingIsZero(t, vs[k], i - ty.fields[k].offset); }
    case _ =>
  }

  /** The null constant of a readable type is all zero bytes. */
  lemma {:induction false} NullIsZero(t: Target, ty: Ty, i: nat)
    requires WfTarget(t) && Supported(t, ty) && i < Size(t, ty)
    ensures CellAt(t, Null(t, ty), i) == Some(ZEROCELL)
    decreases ty
  {
    hide ByteOf, Zeros, Times, Slot, Within;
    match ty
    case IntTy(w) => ZeroByte(w, i, t.bigEndian);
    case FpTy(k) => ZeroByte(FpWidth(k), i, t.bigEndian);
    case PtrTy => ZeroByte(8 * t.ptrBytes, i, t.bigEndian);
    case ArrayTy(elem, n) =>
      var stride := Size(t, elem);
      if stride != 0 && Slot(i, stride) < n {
        IndexBound(i, stride, n);
        NullIsZero(t, elem, Within(i, stride));
      }
    case StructTy(_, fs, _) =>
      var k := FieldAt(t, fs, i, 0);
      if k < |fs| { NullIsZero(t, fs[k].ty, i - fs[k].offset); }
    case OtherTy(_) =>
  }

  lemma {:induction false} ZeroByte(w: nat, i: nat, big: bool)
    requires w <= 64 && w % 8 == 0 && i < w / 8
    ensures ByteOf(Zeros(w), i, big) == ZERO
  {
    forall j | 0 <= j < 8 ensures ByteOf(Zeros(w), i, big)[j] == ZERO[j] {
      ByteOfBit(Zeros(w), i, big, j);
    }
  }

  /** A type of size zero has one constant. */
  lemma {:induction false} EmptyIsNull(t: Target, c: Const)
    requires WfTarget(t) && WellTyped(t, c) && WfTy(t, TypeOf(t, c)) && Size(t, TypeOf(t, c)) == 0
    ensures c == Null(t, TypeOf(t, c))
    decreases c
  {
    hide Times;
    match c
    case ArrayC(elem, es) =>
      if es != [] {
        assert Size(t, elem) == 0 by { PositiveTimes(|es|, Size(t, elem)); }
        forall k | 0 <= k < |es| ensures es[k] == Null(t, elem) { EmptyIsNull(t, es[k]); }
      }
      assert es == Null(t, TypeOf(t, c)).elems;
    case StructC(ty, vs) =>
      forall k | 0 <= k < |vs| ensures vs[k] == Null(t, ty.fields[k].ty) { EmptyIsNull(t, vs[k]); }
      assert vs == Null(t, ty).values;
    case _ =>
  }

  /** The only field of a well-formed struct that holds byte `i`. */
  lemma {:induction false} FieldIsUnique(t: Target, ty: Ty, k: nat, i: nat)
    requires ty.StructTy? && WfTy(t, ty) && k < |ty.fields| && Covers(t, ty.fields[k], i)
    ensures FieldAt(t, ty.fields, i, 0) == k
  {
  }

  /** Byte `j` of element `k`, seen from the array. */
  lemma {:induction false} ElementCell(t: Target, c: Const, k: nat, j: nat)
    requires c.ArrayC? && k < |c.elems| && j < Size(t, c.elem)
    ensures var i := Times(k, Size(t, c.elem)) + j;
      i < Size(t, TypeOf(t, c)) && CellAt(t, c, i) == CellAt(t, c.elems[k], j)
  {
    hide Times, Slot, Within, IntByte, PointerCell, FieldAt, AsCell;
    var stride := Size(t, c.elem);
    IndexSplit(k, stride, j);
    ElementInside(k, stride, j, |c.elems|);
  }

  lemma {:induction false} ElementInside(k: nat, stride: nat, j: nat, n: nat)
    requires k < n && j < stride
    ensures Times(k, stride) + j < Times(n, stride)
  {
    MulMonotone(k + 1, n, stride);
  }

  /** Byte `j` of field `k`, seen from the struct. */
  lemma {:induction false} FieldCell(t: Target, c: Const, k: nat, j: nat)
    requires c.StructC? && WellTyped(t, c) && WfTy(t, c.ty) && k < |c.values| && j < Size(t, c.ty.fields[k].ty)
    ensures var i := c.ty.fields[k].offset + j; i < c.ty.size && CellAt(t, c, i) == CellAt(t, c.values[k], j)
  {
    hide Times, IntByte, PointerCell, AsCell, Slot, Within;
    FieldIsUnique(t, c.ty, k, c.ty.fields[k].offset + j);
  }

  /** Constants of one readable type with the same image are equal. */
  lemma {:induction false} ImageIsInjective(t: Target, a: Const, b: Const)
    requires WfTarget(t) && WellTyped(t, a) && WellTyped(t, b)
    requires WfTy(t, TypeOf(t, a)) && Supported(t, TypeOf(t, a)) && SameImage(t, a, b)
    ensures a == b
    decreases a
  {
    hide CellAt, Times;
    var ty := TypeOf(t, a);
    if Size(t, ty) == 0 {
      EmptyIsNull(t, a);
      EmptyIsNull(t, b);
    } else {
      match ty
      case ArrayTy(elem, n) =>
        PositiveTimes(n, Size(t, elem));
        forall k | 0 <= k < n ensures a.elems[k] == b.elems[k] {
          ElementsAgree(t, a, b, k);
          ImageIsInjective(t, a.elems[k], b.elems[k]);
        }
      case StructTy(_, fs, _) =>
        forall k | 0 <= k < |fs| ensures a.values[k] == b.values[k] {
          FieldsAgree(t, a, b, k);
          ImageIsInjective(t, a.values[k], b.values[k]);
        }
      case OtherTy(_) =>
      case _ => ScalarIsInjective(t, a, b);
    }
  }

  ghost predicate SameImage(t: Target, a: Const, b: Const) {
    TypeOf(t, a) == TypeOf(t, b) &&
    forall i :: 0 <= i < Size(t, TypeOf(t, a)) ==> CellAt(t, a, i) == CellAt(t, b, i)
  }

  lemma {:induction false} ElementsAgree(t: Target, a: Const, b: Const, k: nat)
    requires a.ArrayC? && b.ArrayC? && WellTyped(t, a) && WellTyped(t, b) && SameImage(t, a, b) && k < |a.elems|
    ensures SameImage(t, a.elems[k], b.elems[k])
  {
    hide CellAt, Times;
    forall j | 0 <= j < Size(t, a.elem) ensures CellAt(t, a.elems[k], j) == CellAt(t, b.elems[k], j) {
      ElementCell(t, a, k, j);
      ElementCell(t, b, k, j);
    }
  }

  lemma {:induction false} FieldsAgree(t: Target, a: Const, b: Const, k: nat)
    requires a.StructC? && b.StructC? && WellTyped(t, a) && WellTyped(t, b) && WfTy(t, a.ty)
    requires SameImage(t, a, b) && k < |a.values|
    ensures SameImage(t, a.values[k], b.values[k])
  {
    hide CellAt, Times;
    forall j | 0 <= j < Size(t, a.ty.fields[k].ty) ensures CellAt(t, a.values[k], j) == CellAt(t, b.values[k], j) {
      FieldCell(t, a, k, j);
      FieldCell(t, b, k, j);
    }
  }

  lemma {:induction false} ScalarIsInjective(t: Target, a: Const, b: Const)
    requires WfTarget(t) && WellTyped(t, a) && WellTyped(t, b)
    requires SameImage(t, a, b) && Supported(t, TypeOf(t, a)) && Size(t, TypeOf(t, a)) > 0
    requires !a.ArrayC? && !a.StructC? && !a.OpaqueC? && !b.ArrayC? && !b.StructC? && !b.OpaqueC?
    ensures a == b
  {
    hide ByteOf;
    assert CellAt(t, a, 0) == CellAt(t, b, 0);
    match a
    case IntC(x) => SameBits(t, a, b, x, b.bits);
    case FpC(_, x) => SameBits(t, a, b, x, b.bits);
    case PtrC(FromBits(x)) => SameBits(t, a, b, x, b.pointer.bits);
    case _ =>
  }

  lemma {:induction false} SameBits(t: Target, a: Const, b: Const, x: Bits, y: Bits)
    requires |x| == |y| <= 64 && |x| % 8 == 0
    requires forall i :: 0 <= i < |x| / 8 ==> CellAt(t, a, i) == CellAt(t, b, i)
    requires a in {IntC(x), FpC(Half, x), FpC(Float, x), FpC(Double, x), PtrC(FromBits(x))}
    requires b in {IntC(y), FpC(Half, y), FpC(Float, y), FpC(Double, y), PtrC(FromBits(y))}
    ensures x == y
  {
    forall i | 0 <= i < |x| / 8 ensures ByteOf(x, i, t.bigEndian) == ByteOf(y, i, t.bigEndian) {
      assert CellAt(t, a, i) == CellAt(t, b, i);
    }
    BytesInjective(x, y, t.bigEndian);
  }
}
