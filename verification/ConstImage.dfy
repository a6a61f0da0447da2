/** Rebuilding a union's storage from the bytes of one member. */
module ConstImage {
  import opened Options
  import opened FloatKinds
  import opened Words
  import opened Bytes
  import opened Constants

  /** The code generator's byte reader. It does not look inside pointers. */
  function ByteAt(t: Target, c: Const, i: nat): Option<Byte> {
    match c
    case IntC(bits) => IntByte(t, bits, i)
    case FpC(_, bits) => IntByte(t, bits, i)
    case ArrayC(elem, es) =>
      var stride := Size(t, elem);
      if stride == 0 || Slot(i, stride) >= |es| then Some(ZERO)
      else ByteAt(t, es[Slot(i, stride)], Within(i, stride))
    case StructC(ty, vs) =>
      if !ty.StructTy? then None
      else
        var k := FieldAt(t, ty.fields, i, 0);
        if k == |ty.fields| then Some(ZERO)
        else if k >= |vs| then None
        else ByteAt(t, vs[k], i - ty.fields[k].offset)
    case _ => None
  }

  predicate Holds(t: Target, f: Field, offset: nat, width: nat) {
    Size(t, f.ty) != 0 && f.offset <= offset && offset + width <= f.offset + Size(t, f.ty)
  }

  /** The first field from `k` on that holds all of the range, or the number of fields. */
  function FieldHolding(t: Target, fs: seq<Field>, offset: nat, width: nat, k: nat): (r: nat)
    requires k <= |fs|
    ensures k <= r <= |fs|
    ensures r < |fs| ==> Holds(t, fs[r], offset, width)
    decreases |fs| - k
  {
    if k == |fs| || Holds(t, fs[k], offset, width) then k else FieldHolding(t, fs, offset, width, k + 1)
  }

  /** The pointer that occupies exactly `width` bytes from `offset`. */
  function PointerAt(t: Target, c: Const, offset: nat, width: nat): Option<Pointer> {
    if width == 0 then None
    else
      match c
      case PtrC(p) => if offset == 0 && t.ptrBytes == width then Some(p) else None
      case ArrayC(elem, es) =>
        var stride := Size(t, elem);
        if stride == 0 || Slot(offset, stride) >= |es| || Within(offset, stride) + width > stride then None
        else PointerAt(t, es[Slot(offset, stride)], Within(offset, stride), width)
      case StructC(ty, vs) =>
        if !ty.StructTy? then None
        else
          var k := FieldHolding(t, ty.fields, offset, width, 0);
          if k >= |vs| || k == |ty.fields| then None
          else PointerAt(t, vs[k], offset - ty.fields[k].offset, width)
      case _ => None
  }

  function MemberByte(t: Target, m: Const, j: nat): Option<Byte> {
    if j < Size(t, TypeOf(t, m)) then ByteAt(t, m, j) else Some(ZERO)
  }

  function ByteFrom(t: Target, m: Const, offset: nat, i: nat): Option<Byte> {
    MemberByte(t, m, offset + i)
  }

  predicate Readable(t: Target, m: Const, offset: nat, n: nat) {
    forall i: nat :: i < n ==> ByteFrom(t, m, offset, i).Some?
  }

  function OrZero(b: Option<Byte>): Byte {
    match b case None => ZERO case Some(x) => x
  }

  function MemberBytes(t: Target, m: Const, offset: nat, n: nat): (r: seq<Byte>)
    ensures |r| == n
  {
    seq(n, i requires 0 <= i < n => OrZero(ByteFrom(t, m, offset, i)))
  }

  /** The `n` member bytes from `offset` as one integer, zero past the member's end. */
  function PackStorage(t: Target, m: Const, offset: nat, n: nat): (r: Option<Word>)
    ensures r.Some? ==> n <= 8
  {
    if n > 8 || !Readable(t, m, offset, n) then None
    else Some(Pack(MemberBytes(t, m, offset, n), t.bigEndian))
  }

  /** The packing loop. */
  method PackStorageBytes(t: Target, m: Const, offset: nat, n: nat) returns (r: Option<Word>)
    ensures r == PackStorage(t, m, offset, n)
  {
    hide ByteAt, Or, Shl, Resize, Size, TypeOf, Zeros;
    if n > 8 { return None; }
    ghost var all := MemberBytes(t, m, offset, n);
    var packed := Zeros(64);
    for i := 0 to n
      invariant packed == PackFirst(all, i, t.bigEndian)
      invariant Readable(t, m, offset, i)
    {
      var value := Some(ZERO);
      if offset + i < Size(t, TypeOf(t, m)) {
        value := ByteAt(t, m, offset + i);
      }
      assert value == ByteFrom(t, m, offset, i);
      if value.None? { return None; }
      packed := Or(packed, Shl(Resize(value.value, 64), 8 * ShiftIndex(n, i, t.bigEndian)));
    }
    return Some(packed);
  }

  // ----- the general path -----

  function PointerToInt(p: Pointer, width: nat): Const {
    match p
    case Addr(s) => PtrInt(s, width)
    case FromBits(bits) => IntC(bits)
  }

  function RebuildInt(t: Target, width: nat, m: Const, offset: nat): Option<Const> {
    if width > 64 || width % 8 != 0 then None
    else
      match PointerAt(t, m, offset, width / 8)
      case Some(p) => Some(PointerToInt(p, width))
      case None =>
        (match PackStorage(t, m, offset, width / 8)
         case None => None
         case Some(w) => Some(IntC(w[..width])))
  }

  function RebuildFp(t: Target, kind: BinaryKind, m: Const, offset: nat): Option<Const> {
    match PackStorage(t, m, offset, FpWidth(kind) / 8)
    case None => None
    case Some(w) => Some(FpC(kind, w[..FpWidth(kind)]))
  }

  function RebuildPtr(t: Target, m: Const, offset: nat): Option<Const> {
    if t.ptrBytes == 0 || t.ptrBytes > 8 then None
    else
      match PointerAt(t, m, offset, t.ptrBytes)
      case Some(p) => Some(PtrC(p))
      case None =>
        (match PackStorage(t, m, offset, t.ptrBytes)
         case None => None
         case Some(w) => Some(PtrC(FromBits(w[..8 * t.ptrBytes]))))
  }

  /** A constant of type `ty` made of the member's bytes from `offset` on. */
  function Rebuild(t: Target, ty: Ty, m: Const, offset: nat): Option<Const>
    decreases ty, 1, 0
  {
    match ty
    case IntTy(width) => RebuildInt(t, width, m, offset)
    case FpTy(kind) => RebuildFp(t, kind, m, offset)
    case PtrTy => RebuildPtr(t, m, offset)
    case ArrayTy(elem, n) =>
      if n == 0 || Size(t, elem) == 0 then Some(Null(t, ty))
      else
        (match RebuildElems(t, elem, m, offset, n)
         case None => None
         case Some(es) => Some(ArrayC(elem, es)))
    case StructTy(_, fs, _) =>
      (match RebuildFields(t, ty, m, offset, |fs|)
       case None => None
       case Some(vs) => Some(StructC(ty, vs)))
    case OtherTy(size) => if size == 0 then Some(Null(t, ty)) else None
  }

  /** The first `n` elements. */
  function RebuildElems(t: Target, elem: Ty, m: Const, offset: nat, n: nat): Option<seq<Const>>
    decreases elem, 2, n
  {
    if n == 0 then Some([])
    else
      match RebuildElems(t, elem, m, offset, n - 1)
      case None => None
      case Some(es) =>
        (match Rebuild(t, elem, m, offset + Times(n - 1, Size(t, elem)))
         case None => None
         case Some(e) => Some(es + [e]))
  }

  /** The first `n` fields. */
  function RebuildFields(t: Target, ty: Ty, m: Const, offset: nat, n: nat): Option<seq<Const>>
    requires ty.StructTy? && n <= |ty.fields|
    decreases ty, 0, n
  {
    if n == 0 then Some([])
    else
      match RebuildFields(t, ty, m, offset, n - 1)
      case None => None
      case Some(vs) =>
        (match Rebuild(t, ty.fields[n - 1].ty, m, offset + ty.fields[n - 1].offset)
         case None => None
         case Some(v) => Some(vs + [v]))
  }

  /** The loops that fill the element and field arrays, leaving at the first part that fails. */
  method StorageFromMember(t: Target, ty: Ty, m: Const, offset: nat) returns (r: Option<Const>)
    ensures r == Rebuild(t, ty, m, offset)
    decreases ty, 1
  {
    match ty
    case IntTy(width) =>
      if width > 64 || width % 8 != 0 { return None; }
      var p := PointerAt(t, m, offset, width / 8);
      if p.Some? { return Some(PointerToInt(p.value, width)); }
      var packed := PackStorageBytes(t, m, offset, width / 8);
      return if packed.Some? then Some(IntC(packed.value[..width])) else None;
    case FpTy(kind) =>
      var packed := PackStorageBytes(t, m, offset, FpWidth(kind) / 8);
      return if packed.Some? then Some(FpC(kind, packed.value[..FpWidth(kind)])) else None;
    case PtrTy =>
      if t.ptrBytes == 0 || t.ptrBytes > 8 { return None; }
      var p := PointerAt(t, m, offset, t.ptrBytes);
      if p.Some? { return Some(PtrC(p.value)); }
      var packed := PackStorageBytes(t, m, offset, t.ptrBytes);
      return if packed.Some? then Some(PtrC(FromBits(packed.value[..8 * t.ptrBytes]))) else None;
    case ArrayTy(elem, n) =>
      if n == 0 || Size(t, elem) == 0 { return Some(Null(t, ty)); }
      var es := ElementsFromMember(t, elem, m, offset, n);
      return if es.Some? then Some(ArrayC(elem, es.value)) else None;
    case StructTy(_, fs, _) =>
      var vs := FieldsFromMember(t, ty, m, offset);
      return if vs.Some? then Some(StructC(ty, vs.value)) else None;
    case OtherTy(size) =>
      return if size == 0 then Some(Null(t, ty)) else None;
  }

  method ElementsFromMember(t: Target, elem: Ty, m: Const, offset: nat, n: nat) returns (r: Option<seq<Const>>)
    ensures r == RebuildElems(t, elem, m, offset, n)
    decreases elem, 2
  {
    hide Rebuild, Times;
    var es := [];
    for i := 0 to n
      invariant RebuildElems(t, elem, m, offset, i) == Some(es)
    {
      var e := StorageFromMember(t, elem, m, offset + Times(i, Size(t, elem)));
      if e.None? {
        NoElems(t, elem, m, offset, i + 1, n);
        return None;
      }
      es := es + [e.value];
    }
    return Some(es);
  }

  method FieldsFromMember(t: Target, ty: Ty, m: Const, offset: nat) returns (r: Option<seq<Const>>)
    requires ty.StructTy?
    ensures r == RebuildFields(t, ty, m, offset, |ty.fields|)
    decreases ty, 0
  {
    hide Rebuild;
    var vs := [];
    for i := 0 to |ty.fields|
      invariant RebuildFields(t, ty, m, offset, i) == Some(vs)
    {
      var v := StorageFromMember(t, ty.fields[i].ty, m, offset + ty.fields[i].offset);
      if v.None? {
        NoFields(t, ty, m, offset, i + 1, |ty.fields|);
        return None;
      }
      vs := vs + [v.value];
    }
    return Some(vs);
  }

  lemma {:induction false} NoElems(t: Target, elem: Ty, m: Const, offset: nat, i: nat, n: nat)
    requires i <= n && RebuildElems(t, elem, m, offset, i).None?
    ensures RebuildElems(t, elem, m, offset, n).None?
    decreases n
  {
    hide Rebuild;
    if i < n { NoElems(t, elem, m, offset, i, n - 1); }
  }

  lemma {:induction false} NoFields(t: Target, ty: Ty, m: Const, offset: nat, i: nat, n: nat)
    requires ty.StructTy? && i <= n <= |ty.fields| && RebuildFields(t, ty, m, offset, i).None?
    ensures RebuildFields(t, ty, m, offset, n).None?
    decreases n
  {
    hide Rebuild;
    if i < n { NoFields(t, ty, m, offset, i, n - 1); }
  }

  lemma {:induction false} ElemsAre(t: Target, elem: Ty, m: Const, offset: nat, n: nat)
    requires RebuildElems(t, elem, m, offset, n).Some?
    ensures var es := RebuildElems(t, elem, m, offset, n).value;
      |es| == n && forall k: nat :: k < n ==> Some(es[k]) == Rebuild(t, elem, m, offset + Times(k, Size(t, elem)))
  {
    hide Rebuild, Times;
    if n > 0 { ElemsAre(t, elem, m, offset, n - 1); }
  }

  lemma {:induction false} FieldsAre(t: Target, ty: Ty, m: Const, offset: nat, n: nat)
    requires ty.StructTy? && n <= |ty.fields| && RebuildFields(t, ty, m, offset, n).Some?
    ensures var vs := RebuildFields(t, ty, m, offset, n).value;
      |vs| == n && forall k: nat :: k < n ==>
        Some(vs[k]) == Rebuild(t, ty.fields[k].ty, m, offset + ty.fields[k].offset)
  {
    hide Rebuild;
    if n > 0 { FieldsAre(t, ty, m, offset, n - 1); }
  }

  // ----- what the readers mean -----

  /** The byte reader tells the truth. */
  lemma {:induction false} ByteIsCell(t: Target, c: Const, i: nat)
    requires ByteAt(t, c, i).Some?
    ensures CellAt(t, c, i) == Some(Data(ByteAt(t, c, i).value))
    decreases c
  {
    hide Times, Slot, Within, IntByte;
    match c
    case ArrayC(elem, es) =>
      var stride := Size(t, elem);
      if stride != 0 && Slot(i, stride) < |es| { ByteIsCell(t, es[Slot(i, stride)], Within(i, stride)); }
    case StructC(ty, vs) =>
      var k := FieldAt(t, ty.fields, i, 0);
      if k < |ty.fields| { ByteIsCell(t, vs[k], i - ty.fields[k].offset); }
    case _ =>
  }

  lemma {:induction false} PointerCells(t: Target, p: Pointer, j: nat)
    ensures CellAt(t, PtrC(p), j) == PointerCell(t, p, j)
  {}

  /** A pointer found at an offset is what the bytes there hold. */
  lemma {:induction false} PointerIsThere(t: Target, c: Const, offset: nat, width: nat, j: nat)
    requires WellTyped(t, c) && WfTy(t, TypeOf(t, c)) && PointerAt(t, c, offset, width).Some? && j < width
    ensures width == t.ptrBytes && offset + j < Size(t, TypeOf(t, c))
    ensures CellAt(t, c, offset + j) == PointerCell(t, PointerAt(t, c, offset, width).value, j)
    decreases c
  {
    hide Times, Slot, Within, CellAt, PointerCell, Holds;
    match c
    case PtrC(p) => PointerCells(t, p, j);
    case ArrayC(elem, es) =>
      var stride := Size(t, elem);
      PointerIsThere(t, es[Slot(offset, stride)], Within(offset, stride), width, j);
      InElement(t, c, offset, j, PointerCell(t, PointerAt(t, c, offset, width).value, j));
    case StructC(ty, vs) =>
      var k := FieldHolding(t, ty.fields, offset, width, 0);
      HoldsRange(t, ty.fields[k], offset, width);
      PointerIsThere(t, vs[k], offset - ty.fields[k].offset, width, j);
      FieldCell(t, c, k, offset - ty.fields[k].offset + j);
  }

  lemma {:induction false} HoldsRange(t: Target, f: Field, offset: nat, width: nat)
    requires Holds(t, f, offset, width)
    ensures f.offset <= offset && offset + width <= f.offset + Size(t, f.ty)
  {}

  lemma {:induction false} InElement(t: Target, c: Const, offset: nat, j: nat, cell: Option<Cell>)
    requires c.ArrayC? && Size(t, c.elem) > 0 && Slot(offset, Size(t, c.elem)) < |c.elems|
    requires Within(offset, Size(t, c.elem)) + j < Size(t, c.elem)
    requires CellAt(t, c.elems[Slot(offset, Size(t, c.elem))], Within(offset, Size(t, c.elem)) + j) == cell
    ensures offset + j < Size(t, TypeOf(t, c)) && CellAt(t, c, offset + j) == cell
  {
    hide Times, Slot, Within, CellAt, Size;
    var stride := Size(t, c.elem);
    IndexBound(offset, stride, |c.elems|);
    ElementCell(t, c, Slot(offset, stride), Within(offset, stride) + j);
  }
}
