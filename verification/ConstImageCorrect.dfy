/** What a rebuilt union storage holds, byte by byte, and the shortcut for a member that fits one
    slot of the storage exactly. */
module ConstImageCorrect {
  import opened Options
  import opened FloatKinds
  import opened Words
  import opened Bytes
  import opened Constants
  import opened ConstImage

  // ----- leaves -----

  /** A byte of the packed integer is the member's byte. */
  lemma {:induction false} PackedCell(t: Target, m: Const, offset: nat, n: nat, i: nat)
    requires PackStorage(t, m, offset, n).Some? && i < n
    ensures AsCell(IntByte(t, PackStorage(t, m, offset, n).value[..8 * n], i)) == MemberCell(t, m, offset + i)
  {
    hide ByteAt, CellAt, ByteOf, Pack, Size;
    var bytes := MemberBytes(t, m, offset, n);
    UnpackPack(bytes, t.bigEndian, i);
    WholeBytes(t, Pack(bytes, t.bigEndian)[..8 * n], n, i);
    assert ByteFrom(t, m, offset, i).Some?;
    if offset + i < Size(t, TypeOf(t, m)) { ByteIsCell(t, m, offset + i); }
  }

  lemma {:induction false} WholeBytes(t: Target, bits: Bits, n: nat, i: nat)
    requires |bits| == 8 * n && n <= 8 && i < n
    ensures |bits| % 8 == 0 && |bits| / 8 == n && IntByte(t, bits, i) == Some(ByteOf(bits, i, t.bigEndian))
  {}

  lemma {:induction false} PointerFound(t: Target, m: Const, offset: nat, width: nat, i: nat)
    requires WellTyped(t, m) && WfTy(t, TypeOf(t, m)) && PointerAt(t, m, offset, width).Some? && i < width
    ensures width == t.ptrBytes
    ensures MemberCell(t, m, offset + i) == PointerCell(t, PointerAt(t, m, offset, width).value, i)
  {
    hide CellAt, PointerAt, PointerCell, Size;
    PointerIsThere(t, m, offset, width, i);
  }

  /** A found pointer is well typed. */
  lemma {:induction false} PointerTyped(t: Target, m: Const, offset: nat, width: nat)
    requires WellTyped(t, m) && PointerAt(t, m, offset, width).Some?
    ensures WellTyped(t, PtrC(PointerAt(t, m, offset, width).value)) && width == t.ptrBytes
    decreases m
  {
    hide Slot, Within, Times;
    match m
    case PtrC(_) =>
    case ArrayC(elem, es) =>
      var stride := Size(t, elem);
      PointerTyped(t, es[Slot(offset, stride)], Within(offset, stride), width);
    case StructC(ty, vs) =>
      var k := FieldHolding(t, ty.fields, offset, width, 0);
      PointerTyped(t, vs[k], offset - ty.fields[k].offset, width);
  }

  lemma {:induction false} IntCell(t: Target, width: nat, m: Const, offset: nat, i: nat)
    requires WellTyped(t, m) && WfTy(t, TypeOf(t, m)) && RebuildInt(t, width, m, offset).Some? && i < (width + 7) / 8
    ensures CellAt(t, RebuildInt(t, width, m, offset).value, i) == MemberCell(t, m, offset + i)
  {
    hide PointerAt, PackStorage, MemberCell, ByteOf;
    var n := width / 8;
    if PointerAt(t, m, offset, n).Some? {
      PointerFound(t, m, offset, n, i);
    } else {
      PackedCell(t, m, offset, n, i);
    }
  }

  lemma {:induction false} FpCell(t: Target, kind: BinaryKind, m: Const, offset: nat, i: nat)
    requires RebuildFp(t, kind, m, offset).Some? && i < FpWidth(kind) / 8
    ensures CellAt(t, RebuildFp(t, kind, m, offset).value, i) == MemberCell(t, m, offset + i)
  {
    hide PackStorage, MemberCell, ByteOf;
    PackedCell(t, m, offset, FpWidth(kind) / 8, i);
  }

  lemma {:induction false} PtrCell(t: Target, m: Const, offset: nat, i: nat)
    requires WellTyped(t, m) && WfTy(t, TypeOf(t, m)) && RebuildPtr(t, m, offset).Some? && i < t.ptrBytes
    ensures CellAt(t, RebuildPtr(t, m, offset).value, i) == MemberCell(t, m, offset + i)
  {
    hide PointerAt, PackStorage, MemberCell, ByteOf;
    if PointerAt(t, m, offset, t.ptrBytes).Some? {
      PointerFound(t, m, offset, t.ptrBytes, i);
    } else {
      PackedCell(t, m, offset, t.ptrBytes, i);
    }
  }

  // ----- the general path -----

  lemma {:induction false} IntTyped(t: Target, width: nat, m: Const, offset: nat)
    requires WellTyped(t, m) && RebuildInt(t, width, m, offset).Some?
    ensures var r := RebuildInt(t, width, m, offset).value; TypeOf(t, r) == IntTy(width) && WellTyped(t, r)
    ensures width <= 64 && width % 8 == 0
  {
    hide PackStorage, PointerAt;
    if PointerAt(t, m, offset, width / 8).Some? { PointerTyped(t, m, offset, width / 8); }
  }

  lemma {:induction false} FpTyped(t: Target, kind: BinaryKind, m: Const, offset: nat)
    requires RebuildFp(t, kind, m, offset).Some?
    ensures var r := RebuildFp(t, kind, m, offset).value; TypeOf(t, r) == FpTy(kind) && WellTyped(t, r)
  {
    hide PackStorage;
  }

  lemma {:induction false} PtrTyped(t: Target, m: Const, offset: nat)
    requires WellTyped(t, m) && RebuildPtr(t, m, offset).Some?
    ensures var r := RebuildPtr(t, m, offset).value; TypeOf(t, r) == PtrTy && WellTyped(t, r)
  {
    hide PackStorage, PointerAt;
    if PointerAt(t, m, offset, t.ptrBytes).Some? { PointerTyped(t, m, offset, t.ptrBytes); }
  }

  /** A rebuilt constant has the type asked for, and that type is readable. */
  lemma {:induction false} RebuildTyped(t: Target, ty: Ty, m: Const, offset: nat)
    requires WfTarget(t) && WellTyped(t, m) && Rebuild(t, ty, m, offset).Some?
    ensures var r := Rebuild(t, ty, m, offset).value; TypeOf(t, r) == ty && WellTyped(t, r)
    ensures Supported(t, ty)
    decreases ty
  {
    hide PackStorage, PointerAt, Times, RebuildInt, RebuildFp, RebuildPtr;
    match ty
    case IntTy(width) => IntTyped(t, width, m, offset);
    case FpTy(kind) => FpTyped(t, kind, m, offset);
    case PtrTy => PtrTyped(t, m, offset);
    case ArrayTy(elem, n) =>
      if n != 0 && Size(t, elem) != 0 {
        ElemsAre(t, elem, m, offset, n);
        var es := RebuildElems(t, elem, m, offset, n).value;
        forall k: nat | k < n ensures TypeOf(t, es[k]) == elem && WellTyped(t, es[k]) && Supported(t, elem) {
          RebuildTyped(t, elem, m, offset + Times(k, Size(t, elem)));
        }
        assert TypeOf(t, es[0]) == elem;
      }
    case StructTy(_, fs, _) =>
      FieldsAre(t, ty, m, offset, |fs|);
      var vs := RebuildFields(t, ty, m, offset, |fs|).value;
      forall k: nat | k < |fs|
        ensures TypeOf(t, vs[k]) == fs[k].ty && WellTyped(t, vs[k]) && Supported(t, fs[k].ty)
      {
        RebuildTyped(t, fs[k].ty, m, offset + fs[k].offset);
      }
    case _ =>
  }

  /** Byte `i` of whatever is rebuilt: a value byte is the member's byte `offset + i`, zero past the
      member's end, and a padding byte is zero. Both byte orders, addresses included. */
  lemma {:induction false} RebuildImage(t: Target, ty: Ty, m: Const, offset: nat, i: nat)
    requires WfTarget(t) && WellTyped(t, m) && WfTy(t, TypeOf(t, m))
    requires Rebuild(t, ty, m, offset).Some? && i < Size(t, ty)
    ensures CellAt(t, Rebuild(t, ty, m, offset).value, i)
      == if IsData(t, ty, i) then MemberCell(t, m, offset + i) else Some(ZEROCELL)
    decreases ty
  {
    hide Times, Slot, Within, CellAt, MemberCell, RebuildInt, RebuildFp, RebuildPtr, WellTyped, WfTy;
    match ty
    case IntTy(width) => IntCell(t, width, m, offset, i);
    case FpTy(kind) => FpCell(t, kind, m, offset, i);
    case PtrTy => PtrCell(t, m, offset, i);
    case ArrayTy(elem, n) =>
      var stride := Size(t, elem);
      PositiveTimes(n, stride);
      IndexBound(i, stride, n);
      ElemsAre(t, elem, m, offset, n);
      var es := RebuildElems(t, elem, m, offset, n).value;
      RebuildImage(t, elem, m, offset + Times(Slot(i, stride), stride), Within(i, stride));
      ElementCell(t, ArrayC(elem, es), Slot(i, stride), Within(i, stride));
    case StructTy(_, fs, _) =>
      FieldsAre(t, ty, m, offset, |fs|);
      var vs := RebuildFields(t, ty, m, offset, |fs|).value;
      StructCell(t, ty, vs, i);
      var k := FieldAt(t, fs, i, 0);
      if k < |fs| { RebuildImage(t, fs[k].ty, m, offset + fs[k].offset, i - fs[k].offset); }
    case OtherTy(_) =>
  }

  lemma {:induction false} StructCell(t: Target, ty: Ty, vs: seq<Const>, i: nat)
    requires ty.StructTy? && |vs| == |ty.fields|
    ensures var k := FieldAt(t, ty.fields, i, 0);
      CellAt(t, StructC(ty, vs), i)
      == if k == |vs| then Some(ZEROCELL) else CellAt(t, vs[k], i - ty.fields[k].offset)
  {}

  /** Rebuilding succeeds for every readable type from a member without pointers. */
  lemma {:induction false} RebuildSucceeds(t: Target, ty: Ty, m: Const, offset: nat)
    requires WfTarget(t) && Supported(t, ty)
    requires forall j: nat :: j < Size(t, TypeOf(t, m)) ==> ByteAt(t, m, j).Some?
    ensures Rebuild(t, ty, m, offset).Some?
    decreases ty, 1, 0
  {
    hide Times, ByteAt, PointerAt;
    match ty
    case ArrayTy(elem, n) =>
      if n != 0 && Size(t, elem) != 0 { ElemsSucceed(t, elem, m, offset, n); }
    case StructTy(_, fs, _) => FieldsSucceed(t, ty, m, offset, |fs|);
    case _ =>
  }

  lemma {:induction false} ElemsSucceed(t: Target, elem: Ty, m: Const, offset: nat, n: nat)
    requires WfTarget(t) && Supported(t, elem)
    requires forall j: nat :: j < Size(t, TypeOf(t, m)) ==> ByteAt(t, m, j).Some?
    ensures RebuildElems(t, elem, m, offset, n).Some?
    decreases elem, 2, n
  {
    hide Times, ByteAt, Rebuild;
    if n > 0 {
      ElemsSucceed(t, elem, m, offset, n - 1);
      RebuildSucceeds(t, elem, m, offset + Times(n - 1, Size(t, elem)));
    }
  }

  lemma {:induction false} FieldsSucceed(t: Target, ty: Ty, m: Const, offset: nat, n: nat)
    requires WfTarget(t) && ty.StructTy? && Supported(t, ty) && n <= |ty.fields|
    requires forall j: nat :: j < Size(t, TypeOf(t, m)) ==> ByteAt(t, m, j).Some?
    ensures RebuildFields(t, ty, m, offset, n).Some?
    decreases ty, 0, n
  {
    hide Times, ByteAt, Rebuild;
    if n > 0 {
      FieldsSucceed(t, ty, m, offset, n - 1);
      RebuildSucceeds(t, ty.fields[n - 1].ty, m, offset + ty.fields[n - 1].offset);
    }
  }

  // ----- the exact path -----

  /** Puts the member, unchanged, into the first slot at offset zero that has its type; the flag says
      whether there was one. Everything else is null. */
  function Exact(t: Target, ty: Ty, m: Const): (Const, bool)
    decreases ty, 1, 0
  {
    if ty == TypeOf(t, m) && Size(t, ty) > 0 then (m, true)
    else if !ty.StructTy? then (Null(t, ty), false)
    else
      var (vs, placed) := ExactFields(t, ty, m, |ty.fields|);
      (StructC(ty, vs), placed)
  }

  function ExactFields(t: Target, ty: Ty, m: Const, n: nat): (r: (seq<Const>, bool))
    requires ty.StructTy? && n <= |ty.fields|
    ensures |r.0| == n
    decreases ty, 0, n
  {
    if n == 0 then ([], false)
    else
      var (vs, placed) := ExactFields(t, ty, m, n - 1);
      var f := ty.fields[n - 1];
      if placed || f.offset != 0 || Size(t, f.ty) == 0 then (vs + [Null(t, f.ty)], placed)
      else
        var (child, childPlaced) := Exact(t, f.ty, m);
        if childPlaced then (vs + [child], true) else (vs + [Null(t, f.ty)], false)
  }

  /** The loop over the fields, with its `placed` flag. */
  method StorageFromExactMember(t: Target, ty: Ty, m: Const) returns (r: Const, placed: bool)
    ensures (r, placed) == Exact(t, ty, m)
    decreases ty
  {
    if ty == TypeOf(t, m) && Size(t, ty) > 0 { return m, true; }
    if !ty.StructTy? { return Null(t, ty), false; }
    var vs: seq<Const> := [];
    placed := false;
    for i := 0 to |ty.fields|
      invariant ExactFields(t, ty, m, i) == (vs, placed)
    {
      var f := ty.fields[i];
      var v := Null(t, f.ty);
      if !placed && f.offset == 0 && Size(t, f.ty) != 0 {
        var child, childPlaced := StorageFromExactMember(t, f.ty, m);
        if childPlaced { v, placed := child, true; }
      }
      vs := vs + [v];
    }
    r := StructC(ty, vs);
  }

  lemma {:induction false} ExactTyped(t: Target, ty: Ty, m: Const)
    requires WellTyped(t, m)
    ensures TypeOf(t, Exact(t, ty, m).0) == ty && WellTyped(t, Exact(t, ty, m).0)
    decreases ty, 1, 0
  {
    hide Size, Null;
    if ty.StructTy? { ExactFieldsTyped(t, ty, m, |ty.fields|); }
  }

  lemma {:induction false} ExactFieldsTyped(t: Target, ty: Ty, m: Const, n: nat)
    requires WellTyped(t, m) && ty.StructTy? && n <= |ty.fields|
    ensures var vs := ExactFields(t, ty, m, n).0;
      forall k :: 0 <= k < n ==> WellTyped(t, vs[k]) && TypeOf(t, vs[k]) == ty.fields[k].ty
    decreases ty, 0, n
  {
    hide Exact, Size, Null, WellTyped, TypeOf;
    if n > 0 {
      ExactFieldsTyped(t, ty, m, n - 1);
      ExactTyped(t, ty.fields[n - 1].ty, m);
    }
  }

  /** The field that took the member, if any did; all others are null. */
  lemma {:induction false} ExactSlot(t: Target, ty: Ty, m: Const, n: nat) returns (p: nat)
    requires ty.StructTy? && n <= |ty.fields| && ExactFields(t, ty, m, n).1
    ensures p < n && ty.fields[p].offset == 0 && Size(t, ty.fields[p].ty) > 0
    ensures Exact(t, ty.fields[p].ty, m) == (ExactFields(t, ty, m, n).0[p], true)
    ensures forall k :: 0 <= k < n && k != p ==> ExactFields(t, ty, m, n).0[k] == Null(t, ty.fields[k].ty)
    decreases n
  {
    hide Exact, Size, Null;
    if ExactFields(t, ty, m, n - 1).1 {
      p := ExactSlot(t, ty, m, n - 1);
    } else {
      p := n - 1;
      NothingPlaced(t, ty, m, n - 1);
    }
  }

  lemma {:induction false} NothingPlaced(t: Target, ty: Ty, m: Const, n: nat)
    requires ty.StructTy? && n <= |ty.fields| && !ExactFields(t, ty, m, n).1
    ensures forall k :: 0 <= k < n ==> ExactFields(t, ty, m, n).0[k] == Null(t, ty.fields[k].ty)
    decreases n
  {
    hide Exact, Size, Null;
    if n > 0 { NothingPlaced(t, ty, m, n - 1); }
  }

  /** The storage as it reads with nothing in it but the member at its start. */
  function OverNull(t: Target, ty: Ty, m: Const, i: nat): Option<Cell> {
    if i < Size(t, TypeOf(t, m)) then CellAt(t, m, i) else CellAt(t, Null(t, ty), i)
  }

  /** A placed member fills the storage from offset zero; the rest is null. */
  lemma {:induction false} ExactImage(t: Target, ty: Ty, m: Const, i: nat)
    requires WellTyped(t, m) && WfTy(t, ty) && Exact(t, ty, m).1 && i < Size(t, ty)
    ensures Size(t, TypeOf(t, m)) <= Size(t, ty)
    ensures CellAt(t, Exact(t, ty, m).0, i) == OverNull(t, ty, m, i)
    decreases ty
  {
    hide Null, CellAt, Times, FieldAt;
    if !(ty == TypeOf(t, m) && Size(t, ty) > 0) {
      hide ExactFields;
      var f := ty.fields;
      var p := ExactSlot(t, ty, m, |f|);
      ExactImage(t, f[p].ty, m, if i < Size(t, f[p].ty) then i else 0);
      SlotImage(t, ty, ExactFields(t, ty, m, |f|).0, p, i);
    }
  }

  /** A struct whose only non-null field is `p`, at offset zero. */
  lemma {:induction false} SlotImage(t: Target, ty: Ty, vs: seq<Const>, p: nat, i: nat)
    requires ty.StructTy? && WfTy(t, ty) && |vs| == |ty.fields|
    requires p < |vs| && ty.fields[p].offset == 0 && Size(t, ty.fields[p].ty) > 0
    requires forall k :: 0 <= k < |vs| && k != p ==> vs[k] == Null(t, ty.fields[k].ty)
    ensures CellAt(t, StructC(ty, vs), i)
      == if i < Size(t, ty.fields[p].ty) then CellAt(t, vs[p], i) else CellAt(t, Null(t, ty), i)
    ensures i < Size(t, ty.fields[p].ty) ==> CellAt(t, Null(t, ty), i) == CellAt(t, Null(t, ty.fields[p].ty), i)
  {
    hide Null, Times, CellAt;
    StructCell(t, ty, vs, i);
    NullStruct(t, ty);
    StructCell(t, ty, Null(t, ty).values, i);
    if i < Size(t, ty.fields[p].ty) { FieldIsUnique(t, ty, p, i); }
  }

  lemma {:induction false} NullStruct(t: Target, ty: Ty)
    requires ty.StructTy?
    ensures Null(t, ty).StructC? && Null(t, ty).ty == ty && |Null(t, ty).values| == |ty.fields|
    ensures forall k :: 0 <= k < |ty.fields| ==> Null(t, ty).values[k] == Null(t, ty.fields[k].ty)
  {}

  /** In a readable type the rest is zero. */
  lemma {:induction false} OverNullIsMember(t: Target, ty: Ty, m: Const, i: nat)
    requires WfTarget(t) && Supported(t, ty) && i < Size(t, ty)
    ensures OverNull(t, ty, m, i) == MemberCell(t, m, i)
  {
    hide Null, CellAt, Size, Supported;
    NullIsZero(t, ty, i);
  }

  /** Where both paths apply they store the same bytes. */
  lemma {:induction false} ExactAgreesWithRebuild(t: Target, ty: Ty, m: Const)
    requires WfTarget(t) && WellTyped(t, m) && WfTy(t, ty) && WfTy(t, TypeOf(t, m))
    requires Exact(t, ty, m).1 && Rebuild(t, ty, m, 0).Some?
    ensures SameImage(t, Exact(t, ty, m).0, Rebuild(t, ty, m, 0).value)
    ensures Exact(t, ty, m).0 == Rebuild(t, ty, m, 0).value
  {
    hide Exact, Rebuild, CellAt, MemberCell, OverNull, IsData, Size;
    var a, b := Exact(t, ty, m).0, Rebuild(t, ty, m, 0).value;
    RebuildTyped(t, ty, m, 0);
    ExactTyped(t, ty, m);
    forall i | 0 <= i < Size(t, ty) ensures CellAt(t, a, i) == CellAt(t, b, i) {
      RebuildImage(t, ty, m, 0, i);
      ExactImage(t, ty, m, i);
      OverNullIsMember(t, ty, m, i);
      if !IsData(t, ty, i) { PaddingIsZero(t, a, i); }
    }
    ImageIsInjective(t, a, b);
  }

  // ----- union storage -----

  /** The exact path first, the general one otherwise. */
  function UnionStorage(t: Target, ty: Ty, m: Const): Option<Const> {
    if !ty.StructTy? then None
    else
      var (c, placed) := Exact(t, ty, m);
      if placed then Some(c) else Rebuild(t, ty, m, 0)
  }

  method UnionStorageFromMember(t: Target, ty: Ty, m: Const) returns (r: Option<Const>)
    ensures r == UnionStorage(t, ty, m)
  {
    if !ty.StructTy? { return None; }
    var c, placed := StorageFromExactMember(t, ty, m);
    if placed { return Some(c); }
    r := StorageFromMember(t, ty, m, 0);
  }

  /** A union initialised through one member holds that member's bytes in its value bytes, then what
      a null storage holds there, and zeros in its padding, whichever path built it. */
  lemma {:induction false} UnionImage(t: Target, ty: Ty, m: Const, i: nat)
    requires WfTarget(t) && WellTyped(t, m) && WfTy(t, ty) && WfTy(t, TypeOf(t, m))
    requires UnionStorage(t, ty, m).Some? && i < Size(t, ty)
    ensures CellAt(t, UnionStorage(t, ty, m).value, i)
      == if IsData(t, ty, i) then OverNull(t, ty, m, i) else Some(ZEROCELL)
  {
    hide Exact, Rebuild, CellAt, MemberCell, OverNull, IsData, Size, Supported;
    if Exact(t, ty, m).1 {
      ExactImage(t, ty, m, i);
      ExactTyped(t, ty, m);
      if !IsData(t, ty, i) { PaddingIsZero(t, Exact(t, ty, m).0, i); }
    } else {
      RebuildTyped(t, ty, m, 0);
      RebuildImage(t, ty, m, 0, i);
      OverNullIsMember(t, ty, m, i);
    }
  }

  /** Whether the union's bytes, read as a plain byte array, are all readable. */
  predicate BytesReadable(t: Target, c: Const, n: nat) {
    forall i: nat :: i < n ==> ByteAt(t, c, i).Some?
  }

  /** A union's storage seen as an array of `i8`: element `i` is byte `i`, and there is a result
      exactly when every byte can be read. */
  method ByteArrayFromUnion(t: Target, c: Const, ty: Ty) returns (r: Option<Const>)
    ensures r.Some? <==> ty.ArrayTy? && ty.elem == IntTy(8) && BytesReadable(t, c, ty.length)
    ensures r.Some? ==> TypeOf(t, r.value) == ty && WellTyped(t, r.value)
    ensures r.Some? ==> r.value.ArrayC? && |r.value.elems| == ty.length
    ensures r.Some? ==> forall i: nat :: i < ty.length ==> r.value.elems[i] == IntC(ByteAt(t, c, i).value)
  {
    hide ByteAt;
    if !ty.ArrayTy? || ty.elem != IntTy(8) { return None; }
    var elems: seq<Const> := [];
    for i := 0 to ty.length
      invariant |elems| == i && BytesReadable(t, c, i)
      invariant forall k: nat :: k < i ==> elems[k] == IntC(ByteAt(t, c, k).value)
    {
      var b := ByteAt(t, c, i);
      if b.None? { return None; }
      elems := elems + [IntC(b.value)];
    }
    r := Some(ArrayC(IntTy(8), elems));
  }

  /** That array has the storage's own image. */
  lemma {:induction false} ByteArrayImage(t: Target, c: Const, elems: seq<Const>, i: nat)
    requires i < |elems| && ByteAt(t, c, i).Some? && elems[i] == IntC(ByteAt(t, c, i).value)
    ensures CellAt(t, ArrayC(IntTy(8), elems), i) == CellAt(t, c, i)
  {
    hide ByteOf;
    var b := ByteAt(t, c, i).value;
    ByteIsCell(t, c, i);
    OneByte(b, t.bigEndian);
  }

  lemma {:induction false} OneByte(b: Byte, big: bool)
    ensures ByteOf(b, 0, big) == b
  {
    forall j | 0 <= j < 8 ensures ByteOf(b, 0, big)[j] == b[j] {
      ByteOfBit(b, 0, big, j);
    }
  }
}
