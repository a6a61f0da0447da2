/** When rebuilding succeeds, and that a constant rebuilt from itself is unchanged. */
module ConstImageTotal {
  import opened Options
  import opened FloatKinds
  import opened Words
  import opened Bytes
  import opened Constants
  import opened ConstImage
  import opened ConstImageCorrect

  /** No address in it has been cast to an integer. */
  predicate NoAddressInts(c: Const) {
    match c
    case PtrInt(_, _) => false
    case ArrayC(_, es) => forall k :: 0 <= k < |es| ==> NoAddressInts(es[k])
    case StructC(_, vs) => forall k :: 0 <= k < |vs| ==> NoAddressInts(vs[k])
    case _ => true
  }

  /** It holds no pointer at all. */
  predicate PointerFree(c: Const) {
    match c
    case PtrInt(_, _) => false
    case PtrC(_) => false
    case ArrayC(_, es) => forall k :: 0 <= k < |es| ==> PointerFree(es[k])
    case StructC(_, vs) => forall k :: 0 <= k < |vs| ==> PointerFree(vs[k])
    case _ => true
  }

  /** The reader reads every byte of a pointer-free constant of a readable type. */
  lemma {:induction false} PointerFreeIsReadable(t: Target, c: Const, i: nat)
    requires WellTyped(t, c) && PointerFree(c) && Supported(t, TypeOf(t, c)) && i < Size(t, TypeOf(t, c))
    ensures ByteAt(t, c, i).Some?
    decreases c
  {
    hide Times, Slot, Within;
    match c
    case ArrayC(elem, es) =>
      var stride := Size(t, elem);
      if stride != 0 {
        IndexBound(i, stride, |es|);
        PointerFreeIsReadable(t, es[Slot(i, stride)], Within(i, stride));
      }
    case StructC(ty, vs) =>
      var k := FieldAt(t, ty.fields, i, 0);
      if k < |ty.fields| { PointerFreeIsReadable(t, vs[k], i - ty.fields[k].offset); }
    case _ =>
  }

  /** Any readable storage type can be rebuilt from any pointer-free member, at any offset. */
  lemma {:induction false} PointerFreeRebuilds(t: Target, ty: Ty, m: Const, offset: nat)
    requires WfTarget(t) && Supported(t, ty)
    requires WellTyped(t, m) && PointerFree(m) && Supported(t, TypeOf(t, m))
    ensures Rebuild(t, ty, m, offset).Some?
  {
    hide Rebuild, ByteAt, Supported, Size, WellTyped;
    forall j: nat | j < Size(t, TypeOf(t, m)) ensures ByteAt(t, m, j).Some? {
      PointerFreeIsReadable(t, m, j);
    }
    RebuildSucceeds(t, ty, m, offset);
  }

  // ----- parts of a constant -----

  /** From `off` on, `m` reads as `c` does. */
  ghost predicate Embeds(t: Target, m: Const, off: nat, c: Const) {
    var size := Size(t, TypeOf(t, c));
    off + size <= Size(t, TypeOf(t, m)) &&
    (forall i: nat :: i < size ==> ByteAt(t, m, off + i) == ByteAt(t, c, i)) &&
    (forall i: nat, w: nat :: w > 0 && i + w <= size ==> PointerAt(t, m, off + i, w) == PointerAt(t, c, i, w))
  }

  lemma {:induction false} ElementReads(t: Target, c: Const, k: nat, i: nat)
    requires c.ArrayC? && k < |c.elems| && i < Size(t, c.elem)
    ensures ByteAt(t, c, Times(k, Size(t, c.elem)) + i) == ByteAt(t, c.elems[k], i)
  {
    hide Times, Slot, Within, IntByte, FieldAt;
    IndexSplit(k, Size(t, c.elem), i);
  }

  lemma {:induction false} ElementPointers(t: Target, c: Const, k: nat, i: nat, w: nat)
    requires c.ArrayC? && k < |c.elems| && w > 0 && i + w <= Size(t, c.elem)
    ensures PointerAt(t, c, Times(k, Size(t, c.elem)) + i, w) == PointerAt(t, c.elems[k], i, w)
  {
    hide Times, Slot, Within;
    IndexSplit(k, Size(t, c.elem), i);
  }

  lemma {:induction false} ElementEmbeds(t: Target, m: Const, off: nat, c: Const, k: nat)
    requires c.ArrayC? && k < |c.elems| && WellTyped(t, c) && Size(t, c.elem) > 0 && Embeds(t, m, off, c)
    ensures Embeds(t, m, off + Times(k, Size(t, c.elem)), c.elems[k])
  {
    hide Times, Slot, Within, ByteAt, PointerAt;
    var stride := Size(t, c.elem);
    var at := Times(k, stride);
    ElementInside(k, stride, stride - 1, |c.elems|);
    forall i: nat | i < stride ensures ByteAt(t, m, off + at + i) == ByteAt(t, c.elems[k], i) {
      ElementReads(t, c, k, i);
      assert off + at + i == off + (at + i);
    }
    forall i: nat, w: nat | w > 0 && i + w <= stride
      ensures PointerAt(t, m, off + at + i, w) == PointerAt(t, c.elems[k], i, w)
    {
      ElementPointers(t, c, k, i, w);
      assert off + at + i == off + (at + i);
    }
  }

  lemma {:induction false} FieldReads(t: Target, c: Const, k: nat, i: nat)
    requires c.StructC? && WellTyped(t, c) && WfTy(t, c.ty) && k < |c.values| && i < Size(t, c.ty.fields[k].ty)
    ensures ByteAt(t, c, c.ty.fields[k].offset + i) == ByteAt(t, c.values[k], i)
  {
    hide Times, Slot, Within, IntByte, WfTy;
    FieldIsUnique(t, c.ty, k, c.ty.fields[k].offset + i);
  }

  lemma {:induction false} HolderIsUnique(t: Target, ty: Ty, k: nat, offset: nat, w: nat)
    requires ty.StructTy? && WfTy(t, ty) && k < |ty.fields| && w > 0 && Holds(t, ty.fields[k], offset, w)
    ensures FieldHolding(t, ty.fields, offset, w, 0) == k
  {
    FirstHolder(t, ty.fields, offset, w, 0, k);
    var r := FieldHolding(t, ty.fields, offset, w, 0);
    assert Covers(t, ty.fields[r], offset) && Covers(t, ty.fields[k], offset);
  }

  lemma {:induction false} FirstHolder(t: Target, fs: seq<Field>, offset: nat, w: nat, from: nat, k: nat)
    requires from <= k < |fs| && Holds(t, fs[k], offset, w)
    ensures FieldHolding(t, fs, offset, w, from) <= k
    decreases k - from
  {
    if !Holds(t, fs[from], offset, w) { FirstHolder(t, fs, offset, w, from + 1, k); }
  }

  lemma {:induction false} FieldPointers(t: Target, c: Const, k: nat, i: nat, w: nat)
    requires c.StructC? && WellTyped(t, c) && WfTy(t, c.ty) && k < |c.values|
    requires w > 0 && i + w <= Size(t, c.ty.fields[k].ty)
    ensures PointerAt(t, c, c.ty.fields[k].offset + i, w) == PointerAt(t, c.values[k], i, w)
  {
    hide Times, Slot, Within;
    HolderIsUnique(t, c.ty, k, c.ty.fields[k].offset + i, w);
  }

  lemma {:induction false} FieldEmbeds(t: Target, m: Const, off: nat, c: Const, k: nat)
    requires c.StructC? && WellTyped(t, c) && WfTy(t, c.ty) && k < |c.values| && Embeds(t, m, off, c)
    ensures Embeds(t, m, off + c.ty.fields[k].offset, c.values[k])
  {
    hide Times, ByteAt, PointerAt;
    var f := c.ty.fields[k];
    forall i: nat | i < Size(t, f.ty) ensures ByteAt(t, m, off + f.offset + i) == ByteAt(t, c.values[k], i) {
      FieldReads(t, c, k, i);
      assert off + f.offset + i == off + (f.offset + i);
    }
    forall i: nat, w: nat | w > 0 && i + w <= Size(t, f.ty)
      ensures PointerAt(t, m, off + f.offset + i, w) == PointerAt(t, c.values[k], i, w)
    {
      FieldPointers(t, c, k, i, w);
      assert off + f.offset + i == off + (f.offset + i);
    }
  }

  // ----- rebuilding a part from the whole -----

  lemma {:induction false} EmbeddedIsReadable(t: Target, m: Const, off: nat, c: Const, bits: Bits, n: nat)
    requires Embeds(t, m, off, c) && Size(t, TypeOf(t, c)) == n && |bits| == 8 * n && n <= 8
    requires c in {IntC(bits), FpC(Half, bits), FpC(Float, bits), FpC(Double, bits)}
    ensures Readable(t, m, off, n)
  {
    hide ByteOf;
    forall i: nat | i < n ensures ByteFrom(t, m, off, i).Some? {
      assert ByteAt(t, c, i).Some?;
    }
  }

  /** Every part of a constant can be rebuilt from the whole. */
  lemma {:induction false} EmbeddedRebuilds(t: Target, m: Const, off: nat, c: Const)
    requires WfTarget(t) && WellTyped(t, c) && WfTy(t, TypeOf(t, c)) && Supported(t, TypeOf(t, c))
    requires NoAddressInts(c) && Embeds(t, m, off, c)
    ensures Rebuild(t, TypeOf(t, c), m, off).Some?
    decreases c, 1, 0
  {
    match c
    case IntC(bits) =>
      hide Embeds, Readable, ByteAt, PointerAt;
      EmbeddedIsReadable(t, m, off, c, bits, |bits| / 8);
    case FpC(k, bits) =>
      hide Embeds, Readable, ByteAt;
      EmbeddedIsReadable(t, m, off, c, bits, |bits| / 8);
    case PtrC(p) =>
      assert PointerAt(t, m, off + 0, t.ptrBytes) == PointerAt(t, c, 0, t.ptrBytes);
    case ArrayC(elem, es) =>
      hide Embeds, Times;
      if es != [] && Size(t, elem) != 0 { ElementsRebuild(t, m, off, c, |es|); }
    case StructC(ty, vs) =>
      hide Embeds;
      FieldsRebuild(t, m, off, c, |vs|);
    case OpaqueC(_) =>
  }

  lemma {:induction false} ElementsRebuild(t: Target, m: Const, off: nat, c: Const, n: nat)
    requires WfTarget(t) && c.ArrayC? && n <= |c.elems| && WellTyped(t, c) && WfTy(t, c.elem) && Supported(t, c.elem)
    requires NoAddressInts(c) && Embeds(t, m, off, c) && Size(t, c.elem) > 0
    ensures RebuildElems(t, c.elem, m, off, n).Some?
    decreases c, 0, n
  {
    hide Embeds, Rebuild, Times;
    if n > 0 {
      ElementsRebuild(t, m, off, c, n - 1);
      ElementEmbeds(t, m, off, c, n - 1);
      EmbeddedRebuilds(t, m, off + Times(n - 1, Size(t, c.elem)), c.elems[n - 1]);
    }
  }

  lemma {:induction false} FieldsRebuild(t: Target, m: Const, off: nat, c: Const, n: nat)
    requires WfTarget(t) && c.StructC? && n <= |c.values| && WellTyped(t, c) && WfTy(t, c.ty) && Supported(t, c.ty)
    requires NoAddressInts(c) && Embeds(t, m, off, c)
    ensures RebuildFields(t, c.ty, m, off, n).Some?
    decreases c, 0, n
  {
    hide Embeds, Rebuild;
    if n > 0 {
      FieldsRebuild(t, m, off, c, n - 1);
      FieldEmbeds(t, m, off, c, n - 1);
      EmbeddedRebuilds(t, m, off + c.ty.fields[n - 1].offset, c.values[n - 1]);
    }
  }

  lemma {:induction false} SelfRebuilds(t: Target, m: Const)
    requires WfTarget(t) && WellTyped(t, m) && WfTy(t, TypeOf(t, m)) && Supported(t, TypeOf(t, m)) && NoAddressInts(m)
    ensures Rebuild(t, TypeOf(t, m), m, 0).Some?
  {
    hide Rebuild, Size, ByteAt, PointerAt;
    assert Embeds(t, m, 0, m);
    EmbeddedRebuilds(t, m, 0, m);
  }

  /** A constant of a readable type, pointers included, rebuilt from its own bytes is itself. */
  lemma {:induction false} RebuildRoundTrip(t: Target, m: Const)
    requires WfTarget(t) && WellTyped(t, m) && WfTy(t, TypeOf(t, m)) && Supported(t, TypeOf(t, m)) && NoAddressInts(m)
    ensures Rebuild(t, TypeOf(t, m), m, 0) == Some(m)
  {
    hide Rebuild, CellAt, IsData, Size;
    var ty := TypeOf(t, m);
    SelfRebuilds(t, m);
    var r := Rebuild(t, ty, m, 0).value;
    RebuildTyped(t, ty, m, 0);
    forall i | 0 <= i < Size(t, ty) ensures CellAt(t, r, i) == CellAt(t, m, i) {
      RebuildImage(t, ty, m, 0, i);
      if !IsData(t, ty, i) { PaddingIsZero(t, m, i); }
    }
    ImageIsInjective(t, r, m);
  }

  // ----- the exact path and the general one -----

  /** Past the member's end, or where nothing is stored, everything can be rebuilt. */
  lemma {:induction false} PastEndRebuilds(t: Target, ty: Ty, m: Const, off: nat)
    requires WfTarget(t) && WfTy(t, ty) && Supported(t, ty)
    requires off >= Size(t, TypeOf(t, m)) || Size(t, ty) == 0
    ensures Rebuild(t, ty, m, off).Some?
    decreases ty, 1, 0
  {
    hide Times, ByteAt, PointerAt;
    match ty
    case ArrayTy(elem, n) =>
      PositiveTimes(n, Size(t, elem));
      if n != 0 && Size(t, elem) != 0 { PastEndElems(t, elem, m, off, n); }
    case StructTy(_, fs, _) => PastEndFields(t, ty, m, off, |fs|);
    case _ =>
  }

  lemma {:induction false} PastEndElems(t: Target, elem: Ty, m: Const, off: nat, n: nat)
    requires WfTarget(t) && WfTy(t, elem) && Supported(t, elem) && off >= Size(t, TypeOf(t, m))
    ensures RebuildElems(t, elem, m, off, n).Some?
    decreases elem, 2, n
  {
    hide Times, Rebuild, Size;
    if n > 0 {
      PastEndElems(t, elem, m, off, n - 1);
      PastEndRebuilds(t, elem, m, off + Times(n - 1, Size(t, elem)));
    }
  }

  lemma {:induction false} PastEndFields(t: Target, ty: Ty, m: Const, off: nat, n: nat)
    requires WfTarget(t) && ty.StructTy? && WfTy(t, ty) && Supported(t, ty) && n <= |ty.fields|
    requires off >= Size(t, TypeOf(t, m)) || ty.size == 0
    ensures RebuildFields(t, ty, m, off, n).Some?
    decreases ty, 0, n
  {
    hide Times, Rebuild;
    if n > 0 {
      PastEndFields(t, ty, m, off, n - 1);
      PastEndRebuilds(t, ty.fields[n - 1].ty, m, off + ty.fields[n - 1].offset);
    }
  }

  /** Where the member can be placed exactly, the general path succeeds too. */
  lemma {:induction false} PlacedRebuilds(t: Target, ty: Ty, m: Const)
    requires WfTarget(t) && WellTyped(t, m) && NoAddressInts(m) && WfTy(t, ty) && Supported(t, ty)
    requires Exact(t, ty, m).1
    ensures Rebuild(t, ty, m, 0).Some?
    decreases ty
  {
    hide Rebuild, ByteAt, PointerAt, Times, RebuildFields, ExactFields, NoAddressInts, WellTyped;
    if ty == TypeOf(t, m) && Size(t, ty) > 0 {
      SelfRebuilds(t, m);
    } else {
      var p := ExactSlot(t, ty, m, |ty.fields|);
      PlacedRebuilds(t, ty.fields[p].ty, m);
      ExactImage(t, ty.fields[p].ty, m, 0);
      SlotFieldsRebuild(t, ty, m, p, |ty.fields|);
      StructRebuilds(t, ty, m);
    }
  }

  lemma {:induction false} StructRebuilds(t: Target, ty: Ty, m: Const)
    requires ty.StructTy? && RebuildFields(t, ty, m, 0, |ty.fields|).Some?
    ensures Rebuild(t, ty, m, 0).Some?
  {
    hide RebuildFields;
  }

  /** One field takes the member; all others are past its end or empty. */
  lemma {:induction false} SlotFieldsRebuild(t: Target, ty: Ty, m: Const, p: nat, n: nat)
    requires WfTarget(t) && ty.StructTy? && WfTy(t, ty) && Supported(t, ty) && n <= |ty.fields| && p < |ty.fields|
    requires ty.fields[p].offset == 0 && Size(t, TypeOf(t, m)) <= Size(t, ty.fields[p].ty)
    requires Rebuild(t, ty.fields[p].ty, m, 0).Some?
    ensures RebuildFields(t, ty, m, 0, n).Some?
    decreases n
  {
    hide Rebuild, Times;
    if n > 0 {
      SlotFieldsRebuild(t, ty, m, p, n - 1);
      if n - 1 != p {
        OtherFieldIsApart(t, ty, p, n - 1);
        PastEndRebuilds(t, ty.fields[n - 1].ty, m, ty.fields[n - 1].offset);
      }
    }
  }

  lemma {:induction false} OtherFieldIsApart(t: Target, ty: Ty, p: nat, k: nat)
    requires ty.StructTy? && WfTy(t, ty) && p < |ty.fields| && k < |ty.fields| && k != p && ty.fields[p].offset == 0
    ensures Size(t, ty.fields[k].ty) == 0 || ty.fields[k].offset >= Size(t, ty.fields[p].ty)
  {
    var at := ty.fields[k].offset;
    assert !(Covers(t, ty.fields[p], at) && Covers(t, ty.fields[k], at));
  }

  /** The shortcut for a member that fits exactly is the general path: same result, every time. */
  lemma {:induction false} ExactIsRebuild(t: Target, ty: Ty, m: Const)
    requires WfTarget(t) && WellTyped(t, m) && NoAddressInts(m) && WfTy(t, TypeOf(t, m))
    requires WfTy(t, ty) && Supported(t, ty) && ty.StructTy?
    ensures Exact(t, ty, m).1 ==> Rebuild(t, ty, m, 0) == Some(Exact(t, ty, m).0)
    ensures UnionStorage(t, ty, m) == Rebuild(t, ty, m, 0)
  {
    hide Rebuild, Exact;
    if Exact(t, ty, m).1 {
      PlacedRebuilds(t, ty, m);
      ExactAgreesWithRebuild(t, ty, m);
    }
  }
}
