/** Exactly when a union's storage can be rebuilt from a member, told from the parts of the member. */
module ConstImageWhen {
  import opened Options
  import opened FloatKinds
  import opened Words
  import opened Bytes
  import opened Constants
  import opened ConstImage
  import opened ConstImageCorrect
  import opened ConstImageTotal

  // ----- the parts of a constant -----

  /** The pointer `p` is the part of `c` that starts at byte `off`. */
  ghost predicate Sits(t: Target, c: Const, off: nat, p: Pointer) {
    match c
    case PtrC(q) => off == 0 && p == q
    case ArrayC(elem, es) =>
      exists k: nat :: k < |es| && Times(k, Size(t, elem)) <= off && Sits(t, es[k], off - Times(k, Size(t, elem)), p)
    case StructC(ty, vs) =>
      ty.StructTy? && exists k: nat ::
        k < |vs| && k < |ty.fields| && ty.fields[k].offset <= off && Sits(t, vs[k], off - ty.fields[k].offset, p)
    case _ => false
  }

  /** Byte `i` of `c` belongs to a part that cannot be read as numbers: a pointer, an address cast to
      an integer, an integer that is no whole number of bytes or is longer than 64 bits, or a part of a
      type that is not taken apart. */
  ghost predicate Sealed(t: Target, c: Const, i: nat) {
    match c
    case IntC(bits) => |bits| > 64 || |bits| % 8 != 0
    case FpC(_, _) => false
    case ArrayC(elem, es) =>
      exists k: nat :: k < |es| && Times(k, Size(t, elem)) <= i < Times(k, Size(t, elem)) + Size(t, elem) &&
        Sealed(t, es[k], i - Times(k, Size(t, elem)))
    case StructC(ty, vs) =>
      ty.StructTy? && exists k: nat ::
        k < |vs| && k < |ty.fields| && Covers(t, ty.fields[k], i) && Sealed(t, vs[k], i - ty.fields[k].offset)
    case _ => true
  }

  /** A pointer lies inside the constant it sits in. */
  lemma {:induction false} SitsInside(t: Target, c: Const, off: nat, p: Pointer)
    requires WfTarget(t) && WellTyped(t, c) && WfTy(t, TypeOf(t, c)) && Sits(t, c, off, p)
    ensures off + t.ptrBytes <= Size(t, TypeOf(t, c))
    decreases c
  {
    hide Times;
    match c
    case PtrC(_) =>
    case ArrayC(elem, es) =>
      var stride := Size(t, elem);
      var k: nat :| k < |es| && Times(k, stride) <= off && Sits(t, es[k], off - Times(k, stride), p);
      SitsInside(t, es[k], off - Times(k, stride), p);
      ElementInside(k, stride, stride - 1, |es|);
    case StructC(ty, vs) =>
      var k: nat :| k < |vs| && ty.fields[k].offset <= off && Sits(t, vs[k], off - ty.fields[k].offset, p);
      SitsInside(t, vs[k], off - ty.fields[k].offset, p);
  }

  /** A pointer sits in an array if it sits in the element that holds its first byte. */
  lemma {:induction false} SitsInElement(t: Target, c: Const, off: nat, p: Pointer)
    requires c.ArrayC? && WfTarget(t) && WellTyped(t, c) && WfTy(t, TypeOf(t, c))
    requires Size(t, c.elem) > 0 && Slot(off, Size(t, c.elem)) < |c.elems|
    ensures Sits(t, c, off, p) <==> Sits(t, c.elems[Slot(off, Size(t, c.elem))], Within(off, Size(t, c.elem)), p)
  {
    hide Times, Slot, Within, Size;
    var es, stride := c.elems, Size(t, c.elem);
    IndexBound(off, stride, |es|);
    assert off - Times(Slot(off, stride), stride) == Within(off, stride);
    forall k: nat | k < |es| && Times(k, stride) <= off && Sits(t, es[k], off - Times(k, stride), p)
      ensures k == Slot(off, stride)
    {
      SitsInside(t, es[k], off - Times(k, stride), p);
      IndexSplit(k, stride, off - Times(k, stride));
    }
  }

  lemma {:induction false} SitsInAnArray(t: Target, c: Const, off: nat, p: Pointer)
    requires c.ArrayC? && WfTarget(t) && WellTyped(t, c) && WfTy(t, TypeOf(t, c)) && Sits(t, c, off, p)
    ensures Size(t, c.elem) > 0 && Slot(off, Size(t, c.elem)) < |c.elems|
  {
    hide Times, Slot, Within;
    SitsInside(t, c, off, p);
    PositiveTimes(|c.elems|, Size(t, c.elem));
    IndexBound(off, Size(t, c.elem), |c.elems|);
  }

  /** A pointer sits in a struct if it sits in the field that holds all of it. */
  lemma {:induction false} SitsInField(t: Target, c: Const, off: nat, p: Pointer)
    requires c.StructC? && WfTarget(t) && WellTyped(t, c) && WfTy(t, TypeOf(t, c))
    ensures var k := FieldHolding(t, c.ty.fields, off, t.ptrBytes, 0);
      Sits(t, c, off, p) <==> k < |c.values| && Sits(t, c.values[k], off - c.ty.fields[k].offset, p)
  {
    hide Size;
    var fs, vs := c.ty.fields, c.values;
    forall k: nat | k < |vs| && fs[k].offset <= off && Sits(t, vs[k], off - fs[k].offset, p)
      ensures k == FieldHolding(t, fs, off, t.ptrBytes, 0)
    {
      SitsInside(t, vs[k], off - fs[k].offset, p);
      InsideHolds(t, fs[k], off, t.ptrBytes);
      HolderIsUnique(t, c.ty, k, off, t.ptrBytes);
    }
  }

  /** The search for a pointer finds one exactly where one is, of the width asked for. */
  lemma {:induction false} PointerAtIff(t: Target, c: Const, off: nat, w: nat, p: Pointer)
    requires WfTarget(t) && WellTyped(t, c) && WfTy(t, TypeOf(t, c))
    ensures PointerAt(t, c, off, w) == Some(p) <==> w == t.ptrBytes && Sits(t, c, off, p)
    decreases c, 1
  {
    hide Sits;
    if PointerAt(t, c, off, w) == Some(p) { PointerTyped(t, c, off, w); }
    match c
    case ArrayC(_, _) => ElementPointerIff(t, c, off, w, p);
    case StructC(_, _) => FieldPointerIff(t, c, off, w, p);
    case _ => SitsAlone(t, c, off, p);
  }

  lemma {:induction false} SitsAlone(t: Target, c: Const, off: nat, p: Pointer)
    requires !c.ArrayC? && !c.StructC?
    ensures Sits(t, c, off, p) <==> c == PtrC(p) && off == 0
  {}

  lemma {:induction false} ElementPointerIff(t: Target, c: Const, off: nat, w: nat, p: Pointer)
    requires c.ArrayC? && WfTarget(t) && WellTyped(t, c) && WfTy(t, TypeOf(t, c))
    requires PointerAt(t, c, off, w) == Some(p) ==> w == t.ptrBytes
    ensures PointerAt(t, c, off, w) == Some(p) <==> w == t.ptrBytes && Sits(t, c, off, p)
    decreases c, 0
  {
    hide Times, Slot, Within, Sits;
    var es, stride := c.elems, Size(t, c.elem);
    if Sits(t, c, off, p) { SitsInAnArray(t, c, off, p); }
    if stride > 0 && Slot(off, stride) < |es| {
      var e, at := es[Slot(off, stride)], Within(off, stride);
      SitsInElement(t, c, off, p);
      PointerAtIff(t, e, at, w, p);
      if Sits(t, e, at, p) { SitsInside(t, e, at, p); }
    }
  }

  lemma {:induction false} FieldPointerIff(t: Target, c: Const, off: nat, w: nat, p: Pointer)
    requires c.StructC? && WfTarget(t) && WellTyped(t, c) && WfTy(t, TypeOf(t, c))
    requires PointerAt(t, c, off, w) == Some(p) ==> w == t.ptrBytes
    ensures PointerAt(t, c, off, w) == Some(p) <==> w == t.ptrBytes && Sits(t, c, off, p)
    decreases c, 0
  {
    hide Sits, Size;
    if w == t.ptrBytes {
      SitsInField(t, c, off, p);
      var k := FieldHolding(t, c.ty.fields, off, w, 0);
      if k < |c.values| { PointerAtIff(t, c.values[k], off - c.ty.fields[k].offset, w, p); }
    }
  }

  lemma {:induction false} InsideHolds(t: Target, f: Field, off: nat, w: nat)
    requires w > 0 && f.offset <= off && off + w <= f.offset + Size(t, f.ty)
    ensures Holds(t, f, off, w)
  {}

  /** Byte `i` of an array is sealed if it is in its element. */
  lemma {:induction false} SealedElement(t: Target, c: Const, i: nat)
    requires c.ArrayC? && Size(t, c.elem) > 0 && Slot(i, Size(t, c.elem)) < |c.elems|
    ensures var stride := Size(t, c.elem);
      Sealed(t, c, i) <==> Sealed(t, c.elems[Slot(i, stride)], Within(i, stride))
  {
    hide Times, Slot, Within;
    var es, stride := c.elems, Size(t, c.elem);
    IndexBound(i, stride, |es|);
    assert i - Times(Slot(i, stride), stride) == Within(i, stride);
    forall k: nat | k < |es| && Times(k, stride) <= i < Times(k, stride) + stride ensures k == Slot(i, stride) {
      IndexSplit(k, stride, i - Times(k, stride));
    }
  }

  /** Byte `i` of a struct is sealed if it is in its field; padding is not. */
  lemma {:induction false} SealedField(t: Target, c: Const, i: nat)
    requires c.StructC? && WellTyped(t, c) && WfTy(t, c.ty)
    ensures var k := FieldAt(t, c.ty.fields, i, 0);
      Sealed(t, c, i) <==> k < |c.values| && Sealed(t, c.values[k], i - c.ty.fields[k].offset)
  {
    hide Size, Covers, WfTy;
    forall k: nat | k < |c.values| && Covers(t, c.ty.fields[k], i) ensures k == FieldAt(t, c.ty.fields, i, 0) {
      FieldIsUnique(t, c.ty, k, i);
    }
  }

  lemma {:induction false} SealedLeaf(t: Target, c: Const, i: nat)
    requires !c.ArrayC? && !c.StructC?
    ensures Sealed(t, c, i) <==> !c.FpC? && (c.IntC? ==> |c.bits| > 64 || |c.bits| % 8 != 0)
  {}

  /** The reader reads a byte exactly if no part seals it. */
  lemma {:induction false} ReadableIff(t: Target, c: Const, i: nat)
    requires WellTyped(t, c) && WfTy(t, TypeOf(t, c)) && i < Size(t, TypeOf(t, c))
    ensures ByteAt(t, c, i).Some? <==> !Sealed(t, c, i)
    decreases c
  {
    hide Times, Slot, Within, Sealed, FieldAt;
    if !c.ArrayC? && !c.StructC? { SealedLeaf(t, c, i); }
    match c
    case ArrayC(elem, es) =>
      var stride := Size(t, elem);
      PositiveTimes(|es|, stride);
      IndexBound(i, stride, |es|);
      ReadableIff(t, es[Slot(i, stride)], Within(i, stride));
      SealedElement(t, c, i);
    case StructC(ty, vs) =>
      var k := FieldAt(t, ty.fields, i, 0);
      if k < |vs| { ReadableIff(t, vs[k], i - ty.fields[k].offset); }
      SealedField(t, c, i);
    case _ =>
  }

  // ----- when a type can be filled from a member -----

  /** The `i`-th byte from `off` is not sealed; bytes past the member's end are zero. */
  ghost predicate Reads(t: Target, m: Const, off: nat, i: nat) {
    off + i < Size(t, TypeOf(t, m)) ==> !Sealed(t, m, off + i)
  }

  ghost predicate AllRead(t: Target, m: Const, off: nat, n: nat) {
    forall i: nat :: i < n ==> Reads(t, m, off, i)
  }

  ghost predicate HasPointer(t: Target, m: Const, off: nat) {
    exists p :: Sits(t, m, off, p)
  }

  /** An integer or a pointer is filled by a pointer of its own width or by bytes that can be read, a
      floating-point number by bytes only. */
  ghost predicate Fillable(t: Target, ty: Ty, m: Const, off: nat)
    decreases ty, 1
  {
    match ty
    case IntTy(w) =>
      w <= 64 && w % 8 == 0 && (AllRead(t, m, off, w / 8) || (w == 8 * t.ptrBytes && HasPointer(t, m, off)))
    case FpTy(k) => AllRead(t, m, off, FpWidth(k) / 8)
    case PtrTy => AllRead(t, m, off, t.ptrBytes) || HasPointer(t, m, off)
    case ArrayTy(elem, n) =>
      n == 0 || Size(t, elem) == 0 || ElemsFillable(t, elem, m, off, n)
    case StructTy(_, fs, _) => FieldsFillable(t, ty, m, off, |fs|)
    case OtherTy(size) => size == 0
  }

  ghost predicate ElemsFillable(t: Target, elem: Ty, m: Const, off: nat, n: nat)
    decreases elem, 2
  {
    forall k: nat :: k < n ==> Fillable(t, elem, m, off + Times(k, Size(t, elem)))
  }

  ghost predicate FieldsFillable(t: Target, ty: Ty, m: Const, off: nat, n: nat)
    requires ty.StructTy? && n <= |ty.fields|
    decreases ty, 0
  {
    forall k: nat :: k < n ==> Fillable(t, ty.fields[k].ty, m, off + ty.fields[k].offset)
  }

  lemma {:induction false} PacksIff(t: Target, m: Const, off: nat, n: nat)
    requires WellTyped(t, m) && WfTy(t, TypeOf(t, m)) && n <= 8
    ensures PackStorage(t, m, off, n).Some? <==> AllRead(t, m, off, n)
  {
    hide ByteAt, Sealed, Pack, Size;
    forall i: nat | i < n ensures ByteFrom(t, m, off, i).Some? <==> Reads(t, m, off, i) {
      if off + i < Size(t, TypeOf(t, m)) { ReadableIff(t, m, off + i); }
    }
  }

  lemma {:induction false} FindsIff(t: Target, m: Const, off: nat, w: nat)
    requires WfTarget(t) && WellTyped(t, m) && WfTy(t, TypeOf(t, m))
    ensures PointerAt(t, m, off, w).Some? <==> w == t.ptrBytes && HasPointer(t, m, off)
  {
    hide PointerAt, Sits;
    if PointerAt(t, m, off, w).Some? { PointerAtIff(t, m, off, w, PointerAt(t, m, off, w).value); }
    if HasPointer(t, m, off) {
      var p :| Sits(t, m, off, p);
      PointerAtIff(t, m, off, w, p);
    }
  }

  /** For any type, any member and any offset: rebuilding succeeds exactly if every leaf of the type is
      filled. */
  lemma {:induction false} RebuildsIff(t: Target, ty: Ty, m: Const, off: nat)
    requires WfTarget(t) && WellTyped(t, m) && WfTy(t, TypeOf(t, m))
    ensures Rebuild(t, ty, m, off).Some? <==> Fillable(t, ty, m, off)
    decreases ty, 1, 0
  {
    hide Times, PackStorage, PointerAt, AllRead, HasPointer, WellTyped, WfTy;
    match ty
    case IntTy(w) =>
      FindsIff(t, m, off, w / 8);
      if w <= 64 { PacksIff(t, m, off, w / 8); }
    case FpTy(k) => PacksIff(t, m, off, FpWidth(k) / 8);
    case PtrTy =>
      FindsIff(t, m, off, t.ptrBytes);
      PacksIff(t, m, off, t.ptrBytes);
    case ArrayTy(elem, n) => ElemsIff(t, elem, m, off, n);
    case StructTy(_, fs, _) => FieldsIff(t, ty, m, off, |fs|);
    case OtherTy(_) =>
  }

  lemma {:induction false} ElemsIff(t: Target, elem: Ty, m: Const, off: nat, n: nat)
    requires WfTarget(t) && WellTyped(t, m) && WfTy(t, TypeOf(t, m))
    ensures RebuildElems(t, elem, m, off, n).Some? <==> ElemsFillable(t, elem, m, off, n)
    decreases elem, 2, n
  {
    hide Rebuild, Fillable, Times, Size, WellTyped, WfTy;
    if n > 0 {
      ElemsIff(t, elem, m, off, n - 1);
      RebuildsIff(t, elem, m, off + Times(n - 1, Size(t, elem)));
    }
  }

  lemma {:induction false} FieldsIff(t: Target, ty: Ty, m: Const, off: nat, n: nat)
    requires WfTarget(t) && WellTyped(t, m) && WfTy(t, TypeOf(t, m)) && ty.StructTy? && n <= |ty.fields|
    ensures RebuildFields(t, ty, m, off, n).Some? <==> FieldsFillable(t, ty, m, off, n)
    decreases ty, 0, n
  {
    hide Rebuild, Fillable, WellTyped, WfTy;
    if n > 0 {
      FieldsIff(t, ty, m, off, n - 1);
      RebuildsIff(t, ty.fields[n - 1].ty, m, off + ty.fields[n - 1].offset);
    }
  }

  // ----- integers over addresses -----

  /** An integer of the pointer's width over a symbol's address is that address cast to an integer. */
  lemma {:induction false} AddressFillsInt(t: Target, m: Const, off: nat, s: nat)
    requires WfTarget(t) && WellTyped(t, m) && WfTy(t, TypeOf(t, m)) && Sits(t, m, off, Addr(s))
    ensures Rebuild(t, IntTy(8 * t.ptrBytes), m, off) == Some(PtrInt(s, 8 * t.ptrBytes))
  {
    hide PointerAt, Sits, PackStorage;
    PointerAtIff(t, m, off, t.ptrBytes, Addr(s));
  }

  /** Every pointer in it is a symbol's address, and none has been cast to an integer. */
  predicate AddressesOnly(c: Const) {
    match c
    case PtrInt(_, _) => false
    case PtrC(p) => p.Addr?
    case ArrayC(_, es) => forall k :: 0 <= k < |es| ==> AddressesOnly(es[k])
    case StructC(_, vs) => forall k :: 0 <= k < |vs| ==> AddressesOnly(vs[k])
    case _ => true
  }

  /** A byte is sealed exactly if memory holds no number there. */
  lemma {:induction false} SealedIff(t: Target, c: Const, i: nat)
    requires WellTyped(t, c) && WfTy(t, TypeOf(t, c)) && AddressesOnly(c) && i < Size(t, TypeOf(t, c))
    ensures Sealed(t, c, i) <==> !(CellAt(t, c, i).Some? && CellAt(t, c, i).value.Data?)
    decreases c
  {
    hide Times, Slot, Within, Sealed, FieldAt, IntByte, PointerCell, AsCell;
    match c
    case ArrayC(elem, es) =>
      var stride := Size(t, elem);
      PositiveTimes(|es|, stride);
      IndexBound(i, stride, |es|);
      SealedIff(t, es[Slot(i, stride)], Within(i, stride));
      SealedElement(t, c, i);
    case StructC(ty, vs) =>
      var k := FieldAt(t, ty.fields, i, 0);
      if k < |vs| { SealedIff(t, vs[k], i - ty.fields[k].offset); }
      SealedField(t, c, i);
    case _ => SealedLeafIff(t, c, i);
  }

  lemma {:induction false} SealedLeafIff(t: Target, c: Const, i: nat)
    requires !c.ArrayC? && !c.StructC? && WellTyped(t, c) && AddressesOnly(c) && i < Size(t, TypeOf(t, c))
    ensures Sealed(t, c, i) <==> !(CellAt(t, c, i).Some? && CellAt(t, c, i).value.Data?)
  {
    hide ByteOf;
    SealedLeaf(t, c, i);
  }

  /** Where memory holds the first byte of an address, a pointer sits. */
  lemma {:induction false} FirstPartSits(t: Target, c: Const, off: nat, s: nat)
    requires WfTarget(t) && WellTyped(t, c) && WfTy(t, TypeOf(t, c)) && AddressesOnly(c)
    requires off < Size(t, TypeOf(t, c)) && CellAt(t, c, off) == Some(Part(s, 0))
    ensures Sits(t, c, off, Addr(s))
    decreases c
  {
    hide Times, Slot, Within;
    match c
    case PtrC(_) =>
    case ArrayC(elem, es) =>
      var stride := Size(t, elem);
      PositiveTimes(|es|, stride);
      IndexBound(off, stride, |es|);
      var k := Slot(off, stride);
      assert off - Times(k, stride) == Within(off, stride);
      FirstPartSits(t, es[k], Within(off, stride), s);
    case StructC(ty, vs) =>
      var k := FieldAt(t, ty.fields, off, 0);
      FirstPartSits(t, vs[k], off - ty.fields[k].offset, s);
    case _ =>
  }

  /** The `n` cells from `off` are the parts of one address, in order. */
  ghost predicate AddressCells(t: Target, m: Const, off: nat, n: nat) {
    exists s :: AllParts(t, m, off, n, s)
  }

  ghost predicate AllParts(t: Target, m: Const, off: nat, n: nat, s: nat) {
    forall i: nat :: i < n ==> MemberCellFrom(t, m, off, i) == Some(Part(s, i))
  }

  function MemberCellFrom(t: Target, m: Const, off: nat, i: nat): Option<Cell> {
    MemberCell(t, m, off + i)
  }

  ghost predicate DataCells(t: Target, m: Const, off: nat, n: nat) {
    forall i: nat :: i < n ==> MemberCellFrom(t, m, off, i).Some? && MemberCellFrom(t, m, off, i).value.Data?
  }

  /** Told from memory alone: an integer of `n` bytes can be rebuilt exactly if the cells it covers are
      all numbers, or are the parts of one whole address. */
  lemma {:induction false} IntRebuildsIffCells(t: Target, m: Const, off: nat, n: nat)
    requires WfTarget(t) && WellTyped(t, m) && WfTy(t, TypeOf(t, m)) && AddressesOnly(m)
    ensures Rebuild(t, IntTy(8 * n), m, off).Some? <==>
      n <= 8 && (DataCells(t, m, off, n) || (n == t.ptrBytes && AddressCells(t, m, off, n)))
  {
    hide Rebuild, Sits, Sealed, CellAt, Size, WellTyped, WfTy, AddressesOnly;
    RebuildsIff(t, IntTy(8 * n), m, off);
    AllReadIffData(t, m, off, n);
    if HasPointer(t, m, off) && n == t.ptrBytes { PointerCellsAre(t, m, off); }
    if n == t.ptrBytes && AddressCells(t, m, off, n) {
      var s :| AllParts(t, m, off, n, s);
      assert MemberCellFrom(t, m, off, 0) == Some(Part(s, 0));
      FirstPartSits(t, m, off, s);
    }
  }

  lemma {:induction false} AllReadIffData(t: Target, m: Const, off: nat, n: nat)
    requires WellTyped(t, m) && WfTy(t, TypeOf(t, m)) && AddressesOnly(m)
    ensures AllRead(t, m, off, n) <==> DataCells(t, m, off, n)
  {
    hide Sealed, CellAt, Size, WellTyped, WfTy, AddressesOnly;
    forall i: nat | i < n
      ensures Reads(t, m, off, i) <==>
        MemberCellFrom(t, m, off, i).Some? && MemberCellFrom(t, m, off, i).value.Data?
    {
      if off + i < Size(t, TypeOf(t, m)) { SealedIff(t, m, off + i); }
    }
  }

  lemma {:induction false} PointerIsAddress(t: Target, c: Const, off: nat, p: Pointer)
    requires AddressesOnly(c) && Sits(t, c, off, p)
    ensures p.Addr?
    decreases c
  {
    match c
    case PtrC(_) =>
    case ArrayC(elem, es) =>
      var k: nat :| k < |es| && Times(k, Size(t, elem)) <= off && Sits(t, es[k], off - Times(k, Size(t, elem)), p);
      PointerIsAddress(t, es[k], off - Times(k, Size(t, elem)), p);
    case StructC(ty, vs) =>
      var k: nat :| k < |vs| && k < |ty.fields| && ty.fields[k].offset <= off &&
        Sits(t, vs[k], off - ty.fields[k].offset, p);
      PointerIsAddress(t, vs[k], off - ty.fields[k].offset, p);
  }

  lemma {:induction false} PointerCellsAre(t: Target, m: Const, off: nat)
    requires WfTarget(t) && WellTyped(t, m) && WfTy(t, TypeOf(t, m)) && AddressesOnly(m) && HasPointer(t, m, off)
    ensures AddressCells(t, m, off, t.ptrBytes)
  {
    hide PointerAt, Sits, CellAt, Size, WellTyped, WfTy, AddressesOnly;
    var p :| Sits(t, m, off, p);
    PointerIsAddress(t, m, off, p);
    PointerAtIff(t, m, off, t.ptrBytes, p);
    forall i: nat | i < t.ptrBytes ensures MemberCellFrom(t, m, off, i) == Some(Part(p.symbol, i)) {
      PointerFound(t, m, off, t.ptrBytes, i);
    }
    assert AllParts(t, m, off, t.ptrBytes, p.symbol);
  }

  // ----- unions -----

  /** Going from field to field at offset zero one comes to the type `of`. */
  ghost predicate HasSlot(t: Target, ty: Ty, of: Ty)
    decreases ty, 1
  {
    Size(t, ty) > 0 && (ty == of || (ty.StructTy? && SlotAmong(t, ty, of, |ty.fields|)))
  }

  ghost predicate SlotAmong(t: Target, ty: Ty, of: Ty, n: nat)
    requires ty.StructTy? && n <= |ty.fields|
    decreases ty, 0
  {
    exists k :: 0 <= k < n && ty.fields[k].offset == 0 && HasSlot(t, ty.fields[k].ty, of)
  }

  /** The exact path places the member exactly if the storage has a slot of its type at its start. */
  lemma {:induction false} ExactIff(t: Target, ty: Ty, m: Const)
    requires WfTy(t, ty)
    ensures Exact(t, ty, m).1 <==> HasSlot(t, ty, TypeOf(t, m))
    decreases ty, 1, 0
  {
    hide Times, Null;
    if ty.StructTy? { ExactFieldsIff(t, ty, m, |ty.fields|); }
  }

  lemma {:induction false} ExactFieldsIff(t: Target, ty: Ty, m: Const, n: nat)
    requires WfTy(t, ty) && ty.StructTy? && n <= |ty.fields|
    ensures ExactFields(t, ty, m, n).1 <==> SlotAmong(t, ty, TypeOf(t, m), n)
    ensures ExactFields(t, ty, m, n).1 ==> Size(t, ty) > 0
    decreases ty, 0, n
  {
    hide Exact, Times, Null;
    if n > 0 {
      ExactFieldsIff(t, ty, m, n - 1);
      ExactIff(t, ty.fields[n - 1].ty, m);
    }
  }

  /** A union initialised through a member gets a constant exactly if its storage has a slot of the
      member's type at its start or can be filled from the member. */
  lemma {:induction false} UnionIff(t: Target, ty: Ty, m: Const)
    requires WfTarget(t) && WellTyped(t, m) && WfTy(t, TypeOf(t, m)) && WfTy(t, ty)
    ensures UnionStorage(t, ty, m).Some? <==>
      ty.StructTy? && (HasSlot(t, ty, TypeOf(t, m)) || Fillable(t, ty, m, 0))
  {
    hide Exact, Rebuild, HasSlot, Fillable;
    ExactIff(t, ty, m);
    RebuildsIff(t, ty, m, 0);
  }
}
