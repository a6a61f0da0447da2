/** Bit-field stores: the merge done on constants at compile time, and the load, mask, shift, or,
    store sequence emitted for run time. */
module BitFields {
  import opened Options
  import opened Words
  import opened Bytes

  datatype Layout = Layout(isBitfield: bool, storageUnitBytes: nat, byteOffset: nat, bitOffset: nat, widthBits: nat)

  function StorageBits(lay: Layout): nat {
    if lay.storageUnitBytes != 0 then lay.storageUnitBytes * 8 else 32
  }

  /** A field that lies inside its storage unit. */
  predicate Fits(lay: Layout) {
    lay.isBitfield && lay.widthBits > 0 && lay.bitOffset + lay.widthBits <= StorageBits(lay) <= 64
  }

  predicate InField(lay: Layout, i: int) {
    lay.bitOffset <= i < lay.bitOffset + lay.widthBits
  }

  /** The low-bits mask as a constant of the storage type. */
  function FieldMask(storageBits: nat, width: nat): (r: Bits)
    ensures |r| == storageBits
  {
    if width == 0 then Zeros(storageBits)
    else if width >= storageBits then Not(Zeros(storageBits))
    else Resize(if width >= 64 then Not(Zeros(64)) else Mask(64, width), storageBits)
  }

  /** The compile-time merge. A base that is missing or not of the storage type counts as zero; there
      is no result for a field of no width or a value that is not an integer constant. */
  function MergeConst(base: Option<Bits>, lay: Layout, value: Option<Bits>): Option<Bits>
    requires StorageBits(lay) <= 64 && (value.Some? ==> |value.value| <= 64)
  {
    if !lay.isBitfield || lay.widthBits == 0 || value.None? then None
    else
      var n := StorageBits(lay);
      var oldValue := Resize(if base.Some? && |base.value| == n then base.value else Zeros(n), 64);
      var newValue := Resize(value.value, 64);
      var fieldMask := Resize(FieldMask(n, lay.widthBits), 64);
      var shiftedMask := if lay.bitOffset >= 64 then Zeros(64) else Shl(fieldMask, lay.bitOffset);
      var shiftedValue :=
        if lay.bitOffset >= 64 then Zeros(64) else Shl(And(newValue, fieldMask), lay.bitOffset);
      Some(Resize(Or(And(oldValue, Not(shiftedMask)), shiftedValue), n))
  }

  /** The value converted to the storage type, with or without sign. */
  function Cast(value: Bits, n: nat, signed: bool): (r: Bits)
    ensures |r| == n
  {
    if signed then SignResize(value, n) else Resize(value, n)
  }

  /** The run-time sequence on the loaded unit, all in the storage width. */
  function MergeLoaded(loaded: Bits, lay: Layout, value: Bits, signed: bool): (r: Bits)
    requires |loaded| == StorageBits(lay)
    ensures |r| == |loaded|
  {
    var n := StorageBits(lay);
    var mask := FieldMask(n, lay.widthBits);
    var cast := Cast(value, n, signed);
    var narrowed := if lay.widthBits < n then And(cast, mask) else cast;
    var shifted := if lay.bitOffset > 0 then Shl(narrowed, lay.bitOffset) else narrowed;
    var shiftedMask := if lay.bitOffset > 0 then Shl(mask, lay.bitOffset) else mask;
    Or(And(loaded, Not(shiftedMask)), shifted)
  }

  /** Reading a field: shift it down and mask it. */
  function Read(unit: Bits, lay: Layout): Bits {
    And(Shr(unit, lay.bitOffset), Mask(|unit|, lay.widthBits))
  }

  lemma {:induction false} FieldMaskBits(n: nat, width: nat)
    requires n <= 64
    ensures forall i :: 0 <= i < n ==> (FieldMask(n, width)[i] <==> i < width)
  {
    MaskBits(64, width);
  }

  /** There is a result exactly for a field of some width and a value that is a constant. */
  lemma {:induction false} MergeConstIff(base: Option<Bits>, lay: Layout, value: Option<Bits>)
    requires StorageBits(lay) <= 64 && (value.Some? ==> |value.value| <= 64)
    ensures MergeConst(base, lay, value).Some? <==> lay.isBitfield && lay.widthBits > 0 && value.Some?
    ensures MergeConst(base, lay, value).Some? ==>
      |MergeConst(base, lay, value).value| == (if lay.storageUnitBytes == 0 then 32 else 8 * lay.storageUnitBytes)
  {}

  /** What the merge does to every bit: those of the field come from the value, all others stay, also
      for a field that does not lie inside its unit. */
  lemma {:induction false} MergeConstBits(base: Bits, lay: Layout, value: Bits)
    requires lay.isBitfield && lay.widthBits > 0 && StorageBits(lay) <= 64
    requires |base| == StorageBits(lay) && |value| <= 64
    ensures MergeConst(Some(base), lay, Some(value)).Some?
    ensures var r := MergeConst(Some(base), lay, Some(value)).value;
      |r| == |base| &&
      forall i :: 0 <= i < |base| ==>
        r[i] == if InField(lay, i) then Resize(value, 64)[i - lay.bitOffset] else base[i]
  {
    FieldMaskBits(StorageBits(lay), lay.widthBits);
  }

  /** The field reads back as the value modulo `2^width`. */
  lemma {:induction false} MergeReadsBack(base: Bits, lay: Layout, value: Bits)
    requires Fits(lay) && |base| == StorageBits(lay) && |value| <= 64
    ensures MergeConst(Some(base), lay, Some(value)).Some?
    ensures var r := MergeConst(Some(base), lay, Some(value)).value;
      ToNat(Read(r, lay)) == ToNat(value) % Pow2(lay.widthBits)
  {
    hide MergeConst, Read, Resize, ToNat, Pow2;
    var w := lay.widthBits;
    MergedField(base, lay, value);
    ToNatPad(Resize(value, w), |base| - w);
    ResizeValue(value, w);
  }

  lemma {:induction false} MergedField(base: Bits, lay: Layout, value: Bits)
    requires Fits(lay) && |base| == StorageBits(lay) && |value| <= 64
    ensures MergeConst(Some(base), lay, Some(value)).Some?
    ensures Read(MergeConst(Some(base), lay, Some(value)).value, lay)
      == Resize(value, lay.widthBits) + Zeros(|base| - lay.widthBits)
  {
    hide MergeConst, ToNat, Pow2;
    MergeConstBits(base, lay, value);
    MaskBits(|base|, lay.widthBits);
  }

  /** A base that is absent or of another type is a zero unit. */
  lemma {:induction false} MergeWithoutBase(base: Option<Bits>, lay: Layout, value: Option<Bits>)
    requires StorageBits(lay) <= 64 && (value.Some? ==> |value.value| <= 64)
    requires base.None? || |base.value| != StorageBits(lay)
    ensures MergeConst(base, lay, value) == MergeConst(Some(Zeros(StorageBits(lay))), lay, value)
  {}

  /** The same whatever the base is, present or not, of the storage type or not. */
  lemma {:induction false} AnyBaseReadsBack(base: Option<Bits>, lay: Layout, value: Bits)
    requires Fits(lay) && |value| <= 64
    ensures var r := MergeConst(base, lay, Some(value));
      r.Some? && |r.value| == StorageBits(lay) && ToNat(Read(r.value, lay)) == ToNat(value) % Pow2(lay.widthBits)
  {
    hide MergeConst, Read, ToNat, Pow2;
    var unit := if base.Some? && |base.value| == StorageBits(lay) then base.value else Zeros(StorageBits(lay));
    if base != Some(unit) { MergeWithoutBase(base, lay, Some(value)); }
    MergeConstBits(unit, lay, value);
    MergeReadsBack(unit, lay, value);
  }

  /** Compile time and run time agree on every value: the constant path converts it first to a type that
      is at least as wide as the field (the storage type), the run-time path to the storage type. */
  lemma {:induction false} ConstAgreesWithRuntime(unit: Bits, lay: Layout, value: Bits, signed: bool, fieldBits: nat)
    requires Fits(lay) && |unit| == StorageBits(lay) && lay.widthBits <= fieldBits <= 64
    ensures MergeConst(Some(unit), lay, Some(Cast(value, fieldBits, signed)))
      == Some(MergeLoaded(unit, lay, value, signed))
  {
    hide MergeConst, MergeLoaded;
    MergeConstBits(unit, lay, Cast(value, fieldBits, signed));
    MergeLoadedBits(unit, lay, value, signed);
    var r := MergeConst(Some(unit), lay, Some(Cast(value, fieldBits, signed))).value;
    assert r == MergeLoaded(unit, lay, value, signed);
  }

  /** What the run-time sequence does to every bit. */
  lemma {:induction false} MergeLoadedBits(loaded: Bits, lay: Layout, value: Bits, signed: bool)
    requires Fits(lay) && |loaded| == StorageBits(lay)
    ensures var r := MergeLoaded(loaded, lay, value, signed);
      forall i :: 0 <= i < |loaded| ==>
        r[i] == if InField(lay, i) then Cast(value, |loaded|, signed)[i - lay.bitOffset] else loaded[i]
  {
    hide Cast;
    FieldMaskBits(|loaded|, lay.widthBits);
  }

  // ----- the converted value as a number -----

  /** The number a value stands for, in two's complement if it is signed. */
  function Number(value: Bits, signed: bool): int {
    if signed && value != [] && value[|value| - 1] then ToNat(value) - Pow2(|value|) else ToNat(value)
  }

  /** Conversion keeps the number modulo `2^n`. */
  lemma {:induction false} CastValue(value: Bits, n: nat, signed: bool)
    ensures ToNat(Cast(value, n, signed)) == Number(value, signed) % Pow2(n)
  {
    hide ToNat, Pow2, Resize;
    ResizeValue(value, n);
    if Number(value, signed) == ToNat(value) {
      CastAsIs(value, n, signed);
    } else if n <= |value| {
      NarrowNegative(value, n);
    } else {
      WidenNegative(value, n);
    }
  }

  lemma {:induction false} CastAsIs(value: Bits, n: nat, signed: bool)
    requires !(signed && value != [] && value[|value| - 1]) || n <= |value|
    ensures Cast(value, n, signed) == Resize(value, n)
  {}

  lemma {:induction false} NarrowNegative(value: Bits, n: nat)
    requires n <= |value|
    ensures ToNat(SignResize(value, n)) == (ToNat(value) - Pow2(|value|)) % Pow2(n)
  {
    hide ToNat, Pow2, Resize, SignResize;
    CastAsIs(value, n, true);
    ResizeValue(value, n);
    var d := |value| - n;
    Pow2Split(d, n);
    AddMultiple(ToNat(value), Pow2(n), 0 - Pow2(d));
    assert Pow2(n) * (0 - Pow2(d)) == 0 - Pow2(d) * Pow2(n);
  }

  lemma {:induction false} WidenNegative(value: Bits, n: nat)
    requires value != [] && value[|value| - 1] && n > |value|
    ensures ToNat(SignResize(value, n)) == (ToNat(value) - Pow2(|value|)) % Pow2(n)
  {
    hide ToNat, Pow2;
    var k, ones := |value|, Not(Zeros(n - |value|));
    var wide := SignResize(value, n);
    assert wide[..k] == value && wide[k..] == ones;
    ToNatSplit(wide, k);
    OnesValue(n - k);
    TimesLess(Pow2(k), Pow2(n - k));
    Pow2Split(k, n - k);
    ToNatBound(wide);
    ModUnique(ToNat(value) - Pow2(k), Pow2(n), -1, ToNat(wide));
  }

  lemma {:induction false} TimesLess(m: nat, n: nat)
    requires n > 0
    ensures Times(m, n - 1) == Times(m, n) - m
  {}

  lemma {:induction false} Pow2Split(a: nat, b: nat)
    ensures Pow2(a + b) == Pow2(a) * Pow2(b) == Times(Pow2(a), Pow2(b))
  {
    Pow2Add(a, b);
  }

  lemma {:induction false} AddMultiple(a: int, m: int, d: int)
    requires m > 0
    ensures (a + m * d) % m == a % m
  {
    assert a == m * (a / m) + a % m;
    assert a + m * d == m * (a / m + d) + a % m;
    ModUnique(a + m * d, m, a / m + d, a % m);
  }

  lemma {:induction false} OnesValue(n: nat)
    ensures ToNat(Not(Zeros(n))) == Pow2(n) - 1
  {
    if n > 0 {
      assert Not(Zeros(n))[1..] == Not(Zeros(n - 1));
      OnesValue(n - 1);
    }
  }

  lemma {:induction false} ModTwice(a: int, n: nat, w: nat)
    requires w <= n
    ensures (a % Pow2(n)) % Pow2(w) == a % Pow2(w)
  {
    hide Pow2;
    Pow2Split(n - w, w);
    var q := a / Pow2(n);
    assert a == Pow2(n) * q + a % Pow2(n);
    assert Pow2(n) * q == Pow2(w) * (Pow2(n - w) * q);
    AddMultiple(a % Pow2(n), Pow2(w), Pow2(n - w) * q);
  }

  /** After the run-time sequence the field reads back as the number stored, modulo `2^width`. */
  lemma {:induction false} RuntimeReadsBack(loaded: Bits, lay: Layout, value: Bits, signed: bool)
    requires Fits(lay) && |loaded| == StorageBits(lay)
    ensures ToNat(Read(MergeLoaded(loaded, lay, value, signed), lay)) == Number(value, signed) % Pow2(lay.widthBits)
  {
    hide MergeConst, MergeLoaded, Read, Cast, ToNat, Pow2, Number;
    ConstAgreesWithRuntime(loaded, lay, value, signed, |loaded|);
    MergeReadsBack(loaded, lay, Cast(value, |loaded|, signed));
    CastValue(value, |loaded|, signed);
    ModTwice(Number(value, signed), |loaded|, lay.widthBits);
  }

  // ----- several fields of one unit -----

  datatype Write = Write(lay: Layout, value: Bits)

  predicate Fitting(w: Write, n: nat) {
    Fits(w.lay) && StorageBits(w.lay) == n && |w.value| <= 64
  }

  predicate Disjoint(a: Layout, b: Layout) {
    a.bitOffset + a.widthBits <= b.bitOffset || b.bitOffset + b.widthBits <= a.bitOffset
  }

  predicate SameField(a: Layout, b: Layout) {
    a.bitOffset == b.bitOffset && a.widthBits == b.widthBits
  }

  function Merge(unit: Bits, w: Write): (r: Bits)
    requires Fitting(w, |unit|)
    ensures |r| == |unit|
  {
    MergeConstBits(unit, w.lay, w.value);
    MergeConst(Some(unit), w.lay, Some(w.value)).value
  }

  /** Stores to disjoint fields may be done in either order. */
  lemma {:induction false} DisjointMergesCommute(unit: Bits, v: Write, w: Write)
    requires Fitting(v, |unit|) && Fitting(w, |unit|) && Disjoint(v.lay, w.lay)
    ensures Merge(Merge(unit, v), w) == Merge(Merge(unit, w), v)
  {
    hide MergeConst;
    MergeConstBits(unit, v.lay, v.value);
    MergeConstBits(unit, w.lay, w.value);
    MergeConstBits(Merge(unit, v), w.lay, w.value);
    MergeConstBits(Merge(unit, w), v.lay, v.value);
  }

  function MergeAll(unit: Bits, ws: seq<Write>): (r: Bits)
    requires forall w <- ws :: Fitting(w, |unit|)
    ensures |r| == |unit|
    decreases |ws|
  {
    if ws == [] then unit else Merge(MergeAll(unit, ws[..|ws| - 1]), ws[|ws| - 1])
  }

  /** The last store to `f` in the list. */
  function LastTo(ws: seq<Write>, f: Layout): Option<Bits>
    decreases |ws|
  {
    if ws == [] then None
    else if SameField(ws[|ws| - 1].lay, f) then Some(ws[|ws| - 1].value)
    else LastTo(ws[..|ws| - 1], f)
  }

  lemma {:induction false} ReadUntouched(unit: Bits, w: Write, f: Layout)
    requires Fitting(w, |unit|) && Fits(f) && StorageBits(f) == |unit| && Disjoint(w.lay, f)
    ensures Read(Merge(unit, w), f) == Read(unit, f)
  {
    hide MergeConst;
    MergeConstBits(unit, w.lay, w.value);
    MaskBits(|unit|, f.widthBits);
  }

  /** After any sequence of stores to fields that are `f` itself or disjoint from it, `f` reads back
      as the last value stored there modulo `2^width`, or as before if none was. */
  lemma {:induction false} LastStoreWins(unit: Bits, ws: seq<Write>, f: Layout)
    requires forall w <- ws :: Fitting(w, |unit|) && (SameField(w.lay, f) || Disjoint(w.lay, f))
    requires Fits(f) && StorageBits(f) == |unit|
    ensures ToNat(Read(MergeAll(unit, ws), f)) ==
      (match LastTo(ws, f)
       case None => ToNat(Read(unit, f))
       case Some(v) => ToNat(v) % Pow2(f.widthBits))
    decreases |ws|
  {
    if ws != [] {
      hide MergeConst;
      var init, w := ws[..|ws| - 1], ws[|ws| - 1];
      var unit1 := MergeAll(unit, init);
      if SameField(w.lay, f) {
        MergeReadsBack(unit1, w.lay, w.value);
      } else {
        ReadUntouched(unit1, w, f);
        LastStoreWins(unit, init, f);
      }
    }
  }

  // ----- the run-time sequence on memory -----

  function Unit(bytes: seq<Byte>, big: bool): (r: Bits)
    requires |bytes| <= 8
    ensures |r| == 8 * |bytes|
  {
    Pack(bytes, big)[..8 * |bytes|]
  }

  /** Loads the unit, merges, stores it back: the unit changes as the constant merge says for the value
      converted to the storage type, and no other byte changes. */
  method StoreBitfield(mem: array<Byte>, big: bool, lay: Layout, value: Bits, signed: bool)
    requires Fits(lay) && lay.byteOffset + StorageBits(lay) / 8 <= mem.Length
    modifies mem
    ensures var lo := lay.byteOffset;
      var hi := lo + if lay.storageUnitBytes == 0 then 4 else lay.storageUnitBytes;
      Unit(mem[lo..hi], big) == MergeLoaded(Unit(old(mem[lo..hi]), big), lay, value, signed) &&
      mem[..lo] == old(mem[..lo]) && mem[hi..] == old(mem[hi..])
    ensures var lo, hi := lay.byteOffset, lay.byteOffset + StorageBits(lay) / 8;
      MergeConst(Some(Unit(old(mem[lo..hi]), big)), lay, Some(Cast(value, StorageBits(lay), signed)))
      == Some(Unit(mem[lo..hi], big))
  {
    hide MergeConst, MergeLoaded, Pack, ByteOf, Cast;
    var n := StorageBits(lay) / 8;
    var lo := lay.byteOffset;
    var packed := PackBytes(mem[lo..lo + n], big);
    var loaded := packed[..8 * n];
    var combined := MergeLoaded(loaded, lay, value, signed);
    ConstAgreesWithRuntime(loaded, lay, value, signed, StorageBits(lay));
    for i := 0 to n
      invariant mem[..lo] == old(mem[..lo]) && mem[lo + n..] == old(mem[lo + n..])
      invariant forall k :: 0 <= k < i ==> mem[lo + k] == ByteOf(combined, k, big)
    {
      mem[lo + i] := ByteOf(combined, i, big);
    }
    assert mem[lo..lo + n] == AllBytes(combined, big);
    PackUnpack(combined, big);
    assert Resize(combined, 64)[..8 * n] == combined;
  }
}
