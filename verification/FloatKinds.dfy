/** Floating-point types. */
module FloatKinds {
  datatype FpKind = Half | Float | Double | X86Fp80 | Fp128 | PpcFp128

  /** The ones whose constants the code generator takes apart. */
  type BinaryKind = k: FpKind | k in {Half, Float, Double} witness Half
}
