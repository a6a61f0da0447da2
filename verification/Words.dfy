/** Fixed-width machine words as bit sequences, least significant bit first, with the C operators
    `&`, `|`, `~`, `<<`, `>>` and width changes, and what they mean on numbers. */
module Words {

  type Bits = seq<bool>

  /** A `uint64_t`. */
  type Word = w: Bits | |w| == 64 witness seq(64, _ => false)

  function Zeros(n: nat): (r: Bits)
    ensures |r| == n
  {
    seq(n, _ => false)
  }

  function And(a: Bits, b: Bits): (r: Bits)
    requires |a| == |b|
    ensures |r| == |a|
  {
    seq(|a|, i requires 0 <= i < |a| => a[i] && b[i])
  }

  function Or(a: Bits, b: Bits): (r: Bits)
    requires |a| == |b|
    ensures |r| == |a|
  {
    seq(|a|, i requires 0 <= i < |a| => a[i] || b[i])
  }

  function Not(a: Bits): (r: Bits)
    ensures |r| == |a|
  {
    seq(|a|, i requires 0 <= i < |a| => !a[i])
  }

  function Shl(a: Bits, k: nat): (r: Bits)
    ensures |r| == |a|
  {
    seq(|a|, i requires 0 <= i < |a| => i >= k && a[i - k])
  }

  function Shr(a: Bits, k: nat): (r: Bits)
    ensures |r| == |a|
  {
    seq(|a|, i requires 0 <= i < |a| => i + k < |a| && a[i + k])
  }

  /** Truncation, or extension with zeros. */
  function Resize(a: Bits, n: nat): (r: Bits)
    ensures |r| == n
  {
    seq(n, i requires 0 <= i < n => i < |a| && a[i])
  }

  /** Truncation, or extension with copies of the top bit. */
  function SignResize(a: Bits, n: nat): (r: Bits)
    ensures |r| == n
  {
    seq(n, i requires 0 <= i < n => if i < |a| then a[i] else |a| > 0 && a[|a| - 1])
  }

  function Pow2(k: nat): (r: nat)
    ensures r > 0
  {
    if k == 0 then 1 else 2 * Pow2(k - 1)
  }

  function ToNat(a: Bits): nat {
    if a == [] then 0 else (if a[0] then 1 else 0) + 2 * ToNat(a[1..])
  }

  function FromNat(v: nat, n: nat): (r: Bits)
    ensures |r| == n
  {
    if n == 0 then [] else [v % 2 == 1] + FromNat(v / 2, n - 1)
  }

  /** `(1 << k) - 1` in `n` bits. */
  function Mask(n: nat, k: nat): (r: Bits)
    ensures |r| == n
  {
    FromNat(Pow2(k) - 1, n)
  }

  lemma {:induction false} ToNatBound(a: Bits)
    ensures ToNat(a) < Pow2(|a|)
  {
    if a != [] { ToNatBound(a[1..]); }
  }

  lemma {:induction false} ToNatZeros(n: nat)
    ensures ToNat(Zeros(n)) == 0
  {
    if n > 0 {
      assert Zeros(n)[1..] == Zeros(n - 1);
      ToNatZeros(n - 1);
    }
  }

  lemma {:induction false} ModUnique(v: int, m: int, q: int, r: int)
    requires 0 <= r < m && v == m * q + r
    ensures v % m == r
  {
    var q1 := v / m;
    assert v == m * q1 + v % m;
    assert m * (q1 - q) == r - v % m;
    MultiplesApart(m, q1 - q);
  }

  lemma {:induction false} MultiplesApart(m: int, d: int)
    requires m > 0
    ensures d >= 1 ==> m * d >= m
    ensures d <= -1 ==> m * d <= -m
  {
    assert d >= 1 ==> m * d == m + m * (d - 1) && m * (d - 1) >= 0;
    assert d <= -1 ==> m * d == -m + m * (d + 1) && m * (d + 1) <= 0;
  }

  /** The mask has its `k` low bits set. */
  lemma {:induction false} MaskBits(n: nat, k: nat)
    ensures forall i :: 0 <= i < n ==> (Mask(n, k)[i] <==> i < k)
  {
    if n > 0 {
      if k == 0 {
        FromZero(n);
      } else {
        MaskBits(n - 1, k - 1);
        assert (Pow2(k) - 1) / 2 == Pow2(k - 1) - 1;
        assert Mask(n, k) == [true] + Mask(n - 1, k - 1);
      }
    }
  }

  lemma {:induction false} FromZero(n: nat)
    ensures FromNat(0, n) == Zeros(n)
  {
    if n > 0 { FromZero(n - 1); }
  }

  /** Low and high halves. */
  lemma {:induction false} ToNatSplit(a: Bits, k: nat)
    requires k <= |a|
    ensures ToNat(a) == ToNat(a[..k]) + Times(Pow2(k), ToNat(a[k..]))
  {
    hide Times;
    if k == 0 {
      assert a[0..] == a;
      OnceTimes(ToNat(a));
    } else {
      ToNatSplit(a[1..], k - 1);
      assert a[1..][..k - 1] == a[..k][1..];
      assert a[1..][k - 1..] == a[k..];
      TwiceTimes(Pow2(k - 1), ToNat(a[k..]));
    }
  }

  lemma {:induction false} TwiceTimes(m: nat, n: nat)
    ensures Times(2 * m, n) == 2 * Times(m, n)
  {}

  lemma {:induction false} OnceTimes(n: nat)
    ensures Times(1, n) == n && Times(n, 0) == 0
  {}

  lemma {:induction false} ToNatTake(a: Bits, k: nat)
    requires k <= |a|
    ensures ToNat(a[..k]) == ToNat(a) % Pow2(k)
  {
    ToNatSplit(a, k);
    ToNatBound(a[..k]);
    ModUnique(ToNat(a), Pow2(k), ToNat(a[k..]), ToNat(a[..k]));
  }

  /** Trailing zeros do not change the value. */
  lemma {:induction false} ToNatPad(a: Bits, n: nat)
    ensures ToNat(a + Zeros(n)) == ToNat(a)
  {
    hide Times;
    ToNatSplit(a + Zeros(n), |a|);
    OnceTimes(Pow2(|a|));
    assert (a + Zeros(n))[..|a|] == a && (a + Zeros(n))[|a|..] == Zeros(n);
    ToNatZeros(n);
  }

  /** `a & ((1 << k) - 1)` is `a` modulo `2^k`. */
  lemma {:induction false} MaskIsMod(a: Bits, k: nat)
    requires k <= |a|
    ensures ToNat(And(a, Mask(|a|, k))) == ToNat(a) % Pow2(k)
  {
    MaskBits(|a|, k);
    assert And(a, Mask(|a|, k)) == a[..k] + Zeros(|a| - k);
    ToNatPad(a[..k], |a| - k);
    ToNatTake(a, k);
  }

  /** A width change keeps the value modulo the new width. */
  lemma {:induction false} ResizeValue(a: Bits, n: nat)
    ensures ToNat(Resize(a, n)) == ToNat(a) % Pow2(n)
  {
    if n <= |a| {
      assert Resize(a, n) == a[..n];
      ToNatTake(a, n);
    } else {
      assert Resize(a, n) == a + Zeros(n - |a|);
      ToNatPad(a, n - |a|);
      BelowWidth(a, n);
    }
  }

  lemma {:induction false} BelowWidth(a: Bits, n: nat)
    requires |a| <= n
    ensures ToNat(a) % Pow2(n) == ToNat(a)
  {
    ToNatBound(a);
    Pow2Monotone(|a|, n);
    ModUnique(ToNat(a), Pow2(n), 0, ToNat(a));
  }

  const WORD: nat := 0x1_0000_0000_0000_0000

  lemma {:induction false} Pow2Add(a: nat, b: nat)
    ensures Pow2(a + b) == Pow2(a) * Pow2(b)
    decreases b
  {
    if b > 0 { Pow2Add(a, b - 1); }
  }

  lemma {:induction false} WordIsPow2()
    ensures Pow2(64) == WORD
  {
    assert Pow2(4) == 16;
    Pow2Add(4, 4);
    Pow2Add(8, 8);
    Pow2Add(16, 16);
    Pow2Add(32, 32);
  }

  lemma {:induction false} Pow2Monotone(a: nat, b: nat)
    requires a <= b
    ensures Pow2(a) <= Pow2(b)
    decreases b
  {
    if a < b { Pow2Monotone(a, b - 1); }
  }

  // ----- multiplication under a name, so that proofs can do without its definition -----

  function Times(n: nat, m: nat): nat { n * m }

  lemma {:induction false} TimesStep(n: nat, m: nat)
    requires n > 0
    ensures Times(n, m) == Times(n - 1, m) + m
  {}

  lemma {:induction false} PositiveTimes(n: nat, m: nat)
    ensures Times(n, m) == 0 <==> n == 0 || m == 0
  {}

  lemma {:induction false} MulMonotone(a: nat, b: nat, m: nat)
    requires a <= b
    ensures a * m <= b * m
  {
    assert b * m == a * m + (b - a) * m;
  }
}
