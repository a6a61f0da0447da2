/** Splitting an integer of up to 64 bits into bytes and putting it back together, in either byte
    order. */
module Bytes {
  import opened Words

  type Byte = b: Bits | |b| == 8 witness seq(8, _ => false)

  const ZERO: Byte := Zeros(8)

  /** Which byte of the integer, counted from the least significant, is stored `i`-th of `n`. */
  function ShiftIndex(n: nat, i: nat, big: bool): (r: nat)
    requires i < n
    ensures r < n
  {
    if big then n - 1 - i else i
  }

  /** The `i`-th stored byte: shift down, mask with 0xff, narrow. */
  function ByteOf(bits: Bits, i: nat, big: bool): (r: Byte)
    requires |bits| <= 64 && |bits| % 8 == 0 && i < |bits| / 8
  {
    Resize(And(Shr(Resize(bits, 64), 8 * ShiftIndex(|bits| / 8, i, big)), Mask(64, 8)), 8)
  }

  /** The word after the first `k` bytes are or-ed into place. */
  function PackFirst(bytes: seq<Byte>, k: nat, big: bool): (r: Word)
    requires k <= |bytes| <= 8
  {
    if k == 0 then Zeros(64)
    else Or(PackFirst(bytes, k - 1, big), Shl(Resize(bytes[k - 1], 64), 8 * ShiftIndex(|bytes|, k - 1, big)))
  }

  function Pack(bytes: seq<Byte>, big: bool): (r: Word)
    requires |bytes| <= 8
  {
    PackFirst(bytes, |bytes|, big)
  }

  /** The loop: or each byte into place. */
  method PackBytes(bytes: seq<Byte>, big: bool) returns (packed: Word)
    requires |bytes| <= 8
    ensures packed == Pack(bytes, big)
    ensures forall i :: 0 <= i < |bytes| ==> ByteOf(packed[..8 * |bytes|], i, big) == bytes[i]
  {
    packed := Zeros(64);
    for i := 0 to |bytes|
      invariant packed == PackFirst(bytes, i, big)
    {
      packed := Or(packed, Shl(Resize(bytes[i], 64), 8 * ShiftIndex(|bytes|, i, big)));
    }
    forall i | 0 <= i < |bytes| ensures ByteOf(packed[..8 * |bytes|], i, big) == bytes[i] {
      UnpackPack(bytes, big, i);
    }
  }

  /** Which stored byte holds the `q`-th byte from the bottom: the reordering is its own inverse. */
  lemma {:induction false} ShiftIndexTwice(n: nat, i: nat, big: bool)
    requires i < n
    ensures ShiftIndex(n, ShiftIndex(n, i, big), big) == i
  {}

  lemma {:induction false} ByteOfBit(bits: Bits, i: nat, big: bool, j: nat)
    requires |bits| <= 64 && |bits| % 8 == 0 && i < |bits| / 8 && j < 8
    ensures ByteOf(bits, i, big)[j] == bits[8 * ShiftIndex(|bits| / 8, i, big) + j]
  {
    MaskBits(64, 8);
  }

  /** Little-endian: the `i`-th stored byte is the `i`-th eight bits from the bottom. */
  lemma {:induction false} LittleEndian(bits: Bits, i: nat)
    requires |bits| <= 64 && |bits| % 8 == 0 && i < |bits| / 8
    ensures ByteOf(bits, i, false) == bits[8 * i..8 * i + 8]
  {
    hide ByteOf;
    var r := ByteOf(bits, i, false);
    forall j | 0 <= j < 8 ensures r[j] == bits[8 * i..8 * i + 8][j] { ByteOfBit(bits, i, false, j); }
    assert r == bits[8 * i..8 * i + 8];
  }

  /** Big-endian: the same from the top. */
  lemma {:induction false} BigEndian(bits: Bits, i: nat)
    requires |bits| <= 64 && |bits| % 8 == 0 && i < |bits| / 8
    ensures ByteOf(bits, i, true) == bits[|bits| - 8 * i - 8..|bits| - 8 * i]
  {
    hide ByteOf;
    var lo := |bits| - 8 * i - 8;
    var s := ShiftIndex(|bits| / 8, i, true);
    assert lo == 8 * s;
    var r := ByteOf(bits, i, true);
    forall j | 0 <= j < 8 ensures r[j] == bits[lo..lo + 8][j] { ByteOfBit(bits, i, true, j); }
    assert r == bits[lo..lo + 8];
  }

  lemma {:induction false} PackFirstBit(bytes: seq<Byte>, k: nat, big: bool, q: nat, j: nat)
    requires k <= |bytes| <= 8 && q < 8 && j < 8
    ensures PackFirst(bytes, k, big)[8 * q + j]
      == (q < |bytes| && ShiftIndex(|bytes|, q, big) < k && bytes[ShiftIndex(|bytes|, q, big)][j])
  {
    if k > 0 {
      PackFirstBit(bytes, k - 1, big, q, j);
      var s := ShiftIndex(|bytes|, k - 1, big);
      ShiftIndexTwice(|bytes|, k - 1, big);
      if s == q {
        assert Shl(Resize(bytes[k - 1], 64), 8 * s)[8 * q + j] == bytes[k - 1][j];
      } else {
        assert !Shl(Resize(bytes[k - 1], 64), 8 * s)[8 * q + j];
      }
    }
  }

  /** Extracting a packed byte gives it back. */
  lemma {:induction false} UnpackPack(bytes: seq<Byte>, big: bool, i: nat)
    requires |bytes| <= 8 && i < |bytes|
    ensures ByteOf(Pack(bytes, big)[..8 * |bytes|], i, big) == bytes[i]
  {
    hide ByteOf, PackFirst, ShiftIndex;
    var n := |bytes|;
    var bits := Pack(bytes, big)[..8 * n];
    var s := ShiftIndex(n, i, big);
    ShiftIndexTwice(n, i, big);
    forall j | 0 <= j < 8 ensures ByteOf(bits, i, big)[j] == bytes[i][j] {
      ByteOfBit(bits, i, big, j);
      PackFirstBit(bytes, n, big, s, j);
    }
  }

  function AllBytes(bits: Bits, big: bool): (r: seq<Byte>)
    requires |bits| <= 64 && |bits| % 8 == 0
    ensures |r| == |bits| / 8
  {
    seq(|bits| / 8, i requires 0 <= i < |bits| / 8 => ByteOf(bits, i, big))
  }

  /** Packing all bytes of an integer gives it back. */
  lemma {:induction false} PackUnpack(bits: Bits, big: bool)
    requires |bits| <= 64 && |bits| % 8 == 0
    ensures Pack(AllBytes(bits, big), big) == Resize(bits, 64)
  {
    var n := |bits| / 8;
    var bytes := AllBytes(bits, big);
    forall i | 0 <= i < 64 ensures Pack(bytes, big)[i] == Resize(bits, 64)[i] {
      var q, j := i / 8, i % 8;
      PackFirstBit(bytes, n, big, q, j);
      if q < n {
        ShiftIndexTwice(n, q, big);
        ByteOfBit(bits, ShiftIndex(n, q, big), big, j);
      }
    }
  }

  /** Two integers of one width whose stored bytes agree are equal. */
  lemma {:induction false} BytesInjective(a: Bits, b: Bits, big: bool)
    requires |a| == |b| <= 64 && |a| % 8 == 0
    requires forall i :: 0 <= i < |a| / 8 ==> ByteOf(a, i, big) == ByteOf(b, i, big)
    ensures a == b
  {
    assert AllBytes(a, big) == AllBytes(b, big);
    PackUnpack(a, big);
    PackUnpack(b, big);
    assert a == Resize(a, 64)[..|a|] && b == Resize(b, 64)[..|a|];
  }
}
