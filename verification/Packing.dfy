/** Bit packing of resource bounds and data-availability modes into field elements. */
module Packing {
  import opened Felts

  type Byte = x: nat | x < 256

  // The resource names as ASCII bytes.
  const L1_GAS: seq<Byte> := [0x4c, 0x31, 0x5f, 0x47, 0x41, 0x53]
  const L2_GAS: seq<Byte> := [0x4c, 0x32, 0x5f, 0x47, 0x41, 0x53]
  const L1_DATA: seq<Byte> := [0x4c, 0x31, 0x5f, 0x44, 0x41, 0x54, 0x41]
  const INVOKE: seq<Byte> := [0x69, 0x6e, 0x76, 0x6f, 0x6b, 0x65]

  const TWO_56: nat := 0x100_0000_0000_0000

  /** The number whose base-256 digits are `bytes`, most significant first. */
  function BigEndian(bytes: seq<Byte>): nat {
    if bytes == [] then 0 else 256 * BigEndian(bytes[..|bytes| - 1]) + bytes[|bytes| - 1]
  }

  function Pow2(k: nat): (p: nat)
    ensures p > 0
  {
    if k == 0 then 1 else 2 * Pow2(k - 1)
  }

  /** Bitwise or, bit by bit. */
  function BitOr(a: nat, b: nat): nat {
    if a == 0 && b == 0 then 0
    else 2 * BitOr(a / 2, b / 2) + (if a % 2 == 1 || b % 2 == 1 then 1 else 0)
  }

  /** Left shift in an unsigned type of `width` bits: bits that leave it are dropped. */
  function ShiftLeft(a: nat, k: nat, width: nat): nat {
    a * Pow2(k) % Pow2(width)
  }

  /** The resource name as the source computes it: at most 7 bytes, right-aligned. */
  function ResourceName(name: seq<Byte>): nat {
    BigEndian(name[..if |name| < 7 then |name| else 7])
  }

  function Concat(maxAmount: U64, maxPrice: U128, name: seq<Byte>): Felt {
    var high := BitOr(ShiftLeft(ResourceName(name), 64, 128), maxAmount) % PRIME;
    var shift := Mul(TWO_64, TWO_64);
    Add(Mul(high, shift), maxPrice)
  }

  function DaMode(nonceMode: U32, feeMode: U32): Felt {
    BitOr(ShiftLeft(nonceMode, 32, 64), feeMode) % PRIME
  }

  // ----- byte strings

  lemma {:induction false} BigEndianBound(bytes: seq<Byte>)
    ensures BigEndian(bytes) < Pow2(8 * |bytes|)
  {
    if bytes != [] {
      var n := |bytes|;
      BigEndianBound(bytes[..n - 1]);
      assert Pow2(8 * n) == 256 * Pow2(8 * (n - 1)) by { PowAdd(8, 8 * (n - 1)); }
    }
  }

  lemma {:induction false} LeadingZero(bytes: seq<Byte>)
    ensures BigEndian([0] + bytes) == BigEndian(bytes)
  {
    var t := [0] + bytes;
    if bytes == [] {
      assert BigEndian(t[..0]) == 0;
    } else {
      LeadingZero(bytes[..|bytes| - 1]);
      assert t[..|t| - 1] == [0] + bytes[..|bytes| - 1];
    }
  }

  lemma {:induction false} LeadingZeros(k: nat, bytes: seq<Byte>)
    ensures BigEndian(seq(k, _ => 0) + bytes) == BigEndian(bytes)
  {
    if k == 0 {
      assert seq(k, _ => 0) + bytes == bytes;
    } else {
      LeadingZeros(k - 1, bytes);
      LeadingZero(seq(k - 1, _ => 0) + bytes);
      assert seq(k, _ => 0) + bytes == [0] + (seq(k - 1, _ => 0) + bytes);
    }
  }

  lemma ResourceNameBound(name: seq<Byte>)
    ensures ResourceName(name) < TWO_56
  {
    var n := if |name| < 7 then |name| else 7;
    BigEndianBound(name[..n]);
    PowMonotone(8 * n, 56);
    Powers();
  }

  /** Right-aligns the name in an 8-byte buffer and reads the buffer big-endian. */
  method ResourceNameFelt(name: seq<Byte>) returns (r: U64)
    ensures r == ResourceName(name)
  {
    var len := if |name| < 7 then |name| else 7;
    var buf := new Byte[8](_ => 0);
    var i := 0;
    while i < len
      invariant 0 <= i <= len
      invariant forall k :: 0 <= k < 8 - len ==> buf[k] == 0
      invariant forall k :: 0 <= k < i ==> buf[8 - len + k] == name[k]
    {
      buf[8 - len + i] := name[i];
      i := i + 1;
    }
    assert buf[..] == seq(8 - len, _ => 0) + name[..len];
    LeadingZeros(8 - len, name[..len]);
    ResourceNameBound(name);
    r := BigEndian(buf[..]);
  }

  // ----- powers of two and disjoint bit fields

  lemma {:induction false} PowAdd(j: nat, k: nat)
    ensures Pow2(j + k) == Pow2(j) * Pow2(k)
  {
    if j > 0 {
      PowAdd(j - 1, k);
    }
  }

  lemma Powers()
    ensures Pow2(32) == TWO_32 && Pow2(56) == TWO_56 && Pow2(64) == TWO_64 && Pow2(128) == TWO_128
  {
    SmallPowers();
    Doubled(32);
    Doubled(64);
    PowAdd(32, 24);
  }

  lemma SmallPowers()
    ensures Pow2(24) == 0x100_0000 && Pow2(32) == TWO_32
  {
    assert Pow2(8) == 256;
    Doubled(8);
    Doubled(16);
    PowAdd(16, 8);
  }

  lemma Doubled(k: nat)
    ensures Pow2(k + k) == Pow2(k) * Pow2(k)
  {
    PowAdd(k, k);
  }

  lemma {:induction false} PowMonotone(j: nat, k: nat)
    requires j <= k
    ensures 0 < Pow2(j) <= Pow2(k)
  {
    if j > 0 {
      PowMonotone(j - 1, k - 1);
    } else if k > 0 {
      PowMonotone(0, k - 1);
    }
  }

  lemma {:induction false} OrZero(a: nat)
    ensures BitOr(a, 0) == a
  {
    if a > 0 {
      OrZero(a / 2);
    }
  }

  /** Or of a field shifted past another is their sum. */
  lemma {:induction false} DisjointOr(a: nat, k: nat, b: nat)
    requires b < Pow2(k)
    ensures BitOr(a * Pow2(k), b) == a * Pow2(k) + b
  {
    if k == 0 {
      OrZero(a);
    } else {
      var half := a * Pow2(k - 1);
      assert a * Pow2(k) == 2 * half;
      DisjointOr(a, k - 1, b / 2);
    }
  }

  /** The packed value is the integer with the three fields side by side: nothing wraps. */
  lemma ConcatExact(maxAmount: U64, maxPrice: U128, name: seq<Byte>)
    ensures ResourceName(name) < TWO_56
    ensures Concat(maxAmount, maxPrice, name)
         == ResourceName(name) * TWO_64 * TWO_128 + maxAmount * TWO_128 + maxPrice
    ensures Concat(maxAmount, maxPrice, name) < TWO_56 * TWO_64 * TWO_128 < PRIME
  {
    ResourceNameBound(name);
    var n := ResourceName(name);
    HighHalf(n, maxAmount);
    NoWrap(n, maxAmount, maxPrice);
    FieldSum(n * TWO_64 + maxAmount, maxPrice);
  }

  lemma FieldSum(high: nat, price: U128)
    requires high < TWO_56 * TWO_64
    ensures high < PRIME
    ensures Add(Mul(high % PRIME, Mul(TWO_64, TWO_64)), price) == high * TWO_128 + price
  {
    assert Mul(TWO_64, TWO_64) == TWO_128;
    assert high * TWO_128 + price < PRIME;
    assert Mul(high, TWO_128) == high * TWO_128;
  }

  /** A field shifted inside the width, or-ed with one below it, is the plain sum. */
  lemma ShiftedOr(a: nat, k: nat, width: nat, b: nat)
    requires a * Pow2(k) < Pow2(width) && b < Pow2(k)
    ensures BitOr(ShiftLeft(a, k, width), b) == a * Pow2(k) + b
  {
    assert ShiftLeft(a, k, width) == a * Pow2(k) by {
      SmallRemainder(a * Pow2(k), Pow2(width));
    }
    DisjointOr(a, k, b);
  }

  lemma SmallRemainder(x: nat, m: nat)
    requires x < m
    ensures x % m == x
  {
  }

  lemma HighHalf(n: nat, amount: U64)
    requires n < TWO_56
    ensures BitOr(ShiftLeft(n, 64, 128), amount) == n * TWO_64 + amount
  {
    Powers();
    NoWrap(n, amount, 0);
    ShiftedOr(n, 64, 128, amount);
  }

  /** The numbers behind `ConcatExact`: every intermediate result is below its modulus. */
  lemma NoWrap(n: nat, amount: U64, price: U128)
    requires n < TWO_56
    ensures n * TWO_64 < TWO_128 && n * TWO_64 + amount < TWO_56 * TWO_64
    ensures n * TWO_64 + amount < PRIME
    ensures Mul(TWO_64, TWO_64) == TWO_128
    ensures (n * TWO_64 + amount) * TWO_128 + price == n * TWO_64 * TWO_128 + amount * TWO_128 + price
    ensures (n * TWO_64 + amount) * TWO_128 + price < TWO_56 * TWO_64 * TWO_128 < PRIME
  {
  }

  /** Each of the three fields can be read back from the packed value. */
  lemma ConcatInvertible(maxAmount: U64, maxPrice: U128, name: seq<Byte>)
    ensures var v := Concat(maxAmount, maxPrice, name);
            && v % TWO_128 == maxPrice
            && v / TWO_128 % TWO_64 == maxAmount
            && v / TWO_128 / TWO_64 == ResourceName(name)
  {
    ConcatExact(maxAmount, maxPrice, name);
    SplitFields(ResourceName(name), maxAmount, maxPrice);
  }

  lemma SplitFields(n: nat, amount: U64, price: U128)
    ensures var v := n * TWO_64 * TWO_128 + amount * TWO_128 + price;
            v % TWO_128 == price && v / TWO_128 % TWO_64 == amount && v / TWO_128 / TWO_64 == n
  {
    var high := n * TWO_64 + amount;
    DivMod(high, TWO_128, price);
    DivMod(n, TWO_64, amount);
    assert high * TWO_128 == n * TWO_64 * TWO_128 + amount * TWO_128;
  }

  lemma DivMod(q: nat, m: nat, r: nat)
    requires r < m
    ensures (q * m + r) / m == q && (q * m + r) % m == r
  {
    var x := q * m + r;
    assert x == m * (x / m) + x % m;
    var k := q - x / m;
    assert k * m == x % m - r;
    AtLeastOneMultiple(k, m);
  }

  lemma AtLeastOneMultiple(k: int, m: nat)
    ensures k >= 1 ==> k * m >= m
    ensures k <= -1 ==> k * m <= -1 * m
  {
  }

  /** The numbers behind `DaModeExact`: the two modes fit 64 bits side by side. */
  lemma ModesFit(nonceMode: U32, feeMode: U32)
    ensures nonceMode * TWO_32 < TWO_64 && nonceMode * TWO_32 + feeMode < PRIME
  {
  }

  lemma DaBits(nonceMode: U32, feeMode: U32)
    ensures BitOr(ShiftLeft(nonceMode, 32, 64), feeMode) == nonceMode * TWO_32 + feeMode
  {
    Powers();
    ModesFit(nonceMode, feeMode);
    ShiftedOr(nonceMode, 32, 64, feeMode);
  }

  lemma DaModeExact(nonceMode: U32, feeMode: U32)
    ensures DaMode(nonceMode, feeMode) == nonceMode * TWO_32 + feeMode
  {
    DaBits(nonceMode, feeMode);
    ModesFit(nonceMode, feeMode);
    SmallRemainder(BitOr(ShiftLeft(nonceMode, 32, 64), feeMode), PRIME);
  }

  /** The three resource names pack differently whatever the bounds are. */
  lemma ResourceNamesDistinct(a1: U64, p1: U128, a2: U64, p2: U128, a3: U64, p3: U128)
    ensures Concat(a1, p1, L1_GAS) != Concat(a2, p2, L2_GAS)
    ensures Concat(a1, p1, L1_GAS) != Concat(a3, p3, L1_DATA)
    ensures Concat(a2, p2, L2_GAS) != Concat(a3, p3, L1_DATA)
  {
    ConcatInvertible(a1, p1, L1_GAS);
    ConcatInvertible(a2, p2, L2_GAS);
    ConcatInvertible(a3, p3, L1_DATA);
    NameValues();
  }

  /** The names' values, as the source's own tests list them. */
  lemma NameValues()
    ensures ResourceName(L1_GAS) == 0x4c315f474153
    ensures ResourceName(L2_GAS) == 0x4c325f474153
    ensures ResourceName(L1_DATA) == 0x4c315f44415441
    ensures BigEndian(INVOKE) == 0x696e766f6b65
  {
    SixBytes(L1_GAS);
    SixBytes(L2_GAS);
    SixBytes(L1_DATA[..6]);
    SixBytes(INVOKE);
    assert L1_GAS[..6] == L1_GAS && L2_GAS[..6] == L2_GAS && L1_DATA[..7] == L1_DATA;
  }

  lemma SixBytes(b: seq<Byte>)
    requires |b| == 6
    ensures BigEndian(b)
         == (((((b[0] as int) * 256 + b[1]) * 256 + b[2]) * 256 + b[3]) * 256 + b[4]) * 256 + b[5]
  {
    assert b[..5][..4] == b[..4];
    assert b[..4][..3] == b[..3];
    assert b[..3][..2] == b[..2];
    assert b[..2][..1] == b[..1];
    assert b[..1][..0] == [];
    assert BigEndian(b[..1]) == b[0];
    assert BigEndian(b[..2]) == 256 * BigEndian(b[..1]) + b[1];
    assert BigEndian(b[..3]) == 256 * BigEndian(b[..2]) + b[2];
    assert BigEndian(b[..4]) == 256 * BigEndian(b[..3]) + b[3];
    assert BigEndian(b[..5]) == 256 * BigEndian(b[..4]) + b[4];
  }
}
