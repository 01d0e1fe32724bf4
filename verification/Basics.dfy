/**
 Scalar types, status codes, bitwise arithmetic on naturals, and byte-string words.

 A multi-byte quantity that is only copied, masked and compared (an address, a port, a key
 word, a register) is kept as its bytes in network order; a quantity that is computed with
 (a length, an index, a counter) is an integer with its C width.
 */
module Basics {

  type u8 = x: int | 0 <= x < 0x100
  type u16 = x: int | 0 <= x < 0x1_0000
  type u32 = x: int | 0 <= x < 0x1_0000_0000
  type u64 = x: int | 0 <= x < 0x1_0000_0000_0000_0000

  type Bytes = seq<u8>
  type Half = s: Bytes | |s| == 2 witness [0, 0]
  type Word = s: Bytes | |s| == 4 witness [0, 0, 0, 0]

  /** The status codes of types.h that the modelled paths can return. */
  datatype Status =
    | OK
    | Inval
    | DupCardId
    | DupGlobalPort
    | DupLogicalIf
    | DupFlowId
    | UnknownCard
    | UnknownGlobalPort
    | UnknownLogicalIf
    | MissingField
    | OutOfRange
    | NoCard
    | NoResources
    | Backend
    | IO
    | NotImplemented

  datatype Option<+T> = None | Some(value: T)

  // ---- bitwise operators ------------------------------------------------------------

  function And(a: nat, b: nat): (r: nat)
    ensures r <= a && r <= b
  {
    if a == 0 || b == 0 then 0
    else 2 * And(a / 2, b / 2) + (if a % 2 == 1 && b % 2 == 1 then 1 else 0)
  }

  function Or(a: nat, b: nat): (r: nat)
    ensures a <= r && b <= r && r <= a + b
  {
    if a == 0 then b else if b == 0 then a
    else 2 * Or(a / 2, b / 2) + (if a % 2 == 1 || b % 2 == 1 then 1 else 0)
  }

  function Xor(a: nat, b: nat): (r: nat)
    ensures r <= a + b
  {
    if a == 0 then b else if b == 0 then a
    else 2 * Xor(a / 2, b / 2) + (if a % 2 != b % 2 then 1 else 0)
  }

  /** a & ~b. */
  function AndNot(a: nat, b: nat): (r: nat)
    ensures r <= a
  {
    if a == 0 then 0 else if b == 0 then a
    else 2 * AndNot(a / 2, b / 2) + (if a % 2 == 1 && b % 2 == 0 then 1 else 0)
  }

  /** (base & ~mask) | (rot & mask). */
  function Select(base: nat, mask: nat, rot: nat): (r: nat)
    decreases mask
  {
    if mask == 0 then base
    else 2 * Select(base / 2, mask / 2, rot / 2) + (if mask % 2 == 1 then rot % 2 else base % 2)
  }

  function Pow2(k: nat): (r: nat)
    ensures r > 0
  {
    if k == 0 then 1 else 2 * Pow2(k - 1)
  }

  /** Masking with k low ones keeps every value below 2^k. */
  lemma {:induction false} AndOnes(a: nat, k: nat)
    requires a < Pow2(k)
    ensures And(a, Pow2(k) - 1) == a
  {
    if a > 0 {
      AndOnes(a / 2, k - 1);
      assert (2 * Pow2(k - 1) - 1) / 2 == Pow2(k - 1) - 1;
    }
  }

  lemma ByteMask(a: u8)
    ensures And(a, 0xFF) == a
  {
    assert Pow2(8) == 256;
    AndOnes(a, 8);
  }

  lemma {:induction false} AndLow(a: nat, m: nat)
    ensures And(a, 2 * m + 1) == 2 * And(a / 2, m) + a % 2
  {}

  lemma NibbleMask(a: nat)
    ensures And(a, 0x0F) == a % 16
  {
    var b := a / 2;
    var c := b / 2;
    var d := c / 2;
    AndLow(a, 7);
    AndLow(b, 3);
    AndLow(c, 1);
    AndLow(d, 0);
    NibbleBits(a, b, c, d);
  }

  lemma NibbleBits(a: nat, b: nat, c: nat, d: nat)
    requires b == a / 2 && c == b / 2 && d == c / 2
    ensures a % 16 == 8 * (d % 2) + 4 * (c % 2) + 2 * (b % 2) + a % 2
  {}

  lemma {:induction false} AndTwice(a: nat, m: nat)
    ensures And(And(a, m), m) == And(a, m)
  {
    if a != 0 && m != 0 { AndTwice(a / 2, m / 2); }
  }

  lemma {:induction false} AndComm(a: nat, b: nat)
    ensures And(a, b) == And(b, a)
  {
    if a != 0 && b != 0 { AndComm(a / 2, b / 2); }
  }

  lemma {:induction false} SelectByte(base: nat, mask: nat, rot: nat, k: nat)
    requires base < Pow2(k) && mask < Pow2(k)
    ensures Select(base, mask, rot) < Pow2(k)
    decreases mask
  {
    if mask != 0 {
      SelectByte(base / 2, mask / 2, rot / 2, k - 1);
    }
  }

  /** Bits outside the modifier's mask survive the modifier. */
  lemma {:induction false} SelectKeeps(base: nat, mask: nat, rot: nat, keep: nat)
    requires And(keep, mask) == 0
    ensures And(Select(base, mask, rot), keep) == And(base, keep)
    decreases mask
  {
    if mask != 0 && keep != 0 {
      SelectKeeps(base / 2, mask / 2, rot / 2, keep / 2);
      assert Select(base, mask, rot) / 2 == Select(base / 2, mask / 2, rot / 2);
    }
  }

  /** Clearing bits of a mask, by AND or by AND-NOT, never makes it meet bits it avoided. */
  lemma {:induction false} StillAvoids(a: nat, b: nat, m: nat)
    requires And(a, m) == 0
    ensures And(And(a, b), m) == 0 && And(AndNot(a, b), m) == 0
  {
    if a != 0 && m != 0 { StillAvoids(a / 2, b / 2, m / 2); }
  }

  lemma {:induction false} AndNotAvoids(a: nat, m: nat)
    ensures And(AndNot(a, m), m) == 0
  {
    if a != 0 && m != 0 { AndNotAvoids(a / 2, m / 2); }
  }

  // ---- masked byte strings ----------------------------------------------------------

  function AndByte(a: u8, b: u8): u8 { And(a, b) }

  /** Bytewise AND of two byte strings of one length. */
  function AndAll(a: Bytes, m: Bytes): (r: Bytes)
    requires |a| == |m|
    ensures |r| == |a| && forall i | 0 <= i < |a| :: r[i] == And(a[i], m[i])
  {
    seq(|a|, i requires 0 <= i < |a| => AndByte(a[i], m[i]))
  }

  function AndNotByte(a: u8, b: u8): u8 { AndNot(a, b) }

  /** Bytewise a & ~m. */
  function AndNotAll(a: Bytes, m: Bytes): (r: Bytes)
    requires |a| == |m|
    ensures |r| == |a| && forall i | 0 <= i < |a| :: r[i] == AndNot(a[i], m[i])
  {
    seq(|a|, i requires 0 <= i < |a| => AndNotByte(a[i], m[i]))
  }

  /** No bit is set in both. */
  predicate Disjoint(a: Bytes, m: Bytes)
    requires |a| == |m|
  {
    forall i | 0 <= i < |a| :: And(a[i], m[i]) == 0
  }

  lemma DisjointStays(a: Bytes, b: Bytes, m: Bytes)
    requires |a| == |b| == |m| && Disjoint(a, m)
    ensures Disjoint(AndAll(a, b), m) && Disjoint(AndNotAll(a, b), m)
  {
    forall i | 0 <= i < |a| ensures And(AndAll(a, b)[i], m[i]) == 0 && And(AndNotAll(a, b)[i], m[i]) == 0 {
      StillAvoids(a[i], b[i], m[i]);
    }
  }

  lemma DisjointByClearing(a: Bytes, m: Bytes)
    requires |a| == |m|
    ensures Disjoint(AndNotAll(a, m), m)
  {
    forall i | 0 <= i < |a| ensures And(AndNotAll(a, m)[i], m[i]) == 0 {
      AndNotAvoids(a[i], m[i]);
    }
  }

  /** Masked comparison, the test every comparator performs. */
  predicate MaskEq(a: Bytes, m: Bytes, b: Bytes)
    requires |a| == |m| == |b|
  {
    forall i | 0 <= i < |a| :: And(a[i], m[i]) == And(b[i], m[i])
  }

  // ---- numbers and bytes ------------------------------------------------------------

  function Num16(b: Half): u16 { b[0] as int * 0x100 + b[1] }

  function Num32(b: Word): u32 {
    ((b[0] as int * 0x100 + b[1]) * 0x100 + b[2]) * 0x100 + b[3]
  }

  function Half16(n: u16): (b: Half)
    ensures Num16(b) == n
  {
    [n / 0x100, n % 0x100]
  }

  function Word32(n: u32): (b: Word)
    ensures Num32(b) == n
  {
    var h := n / 0x100;
    var g := h / 0x100;
    [g / 0x100, g % 0x100, h % 0x100, n % 0x100]
  }

  function Min(a: int, b: int): int { if a < b then a else b }
  function Max(a: int, b: int): int { if a < b then b else a }

  /** The big-endian 16-bit number at offset i. */
  function BE16(b: Bytes, i: nat): nat
    requires i + 2 <= |b|
  {
    b[i] as int * 0x100 + b[i + 1]
  }

  // ---- division ---------------------------------------------------------------------

  /** Quotient and remainder are unique. */
  lemma QuotientIs(a: nat, d: nat, q: nat, r: nat)
    requires d > 0 && a == q * d + r && r < d
    ensures a / d == q && a % d == r
  {
    var q', r' := a / d, a % d;
    assert (q - q') * d == r' - r;
    MulGrows(q - q', d);
  }

  lemma MulGrows(x: int, d: nat)
    ensures x >= 1 ==> x * d >= d
    ensures x <= -1 ==> x * d + d <= 0
  {}

  /** Bit i of a number, 0 being the least significant. */
  function HasBit(x: nat, i: nat): bool { x / Pow2(i) % 2 == 1 }

  lemma HalfOf(v: nat, p: nat)
    requires p > 0
    ensures v / p == 2 * (v / (2 * p)) + v / p % 2
  {
    var q, r := v / p, v % p;
    var h := q / 2;
    assert v == h * (2 * p) + (q % 2) * p + r;
    assert (q % 2) * p + r < 2 * p;
    QuotientIs(v, 2 * p, h, (q % 2) * p + r);
  }
}
