/** The Internet checksum (RFC 1071) as the frame builder computes it. */
module Checksum {
  import opened Basics

  /** Sum of the big-endian 16-bit words; an odd last byte counts as the high half of a word. */
  function Sum16(b: Bytes): nat {
    if b == [] then 0
    else if |b| == 1 then b[0] * 0x100
    else b[0] * 0x100 + b[1] + Sum16(b[2..])
  }

  /** Add the carries back in until the sum fits 16 bits. */
  function Fold16(s: nat): (r: nat)
    ensures r <= 0xFFFF
  {
    if s <= 0xFFFF then s else Fold16(s % 0x1_0000 + s / 0x1_0000)
  }

  /** ones_csum, continuing from an initial sum. */
  function Csum(b: Bytes, init: nat): u16 { 0xFFFF - Fold16(init + Sum16(b)) }

  /** The bytes are a checksummed unit: with whatever is summed beside them they give 0xFFFF. */
  predicate SumsToOnes(b: Bytes, init: nat) { Fold16(init + Sum16(b)) == 0xFFFF }

  lemma {:induction false} FoldMod(s: nat)
    ensures Fold16(s) % 0xFFFF == s % 0xFFFF
    ensures Fold16(s) == 0 <==> s == 0
    decreases s
  {
    if s > 0xFFFF {
      var hi, lo := s / 0x1_0000, s % 0x1_0000;
      FoldMod(lo + hi);
      CarryMod(hi, lo);
    }
  }

  lemma CarryMod(hi: nat, lo: nat)
    ensures (hi * 0x1_0000 + lo) % 0xFFFF == (hi + lo) % 0xFFFF
  {
    var q, r := (hi + lo) / 0xFFFF, (hi + lo) % 0xFFFF;
    QuotientIs(hi * 0x1_0000 + lo, 0xFFFF, q + hi, r);
  }

  /** Adding the complement of the folded sum completes it to all ones. */
  lemma ComplementCompletes(s: nat)
    ensures Fold16(s + (0xFFFF - Fold16(s))) == 0xFFFF
  {
    var c := 0xFFFF - Fold16(s);
    FoldMod(s);
    FoldMod(s + c);
    ComplementMod(s, Fold16(s));
  }

  lemma ComplementMod(s: nat, f: nat)
    requires f <= 0xFFFF && f % 0xFFFF == s % 0xFFFF
    ensures (s + (0xFFFF - f)) % 0xFFFF == 0
  {
    var q := s / 0xFFFF;
    var p := f / 0xFFFF;
    QuotientIs(s + (0xFFFF - f), 0xFFFF, q - p + 1, 0);
  }

  lemma {:induction false} SumConcat(a: Bytes, b: Bytes)
    requires |a| % 2 == 0
    ensures Sum16(a + b) == Sum16(a) + Sum16(b)
    decreases |a|
  {
    if a == [] {
      assert a + b == b;
    } else {
      SumConcat(a[2..], b);
      assert (a + b)[2..] == a[2..] + b;
    }
  }

  /** b with the 16-bit value c stored at offset at. */
  function Put16(b: Bytes, at: nat, c: u16): (r: Bytes)
    requires at + 2 <= |b|
    ensures |r| == |b|
  {
    b[..at] + Half16(c) + b[at + 2..]
  }

  lemma SumPut(b: Bytes, at: nat, c: u16)
    requires at % 2 == 0 && at + 2 <= |b| && b[at] == 0 && b[at + 1] == 0
    ensures Sum16(Put16(b, at, c)) == Sum16(b) + c
  {
    var p, z, t := b[..at], b[at..at + 2], b[at + 2..];
    SplitAt(b, at);
    SumAround(p, Half16(c), t);
    SumAround(p, z, t);
    JoinAssoc(p, Half16(c), t);
  }

  lemma SplitAt(b: Bytes, at: nat)
    requires at + 2 <= |b|
    ensures b == b[..at] + (b[at..at + 2] + b[at + 2..])
  {}

  lemma JoinAssoc(p: Bytes, h: Bytes, t: Bytes)
    ensures p + h + t == p + (h + t)
  {}

  lemma SumAround(p: Bytes, h: Half, t: Bytes)
    requires |p| % 2 == 0
    ensures Sum16(p + (h + t)) == Sum16(p) + Num16(h) + Sum16(t)
  {
    SumConcat(p, h + t);
    HalfSum(h, t);
  }

  lemma HalfSum(h: Half, t: Bytes)
    ensures Sum16(h + t) == Num16(h) + Sum16(t)
  {
    assert (h + t)[2..] == t;
  }

  /** b with its checksum field, at offset `at`, filled in. */
  function Checksummed(b: Bytes, at: nat, init: nat): (r: Bytes)
    requires at + 2 <= |b|
    ensures |r| == |b|
  {
    Put16(b, at, Csum(b, init))
  }

  /** Filling in the checksum makes the unit sum to all ones. */
  lemma ChecksummedIsValid(b: Bytes, at: nat, init: nat)
    requires at % 2 == 0 && at + 2 <= |b| && b[at] == 0 && b[at + 1] == 0
    ensures SumsToOnes(Checksummed(b, at, init), init)
  {
    var s := init + Sum16(b);
    SumPut(b, at, Csum(b, init));
    ComplementCompletes(s);
  }

  /** The checksum written is 0 exactly when the sum is a positive multiple of 0xFFFF. */
  lemma ZeroChecksum(b: Bytes, init: nat)
    ensures Csum(b, init) == 0 <==> init + Sum16(b) > 0 && (init + Sum16(b)) % 0xFFFF == 0
  {
    FoldMod(init + Sum16(b));
  }

  lemma {:induction false} SumBound(b: Bytes)
    ensures Sum16(b) <= 0xFFFF * ((|b| + 1) / 2)
    decreases |b|
  {
    if |b| >= 2 { SumBound(b[2..]); }
  }

  /** Sum of the first i bytes, i even, and what one more word adds. */
  lemma SumStep(b: Bytes, i: nat)
    requires i % 2 == 0 && i + 2 <= |b|
    ensures Sum16(b[..i + 2]) == Sum16(b[..i]) + b[i] as int * 0x100 + b[i + 1]
  {
    SumConcat(b[..i], b[i..i + 2]);
    assert b[..i + 2] == b[..i] + b[i..i + 2];
    HalfSum(b[i..i + 2], []);
    assert b[i..i + 2] + [] == b[i..i + 2];
  }

  /** The word loop of ones_csum; a frame's worth of words cannot overflow the 32-bit accumulator. */
  method AddWords(b: Bytes, init: u32) returns (sum: u32)
    requires |b| <= 0x1_0000 && init < 0x100_0000
    ensures sum as int == init + Sum16(b)
  {
    sum := init;
    var i := 0;
    while i + 1 < |b|
      invariant i % 2 == 0 && i <= |b| && sum as int == init + Sum16(b[..i])
    {
      SumStep(b, i);
      SumBound(b[..i + 2]);
      sum := sum + (b[i] as int * 0x100 + b[i + 1]);
      i := i + 2;
    }
    SumConcat(b[..i], b[i..]);
    assert b == b[..i] + b[i..];
    SumBound(b);
    if |b| % 2 == 1 {
      sum := sum + b[|b| - 1] as int * 0x100;
    }
  }

  /** ones_csum over n bytes of a buffer. */
  method OnesCsum(buf: array<u8>, start: nat, n: nat, init: u32) returns (c: u16)
    requires start + n <= buf.Length && n <= 0x1_0000 && init < 0x100_0000
    ensures c == Csum(buf[start..start + n], init)
  {
    var sum := AddWords(buf[start..start + n], init);
    ghost var s := sum as int;
    while sum >= 0x1_0000
      invariant Fold16(sum) == Fold16(s)
    {
      sum := sum % 0x1_0000 + sum / 0x1_0000;
    }
    c := 0xFFFF - sum;
  }
}
