/** Fixed-width integers, the byte swaps of a little-endian host, and the prefix test on
    IPv4 addresses that both data planes of the mesh are built on. */
module Wire {

  type u8 = x: int | 0 <= x < 0x100
  type u16 = x: int | 0 <= x < 0x1_0000
  type u32 = x: int | 0 <= x < 0x1_0000_0000

  /** bpf_htons and bpf_ntohs on a little-endian host. */
  function Swap16(x: u16): (r: u16)
    ensures (r % 256) * 256 + r / 256 == x
  {
    (x % 256) * 256 + x / 256
  }

  /** bpf_htonl on a little-endian host. */
  function Swap32(x: u32): u32 {
    Octet(x, 0) * 0x100_0000 + Octet(x, 1) * 0x1_0000 + Octet(x, 2) * 0x100 + Octet(x, 3)
  }

  /** The k-th octet in memory of an address kept in network order. */
  function Octet(x: u32, k: int): u8
    requires 0 <= k < 4
  {
    if k == 0 then x % 256
    else if k == 1 then x / 0x100 % 256
    else if k == 2 then x / 0x1_0000 % 256
    else x / 0x100_0000 % 256
  }

  lemma Swap16Involutive(x: u16)
    ensures Swap16(Swap16(x)) == x
  {
  }

  lemma FromOctets(x: u32)
    ensures x == Octet(x, 0) as int + 0x100 * Octet(x, 1) as int + 0x1_0000 * Octet(x, 2) as int +
            0x100_0000 * Octet(x, 3) as int
  {
    var y := x / 0x100;
    assert x == 0x100 * y + x % 256;
    assert x / 0x1_0000 == y / 0x100;
    assert x / 0x100_0000 == y / 0x1_0000;
  }

  /** A host-order word read back as four bytes. */
  lemma ByteDigits(a: int, b: int, c: int, d: int, a': int, b': int, c': int, d': int)
    requires 0 <= a < 256 && 0 <= b < 256 && 0 <= c < 256 && 0 <= d < 256
    requires 0 <= a' < 256 && 0 <= b' < 256 && 0 <= c' < 256 && 0 <= d' < 256
    requires a * 0x100_0000 + b * 0x1_0000 + c * 0x100 + d == a' * 0x100_0000 + b' * 0x1_0000 + c' * 0x100 + d'
    ensures a == a' && b == b' && c == c' && d == d'
  {
  }

  lemma Swap32Injective(x: u32, y: u32)
    requires Swap32(x) == Swap32(y)
    ensures x == y
  {
    ByteDigits(Octet(x, 0), Octet(x, 1), Octet(x, 2), Octet(x, 3), Octet(y, 0), Octet(y, 1), Octet(y, 2), Octet(y, 3));
    FromOctets(x);
    FromOctets(y);
  }

  function Pow2(n: nat): (r: nat)
    ensures r >= 1
  {
    if n == 0 then 1 else 2 * Pow2(n - 1)
  }

  /** Bit i of an address, counted from the left of its dotted form. */
  function AddressBit(x: u32, i: int): (r: int)
    requires 0 <= i < 32
  {
    Octet(x, i / 8) / Pow2(7 - i % 8) % 2
  }

  /** Section 3.1 of RFC 4632: the two addresses have the same first `mask` bits. */
  ghost predicate SharePrefix(a: u32, b: u32, mask: nat)
    requires mask <= 32
  {
    forall i :: 0 <= i < mask ==> AddressBit(a, i) == AddressBit(b, i)
  }

  /** The comparison in is_in_cidr: swap both words, then shift the host part away. */
  predicate ShiftedEqual(a: u32, b: u32, mask: nat)
    requires 1 <= mask <= 32
  {
    Swap32(a) / Pow2(32 - mask) == Swap32(b) / Pow2(32 - mask)
  }

  lemma MulExpand(a: int, b: int, q: int, r: int)
    ensures a * (b * q + r) == (a * b) * q + a * r
  {
    calc {
      a * (b * q + r);
      a * (b * q) + a * r;
      (a * b) * q + a * r;
    }
  }

  lemma ProductsOrdered(a: int, b: int, r: int, s: int)
    requires a > 0 && 0 <= r < b && 0 <= s < a
    ensures 0 <= a * r + s < a * b
  {
    MultipleAtLeast(a, b - r);
    assert a * (b - r) == a * b - a * r;
    assert a * r >= 0;
  }

  lemma DivTwice(x: nat, a: nat, b: nat)
    requires a > 0 && b > 0
    ensures a * b > 0
    ensures x / a / b == x / (a * b)
  {
    var y := x / a;
    var q, r1, r2 := y / b, x % a, y % b;
    MulExpand(a, b, q, r2);
    ProductsOrdered(a, b, r2, r1);
    assert x == (a * b) * q + (a * r2 + r1);
    DivUnique(x, a * b, q, a * r2 + r1);
  }

  lemma MultipleAtLeast(d: int, k: int)
    requires d > 0 && k >= 1
    ensures d * k >= d
  {
    assert d * k == d + d * (k - 1);
    assert d * (k - 1) >= 0;
  }

  lemma DivUnique(x: int, d: int, q: int, r: int)
    requires d > 0 && x == d * q + r && 0 <= r < d
    ensures x / d == q
  {
    var q', r' := x / d, x % d;
    assert d * q' + r' == d * q + r;
    assert d * (q - q') == d * q - d * q' == r' - r;
    assert d * (q' - q) == r - r';
    if q > q' {
      MultipleAtLeast(d, q - q');
    } else if q < q' {
      MultipleAtLeast(d, q' - q);
    }
  }

  lemma Pow2Values()
    ensures Pow2(0) == 1 && Pow2(1) == 2 && Pow2(2) == 4 && Pow2(3) == 8
    ensures Pow2(4) == 16 && Pow2(5) == 32 && Pow2(6) == 64 && Pow2(7) == 128
    ensures Pow2(8) == 0x100 && Pow2(16) == 0x1_0000 && Pow2(24) == 0x100_0000
  {
    assert Pow2(4) == 16;
    assert Pow2(8) == 256;
    assert Pow2(12) == 4096;
    assert Pow2(16) == 65536;
    assert Pow2(20) == 0x10_0000;
    assert Pow2(24) == 0x100_0000;
  }

  lemma {:induction false} Pow2Add(m: nat, n: nat)
    ensures Pow2(m + n) == Pow2(m) * Pow2(n)
  {
    if n > 0 {
      Pow2Add(m, n - 1);
      assert Pow2(m) * (2 * Pow2(n - 1)) == 2 * (Pow2(m) * Pow2(n - 1));
    }
  }

  lemma MulRearrange(high: int, p: int, h: int)
    requires p * h == 128
    ensures p * (2 * (high * h)) == high * 256
  {
    calc {
      p * (2 * (high * h));
      2 * (high * (p * h));
      high * 256;
    }
  }

  lemma ByteQuotient(high: int, low: int, p: int, h: int)
    requires p > 0 && p * h == 128
    ensures (high * 256 + low) / p == 2 * (high * h) + low / p
  {
    MulRearrange(high, p, h);
    var e, q := 2 * (high * h), low / p;
    assert p * (e + q) == p * e + p * q;
    DivUnique(high * 256 + low, p, e + q, low % p);
  }

  /** A byte's own bits are not disturbed by whatever stands to its left. */
  lemma LowByteBits(high: int, low: int, m: nat)
    requires 0 <= high && 0 <= low < 256 && m <= 7
    ensures (high * 256 + low) / Pow2(m) % 2 == low / Pow2(m) % 2
  {
    Pow2Add(m, 7 - m);
    assert Pow2(7) == 128 by {
      Pow2Values();
    }
    ByteQuotient(high, low, Pow2(m), Pow2(7 - m));
    EvenPart(high * Pow2(7 - m), low / Pow2(m));
  }

  lemma EvenPart(e: int, q: int)
    ensures (2 * e + q) % 2 == q % 2
  {
  }

  /** The host-order word with all octets to the right of octet k shifted away. */
  function Leading(x: u32, k: int): int
    requires 0 <= k < 4
  {
    if k == 0 then Octet(x, 0) else Leading(x, k - 1) * 256 + Octet(x, k)
  }

  lemma LeadingIsQuotient(x: u32, k: int)
    requires 0 <= k < 4
    ensures Leading(x, k) == Swap32(x) / Pow2(24 - 8 * k)
  {
    Pow2Values();
    var o0: int, o1: int, o2: int, o3: int := Octet(x, 0), Octet(x, 1), Octet(x, 2), Octet(x, 3);
    var w: int := o0 * 0x100_0000 + o1 * 0x1_0000 + o2 * 0x100 + o3;
    assert w == Swap32(x);
    assert Leading(x, 1) == o0 * 256 + o1;
    assert Leading(x, 2) == (o0 * 256 + o1) * 256 + o2;
    assert Leading(x, 3) == ((o0 * 256 + o1) * 256 + o2) * 256 + o3;
    if k == 0 {
      assert w / 0x100_0000 == o0;
    } else if k == 1 {
      assert w / 0x1_0000 == o0 * 256 + o1;
    } else if k == 2 {
      assert w / 0x100 == (o0 * 256 + o1) * 256 + o2;
    }
  }

  lemma LeadingNonNegative(x: u32, k: int)
    requires 0 <= k < 4
    ensures Leading(x, k) >= 0
  {
  }

  /** A bit of the dotted form is the corresponding bit of the host-order word. */
  lemma AddressBitInWord(x: u32, i: int)
    requires 0 <= i < 32
    ensures AddressBit(x, i) == Swap32(x) / Pow2(31 - i) % 2
  {
    var k, m := i / 8, 7 - i % 8;
    Pow2Add(24 - 8 * k, m);
    DivTwice(Swap32(x), Pow2(24 - 8 * k), Pow2(m));
    LeadingIsQuotient(x, k);
    assert Swap32(x) / Pow2(31 - i) == Leading(x, k) / Pow2(m);
    var high := if k == 0 then 0 else Leading(x, k - 1);
    assert Leading(x, k) == high * 256 + Octet(x, k);
    if k > 0 {
      LeadingNonNegative(x, k - 1);
    }
    LowByteBits(high, Octet(x, k), m);
  }

  /** The quotient by 2^n is the quotient by 2^(n+1) with one more bit. */
  lemma QuotientStep(w: nat, n: nat)
    ensures w / Pow2(n) == 2 * (w / Pow2(n + 1)) + w / Pow2(n) % 2
  {
    DivTwice(w, Pow2(n), 2);
    assert Pow2(n + 1) == Pow2(n) * 2;
  }

  lemma SharePrefixStep(a: u32, b: u32, mask: nat)
    requires 1 <= mask <= 32
    ensures SharePrefix(a, b, mask) <==>
            SharePrefix(a, b, mask - 1) && AddressBit(a, mask - 1) == AddressBit(b, mask - 1)
  {
  }

  lemma WordFits(x: u32)
    ensures Swap32(x) / Pow2(32) == 0
  {
    Pow2Values();
    Pow2Add(24, 8);
  }

  lemma {:induction false} QuotientsAgree(a: u32, b: u32, mask: nat)
    requires mask <= 32
    ensures SharePrefix(a, b, mask) <==> Swap32(a) / Pow2(32 - mask) == Swap32(b) / Pow2(32 - mask)
  {
    if mask == 0 {
      WordFits(a);
      WordFits(b);
    } else {
      QuotientsAgree(a, b, mask - 1);
      SharePrefixStep(a, b, mask);
      AddressBitInWord(a, mask - 1);
      AddressBitInWord(b, mask - 1);
      QuotientStep(Swap32(a), 32 - mask);
      QuotientStep(Swap32(b), 32 - mask);
      SameQuotient(Swap32(a) / Pow2(32 - mask), Swap32(b) / Pow2(32 - mask),
                   Swap32(a) / Pow2(33 - mask), Swap32(b) / Pow2(33 - mask));
    }
  }

  lemma SameQuotient(x: int, y: int, x2: int, y2: int)
    requires x == 2 * x2 + x % 2 && y == 2 * y2 + y % 2
    ensures x == y <==> x2 == y2 && x % 2 == y % 2
  {
  }

  /** The shift test decides exactly whether the addresses agree on the first `mask` bits. */
  lemma ShiftTestIsPrefixTest(a: u32, b: u32, mask: nat)
    requires 1 <= mask <= 32
    ensures ShiftedEqual(a, b, mask) <==> SharePrefix(a, b, mask)
  {
    QuotientsAgree(a, b, mask);
  }

  /** Agreement on all 32 bits is equality. */
  lemma FullPrefix(a: u32, b: u32)
    ensures SharePrefix(a, b, 32) <==> a == b
  {
    if SharePrefix(a, b, 32) {
      QuotientsAgree(a, b, 32);
      Swap32Injective(a, b);
    }
  }
}
