/** The receive-context bit count and the addresses built from it. */
module Address {
  import opened Bits

  const WORD: nat := 0x1_0000_0000_0000_0000
  const INT_LIMIT: int := 0x8000_0000

  /** C's arithmetic right shift of an int. */
  function ShiftRight(c: int, k: nat): int {
    c / Pow2(k)
  }

  // ------------------------------------------------------------ bit counts

  /** r is the least number of bits, but at least one, that can hold c. */
  ghost predicate IsBitCount(c: int, r: nat) {
    && r >= 1
    && c < Pow2(r)
    && (r > 1 ==> Pow2(r - 1) <= c)
  }

  function BitCount(c: nat): (r: nat)
    ensures IsBitCount(c, r)
  {
    if c < 2 then
      1
    else
      var r := BitCount(c / 2);
      assert r > 1 ==> Pow2(r) == 2 * Pow2(r - 1);
      r + 1
  }

  lemma BitCountUnique(c: int, r: nat, r': nat)
    requires IsBitCount(c, r) && IsBitCount(c, r')
    ensures r == r'
  {
    if r < r' {
      Pow2Grows(r, r' - 1);
    } else if r' < r {
      Pow2Grows(r', r - 1);
    }
  }

  lemma BitCountBelow32(c: nat)
    requires c < INT_LIMIT
    ensures BitCount(c) <= 31
  {
    Pow2Values();
    if BitCount(c) > 31 {
      Pow2Grows(31, BitCount(c) - 1);
    }
  }

  lemma ShiftedOut(c: nat, k: nat)
    ensures ShiftRight(c, k) == 0 <==> c < Pow2(k)
  {
    QuotientZero(c, Pow2(k));
  }

  lemma ShiftStopsAtBitCount(c: nat, k: nat)
    requires k >= 1 || c >= 1
    ensures ShiftRight(c, k) == 0 <==> k >= BitCount(c)
  {
    ShiftedOut(c, k);
    if k >= BitCount(c) {
      Pow2Grows(BitCount(c), k);
    } else if k >= 1 {
      Pow2Grows(k, BitCount(c) - 1);
    }
  }

  /** The reference loop: increment first, then test the shifted count. Every
      shift amount stays below the width of an int. */
  method CountContextBits(ctxCnt: int) returns (bits: nat)
    requires 0 <= ctxCnt < INT_LIMIT
    ensures IsBitCount(ctxCnt, bits)
    ensures bits <= 31
  {
    BitCountBelow32(ctxCnt);
    bits := 1;
    ShiftStopsAtBitCount(ctxCnt, bits);
    while ShiftRight(ctxCnt, bits) != 0
      invariant 1 <= bits <= BitCount(ctxCnt) <= 31
      invariant ShiftRight(ctxCnt, bits) == 0 <==> bits == BitCount(ctxCnt)
      decreases BitCount(ctxCnt) - bits
    {
      bits := bits + 1;
      ShiftStopsAtBitCount(ctxCnt, bits);
    }
  }

  lemma NonPositiveShift(c: int, r: nat)
    requires c <= 0
    ensures ShiftRight(c, r) <= 0
  {
  }

  lemma ShiftPositive(c: int, r: nat)
    requires ShiftRight(c, r) > 0
    ensures c > 0 && r < BitCount(c)
  {
    if c <= 0 {
      NonPositiveShift(c, r);
    } else {
      ShiftStopsAtBitCount(c, r);
    }
  }

  /** The port's version tests before it increments. */
  function CtxShiftR(c: int, r: nat): int
    decreases if c > 0 then BitCount(c) - r else 0
  {
    if ShiftRight(c, r) <= 0 then
      r + 1
    else
      assert c > 0 && r < BitCount(c) by { ShiftPositive(c, r); }
      CtxShiftR(c, r + 1)
  }

  lemma {:induction false} CtxShiftRFrom(c: int, r: nat)
    requires 0 < c && r <= BitCount(c)
    ensures CtxShiftR(c, r) == BitCount(c) + 1
    decreases BitCount(c) - r
  {
    ShiftStopsAtBitCount(c, r);
    if r < BitCount(c) {
      assert ShiftRight(c, r) >= 0;
      CtxShiftRFrom(c, r + 1);
    }
  }

  /** The port asks for one bit more than the reference, except for a count of
      zero; the answer still fits a shift of a 32-bit int by less than 33, and
      covers every index below the count. */
  lemma PortBitCount(c: int)
    requires -INT_LIMIT <= c < INT_LIMIT
    ensures c >= 1 ==> CtxShiftR(c, 0) == BitCount(c) + 1
    ensures c == 0 ==> CtxShiftR(c, 0) == BitCount(c)
    ensures c < 0 ==> CtxShiftR(c, 0) == 1
    ensures 1 <= CtxShiftR(c, 0) <= 32
    ensures c < Pow2(CtxShiftR(c, 0))
  {
    if c >= 1 {
      CtxShiftRFrom(c, 0);
      BitCountBelow32(c);
      Pow2Grows(BitCount(c), BitCount(c) + 1);
    } else {
      NonPositiveShift(c, 0);
    }
  }

  // ------------------------------------------------------------ addresses

  /** fi_rx_addr: the index goes into the top bits of a 64-bit address. */
  function FiRxAddr(fiAddr: nat, rxIndex: int, bits: nat): nat
    requires 1 <= bits <= 64
  {
    BitOr((rxIndex % WORD) * Pow2(64 - bits) % WORD, fiAddr)
  }

  /** What the transport reads back from an address. */
  function IndexOf(addr: nat, bits: nat): nat
    requires bits <= 64
  {
    QuotientZero(addr, Pow2(64 - bits));
    addr / Pow2(64 - bits)
  }

  function BaseOf(addr: nat, bits: nat): nat
    requires bits <= 64
  {
    addr % Pow2(64 - bits)
  }

  lemma IntMod(i: int, d: nat, v: int, u: nat)
    requires d > 0 && u < d && i == d * v + u
    ensures i % d == u
  {
    var z := i / d - v;
    assert i == d * (i / d) + i % d;
    assert z * d == d * (i / d) - d * v;
    if z != 0 {
      MultipleAtLeast(z, d);
    }
  }

  /** Reducing modulo a multiple of d first does not change the remainder by d. */
  lemma ModOfMod(i: int, g: nat, d: nat)
    requires g > 0 && d > 0 && g * d > 0
    ensures (i % (g * d)) % d == i % d
  {
    var m := g * d;
    var q, r := i / m, i % m;
    assert i == m * q + r;
    assert m * q == (g * q) * d;
    var t, u := r / d, r % d;
    assert r == d * t + u;
    var v := g * q + t;
    assert i == d * v + u by {
      assert d * v == (g * q) * d + d * t;
    }
    IntMod(i, d, v, u);
  }

  /** For every index, negative ones included: it is reduced modulo 2^bits. */
  lemma RxAddrSum(base: nat, i: int, bits: nat)
    requires 1 <= bits <= 64 && -INT_LIMIT <= i < INT_LIMIT && base < Pow2(64 - bits)
    ensures FiRxAddr(base, i, bits) == (i % Pow2(bits)) * Pow2(64 - bits) + base
  {
    var k := 64 - bits;
    Pow2Values();
    ShiftWraps(i % WORD, k, 64);
    assert 64 - k == bits;
    Pow2Add(k, bits);
    ModOfMod(i, Pow2(k), Pow2(bits));
    BitOrDisjoint(i % Pow2(bits), k, base);
  }

  /** For every base and index: bit k of the address is bit k of the base, or that
      bit of the index which was shifted there. */
  lemma RxAddrBits(base: nat, i: int, bits: nat, k: nat)
    requires 1 <= bits <= 64
    ensures Bit(FiRxAddr(base, i, bits), k) <==>
            Bit(base, k) || (64 - bits <= k < 64 && Bit(i % WORD, k - (64 - bits)))
  {
    var shifted := (i % WORD) * Pow2(64 - bits);
    Pow2Values();
    BitOrBits(shifted % WORD, base, k);
    LowBits(shifted, 64, k);
    ShiftedBits(i % WORD, 64 - bits, k);
  }

  lemma Unpack(base: nat, i: int, bits: nat)
    requires 1 <= bits <= 64 && -INT_LIMIT <= i < INT_LIMIT && base < Pow2(64 - bits)
    ensures BaseOf(FiRxAddr(base, i, bits), bits) == base
    ensures IndexOf(FiRxAddr(base, i, bits), bits) == i % Pow2(bits)
  {
    RxAddrSum(base, i, bits);
    DivModSplit(i % Pow2(bits), Pow2(64 - bits), base);
  }

  lemma SmallMod(x: nat, m: nat)
    requires x < m
    ensures x % m == x
  {
  }

  lemma BelowProduct(i: nat, p: nat, d: nat, base: nat)
    requires i < p && base < d
    ensures i * d + base < p * d
  {
    var g := p - i;
    MultipleAtLeast(g, d);
    assert p * d == i * d + g * d;
  }

  /** Shift and mask recover both parts of an address. */
  lemma RxAddrRoundTrip(base: nat, i: nat, bits: nat)
    requires 1 <= bits <= 31 && base < Pow2(64 - bits) && i < Pow2(bits)
    ensures IndexOf(FiRxAddr(base, i, bits), bits) == i
    ensures BaseOf(FiRxAddr(base, i, bits), bits) == base
    ensures FiRxAddr(base, i, bits) < WORD
  {
    Pow2Values();
    Pow2Grows(bits, 31);
    Unpack(base, i, bits);
    SmallMod(i, Pow2(bits));
    RxAddrSum(base, i, bits);
    Pow2Add(bits, 64 - bits);
    assert bits + (64 - bits) == 64;
    BelowProduct(i, Pow2(bits), Pow2(64 - bits), base);
  }

  /** Distinct (base, index) pairs get distinct addresses. */
  lemma RxAddrInjective(base: nat, i: nat, base': nat, i': nat, bits: nat)
    requires 1 <= bits <= 31
    requires base < Pow2(64 - bits) && base' < Pow2(64 - bits)
    requires i < Pow2(bits) && i' < Pow2(bits)
    ensures FiRxAddr(base, i, bits) == FiRxAddr(base', i', bits) <==> base == base' && i == i'
  {
    RxAddrRoundTrip(base, i, bits);
    RxAddrRoundTrip(base', i', bits);
  }

  /** Index 0, and no other, addresses the endpoint itself. */
  lemma RxAddrIsBase(base: nat, i: nat, bits: nat)
    requires 1 <= bits <= 31 && base < Pow2(64 - bits) && i < Pow2(bits)
    ensures FiRxAddr(base, i, bits) == base <==> i == 0
  {
    RxAddrRoundTrip(base, i, bits);
    RxAddrRoundTrip(base, 0, bits);
    RxAddrSum(base, 0, bits);
    assert 0 % Pow2(bits) == 0;
  }

  ghost predicate AllDistinct(base: nat, cnt: nat, bits: nat)
    requires 1 <= bits <= 64
  {
    forall i: nat, j: nat :: i < j < cnt ==> FiRxAddr(base, i, bits) != FiRxAddr(base, j, bits)
  }

  /** The bit count is enough for cnt contexts exactly when cnt <= 2^bits. */
  lemma DistinctIffEnoughBits(base: nat, cnt: nat, bits: nat)
    requires 1 <= bits <= 31 && base < Pow2(64 - bits) && cnt < INT_LIMIT
    ensures AllDistinct(base, cnt, bits) <==> cnt <= Pow2(bits)
  {
    var p := Pow2(bits);
    Pow2Values();
    Pow2Grows(bits, 31);
    if cnt <= p {
      forall i: nat, j: nat | i < j < cnt
        ensures FiRxAddr(base, i, bits) != FiRxAddr(base, j, bits)
      {
        RxAddrInjective(base, i, base, j, bits);
      }
    } else {
      RxAddrSum(base, 0, bits);
      RxAddrSum(base, p, bits);
      assert p % p == 0 && 0 % p == 0;
      assert 0 < p < cnt;
    }
  }

  /** The reference's bit count keeps the addresses of all contexts apart. */
  lemma ContextsDistinct(base: nat, ctxCnt: nat)
    requires 1 <= ctxCnt < INT_LIMIT
    requires BitCount(ctxCnt) <= 64 ==> base < Pow2(64 - BitCount(ctxCnt))
    ensures 1 <= BitCount(ctxCnt) <= 31
    ensures AllDistinct(base, ctxCnt, BitCount(ctxCnt))
  {
    BitCountBelow32(ctxCnt);
    DistinctIffEnoughBits(base, ctxCnt, BitCount(ctxCnt));
  }

  function RxAddrs(remote: nat, cnt: nat, bits: nat): seq<nat>
    requires 1 <= bits <= 64
  {
    seq(cnt, i => FiRxAddr(remote, i, bits))
  }

  /** The loop at the end of the address exchange. */
  method FillRxAddrs(addrs: array<nat>, remote: nat, bits: nat)
    requires 1 <= bits <= 64
    modifies addrs
    ensures addrs[..] == RxAddrs(remote, addrs.Length, bits)
  {
    var i := 0;
    while i < addrs.Length
      invariant 0 <= i <= addrs.Length
      invariant forall k :: 0 <= k < i ==> addrs[k] == FiRxAddr(remote, k, bits)
    {
      addrs[i] := FiRxAddr(remote, i, bits);
      i := i + 1;
    }
  }
}
