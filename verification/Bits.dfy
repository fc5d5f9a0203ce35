/** Powers of two, and bitwise OR on natural numbers, as far as the packing of
    receive-context addresses needs them. */
module Bits {

  function Pow2(k: nat): (p: nat)
    ensures p > 0
  {
    if k == 0 then 1 else 2 * Pow2(k - 1)
  }

  lemma {:induction false} Pow2Add(j: nat, k: nat)
    ensures Pow2(j + k) == Pow2(j) * Pow2(k)
  {
    if k > 0 {
      Pow2Add(j, k - 1);
      assert j + k - 1 == j + (k - 1);
    }
  }

  lemma {:induction false} Pow2Grows(j: nat, k: nat)
    requires j <= k
    ensures Pow2(j) <= Pow2(k)
    decreases k
  {
    if j < k {
      Pow2Grows(j, k - 1);
    }
  }

  lemma Pow2Values()
    ensures Pow2(31) == 0x8000_0000
    ensures Pow2(64) == 0x1_0000_0000_0000_0000
  {
    assert Pow2(8) == 256 by {
      assert Pow2(4) == 16;
      Pow2Add(4, 4);
    }
    Pow2Add(8, 7);
    assert Pow2(7) == 128 by { assert Pow2(8) == 2 * Pow2(7); }
    Pow2Add(8, 8);
    Pow2Add(16, 15);
    Pow2Add(16, 16);
    Pow2Add(32, 32);
  }

  /** Bitwise OR, digit by digit. */
  function BitOr(a: nat, b: nat): nat
  {
    if a == 0 then b
    else if b == 0 then a
    else 2 * BitOr(a / 2, b / 2) + (if a % 2 == 1 || b % 2 == 1 then 1 else 0)
  }

  /** OR of a number whose low k bits are clear with one that has only those
      bits is their sum: no two set bits meet. */
  lemma {:induction false} BitOrDisjoint(x: nat, k: nat, y: nat)
    requires y < Pow2(k)
    ensures BitOr(x * Pow2(k), y) == x * Pow2(k) + y
  {
    if k > 0 && x > 0 && y > 0 {
      var half := x * Pow2(k - 1);
      assert x * Pow2(k) == 2 * half by {
        assert Pow2(k) == 2 * Pow2(k - 1);
      }
      assert (2 * half) / 2 == half && (2 * half) % 2 == 0;
      assert half > 0;
      assert y / 2 < Pow2(k - 1);
      BitOrDisjoint(x, k - 1, y / 2);
    } else if x == 0 {
      assert x * Pow2(k) == 0;
    } else if k == 0 {
      assert y == 0;
    }
  }

  /** A nonzero multiple of d is at least d away from zero. */
  lemma MultipleAtLeast(z: int, d: int)
    requires d > 0 && z != 0
    ensures z * d >= d || z * d <= -d
  {
    if z > 0 {
      assert (z - 1) * d >= 0;
      assert z * d == (z - 1) * d + d;
    } else {
      assert (-1 - z) * d >= 0;
      assert z * d == -((-1 - z) * d) - d;
    }
  }

  /** The quotient and remainder of x * d + y by d, for a remainder below d. */
  lemma DivModSplit(x: nat, d: nat, y: nat)
    requires y < d
    ensures (x * d + y) / d == x && (x * d + y) % d == y
  {
    var v := x * d + y;
    var q := v / d;
    assert v == d * q + v % d;
    var z := q - x;
    assert z * d == d * q - x * d;
    if z != 0 {
      MultipleAtLeast(z, d);
    }
  }

  /** Division of natural numbers, as far as quotients are compared with zero. */
  lemma QuotientZero(c: nat, p: nat)
    requires p > 0
    ensures c / p >= 0
    ensures c / p == 0 <==> c < p
  {
    var q := c / p;
    assert c == p * q + c % p;
    assert p * q == q * p;
    if q != 0 {
      MultipleAtLeast(q, p);
    }
  }

  lemma Distribute(q: nat, d: nat, r: nat, p: nat)
    ensures (d * q + r) * p == q * (d * p) + r * p
  {
    assert (d * q + r) * p == (d * q) * p + r * p;
    assert (d * q) * p == q * (d * p);
  }

  lemma ShiftWrapsBy(x: nat, d: nat, p: nat)
    requires d > 0 && p > 0 && d * p > 0
    ensures (x * p) % (d * p) == (x % d) * p
  {
    var q, r := x / d, x % d;
    var m, rp := d * p, r * p;
    assert x == d * q + r;
    assert x * p == q * m + rp by {
      Distribute(q, d, r, p);
    }
    assert 0 <= rp < m by {
      var g := d - r;
      assert g * p > 0;
      assert m == g * p + rp;
    }
    DivModSplit(q, m, rp);
  }

  /** Left shift in a word of w bits keeps the low w - k bits of the number. */
  lemma ShiftWraps(x: nat, k: nat, w: nat)
    requires k <= w
    ensures (x * Pow2(k)) % Pow2(w) == (x % Pow2(w - k)) * Pow2(k)
  {
    var d, p := Pow2(w - k), Pow2(k);
    Pow2Add(w - k, k);
    assert Pow2(w) == d * p;
    ShiftWrapsBy(x, d, p);
  }

  // ------------------------------------------------------------- single bits

  /** Bit k of x, counted from the low end. */
  predicate Bit(x: nat, k: nat) {
    if k == 0 then x % 2 == 1 else Bit(x / 2, k - 1)
  }

  lemma {:induction false} NoBits(k: nat)
    ensures !Bit(0, k)
  {
    if k > 0 {
      NoBits(k - 1);
    }
  }

  lemma {:induction false} BitOrBits(a: nat, b: nat, k: nat)
    ensures Bit(BitOr(a, b), k) <==> Bit(a, k) || Bit(b, k)
    decreases k
  {
    NoBits(k);
    if a > 0 && b > 0 {
      var low := if a % 2 == 1 || b % 2 == 1 then 1 else 0;
      var high := BitOr(a / 2, b / 2);
      assert BitOr(a, b) == 2 * high + low;
      assert (2 * high + low) / 2 == high && (2 * high + low) % 2 == low;
      if k > 0 {
        BitOrBits(a / 2, b / 2, k - 1);
      }
    }
  }

  /** A left shift moves the bits up. */
  lemma {:induction false} ShiftedBits(x: nat, j: nat, k: nat)
    ensures Bit(x * Pow2(j), k) <==> k >= j && Bit(x, k - j)
  {
    if j > 0 {
      var half := x * Pow2(j - 1);
      assert x * Pow2(j) == 2 * half by {
        assert Pow2(j) == 2 * Pow2(j - 1);
      }
      assert (2 * half) / 2 == half && (2 * half) % 2 == 0;
      if k > 0 {
        ShiftedBits(x, j - 1, k - 1);
      }
    }
  }

  lemma HalfMod(x: nat, p: nat)
    requires p > 0
    ensures (x % (2 * p)) / 2 == (x / 2) % p && (x % (2 * p)) % 2 == x % 2
  {
    var h, low := x / 2, x % 2;
    var q, r := h / p, h % p;
    assert h == p * q + r;
    var y := 2 * r + low;
    var m := 2 * p;
    assert x == q * m + y by {
      Distribute(q, 2, 0, p);
      assert 2 * (p * q) == q * (2 * p);
    }
    DivModSplit(q, m, y);
  }

  /** A word of w bits keeps the low w bits. */
  lemma {:induction false} LowBits(x: nat, w: nat, k: nat)
    ensures Bit(x % Pow2(w), k) <==> k < w && Bit(x, k)
    decreases w
  {
    if w == 0 {
      NoBits(k);
    } else {
      HalfMod(x, Pow2(w - 1));
      if k > 0 {
        LowBits(x / 2, w - 1, k - 1);
      }
    }
  }
}
