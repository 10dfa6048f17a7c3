/** The 64-bit xorshift generator of the witness schedule (libraries/chain/db_witness_schedule.cpp). */
module XorShift {
  import opened Arithmetic

  const MULTIPLIER := 2685821657736338717
  const HALF_WORD := 0x1_0000_0000

  /** The inverse of the multiplier among 64-bit words. */
  const INVERSE := 6415128727920758069

  /** Bitwise exclusive or. */
  function Xor(a: nat, b: nat): nat {
    if a == 0 && b == 0 then 0
    else 2 * Xor(a / 2, b / 2) + (a + b) % 2
  }

  /** What is shifted beyond 64 bits is lost. */
  function ShiftLeft(k: nat, bits: nat): nat {
    k * Pow2(bits) % Pow2(64)
  }

  /** A word and itself shifted, to the right or to the left. */
  function MixRight(k: nat, bits: nat): nat {
    Xor(k, ShiftRight(k, bits))
  }

  function MixLeft(k: nat, bits: nat): nat {
    Xor(k, ShiftLeft(k, bits))
  }

  /** One step of the generator. */
  function Step(k: nat): nat {
    MixRight(MixLeft(MixRight(k, 12), 25), 27) * MULTIPLIER % WORD64
  }

  /** Bit k of a number. */
  function Bit(a: nat, k: nat): bool {
    if k == 0 then a % 2 == 1 else Bit(a / 2, k - 1)
  }

  lemma {:induction false} XorHalves(a: nat, b: nat)
    ensures Xor(a, b) / 2 == Xor(a / 2, b / 2)
    ensures Xor(a, b) % 2 == 1 <==> (a % 2 == 1) != (b % 2 == 1)
  {
  }

  lemma {:induction false} LowestBit(a: nat)
    ensures Bit(a, 0) <==> a % 2 == 1
  {
  }

  lemma {:induction false} HigherBit(a: nat, k: nat)
    requires k > 0
    ensures Bit(a, k) == Bit(a / 2, k - 1)
  {
  }

  /** Bit by bit, the exclusive or is set exactly where one of the two is. */
  lemma {:induction false} XorIsBitwise(a: nat, b: nat, x: nat, k: nat)
    requires x == Xor(a, b)
    ensures Bit(x, k) <==> Bit(a, k) != Bit(b, k)
    decreases k
  {
    XorHalves(a, b);
    if k == 0 {
      LowestBit(a);
      LowestBit(b);
      LowestBit(x);
    } else {
      HigherBit(a, k);
      HigherBit(b, k);
      HigherBit(x, k);
      XorIsBitwise(a / 2, b / 2, x / 2, k - 1);
    }
  }

  lemma {:induction false} XorFits(a: nat, b: nat, n: nat)
    requires a < Pow2(n) && b < Pow2(n)
    ensures Xor(a, b) < Pow2(n)
  {
    if n > 0 {
      XorHalves(a, b);
      XorFits(a / 2, b / 2, n - 1);
    }
  }

  lemma {:induction false} NoHighBits(a: nat, n: nat, k: nat)
    requires a < Pow2(n) && n <= k
    ensures !Bit(a, k)
    decreases k
  {
    if k > 0 {
      NoHighBits(a / 2, if n > 0 then n - 1 else 0, k - 1);
    }
  }

  /** Numbers of n bits with the same bits are the same. */
  lemma {:induction false} SameBits(a: nat, b: nat, n: nat)
    requires a < Pow2(n) && b < Pow2(n) && forall k: nat | k < n :: Bit(a, k) == Bit(b, k)
    ensures a == b
    decreases n
  {
    if n > 0 {
      assert Bit(a, 0) == Bit(b, 0);
      forall k: nat | k < n - 1
        ensures Bit(a / 2, k) == Bit(b / 2, k)
      {
        assert Bit(a, k + 1) == Bit(b, k + 1);
      }
      SameBits(a / 2, b / 2, n - 1);
    }
  }

  lemma {:induction false} BitOfQuotient(a: nat, bits: nat, k: nat)
    ensures Bit(ShiftRight(a, bits), k) == Bit(a, k + bits)
    decreases bits
  {
    if bits > 0 {
      BitOfQuotient(a / 2, bits - 1, k);
    }
  }

  lemma {:induction false} ShiftRightFits(a: nat, bits: nat)
    ensures ShiftRight(a, bits) <= a
  {
    if bits > 0 {
      ShiftRightFits(a / 2, bits - 1);
    }
  }

  lemma {:induction false} BitOfProduct(a: nat, bits: nat, k: nat)
    ensures Bit(a * Pow2(bits), k) <==> k >= bits && Bit(a, k - bits)
    decreases bits
  {
    if bits > 0 {
      var p := a * Pow2(bits - 1);
      assert a * Pow2(bits) == 2 * p;
      if k > 0 {
        BitOfProduct(a, bits - 1, k - 1);
      }
    }
  }

  lemma {:induction false} BitOfRemainder(a: nat, n: nat, k: nat)
    ensures Bit(a % Pow2(n), k) <==> k < n && Bit(a, k)
    decreases n
  {
    if n == 0 {
      NoHighBits(0, 0, k);
    } else {
      RemainderHalves(a, Pow2(n - 1));
      if k > 0 {
        BitOfRemainder(a / 2, n - 1, k - 1);
      }
    }
  }

  lemma {:induction false} RemainderHalves(a: nat, d: nat)
    requires d > 0
    ensures a % (2 * d) / 2 == a / 2 % d && a % (2 * d) % 2 == a % 2
  {
    var h := a / 2;
    var q, r := h / d, h % d;
    assert h == q * d + r;
    assert q * (2 * d) == 2 * (q * d);
    DivUnique(a, q, 2 * d);
  }

  lemma {:induction false} MixRightBit(x: nat, bits: nat, k: nat)
    ensures Bit(MixRight(x, bits), k) <==> Bit(x, k) != Bit(x, k + bits)
  {
    XorIsBitwise(x, ShiftRight(x, bits), MixRight(x, bits), k);
    BitOfQuotient(x, bits, k);
  }

  lemma {:induction false} MixLeftBit(x: nat, bits: nat, k: nat)
    requires k < 64
    ensures Bit(MixLeft(x, bits), k) <==> Bit(x, k) != (k >= bits && Bit(x, k - bits))
  {
    XorIsBitwise(x, ShiftLeft(x, bits), MixLeft(x, bits), k);
    BitOfRemainder(x * Pow2(bits), 64, k);
    BitOfProduct(x, bits, k);
  }

  /** From the highest bit down: words that mix to the same word are the same. */
  lemma {:induction false} RightBits(x: nat, y: nat, bits: nat, k: nat)
    requires x < Pow2(64) && y < Pow2(64) && bits > 0 && MixRight(x, bits) == MixRight(y, bits)
    ensures Bit(x, k) == Bit(y, k)
    decreases if k < 64 then 64 - k else 0
  {
    if k < 64 {
      MixRightBit(x, bits, k);
      MixRightBit(y, bits, k);
      RightBits(x, y, bits, k + bits);
    } else {
      NoHighBits(x, 64, k);
      NoHighBits(y, 64, k);
    }
  }

  /** From the lowest bit up. */
  lemma {:induction false} LeftBits(x: nat, y: nat, bits: nat, k: nat)
    requires bits > 0 && k < 64 && MixLeft(x, bits) == MixLeft(y, bits)
    ensures Bit(x, k) == Bit(y, k)
    decreases k
  {
    MixLeftBit(x, bits, k);
    MixLeftBit(y, bits, k);
    if k >= bits {
      LeftBits(x, y, bits, k - bits);
    }
  }

  lemma {:induction false} MixRightIsInjective(x: nat, y: nat, bits: nat)
    requires x < Pow2(64) && y < Pow2(64) && bits > 0 && MixRight(x, bits) == MixRight(y, bits)
    ensures x == y
  {
    forall k: nat | k < 64
      ensures Bit(x, k) == Bit(y, k)
    {
      RightBits(x, y, bits, k);
    }
    SameBits(x, y, 64);
  }

  lemma {:induction false} MixLeftIsInjective(x: nat, y: nat, bits: nat)
    requires x < Pow2(64) && y < Pow2(64) && bits > 0 && MixLeft(x, bits) == MixLeft(y, bits)
    ensures x == y
  {
    forall k: nat | k < 64
      ensures Bit(x, k) == Bit(y, k)
    {
      LeftBits(x, y, bits, k);
    }
    SameBits(x, y, 64);
  }

  lemma {:induction false} MixFits(x: nat, bits: nat)
    requires x < Pow2(64)
    ensures MixRight(x, bits) < Pow2(64) && MixLeft(x, bits) < Pow2(64)
  {
    ShiftRightFits(x, bits);
    XorFits(x, ShiftRight(x, bits), 64);
    XorFits(x, ShiftLeft(x, bits), 64);
  }

  lemma {:induction false} WordIsPower()
    ensures Pow2(64) == WORD64
  {
    assert Pow2(8) == 256;
    assert Pow2(16) == 65536 by {
      assert Pow2(12) == 4096;
    }
    PowersAdd(16, 16);
    PowersAdd(32, 32);
  }

  lemma {:induction false} PowersAdd(a: nat, b: nat)
    ensures Pow2(a + b) == Pow2(a) * Pow2(b)
  {
    if a > 0 {
      PowersAdd(a - 1, b);
    }
  }

  /** The multiplication can be undone. */
  lemma {:induction false} MultiplierInverts(x: nat)
    requires x < WORD64
    ensures x * MULTIPLIER % WORD64 * INVERSE % WORD64 == x
  {
    var a, r := x * MULTIPLIER / WORD64, x * MULTIPLIER % WORD64;
    assert x * MULTIPLIER == a * WORD64 + r;
    Unwrap(x, a, r);
    DivUnique(r * INVERSE, x * 934034299265436267 - a * INVERSE, WORD64);
  }

  lemma {:induction false} Unwrap(x: nat, a: nat, r: nat)
    requires x * MULTIPLIER == a * WORD64 + r
    ensures r * INVERSE == (x * 934034299265436267 - a * INVERSE) * WORD64 + x
  {
  }

  /** The generator loses nothing: different seeds give different draws. */
  lemma {:induction false} StepIsInjective(x: nat, y: nat)
    requires x < WORD64 && y < WORD64 && Step(x) == Step(y)
    ensures x == y
  {
    WordIsPower();
    var x1, y1 := MixRight(x, 12), MixRight(y, 12);
    MixFits(x, 12);
    MixFits(y, 12);
    var x2, y2 := MixLeft(x1, 25), MixLeft(y1, 25);
    MixFits(x1, 25);
    MixFits(y1, 25);
    var x3, y3 := MixRight(x2, 27), MixRight(y2, 27);
    MixFits(x2, 27);
    MixFits(y2, 27);
    MultiplierInverts(x3);
    MultiplierInverts(y3);
    MixRightIsInjective(x2, y2, 27);
    MixLeftIsInjective(x1, y1, 25);
    MixRightIsInjective(x, y, 12);
  }

  /** Words that are the same up to a multiple of 2^64 are the same. */
  lemma {:induction false} SameSeed(base: nat, i: nat, j: nat)
    requires i < WORD64 && j < WORD64
    requires (base + i * MULTIPLIER) % WORD64 == (base + j * MULTIPLIER) % WORD64
    ensures i == j
  {
    SameDifference(base, i * MULTIPLIER, j * MULTIPLIER, WORD64);
    MultiplierInverts(i);
    MultiplierInverts(j);
  }

  lemma {:induction false} SameTime(t: nat, u: nat, offset: nat)
    requires t < HALF_WORD && u < HALF_WORD
    requires (t * HALF_WORD + offset) % WORD64 == (u * HALF_WORD + offset) % WORD64
    ensures t == u
  {
    SameDifference(offset, t * HALF_WORD, u * HALF_WORD, WORD64);
  }

  lemma {:induction false} SameDifference(base: nat, x: nat, y: nat, d: nat)
    requires d > 0 && (base + x) % d == (base + y) % d
    ensures x % d == y % d
  {
    var p, q := (base + x) / d, (base + y) / d;
    assert base + x == p * d + (base + x) % d && base + y == q * d + (base + y) % d;
    Distribute(p, q, d);
    var a := x / d;
    assert x == a * d + x % d;
    Distribute(a, p - q, d);
    DivUnique(y, a - (p - q), d);
  }
}
