/** Arithmetic that the other modules share. */
module Arithmetic {
  const WORD64 := 0x1_0000_0000_0000_0000

  function Min(a: int, b: int): (r: int)
    ensures a >= 0 && b >= 0 ==> r >= 0
  {
    if a < b then a else b
  }

  function Max(a: int, b: int): (r: int)
    ensures a >= 0 || b >= 0 ==> r >= 0
  {
    if a < b then b else a
  }

  function Pow2(k: nat): (r: nat)
    ensures r > 0
  {
    if k == 0 then 1 else 2 * Pow2(k - 1)
  }

  /** A number without its low bits. */
  function ShiftRight(n: nat, bits: nat): nat {
    if bits == 0 then n else ShiftRight(n / 2, bits - 1)
  }

  lemma {:induction false} MulLe(x: int, y: int, d: nat)
    requires x <= y
    ensures x * d <= y * d
  {
  }

  lemma {:induction false} Distribute(x: int, y: int, d: int)
    ensures (x + y) * d == x * d + y * d
    ensures (x - y) * d == x * d - y * d
  {
  }

  lemma {:induction false} DivBounds(a: nat, d: nat)
    requires d > 0
    ensures a / d * d <= a < a / d * d + d
  {
  }

  lemma {:induction false} DivUnique(a: int, q: int, d: nat)
    requires d > 0 && q * d <= a < q * d + d
    ensures a / d == q && a % d == a - q * d
  {
    var r := a / d;
    assert a == r * d + a % d;
    if r < q {
      Distribute(r, 1, d);
      MulLe(r + 1, q, d);
    } else if r > q {
      Distribute(q, 1, d);
      MulLe(q + 1, r, d);
    }
  }

  lemma {:induction false} SameRemainder(a: nat, b: nat, n: nat)
    requires n > 0 && a < b < a + n
    ensures a % n != b % n
  {
    var x, y := a / n, b / n;
    assert a == x * n + a % n && b == y * n + b % n;
    Distribute(y, x, n);
    if y <= x {
      MulLe(y, x, n);
    } else {
      MulLe(x + 1, y, n);
      Distribute(x, 1, n);
    }
  }
}
