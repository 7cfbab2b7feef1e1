/** The integer square root of the train code (trains/trainMath.h), Newton's iteration on
    32-bit unsigned words. */
module IntSqrt {
  const U32_RANGE := 0x1_0000_0000

  /** The largest number whose square does not exceed `i`. */
  ghost function Root(i: nat): (s: nat)
    ensures s * s <= i < (s + 1) * (s + 1)
  {
    if i == 0 then 0
    else
      var r := Root(i - 1);
      if (r + 1) * (r + 1) <= i then r + 1 else r
  }

  ghost predicate IsSquare(n: nat) {
    exists m: nat :: m * m == n
  }

  /** One Newton step, with the addition in U32. */
  function Next(i: nat, k: nat): nat
    requires k > 0
  {
    (k + i / k) % U32_RANGE / 2
  }

  // ---------------------------------------------------------------- arithmetic

  lemma Times(a: nat, b: nat, c: nat)
    requires a <= b
    ensures c * a <= c * b
  {
  }

  lemma Quotient(i: nat, k: nat)
    requires k > 0
    ensures k * (i / k) <= i < k * (i / k) + k
  {
  }

  /** A quotient of i by k is at least q exactly when i is at least k * q. */
  lemma QuotientAtLeast(i: nat, k: nat, q: nat)
    requires k > 0
    ensures i / k >= q <==> i >= k * q
  {
    Quotient(i, k);
    if i / k >= q {
      Times(q, i / k, k);
    } else {
      Times(i / k + 1, q, k);
    }
  }

  lemma NoWrap(i: nat, k: nat)
    requires 0 < k <= i < U32_RANGE - 1
    ensures k + i / k <= i + 1 && Next(i, k) == (k + i / k) / 2 && Next(i, k) <= i
  {
    Quotient(i, k);
    var q := i / k;
    QuotientAtLeast(i, k, 1);
    Times(1, q, k - 1);
    assert (k - 1) * q == k * q - q;
  }

  /** Where the iteration stands still. */
  lemma FixedExactly(i: nat, k: nat)
    requires 0 < k <= i < U32_RANGE - 1
    ensures Next(i, k) == k <==> k * k <= i < k * k + 2 * k
  {
    NoWrap(i, k);
    QuotientAtLeast(i, k, k);
    QuotientAtLeast(i, k, k + 2);
    assert k * (k + 2) == k * k + 2 * k;
  }

  lemma SquareMonotone(a: nat, b: nat)
    requires a <= b
    ensures a * a <= b * b
  {
    Times(a, b, a);
    Times(a, b, b);
  }

  lemma ProductBelowSquare(s: int, d: int)
    ensures (s + d) * (s - d) <= s * s
  {
    assert d * d >= 0;
    assert (s + d) * (s - d) == s * s - d * d;
  }

  /** Two factors that add up to less than twice a side give at most its square. */
  lemma NarrowFactors(s: nat, k: nat, q: nat)
    requires k + q < 2 * s
    ensures k * (q + 1) <= s * s
  {
    Times(q + 1, 2 * s - k, k);
    ProductBelowSquare(s, k - s);
  }

  /** Above the root the iterates fall, and never below the root. */
  lemma Descends(i: nat, k: nat)
    requires Root(i) < k <= i < U32_RANGE - 1
    ensures Root(i) <= Next(i, k) < k
  {
    hide Root, Next;
    var s, q := Root(i), i / k;
    NoWrap(i, k);
    Quotient(i, k);
    SquareMonotone(s + 1, k);
    QuotientAtLeast(i, k, k);
    Spread(k, q);
    if k + q < 2 * s {
      NarrowFactors(s, k, q);
    }
  }

  lemma Spread(k: nat, q: nat)
    ensures k * (q + 1) == k * q + k
  {
  }

  lemma RootIsPositive(i: nat)
    requires i >= 1
    ensures 1 <= Root(i) <= i
  {
    var s := Root(i);
    Times(1, s, s);
  }

  lemma NoSquareBetween(s: nat, k: nat)
    ensures !(k * k < (s + 1) * (s + 1) <= k * k + 2 * k)
  {
    if k <= s {
      SquareMonotone(k + 1, s + 1);
      assert (k + 1) * (k + 1) == k * k + 2 * k + 1;
    } else {
      SquareMonotone(s + 1, k);
    }
  }

  /** Just above a square the next number is not one, and conversely. */
  lemma NextToSquare(i: nat)
    ensures IsSquare(i + 1) <==> i + 1 == (Root(i) + 1) * (Root(i) + 1)
  {
    var s := Root(i);
    if IsSquare(i + 1) {
      var m: nat :| m * m == i + 1;
      if m <= s {
        SquareMonotone(m, s);
      } else {
        SquareMonotone(s + 1, m);
      }
    }
  }

  // ---------------------------------------------------------------- the loop

  function AsS32(d: int): int {
    var w := d % U32_RANGE;
    if w < U32_RANGE / 2 then w else w - U32_RANGE
  }

  /** One step of the loop stays at or above the root, and stands still only there. */
  lemma OneStep(i: nat, k: nat)
    requires 1 <= Root(i) <= k <= i < U32_RANGE - 1 && !IsSquare(i + 1)
    ensures Root(i) <= Next(i, k) <= k && (Next(i, k) == k <==> k == Root(i))
  {
    hide Root, Next, IsSquare;
    NextToSquare(i);
    FixedExactly(i, k);
    if k > Root(i) {
      Descends(i, k);
    }
  }

  /** intSqrt: it returns the root for every word whose successor is no square. */
  method Compute(i: nat) returns (k: nat)
    requires i < U32_RANGE && !IsSquare(i + 1)
    ensures k == Root(i)
    ensures k * k <= i < (k + 1) * (k + 1)
  {
    hide Root, IsSquare;
    k := i;
    Boundary();
    RootIsPositive(i);
    while true
      invariant Root(i) <= k <= i
      decreases k
    {
      var temp := k;
      OneStep(i, k);
      k := (k + i / k) % U32_RANGE / 2;
      var delta := AsS32(k - temp);
      if delta < 1 && delta > -1 {
        break;
      }
    }
  }

  /** 0 and the largest word are below squares. */
  lemma Boundary()
    ensures IsSquare(0 + 1) && IsSquare(U32_RANGE - 1 + 1)
  {
    assert 1 * 1 == 0 + 1 && 0x1_0000 * 0x1_0000 == U32_RANGE - 1 + 1;
  }

  // ---------------------------------------------------------------- exactly when it returns

  /** The n-th iterate; 0 stands for a division by zero from then on. */
  function Iterate(i: nat, n: nat): nat {
    if n == 0 then i
    else if Iterate(i, n - 1) == 0 then 0
    else Next(i, Iterate(i, n - 1))
  }

  /** The loop stops after step n + 1. */
  ghost predicate StopsAt(i: nat, n: nat) {
    Iterate(i, n) > 0 && Iterate(i, n + 1) == Iterate(i, n)
  }

  ghost predicate Returns(i: nat) {
    exists n :: StopsAt(i, n)
  }

  lemma {:induction false} IterateBounded(i: nat, n: nat)
    requires i < U32_RANGE - 1
    ensures Iterate(i, n) <= i
  {
    if n > 0 {
      IterateBounded(i, n - 1);
      if Iterate(i, n - 1) > 0 {
        NoWrap(i, Iterate(i, n - 1));
      }
    }
  }

  lemma {:induction false} WrapsToZero(n: nat)
    ensures n > 0 ==> Iterate(U32_RANGE - 1, n) == 0
  {
    if n > 1 {
      WrapsToZero(n - 1);
    } else if n == 1 {
      assert Iterate(U32_RANGE - 1, 0) == U32_RANGE - 1;
    }
  }

  /** From an iterate at or above the root the loop comes to a stop. */
  lemma {:induction false} ComesToStop(i: nat, n: nat)
    requires 1 <= i < U32_RANGE - 1 && !IsSquare(i + 1) && Root(i) <= Iterate(i, n)
    ensures Returns(i)
    decreases Iterate(i, n)
  {
    var k := Iterate(i, n);
    RootIsPositive(i);
    NextToSquare(i);
    IterateBounded(i, n);
    assert Iterate(i, n + 1) == Next(i, k);
    if k == Root(i) {
      FixedExactly(i, k);
      assert StopsAt(i, n);
    } else {
      Descends(i, k);
      ComesToStop(i, n + 1);
    }
  }

  lemma SquareHasNoStop(i: nat, n: nat)
    requires i < U32_RANGE && IsSquare(i + 1)
    ensures !StopsAt(i, n)
  {
    var k := Iterate(i, n);
    if i == U32_RANGE - 1 {
      WrapsToZero(n);
      WrapsToZero(n + 1);
    } else if k > 0 {
      IterateBounded(i, n);
      FixedExactly(i, k);
      NextToSquare(i);
      NoSquareBetween(Root(i), k);
    }
  }

  /** The loop returns exactly when i + 1 is not a perfect square: below a square it swings
      between two values for ever, or, at 0 and at the largest word, divides by zero. */
  lemma ReturnsExactly(i: nat)
    requires i < U32_RANGE
    ensures Returns(i) <==> !IsSquare(i + 1)
  {
    Boundary();
    if IsSquare(i + 1) {
      forall n ensures !StopsAt(i, n) {
        SquareHasNoStop(i, n);
      }
    } else {
      RootIsPositive(i);
      ComesToStop(i, 0);
    }
  }
}
