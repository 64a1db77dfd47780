/** Unsigned 64-bit masks as natural numbers, with the bitwise operators the program
    uses defined on binary digits. */
module Bits {

  const WIDTH := 64

  function Pow2(n: nat): (r: nat)
    ensures r > 0
  {
    if n == 0 then 1 else 2 * Pow2(n - 1)
  }

  /** Bit `j` of `m`. */
  predicate BitAt(m: nat, j: nat)
  {
    if j == 0 then m % 2 == 1 else BitAt(m / 2, j - 1)
  }

  /** `a | b`. */
  function Or(a: nat, b: nat): nat
  {
    if a == 0 && b == 0 then 0
    else (if a % 2 == 1 || b % 2 == 1 then 1 else 0) + 2 * Or(a / 2, b / 2)
  }

  /** `a & b`. */
  function And(a: nat, b: nat): nat
  {
    if a == 0 || b == 0 then 0
    else (if a % 2 == 1 && b % 2 == 1 then 1 else 0) + 2 * And(a / 2, b / 2)
  }

  lemma OrHalves(a: nat, b: nat)
    ensures Or(a, b) / 2 == Or(a / 2, b / 2)
    ensures Or(a, b) % 2 == 1 <==> a % 2 == 1 || b % 2 == 1
  {
    assert a == 0 && b == 0 ==> Or(0, 0) == 0;
  }

  lemma {:induction false} BitOfOr(a: nat, b: nat, j: nat)
    ensures BitAt(Or(a, b), j) <==> BitAt(a, j) || BitAt(b, j)
  {
    OrHalves(a, b);
    if j > 0 {
      BitOfOr(a / 2, b / 2, j - 1);
    }
  }

  lemma {:induction false} BitOfPow2(i: nat, j: nat)
    ensures BitAt(Pow2(i), j) <==> i == j
  {
    if i > 0 && j > 0 {
      BitOfPow2(i - 1, j - 1);
    } else if j > 0 {
      BitOfZero(j - 1);
    }
  }

  lemma {:induction false} BitOfZero(j: nat)
    ensures !BitAt(0, j)
  {
    if j > 0 {
      BitOfZero(j - 1);
    }
  }

  /** A value below 2^n has no bit at or above n, and a non-zero value has some bit. */
  lemma {:induction false} BitsBelow(m: nat, n: nat)
    requires m < Pow2(n)
    ensures forall j: nat :: BitAt(m, j) ==> j < n
    ensures m != 0 ==> exists j: nat :: j < n && BitAt(m, j)
  {
    if m == 0 {
      forall j: nat ensures !BitAt(m, j) { BitOfZero(j); }
    } else {
      BitsBelow(m / 2, n - 1);
      forall j: nat | BitAt(m, j) ensures j < n {
        if j > 0 { assert BitAt(m / 2, j - 1); }
      }
      if m % 2 == 1 {
        assert BitAt(m, 0);
      } else {
        var j: nat :| j < n - 1 && BitAt(m / 2, j);
        assert BitAt(m, j + 1);
      }
    }
  }

  /** OR never leaves the word. */
  lemma {:induction false} OrStaysBelow(a: nat, b: nat, n: nat)
    requires a < Pow2(n) && b < Pow2(n)
    ensures Or(a, b) < Pow2(n)
  {
    if n > 0 {
      OrStaysBelow(a / 2, b / 2, n - 1);
    }
  }

  lemma {:induction false} Pow2Monotone(i: nat, n: nat)
    requires i < n
    ensures Pow2(i) < Pow2(n)
  {
    if i + 1 < n {
      Pow2Monotone(i, n - 1);
    }
  }

  /** The number of set bits. */
  function PopCount(b: nat): nat
  {
    if b == 0 then 0 else b % 2 + PopCount(b / 2)
  }

  lemma {:induction false} AndSelf(a: nat)
    ensures And(a, a) == a
  {
    if a != 0 {
      AndSelf(a / 2);
    }
  }

  lemma ClearOdd(b: nat)
    requires b > 1 && b % 2 == 1
    ensures And(b, b - 1) == b - 1 && PopCount(b) == PopCount(b - 1) + 1
  {
    AndSelf(b / 2);
    assert (b - 1) / 2 == b / 2 && (b - 1) % 2 == 0;
    assert And(b, b - 1) == 2 * And(b / 2, b / 2);
  }

  lemma ClearEven(b: nat)
    requires b > 0 && b % 2 == 0
    ensures And(b, b - 1) == 2 * And(b / 2, b / 2 - 1)
    ensures PopCount(b) == PopCount(b / 2) && PopCount(And(b, b - 1)) == PopCount(And(b / 2, b / 2 - 1))
  {
    assert (b - 1) / 2 == b / 2 - 1;
    var h := And(b / 2, b / 2 - 1);
    assert (2 * h) / 2 == h && (2 * h) % 2 == 0;
  }

  /** `b & (b-1)` is smaller than `b` and has exactly one bit less. */
  lemma {:induction false} ClearLowest(b: nat)
    requires b != 0
    ensures And(b, b - 1) < b && PopCount(b) == PopCount(And(b, b - 1)) + 1
  {
    if b == 1 {
      assert And(1, 0) == 0;
    } else if b % 2 == 1 {
      ClearOdd(b);
    } else {
      ClearLowest(b / 2);
      ClearEven(b);
    }
  }

  /** How many of the first `n` bits are set. */
  function SetBelow(b: nat, n: nat): nat
  {
    if n == 0 then 0 else SetBelow(b, n - 1) + if BitAt(b, n - 1) then 1 else 0
  }

  lemma {:induction false} SetBelowHalves(b: nat, n: nat)
    requires n > 0
    ensures SetBelow(b, n) == b % 2 + SetBelow(b / 2, n - 1)
  {
    if n > 1 {
      SetBelowHalves(b, n - 1);
    }
  }

  lemma {:induction false} PopCountMeans(b: nat, n: nat)
    requires b < Pow2(n)
    ensures PopCount(b) == SetBelow(b, n)
  {
    if n > 0 {
      SetBelowHalves(b, n);
      PopCountMeans(b / 2, n - 1);
    }
  }

  /** Kernighan's loop counts the set bits. */
  method CountBits(mask: nat) returns (count: nat)
    ensures count == PopCount(mask)
    ensures mask < Pow2(64) ==> count == SetBelow(mask, 64)
  {
    if mask < Pow2(64) { PopCountMeans(mask, 64); }
    count := 0;
    var b := mask;
    while b != 0
      invariant count + PopCount(b) == PopCount(mask)
      decreases b
    {
      ClearLowest(b);
      b := And(b, b - 1);
      count := count + 1;
    }
  }
}
