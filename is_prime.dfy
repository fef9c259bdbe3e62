/** Trial-division primality check of `book/chapters/references/is_prime.py`.

    The Python function rejects every even number (2 included), then tries the odd
    candidates 3, 5, ... up to `int(I ** 0.5)` and answers True when none divides `I`.
    `int(I ** 0.5)` is modelled as the exact integer square root; for an odd negative `I`
    the power is a complex number and `int` raises a TypeError, which the model reports
    as its own answer.
 */
module PrimeCheck {

  /** What a call `is_prime(I)` on an integer ends with. */
  datatype Answer =
    | Returned(isPrime: bool)
    | ComplexRootTypeError   // `int()` applied to the complex `I ** 0.5` of an odd negative `I`

  /** `d` divides `n` (the test `n % d == 0` of line 4, for a non-zero `d`). */
  predicate Divides(d: int, n: int)
  {
    d != 0 && n % d == 0
  }

  /** Primality in the usual mathematical sense. */
  ghost predicate Prime(n: int)
  {
    n >= 2 && forall d :: 2 <= d < n ==> !Divides(d, n)
  }

  /** No odd candidate in [3, b] divides `n`. */
  ghost predicate NoOddDivisorUpTo(n: int, b: int)
  {
    forall j :: 3 <= j <= b && j % 2 == 1 ==> !Divides(j, n)
  }

  /** The integer square root: the bound `int(I ** 0.5)` of line 3 for `I >= 0`. */
  function Isqrt(n: nat): (r: nat)
    ensures r * r <= n < (r + 1) * (r + 1)
  {
    if n == 0 then 0
    else
      var s := Isqrt(n - 1);
      if (s + 1) * (s + 1) <= n then
        assert (s + 2) * (s + 2) == (s + 1) * (s + 1) + 2 * s + 3;
        s + 1
      else s
  }

  /** What `is_prime(n)` answers, stated without the loop: even numbers are rejected,
      an odd negative number raises, and an odd non-negative number is accepted exactly
      when no odd candidate up to its integer square root divides it. */
  ghost function Expected(n: int): Answer
  {
    if n % 2 == 0 then Returned(false)
    else if n < 0 then ComplexRootTypeError
    else Returned(NoOddDivisorUpTo(n, Isqrt(n)))
  }

  /** `is_prime(I)`. The ghost result `tested` lists the candidates `i` for which the
      test `I % i == 0` ran, in order. */
  method IsPrime(n: int) returns (r: Answer, ghost tested: seq<int>)
    ensures r == Expected(n)
    ensures forall k :: 0 <= k < |tested| ==> tested[k] == 2 * k + 3
    ensures forall t :: t in tested ==> t * t <= n
    ensures n < 0 ==> tested == []
    ensures n >= 0 ==> 2 * |tested| <= Isqrt(n)
  {
    tested := [];
    if n % 2 == 0 {
      return Returned(false), tested;
    }
    if n < 0 {
      return ComplexRootTypeError, tested;
    }
    var bound: int := Isqrt(n);
    var i := 3;
    while i <= bound
      invariant 3 <= i <= bound + 2 && i % 2 == 1
      invariant |tested| * 2 == i - 3
      invariant forall k :: 0 <= k < |tested| ==> tested[k] == 2 * k + 3
      invariant forall t :: t in tested ==> t * t <= n
      invariant NoOddDivisorUpTo(n, i - 1)
      decreases bound - i
    {
      SquareMonotone(i, bound);
      tested := tested + [i];
      if n % i == 0 {
        assert Divides(i, n);
        return Returned(false), tested;
      }
      i := i + 2;
    }
    return Returned(true), tested;
  }

  lemma SquareMonotone(a: int, b: int)
    requires 0 <= a <= b
    ensures a * a <= b * b
  {
    assert a * a <= a * b by { MulLeft(a, a, b); }
    assert a * b <= b * b by { MulLeft(b, a, b); }
  }

  lemma MulLeft(k: int, a: int, b: int)
    requires 0 <= k && a <= b
    ensures k * a <= k * b
  {
  }

  /** Any `a` whose square is at most `n` is at most the integer square root of `n`. */
  lemma BelowIsqrt(n: nat, a: nat)
    requires a * a <= n
    ensures a <= Isqrt(n)
  {
    var r := Isqrt(n);
    if a > r {
      SquareMonotone(r + 1, a);
    }
  }

  /** For n >= 2 the integer square root is below n, so every candidate is a proper divisor. */
  lemma IsqrtBelow(n: nat)
    requires n >= 2
    ensures Isqrt(n) < n
  {
    var r := Isqrt(n);
    if r >= n {
      SquareMonotone(n, r);
      MulLeft(n, 2, n);
    }
  }

  /** A divisor of an odd number is odd. */
  lemma OddDivisor(n: int, a: int)
    requires n % 2 == 1 && Divides(a, n)
    ensures a % 2 == 1
  {
    var q := n / a;
    assert n == a * q;
    EvenProduct(a, q);
  }

  lemma EvenProduct(a: int, q: int)
    ensures a % 2 == 0 ==> (a * q) % 2 == 0
  {
    var h := a / 2;
    if a % 2 == 0 {
      assert a * q == 2 * (h * q);
    }
  }

  /** A product is divisible by each of its positive factors. */
  lemma ProductMod(q: int, d: int)
    requires q > 0
    ensures Divides(q, q * d)
  {
    var k := d - (q * d) / q;
    assert q * k == (q * d) % q;
    if k >= 1 {
      MulLeft(q, 1, k);
    } else if k <= -1 {
      MulLeft(q, k, -1);
    }
  }

  /** A number with a proper divisor has one whose square is at most the number. */
  lemma SmallDivisor(n: int, d: int) returns (a: int)
    requires 2 <= d < n && Divides(d, n)
    ensures 2 <= a && a * a <= n && Divides(a, n)
  {
    var q := n / d;
    assert n == d * q;
    if q <= 1 {
      MulLeft(d, q, 1);
      assert false;
    }
    if d <= q {
      MulLeft(d, d, q);
      a := d;
    } else {
      MulLeft(q, q, d);
      ProductMod(q, d);
      a := q;
    }
  }

  /** On odd numbers from 3 on, the answer of `is_prime` is primality itself. */
  lemma {:induction false} OddAnswerIsPrimality(n: int)
    requires n >= 3 && n % 2 == 1
    ensures Expected(n) == Returned(true) <==> Prime(n)
  {
    var b := Isqrt(n);
    if Prime(n) {
      IsqrtBelow(n);
      forall j | 3 <= j <= b && j % 2 == 1
        ensures !Divides(j, n)
      {
        assert 2 <= j < n;
      }
    }
    if NoOddDivisorUpTo(n, b) && !Prime(n) {
      var d :| 2 <= d < n && Divides(d, n);
      var a := SmallDivisor(n, d);
      OddDivisor(n, a);
      BelowIsqrt(n, a);
      assert false;
    }
  }

  /** An odd candidate up to the integer square root that divides `n` makes the answer False. */
  lemma DivisorRejects(n: int, i: int)
    requires n >= 0 && 3 <= i && i * i <= n && i % 2 == 1 && n % i == 0
    ensures Expected(n) == Returned(false)
  {
    BelowIsqrt(n, i);
    assert Divides(i, n);
    if n % 2 == 1 {
      assert !NoOddDivisorUpTo(n, Isqrt(n));
    }
  }

  /** The quirks at the small end: 1 is reported prime (the candidate range is empty) and
      2 is reported composite (it is even), the opposite of the mathematical answers. */
  lemma SmallQuirks()
    ensures Expected(1) == Returned(true) && !Prime(1)
    ensures Expected(2) == Returned(false) && Prime(2)
  {
  }
}
