/** The back-off of the outbox (pkg/retrydelay/retrydelay.go). */
module RetryDelay {
  import opened Prelude

  /** Durations are signed 64-bit counts of nanoseconds. */
  const LIMIT: int := 0x8000_0000_0000_0000

  /** The value a 64-bit signed integer keeps of `x`. */
  function Wrapped(x: int): int {
    var low := x % (2 * LIMIT);
    if low < LIMIT then low else low - 2 * LIMIT
  }

  function Pow2(k: nat): (p: nat)
    ensures 1 <= p
  {
    if k == 0 then 1 else 2 * Pow2(k - 1)
  }

  function Exponent(attempt: int): (k: nat)
    ensures k <= 8
  {
    if attempt < 0 then 0 else if attempt < 8 then attempt else 8
  }

  function CappedExponential(base: int, maximum: int, attempt: int): int
    requires 0 < base <= maximum < LIMIT
  {
    var delay := Wrapped(base * Pow2(Exponent(attempt)));
    if delay > maximum then maximum else delay
  }

  /** base * 2^min(attempt, 8), capped, over unbounded integers. */
  function Intended(base: int, maximum: int, attempt: int): int
    requires 0 < base <= maximum
  {
    var ideal := base * Pow2(Exponent(attempt));
    if ideal <= maximum then ideal else maximum
  }

  lemma {:induction false} Pow2Monotone(j: nat, k: nat)
    requires j <= k
    ensures Pow2(j) <= Pow2(k)
    decreases k
  {
    if j < k {
      Pow2Monotone(j, k - 1);
    }
  }

  lemma WrappedSmall(x: int)
    requires 0 <= x < LIMIT
    ensures Wrapped(x) == x
  {
  }

  /** The first doubling to reach LIMIT wraps to a negative number. */
  lemma WrappedJustOver(x: int)
    requires LIMIT <= x < 2 * LIMIT
    ensures Wrapped(x) < 0
  {
  }

  /** Some doubling is the first to reach LIMIT. */
  lemma {:induction false} FirstOver(base: int, k: nat) returns (j: nat)
    requires 0 < base < LIMIT && LIMIT <= base * Pow2(k)
    ensures 0 < j <= k && LIMIT <= base * Pow2(j) < 2 * LIMIT
    decreases k
  {
    assert Pow2(k) == if k == 0 then 1 else 2 * Pow2(k - 1);
    assert k > 0;
    assert base * Pow2(k) == 2 * (base * Pow2(k - 1)) by { Doubled(base, Pow2(k - 1)); }
    if base * Pow2(k - 1) < LIMIT {
      j := k;
    } else {
      j := FirstOver(base, k - 1);
    }
  }

  lemma Doubled(a: int, b: int)
    ensures a * (2 * b) == 2 * (a * b)
  {
  }

  ghost predicate AsIntended(base: int, maximum: int)
    requires 0 < base <= maximum < LIMIT
  {
    forall attempt :: CappedExponential(base, maximum, attempt) == Intended(base, maximum, attempt)
  }

  /** A policy gives the intended back-off for every attempt exactly if its base is
      below 2^55 nanoseconds. From there on some attempt wraps to a negative delay. */
  lemma BackoffIsExact(base: int, maximum: int)
    requires 0 < base <= maximum < LIMIT
    ensures AsIntended(base, maximum) <==> base < LIMIT / 256
    ensures !AsIntended(base, maximum)
        ==> exists attempt :: 0 < attempt <= 8 && CappedExponential(base, maximum, attempt) < 0
  {
    hide Wrapped, Pow2;
    Pow2Of8();
    if base < LIMIT / 256 {
      forall attempt ensures CappedExponential(base, maximum, attempt) == Intended(base, maximum, attempt) {
        var p := Pow2(Exponent(attempt));
        Pow2Monotone(Exponent(attempt), 8);
        MulMonotone(p, 256, base);
        MulPositive(base, p);
        WrappedSmall(base * p);
      }
    } else {
      MulMonotone(LIMIT / 256, base, 256);
      var j := FirstOver(base, 8);
      assert Exponent(j) == j;
      WrappedJustOver(base * Pow2(j));
      assert CappedExponential(base, maximum, j) < 0 <= Intended(base, maximum, j);
    }
  }

  lemma MulPositive(a: int, b: int)
    requires 0 < a && 0 < b
    ensures a <= a * b
  {
  }

  /** A concrete policy whose eighth retry wraps to a negative delay. */
  lemma WrapExample()
    ensures CappedExponential(LIMIT / 256, LIMIT - 1, 8) < 0
  {
    Pow2Of8();
  }

  lemma Pow2Of8()
    ensures Pow2(8) == 256
  {
    assert Pow2(8) == 2 * Pow2(7) == 4 * Pow2(6) == 8 * Pow2(5) == 16 * Pow2(4) == 32 * Pow2(3);
    assert Pow2(3) == 8;
  }

  /** For every policy below 2^55 nanoseconds (416 days) the delay stays between
      base and maximum and never shrinks as attempts accumulate. */
  lemma BackoffGrows(base: int, maximum: int, early: int, late: int)
    requires 0 < base <= maximum < LIMIT
    requires base < LIMIT / 256
    requires early <= late
    ensures base <= CappedExponential(base, maximum, early) <= CappedExponential(base, maximum, late) <= maximum
  {
    hide Wrapped, Pow2;
    var p, q := Pow2(Exponent(early)), Pow2(Exponent(late));
    Pow2Monotone(Exponent(early), Exponent(late));
    Pow2Monotone(Exponent(late), 8);
    Pow2Of8();
    MulMonotone(1, p, base);
    MulMonotone(p, q, base);
    MulMonotone(q, 256, base);
    WrappedSmall(base * p);
    WrappedSmall(base * q);
  }
}
