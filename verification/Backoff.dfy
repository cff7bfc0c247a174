/** The exponential delay between retries, computed in 64-bit signed nanoseconds. */
module Backoff {

  const TWO34: int := 0x4_0000_0000
  const TWO63: int := 0x8000_0000_0000_0000
  const TWO64: int := 0x1_0000_0000_0000_0000

  type Int64 = x: int | -0x8000_0000_0000_0000 <= x < 0x8000_0000_0000_0000

  /** 64-bit arithmetic keeps the low bits, read as a signed number. */
  function Wrap(x: int): Int64 {
    (x + TWO63) % TWO64 - TWO63
  }

  function Pow2(n: nat): nat {
    if n == 0 then 1 else 2 * Pow2(n - 1)
  }

  function Shift(attempt: int): nat {
    if attempt < 1 then 0 else if attempt > 31 then 30 else attempt - 1
  }

  function Delay(base: Int64, max: Int64, attempt: int): Int64 {
    var delay := Wrap(base * Pow2(Shift(attempt)));
    if delay <= 0 || delay > max then max else delay
  }

  /** The shifted base no longer fits, and what is left of it is positive and below the cap. */
  predicate WrapsShort(base: Int64, max: Int64, k: nat) {
    base * Pow2(k) >= TWO63 && 0 < Wrap(base * Pow2(k)) < max
  }

  /**
   * The delay before a retry: the base doubled with each attempt, thirty times at most, up to the cap,
   * unless the product wraps around to something below the cap.
   */
  method BackoffDelay(base: Int64, max: Int64, attempt: int) returns (delay: Int64)
    ensures delay == Delay(base, max, attempt)
    ensures base > 0 && max > 0 ==>
              (delay == Min(max, base * Pow2(Shift(attempt))) <==> !WrapsShort(base, max, Shift(attempt)))
  {
    if base > 0 && max > 0 {
      DelayExact(base, max, attempt);
    }
    var n := attempt;
    if n < 1 {
      n := 1;
    }
    var shift := n - 1;
    if shift > 30 {
      shift := 30;
    }
    delay := Wrap(base * Pow2(shift));
    if delay <= 0 || delay > max {
      delay := max;
    }
  }

  function Min(a: int, b: int): int {
    if a < b then a else b
  }

  lemma {:induction false} Pow2Grows(m: nat, n: nat)
    requires m <= n
    ensures 1 <= Pow2(m) <= Pow2(n)
    decreases n
  {
    if m < n {
      Pow2Grows(m, n - 1);
    } else if m > 0 {
      Pow2Grows(m - 1, n - 1);
    }
  }

  lemma Pow30()
    ensures Pow2(30) == 0x4000_0000 && Pow2(31) == 0x8000_0000
  {
    assert Pow2(10) == 1024;
    assert Pow2(20) == 1024 * 1024;
  }

  /** A product up to 2 to the 64th that does not fit wraps to nothing positive. */
  lemma WrapSmall(p: int)
    requires 0 < p <= TWO64
    ensures if p < TWO63 then Wrap(p) == p else Wrap(p) <= 0
  {
  }

  lemma Scaled(base: int, a: nat, b: nat)
    requires 0 < base && a <= b
    ensures 0 < base * Pow2(a) <= base * Pow2(b)
  {
    Pow2Grows(a, b);
    Times(base, Pow2(a), Pow2(b));
  }

  lemma Times(base: int, x: int, y: int)
    requires 0 < base && 1 <= x <= y
    ensures 0 < base * x <= base * y
  {
    assert base * (y - x) >= 0;
  }

  lemma WrapLow(p: int)
    requires 0 < p < TWO63
    ensures Wrap(p) == p
  {
  }

  /**
   * The delay is the doubled base up to the cap if and only if the product does not wrap around to
   * something positive below the cap; otherwise it is that.
   */
  lemma DelayExact(base: Int64, max: Int64, attempt: int)
    requires 0 < base && max > 0
    ensures Delay(base, max, attempt) == Min(max, base * Pow2(Shift(attempt))) <==> !WrapsShort(base, max, Shift(attempt))
    ensures 0 < Delay(base, max, attempt) <= max
    ensures Delay(base, max, attempt) <= base * Pow2(Shift(attempt))
  {
    var p := base * Pow2(Shift(attempt));
    Scaled(base, 0, Shift(attempt));
    if p < TWO63 {
      WrapLow(p);
    }
  }

  /**
   * Attempts from 1 to 31 shift the base by one less than their number; an attempt below waits like the
   * first, and one beyond like the 31st. A cap that is not positive is waited as it is.
   */
  lemma DelayOfAttempt(base: Int64, max: Int64, attempt: int)
    requires 0 < base
    ensures attempt < 1 ==> Delay(base, max, attempt) == Delay(base, max, 1)
    ensures attempt > 31 ==> Delay(base, max, attempt) == Delay(base, max, 31)
    ensures max > 0 && 1 <= attempt <= 31 && base * Pow2(attempt - 1) < TWO63 ==>
              Delay(base, max, attempt) == Min(max, base * Pow2(attempt - 1))
    ensures max <= 0 ==> Delay(base, max, attempt) == max
  {
    Scaled(base, 0, Shift(attempt));
    if base * Pow2(Shift(attempt)) < TWO63 {
      WrapLow(base * Pow2(Shift(attempt)));
    }
  }

  /** No shift the code can take wraps short. */
  predicate Unwrapped(base: Int64, max: Int64) {
    forall k: nat :: k <= 30 ==> !WrapsShort(base, max, k)
  }

  /** That is so for every base delay of up to 2 to the 34th nanoseconds, and whenever the largest product fits. */
  lemma SmallUnwrapped(base: Int64, max: Int64)
    requires 0 < base && (base <= TWO34 || base * Pow2(30) < TWO63)
    ensures Unwrapped(base, max)
  {
    Pow30();
    forall k: nat | k <= 30 ensures !WrapsShort(base, max, k) {
      Scaled(base, k, 30);
      if base <= TWO34 {
        WrapSmall(base * Pow2(k));
      }
    }
  }

  lemma DelayGrows(base: Int64, max: Int64, a: int, b: int)
    requires 0 < base && max > 0 && Unwrapped(base, max) && a <= b
    ensures Delay(base, max, a) <= Delay(base, max, b)
  {
    DelayExact(base, max, a);
    DelayExact(base, max, b);
    Scaled(base, Shift(a), Shift(b));
  }

  /** What the documentation of the option says attempt `n` waits. */
  ghost predicate AsDocumented(base: Int64, max: Int64, n: int)
    requires n >= 1
  {
    Delay(base, max, n) == Min(max, base * Pow2(n - 1))
  }

  /**
   * For every positive base and cap, the delay is as documented for all attempts if and only if 2 to the
   * 30th base delays reach the cap and no product up to there wraps around to something below it.
   */
  lemma DocumentedIff(base: Int64, max: Int64)
    requires 0 < base && max > 0
    ensures (forall n :: n >= 1 ==> AsDocumented(base, max, n)) <==> base * Pow2(30) >= max && Unwrapped(base, max)
  {
    if base * Pow2(30) >= max && Unwrapped(base, max) {
      forall n | n >= 1 ensures AsDocumented(base, max, n) {
        CapReached(base, max, n);
      }
    } else if base * Pow2(30) < max {
      CapMissed(base, max);
    } else {
      var k: nat :| k <= 30 && WrapsShort(base, max, k);
      DelayExact(base, max, k + 1);
      hide Delay, WrapsShort;
      assert !AsDocumented(base, max, k + 1);
    }
  }

  lemma CapReached(base: Int64, max: Int64, n: nat)
    requires 0 < base && max > 0 && n >= 1 && base * Pow2(30) >= max && Unwrapped(base, max)
    ensures AsDocumented(base, max, n)
  {
    DelayExact(base, max, n);
    hide Delay, WrapsShort;
    if n > 31 {
      Scaled(base, 30, n - 1);
    }
  }

  lemma CapMissed(base: Int64, max: Int64)
    requires 0 < base && max > 0 && base * Pow2(30) < max
    ensures !AsDocumented(base, max, 32)
  {
    DelayExact(base, max, 32);
    hide Delay;
    var x := Pow2(30);
    assert Pow2(31) == 2 * x;
    Twice(base, x);
    Scaled(base, 30, 30);
  }

  lemma Twice(base: int, x: int)
    ensures base * (2 * x) == 2 * (base * x)
  {
  }

  /** The bound of `SmallUnwrapped` is tight: one more nanosecond, and attempt 31 waits about a second instead of five minutes. */
  lemma BoundTight()
    ensures var fiveMinutes := 300_000_000_000;
            && Delay(TWO34 + 1, fiveMinutes, 31) == 0x4000_0000
            && Min(fiveMinutes, (TWO34 + 1) * Pow2(30)) == fiveMinutes
            && !Unwrapped(TWO34 + 1, fiveMinutes)
  {
    Pow30();
    assert WrapsShort(TWO34 + 1, 300_000_000_000, 30);
  }

  function Waited(base: Int64, max: Int64, retries: nat): int {
    if retries == 0 then 0 else Waited(base, max, retries - 1) + Delay(base, max, retries)
  }

  lemma Doubled(base: int, p: int)
    ensures base * (2 * p - 1) == base * (p - 1) + base * p
  {
  }

  lemma DelayBelow(base: Int64, max: Int64, n: nat)
    requires 0 < base && max > 0 && n >= 1
    ensures Delay(base, max, n) <= base * Pow2(n - 1)
  {
    DelayExact(base, max, n);
    Scaled(base, Shift(n), n - 1);
  }

  /** All retries together wait at most `base * (2^retries - 1)`. */
  lemma {:induction false} TotalWait(base: Int64, max: Int64, retries: nat)
    requires 0 < base && max > 0
    ensures Waited(base, max, retries) <= base * (Pow2(retries) - 1)
  {
    if retries > 0 {
      TotalWait(base, max, retries - 1);
      DelayBelow(base, max, retries);
      Doubled(base, Pow2(retries - 1));
      hide Delay;
    }
  }
}
