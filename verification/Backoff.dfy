/** Backoff curves (resilience/backoff.go). */
module Backoff {
  import opened Prelude
  import opened Durations

  /** Go's max/2: division truncates toward zero. */
  function Half(m: int): int { if m >= 0 then m / 2 else -(-m / 2) }

  /** The loop of Exponential with `n` turns left. */
  function Doubling(d: int, max: int, n: nat): int
    decreases n
  {
    if n == 0 then (if d > max then max else d)
    else if d >= Half(max) then max
    else Doubling(Wrap(d * 2), max, n - 1)
  }

  /** Turns of `for i := 1; i < attempt; i++`. */
  function Turns(attempt: int): nat { if attempt > 1 then attempt - 1 else 0 }

  /** Exponential(base, max)(attempt). */
  method Exponential(base: int, max: int, attempt: int) returns (r: int)
    ensures r == Doubling(base, max, Turns(attempt))
  {
    var d, i := base, 1;
    while i < attempt
      invariant 1 <= i <= Turns(attempt) + 1
      invariant Doubling(d, max, Turns(attempt) + 1 - i) == Doubling(base, max, Turns(attempt))
    {
      if d >= Half(max) { return max; }
      d := Wrap(d * 2);
      i := i + 1;
    }
    if d > max { return max; }
    return d;
  }

  function Pow2(n: nat): (p: nat)
    ensures p >= 1
  {
    if n == 0 then 1 else 2 * Pow2(n - 1)
  }

  /** No doubling of the loop leaves the 64-bit range. */
  predicate NeverWraps(d: int, max: int, n: nat)
    decreases n
  {
    n == 0 || d >= Half(max) || (IsDuration(d * 2) && NeverWraps(d * 2, max, n - 1))
  }

  lemma {:induction false} ExponentialNeverWraps(base: int, max: int, n: nat)
    requires 0 <= base && 0 <= max <= MAX_DURATION
    ensures NeverWraps(base, max, n)
    decreases n
  {
    if n > 0 && base < Half(max) { ExponentialNeverWraps(base * 2, max, n - 1); }
  }

  /** The curve is the capped power of two, except that an odd max is reached one unit early:
      exactly when the uncapped value is max - 1 after at least one doubling. */
  lemma {:induction false} ExponentialIsCappedDoubling(base: int, max: int, n: nat)
    requires 0 <= base <= MAX_DURATION && 0 <= max <= MAX_DURATION
    ensures Doubling(base, max, n) ==
            if n > 0 && max % 2 == 1 && base * Pow2(n) == max - 1 then max else Min(base * Pow2(n), max)
    decreases n
  {
    if n > 0 {
      assert base * Pow2(n) == base * 2 * Pow2(n - 1);
      if base >= Half(max) {
        PowGrows(base * 2, n - 1);
        if n > 1 { assert base * 2 * Pow2(n - 1) == base * 4 * Pow2(n - 2); PowGrows(base * 4, n - 2); }
      } else {
        ExponentialIsCappedDoubling(base * 2, max, n - 1);
        if n == 1 { assert base * 2 * Pow2(0) == base * 2; }
      }
    }
  }

  /** An input: from 1 towards 5, the third attempt already waits 5 instead of 4. */
  lemma OddMaximumComesEarly()
    ensures Doubling(1, 5, Turns(3)) == 5 && Min(1 * Pow2(Turns(3)), 5) == 4
  {
    assert Pow2(2) == 2 * Pow2(1) == 4;
  }

  lemma PowGrows(x: nat, n: nat)
    ensures x * Pow2(n) >= x
  {
    assert x * Pow2(n) == x + x * (Pow2(n) - 1);
  }

  /** It never decreases with the attempt and never exceeds max. */
  lemma {:induction false} ExponentialIsMonotone(base: int, max: int, a: int, b: int)
    requires 0 <= base <= MAX_DURATION && 0 <= max <= MAX_DURATION && a <= b
    ensures Doubling(base, max, Turns(a)) <= Doubling(base, max, Turns(b)) <= max
  {
    DoublingGrows(base, max, Turns(a), Turns(b));
  }

  lemma {:induction false} DoublingGrows(d: int, max: int, m: nat, n: nat)
    requires 0 <= d <= MAX_DURATION && 0 <= max <= MAX_DURATION && m <= n
    ensures Doubling(d, max, m) <= Doubling(d, max, n) <= max
    decreases n
  {
    if n > 0 && d < Half(max) {
      if m == 0 {
        DoublingGrows(d * 2, max, 0, n - 1);
      } else {
        DoublingGrows(d * 2, max, m - 1, n - 1);
      }
    } else if m > 0 {
      assert Doubling(d, max, m) == max;
    }
  }

  datatype Draw = Value(d: int) | Panic

  /** Jitter over a delay `d`, with `draw` what the generator yields for a valid bound. */
  function Jitter(d: int, draw: int): Draw {
    if d <= 0 then Value(0)
    else
      var n := Wrap(d + 1);
      if n <= 0 then Panic else Value(draw % n)
  }

  lemma JitterStaysInRange(d: int, draw: int)
    requires IsDuration(d)
    ensures Jitter(d, draw).Panic? <==> d == MAX_DURATION
    ensures Jitter(d, draw).Value? ==> 0 <= Jitter(d, draw).d <= Max(d, 0)
  {
    if d == MAX_DURATION { assert Wrap(d + 1) == MIN_DURATION; } else { assert Wrap(d + 1) == d + 1; }
  }

  /** The bound of the generator for this one delay wraps. */
  lemma LargestDelayPanics(draw: int)
    ensures Jitter(MAX_DURATION, draw) == Panic
  {
    assert Wrap(MAX_DURATION + 1) == MIN_DURATION;
  }

  lemma SmallModulo(x: int, n: int)
    requires 0 <= x < n
    ensures x % n == x
  {}

  lemma DrawItself(d: int, x: int)
    requires IsDuration(d) && d < MAX_DURATION && 0 <= x <= Max(d, 0)
    ensures Jitter(d, x) == Value(x)
  {
    if d > 0 {
      var n := Wrap(d + 1);
      assert n == d + 1;
      SmallModulo(x, n);
    }
  }

  /** Full jitter: every delay in [0, d] can be drawn and no other, save that the one delay whose
      bound wraps makes the generator panic. */
  lemma JitterRange(d: int, x: int)
    requires IsDuration(d)
    ensures (exists draw :: Jitter(d, draw) == Value(x)) <==> d < MAX_DURATION && 0 <= x <= Max(d, 0)
  {
    forall draw | Jitter(d, draw) == Value(x) ensures d < MAX_DURATION && 0 <= x <= Max(d, 0) {
      JitterStaysInRange(d, draw);
    }
    if d < MAX_DURATION && 0 <= x <= Max(d, 0) { DrawItself(d, x); }
  }
}
