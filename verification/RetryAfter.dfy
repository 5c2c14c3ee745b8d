/** The Retry-After header, section 10.2.3 of RFC 9110 (resilience/retryafter.go, retry.go). */
module RetryAfter {
  import opened Prelude
  import opened Durations

  const MAX_RETRY_AFTER := 30 * SECOND

  /** The header value: empty, a decimal integer that fits 64 bits, an HTTP date, or anything else. */
  datatype Header = Absent | Seconds(n: int) | Date(t: int) | Malformed

  /** The delay the header of a response asks for, if it is honoured and usable. */
  function Requested(status: int, header: Header, now: int): Option<int> {
    if status != 429 && status != 503 then None
    else
      match header
      case Absent => None
      case Seconds(n) => if n < 0 then None else Some(Wrap(n * SECOND))
      case Date(t) => Some(Max(TimeSub(t, now), 0))
      case Malformed => None
  }

  /** The delay the retry loop adopts: the header's when it is within the cap, else the backoff's. */
  function Adopted(backoff: int, requested: Option<int>): int {
    match requested
    case Some(d) => if d <= MAX_RETRY_AFTER then d else backoff
    case None => backoff
  }

  /** Whatever the header says, the adopted delay is bounded by the policy and the cap. */
  lemma AdoptedIsCapped(backoff: int, status: int, header: Header, now: int)
    ensures Adopted(backoff, Requested(status, header, now)) <= Max(backoff, MAX_RETRY_AFTER)
  {}

  /** A date on a 429 or 503 is waited out to the instant when it is at most 30 seconds away, a past
      one not at all; a later date, or any other status, leaves the backoff. Saturation never shows. */
  lemma DatesAreWaitedOut(backoff: int, status: int, t: int, now: int)
    ensures Adopted(backoff, Requested(status, Date(t), now)) ==
            if status in {429, 503} && t - now <= 30 * SECOND then Max(t - now, 0) else backoff
  {}

  /** What the documentation promises for a delta-seconds header: up to 30 seconds it is honoured
      to the second, above that the policy's backoff is used. */
  function PromisedForSeconds(backoff: int, n: nat): int {
    if n <= 30 then n * SECOND else backoff
  }

  /** The product is computed in 64 bits, so a header of 9223372037 seconds comes out negative and
      is adopted: the loop retries at once instead of backing off. */
  lemma HugeHeaderSkipsTheBackoff()
    ensures Adopted(SECOND, Requested(503, Seconds(9_223_372_037), 0)) < 0
    ensures PromisedForSeconds(SECOND, 9_223_372_037) == SECOND
  {
    assert Wrap(9_223_372_037 * SECOND) == -9_223_372_036_709_551_616;
  }

  /** Nanoseconds of `n` seconds modulo 2^64: what the 64-bit product keeps. */
  function Residue(n: nat): nat { (n * SECOND) % 0x1_0000_0000_0000_0000 }

  /** The promise is kept for every policy exactly when the seconds are at most 30, or the kept
      residue is read as a positive duration above the cap. */
  lemma PromiseKeptExactly(n: nat)
    ensures (forall backoff :: Adopted(backoff, Requested(503, Seconds(n), 0)) == PromisedForSeconds(backoff, n))
            <==> n <= 30 || MAX_RETRY_AFTER < Residue(n) <= MAX_DURATION
  {
    WrapByResidue(n);
    var kept := Wrap(n * SECOND);
    if n > 30 && kept <= MAX_RETRY_AFTER {
      assert Adopted(kept + 1, Requested(503, Seconds(n), 0)) != PromisedForSeconds(kept + 1, n);
    }
  }

  lemma WrapByResidue(n: nat)
    ensures Wrap(n * SECOND) == if Residue(n) <= MAX_DURATION then Residue(n) else Residue(n) - 0x1_0000_0000_0000_0000
  {
    var m := 0x1_0000_0000_0000_0000;
    var x := n * SECOND;
    var q, r := x / m, x % m;
    assert x == q * m + r;
    if r <= MAX_DURATION {
      assert x - MIN_DURATION == q * m + (r - MIN_DURATION);
      ModUnique(x - MIN_DURATION, q, r - MIN_DURATION, m);
    } else {
      assert x - MIN_DURATION == (q + 1) * m + (r - m - MIN_DURATION);
      ModUnique(x - MIN_DURATION, q + 1, r - m - MIN_DURATION, m);
    }
  }

  lemma ModUnique(x: int, q: int, r: int, m: int)
    requires m > 0 && x == q * m + r && 0 <= r < m
    ensures x % m == r
  {
    var d := q - x / m;
    assert d * m == x % m - r;
    if d != 0 { MulFar(d, m); }
  }

  lemma MulFar(d: int, m: int)
    requires d != 0 && m > 0
    ensures d * m >= m || d * m <= -m
  {
    if d >= 1 {
      MulAtLeast(d, m);
    } else {
      MulAtLeast(-d, m);
      assert -d * m == -(d * m);
    }
  }

  lemma {:induction false} MulAtLeast(k: nat, m: nat)
    requires k >= 1
    ensures k * m >= m
  {
    if k > 1 {
      MulAtLeast(k - 1, m);
      assert k * m == (k - 1) * m + m;
    }
  }

  /** In particular every header of at most 9223372036 seconds is treated as promised. */
  lemma OrdinaryHeadersAreKept(n: nat, backoff: int)
    requires n <= 9_223_372_036
    ensures Adopted(backoff, Requested(503, Seconds(n), 0)) == PromisedForSeconds(backoff, n)
  {}
}
