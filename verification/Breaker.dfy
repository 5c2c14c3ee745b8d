/** The circuit breaker's shared state and its three atomic operations (resilience/breaker.go). */
module Breaker {
  const DEFAULT_FAILURE_THRESHOLD := 5
  const DEFAULT_COOLDOWN := 30_000_000_000

  datatype Policy = Policy(threshold: int, cooldown: int)

  /** Zero or negative fields take their defaults. */
  function WithDefaults(p: Policy): (r: Policy)
    ensures r.threshold >= 1 && r.cooldown >= 1
    ensures p.threshold >= 1 ==> r.threshold == p.threshold
    ensures p.cooldown >= 1 ==> r.cooldown == p.cooldown
    ensures p.threshold <= 0 ==> r.threshold == 5
    ensures p.cooldown <= 0 ==> r.cooldown == 30_000_000_000
  {
    Policy(if p.threshold <= 0 then DEFAULT_FAILURE_THRESHOLD else p.threshold,
           if p.cooldown <= 0 then DEFAULT_COOLDOWN else p.cooldown)
  }

  datatype Circuit = Closed | Open | HalfOpen

  /** The fields the mutex guards. */
  datatype Core = Core(circuit: Circuit, fails: int, openedAt: int, probing: bool)

  const NEW_CORE := Core(Closed, 0, 0, false)

  datatype Verdict = Admit(probe: bool) | ErrOpen

  /** What allow answers at time `now`, and the fields it leaves. */
  function Allow(p: Policy, b: Core, now: int): (Verdict, Core) {
    match b.circuit
    case Open =>
      if now - b.openedAt < p.cooldown then (ErrOpen, b)
      else (Admit(true), b.(circuit := HalfOpen, probing := true))
    case HalfOpen =>
      if b.probing then (ErrOpen, b) else (Admit(true), b.(probing := true))
    case Closed => (Admit(false), b)
  }

  /** What record leaves. With `clause` off, a failed probe re-opens only through the threshold. */
  function RecordWith(p: Policy, clause: bool, b: Core, tripped: bool, now: int): Core {
    if !tripped then b.(circuit := Closed, fails := 0)
    else
      var fails := b.fails + 1;
      if (clause && b.circuit == HalfOpen) || fails >= p.threshold
      then b.(fails := fails, circuit := Open, openedAt := now)
      else b.(fails := fails)
  }

  function Record(p: Policy, b: Core, tripped: bool, now: int): Core {
    RecordWith(p, true, b, tripped, now)
  }

  function Release(b: Core): Core { b.(probing := false) }

  /** defaultTripIf: any transport error and any 5xx. */
  predicate DefaultTripIf(isError: bool, status: int) { isError || status >= 500 }

  class CircuitBreaker {
    const p: Policy
    var circuit: Circuit
    var fails: int
    var openedAt: int
    var probing: bool

    ghost function Value(): Core
      reads this
    {
      Core(circuit, fails, openedAt, probing)
    }

    constructor (policy: Policy)
      ensures p == WithDefaults(policy) && Value() == NEW_CORE
    {
      p := WithDefaults(policy);
      circuit, fails, openedAt, probing := Closed, 0, 0, false;
    }

    method AllowRequest(now: int) returns (verdict: Verdict)
      modifies this
      ensures (verdict, Value()) == Allow(p, old(Value()), now)
    {
      match circuit {
        case Open =>
          if now - openedAt < p.cooldown { return ErrOpen; }
          circuit := HalfOpen;
          probing := true;
          return Admit(true);
        case HalfOpen =>
          if probing { return ErrOpen; }
          probing := true;
          return Admit(true);
        case Closed =>
          return Admit(false);
      }
    }

    method RecordResult(tripped: bool, now: int)
      modifies this
      ensures Value() == Record(p, old(Value()), tripped, now)
    {
      if !tripped {
        circuit := Closed;
        fails := 0;
        return;
      }
      fails := fails + 1;
      if circuit == HalfOpen || fails >= p.threshold {
        circuit := Open;
        openedAt := now;
      }
    }

    method ReleaseProbe()
      modifies `probing
      ensures Value() == Release(old(Value()))
    {
      probing := false;
    }
  }
}
