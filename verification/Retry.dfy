/**
 The retry loop over an optional per-attempt Timeout (resilience/retry.go, resilience/timeout.go),
 with a ledger of what was obtained, drained, closed, cancelled and slept.
 */
module Retry {
  import opened Prelude
  import opened Durations
  import opened RetryAfter

  const DEFAULT_MAX_ATTEMPTS := 3
  const MAX_DRAIN := 65536

  /** The idempotent methods of section 9.2.2 of RFC 9110. */
  const DEFAULT_RETRY_METHODS := ["GET", "HEAD", "PUT", "DELETE", "OPTIONS", "TRACE"]

  datatype Policy = Policy(maxAttempts: int, methods: seq<string>)

  /** A zero field takes its default; `methods` is copied. */
  function WithDefaults(maxAttempts: int, methods: Option<seq<string>>): (p: Policy)
    ensures p.maxAttempts >= 1 && (maxAttempts > 0 ==> p.maxAttempts == maxAttempts)
    ensures maxAttempts <= 0 ==> p.maxAttempts == 3
    ensures methods.Some? ==> p.methods == methods.value
    ensures methods == None ==>
              forall m :: m in p.methods <==> m in {"GET", "HEAD", "PUT", "DELETE", "OPTIONS", "TRACE"}
  {
    Policy(if maxAttempts <= 0 then DEFAULT_MAX_ATTEMPTS else maxAttempts,
           match methods case Some(ms) => ms case None => DEFAULT_RETRY_METHODS)
  }

  datatype Request = Request(verb: string, hasBody: bool, hasGetBody: bool, timeout: bool, deadline: Option<int>)

  predicate Eligible(p: Policy, req: Request) {
    if req.hasBody && !req.hasGetBody then false
    else (if req.verb == "" then "GET" else req.verb) in p.methods
  }

  /** A response body: absent, or this many bytes. */
  datatype Body = NilBody | Bytes(n: nat)

  datatype Outcome = Response(status: int, header: Header, body: Body) | TransportError

  /** RetryIf's answer; it is caller code and may panic. */
  datatype Answer = Again | Enough | Panics

  datatype Wake = Elapsed | Cancelled

  /** Everything the loop asks the outside world, by attempt number. `callerGivesUp` tells whether
      the sleep is cut short, or, for a delay that is not positive, whether the context is done. */
  datatype World = World(outcome: nat -> Outcome, bodyRebuilds: nat -> bool, retryIf: nat -> Answer,
                         backoff: nat -> int, now: nat -> int, nowAtCheck: nat -> int, wake: nat -> Wake)

  /** defaultRetryIf: any transport error and the four "try again" statuses. */
  predicate DefaultRetryIf(o: Outcome) { o.TransportError? || o.status in {429, 502, 503, 504} }

  /** The context of one attempt: none of its own, live, or cancelled. */
  datatype Context = NoTimeout | Live | Done

  /** One attempt as the loop sees it: bytes drained and number of Close calls of its body. */
  datatype Exchange = Exchange(outcome: Outcome, read: nat, closes: nat, ctx: Context)

  predicate HasBody(o: Outcome) { o.Response? && o.body != NilBody }

  /** What a send through Timeout (or straight through) hands back: an error cancels the attempt's
      context, and a missing body becomes the empty one so that closing it can cancel later. */
  function Sent(timeout: bool, o: Outcome): Exchange {
    if !timeout then Exchange(o, 0, 0, NoTimeout)
    else
      match o
      case TransportError => Exchange(o, 0, 0, Done)
      case Response(status, header, body) =>
        Exchange(Response(status, header, if body == NilBody then Bytes(0) else body), 0, 0, Live)
  }

  /** drain: read at most MAX_DRAIN bytes and close, which cancels a Timeout's context. */
  function Drained(x: Exchange): Exchange {
    if !HasBody(x.outcome) then x
    else x.(read := x.read + Min(x.outcome.body.n, MAX_DRAIN), closes := x.closes + 1,
            ctx := if x.ctx == Live then Done else x.ctx)
  }

  datatype Sleep = Sleep(attempt: nat, delay: int, at: int)

  datatype Ledger = Ledger(exchanges: seq<Exchange>, asked: seq<nat>, sleeps: seq<Sleep>)

  /** How do ends: with the result of the last attempt, or with an error of its own, or unwinding. */
  datatype Ending = Result | BuildFailed | GaveUp | Panicked

  predicate CanWait(deadline: Option<int>, delay: int, now: int) {
    match deadline
    case None => true
    case Some(t) => TimeSub(t, now) > delay
  }

  function DelayFor(w: World, attempt: nat, o: Outcome): int {
    Adopted(w.backoff(attempt),
            match o
            case Response(status, header, _) => Requested(status, header, w.now(attempt))
            case TransportError => None)
  }

  function Last(l: Ledger): (x: Exchange)
    requires l.exchanges != []
  {
    l.exchanges[|l.exchanges| - 1]
  }

  function DrainLast(l: Ledger): Ledger
    requires l.exchanges != []
  {
    l.(exchanges := l.exchanges[|l.exchanges| - 1 := Drained(Last(l))])
  }

  /** The loop of do from attempt `a` on, as a function. */
  function Loop(p: Policy, req: Request, w: World, a: nat, l: Ledger): (Ending, Ledger)
    requires a >= 1
    decreases p.maxAttempts - a
  {
    if a > 1 && req.hasGetBody && !w.bodyRebuilds(a) then (BuildFailed, l)
    else
      var x := Sent(req.timeout, w.outcome(a));
      var l1 := l.(exchanges := l.exchanges + [x]);
      if a >= p.maxAttempts then (Result, l1)
      else
        match w.retryIf(a)
        case Panics => (Panicked, DrainLast(l1))
        case Enough => (Result, l1)
        case Again =>
          var delay := DelayFor(w, a, x.outcome);
          var l2 := l1.(asked := l1.asked + [a]);
          if !CanWait(req.deadline, delay, w.nowAtCheck(a)) then (Result, l2)
          else
            var l3 := DrainLast(l2).(sleeps := l2.sleeps + [Sleep(a, delay, w.nowAtCheck(a))]);
            if w.wake(a) == Cancelled then (GaveUp, l3) else Loop(p, req, w, a + 1, l3)
  }

  const EMPTY := Ledger([], [], [])

  /** do: one plain send when the request is not eligible, else the loop. */
  function Do(p: Policy, req: Request, w: World): (Ending, Ledger) {
    if !Eligible(p, req) then (Result, Ledger([Sent(req.timeout, w.outcome(1))], [], []))
    else Loop(p, req, w, 1, EMPTY)
  }

  /** One call of the middleware, with the ledger as the state it updates. */
  class Call {
    var exchanges: seq<Exchange>
    var asked: seq<nat>
    var sleeps: seq<Sleep>

    ghost function Value(): Ledger
      reads this
    {
      Ledger(exchanges, asked, sleeps)
    }

    constructor ()
      ensures Value() == EMPTY
    {
      exchanges, asked, sleeps := [], [], [];
    }

    /** next.RoundTrip, through Timeout when there is one. */
    method Send(req: Request, o: Outcome)
      modifies `exchanges
      ensures exchanges == old(exchanges) + [Sent(req.timeout, o)]
    {
      exchanges := exchanges + [Sent(req.timeout, o)];
    }

    method Drain()
      requires exchanges != []
      modifies `exchanges
      ensures exchanges != [] && Value() == DrainLast(old(Value()))
    {
      var last := |exchanges| - 1;
      exchanges := exchanges[last := Drained(exchanges[last])];
    }

    /** Backoff, unless the response asks for a delay that is within the cap. */
    static method ChooseDelay(w: World, attempt: nat, o: Outcome) returns (delay: int)
      ensures delay == DelayFor(w, attempt, o)
    {
      delay := w.backoff(attempt);
      if o.Response? {
        var r := Requested(o.status, o.header, w.now(attempt));
        if r.Some? && r.value <= MAX_RETRY_AFTER { delay := r.value; }
      }
    }

    method Run(p: Policy, req: Request, w: World) returns (ending: Ending)
      requires Value() == EMPTY
      modifies this
      ensures (ending, Value()) == Do(p, req, w)
    {
      if !Eligible(p, req) {
        Send(req, w.outcome(1));
        assert exchanges == [Sent(req.timeout, w.outcome(1))];
        return Result;
      }
      var attempt := 1;
      while true
        invariant attempt >= 1
        invariant Loop(p, req, w, attempt, Value()) == Do(p, req, w)
        decreases p.maxAttempts - attempt
      {
        if attempt > 1 && req.hasGetBody && !w.bodyRebuilds(attempt) { return BuildFailed; }
        Send(req, w.outcome(attempt));
        if attempt >= p.maxAttempts { return Result; }
        var answer := w.retryIf(attempt);
        if answer == Panics {
          Drain();
          return Panicked;
        }
        if answer == Enough { return Result; }
        asked := asked + [attempt];
        var delay := ChooseDelay(w, attempt, exchanges[|exchanges| - 1].outcome);
        var checkedAt := w.nowAtCheck(attempt);
        if !CanWait(req.deadline, delay, checkedAt) { return Result; }
        Drain();
        sleeps := sleeps + [Sleep(attempt, delay, checkedAt)];
        if w.wake(attempt) == Cancelled { return GaveUp; }
        attempt := attempt + 1;
      }
    }
  }
}
