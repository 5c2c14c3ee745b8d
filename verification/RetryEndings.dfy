/** How a call of the retry middleware ends, in terms of what the world does alone (resilience/retry.go). */
module RetryEndings {
  import opened Prelude
  import opened Durations
  import opened RetryAfter
  import opened Retry
  import opened RetryTheorems

  /** What a delta-seconds header does to the delay: up to 30 seconds to the second, and beyond that the
      backoff, save for a product that its 64 bits read as at most 30 seconds. */
  function WaitForSeconds(backoff: int, n: nat): int {
    if n <= 30 then n * SECOND
    else if Residue(n) > MAX_DURATION then Residue(n) - 0x1_0000_0000_0000_0000
    else if Residue(n) <= 30 * SECOND then Residue(n)
    else backoff
  }

  /** The delay after attempt `a`. */
  function Wait(w: World, a: nat): int {
    match w.outcome(a)
    case TransportError => w.backoff(a)
    case Response(status, header, _) =>
      if status != 429 && status != 503 then w.backoff(a)
      else
        match header
        case Absent => w.backoff(a)
        case Malformed => w.backoff(a)
        case Seconds(n) => if n < 0 then w.backoff(a) else WaitForSeconds(w.backoff(a), n)
        case Date(t) => if t - w.now(a) <= 30 * SECOND then Max(t - w.now(a), 0) else w.backoff(a)
  }

  lemma SecondsAreWaited(backoff: int, status: int, n: int, now: int)
    requires status == 429 || status == 503
    ensures Adopted(backoff, Requested(status, Seconds(n), now))
            == if n < 0 then backoff else WaitForSeconds(backoff, n)
  {
    if n >= 0 {
      WrapByResidue(n);
      if n <= 30 { assert Wrap(n * SECOND) == n * SECOND; }
    }
  }

  /** The loop's delay is this one: no header, an unusable one, another status or an error leave the
      backoff. */
  lemma DelayIsWait(w: World, a: nat, timeout: bool)
    ensures DelayFor(w, a, Sent(timeout, w.outcome(a)).outcome) == Wait(w, a)
  {
    match w.outcome(a)
    case TransportError =>
    case Response(status, header, _) =>
      match header
      case Seconds(n) => if status == 429 || status == 503 { SecondsAreWaited(w.backoff(a), status, n, w.now(a)); }
      case Date(t) => DatesAreWaitedOut(w.backoff(a), status, t, w.now(a));
      case _ =>
  }

  /** More time is left than the delay takes. Time differences saturate, so a delay of the largest
      duration never fits under a deadline. */
  predicate TimeLeft(req: Request, w: World, a: nat) {
    match req.deadline
    case None => true
    case Some(t) => t - w.nowAtCheck(a) > Wait(w, a) && Wait(w, a) < MAX_DURATION
  }

  lemma TimeLeftIsCanWait(req: Request, w: World, a: nat)
    requires IsDuration(w.backoff(a))
    ensures TimeLeft(req, w, a) <==> CanWait(req.deadline, Wait(w, a), w.nowAtCheck(a))
  {
    WaitIsDuration(w, a);
  }

  lemma WaitIsDuration(w: World, a: nat)
    requires IsDuration(w.backoff(a))
    ensures IsDuration(Wait(w, a))
  {}

  /** After attempt `a` the loop sleeps. */
  predicate Sleeps(p: Policy, req: Request, w: World, a: nat) {
    a < p.maxAttempts && w.retryIf(a) == Again && TimeLeft(req, w, a)
  }

  /** And after that it sends attempt `a + 1`. */
  predicate GoesOn(p: Policy, req: Request, w: World, a: nat) {
    Sleeps(p, req, w, a) && w.wake(a) == Elapsed && (req.hasGetBody ==> w.bodyRebuilds(a + 1))
  }

  /** `n` is the first attempt that is not followed by another. */
  ghost predicate LastAttempt(p: Policy, req: Request, w: World, n: nat) {
    n >= 1 && !GoesOn(p, req, w, n) && forall k :: 1 <= k < n ==> GoesOn(p, req, w, k)
  }

  lemma {:induction false} SomeAttemptIsLast(p: Policy, req: Request, w: World, a: nat) returns (n: nat)
    requires a >= 1 && forall k :: 1 <= k < a ==> GoesOn(p, req, w, k)
    ensures LastAttempt(p, req, w, n)
    decreases p.maxAttempts - a
  {
    if GoesOn(p, req, w, a) { n := SomeAttemptIsLast(p, req, w, a + 1); } else { n := a; }
  }

  /** The sleeps are those after the attempts 1, 2, ..., each for its delay from its check on. */
  ghost predicate SleepsInTurn(w: World, sleeps: seq<Sleep>) {
    forall k :: 0 <= k < |sleeps| ==> sleeps[k] == Sleep(k + 1, Wait(w, k + 1), w.nowAtCheck(k + 1))
  }

  /** What is left when attempt `n` is the last one. */
  ghost predicate EndsAt(p: Policy, req: Request, w: World, n: nat, e: Ending, l: Ledger) {
    && |l.exchanges| == n
    && SleepsInTurn(w, l.sleeps) && |l.sleeps| == n - 1 + (if Sleeps(p, req, w, n) then 1 else 0)
    && |l.asked| == n - 1 + (if n < p.maxAttempts && w.retryIf(n) == Again then 1 else 0)
    && e == (if n >= p.maxAttempts || w.retryIf(n) == Enough then Result
             else if w.retryIf(n) == Panics then Panicked
             else if !TimeLeft(req, w, n) then Result
             else if w.wake(n) == Cancelled then GaveUp
             else BuildFailed)
  }

  /** One turn of the loop that goes on. */
  function Turned(req: Request, w: World, a: nat, l: Ledger): Ledger {
    var x := Sent(req.timeout, w.outcome(a));
    DrainLast(l.(exchanges := l.exchanges + [x], asked := l.asked + [a]))
      .(sleeps := l.sleeps + [Sleep(a, Wait(w, a), w.nowAtCheck(a))])
  }

  lemma LoopTurns(p: Policy, req: Request, w: World, a: nat, l: Ledger)
    requires a >= 1 && IsDuration(w.backoff(a)) && (a > 1 && req.hasGetBody ==> w.bodyRebuilds(a))
    requires GoesOn(p, req, w, a)
    ensures Loop(p, req, w, a, l) == Loop(p, req, w, a + 1, Turned(req, w, a, l))
  {
    DelayIsWait(w, a, req.timeout);
    TimeLeftIsCanWait(req, w, a);
  }

  lemma LoopStops(p: Policy, req: Request, w: World, a: nat, l: Ledger)
    requires a >= 1 && (forall k :: IsDuration(w.backoff(k))) && (a > 1 && req.hasGetBody ==> w.bodyRebuilds(a))
    requires |l.exchanges| == |l.asked| == |l.sleeps| == a - 1 && SleepsInTurn(w, l.sleeps) && !GoesOn(p, req, w, a)
    ensures EndsAt(p, req, w, a, Loop(p, req, w, a, l).0, Loop(p, req, w, a, l).1)
  {
    DelayIsWait(w, a, req.timeout);
    TimeLeftIsCanWait(req, w, a);
  }

  lemma {:induction false} LoopEndsAt(p: Policy, req: Request, w: World, a: nat, l: Ledger, n: nat)
    requires 1 <= a <= n && (forall k :: IsDuration(w.backoff(k))) && (a > 1 && req.hasGetBody ==> w.bodyRebuilds(a))
    requires |l.exchanges| == |l.asked| == |l.sleeps| == a - 1 && SleepsInTurn(w, l.sleeps)
    requires (forall k :: a <= k < n ==> GoesOn(p, req, w, k)) && !GoesOn(p, req, w, n)
    ensures EndsAt(p, req, w, n, Loop(p, req, w, a, l).0, Loop(p, req, w, a, l).1)
    decreases n - a
  {
    if a < n {
      assert GoesOn(p, req, w, a);
      LoopTurns(p, req, w, a, l);
      LoopEndsAt(p, req, w, a + 1, Turned(req, w, a, l), n);
    } else {
      LoopStops(p, req, w, a, l);
    }
  }

  /** Attempt `n` came back as the transport gave it, save that Timeout makes a missing body an empty one. */
  predicate AsObtained(req: Request, w: World, n: nat, x: Exchange) {
    match w.outcome(n)
    case TransportError => x.outcome == TransportError
    case Response(status, header, body) =>
      x.outcome == Response(status, header, if req.timeout && body == NilBody then Bytes(0) else body)
  }

  /** The sends, the sleeps and the ending of an eligible call, with `n` its last attempt. On a Result the
      caller gets what attempt `n` brought, untouched. */
  lemma EndingExactly(p: Policy, req: Request, w: World, n: nat)
    requires (forall k :: IsDuration(w.backoff(k))) && Eligible(p, req) && LastAttempt(p, req, w, n)
    ensures var (e, l) := Do(p, req, w);
            var over := n >= p.maxAttempts;
            && |l.exchanges| == n
            && (forall k :: 0 <= k < n ==> AsObtained(req, w, k + 1, l.exchanges[k]))
            && (e == Result <==> over || w.retryIf(n) == Enough || (w.retryIf(n) == Again && !TimeLeft(req, w, n)))
            && (e == Panicked <==> !over && w.retryIf(n) == Panics)
            && (e == GaveUp <==> Sleeps(p, req, w, n) && w.wake(n) == Cancelled)
            && (e == BuildFailed <==> Sleeps(p, req, w, n) && w.wake(n) == Elapsed)
            && (e == BuildFailed ==> req.hasGetBody && !w.bodyRebuilds(n + 1))
            && |l.asked| == (if !over && w.retryIf(n) == Again then n else n - 1)
            && (forall k :: 0 <= k < |l.asked| ==> l.asked[k] == k + 1)
            && (e == Result ==> Intact(req.timeout, l.exchanges[n - 1]))
            && (forall k :: 0 <= k < n && (k < n - 1 || e != Result) ==> Discarded(l.exchanges[k]))
  {
    LoopEndsAt(p, req, w, 1, EMPTY, n);
    DoSettles(p, req, w);
    forall k | 0 <= k < n
      ensures AsObtained(req, w, k + 1, Do(p, req, w).1.exchanges[k])
      ensures k < n - 1 || Do(p, req, w).0 != Result ==> Discarded(Do(p, req, w).1.exchanges[k])
      ensures k == n - 1 && Do(p, req, w).0 == Result ==> Intact(req.timeout, Do(p, req, w).1.exchanges[k])
    {
      ResponsesAreConserved(p, req, w, k);
    }
  }

  /** Every sleep is for exactly its delay, one after each attempt that another one follows, and one more
      when the call gives up in it or fails to rebuild the body after it. */
  lemma SleepsExactly(p: Policy, req: Request, w: World, n: nat)
    requires (forall k :: IsDuration(w.backoff(k))) && Eligible(p, req) && LastAttempt(p, req, w, n)
    ensures var sleeps := Do(p, req, w).1.sleeps;
            && |sleeps| == (if Sleeps(p, req, w, n) then n else n - 1)
            && forall k :: 0 <= k < |sleeps| ==> sleeps[k] == Sleep(k + 1, Wait(w, k + 1), w.nowAtCheck(k + 1))
  {
    LoopEndsAt(p, req, w, 1, EMPTY, n);
  }

  /** A call that may not be retried is sent once and handed back as it came. */
  lemma IneligibleIsPassedOn(p: Policy, req: Request, w: World)
    requires !Eligible(p, req)
    ensures var (e, l) := Do(p, req, w);
            && e == Result && |l.exchanges| == 1 && l.asked == [] && l.sleeps == []
            && AsObtained(req, w, 1, l.exchanges[0]) && Intact(req.timeout, l.exchanges[0])
  {}

  /** A request may be replayed: it has no body, or one that can be rebuilt, and its method, GET when
      none is named, is among the policy's. */
  predicate Replayable(p: Policy, req: Request) {
    && (!req.hasBody || req.hasGetBody)
    && (if req.verb == "" then "GET" in p.methods else req.verb in p.methods)
  }

  /** There is a second send exactly for a replayable request whose first attempt goes on. */
  lemma SecondSendExactly(p: Policy, req: Request, w: World)
    requires forall k :: IsDuration(w.backoff(k))
    ensures |Do(p, req, w).1.exchanges| >= 2 <==> Replayable(p, req) && GoesOn(p, req, w, 1)
  {
    if Eligible(p, req) {
      var n := SomeAttemptIsLast(p, req, w, 1);
      EndingExactly(p, req, w, n);
    }
  }
}
