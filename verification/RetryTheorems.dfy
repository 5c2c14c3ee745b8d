/** Conservation of responses and contexts, and the bounds on sends and sleeps. */
module RetryTheorems {
  import opened Prelude
  import opened Durations
  import opened RetryAfter
  import opened Retry
  import opened Backoff

  /** The loop is done with this attempt: its body was drained up to the cap and closed exactly
      once, and no context of its own is left running. */
  predicate Discarded(x: Exchange) {
    && x.ctx != Live
    && (HasBody(x.outcome) ==> x.closes == 1 && x.read == Min(x.outcome.body.n, 64 * 1024))
    && (!HasBody(x.outcome) ==> x.closes == 0 && x.read == 0)
  }

  /** This attempt is handed to the caller as it came back from the transport: unread, unclosed, and
      with its own context still alive exactly when there is a response to read under it. */
  predicate Intact(timeout: bool, x: Exchange) {
    && x.read == 0 && x.closes == 0
    && x.ctx == if !timeout then NoTimeout else if x.outcome.Response? then Live else Done
  }

  ghost predicate AllDiscarded(xs: seq<Exchange>) { forall k :: 0 <= k < |xs| ==> Discarded(xs[k]) }

  /** Backoff was consulted for the attempts 1, 2, ... in turn. */
  ghost predicate InTurn(asked: seq<nat>) { forall k :: 0 <= k < |asked| ==> asked[k] == k + 1 }

  ghost predicate SleepsOk(req: Request, w: World, sleeps: seq<Sleep>) {
    forall k :: 0 <= k < |sleeps| ==>
                  && sleeps[k].attempt == k + 1
                  && sleeps[k].delay <= Max(w.backoff(k + 1), MAX_RETRY_AFTER)
                  && (req.deadline.Some? ==> req.deadline.value - sleeps[k].at > sleeps[k].delay)
  }

  /** Exchange number `k` is what attempt `k + 1` brought. */
  ghost predicate Obtained(req: Request, w: World, xs: seq<Exchange>) {
    forall k :: 0 <= k < |xs| ==> xs[k].outcome == Sent(req.timeout, w.outcome(k + 1)).outcome
  }

  /** Before attempt `a` everything obtained so far has been discarded. */
  ghost predicate BeforeAttempt(p: Policy, req: Request, w: World, a: nat, l: Ledger) {
    && 1 <= a && (a <= p.maxAttempts || a == 1)
    && |l.exchanges| == a - 1 && |l.asked| == a - 1 && |l.sleeps| == a - 1
    && AllDiscarded(l.exchanges) && InTurn(l.asked) && SleepsOk(req, w, l.sleeps)
    && Obtained(req, w, l.exchanges)
  }

  ghost predicate Settled(p: Policy, req: Request, w: World, e: Ending, l: Ledger) {
    var n := |l.exchanges|;
    && 1 <= n && (n <= p.maxAttempts || n == 1)
    && (e == Result ==> AllDiscarded(l.exchanges[..n - 1]) && Intact(req.timeout, l.exchanges[n - 1]))
    && (e != Result ==> AllDiscarded(l.exchanges))
    && Obtained(req, w, l.exchanges)
    && InTurn(l.asked) && |l.asked| <= n && (|l.asked| < p.maxAttempts || |l.asked| == 0)
    && SleepsOk(req, w, l.sleeps) && |l.sleeps| <= |l.asked|
  }

  /** One turn of the loop: it is over, or goes on with this ledger. */
  datatype Turn = Over(ending: Ending, left: Ledger) | More(left: Ledger)

  function SentAt(req: Request, w: World, a: nat, l: Ledger, asked: seq<nat>): Ledger {
    Ledger(l.exchanges + [Sent(req.timeout, w.outcome(a))], asked, l.sleeps)
  }

  function SleptAt(req: Request, w: World, a: nat, l: Ledger): Ledger {
    var delay := DelayFor(w, a, Sent(req.timeout, w.outcome(a)).outcome);
    DrainLast(SentAt(req, w, a, l, l.asked + [a])).(sleeps := l.sleeps + [Sleep(a, delay, w.nowAtCheck(a))])
  }

  function TurnOf(p: Policy, req: Request, w: World, a: nat, l: Ledger): Turn {
    var delay := DelayFor(w, a, Sent(req.timeout, w.outcome(a)).outcome);
    if a > 1 && req.hasGetBody && !w.bodyRebuilds(a) then Over(BuildFailed, l)
    else if a >= p.maxAttempts || w.retryIf(a) == Enough then Over(Result, SentAt(req, w, a, l, l.asked))
    else if w.retryIf(a) == Panics then Over(Panicked, DrainLast(SentAt(req, w, a, l, l.asked)))
    else if !CanWait(req.deadline, delay, w.nowAtCheck(a)) then Over(Result, SentAt(req, w, a, l, l.asked + [a]))
    else if w.wake(a) == Cancelled then Over(GaveUp, SleptAt(req, w, a, l))
    else More(SleptAt(req, w, a, l))
  }

  lemma CanWaitMeans(deadline: int, delay: int, now: int)
    requires CanWait(Some(deadline), delay, now)
    ensures deadline - now > delay || delay < MIN_DURATION
  {}

  lemma OneMoreObtained(req: Request, w: World, xs: seq<Exchange>, x: Exchange)
    requires Obtained(req, w, xs) && x.outcome == Sent(req.timeout, w.outcome(|xs| + 1)).outcome
    ensures Obtained(req, w, xs + [x])
  {}

  lemma OneMoreDiscarded(timeout: bool, o: Outcome, xs: seq<Exchange>)
    requires AllDiscarded(xs)
    ensures AllDiscarded(xs + [Drained(Sent(timeout, o))])
  {
    assert Discarded(Drained(Sent(timeout, o)));
  }

  lemma OneMoreInTurn(asked: seq<nat>, a: nat)
    requires InTurn(asked) && |asked| == a - 1
    ensures InTurn(asked + [a])
  {}

  /** The attempt just sent can be handed back, before or after consulting Backoff. */
  lemma SentSettles(p: Policy, req: Request, w: World, a: nat, l: Ledger, asked: seq<nat>)
    requires BeforeAttempt(p, req, w, a, l)
    requires asked == l.asked || (a < p.maxAttempts && asked == l.asked + [a])
    ensures Settled(p, req, w, Result, SentAt(req, w, a, l, asked))
  {
    var x := Sent(req.timeout, w.outcome(a));
    OneMoreObtained(req, w, l.exchanges, x);
    OneMoreInTurn(l.asked, a);
    assert (l.exchanges + [x])[..a - 1] == l.exchanges;
  }

  /** After the drain everything is discarded, whether RetryIf panicked or the sleep follows. */
  lemma DrainedSettles(p: Policy, req: Request, w: World, a: nat, l: Ledger)
    requires BeforeAttempt(p, req, w, a, l)
    ensures var l1 := DrainLast(SentAt(req, w, a, l, l.asked));
            && |l1.exchanges| == a && AllDiscarded(l1.exchanges) && Obtained(req, w, l1.exchanges)
            && Settled(p, req, w, Panicked, l1)
  {
    var x := Sent(req.timeout, w.outcome(a));
    OneMoreObtained(req, w, l.exchanges, Drained(x));
    OneMoreDiscarded(req.timeout, w.outcome(a), l.exchanges);
    assert DrainLast(l.(exchanges := l.exchanges + [x])).exchanges == l.exchanges + [Drained(x)];
  }

  lemma SleptSettles(p: Policy, req: Request, w: World, a: nat, l: Ledger)
    requires BeforeAttempt(p, req, w, a, l) && a < p.maxAttempts && IsDuration(w.backoff(a))
    requires CanWait(req.deadline, DelayFor(w, a, Sent(req.timeout, w.outcome(a)).outcome), w.nowAtCheck(a))
    ensures var l1 := SleptAt(req, w, a, l);
            Settled(p, req, w, GaveUp, l1) && BeforeAttempt(p, req, w, a + 1, l1)
  {
    DrainedSettles(p, req, w, a, l);
    var delay := DelayFor(w, a, Sent(req.timeout, w.outcome(a)).outcome);
    if req.deadline.Some? { CanWaitMeans(req.deadline.value, delay, w.nowAtCheck(a)); }
  }

  lemma LoopTakesTurns(p: Policy, req: Request, w: World, a: nat, l: Ledger)
    requires a >= 1
    ensures var turn := TurnOf(p, req, w, a, l);
            Loop(p, req, w, a, l)
            == if turn.Over? then (turn.ending, turn.left) else Loop(p, req, w, a + 1, turn.left)
  {
    var x := Sent(req.timeout, w.outcome(a));
    assert l.(exchanges := l.exchanges + [x]) == SentAt(req, w, a, l, l.asked);
    assert l.(exchanges := l.exchanges + [x], asked := l.asked + [a]) == SentAt(req, w, a, l, l.asked + [a]);
  }

  lemma TurnSettles(p: Policy, req: Request, w: World, a: nat, l: Ledger)
    requires BeforeAttempt(p, req, w, a, l) && IsDuration(w.backoff(a))
    ensures var turn := TurnOf(p, req, w, a, l);
            if turn.Over? then Settled(p, req, w, turn.ending, turn.left)
            else a < p.maxAttempts && BeforeAttempt(p, req, w, a + 1, turn.left)
  {
    var turn := TurnOf(p, req, w, a, l);
    if turn.Over? && turn.ending == Result {
      SentSettles(p, req, w, a, l, turn.left.asked);
    } else if turn.Over? && turn.ending == Panicked {
      DrainedSettles(p, req, w, a, l);
    } else if turn.More? || turn.ending == GaveUp {
      SleptSettles(p, req, w, a, l);
    }
  }

  lemma {:induction false} LoopSettles(p: Policy, req: Request, w: World, a: nat, l: Ledger)
    requires BeforeAttempt(p, req, w, a, l)
    requires forall k :: IsDuration(w.backoff(k))
    ensures Settled(p, req, w, Loop(p, req, w, a, l).0, Loop(p, req, w, a, l).1)
    decreases p.maxAttempts - a
  {
    LoopTakesTurns(p, req, w, a, l);
    TurnSettles(p, req, w, a, l);
    var turn := TurnOf(p, req, w, a, l);
    if turn.More? { LoopSettles(p, req, w, a + 1, turn.left); }
  }

  lemma DoSettles(p: Policy, req: Request, w: World)
    requires forall k :: IsDuration(w.backoff(k))
    ensures Settled(p, req, w, Do(p, req, w).0, Do(p, req, w).1)
  {
    if Eligible(p, req) { LoopSettles(p, req, w, 1, EMPTY); }
  }

  /** On every return of do and on a panicking RetryIf: the response handed back is the last one
      obtained, untouched; every other response was drained and closed exactly once and its
      context, if it had one, cancelled; an error leaves no context running. */
  lemma ResponsesAreConserved(p: Policy, req: Request, w: World, k: nat)
    requires forall a :: IsDuration(w.backoff(a))
    requires k < |Do(p, req, w).1.exchanges|
    ensures var (e, l) := Do(p, req, w);
            if e == Result && k == |l.exchanges| - 1 then Intact(req.timeout, l.exchanges[k])
            else Discarded(l.exchanges[k])
    ensures Do(p, req, w).1.exchanges[k].outcome == Sent(req.timeout, w.outcome(k + 1)).outcome
  {
    DoSettles(p, req, w);
    var (e, l) := Do(p, req, w);
    if e == Result && k < |l.exchanges| - 1 { assert l.exchanges[..|l.exchanges| - 1][k] == l.exchanges[k]; }
  }

  /** At most MaxAttempts sends, exactly one for a request that may not be retried; Backoff is
      consulted in turn and only for attempts before the last. */
  lemma SendsAreBounded(p: Policy, req: Request, w: World)
    requires p.maxAttempts >= 1 && forall a :: IsDuration(w.backoff(a))
    ensures 1 <= |Do(p, req, w).1.exchanges| <= p.maxAttempts
    ensures !Eligible(p, req) ==> |Do(p, req, w).1.exchanges| == 1 && Do(p, req, w).1.asked == []
    ensures forall k :: 0 <= k < |Do(p, req, w).1.asked| ==> Do(p, req, w).1.asked[k] == k + 1 < p.maxAttempts
  {
    DoSettles(p, req, w);
  }

  /** Every sleep starts with more time left than it takes, and is no longer than the policy's
      backoff or the 30-second cap, whatever the header says. */
  lemma SleepsAreBounded(p: Policy, req: Request, w: World, k: nat)
    requires forall a :: IsDuration(w.backoff(a))
    requires k < |Do(p, req, w).1.sleeps|
    ensures var s := Do(p, req, w).1.sleeps[k];
            && s.attempt == k + 1
            && s.delay <= Max(w.backoff(k + 1), MAX_RETRY_AFTER)
            && (req.deadline.Some? ==> req.deadline.value - s.at > s.delay)
  {
    DoSettles(p, req, w);
  }

  function TotalSleep(sleeps: seq<Sleep>): int {
    if sleeps == [] then 0
    else TotalSleep(sleeps[..|sleeps| - 1]) + Max(sleeps[|sleeps| - 1].delay, 0)
  }

  lemma {:induction false} TotalIsBounded(sleeps: seq<Sleep>, bound: nat)
    requires forall k :: 0 <= k < |sleeps| ==> sleeps[k].delay <= bound
    ensures TotalSleep(sleeps) <= |sleeps| * bound
  {
    if sleeps != [] {
      TotalIsBounded(sleeps[..|sleeps| - 1], bound);
      assert |sleeps| * bound == (|sleeps| - 1) * bound + bound;
    }
  }

  /** The whole call sleeps at most MaxAttempts - 1 times the larger of the backoff's bound and 30s. */
  lemma TotalSleepIsBounded(p: Policy, req: Request, w: World, b: nat)
    requires p.maxAttempts >= 1 && forall a :: MIN_DURATION <= w.backoff(a) <= b <= MAX_DURATION
    ensures TotalSleep(Do(p, req, w).1.sleeps) <= (p.maxAttempts - 1) * Max(b, MAX_RETRY_AFTER)
  {
    DoSettles(p, req, w);
    var sleeps, m := Do(p, req, w).1.sleeps, Max(b, MAX_RETRY_AFTER);
    TotalIsBounded(sleeps, m);
    MulMonotone(|sleeps|, p.maxAttempts - 1, m);
  }

  /** Every delay is a draw of the default backoff: full jitter over 100ms doubling up to 2s. */
  ghost predicate DefaultBackoff(w: World) {
    forall a: nat :: exists draw :: Jitter(Doubling(100_000_000, 2_000_000_000, Turns(a)), draw) == Value(w.backoff(a))
  }

  lemma DefaultBackoffIsShort(w: World, a: nat)
    requires DefaultBackoff(w)
    ensures 0 <= w.backoff(a) <= 2_000_000_000
  {
    var d := Doubling(100_000_000, 2_000_000_000, Turns(a));
    ExponentialIsMonotone(100_000_000, 2_000_000_000, Min(a, 1), a);
    var draw :| Jitter(d, draw) == Value(w.backoff(a));
    JitterStaysInRange(d, draw);
  }

  /** With the default attempts and the default backoff a call sleeps at most a minute, whatever the
      headers say. */
  lemma DefaultPolicySleepsAMinute(methods: Option<seq<string>>, req: Request, w: World)
    requires DefaultBackoff(w)
    ensures TotalSleep(Do(WithDefaults(0, methods), req, w).1.sleeps) <= 60_000_000_000
  {
    SleepsAMinute(WithDefaults(0, methods), req, w);
  }

  lemma SleepsAMinute(p: Policy, req: Request, w: World)
    requires DefaultBackoff(w) && p.maxAttempts == 3
    ensures TotalSleep(Do(p, req, w).1.sleeps) <= 60_000_000_000
  {
    forall a: nat ensures 0 <= w.backoff(a) <= 2_000_000_000 { DefaultBackoffIsShort(w, a); }
    TotalSleepIsBounded(p, req, w, 2_000_000_000);
  }

  lemma {:induction false} MulMonotone(a: nat, b: nat, m: nat)
    requires a <= b
    ensures a * m <= b * m
  {
    if a < b {
      MulMonotone(a, b - 1, m);
      assert b * m == (b - 1) * m + m;
    }
  }

  // ---- Which attempt decides ---------------------------------------------------------------------
}
