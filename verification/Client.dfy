/**
 The composed client: breaker over retry over timeout (kit/client.go, resilience/breaker.go).
 One breaker admission covers a whole logical call with all its attempts.
 */
module Client {
  import opened Prelude
  import B = Breaker
  import R = Retry
  import BR = BreakerRuns
  import BT = BreakerTheorems
  import BF = BreakerFlights
  import RT = RetryTheorems
  import RE = RetryEndings
  import Durations

  datatype Layer = BreakerLayer | RetryLayer | TelemetryLayer | UserLayer

  /** The middleware chain NewClient builds, outermost first. */
  method NewClient(disableBreaker: bool, hasMiddleware: bool) returns (ms: seq<Layer>)
    ensures |ms| > 0 && (ms[0] == BreakerLayer <==> !disableBreaker)
    ensures BreakerLayer !in ms[1..]
    ensures |ms| == 2 + (if disableBreaker then 0 else 1) + (if hasMiddleware then 1 else 0)
    ensures exists k :: 0 <= k < |ms| - 1 && ms[k] == RetryLayer && ms[k + 1] == TelemetryLayer
    ensures ms[|ms| - 1] == (if hasMiddleware then UserLayer else TelemetryLayer)
  {
    ms := [];
    if !disableBreaker { ms := ms + [BreakerLayer]; }
    ghost var k := |ms|;
    ms := ms + [RetryLayer, TelemetryLayer];
    if hasMiddleware { ms := ms + [UserLayer]; }
    assert ms[k] == RetryLayer && ms[k + 1] == TelemetryLayer;
  }

  /** What one logical call comes back with: refused, or the retry loop's ending and ledger. */
  datatype Answer = Refused | Called(ending: R.Ending, ledger: R.Ledger)

  /** What TripIf is shown: a response, or an error of the transport or of the loop. */
  datatype CallResult = Got(response: R.Outcome) | Erred(cause: R.Ending)

  function ResultOf(ending: R.Ending, l: R.Ledger): CallResult
    requires l.exchanges != []
  {
    if ending == R.Result && R.Last(l).outcome.Response? then Got(R.Last(l).outcome) else Erred(ending)
  }

  type TripIf = CallResult -> bool

  predicate DefaultTripIf(r: CallResult) {
    match r
    case Got(Response(status, _, _)) => B.DefaultTripIf(false, status)
    case _ => B.DefaultTripIf(true, 0)
  }

  /** The policies of the two layers. */
  datatype Stack = Stack(bp: B.Policy, tripIf: TripIf, rp: R.Policy)

  /** One logical call: its request, what the world does to it, and when it arrives and is over. */
  datatype Job = Job(req: R.Request, w: R.World, start: int, finish: int)

  ghost predicate Timely(w: R.World) { forall a :: Durations.IsDuration(w.backoff(a)) }

  lemma SomethingWasSent(rp: R.Policy, req: R.Request, w: R.World)
    requires Timely(w)
    ensures R.Do(rp, req, w).1.exchanges != []
  {
    RT.DoSettles(rp, req, w);
  }

  /** One logical call through breaker and loop. */
  ghost function RoundTrip(st: Stack, b: B.Core, job: Job): (Answer, B.Core)
    requires Timely(job.w)
  {
    SomethingWasSent(st.rp, job.req, job.w);
    match B.Allow(st.bp, b, job.start)
    case (ErrOpen, b1) => (Refused, b1)
    case (Admit(probe), b1) =>
      var (ending, l) := R.Do(st.rp, job.req, job.w);
      var b2 := if ending == R.Panicked then b1
                else B.Record(st.bp, b1, st.tripIf(ResultOf(ending, l)), job.finish);
      (Called(ending, l), if probe then B.Release(b2) else b2)
  }

  class StackedClient {
    const breaker: B.CircuitBreaker
    const tripIf: TripIf
    const policy: R.Policy

    ghost function Policies(): Stack { Stack(breaker.p, tripIf, policy) }

    /** No TripIf means the default one. */
    constructor (bp: B.Policy, tripIf: Option<TripIf>, policy: R.Policy)
      ensures fresh(breaker) && breaker.p == B.WithDefaults(bp) && breaker.Value() == B.NEW_CORE
      ensures this.policy == policy
      ensures this.tripIf == if tripIf.Some? then tripIf.value else DefaultTripIf
    {
      breaker := new B.CircuitBreaker(bp);
      var trips: TripIf := DefaultTripIf;
      if tripIf.Some? { trips := tripIf.value; }
      this.tripIf := trips;
      this.policy := policy;
    }

    method Send(job: Job) returns (answer: Answer)
      requires Timely(job.w)
      modifies breaker
      ensures (answer, breaker.Value()) == RoundTrip(Policies(), old(breaker.Value()), job)
    {
      var verdict := breaker.AllowRequest(job.start);
      if verdict == B.ErrOpen { return Refused; }
      var call := new R.Call();
      var ending := call.Run(policy, job.req, job.w);
      SomethingWasSent(policy, job.req, job.w);
      var ledger := R.Ledger(call.exchanges, call.asked, call.sleeps);
      if ending != R.Panicked {
        breaker.RecordResult(tripIf(ResultOf(ending, ledger)), job.finish);
      }
      if verdict.probe { breaker.ReleaseProbe(); }
      answer := Called(ending, ledger);
    }
  }

  // ---- One call among others --------------------------------------------------------------------

  /** How the call leaves the transport: with a result to record, or unwinding. */
  ghost function LeaveStep(st: Stack, job: Job, id: nat): BR.Step
    requires Timely(job.w)
  {
    SomethingWasSent(st.rp, job.req, job.w);
    var (ending, l) := R.Do(st.rp, job.req, job.w);
    if ending == R.Panicked then BR.Panic(id) else BR.Finish(id, st.tripIf(ResultOf(ending, l)))
  }

  /** A run of the breaker from its new state. */
  datatype Run = Run(bp: B.Policy, start: int, steps: seq<BR.Step>)

  ghost predicate Leads(r: Run, s: BR.System) { BR.Exec(r.bp, true, r.start, r.steps) == Some(s) }

  function More(r: Run, t: BR.Step): Run { r.(steps := r.steps + [t]) }

  lemma OneMoreStep(r: Run, s: BR.System, t: BR.Step)
    requires Leads(r, s) && BR.Enabled(s, t)
    ensures Leads(More(r, t), BR.Next(r.bp, true, s, t))
  {
    BT.ExecExtend(r.bp, r.start, r.steps, t);
  }

  /** Asking at time `start` when the clock reads `now`. */
  function AskSteps(id: nat, now: int, start: int): seq<BR.Step>
    requires now <= start
  {
    [BR.Tick(start - now), BR.Arrive(id)]
  }

  /** The rest of an admitted call that asked at `start` and has its result at `finish`. */
  function EndSteps(id: nat, start: int, finish: int, leave: BR.Step, probe: bool): seq<BR.Step>
    requires start <= finish
  {
    [BR.Tick(finish - start), leave] + if probe then [BR.LetGo(id)] else []
  }

  /** The steps of one logical call: it waits, asks, and when admitted spends its time on the network,
      leaves, and lets go of the probe. */
  function CallSteps(id: nat, now: int, start: int, finish: int, leave: BR.Step, verdict: B.Verdict): seq<BR.Step>
    requires now <= start <= finish
  {
    AskSteps(id, now, start) + if verdict.Admit? then EndSteps(id, start, finish, leave, verdict.probe) else []
  }

  /** The request waits for its time and asks. */
  lemma Asks(r: Run, s: BR.System, id: nat, start: int) returns (r': Run, s': BR.System)
    requires Leads(r, s) && id !in s.flights && s.clock <= start
    ensures Leads(r', s') && r' == r.(steps := r.steps + AskSteps(id, s.clock, start)) && s'.clock == start
    ensures var (verdict, b) := B.Allow(r.bp, s.b, start);
            && s'.b == b && BF.Records(s'.hist) == BF.Records(s.hist)
            && s'.flights == if verdict.Admit? then s.flights[id := BR.Flight(verdict.probe, BR.Sending)] else s.flights
  {
    var s1, tick := s.(clock := start), BR.Tick(start - s.clock);
    OneMoreStep(r, s, tick);
    OneMoreStep(More(r, tick), s1, BR.Arrive(id));
    r', s' := More(More(r, tick), BR.Arrive(id)), BR.Next(r.bp, true, s1, BR.Arrive(id));
    assert r'.steps == r.steps + AskSteps(id, s.clock, start);
    match B.Allow(r.bp, s.b, start).0
    case ErrOpen => BF.RecordsAppend(s.hist, BR.Rejected(start));
    case Admit(probe) => BF.RecordsAppend(s.hist, BR.Admitted(probe, start));
  }

  /** The fields once the result of an admitted call is in, before any release. */
  function Left(bp: B.Policy, b: B.Core, t: BR.Step, now: int): B.Core {
    if t.Finish? then B.Record(bp, b, t.tripped, now) else b
  }

  /** An admitted request spends its time on the network and leaves it with a result or a panic. */
  lemma Leaves(r: Run, s: BR.System, id: nat, finish: int, leave: BR.Step) returns (r': Run, s': BR.System)
    requires Leads(r, s) && id in s.flights && s.flights[id].stage == BR.Sending && s.clock <= finish
    requires leave == BR.Panic(id) || (leave.Finish? && leave.id == id)
    ensures Leads(r', s') && r' == More(More(r, BR.Tick(finish - s.clock)), leave)
    ensures s'.b == Left(r.bp, s.b, leave, finish) && s'.flights == BR.Leave(s.flights, id)
    ensures BF.Records(s'.hist) == BF.Records(s.hist) + if leave.Finish? then 1 else 0
  {
    var s1, tick := s.(clock := finish), BR.Tick(finish - s.clock);
    OneMoreStep(r, s, tick);
    OneMoreStep(More(r, tick), s1, leave);
    r', s' := More(More(r, tick), leave), BR.Next(r.bp, true, s1, leave);
    if leave.Finish? { BF.RecordsAppend(s.hist, BR.Recorded(leave.tripped, finish)); }
  }

  /** A probe then lets go. */
  lemma LetsGo(r: Run, s: BR.System, id: nat) returns (r': Run, s': BR.System)
    requires Leads(r, s) && id in s.flights && s.flights[id].stage == BR.Unwinding
    ensures Leads(r', s') && r' == More(r, BR.LetGo(id))
    ensures s'.b == B.Release(s.b) && s'.flights == s.flights - {id} && BF.Records(s'.hist) == BF.Records(s.hist)
  {
    OneMoreStep(r, s, BR.LetGo(id));
    r', s' := More(r, BR.LetGo(id)), BR.Next(r.bp, true, s, BR.LetGo(id));
    BF.RecordsAppend(s.hist, BR.Released);
  }

  /** An admitted request, from the network to the end. */
  lemma Ends(r: Run, s: BR.System, id: nat, finish: int, leave: BR.Step) returns (r': Run, s': BR.System)
    requires Leads(r, s) && id in s.flights && s.flights[id].stage == BR.Sending && s.clock <= finish
    requires leave == BR.Panic(id) || (leave.Finish? && leave.id == id)
    ensures Leads(r', s') && r' == r.(steps := r.steps + EndSteps(id, s.clock, finish, leave, s.flights[id].probe))
    ensures var b := Left(r.bp, s.b, leave, finish);
            s'.b == if s.flights[id].probe then B.Release(b) else b
    ensures s'.flights == s.flights - {id}
    ensures BF.Records(s'.hist) == BF.Records(s.hist) + if leave.Finish? then 1 else 0
  {
    r', s' := Leaves(r, s, id, finish, leave);
    if s.flights[id].probe {
      r', s' := LetsGo(r', s', id);
      assert BR.Leave(s.flights, id) - {id} == s.flights - {id};
    }
    assert r'.steps == r.steps + EndSteps(id, s.clock, finish, leave, s.flights[id].probe);
  }

  /** What a call that leaves with `leave` makes of the fields. */
  function CallLeaves(bp: B.Policy, b: B.Core, start: int, finish: int, leave: BR.Step): B.Core {
    match B.Allow(bp, b, start)
    case (ErrOpen, b1) => b1
    case (Admit(probe), b1) =>
      if probe then B.Release(Left(bp, b1, leave, finish)) else Left(bp, b1, leave, finish)
  }

  lemma AdmittedRuns(r: Run, s: BR.System, id: nat, start: int, finish: int, leave: BR.Step, probe: bool)
    returns (r': Run, s': BR.System)
    requires Leads(r, s) && id !in s.flights && (leave == BR.Panic(id) || (leave.Finish? && leave.id == id))
    requires s.clock <= start <= finish && B.Allow(r.bp, s.b, start).0 == B.Admit(probe)
    ensures Leads(r', s')
    ensures r' == r.(steps := r.steps + (AskSteps(id, s.clock, start) + EndSteps(id, start, finish, leave, probe)))
    ensures var b := Left(r.bp, B.Allow(r.bp, s.b, start).1, leave, finish);
            s'.b == if probe then B.Release(b) else b
    ensures s'.flights == s.flights && BF.Records(s'.hist) == BF.Records(s.hist) + if leave.Finish? then 1 else 0
  {
    r', s' := Asks(r, s, id, start);
    r', s' := Ends(r', s', id, finish, leave);
    assert s'.flights == s.flights;
    Regroup(r.steps, AskSteps(id, s.clock, start), EndSteps(id, start, finish, leave, probe));
  }

  lemma CallRuns(r: Run, s: BR.System, id: nat, start: int, finish: int, leave: BR.Step)
    returns (r': Run, s': BR.System)
    requires Leads(r, s) && id !in s.flights && (leave == BR.Panic(id) || (leave.Finish? && leave.id == id))
    requires s.clock <= start <= finish
    ensures var verdict := B.Allow(r.bp, s.b, start).0;
            && Leads(r', s') && r' == r.(steps := r.steps + CallSteps(id, s.clock, start, finish, leave, verdict))
            && s'.b == CallLeaves(r.bp, s.b, start, finish, leave) && s'.flights == s.flights
            && BF.Records(s'.hist) == BF.Records(s.hist) + if verdict.Admit? && leave.Finish? then 1 else 0
  {
    match B.Allow(r.bp, s.b, start).0
    case Admit(probe) => r', s' := AdmittedRuns(r, s, id, start, finish, leave, probe);
    case ErrOpen =>
      r', s' := Asks(r, s, id, start);
      assert AskSteps(id, s.clock, start) + [] == AskSteps(id, s.clock, start);
  }

  lemma Regroup(a: seq<BR.Step>, b: seq<BR.Step>, c: seq<BR.Step>)
    ensures a + (b + c) == a + b + c
  {}

  /** What a round trip makes of the answer and the fields, in terms of how it leaves the transport. */
  lemma RoundTripLeaves(st: Stack, b: B.Core, job: Job, id: nat) returns (answer: Answer, b1: B.Core, leave: BR.Step)
    requires Timely(job.w) && st.rp.maxAttempts >= 1
    ensures (answer, b1) == RoundTrip(st, b, job) && leave == LeaveStep(st, job, id)
    ensures leave == BR.Panic(id) || (leave.Finish? && leave.id == id)
    ensures b1 == CallLeaves(st.bp, b, job.start, job.finish, leave)
    ensures answer.Called? <==> B.Allow(st.bp, b, job.start).0.Admit?
    ensures answer.Called? ==> (answer.ending == R.Panicked <==> leave.Panic?)
    ensures answer.Called? ==> 1 <= |answer.ledger.exchanges| <= st.rp.maxAttempts
  {
    RT.SendsAreBounded(st.rp, job.req, job.w);
    leave := LeaveStep(st, job, id);
    var r := RoundTrip(st, b, job);
    answer, b1 := r.0, r.1;
  }

  /** A logical call extends any run of the breaker by its own steps: it leaves the fields those steps
      leave and no flight of its own, records one result when it is admitted and does not panic, none
      otherwise, and sends between 1 and MaxAttempts requests. */
  lemma CallIsOneRecord(st: Stack, r: Run, s: BR.System, job: Job, id: nat)
    returns (answer: Answer, leave: BR.Step, r': Run, s': BR.System)
    requires r.bp == st.bp && Leads(r, s) && id !in s.flights && s.clock <= job.start <= job.finish
    requires Timely(job.w) && st.rp.maxAttempts >= 1
    ensures leave == LeaveStep(st, job, id) && (answer, s'.b) == RoundTrip(st, s.b, job)
    ensures var verdict := B.Allow(st.bp, s.b, job.start).0;
            && Leads(r', s')
            && r' == r.(steps := r.steps + CallSteps(id, s.clock, job.start, job.finish, leave, verdict))
    ensures s'.flights == s.flights
    ensures BF.Records(s'.hist) == BF.Records(s.hist) + if answer.Called? && answer.ending != R.Panicked then 1 else 0
    ensures answer.Called? ==> 1 <= |answer.ledger.exchanges| <= st.rp.maxAttempts
  {
    var b;
    answer, b, leave := RoundTripLeaves(st, s.b, job, id);
    r', s' := CallRuns(r, s, id, job.start, job.finish, leave);
  }

  /** However many attempts a call took, it moves the count by its final result alone: one more when
      TripIf says so, else back to zero with the circuit closed. With the default TripIf a final
      response below 500, on whichever attempt, is of the second kind. */
  lemma LateSuccessClearsTheCount(st: Stack, b: B.Core, job: Job)
    requires Timely(job.w)
    ensures var (answer, b1) := RoundTrip(st, b, job);
            answer.Called? && answer.ending != R.Panicked && answer.ledger.exchanges != [] ==>
              && b1.fails == (if st.tripIf(ResultOf(answer.ending, answer.ledger)) then b.fails + 1 else 0)
              && (!st.tripIf(ResultOf(answer.ending, answer.ledger)) ==> b1.circuit == B.Closed)
    ensures var (answer, b1) := RoundTrip(st, b, job);
            (&& st.tripIf == DefaultTripIf && answer.Called? && answer.ending == R.Result
             && answer.ledger.exchanges != [] && R.Last(answer.ledger).outcome.Response?
             && R.Last(answer.ledger).outcome.status < 500)
            ==> b1.fails == 0 && b1.circuit == B.Closed
  {
    SomethingWasSent(st.rp, job.req, job.w);
  }

  /** The documented table of the two defaults: a 429 is retried and does not trip, a 5xx other than 502,
      503 and 504 trips and is not retried; an error is and does both, and they agree on all the rest. */
  lemma DefaultsDisagreeExactly(o: R.Outcome)
    ensures R.DefaultRetryIf(o) <==> o.TransportError? || o.status == 429 || 502 <= o.status <= 504
    ensures o.Response? ==> (DefaultTripIf(Got(o)) <==> o.status >= 500)
    ensures forall cause :: DefaultTripIf(Erred(cause))
  {}

  /** What the default TripIf counts, in terms of how the call ended: an admitted call that does not panic
      adds one to the count exactly when it ended in an error, of the loop or of the transport, or in a
      response with a status of 500 or more; else it clears the count and closes the circuit. */
  lemma DefaultTripsExactly(st: Stack, b: B.Core, job: Job)
    requires Timely(job.w) && st.tripIf == DefaultTripIf && b.fails >= 0 && B.Allow(st.bp, b, job.start).0.Admit?
    requires R.Do(st.rp, job.req, job.w).0 != R.Panicked
    ensures var (e, l) := R.Do(st.rp, job.req, job.w);
            var b1 := RoundTrip(st, b, job).1;
            && l.exchanges != []
            && var failed := e != R.Result || R.Last(l).outcome.TransportError? || R.Last(l).outcome.status >= 500;
            && b1.fails == (if failed then b.fails + 1 else 0) && (!failed ==> b1.circuit == B.Closed)
  {
    SomethingWasSent(st.rp, job.req, job.w);
  }

  // ---- A dead upstream --------------------------------------------------------------------------

  /** A transport error or a 503. */
  predicate Down(o: R.Outcome) { o.TransportError? || o.status == 503 }

  /** Every attempt fails so, RetryIf is the default, and nothing cuts the loop short. */
  ghost predicate Dead(w: R.World) {
    && (forall a :: Down(w.outcome(a)))
    && (forall a :: w.retryIf(a) == if R.DefaultRetryIf(w.outcome(a)) then R.Again else R.Enough)
    && (forall a :: w.wake(a) == R.Elapsed && w.bodyRebuilds(a))
    && Timely(w)
  }

  lemma DeadCallUsesEveryAttempt(rp: R.Policy, req: R.Request, w: R.World)
    requires rp.maxAttempts >= 1 && R.Eligible(rp, req) && req.deadline == None && Dead(w)
    ensures R.Do(rp, req, w).0 == R.Result
    ensures |R.Do(rp, req, w).1.exchanges| == rp.maxAttempts && Down(R.Last(R.Do(rp, req, w).1).outcome)
  {
    forall k: nat ensures Down(w.outcome(k)) && w.retryIf(k) == R.Again { assert R.DefaultRetryIf(w.outcome(k)); }
    assert RE.LastAttempt(rp, req, w, rp.maxAttempts);
    RE.EndingExactly(rp, req, w, rp.maxAttempts);
    assert RE.AsObtained(req, w, rp.maxAttempts, R.Last(R.Do(rp, req, w).1));
  }

  ghost predicate AllTimely(jobs: seq<Job>) { forall k :: 0 <= k < |jobs| ==> Timely(jobs[k].w) }

  /** The answers to calls made one after the other on a new client, and the fields they leave. */
  ghost function Calls(st: Stack, jobs: seq<Job>): (seq<Answer>, B.Core)
    requires AllTimely(jobs)
  {
    if jobs == [] then ([], B.NEW_CORE)
    else
      var (answers, b) := Calls(st, jobs[..|jobs| - 1]);
      var (answer, b1) := RoundTrip(st, b, jobs[|jobs| - 1]);
      (answers + [answer], b1)
  }

  function Sends(answers: seq<Answer>): nat {
    if answers == [] then 0
    else
      Sends(answers[..|answers| - 1]) +
      match answers[|answers| - 1] case Refused => 0 case Called(_, l) => |l.exchanges|
  }

  /** An eligible request without a deadline, sent into a dead upstream. */
  ghost predicate Hopeless(st: Stack, job: Job) {
    R.Eligible(st.rp, job.req) && job.req.deadline == None && Dead(job.w)
  }

  /** Policies as defaulted, and a TripIf that, like the default, counts a transport error and a 503 as
      failures. */
  ghost predicate CountsFailures(st: Stack) {
    && st.bp.threshold >= 1 && st.rp.maxAttempts >= 1
    && st.tripIf(Erred(R.Result))
    && (forall o: R.Outcome :: o.Response? && o.status == 503 ==> st.tripIf(Got(o)))
  }

  lemma DefaultCountsFailures(bp: B.Policy, maxAttempts: int, methods: Option<seq<string>>)
    ensures CountsFailures(Stack(B.WithDefaults(bp), DefaultTripIf, R.WithDefaults(maxAttempts, methods)))
  {}

  lemma DeadRoundTrip(st: Stack, b: B.Core, job: Job)
    requires CountsFailures(st) && Hopeless(st, job) && b.circuit == B.Closed
    ensures var (answer, b1) := RoundTrip(st, b, job);
            && answer.Called? && |answer.ledger.exchanges| == st.rp.maxAttempts
            && b1 == B.Record(st.bp, b, true, job.finish)
  {
    DeadCallUsesEveryAttempt(st.rp, job.req, job.w);
  }

  /** Every call so far was admitted, used `m` attempts and failed; the last one opened the circuit
      if the threshold was reached. */
  ghost predicate UntilOpen(bp: B.Policy, m: int, jobs: seq<Job>, answers: seq<Answer>, b: B.Core) {
    && |answers| == |jobs| && (forall k :: 0 <= k < |answers| ==> answers[k] != Refused)
    && Sends(answers) == |jobs| * m
    && b.fails == |jobs| && !b.probing
    && b.circuit == (if |jobs| < bp.threshold then B.Closed else B.Open)
    && (0 < |jobs| == bp.threshold ==> b.openedAt == jobs[|jobs| - 1].finish)
  }

  lemma UntilOpenExtends(bp: B.Policy, m: int, jobs: seq<Job>, answers: seq<Answer>, b: B.Core, job: Job,
                         answer: Answer)
    requires |jobs| < bp.threshold && UntilOpen(bp, m, jobs, answers, b)
    requires answer.Called? && |answer.ledger.exchanges| == m
    ensures UntilOpen(bp, m, jobs + [job], answers + [answer], B.Record(bp, b, true, job.finish))
  {
    assert (answers + [answer])[..|answers|] == answers;
    assert (|jobs| + 1) * m == |jobs| * m + m;
  }

  lemma CallsAppend(st: Stack, jobs: seq<Job>, job: Job)
    requires AllTimely(jobs) && Timely(job.w)
    ensures AllTimely(jobs + [job])
    ensures var (answer, b) := RoundTrip(st, Calls(st, jobs).1, job);
            Calls(st, jobs + [job]) == (Calls(st, jobs).0 + [answer], b)
  {
    assert (jobs + [job])[..|jobs|] == jobs;
  }

  lemma OneMoreHopeless(st: Stack, jobs: seq<Job>, job: Job)
    requires CountsFailures(st) && |jobs| < st.bp.threshold && AllTimely(jobs) && Hopeless(st, job)
    requires UntilOpen(st.bp, st.rp.maxAttempts, jobs, Calls(st, jobs).0, Calls(st, jobs).1)
    ensures AllTimely(jobs + [job])
    ensures UntilOpen(st.bp, st.rp.maxAttempts, jobs + [job], Calls(st, jobs + [job]).0, Calls(st, jobs + [job]).1)
  {
    var (answers, b) := Calls(st, jobs);
    CallsAppend(st, jobs, job);
    DeadRoundTrip(st, b, job);
    UntilOpenExtends(st.bp, st.rp.maxAttempts, jobs, answers, b, job, RoundTrip(st, b, job).0);
  }

  /** Up to the threshold every call is admitted and uses every attempt, whatever the requests,
      their backoffs and headers, and the times at which they come. */
  lemma {:induction false} DeadUpstreamUntilOpen(st: Stack, jobs: seq<Job>)
    requires CountsFailures(st) && |jobs| <= st.bp.threshold
    requires AllTimely(jobs) && forall k :: 0 <= k < |jobs| ==> Hopeless(st, jobs[k])
    ensures UntilOpen(st.bp, st.rp.maxAttempts, jobs, Calls(st, jobs).0, Calls(st, jobs).1)
  {
    if jobs == [] {
      assert 0 * st.rp.maxAttempts == 0;
    } else {
      var init, job := jobs[..|jobs| - 1], jobs[|jobs| - 1];
      assert init + [job] == jobs;
      DeadUpstreamUntilOpen(st, init);
      OneMoreHopeless(st, init, job);
    }
  }

  /** Any sequence of hopeless calls sends exactly threshold * MaxAttempts requests before the circuit
      opens, and the call after that, whatever it is, is the first to be refused exactly when it starts
      within Cooldown of the last failure. */
  lemma DeadUpstreamOpensTheCircuit(st: Stack, jobs: seq<Job>)
    requires CountsFailures(st) && |jobs| == st.bp.threshold + 1 && AllTimely(jobs)
    requires forall k :: 0 <= k < st.bp.threshold ==> Hopeless(st, jobs[k])
    ensures var answers, n := Calls(st, jobs).0, st.bp.threshold;
            && |answers| == n + 1
            && (forall k :: 0 <= k < n ==> answers[k] != Refused)
            && Sends(answers[..n]) == n * st.rp.maxAttempts
            && (answers[n] == Refused <==> jobs[n].start - jobs[n - 1].finish < st.bp.cooldown)
  {
    var n := st.bp.threshold;
    var init, last := jobs[..n], jobs[n];
    assert jobs == init + [last];
    DeadUpstreamUntilOpen(st, init);
    CallsAppend(st, init, last);
    RefusedWhenOpen(st, Calls(st, init).1, last);
    assert Calls(st, jobs).0[..n] == Calls(st, init).0;
  }

  /** An open circuit refuses exactly within Cooldown. */
  lemma RefusedWhenOpen(st: Stack, b: B.Core, job: Job)
    requires Timely(job.w) && b.circuit == B.Open
    ensures RoundTrip(st, b, job).0 == Refused <==> job.start - b.openedAt < st.bp.cooldown
  {}
}
