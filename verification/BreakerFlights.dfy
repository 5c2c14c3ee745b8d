/** Requests on the network: one outcome for each admission, and how many probes are out at a time. */
module BreakerFlights {
  import opened Prelude
  import opened Breaker
  import opened BreakerRuns
  import opened BreakerTheorems

  // ---- One outcome per admission --------------------------------------------------------------------

  function Total(counts: (seq<Step>, Step) -> nat, steps: seq<Step>): nat {
    if steps == [] then 0
    else
      var m := |steps| - 1;
      Total(counts, steps[..m]) + counts(steps[..m], steps[m])
  }

  /** Whether step `t`, after `before`, is an arrival of request `id` that is admitted. */
  function AdmittedHere(p: Policy, start: int, id: nat, before: seq<Step>, t: Step): nat {
    match Exec(p, true, start, before)
    case None => 0
    case Some(s) => if t == Arrive(id) && Allow(p, s.b, s.clock).0.Admit? then 1 else 0
  }

  function Admissions(p: Policy, start: int, id: nat, steps: seq<Step>): nat {
    Total((before, t) => AdmittedHere(p, start, id, before, t), steps)
  }

  /** Results of request `id` that were recorded. */
  function Results(id: nat, steps: seq<Step>): nat {
    Total((_, t: Step) => if t.Finish? && t.id == id then 1 else 0, steps)
  }

  /** Panics of the transport under request `id`. */
  function Panics(id: nat, steps: seq<Step>): nat {
    Total((_, t: Step) => if t == Panic(id) then 1 else 0, steps)
  }

  function OnNetwork(s: System, id: nat): nat {
    if id in s.flights && s.flights[id].stage == Sending then 1 else 0
  }

  /** In every interleaving each admission of a request has exactly one outcome, a recorded result or a
      panic, and has had it exactly when the request is off the network. */
  lemma {:induction false} OneOutcomePerAdmission(p: Policy, start: int, id: nat, steps: seq<Step>, s: System)
    requires Exec(p, true, start, steps) == Some(s)
    ensures Results(id, steps) + Panics(id, steps) + OnNetwork(s, id) == Admissions(p, start, id, steps)
  {
    if steps != [] {
      var m := |steps| - 1;
      var pre := Exec(p, true, start, steps[..m]).value;
      OneOutcomePerAdmission(p, start, id, steps[..m], pre);
      OutcomeStep(p, id, pre, steps[m]);
    }
  }

  lemma OutcomeStep(p: Policy, id: nat, s: System, t: Step)
    requires Enabled(s, t)
    ensures OnNetwork(Next(p, true, s, t), id) + (if (t.Finish? && t.id == id) || t == Panic(id) then 1 else 0)
            == OnNetwork(s, id) + if t == Arrive(id) && Allow(p, s.b, s.clock).0.Admit? then 1 else 0
  {}

  function Records(h: seq<Event>): nat {
    if h == [] then 0 else Records(h[..|h| - 1]) + if h[|h| - 1].Recorded? then 1 else 0
  }

  lemma RecordsAppend(h: seq<Event>, e: Event)
    ensures Records(h + [e]) == Records(h) + if e.Recorded? then 1 else 0
  {
    assert (h + [e])[..|h|] == h;
  }

  function AllResults(steps: seq<Step>): nat { Total((_, t: Step) => if t.Finish? then 1 else 0, steps) }

  /** And every result is one record of the breaker. */
  lemma {:induction false} RecordsAreResults(p: Policy, start: int, steps: seq<Step>, s: System)
    requires Exec(p, true, start, steps) == Some(s)
    ensures Records(s.hist) == AllResults(steps)
  {
    if steps != [] {
      var m := |steps| - 1;
      var pre := Exec(p, true, start, steps[..m]).value;
      RecordsAreResults(p, start, steps[..m], pre);
      RecordStep(p, pre, steps[m]);
    }
  }

  lemma RecordStep(p: Policy, s: System, t: Step)
    requires Enabled(s, t)
    ensures Records(Next(p, true, s, t).hist) == Records(s.hist) + if t.Finish? then 1 else 0
  {
    var s' := Next(p, true, s, t);
    if s'.hist != s.hist { RecordsAppend(s.hist, s'.hist[|s.hist|]); }
  }

  // ---- "Exactly one probe" ----------------------------------------------------------------------

  /** Probe `k` is on the network: it has not reported and its transport has not panicked. */
  predicate Probing(s: System, k: nat) { k in s.flights && s.flights[k] == Flight(true, Sending) }

  ghost predicate ProbeOnNetwork(s: System) { exists k :: Probing(s, k) }

  ghost predicate AtMostOneProbe(s: System) { forall j, k :: Probing(s, j) && Probing(s, k) ==> j == k }

  /** A run with two probes on the network at once: request 1, admitted before the circuit opened,
      reports its failure while probe 2 is out, and after another Cooldown probe 3 is admitted. */
  lemma TwoProbesCanBeOut()
    ensures var p := Policy(1, 1);
            var steps := [Arrive(0), Arrive(1), Finish(0, true), Tick(1), Arrive(2), Finish(1, true), Tick(1),
                          Arrive(3)];
            && Exec(p, true, 0, steps).Some?
            && var flights := Exec(p, true, 0, steps).value.flights;
            && flights == map[2 := Flight(true, Sending), 3 := Flight(true, Sending)]
  {
    var probing, h := Flight(true, Sending), StragglerHistory();
    var s5 := StragglerStillOut();
    var before := System(Core(HalfOpen, 1, 0, true), 1, map[1 := Flight(false, Sending), 2 := probing], h);
    var reopened := System(Core(Open, 2, 1, true), 1, map[2 := probing], h + [Recorded(true, 1)]);
    var later := reopened.(clock := 2);
    var s6 := Follows(s5, before, Finish(1, true), reopened);
    var s7 := Follows(s6, reopened, Tick(1), later);
    var s8 := Follows(s7, later, Arrive(3),
                      System(Core(HalfOpen, 2, 1, true), 2, map[2 := probing, 3 := probing],
                             later.hist + [Admitted(true, 2)]));
    assert s8 == [Arrive(0), Arrive(1), Finish(0, true), Tick(1), Arrive(2), Finish(1, true), Tick(1), Arrive(3)];
  }

  function StragglerHistory(): seq<Event> {
    [Admitted(false, 0)] + [Admitted(false, 0)] + [Recorded(true, 0)] + [Admitted(true, 1)]
  }

  /** The circuit has opened and admitted probe 2 while request 1 is still on the network. */
  lemma StragglerStillOut() returns (steps: seq<Step>)
    ensures steps == [Arrive(0), Arrive(1), Finish(0, true), Tick(1), Arrive(2)]
    ensures Exec(Policy(1, 1), true, 0, steps)
            == Some(System(Core(HalfOpen, 1, 0, true), 1, map[1 := Flight(false, Sending), 2 := Flight(true, Sending)],
                           StragglerHistory()))
  {
    var sending := Flight(false, Sending);
    var one := System(NEW_CORE, 0, map[0 := sending], [Admitted(false, 0)]);
    var two := System(NEW_CORE, 0, map[0 := sending, 1 := sending], one.hist + [Admitted(false, 0)]);
    var tripped := System(Core(Open, 1, 0, false), 0, map[1 := sending], two.hist + [Recorded(true, 0)]);
    var cooled := tripped.(clock := 1);
    var probed := System(Core(HalfOpen, 1, 0, true), 1, map[1 := sending, 2 := Flight(true, Sending)],
                         cooled.hist + [Admitted(true, 1)]);
    steps := Follows([], System(NEW_CORE, 0, map[], []), Arrive(0), one);
    steps := Follows(steps, one, Arrive(1), two);
    steps := Follows(steps, two, Finish(0, true), tripped);
    steps := Follows(steps, tripped, Tick(1), cooled);
    steps := Follows(steps, cooled, Arrive(2), probed);
  }

  /** One step of that run. */
  lemma Follows(steps: seq<Step>, s: System, t: Step, s': System) returns (more: seq<Step>)
    requires Exec(Policy(1, 1), true, 0, steps) == Some(s) && Enabled(s, t)
    requires var n := Next(Policy(1, 1), true, s, t);
             n.b == s'.b && n.clock == s'.clock && n.flights == s'.flights && n.hist == s'.hist
    ensures more == steps + [t] && Exec(Policy(1, 1), true, 0, more) == Some(s')
  {
    more := steps + [t];
    ExecExtend(Policy(1, 1), 0, steps, t);
  }

  /** Another one, in which every result is that of the request last admitted: probe 1 fails and is held up
      before its release, probe 2 is admitted after the Cooldown, then the late release clears the flag
      that probe 2 had set and probe 3 is admitted in the same episode. */
  lemma LateReleaseLetsTwoOut()
    ensures var p := Policy(1, 1);
            var steps := [Arrive(0), Finish(0, true), Tick(1), Arrive(1), Finish(1, true), Tick(1), Arrive(2), LetGo(1),
                          Arrive(3)];
            && Exec(p, true, 0, steps).Some?
            && var flights := Exec(p, true, 0, steps).value.flights;
            && flights == map[2 := Flight(true, Sending), 3 := Flight(true, Sending)]
  {
    var probing := Flight(true, Sending);
    var steps, failed := ProbeHeldUp();
    var cooled := failed.(clock := 2);
    var newer := System(Core(HalfOpen, 2, 1, true), 2, map[1 := Flight(true, Unwinding), 2 := probing],
                        cooled.hist + [Admitted(true, 2)]);
    var cleared := System(Core(HalfOpen, 2, 1, false), 2, map[2 := probing], newer.hist + [Released]);
    var both := System(Core(HalfOpen, 2, 1, true), 2, map[2 := probing, 3 := probing],
                       cleared.hist + [Admitted(true, 2)]);
    steps := Follows(steps, failed, Tick(1), cooled);
    steps := Follows(steps, cooled, Arrive(2), newer);
    steps := Follows(steps, newer, LetGo(1), cleared);
    steps := Follows(steps, cleared, Arrive(3), both);
    assert steps == [Arrive(0), Finish(0, true), Tick(1), Arrive(1), Finish(1, true), Tick(1), Arrive(2), LetGo(1),
                     Arrive(3)];
  }

  /** Probe 1 has reported its failure and has yet to let go. */
  lemma ProbeHeldUp() returns (steps: seq<Step>, s: System)
    ensures steps == [Arrive(0), Finish(0, true), Tick(1), Arrive(1), Finish(1, true)]
    ensures Exec(Policy(1, 1), true, 0, steps) == Some(s)
    ensures s.b == Core(Open, 2, 1, true) && s.clock == 1 && s.flights == map[1 := Flight(true, Unwinding)]
  {
    var one := System(NEW_CORE, 0, map[0 := Flight(false, Sending)], [Admitted(false, 0)]);
    var tripped := System(Core(Open, 1, 0, false), 0, map[], one.hist + [Recorded(true, 0)]);
    var cooled := tripped.(clock := 1);
    var probed := System(Core(HalfOpen, 1, 0, true), 1, map[1 := Flight(true, Sending)],
                         cooled.hist + [Admitted(true, 1)]);
    s := System(Core(Open, 2, 1, true), 1, map[1 := Flight(true, Unwinding)], probed.hist + [Recorded(true, 1)]);
    steps := Follows([], System(NEW_CORE, 0, map[], []), Arrive(0), one);
    steps := Follows(steps, one, Finish(0, true), tripped);
    steps := Follows(steps, tripped, Tick(1), cooled);
    steps := Follows(steps, cooled, Arrive(1), probed);
    steps := Follows(steps, probed, Finish(1, true), s);
  }

  /** A request arrives while a probe is on the network and the history does not hold it back. Either the
      episode is still on, and some release has come after its last probe was admitted; or a result was
      recorded after the last probe's admission, leaving at least a threshold of failures in a row, and
      Cooldown has passed since. */
  ghost predicate SlipsThrough(p: Policy, s: System, t: Step) {
    && t.Arrive? && ProbeOnNetwork(s) && Trail(s.hist) >= p.threshold
    && if InEpisode(s.hist) then !ProbeSlot(s.hist)
       else LastRecord(s.hist).Some? && s.clock - LastRecord(s.hist).value >= p.cooldown
  }

  /** One step puts a second probe on the network exactly when it slips through. */
  lemma SecondProbeExactly(p: Policy, s: System, t: Step)
    requires Agrees(p, s.b, s.hist) && AtMostOneProbe(s) && Enabled(s, t)
    ensures AtMostOneProbe(Next(p, true, s, t)) <==> !SlipsThrough(p, s, t)
  {
    var s' := Next(p, true, s, t);
    if t.Arrive? {
      ArrivalsAnswer(p, s, t.id);
    } else {
      assert forall k :: Probing(s', k) ==> Probing(s, k);
    }
  }

  lemma ArrivalsAnswer(p: Policy, s: System, id: nat)
    requires Agrees(p, s.b, s.hist) && AtMostOneProbe(s) && id !in s.flights
    ensures AtMostOneProbe(Next(p, true, s, Arrive(id))) <==> !SlipsThrough(p, s, Arrive(id))
  {
    var s' := Next(p, true, s, Arrive(id));
    assert forall k :: k != id ==> (Probing(s', k) <==> Probing(s, k));
    assert Probing(s', id) <==> Allow(p, s.b, s.clock).0 == Admit(true);
    if SlipsThrough(p, s, Arrive(id)) {
      var k :| Probing(s, k);
      assert Probing(s', id) && Probing(s', k) && k != id;
    } else if Probing(s', id) {
      assert !ProbeOnNetwork(s);
    }
  }

  ghost predicate OneProbeAt(p: Policy, start: int, before: seq<Step>) {
    Exec(p, true, start, before).Some? ==> AtMostOneProbe(Exec(p, true, start, before).value)
  }

  ghost predicate SlipsAt(p: Policy, start: int, before: seq<Step>, t: Step) {
    Exec(p, true, start, before).Some? && SlipsThrough(p, Exec(p, true, start, before).value, t)
  }

  /** Every state the run goes through has at most one probe on the network. */
  ghost predicate OneProbeThroughout(p: Policy, start: int, steps: seq<Step>) {
    forall n :: 0 <= n <= |steps| ==> OneProbeAt(p, start, steps[..n])
  }

  ghost predicate NothingSlipsThrough(p: Policy, start: int, steps: seq<Step>) {
    forall n :: 0 <= n < |steps| ==> !SlipsAt(p, start, steps[..n], steps[n])
  }

  /** "Exactly one probe" holds of a run if and only if no arrival slips through. */
  lemma {:induction false} OneProbeExactly(p: Policy, start: int, steps: seq<Step>, s: System)
    requires Reached(p, start, steps, s)
    ensures OneProbeThroughout(p, start, steps) <==> NothingSlipsThrough(p, start, steps)
  {
    if steps == [] {
      assert steps[..0] == steps;
    } else {
      var m := |steps| - 1;
      var init := steps[..m];
      var pre := Exec(p, true, start, init).value;
      OneProbeExactly(p, start, init, pre);
      OneProbeSplits(p, start, steps);
      if OneProbeThroughout(p, start, init) {
        assert init[..m] == init;
        assert OneProbeAt(p, start, init[..m]);
        Reachable(p, true, start, init);
        SecondProbeExactly(p, pre, steps[m]);
      }
    }
  }

  lemma OneProbeSplits(p: Policy, start: int, steps: seq<Step>)
    requires steps != []
    ensures var init, t := steps[..|steps| - 1], steps[|steps| - 1];
            && (OneProbeThroughout(p, start, steps) <==>
                OneProbeThroughout(p, start, init) && OneProbeAt(p, start, steps))
            && (NothingSlipsThrough(p, start, steps) <==>
                NothingSlipsThrough(p, start, init) && !SlipsAt(p, start, init, t))
  {
    var init := steps[..|steps| - 1];
    assert forall n :: 0 <= n <= |init| ==> init[..n] == steps[..n];
    assert steps[..|steps|] == steps && init[..|init|] == init;
    if OneProbeThroughout(p, start, steps) {
      forall n | 0 <= n <= |init| ensures OneProbeAt(p, start, init[..n]) { assert OneProbeAt(p, start, steps[..n]); }
      assert OneProbeAt(p, start, steps[..|steps|]);
    }
    if NothingSlipsThrough(p, start, steps) {
      forall n | 0 <= n < |init| ensures !SlipsAt(p, start, init[..n], init[n]) {
        assert !SlipsAt(p, start, steps[..n], steps[n]);
      }
    }
  }

  // ---- Without stragglers and late releases ---------------------------------------------------------

  /** While a probe is on the network no other request reports and no other probe lets go. */
  ghost predicate Orderly(s: System, t: Step) {
    match t
    case Finish(id, _) => forall k :: Probing(s, k) ==> k == id
    case LetGo(_) => !ProbeOnNetwork(s)
    case _ => true
  }

  ghost predicate OrderlyRun(p: Policy, start: int, steps: seq<Step>) {
    forall n :: 0 <= n < |steps| && Exec(p, true, start, steps[..n]).Some? ==>
                  Orderly(Exec(p, true, start, steps[..n]).value, steps[n])
  }

  /** A straggler's report and a late release are the only causes: in a run without them at most one
      probe is on the network, and while it is, the circuit is half-open with the flag set. */
  lemma {:induction false} OneProbeWhenOrderly(p: Policy, start: int, steps: seq<Step>, s: System)
    requires Reached(p, start, steps, s) && OrderlyRun(p, start, steps)
    ensures AtMostOneProbe(s)
    ensures ProbeOnNetwork(s) ==> s.b.circuit == HalfOpen && s.b.probing
  {
    if steps != [] {
      var m := |steps| - 1;
      var pre, t := Exec(p, true, start, steps[..m]).value, steps[m];
      assert OrderlyRun(p, start, steps[..m]) by {
        assert forall n :: 0 <= n < m ==> steps[..m][..n] == steps[..n];
      }
      OneProbeWhenOrderly(p, start, steps[..m], pre);
      assert Orderly(pre, t);
      OrderlyStep(p, pre, t);
    }
  }

  lemma OrderlyStep(p: Policy, s: System, t: Step)
    requires Enabled(s, t) && Orderly(s, t) && AtMostOneProbe(s)
    requires ProbeOnNetwork(s) ==> s.b.circuit == HalfOpen && s.b.probing
    ensures AtMostOneProbe(Next(p, true, s, t))
    ensures var s' := Next(p, true, s, t); ProbeOnNetwork(s') ==> s'.b.circuit == HalfOpen && s'.b.probing
  {
    var s' := Next(p, true, s, t);
    assert forall k :: Probing(s', k) && !(t.Arrive? && k == t.id) ==> Probing(s, k);
    assert forall k :: Probing(s, k) ==> ProbeOnNetwork(s);
  }
}
