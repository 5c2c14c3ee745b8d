/**
 Any number of requests through one breaker (resilience/breaker.go). Between allow and record
 a request is on the network, so stragglers admitted before the circuit opened may report at
 any later time, and a panicking transport releases without recording.
 */
module BreakerRuns {
  import opened Prelude
  import opened Breaker

  /** Sending: inside the next transport. Unwinding: a probe whose deferred release is still to run. */
  datatype Stage = Sending | Unwinding

  datatype Flight = Flight(probe: bool, stage: Stage)

  datatype Event =
    | Rejected(at: int)
    | Admitted(probe: bool, at: int)
    | Recorded(tripped: bool, at: int)
    | Released

  datatype System = System(b: Core, clock: int, flights: map<nat, Flight>, hist: seq<Event>)

  datatype Step =
    | Tick(d: nat)
    | Arrive(id: nat)
    | Finish(id: nat, tripped: bool)
    | Panic(id: nat)
    | LetGo(id: nat)

  predicate Enabled(s: System, t: Step) {
    match t
    case Tick(_) => true
    case Arrive(id) => id !in s.flights
    case Finish(id, _) => id in s.flights && s.flights[id].stage == Sending
    case Panic(id) => id in s.flights && s.flights[id].stage == Sending
    case LetGo(id) => id in s.flights && s.flights[id].stage == Unwinding
  }

  /** A request leaves the transport: a probe still has its deferred release to run. */
  function Leave(flights: map<nat, Flight>, id: nat): map<nat, Flight>
    requires id in flights
  {
    if flights[id].probe then flights[id := Flight(true, Unwinding)] else flights - {id}
  }

  function Next(p: Policy, clause: bool, s: System, t: Step): System
    requires Enabled(s, t)
  {
    match t
    case Tick(d) => s.(clock := s.clock + d)
    case Arrive(id) =>
      (match Allow(p, s.b, s.clock)
       case (Admit(probe), b) =>
         s.(b := b, flights := s.flights[id := Flight(probe, Sending)], hist := s.hist + [Admitted(probe, s.clock)])
       case (ErrOpen, b) => s.(b := b, hist := s.hist + [Rejected(s.clock)]))
    case Finish(id, tripped) =>
      s.(b := RecordWith(p, clause, s.b, tripped, s.clock), flights := Leave(s.flights, id),
         hist := s.hist + [Recorded(tripped, s.clock)])
    case Panic(id) => s.(flights := Leave(s.flights, id))
    case LetGo(id) => s.(b := Release(s.b), flights := s.flights - {id}, hist := s.hist + [Released])
  }

  function Exec(p: Policy, clause: bool, start: int, steps: seq<Step>): Option<System> {
    if steps == [] then Some(System(NEW_CORE, start, map[], []))
    else
      match Exec(p, clause, start, steps[..|steps| - 1])
      case None => None
      case Some(s) =>
        var t := steps[|steps| - 1];
        if Enabled(s, t) then Some(Next(p, clause, s, t)) else None
  }

  // ---- What the history alone says ------------------------------------------------------------

  /** Length of the trailing run of tripping results. */
  function Trail(h: seq<Event>): nat {
    if h == [] then 0
    else
      var pre := h[..|h| - 1];
      match h[|h| - 1]
      case Recorded(tripped, _) => if tripped then Trail(pre) + 1 else 0
      case _ => Trail(pre)
  }

  /** Time of the last recorded result. */
  function LastRecord(h: seq<Event>): Option<int> {
    if h == [] then None
    else
      match h[|h| - 1]
      case Recorded(_, at) => Some(at)
      case _ => LastRecord(h[..|h| - 1])
  }

  /** The last probe admission has not been followed by a release. */
  predicate ProbeSlot(h: seq<Event>) {
    if h == [] then false
    else
      var pre := h[..|h| - 1];
      match h[|h| - 1]
      case Admitted(probe, _) => probe || ProbeSlot(pre)
      case Released => false
      case _ => ProbeSlot(pre)
  }

  /** A probe was admitted after the last recorded result: a half-open episode is on. */
  predicate InEpisode(h: seq<Event>) {
    if h == [] then false
    else
      var pre := h[..|h| - 1];
      match h[|h| - 1]
      case Admitted(probe, _) => probe || InEpisode(pre)
      case Recorded(_, _) => false
      case _ => InEpisode(pre)
  }

  /** Probe admissions and releases of the current episode. */
  function EpisodeAdmissions(h: seq<Event>): nat {
    if h == [] then 0
    else
      var pre := h[..|h| - 1];
      match h[|h| - 1]
      case Admitted(probe, _) => EpisodeAdmissions(pre) + if probe then 1 else 0
      case Recorded(_, _) => 0
      case _ => EpisodeAdmissions(pre)
  }

  function EpisodeReleases(h: seq<Event>): nat {
    if h == [] then 0
    else
      var pre := h[..|h| - 1];
      match h[|h| - 1]
      case Recorded(_, _) => 0
      case Released => if InEpisode(pre) then EpisodeReleases(pre) + 1 else 0
      case _ => EpisodeReleases(pre)
  }

  /** Times at which the circuit went from open to half-open. */
  function HalfOpenings(h: seq<Event>): seq<int> {
    if h == [] then []
    else
      var pre := h[..|h| - 1];
      match h[|h| - 1]
      case Admitted(probe, at) => if probe && !InEpisode(pre) then HalfOpenings(pre) + [at] else HalfOpenings(pre)
      case _ => HalfOpenings(pre)
  }

  /** The answer the documentation promises at time `now` after history `h`. */
  function Promised(p: Policy, h: seq<Event>, now: int): Verdict {
    if Trail(h) < p.threshold then Admit(false)
    else if InEpisode(h) then (if ProbeSlot(h) then ErrOpen else Admit(true))
    else
      match LastRecord(h)
      case Some(t) => if now - t < p.cooldown then ErrOpen else Admit(true)
      case None => ErrOpen
  }

  /** The fields agree with the history. */
  ghost predicate Agrees(p: Policy, b: Core, h: seq<Event>) {
    && b.fails == Trail(h)
    && (b.circuit == Closed <==> Trail(h) < p.threshold)
    && (b.circuit == HalfOpen <==> InEpisode(h))
    && (b.circuit != Closed ==> LastRecord(h) == Some(b.openedAt))
    && b.probing == ProbeSlot(h)
  }

  ghost predicate ProbeOut(s: System) { exists id :: id in s.flights && s.flights[id].probe }

  /** What the fields, the clock and the history have to do with each other. */
  ghost predicate HistoryOk(p: Policy, b: Core, clock: int, h: seq<Event>) {
    && Agrees(p, b, h)
    && (LastRecord(h).Some? ==> LastRecord(h).value <= clock)
    && (InEpisode(h) ==> LastRecord(h).Some? && clock - LastRecord(h).value >= p.cooldown)
    && EpisodeAdmissions(h) <= EpisodeReleases(h) + (if ProbeSlot(h) then 1 else 0)
    && (!InEpisode(h) ==> EpisodeAdmissions(h) == 0)
  }

  ghost predicate Inv(p: Policy, s: System) {
    HistoryOk(p, s.b, s.clock, s.hist) && (ProbeSlot(s.hist) ==> ProbeOut(s))
  }

  lemma Appended(h: seq<Event>, e: Event)
    ensures (h + [e])[..|h + [e]| - 1] == h && (h + [e])[|h + [e]| - 1] == e
  {}

  lemma AdmittedOk(p: Policy, b: Core, clock: int, h: seq<Event>, probe: bool)
    requires p.threshold >= 1 && HistoryOk(p, b, clock, h) && Allow(p, b, clock).0 == Admit(probe)
    ensures HistoryOk(p, Allow(p, b, clock).1, clock, h + [Admitted(probe, clock)])
    ensures ProbeSlot(h + [Admitted(probe, clock)]) <==> probe || ProbeSlot(h)
  {
    Appended(h, Admitted(probe, clock));
  }

  lemma RejectedOk(p: Policy, b: Core, clock: int, h: seq<Event>)
    requires HistoryOk(p, b, clock, h) && Allow(p, b, clock).0 == ErrOpen
    ensures HistoryOk(p, Allow(p, b, clock).1, clock, h + [Rejected(clock)])
    ensures ProbeSlot(h + [Rejected(clock)]) <==> ProbeSlot(h)
  {
    Appended(h, Rejected(clock));
  }

  lemma ArriveOk(p: Policy, clause: bool, s: System, id: nat)
    requires p.threshold >= 1 && p.cooldown >= 0 && Inv(p, s) && Enabled(s, Arrive(id))
    ensures Inv(p, Next(p, clause, s, Arrive(id)))
  {
    var s' := Next(p, clause, s, Arrive(id));
    match Allow(p, s.b, s.clock).0
    case ErrOpen => RejectedOk(p, s.b, s.clock, s.hist);
    case Admit(probe) =>
      AdmittedOk(p, s.b, s.clock, s.hist, probe);
      if probe {
        assert id in s'.flights && s'.flights[id].probe;
      } else if k :| k in s.flights && s.flights[k].probe {
        assert k in s'.flights && s'.flights[k].probe;
      }
  }

  lemma FinishOk(p: Policy, clause: bool, s: System, id: nat, tripped: bool)
    requires p.threshold >= 1 && Inv(p, s) && Enabled(s, Finish(id, tripped))
    ensures Inv(p, Next(p, clause, s, Finish(id, tripped)))
  {
    var s' := Next(p, clause, s, Finish(id, tripped));
    Appended(s.hist, Recorded(tripped, s.clock));
    if ProbeSlot(s'.hist) {
      var k :| k in s.flights && s.flights[k].probe;
      assert k in s'.flights && s'.flights[k].probe;
    }
  }

  lemma StepOk(p: Policy, clause: bool, s: System, t: Step)
    requires p.threshold >= 1 && p.cooldown >= 0 && Inv(p, s) && Enabled(s, t)
    ensures Inv(p, Next(p, clause, s, t))
  {
    match t
    case Tick(_) =>
      if k :| k in s.flights && s.flights[k].probe { assert k in Next(p, clause, s, t).flights; }
    case Arrive(id) => ArriveOk(p, clause, s, id);
    case Finish(id, tripped) => FinishOk(p, clause, s, id, tripped);
    case Panic(id) =>
      if k :| k in s.flights && s.flights[k].probe {
        assert k in Next(p, clause, s, t).flights && Next(p, clause, s, t).flights[k].probe;
      }
    case LetGo(_) => Appended(s.hist, Released);
  }

  lemma {:induction false} Reachable(p: Policy, clause: bool, start: int, steps: seq<Step>)
    requires p.threshold >= 1 && p.cooldown >= 0 && Exec(p, clause, start, steps).Some?
    ensures Inv(p, Exec(p, clause, start, steps).value)
  {
    if steps != [] {
      Reachable(p, clause, start, steps[..|steps| - 1]);
      StepOk(p, clause, Exec(p, clause, start, steps[..|steps| - 1]).value, steps[|steps| - 1]);
    }
  }
}
