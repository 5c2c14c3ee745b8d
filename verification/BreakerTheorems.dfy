/** What holds in every run of the breaker, stragglers and panics included. */
module BreakerTheorems {
  import opened Prelude
  import opened Breaker
  import opened BreakerRuns

  ghost predicate Reached(p: Policy, start: int, steps: seq<Step>, s: System) {
    p.threshold >= 1 && p.cooldown >= 0 && Exec(p, true, start, steps) == Some(s)
  }

  /** The fields are a function of the history: the count is the trailing run of tripping results,
      the circuit is closed exactly when that run is short of the threshold, half-open exactly when
      a probe was admitted since the last result, and a circuit that is not closed opened at the
      time of the last result. */
  lemma StateIsHistory(p: Policy, start: int, steps: seq<Step>, s: System)
    requires Reached(p, start, steps, s)
    ensures s.b.fails == Trail(s.hist)
    ensures s.b.circuit == Closed <==> Trail(s.hist) < p.threshold
    ensures s.b.circuit == HalfOpen <==> InEpisode(s.hist)
    ensures s.b.circuit != Closed ==> LastRecord(s.hist) == Some(s.b.openedAt)
    ensures s.b.probing == ProbeSlot(s.hist)
  {
    Reachable(p, true, start, steps);
  }

  /** So every request is answered as promised for its history. */
  lemma AnsweredAsPromised(p: Policy, start: int, steps: seq<Step>, s: System)
    requires Reached(p, start, steps, s)
    ensures Allow(p, s.b, s.clock).0 == Promised(p, s.hist, s.clock)
  {
    Reachable(p, true, start, steps);
  }

  /** The clause of record that re-opens on a failed probe changes no run: without it the same
      steps lead to the same state. */
  lemma {:induction false} HalfOpenClauseIsRedundant(p: Policy, start: int, steps: seq<Step>)
    requires p.threshold >= 1 && p.cooldown >= 0
    ensures Exec(p, true, start, steps) == Exec(p, false, start, steps)
  {
    if steps != [] {
      var init, t := steps[..|steps| - 1], steps[|steps| - 1];
      HalfOpenClauseIsRedundant(p, start, init);
      var e := Exec(p, true, start, init);
      if e.Some? && Enabled(e.value, t) {
        Reachable(p, true, start, init);
        assert e.value.b.circuit == HalfOpen ==> e.value.b.fails + 1 >= p.threshold;
        assert Next(p, true, e.value, t) == Next(p, false, e.value, t);
      }
    }
  }

  /** A set probe flag belongs to a probe that has not let go yet. */
  lemma ProbeFlagIsOwned(p: Policy, start: int, steps: seq<Step>, s: System)
    requires Reached(p, start, steps, s) && s.b.probing
    ensures exists id :: id in s.flights && s.flights[id].probe
  {
    Reachable(p, true, start, steps);
  }

  /** Within one half-open episode at most one more probe is admitted than was let go. */
  lemma OneProbePerRelease(p: Policy, start: int, steps: seq<Step>, s: System)
    requires Reached(p, start, steps, s)
    ensures EpisodeAdmissions(s.hist) <= 1 + EpisodeReleases(s.hist)
  {
    Reachable(p, true, start, steps);
  }

  /** The slot is never stranded: with nothing in flight and Cooldown passed since the last
      result, the next request is admitted. */
  lemma NeverStranded(p: Policy, start: int, steps: seq<Step>, s: System)
    requires Reached(p, start, steps, s) && s.flights == map[]
    requires LastRecord(s.hist).Some? ==> s.clock - LastRecord(s.hist).value >= p.cooldown
    ensures Allow(p, s.b, s.clock).0.Admit?
  {
    Reachable(p, true, start, steps);
  }

  // ---- Cooldown -------------------------------------------------------------------------------

  function At(e: Event): Option<int> {
    match e
    case Rejected(at) => Some(at)
    case Admitted(_, at) => Some(at)
    case Recorded(_, at) => Some(at)
    case Released => None
  }

  ghost predicate NoLaterThan(h: seq<Event>, at: int) {
    forall i :: 0 <= i < |h| && At(h[i]).Some? ==> At(h[i]).value <= at
  }

  /** Event `e` answers a request as promised for the history `h` before it. */
  predicate Answers(p: Policy, h: seq<Event>, e: Event) {
    match e
    case Admitted(probe, at) => Promised(p, h, at) == Admit(probe)
    case Rejected(at) => Promised(p, h, at) == ErrOpen
    case _ => true
  }

  /** Times do not decrease, and each request was answered as promised for the events before it. */
  ghost predicate Legal(p: Policy, h: seq<Event>) {
    && (forall j :: 0 <= j < |h| && At(h[j]).Some? ==> NoLaterThan(h[..j], At(h[j]).value))
    && (forall q :: 0 <= q < |h| ==> Answers(p, h[..q], h[q]))
  }

  lemma LegalExtend(p: Policy, h: seq<Event>, e: Event, at: int)
    requires Legal(p, h) && NoLaterThan(h, at) && Answers(p, h, e) && (At(e).Some? ==> At(e).value == at)
    ensures Legal(p, h + [e]) && NoLaterThan(h + [e], at)
  {
    var g := h + [e];
    forall q | 0 <= q < |g|
      ensures Answers(p, g[..q], g[q]) && (At(g[q]).Some? ==> NoLaterThan(g[..q], At(g[q]).value))
    {
      assert g[..q] == if q < |h| then h[..q] else h;
    }
  }

  /** The history of every run is legal. */
  lemma {:induction false} HistoryIsLegal(p: Policy, start: int, steps: seq<Step>, s: System)
    requires Reached(p, start, steps, s)
    ensures Legal(p, s.hist) && NoLaterThan(s.hist, s.clock)
  {
    if steps != [] {
      var init := steps[..|steps| - 1];
      var pre := Exec(p, true, start, init).value;
      HistoryIsLegal(p, start, init, pre);
      AnsweredAsPromised(p, start, init, pre);
      if s.hist != pre.hist { LegalExtend(p, pre.hist, s.hist[|pre.hist|], pre.clock); }
    }
  }

  lemma InOrder(p: Policy, h: seq<Event>, i: nat, j: nat)
    requires Legal(p, h) && i <= j < |h| && At(h[i]).Some? && At(h[j]).Some?
    ensures At(h[i]).value <= At(h[j]).value
  {
    if i < j {
      assert NoLaterThan(h[..j], At(h[j]).value);
      assert h[..j][i] == h[i];
    }
  }

  /** The circuit was open after event `a` and no success was recorded strictly between `a` and `b`. */
  ghost predicate NoSuccessBetween(h: seq<Event>, a: nat, b: nat) {
    forall k :: a < k < b && k < |h| ==> !(h[k].Recorded? && !h[k].tripped)
  }

  lemma {:induction false} TrailKeepsGrowing(p: Policy, h: seq<Event>, a: nat, b: nat)
    requires Legal(p, h) && a < b <= |h| && h[a].Recorded? && NoSuccessBetween(h, a, b)
    ensures Trail(h[..b]) >= Trail(h[..a + 1])
    ensures LastRecord(h[..b]).Some? && LastRecord(h[..b]).value >= h[a].at
  {
    assert h[..b][..b - 1] == h[..b - 1];
    if b == a + 1 {
      assert h[..b][|h[..b]| - 1] == h[a];
    } else {
      TrailKeepsGrowing(p, h, a, b - 1);
      assert h[..b][|h[..b]| - 1] == h[b - 1];
      if h[b - 1].Recorded? { InOrder(p, h, a, b - 1); }
    }
  }

  lemma {:induction false} EpisodeWaited(p: Policy, h: seq<Event>, at: int)
    requires Legal(p, h) && InEpisode(h) && p.threshold >= 1 && NoLaterThan(h, at)
    ensures LastRecord(h).Some? && Trail(h) >= p.threshold && at - LastRecord(h).value >= p.cooldown
  {
    var pre, e := h[..|h| - 1], h[|h| - 1];
    LegalPrefix(p, h, |h| - 1);
    assert NoLaterThan(pre, at) by { assert forall i :: 0 <= i < |pre| ==> pre[i] == h[i]; }
    assert Answers(p, h[..|h| - 1], h[|h| - 1]);
    if InEpisode(pre) {
      EpisodeWaited(p, pre, at);
    } else {
      assert At(h[|h| - 1]).value <= at;
    }
  }

  lemma LegalPrefix(p: Policy, h: seq<Event>, n: nat)
    requires Legal(p, h) && n <= |h|
    ensures Legal(p, h[..n])
  {
    forall q | 0 <= q < n
      ensures Answers(p, h[..n][..q], h[..n][q])
      ensures At(h[..n][q]).Some? ==> NoLaterThan(h[..n][..q], At(h[..n][q]).value)
    {
      assert h[..n][..q] == h[..q];
    }
  }

  /** Every failed result that leaves the circuit open costs a full Cooldown from then on: a probe
      admitted later, with no success in between, is admitted at least Cooldown after it. */
  lemma FailureCostsACooldown(p: Policy, h: seq<Event>, a: nat, b: nat)
    requires p.threshold >= 1 && Legal(p, h) && a < b < |h| && NoSuccessBetween(h, a, b)
    requires h[a].Recorded? && Trail(h[..a + 1]) >= p.threshold && h[b].Admitted?
    ensures h[b].probe && h[b].at - h[a].at >= p.cooldown
  {
    TrailKeepsGrowing(p, h, a, b);
    LegalPrefix(p, h, b);
    var g := h[..b];
    assert Answers(p, g, h[b]) && NoLaterThan(g, At(h[b]).value);
    if InEpisode(g) { EpisodeWaited(p, g, h[b].at); }
  }

  lemma {:induction false} OpeningsPrecede(p: Policy, h: seq<Event>, i: nat)
    requires Legal(p, h) && i < |HalfOpenings(h)|
    ensures exists k :: 0 <= k < |h| && h[k] == Admitted(true, HalfOpenings(h)[i])
  {
    var pre := h[..|h| - 1];
    LegalPrefix(p, h, |h| - 1);
    if i < |HalfOpenings(pre)| {
      OpeningsPrecede(p, pre, i);
      var k :| 0 <= k < |pre| && pre[k] == Admitted(true, HalfOpenings(pre)[i]);
      assert h[k] == pre[k];
    }
  }

  /** After the last opening, either its episode is still on or a later result was recorded. */
  lemma {:induction false} LastOpeningIsOld(p: Policy, h: seq<Event>)
    requires Legal(p, h) && HalfOpenings(h) != [] && !InEpisode(h)
    ensures LastRecord(h).Some? && LastRecord(h).value >= HalfOpenings(h)[|HalfOpenings(h)| - 1]
  {
    var pre, e := h[..|h| - 1], h[|h| - 1];
    LegalPrefix(p, h, |h| - 1);
    var last := |HalfOpenings(h)| - 1;
    if e.Recorded? {
      OpeningsPrecede(p, h, last);
      var k :| 0 <= k < |h| && h[k] == Admitted(true, HalfOpenings(h)[last]);
      InOrder(p, h, k, |h| - 1);
    } else {
      LastOpeningIsOld(p, pre);
    }
  }

  /** Any two open-to-half-open transitions are at least Cooldown apart for each transition between
      them: `k` of them within a window W satisfy (k - 1) * Cooldown <= W. */
  lemma {:induction false} OpeningsAreSpaced(p: Policy, h: seq<Event>, i: nat, j: nat)
    requires p.threshold >= 1 && p.cooldown >= 0 && Legal(p, h) && i <= j < |HalfOpenings(h)|
    ensures HalfOpenings(h)[j] - HalfOpenings(h)[i] >= (j - i) * p.cooldown
  {
    var pre, e := h[..|h| - 1], h[|h| - 1];
    LegalPrefix(p, h, |h| - 1);
    var n := |HalfOpenings(pre)|;
    if j < n {
      OpeningsAreSpaced(p, pre, i, j);
    } else if i < n {
      OpeningsAreSpaced(p, pre, i, n - 1);
      LastOpeningIsOld(p, pre);
      assert Answers(p, h[..|h| - 1], h[|h| - 1]);
      assert e.at - HalfOpenings(pre)[n - 1] >= p.cooldown;
      assert (n - 1 - i) * p.cooldown + p.cooldown == (n - i) * p.cooldown;
    }
  }

  lemma ExecExtend(p: Policy, start: int, steps: seq<Step>, t: Step)
    ensures Exec(p, true, start, steps + [t]) ==
            match Exec(p, true, start, steps)
            case None => None
            case Some(s) => if Enabled(s, t) then Some(Next(p, true, s, t)) else None
  {
    assert (steps + [t])[..|steps|] == steps;
  }
}
