/** What Run guarantees in every interleaving of its goroutines, cancellation and Fatal. */
module LifecycleTheorems {
  import opened Prelude
  import opened Levels
  import opened LifecycleRun
  import opened LifecycleInvariant
  import opened LifecycleSteps

  /** `s` is reached by some interleaving. */
  ghost predicate Reached(cfg: Config, steps: seq<Step>, s: State) {
    WellFormed(cfg) && Exec(cfg, steps) == Some(s)
  }

  lemma InvOf(cfg: Config, steps: seq<Step>, s: State) returns (rk: seq<int>)
    requires Reached(cfg, steps, s)
    ensures Inv(cfg, rk, s)
  {
    rk := RanksExist(cfg);
    Reachable(cfg, rk, steps);
  }

  /** A component's Start is called only after every dependency's Start returned nil, at most
      once, and never after a Stop. */
  lemma StartsAfterDependencies(cfg: Config, steps: seq<Step>, s: State, p: nat)
    requires Reached(cfg, steps, s) && p < |s.trace| && s.trace[p].StartCall?
    ensures 0 <= s.trace[p].comp < |cfg.after|
    ensures forall d :: d in cfg.after[s.trace[p].comp] ==> exists q :: 0 <= q < p && s.trace[q] == StartRet(d, None)
    ensures forall q, j :: 0 <= q < p ==> s.trace[q] != s.trace[p] && s.trace[q] != StopCall(j)
  {
    var rk := InvOf(cfg, steps, s);
    var h := s.trace[..p];
    assert Allowed(cfg.after, h, s.trace[p]);
    forall d | d in cfg.after[s.trace[p].comp] ensures exists q :: 0 <= q < p && s.trace[q] == StartRet(d, None) {
      var q :| 0 <= q < |h| && h[q] == StartRet(d, None);
      assert s.trace[q] == StartRet(d, None);
    }
    forall q, j | 0 <= q < p ensures s.trace[q] != s.trace[p] && s.trace[q] != StopCall(j) {
      assert h[q] == s.trace[q] && h[q] in h;
    }
  }

  /** A Stop is called only for a component whose Start returned nil, at most once, after every
      started dependent's Stop returned, and with no Start outstanding. */
  lemma StopsAfterDependents(cfg: Config, steps: seq<Step>, s: State, p: nat)
    requires Reached(cfg, steps, s) && p < |s.trace| && s.trace[p].StopCall?
    ensures exists q :: 0 <= q < p && s.trace[q] == StartRet(s.trace[p].comp, None)
    ensures forall q :: 0 <= q < p ==> s.trace[q] != s.trace[p]
    ensures forall j, q ::
              (&& 0 <= j < |cfg.after| && s.trace[p].comp in cfg.after[j]
               && 0 <= q < p && s.trace[q] == StartRet(j, None)) ==>
                StopReturnedIn(s.trace[..p], j)
    ensures forall q :: 0 <= q < p && s.trace[q].StartCall? ==> StartReturnedIn(s.trace[..p], s.trace[q].comp)
  {
    var rk := InvOf(cfg, steps, s);
    var h := s.trace[..p];
    assert Allowed(cfg.after, h, s.trace[p]);
    var q :| 0 <= q < |h| && h[q] == StartRet(s.trace[p].comp, None);
    assert s.trace[q] == h[q];
    forall q | 0 <= q < p ensures s.trace[q] != s.trace[p] { assert h[q] in h; }
    forall j, q | && 0 <= j < |cfg.after| && s.trace[p].comp in cfg.after[j]
                  && 0 <= q < p && s.trace[q] == StartRet(j, None)
      ensures StopReturnedIn(h, j)
    {
      assert h[q] in h;
    }
    forall q | 0 <= q < p && s.trace[q].StartCall? ensures StartReturnedIn(h, s.trace[q].comp) {
      assert h[q] == StartCall(s.trace[q].comp) && h[q] in h;
    }
  }

  /** When Run has returned no call is outstanding, and Stop was called for exactly the
      components whose Start returned nil. */
  lemma ReturnLeavesNothingRunning(cfg: Config, steps: seq<Step>, s: State, i: int)
    requires Reached(cfg, steps, s) && s.pc.Returned? && 0 <= i < |cfg.after|
    ensures StartCall(i) in s.trace ==> StartReturnedIn(s.trace, i)
    ensures StopCall(i) in s.trace <==> StartRet(i, None) in s.trace
    ensures StopCall(i) in s.trace ==> StopReturnedIn(s.trace, i)
  {
    var rk := InvOf(cfg, steps, s);
    assert Comp(rk, s, i);
    if StartCall(i) in s.trace { assert StartRet(i, s.startErrs[i]) in s.trace; }
  }

  /** The context under which the Starts of the current level run: derived from the caller's, and
      cancelled by the level itself too. */
  predicate LevelContextDone(s: State) { s.pc.Starting? && (s.ctxDone || s.levelCancelled) }

  /** While a level starts, its Starts see a cancelled context exactly when the caller's is cancelled or a
      failed Start of that same level has been recorded. The level's own cancel is called exactly in the
      second case and never left over for a later level. */
  lemma SiblingsAreTold(cfg: Config, steps: seq<Step>, s: State)
    requires Reached(cfg, steps, s)
    ensures LevelContextDone(s) <==>
            s.pc.Starting? && (s.ctxDone || exists i :: IsComp(s, i) && FailedHere(cfg, s, i))
    ensures s.levelCancelled <==>
            s.pc.Starting? && exists i :: IsComp(s, i) && FailedHere(cfg, s, i)
  {
    var rk := InvOf(cfg, steps, s);
    if s.pc.Starting? {
      forall i | 0 <= i < |cfg.after| ensures FailedHere(cfg, s, i) <==> s.startErrs[i].Some? {
        assert Comp(rk, s, i);
        if s.startErrs[i].Some? {
          OutcomeSeen(rk, s, i);
          assert rk[i] == s.pc.level && i in cfg.levels[rk[i]];
        }
      }
    }
  }

  /** Component `i` of the level being started failed to start, and its goroutine is done. */
  ghost predicate FailedHere(cfg: Config, s: State, i: int)
    requires s.pc.Starting? && IsComp(s, i)
  {
    s.pc.level < |cfg.levels| && i in cfg.levels[s.pc.level] && s.phase[i].StartDone? && StartFailedIn(s.trace, i)
  }

  lemma StopErrorsAreTheFailedStops(cfg: Config, rk: seq<int>, s: State, r: RunError)
    requires Inv(cfg, rk, s) && s.pc.Returned?
    ensures r in s.stopErrs <==> r.StopError? && StopRet(r.comp, Some(r.err)) in s.trace
  {
    assert r.StopError? && 0 <= r.comp < |rk| ==> Comp(rk, s, r.comp);
    if r.StopError? && StopRet(r.comp, Some(r.err)) in s.trace {
      var p :| 0 <= p < |s.trace| && s.trace[p] == StopRet(r.comp, Some(r.err));
      assert Allowed(cfg.after, s.trace[..p], s.trace[p]);
      StoppedIsComponent(cfg.after, s.trace, r.comp);
    }
  }

  lemma StartErrorsAreTheFailedStarts(cfg: Config, rk: seq<int>, s: State, r: RunError)
    requires Inv(cfg, rk, s) && s.pc.Returned?
    ensures r in s.startFailure <==> r.StartError? && StartRet(r.comp, Some(r.err)) in s.trace
  {
    assert r.StartError? && 0 <= r.comp < |rk| ==> Comp(rk, s, r.comp);
    if r.StartError? && StartRet(r.comp, Some(r.err)) in s.trace {
      ReturnedIsComponent(cfg.after, s.trace, r.comp, Some(r.err));
    }
  }

  /** A failed boot returns exactly the start errors and the stop errors of the unwind, each once. */
  lemma FailedBootReportsEverything(cfg: Config, steps: seq<Step>, s: State, i: int, e: Err)
    requires Reached(cfg, steps, s) && s.pc.Returned? && StartRet(i, Some(e)) in s.trace
    ensures Distinct(s.pc.result)
    ensures forall r :: r in s.pc.result <==>
                          || (r.StartError? && StartRet(r.comp, Some(r.err)) in s.trace)
                          || (r.StopError? && StopRet(r.comp, Some(r.err)) in s.trace)
    ensures FinalLoad !in s.trace
  {
    var rk := InvOf(cfg, steps, s);
    StartErrorsAreTheFailedStarts(cfg, rk, s, StartError(i, e));
    forall r ensures r in s.pc.result <==>
                       || (r.StartError? && StartRet(r.comp, Some(r.err)) in s.trace)
                       || (r.StopError? && StopRet(r.comp, Some(r.err)) in s.trace)
    {
      StartErrorsAreTheFailedStarts(cfg, rk, s, r);
      StopErrorsAreTheFailedStops(cfg, rk, s, r);
    }
    assert forall r :: r in s.startFailure ==> r.StartError?;
    assert forall r :: r in s.stopErrs ==> r.StopError?;
    DistinctTogether(s.startFailure, s.stopErrs);
  }

  lemma DistinctTogether(a: seq<RunError>, b: seq<RunError>)
    requires Distinct(a) && Distinct(b)
    requires (forall r :: r in a ==> r.StartError?) && (forall r :: r in b ==> r.StopError?)
    ensures Distinct(a + b)
  {
    assert forall k :: 0 <= k < |a| ==> a[k] in a;
    assert forall k :: 0 <= k < |b| ==> b[k] in b;
  }

  lemma {:induction false} FatalSeenMeans(tr: seq<Event>, e: Err)
    requires forall p, q :: 0 <= p < |tr| && 0 <= q < |tr| && tr[p].FatalStored? && tr[q].FatalStored? ==> p == q
    requires forall p, q :: 0 <= p < |tr| && 0 <= q < |tr| && tr[p].FinalLoad? && tr[q].FinalLoad? ==> p == q
    ensures FatalSeen(tr) == Some(e) <==>
            exists q :: 0 <= q < |tr| && tr[q] == FatalStored(e) && FinalLoad !in tr[..q]
  {
    if tr != [] {
      var pre, last := tr[..|tr| - 1], tr[|tr| - 1];
      FatalSeenMeans(pre, e);
      assert forall q :: 0 <= q < |pre| ==> pre[..q] == tr[..q];
      assert tr[..|pre|] == pre;
      if FinalLoad !in pre && last.FatalStored? {
        assert FatalSeen(pre) == None by {
          if FatalSeen(pre).Some? {
            FatalSeenMeans(pre, FatalSeen(pre).value);
          }
        }
      }
      if q :| 0 <= q < |pre| && pre[q] == FatalStored(e) && FinalLoad !in pre[..q] {
        assert tr[q] == FatalStored(e) && tr[..q] == pre[..q];
      }
    }
  }

  lemma OnceEach(after: Graph, tr: seq<Event>)
    requires Safe(after, tr)
    ensures forall p, q :: 0 <= p < |tr| && 0 <= q < |tr| && tr[p].FatalStored? && tr[q].FatalStored? ==> p == q
    ensures forall p, q :: 0 <= p < |tr| && 0 <= q < |tr| && tr[p].FinalLoad? && tr[q].FinalLoad? ==> p == q
    ensures forall p, q :: 0 <= p < |tr| && 0 <= q < |tr| && tr[p].FatalClosed? && tr[q].FatalClosed? ==> p == q
  {
    forall p, q | 0 <= p < q < |tr| && (tr[p].FatalStored? || tr[p].FinalLoad? || tr[p].FatalClosed?)
      ensures tr[p].FatalStored? != tr[q].FatalStored? || tr[p].FinalLoad? != tr[q].FinalLoad?
              || tr[p].FatalClosed? != tr[q].FatalClosed?
    {
      assert Allowed(after, tr[..q], tr[q]);
      assert tr[..q][p] == tr[p] && tr[p] in tr[..q];
    }
  }

  /** The Fatal call that wins the Once is the first one; it stores before it closes and closes
      once, so the dereference after a receive from the closed channel finds an error. */
  lemma FirstFatalWins(cfg: Config, steps: seq<Step>, s: State)
    requires Reached(cfg, steps, s)
    ensures s.fatalClosed ==> s.fatalErr.Some?
    ensures s.fatalErr.Some? ==> s.fatalCalls != [] && s.fatalErr.value == s.fatalCalls[0]
    ensures forall q :: 0 <= q < |s.trace| && s.trace[q].FatalClosed? ==>
                          s.fatalCalls != [] && exists p :: 0 <= p < q && s.trace[p] == FatalStored(s.fatalCalls[0])
    ensures forall p, q :: 0 <= p < |s.trace| && 0 <= q < |s.trace| ==>
                             s.trace[p].FatalClosed? && s.trace[q].FatalClosed? ==> p == q
  {
    var rk := InvOf(cfg, steps, s);
    OnceEach(cfg.after, s.trace);
    forall q | 0 <= q < |s.trace| && s.trace[q].FatalClosed?
      ensures s.fatalCalls != [] && exists p :: 0 <= p < q && s.trace[p] == FatalStored(s.fatalCalls[0])
    {
      assert Allowed(cfg.after, s.trace[..q], s.trace[q]);
      var f :| FatalStored(f) in s.trace[..q];
      var p :| 0 <= p < q && s.trace[p] == FatalStored(f);
      assert FatalStored(f) in s.trace;
    }
  }

  /** A Fatal error was stored before Run's last load of it. */
  ghost predicate StoredBeforeLoad(tr: seq<Event>, e: Err) {
    exists q :: 0 <= q < |tr| && tr[q] == FatalStored(e) && FinalLoad !in tr[..q]
  }

  /** When every Start succeeded, Run returns exactly the failed stops, each once, preceded by the Fatal
      error if one was stored before the final load; nil exactly when there is neither. */
  lemma CleanBootReport(cfg: Config, steps: seq<Step>, s: State)
    requires Reached(cfg, steps, s) && s.pc.Returned? && forall i, e :: StartRet(i, Some(e)) !in s.trace
    ensures forall r :: Reported(s, r)
    ensures Distinct(s.pc.result) && s.pc.result == FatalPart(FatalSeen(s.trace)) + s.stopErrs
    ensures forall k :: 0 <= k < |s.pc.result| && s.pc.result[k].FatalError? ==> k == 0
    ensures s.pc.result == [] <==>
            (forall i, e :: StopRet(i, Some(e)) !in s.trace) && (forall e :: !StoredBeforeLoad(s.trace, e))
    ensures forall i :: 0 <= i < |cfg.after| ==> StartRet(i, None) in s.trace && StopCall(i) in s.trace
  {
    var rk := InvOf(cfg, steps, s);
    if s.startFailure != [] {
      StartErrorsAreTheFailedStarts(cfg, rk, s, s.startFailure[0]);
      assert false;
    }
    forall r ensures Reported(s, r) { CleanResult(cfg, rk, s, r); }
    NilExactly(s);
    FatalFirst(FatalSeen(s.trace), s.stopErrs);
    forall i | 0 <= i < |cfg.after| ensures StartRet(i, None) in s.trace && StopCall(i) in s.trace {
      assert Comp(rk, s, i);
    }
  }

  lemma FatalFirst(fatal: Option<Err>, stops: seq<RunError>)
    requires Distinct(stops) && forall r :: r in stops ==> r.StopError?
    ensures var all := FatalPart(fatal) + stops;
            Distinct(all) && forall k :: 0 <= k < |all| && all[k].FatalError? ==> k == 0
  {
    assert forall k :: 0 <= k < |stops| ==> stops[k] in stops;
    DistinctAfter(FatalPart(fatal), stops);
  }

  /** Whether `r` belongs in the result of a clean boot, and is there. */
  ghost predicate Reported(s: State, r: RunError)
    requires s.pc.Returned?
  {
    r in s.pc.result <==>
      || (r.FatalError? && StoredBeforeLoad(s.trace, r.err))
      || (r.StopError? && StopRet(r.comp, Some(r.err)) in s.trace)
  }

  lemma CleanResult(cfg: Config, rk: seq<int>, s: State, r: RunError)
    requires Inv(cfg, rk, s) && s.pc.Returned? && s.startFailure == []
    ensures Reported(s, r)
  {
    OnceEach(cfg.after, s.trace);
    StopErrorsAreTheFailedStops(cfg, rk, s, r);
    if r.FatalError? { FatalSeenMeans(s.trace, r.err); }
  }

  lemma NilExactly(s: State)
    requires s.pc.Returned? && forall r :: Reported(s, r)
    ensures s.pc.result == [] <==>
            (forall i, e :: StopRet(i, Some(e)) !in s.trace) && (forall e :: !StoredBeforeLoad(s.trace, e))
  {
    if s.pc.result == [] {
      forall i, e ensures StopRet(i, Some(e)) !in s.trace { assert Reported(s, StopError(i, e)); }
      forall e ensures !StoredBeforeLoad(s.trace, e) { assert Reported(s, FatalError(e)); }
    } else {
      assert Reported(s, s.pc.result[0]);
    }
  }

  /** No interleaving is stuck: unless Run has returned, or is waiting for a cancellation or a
      Fatal that has not come, one of its own steps can be taken. */
  lemma NeverStuck(cfg: Config, steps: seq<Step>, s: State) returns (t: Step)
    requires Reached(cfg, steps, s) && !s.pc.Returned? && (s.pc.Waiting? ==> s.ctxDone || s.fatalClosed)
    ensures Enabled(cfg, s, t) && !OutsideStep(t)
  {
    var rk := InvOf(cfg, steps, s);
    t := OwnStep(cfg, rk, s);
  }

  lemma OwnStep(cfg: Config, rk: seq<int>, s: State) returns (t: Step)
    requires Inv(cfg, rk, s) && !s.pc.Returned? && (s.pc.Waiting? ==> s.ctxDone || s.fatalClosed)
    ensures Enabled(cfg, s, t) && !OutsideStep(t)
  {
    if !StartsQuiet(s) || !StopsQuiet(s) {
      t := GoroutineCanMove(s, rk);
    } else {
      t := MainCanMove(cfg, rk, s);
    }
  }

  lemma GoroutineCanMove(s: State, rk: seq<int>) returns (t: Step)
    requires CompsOk(rk, s) && |rk| == |s.phase| && (!StartsQuiet(s) || !StopsQuiet(s))
    ensures !OutsideStep(t) && forall cfg :: Enabled(cfg, s, t)
  {
    var i :| 0 <= i < |s.phase| && !s.phase[i].Idle? && !s.phase[i].StartDone? && !s.phase[i].StopDone?;
    assert Comp(rk, s, i);
    match s.phase[i]
    case StartSpawned => t := CallStart(i);
    case StartCalled => t := ReturnStart(i, None);
    case StartReturned(_) => t := RecordStart(i);
    case StopSpawned => t := CallStop(i);
    case StopCalled => t := ReturnStop(i, None);
    case StopReturned(_) => t := RecordStop(i);
  }

  lemma MainCanMove(cfg: Config, rk: seq<int>, s: State) returns (t: Step)
    requires Ranked(cfg, rk) && Shape(cfg, s) && PcOk(cfg, rk, s) && StartsQuiet(s) && StopsQuiet(s)
    requires !s.pc.Returned? && (s.pc.Waiting? ==> s.ctxDone || s.fatalClosed)
    ensures Enabled(cfg, s, t) && !OutsideStep(t)
  {
    match s.pc
    case Starting(k, todo) =>
      assert PartOfLevel(rk, k, cfg.levels[k]);
      t := if todo == [] then StartBarrier else SpawnStart;
    case UpHooks(ops) => t := if ops == [] then BeginWait else RunUpOp;
    case Waiting => t := if s.ctxDone then WakeCancelled else WakeFatal;
    case DrainHooks(ops) => t := if ops == [] then EndDrain else RunDrainOp;
    case Stopping(_, todo) => t := if todo == [] then StopBarrier else SpawnStop;
    case Loading => t := LoadFatal;
  }

  // ---- The probes ---------------------------------------------------------------------------

  /** With HealthUp off the drain hooks and HealthDrain among them, an open Ready gate means that
      every component's Start returned nil and no Stop has been called; Live is always open. */
  lemma ReadyMeansServing(cfg: Config, steps: seq<Step>, s: State)
    requires Reached(cfg, steps, s) && ProbesWired(cfg)
    ensures s.gates.live
    ensures s.gates.ready ==> forall i :: 0 <= i < |cfg.after| ==> StartRet(i, None) in s.trace
    ensures s.gates.ready ==> forall i :: StopCall(i) !in s.trace
    ensures s.gates.ready ==> forall i, e :: StartRet(i, Some(e)) !in s.trace
  {
    var rk := InvOf(cfg, steps, s);
    if s.gates.ready {
      forall i | 0 <= i < |cfg.after| ensures StartRet(i, None) in s.trace { assert Comp(rk, s, i); }
      forall i ensures StopCall(i) !in s.trace {
        assert 0 <= i < |rk| ==> Comp(rk, s, i);
        if StopCall(i) in s.trace { StoppedIsComponent(cfg.after, s.trace, i); }
      }
      forall i, e ensures StartRet(i, Some(e)) !in s.trace {
        assert 0 <= i < |rk| ==> Comp(rk, s, i);
        if StartRet(i, Some(e)) in s.trace { ReturnedIsComponent(cfg.after, s.trace, i, Some(e)); }
      }
    }
  }

  /** Once the drain has begun and Ready is closed, no later step opens it. */
  lemma {:induction false} ReadyNeverReopens(cfg: Config, steps: seq<Step>, s: State, more: seq<Step>, s': State)
    requires ProbesWired(cfg) && Reached(cfg, steps, s) && Reached(cfg, steps + more, s')
    requires Draining(s.pc) && !s.gates.ready
    ensures Draining(s'.pc) && !s'.gates.ready
  {
    if more == [] {
      assert steps + more == steps;
    } else {
      var all, init := steps + more, more[..|more| - 1];
      assert all[..|all| - 1] == steps + init;
      var mid := Exec(cfg, steps + init).value;
      ReadyNeverReopens(cfg, steps, s, init, mid);
      var rk := InvOf(cfg, steps + init, mid);
      DrainStaysClosed(cfg, mid, all[|all| - 1]);
    }
  }
}
