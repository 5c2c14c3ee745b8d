/** When Run begins to stop a healthy service, and what its probes say until then. */
module LifecycleWaking {
  import opened Prelude
  import opened Health
  import opened LifecycleRun
  import opened LifecycleInvariant
  import opened LifecycleSteps
  import opened LifecycleTheorems

  // ---- What wakes it --------------------------------------------------------------------------------

  /** Without a failed start, Run is past its wait only when something has woken it. */
  predicate WokenUp(s: State) { Draining(s.pc) && s.startFailure == [] ==> s.ctxDone || s.fatalClosed }

  lemma WokenStep(cfg: Config, s: State, t: Step)
    requires WokenUp(s) && Enabled(cfg, s, t)
    ensures WokenUp(Next(cfg, s, t))
  {
    if t.StartBarrier? { WokenBarrier(cfg, s); }
  }

  lemma WokenBarrier(cfg: Config, s: State)
    requires CanPassStartBarrier(cfg, s) && WokenUp(s)
    ensures WokenUp(DoStartBarrier(cfg, s))
  {}

  lemma CancelStep(cfg: Config, s: State, t: Step)
    requires Enabled(cfg, s, t)
    ensures Next(cfg, s, t).ctxDone <==> s.ctxDone || t == CancelContext
  {}

  lemma {:induction false} WokenOnly(cfg: Config, steps: seq<Step>, s: State)
    requires Exec(cfg, steps) == Some(s)
    ensures WokenUp(s) && (s.ctxDone <==> CancelContext in steps)
  {
    if steps != [] {
      var m := |steps| - 1;
      var pre := Exec(cfg, steps[..m]).value;
      WokenOnly(cfg, steps[..m], pre);
      WokenStep(cfg, pre, steps[m]);
      CancelStep(cfg, pre, steps[m]);
      assert steps == steps[..m] + [steps[m]];
    }
  }

  lemma FailureWasSeen(cfg: Config, rk: seq<int>, s: State) returns (i: int, e: Err)
    requires Inv(cfg, rk, s) && s.startFailure != []
    ensures StartRet(i, Some(e)) in s.trace
  {
    var r := s.startFailure[0];
    assert r in s.startFailure;
    assert Comp(rk, s, r.comp);
    assert StartOutcome(s, r.comp) == Some(Some(r.err));
    i, e := r.comp, r.err;
  }

  lemma NoFailureSeen(cfg: Config, rk: seq<int>, s: State)
    requires Inv(cfg, rk, s) && forall i, e :: StartRet(i, Some(e)) !in s.trace
    ensures s.startFailure == []
  {
    if s.startFailure != [] {
      var i, e := FailureWasSeen(cfg, rk, s);
      assert false;
    }
  }

  lemma StopMeansDraining(cfg: Config, rk: seq<int>, s: State, i: int)
    requires Inv(cfg, rk, s) && StopCall(i) in s.trace
    ensures Draining(s.pc)
  {
    StoppedIsComponent(cfg.after, s.trace, i);
    assert Comp(rk, s, i);
  }

  /** A service whose Starts have not failed keeps running until it is told to stop: once the drain has
      begun, or any Stop has been called, or Run has returned, the caller had cancelled the context or a
      Fatal call had closed the channel. */
  lemma KeepsRunningUntilTold(cfg: Config, steps: seq<Step>, s: State)
    requires Reached(cfg, steps, s) && forall i, e :: StartRet(i, Some(e)) !in s.trace
    requires s.pc.DrainHooks? || s.pc.Stopping? || s.pc.Loading? || s.pc.Returned? || exists i :: StopCall(i) in s.trace
    ensures CancelContext in steps || FatalClosed in s.trace
  {
    var rk := InvOf(cfg, steps, s);
    WokenOnly(cfg, steps, s);
    NoFailureSeen(cfg, rk, s);
    if i :| StopCall(i) in s.trace { StopMeansDraining(cfg, rk, s, i); }
  }

  // ---- What the probes say ----------------------------------------------------------------------------

  /** The gates after these hooks, from the state NewHealth leaves. */
  function GatesAfter(hooks: seq<Hook>): Gates { Gates(HealthUp in hooks, true, ReadyAfter(hooks, false)) }

  /** All stores of `all` but the last ones, `ops`, have been made. */
  predicate Applied(from: Gates, all: seq<GateOp>, ops: seq<GateOp>, gates: Gates) {
    |ops| <= |all| && ops == all[|all| - |ops|..] && gates == StoreAll(from, all[..|all| - |ops|])
  }

  predicate GatesAsTold(cfg: Config, s: State) {
    && (!Draining(s.pc) ==> s.startFailure == [])
    && match s.pc
       case Starting(_, _) => s.gates == NEW_GATES
       case UpHooks(ops) => Applied(NEW_GATES, FlatOps(cfg.startedHooks), ops, s.gates)
       case Waiting => s.gates == GatesAfter(cfg.startedHooks)
       case DrainHooks(ops) =>
         s.startFailure == [] && Applied(GatesAfter(cfg.startedHooks), FlatOps(cfg.drainHooks), ops, s.gates)
       case _ =>
         s.gates == if s.startFailure == [] then GatesAfter(cfg.startedHooks + cfg.drainHooks) else NEW_GATES
  }

  lemma OneMoreStore(from: Gates, all: seq<GateOp>, ops: seq<GateOp>, gates: Gates)
    requires ops != [] && Applied(from, all, ops, gates)
    ensures Applied(from, all, ops[1..], Store(gates, ops[0]))
  {
    var k := |all| - |ops|;
    assert all[..k + 1] == all[..k] + [ops[0]];
    StoreAllConcat(from, all[..k], [ops[0]]);
  }

  lemma AllStored(from: Gates, hooks: seq<Hook>, gates: Gates)
    requires Applied(from, FlatOps(hooks), [], gates)
    ensures gates == Gates(from.started || HealthUp in hooks, from.live, ReadyAfter(hooks, from.ready))
  {
    var all := FlatOps(hooks);
    assert all[..|all|] == all;
    HooksInOrder(from, hooks);
  }

  lemma {:induction false} ReadyAfterBoth(a: seq<Hook>, b: seq<Hook>, was: bool)
    ensures ReadyAfter(a + b, was) == ReadyAfter(b, ReadyAfter(a, was))
  {
    if b == [] {
      assert a + b == a;
    } else {
      var m := |b| - 1;
      ReadyAfterBoth(a, b[..m], was);
      assert (a + b)[..|a + b| - 1] == a + b[..m];
    }
  }

  lemma ToldAfterHook(cfg: Config, s: State, t: Step)
    requires GatesAsTold(cfg, s) && MiddleStep(t) && Enabled(cfg, s, t)
    ensures GatesAsTold(cfg, Next(cfg, s, t))
  {
    if t.RunUpOp? {
      OneMoreStore(NEW_GATES, FlatOps(cfg.startedHooks), s.pc.ops, s.gates);
    } else if t.BeginWait? {
      AllStored(NEW_GATES, cfg.startedHooks, s.gates);
    } else if t.RunDrainOp? {
      OneMoreStore(GatesAfter(cfg.startedHooks), FlatOps(cfg.drainHooks), s.pc.ops, s.gates);
    } else if t.EndDrain? {
      ToldAfterDrain(cfg, s);
    }
  }

  lemma ToldAfterDrain(cfg: Config, s: State)
    requires GatesAsTold(cfg, s) && Enabled(cfg, s, EndDrain)
    ensures GatesAsTold(cfg, Next(cfg, s, EndDrain))
  {
    AllStored(GatesAfter(cfg.startedHooks), cfg.drainHooks, s.gates);
    ReadyAfterBoth(cfg.startedHooks, cfg.drainHooks, false);
  }

  lemma ToldAfterLoop(cfg: Config, s: State, t: Step)
    requires GatesAsTold(cfg, s) && LoopStep(t) && Enabled(cfg, s, t)
    ensures GatesAsTold(cfg, Next(cfg, s, t))
  {
    if t.StartBarrier? { ToldAfterBarrier(cfg, s); }
  }

  lemma ToldAfterBarrier(cfg: Config, s: State)
    requires GatesAsTold(cfg, s) && CanPassStartBarrier(cfg, s)
    ensures GatesAsTold(cfg, DoStartBarrier(cfg, s))
  {}

  lemma ToldFrame(cfg: Config, s: State, s': State)
    requires GatesAsTold(cfg, s) && s'.pc == s.pc && s'.gates == s.gates && s'.startFailure == s.startFailure
    ensures GatesAsTold(cfg, s')
  {}

  lemma ToldStep(cfg: Config, s: State, t: Step)
    requires GatesAsTold(cfg, s) && Enabled(cfg, s, t)
    ensures GatesAsTold(cfg, Next(cfg, s, t))
  {
    if MiddleStep(t) {
      ToldAfterHook(cfg, s, t);
    } else if LoopStep(t) {
      ToldAfterLoop(cfg, s, t);
    } else {
      ToldFrame(cfg, s, Next(cfg, s, t));
    }
  }

  lemma {:induction false} ToldReached(cfg: Config, steps: seq<Step>, s: State)
    requires Exec(cfg, steps) == Some(s)
    ensures GatesAsTold(cfg, s)
  {
    if steps != [] {
      var m := |steps| - 1;
      var pre := Exec(cfg, steps[..m]).value;
      ToldReached(cfg, steps[..m], pre);
      ToldStep(cfg, pre, steps[m]);
    }
  }

  lemma FailureIsKept(cfg: Config, rk: seq<int>, s: State, i: int, e: Err)
    requires Inv(cfg, rk, s) && Draining(s.pc) && StartRet(i, Some(e)) in s.trace
    ensures s.startFailure != []
  {
    ReturnedIsComponent(cfg.after, s.trace, i, Some(e));
    assert Comp(rk, s, i);
  }

  /** What the probes say, whatever the hooks: as NewHealth left them until the last Start is back and
      throughout a failed boot; as the started hooks in their order say while Run waits; and as these and the
      drain hooks say from the first Stop on. */
  lemma GatesExactly(cfg: Config, steps: seq<Step>, s: State)
    requires Reached(cfg, steps, s)
    ensures s.pc.Starting? || (exists i, e :: StartRet(i, Some(e)) in s.trace) ==> s.gates == NEW_GATES
    ensures s.pc.Waiting? ==>
              s.gates == Gates(HealthUp in cfg.startedHooks, true, ReadyAfter(cfg.startedHooks, false))
    ensures (s.pc.Stopping? || s.pc.Loading? || s.pc.Returned?) && (forall i, e :: StartRet(i, Some(e)) !in s.trace) ==>
              var hooks := cfg.startedHooks + cfg.drainHooks;
              s.gates == Gates(HealthUp in hooks, true, ReadyAfter(hooks, false))
  {
    var rk := InvOf(cfg, steps, s);
    ToldReached(cfg, steps, s);
    if i, e :| StartRet(i, Some(e)) in s.trace {
      if Draining(s.pc) { FailureIsKept(cfg, rk, s, i, e); } else { FailedWhileStarting(cfg, rk, s, i, e); }
    } else {
      NoFailureSeen(cfg, rk, s);
    }
  }

  lemma FailedWhileStarting(cfg: Config, rk: seq<int>, s: State, i: int, e: Err)
    requires Inv(cfg, rk, s) && !Draining(s.pc) && StartRet(i, Some(e)) in s.trace
    ensures s.pc.Starting?
  {
    ReturnedIsComponent(cfg.after, s.trace, i, Some(e));
    assert Comp(rk, s, i);
  }

  lemma {:induction false} StartedStays(g: Gates, ops: seq<GateOp>)
    requires g.started && SetGate(StartedGate, false) !in ops
    ensures StoreAll(g, ops).started
    decreases ops
  {
    if ops != [] {
      assert ops == [ops[0]] + ops[1..];
      StartedStays(Store(g, ops[0]), ops[1..]);
    }
  }

  lemma {:induction false} StartedIsNeverClosed(hooks: seq<Hook>)
    ensures SetGate(StartedGate, false) !in FlatOps(hooks)
  {
    if hooks != [] {
      StartedIsNeverClosed(hooks[1..]);
      assert SetGate(StartedGate, false) !in HookOps(hooks[0]);
    }
  }

  lemma {:induction false} UpHasTheLastWord(hooks: seq<Hook>, was: bool)
    requires HealthDrain !in hooks
    ensures ReadyAfter(hooks, was) == (was || HealthUp in hooks)
  {
    if hooks != [] {
      assert hooks == hooks[..|hooks| - 1] + [hooks[|hooks| - 1]];
      UpHasTheLastWord(hooks[..|hooks| - 1], was);
    }
  }

  /** With HealthUp among the started hooks and HealthDrain not, Started and Ready are both open while Run
      waits, and after a clean boot Started stays open to the end. */
  lemma UpWhileWaiting(cfg: Config, steps: seq<Step>, s: State)
    requires Reached(cfg, steps, s) && HealthUp in cfg.startedHooks && HealthDrain !in cfg.startedHooks
    ensures s.pc.Waiting? ==> s.gates.started && s.gates.ready
    ensures Draining(s.pc) && (forall i, e :: StartRet(i, Some(e)) !in s.trace) ==> s.gates.started
  {
    GatesExactly(cfg, steps, s);
    UpHasTheLastWord(cfg.startedHooks, false);
    ToldReached(cfg, steps, s);
    if s.pc.DrainHooks? {
      StartedIsNeverClosed(cfg.drainHooks);
      var all := FlatOps(cfg.drainHooks);
      StartedStays(GatesAfter(cfg.startedHooks), all[..|all| - |s.pc.ops|]);
    }
  }
}
