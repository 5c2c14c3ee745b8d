/** Run gets to its end: every step of its own uses up part of a finite amount. */
module LifecycleProgress {
  import opened Health
  import opened LifecycleRun
  import opened LifecycleInvariant
  import opened LifecycleSteps
  import opened LifecycleTheorems

  /** Steps that the goroutines of one component still have to take. */
  function Weight(ph: Phase): nat {
    match ph
    case Idle => 8
    case StartSpawned => 7
    case StartCalled => 6
    case StartReturned(_) => 5
    case StartDone => 4
    case StopSpawned => 3
    case StopCalled => 2
    case StopReturned(_) => 1
    case StopDone => 0
  }

  function Weights(phase: seq<Phase>): nat {
    if phase == [] then 0 else Weights(phase[..|phase| - 1]) + Weight(phase[|phase| - 1])
  }

  lemma {:induction false} WeightsUpdate(phase: seq<Phase>, i: nat, ph: Phase)
    requires i < |phase|
    ensures Weights(phase[i := ph]) == Weights(phase) - Weight(phase[i]) + Weight(ph)
  {
    var m := |phase| - 1;
    if i < m {
      WeightsUpdate(phase[..m], i, ph);
      assert phase[i := ph][..m] == phase[..m][i := ph];
    } else {
      assert phase[i := ph][..m] == phase[..m];
    }
  }

  /** Turns of the spawn loop and barriers of levels `k` and up. */
  function StartCost(levels: seq<seq<int>>, k: nat): nat
    decreases |levels| - k
  {
    if k >= |levels| then 0 else |levels[k]| + 1 + StartCost(levels, k + 1)
  }

  /** The same of the first `left` levels, for the reverse loop. */
  function StopCost(levels: seq<seq<int>>, left: nat): nat
    requires left <= |levels|
  {
    if left == 0 then 0 else |levels[left - 1]| + 1 + StopCost(levels, left - 1)
  }

  /** What is left from the first stop to the return. */
  function Unwinding(cfg: Config): nat { StopCost(cfg.levels, |cfg.levels|) + 1 }

  function Drain(cfg: Config): nat { |FlatOps(cfg.drainHooks)| + 1 + Unwinding(cfg) }

  /** What is left once every component is up. */
  function Up(cfg: Config): nat { |FlatOps(cfg.startedHooks)| + 1 + (1 + Drain(cfg)) }

  /** Steps that the main goroutine still has to take at most. */
  function Ahead(cfg: Config, pc: Pc): nat {
    match pc
    case Starting(k, todo) => |todo| + 1 + StartCost(cfg.levels, k + 1) + Up(cfg)
    case UpHooks(ops) => |ops| + 1 + (1 + Drain(cfg))
    case Waiting => 1 + Drain(cfg)
    case DrainHooks(ops) => |ops| + 1 + Unwinding(cfg)
    case Stopping(left, todo) =>
      if 0 < left <= |cfg.levels| then |todo| + 1 + StopCost(cfg.levels, left - 1) + 1 else 0
    case Loading => 1
    case Returned(_) => 0
  }

  /** Steps that Run still has to take at most. */
  function Measure(cfg: Config, s: State): nat { Ahead(cfg, s.pc) + Weights(s.phase) }

  lemma GoroutineDescends(cfg: Config, s: State, t: Step, i: int)
    requires Enabled(cfg, s, t) && GoroutineStep(t, i)
    ensures Measure(cfg, Next(cfg, s, t)) < Measure(cfg, s)
  {
    var s' := Next(cfg, s, t);
    assert s'.phase == s.phase[i := s'.phase[i]] && s'.pc == s.pc;
    WeightsUpdate(s.phase, i, s'.phase[i]);
  }

  lemma SpawnStartDescends(cfg: Config, rk: seq<int>, s: State)
    requires CanSpawnStart(s) && Comp(rk, s, s.pc.todo[0])
    requires rk[s.pc.todo[0]] == s.pc.level
    ensures Measure(cfg, DoSpawnStart(s)) < Measure(cfg, s)
  {
    assert s.pc.todo[0] in s.pc.todo;
    WeightsUpdate(s.phase, s.pc.todo[0], StartSpawned);
  }

  lemma SpawnStopDescends(cfg: Config, rk: seq<int>, s: State)
    requires CanSpawnStop(s) && Comp(rk, s, s.pc.todo[0])
    requires rk[s.pc.todo[0]] == s.pc.left - 1 && 0 < s.pc.left <= |cfg.levels|
    ensures Measure(cfg, DoSpawnStop(s)) < Measure(cfg, s)
  {
    assert s.pc.todo[0] in s.pc.todo;
    WeightsUpdate(s.phase, s.pc.todo[0], StopSpawned);
  }

  lemma SpawnDescends(cfg: Config, rk: seq<int>, s: State, t: Step)
    requires Shape(cfg, s) && |rk| == |cfg.after| && PcOk(cfg, rk, s) && CompsOk(rk, s)
    requires (t.SpawnStart? || t.SpawnStop?) && Enabled(cfg, s, t)
    ensures Measure(cfg, Next(cfg, s, t)) < Measure(cfg, s)
  {
    assert Comp(rk, s, s.pc.todo[0]);
    if t.SpawnStart? { SpawnStartDescends(cfg, rk, s); } else { SpawnStopDescends(cfg, rk, s); }
  }

  lemma LevelAhead(cfg: Config, k: nat)
    requires k <= |cfg.levels|
    ensures Ahead(cfg, BeginLevel(cfg, k)) == StartCost(cfg.levels, k) + Up(cfg)
  {}

  lemma StopLevelAhead(cfg: Config, left: nat)
    requires left <= |cfg.levels|
    ensures Ahead(cfg, BeginStopLevel(cfg, left)) == StopCost(cfg.levels, left) + 1
  {}

  lemma StartBarrierDescends(cfg: Config, s: State)
    requires CanPassStartBarrier(cfg, s)
    ensures Ahead(cfg, DoStartBarrier(cfg, s).pc) < Ahead(cfg, s.pc)
  {
    LevelAhead(cfg, s.pc.level + 1);
    StopLevelAhead(cfg, |cfg.levels|);
  }

  lemma StopBarrierDescends(cfg: Config, s: State)
    requires CanPassStopBarrier(cfg, s)
    ensures Ahead(cfg, DoStopBarrier(cfg, s).pc) < Ahead(cfg, s.pc)
  {
    StopLevelAhead(cfg, s.pc.left - 1);
  }

  lemma BarrierDescends(cfg: Config, s: State, t: Step)
    requires (t.StartBarrier? || t.StopBarrier?) && Enabled(cfg, s, t)
    ensures Measure(cfg, Next(cfg, s, t)) < Measure(cfg, s)
  {
    if t.StartBarrier? { StartBarrierDescends(cfg, s); } else { StopBarrierDescends(cfg, s); }
  }

  lemma HookDescends(cfg: Config, s: State, t: Step)
    requires (t.RunUpOp? || t.BeginWait? || t.WakeCancelled? || t.WakeFatal? || t.RunDrainOp?) && Enabled(cfg, s, t)
    ensures Measure(cfg, Next(cfg, s, t)) < Measure(cfg, s)
  {}

  lemma EndDescends(cfg: Config, s: State, t: Step)
    requires (t.EndDrain? || t.LoadFatal?) && Enabled(cfg, s, t)
    ensures Measure(cfg, Next(cfg, s, t)) < Measure(cfg, s)
  {
    if t.EndDrain? {
      StopLevelAhead(cfg, |cfg.levels|);
    } else {
      ReturnDescends(cfg, s);
    }
  }

  lemma ReturnDescends(cfg: Config, s: State)
    requires s.pc.Loading?
    ensures Measure(cfg, DoLoadFatal(s)) < Measure(cfg, s)
  {}

  /** A step of Run takes something off the measure. */
  lemma StepDescends(cfg: Config, rk: seq<int>, s: State, t: Step)
    requires Inv(cfg, rk, s) && Enabled(cfg, s, t) && !OutsideStep(t)
    ensures Measure(cfg, Next(cfg, s, t)) < Measure(cfg, s)
  {
    if i :| GoroutineStep(t, i) {
      GoroutineDescends(cfg, s, t, i);
    } else if t.EndDrain? || t.LoadFatal? {
      EndDescends(cfg, s, t);
    } else if MiddleStep(t) {
      HookDescends(cfg, s, t);
    } else if t.SpawnStart? || t.SpawnStop? {
      SpawnDescends(cfg, rk, s, t);
    } else {
      NotAGoroutine(t);
      BarrierDescends(cfg, s, t);
    }
  }

  /** A cancellation or a Fatal call leaves it. */
  lemma OutsideKeeps(cfg: Config, s: State, t: Step)
    requires Enabled(cfg, s, t) && OutsideStep(t)
    ensures Measure(cfg, Next(cfg, s, t)) == Measure(cfg, s)
  {}

  /** How many of the steps are Run's own. */
  function Own(steps: seq<Step>): nat {
    if steps == [] then 0 else Own(steps[..|steps| - 1]) + if OutsideStep(steps[|steps| - 1]) then 0 else 1
  }

  /** From any reachable state on, whatever cancellations and Fatal calls come in between, Run takes
      at most as many steps of its own as the measure says, its goroutines' included. */
  lemma {:induction false} OwnStepsAreBounded(cfg: Config, steps: seq<Step>, s: State, more: seq<Step>, s': State)
    requires Reached(cfg, steps, s) && Reached(cfg, steps + more, s')
    ensures Own(more) + Measure(cfg, s') <= Measure(cfg, s)
  {
    if more == [] {
      assert steps + more == steps;
    } else {
      var all, init := steps + more, more[..|more| - 1];
      assert all[..|all| - 1] == steps + init;
      var mid := Exec(cfg, steps + init).value;
      OwnStepsAreBounded(cfg, steps, s, init, mid);
      var rk := InvOf(cfg, steps + init, mid);
      var t := all[|all| - 1];
      if OutsideStep(t) { OutsideKeeps(cfg, mid, t); } else { StepDescends(cfg, rk, mid, t); }
    }
  }

  lemma ExecOneMore(cfg: Config, steps: seq<Step>, s: State, t: Step)
    requires Reached(cfg, steps, s) && Enabled(cfg, s, t)
    ensures Reached(cfg, steps + [t], Next(cfg, s, t))
  {
    assert (steps + [t])[..|steps|] == steps;
  }

  /** An awaited wake-up, once it has come, stays. */
  lemma StaysAwake(cfg: Config, s: State, t: Step)
    requires Enabled(cfg, s, t) && (s.ctxDone || s.fatalClosed)
    ensures Next(cfg, s, t).ctxDone || Next(cfg, s, t).fatalClosed
  {}

  /** Once cancelled or told of a fatal error, Run returns: with steps of its own alone, and at most
      as many as the measure says. */
  lemma {:induction false} WokenRunReturns(cfg: Config, steps: seq<Step>, s: State) returns (more: seq<Step>, s': State)
    requires Reached(cfg, steps, s) && (s.ctxDone || s.fatalClosed)
    ensures Reached(cfg, steps + more, s') && s'.pc.Returned?
    ensures |more| <= Measure(cfg, s) && forall t :: t in more ==> !OutsideStep(t)
    decreases Measure(cfg, s)
  {
    if s.pc.Returned? {
      more, s' := [], s;
      assert steps + [] == steps;
    } else {
      var t, next := OneOwnStep(cfg, steps, s);
      var rest;
      rest, s' := WokenRunReturns(cfg, steps + [t], next);
      more := [t] + rest;
      Rejoin(cfg, steps, t, rest, s');
    }
  }

  lemma Rejoin(cfg: Config, steps: seq<Step>, t: Step, rest: seq<Step>, s: State)
    requires Reached(cfg, steps + [t] + rest, s)
    ensures Reached(cfg, steps + ([t] + rest), s)
  {
    assert steps + [t] + rest == steps + ([t] + rest);
  }

  lemma OneOwnStep(cfg: Config, steps: seq<Step>, s: State) returns (t: Step, s': State)
    requires Reached(cfg, steps, s) && (s.ctxDone || s.fatalClosed) && !s.pc.Returned?
    ensures Reached(cfg, steps + [t], s') && !OutsideStep(t) && (s'.ctxDone || s'.fatalClosed)
    ensures Measure(cfg, s') < Measure(cfg, s)
  {
    var rk := InvOf(cfg, steps, s);
    t := NeverStuck(cfg, steps, s);
    s' := Next(cfg, s, t);
    StepDescends(cfg, rk, s, t);
    ExecOneMore(cfg, steps, s, t);
    StaysAwake(cfg, s, t);
  }
}
