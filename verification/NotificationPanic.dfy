/** A run of the notification service in which a handler sends on the closed channel. */
module NotificationPanic {
  import opened Prelude
  import opened Health
  import opened NotificationStack
  import L = LifecycleRun
  import LI = LifecycleInvariant
  import N = Notifications

  /** The system is at `s` after these steps. */
  ghost predicate At(cfg: L.Config, steps: seq<Step>, s: System) { Exec(cfg, steps) == Some(s) }

  lemma Go(cfg: L.Config, steps: seq<Step>, s: System, t: Step)
    requires At(cfg, steps, s) && Enabled(cfg, s, t)
    ensures At(cfg, steps + [t], Next(cfg, s, t))
  {
    ExecExtend(cfg, steps, s, t);
  }

  /** Steps of Run on which the handlers and the worker have no say. */
  predicate OfRunAlone(r: L.Step) {
    !r.ReturnStart? && !r.ReturnStop? && r != L.CallStop(WORKER)
  }

  lemma GoRun(cfg: L.Config, steps: seq<Step>, s: System, r: L.Step)
    requires At(cfg, steps, s) && L.Enabled(cfg, s.run, r) && OfRunAlone(r)
    ensures At(cfg, steps + [RunStep(r)], System(L.Next(cfg, s.run, r), s.q))
  {
    Go(cfg, steps, s, RunStep(r));
  }

  /** No Start has failed and none is under way. */
  predicate Calm(run: L.State) {
    && |run.phase| == |run.started| == |run.startErrs| == 4 && L.StartsQuiet(run) && L.StopsQuiet(run)
    && run.startErrs == [None, None, None, None] && run.startFailure == [] && !run.levelCancelled
  }

  // ---- Booting --------------------------------------------------------------------------------------

  lemma CallNext(cfg: L.Config, steps: seq<Step>, s: System, k: nat, todo: seq<int>) returns (steps': seq<Step>)
    requires At(cfg, steps, s) && Calm(s.run) && todo != [] && 0 <= todo[0] < 4 && s.run.pc == L.Starting(k, todo)
    ensures At(cfg, steps', s.(run := s.run.(phase := s.run.phase[todo[0] := L.StartCalled],
                                             pc := L.Starting(k, todo[1..]),
                                             trace := s.run.trace + [L.StartCall(todo[0])])))
  {
    var i := todo[0];
    GoRun(cfg, steps, s, L.SpawnStart);
    var run := L.DoSpawnStart(s.run);
    GoRun(cfg, steps + [RunStep(L.SpawnStart)], s.(run := run), L.CallStart(i));
    steps' := steps + [RunStep(L.SpawnStart)] + [RunStep(L.CallStart(i))];
    assert run.phase[i := L.StartCalled] == s.run.phase[i := L.StartCalled];
  }

  lemma ReturnNext(cfg: L.Config, steps: seq<Step>, s: System, i: int) returns (steps': seq<Step>)
    requires At(cfg, steps, s) && L.InPhase(s.run, i, L.StartCalled) && s.run.startErrs[i] == None
    requires i == WORKER ==> s.q.worker.NotStarted?
    ensures At(cfg, steps',
               System(s.run.(phase := s.run.phase[i := L.StartDone], started := s.run.started[i := true],
                             trace := s.run.trace + [L.StartRet(i, None)]),
                      if i == WORKER then N.Next(s.q, N.StartWorker) else s.q))
  {
    var ret := L.ReturnStart(i, None);
    Go(cfg, steps, s, RunStep(ret));
    var run, q := L.DoReturnStart(s.run, i, None), if i == WORKER then N.Next(s.q, N.StartWorker) else s.q;
    GoRun(cfg, steps + [RunStep(ret)], System(run, q), L.RecordStart(i));
    steps' := steps + [RunStep(ret)] + [RunStep(L.RecordStart(i))];
    assert run.phase[i := L.StartDone] == s.run.phase[i := L.StartDone];
    assert run.startErrs[i := None] == s.run.startErrs;
  }

  function Booted(run: L.State, i: int): L.State
    requires |run.phase| == |run.started| == 4 && 0 <= i < 4
  {
    run.(phase := run.phase[i := L.StartDone], started := run.started[i := true],
         trace := run.trace + [L.StartCall(i)] + [L.StartRet(i, None)])
  }

  lemma BootedCalm(run: L.State, i: int, pc: L.Pc)
    requires Calm(run) && 0 <= i < 4
    ensures Calm(Booted(run, i).(pc := pc))
  {}

  /** One Start of the first component of `todo`, from spawn to record, returning nil. */
  lemma StartNext(cfg: L.Config, steps: seq<Step>, s: System, k: nat, todo: seq<int>)
    returns (steps': seq<Step>, s': System)
    requires At(cfg, steps, s) && Calm(s.run) && todo != [] && 0 <= todo[0] < 4
    requires s.run.pc == L.Starting(k, todo) && (todo[0] == WORKER ==> s.q.worker.NotStarted?)
    ensures At(cfg, steps', s') && Calm(s'.run)
    ensures s'.run == Booted(s.run, todo[0]).(pc := L.Starting(k, todo[1..]))
    ensures s'.q == if todo[0] == WORKER then N.Next(s.q, N.StartWorker) else s.q
  {
    var i := todo[0];
    steps' := CallNext(cfg, steps, s, k, todo);
    var run := s.run.(phase := s.run.phase[i := L.StartCalled], pc := L.Starting(k, todo[1..]),
                      trace := s.run.trace + [L.StartCall(i)]);
    steps' := ReturnNext(cfg, steps', s.(run := run), i);
    assert run.phase[i := L.StartDone] == s.run.phase[i := L.StartDone];
    BootedCalm(s.run, i, L.Starting(k, todo[1..]));
    s' := System(Booted(s.run, i).(pc := L.Starting(k, todo[1..])),
                 if i == WORKER then N.Next(s.q, N.StartWorker) else s.q);
  }

  lemma {:induction false} NothingToJoin(level: seq<int>, errs: seq<Option<L.Err>>)
    requires forall k :: 0 <= k < |level| ==> 0 <= level[k] < |errs| && errs[level[k]] == None
    ensures L.JoinStartErrors(level, errs) == []
  {
    if level != [] { NothingToJoin(level[1..], errs); }
  }

  lemma LevelUp(cfg: L.Config, steps: seq<Step>, s: System, k: nat) returns (steps': seq<Step>, s': System)
    requires At(cfg, steps, s) && Calm(s.run) && s.run.pc == L.Starting(k, []) && k < |cfg.levels|
    requires forall a :: 0 <= a < |cfg.levels[k]| ==> 0 <= cfg.levels[k][a] < 4
    ensures At(cfg, steps', s')
    ensures s' == s.(run := s.run.(pc := L.BeginLevel(cfg, k + 1)))
  {
    NothingToJoin(cfg.levels[k], s.run.startErrs);
    GoRun(cfg, steps, s, L.StartBarrier);
    steps', s' := steps + [RunStep(L.StartBarrier)], s.(run := s.run.(pc := L.BeginLevel(cfg, k + 1)));
  }

  /** One level of one component. */
  lemma LevelOfOne(cfg: L.Config, steps: seq<Step>, s: System, k: nat, i: int) returns (steps': seq<Step>, s': System)
    requires At(cfg, steps, s) && Calm(s.run) && k < |cfg.levels| && cfg.levels[k] == [i] && 0 <= i < 4
    requires s.run.pc == L.BeginLevel(cfg, k) && (i == WORKER ==> s.q.worker.NotStarted?)
    ensures At(cfg, steps', s') && Calm(s'.run) && s'.run == Booted(s.run, i).(pc := L.BeginLevel(cfg, k + 1))
    ensures s'.q == if i == WORKER then N.Next(s.q, N.StartWorker) else s.q
  {
    steps', s' := StartNext(cfg, steps, s, k, [i]);
    steps', s' := LevelUp(cfg, steps', s', k);
  }

  lemma LevelOfTwo(cfg: L.Config, steps: seq<Step>, s: System, k: nat, i: int, j: int)
    returns (steps': seq<Step>, s': System)
    requires At(cfg, steps, s) && Calm(s.run) && k < |cfg.levels| && cfg.levels[k] == [i, j]
    requires 0 <= i < 4 && 0 <= j < 4 && i != WORKER && j != WORKER && s.run.pc == L.BeginLevel(cfg, k)
    ensures At(cfg, steps', s') && Calm(s'.run) && s'.q == s.q
    ensures s'.run == Booted(Booted(s.run, i), j).(pc := L.BeginLevel(cfg, k + 1))
  {
    steps', s' := StartNext(cfg, steps, s, k, [i, j]);
    steps', s' := StartNext(cfg, steps', s', k, [j]);
    steps', s' := LevelUp(cfg, steps', s', k);
  }

  /** A lifecycle with the stack's levels: what the steps below need to know of it. */
  ghost predicate StackConfig(cfg: L.Config) {
    IsStack(cfg) && cfg.levels == [[CLIENT], [WORKER], [API, ADMIN]]
  }

  function Boot(run: L.State): L.State
    requires |run.phase| == |run.started| == 4
  {
    Booted(Booted(Booted(Booted(run, CLIENT), WORKER), API), ADMIN)
  }

  lemma AllUp(cfg: L.Config) returns (steps: seq<Step>, s: System)
    requires StackConfig(cfg)
    ensures At(cfg, steps, s) && Calm(s.run)
    ensures s.run == Boot(L.Init(cfg)).(pc := L.BeginLevel(cfg, 3))
    ensures s.q == N.Next(N.NEW_QUEUE, N.StartWorker)
  {
    steps, s := [], System(L.Init(cfg), N.NEW_QUEUE);
    assert s.run.startErrs == [None, None, None, None];
    steps, s := LevelOfOne(cfg, steps, s, 0, CLIENT);
    steps, s := LevelOfOne(cfg, steps, s, 1, WORKER);
    steps, s := LevelOfTwo(cfg, steps, s, 2, API, ADMIN);
  }

  // ---- Draining and stopping -----------------------------------------------------------------------

  lemma HooksRun(cfg: L.Config, steps: seq<Step>, s: System) returns (steps': seq<Step>, s': System)
    requires At(cfg, steps, s) && StackConfig(cfg) && s.run.pc == L.UpHooks(FlatOps([HealthUp]))
    ensures At(cfg, steps', s') && s'.q == s.q
    ensures s'.run == s.run.(pc := L.Waiting, gates := s'.run.gates)
  {
    assert [HealthUp][1..] == [];
    var ops := FlatOps([HealthUp]);
    assert ops == HookOps(HealthUp);
    var run1 := L.DoRunUpOp(s.run);
    var run2 := L.DoRunUpOp(run1);
    GoRun(cfg, steps, s, L.RunUpOp);
    steps' := steps + [RunStep(L.RunUpOp)];
    GoRun(cfg, steps', s.(run := run1), L.RunUpOp);
    steps' := steps' + [RunStep(L.RunUpOp)];
    GoRun(cfg, steps', s.(run := run2), L.BeginWait);
    steps', s' := steps' + [RunStep(L.BeginWait)], s.(run := run2.(pc := L.Waiting));
  }

  lemma WakesUp(cfg: L.Config, steps: seq<Step>, s: System) returns (steps': seq<Step>)
    requires At(cfg, steps, s) && StackConfig(cfg) && s.run.pc == L.Waiting
    ensures At(cfg, steps', s.(run := s.run.(ctxDone := true, pc := L.DrainHooks(FlatOps([HealthDrain])))))
  {
    GoRun(cfg, steps, s, L.CancelContext);
    steps' := steps + [RunStep(L.CancelContext)];
    GoRun(cfg, steps', s.(run := s.run.(ctxDone := true)), L.WakeCancelled);
    steps' := steps' + [RunStep(L.WakeCancelled)];
  }

  lemma DrainRuns(cfg: L.Config, steps: seq<Step>, s: System) returns (steps': seq<Step>, s': System)
    requires At(cfg, steps, s) && StackConfig(cfg) && s.run.pc == L.Waiting
    ensures At(cfg, steps', s') && s'.q == s.q
    ensures s'.run == s.run.(pc := L.Stopping(3, [API, ADMIN]), ctxDone := true, gates := s'.run.gates)
  {
    steps' := WakesUp(cfg, steps, s);
    assert [HealthDrain][1..] == [];
    assert FlatOps([HealthDrain]) == [SetGate(ReadyGate, false)];
    var run2 := s.run.(ctxDone := true, pc := L.DrainHooks([SetGate(ReadyGate, false)]));
    var run3 := L.DoRunDrainOp(run2);
    GoRun(cfg, steps', s.(run := run2), L.RunDrainOp);
    steps' := steps' + [RunStep(L.RunDrainOp)];
    GoRun(cfg, steps', s.(run := run3), L.EndDrain);
    steps', s' := steps' + [RunStep(L.EndDrain)], s.(run := run3.(pc := L.BeginStopLevel(cfg, 3)));
  }

  /** One Stop of the first component of `todo`, from spawn to record. */
  lemma StopNext(cfg: L.Config, steps: seq<Step>, s: System, k: nat, todo: seq<int>, e: Option<L.Err>)
    returns (steps': seq<Step>, s': System)
    requires At(cfg, steps, s) && todo != [] && L.IsComp(s.run, todo[0]) && s.run.started[todo[0]]
    requires s.run.pc == L.Stopping(k, todo) && todo[0] != WORKER
             && (todo[0] == API && e == None ==> s.q.pending == map[])
    ensures At(cfg, steps', s') && s'.q == s.q
    ensures s'.run == s.run.(pc := L.Stopping(k, todo[1..]), phase := s.run.phase[todo[0] := L.StopDone],
                             stopErrs := s'.run.stopErrs,
                             trace := s.run.trace + [L.StopCall(todo[0])] + [L.StopRet(todo[0], e)])
  {
    var i := todo[0];
    var run1 := L.DoSpawnStop(s.run);
    var run2 := L.DoCallStop(run1, i);
    GoRun(cfg, steps, s, L.SpawnStop);
    steps' := steps + [RunStep(L.SpawnStop)];
    GoRun(cfg, steps', s.(run := run1), L.CallStop(i));
    steps' := steps' + [RunStep(L.CallStop(i))];
    steps', s' := StopReturns(cfg, steps', s.(run := run2), i, e);
    assert run2.phase[i := L.StopDone] == s.run.phase[i := L.StopDone];
  }

  lemma StopReturns(cfg: L.Config, steps: seq<Step>, s: System, i: int, e: Option<L.Err>)
    returns (steps': seq<Step>, s': System)
    requires At(cfg, steps, s) && L.InPhase(s.run, i, L.StopCalled)
    requires i != WORKER && (i == API && e == None ==> s.q.pending == map[])
    ensures At(cfg, steps', s') && s'.q == s.q
    ensures s'.run == s.run.(phase := s.run.phase[i := L.StopDone], stopErrs := s'.run.stopErrs,
                             trace := s.run.trace + [L.StopRet(i, e)])
  {
    var ret := L.ReturnStop(i, e);
    var run1 := L.DoReturnStop(s.run, i, e);
    Go(cfg, steps, s, RunStep(ret));
    GoRun(cfg, steps + [RunStep(ret)], s.(run := run1), L.RecordStop(i));
    steps' := steps + [RunStep(ret)] + [RunStep(L.RecordStop(i))];
    s' := s.(run := L.DoRecordStop(run1, i));
    assert run1.phase[i := L.StopDone] == s.run.phase[i := L.StopDone];
  }

  /** Both servers stopped, the worker's Stop begins: the queue is closed. */
  lemma WorkerStopBegins(cfg: L.Config, steps: seq<Step>, s: System) returns (steps': seq<Step>, s': System)
    requires At(cfg, steps, s) && StackConfig(cfg) && s.run.pc == L.Stopping(3, []) && L.StopsQuiet(s.run)
    requires L.IsComp(s.run, WORKER) && s.run.started[WORKER]
    ensures At(cfg, steps', s') && s'.q == N.Next(s.q, N.Close)
    ensures s'.run.trace == s.run.trace + [L.StopCall(WORKER)]
  {
    var run1 := s.run.(pc := L.Stopping(2, [WORKER]));
    GoRun(cfg, steps, s, L.StopBarrier);
    steps' := steps + [RunStep(L.StopBarrier)];
    steps', s' := ClosesQueue(cfg, steps', s.(run := run1));
  }

  lemma ClosesQueue(cfg: L.Config, steps: seq<Step>, s: System) returns (steps': seq<Step>, s': System)
    requires At(cfg, steps, s) && s.run.pc == L.Stopping(2, [WORKER]) && L.IsComp(s.run, WORKER)
             && s.run.started[WORKER]
    ensures At(cfg, steps', s') && s'.q == N.Next(s.q, N.Close)
    ensures s'.run.trace == s.run.trace + [L.StopCall(WORKER)]
  {
    var run2 := L.DoSpawnStop(s.run);
    GoRun(cfg, steps, s, L.SpawnStop);
    steps' := steps + [RunStep(L.SpawnStop)];
    Go(cfg, steps', s.(run := run2), RunStep(L.CallStop(WORKER)));
    steps' := steps' + [RunStep(L.CallStop(WORKER))];
    s' := System(L.DoCallStop(run2, WORKER), N.Next(s.q, N.Close));
  }

  // ---- The whole run ------------------------------------------------------------------------------

  const LATE := N.Notification(1, "", "", N.Queued)

  lemma HandlerSubmits(cfg: L.Config, steps: seq<Step>, s: System) returns (steps': seq<Step>, s': System)
    requires At(cfg, steps, s) && Serving(s.run.trace) && s.q == N.Next(N.NEW_QUEUE, N.StartWorker)
    ensures At(cfg, steps', s') && s'.run == s.run
    ensures s'.q.pending == map[0 := LATE] && !s'.q.closed
  {
    var t := QueueStep(N.Submit(0, "", ""));
    Go(cfg, steps, s, t);
    steps', s' := steps + [t], Next(cfg, s, t);
  }

  /** Every component up and nothing stopping, however the gates stand. */
  predicate AllStarted(run: L.State) {
    && |run.phase| == |run.started| == |run.startErrs| == 4 && run.started == [true, true, true, true]
    && (forall i :: 0 <= i < 4 ==> run.phase[i] == L.StartDone)
  }

  const BOOT_TRACE := [L.StartCall(CLIENT), L.StartRet(CLIENT, None), L.StartCall(WORKER), L.StartRet(WORKER, None),
                       L.StartCall(API), L.StartRet(API, None), L.StartCall(ADMIN), L.StartRet(ADMIN, None)]

  lemma BootTraceServes()
    ensures Serving(BOOT_TRACE)
  {
    assert BOOT_TRACE[4] == L.StartCall(API);
  }

  lemma BootIsServing(cfg: L.Config)
    requires StackConfig(cfg)
    ensures AllStarted(Boot(L.Init(cfg))) && Serving(Boot(L.Init(cfg)).trace)
  {
    assert Boot(L.Init(cfg)).trace == BOOT_TRACE;
    BootTraceServes();
  }

  /** The service boots, and a handler registers a notification and is held up before its send. */
  lemma HandlerWaits(cfg: L.Config) returns (steps: seq<Step>, s: System)
    requires StackConfig(cfg)
    ensures At(cfg, steps, s) && s.run.pc == L.Waiting && AllStarted(s.run)
    ensures s.q.pending == map[0 := LATE] && !s.q.closed
  {
    BootIsServing(cfg);
    steps, s := AllUp(cfg);
    steps, s := HooksRun(cfg, steps, s);
    steps, s := HandlerSubmits(cfg, steps, s);
  }

  /** The context is cancelled, the API's Shutdown gives up with an error, the other server stops, and
      the worker's Stop closes the queue. */
  lemma QueueCloses(cfg: L.Config, steps: seq<Step>, s: System, e: L.Err) returns (steps': seq<Step>, s': System)
    requires At(cfg, steps, s) && StackConfig(cfg) && s.run.pc == L.Waiting && AllStarted(s.run)
    ensures At(cfg, steps', s') && s'.q == N.Next(s.q, N.Close)
    ensures L.StopRet(API, Some(e)) in s'.run.trace && L.StopCall(WORKER) in s'.run.trace
  {
    steps', s' := DrainRuns(cfg, steps, s);
    steps', s' := StopNext(cfg, steps', s', 3, [API, ADMIN], Some(e));
    assert [API, ADMIN][1..] == [ADMIN];
    steps', s' := StopNext(cfg, steps', s', 3, [ADMIN], None);
    assert [ADMIN][1..] == [];
    var tr := s'.run.trace;
    assert L.StopRet(API, Some(e)) in tr;
    steps', s' := WorkerStopBegins(cfg, steps', s');
    assert s'.run.trace == tr + [L.StopCall(WORKER)];
  }

  /** The held-up handler then sends on the closed channel. */
  lemma LateHandlerPanics(cfg: L.Config, e: L.Err) returns (steps: seq<Step>, s: System)
    requires IsStack(cfg)
    ensures Exec(cfg, steps) == Some(s) && s.q.panicked
    ensures LI.StopFailedIn(s.run.trace, API) && L.StopCall(WORKER) in s.run.trace
  {
    StackLevels();
    steps, s := HandlerWaits(cfg);
    steps, s := QueueCloses(cfg, steps, s, e);
    var t := QueueStep(N.Send(0));
    Go(cfg, steps, s, t);
    steps, s := steps + [t], Next(cfg, s, t);
  }
}
